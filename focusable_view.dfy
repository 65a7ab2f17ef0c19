/** `SpatialNavigationFocusableView` (components/SpatialNavigationCompat.tsx):
    the rule deciding whether a view registers, the entry it registers, and
    which of its callbacks the focus effect calls. */
module FocusableView {
  import opened Options
  import opened Registry
  import opened Navigation

  /** The props of one view that matter to navigation. */
  datatype ViewProps = ViewProps(
    focusKey: Option<string>,
    disabled: bool,
    onSelect: Option<Action>,
    onFocus: Option<Action>,
    onBlur: Option<Action>)

  /** `focusKey && !disabled`: an absent or empty key is falsy. */
  predicate ShouldRegister(p: ViewProps) {
    p.focusKey.Some? && p.focusKey.value != "" && !p.disabled
  }

  function EntryOf(p: ViewProps): Entry {
    Entry(p.onSelect, p.onFocus, p.onBlur)
  }

  /** The register effect on mount. */
  function Mounted(s: RootState, p: ViewProps): (r: RootState)
    ensures WellFormed(s) ==> WellFormed(r)
    ensures r.focused == s.focused && r.positions == s.positions && r.selectLog == s.selectLog
    ensures ShouldRegister(p) ==> Lookup(r.elements, p.focusKey.value) == Some(EntryOf(p))
    ensures !ShouldRegister(p) ==> r == s
  {
    if ShouldRegister(p) then
      PutLookup(s.elements, p.focusKey.value, EntryOf(p), p.focusKey.value);
      Register(s, p.focusKey.value, EntryOf(p))
    else s
  }

  /** The cleanup of the register effect on unmount: only a view that
      registered unregisters. */
  function Unmounted(s: RootState, p: ViewProps): (r: RootState)
    ensures WellFormed(s) ==> WellFormed(r)
    ensures r.focused == s.focused && r.positions == s.positions && r.selectLog == s.selectLog
    ensures ShouldRegister(p) && WellFormed(s) ==> !Has(r.elements, p.focusKey.value)
    ensures !ShouldRegister(p) ==> r == s
  {
    if ShouldRegister(p) then Unregister(s, p.focusKey.value) else s
  }

  /** `isFocused`: the root's focus names this view's key. */
  predicate IsFocused(p: ViewProps, focused: Option<string>) {
    p.focusKey.Some? && focused == p.focusKey
  }

  /** The callback the focus effect calls for the current focus, if any:
      onFocus when this view is focused, onBlur when it is not. */
  function FocusCallback(p: ViewProps, focused: Option<string>): (r: Option<Action>)
    ensures r.Some? ==> (IsFocused(p, focused) && r == p.onFocus) || (!IsFocused(p, focused) && r == p.onBlur)
    ensures p.focusKey.None? || p.focusKey.value == "" ==> r == None
    ensures p.focusKey.Some? && p.focusKey.value != "" && !IsFocused(p, focused) ==> r == p.onBlur
    ensures IsFocused(p, focused) && p.focusKey.value != "" ==> r == p.onFocus
  {
    if p.focusKey.Some? && p.focusKey.value != "" && focused == p.focusKey && p.onFocus.Some? then p.onFocus
    else if p.focusKey.Some? && p.focusKey.value != "" && focused != p.focusKey && p.onBlur.Some? then p.onBlur
    else None
  }

  /** A mounted view adds exactly its own key, and only when it has a key
      and is enabled; a disabled or key-less view leaves the root as it was. */
  lemma MountRegistersOnlyEnabled(s: RootState, p: ViewProps, k: string)
    ensures !ShouldRegister(p) ==> Mounted(s, p) == s
    ensures Has(Mounted(s, p).elements, k) <==> Has(s.elements, k) || (ShouldRegister(p) && p.focusKey == Some(k))
    ensures ShouldRegister(p) ==> Lookup(Mounted(s, p).elements, p.focusKey.value) == Some(EntryOf(p))
    ensures Mounted(s, p).focused == s.focused
  {
    if ShouldRegister(p) {
      PutLookup(s.elements, p.focusKey.value, EntryOf(p), k);
      PutLookup(s.elements, p.focusKey.value, EntryOf(p), p.focusKey.value);
    }
  }

  /** Mounting a view whose key is not yet registered and unmounting it
      again restores the registry. */
  lemma MountUnmountRoundTrip(s: RootState, p: ViewProps)
    requires WellFormed(s)
    requires p.focusKey.Some? ==> !Has(s.elements, p.focusKey.value)
    ensures Unmounted(Mounted(s, p), p) == s
  {
    if ShouldRegister(p) {
      var key, m := p.focusKey.value, s.elements;
      var r := Registration(key, EntryOf(p));
      assert Put(m, key, EntryOf(p)) == m + [r];
      IndexOfFirst(m + [r], key, |m|);
      assert (m + [r])[..|m|] == m;
    }
  }

  /** The adapter's mount effect on a live root. */
  method Mount(root: NavigationRoot, p: ViewProps)
    requires root.Valid()
    modifies root
    ensures root.Valid() && root.State() == Mounted(old(root.State()), p)
  {
    if ShouldRegister(p) {
      root.RegisterFocusable(p.focusKey.value, EntryOf(p));
    }
  }

  /** The adapter's unmount cleanup on a live root. */
  method Unmount(root: NavigationRoot, p: ViewProps)
    requires root.Valid()
    modifies root
    ensures root.Valid() && root.State() == Unmounted(old(root.State()), p)
  {
    if ShouldRegister(p) {
      root.UnregisterFocusable(p.focusKey.value);
    }
  }
}
