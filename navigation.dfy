/** The state of `SpatialNavigationRoot` (components/SpatialNavigationCompat.tsx)
    and its operations: first as pure transitions on a state value, then as
    the class whose methods update that state in place. */
module Navigation {
  import opened Options
  import opened Geometry
  import opened Registry
  import opened Resolver
  import opened Input

  /** `focusedElement`, `focusableElements`, `elementPositions`, and the
      onSelect callbacks invoked so far, in order. */
  datatype RootState = RootState(
    focused: Option<string>,
    elements: seq<Registration>,
    positions: map<string, Rect>,
    selectLog: seq<Action>)

  predicate WellFormed(s: RootState) {
    UniqueKeys(s.elements)
  }

  /** The intended invariant that focus names a registered key;
      `unregisterFocusable` does not maintain it (see UnregisterLeavesStaleFocus). */
  predicate FocusRegistered(s: RootState) {
    s.focused.Some? ==> Has(s.elements, s.focused.value)
  }

  function Initial(): RootState {
    RootState(None, [], map[], [])
  }

  /** JavaScript truthiness of `focusedElement`: null and "" are falsy. */
  predicate HasFocus(focused: Option<string>) {
    focused.Some? && focused.value != ""
  }

  function Register(s: RootState, key: string, entry: Entry): (r: RootState)
    ensures WellFormed(s) ==> WellFormed(r)
    ensures r.focused == s.focused && r.positions == s.positions && r.selectLog == s.selectLog
  {
    s.(elements := Put(s.elements, key, entry))
  }

  function Unregister(s: RootState, key: string): (r: RootState)
    ensures WellFormed(s) ==> WellFormed(r) && !Has(r.elements, key)
    ensures r.focused == s.focused && r.positions == s.positions && r.selectLog == s.selectLog
  {
    RemoveDropsKey(s.elements, key);
    s.(elements := Remove(s.elements, key))
  }

  /** `unregisterFocusable` as intended: removing the focused key also
      clears focus, so focus never names a key that is gone. */
  function UnregisterClearing(s: RootState, key: string): (r: RootState)
    ensures WellFormed(s) ==> WellFormed(r) && !Has(r.elements, key) && r.focused != Some(key)
    ensures WellFormed(s) && FocusRegistered(s) ==> FocusRegistered(r)
    ensures r.focused != s.focused ==> s.focused == Some(key) && r.focused == None
    ensures r.positions == s.positions && r.selectLog == s.selectLog
  {
    var r := Unregister(s, key);
    if s.focused == Some(key) then
      r.(focused := None)
    else
      if WellFormed(s) && s.focused.Some? then
        RemoveLookup(s.elements, key, s.focused.value);
        r
      else r
  }

  /** `focusElement`: only a registered key takes focus; nothing else in
      the root changes. */
  function Focus(s: RootState, key: string): (r: RootState)
    ensures r.focused != s.focused ==> r.focused == Some(key) && Has(s.elements, key)
    ensures Has(s.elements, key) ==> r.focused == Some(key)
    ensures r.elements == s.elements && r.positions == s.positions && r.selectLog == s.selectLog
    ensures FocusRegistered(s) ==> FocusRegistered(r)
  {
    if Has(s.elements, key) then s.(focused := Some(key)) else s
  }

  /** The onSelect call SELECT makes for the entry registered under `key`. */
  function SelectCall(elements: seq<Registration>, key: string): (calls: seq<Action>)
    ensures |calls| <= 1
    ensures calls == [] <==> Lookup(elements, key).None? || Lookup(elements, key).value.onSelect.None?
    ensures calls != [] ==> calls == [Lookup(elements, key).value.onSelect.value]
  {
    match Lookup(elements, key)
    case Some(e) => if e.onSelect.Some? then [e.onSelect.value] else []
    case None => []
  }

  /** One `hardwareKeyDown` event. When the device is not a TV no listener
      is installed, which has the same effect as ignoring the event. */
  function KeyDown(s: RootState, isTV: bool, keyCode: int): (r: RootState)
    ensures r.elements == s.elements && r.positions == s.positions
    ensures s.selectLog <= r.selectLog && |r.selectLog| <= |s.selectLog| + 1
    ensures r.selectLog != s.selectLog ==> isTV && IntentOf(keyCode) == Select && r.focused == s.focused
    ensures r.focused != s.focused ==> && isTV && IntentOf(keyCode).Move?
                                       && r.focused.Some? && Has(s.elements, r.focused.value)
                                       && r.selectLog == s.selectLog
  {
    if !isTV || !HasFocus(s.focused) || keyCode == 0 then s
    else
      match IntentOf(keyCode)
      case Ignore => s
      case Select => s.(selectLog := s.selectLog + SelectCall(s.elements, s.focused.value))
      case Move(direction) =>
        var next := Resolve(s.elements, s.positions, direction, s.focused.value);
        if next.Some? && next.value != "" then Focus(s, next.value) else s
  }

  /** Recording a rectangle for `key`: what `setElementPositions` was meant
      to do. The shipped root never does it (see ShippedRootNeverMoves). */
  function RecordPosition(s: RootState, key: string, rect: Rect): RootState {
    s.(positions := s.positions[key := rect])
  }

  /** `registerFocusable` sets exactly the entry for `key`; focus and
      positions are untouched, and an existing key keeps its place. */
  lemma RegisterSetsOnlyKey(s: RootState, key: string, entry: Entry, k: string)
    ensures Lookup(Register(s, key, entry).elements, k) == if k == key then Some(entry) else Lookup(s.elements, k)
    ensures Register(s, key, entry).focused == s.focused
    ensures Has(s.elements, key) ==> Keys(Register(s, key, entry).elements) == Keys(s.elements)
  {
    PutLookup(s.elements, key, entry, k);
  }

  /** `unregisterFocusable` removes only `key`; focus is left as it was,
      even when it named `key`. */
  lemma UnregisterRemovesOnlyKey(s: RootState, key: string, k: string)
    requires WellFormed(s)
    ensures Lookup(Unregister(s, key).elements, k) == if k == key then None else Lookup(s.elements, k)
    ensures Unregister(s, key).focused == s.focused
  {
    RemoveLookup(s.elements, key, k);
  }

  /** `focusElement(k)` focuses `k` when it is registered and is a no-op
      otherwise; a second call changes nothing. */
  lemma FocusOnlyRegistered(s: RootState, key: string)
    ensures Has(s.elements, key) ==> Focus(s, key).focused == Some(key)
    ensures !Has(s.elements, key) ==> Focus(s, key) == s
    ensures Focus(s, key).elements == s.elements && Focus(s, key).selectLog == s.selectLog
    ensures Focus(Focus(s, key), key) == Focus(s, key)
  {
  }

  /** Register, focus and key handling keep focus on a registered key. */
  lemma FocusRegisteredPreserved(s: RootState, key: string, entry: Entry, isTV: bool, keyCode: int)
    requires FocusRegistered(s)
    ensures FocusRegistered(Register(s, key, entry))
    ensures FocusRegistered(Focus(s, key))
    ensures FocusRegistered(KeyDown(s, isTV, keyCode))
  {
    if s.focused.Some? {
      PutLookup(s.elements, key, entry, s.focused.value);
    }
  }

  /** Unregistering the focused key leaves focus on a key that is gone. */
  lemma UnregisterLeavesStaleFocus(s: RootState, key: string)
    requires WellFormed(s) && s.focused == Some(key)
    ensures Unregister(s, key).focused == Some(key)
    ensures !FocusRegistered(Unregister(s, key))
  {
    RemoveLookup(s.elements, key, key);
  }

  /** A key event does nothing off a TV, with nothing (or "") focused, or
      for a code that is not one of 19..23. */
  lemma KeyDownIgnored(s: RootState, isTV: bool, keyCode: int)
    requires !isTV || !HasFocus(s.focused) || !(DpadUp <= keyCode <= DpadCenter)
    ensures KeyDown(s, isTV, keyCode) == s
  {
  }

  /** SELECT calls the focused entry's onSelect exactly once when it has
      one, and otherwise nothing; it never moves focus. */
  lemma SelectCallsOnSelectOnce(s: RootState, isTV: bool)
    requires isTV && HasFocus(s.focused) && WellFormed(s)
    ensures KeyDown(s, isTV, DpadCenter).focused == s.focused
    ensures KeyDown(s, isTV, DpadCenter).elements == s.elements
    ensures forall a :: KeyDown(s, isTV, DpadCenter).selectLog == s.selectLog + [a]
                        <==> exists e :: Registration(s.focused.value, e) in s.elements && e.onSelect == Some(a)
    ensures (forall e :: Registration(s.focused.value, e) in s.elements ==> e.onSelect.None?)
            ==> KeyDown(s, isTV, DpadCenter).selectLog == s.selectLog
  {
    var key := s.focused.value;
    var l := Lookup(s.elements, key);
    var after := KeyDown(s, isTV, DpadCenter).selectLog;
    assert after == s.selectLog + SelectCall(s.elements, key);
    forall a ensures after == s.selectLog + [a]
                     <==> exists e :: Registration(key, e) in s.elements && e.onSelect == Some(a)
    {
      if l.Some? && l.value.onSelect.Some? {
        assert Registration(key, l.value) in s.elements;
        assert after == s.selectLog + [l.value.onSelect.value];
        if after == s.selectLog + [a] {
          assert after[|s.selectLog|] == a;
          assert l.value.onSelect == Some(a);
        }
        if exists e :: Registration(key, e) in s.elements && e.onSelect == Some(a) {
          var e :| Registration(key, e) in s.elements && e.onSelect == Some(a);
          assert l == Some(e);
        }
      } else {
        assert after == s.selectLog;
        assert |after| != |s.selectLog + [a]|;
      }
    }
    if l.Some? {
      assert Registration(key, l.value) in s.elements;
    }
  }

  /** An arrow moves focus to the first best-scoring candidate (unless its
      key is ""), and leaves focus alone when there is no candidate. */
  lemma ArrowFollowsResolver(s: RootState, isTV: bool, keyCode: int, i: int)
    requires isTV && HasFocus(s.focused) && DpadUp <= keyCode <= DpadRight
    ensures KeyDown(s, isTV, keyCode).elements == s.elements
    ensures KeyDown(s, isTV, keyCode).selectLog == s.selectLog
    ensures (forall j | 0 <= j < |s.elements| ::
               !Eligible(s.elements, s.positions, IntentOf(keyCode).direction, s.focused.value, j))
            ==> KeyDown(s, isTV, keyCode).focused == s.focused
    ensures IsFirstMax(s.elements, s.positions, IntentOf(keyCode).direction, s.focused.value, |s.elements|, i)
            && s.elements[i].key != ""
            ==> KeyDown(s, isTV, keyCode).focused == Some(s.elements[i].key)
    ensures Resolve(s.elements, s.positions, IntentOf(keyCode).direction, s.focused.value) == Some("")
            ==> KeyDown(s, isTV, keyCode) == s
  {
    ResolveIsFirstMax(s.elements, s.positions, IntentOf(keyCode).direction, s.focused.value);
  }

  /** The operations a client of the root can perform, in order. */
  datatype Op =
    | RegisterOp(key: string, entry: Entry)
    | UnregisterOp(key: string)
    | FocusOp(key: string)
    | KeyOp(keyCode: int)
    | ReportOp(key: string, rect: Rect)

  function Apply(s: RootState, isTV: bool, op: Op): RootState {
    match op
    case RegisterOp(key, entry) => Register(s, key, entry)
    case UnregisterOp(key) => Unregister(s, key)
    case FocusOp(key) => Focus(s, key)
    case KeyOp(keyCode) => KeyDown(s, isTV, keyCode)
    case ReportOp(key, rect) => RecordPosition(s, key, rect)
  }

  function Run(s: RootState, isTV: bool, ops: seq<Op>): RootState
    decreases |ops|
  {
    if ops == [] then s else Run(Apply(s, isTV, ops[0]), isTV, ops[1..])
  }

  /** Operations the shipped code can issue: nothing writes a position. */
  predicate Shipped(ops: seq<Op>) {
    forall i | 0 <= i < |ops| :: !ops[i].ReportOp?
  }

  lemma {:induction false} ShippedKeepsNoPositions(s: RootState, isTV: bool, ops: seq<Op>)
    requires s.positions == map[] && Shipped(ops)
    ensures Run(s, isTV, ops).positions == map[]
    decreases |ops|
  {
    if ops != [] {
      ShippedKeepsNoPositions(Apply(s, isTV, ops[0]), isTV, ops[1..]);
    }
  }

  /** As shipped, the position map stays empty, so no arrow key ever moves
      focus: the resolver always answers null. */
  lemma ShippedRootNeverMoves(isTV: bool, ops: seq<Op>, keyCode: int)
    requires Shipped(ops)
    ensures KeyDown(Run(Initial(), isTV, ops), isTV, keyCode).focused == Run(Initial(), isTV, ops).focused
  {
    ShippedKeepsNoPositions(Initial(), isTV, ops);
  }

  /** A client step on the root with `unregisterFocusable` as intended. */
  function ApplyClearing(s: RootState, isTV: bool, op: Op): RootState {
    if op.UnregisterOp? then UnregisterClearing(s, op.key) else Apply(s, isTV, op)
  }

  function RunClearing(s: RootState, isTV: bool, ops: seq<Op>): RootState
    decreases |ops|
  {
    if ops == [] then s else RunClearing(ApplyClearing(s, isTV, ops[0]), isTV, ops[1..])
  }

  /** With unregistration clearing focus, every run keeps the registry's
      keys distinct and focus on a registered key. */
  lemma {:induction false} ClearingKeepsFocusRegistered(s: RootState, isTV: bool, ops: seq<Op>)
    requires WellFormed(s) && FocusRegistered(s)
    ensures WellFormed(RunClearing(s, isTV, ops)) && FocusRegistered(RunClearing(s, isTV, ops))
    decreases |ops|
  {
    if ops != [] {
      ClearingStepKeepsFocusRegistered(s, isTV, ops[0]);
      ClearingKeepsFocusRegistered(ApplyClearing(s, isTV, ops[0]), isTV, ops[1..]);
    }
  }

  lemma ClearingStepKeepsFocusRegistered(s: RootState, isTV: bool, op: Op)
    requires WellFormed(s) && FocusRegistered(s)
    ensures WellFormed(ApplyClearing(s, isTV, op)) && FocusRegistered(ApplyClearing(s, isTV, op))
  {
    match op
    case RegisterOp(key, entry) => FocusRegisteredPreserved(s, key, entry, isTV, 0);
    case UnregisterOp(key) =>
    case FocusOp(key) => FocusRegisteredPreserved(s, key, Entry(None, None, None), isTV, 0);
    case KeyOp(keyCode) => FocusRegisteredPreserved(s, "", Entry(None, None, None), isTV, keyCode);
    case ReportOp(key, rect) =>
  }

  /** With rectangles recorded, DOWN from A moves focus to the B below it. */
  lemma ReportedGeometryEnablesMove(entry: Entry)
    ensures
      var ra, rb := Rect(0.0, 0.0, 50.0, 50.0), Rect(0.0, 100.0, 50.0, 50.0);
      var s := Register(Register(Initial(), "A", entry), "B", entry);
      var t := Focus(RecordPosition(RecordPosition(s, "A", ra), "B", rb), "A");
      t.focused == Some("A") && KeyDown(t, true, DpadDown).focused == Some("B")
  {
    var a, b := Registration("A", entry), Registration("B", entry);
    var ra, rb := Rect(0.0, 0.0, 50.0, 50.0), Rect(0.0, 100.0, 50.0, 50.0);
    TwoRegistered(entry, entry);
    var t := RootState(Some("A"), [a, b], map["A" := ra, "B" := rb], []);
    assert Focus(RecordPosition(RecordPosition(Register(Register(Initial(), "A", entry), "B", entry), "A", ra), "B", rb), "A") == t;
    DownToAlignedNeighbour(t);
  }

  /** Registering A then B on a fresh root lists them in that order. */
  lemma TwoRegistered(ea: Entry, eb: Entry)
    ensures Register(Register(Initial(), "A", ea), "B", eb).elements == [Registration("A", ea), Registration("B", eb)]
    ensures Has([Registration("A", ea), Registration("B", eb)], "A")
  {
    var a, b := Registration("A", ea), Registration("B", eb);
    assert Keys([a]) == ["A"];
    assert Keys([a, b]) == ["A", "B"];
  }

  lemma DownToAlignedNeighbour(t: RootState)
    requires t.focused == Some("A") && |t.elements| == 2
    requires t.elements[0].key == "A" && t.elements[1].key == "B"
    requires t.positions == map["A" := Rect(0.0, 0.0, 50.0, 50.0), "B" := Rect(0.0, 100.0, 50.0, 50.0)]
    ensures KeyDown(t, true, DpadDown).focused == Some("B")
  {
    ResolveBelow(t.elements, t.positions);
    assert Has(t.elements, "B") by { assert Keys(t.elements)[1] == "B"; }
    KeyDownMoves(t, DpadDown, "DOWN", "B");
  }

  /** An arrow whose direction the resolver answers with a non-empty key
      focuses that key. */
  lemma KeyDownMoves(t: RootState, keyCode: int, direction: string, next: string)
    requires HasFocus(t.focused) && IntentOf(keyCode) == Move(direction)
    requires Resolve(t.elements, t.positions, direction, t.focused.value) == Some(next)
    requires next != "" && Has(t.elements, next)
    ensures KeyDown(t, true, keyCode).focused == Some(next)
  {
  }

  lemma ResolveBelow(elements: seq<Registration>, positions: map<string, Rect>)
    requires |elements| == 2 && elements[0].key == "A" && elements[1].key == "B"
    requires positions == map["A" := Rect(0.0, 0.0, 50.0, 50.0), "B" := Rect(0.0, 100.0, 50.0, 50.0)]
    ensures Resolve(elements, positions, "DOWN", "A") == Some("B")
  {
    assert EdgeGaps("DOWN", Rect(0.0, 0.0, 50.0, 50.0), Rect(0.0, 100.0, 50.0, 50.0)).along == 50.0;
    assert Eligible(elements, positions, "DOWN", "A", 1);
    forall j | 0 <= j < |elements| && j != 1 ensures !Eligible(elements, positions, "DOWN", "A", j) {
      assert j == 0;
    }
    SoleCandidateChosen(elements, positions, "DOWN", "A", 1);
  }

  /** Register A and B, focus A, unregister A: focus still names A. A later
      focus on B succeeds. */
  lemma UnregisterThenRefocus(ea: Entry, eb: Entry)
    ensures
      var s := Unregister(Focus(Register(Register(Initial(), "A", ea), "B", eb), "A"), "A");
      s.focused == Some("A") && !Has(s.elements, "A") && Focus(s, "B").focused == Some("B")
  {
    var a, b := Registration("A", ea), Registration("B", eb);
    assert Keys([a]) == ["A"];
    assert Keys([a, b]) == ["A", "B"];
    var s1 := Register(Initial(), "A", ea);
    assert s1.elements == [a];
    var s2 := Register(s1, "B", eb);
    assert s2.elements == [a, b];
    var s3 := Focus(s2, "A");
    assert s3.focused == Some("A");
    UnregisterRemovesOnlyKey(s3, "A", "A");
    UnregisterRemovesOnlyKey(s3, "A", "B");
  }

  /** The navigation root. `isTV` is fixed by the platform at start-up. */
  class NavigationRoot {
    const isTV: bool
    var focusedElement: Option<string>
    var focusableElements: seq<Registration>
    var elementPositions: map<string, Rect>
    var selectLog: seq<Action>

    ghost function State(): RootState
      reads this
    {
      RootState(focusedElement, focusableElements, elementPositions, selectLog)
    }

    ghost predicate Valid()
      reads this
    {
      WellFormed(State())
    }

    constructor (isTV: bool)
      ensures Valid() && State() == Initial() && this.isTV == isTV
    {
      this.isTV := isTV;
      focusedElement := None;
      focusableElements := [];
      elementPositions := map[];
      selectLog := [];
    }

    method RegisterFocusable(key: string, entry: Entry)
      requires Valid()
      modifies this
      ensures Valid() && State() == Register(old(State()), key, entry)
    {
      focusableElements := Put(focusableElements, key, entry);
    }

    method UnregisterFocusable(key: string)
      requires Valid()
      modifies this
      ensures Valid() && State() == Unregister(old(State()), key)
    {
      focusableElements := Remove(focusableElements, key);
    }

    method FocusElement(key: string)
      requires Valid()
      modifies this
      ensures Valid() && State() == Focus(old(State()), key)
    {
      if Has(focusableElements, key) {
        focusedElement := Some(key);
      }
    }

    method GetNextFocusable(direction: string, currentKey: string) returns (next: Option<string>)
      ensures next == Resolve(focusableElements, elementPositions, direction, currentKey)
    {
      next := NextFocusable(focusableElements, elementPositions, direction, currentKey);
    }

    method HandleKeyDown(keyCode: int)
      requires Valid()
      modifies this
      ensures Valid() && State() == KeyDown(old(State()), isTV, keyCode)
    {
      if !isTV {
        return;
      }
      if !HasFocus(focusedElement) || keyCode == 0 {
        return;
      }
      var current := focusedElement.value;
      match IntentOf(keyCode)
      case Ignore =>
      case Select =>
        var focusedEntry := Lookup(focusableElements, current);
        if focusedEntry.Some? && focusedEntry.value.onSelect.Some? {
          selectLog := selectLog + [focusedEntry.value.onSelect.value];
        }
      case Move(direction) =>
        var next := GetNextFocusable(direction, current);
        if next.Some? && next.value != "" {
          FocusElement(next.value);
        }
    }

    /** Records a rectangle for `key`; the shipped root has no such
        operation (see ShippedRootNeverMoves). */
    method ReportPosition(key: string, rect: Rect)
      requires Valid()
      modifies this
      ensures Valid() && State() == RecordPosition(old(State()), key, rect)
    {
      elementPositions := elementPositions[key := rect];
    }
  }
}
