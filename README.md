# Spatial navigation engine, modelled in Dafny

This project models the spatial (D-pad) navigation engine of a React Native
television app, `components/SpatialNavigationCompat.tsx`. The model covers:

- **Focusable registry.** The root's `Map` from focus key to registered
  entry. It is modelled as an ordered sequence of registrations with distinct
  keys, because the resolver breaks ties by iteration order.
  - `Map.set` overwrites an existing key where it stands and appends a new key.
  - `Map.delete` keeps the order of the remaining keys.
- **Focus state.** `focusedElement` is the focused key or nothing.
  `focusElement` focuses only registered keys.
- **Directional resolver.** `getNextFocusable` scans the registry and skips
  the current key and any key without a recorded rectangle. For UP, DOWN,
  LEFT or RIGHT it keeps the candidates that lie strictly past the matching
  edge, scores each as `directionGap + 1/(alignGap + 1)`, and returns the
  first candidate with the greatest score. Because the direction gap enters
  the score undamped, a candidate a whole unit farther along always beats a
  nearer one however the two are aligned (`Geometry.FartherByOneWins`): DOWN
  from a button picks an aligned element 500 units below over an aligned one
  10 units below. The alignment term `1/(alignGap + 1)` is the only
  preference for closeness.
- **Key-code mapper.** `handleKeyDown` maps codes 19–22 to the four directions
  and code 23 to SELECT. It ignores the event off a TV, when nothing is
  focused, and for other codes.
  - An arrow moves focus to the resolver's answer, when there is one.
  - SELECT calls the focused entry's `onSelect`.
- **View adapter rules.** A view registers only when it has a focus key and is
  enabled. Its focus effect calls `onFocus` when it is focused and `onBlur`
  otherwise.

Files, one module each:

- `options.dfy` holds `Option`.
- `geometry.dfy` holds rectangles, the per-direction edge test and the score.
- `registry.dfy` holds the ordered map.
- `resolver.dfy` holds the resolver. It has a fold that specifies the
  `forEach` loop, a characterisation of that fold as "first maximum", and the
  loop itself as a method.
- `input.dfy` holds the key-code switch.
- `navigation.dfy` holds the root in two forms. The first is pure transitions
  on a `RootState` value. The second is the class `NavigationRoot`, whose
  methods update its fields in place and are proved equal to those
  transitions.
- `focusable_view.dfy` holds the view adapter.

Modelling choices:

- Coordinates and scores are exact `real`s.
- Calling a callback is modelled as appending its `Action` identifier to the
  root's `selectLog`.
- The platform's "is TV" flag is a constructor parameter.
- Hardware key events are calls of `HandleKeyDown`.
- JavaScript truthiness is modelled where the code relies on it:
  - the empty string is a falsy focus key, so a view with key `""` never
    registers;
  - the handler ignores events while the focus is `""`;
  - a resolver answer of `""` does not move focus;
  - key code 0 stands for every falsy `keyCode`.

The model follows the code in two places where the intended behaviour
differs:

- Unregistering the focused key does not clear focus. `unregisterFocusable`
  leaves `focusedElement` alone, so focus can name a key that is no longer
  registered (`UnregisterLeavesStaleFocus`, `UnregisterThenRefocus`). The
  intended behaviour, clearing focus, is `UnregisterClearing`; with it focus
  always names a registered key (`ClearingKeepsFocusRegistered`). See
  "Findings".
- The root's position map is never written. The resolver therefore takes the
  position map as an input. See "Findings" for what that does to the shipped
  code.

## Model

| member | source | states |
|---|---|---|
| Geometry.EdgeGaps | components/SpatialNavigationCompat.tsx:55-83 | the direction gap is positive exactly when the candidate lies strictly past the current rectangle's edge in that direction, and is then the distance `AlongGap` between the facing edges (UP `cur.y - pos.bottom`, DOWN `pos.y - cur.bottom`, LEFT `cur.x - pos.right`, RIGHT `pos.x - cur.right`); the alignment gap is then the centre offset across the axis; otherwise, and for any unrecognised direction string, both stay 0 |
| Geometry.Score | components/SpatialNavigationCompat.tsx:86 | the total score exceeds the direction gap by at most 1, and by exactly 1 when the centres are aligned |
| Geometry.BonusAntitone | components/SpatialNavigationCompat.tsx:86 | the alignment bonus `1/(distance+1)` never grows as the distance grows, and shrinks strictly when the distance grows strictly |
| Geometry.ScoreMonotone | components/SpatialNavigationCompat.tsx:86 | a candidate at least as far along and at least as well aligned scores at least as high, and strictly higher when it is strictly better in either |
| Geometry.FartherByOneWins | components/SpatialNavigationCompat.tsx:86 | a candidate one unit or more further along beats any candidate, however well aligned that one is |
| Geometry.OppositeDirectionsAgree | components/SpatialNavigationCompat.tsx:58-82 | UP from A to B measures the same gaps as DOWN from B to A, and the same holds for LEFT and RIGHT |
| Registry.IndexOf | components/SpatialNavigationCompat.tsx:19 | finds the first position holding a key, and finds nothing exactly when the key is absent |
| Registry.Lookup | components/SpatialNavigationCompat.tsx:121 | `Map.get` finds an entry exactly when `Map.has` holds; with distinct keys, it finds `e` exactly when the registration (key, e) is in the map |
| Registry.Put | components/SpatialNavigationCompat.tsx:25 | `Map.set` keeps the key order when the key exists and appends the key otherwise; it keeps keys distinct |
| Registry.Remove | components/SpatialNavigationCompat.tsx:29-33 | `Map.delete` leaves exactly the other keys in their order, which is the reference filter `Without`; it keeps keys distinct and changes nothing for an absent key |
| Registry.PutLookup | components/SpatialNavigationCompat.tsx:24-26 | after `set`, the key maps to the new entry and every other key keeps its entry |
| Registry.RemoveDropsKey | components/SpatialNavigationCompat.tsx:28-34 | under distinct keys, `delete` leaves no registration for the key |
| Registry.RemoveLookup | components/SpatialNavigationCompat.tsx:28-34 | after `delete`, the key is absent and every other key keeps its entry |
| Resolver.BestIndex | components/SpatialNavigationCompat.tsx:47-92 | the loop's best candidate after any prefix is always an eligible index within that prefix |
| Resolver.Resolve | components/SpatialNavigationCompat.tsx:43-95 | returns null when the current key has no rectangle or the direction is unrecognised; any key it returns is registered, has a rectangle, is not the current key, and lies strictly past the current edge in the direction |
| Resolver.BestIndexIsFirstMax | components/SpatialNavigationCompat.tsx:85-92 | the loop selects nothing exactly when no candidate is eligible; otherwise it selects exactly the eligible index that no candidate outscores and that every earlier candidate scores strictly below |
| Resolver.FirstMaxUnique | components/SpatialNavigationCompat.tsx:88 | because the comparison is strict `>`, there is only one first maximum |
| Resolver.ResolveIsFirstMax | components/SpatialNavigationCompat.tsx:43-95 | the resolver returns null exactly when there is no eligible candidate; whenever it answers, a first highest-scoring candidate exists and the answer is its key |
| Resolver.SoleCandidateChosen | components/SpatialNavigationCompat.tsx:85-94 | a single eligible candidate is returned |
| Resolver.TieGoesToEarlier | components/SpatialNavigationCompat.tsx:88 | of two equally scored candidates, the later in registry order is never returned |
| Resolver.UnplacedCurrentResolvesNone | components/SpatialNavigationCompat.tsx:44-45 | with no rectangle for the current key the answer is null |
| Resolver.DownPrefersAlignedExample | components/SpatialNavigationCompat.tsx:65-70 | with A(0,0,50,50) focused, B(0,100,50,50) and C(200,100,50,50), DOWN returns the aligned B in either registry order |
| Resolver.ExampleScores | components/SpatialNavigationCompat.tsx:85-86 | in that layout B and C are both eligible for DOWN and B scores strictly higher |
| Resolver.NextFocusable | components/SpatialNavigationCompat.tsx:43-95 | the `forEach` loop with its mutable best candidate computes exactly `Resolve` |
| Input.IntentOf | components/SpatialNavigationCompat.tsx:104-126 | 19 and only 19 moves UP, 20 and only 20 DOWN, 21 and only 21 LEFT, 22 and only 22 RIGHT; these are the only moves; 23 and only 23 is SELECT |
| Input.CodeOf | components/SpatialNavigationCompat.tsx:106-118 | a direction has an arrow code in 19–22 exactly when the resolver recognises it |
| Input.CodeRoundTrip | components/SpatialNavigationCompat.tsx:106-118 | every known direction's code maps back to a move in that direction, and every arrow code is the code of the direction it asks for |
| Input.ArrowCodesDistinct | components/SpatialNavigationCompat.tsx:106-118 | different arrow codes name different directions |
| Navigation.Register | components/SpatialNavigationCompat.tsx:24-26 | registering keeps registry keys distinct and changes neither focus, positions nor select log |
| Navigation.Unregister | components/SpatialNavigationCompat.tsx:28-34 | unregistering keeps registry keys distinct and leaves no registration for the key; focus, positions and select log are unchanged |
| Navigation.UnregisterClearing | components/SpatialNavigationCompat.tsx:28-34 | the intended unregistration: the key is gone, focus never names it afterwards, focus changes only from the removed key to none, and focus on a registered key stays so |
| Navigation.ClearingStepKeepsFocusRegistered | components/SpatialNavigationCompat.tsx:24-40 | with the intended unregistration, each client operation keeps keys distinct and focus on a registered key |
| Navigation.ClearingKeepsFocusRegistered | components/SpatialNavigationCompat.tsx:24-40 | with the intended unregistration, every run of client operations keeps keys distinct and focus on a registered key (by induction over the run) |
| Navigation.Focus | components/SpatialNavigationCompat.tsx:36-40 | `focusElement` focuses a registered key, and focus changes only to a registered key; registry, positions and select log are untouched, and focus on a registered key stays so |
| Navigation.SelectCall | components/SpatialNavigationCompat.tsx:119-125 | SELECT makes at most one call: the focused entry's `onSelect`, and nothing when the key is unregistered or its entry has no `onSelect` |
| Navigation.KeyDown | components/SpatialNavigationCompat.tsx:98-134 | a key event never changes the registry or positions; it appends at most one call to the select log, and only for code 23 on a TV without moving focus; focus changes only for an arrow code on a TV, to a registered key, with no call made |
| Navigation.RegisterSetsOnlyKey | components/SpatialNavigationCompat.tsx:24-26 | `registerFocusable` sets exactly the entry for its key and leaves focus unchanged; an existing key keeps its iteration position |
| Navigation.UnregisterRemovesOnlyKey | components/SpatialNavigationCompat.tsx:28-34 | `unregisterFocusable` removes only its key, and focus is unchanged |
| Navigation.FocusOnlyRegistered | components/SpatialNavigationCompat.tsx:36-40 | `focusElement(k)` focuses a registered `k`; for an unregistered `k` the state is unchanged; a second identical call changes nothing |
| Navigation.FocusRegisteredPreserved | components/SpatialNavigationCompat.tsx:24-40 | registering, focusing and key handling keep focus on a registered key when it was on one |
| Navigation.UnregisterLeavesStaleFocus | components/SpatialNavigationCompat.tsx:28-34 | unregistering the focused key leaves focus naming the removed key |
| Navigation.KeyDownIgnored | components/SpatialNavigationCompat.tsx:99-102 | off a TV, with nothing or `""` focused, or for a code outside 19–23, a key event changes nothing |
| Navigation.SelectCallsOnSelectOnce | components/SpatialNavigationCompat.tsx:119-125 | SELECT appends exactly one call of the focused entry's `onSelect` when it has one, and appends nothing otherwise; focus and registry are untouched |
| Navigation.ArrowFollowsResolver | components/SpatialNavigationCompat.tsx:128-133 | an arrow code leaves focus alone when there is no candidate, and otherwise focuses the first highest-scoring candidate; an answer of `""` leaves the whole root unchanged; registry and select log are untouched |
| Navigation.ShippedKeepsNoPositions | components/SpatialNavigationCompat.tsx:20 | no operation of the shipped root writes the position map |
| Navigation.ShippedRootNeverMoves | components/SpatialNavigationCompat.tsx:20 | after any run of shipped operations from the initial state, no key event moves focus |
| Navigation.ReportedGeometryEnablesMove | components/SpatialNavigationCompat.tsx:20 | once rectangles are recorded for A and for B directly below it, DOWN from A focuses B |
| Navigation.TwoRegistered | components/SpatialNavigationCompat.tsx:24-26 | registering A then B on a fresh root lists them in that order |
| Navigation.DownToAlignedNeighbour | components/SpatialNavigationCompat.tsx:128-131 | DOWN from A moves focus to B when B is the only registered candidate below it |
| Navigation.ResolveBelow | components/SpatialNavigationCompat.tsx:65-70 | the resolver answers B for DOWN from A when B lies below A |
| Navigation.UnregisterThenRefocus | components/SpatialNavigationCompat.tsx:28-40 | register A and B, focus A, unregister A: focus still names A, and focusing B then succeeds |
| Navigation.NavigationRoot.constructor | components/SpatialNavigationCompat.tsx:18-22 | a new root has no focus, no registrations, no positions and an empty select log |
| Navigation.NavigationRoot.RegisterFocusable | components/SpatialNavigationCompat.tsx:24-26 | the in-place update equals `Register` on the old state and keeps keys distinct |
| Navigation.NavigationRoot.UnregisterFocusable | components/SpatialNavigationCompat.tsx:28-34 | the in-place update equals `Unregister` on the old state |
| Navigation.NavigationRoot.FocusElement | components/SpatialNavigationCompat.tsx:36-40 | the in-place update equals `Focus` on the old state |
| Navigation.NavigationRoot.GetNextFocusable | components/SpatialNavigationCompat.tsx:43-95 | returns `Resolve` over the root's registry and position map |
| Navigation.NavigationRoot.HandleKeyDown | components/SpatialNavigationCompat.tsx:101-134 | the in-place update equals `KeyDown` on the old state |
| Navigation.NavigationRoot.ReportPosition | components/SpatialNavigationCompat.tsx:20 | records a rectangle for a key; the shipped code has no such operation (see Findings) |
| FocusableView.Mounted | components/SpatialNavigationCompat.tsx:188-193 | the register effect registers the view's own entry under its key when the key is non-empty and the view enabled, and otherwise leaves the root as it was; focus, positions and log are untouched and keys stay distinct |
| FocusableView.Unmounted | components/SpatialNavigationCompat.tsx:188-193 | the cleanup removes the view's key when it had registered, and otherwise leaves the root as it was; focus is not touched |
| FocusableView.FocusCallback | components/SpatialNavigationCompat.tsx:225-231 | a view with a non-empty key calls `onFocus` when focused (if it has one) and `onBlur` whenever it is not focused; a key-less view calls nothing; any call is one of its own callbacks |
| FocusableView.MountRegistersOnlyEnabled | components/SpatialNavigationCompat.tsx:188-193 | mounting adds exactly the view's own key with its callbacks, and only when the key is non-empty and the view is enabled; otherwise the root is unchanged |
| FocusableView.MountUnmountRoundTrip | components/SpatialNavigationCompat.tsx:188-193 | mounting then unmounting a view whose key was not registered restores the root |
| FocusableView.Mount | components/SpatialNavigationCompat.tsx:189-190 | the register effect on a live root equals `Mounted` |
| FocusableView.Unmount | components/SpatialNavigationCompat.tsx:191 | the cleanup on a live root equals `Unmounted` |

## Left out

- Rendering and UI props are not modelled: `TouchableOpacity`, styles, accessibility and TV preferred-focus props. They are presentation only.
- The hardware-event subscription through `DeviceEventEmitter`, with its try/catch logging, is platform I/O. Key events are method calls instead. Off a TV no listener exists, which is modelled as ignoring every event.
- Geometry polling (`findNodeHandle`, `Dimensions`, `setInterval`) is a timer plus a foreign measurement. It only fills a placeholder rectangle in the view's local state, so it is not modelled.
- React state batching is not modelled: every update takes effect at once. In the source `setState` applies only on the next render, and `registerFocusable` mutates the previous map in place with `prev.set` (line 25) while `unregisterFocusable` copies it first (lines 29-33). So a closure from the previous render already sees a newly registered key but still sees a deleted one until the re-render.
- React effect timing is not modelled: dependency re-runs, the order of cleanups, and when the focus effect fires. The model keeps only the rule `FocusCallback`. A change of `disabled` or `focusKey` is an `Unmount` with the old props followed by a `Mount` with the new ones.
- The throw in `useSpatialNavigation` when no root exists is a context lookup. The model assumes the root exists.
- IEEE-754 rounding, NaN and non-numeric coordinates are not modelled. Scores use exact reals, so floating-point ties are not reproduced.
- `registerFocusable` accepts any value. The model's `Entry` always has the three optional callbacks. A registrant without `props` is the entry with all three absent.
- The resolver's `bestCandidate.distance` field is written but never read, so it is not kept.
- Non-numeric falsy key codes (`undefined`, `NaN`) are all represented by 0.
- `hooks/useTextStyles.ts`, `hooks/useColorScheme.ts` and `app/(tabs)/weather.tsx` are a style table, a library wrapper and a placeholder screen. None of them is part of this model.

## Findings

| source | as written | input that shows it | evidently intended | confidence | as-written member | corrected member |
|---|---|---|---|---|---|---|
| components/SpatialNavigationCompat.tsx:28-34 | `unregisterFocusable` deletes the key but never touches `focusedElement`, so focus can name a key that is no longer registered; SELECT then finds no entry and arrows resolve from a key that is gone. | register A, focus A, unregister A: focus still names "A" and `has("A")` is false | removing the focused key also clears focus, so focus always names a registered key | medium; not executed | Navigation.UnregisterLeavesStaleFocus | Navigation.ClearingKeepsFocusRegistered |
| components/SpatialNavigationCompat.tsx:20 | `elementPositions` starts empty and is never written. Nothing calls `setElementPositions`, and each view stores its rectangle only in its own state (line 205). So `getNextFocusable` always returns null and arrow keys never move focus. | register A and B, focus A, press DOWN (20): focus stays on A | views record their rectangles in the root, so arrow keys move focus to the best candidate | high; not executed | Navigation.ShippedRootNeverMoves | Navigation.ReportedGeometryEnablesMove |
