/** The remote-control key-code switch of `handleKeyDown`
    (components/SpatialNavigationCompat.tsx). */
module Input {
  import opened Geometry

  const DpadUp := 19
  const DpadDown := 20
  const DpadLeft := 21
  const DpadRight := 22
  const DpadCenter := 23

  /** What one key code asks for. */
  datatype Intent = Move(direction: string) | Select | Ignore

  function IntentOf(keyCode: int): (r: Intent)
    ensures r.Move? <==> DpadUp <= keyCode <= DpadRight
    ensures r.Select? <==> keyCode == DpadCenter
    ensures r.Move? ==> IsKnownDirection(r.direction)
    ensures r == Move("UP") <==> keyCode == DpadUp
    ensures r == Move("DOWN") <==> keyCode == DpadDown
    ensures r == Move("LEFT") <==> keyCode == DpadLeft
    ensures r == Move("RIGHT") <==> keyCode == DpadRight
  {
    if keyCode == DpadUp then Move("UP")
    else if keyCode == DpadDown then Move("DOWN")
    else if keyCode == DpadLeft then Move("LEFT")
    else if keyCode == DpadRight then Move("RIGHT")
    else if keyCode == DpadCenter then Select
    else Ignore
  }

  /** The key code that asks for `direction`; 0 (no key) for a direction
      the switch does not produce. */
  function CodeOf(direction: string): (c: int)
    ensures IsKnownDirection(direction) <==> DpadUp <= c <= DpadRight
  {
    match direction
    case "UP" => DpadUp
    case "DOWN" => DpadDown
    case "LEFT" => DpadLeft
    case "RIGHT" => DpadRight
    case _ => 0
  }

  /** Every known direction has its code, and every arrow code is the code
      of the direction it asks for. */
  lemma CodeRoundTrip(direction: string, keyCode: int)
    ensures IsKnownDirection(direction) ==> IntentOf(CodeOf(direction)) == Move(direction)
    ensures IntentOf(keyCode).Move? ==> CodeOf(IntentOf(keyCode).direction) == keyCode
  {
  }

  /** The four arrow codes name four different directions, so every
      direction the resolver knows has exactly one code. */
  lemma ArrowCodesDistinct(c1: int, c2: int)
    requires IntentOf(c1).Move? && IntentOf(c2).Move? && c1 != c2
    ensures IntentOf(c1).direction != IntentOf(c2).direction
  {
  }
}
