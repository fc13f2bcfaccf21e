/** How wheel, touch and keyboard input choose a snap direction. */
module InputMapping {
  import opened Wrappers

  datatype Direction = Down | Up

  /** A touch drag must travel strictly more than this many pixels to snap. */
  const TouchThreshold: real := 30.0

  /** Positive wheel delta scrolls down; zero and negative scroll up. */
  function WheelDirection(deltaY: real): (d: Direction)
    ensures d == Down <==> deltaY > 0.0
  {
    if deltaY > 0.0 then Down else Up
  }

  /** The direction a drag from the anchor to y asks for: a finger moved up
      by more than the threshold snaps down, moved down by more snaps up, and
      anything within the threshold (inclusive) does nothing. */
  function TouchDirection(anchor: real, y: real): (d: Option<Direction>)
    ensures d == Some(Down) <==> y < anchor - TouchThreshold
    ensures d == Some(Up) <==> y > anchor + TouchThreshold
    ensures d == None <==> anchor - TouchThreshold <= y <= anchor + TouchThreshold
  {
    var delta := anchor - y;
    var distance := if delta < 0.0 then -delta else delta;
    if distance > TouchThreshold then Some(if delta > 0.0 then Down else Up) else None
  }

  /** Only the two vertical arrow keys navigate. */
  function KeyDirection(key: string): (d: Option<Direction>)
    ensures d == Some(Down) <==> key == "ArrowDown"
    ensures d == Some(Up) <==> key == "ArrowUp"
  {
    if key == "ArrowDown" then Some(Down)
    else if key == "ArrowUp" then Some(Up)
    else None
  }
}
