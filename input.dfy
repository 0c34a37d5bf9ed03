/**
 * The logical rules of the mouse handlers: which piece a press picks up
 * (`pieces.find` in the mousedown handler) and the velocity a release gives
 * it (the mouseup handler), js/script.js:256-258.
 */
module Input {
  import opened Options
  import opened Bodies

  const LaunchDivisor: real := 5.0

  /** A point in canvas coordinates. */
  datatype Point = Point(x: real, y: real)

  /**
   * A press at `at` grabs piece `p` for `player` when the piece is that
   * player's and the point lies within its radius; `Math.hypot(dx, dy) <= r`
   * is `dx * dx + dy * dy <= r * r` for a radius that is not negative.
   */
  predicate Grabs(p: Body, player: int, at: Point) {
    p.player == player && (at.x - p.x) * (at.x - p.x) + (at.y - p.y) * (at.y - p.y) <= p.r * p.r
  }

  /** The first piece, in array order, that a press at `at` grabs for `player`, if any. */
  method FirstGrabbed(ps: seq<Body>, player: int, at: Point) returns (k: Option<nat>)
    ensures k.Some? ==> k.value < |ps| && Grabs(ps[k.value], player, at)
    ensures k.Some? ==> forall j :: 0 <= j < k.value ==> !Grabs(ps[j], player, at)
    ensures k.None? ==> forall j :: 0 <= j < |ps| ==> !Grabs(ps[j], player, at)
  {
    var i := 0;
    while i < |ps|
      invariant 0 <= i <= |ps|
      invariant forall j :: 0 <= j < i ==> !Grabs(ps[j], player, at)
    {
      if Grabs(ps[i], player, at) {
        return Some(i);
      }
      i := i + 1;
    }
    return None;
  }

  /**
   * The piece released after a drag from `start` to `end`: it is set moving
   * with velocity (start - end) / 5, against the direction of the drag, and
   * is otherwise unchanged.
   */
  function Launch(p: Body, start: Point, end: Point): (q: Body)
    ensures q.moving && SameDisc(p, q) && q.x == p.x && q.y == p.y
    ensures LaunchDivisor * q.vx == start.x - end.x && LaunchDivisor * q.vy == start.y - end.y
  {
    p.(vx := (start.x - end.x) / LaunchDivisor, vy := (start.y - end.y) / LaunchDivisor, moving := true)
  }

  /**
   * A release without a drag launches the piece with no velocity, so it
   * comes to rest on the next tick (which ends the turn).
   */
  lemma ClickWithoutDragStops(p: Body, at: Point)
    ensures !Drift(Launch(p, at, at)).moving
  {}
}
