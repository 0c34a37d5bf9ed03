/**
 * The discs on the field (pieces and ball) and what one simulation tick does
 * to a single disc: drift with friction, the stop threshold and the per-axis
 * wall bounce (js/script.js, gameLoop).
 */
module Bodies {

  const Friction: real := 0.985
  const StopThreshold: real := 0.2

  /**
   * A disc. `player` is 1 or 2 for a piece and 0 for the ball, which has no
   * owner. Velocities are in field units per tick.
   */
  datatype Body = Body(x: real, y: real, r: real, vx: real, vy: real, m: real, moving: bool, player: int)

  /** The square of the speed; `Math.hypot(vx, vy) < t` is `SpeedSq < t * t`. */
  function SpeedSq(b: Body): real {
    b.vx * b.vx + b.vy * b.vy
  }

  /** A body at rest has no velocity. */
  predicate AtRestIsStill(b: Body) {
    !b.moving ==> b.vx == 0.0 && b.vy == 0.0
  }

  /** The fields a tick never changes: size, mass and owner. */
  predicate SameDisc(a: Body, b: Body) {
    a.r == b.r && a.m == b.m && a.player == b.player
  }

  /**
   * The motion step of a moving body: move by the velocity, decay the
   * velocity by the friction factor, and bring the body to rest once the
   * decayed speed is below the stop threshold.
   */
  function Drift(b: Body): (d: Body)
    requires b.moving
    ensures SameDisc(b, d) && AtRestIsStill(d)
    ensures d.x == b.x + b.vx && d.y == b.y + b.vy
    ensures d.moving <==> Friction * Friction * SpeedSq(b) >= StopThreshold * StopThreshold
    ensures d.moving ==> d.vx == Friction * b.vx && d.vy == Friction * b.vy
    ensures d.moving ==> SpeedSq(d) >= StopThreshold * StopThreshold
    ensures SpeedSq(d) <= SpeedSq(b)
  {
    var vx := b.vx * Friction;
    var vy := b.vy * Friction;
    if vx * vx + vy * vy < StopThreshold * StopThreshold then
      b.(x := b.x + b.vx, y := b.y + b.vy, vx := 0.0, vy := 0.0, moving := false)
    else
      b.(x := b.x + b.vx, y := b.y + b.vy, vx := vx, vy := vy)
  }

  /**
   * One axis of the wall rule for a disc of radius `r` at `p` with velocity
   * `v` on the segment [0, size]: past the near edge the disc is put back on
   * it and the velocity negated, else past the far edge likewise, else
   * nothing happens. At most one of the two branches fires.
   */
  function Bounce(p: real, v: real, r: real, size: real): (pv: (real, real))
    ensures p - r < 0.0 ==> pv == (r, -v)
    ensures 0.0 <= p - r && p + r > size ==> pv == (size - r, -v)
    ensures pv.1 == v || pv.1 == -v
    ensures pv.1 * pv.1 == v * v
    ensures pv.1 != v ==> pv.0 == r || pv.0 == size - r
    ensures 0.0 <= p - r && p + r <= size ==> pv == (p, v)
    ensures r + r <= size ==> 0.0 <= pv.0 - r && pv.0 + r <= size
  {
    if p - r < 0.0 then (r, -v)
    else if p + r > size then (size - r, -v)
    else (p, v)
  }

  /** The wall rule on both axes; the x rule sees only x and vx, the y rule only y and vy. */
  function Reflect(b: Body, w: real, h: real): (c: Body)
    ensures SameDisc(b, c) && c.moving == b.moving
    ensures (c.x, c.vx) == Bounce(b.x, b.vx, b.r, w)
    ensures (c.y, c.vy) == Bounce(b.y, b.vy, b.r, h)
    ensures SpeedSq(c) == SpeedSq(b)
    ensures AtRestIsStill(b) ==> AtRestIsStill(c)
  {
    var (x, vx) := Bounce(b.x, b.vx, b.r, w);
    var (y, vy) := Bounce(b.y, b.vy, b.r, h);
    b.(x := x, vx := vx, y := y, vy := vy)
  }

  /** What the piece loop of a tick does to one piece: a moving piece drifts, then bounces off the walls. */
  function StepPiece(b: Body, w: real, h: real): Body {
    if b.moving then Reflect(Drift(b), w, h) else b
  }

  /** The piece loop of a tick over all pieces, in order. */
  function StepPieces(ps: seq<Body>, w: real, h: real): (qs: seq<Body>)
    ensures |qs| == |ps|
  {
    seq(|ps|, i requires 0 <= i < |ps| => StepPiece(ps[i], w, h))
  }

  /** What the ball step of a tick does: a moving ball drifts; its wall bounce comes after the goal test. */
  function StepBall(b: Body): Body {
    if b.moving then Drift(b) else b
  }

  /** `pieces.some(p => p.moving)`. */
  function AnyMoving(ps: seq<Body>): (r: bool)
    ensures r <==> exists i :: 0 <= i < |ps| && ps[i].moving
  {
    if ps == [] then false else ps[0].moving || AnyMoving(ps[1..])
  }

  /**
   * The collision stage changes a body only by marking it moving (with
   * whatever velocity and position the impulse and the overlap correction
   * give it), and keeps its size, mass and owner.
   */
  predicate Touched(before: Body, after: Body) {
    after == before || (after.moving && SameDisc(before, after))
  }

  /** The shape of a collision stage over the pieces and the ball. */
  predicate CollisionPass(ps: seq<Body>, b: Body, res: (seq<Body>, Body)) {
    |res.0| == |ps|
    && (forall i :: 0 <= i < |ps| ==> Touched(ps[i], res.0[i]))
    && Touched(b, res.1)
  }

  /** A piece left to itself for `n` ticks, without collisions. */
  function Coast(b: Body, w: real, h: real, n: nat): Body {
    if n == 0 then b else StepPiece(Coast(b, w, h, n - 1), w, h)
  }

  /**
   * The least loss of squared speed in one tick of motion: a body still moving
   * after a tick has squared speed at least StopThreshold^2, which friction
   * scaled from a value at least that large, so it lost at least
   * (1 - Friction^2) * StopThreshold^2.
   */
  const MinLoss: real := 0.001191

  /** A coasting piece loses at least MinLoss of squared speed per tick while it keeps moving. */
  lemma {:induction false} CoastSlows(b: Body, w: real, h: real, n: nat)
    ensures Coast(b, w, h, n).moving ==> SpeedSq(Coast(b, w, h, n)) + MinLoss * n as real <= SpeedSq(b)
  {
    if n > 0 {
      var c := Coast(b, w, h, n - 1);
      var d := Coast(b, w, h, n);
      CoastSlows(b, w, h, n - 1);
      assert d == StepPiece(c, w, h);
      StepSlows(c, w, h);
    }
  }

  /** One tick of a piece: it either ends at rest or keeps moving, having lost at least MinLoss of squared speed. */
  lemma StepSlows(c: Body, w: real, h: real)
    ensures StepPiece(c, w, h).moving ==> c.moving && SpeedSq(StepPiece(c, w, h)) + MinLoss <= SpeedSq(c)
  {
  }

  lemma SquaredNonNegative(b: Body)
    ensures SpeedSq(b) >= 0.0
  {}

  /** While a body keeps moving, friction scales its squared speed by Friction * Friction. */
  lemma SlowerByFriction(b: Body)
    requires b.moving && Drift(b).moving
    ensures SpeedSq(Drift(b)) == 0.970225 * SpeedSq(b)
  {
  }

  /**
   * Stop convergence: a piece left to itself is at rest after any number of
   * ticks n with MinLoss * n above its initial squared speed.
   */
  lemma EventuallyStops(b: Body, w: real, h: real, n: nat)
    requires SpeedSq(b) < MinLoss * n as real
    ensures !Coast(b, w, h, n).moving
  {
    CoastSlows(b, w, h, n);
    SquaredNonNegative(Coast(b, w, h, n));
  }
}
