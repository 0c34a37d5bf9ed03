/** The kick-off layout built by resetPositions (js/script.js:41-54). */
module Layout {
  import opened Bodies

  const PieceRadius: real := 20.0
  const PieceMass: real := 3.0
  const BallRadius: real := 15.0
  const BallMass: real := 0.8
  const PieceCount: nat := 10

  /** A piece of `player` at rest at (x, y). */
  function PieceAt(x: real, y: real, player: int): Body {
    Body(x, y, PieceRadius, 0.0, 0.0, PieceMass, false, player)
  }

  /** The ball at rest in the centre of a w by h field. */
  function Kickoff(w: real, h: real): (b: Body)
    ensures b.x == w / 2.0 && b.y == h / 2.0
    ensures !b.moving && b.vx == 0.0 && b.vy == 0.0
  {
    Body(w / 2.0, h / 2.0, BallRadius, 0.0, 0.0, BallMass, false, 0)
  }

  /** The heights of the three defenders and of the two attackers of each side. */
  function DefenderRows(h: real): seq<real> {
    [h * 0.2, h * 0.5, h * 0.8]
  }

  function AttackerRows(h: real): seq<real> {
    [h * 0.33, h * 0.66]
  }

  /** The pieces pushed by `ys.forEach(y => pieces.push(...))`, in push order. */
  function Row(x: real, ys: seq<real>, player: int): (ps: seq<Body>)
    ensures |ps| == |ys|
    ensures forall i :: 0 <= i < |ys| ==> ps[i] == PieceAt(x, ys[i], player)
  {
    if ys == [] then [] else Row(x, ys[..|ys| - 1], player) + [PieceAt(x, ys[|ys| - 1], player)]
  }

  /** The ten pieces: player 1's defenders and attackers, then player 2's. */
  function InitialPieces(w: real, h: real): (ps: seq<Body>)
    ensures |ps| == PieceCount
    ensures forall i :: 0 <= i < |ps| ==> ps[i].player == (if i < 5 then 1 else 2)
    ensures forall i :: 0 <= i < |ps| ==>
              ps[i].r == PieceRadius && ps[i].m == PieceMass && !ps[i].moving && ps[i].vx == 0.0 && ps[i].vy == 0.0
  {
    Row(w * 0.1, DefenderRows(h), 1) + Row(w * 0.3, AttackerRows(h), 1)
    + Row(w * 0.9, DefenderRows(h), 2) + Row(w * 0.7, AttackerRows(h), 2)
  }

  /** Player 2's pieces are player 1's mirrored about the centre line. */
  lemma LayoutIsMirrored(w: real, h: real)
    ensures forall k :: 0 <= k < 5 ==>
              InitialPieces(w, h)[k + 5].x == w - InitialPieces(w, h)[k].x
              && InitialPieces(w, h)[k + 5].y == InitialPieces(w, h)[k].y
  {
  }

  /** On a field at least 200 wide and 100 high every piece and the ball lie inside the walls. */
  lemma LayoutInsideField(w: real, h: real)
    requires w >= 200.0 && h >= 100.0
    ensures forall i :: 0 <= i < PieceCount ==> Reflect(InitialPieces(w, h)[i], w, h) == InitialPieces(w, h)[i]
    ensures Reflect(Kickoff(w, h), w, h) == Kickoff(w, h)
  {
  }
}
