/**
 * The match state of js/script.js as one object: the module-level variables
 * become fields, and each timer callback and mouse handler becomes a method
 * that the host calls.
 */
module Game {
  import opened Options
  import opened Bodies
  import opened Layout
  import opened Rules
  import opened Input

  /** The fixed data of the piece in slot `i`: size, mass, owner; and a piece at rest has no velocity. */
  predicate PieceOk(p: Body, i: int) {
    p.r == PieceRadius && p.m == PieceMass && p.player == (if i < 5 then 1 else 2) && AtRestIsStill(p)
  }

  /** The launched piece `last` comes to rest in this tick's motion step. */
  predicate Settles(last: Option<nat>, ps: seq<Body>) {
    last.Some? && last.value < |ps| && ps[last.value].moving && !Drift(ps[last.value]).moving
  }

  class Match {
    const width: real
    const height: real
    var currentPlayer: int
    var scores: map<int, nat>
    var timeLeft: nat
    var turnTime: int
    /** The piece launched last, while it is still in motion (`lastPlayedPiece`). */
    var lastPlayed: Option<nat>
    var pieces: seq<Body>
    var ball: Body
    /** The piece grabbed by a mouse press and not yet released, with the drag's two ends. */
    var selected: Option<nat>
    var startPoint: Option<Point>
    var dragEnd: Option<Point>
    /** None while the match runs; the verdict once endGame has stopped the timers. */
    var outcome: Option<Outcome>

    ghost predicate Valid()
      reads this
    {
      && (currentPlayer == 1 || currentPlayer == 2)
      && scores.Keys == {1, 2}
      && 1 <= turnTime <= TurnSeconds
      && |pieces| == PieceCount
      && (forall i :: 0 <= i < |pieces| ==> PieceOk(pieces[i], i))
      && ball.r == BallRadius && ball.m == BallMass && ball.player == 0 && AtRestIsStill(ball)
      && (lastPlayed.Some? ==> lastPlayed.value < |pieces| && pieces[lastPlayed.value].moving)
      && (selected.Some? ==> selected.value < |pieces| && startPoint.Some? && dragEnd.Some?)
      && (outcome.Some? ==> timeLeft == 0 && outcome.value == Verdict(scores[1], scores[2]))
    }

    /** `init`: scores 0-0, five minutes on the clock, player 1 to move with a full turn, kick-off layout. */
    constructor (w: real, h: real)
      ensures Valid()
      ensures width == w && height == h
      ensures currentPlayer == 1 && scores == map[1 := 0, 2 := 0]
      ensures timeLeft == MatchSeconds && turnTime == TurnSeconds
      ensures pieces == InitialPieces(w, h) && ball == Kickoff(w, h) && lastPlayed == None
      ensures selected == None && startPoint == None && dragEnd == None && outcome == None
    {
      width, height := w, h;
      currentPlayer := 1;
      scores := map[1 := 0, 2 := 0];
      timeLeft := MatchSeconds;
      turnTime := TurnSeconds;
      lastPlayed := None;
      pieces := [];
      ball := Kickoff(w, h);
      selected, startPoint, dragEnd := None, None, None;
      outcome := None;
      new;
      ResetPositions();
    }

    /** `isMoving`: the ball or some piece is in motion. */
    function IsMoving(): (r: bool)
      reads this
      ensures r <==> ball.moving || exists i :: 0 <= i < |pieces| && pieces[i].moving
    {
      ball.moving || AnyMoving(pieces)
    }

    /** While a launched piece is pending it is moving, so the turn timer's gate is shut. */
    lemma PendingLaunchIsMoving()
      requires Valid()
      ensures lastPlayed.Some? ==> IsMoving()
    {
    }

    /** `resetPositions`: the kick-off layout, with no launched piece pending. */
    method ResetPositions()
      modifies this`pieces, this`ball, this`lastPlayed
      ensures pieces == InitialPieces(width, height)
      ensures ball == Kickoff(width, height)
      ensures lastPlayed == None
    {
      ball := Kickoff(width, height);
      pieces := [];
      PushRow(width * 0.1, DefenderRows(height), 1);
      PushRow(width * 0.3, AttackerRows(height), 1);
      PushRow(width * 0.9, DefenderRows(height), 2);
      PushRow(width * 0.7, AttackerRows(height), 2);
      lastPlayed := None;
    }

    /** `ys.forEach(y => pieces.push(...))` for one row of pieces. */
    method PushRow(x: real, ys: seq<real>, player: int)
      modifies this`pieces
      ensures pieces == old(pieces) + Row(x, ys, player)
    {
      var i := 0;
      while i < |ys|
        invariant 0 <= i <= |ys|
        invariant pieces == old(pieces) + Row(x, ys[..i], player)
      {
        assert ys[..i + 1][..i] == ys[..i];
        pieces := pieces + [PieceAt(x, ys[i], player)];
        i := i + 1;
      }
      assert ys[..i] == ys;
    }

    /** `switchPlayer`: the other player moves, with a full turn countdown. */
    method SwitchPlayer()
      modifies this`currentPlayer, this`turnTime
      ensures currentPlayer == Other(old(currentPlayer)) && turnTime == TurnSeconds
    {
      currentPlayer := if currentPlayer == 1 then 2 else 1;
      turnTime := TurnSeconds;
    }

    /**
     * The turn timer's callback: while nothing moves, match time remains and
     * no launched piece is pending, count one second down and pass the turn
     * when the countdown runs out; otherwise do nothing.
     */
    method TurnTick()
      requires Valid()
      modifies this`currentPlayer, this`turnTime
      ensures Valid()
      ensures Turn(currentPlayer, turnTime)
              == TurnSecond(Turn(old(currentPlayer), old(turnTime)), !IsMoving() && timeLeft > 0 && lastPlayed == None)
      ensures outcome.Some? ==> currentPlayer == old(currentPlayer) && turnTime == old(turnTime)
    {
      if !IsMoving() && timeLeft > 0 && lastPlayed == None {
        turnTime := turnTime - 1;
        if turnTime <= 0 {
          SwitchPlayer();
        }
      }
    }

    /** The match timer's callback: count one second down, or end the match with its verdict at zero. */
    method GameTick()
      requires Valid()
      modifies this`timeLeft, this`outcome
      ensures Valid()
      ensures Clock(timeLeft, outcome) == MatchSecond(Clock(old(timeLeft), old(outcome)), scores[1], scores[2])
    {
      if timeLeft > 0 {
        timeLeft := timeLeft - 1;
      } else {
        outcome := Some(Verdict(scores[1], scores[2]));
      }
    }

    /**
     * The piece loop of `gameLoop`: every moving piece drifts and bounces off
     * the walls; when the launched piece comes to rest, the pending launch is
     * cleared and the turn passes.
     */
    method MovePieces()
      requires Valid()
      modifies this`pieces, this`lastPlayed, this`currentPlayer, this`turnTime
      ensures Valid()
      ensures pieces == StepPieces(old(pieces), width, height)
      ensures Settles(old(lastPlayed), old(pieces)) ==>
                lastPlayed == None && currentPlayer == Other(old(currentPlayer)) && turnTime == TurnSeconds
      ensures !Settles(old(lastPlayed), old(pieces)) ==>
                lastPlayed == old(lastPlayed) && currentPlayer == old(currentPlayer) && turnTime == old(turnTime)
    {
      ghost var ps0 := pieces;
      var i: nat := 0;
      while i < |pieces|
        invariant i <= |pieces| == |ps0|
        invariant forall k :: 0 <= k < i ==> pieces[k] == StepPiece(ps0[k], width, height)
        invariant forall k :: i <= k < |pieces| ==> pieces[k] == ps0[k]
        invariant forall k :: 0 <= k < |pieces| ==> PieceOk(pieces[k], k)
        invariant if Settles(old(lastPlayed), ps0) && old(lastPlayed).value < i
                  then lastPlayed == None && currentPlayer == Other(old(currentPlayer)) && turnTime == TurnSeconds
                  else lastPlayed == old(lastPlayed) && currentPlayer == old(currentPlayer) && turnTime == old(turnTime)
      {
        StepAt(i);
        i := i + 1;
      }
      assert pieces == StepPieces(ps0, width, height);
    }

    /**
     * One pass of the piece loop, on piece `i`: a moving piece drifts; if it
     * is the launched piece and has stopped, the launch is cleared and the
     * turn passes; then the piece bounces off the walls.
     */
    method StepAt(i: nat)
      requires i < |pieces| && forall k :: 0 <= k < |pieces| ==> PieceOk(pieces[k], k)
      modifies this`pieces, this`lastPlayed, this`currentPlayer, this`turnTime
      ensures pieces == old(pieces)[i := StepPiece(old(pieces)[i], width, height)]
      ensures forall k :: 0 <= k < |pieces| ==> PieceOk(pieces[k], k)
      ensures if Settles(old(lastPlayed), old(pieces)) && old(lastPlayed).value == i
              then lastPlayed == None && currentPlayer == Other(old(currentPlayer)) && turnTime == TurnSeconds
              else lastPlayed == old(lastPlayed) && currentPlayer == old(currentPlayer) && turnTime == old(turnTime)
    {
      var p := pieces[i];
      StepKeepsPieceOk(p, i, width, height);
      if p.moving {
        var d := Drift(p);
        if !d.moving && lastPlayed == Some(i) {
          lastPlayed := None;
          SwitchPlayer();
        }
        pieces := pieces[i := StepPiece(p, width, height)];
      }
    }

    /** The piece step keeps a piece's fixed data, and a piece at rest still. */
    static lemma StepKeepsPieceOk(p: Body, i: int, w: real, h: real)
      requires PieceOk(p, i)
      ensures PieceOk(StepPiece(p, w, h), i)
    {}

    /** A goal: the player to move is credited and the board goes back to the kick-off layout. */
    method ScoreGoal()
      requires Valid() && outcome == None
      modifies this`scores, this`pieces, this`ball, this`lastPlayed
      ensures Valid()
      ensures scores == old(scores)[currentPlayer := old(scores)[currentPlayer] + 1]
      ensures pieces == InitialPieces(width, height) && ball == Kickoff(width, height) && lastPlayed == None
    {
      scores := scores[currentPlayer := scores[currentPlayer] + 1];
      ResetPositions();
    }

    /**
     * One tick of `gameLoop`, once the match has ended a no-op because
     * endGame cleared its interval. Pieces move (see MovePieces), then the
     * ball; `resolve` stands for the collision stage; then a ball in either
     * goal mouth scores for the player to move and ends the tick, and
     * otherwise the ball bounces off the walls.
     */
    method GameLoop(resolve: (seq<Body>, Body) -> (seq<Body>, Body))
      requires Valid()
      requires forall ps, b :: CollisionPass(ps, b, resolve(ps, b))
      modifies this
      ensures Valid()
      ensures old(outcome).Some? ==>
                currentPlayer == old(currentPlayer) && turnTime == old(turnTime) && scores == old(scores)
                && pieces == old(pieces) && ball == old(ball) && lastPlayed == old(lastPlayed)
      ensures old(outcome).None? ==>
                var settled := Settles(old(lastPlayed), old(pieces));
                var mover := if settled then Other(old(currentPlayer)) else old(currentPlayer);
                var after := resolve(StepPieces(old(pieces), width, height), StepBall(old(ball)));
                && currentPlayer == mover
                && turnTime == (if settled then TurnSeconds else old(turnTime))
                && if IsGoal(after.1, width, height) then
                     && scores == old(scores)[mover := old(scores)[mover] + 1]
                     && pieces == InitialPieces(width, height) && ball == Kickoff(width, height)
                     && lastPlayed == None
                   else
                     && scores == old(scores)
                     && pieces == after.0 && ball == Reflect(after.1, width, height)
                     && lastPlayed == (if settled then None else old(lastPlayed))
      ensures timeLeft == old(timeLeft) && outcome == old(outcome)
      ensures selected == old(selected) && startPoint == old(startPoint) && dragEnd == old(dragEnd)
    {
      if outcome.Some? {
        return;
      }
      MoveAndCollide(resolve);
      GoalOrRebound();
    }

    /** The motion and collision stages of a tick: pieces, then the ball, then `resolve`. */
    method MoveAndCollide(resolve: (seq<Body>, Body) -> (seq<Body>, Body))
      requires Valid()
      requires forall ps, b :: CollisionPass(ps, b, resolve(ps, b))
      modifies this`pieces, this`ball, this`lastPlayed, this`currentPlayer, this`turnTime
      ensures Valid()
      ensures (pieces, ball) == resolve(StepPieces(old(pieces), width, height), StepBall(old(ball)))
      ensures Settles(old(lastPlayed), old(pieces)) ==>
                lastPlayed == None && currentPlayer == Other(old(currentPlayer)) && turnTime == TurnSeconds
      ensures !Settles(old(lastPlayed), old(pieces)) ==>
                lastPlayed == old(lastPlayed) && currentPlayer == old(currentPlayer) && turnTime == old(turnTime)
    {
      MovePieces();
      ball := StepBall(ball);
      var after := resolve(pieces, ball);
      TouchedKeepsPieces(pieces, ball, after);
      pieces, ball := after.0, after.1;
    }

    /**
     * The end of a tick: a ball touching either end inside the goal mouth
     * scores for the player to move and resets the board, skipping the
     * rebound; otherwise the ball bounces off the walls.
     */
    method GoalOrRebound()
      requires Valid() && outcome == None
      modifies this`scores, this`pieces, this`ball, this`lastPlayed
      ensures Valid()
      ensures IsGoal(old(ball), width, height) ==>
                && scores == old(scores)[currentPlayer := old(scores)[currentPlayer] + 1]
                && pieces == InitialPieces(width, height) && ball == Kickoff(width, height) && lastPlayed == None
      ensures !IsGoal(old(ball), width, height) ==>
                && scores == old(scores) && pieces == old(pieces) && lastPlayed == old(lastPlayed)
                && ball == Reflect(old(ball), width, height)
    {
      if InLeftGoal(ball, height) {
        ScoreGoal();
        return;
      }
      if InRightGoal(ball, width, height) {
        ScoreGoal();
        return;
      }
      ball := Reflect(ball, width, height);
    }

    /** The collision stage keeps every piece's fixed data and keeps a pending launch in motion. */
    static lemma TouchedKeepsPieces(ps: seq<Body>, b: Body, res: (seq<Body>, Body))
      requires CollisionPass(ps, b, res)
      ensures |res.0| == |ps|
      ensures forall i :: 0 <= i < |ps| && PieceOk(ps[i], i) ==> PieceOk(res.0[i], i)
      ensures forall i :: 0 <= i < |ps| && ps[i].moving ==> res.0[i].moving
      ensures SameDisc(b, res.1) && (AtRestIsStill(b) ==> AtRestIsStill(res.1))
    {
    }

    /**
     * The mousedown handler: unless something moves or match time is up,
     * grab the first piece of the player to move under the pointer, and
     * start a drag there.
     */
    method MouseDown(at: Point)
      requires Valid()
      modifies this`selected, this`startPoint, this`dragEnd
      ensures Valid()
      ensures IsMoving() || timeLeft == 0 ==>
                selected == old(selected) && startPoint == old(startPoint) && dragEnd == old(dragEnd)
      ensures !IsMoving() && timeLeft > 0 && selected.Some? ==>
                && Grabs(pieces[selected.value], currentPlayer, at)
                && (forall j :: 0 <= j < selected.value ==> !Grabs(pieces[j], currentPlayer, at))
                && startPoint == Some(at) && dragEnd == Some(at)
      ensures !IsMoving() && timeLeft > 0 && selected.None? ==>
                && (forall j :: 0 <= j < |pieces| ==> !Grabs(pieces[j], currentPlayer, at))
                && startPoint == old(startPoint) && dragEnd == old(dragEnd)
    {
      if IsMoving() || timeLeft <= 0 {
        return;
      }
      selected := FirstGrabbed(pieces, currentPlayer, at);
      if selected.Some? {
        startPoint, dragEnd := Some(at), Some(at);
      }
    }

    /** The mousemove handler: while a piece is grabbed, the drag follows the pointer. */
    method MouseMove(at: Point)
      requires Valid()
      modifies this`dragEnd
      ensures Valid()
      ensures dragEnd == if selected.Some? then Some(at) else old(dragEnd)
    {
      if selected.Some? {
        dragEnd := Some(at);
      }
    }

    /**
     * The mouseup handler: a grabbed piece is launched with the drag's
     * velocity, becomes the pending launch, and the grab ends.
     */
    method MouseUp()
      requires Valid()
      modifies this`pieces, this`lastPlayed, this`selected, this`startPoint, this`dragEnd
      ensures Valid()
      ensures old(selected).Some? && old(dragEnd).Some? ==>
                var k := old(selected).value;
                && pieces == old(pieces)[k := Launch(old(pieces)[k], old(startPoint).value, old(dragEnd).value)]
                && lastPlayed == Some(k)
                && selected == None && startPoint == None && dragEnd == None
      ensures !(old(selected).Some? && old(dragEnd).Some?) ==>
                && pieces == old(pieces) && lastPlayed == old(lastPlayed)
                && selected == old(selected) && startPoint == old(startPoint) && dragEnd == old(dragEnd)
    {
      if selected.Some? && dragEnd.Some? {
        var k := selected.value;
        lastPlayed := selected;
        pieces := pieces[k := Launch(pieces[k], startPoint.value, dragEnd.value)];
        selected, dragEnd, startPoint := None, None, None;
      }
    }
  }
}
