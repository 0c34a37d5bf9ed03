/**
 * The turn and match rules as functions of the counters: switchPlayer,
 * the once-per-second turn timer and match timer, the end-of-match verdict
 * and the goal test (js/script.js).
 */
module Rules {
  import opened Options
  import opened Bodies

  const TurnSeconds: int := 10
  const MatchSeconds: nat := 300
  const GoalHalfWidth: real := 75.0

  /** The player who moves next: `currentPlayer === 1 ? 2 : 1`. */
  function Other(p: int): (q: int)
    ensures q == 1 || q == 2
    ensures q == 1 <==> p != 1
  {
    if p == 1 then 2 else 1
  }

  /** Switching twice gives the turn back, and a switch always changes a player 1 or 2. */
  lemma OtherIsInvolution(p: int)
    requires p == 1 || p == 2
    ensures Other(Other(p)) == p && Other(p) != p
  {}

  /** The turn counters: whose turn it is and the seconds left in it. */
  datatype Turn = Turn(player: int, seconds: int)

  /**
   * One firing of the turn timer. `idle` is the timer's gate: no body
   * moving, match time left and no launched piece still in play. When the
   * countdown runs out the turn passes and the countdown restarts.
   */
  function TurnSecond(t: Turn, idle: bool): (u: Turn)
    requires 1 <= t.seconds <= TurnSeconds
    ensures 1 <= u.seconds <= TurnSeconds
    ensures u.player == t.player || u.player == Other(t.player)
    ensures u.player != t.player ==> idle && t.seconds == 1 && u.seconds == TurnSeconds
    ensures !idle ==> u == t
  {
    if !idle then t
    else if t.seconds - 1 <= 0 then Turn(Other(t.player), TurnSeconds)
    else Turn(t.player, t.seconds - 1)
  }

  /** `n` consecutive firings of the turn timer with the gate open. */
  function IdleSeconds(t: Turn, n: nat): Turn
    requires 1 <= t.seconds <= TurnSeconds
  {
    if n == 0 then t else TurnSecond(IdleSeconds(t, n - 1), true)
  }

  /**
   * With the gate open, the countdown runs down one second per firing while
   * the same player keeps the turn, and the firing that takes it to zero
   * hands the turn over with a full countdown.
   */
  lemma {:induction false} IdleTurnRunsOut(t: Turn, n: nat)
    requires 1 <= t.seconds <= TurnSeconds
    requires n <= t.seconds
    ensures n < t.seconds ==> IdleSeconds(t, n) == Turn(t.player, t.seconds - n)
    ensures n == t.seconds ==> IdleSeconds(t, n) == Turn(Other(t.player), TurnSeconds)
  {
    if n > 0 {
      IdleTurnRunsOut(t, n - 1);
    }
  }

  /** The final result announced by endGame. */
  datatype Outcome = Player1Wins | Player2Wins | Tie

  /** The verdict of endGame: exactly one of the three outcomes holds. */
  function Verdict(s1: int, s2: int): (o: Outcome)
    ensures o == Player1Wins <==> s1 > s2
    ensures o == Player2Wins <==> s2 > s1
    ensures o == Tie <==> s1 == s2
  {
    if s1 > s2 then Player1Wins else if s2 > s1 then Player2Wins else Tie
  }

  /** The match counters: seconds left and, once the match is over, its result. */
  datatype Clock = Clock(secondsLeft: nat, outcome: Option<Outcome>)

  /** One firing of the match timer with the scores `s1` and `s2`. */
  function MatchSecond(c: Clock, s1: int, s2: int): (d: Clock)
    ensures d.secondsLeft <= c.secondsLeft
    ensures c.secondsLeft > 0 ==> d == Clock(c.secondsLeft - 1, c.outcome)
    ensures c.secondsLeft == 0 ==> d.secondsLeft == 0 && d.outcome == Some(Verdict(s1, s2))
  {
    if c.secondsLeft > 0 then Clock(c.secondsLeft - 1, c.outcome)
    else Clock(0, Some(Verdict(s1, s2)))
  }

  /** `n` firings of the match timer with unchanged scores. */
  function Countdown(c: Clock, s1: int, s2: int, n: nat): Clock {
    if n == 0 then c else MatchSecond(Countdown(c, s1, s2, n - 1), s1, s2)
  }

  /**
   * A match with `c.secondsLeft` seconds on the clock is still running after
   * that many firings, with the clock at zero, and is over, with the verdict
   * on the scores, after one more.
   */
  lemma {:induction false} MatchRunsOut(c: Clock, s1: int, s2: int, n: nat)
    requires c.outcome == None
    requires n <= c.secondsLeft + 1
    ensures n <= c.secondsLeft ==> Countdown(c, s1, s2, n) == Clock(c.secondsLeft - n, None)
    ensures n == c.secondsLeft + 1 ==> Countdown(c, s1, s2, n) == Clock(0, Some(Verdict(s1, s2)))
  {
    if n > 0 {
      MatchRunsOut(c, s1, s2, n - 1);
    }
  }

  /** The ball lies strictly inside the goal mouth band `(h/2 - 75, h/2 + 75)`. */
  predicate InMouthBand(b: Body, h: real) {
    h / 2.0 - GoalHalfWidth < b.y < h / 2.0 + GoalHalfWidth
  }

  /** The ball touches the left edge inside the goal mouth. */
  predicate InLeftGoal(b: Body, h: real) {
    b.x - b.r <= 0.0 && InMouthBand(b, h)
  }

  /** The ball touches the right edge inside the goal mouth. */
  predicate InRightGoal(b: Body, w: real, h: real) {
    b.x + b.r >= w && InMouthBand(b, h)
  }

  /** The goal test of a tick. */
  predicate IsGoal(b: Body, w: real, h: real) {
    InLeftGoal(b, h) || InRightGoal(b, w, h)
  }

  /**
   * The goal test comes before the ball's wall bounce, so a ball inside the
   * goal mouth band that is not a goal never bounces off the end walls.
   */
  lemma NoEndWallBounceInMouth(b: Body, w: real, h: real)
    requires InMouthBand(b, h) && !IsGoal(b, w, h)
    ensures Reflect(b, w, h).x == b.x && Reflect(b, w, h).vx == b.vx
  {}
}
