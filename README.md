# Soccer button game: turn, match and motion rules

This project models the game-rules layer of `js/script.js`, a browser game of
table soccer with buttons. Two players each own five circular pieces and take
turns flicking one of them at a shared ball. The model captures:

- the match state (whose turn it is, the score, the match clock, the turn
  clock, the piece launched last and still moving);
- the once-per-second turn timer and match timer;
- the end-of-match verdict;
- the per-tick motion of the pieces and the ball: drift, friction, the stop
  threshold and the per-axis wall bounce;
- the rule that a turn ends when the launched piece comes to rest;
- goal detection and scoring, and the kick-off layout;
- the mouse rules: which piece a press grabs, and the velocity a release
  gives it.

Layout:

- `bodies.dfy` (module `Bodies`): the disc datatype, the motion step
  `Drift`, the wall bounce `Bounce` and `Reflect`, and the shape of the
  collision stage. It also holds the coasting lemmas: a piece left to itself
  loses at least 0.001191 of squared speed per tick while it moves, so it
  comes to rest.
- `layout.dfy` (`Layout`): the positions built by `resetPositions`.
- `rules.dfy` (`Rules`): `switchPlayer`'s toggle, the two timers as
  functions of their counters, the verdict of `endGame`, and the goal test.
- `input.dfy` (`Input`): the `find` of the mousedown handler and the launch
  of the mouseup handler.
- `match.dfy` (`Game`): the class `Match`. Its fields are the script's
  module-level variables, and each timer callback and mouse handler is a
  method that the host calls. `Valid()` is the invariant that the
  constructor establishes and that the timer callbacks, the tick methods
  (`GameLoop`, `MoveAndCollide`, `MovePieces`, `GoalOrRebound`,
  `ScoreGoal`) and the mouse
  handlers keep. The helpers `ResetPositions`, `PushRow` and `SwitchPlayer`
  run inside those methods, on states that are still being rebuilt, and
  state their effect without it. `Valid()` says:
  - the player to move is 1 or 2;
  - the turn countdown is in 1..10;
  - there are ten pieces with fixed size, mass and owner;
  - a body at rest has zero velocity;
  - a pending launched piece is moving;
  - once the match is over, the clock is at 0 and the stored result is the
    verdict on the scores.

Coordinates and velocities are `real`. Every `Math.hypot(dx, dy)` comparison
is written as the same comparison on squares.

Details of the code the model keeps:

- The goal mouth is the open band `(h/2 - 75, h/2 + 75)`: a ball centred
  exactly 75 from the middle is not in it.
- A piece bounces off the walls inside its motion step, while the ball bounces
  only after the goal test, and even when the ball is at rest.
- A goal is credited to the player to move after the tick's piece loop. If the
  launched piece stops in the same tick as the goal, the turn has already
  passed, so the goal goes to the other player.

Two consequences of the code are stated as lemmas or contracts:

- In the turn timer's gate, the `!lastPlayedPiece` test is implied by
  `!isMoving()`, because a pending launched piece is always moving
  (`Game.Match.PendingLaunchIsMoving`).
- The mouseup handler does not check whose turn it is. If the turn timer runs
  out during a drag, the grabbed piece of the previous player is still
  launched. `Game.Match.MouseUp` reproduces this.

## Model

| member | source | states |
|---|---|---|
| `Bodies.Drift` | js/script.js:123-127 | A moving body moves by its velocity, and friction scales the velocity by 0.985. It stays moving exactly when the decayed speed is at least 0.2. Once at rest its velocity is zero. Speed never grows. Size, mass and owner are kept. |
| `Bodies.SlowerByFriction` | js/script.js:124 | While a body keeps moving, one tick scales its squared speed by 0.985² = 0.970225. |
| `Bodies.StepSlows` | js/script.js:122-132 | One piece tick ends at rest or loses at least 0.001191 of squared speed; a piece at rest stays at rest. |
| `Bodies.CoastSlows` | js/script.js:121-134 | After n ticks with no collisions, a still-moving piece has lost at least 0.001191·n of squared speed. |
| `Bodies.EventuallyStops` | js/script.js:126-127 | A piece with no collisions is at rest after any n ticks with 0.001191·n above its initial squared speed. |
| `Bodies.Bounce` | js/script.js:131 | One axis of the wall rule. Past the near edge (p − r < 0) the result is (r, −v); otherwise past the far edge (p + r > size) it is (size − r, −v), so the near edge wins when both hold; inside both edges nothing changes. The velocity is kept or negated, so its magnitude is kept. A disc that fits inside the field ends inside it. |
| `Bodies.Reflect` | js/script.js:131-132 | The x rule decides x and vx from x, vx, r and the width only. The y rule does the same for y and vy. Speed, the moving flag and a body's rest are kept. |
| `Bodies.AnyMoving` | js/script.js:96 | True exactly when some piece in the sequence is moving. |
| `Layout.Kickoff` | js/script.js:42 | The ball is at rest, with zero velocity, at the centre of the field. |
| `Layout.Row` | js/script.js:49-52 | One `forEach`/`push` row yields one piece per height, in order, at the given x. |
| `Layout.InitialPieces` | js/script.js:43-52 | Exactly ten pieces: the first five are player 1's, the last five player 2's. Each has radius 20, mass 3 and zero velocity, and is not moving. |
| `Layout.LayoutIsMirrored` | js/script.js:45-52 | Player 2's k-th piece is player 1's k-th piece mirrored about the centre line. |
| `Layout.LayoutInsideField` | js/script.js:41-54 | On a field at least 200 by 100, the wall rule leaves every kick-off piece and the ball where they are. |
| `Rules.Other` | js/script.js:211 | The next player is always 1 or 2. It is 2 exactly when the current player is 1. |
| `Rules.OtherIsInvolution` | js/script.js:211 | For players 1 and 2, switching changes the player, and switching twice gives the turn back. |
| `Rules.TurnSecond` | js/script.js:89-92 | A turn-timer firing with the gate shut changes nothing. The countdown stays in 1..10. The player changes only when the gate is open and the countdown was at 1; the countdown then restarts at 10. |
| `Rules.IdleTurnRunsOut` | js/script.js:88-93 | From a countdown of k, with the gate open, the first j < k firings keep the player and leave k - j seconds. Firing k hands the turn to the other player with 10 seconds. |
| `Rules.Verdict` | js/script.js:114 | Player 1 wins iff their score is greater, player 2 wins iff theirs is greater, and it is a tie iff the scores are equal. |
| `Rules.MatchSecond` | js/script.js:82-83 | A match-timer firing takes one second off a positive clock, so the clock never goes negative. At 0 it ends the match with the verdict on the scores. |
| `Rules.MatchRunsOut` | js/script.js:81-85 | With T seconds left, the match is still running after T firings, with the clock at 0. One more firing ends it with the verdict. |
| `Rules.NoEndWallBounceInMouth` | js/script.js:155-160 | A ball inside the goal-mouth band that is not a goal never bounces on the x axis. |
| `Input.FirstGrabbed` | js/script.js:256 | The result is the first piece of the given player within its radius of the press, or none when there is no such piece. |
| `Input.Launch` | js/script.js:258 | The launched piece is moving, with 5·velocity = start − end. Its position, size, mass and owner are unchanged. |
| `Input.ClickWithoutDragStops` | js/script.js:258 | A release without a drag launches the piece at zero speed, so it stops on the next tick. |
| `Game.Match.constructor` | js/script.js:65-73 | The match starts at 0-0 with 300 s on the clock, player 1 to move, 10 s in the turn and the kick-off layout. Nothing is pending or grabbed. |
| `Game.Match.IsMoving` | js/script.js:96 | True exactly when the ball or some piece is moving. |
| `Game.Match.PendingLaunchIsMoving` | js/script.js:90 | While a launched piece is pending, something is moving. |
| `Game.Match.ResetPositions` | js/script.js:41-54 | The pieces become the kick-off layout, the ball is at kick-off and the pending launch is cleared. Scores, clocks and the turn are untouched. |
| `Game.Match.PushRow` | js/script.js:49-52 | The row's pieces are appended to the pieces in height order. |
| `Game.Match.SwitchPlayer` | js/script.js:211 | The other player moves with a 10-second countdown. Scores, match clock and bodies are untouched. |
| `Game.Match.TurnTick` | js/script.js:89-92 | The turn counters advance by `Rules.TurnSecond`, with the gate "nothing moving, time left, no pending launch". After the match ends the tick changes nothing. |
| `Game.Match.GameTick` | js/script.js:82-83 | The match counters advance by `Rules.MatchSecond` on the current scores. |
| `Game.Match.MovePieces` | js/script.js:121-134 | Every moving piece drifts and then bounces. If the launched piece stops, the pending launch is cleared and the turn passes with a full countdown; otherwise the turn state is untouched. |
| `Game.Match.StepAt` | js/script.js:122-132 | One pass of the piece loop: piece i takes one motion step and no other piece changes. The turn passes, with the launch cleared, exactly when piece i is the launched piece and stops; otherwise the turn state is untouched. |
| `Game.Match.MoveAndCollide` | js/script.js:121-153 | Pieces then ball step, then the collision stage. The turn passes if the launched piece stopped. |
| `Game.Match.TouchedKeepsPieces` | js/script.js:206-207 | The collision stage keeps each piece's size, mass and owner, and a piece or ball at rest still has zero velocity. A moving piece stays moving. The ball keeps its size, mass and owner. |
| `Game.Match.ScoreGoal` | js/script.js:156 | The score of the player to move rises by exactly one and the other score is unchanged. The board goes back to kick-off. |
| `Game.Match.GoalOrRebound` | js/script.js:155-160 | A ball touching either end inside the goal mouth scores for the player to move, resets the board and skips the rebound. Otherwise the ball bounces and nothing else changes. |
| `Game.Match.GameLoop` | js/script.js:118-162 | After the match ends, a tick changes nothing. Otherwise the new state is given in terms of the old one: the turn passes exactly when the launched piece settles. A goal credits the player to move after that, leaves the turn as it is and resets the board. Without a goal, the bodies are the collision stage's result with the ball bounced. |
| `Game.Match.MouseDown` | js/script.js:256 | While something moves or time is up, nothing changes. Otherwise the grab is the first piece of the player to move under the pointer, and the drag starts there; if no piece is under it, nothing is grabbed. |
| `Game.Match.MouseMove` | js/script.js:257 | While a piece is grabbed, the drag's end follows the pointer. |
| `Game.Match.MouseUp` | js/script.js:258 | A grabbed piece is launched with (start − end)/5 and becomes the pending launch. The grab and the drag are cleared, and no other piece changes. |

## Left out

- Drawing: `draw`, `drawSoccerBall`, the aura, the prediction line, the force indicator and the `rotation` / `ballConfig.rotation` spin. These only paint the canvas.
- Text updates (`updateUI`, `updateTurnUI`) and the event-listener plumbing. `getBoundingClientRect` is folded into the mouse methods: they take canvas coordinates.
- Interval scheduling (`setInterval`, `clearInterval`, `clearAllTimers`). Each callback is a method the host calls. The timers that `endGame` stops are modelled by the stored result: `GameLoop` does nothing, `TurnTick`'s gate is shut because the clock is 0, and `GameTick` repeats the same verdict.
- The restart of the turn interval inside `startTurnTimer`, which shifts the phase of the next turn-timer firing. The model has no time within a second.
- Bodies.Drift: does not apply `clampSpeed`, because rescaling to speed 12 needs a square root. Above speed 12 the model's velocity is larger than the source's. The clamp cannot change the stop decision, since a clamped speed of 12 is above 0.2.
- Game.Match.GameLoop: the collision stage (`collide`, three passes over piece-piece and piece-ball pairs) is the parameter `resolve`. The model assumes only what `CollisionPass` says: each body is either unchanged, or marked moving with its size, mass and owner kept. It omits the impulse with restitution 0.8, the overlap correction, the pass order and the division by zero at zero distance.
- Bodies.EventuallyStops: the bound is linear in the initial squared speed (at most about 21,000 ticks from speed 5), which is much weaker than the geometric decay of friction. It is also proved only for a piece that meets no other body.
- Floating point: every quantity is an exact real, so rounding in friction and in the stop test is not modelled.
- The resize handler and the reset button. The field size is fixed for a `Match` (`width` and `height` are constants). The reset button re-runs `init`, which here is constructing a new `Match`. A grab that survives a reset in the source is therefore not modelled.
- The grabbed piece and the launched piece are kept as indices into the pieces, not as object references. The two differ only when the board is rebuilt between a press and a release, which only the resize handler and the reset button can do.
