# Lane runner game state

A model of the game-state logic of `game.js`, a browser endless runner. The player's cube
switches between three lanes at offsets -3, 0 and 3. It can jump, and it must avoid obstacle
cubes that spawn far away and scroll towards the camera. An obstacle that passes the camera
scores a point. Touching an obstacle ends the game.

The project has two modules:

- `GameLogic` (`game_logic.dfy`) holds the rules as values:
  - the lane constants and `indexOf`;
  - the lane shifts of `moveLeft` and `moveRight`;
  - the left/right decision of a tap or click;
  - the jump state machine (`Vertical`: height, velocity, `isJumping`);
  - the 20% lane interpolation;
  - the collision predicate;
  - `Sweep`, one frame of the obstacle loop.

  `Sweep` follows `Array.prototype.forEach` with `splice` inside the callback, as section
  23.1.3.15 of ECMAScript 2023 defines it. The number of iterations is fixed when the loop
  starts, and an index past the current end is skipped. So when an obstacle is spliced out,
  the next one moves into its slot and is not visited in that frame. `Skipped`, `Fate` and
  `Survivors` describe the same frame index by index. `SweepVisits` proves that the two
  descriptions agree.
- `GameSession` (`game_session.dfy`) holds the class `Session`. Its fields mirror the
  script's globals (`moveTargetX`, the player position, `isJumping`, `jumpVelocity`,
  `obstacles`, `score`, `highScore`). Its methods are the handlers, and each one updates the
  state in place. `Valid()` is the session invariant that every handler keeps:
  - the target is one of the lanes;
  - the player's x lies between the outer lanes;
  - the player's depth is 0;
  - the player never sinks below the ground and rests on it when not jumping;
  - every obstacle is in a lane, on the ground, and between depth -50 and 10;
  - `0 <= score <= highScore`.

`speed * 10` is exactly 1 and obstacles start at depth -50, so obstacle depth is an `int`
that grows by 1 per frame. Positions and velocities of the player are `real`.

When an obstacle is spliced out, the next obstacle moves into its slot and is neither
advanced nor tested in that frame. The model follows the code; `Skipped` and `SweepVisits`
state which obstacle is skipped.

## Model

| member | source | states |
|---|---|---|
| GameLogic.IndexOf | game.js:89 | `indexOf`: -1 exactly when the value is absent; otherwise a position holding the value with no earlier occurrence |
| GameLogic.LaneIndex | game.js:5 | the lane offsets are distinct, so `indexOf` of lane i is i |
| GameLogic.LeftLane | game.js:88-93 | `moveLeft` keeps the target in the lanes and moves it exactly one lane left; no-op at the leftmost lane and for an offset outside the lanes |
| GameLogic.RightLane | game.js:95-100 | `moveRight` always yields a lane and moves exactly one lane right; no-op at the rightmost lane; an offset outside the lanes (index -1) goes to the leftmost lane |
| GameLogic.LeftRightInverse | game.js:88-100 | away from the edge it faces, a move left followed by a move right (and the reverse) returns to the starting lane |
| GameLogic.TapX | game.js:72-79 | the coordinate is the first touch's clientX if there is a touch, else clientX; none only when there is neither |
| GameLogic.TapSide | game.js:71-86 | a press strictly left of innerWidth/2 means move left, any other press means move right, and an event with no coordinate means nothing |
| GameLogic.JumpStart | game.js:102-107 | after `jump` the player is airborne at an unchanged height; while airborne nothing changes; from the ground the velocity becomes 0.4; the settled invariant is kept |
| GameLogic.RetriggerIgnored | game.js:103 | a second jump right after a jump changes nothing |
| GameLogic.JumpStep | game.js:127-135 | not jumping: height and velocity unchanged; a step reaching height <= 0.5 lands at exactly 0.5 with the flag cleared and velocity 0; otherwise it moves by the velocity and adds gravity; airborne afterwards means above the ground |
| GameLogic.LandingRearmsJump | game.js:130-134 | after a landing frame, a jump takes off again from the ground with velocity 0.4 |
| GameLogic.Approach | game.js:124 | the new x lies between the old x and the target, and the remaining distance shrinks to exactly 4/5 |
| GameLogic.Spawned | game.js:113-114 | a new obstacle is in the chosen lane, on the ground, at depth -50 |
| GameLogic.Advance | game.js:139 | one frame moves an obstacle exactly one depth unit towards the camera and leaves its lane and height unchanged |
| GameLogic.Passes | game.js:139-140 | an obstacle is removed in the frame that visits it exactly when its depth was already at least 10 before the advance |
| GameLogic.Collides | game.js:155-157 | game over for one obstacle exactly when its depth lies strictly within 0.75 of the player's, its lane offset strictly within 0.75 of the player's x, and the player's height is at most 0.75 |
| GameLogic.AirborneImmune | game.js:155-157 | with the player above height 0.75, no obstacle collides |
| GameLogic.PassedNeverCollides | game.js:140-157 | with the player at depth 0, an obstacle past depth 10 (just removed) never collides |
| GameLogic.CollisionLaneUnique | game.js:155-156 | the player can collide with obstacles of at most one lane at a time |
| GameLogic.Sweep | game.js:138-151 | in one frame the score rises by exactly the number of obstacles removed and never falls; the high score ends as the maximum of its old value and the score if anything scored, and is unchanged otherwise |
| GameLogic.SweepWellFormed | game.js:138-142 | after a frame every obstacle is still in a lane, on the ground, and at depth at most 10 (every obstacle visited past the camera has been removed) |
| GameLogic.SweepVisits | game.js:138-161 | the frame's result is element by element: a skipped element (the one right after a removed one) stays as it was, a visited element past depth 10 is removed, any other visited element advances by 1; game over holds exactly when some visited, advanced obstacle collides |
| GameLogic.NoRemovalAdvancesAll | game.js:138-139 | in a frame where nothing passes the camera, every obstacle is kept and advanced by exactly 1, in order |
| GameSession.Session.constructor | game.js:1-68 | the session starts in the middle lane at rest on the ground, with no score, the stored high score (0 when none is stored) and one spawned obstacle |
| GameSession.Session.MoveLeft | game.js:88-93 | the target becomes `LeftLane` of the old one: one lane left, no-op at the leftmost lane; the invariant is kept |
| GameSession.Session.MoveRight | game.js:95-100 | the target becomes `RightLane` of the old one: one lane right, no-op at the rightmost lane; the invariant is kept |
| GameSession.Session.HandleTapOrClick | game.js:71-86 | a press left of the middle moves left and any other press moves right, as `TapSide` decides; an event with no coordinate changes nothing |
| GameSession.Session.Jump | game.js:102-107 | no-op while airborne; otherwise airborne with velocity 0.4 |
| GameSession.Session.SpawnObstacle | game.js:109-116 | exactly one obstacle is appended at the end, and the earlier ones are unchanged |
| GameSession.Session.MoveObstacles | game.js:137-161 | the forEach-over-splice loop (iteration count fixed at entry, guarded on the current length) computes exactly `Sweep` of the list as it stood: the kept obstacles, score, high score and game-over flag |
| GameSession.Session.VisitObstacle | game.js:138-160 | the forEach callback: the obstacle at the index advances by exactly 1; if it is then past depth 10 it is spliced out, the score rises by exactly 1 and the high score is raised to the score when the score exceeds it; the result is the collision test of the advanced obstacle |
| GameSession.Splice | game.js:142 | `splice(index, 1)`: one element fewer, elements before the index unchanged, elements after it shifted down by one |
| GameSession.Session.Animate | game.js:120-161 | one frame: interpolation, then the jump step, then the obstacle loop against the updated player. Score and high score never decrease. The score rises by the number removed. The high score equals the maximum of its old value and the score after scoring. The list is `Survivors` and game over is `VisitedHit`. The invariant is kept |

## Left out

- Scene, camera, renderer, meshes, lights, ground and the resize handler (game.js:16-48, 166-170) are rendering only. An obstacle is a record of its position.
- The keyboard handler (game.js:55-59) maps keys to the three modelled moves. It is not part of this model.
- DOM text updates and `localStorage` (game.js:51-52, 144, 148-149) are I/O. The stored high score is a constructor parameter (`None` when nothing is stored). The model does not capture the string that `getItem` returns or the string/number comparison at game.js:146. The stored value is taken as a natural number because only scores are ever written there.
- `setTimeout` and `requestAnimationFrame` (game.js:117, 121) are scheduling. Spawning and frames are separate methods that a caller may call in any order.
- `Math.random` (game.js:113) is replaced by the lane number passed to `SpawnObstacle` and to the constructor.
- `alert` and `location.reload` (game.js:158-159) become the returned game-over flag. The reload does not stop the running loop, so the loop keeps going after a collision, as in the script.
- IEEE-754 rounding in the interpolation and the jump (game.js:124, 128-129) is not modelled: these are exact `real` operations. Nothing is proved about the jump arc, its duration or convergence to the target lane.
