/**
 * The mutable state of one game session in game.js (moveTargetX, the
 * player's position, the jump flag and velocity, the obstacle list, score
 * and high score) and the handlers that update it in place.
 */
module GameSession {
  import opened GameLogic

  class Session {
    /** The lane offset the player is moving towards. */
    var moveTargetX: int
    /** The player cube's position; its depth is never assigned. */
    var player: Point
    var isJumping: bool
    var jumpVelocity: real
    /** The live obstacles, oldest first. */
    var obstacles: seq<Obstacle>
    var score: int
    var highScore: int

    /** The session invariant every handler keeps. */
    ghost predicate Valid()
      reads this
    {
      && moveTargetX in Lanes
      && Lanes[0] as real <= player.x <= Lanes[|Lanes| - 1] as real
      && player.z == 0.0
      && Settled(Motion())
      && (forall i :: 0 <= i < |obstacles| ==> WellFormed(obstacles[i]))
      && 0 <= score <= highScore
    }

    /** The vertical part of the player's state. */
    function Motion(): Vertical
      reads this
    {
      Vertical(player.y, jumpVelocity, isJumping)
    }

    /**
     * init(): the player rests on the ground of the middle lane, the high
     * score is the stored one (0 when nothing is stored), and the first
     * obstacle is spawned in lane number `firstLane`.
     */
    constructor (stored: Option<nat>, firstLane: nat)
      requires firstLane < |Lanes|
      ensures Valid()
      ensures moveTargetX == 0 && player == Point(0.0, Ground, 0.0)
      ensures !isJumping && jumpVelocity == 0.0
      ensures obstacles == [Spawned(firstLane)]
      ensures score == 0
      ensures highScore == if stored.Some? then stored.value else 0
    {
      moveTargetX := 0;
      player := Point(0.0, Ground, 0.0);
      isJumping := false;
      jumpVelocity := 0.0;
      score := 0;
      highScore := if stored.Some? then stored.value else 0;
      obstacles := [Spawned(firstLane)];
    }

    /** moveLeft(): one lane to the left, nothing at the leftmost lane. */
    method MoveLeft()
      requires Valid()
      modifies this`moveTargetX
      ensures Valid()
      ensures moveTargetX == LeftLane(old(moveTargetX))
      ensures old(moveTargetX) == Lanes[0] ==> moveTargetX == old(moveTargetX)
      ensures old(moveTargetX) != Lanes[0] ==>
        IndexOf(Lanes, moveTargetX) == IndexOf(Lanes, old(moveTargetX)) - 1
    {
      var index := IndexOf(Lanes, moveTargetX);
      if index > 0 {
        moveTargetX := Lanes[index - 1];
      }
    }

    /** moveRight(): one lane to the right, nothing at the rightmost lane. */
    method MoveRight()
      requires Valid()
      modifies this`moveTargetX
      ensures Valid()
      ensures moveTargetX == RightLane(old(moveTargetX))
      ensures old(moveTargetX) == Lanes[|Lanes| - 1] ==> moveTargetX == old(moveTargetX)
      ensures old(moveTargetX) != Lanes[|Lanes| - 1] ==>
        IndexOf(Lanes, moveTargetX) == IndexOf(Lanes, old(moveTargetX)) + 1
    {
      var index := IndexOf(Lanes, moveTargetX);
      if index < |Lanes| - 1 {
        moveTargetX := Lanes[index + 1];
      }
    }

    /**
     * handleTapOrClick: a press left of the middle of the window moves one
     * lane left, any other press one lane right; an event without a touch
     * and without clientX changes nothing.
     */
    method HandleTapOrClick(e: PointerEvent, innerWidth: real)
      requires Valid()
      modifies this`moveTargetX
      ensures Valid()
      ensures moveTargetX == match TapSide(e, innerWidth)
        case None => old(moveTargetX)
        case Some(Left) => LeftLane(old(moveTargetX))
        case Some(Right) => RightLane(old(moveTargetX))
    {
      var x;
      if |e.touches| > 0 {
        x := e.touches[0];
      } else if e.clientX.Some? {
        x := e.clientX.value;
      } else {
        return;
      }
      if x < innerWidth / 2.0 {
        MoveLeft();
      } else {
        MoveRight();
      }
    }

    /** jump(): take off with velocity JumpStrength unless already airborne. */
    method Jump()
      requires Valid()
      modifies this`isJumping, this`jumpVelocity
      ensures Valid()
      ensures Motion() == JumpStart(old(Motion()))
      ensures old(isJumping) ==> isJumping && jumpVelocity == old(jumpVelocity)
      ensures !old(isJumping) ==> isJumping && jumpVelocity == JumpStrength
    {
      if !isJumping {
        isJumping := true;
        jumpVelocity := JumpStrength;
      }
    }

    /** spawnObstacle(): append one obstacle in lane number `lane`. */
    method SpawnObstacle(lane: nat)
      requires Valid()
      requires lane < |Lanes|
      modifies this`obstacles
      ensures Valid()
      ensures obstacles == old(obstacles) + [Spawned(lane)]
    {
      obstacles := obstacles + [Spawned(lane)];
    }

    /**
     * animate(): one frame. The player moves a fifth of the way to the
     * target lane, the jump advances, and then forEach runs over the
     * obstacles: each visited one is advanced, spliced out and scored once
     * past the camera, and tested for collision. Returns whether any visited
     * obstacle collided (game over).
     */
    method Animate() returns (gameOver: bool)
      requires Valid()
      modifies this
      ensures Valid()
      ensures moveTargetX == old(moveTargetX)
      ensures player.x == Approach(old(player.x), old(moveTargetX) as real)
      ensures player.z == old(player.z)
      ensures Motion() == JumpStep(old(Motion()))
      ensures var t := Sweep(old(obstacles), player, old(score), old(highScore));
        obstacles == t.kept && score == t.score && highScore == t.highScore && gameOver == t.collided
      ensures score - old(score) == |old(obstacles)| - |obstacles|
      ensures old(score) <= score && old(highScore) <= highScore
      ensures score > old(score) ==> highScore == MaxInt(old(highScore), score)
      ensures obstacles == Survivors(old(obstacles), 0)
      ensures gameOver == VisitedHit(old(obstacles), player)
    {
      // Player lane movement
      player := player.(x := player.x + (moveTargetX as real - player.x) * 0.2);

      // Jump logic
      if isJumping {
        player := player.(y := player.y + jumpVelocity);
        jumpVelocity := jumpVelocity + Gravity;
        if player.y <= Ground {
          player := player.(y := Ground);
          isJumping := false;
          jumpVelocity := 0.0;
        }
      }

      // Move obstacles
      SweepWellFormed(obstacles, player, score, highScore);
      gameOver := MoveObstacles();
      SweepVisits(old(obstacles), player, old(score), old(highScore));
    }

    /**
     * The obstacle loop of animate(): forEach over the list as it stands,
     * with the iteration count fixed at entry and indices that the splices
     * have moved past the end skipped.
     */
    method MoveObstacles() returns (gameOver: bool)
      modifies this`obstacles, this`score, this`highScore
      ensures var t := Sweep(old(obstacles), player, old(score), old(highScore));
        obstacles == t.kept && score == t.score && highScore == t.highScore && gameOver == t.collided
    {
      ghost var total := Sweep(obstacles, player, score, highScore);
      var len0 := |obstacles|;
      var k := 0;
      gameOver := false;
      while k < len0
        invariant |obstacles| <= len0
        invariant Agrees(total, obstacles, k, player, score, highScore, gameOver)
      {
        if k < |obstacles| {
          ghost var before, s0, h0, over0 := obstacles, score, highScore, gameOver;
          var hit := VisitObstacle(k);
          if hit {
            gameOver := true;
          }
          VisitKeepsAgreement(total, before, k, player, s0, h0, over0, obstacles, score, highScore, gameOver);
        } else {
          AgreesPastEnd(total, obstacles, k, player, score, highScore, gameOver);
        }
        k := k + 1;
      }
      AgreesPastEnd(total, obstacles, k, player, score, highScore, gameOver);
      assert obstacles[..|obstacles|] == obstacles;
    }

    /**
     * The forEach callback for the obstacle at `index`: advance it, splice
     * it out and score when it has passed the camera, and report whether it
     * collides with the player.
     */
    method VisitObstacle(index: nat) returns (hit: bool)
      requires index < |obstacles|
      modifies this`obstacles, this`score, this`highScore
      ensures var o := Advance(old(obstacles)[index]);
        && obstacles == (if Passes(old(obstacles)[index]) then Splice(old(obstacles)[index := o], index)
                         else old(obstacles)[index := o])
        && score == (if Passes(old(obstacles)[index]) then old(score) + 1 else old(score))
        && highScore == (if Passes(old(obstacles)[index]) && old(score) + 1 > old(highScore)
                         then old(score) + 1 else old(highScore))
        && hit == Collides(player, o)
    {
      var obs := obstacles[index];
      obs := obs.(z := obs.z + Step);
      obstacles := obstacles[index := obs];
      if obs.z > PassZ {
        obstacles := Splice(obstacles, index);
        score := score + 1;
        if score > highScore {
          highScore := score;
        }
      }
      hit := Collides(player, obs);
    }
  }

  /** obstacles.splice(k, 1): the list without its element at k. */
  function Splice(s: seq<Obstacle>, k: nat): (r: seq<Obstacle>)
    requires k < |s|
    ensures |r| == |s| - 1
    ensures forall i :: 0 <= i < k ==> r[i] == s[i]
    ensures forall i :: k <= i < |r| ==> r[i] == s[i + 1]
  {
    s[..k] + s[k + 1..]
  }

  /**
   * The loop of MoveObstacles at index k agrees with Sweep: what it has
   * produced so far, followed by Sweep of what it has not yet visited, is
   * the Sweep of the list it started from.
   */
  ghost predicate Agrees(total: Tally, obstacles: seq<Obstacle>, k: nat, p: Point, score: int, high: int, over: bool)
  {
    var m := if k < |obstacles| then k else |obstacles|;
    var rest := Sweep(obstacles[m..], p, score, high);
    && obstacles[..m] + rest.kept == total.kept
    && rest.score == total.score && rest.highScore == total.highScore
    && (over || rest.collided) == total.collided
  }

  lemma AgreesPastEnd(total: Tally, obstacles: seq<Obstacle>, k: nat, p: Point, score: int, high: int, over: bool)
    requires k >= |obstacles|
    requires Agrees(total, obstacles, k, p, score, high, over)
    ensures Agrees(total, obstacles, k + 1, p, score, high, over)
    ensures obstacles == total.kept && score == total.score && high == total.highScore && over == total.collided
  {
  }

  /** One visit of the loop body at index k keeps the agreement one index on. */
  lemma VisitKeepsAgreement(total: Tally, before: seq<Obstacle>, k: nat, p: Point, score: int, high: int, over: bool,
                            after: seq<Obstacle>, score': int, high': int, over': bool)
    requires k < |before|
    requires Agrees(total, before, k, p, score, high, over)
    requires after == if Passes(before[k]) then Splice(before[k := Advance(before[k])], k)
                      else before[k := Advance(before[k])]
    requires score' == if Passes(before[k]) then score + 1 else score
    requires high' == if Passes(before[k]) && score + 1 > high then score + 1 else high
    requires over' == (over || Collides(p, Advance(before[k])))
    ensures Agrees(total, after, k + 1, p, score', high', over')
  {
    if Passes(before[k]) {
      RemovalKeepsAgreement(total, before, k, p, score, high, over);
    } else {
      AdvanceKeepsAgreement(total, before, k, p, score, high, over);
    }
  }

  /** A visit that splices out the element at k keeps the agreement one index on. */
  lemma RemovalKeepsAgreement(total: Tally, before: seq<Obstacle>, k: nat,
                              p: Point, score: int, high: int, over: bool)
    requires k < |before| && Passes(before[k])
    requires Agrees(total, before, k, p, score, high, over)
    ensures Agrees(total, Splice(before[k := Advance(before[k])], k), k + 1, p, score + 1,
                   if score + 1 > high then score + 1 else high,
                   over || Collides(p, Advance(before[k])))
  {
    var after := Splice(before[k := Advance(before[k])], k);
    assert after == before[..k] + before[k + 1..];
    var tail := before[k..];
    assert tail[0] == before[k];
    if k + 1 < |before| {
      assert tail[2..] == before[k + 2..];
      assert after[..k + 1] == before[..k] + [tail[1]];
      assert after[k + 1..] == tail[2..];
    } else {
      assert after == before[..k];
      assert after[|after|..] == [];
    }
  }

  /** A visit that keeps the element at k, advanced, keeps the agreement one index on. */
  lemma AdvanceKeepsAgreement(total: Tally, before: seq<Obstacle>, k: nat,
                              p: Point, score: int, high: int, over: bool)
    requires k < |before| && !Passes(before[k])
    requires Agrees(total, before, k, p, score, high, over)
    ensures Agrees(total, before[k := Advance(before[k])], k + 1, p, score, high,
                   over || Collides(p, Advance(before[k])))
  {
  }
}
