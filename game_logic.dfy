/**
 * The discrete rules of the lane runner in game.js, stated over values:
 * the three lanes, the lane shifts behind moveLeft and moveRight, the
 * left/right decision of a tap or click, the jump state machine, the
 * collision test, and one frame of the obstacle loop with its
 * forEach-over-splice order of visits.
 */
module GameLogic {

  datatype Option<T> = None | Some(value: T)

  /** Horizontal offsets of the lanes, left to right. */
  const Lanes: seq<int> := [-3, 0, 3]

  /** Resting height of a cube of side 1: half its height. */
  const Ground: real := 0.5
  /** Vertical velocity given by a jump. */
  const JumpStrength: real := 0.4
  /** Change of vertical velocity per airborne frame. */
  const Gravity: real := -0.02

  /** Depth at which an obstacle is created. */
  const SpawnZ: int := -50
  /** An obstacle whose depth exceeds this has passed the camera. */
  const PassZ: int := 10
  /** Depth gained by an obstacle per frame: speed * 10 with speed 0.1. */
  const Step: int := 1
  /** Distance below which two coordinates overlap in the collision test. */
  const Reach: real := 0.75

  /** A position of the player cube. */
  datatype Point = Point(x: real, y: real, z: real)

  /** An obstacle cube: its lane offset, its height and its depth. */
  datatype Obstacle = Obstacle(x: int, y: real, z: int)

  function Abs(a: real): real { if a < 0.0 then -a else a }

  function Min(a: real, b: real): real { if a <= b then a else b }

  function Max(a: real, b: real): real { if a <= b then b else a }

  function MaxInt(a: int, b: int): int { if a <= b then b else a }

  // ---------------------------------------------------------------------
  // Lanes

  /** Array.prototype.indexOf on a sequence: the first position of v, or -1. */
  function IndexOf(s: seq<int>, v: int): (r: int)
    ensures -1 <= r < |s|
    ensures r == -1 <==> v !in s
    ensures 0 <= r ==> s[r] == v && forall j :: 0 <= j < r ==> s[j] != v
  {
    if s == [] then -1
    else if s[0] == v then 0
    else
      var i := IndexOf(s[1..], v);
      if i < 0 then -1 else i + 1
  }

  /** The lane offsets are distinct, so each has its own index. */
  lemma LaneIndex(i: nat)
    requires i < |Lanes|
    ensures IndexOf(Lanes, Lanes[i]) == i
  {
  }

  /** The target offset after moveLeft. */
  function LeftLane(target: int): (r: int)
    ensures target in Lanes ==> r in Lanes
    ensures target in Lanes && target != Lanes[0] ==>
      IndexOf(Lanes, r) == IndexOf(Lanes, target) - 1
    ensures target !in Lanes || target == Lanes[0] ==> r == target
  {
    var index := IndexOf(Lanes, target);
    if index > 0 then
      LaneIndex(index - 1);
      Lanes[index - 1]
    else target
  }

  /**
   * The target offset after moveRight. An offset outside the lanes has
   * index -1, so moveRight sends it to the leftmost lane.
   */
  function RightLane(target: int): (r: int)
    ensures r in Lanes
    ensures target in Lanes && target != Lanes[|Lanes| - 1] ==>
      IndexOf(Lanes, r) == IndexOf(Lanes, target) + 1
    ensures target == Lanes[|Lanes| - 1] ==> r == target
    ensures target !in Lanes ==> r == Lanes[0]
  {
    var index := IndexOf(Lanes, target);
    if index < |Lanes| - 1 then
      LaneIndex(index + 1);
      Lanes[index + 1]
    else target
  }

  /** A step left and a step right undo each other away from the edge they face. */
  lemma LeftRightInverse(target: int)
    requires target in Lanes
    ensures target != Lanes[0] ==> RightLane(LeftLane(target)) == target
    ensures target != Lanes[|Lanes| - 1] ==> LeftLane(RightLane(target)) == target
  {
  }

  // ---------------------------------------------------------------------
  // Tap or click

  datatype Side = Left | Right

  /**
   * The fields of a touchstart or mousedown event that the handler reads:
   * the clientX of each touch (empty when there is no touch list) and
   * clientX itself when the event defines it.
   */
  datatype PointerEvent = PointerEvent(touches: seq<real>, clientX: Option<real>)

  /** The horizontal coordinate the handler uses: the first touch, else clientX. */
  function TapX(e: PointerEvent): (r: Option<real>)
    ensures r.None? <==> e.touches == [] && e.clientX.None?
    ensures e.touches != [] ==> r == Some(e.touches[0])
    ensures e.touches == [] ==> r == e.clientX
  {
    if |e.touches| > 0 then Some(e.touches[0])
    else if e.clientX.Some? then e.clientX
    else None
  }

  /** The lane move a tap or click asks for, or None when it carries no coordinate. */
  function TapSide(e: PointerEvent, innerWidth: real): (r: Option<Side>)
    ensures r.None? <==> e.touches == [] && e.clientX.None?
    ensures r == Some(Left) <==> TapX(e).Some? && TapX(e).value < innerWidth / 2.0
    ensures r == Some(Right) <==> TapX(e).Some? && TapX(e).value >= innerWidth / 2.0
  {
    match TapX(e)
    case None => None
    case Some(x) => if x < innerWidth / 2.0 then Some(Left) else Some(Right)
  }

  // ---------------------------------------------------------------------
  // Jump

  /** The player's height, vertical velocity and isJumping flag. */
  datatype Vertical = Vertical(y: real, velocity: real, jumping: bool)

  /** Never below the ground, and at rest on it whenever not jumping. */
  predicate Settled(s: Vertical)
  {
    s.y >= Ground && (!s.jumping ==> s.y == Ground && s.velocity == 0.0)
  }

  /** jump(): take off unless already airborne. */
  function JumpStart(s: Vertical): (r: Vertical)
    ensures r.jumping && r.y == s.y
    ensures s.jumping ==> r == s
    ensures !s.jumping ==> r.velocity == JumpStrength
    ensures Settled(s) ==> Settled(r)
  {
    if s.jumping then s else s.(jumping := true, velocity := JumpStrength)
  }

  /** The jump branch of one animation frame: move, accelerate, land on the ground. */
  function JumpStep(s: Vertical): (r: Vertical)
    ensures !s.jumping ==> r == s
    ensures s.jumping && s.y + s.velocity <= Ground ==> r == Vertical(Ground, 0.0, false)
    ensures s.jumping && s.y + s.velocity > Ground ==>
      r == Vertical(s.y + s.velocity, s.velocity + Gravity, true)
    ensures Settled(s) ==> Settled(r)
    ensures s.jumping && r.jumping ==> r.y > Ground
  {
    if !s.jumping then s
    else
      var y, v := s.y + s.velocity, s.velocity + Gravity;
      if y <= Ground then Vertical(Ground, 0.0, false) else Vertical(y, v, true)
  }

  /** A second jump while airborne is ignored. */
  lemma RetriggerIgnored(s: Vertical)
    ensures JumpStart(JumpStart(s)) == JumpStart(s)
  {
  }

  /** Once a frame lands the player, the next jump takes off again from the ground. */
  lemma LandingRearmsJump(s: Vertical)
    requires s.jumping && s.y + s.velocity <= Ground
    ensures JumpStart(JumpStep(s)) == Vertical(Ground, JumpStrength, true)
  {
  }

  // ---------------------------------------------------------------------
  // Lane interpolation

  /** player.position.x moves a fifth of the way to the target offset. */
  function Approach(x: real, target: real): (r: real)
    ensures Abs(r - target) == 0.8 * Abs(x - target)
    ensures Min(x, target) <= r <= Max(x, target)
  {
    x + (target - x) * 0.2
  }

  // ---------------------------------------------------------------------
  // Obstacles and collision

  /** What spawnObstacle places: an obstacle in the given lane, on the ground, far away. */
  predicate WellFormed(o: Obstacle)
  {
    o.x in Lanes && o.y == Ground && SpawnZ <= o.z <= PassZ
  }

  /** The obstacle spawnObstacle creates in lane number `lane`. */
  function Spawned(lane: nat): (o: Obstacle)
    requires lane < |Lanes|
    ensures WellFormed(o) && o.x == Lanes[lane] && o.z == SpawnZ
  {
    Obstacle(Lanes[lane], Ground, SpawnZ)
  }

  /** The obstacle after one frame's advance. */
  function Advance(o: Obstacle): (r: Obstacle)
    ensures r.z - o.z == Step && r.z > o.z
    ensures r.x == o.x && r.y == o.y
  {
    o.(z := o.z + Step)
  }

  /** Whether the obstacle passes the camera (and is spliced out) once advanced. */
  predicate Passes(o: Obstacle)
    ensures Passes(o) <==> o.z >= PassZ
  {
    Advance(o).z > PassZ
  }

  /** The game-over test between the player and an obstacle. */
  predicate Collides(p: Point, o: Obstacle)
    ensures Collides(p, o) <==>
      && p.z - Reach < o.z as real < p.z + Reach
      && p.x - Reach < o.x as real < p.x + Reach
      && p.y <= Reach
  {
    Abs(o.z as real - p.z) < Reach && Abs(o.x as real - p.x) < Reach && p.y <= Reach
  }

  /** A player above the collision height collides with nothing. */
  lemma AirborneImmune(p: Point, o: Obstacle)
    requires p.y > Reach
    ensures !Collides(p, o)
  {
  }

  /** With the player at depth 0, an obstacle that has just been removed never collides. */
  lemma PassedNeverCollides(p: Point, o: Obstacle)
    requires p.z == 0.0 && o.z > PassZ
    ensures !Collides(p, o)
  {
  }

  /** Lanes are 3 apart, so the player collides with obstacles of one lane at most. */
  lemma CollisionLaneUnique(p: Point, a: Obstacle, b: Obstacle)
    requires a.x in Lanes && b.x in Lanes
    requires Collides(p, a) && Collides(p, b)
    ensures a.x == b.x
  {
  }

  // ---------------------------------------------------------------------
  // One frame of the obstacle loop

  /** Obstacles left, score, high score and collision flag after the loop. */
  datatype Tally = Tally(kept: seq<Obstacle>, score: int, highScore: int, collided: bool)

  /**
   * The obstacle loop of one frame, from the first unvisited element on.
   * The visited element is advanced and tested against the player; when it
   * has passed the camera it is spliced out and scored, the next element
   * moves into its slot, and forEach goes on past that slot, so the moved
   * element stays as it was for this frame.
   */
  function Sweep(todo: seq<Obstacle>, p: Point, score: int, high: int): (r: Tally)
    ensures r.score - score == |todo| - |r.kept|
    ensures r.score >= score
    ensures r.highScore == if r.score == score then high else MaxInt(high, r.score)
    decreases |todo|
  {
    if todo == [] then Tally([], score, high, false)
    else
      var o := Advance(todo[0]);
      var hit := Collides(p, o);
      if Passes(todo[0]) then
        var s := score + 1;
        var h := if s > high then s else high;
        if |todo| == 1 then Tally([], s, h, hit)
        else
          var rest := Sweep(todo[2..], p, s, h);
          Tally([todo[1]] + rest.kept, rest.score, rest.highScore, hit || rest.collided)
      else
        var rest := Sweep(todo[1..], p, score, high);
        Tally([o] + rest.kept, rest.score, rest.highScore, hit || rest.collided)
  }

  /** Every obstacle left after a frame is still in a lane, on the ground, and not past the camera. */
  lemma {:induction false} SweepWellFormed(todo: seq<Obstacle>, p: Point, score: int, high: int)
    requires forall i :: 0 <= i < |todo| ==> WellFormed(todo[i])
    ensures var r := Sweep(todo, p, score, high);
      forall i :: 0 <= i < |r.kept| ==> WellFormed(r.kept[i])
    decreases |todo|
  {
    if todo != [] {
      if Passes(todo[0]) {
        if |todo| > 1 {
          var s := score + 1;
          var h := if s > high then s else high;
          assert Sweep(todo, p, score, high).kept == [todo[1]] + Sweep(todo[2..], p, s, h).kept;
          assert forall i :: 0 <= i < |todo[2..]| ==> todo[2..][i] == todo[i + 2];
          SweepWellFormed(todo[2..], p, s, h);
        }
      } else {
        assert Sweep(todo, p, score, high).kept == [Advance(todo[0])] + Sweep(todo[1..], p, score, high).kept;
        assert forall i :: 0 <= i < |todo[1..]| ==> todo[1..][i] == todo[i + 1];
        SweepWellFormed(todo[1..], p, score, high);
      }
    }
  }

  /**
   * Whether forEach passes over index i of the list as it stood at the
   * start of the frame: exactly when the element visited just before it
   * was spliced out.
   */
  predicate Skipped(todo: seq<Obstacle>, i: nat)
    requires i < |todo|
    decreases i
  {
    i > 0 && !Skipped(todo, i - 1) && Passes(todo[i - 1])
  }

  /** What becomes of element i: kept as it was, removed, or advanced. */
  function Fate(todo: seq<Obstacle>, i: nat): seq<Obstacle>
    requires i < |todo|
  {
    if Skipped(todo, i) then [todo[i]]
    else if Passes(todo[i]) then []
    else [Advance(todo[i])]
  }

  /** The list after the frame, element by element from index i. */
  function Survivors(todo: seq<Obstacle>, i: nat): seq<Obstacle>
    requires i <= |todo|
    decreases |todo| - i
  {
    if i == |todo| then [] else Fate(todo, i) + Survivors(todo, i + 1)
  }

  /** Whether some element the loop visits collides with the player. */
  predicate VisitedHit(todo: seq<Obstacle>, p: Point)
  {
    exists i :: 0 <= i < |todo| && !Skipped(todo, i) && Collides(p, Advance(todo[i]))
  }

  /** From a visited index on, the visit pattern is that of the suffix alone. */
  lemma {:induction false} SkippedSuffix(todo: seq<Obstacle>, j: nat, i: nat)
    requires j + i < |todo|
    requires !Skipped(todo, j)
    ensures Skipped(todo, j + i) == Skipped(todo[j..], i)
    decreases i
  {
    if i > 0 {
      SkippedSuffix(todo, j, i - 1);
    }
  }

  lemma {:induction false} SurvivorsSuffix(todo: seq<Obstacle>, j: nat, i: nat)
    requires j + i <= |todo|
    requires j < |todo| ==> !Skipped(todo, j)
    ensures Survivors(todo, j + i) == Survivors(todo[j..], i)
    decreases |todo| - j - i
  {
    if j + i < |todo| {
      SkippedSuffix(todo, j, i);
      SurvivorsSuffix(todo, j, i + 1);
    }
  }

  lemma {:induction false} VisitedHitSuffix(todo: seq<Obstacle>, p: Point, j: nat)
    requires j <= |todo|
    requires j < |todo| ==> !Skipped(todo, j)
    requires forall i :: 0 <= i < j ==> !(!Skipped(todo, i) && Collides(p, Advance(todo[i])))
    ensures VisitedHit(todo, p) == VisitedHit(todo[j..], p)
  {
    if VisitedHit(todo, p) {
      var i :| 0 <= i < |todo| && !Skipped(todo, i) && Collides(p, Advance(todo[i]));
      SkippedSuffix(todo, j, i - j);
      assert todo[j..][i - j] == todo[i];
    }
    if VisitedHit(todo[j..], p) {
      var i :| 0 <= i < |todo[j..]| && !Skipped(todo[j..], i) && Collides(p, Advance(todo[j..][i]));
      SkippedSuffix(todo, j, i);
      assert todo[j + i] == todo[j..][i];
    }
  }

  /**
   * The loop agrees with the index-by-index account of forEach over a
   * shrinking array: each element is advanced, removed, or (right after a
   * removal) skipped, and game over is raised by a visited element only.
   */
  lemma {:induction false} SweepVisits(todo: seq<Obstacle>, p: Point, score: int, high: int)
    ensures Sweep(todo, p, score, high).kept == Survivors(todo, 0)
    ensures Sweep(todo, p, score, high).collided == VisitedHit(todo, p)
    decreases |todo|
  {
    if todo != [] {
      var hit0 := Collides(p, Advance(todo[0]));
      if Passes(todo[0]) {
        if |todo| == 1 {
          assert Survivors(todo, 1) == [];
          if hit0 { assert !Skipped(todo, 0); }
          else { VisitedHitSuffix(todo, p, 1); }
        } else {
          SweepVisits(todo[2..], p, score + 1, MaxInt(high, score + 1));
          assert Skipped(todo, 1);
          if 2 < |todo| { assert !Skipped(todo, 2); }
          SurvivorsSuffix(todo, 2, 0);
          assert Survivors(todo, 0) == Survivors(todo, 1);
          if hit0 { assert !Skipped(todo, 0); }
          else { VisitedHitSuffix(todo, p, 2); }
        }
      } else {
        SweepVisits(todo[1..], p, score, high);
        SurvivorsSuffix(todo, 1, 0);
        if hit0 { assert !Skipped(todo, 0); }
        else { VisitedHitSuffix(todo, p, 1); }
      }
    }
  }

  /** Every obstacle advanced by one frame, in order. */
  function AdvanceAll(todo: seq<Obstacle>): (r: seq<Obstacle>)
    ensures |r| == |todo|
  {
    if todo == [] then [] else [Advance(todo[0])] + AdvanceAll(todo[1..])
  }

  /** An element is skipped only right after a removal, so with no removal every element advances. */
  lemma {:induction false} NoRemovalAdvancesAll(todo: seq<Obstacle>, i: nat)
    requires forall k :: 0 <= k < |todo| ==> !Passes(todo[k])
    requires i <= |todo|
    ensures Survivors(todo, i) == AdvanceAll(todo[i..])
    decreases |todo| - i
  {
    if i < |todo| {
      NoRemovalAdvancesAll(todo, i + 1);
      assert !Skipped(todo, i);
      assert todo[i..][1..] == todo[i + 1..];
    }
  }
}
