/** The light-sensor dino game: a history of illuminance readings that starts the game and makes the
    dino jump, and a fixed tick of gravity, ground clamp, obstacles, score and collision.

    `DinoState` is the game's value; `Control`, `Tick`, `Reset` and `Space` say what one call does; the
    class `DinoGame` holds the same fields and performs the same updates in place. */
module Dino {
  import opened Json
  import opened Geometry
  import opened Seqs

  const Width := 800
  const Height := 400
  const Ground := Height - 40              // the ground line the dino stands on
  const StartY := Height - 100
  const DinoX := 50
  const DinoW := 40
  const DinoH := 60
  const JumpStrength: real := -15.0
  const Gravity: real := 0.8
  const ObstacleSpeed := 5
  const ObstacleFrequency := 1500          // milliseconds
  const ObstacleW := 30
  const ObstacleH := 60
  const MaxLightHistory := 10
  const ChangeThreshold: real := 5.0

  datatype DinoState = DinoState(
    dinoRect: Rect,
    dinoY: real,
    dinoVelocity: real,
    obstacles: seq<Rect>,
    lastObstacle: int,
    score: int,
    gameOver: bool,
    gameStarted: bool,
    lightLevels: seq<real>)

  /** The state `__init__` builds, `now` being the clock at construction. */
  function Initial(now: int): DinoState
  {
    DinoState(Rect(DinoX, StartY, DinoW, DinoH), StartY as real, 0.0, [], now, 0, false, false, [])
  }

  predicate Running(s: DinoState) { !s.gameOver && s.gameStarted }

  // ---------------------------------------------------------------- obstacles

  function CreateObstacle(): (o: Rect)
    ensures o.x == Width && o.Bottom() == Height && o.w == ObstacleW && o.h == ObstacleH
  {
    Rect(Width, Height - 60, ObstacleW, ObstacleH)
  }

  /** Every obstacle moved `d` to the left. */
  function Shifted(obs: seq<Rect>, d: int): seq<Rect>
  {
    seq(|obs|, i requires 0 <= i < |obs| => obs[i].(x := obs[i].x - d))
  }

  /** `[obs for obs in obstacles if obs.right > 0]`. */
  function KeepVisible(obs: seq<Rect>): (r: seq<Rect>)
    ensures |r| <= |obs|
    ensures forall i :: 0 <= i < |r| ==> r[i].Right() > 0
  {
    if obs == [] then []
    else (if obs[0].Right() > 0 then [obs[0]] else []) + KeepVisible(obs[1..])
  }

  /** The filter distributes over concatenation, so it keeps the survivors in their original order. */
  lemma {:induction false} KeepVisibleConcat(a: seq<Rect>, b: seq<Rect>)
    ensures KeepVisible(a + b) == KeepVisible(a) + KeepVisible(b)
  {
    if a == [] {
      assert a + b == b;
    } else {
      assert (a + b)[0] == a[0];
      assert (a + b)[1..] == a[1..] + b;
      KeepVisibleConcat(a[1..], b);
    }
  }

  /** The filter keeps exactly the obstacles that reach past the left border. */
  lemma {:induction false} KeepVisibleMembers(obs: seq<Rect>)
    ensures forall o :: o in KeepVisible(obs) <==> o in obs && o.Right() > 0
  {
    if obs != [] {
      KeepVisibleMembers(obs[1..]);
      assert obs == [obs[0]] + obs[1..];
    }
  }

  lemma {:induction false} KeepVisibleAll(obs: seq<Rect>)
    requires forall i :: 0 <= i < |obs| ==> obs[i].Right() > 0
    ensures KeepVisible(obs) == obs
  {
    if obs != [] { KeepVisibleAll(obs[1..]); }
  }

  predicate SortedByX(obs: seq<Rect>)
  {
    forall i, j :: 0 <= i < j < |obs| ==> obs[i].x < obs[j].x
  }

  /** On obstacles of one width sorted by position, the filter only ever drops a prefix: the set is
      truncated at the head. */
  lemma {:induction false} KeepVisibleDropsPrefix(obs: seq<Rect>, w: int)
    requires SortedByX(obs)
    requires forall i :: 0 <= i < |obs| ==> obs[i].w == w
    ensures exists k :: 0 <= k <= |obs| && KeepVisible(obs) == obs[k..]
  {
    if obs == [] {
      assert KeepVisible(obs) == obs[0..];
    } else if obs[0].Right() > 0 {
      KeepVisibleAll(obs);
      assert KeepVisible(obs) == obs[0..];
    } else {
      KeepVisibleDropsPrefix(obs[1..], w);
      var k :| 0 <= k <= |obs[1..]| && KeepVisible(obs[1..]) == obs[1..][k..];
      assert obs[1..][k..] == obs[k + 1..];
    }
  }

  /** The obstacle list `move_obstacles` leaves behind. */
  function Moved(obs: seq<Rect>): seq<Rect>
  {
    KeepVisible(Shifted(obs, ObstacleSpeed))
  }

  /** `move_obstacles`: an obstacle survives exactly when its shifted right edge is still past the left
      border, and the survivors are the shifted obstacles in their old order. */
  lemma MovedKeepsVisible(obs: seq<Rect>, i: nat)
    requires i < |obs|
    ensures obs[i].(x := obs[i].x - ObstacleSpeed) in Moved(obs) <==> obs[i].Right() - ObstacleSpeed > 0
    ensures forall o :: o in Moved(obs) ==> o.Right() > 0
    ensures Moved(obs) == KeepVisible(Shifted(obs[..i], ObstacleSpeed)) + KeepVisible(Shifted(obs[i..], ObstacleSpeed))
  {
    assert Shifted(obs, ObstacleSpeed) == Shifted(obs[..i], ObstacleSpeed) + Shifted(obs[i..], ObstacleSpeed);
    KeepVisibleConcat(Shifted(obs[..i], ObstacleSpeed), Shifted(obs[i..], ObstacleSpeed));
    KeepVisibleMembers(Shifted(obs, ObstacleSpeed));
    assert Shifted(obs, ObstacleSpeed)[i] == obs[i].(x := obs[i].x - ObstacleSpeed);
  }

  predicate IsObstacle(o: Rect)
  {
    o.y == Height - 60 && o.w == ObstacleW && o.h == ObstacleH && o.x <= Width && o.Right() > 0
  }

  ghost predicate ObstaclesValid(obs: seq<Rect>)
  {
    (forall i :: 0 <= i < |obs| ==> IsObstacle(obs[i])) && SortedByX(obs)
  }

  /** An obstacle after one shift: its shape, on the ground, and at least a step left of the right edge. */
  predicate ShiftedObstacle(o: Rect)
  {
    o.y == Height - 60 && o.w == ObstacleW && o.h == ObstacleH && o.x <= Width - ObstacleSpeed
  }

  /** Shifting left keeps the order and the shape, and keeps every obstacle at least a step from the
      right edge. */
  lemma ShiftedValid(obs: seq<Rect>)
    requires ObstaclesValid(obs)
    ensures SortedByX(Shifted(obs, ObstacleSpeed))
    ensures forall i :: 0 <= i < |obs| ==> ShiftedObstacle(Shifted(obs, ObstacleSpeed)[i])
  {
  }

  /** A suffix of a sorted list is sorted. */
  lemma SortedSuffix(xs: seq<Rect>, k: nat)
    requires SortedByX(xs) && k <= |xs|
    ensures SortedByX(xs[k..])
  {
    var ys := xs[k..];
    forall i, j | 0 <= i < j < |ys|
      ensures ys[i].x < ys[j].x
    {
      assert ys[i] == xs[k + i] && ys[j] == xs[k + j];
    }
  }

  /** The visible tail of a shifted, sorted list of obstacles is a valid obstacle list left of the
      spawn edge. */
  lemma SuffixValid(xs: seq<Rect>, k: nat)
    requires k <= |xs| && SortedByX(xs)
    requires forall i :: 0 <= i < |xs| ==> ShiftedObstacle(xs[i])
    requires forall i :: k <= i < |xs| ==> xs[i].Right() > 0
    ensures ObstaclesValid(xs[k..])
    ensures forall i :: 0 <= i < |xs| - k ==> xs[k..][i].x < Width
  {
    SortedSuffix(xs, k);
    var ys := xs[k..];
    forall i | 0 <= i < |ys|
      ensures IsObstacle(ys[i]) && ys[i].x < Width
    {
      assert ys[i] == xs[k + i];
      assert ShiftedObstacle(xs[k + i]);
    }
  }

  /** Moving keeps the obstacle set well formed and sorted by position, and leaves room for a spawn. */
  lemma MovedValid(obs: seq<Rect>)
    requires ObstaclesValid(obs)
    ensures ObstaclesValid(Moved(obs))
    ensures forall i :: 0 <= i < |Moved(obs)| ==> Moved(obs)[i].x < Width
  {
    ShiftedValid(obs);
    VisibleValid(Shifted(obs, ObstacleSpeed));
  }

  /** Filtering a shifted, sorted list keeps a valid list left of the spawn edge. */
  lemma VisibleValid(sh: seq<Rect>)
    requires SortedByX(sh)
    requires forall i :: 0 <= i < |sh| ==> ShiftedObstacle(sh[i])
    ensures ObstaclesValid(KeepVisible(sh))
    ensures forall i :: 0 <= i < |KeepVisible(sh)| ==> KeepVisible(sh)[i].x < Width
  {
    KeepVisibleDropsPrefix(sh, ObstacleW);
    var m := KeepVisible(sh);
    var k :| 0 <= k <= |sh| && m == sh[k..];
    forall i | k <= i < |sh|
      ensures sh[i].Right() > 0
    {
      assert sh[i] == m[i - k];
    }
    SuffixValid(sh, k);
  }

  /** Spawning at the right edge after moving keeps the set sorted: the new obstacle is the rightmost. */
  lemma MoveAndSpawnValid(obs: seq<Rect>)
    requires ObstaclesValid(obs)
    ensures ObstaclesValid(Moved(obs) + [CreateObstacle()])
  {
    MovedValid(obs);
    var m := Moved(obs);
    var n := m + [CreateObstacle()];
    forall i, j | 0 <= i < j < |n|
      ensures n[i].x < n[j].x
    {
      if j < |m| { assert n[i] == m[i] && n[j] == m[j]; }
      else { assert n[i] == m[i]; }
    }
  }

  /** The dino overlaps some obstacle. */
  predicate Collides(dino: Rect, obs: seq<Rect>)
  {
    exists i :: 0 <= i < |obs| && Collide(dino, obs[i])
  }

  // ---------------------------------------------------------------- one call each

  /** `control_dino(illuminance)`. */
  function Control(s: DinoState, illuminance: real): DinoState
  {
    var appended := s.lightLevels + [illuminance];
    var h := if |appended| > MaxLightHistory then appended[1..] else appended;
    if |h| < 2 then s.(lightLevels := h)
    else
      var change := Abs(h[|h| - 1] - h[|h| - 2]);
      var started := s.gameStarted || change > ChangeThreshold;
      var jump := !s.gameOver && started && change > ChangeThreshold && s.dinoRect.Bottom() >= Ground;
      s.(lightLevels := h, gameStarted := started,
         dinoVelocity := if jump then JumpStrength else s.dinoVelocity)
  }

  /** The dino part of a running tick: gravity, integration, `dinoRect.y = int(dinoY)`, ground clamp. */
  function Fall(s: DinoState): DinoState
  {
    var v := s.dinoVelocity + Gravity;
    var y := s.dinoY + v;
    var rect := s.dinoRect.(y := Trunc(y));
    if rect.Bottom() > Ground then
      var rect := rect.(y := Ground - rect.h);
      s.(dinoRect := rect, dinoY := rect.y as real, dinoVelocity := 0.0)
    else
      s.(dinoRect := rect, dinoY := y, dinoVelocity := v)
  }

  /** The obstacle part of a running tick: `move_obstacles`, then a spawn at the tail when more than
      `ObstacleFrequency` ms have passed since the last one. */
  function MoveAndSpawn(s: DinoState, now: int): DinoState
  {
    if now - s.lastObstacle > ObstacleFrequency then
      s.(obstacles := Moved(s.obstacles) + [CreateObstacle()], lastObstacle := now)
    else
      s.(obstacles := Moved(s.obstacles))
  }

  /** The scoring and collision part of a running tick: `update_score()`, then game over on a hit. */
  function Judge(t: DinoState): DinoState
  {
    t.(score := t.score + 1, gameOver := t.gameOver || Collides(t.dinoRect, t.obstacles))
  }

  /** `update()` with `pygame.time.get_ticks()` reading `now`. */
  function Tick(s: DinoState, now: int): (r: DinoState)
    ensures !Running(s) ==> r == s
    ensures Running(s) ==> r.score == s.score + 1 && r.gameStarted && r.lightLevels == s.lightLevels
    ensures Running(s) ==> r.dinoRect.Bottom() <= Ground
    ensures Running(s) ==> (r.gameOver <==> Collides(r.dinoRect, r.obstacles))
  {
    if !Running(s) then s else Judge(MoveAndSpawn(Fall(s), now))
  }

  /** `reset_game()`; the spawn clock `last_obstacle` is left as it was. */
  function Reset(s: DinoState): DinoState
  {
    s.(dinoRect := s.dinoRect.(y := StartY), dinoY := StartY as real, dinoVelocity := 0.0,
       obstacles := [], score := 0, gameOver := false, gameStarted := false, lightLevels := [])
  }

  /** The SPACE key in the game loop: it resets only a game that is over. */
  function Space(s: DinoState): DinoState
  {
    if s.gameOver then Reset(s) else s
  }

  /** The reading a light-sensor message carries: `float(data.get('illuminance', 0))`. */
  function Illuminance(data: Value): Option<real>
  {
    GetFloat(data, "illuminance")
  }

  // ---------------------------------------------------------------- invariant

  /** What holds of every state the game can reach: a bounded history, the dino's fixed box resting
      on or above the ground, `dinoRect.y == int(dinoY)`, a game that has not started is a fresh
      session, and a sorted set of well-formed obstacles. */
  ghost predicate Inv(s: DinoState)
  {
    && |s.lightLevels| <= MaxLightHistory
    && s.dinoRect.x == DinoX && s.dinoRect.w == DinoW && s.dinoRect.h == DinoH
    && s.dinoRect.y == Trunc(s.dinoY)
    && s.dinoRect.Bottom() <= Ground
    && s.score >= 0
    && (!s.gameStarted ==> s == Initial(s.lastObstacle).(lightLevels := s.lightLevels))
    && ObstaclesValid(s.obstacles)
  }

  lemma InitialInv(now: int)
    ensures Inv(Initial(now))
  {
  }

  lemma ControlInv(s: DinoState, illuminance: real)
    requires Inv(s)
    ensures Inv(Control(s, illuminance))
  {
  }

  lemma TickInv(s: DinoState, now: int)
    requires Inv(s)
    ensures Inv(Tick(s, now))
  {
    if Running(s) {
      MovedValid(s.obstacles);
      MoveAndSpawnValid(s.obstacles);
    }
  }

  lemma ResetInv(s: DinoState)
    requires Inv(s)
    ensures Inv(Reset(s)) && Inv(Space(s))
  {
  }

  // ---------------------------------------------------------------- properties of one call

  /** The history keeps the last `MaxLightHistory` readings: on overflow exactly the oldest is dropped. */
  lemma ControlHistory(s: DinoState, illuminance: real)
    requires |s.lightLevels| <= MaxLightHistory
    ensures Control(s, illuminance).lightLevels == Last(s.lightLevels + [illuminance], MaxLightHistory)
  {
  }

  /** With fewer than two readings the call only records the reading. */
  lemma ControlFirstReading(s: DinoState, illuminance: real)
    requires s.lightLevels == []
    ensures Control(s, illuminance) == s.(lightLevels := [illuminance])
  {
  }

  /** The change between the two latest readings, once there are two. */
  function LatestChange(h: seq<real>): real
    requires |h| >= 2
  {
    Abs(h[|h| - 1] - h[|h| - 2])
  }

  /** The game starts exactly when the latest change exceeds the threshold, and a started game stays
      started; the dino jumps exactly when the game runs, the change exceeds the threshold and it is on
      the ground, and otherwise its velocity is untouched. */
  lemma ControlStartAndJump(s: DinoState, illuminance: real)
    requires |s.lightLevels| <= MaxLightHistory
    requires |s.lightLevels| >= 1
    ensures var r := Control(s, illuminance);
      var change := LatestChange(r.lightLevels);
      && (r.gameStarted <==> s.gameStarted || change > ChangeThreshold)
      && (r.dinoVelocity == JumpStrength <== r.gameStarted && !s.gameOver && change > ChangeThreshold && s.dinoRect.Bottom() >= Ground)
      && (!(r.gameStarted && !s.gameOver && change > ChangeThreshold && s.dinoRect.Bottom() >= Ground) ==> r.dinoVelocity == s.dinoVelocity)
      && r == s.(lightLevels := r.lightLevels, gameStarted := r.gameStarted, dinoVelocity := r.dinoVelocity)
  {
  }

  /** Because a game that has not started stands on the ground, the reading that starts it also jumps. */
  lemma StartingReadingJumps(s: DinoState, illuminance: real)
    requires Inv(s) && !s.gameStarted
    requires Control(s, illuminance).gameStarted
    ensures Control(s, illuminance).dinoVelocity == JumpStrength
  {
  }

  /** A running tick applies gravity and integrates; when the dino would sink below the ground it is
      clamped onto it with velocity 0 and `dinoY` snapped to the box. */
  lemma TickPhysics(s: DinoState, now: int)
    requires Running(s)
    ensures var r := Tick(s, now);
      var v := s.dinoVelocity + Gravity;
      var y := s.dinoY + v;
      && (Trunc(y) + s.dinoRect.h > Ground ==>
            r.dinoVelocity == 0.0 && r.dinoRect.Bottom() == Ground && r.dinoY == r.dinoRect.y as real)
      && (Trunc(y) + s.dinoRect.h <= Ground ==>
            r.dinoVelocity == v && r.dinoY == y && r.dinoRect == s.dinoRect.(y := Trunc(y)))
  {
  }

  /** A running tick moves the obstacles, and spawns a new one at the right edge at the tail exactly when
      more than `ObstacleFrequency` ms passed since the last spawn. */
  lemma TickObstacles(s: DinoState, now: int)
    requires Running(s)
    ensures var r := Tick(s, now);
      && (now - s.lastObstacle > ObstacleFrequency ==>
            r.obstacles == Moved(s.obstacles) + [CreateObstacle()] && r.lastObstacle == now)
      && (now - s.lastObstacle <= ObstacleFrequency ==>
            r.obstacles == Moved(s.obstacles) && r.lastObstacle == s.lastObstacle)
  {
  }

  /** `reset_game` gives a fresh game (keeping only the spawn clock), and resetting twice is resetting once. */
  lemma ResetFresh(s: DinoState)
    requires Inv(s)
    ensures Reset(s) == Initial(s.lastObstacle)
    ensures Reset(Reset(s)) == Reset(s)
  {
  }

  /** The scenario: readings 10.0 then 20.0 start the game and jump; 20.1 next changes by 0.1, below the
      threshold, so it causes no new jump although the dino still stands on the ground: from the same
      history with the dino at rest, 20.1 leaves it at rest. */
  lemma LightScenario(now: int)
    ensures var s1 := Control(Initial(now), 10.0);
      var s2 := Control(s1, 20.0);
      var s3 := Control(s2, 20.1);
      && !s1.gameStarted && s1.lightLevels == [10.0]
      && s2.gameStarted && s2.dinoVelocity == JumpStrength
      && s3.lightLevels == [10.0, 20.0, 20.1] && s3.dinoRect.Bottom() == Ground
      && s3.dinoVelocity == s2.dinoVelocity
      && LatestChange(s3.lightLevels) <= ChangeThreshold
      && Control(s2.(dinoVelocity := 0.0), 20.1).dinoVelocity == 0.0
  {
  }

  // ---------------------------------------------------------------- any interleaving of calls

  /** The three ways the game is driven: a sensor reading, a frame of the game loop, the SPACE key. */
  datatype Event = Light(illuminance: real) | Frame(now: int) | SpaceKey

  function Apply(s: DinoState, e: Event): DinoState
  {
    match e
    case Light(l) => Control(s, l)
    case Frame(now) => Tick(s, now)
    case SpaceKey => Space(s)
  }

  function Run(s: DinoState, es: seq<Event>): DinoState
    decreases |es|
  {
    if es == [] then s else Run(Apply(s, es[0]), es[1..])
  }

  /** The reading an event carries, if any. */
  function ReadingOf(e: Event): seq<real>
  {
    if e.Light? then [e.illuminance] else []
  }

  /** The readings among the events, in order. */
  function Readings(es: seq<Event>): seq<real>
  {
    if es == [] then [] else ReadingOf(es[0]) + Readings(es[1..])
  }

  /** One reading or frame: the started flag and the score never go down, and the history takes in the
      reading, if any. */
  lemma ApplyWithoutSpace(s: DinoState, e: Event)
    requires |s.lightLevels| <= MaxLightHistory
    requires e != SpaceKey
    ensures s.gameStarted ==> Apply(s, e).gameStarted
    ensures Apply(s, e).score >= s.score
    ensures Apply(s, e).lightLevels == Last(s.lightLevels + ReadingOf(e), MaxLightHistory)
  {
    match e {
      case Light(l) =>
        ControlHistory(s, l);
      case Frame(now) =>
        var r := Tick(s, now);
        assert Apply(s, e) == r;
        assert r.lightLevels == s.lightLevels && r.score >= s.score;
        assert s.lightLevels + ReadingOf(e) == s.lightLevels;
    }
  }

  lemma {:induction false} RunInv(s: DinoState, es: seq<Event>)
    requires Inv(s)
    ensures Inv(Run(s, es))
    decreases |es|
  {
    if es != [] {
      match es[0] {
        case Light(l) => ControlInv(s, l);
        case Frame(now) => TickInv(s, now);
        case SpaceKey => ResetInv(s);
      }
      RunInv(Apply(s, es[0]), es[1..]);
    }
  }

  /** Without a reset, whatever the interleaving: the game stays started once started, the score never
      decreases, and the history holds the last `MaxLightHistory` readings in arrival order. */
  lemma {:induction false} RunWithoutSpace(s: DinoState, es: seq<Event>)
    requires |s.lightLevels| <= MaxLightHistory
    requires SpaceKey !in es
    ensures s.gameStarted ==> Run(s, es).gameStarted
    ensures Run(s, es).score >= s.score
    ensures Run(s, es).lightLevels == Last(s.lightLevels + Readings(es), MaxLightHistory)
    decreases |es|
  {
    if es == [] {
      assert s.lightLevels + [] == s.lightLevels;
    } else {
      var t := Apply(s, es[0]);
      var first, rest := ReadingOf(es[0]), Readings(es[1..]);
      assert Run(s, es) == Run(t, es[1..]);
      assert Readings(es) == first + rest;
      assert es[0] in es;
      ApplyWithoutSpace(s, es[0]);
      assert SpaceKey !in es[1..] by { assert forall e :: e in es[1..] ==> e in es; }
      RunWithoutSpace(t, es[1..]);
      LastTwice(s.lightLevels, first, rest, MaxLightHistory);
    }
  }

  /** A game that is over is frozen until SPACE: only the sensor history keeps moving. */
  lemma {:induction false} FrozenWhileOver(s: DinoState, es: seq<Event>)
    requires s.gameOver && s.gameStarted && SpaceKey !in es
    ensures Run(s, es) == s.(lightLevels := Run(s, es).lightLevels)
    decreases |es|
  {
    if es != [] {
      assert es[0] in es;
      assert SpaceKey !in es[1..] by { assert forall e :: e in es[1..] ==> e in es; }
      var t := Apply(s, es[0]);
      assert t == s.(lightLevels := t.lightLevels);
      FrozenWhileOver(t, es[1..]);
    }
  }

  // ---------------------------------------------------------------- the game object

  class DinoGame {
    var dinoRect: Rect
    var dinoY: real
    var dinoVelocity: real
    var obstacles: seq<Rect>
    var lastObstacle: int
    var score: int
    var gameOver: bool
    var gameStarted: bool
    var lightLevels: seq<real>

    function State(): DinoState
      reads this
    {
      DinoState(dinoRect, dinoY, dinoVelocity, obstacles, lastObstacle, score, gameOver, gameStarted, lightLevels)
    }

    ghost predicate Valid()
      reads this
    {
      Inv(State())
    }

    constructor (now: int)
      ensures Valid() && State() == Initial(now)
    {
      dinoRect := Rect(DinoX, StartY, DinoW, DinoH);
      dinoY := StartY as real;
      dinoVelocity := 0.0;
      obstacles := [];
      lastObstacle := now;
      score := 0;
      gameOver := false;
      gameStarted := false;
      lightLevels := [];
    }

    method MoveObstacles()
      modifies this`obstacles
      ensures obstacles == Moved(old(obstacles))
    {
      var i := 0;
      while i < |obstacles|
        invariant 0 <= i <= |obstacles| == |old(obstacles)|
        invariant forall j :: 0 <= j < i ==> obstacles[j] == old(obstacles)[j].(x := old(obstacles)[j].x - ObstacleSpeed)
        invariant forall j :: i <= j < |obstacles| ==> obstacles[j] == old(obstacles)[j]
      {
        obstacles := obstacles[i := obstacles[i].(x := obstacles[i].x - ObstacleSpeed)];
        i := i + 1;
      }
      assert obstacles == Shifted(old(obstacles), ObstacleSpeed);
      obstacles := KeepVisible(obstacles);
    }

    method CheckCollision() returns (hit: bool)
      ensures hit == Collides(dinoRect, obstacles)
    {
      var i := 0;
      while i < |obstacles|
        invariant 0 <= i <= |obstacles|
        invariant forall j :: 0 <= j < i ==> !Collide(dinoRect, obstacles[j])
      {
        if Collide(dinoRect, obstacles[i]) {
          return true;
        }
        i := i + 1;
      }
      return false;
    }

    method UpdateScore()
      modifies this`score
      ensures score == old(score) + 1
    {
      score := score + 1;
    }

    method ResetGame()
      requires Valid()
      modifies this
      ensures Valid() && State() == Reset(old(State()))
    {
      dinoRect := dinoRect.(y := StartY);
      dinoY := StartY as real;
      dinoVelocity := 0.0;
      obstacles := [];
      score := 0;
      gameOver := false;
      gameStarted := false;
      lightLevels := [];
      ResetInv(old(State()));
    }

    method Update(now: int)
      requires Valid()
      modifies this
      ensures Valid() && State() == Tick(old(State()), now)
    {
      if !gameOver && gameStarted {
        ghost var s0 := State();
        Fly();
        MoveObstacles();
        SpawnIfDue(now);
        assert State() == MoveAndSpawn(Fall(s0), now);
        Settle();
      }
      TickInv(old(State()), now);
    }

    /** The spawn rule of `update()`: a new obstacle at the tail when more than `ObstacleFrequency` ms
        passed since the last one. */
    method SpawnIfDue(now: int)
      modifies this`obstacles, this`lastObstacle
      ensures now - old(lastObstacle) > ObstacleFrequency ==>
                obstacles == old(obstacles) + [CreateObstacle()] && lastObstacle == now
      ensures now - old(lastObstacle) <= ObstacleFrequency ==>
                obstacles == old(obstacles) && lastObstacle == old(lastObstacle)
    {
      if now - lastObstacle > ObstacleFrequency {
        obstacles := obstacles + [CreateObstacle()];
        lastObstacle := now;
      }
    }

    /** The scoring and collision part of `update()`: `update_score()`, then game over on a hit. */
    method Settle()
      modifies this`score, this`gameOver
      ensures State() == Judge(old(State()))
    {
      UpdateScore();
      var hit := CheckCollision();
      if hit {
        gameOver := true;
      }
    }

    /** The dino part of `update()`: gravity, integration, `dino_rect.y = int(dino_y)`, and the landing
        on the ground. */
    method Fly()
      modifies this`dinoVelocity, this`dinoY, this`dinoRect
      ensures State() == Fall(old(State()))
    {
      dinoVelocity := dinoVelocity + Gravity;
      dinoY := dinoY + dinoVelocity;
      dinoRect := dinoRect.(y := Trunc(dinoY));
      if dinoRect.Bottom() > Ground {
        dinoRect := dinoRect.(y := Ground - dinoRect.h);
        dinoY := dinoRect.y as real;
        dinoVelocity := 0.0;
      }
    }

    method ControlDino(illuminance: real)
      requires Valid()
      modifies this
      ensures Valid() && State() == Control(old(State()), illuminance)
    {
      lightLevels := lightLevels + [illuminance];
      if |lightLevels| > MaxLightHistory {
        lightLevels := lightLevels[1..];
      }
      ControlInv(old(State()), illuminance);
      if |lightLevels| < 2 {
        return;
      }
      var recentChange := Abs(lightLevels[|lightLevels| - 1] - lightLevels[|lightLevels| - 2]);
      if !gameStarted {
        if recentChange > ChangeThreshold {
          gameStarted := true;
        }
      }
      if !gameOver && gameStarted {
        if recentChange > ChangeThreshold && dinoRect.Bottom() >= Ground {
          dinoVelocity := JumpStrength;
        }
      }
    }

    /** One message of the light-sensor connection, as `json.loads` left it. A `JSONDecodeError` is
        caught and the message skipped. Any other failure of `json.loads`, and a message whose reading
        cannot be extracted (not an object, a field `float` rejects or an integer too large for a
        double), raises out of the handler and ends the connection; `keepOpen` is then false and the
        game is untouched. */
    method HandleMessage(message: Loaded) returns (keepOpen: bool)
      requires Valid()
      modifies this
      ensures Valid()
      ensures keepOpen <==> message.DecodeError? || (message.Parsed? && Illuminance(message.value).Some?)
      ensures State() == if message.Parsed? && Illuminance(message.value).Some?
                         then Control(old(State()), Illuminance(message.value).value)
                         else old(State())
    {
      match message {
        case DecodeError =>
          return true;
        case LoadFailure =>
          return false;
        case Parsed(data) =>
          var illuminance := Illuminance(data);
          if illuminance.None? {
            return false;
          }
          ControlDino(illuminance.value);
          return true;
      }
    }

    /** The game loop's SPACE rule: reset only a game that is over. */
    method OnSpace()
      requires Valid()
      modifies this
      ensures Valid() && State() == Space(old(State()))
    {
      if gameOver {
        ResetGame();
      }
    }
  }
}
