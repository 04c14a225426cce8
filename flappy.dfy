/** The accelerometer flappy-bird game: the z reading starts the game and makes the bird jump, and a
    fixed tick applies gravity, moves and spawns pipe pairs, scores by a position window and ends the
    game on touching a pipe or the top or bottom border.

    `BirdState` is the game's value; `Control`, `Tick`, `Reset` and `Space` say what one call does; the
    class `FlappyBird` holds the same fields and performs the same updates in place. */
module Flappy {
  import opened Json
  import opened Geometry

  const Width := 400
  const Height := 600
  const StartY := Height / 2
  const BirdX := 50
  const BirdSize := 40
  const PipeSpeed := 2
  const PipeFrequency := 1500              // milliseconds
  const FirstPipeDelay := 2000             // milliseconds
  const PipeWidth := 50
  const Gap := 200
  const MinPipeHeight := 100
  const MaxPipeHeight := Height - Gap - 100
  const JumpStrength: real := -7.0
  const Gravity: real := 0.4
  const StartTilt: real := 1.0
  const JumpTilt: real := 2.0
  const ScoreLeft := 48
  const ScoreRight := 52

  /** The values `random.randint(100, height - gap - 100)` can return, both ends included. */
  type PipeHeight = h: int | MinPipeHeight <= h <= MaxPipeHeight witness MinPipeHeight

  /** `[bottom_pipe, top_pipe]`. */
  datatype PipePair = PipePair(bottom: Rect, top: Rect)

  datatype BirdState = BirdState(
    birdY: real,
    birdVelocity: real,
    birdRect: Rect,
    pipes: seq<PipePair>,
    lastPipe: int,
    score: int,
    gameOver: bool,
    gameStarted: bool)

  /** The state `__init__` (and `reset_game`) builds, `now` being the clock at that moment: the spawn
      clock is set `FirstPipeDelay` ahead (see `FirstSpawn`). */
  function Initial(now: int): BirdState
  {
    BirdState(StartY as real, 0.0, Rect(BirdX, StartY, BirdSize, BirdSize), [], now + FirstPipeDelay, 0, false, false)
  }

  predicate Running(s: BirdState) { !s.gameOver && s.gameStarted }

  // ---------------------------------------------------------------- pipes

  /** `create_pipe()` with the random height given: the bottom pipe spans from `pipeHeight` down to the
      bottom border, the top pipe starts at the top border, and `Gap` separates them vertically
      (the top pipe's height `pipeHeight - Gap` may be zero or negative). */
  function CreatePipe(pipeHeight: PipeHeight): (p: PipePair)
    ensures p.bottom.y == pipeHeight && p.bottom.Bottom() == Height
    ensures p.top.y == 0 && p.bottom.y - p.top.Bottom() == Gap
    ensures p.bottom.x == Width && p.top.x == Width && p.bottom.w == PipeWidth && p.top.w == PipeWidth
  {
    PipePair(Rect(Width, pipeHeight, PipeWidth, Height - pipeHeight), Rect(Width, 0, PipeWidth, pipeHeight - Gap))
  }

  /** Both rectangles of every pair moved `d` to the left. */
  function Shifted(pipes: seq<PipePair>, d: int): seq<PipePair>
  {
    seq(|pipes|, i requires 0 <= i < |pipes| =>
      PipePair(pipes[i].bottom.(x := pipes[i].bottom.x - d), pipes[i].top.(x := pipes[i].top.x - d)))
  }

  /** `[pipe for pipe in pipes if pipe[0].right > 0]`. */
  function KeepVisible(pipes: seq<PipePair>): (r: seq<PipePair>)
    ensures |r| <= |pipes|
    ensures forall i :: 0 <= i < |r| ==> r[i].bottom.Right() > 0
  {
    if pipes == [] then []
    else (if pipes[0].bottom.Right() > 0 then [pipes[0]] else []) + KeepVisible(pipes[1..])
  }

  /** The filter distributes over concatenation, so it keeps the surviving pairs in their old order. */
  lemma {:induction false} KeepVisibleConcat(a: seq<PipePair>, b: seq<PipePair>)
    ensures KeepVisible(a + b) == KeepVisible(a) + KeepVisible(b)
  {
    if a == [] {
      assert a + b == b;
    } else {
      assert (a + b)[0] == a[0];
      assert (a + b)[1..] == a[1..] + b;
      KeepVisibleConcat(a[1..], b);
    }
  }

  /** The filter keeps exactly the pairs that reach past the left border. */
  lemma {:induction false} KeepVisibleMembers(pipes: seq<PipePair>)
    ensures forall o :: o in KeepVisible(pipes) <==> o in pipes && o.bottom.Right() > 0
  {
    if pipes != [] {
      KeepVisibleMembers(pipes[1..]);
      assert pipes == [pipes[0]] + pipes[1..];
    }
  }

  lemma {:induction false} KeepVisibleAll(pipes: seq<PipePair>)
    requires forall i :: 0 <= i < |pipes| ==> pipes[i].bottom.Right() > 0
    ensures KeepVisible(pipes) == pipes
  {
    if pipes != [] { KeepVisibleAll(pipes[1..]); }
  }

  predicate SortedByX(pipes: seq<PipePair>)
  {
    forall i, j :: 0 <= i < j < |pipes| ==> pipes[i].bottom.x < pipes[j].bottom.x
  }

  /** On pairs of one width sorted by position, the filter only drops a prefix. */
  lemma {:induction false} KeepVisibleDropsPrefix(pipes: seq<PipePair>)
    requires SortedByX(pipes)
    requires forall i :: 0 <= i < |pipes| ==> pipes[i].bottom.w == PipeWidth
    ensures exists k :: 0 <= k <= |pipes| && KeepVisible(pipes) == pipes[k..]
  {
    if pipes == [] {
      assert KeepVisible(pipes) == pipes[0..];
    } else if pipes[0].bottom.Right() > 0 {
      KeepVisibleAll(pipes);
      assert KeepVisible(pipes) == pipes[0..];
    } else {
      KeepVisibleDropsPrefix(pipes[1..]);
      var k :| 0 <= k <= |pipes[1..]| && KeepVisible(pipes[1..]) == pipes[1..][k..];
      assert pipes[1..][k..] == pipes[k + 1..];
    }
  }

  /** The pipe list `move_pipes` leaves behind. */
  function Moved(pipes: seq<PipePair>): seq<PipePair>
  {
    KeepVisible(Shifted(pipes, PipeSpeed))
  }

  /** `move_pipes`: a pair survives exactly when its shifted bottom pipe still reaches past the left
      border, and the survivors keep their order. */
  lemma MovedKeepsVisible(pipes: seq<PipePair>, i: nat)
    requires i < |pipes|
    ensures Shifted(pipes, PipeSpeed)[i] in Moved(pipes) <==> pipes[i].bottom.Right() - PipeSpeed > 0
    ensures forall p :: p in Moved(pipes) ==> p.bottom.Right() > 0
    ensures Moved(pipes) == KeepVisible(Shifted(pipes[..i], PipeSpeed)) + KeepVisible(Shifted(pipes[i..], PipeSpeed))
  {
    assert Shifted(pipes, PipeSpeed) == Shifted(pipes[..i], PipeSpeed) + Shifted(pipes[i..], PipeSpeed);
    KeepVisibleConcat(Shifted(pipes[..i], PipeSpeed), Shifted(pipes[i..], PipeSpeed));
    KeepVisibleMembers(Shifted(pipes, PipeSpeed));
  }

  /** A pair built by `CreatePipe` that has since moved left and is still tracked. */
  predicate WellFormed(p: PipePair)
  {
    && p.bottom.x == p.top.x && p.bottom.w == PipeWidth && p.top.w == PipeWidth
    && MinPipeHeight <= p.bottom.y <= MaxPipeHeight && p.bottom.Bottom() == Height
    && p.top.y == 0 && p.top.h == p.bottom.y - Gap
    && p.bottom.x <= Width && p.bottom.Right() > 0
  }

  ghost predicate PipesValid(pipes: seq<PipePair>)
  {
    (forall i :: 0 <= i < |pipes| ==> WellFormed(pipes[i])) && SortedByX(pipes)
  }

  /** A pair after one shift: its shape, and at least a step left of the right edge. */
  predicate ShiftedPair(p: PipePair)
  {
    && p.bottom.x == p.top.x && p.bottom.w == PipeWidth && p.top.w == PipeWidth
    && MinPipeHeight <= p.bottom.y <= MaxPipeHeight && p.bottom.Bottom() == Height
    && p.top.y == 0 && p.top.h == p.bottom.y - Gap
    && p.bottom.x <= Width - PipeSpeed
  }

  /** Shifting moves both pipes of a pair together, keeps their shape and keeps the pairs ordered. */
  lemma ShiftedValid(pipes: seq<PipePair>)
    requires PipesValid(pipes)
    ensures SortedByX(Shifted(pipes, PipeSpeed))
    ensures forall i :: 0 <= i < |pipes| ==> ShiftedPair(Shifted(pipes, PipeSpeed)[i])
  {
  }

  /** A suffix of a sorted list is sorted. */
  lemma SortedSuffix(xs: seq<PipePair>, k: nat)
    requires SortedByX(xs) && k <= |xs|
    ensures SortedByX(xs[k..])
  {
    var ys := xs[k..];
    forall i, j | 0 <= i < j < |ys|
      ensures ys[i].bottom.x < ys[j].bottom.x
    {
      assert ys[i] == xs[k + i] && ys[j] == xs[k + j];
    }
  }

  /** The visible tail of a shifted, sorted list of pairs is a valid pipe list left of the spawn edge. */
  lemma SuffixValid(xs: seq<PipePair>, k: nat)
    requires k <= |xs| && SortedByX(xs)
    requires forall i :: 0 <= i < |xs| ==> ShiftedPair(xs[i])
    requires forall i :: k <= i < |xs| ==> xs[i].bottom.Right() > 0
    ensures PipesValid(xs[k..])
    ensures forall i :: 0 <= i < |xs| - k ==> xs[k..][i].bottom.x < Width
  {
    SortedSuffix(xs, k);
    var ys := xs[k..];
    forall i | 0 <= i < |ys|
      ensures WellFormed(ys[i]) && ys[i].bottom.x < Width
    {
      assert ys[i] == xs[k + i];
      assert ShiftedPair(xs[k + i]);
    }
  }

  /** Moving keeps the pairs well formed and ordered, and leaves room for a spawn. */
  lemma MovedValid(pipes: seq<PipePair>)
    requires PipesValid(pipes)
    ensures PipesValid(Moved(pipes))
    ensures forall i :: 0 <= i < |Moved(pipes)| ==> Moved(pipes)[i].bottom.x < Width
  {
    ShiftedValid(pipes);
    VisibleValid(Shifted(pipes, PipeSpeed));
  }

  /** Filtering a shifted, sorted list keeps a valid list left of the spawn edge. */
  lemma VisibleValid(sh: seq<PipePair>)
    requires SortedByX(sh)
    requires forall i :: 0 <= i < |sh| ==> ShiftedPair(sh[i])
    ensures PipesValid(KeepVisible(sh))
    ensures forall i :: 0 <= i < |KeepVisible(sh)| ==> KeepVisible(sh)[i].bottom.x < Width
  {
    KeepVisibleDropsPrefix(sh);
    var m := KeepVisible(sh);
    var k :| 0 <= k <= |sh| && m == sh[k..];
    forall i | k <= i < |sh|
      ensures sh[i].bottom.Right() > 0
    {
      assert sh[i] == m[i - k];
    }
    SuffixValid(sh, k);
  }

  lemma MoveAndSpawnValid(pipes: seq<PipePair>, pipeHeight: PipeHeight)
    requires PipesValid(pipes)
    ensures PipesValid(Moved(pipes) + [CreatePipe(pipeHeight)])
  {
    MovedValid(pipes);
    var m := Moved(pipes);
    var n := m + [CreatePipe(pipeHeight)];
    forall i, j | 0 <= i < j < |n|
      ensures n[i].bottom.x < n[j].bottom.x
    {
      if j < |m| { assert n[i] == m[i] && n[j] == m[j]; }
      else { assert n[i] == m[i]; }
    }
  }

  // ---------------------------------------------------------------- collision and score

  /** The bird touches the top border or the bottom border. */
  predicate OutOfBounds(bird: Rect)
  {
    bird.Top() <= 0 || bird.Bottom() >= Height
  }

  /** `check_collision()`: the bird overlaps either pipe of some pair, or is out of bounds. */
  predicate Collision(bird: Rect, pipes: seq<PipePair>)
  {
    (exists i :: 0 <= i < |pipes| && (Collide(bird, pipes[i].bottom) || Collide(bird, pipes[i].top)))
    || OutOfBounds(bird)
  }

  /** A top pipe of height zero or less (a random height of at most `Gap`) is not a proper rectangle;
      whatever `colliderect` makes of it, any overlap it reports under the strict-overlap reading needs
      the bird above the top border, which `check_collision` reports anyway. So the verdict does not
      depend on how such a rectangle is treated. */
  lemma DegenerateTopPipe(bird: Rect, p: PipePair)
    requires WellFormed(p) && p.top.h <= 0
    ensures Collide(bird, p.top) ==> OutOfBounds(bird)
    ensures Collision(bird, [p]) <==> Collide(bird, p.bottom) || OutOfBounds(bird)
  {
    assert [p][0] == p;
  }

  /** A pair is in the scoring window when its bottom pipe's left edge is within [48, 52]. */
  predicate InScoreWindow(p: PipePair)
  {
    ScoreLeft <= p.bottom.x <= ScoreRight
  }

  /** The number of pairs in the scoring window: what `update_score` adds. */
  function Passing(pipes: seq<PipePair>): (n: nat)
    ensures n <= |pipes|
    ensures n == 0 <==> forall i :: 0 <= i < |pipes| ==> !InScoreWindow(pipes[i])
  {
    if pipes == [] then 0
    else Passing(pipes[..|pipes| - 1]) + (if InScoreWindow(pipes[|pipes| - 1]) then 1 else 0)
  }

  /** A pair at x = 400 - 2k, which is where a pair spawned at the right edge is after `k` frames
      (`SpawnedPairScoresThrice`), is in the scoring window for exactly three values of `k`. */
  lemma ScoringTicks(p: PipePair, k: int)
    requires p.bottom.x == Width - k * PipeSpeed
    ensures InScoreWindow(p) <==> 174 <= k <= 176
  {
  }

  // ---------------------------------------------------------------- one call each

  /** `control_bird(acceleration)`. */
  function Control(s: BirdState, acceleration: real): BirdState
  {
    var started := s.gameStarted || Abs(acceleration) > StartTilt;
    var jump := !s.gameOver && started && acceleration > JumpTilt;
    s.(gameStarted := started, birdVelocity := if jump then JumpStrength else s.birdVelocity)
  }

  /** The bird part of a running tick: gravity, integration and `birdRect.y = int(birdY)`. */
  function Fall(s: BirdState): BirdState
  {
    var v := s.birdVelocity + Gravity;
    var y := s.birdY + v;
    s.(birdVelocity := v, birdY := y, birdRect := s.birdRect.(y := Trunc(y)))
  }

  /** The pipe part of a running tick: `move_pipes`, then a spawn at the tail when more than
      `PipeFrequency` ms have passed since the last one. */
  function MoveAndSpawn(s: BirdState, now: int, pipeHeight: PipeHeight): BirdState
  {
    if now - s.lastPipe > PipeFrequency then
      s.(pipes := Moved(s.pipes) + [CreatePipe(pipeHeight)], lastPipe := now)
    else
      s.(pipes := Moved(s.pipes))
  }

  /** The scoring and collision part of a running tick: `update_score()`, then game over on a hit. */
  function Judge(t: BirdState): BirdState
  {
    t.(score := t.score + Passing(t.pipes), gameOver := t.gameOver || Collision(t.birdRect, t.pipes))
  }

  /** `update()` with `pygame.time.get_ticks()` reading `now` and `pipeHeight` the random height a
      spawn would use. */
  function Tick(s: BirdState, now: int, pipeHeight: PipeHeight): (r: BirdState)
    ensures !Running(s) ==> r == s
    ensures Running(s) ==> r.gameStarted && r.score == s.score + Passing(r.pipes) >= s.score
    ensures Running(s) ==> (r.gameOver <==> Collision(r.birdRect, r.pipes))
  {
    if !Running(s) then s else Judge(MoveAndSpawn(Fall(s), now, pipeHeight))
  }

  /** `reset_game()` at clock `now`. */
  function Reset(s: BirdState, now: int): BirdState
  {
    s.(birdY := StartY as real, birdVelocity := 0.0, birdRect := s.birdRect.(y := StartY), pipes := [],
       score := 0, gameOver := false, gameStarted := false, lastPipe := now + FirstPipeDelay)
  }

  /** The SPACE key in the game loop: it resets only a game that is over. */
  function Space(s: BirdState, now: int): BirdState
  {
    if s.gameOver then Reset(s, now) else s
  }

  /** The reading an accelerometer message carries: `float(data.get('z', 0))`. */
  function Acceleration(data: Value): Option<real>
  {
    GetFloat(data, "z")
  }

  // ---------------------------------------------------------------- invariant

  /** What holds of every state the game can reach: the bird's fixed box with `birdRect.y == int(birdY)`,
      a game that has not started is a fresh session, and a sorted list of well-formed pipe pairs. */
  ghost predicate Inv(s: BirdState)
  {
    && s.birdRect.x == BirdX && s.birdRect.w == BirdSize && s.birdRect.h == BirdSize
    && s.birdRect.y == Trunc(s.birdY)
    && s.score >= 0
    && (!s.gameStarted ==> s == Initial(s.lastPipe - FirstPipeDelay))
    && PipesValid(s.pipes)
  }

  lemma InitialInv(now: int)
    ensures Inv(Initial(now))
  {
  }

  lemma ControlInv(s: BirdState, acceleration: real)
    requires Inv(s)
    ensures Inv(Control(s, acceleration))
  {
  }

  lemma TickInv(s: BirdState, now: int, pipeHeight: PipeHeight)
    requires Inv(s)
    ensures Inv(Tick(s, now, pipeHeight))
  {
    if Running(s) {
      MovedValid(s.pipes);
      MoveAndSpawnValid(s.pipes, pipeHeight);
    }
  }

  lemma ResetInv(s: BirdState, now: int)
    requires Inv(s)
    ensures Inv(Reset(s, now)) && Inv(Space(s, now))
  {
  }

  // ---------------------------------------------------------------- properties of one call

  /** The game starts on a tilt of magnitude above 1 and is never stopped by a reading; the bird jumps
      exactly when the game runs and the reading is above 2 (no ground condition), and otherwise keeps
      its velocity; nothing else changes. */
  lemma ControlStartAndJump(s: BirdState, acceleration: real)
    ensures var r := Control(s, acceleration);
      && (r.gameStarted <==> s.gameStarted || Abs(acceleration) > StartTilt)
      && (r.gameStarted && !s.gameOver && acceleration > JumpTilt ==> r.birdVelocity == JumpStrength)
      && (!(r.gameStarted && !s.gameOver && acceleration > JumpTilt) ==> r.birdVelocity == s.birdVelocity)
      && r == s.(gameStarted := r.gameStarted, birdVelocity := r.birdVelocity)
  {
  }

  /** A reading of 1.5 starts a fresh game without jumping; a reading of -3 starts it too, and in any
      state a reading of at most 0 never makes the bird jump. */
  lemma ControlScenarios(s: BirdState, acceleration: real)
    ensures !s.gameStarted ==> Control(s, 1.5).gameStarted && Control(s, 1.5).birdVelocity == s.birdVelocity
    ensures !s.gameStarted ==> Control(s, -3.0).gameStarted && Control(s, -3.0).birdVelocity == s.birdVelocity
    ensures acceleration <= 0.0 ==> Control(s, acceleration).birdVelocity == s.birdVelocity
  {
  }

  /** A running tick adds `Gravity` to the velocity and then the new velocity to the height. */
  lemma TickPhysics(s: BirdState, now: int, pipeHeight: PipeHeight)
    requires Running(s)
    ensures var r := Tick(s, now, pipeHeight);
      && r.birdVelocity == s.birdVelocity + Gravity
      && r.birdY == s.birdY + r.birdVelocity
      && r.birdRect == s.birdRect.(y := Trunc(r.birdY))
  {
  }

  /** A running tick moves the pairs and spawns one at the tail exactly when more than `PipeFrequency`
      ms passed since the last spawn. */
  lemma TickPipes(s: BirdState, now: int, pipeHeight: PipeHeight)
    requires Running(s)
    ensures var r := Tick(s, now, pipeHeight);
      && (now - s.lastPipe > PipeFrequency ==>
            r.pipes == Moved(s.pipes) + [CreatePipe(pipeHeight)] && r.lastPipe == now)
      && (now - s.lastPipe <= PipeFrequency ==> r.pipes == Moved(s.pipes) && r.lastPipe == s.lastPipe)
  {
  }

  /** The spawn clock of a fresh game is `FirstPipeDelay` ahead and a spawn needs more than
      `PipeFrequency` ms past it, so once started the first pair appears at the first tick more than
      3.5 s after the game was built. */
  lemma FirstSpawn(t: int, now: int, pipeHeight: PipeHeight)
    ensures var r := Tick(Initial(t).(gameStarted := true), now, pipeHeight);
      && (now - t > FirstPipeDelay + PipeFrequency ==> r.pipes == [CreatePipe(pipeHeight)] && r.lastPipe == now)
      && (now - t <= FirstPipeDelay + PipeFrequency ==> r.pipes == [] && r.lastPipe == t + FirstPipeDelay)
  {
  }

  /** `reset_game` gives the fresh game of `__init__` at the same clock, and resetting twice is resetting
      once. */
  lemma ResetFresh(s: BirdState, now: int)
    requires Inv(s)
    ensures Reset(s, now) == Initial(now)
    ensures Reset(Reset(s, now), now) == Reset(s, now)
  {
  }

  // ---------------------------------------------------------------- any interleaving of calls

  /** The three ways the game is driven: a z reading, a frame of the game loop (clock and the random
      height a spawn would use), the SPACE key (at a clock reading). */
  datatype Event = Tilt(z: real) | Frame(now: int, pipeHeight: PipeHeight) | SpaceKey(at: int)

  function Apply(s: BirdState, e: Event): BirdState
  {
    match e
    case Tilt(z) => Control(s, z)
    case Frame(now, h) => Tick(s, now, h)
    case SpaceKey(at) => Space(s, at)
  }

  function Run(s: BirdState, es: seq<Event>): BirdState
    decreases |es|
  {
    if es == [] then s else Run(Apply(s, es[0]), es[1..])
  }

  predicate NoSpace(es: seq<Event>)
  {
    forall i :: 0 <= i < |es| ==> !es[i].SpaceKey?
  }

  lemma {:induction false} RunInv(s: BirdState, es: seq<Event>)
    requires Inv(s)
    ensures Inv(Run(s, es))
    decreases |es|
  {
    if es != [] {
      match es[0] {
        case Tilt(z) => ControlInv(s, z);
        case Frame(now, h) => TickInv(s, now, h);
        case SpaceKey(at) => ResetInv(s, at);
      }
      RunInv(Apply(s, es[0]), es[1..]);
    }
  }

  /** Without a reset, whatever the interleaving: the game stays started once started, and the score
      never decreases. */
  lemma {:induction false} RunWithoutSpace(s: BirdState, es: seq<Event>)
    requires NoSpace(es)
    ensures s.gameStarted ==> Run(s, es).gameStarted
    ensures Run(s, es).score >= s.score
    decreases |es|
  {
    if es != [] {
      assert !es[0].SpaceKey?;
      assert NoSpace(es[1..]) by { assert forall i :: 0 <= i < |es| - 1 ==> es[1..][i] == es[i + 1]; }
      RunWithoutSpace(Apply(s, es[0]), es[1..]);
    }
  }

  /** The ticks in a sequence of frames, one after the other. */
  function Ticks(s: BirdState, frames: seq<(int, PipeHeight)>): BirdState
    decreases |frames|
  {
    if frames == [] then s else Ticks(Tick(s, frames[0].0, frames[0].1), frames[1..])
  }

  /** A game that is over stays over under ticks. */
  lemma {:induction false} OverStaysOver(s: BirdState, frames: seq<(int, PipeHeight)>)
    requires s.gameOver
    ensures Ticks(s, frames) == s
    decreases |frames|
  {
    if frames != [] { OverStaysOver(s, frames[1..]); }
  }

  /** While the bird is alive, every tick adds `Gravity` to its velocity: after a jump from rest the
      velocities are -7, -6.6, -6.2, ... */
  lemma {:induction false} VelocityWhileAlive(s: BirdState, frames: seq<(int, PipeHeight)>)
    requires Running(s)
    requires !Ticks(s, frames).gameOver
    ensures Ticks(s, frames).birdVelocity == s.birdVelocity + Gravity * |frames| as real
    decreases |frames|
  {
    if frames != [] {
      var t := Tick(s, frames[0].0, frames[0].1);
      if t.gameOver {
        OverStaysOver(t, frames[1..]);
      }
      TickPhysics(s, frames[0].0, frames[0].1);
      VelocityWhileAlive(t, frames[1..]);
    }
  }

  /** A pair moved `d` to the left, both pipes together. */
  function Slide(p: PipePair, d: int): (q: PipePair)
    ensures q.bottom.x == p.bottom.x - d && q.top.x == p.top.x - d
    ensures q.bottom.Right() == p.bottom.Right() - d
    ensures q.bottom.(x := p.bottom.x) == p.bottom && q.top.(x := p.top.x) == p.top
  {
    PipePair(p.bottom.(x := p.bottom.x - d), p.top.(x := p.top.x - d))
  }

  /** One more step after `n` steps is `n + 1` steps. */
  lemma SlideStep(p: PipePair, n: nat)
    ensures Slide(Slide(p, PipeSpeed), PipeSpeed * n) == Slide(p, PipeSpeed * (n + 1))
  {
  }

  /** The number of frames among the events. */
  function FrameCount(es: seq<Event>): nat
  {
    if es == [] then 0 else (if es[0].Frame? then 1 else 0) + FrameCount(es[1..])
  }

  /** Without SPACE, a game that is over stays over, whatever readings and frames follow. */
  lemma {:induction false} OverPersists(s: BirdState, es: seq<Event>)
    requires NoSpace(es)
    ensures s.gameOver ==> Run(s, es).gameOver
    decreases |es|
  {
    if es != [] {
      assert !es[0].SpaceKey?;
      assert NoSpace(es[1..]) by { assert forall i :: 0 <= i < |es| - 1 ==> es[1..][i] == es[i + 1]; }
      OverPersists(Apply(s, es[0]), es[1..]);
    }
  }

  /** A running tick moves every tracked pair 2 px left, and keeps it while it is still visible. */
  lemma {:induction false} TickSlides(s: BirdState, now: int, pipeHeight: PipeHeight, p: PipePair)
    requires Running(s) && p in s.pipes
    requires p.bottom.Right() - PipeSpeed > 0
    ensures Slide(p, PipeSpeed) in Tick(s, now, pipeHeight).pipes
  {
    var i :| 0 <= i < |s.pipes| && s.pipes[i] == p;
    var sh := Shifted(s.pipes, PipeSpeed);
    assert sh[i] == Slide(p, PipeSpeed);
    KeepVisibleMembers(sh);
    assert Slide(p, PipeSpeed) in Moved(s.pipes);
    TickPipes(s, now, pipeHeight);
  }

  /** A reading leaves the pipes alone and keeps a running game running. */
  lemma ControlKeepsPipes(s: BirdState, z: real)
    requires Running(s)
    ensures Running(Control(s, z)) && Control(s, z).pipes == s.pipes
  {
  }

  lemma StepsSplit(n: nat)
    ensures PipeSpeed * (n + 1) == PipeSpeed * n + PipeSpeed
  {
  }

  /** The first of a run of events without SPACE after which the bird is still alive: the game keeps
      running, and a tracked pair stays tracked, one step further left when the event is a frame. */
  lemma {:induction false} FirstEventSlides(s: BirdState, es: seq<Event>, p: PipePair)
      returns (t: BirdState, q: PipePair)
    requires es != [] && NoSpace(es) && Running(s) && p in s.pipes
    requires !Run(s, es).gameOver
    requires p.bottom.Right() - PipeSpeed * FrameCount(es) > 0
    ensures Running(t) && q in t.pipes && NoSpace(es[1..])
    ensures Run(s, es) == Run(t, es[1..])
    ensures q.bottom.Right() - PipeSpeed * FrameCount(es[1..]) > 0
    ensures es[0].Frame? ==> q == Slide(p, PipeSpeed) && FrameCount(es) == FrameCount(es[1..]) + 1
    ensures es[0].Tilt? ==> q == p && FrameCount(es) == FrameCount(es[1..])
  {
    assert !es[0].SpaceKey?;
    assert NoSpace(es[1..]) by { assert forall i :: 0 <= i < |es| - 1 ==> es[1..][i] == es[i + 1]; }
    t := Apply(s, es[0]);
    OverPersists(t, es[1..]);
    StepsSplit(FrameCount(es[1..]));
    match es[0] {
      case Tilt(z) =>
        ControlKeepsPipes(s, z);
        q := p;
      case Frame(now, h) =>
        TickSlides(s, now, h, p);
        q := Slide(p, PipeSpeed);
    }
  }

  /** While the bird is alive and SPACE is not pressed, a tracked pair is still tracked after any
      interleaving of readings and `n` frames, `n` steps further left, for as long as its right edge
      stays past the left border. */
  lemma {:induction false} PairTravels(s: BirdState, es: seq<Event>, p: PipePair)
    requires Running(s) && p in s.pipes && NoSpace(es)
    requires !Run(s, es).gameOver
    requires p.bottom.Right() - PipeSpeed * FrameCount(es) > 0
    ensures Slide(p, PipeSpeed * FrameCount(es)) in Run(s, es).pipes
    decreases |es|
  {
    if es == [] {
      assert Slide(p, 0) == p;
    } else {
      var t, q := FirstEventSlides(s, es, p);
      var rest := es[1..];
      PairTravels(t, rest, q);
      if es[0].Frame? {
        SlideStep(p, FrameCount(rest));
      }
    }
  }

  /** The pair spawned by a frame sits at x = 400 - 2k once `k` more frames have passed, with any
      readings in between, while the bird is alive and SPACE is not pressed; so it is in the scoring
      window on exactly three frames, and each pair passed adds 3 to the score. */
  lemma {:induction false} SpawnedPairScoresThrice(s: BirdState, now: int, pipeHeight: PipeHeight, es: seq<Event>)
    requires Running(s) && now - s.lastPipe > PipeFrequency && NoSpace(es)
    requires !Run(Tick(s, now, pipeHeight), es).gameOver
    requires FrameCount(es) < (Width + PipeWidth) / PipeSpeed
    ensures var k := FrameCount(es);
      var q := Slide(CreatePipe(pipeHeight), PipeSpeed * k);
      && q in Run(Tick(s, now, pipeHeight), es).pipes
      && q.bottom.x == Width - PipeSpeed * k
      && (InScoreWindow(q) <==> 174 <= k <= 176)
  {
    var t := Tick(s, now, pipeHeight);
    OverPersists(t, es);
    TickPipes(s, now, pipeHeight);
    assert CreatePipe(pipeHeight) in t.pipes;
    PairTravels(t, es, CreatePipe(pipeHeight));
    ScoringTicks(Slide(CreatePipe(pipeHeight), PipeSpeed * FrameCount(es)), FrameCount(es));
  }

  // ---------------------------------------------------------------- the game object

  class FlappyBird {
    var birdY: real
    var birdVelocity: real
    var birdRect: Rect
    var pipes: seq<PipePair>
    var lastPipe: int
    var score: int
    var gameOver: bool
    var gameStarted: bool

    function State(): BirdState
      reads this
    {
      BirdState(birdY, birdVelocity, birdRect, pipes, lastPipe, score, gameOver, gameStarted)
    }

    ghost predicate Valid()
      reads this
    {
      Inv(State())
    }

    constructor (now: int)
      ensures Valid() && State() == Initial(now)
    {
      birdY := StartY as real;
      birdVelocity := 0.0;
      birdRect := Rect(BirdX, StartY, BirdSize, BirdSize);
      pipes := [];
      lastPipe := now + FirstPipeDelay;
      score := 0;
      gameOver := false;
      gameStarted := false;
    }

    method MovePipes()
      modifies this`pipes
      ensures pipes == Moved(old(pipes))
    {
      var i := 0;
      while i < |pipes|
        invariant 0 <= i <= |pipes| == |old(pipes)|
        invariant forall j :: 0 <= j < i ==> pipes[j] == Shifted(old(pipes), PipeSpeed)[j]
        invariant forall j :: i <= j < |pipes| ==> pipes[j] == old(pipes)[j]
      {
        var pair := pipes[i];
        pair := pair.(bottom := pair.bottom.(x := pair.bottom.x - PipeSpeed));
        pair := pair.(top := pair.top.(x := pair.top.x - PipeSpeed));
        pipes := pipes[i := pair];
        i := i + 1;
      }
      assert pipes == Shifted(old(pipes), PipeSpeed);
      pipes := KeepVisible(pipes);
    }

    method CheckCollision() returns (hit: bool)
      ensures hit == Collision(birdRect, pipes)
    {
      var i := 0;
      while i < |pipes|
        invariant 0 <= i <= |pipes|
        invariant forall j :: 0 <= j < i ==> !Collide(birdRect, pipes[j].bottom) && !Collide(birdRect, pipes[j].top)
      {
        if Collide(birdRect, pipes[i].bottom) || Collide(birdRect, pipes[i].top) {
          return true;
        }
        i := i + 1;
      }
      if birdRect.Top() <= 0 || birdRect.Bottom() >= Height {
        return true;
      }
      return false;
    }

    method UpdateScore()
      modifies this`score
      ensures score == old(score) + Passing(pipes)
    {
      var i := 0;
      while i < |pipes|
        invariant 0 <= i <= |pipes|
        invariant score == old(score) + Passing(pipes[..i])
      {
        assert pipes[..i + 1][..i] == pipes[..i];
        if ScoreLeft <= pipes[i].bottom.x <= ScoreRight {
          score := score + 1;
        }
        i := i + 1;
      }
      assert pipes[..i] == pipes;
    }

    method ResetGame(now: int)
      requires Valid()
      modifies this
      ensures Valid() && State() == Reset(old(State()), now)
    {
      birdY := StartY as real;
      birdVelocity := 0.0;
      birdRect := birdRect.(y := StartY);
      pipes := [];
      score := 0;
      gameOver := false;
      gameStarted := false;
      lastPipe := now + FirstPipeDelay;
      ResetInv(old(State()), now);
    }

    /** The bird part of `update()`: gravity, integration and `bird_rect.y = int(bird_y)`. */
    method Fly()
      modifies this`birdVelocity, this`birdY, this`birdRect
      ensures State() == Fall(old(State()))
    {
      birdVelocity := birdVelocity + Gravity;
      birdY := birdY + birdVelocity;
      birdRect := birdRect.(y := Trunc(birdY));
    }

    /** The spawn rule of `update()`: a new pair at the tail when more than `PipeFrequency` ms passed. */
    method SpawnIfDue(now: int, pipeHeight: PipeHeight)
      modifies this`pipes, this`lastPipe
      ensures now - old(lastPipe) > PipeFrequency ==> pipes == old(pipes) + [CreatePipe(pipeHeight)] && lastPipe == now
      ensures now - old(lastPipe) <= PipeFrequency ==> pipes == old(pipes) && lastPipe == old(lastPipe)
    {
      if now - lastPipe > PipeFrequency {
        pipes := pipes + [CreatePipe(pipeHeight)];
        lastPipe := now;
      }
    }

    /** The scoring and collision part of `update()`: `update_score()`, then game over on a hit. */
    method Settle()
      modifies this`score, this`gameOver
      ensures State() == Judge(old(State()))
    {
      UpdateScore();
      var hit := CheckCollision();
      if hit {
        gameOver := true;
      }
    }

    /** `update()`: one frame of the game loop, which only a running game notices. */
    method Update(now: int, pipeHeight: PipeHeight)
      requires Valid()
      modifies this
      ensures Valid() && State() == Tick(old(State()), now, pipeHeight)
    {
      if !gameOver && gameStarted {
        ghost var s0 := State();
        Fly();
        MovePipes();
        SpawnIfDue(now, pipeHeight);
        assert State() == MoveAndSpawn(Fall(s0), now, pipeHeight);
        Settle();
      }
      TickInv(old(State()), now, pipeHeight);
    }

    method ControlBird(acceleration: real)
      requires Valid()
      modifies this
      ensures Valid() && State() == Control(old(State()), acceleration)
    {
      if !gameStarted {
        if Abs(acceleration) > StartTilt {
          gameStarted := true;
        }
      }
      if !gameOver && gameStarted {
        if acceleration > JumpTilt {
          birdVelocity := JumpStrength;
        }
      }
      ControlInv(old(State()), acceleration);
    }

    /** One message of the accelerometer connection, as `json.loads` left it. A `JSONDecodeError` is
        caught and the message skipped. Any other failure of `json.loads`, and a message whose reading
        cannot be extracted (not an object, a field `float` rejects or an integer too large for a
        double), raises out of the handler and ends the connection; `keepOpen` is then false and the
        game is untouched. */
    method HandleMessage(message: Loaded) returns (keepOpen: bool)
      requires Valid()
      modifies this
      ensures Valid()
      ensures keepOpen <==> message.DecodeError? || (message.Parsed? && Acceleration(message.value).Some?)
      ensures State() == if message.Parsed? && Acceleration(message.value).Some?
                         then Control(old(State()), Acceleration(message.value).value)
                         else old(State())
    {
      match message {
        case DecodeError =>
          return true;
        case LoadFailure =>
          return false;
        case Parsed(data) =>
          var acceleration := Acceleration(data);
          if acceleration.None? {
            return false;
          }
          ControlBird(acceleration.value);
          return true;
      }
    }

    /** The game loop's SPACE rule at clock `now`: reset only a game that is over. */
    method OnSpace(now: int)
      requires Valid()
      modifies this
      ensures Valid() && State() == Space(old(State()), now)
    {
      if gameOver {
        ResetGame(now);
      }
    }
  }
}
