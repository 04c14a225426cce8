# SensorStreamServer samples in Dafny

The SensorStreamServer sample programs receive sensor readings from a phone app. The readings arrive
as JSON text messages over WebSocket connections, one connection per sensor path. The model covers
four of these servers:

- **Chrome dino (light sensor).** A light-sensor stream drives a side-scrolling game. A change in
  illuminance (up or down) of more than 5 between two consecutive readings starts the game and makes the dino
  jump. Obstacles scroll in from the right. A collision ends the game and SPACE restarts it.
- **Flappy bird (accelerometer).** The z axis of the accelerometer drives the bird. A tilt above 1
  starts the game and a reading above 2 makes the bird jump. Pipe pairs scroll in. Touching a pipe
  or the screen edge ends the game, and SPACE restarts it.
- **Sound landscapes.** The server keeps the last 100 decoded messages of each of nine sensors. It
  asks for a plot whenever a history's length is a multiple of 50. Motion sensors (accelerometer,
  gyroscope, magnetometer) retune three sine-wave channels from the x, y and z readings.
- **Visualizations.** Each sensor connection keeps a rolling window of truthy decoded messages.
  From the 50th accepted (truthy) message on, every new accepted message plots the window, and the
  window is then cut back to its last 50 items. Messages that are not accepted change nothing.

## Layout

| File | What it holds |
|---|---|
| `seqs.dfy` (`Seqs`) | `Last(s, n)`, which is Python's `s[-n:]`, and lemmas about trimming after appending. |
| `json.dfy` (`Json`) | Decoded JSON values, Python truthiness, `float(data.get(key, 0))` and `abs`. |
| `geometry.dfy` (`Geometry`) | Integer rectangles, the `colliderect` overlap test, and `int()` on a float. |
| `routing.dfy` (`Routing`) | The path dispatch that `router` and `echo` both perform. |
| `dino.dfy` (`Dino`) | The dino game and its light-sensor handler and SPACE key. |
| `flappy.dfy` (`Flappy`) | The flappy game and its accelerometer handler and SPACE key. |
| `sound_landscapes.dfy` (`SoundLandscapes`) | The sound-landscape server. |
| `visualizations.dfy` (`Visualizations`) | The visualisation server's sensor connections. |

### How the two games are modelled

Each game is modelled twice. First, a game state is a value (`DinoState`, `BirdState`), and every
handler is a function on that value (`Control`, `Tick`, `Reset`, `Space`). Second, a class
(`DinoGame`, `FlappyBird`) has the same fields and updates them in place, as the Python methods do.
Each method's postcondition says that the new state equals the function applied to the old state.
An invariant `Inv` describes every reachable state and is proved to be preserved by every
operation. Lemmas then prove further properties of the functions, including properties of any
sequence of events: readings, frames and key presses in any interleaving.

Inputs from outside the program become parameters:

- the clock `pygame.time.get_ticks()` is `now`;
- `random.randint(100, 300)` for the pipe height is `pipeHeight`, of type `PipeHeight`;
- what `json.loads` makes of a text is `Loaded`: a value, the `JSONDecodeError` that every handler
  catches (`DecodeError`), or any other failure (`LoadFailure`), which no handler catches. Where a
  handler takes `Option<Value>` (`SoundLandscapes.Feed`, `Visualizations.ProcessSensorData`),
  `None` is a `JSONDecodeError`.

### Numbers

Python floats are modelled as reals, so rounding is not modelled. `int()` is `Trunc`, which
truncates toward zero.

### Decisions

- **Jumps follow the code.** The dino jumps on each reading whose change exceeds the threshold
  while it is on the ground. The jump is not edge-triggered. Obstacles are dropped once their
  right edge is at or left of 0.
- **The dino's spawn clock survives a reset.** `reset_game` leaves `last_obstacle` unchanged
  (`Dino.ResetFresh`). The flappy reset sets the clock to 2 s ahead (`Flappy.ResetFresh`).
- **Flappy counts each pipe three times.** `update_score` adds a point every frame in which a
  pair's x lies in 48..52. Pairs enter at x = 400 and move 2 px per frame. While the bird is alive
  and SPACE is not pressed, the pair spawned by a frame sits at x = 400 - 2k once k more frames
  have passed, whatever readings arrive in between (`Flappy.PairTravels`). So it is in that window
  on exactly three frames, k = 174, 175 and 176 (`Flappy.SpawnedPairScoresThrice`). The model keeps
  this behaviour.

## Model

| member | source | states |
|---|---|---|
| Json.Truthy | samples/visualizations/server.py:71 | Python truthiness of a decoded value: `None`, `False`, zero, `""`, `[]` and `{}` are false, everything else is true. |
| Json.ToFloat | samples/chrome_dino_lightsensor/server.py:153 | `float` accepts exactly floats, booleans and integers of magnitude below 2^1024 - 2^970; booleans give 1.0 and 0.0, and a larger integer raises `OverflowError`. |
| Json.GetFloat | samples/chrome_dino_lightsensor/server.py:153 | `float(data.get(key, 0))` succeeds exactly when the message is an object whose field, if present, converts. A missing field reads as 0. |
| Geometry.Collide | samples/chrome_dino_lightsensor/server.py:59 | `colliderect` as strict overlap of the two boxes on both axes. |
| Geometry.CollideIffSharedPixel | samples/chrome_dino_lightsensor/server.py:59 | For rectangles of positive size, `colliderect` holds exactly when the two share a pixel. |
| Geometry.Trunc | samples/chrome_dino_lightsensor/server.py:80 | `int()` on a float gives the integer nearest 0 that is within 1 of it. |
| Routing.Dispatch | samples/sound_landscapes/server.py:197-205 | Sensor handling happens exactly for the nine sensor paths, with sensor type `path[1:]`. Each media handler has its own path, and any other path gets no handler. The visualisation server's `echo` (`samples/visualizations/server.py:156-175`) dispatches the same way. |
| Dino.Initial | samples/chrome_dino_lightsensor/server.py:20-46 | The game `__init__` builds: a 40x60 dino at (50, 300) standing on the ground, at rest, no obstacles, the spawn clock at `now`, score 0, neither started nor over, and no light history. |
| Dino.CreateObstacle | samples/chrome_dino_lightsensor/server.py:48-50 | A new obstacle is 30x60, stands on the window's bottom edge and starts at the right edge. |
| Dino.Shifted | samples/chrome_dino_lightsensor/server.py:52-54 | Every obstacle moved the same distance to the left. |
| Dino.Moved | samples/chrome_dino_lightsensor/server.py:52-55 | `move_obstacles`: shift every obstacle 5 px left, then keep those whose right edge is > 0. |
| Dino.KeepVisible | samples/chrome_dino_lightsensor/server.py:55 | Every kept obstacle has its right edge > 0, and there are no more of them than before. |
| Dino.KeepVisibleMembers | samples/chrome_dino_lightsensor/server.py:55 | The kept obstacles are exactly the ones whose right edge is > 0. |
| Dino.KeepVisibleConcat | samples/chrome_dino_lightsensor/server.py:55 | The filter keeps the order: filtering a concatenation concatenates the filtered parts. |
| Dino.KeepVisibleAll | samples/chrome_dino_lightsensor/server.py:55 | When every obstacle is visible, the filter returns the same list. |
| Dino.KeepVisibleDropsPrefix | samples/chrome_dino_lightsensor/server.py:55 | For equal widths sorted by x, the filter drops only a prefix of the list. |
| Dino.MovedKeepsVisible | samples/chrome_dino_lightsensor/server.py:52-55 | A moved obstacle survives exactly when its right edge is still > 0, and every survivor is visible. |
| Dino.ShiftedValid | samples/chrome_dino_lightsensor/server.py:52-54 | Shifting keeps every obstacle well-formed, and the obstacles stay ordered by x. |
| Dino.MovedValid | samples/chrome_dino_lightsensor/server.py:52-55 | Moving keeps the obstacles well-formed and ordered, and all are left of the spawn edge. |
| Dino.MoveAndSpawnValid | samples/chrome_dino_lightsensor/server.py:87-91 | Appending a spawned obstacle after a move keeps the list ordered by x. |
| Dino.Collides | samples/chrome_dino_lightsensor/server.py:57-61 | `check_collision`: some obstacle overlaps the dino. |
| Dino.Control | samples/chrome_dino_lightsensor/server.py:120-136 | `control_dino`: append the reading and keep the newest 10. With two readings, a change above 5 starts the game, and a running game whose dino is on the ground jumps with velocity -15. |
| Dino.Fall | samples/chrome_dino_lightsensor/server.py:78-85 | The dino part of a frame: gravity 0.8, integration, truncation into the box, and the clamp onto the ground with velocity 0. |
| Dino.MoveAndSpawn | samples/chrome_dino_lightsensor/server.py:87-91 | The obstacle part of a frame: move, then spawn at the tail when more than 1500 ms have passed, restarting the spawn clock. |
| Dino.Judge | samples/chrome_dino_lightsensor/server.py:93-96 | The end of a frame: the score goes up by 1, and the game ends on an overlap. |
| Dino.Tick | samples/chrome_dino_lightsensor/server.py:76-96 | A frame does nothing unless the game runs. A running frame adds 1 to the score, keeps the dino at or above the ground, and ends the game exactly when the dino overlaps an obstacle. |
| Dino.Reset | samples/chrome_dino_lightsensor/server.py:66-74 | `reset_game`: the dino back at y 300 and at rest; obstacles, score and light history cleared; neither started nor over; the spawn clock kept. |
| Dino.Space | samples/chrome_dino_lightsensor/server.py:168-170 | The SPACE key resets only a game that is over. |
| Dino.Illuminance | samples/chrome_dino_lightsensor/server.py:153 | The reading of a message: `float(data.get('illuminance', 0))`, or none when that raises. |
| Dino.InitialInv | samples/chrome_dino_lightsensor/server.py:20-46 | The initial game satisfies the state invariant. |
| Dino.ControlInv | samples/chrome_dino_lightsensor/server.py:120-136 | A light reading preserves the invariant. |
| Dino.TickInv | samples/chrome_dino_lightsensor/server.py:76-96 | A frame preserves the invariant. |
| Dino.ResetInv | samples/chrome_dino_lightsensor/server.py:66-74 | A reset, and a SPACE press, preserve the invariant. |
| Dino.ControlHistory | samples/chrome_dino_lightsensor/server.py:121-123 | The light history holds the newest 10 readings, oldest first. |
| Dino.ControlFirstReading | samples/chrome_dino_lightsensor/server.py:125-126 | With fewer than two readings, only the history changes. |
| Dino.ControlStartAndJump | samples/chrome_dino_lightsensor/server.py:128-136 | The game starts exactly when the last change exceeds 5, and it stays started. The velocity becomes -15 when the game runs, the change exceeds 5 and the dino is on the ground; otherwise it is unchanged. Nothing else changes. |
| Dino.StartingReadingJumps | samples/chrome_dino_lightsensor/server.py:130-136 | The reading that starts the game also makes the dino jump. |
| Dino.TickPhysics | samples/chrome_dino_lightsensor/server.py:78-85 | Gravity, integration and truncation apply. Below the ground the dino is clamped onto it, with velocity 0 and `dino_y` snapped to the box. |
| Dino.TickObstacles | samples/chrome_dino_lightsensor/server.py:87-91 | The obstacles move. One spawns at the tail exactly when more than 1500 ms have passed since the last spawn. |
| Dino.ResetFresh | samples/chrome_dino_lightsensor/server.py:66-74 | A reset yields the initial game, with the spawn clock kept. A reset is idempotent. |
| Dino.LightScenario | samples/chrome_dino_lightsensor/server.py:120-136 | Readings 10 and 20 start the game and jump. A following 20.1 changes the level by at most the threshold, and from the same history with the dino at rest it leaves the velocity 0, so it causes no jump. |
| Dino.ApplyWithoutSpace | samples/chrome_dino_lightsensor/server.py:145-172 | A reading or frame keeps a started game started, never lowers the score, and appends readings to the history. |
| Dino.Apply | samples/chrome_dino_lightsensor/server.py:145-172 | One event: a reading is `Control`, a frame is `Tick`, and SPACE is `Space`. |
| Dino.Run | samples/chrome_dino_lightsensor/server.py:145-172 | A sequence of events applied in order. |
| Dino.RunInv | samples/chrome_dino_lightsensor/server.py:145-172 | Any interleaving of readings, frames and SPACE presses preserves the invariant. |
| Dino.RunWithoutSpace | samples/chrome_dino_lightsensor/server.py:145-172 | Without SPACE: the game stays started, the score never drops, and the history is the newest 10 of all readings. |
| Dino.FrozenWhileOver | samples/chrome_dino_lightsensor/server.py:76-77 | After game over, and until SPACE, only the light history changes. |
| Dino.DinoGame.constructor | samples/chrome_dino_lightsensor/server.py:20-46 | The new game is the initial state. |
| Dino.DinoGame.MoveObstacles | samples/chrome_dino_lightsensor/server.py:52-55 | The in-place loop computes the moved-and-filtered obstacle list. |
| Dino.DinoGame.CheckCollision | samples/chrome_dino_lightsensor/server.py:57-61 | The loop reports a hit exactly when some obstacle overlaps the dino. |
| Dino.DinoGame.UpdateScore | samples/chrome_dino_lightsensor/server.py:63-64 | The score goes up by 1. |
| Dino.DinoGame.ResetGame | samples/chrome_dino_lightsensor/server.py:66-74 | The new state is `Reset` of the old one. |
| Dino.DinoGame.Fly | samples/chrome_dino_lightsensor/server.py:78-85 | The new state is `Fall` of the old one. |
| Dino.DinoGame.SpawnIfDue | samples/chrome_dino_lightsensor/server.py:88-91 | The obstacle spawns at the tail, and the clock restarts, exactly when more than 1500 ms have passed. |
| Dino.DinoGame.Settle | samples/chrome_dino_lightsensor/server.py:93-96 | The new state is `Judge` of the old one. |
| Dino.DinoGame.Update | samples/chrome_dino_lightsensor/server.py:76-96 | The new state is `Tick` of the old one, and the invariant holds. |
| Dino.DinoGame.ControlDino | samples/chrome_dino_lightsensor/server.py:120-136 | The new state is `Control` of the old one with the reading, and the invariant holds. |
| Dino.DinoGame.HandleMessage | samples/chrome_dino_lightsensor/server.py:148-157 | A `JSONDecodeError` is skipped. A readable illuminance is applied. Any other `json.loads` failure, and any message whose illuminance `float` rejects (including an integer too large for a double), ends the connection and leaves the game untouched. |
| Dino.DinoGame.OnSpace | samples/chrome_dino_lightsensor/server.py:168-170 | SPACE resets the game exactly when it is over. |
| Flappy.Initial | samples/flappy_birds_accelerometer/server.py:20-43 | The game `__init__` builds: a 40x40 bird at (50, 300) at rest, no pipes, the spawn clock set 2 s ahead of `now` (so the first pair spawns more than 3.5 s after `now`), score 0, neither started nor over. |
| Flappy.CreatePipe | samples/flappy_birds_accelerometer/server.py:45-50 | The bottom pipe spans from the drawn height to the floor. The top pipe hangs from the ceiling with a 200 px gap. Both are 50 wide and start at the right edge. |
| Flappy.Shifted | samples/flappy_birds_accelerometer/server.py:52-55 | Both pipes of every pair moved the same distance to the left. |
| Flappy.Moved | samples/flappy_birds_accelerometer/server.py:52-56 | `move_pipes`: shift every pair 2 px left, then keep those whose bottom pipe's right edge is > 0. |
| Flappy.KeepVisible | samples/flappy_birds_accelerometer/server.py:56 | Every kept pair has its bottom pipe's right edge > 0, and there are no more pairs than before. |
| Flappy.KeepVisibleMembers | samples/flappy_birds_accelerometer/server.py:56 | The kept pairs are exactly the ones whose bottom pipe's right edge is > 0. |
| Flappy.KeepVisibleConcat | samples/flappy_birds_accelerometer/server.py:56 | The filter keeps the order. |
| Flappy.KeepVisibleAll | samples/flappy_birds_accelerometer/server.py:56 | When every pair is visible, the filter returns the same list. |
| Flappy.KeepVisibleDropsPrefix | samples/flappy_birds_accelerometer/server.py:56 | For pairs sorted by x, the filter drops only a prefix. |
| Flappy.MovedKeepsVisible | samples/flappy_birds_accelerometer/server.py:52-56 | A moved pair survives exactly when its bottom pipe's right edge is still > 0. |
| Flappy.ShiftedValid | samples/flappy_birds_accelerometer/server.py:52-55 | Shifting moves both pipes of a pair together and keeps the pairs well-formed and ordered. |
| Flappy.MovedValid | samples/flappy_birds_accelerometer/server.py:52-56 | Moving keeps the pairs well-formed and ordered, left of the spawn edge. |
| Flappy.MoveAndSpawnValid | samples/flappy_birds_accelerometer/server.py:88-92 | Appending a spawned pair after a move keeps the list ordered. |
| Flappy.Collision | samples/flappy_birds_accelerometer/server.py:58-64 | `check_collision`: either pipe of some pair overlaps the bird, or the bird touches the top or bottom edge. |
| Flappy.DegenerateTopPipe | samples/flappy_birds_accelerometer/server.py:58-64 | A top pipe of height <= 0 can only be hit by a bird that is already out of bounds, so for such a pair only the bottom pipe and the edges matter. |
| Flappy.Passing | samples/flappy_birds_accelerometer/server.py:66-69 | The number of pairs in the scoring window is at most the number of pairs, and 0 exactly when none is in the window. |
| Flappy.ScoringTicks | samples/flappy_birds_accelerometer/server.py:66-69 | A pair at x = 400 - 2k is in the scoring window exactly for k = 174, 175, 176. |
| Flappy.Slide | samples/flappy_birds_accelerometer/server.py:53-55 | One pair moved left by a distance: both pipes move by it, and its right edge moves by it. |
| Flappy.TickSlides | samples/flappy_birds_accelerometer/server.py:52-56 | A running frame moves every tracked pair 2 px left and keeps it while its right edge is > 0. |
| Flappy.OverPersists | samples/flappy_birds_accelerometer/server.py:81-82 | Without SPACE, a game that is over stays over under any readings and frames. |
| Flappy.ControlKeepsPipes | samples/flappy_birds_accelerometer/server.py:120-128 | A reading leaves the pipes alone and keeps a running game running. |
| Flappy.FirstEventSlides | samples/flappy_birds_accelerometer/server.py:81-128 | When the bird is alive after a run of events without SPACE, the first event keeps the game running; a tracked pair stays tracked, 2 px further left if the event is a frame. |
| Flappy.PairTravels | samples/flappy_birds_accelerometer/server.py:81-128 | While the bird is alive and SPACE is not pressed, a tracked pair is still tracked after any interleaving of readings and n frames, 2n px further left, as long as its right edge stays > 0. |
| Flappy.SpawnedPairScoresThrice | samples/flappy_birds_accelerometer/server.py:66-128 | The pair spawned by a frame is at x = 400 - 2k after k more frames with any readings in between, while the bird is alive and SPACE is not pressed, and it is in the scoring window exactly for k = 174, 175 and 176. |
| Flappy.Control | samples/flappy_birds_accelerometer/server.py:120-128 | `control_bird`: a tilt with magnitude above 1 starts the game, and a running game jumps with velocity -7 on a reading above 2. |
| Flappy.Fall | samples/flappy_birds_accelerometer/server.py:84-86 | The bird part of a frame: gravity 0.4, integration and truncation into the box. |
| Flappy.MoveAndSpawn | samples/flappy_birds_accelerometer/server.py:88-92 | The pipe part of a frame: move, then spawn a pair at the tail when more than 1500 ms have passed, restarting the spawn clock. |
| Flappy.Judge | samples/flappy_birds_accelerometer/server.py:94-97 | The end of a frame: the score grows by the pairs in the scoring window, and the game ends on a collision. |
| Flappy.Tick | samples/flappy_birds_accelerometer/server.py:81-97 | A frame does nothing unless the game runs. A running frame adds the scoring pairs to the score, and ends the game exactly on a pipe hit or an edge. |
| Flappy.Reset | samples/flappy_birds_accelerometer/server.py:71-79 | `reset_game`: the bird back at y 300 and at rest, pipes and score cleared, neither started nor over, and the spawn clock set 2 s ahead of `now` (so the first pair spawns more than 3.5 s after `now`). |
| Flappy.Space | samples/flappy_birds_accelerometer/server.py:161-163 | The SPACE key resets only a game that is over. |
| Flappy.Acceleration | samples/flappy_birds_accelerometer/server.py:146 | The reading of a message: `float(data.get('z', 0))`, or none when that raises. |
| Flappy.InitialInv | samples/flappy_birds_accelerometer/server.py:20-43 | The initial game satisfies the state invariant. |
| Flappy.ControlInv | samples/flappy_birds_accelerometer/server.py:120-128 | A reading preserves the invariant. |
| Flappy.TickInv | samples/flappy_birds_accelerometer/server.py:81-97 | A frame preserves the invariant. |
| Flappy.ResetInv | samples/flappy_birds_accelerometer/server.py:71-79 | A reset, and a SPACE press, preserve the invariant. |
| Flappy.ControlStartAndJump | samples/flappy_birds_accelerometer/server.py:120-128 | The game starts exactly on a tilt with magnitude above 1, and it stays started. The velocity becomes -7 exactly when the game runs and the reading is above 2. Nothing else changes. |
| Flappy.ControlScenarios | samples/flappy_birds_accelerometer/server.py:120-128 | From a fresh game, 1.5 starts it without a jump and -3 starts it too. In any state a reading <= 0 never jumps. |
| Flappy.TickPhysics | samples/flappy_birds_accelerometer/server.py:84-86 | The velocity gains 0.4, the height gains the new velocity, and the box follows the truncated height. |
| Flappy.TickPipes | samples/flappy_birds_accelerometer/server.py:88-92 | The pairs move. One spawns at the tail exactly when more than 1500 ms have passed since the last spawn. |
| Flappy.ResetFresh | samples/flappy_birds_accelerometer/server.py:71-79 | A reset yields the initial game built at the same `now`, spawn clock 2 s ahead. A reset is idempotent. |
| Flappy.FirstSpawn | samples/flappy_birds_accelerometer/server.py:34-92 | Once a fresh game is started, a tick at `now` spawns its first pair exactly when `now` is more than 3.5 s (2 s delay plus 1.5 s frequency) after the game was built. Before that the pipes stay empty. |
| Flappy.Apply | samples/flappy_birds_accelerometer/server.py:137-163 | One event: a reading is `Control`, a frame is `Tick`, and SPACE is `Space`. |
| Flappy.Run | samples/flappy_birds_accelerometer/server.py:137-163 | A sequence of events applied in order. |
| Flappy.Ticks | samples/flappy_birds_accelerometer/server.py:154-165 | Frames of the game loop with no other event in between. |
| Flappy.RunInv | samples/flappy_birds_accelerometer/server.py:137-163 | Any interleaving of readings, frames and SPACE presses preserves the invariant. |
| Flappy.RunWithoutSpace | samples/flappy_birds_accelerometer/server.py:137-163 | Without SPACE, the game stays started and the score never drops. |
| Flappy.OverStaysOver | samples/flappy_birds_accelerometer/server.py:81-82 | Frames do nothing after game over. |
| Flappy.VelocityWhileAlive | samples/flappy_birds_accelerometer/server.py:82-86 | While the bird survives n frames without readings, its velocity grows by exactly 0.4 n. |
| Flappy.FlappyBird.constructor | samples/flappy_birds_accelerometer/server.py:20-43 | The new game is the initial state. |
| Flappy.FlappyBird.MovePipes | samples/flappy_birds_accelerometer/server.py:52-56 | The in-place loop computes the moved-and-filtered list of pairs. |
| Flappy.FlappyBird.CheckCollision | samples/flappy_birds_accelerometer/server.py:58-64 | The loop and the edge test report a hit exactly as `Collision`: some pipe overlaps or the bird touches the top or bottom edge. |
| Flappy.FlappyBird.UpdateScore | samples/flappy_birds_accelerometer/server.py:66-69 | The score grows by the number of pairs in the scoring window. |
| Flappy.FlappyBird.ResetGame | samples/flappy_birds_accelerometer/server.py:71-79 | The new state is `Reset` of the old one. |
| Flappy.FlappyBird.Fly | samples/flappy_birds_accelerometer/server.py:84-86 | The new state is `Fall` of the old one. |
| Flappy.FlappyBird.SpawnIfDue | samples/flappy_birds_accelerometer/server.py:89-92 | A pair spawns at the tail, and the clock restarts, exactly when more than 1500 ms have passed. |
| Flappy.FlappyBird.Settle | samples/flappy_birds_accelerometer/server.py:94-97 | The new state is `Judge` of the old one. |
| Flappy.FlappyBird.Update | samples/flappy_birds_accelerometer/server.py:81-97 | The new state is `Tick` of the old one, and the invariant holds. |
| Flappy.FlappyBird.ControlBird | samples/flappy_birds_accelerometer/server.py:120-128 | The new state is `Control` of the old one. |
| Flappy.FlappyBird.HandleMessage | samples/flappy_birds_accelerometer/server.py:140-150 | A `JSONDecodeError` is skipped. A readable z is applied. Any other `json.loads` failure, and any message whose z `float` rejects (including an integer too large for a double), ends the connection and leaves the game untouched. |
| Flappy.FlappyBird.OnSpace | samples/flappy_birds_accelerometer/server.py:161-163 | SPACE resets the game exactly when it is over. |
| Seqs.Last | samples/sound_landscapes/server.py:89 | `s[-n:]` has length min(len(s), n) and is the tail of `s`. |
| SoundLandscapes.RouterReachesKnownSensors | samples/sound_landscapes/server.py:197-199 | Every sensor path the router accepts names a key of `sensor_data`. |
| SoundLandscapes.ToneOf | samples/sound_landscapes/server.py:51-59 | A tone exists exactly when all three axes convert. It has three frequencies and a non-negative volume. |
| SoundLandscapes.ToneDeterminesReading | samples/sound_landscapes/server.py:53-59 | Each axis can be recovered from its frequency. The volume is half the mean magnitude, and it is 0 exactly at rest. |
| SoundLandscapes.ToneOfEmptyMessage | samples/sound_landscapes/server.py:53-59 | Missing axes read as 0: 440, 660 and 880 Hz at volume 0. |
| SoundLandscapes.Store | samples/sound_landscapes/server.py:87-89 | Append, then trimming past 100, keeps the last 100 entries. |
| SoundLandscapes.Record | samples/sound_landscapes/server.py:87-89 | Only the message's own sensor history changes, and the keys stay the same. |
| SoundLandscapes.Feed | samples/sound_landscapes/server.py:81-102 | A stream of messages keeps the set of sensors. |
| SoundLandscapes.MessagesOf | samples/sound_landscapes/server.py:81-87 | The decoded messages of one sensor, in arrival order. |
| SoundLandscapes.FeedKeepsLastMessages | samples/sound_landscapes/server.py:81-102 | Over any interleaved stream, each sensor's history is the last 100 of its own decoded messages, in order. |
| SoundLandscapes.VisualiseSchedule | samples/sound_landscapes/server.py:98-99 | From an empty history, the n-th message plots exactly when n = 50 or n >= 100. |
| SoundLandscapes.SensorServer.constructor | samples/sound_landscapes/server.py:79 | Nine empty histories, and the 440/550/660 Hz tone at 0.3. |
| SoundLandscapes.SensorServer.UpdateSound | samples/sound_landscapes/server.py:51-68 | The channels retune when the message is readable and stay unchanged otherwise. |
| SoundLandscapes.SensorServer.HandleSensorData | samples/sound_landscapes/server.py:81-102 | The history is updated by `Record`. The tone changes only for motion sensors. A plot is requested exactly when the new length is a multiple of 50. A `JSONDecodeError` changes nothing. Any other `json.loads` failure changes nothing and ends the connection. |
| Visualizations.IsAccepted | samples/visualizations/server.py:70-71 | A message is accepted when it decodes to a truthy value. |
| Visualizations.Accepted | samples/visualizations/server.py:70-73 | The accepted messages are no more than the messages received. |
| Visualizations.AcceptedSnoc | samples/visualizations/server.py:70-73 | A new message is accepted at the end exactly when it decodes to a truthy value. |
| Visualizations.AcceptedMembers | samples/visualizations/server.py:70-73 | The accepted items are exactly the truthy decoded messages. |
| Visualizations.Step | samples/visualizations/server.py:70-84 | One message: an accepted one joins the window; with at least 50 items the window is plotted and cut back to its last 50. |
| Visualizations.StepKeepsWindow | samples/visualizations/server.py:70-84 | One message keeps the window equal to the last 50 accepted. A plot happens exactly once at least 50 are accepted, and it shows the last 51. |
| Visualizations.StepAt | samples/visualizations/server.py:70-84 | Handling message i against the last 50 earlier accepted messages plots what `PlotAfter` prescribes and leaves the last 50 accepted so far. |
| Visualizations.PlotAfter | samples/visualizations/server.py:79-84 | What the newest of the messages so far plots: the last 51 accepted, when it is accepted and at least 50 are accepted; otherwise nothing. |
| Visualizations.Plots | samples/visualizations/server.py:67-84 | What each message of a connection plots, in order, one entry per message. |
| Visualizations.PlotsAt | samples/visualizations/server.py:79-84 | What message j plots depends only on the first j + 1 messages. |
| Visualizations.ProcessSensorData | samples/visualizations/server.py:67-84 | At the end, the window is the last 50 accepted messages, and the plots are `Plots` of the messages. |
| Visualizations.PlotsSpec | samples/visualizations/server.py:79-84 | Message i plots exactly when it is accepted and at least 50 are accepted so far, and the plot is the last 51 of those. |
| Visualizations.PlotSizes | samples/visualizations/server.py:79-84 | The first plot shows exactly the first 50 accepted items, and every later plot shows 51. |

## Left out

- Drawing is not modelled: pygame windows, fonts, draw calls, `clock.tick(60)` and the
  `pygame.QUIT` exit. They only show the state.
- Networking, printing and concurrency are not modelled: sockets, `get_ip`, `websockets.serve`,
  `asyncio` scheduling and the console messages. Any interleaving of handler calls is covered by
  the event-sequence lemmas (`Dino.RunInv`, `Flappy.RunInv`, `SoundLandscapes.FeedKeepsLastMessages`).
- `json.loads` is not modelled. The model never says which texts decode, nor which texts raise
  `JSONDecodeError` and which raise another error.
- SoundLandscapes.Feed: takes the messages a connection handles. A `json.loads` failure other than
  `JSONDecodeError` ends that connection (`SoundLandscapes.SensorServer.HandleSensorData`), so no
  message of it follows the failure.
- Visualizations.ProcessSensorData: takes the messages received before any `json.loads` failure
  other than `JSONDecodeError`. `parse_sensor_data` does not catch such a failure, so it ends the
  connection, and later messages are never processed.
- Json.ToFloat: treats strings as not convertible, although Python's `float("3.5")` accepts
  numeric strings. This is because string-to-number parsing is not modelled. An integer it accepts
  converts exactly, without rounding to a double.
- Geometry.Collide: is the plain strict-overlap formula. pygame's handling of rectangles with zero
  or negative size is assumed to agree with it. `Flappy.DegenerateTopPipe` shows it matters only
  for a bird already out of bounds.
- Floating-point rounding is not modelled. Python floats are reals, so for example 0.4 added n
  times is exactly 0.4 n.
- Non-finite floats are not modelled. `json.loads` accepts `NaN`, `Infinity` and `-Infinity`, and a
  real cannot hold them. In the source a `NaN` reading never counts as a change or a tilt
  (`abs(nan - x) > 5.0` is false). An infinite light reading after a finite one is a change above
  every threshold, so it starts the dino game, and an infinite z reading starts the flappy game.
- Writing to disk is not modelled: `<sensor>.txt` appends, saved PNG files, and the plotting in
  `generate_visualization` and `plot_sensor_data`.
- SoundLandscapes.SensorServer.HandleSensorData: assumes `generate_visualization` returns
  normally. An exception there (for example, a history entry that is not an object) would end the
  connection.
- Visualizations.ProcessSensorData: assumes plotting succeeds. A window without a `Timestamp`
  column would raise in `plot_sensor_data` and end the connection.
- SoundLandscapes.SensorServer.UpdateSound: models the tone only as frequencies and volume. The
  sine-wave samples of `create_sine_wave`, the channel fades and `stop` are not modelled.
- The camera, audio and pro-audio handlers of both media servers are not modelled
  (`process_image`, `process_audio`, `process_3gp_audio`, `handle_camera`, `handle_audio`,
  `handle_pro_audio`). They decode and render media; `Routing.Dispatch` only says which path
  reaches them.
- The pipe height from `random.randint(100, 300)` is a parameter restricted to that range. The
  model does not say which value is drawn.
