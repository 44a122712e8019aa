# Blue tool game: a Dafny model of the per-frame game state

The program is a webcam target-practice game. A blue object is tracked by
colour and steers a crosshair. Red targets appear at random places every
three seconds. A target is destroyed, for one point, when the crosshair
comes within 20 pixels of it. A session lasts 30 seconds.

This project models the game's own logic, the class `BlueToolGame` in
`main.cpp`, and proves what each part does:

- `Geometry`: pixel points, the hit test and the crosshair's arm endpoints.
  The source computes `int distance = cv::norm(sniper - target)`, which
  truncates the Euclidean norm, and removes the target when `distance <= 20`.
  The model states the hit test over integers: the squared distance is
  below 441. `FloorSqrt` is the truncated square root, and
  `TruncatedNormWithinRadiusIff` proves that the two tests agree, and `Hit`
  carries that equivalence in its contract. Both hold for the model's
  unbounded integers. They match the C++ test as long as the coordinate
  differences and the norm fit in an `int`, which holds for any two points
  on screen. For a crosshair about 2^31 pixels away the C++ `int` arithmetic
  overflows; see `Geometry.Hit` under "## Left out". The square root is
  taken as exact: for squared distances of pixel differences, a correctly
  rounded `sqrt` never rounds up past the next integer.
- `CppArith`: C++ integer division truncates towards zero; Dafny's is
  Euclidean. `TruncDiv` is the C++ one. It is used for
  `static_cast<int>(elapsed)` and for `size / 2`.
- `Timing`: the countdown `remainingTime = gameDuration - trunc(elapsed)`
  and the three-second spawn cadence. Clock readings are integer
  milliseconds.
- `Targets`: the target list as values. `Survivors` and `HitCount` give the
  result of the removal scan. The lemmas say which targets survive and in
  what order. They also say how many are hit. `SpawnPoint` is where a new
  target appears.
- `Session`: one iteration of the main loop as values. `State` holds the
  four fields that change while the game runs. `StepStatus` says whether an
  iteration stops and why, and `NextState` gives the state it leaves.
  `Play` folds `NextState` over a run of frames. Lemmas about `Play` give
  the final score: the start score plus every target removed in every
  frame.
- `Game`: the class `BlueToolGame` with the source's fields. Its methods
  change them in place: `GenerateRandomRedBall`, `UpdateRedBalls` (the
  erase-while-iterating loop, proved against `Survivors`/`HitCount`), and
  `Step`, one iteration of the `while (true)` loop of `run`, proved to
  follow `NextState`. `Run` drives `Step` over a finite sequence of
  per-frame inputs and is proved to leave the state `Play` gives.

The outside world enters as parameters. Each iteration receives a
`FrameInput`: the captured frame (empty, or an image of given width and
height), the session clock, the detected tool position, the wall clock
read by the spawn check, the two `std::rand()` draws and the polled key.
The session clock and the wall clock are two different clocks in the
source (`high_resolution_clock` and `system_clock`), so they are two
inputs. The constructor takes the wall-clock reading it stores.

Two points of the code's behaviour are easy to misread; the model follows
the code:

- The crosshair starts at the fixed point (320, 240) (main.cpp:14),
  whatever frame size the camera delivers, and stays there until a tool
  is detected.
- When the countdown reaches zero the loop leaves at once (main.cpp:33-36),
  before detection, scoring and display. The comment at main.cpp:54 says
  the end-of-iteration test is also meant to exit "when the time runs
  out", but its `remainingTime <= 0` can never be true there, because the
  earlier test already left the loop; `Step`'s contract proves this.

## Model

| member | source | states |
|---|---|---|
| `Geometry.FloorSqrt` | main.cpp:119 | the conversion of the norm to `int`: the result `r` satisfies `r*r <= n < (r+1)*(r+1)` |
| `Geometry.TruncatedNorm` | main.cpp:119 | `int distance = cv::norm(sniperPosition - redBallCenter)`: the result `r` is the norm with the fraction cut off, `r*r <= dx*dx + dy*dy < (r+1)*(r+1)` |
| `Geometry.TruncatedNormWithinRadiusIff` | main.cpp:119-121 | the truncated square root of a squared distance is at most 20 exactly when the squared distance is below 441 |
| `Geometry.Hit` | main.cpp:119-121 | the hit test, computed as squared distance below 441, holds exactly when the truncated norm `distance` is at most 20 |
| `Geometry.CrossArms` | main.cpp:109-112 | the horizontal arm keeps the center's y, the vertical one its x; both are centered on `center` and equally long; each is `size` long or one pixel shorter (C++ `size / 2`) |
| `Geometry.CrossArmsOfGameSize` | main.cpp:109-112 | with the size 20 passed at line 47, the arms run from `center - 10` to `center + 10` on each axis |
| `CppArith.TruncDiv` | main.cpp:110 | C++ integer division by a positive divisor: `|q|*b <= |a| < (|q|+1)*b`, and `q` has the sign of `a` |
| `Timing.RemainingTime` | main.cpp:31 | for a non-negative elapsed time, `duration - r` is the number of whole seconds elapsed; the countdown never exceeds the duration once time has started |
| `Timing.TimeUpIff` | main.cpp:31-36 | the session is over exactly when at least 30 000 ms have elapsed; a negative clock difference never ends it |
| `Timing.RemainingTimeNonIncreasing` | main.cpp:28-31 | the countdown never goes up as the elapsed time grows, negative clock differences included |
| `Timing.SpawnDue` | main.cpp:130-133 | a target is due exactly when the time since the last spawn, in seconds with the fraction cut off, is at least 3, which is `elapsed.count() >= 3.0` at millisecond resolution |
| `Targets.Survivors` | main.cpp:117-127 | the removal scan never lengthens the list |
| `Targets.HitCount` | main.cpp:121-123 | the points scored by one scan are at most the number of targets, and zero exactly when no target is within range |
| `Targets.SurvivorsSnoc` | main.cpp:117-127 | the step lemma of the erase loop's proof: one more target at the end is either kept (not hit) or counted as a hit (hit), never both |
| `Targets.SurvivorsPlusHits` | main.cpp:121-123 | kept targets plus hit targets is the original number of targets, so the score grows by exactly the number removed |
| `Targets.SurvivorsMultiset` | main.cpp:117-127 | every target the crosshair misses is kept, with its coordinates and multiplicity, and every target it hits is removed |
| `Targets.SurvivorsMembership` | main.cpp:117-127 | a point is in the new list if and only if it was in the old one and is not hit |
| `Targets.SurvivorsConcat` | main.cpp:117-127 | the scan distributes over concatenation, so relative order is preserved |
| `Targets.KeptIndices` | main.cpp:117-127 | the kept positions are strictly increasing, in range, and a position is kept if and only if its target is not hit |
| `Targets.SurvivorsAtKeptIndices` | main.cpp:117-127 | the new list is exactly the targets at the kept positions, in order |
| `Targets.SurvivorsIdempotent` | main.cpp:117-127 | a second scan with the same crosshair removes nothing more |
| `Targets.SpawnPoint` | main.cpp:143-147 | a spawned target lies inside the frame: `0 <= x < cols` and `0 <= y < rows` |
| `Targets.SpawnPointCoversFrame` | main.cpp:145-147 | every pixel of the frame is a possible spawn position |
| `Session.NextCrosshair` | main.cpp:42-44 | the crosshair takes the detected point when neither coordinate is -1, and stays put when either is -1 |
| `Session.Processes` | main.cpp:23-36 | an iteration gets to detection and scoring exactly when a frame was captured and less than 30 000 ms have elapsed |
| `Session.Continues` | main.cpp:23-57 | an iteration runs to the end of the loop body exactly when a frame was captured, less than 30 000 ms have elapsed and the key is not 'q' |
| `Session.StepStatus` | main.cpp:23-57 | an iteration stops for an empty frame exactly when the frame is empty, for time exactly when 30 000 ms have elapsed, for the key exactly when it was processed and the key is 'q', and goes on exactly when `Continues` holds |
| `Session.NextState` | main.cpp:39-50 | an iteration that stops early changes nothing; the score never decreases; points gained plus targets left equal targets before plus the one spawned, if any |
| `Session.PlayScore` | main.cpp:20-58 | after any run of iterations the score is the start score plus the number of targets removed across all frames |
| `Session.PlayConservation` | main.cpp:115-150 | after any run of iterations, points gained plus targets on screen equal the targets at the start plus all targets spawned |
| `Game.BlueToolGame.GetScore` | main.cpp:64-66 | the reported score is the score field, never negative in a valid game |
| `Game.BlueToolGame.constructor` | main.cpp:10-15 | a fresh game has score 0, a 30 s duration, the crosshair at (320, 240), no targets, and the spawn timestamp set to the construction time |
| `Game.BlueToolGame.GenerateRandomRedBall` | main.cpp:141-151 | exactly one target, at `SpawnPoint`, is appended; all earlier targets stay as they were |
| `Game.BlueToolGame.UpdateRedBalls` | main.cpp:115-139 | the list becomes `Survivors` of the old list, in order, followed by one spawned target exactly when at least 3 s have passed since the last spawn, and then the timestamp becomes `now`, else it is unchanged; the returned score is the input score plus the number removed; the crosshair and the score field are untouched |
| `Game.BlueToolGame.Step` | main.cpp:20-58 | the fields after one iteration are `NextState` of the fields before, and the iteration's decision is `StepStatus`; so the second countdown test at line 55 never fires |
| `Game.BlueToolGame.Run` | main.cpp:17-63 | the loop stops at the first iteration that does not continue, with that iteration's `StepStatus`, or runs through all inputs; the final fields are `Play` of the starting fields over the iterations run |

## Left out

- Camera opening and frame capture (`initializeCamera`, `cap >> frame`, `exit(-1)`): device I/O. A failed capture is the `Empty` frame input, which ends the loop.
- `initializeBackground`: it loads and resizes an image that is never used.
- `detectBlueTool`: HSV conversion, `inRange` and image moments are calls into OpenCV, followed by a division by a zeroth moment that may be zero. Its result enters `Step` as an arbitrary point.
- Drawing and display (`cv::line`, `cv::circle`, `cv::putText`, `cv::imshow`, `cv::destroyAllWindows`, `cap.release`) and the key poll `cv::waitKey`: rendering and UI calls. Only the crosshair's endpoint arithmetic is kept (`CrossArms`); the key is an input.
- `std::rand()` and the `std::chrono` clocks: nondeterministic or wall-clock values. They are parameters, and time is in integer milliseconds rather than `double` seconds. Sub-millisecond resolution is not modelled.
- The final `std::cout` report in `main`: output only. `getScore` is the field read `GetScore`.
- Game.BlueToolGame.UpdateRedBalls: the score is an unbounded integer; the C++ `int` would wrap after 2^31 - 1 points, which a 30 s session cannot reach.
- Geometry.Hit: point coordinates, their differences and `distance` are unbounded integers. In C++ the subtraction `sniperPosition - redBallCenter` and the conversion of the norm to `int distance` are undefined once the crosshair is about 2^31 pixels from a target. That is where the crosshair goes when `detectBlueTool` divides by a zero moment. On x86 the conversion gives INT_MIN, which passes `distance <= 20`, so the source would remove and score the target. The model takes the mathematical value there, so `Hit` is false.
- Geometry.FloorSqrt: the square root is exact, not IEEE `double`. For integer inputs far below 2^52 the rounded `sqrt` truncates to the same integer.
- Game.BlueToolGame.Run: the source loop is `while (true)` over an unbounded stream of frames. The model runs over a finite sequence of inputs and reports `Running` if the inputs end first.
