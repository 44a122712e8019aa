/** The game session as values: what one iteration of the main loop reads
    from outside, what it decides, and the state it leaves behind. The class
    `Game.BlueToolGame` changes its fields in place and is proved to follow
    `NextState` and, over a run of frames, `Play`. */
module Session {

  import opened Geometry
  import opened Timing
  import opened Targets

  /** One captured camera frame: nothing (the capture failed), or an image
      with the given width (`cols`) and height (`rows`). */
  datatype Frame = Empty | Image(cols: int, rows: int)

  /** A captured image is never zero-sized. */
  predicate WellFormed(f: Frame)
  {
    f.Image? ==> f.cols > 0 && f.rows > 0
  }

  /** Why the main loop stopped. */
  datatype Exit = FrameEmpty | TimeUp | Quit

  datatype Status = Running | Over(reason: Exit)

  /** Everything one iteration of the main loop takes from outside: the frame,
      the session clock (milliseconds since the loop started), the detected
      tool position, the wall clock read by the spawn check, the two random
      draws of a spawn and the key polled at the end of the iteration. */
  datatype FrameInput = FrameInput(
    frame: Frame,
    elapsedMs: int,
    detected: Point,
    now: int,
    drawX: nat,
    drawY: nat,
    key: int)

  predicate AllWellFormed(inputs: seq<FrameInput>)
  {
    forall j :: 0 <= j < |inputs| ==> WellFormed(inputs[j].frame)
  }

  const QuitKey: int := 'q' as int

  /** Where the crosshair starts, the centre of a 640x480 frame. */
  const InitialSniperPosition: Point := Point(320, 240)

  /** The fields of the game that change while it runs. */
  datatype State = State(
    score: int,
    redBalls: seq<Point>,
    lastRedBallUpdateTime: int,
    sniperPosition: Point)

  /** The crosshair after a detection: the detected point, unless either of
      its coordinates is the "not found" value -1. */
  function NextCrosshair(current: Point, detected: Point): (next: Point)
    ensures detected.x != -1 && detected.y != -1 ==> next == detected
    ensures detected.x == -1 || detected.y == -1 ==> next == current
  {
    if detected.x != -1 && detected.y != -1 then detected else current
  }

  /** An iteration that gets past the frame and countdown checks, and so
      detects, moves the crosshair and scans the targets. */
  predicate Processes(input: FrameInput)
    ensures Processes(input) <==>
              input.frame.Image? && input.elapsedMs < GameDuration * MillisPerSecond
  {
    TimeUpIff(input.elapsedMs);
    input.frame.Image? && RemainingTime(GameDuration, input.elapsedMs) > 0
  }

  /** An iteration that reaches the end of the loop body without leaving it:
      a frame was captured, less than 30 s have elapsed, and the key is not 'q'. */
  predicate Continues(input: FrameInput)
    ensures Continues(input) <==>
              input.frame.Image? && input.elapsedMs < GameDuration * MillisPerSecond
              && input.key != QuitKey
  {
    Processes(input) && input.key != QuitKey
  }

  /** What one iteration decides: stop on an empty frame, stop when the
      countdown has run out, stop after the scan on key 'q', else go on. */
  function StepStatus(input: FrameInput): (status: Status)
    ensures status == Running <==> Continues(input)
    ensures status == Over(FrameEmpty) <==> input.frame.Empty?
    ensures status == Over(TimeUp) <==>
              input.frame.Image? && input.elapsedMs >= GameDuration * MillisPerSecond
    ensures status == Over(Quit) <==> Processes(input) && input.key == QuitKey
  {
    if input.frame.Empty? then Over(FrameEmpty)
    else if RemainingTime(GameDuration, input.elapsedMs) <= 0 then Over(TimeUp)
    else if input.key == QuitKey then Over(Quit)
    else Running
  }

  /** The state after one iteration. An iteration stopped by the frame or the
      countdown changes nothing; otherwise the crosshair follows the
      detection, the targets it hits are removed and scored, and a target is
      spawned if three seconds have passed since the last one. Every target
      is accounted for: the points gained plus the targets left equal the
      targets before plus the one spawned, if any. */
  function NextState(s: State, input: FrameInput): (t: State)
    requires WellFormed(input.frame)
    ensures !Processes(input) ==> t == s
    ensures t.score >= s.score
    ensures t.score - s.score + |t.redBalls|
         == |s.redBalls| + (if t.lastRedBallUpdateTime != s.lastRedBallUpdateTime then 1 else 0)
  {
    if !Processes(input) then s
    else
      var c := NextCrosshair(s.sniperPosition, input.detected);
      var score := s.score + HitCount(c, s.redBalls);
      var kept := Survivors(c, s.redBalls);
      SurvivorsPlusHits(c, s.redBalls);
      if SpawnDue(input.now, s.lastRedBallUpdateTime) then
        State(score, kept + [SpawnPoint(input.frame.cols, input.frame.rows, input.drawX, input.drawY)],
              input.now, c)
      else
        State(score, kept, s.lastRedBallUpdateTime, c)
  }

  /** The state after the iterations `inputs`, one after the other. */
  function Play(s: State, inputs: seq<FrameInput>): State
    requires AllWellFormed(inputs)
  {
    if inputs == [] then s
    else
      var n := |inputs| - 1;
      assert AllWellFormed(inputs[..n]) by {
        forall j | 0 <= j < n ensures WellFormed(inputs[..n][j].frame) {
          assert inputs[..n][j] == inputs[j];
        }
      }
      NextState(Play(s, inputs[..n]), inputs[n])
  }

  /** The targets the crosshair hits in one iteration (none if the iteration
      stops before the scan). */
  function FrameHits(s: State, input: FrameInput): nat
  {
    if Processes(input) then HitCount(NextCrosshair(s.sniperPosition, input.detected), s.redBalls)
    else 0
  }

  /** The targets removed over the iterations `inputs`. */
  function Removals(s: State, inputs: seq<FrameInput>): nat
    requires AllWellFormed(inputs)
  {
    if inputs == [] then 0
    else
      var n := |inputs| - 1;
      Removals(s, inputs[..n]) + FrameHits(Play(s, inputs[..n]), inputs[n])
  }

  /** The targets spawned over the iterations `inputs`. */
  function Spawns(s: State, inputs: seq<FrameInput>): nat
    requires AllWellFormed(inputs)
  {
    if inputs == [] then 0
    else
      var n := |inputs| - 1;
      Spawns(s, inputs[..n])
      + (if Play(s, inputs).lastRedBallUpdateTime != Play(s, inputs[..n]).lastRedBallUpdateTime
         then 1 else 0)
  }

  /** The score at the end is the score at the start plus the number of
      targets removed in all iterations. */
  lemma {:induction false} PlayScore(s: State, inputs: seq<FrameInput>)
    requires AllWellFormed(inputs)
    ensures Play(s, inputs).score == s.score + Removals(s, inputs)
    ensures Play(s, inputs).score >= s.score
  {
    if inputs != [] {
      PlayScore(s, inputs[..|inputs| - 1]);
    }
  }

  /** Over a whole run, the points gained plus the targets still on screen
      equal the targets there at the start plus those spawned. */
  lemma {:induction false} PlayConservation(s: State, inputs: seq<FrameInput>)
    requires AllWellFormed(inputs)
    ensures Play(s, inputs).score - s.score + |Play(s, inputs).redBalls|
         == |s.redBalls| + Spawns(s, inputs)
  {
    if inputs != [] {
      PlayConservation(s, inputs[..|inputs| - 1]);
    }
  }
}
