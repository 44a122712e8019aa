/** The game object: its fields, updated in place by the per-frame scan of
    the target list and by each iteration of the main loop, with the camera,
    the clocks, the random draws and the keyboard turned into inputs. */
module Game {

  import opened CppArith
  import opened Geometry
  import opened Timing
  import opened Targets
  import opened Session

  class BlueToolGame {
    var score: int
    var gameDuration: int
    var redBalls: seq<Point>
    var lastRedBallUpdateTime: int
    var sniperPosition: Point

    ghost predicate Valid()
      reads this
    {
      score >= 0 && gameDuration == GameDuration
    }

    /** A fresh game; `now` is the wall-clock reading taken at construction. */
    constructor (now: int)
      ensures Valid()
      ensures score == 0 && gameDuration == GameDuration
      ensures sniperPosition == InitialSniperPosition && redBalls == []
      ensures lastRedBallUpdateTime == now
    {
      score := 0;
      gameDuration := GameDuration;
      redBalls := [];
      lastRedBallUpdateTime := now;
      sniperPosition := InitialSniperPosition;
    }

    /** The game's changing fields as one value. */
    function Snapshot(): State
      reads this
    {
      State(score, redBalls, lastRedBallUpdateTime, sniperPosition)
    }

    /** The score reported at the end of the game; never negative. */
    function GetScore(): (r: int)
      reads this
      ensures r == Snapshot().score
      ensures Valid() ==> r >= 0
    {
      score
    }

    /** Appends one target at a random position of a `cols` x `rows` frame. */
    method GenerateRandomRedBall(cols: int, rows: int, drawX: nat, drawY: nat)
      requires cols > 0 && rows > 0
      modifies this`redBalls
      ensures redBalls == old(redBalls) + [SpawnPoint(cols, rows, drawX, drawY)]
    {
      var maxX, maxY := cols, rows;
      var randomX := drawX % maxX;
      var randomY := drawY % maxY;
      redBalls := redBalls + [Point(randomX, randomY)];
    }

    /** Erases, in place, every target the crosshair hits, adding one to
        `score` for each, then spawns a target if three seconds have passed
        since the last spawn. The hit test is the integer form of "truncated
        distance at most 20" (see `Geometry.Hit`). */
    method UpdateRedBalls(cols: int, rows: int, score: int, now: int, drawX: nat, drawY: nat)
      returns (newScore: int)
      requires cols > 0 && rows > 0
      modifies this`redBalls, this`lastRedBallUpdateTime
      ensures newScore == score + HitCount(sniperPosition, old(redBalls))
      ensures newScore == score + (|old(redBalls)| - |Survivors(sniperPosition, old(redBalls))|)
      ensures sniperPosition == old(sniperPosition) && this.score == old(this.score)
      ensures SpawnDue(now, old(lastRedBallUpdateTime)) ==>
                redBalls == Survivors(sniperPosition, old(redBalls))
                            + [SpawnPoint(cols, rows, drawX, drawY)]
                && lastRedBallUpdateTime == now
      ensures !SpawnDue(now, old(lastRedBallUpdateTime)) ==>
                redBalls == Survivors(sniperPosition, old(redBalls))
                && lastRedBallUpdateTime == old(lastRedBallUpdateTime)
    {
      ghost var original := redBalls;
      ghost var k := 0;
      var i := 0;
      newScore := score;
      while i < |redBalls|
        invariant 0 <= i <= |redBalls| && 0 <= k <= |original|
        invariant redBalls[..i] == Survivors(sniperPosition, original[..k])
        invariant redBalls[i..] == original[k..]
        invariant newScore == score + HitCount(sniperPosition, original[..k])
        invariant lastRedBallUpdateTime == old(lastRedBallUpdateTime)
        decreases |redBalls| - i
      {
        var redBallCenter := redBalls[i];
        assert redBallCenter == original[k];
        assert original[..k + 1] == original[..k] + [original[k]];
        SurvivorsSnoc(sniperPosition, original[..k], original[k]);
        if Hit(sniperPosition, redBallCenter) {
          redBalls := redBalls[..i] + redBalls[i + 1..];
          newScore := newScore + 1;
        } else {
          assert redBalls[..i + 1] == redBalls[..i] + [redBallCenter];
          i := i + 1;
        }
        k := k + 1;
      }
      assert |original[k..]| == 0;
      assert original[..k] == original;
      assert redBalls == redBalls[..i] == Survivors(sniperPosition, original);
      SurvivorsPlusHits(sniperPosition, original);

      var currentTime := now;
      if SpawnDue(currentTime, lastRedBallUpdateTime) {
        GenerateRandomRedBall(cols, rows, drawX, drawY);
        lastRedBallUpdateTime := currentTime;
      }
    }

    /** One iteration of the main loop. It stops at once, changing nothing,
        when the frame is empty or the countdown has reached zero; otherwise it
        moves the crosshair to the detection, scans the targets, and stops only
        if the polled key is 'q'. The countdown test at the end of the
        iteration repeats the earlier one, so it never fires: time can only
        run out before any detection or scoring. */
    method Step(input: FrameInput) returns (status: Status)
      requires Valid() && WellFormed(input.frame)
      modifies this`score, this`redBalls, this`lastRedBallUpdateTime, this`sniperPosition
      ensures Valid()
      ensures Snapshot() == NextState(old(Snapshot()), input)
      ensures status == StepStatus(input)
    {
      if input.frame.Empty? {
        return Over(FrameEmpty);
      }

      var remainingTime := gameDuration - TruncDiv(input.elapsedMs, MillisPerSecond);
      if remainingTime <= 0 {
        return Over(TimeUp);
      }

      var blueToolPosition := input.detected;
      if blueToolPosition.x != -1 && blueToolPosition.y != -1 {
        sniperPosition := blueToolPosition;
      }

      score := UpdateRedBalls(input.frame.cols, input.frame.rows, score,
                              input.now, input.drawX, input.drawY);

      if input.key == QuitKey || remainingTime <= 0 {
        return Over(if input.key == QuitKey then Quit else TimeUp);
      }
      status := Running;
    }

    /** The main loop over a finite run of inputs, one per captured frame. It
        stops at the first iteration that does not continue; if the inputs run
        out first, the game is still running. The state it leaves is that of
        `Play` over the iterations it ran. */
    method Run(inputs: seq<FrameInput>) returns (frames: nat, status: Status)
      requires Valid() && AllWellFormed(inputs)
      modifies this`score, this`redBalls, this`lastRedBallUpdateTime, this`sniperPosition
      ensures Valid()
      ensures frames <= |inputs|
      ensures Snapshot() == Play(old(Snapshot()), inputs[..frames])
      ensures forall j :: 0 <= j < frames - 1 ==> Continues(inputs[j])
      ensures status == Running <==> forall j :: 0 <= j < frames ==> Continues(inputs[j])
      ensures status == Running ==> frames == |inputs|
      ensures status.Over? ==> frames >= 1 && status == StepStatus(inputs[frames - 1])
    {
      ghost var start := Snapshot();
      frames, status := 0, Running;
      while frames < |inputs| && status == Running
        invariant Valid()
        invariant frames <= |inputs|
        invariant Snapshot() == Play(start, inputs[..frames])
        invariant forall j :: 0 <= j < frames - 1 ==> Continues(inputs[j])
        invariant status == Running <==> forall j :: 0 <= j < frames ==> Continues(inputs[j])
        invariant status.Over? ==> frames >= 1 && status == StepStatus(inputs[frames - 1])
      {
        assert inputs[..frames + 1][..frames] == inputs[..frames];
        status := Step(inputs[frames]);
        frames := frames + 1;
      }
    }
  }
}
