/**
 * The locomotion state of the scene as a value, and the effect of each of the
 * scene's operations on it: the direction events, the reset, the frame clock and
 * the playback/heading step of rendering. The class in scene_model.dfy is
 * specified by these functions.
 */
module Locomotion {
  import opened Animation

  /** The direction tag runDir ("rest", "forward", "left", "right"). */
  datatype Direction = Rest | Forward | Left | Right

  /** The four motion cycles loaded when the scene is built. */
  datatype Library = Library(rest: Cycle, run: Cycle, veerLeft: Cycle, veerRight: Cycle)
  {
    predicate Loaded()
    {
      WellFormed(rest) && WellFormed(run) && WellFormed(veerLeft) && WellFormed(veerRight)
    }

    /** The cycle a direction event switches to. */
    function CycleFor(d: Direction): (c: Cycle)
      ensures Loaded() ==> WellFormed(c)
    {
      match d
      case Rest => rest
      case Forward => run
      case Left => veerLeft
      case Right => veerRight
    }
  }

  /** The value of an unsigned long initialised with -1. */
  const ULongMax: nat := 0xFFFF_FFFF_FFFF_FFFF

  /** Width of the blend window opened by a direction event, in ticks. */
  const BlendWindow: nat := 13

  /** Default turning window of the animation frames: [24, 33). */
  const TurnStart: int := 24
  const TurnEnd: int := 33

  const ForwardSpeed: Vec3 := Vec3(0.0, -0.2, 0.0)
  /** Field defaults that the constructor's reset or the first render overrides. */
  const DefaultSpeed: Vec3 := Vec3(0.0, -0.5, 0.0)
  const DefaultTotalRotation: real := -90.0

  /** The total turn of one turning window for a direction tag. */
  function TotalRotationFor(d: Direction): real
  {
    if d == Right then 90.0 else if d == Left then -90.0 else 0.0
  }

  /** Subtraction of two unsigned longs: wraps below zero. */
  function ULongSub(a: nat, b: nat): nat
  {
    if b <= a then a - b else (a - b) % (ULongMax + 1)
  }

  /** What a render shows: a frame of the transition buffer, or a frame of the current cycle. */
  datatype Display = FromBlend(index: int) | FromCycle(frame: nat)

  /**
   * The frame a render shows: inside [blendingStartFrame, blendingEndFrame) the
   * transition buffer at frameNumber - blendingStartFrame - 1, otherwise the
   * current cycle at (frameNumber - blendingEndFrame) mod frame_count.
   */
  function Playback(frameNumber: nat, blendingStartFrame: nat, blendingEndFrame: nat, frameCount: nat): (d: Display)
    requires frameCount >= 1
    ensures d.FromBlend? <==> blendingStartFrame <= frameNumber < blendingEndFrame
    ensures d.FromBlend? ==> d.index + 1 + blendingStartFrame == frameNumber
    ensures d.FromCycle? ==> d.frame < frameCount
    ensures d.FromCycle? && blendingEndFrame <= frameNumber ==>
              d.frame == (frameNumber - blendingEndFrame) % frameCount
  {
    if blendingStartFrame <= frameNumber < blendingEndFrame then
      FromBlend(frameNumber - blendingStartFrame - 1)
    else
      FromCycle(ULongSub(frameNumber, blendingEndFrame) % frameCount)
  }

  /** The heading change calcRotation applies for one animation frame. */
  function TurnStep(total: real, startFrame: int, endFrame: int, animationFrame: int): real
    requires startFrame < endFrame
  {
    if startFrame <= animationFrame < endFrame then total / (endFrame - startFrame) as real else 0.0
  }

  /** The heading accumulated over animation frames 0 .. n-1. */
  function AccumulatedTurn(total: real, startFrame: int, endFrame: int, n: nat): real
    requires startFrame < endFrame
  {
    if n == 0 then 0.0
    else AccumulatedTurn(total, startFrame, endFrame, n - 1) + TurnStep(total, startFrame, endFrame, n - 1)
  }

  /** How many of the frames 0 .. n-1 lie in the turning window [startFrame, endFrame). */
  function FramesTurned(startFrame: nat, endFrame: nat, n: nat): nat
    requires startFrame < endFrame
  {
    if n <= startFrame then 0 else if n <= endFrame then n - startFrame else endFrame - startFrame
  }

  /** The heading turns in equal increments, one per animation frame inside the turning window. */
  lemma {:induction false} AccumulatedTurnClosedForm(total: real, startFrame: nat, endFrame: nat, n: nat)
    requires startFrame < endFrame
    ensures AccumulatedTurn(total, startFrame, endFrame, n)
            == (FramesTurned(startFrame, endFrame, n) as real) * (total / (endFrame - startFrame) as real)
  {
    if n > 0 {
      AccumulatedTurnClosedForm(total, startFrame, endFrame, n - 1);
      var step := total / (endFrame - startFrame) as real;
      var before := FramesTurned(startFrame, endFrame, n - 1);
      if startFrame <= n - 1 < endFrame {
        assert FramesTurned(startFrame, endFrame, n) == before + 1;
        assert (before as real) * step + step == ((before + 1) as real) * step;
      } else {
        assert FramesTurned(startFrame, endFrame, n) == before;
      }
    }
  }

  /** Once every frame of the turning window has been played, the heading has turned by exactly total. */
  lemma TurnOverWholeWindow(total: real, startFrame: nat, endFrame: nat, n: nat)
    requires startFrame < endFrame <= n
    ensures AccumulatedTurn(total, startFrame, endFrame, n) == total
  {
    AccumulatedTurnClosedForm(total, startFrame, endFrame, n);
    var width := (endFrame - startFrame) as real;
    assert width * (total / width) == total;
  }

  /** The per-instance locomotion fields of the scene, with the heading as an accumulated angle. */
  datatype SceneState = SceneState(
    frameNumber: nat,
    blendingStartFrame: nat,
    blendingEndFrame: nat,
    runDir: Direction,
    currCycle: Cycle,
    blendedAnimation: seq<Pose>,
    characterSpeed: Vec3,
    characterLocation: Vec3,
    characterRotation: real,
    totalRotation: real)

  /** No direction event has happened yet: the window is [ULongMax, 0), which holds no tick. */
  predicate BlendIdle(s: SceneState)
  {
    s.blendingStartFrame == ULongMax && s.blendingEndFrame == 0
  }

  /** A direction event at blendingStartFrame built a full transition buffer and opened a 13-tick window. */
  predicate BlendOpened(s: SceneState)
  {
    && s.blendingEndFrame == s.blendingStartFrame + BlendWindow
    && s.blendingStartFrame <= s.frameNumber
    && |s.blendedAnimation| == BlendSteps
    && forall k :: 0 <= k < BlendSteps ==> |s.blendedAnimation[k]| == JointCount
  }

  /** The invariant every reachable state keeps. */
  predicate Consistent(s: SceneState, lib: Library)
  {
    && lib.Loaded()
    && s.currCycle == lib.CycleFor(s.runDir)
    && (BlendIdle(s) || BlendOpened(s))
  }

  /** The frame a render of state s shows. */
  function Shown(s: SceneState): Display
    requires s.currCycle.FrameCount() >= 1
  {
    Playback(s.frameNumber, s.blendingStartFrame, s.blendingEndFrame, s.currCycle.FrameCount())
  }

  /** The pose a direction event captures: the current cycle at frameNumber mod frame_count. */
  function Captured(s: SceneState): Pose
    requires s.currCycle.FrameCount() >= 1
  {
    s.currCycle.boneRotations[s.frameNumber % s.currCycle.FrameCount()]
  }

  /** The state the constructor leaves: field defaults, then the reset, then frameNumber = 0. */
  function InitialState(lib: Library): (r: SceneState)
    ensures r.frameNumber == 0 && BlendIdle(r)
    ensures r.runDir == Rest && r.currCycle == lib.rest
    ensures r.characterLocation == Origin && r.characterRotation == 0.0 && r.characterSpeed == Origin
    ensures lib.Loaded() ==> Consistent(r, lib)
  {
    var defaults := SceneState(0, ULongMax, 0, Forward, lib.rest, [], DefaultSpeed, Origin, 0.0, DefaultTotalRotation);
    ResetState(defaults, lib).(frameNumber := 0)
  }

  /** EventCharacterReset: back to the origin, identity heading, rest cycle and zero speed. */
  function ResetState(s: SceneState, lib: Library): (r: SceneState)
    ensures r.characterLocation == Origin && r.characterRotation == 0.0 && r.characterSpeed == Origin
    ensures r.currCycle == lib.rest && r.runDir == Rest
    ensures r.frameNumber == s.frameNumber && r.totalRotation == s.totalRotation
    ensures r.blendingStartFrame == s.blendingStartFrame && r.blendingEndFrame == s.blendingEndFrame
    ensures r.blendedAnimation == s.blendedAnimation
    ensures lib.Loaded() && (BlendIdle(s) || BlendOpened(s)) ==> Consistent(r, lib)
  {
    s.(characterLocation := Origin, characterRotation := 0.0, currCycle := lib.rest,
       runDir := Rest, characterSpeed := Origin)
  }

  /** Update: the frame clock ticks once and nothing else changes. */
  function Advance(s: SceneState): (r: SceneState)
    ensures r.frameNumber == s.frameNumber + 1
    ensures r.(frameNumber := s.frameNumber) == s
    ensures forall lib: Library :: Consistent(s, lib) ==> Consistent(r, lib)
  {
    s.(frameNumber := s.frameNumber + 1)
  }

  /**
   * A direction event for d. When d is already the tag nothing happens; otherwise
   * the pose at frameNumber mod frame_count of the current cycle is captured, the
   * cycle for d becomes current, the transition buffer is rebuilt from the
   * captured pose to frame 0 of the new cycle, the window [frameNumber,
   * frameNumber + 13) opens, and forward and rest set the speed.
   */
  function DirectionEvent(s: SceneState, lib: Library, d: Direction): (r: SceneState)
    requires WellFormed(s.currCycle) && WellFormed(lib.CycleFor(d))
    ensures s.runDir == d ==> r == s
    ensures s.runDir != d ==>
              && r.runDir == d
              && r.currCycle == lib.CycleFor(d)
              && r.blendingStartFrame == s.frameNumber
              && r.blendingEndFrame == s.frameNumber + BlendWindow
              && |r.blendedAnimation| == BlendSteps
              && r.blendedAnimation == Transition(Captured(s), lib.CycleFor(d).boneRotations[0])
              && r.blendedAnimation[0] == Captured(s)
              && r.blendedAnimation[BlendSteps - 1] == lib.CycleFor(d).boneRotations[0]
              && r.frameNumber == s.frameNumber
              && r.characterLocation == s.characterLocation
              && r.characterRotation == s.characterRotation
              && r.totalRotation == s.totalRotation
    ensures s.runDir != d && d == Forward ==> r.characterSpeed == ForwardSpeed
    ensures s.runDir != d && d == Rest ==> r.characterSpeed == Origin
    ensures d == Left || d == Right ==> r.characterSpeed == s.characterSpeed
    ensures Consistent(s, lib) ==> Consistent(r, lib)
  {
    if s.runDir == d then s
    else
      var captured := Captured(s);
      var target := lib.CycleFor(d);
      var buffer := Transition(captured, target.boneRotations[0]);
      TransitionStartsAtOutgoing(captured, target.boneRotations[0]);
      TransitionEndsAtIncoming(captured, target.boneRotations[0]);
      assert target.boneRotations[0][..|captured|] == target.boneRotations[0];
      var speed := if d == Forward then ForwardSpeed else if d == Rest then Origin else s.characterSpeed;
      s.(runDir := d, currCycle := target, blendedAnimation := buffer, characterSpeed := speed,
         blendingStartFrame := s.frameNumber, blendingEndFrame := s.frameNumber + BlendWindow)
  }

  /**
   * The state part of a render: totalRotation is chosen from the tag; inside the
   * blend window nothing else changes; outside it the heading takes the turn step
   * of the shown cycle frame and the location advances by the speed rotated by
   * the new heading (rotate stands for the rotation matrix applied to a vector).
   */
  function RenderStep(s: SceneState, rotate: (real, Vec3) -> Vec3): (r: SceneState)
    requires s.currCycle.FrameCount() >= 1
    ensures r.totalRotation == TotalRotationFor(s.runDir)
    ensures r.(characterLocation := s.characterLocation, characterRotation := s.characterRotation,
               totalRotation := s.totalRotation) == s
    ensures Shown(s).FromBlend? ==>
              r.characterLocation == s.characterLocation && r.characterRotation == s.characterRotation
    ensures Shown(s).FromCycle? ==>
              && r.characterRotation == s.characterRotation + TurnStep(r.totalRotation, TurnStart, TurnEnd, Shown(s).frame)
              && r.characterLocation == Add(s.characterLocation, rotate(r.characterRotation, s.characterSpeed))
  {
    var total := TotalRotationFor(s.runDir);
    match Shown(s)
    case FromBlend(_) => s.(totalRotation := total)
    case FromCycle(frame) =>
      var heading := s.characterRotation + TurnStep(total, TurnStart, TurnEnd, frame);
      s.(totalRotation := total, characterRotation := heading,
         characterLocation := Add(s.characterLocation, rotate(heading, s.characterSpeed)))
  }

  /** One frame of the driver: render, then tick the clock. */
  function Frame(s: SceneState, rotate: (real, Vec3) -> Vec3): SceneState
    requires s.currCycle.FrameCount() >= 1
  {
    Advance(RenderStep(s, rotate))
  }

  /** n frames of the driver with no direction event in between. */
  function Run(s: SceneState, rotate: (real, Vec3) -> Vec3, n: nat): (r: SceneState)
    requires s.currCycle.FrameCount() >= 1
    decreases n
    ensures r.frameNumber == s.frameNumber + n
    ensures r.runDir == s.runDir && r.currCycle == s.currCycle
    ensures r.blendingStartFrame == s.blendingStartFrame && r.blendingEndFrame == s.blendingEndFrame
    ensures r.blendedAnimation == s.blendedAnimation
  {
    if n == 0 then s else Run(Frame(s, rotate), rotate, n - 1)
  }

  /** (a + 1) mod m follows a mod m round the cycle. */
  lemma ModSucc(a: nat, m: nat)
    requires m >= 1
    ensures (a + 1) % m == if a % m + 1 < m then a % m + 1 else 0
  {
    var q, r := a / m, a % m;
    assert a == q * m + r;
    if r + 1 < m {
      ModUnique(a + 1, m, q, r + 1);
    } else {
      assert a + 1 == (q + 1) * m + 0;
      ModUnique(a + 1, m, q + 1, 0);
    }
  }

  lemma ModUnique(a: nat, m: nat, q: nat, r: nat)
    requires m >= 1 && r < m && a == q * m + r
    ensures a % m == r
  {
    var q', r' := a / m, a % m;
    assert a == q' * m + r';
    if q' < q {
      assert (q - q') * m == r' - r;
      MultipleAtLeast(q - q', m);
    } else if q < q' {
      assert (q' - q) * m == r - r';
      MultipleAtLeast(q' - q, m);
    }
  }

  lemma MultipleAtLeast(x: int, m: int)
    requires x >= 1 && m >= 1
    ensures x * m >= m
  {
  }

  /** At the first tick of the window the index is -1; at the following 12 ticks it runs over 0 .. 11. */
  lemma BlendIndexInWindow(frameNumber: nat, blendingStartFrame: nat, frameCount: nat)
    requires frameCount >= 1
    requires blendingStartFrame <= frameNumber < blendingStartFrame + BlendWindow
    ensures var d := Playback(frameNumber, blendingStartFrame, blendingStartFrame + BlendWindow, frameCount);
            && d.FromBlend?
            && -1 <= d.index < BlendSteps as int
            && (d.index == -1 <==> frameNumber == blendingStartFrame)
  {
  }

  /** Before the first direction event no tick is in the window and the cycle plays at frameNumber mod frame_count. */
  lemma NoBlendBeforeFirstEvent(frameNumber: nat, frameCount: nat)
    requires frameCount >= 1
    ensures Playback(frameNumber, ULongMax, 0, frameCount) == FromCycle(frameNumber % frameCount)
  {
  }

  /**
   * The last tick of the window shows the last transition frame (the new cycle's
   * frame 0) and the next tick shows frame 0 of the new cycle: no cycle frame is skipped.
   */
  lemma HandOverAtWindowEnd(blendingStartFrame: nat, frameCount: nat)
    requires frameCount >= 1
    ensures var end := blendingStartFrame + BlendWindow;
            && Playback(end - 1, blendingStartFrame, end, frameCount) == FromBlend(BlendSteps - 1)
            && Playback(end, blendingStartFrame, end, frameCount) == FromCycle(0)
  {
  }

  /** Once past the window, consecutive ticks show consecutive cycle frames, wrapping at frame_count. */
  lemma SteadyFramesAdvance(frameNumber: nat, blendingStartFrame: nat, blendingEndFrame: nat, frameCount: nat)
    requires frameCount >= 1 && blendingEndFrame <= frameNumber
    ensures var now := Playback(frameNumber, blendingStartFrame, blendingEndFrame, frameCount);
            var next := Playback(frameNumber + 1, blendingStartFrame, blendingEndFrame, frameCount);
            && now.FromCycle? && next.FromCycle?
            && next.frame == if now.frame + 1 < frameCount then now.frame + 1 else 0
  {
    ModSucc(frameNumber - blendingEndFrame, frameCount);
    assert frameNumber + 1 - blendingEndFrame == (frameNumber - blendingEndFrame) + 1;
  }

  /** In a consistent state a render outside the window shows (frameNumber - blendingEndFrame) mod frame_count: the unsigned wrap never happens. */
  lemma SteadyFrameFromWindowEnd(s: SceneState, lib: Library)
    requires Consistent(s, lib)
    ensures Shown(s).FromCycle? ==>
              s.blendingEndFrame <= s.frameNumber &&
              Shown(s).frame == (s.frameNumber - s.blendingEndFrame) % s.currCycle.FrameCount()
  {
  }

  /** While the blend window lasts, frames change only the clock (and the total turn chosen from the tag). */
  lemma {:induction false} RunDuringBlend(s: SceneState, rotate: (real, Vec3) -> Vec3, k: nat)
    requires s.currCycle.FrameCount() >= 1
    requires s.blendingStartFrame <= s.frameNumber && s.frameNumber + k <= s.blendingEndFrame
    decreases k
    ensures Run(s, rotate, k)
            == s.(frameNumber := s.frameNumber + k,
                  totalRotation := if k == 0 then s.totalRotation else TotalRotationFor(s.runDir))
  {
    if k > 0 {
      var next := Frame(s, rotate);
      assert Shown(s).FromBlend?;
      assert next == s.(frameNumber := s.frameNumber + 1, totalRotation := TotalRotationFor(s.runDir));
      RunDuringBlend(next, rotate, k - 1);
    }
  }

  /**
   * Past the window, k frames starting at cycle frame o (with o + k <= frame_count)
   * turn the heading by the turn accumulated over cycle frames o .. o+k-1.
   */
  lemma {:induction false} RunSteady(s: SceneState, rotate: (real, Vec3) -> Vec3, o: nat, k: nat)
    requires s.currCycle.FrameCount() >= 1 && s.blendingEndFrame <= s.frameNumber
    requires Shown(s) == FromCycle(o) && o + k <= s.currCycle.FrameCount()
    decreases k
    ensures Run(s, rotate, k).characterRotation
            == s.characterRotation
               + (AccumulatedTurn(TotalRotationFor(s.runDir), TurnStart, TurnEnd, o + k)
                  - AccumulatedTurn(TotalRotationFor(s.runDir), TurnStart, TurnEnd, o))
  {
    if k > 0 {
      var total := TotalRotationFor(s.runDir);
      var next := Frame(s, rotate);
      assert next.characterRotation == s.characterRotation + TurnStep(total, TurnStart, TurnEnd, o);
      if k > 1 {
        SteadyFramesAdvance(s.frameNumber, s.blendingStartFrame, s.blendingEndFrame, s.currCycle.FrameCount());
        assert Shown(next) == FromCycle(o + 1);
        RunSteady(next, rotate, o + 1, k - 1);
      } else {
        assert Run(s, rotate, k) == next;
      }
    }
  }

  /**
   * Starting when the shown cycle frame is 0, n frames that cover the turning
   * window without passing the end of the cycle (in particular one whole pass over
   * a cycle of at least 33 frames) turn the heading by exactly the direction's
   * total: 90 right, -90 left, 0 otherwise.
   */
  lemma FullCycleTurn(s: SceneState, rotate: (real, Vec3) -> Vec3, n: nat)
    requires s.currCycle.FrameCount() >= 1 && s.blendingEndFrame <= s.frameNumber
    requires Shown(s) == FromCycle(0) && TurnEnd <= n <= s.currCycle.FrameCount()
    ensures Run(s, rotate, n).characterRotation == s.characterRotation + TotalRotationFor(s.runDir)
  {
    RunSteady(s, rotate, 0, n);
    TurnOverWholeWindow(TotalRotationFor(s.runDir), TurnStart, TurnEnd, n);
  }

  /**
   * A second direction event k ticks into the window of a first one discards the
   * in-flight transition: the new buffer starts from the first event's cycle at
   * the new tick, and the window restarts there.
   */
  lemma EventDuringBlendRestartsIt(s: SceneState, lib: Library, rotate: (real, Vec3) -> Vec3,
                                   d1: Direction, d2: Direction, k: nat)
    requires Consistent(s, lib) && s.runDir != d1 && d1 != d2 && k < BlendWindow
    ensures var first := DirectionEvent(s, lib, d1);
            var later := Run(first, rotate, k);
            var second := DirectionEvent(later, lib, d2);
            && second.runDir == d2
            && second.blendingStartFrame == s.frameNumber + k
            && second.blendingEndFrame == s.frameNumber + k + BlendWindow
            && second.blendedAnimation[0]
               == lib.CycleFor(d1).boneRotations[(s.frameNumber + k) % lib.CycleFor(d1).FrameCount()]
  {
    var first := DirectionEvent(s, lib, d1);
    assert first.currCycle == lib.CycleFor(d1);
    RunDuringBlend(first, rotate, k);
  }

  /** Reset twice is reset once. */
  lemma ResetIdempotent(s: SceneState, lib: Library)
    ensures ResetState(ResetState(s, lib), lib) == ResetState(s, lib)
  {
  }

  /** Until the first direction event the scene plays the rest cycle at frameNumber mod frame_count without turning. */
  lemma {:induction false} IdleUntilFirstEvent(lib: Library, rotate: (real, Vec3) -> Vec3, k: nat)
    requires lib.Loaded()
    ensures var r := Run(InitialState(lib), rotate, k);
            && Consistent(r, lib) && BlendIdle(r)
            && r.runDir == Rest && r.frameNumber == k && r.characterRotation == 0.0
            && Shown(r) == FromCycle(k % lib.rest.FrameCount())
  {
    if k > 0 {
      IdleUntilFirstEvent(lib, rotate, k - 1);
      var prev := Run(InitialState(lib), rotate, k - 1);
      RunSplit(InitialState(lib), rotate, k - 1);
      assert Run(InitialState(lib), rotate, k) == Frame(prev, rotate);
    }
  }

  /** n frames are n-1 frames followed by one more. */
  lemma {:induction false} RunSplit(s: SceneState, rotate: (real, Vec3) -> Vec3, n: nat)
    requires WellFormed(s.currCycle)
    decreases n
    ensures Run(s, rotate, n + 1) == Frame(Run(s, rotate, n), rotate)
  {
    if n > 0 {
      RunSplit(Frame(s, rotate), rotate, n - 1);
    }
  }
}
