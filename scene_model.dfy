/**
 * The scene object: its per-instance locomotion fields with their defaults, the
 * frame clock, the four direction events, the reset, the heading update, the
 * blend of bone rotations, and the playback/locomotion part of rendering. Every
 * method is specified by the matching function of module Locomotion on State().
 */
module Scene {
  import opened Animation
  import opened Locomotion

  class SceneModel {
    // animation cycles, read-only once loaded
    const restPose: Cycle
    const runCycle: Cycle
    const veerLeftCycle: Cycle
    const veerRightCycle: Cycle

    // the bone rotations of the transition buffer
    var blendedAnimation: seq<Pose>
    // location and orientation (accumulated angle about the vertical axis) of the character
    var characterLocation: Vec3
    var characterRotation: real
    var currCycle: Cycle
    var runDir: Direction
    var characterSpeed: Vec3
    // the turning window of the animation frames
    const startFrame: int := TurnStart
    const endFrame: int := TurnEnd
    var totalRotation: real
    var frameNumber: nat
    var blendingStartFrame: nat
    var blendingEndFrame: nat

    /** The four cycles as one value. */
    function Cycles(): Library
    {
      Library(restPose, runCycle, veerLeftCycle, veerRightCycle)
    }

    /** The locomotion fields as one value. */
    function State(): SceneState
      reads this
    {
      SceneState(frameNumber, blendingStartFrame, blendingEndFrame, runDir, currCycle, blendedAnimation,
                 characterSpeed, characterLocation, characterRotation, totalRotation)
    }

    ghost predicate Valid()
      reads this
    {
      Consistent(State(), Cycles())
    }

    /**
     * Builds the scene from the four loaded cycles (the BVH loader's result):
     * field defaults, currCycle = restPose, reset, then frameNumber = 0.
     */
    constructor (rest: Cycle, run: Cycle, veerLeft: Cycle, veerRight: Cycle)
      requires WellFormed(rest) && WellFormed(run) && WellFormed(veerLeft) && WellFormed(veerRight)
      ensures Valid()
      ensures Cycles() == Library(rest, run, veerLeft, veerRight)
      ensures State() == InitialState(Cycles())
      ensures startFrame == 24 && endFrame == 33
    {
      restPose, runCycle, veerLeftCycle, veerRightCycle := rest, run, veerLeft, veerRight;
      blendedAnimation := [];
      characterLocation := Origin;
      characterRotation := 0.0;
      runDir := Forward;
      characterSpeed := DefaultSpeed;
      totalRotation := DefaultTotalRotation;
      frameNumber := 0;
      blendingStartFrame := ULongMax;
      blendingEndFrame := 0;
      currCycle := rest;
      new;
      EventCharacterReset();
      frameNumber := 0;
    }

    /** Update: the frame counter advances by one. */
    method Update()
      requires Valid()
      modifies this
      ensures Valid()
      ensures State() == Advance(old(State()))
    {
      frameNumber := frameNumber + 1;
    }

    /**
     * The locomotion part of Render: picks the total turn from the tag, then
     * either shows the transition buffer, or turns the heading, moves the
     * character by its rotated speed and shows the current cycle.
     * rotate(angle, v) is the rotation matrix of the heading applied to v.
     */
    method Render(rotate: (real, Vec3) -> Vec3) returns (shown: Display)
      requires Valid()
      modifies this
      ensures Valid()
      ensures shown == Shown(old(State()))
      ensures State() == RenderStep(old(State()), rotate)
    {
      if runDir == Right {
        totalRotation := 90.0;
      } else if runDir == Left {
        totalRotation := -90.0;
      } else {
        totalRotation := 0.0;
      }
      if blendingStartFrame <= frameNumber && frameNumber < blendingEndFrame {
        shown := FromBlend(frameNumber - blendingStartFrame - 1);
      } else {
        var animationFrame := ULongSub(frameNumber, blendingEndFrame) % currCycle.FrameCount();
        CalcRotation(animationFrame);
        characterLocation := Add(characterLocation, rotate(characterRotation, characterSpeed));
        shown := FromCycle(animationFrame);
      }
    }

    method EventCharacterTurnLeft()
      requires Valid()
      modifies this
      ensures Valid()
      ensures old(runDir) == Left ==> unchanged(this)
      ensures State() == DirectionEvent(old(State()), Cycles(), Left)
    {
      if runDir != Left {
        var currRotations := currCycle.boneRotations;
        var animationFrame := frameNumber % currCycle.FrameCount();
        blendedAnimation := currCycle.boneRotations;
        currCycle := veerLeftCycle;
        BlendBoneRotations(currRotations, animationFrame);
        runDir := Left;
        blendingStartFrame := frameNumber;
        blendingEndFrame := frameNumber + BlendWindow;
      }
    }

    method EventCharacterTurnRight()
      requires Valid()
      modifies this
      ensures Valid()
      ensures old(runDir) == Right ==> unchanged(this)
      ensures State() == DirectionEvent(old(State()), Cycles(), Right)
    {
      if runDir != Right {
        var currRotations := currCycle.boneRotations;
        var animationFrame := frameNumber % currCycle.FrameCount();
        blendedAnimation := currCycle.boneRotations;
        currCycle := veerRightCycle;
        BlendBoneRotations(currRotations, animationFrame);
        runDir := Right;
        blendingStartFrame := frameNumber;
        blendingEndFrame := frameNumber + BlendWindow;
      }
    }

    method EventCharacterForward()
      requires Valid()
      modifies this
      ensures Valid()
      ensures old(runDir) == Forward ==> unchanged(this)
      ensures State() == DirectionEvent(old(State()), Cycles(), Forward)
    {
      if runDir != Forward {
        var currRotations := currCycle.boneRotations;
        var animationFrame := frameNumber % currCycle.FrameCount();
        blendedAnimation := currCycle.boneRotations;
        currCycle := runCycle;
        BlendBoneRotations(currRotations, animationFrame);
        characterSpeed := ForwardSpeed;
        runDir := Forward;
        blendingStartFrame := frameNumber;
        blendingEndFrame := frameNumber + BlendWindow;
      }
    }

    /** The backward key blends to the rest pose and stops the character. */
    method EventCharacterBackward()
      requires Valid()
      modifies this
      ensures Valid()
      ensures old(runDir) == Rest ==> unchanged(this)
      ensures State() == DirectionEvent(old(State()), Cycles(), Rest)
    {
      if runDir != Rest {
        var currRotations := currCycle.boneRotations;
        var animationFrame := frameNumber % currCycle.FrameCount();
        blendedAnimation := currCycle.boneRotations;
        currCycle := restPose;
        BlendBoneRotations(currRotations, animationFrame);
        characterSpeed := Origin;
        runDir := Rest;
        blendingStartFrame := frameNumber;
        blendingEndFrame := frameNumber + BlendWindow;
      }
    }

    /** Back to the origin with identity heading, the rest cycle and zero speed; clock and window untouched. */
    method EventCharacterReset()
      modifies this
      ensures State() == ResetState(old(State()), Cycles())
      ensures Cycles().Loaded() && (BlendIdle(old(State())) || BlendOpened(old(State()))) ==> Valid()
    {
      characterLocation := Origin;
      characterRotation := 0.0;
      currCycle := restPose;
      runDir := Rest;
      characterSpeed := Origin;
    }

    /** Turns the heading by totalRotation / (endFrame - startFrame) when the frame is in the turning window. */
    method CalcRotation(animationFrame: int)
      modifies this`characterRotation
      ensures characterRotation == old(characterRotation) + TurnStep(totalRotation, startFrame, endFrame, animationFrame)
    {
      if startFrame <= animationFrame && animationFrame < endFrame {
        var relativeRotation := totalRotation / (endFrame - startFrame) as real;
        characterRotation := relativeRotation + characterRotation;
      }
    }

    /**
     * Rebuilds the transition buffer in place: resizes it to BlendSteps frames of
     * JointCount joints, then fills frame i, joint j with max(t, 0) times the
     * captured pose plus min(1 - t, 1) times frame 0 of the (already switched)
     * current cycle, t starting at 1 and dropping by 1/11 per frame.
     */
    method BlendBoneRotations(boneRotations: seq<Pose>, animationFrame: nat)
      requires WellFormed(Cycle(boneRotations)) && WellFormed(currCycle)
      requires animationFrame < |boneRotations|
      modifies this`blendedAnimation
      ensures blendedAnimation == Transition(boneRotations[animationFrame], currCycle.boneRotations[0])
    {
      var outgoing := boneRotations[animationFrame];
      var incoming := currCycle.boneRotations[0];
      ghost var target := Transition(outgoing, incoming);
      var blendSteps := BlendSteps;
      var t := 1.0;
      var tStep := t / (blendSteps as real - 1.0);
      blendedAnimation := Resize(blendedAnimation, blendSteps, []);
      for i := 0 to blendSteps
        invariant |blendedAnimation| == blendSteps
        invariant forall k :: 0 <= k < i ==> |blendedAnimation[k]| == JointCount
      {
        blendedAnimation := blendedAnimation[i := Resize(blendedAnimation[i], JointCount, Origin)];
      }
      for i := 0 to blendSteps
        invariant |blendedAnimation| == blendSteps
        invariant forall k :: 0 <= k < blendSteps ==> |blendedAnimation[k]| == JointCount
        invariant t == T(i)
        invariant forall k :: 0 <= k < i ==> blendedAnimation[k] == target[k]
      {
        for joint := 0 to |boneRotations[0]|
          invariant |blendedAnimation| == blendSteps
          invariant forall k :: 0 <= k < blendSteps ==> |blendedAnimation[k]| == JointCount
          invariant forall k :: 0 <= k < i ==> blendedAnimation[k] == target[k]
          invariant forall j :: 0 <= j < joint ==> blendedAnimation[i][j] == target[i][j]
        {
          var outgoingWeight := if t >= 0.0 then t else 0.0;
          var incomingWeight := if 1.0 - t <= 1.0 then 1.0 - t else 1.0;
          var joined := Add(Scale(outgoingWeight, outgoing[joint]), Scale(incomingWeight, incoming[joint]));
          blendedAnimation := blendedAnimation[i := blendedAnimation[i][joint := joined]];
        }
        assert blendedAnimation[i] == target[i];
        t := t - tStep;
      }
    }
  }

  /** std::vector::resize: keeps the first n elements, padding with fill. */
  function Resize<T>(s: seq<T>, n: nat, fill: T): (r: seq<T>)
    ensures |r| == n
    ensures forall i :: 0 <= i < n ==> r[i] == if i < |s| then s[i] else fill
  {
    if n <= |s| then s[..n] else s + seq(n - |s|, _ => fill)
  }
}
