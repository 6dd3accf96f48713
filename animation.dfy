/**
 * Joint rotations, motion cycles and the linear cross-fade that the scene
 * builds when the character changes direction (SceneModel::blendBonerotations).
 */
module Animation {

  /** A joint rotation, a location or a speed: three real components (Cartesian3). */
  datatype Vec3 = Vec3(x: real, y: real, z: real)

  const Origin: Vec3 := Vec3(0.0, 0.0, 0.0)

  function Add(a: Vec3, b: Vec3): Vec3
  {
    Vec3(a.x + b.x, a.y + b.y, a.z + b.z)
  }

  function Scale(k: real, a: Vec3): Vec3
  {
    Vec3(k * a.x, k * a.y, k * a.z)
  }

  /** One frame of a skeleton: a rotation per joint. */
  type Pose = seq<Vec3>

  /** The rotation data of a BVH motion cycle; its frame_count is the number of frames. */
  datatype Cycle = Cycle(boneRotations: seq<Pose>)
  {
    function FrameCount(): nat
    {
      |boneRotations|
    }
  }

  /** Number of joints of the skeleton the blend buffer is sized for. */
  const JointCount: nat := 65

  /** Number of frames in a transition buffer. */
  const BlendSteps: nat := 12

  /** What the loader guarantees of every cycle: at least one frame, every frame of JointCount joints. */
  predicate WellFormed(c: Cycle)
  {
    |c.boneRotations| >= 1 &&
    forall f :: 0 <= f < |c.boneRotations| ==> |c.boneRotations[f]| == JointCount
  }

  /** The decrement of the interpolation parameter per transition frame: 1 / (blendSteps - 1). */
  const TStep: real := 1.0 / (BlendSteps as real - 1.0)

  /** The interpolation parameter when frame i is filled: t starts at 1 and loses TStep per frame. */
  function T(i: nat): real
  {
    1.0 - (i as real) * TStep
  }

  /** Weight of the outgoing pose in frame i: max(t, 0). */
  function OutgoingWeight(i: nat): real
  {
    var t := T(i);
    if t >= 0.0 then t else 0.0
  }

  /** Weight of the incoming pose in frame i: 1 - t, capped at 1. */
  function IncomingWeight(i: nat): real
  {
    var t := T(i);
    if 1.0 - t <= 1.0 then 1.0 - t else 1.0
  }

  /** One joint of transition frame i: a per-component linear interpolation, not a spherical one. */
  function BlendJoint(i: nat, outgoing: Vec3, incoming: Vec3): Vec3
  {
    Add(Scale(OutgoingWeight(i), outgoing), Scale(IncomingWeight(i), incoming))
  }

  /**
   * The transition buffer: BlendSteps frames, frame i blending every joint of the
   * captured outgoing pose with the same joint of the incoming pose.
   */
  function Transition(outgoing: Pose, incoming: Pose): (r: seq<Pose>)
    requires |outgoing| <= |incoming|
    ensures |r| == BlendSteps
    ensures forall i :: 0 <= i < |r| ==> |r[i]| == |outgoing|
  {
    seq(BlendSteps, i requires 0 <= i => seq(|outgoing|, j requires 0 <= j < |outgoing| => BlendJoint(i, outgoing[j], incoming[j])))
  }

  /** Inside the buffer the two weights are proper convex weights: both in [0, 1], summing to 1. */
  lemma WeightsAreConvex(i: nat)
    requires i < BlendSteps
    ensures 0.0 <= OutgoingWeight(i) <= 1.0 && 0.0 <= IncomingWeight(i) <= 1.0
    ensures OutgoingWeight(i) + IncomingWeight(i) == 1.0
  {
  }

  /** The outgoing weight starts at exactly 1, ends at exactly 0, and never grows in between. */
  lemma OutgoingWeightDecreases(i: nat, k: nat)
    requires i <= k < BlendSteps
    ensures OutgoingWeight(0) == 1.0 && OutgoingWeight(BlendSteps - 1) == 0.0
    ensures OutgoingWeight(k) <= OutgoingWeight(i)
    ensures IncomingWeight(i) <= IncomingWeight(k)
  {
  }

  /** Frame 0 of the transition is the captured outgoing pose itself. */
  lemma TransitionStartsAtOutgoing(outgoing: Pose, incoming: Pose)
    requires |outgoing| <= |incoming|
    ensures Transition(outgoing, incoming)[0] == outgoing
  {
  }

  /** The last frame of the transition is the incoming pose (restricted to the outgoing joints). */
  lemma TransitionEndsAtIncoming(outgoing: Pose, incoming: Pose)
    requires |outgoing| <= |incoming|
    ensures Transition(outgoing, incoming)[BlendSteps - 1] == incoming[..|outgoing|]
  {
  }

  /** Inside the buffer neither clamp is active: frame i weighs the outgoing pose 1 - i/11 and the incoming one i/11. */
  lemma TransitionWeights(outgoing: Pose, incoming: Pose, i: nat, j: nat)
    requires |outgoing| <= |incoming| && i < BlendSteps && j < |outgoing|
    ensures Transition(outgoing, incoming)[i][j]
            == Add(Scale(1.0 - (i as real) / 11.0, outgoing[j]), Scale((i as real) / 11.0, incoming[j]))
  {
  }

  /** Every joint of every transition frame lies on the segment between the two poses' joints. */
  lemma TransitionIsInterpolation(outgoing: Pose, incoming: Pose, i: nat, j: nat)
    requires |outgoing| <= |incoming| && i < BlendSteps && j < |outgoing|
    ensures exists w: real ::
              && 0.0 <= w <= 1.0
              && Transition(outgoing, incoming)[i][j] == Add(Scale(w, outgoing[j]), Scale(1.0 - w, incoming[j]))
  {
    WeightsAreConvex(i);
    var w := OutgoingWeight(i);
    assert IncomingWeight(i) == 1.0 - w;
    assert Transition(outgoing, incoming)[i][j] == Add(Scale(w, outgoing[j]), Scale(1.0 - w, incoming[j]));
  }
}
