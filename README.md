# Character locomotion and animation blending of SceneModel

A Dafny model of the character-locomotion core of the `SceneModel` class of an
animation-blending demo. It covers four parts:

- **Direction state machine.** Four direction events and a reset switch the current motion cycle (rest, run, veer left, veer right).
- **Blend engine.** A direction event captures the outgoing pose and builds a 12-frame linear cross-fade to frame 0 of the new cycle.
- **Frame clock.** `Update` advances the frame counter.
- **Playback and heading.** The locomotion part of `Render` picks between the transition buffer and the current cycle. It also turns the heading inside the turning window and moves the character by its rotated speed.

The model has three modules:

- `Animation` (`animation.dfy`): joint rotations (`Vec3`), poses, cycles, the blend weights, and `Transition`. `Transition` is the buffer `blendBonerotations` builds. Lemmas give its first frame, its last frame and its weights.
- `Locomotion` (`locomotion.dfy`): the scene's locomotion fields as one value (`SceneState`), with the reachable-state invariant `Consistent`. It defines one pure function per operation: `DirectionEvent`, `ResetState`, `Advance`, `RenderStep`, plus `InitialState` for the constructor. It also holds the playback selection (`Playback`), the heading step (`TurnStep`), multi-frame runs (`Run`), and lemmas about windows, hand-over and accumulated turn.
- `Scene` (`scene_model.dfy`): the class `SceneModel`, with the source's fields and in-place methods. The public methods (the constructor, `Update`, `Render`, the four direction events and `EventCharacterReset`) keep `Valid()`, and each ensures that `State()` equals the matching `Locomotion` function of `old(State())`. The two helpers are specified on the fields they change:
  - `CalcRotation` on `characterRotation` alone.
  - `BlendBoneRotations` on `blendedAnimation` alone. It runs in the middle of a direction event, when `currCycle` is already switched but `runDir` is not, so its contract does not mention `Valid()`. It resizes and fills the buffer in nested loops, as the source does.

Helper functions that model single source lines and are covered by the rows of the members that use them:

- `Locomotion.TotalRotationFor` is the tag-to-total-turn choice of SceneModel.cpp:116-122.
- `Locomotion.TurnStep` is the per-frame increment of `calcRotation` (SceneModel.cpp:277-278).
- `Locomotion.Library.CycleFor` is the cycle each direction event switches to (SceneModel.cpp:207, 222, 239, 255).
- `Locomotion.Captured` is the pose captured at `frameNumber % frame_count` (SceneModel.cpp:204-205).
- `Locomotion.ULongSub` is the unsigned subtraction `frameNumber - blendingEndFrame` (SceneModel.cpp:134).

Abstractions:

- Rotations, weights, speeds and locations are exact `real`s.
- The heading `characterRotation` is the angle accumulated about the vertical axis. Identity is 0, and `RotateZ(a) * R` becomes `a + heading`.
- Applying the heading's rotation matrix to the speed is a function parameter `rotate(heading, v)` of `Render`.
- The string tag `runDir` is the datatype `Direction`.
- The four cycles are the constructor's parameters. They stand for the BVH loader's result and are `const` fields afterwards.

Details of the code the model keeps as written:

- The blend window is `[frameNumber, frameNumber + 13)`, 13 ticks for a 12-frame buffer (SceneModel.cpp:212).
- The start tick shows buffer index -1 (SceneModel.cpp:131). The 12 buffer frames appear on the following 12 ticks. Frame 11 is the new cycle's frame 0, and the first steady tick shows frame 0 again (`HandOverAtWindowEnd`).
- The captured outgoing pose is at `frameNumber % frame_count` (SceneModel.cpp:205). The displayed frame is at `(frameNumber - blendingEndFrame) % frame_count` (SceneModel.cpp:134), so the captured pose need not be the one on screen. An event during a blend captures from the cycle that blend was heading to (`EventDuringBlendRestartsIt`).
- Inside the blend window neither heading nor location changes (`RunDuringBlend`). Only the steady branch calls `calcRotation` and moves the character.
- Turn events leave the speed unchanged. Only forward (speed (0, -0.2, 0)) and backward-to-rest (speed zero) set it.

## Model

| member | source | states |
|---|---|---|
| Animation.Transition | SceneModel.cpp:283-303 | the transition buffer has exactly 12 frames, each with as many joints as the captured outgoing pose |
| Animation.WeightsAreConvex | SceneModel.cpp:286-302 | for each of the 12 frames, both weights max(t,0) and min(1-t,1) lie in [0,1] and add up to 1 |
| Animation.OutgoingWeightDecreases | SceneModel.cpp:287-302 | the outgoing weight is exactly 1 at frame 0 and exactly 0 at frame 11; it never grows and the incoming weight never shrinks |
| Animation.TransitionStartsAtOutgoing | SceneModel.cpp:293-303 | frame 0 of the buffer equals the captured outgoing pose |
| Animation.TransitionEndsAtIncoming | SceneModel.cpp:293-303 | frame 11 of the buffer equals frame 0 of the incoming cycle, joint for joint |
| Animation.TransitionWeights | SceneModel.cpp:286-302 | joint j of buffer frame i is exactly (1 - i/11) * outgoing + (i/11) * incoming: within the 12 frames neither clamp ever takes effect |
| Animation.TransitionIsInterpolation | SceneModel.cpp:296-299 | every joint of every buffer frame is w * outgoing + (1 - w) * incoming for some w in [0,1]: linear interpolation, per joint |
| Locomotion.Playback | SceneModel.cpp:125-134 | a tick shows the buffer exactly when it lies in [blendingStartFrame, blendingEndFrame), at index frameNumber - blendingStartFrame - 1; otherwise a cycle frame below frame_count, equal to (frameNumber - blendingEndFrame) mod frame_count when no wrap occurs |
| Locomotion.BlendIndexInWindow | SceneModel.cpp:125-131 | in a 13-tick window the buffer index lies in [-1, 12) and is -1 exactly at the start tick |
| Locomotion.NoBlendBeforeFirstEvent | SceneModel.h:65-66 | with the initial window (ULONG_MAX, 0) no tick is in the window and the cycle frame is frameNumber mod frame_count |
| Locomotion.HandOverAtWindowEnd | SceneModel.cpp:125-134 | the last tick of the window shows buffer frame 11 and the next tick shows cycle frame 0 |
| Locomotion.SteadyFramesAdvance | SceneModel.cpp:133-134 | past the window, consecutive ticks show consecutive cycle frames, wrapping to 0 at frame_count |
| Locomotion.SteadyFrameFromWindowEnd | SceneModel.cpp:133-134 | in every consistent state a steady tick has frameNumber >= blendingEndFrame, so the unsigned subtraction never wraps |
| Locomotion.AccumulatedTurnClosedForm | SceneModel.cpp:275-282 | over frames 0..n-1 the heading turns by totalRotation/(endFrame-startFrame) once per frame inside the turning window, and by nothing outside it |
| Locomotion.TurnOverWholeWindow | SceneModel.cpp:275-282 | once every frame of the turning window has been played, the accumulated turn equals totalRotation |
| Locomotion.InitialState | SceneModel.h:46-66 | the constructed scene is at frame 0, with no blend window, tag rest, the rest cycle, origin location, identity heading and zero speed, and is consistent |
| Locomotion.ResetState | SceneModel.cpp:266-273 | reset sets the origin, identity heading, rest cycle, tag rest and zero speed, and leaves the clock, window, buffer and total turn as they were |
| Locomotion.ResetIdempotent | SceneModel.cpp:266-273 | resetting twice gives the same state as resetting once |
| Locomotion.Advance | SceneModel.cpp:62-67 | Update adds exactly one to frameNumber, changes nothing else, and keeps the invariant |
| Locomotion.DirectionEvent | SceneModel.cpp:201-263 | an event for the current tag changes nothing. Any other event sets the tag and the matching cycle and opens [frameNumber, frameNumber+13). Its buffer is Transition(captured pose, frame 0 of the new cycle), which starts at the captured pose and ends at that frame 0. Forward sets speed (0,-0.2,0), rest sets zero, turns keep the speed. Clock, location and heading are untouched and the invariant is kept |
| Locomotion.RenderStep | SceneModel.cpp:116-143 | render sets totalRotation from the tag (90 right, -90 left, 0 otherwise). Inside the window it changes nothing else. Outside it the heading takes the turn step of the shown frame and the location advances by the speed rotated by the new heading |
| Locomotion.RunDuringBlend | SceneModel.cpp:125-131 | frames played inside the blend window change only the clock and the total turn: heading and location are held |
| Locomotion.RunSteady | SceneModel.cpp:133-136 | k steady frames starting at shown cycle frame o, with o + k within the cycle, turn the heading by the turn accumulated over frames o..o+k-1 |
| Locomotion.FullCycleTurn | SceneModel.cpp:116-136 | starting at shown cycle frame 0, n frames that cover the turning window without passing the cycle's end (one whole pass, for instance) turn the heading by exactly 90 (right), -90 (left) or 0 |
| Locomotion.EventDuringBlendRestartsIt | SceneModel.cpp:201-213 | a second, different event k ticks into a blend sets its own tag. It restarts the window at the new tick and rebuilds the buffer from the first event's cycle at (start + k) mod frame_count |
| Locomotion.IdleUntilFirstEvent | SceneModel.cpp:54-57 | until the first direction event the scene stays consistent with no blend window, tag rest and identity heading, showing rest frame k mod frame_count at tick k |
| Locomotion.Run | SceneModel.cpp:116-143 | any number of render-then-update frames advance the clock by that number and never change the tag, cycle, window or buffer |
| Scene.SceneModel.constructor | SceneModel.cpp:36-59 | the new scene holds the four loaded cycles, its state is InitialState, the turning window is [24, 33) and the invariant holds |
| Scene.SceneModel.Update | SceneModel.cpp:62-67 | the new state is Advance of the old one |
| Scene.SceneModel.Render | SceneModel.cpp:116-143 | returns the frame Playback selects for the old state; the new state is RenderStep of the old one |
| Scene.SceneModel.EventCharacterTurnLeft | SceneModel.cpp:201-214 | with tag left the object is unchanged; otherwise the new state is DirectionEvent(old, Left) |
| Scene.SceneModel.EventCharacterTurnRight | SceneModel.cpp:216-231 | with tag right the object is unchanged; otherwise the new state is DirectionEvent(old, Right) |
| Scene.SceneModel.EventCharacterForward | SceneModel.cpp:233-247 | with tag forward the object is unchanged; otherwise the new state is DirectionEvent(old, Forward) |
| Scene.SceneModel.EventCharacterBackward | SceneModel.cpp:249-263 | with tag rest the object is unchanged; otherwise the new state is DirectionEvent(old, Rest) |
| Scene.SceneModel.EventCharacterReset | SceneModel.cpp:266-273 | the new state is ResetState of the old one; the invariant holds afterwards whenever the window part of it held before (as in the constructor) |
| Scene.SceneModel.CalcRotation | SceneModel.cpp:275-282 | the heading grows by totalRotation/(endFrame-startFrame) when the frame is in [startFrame, endFrame) and is unchanged otherwise |
| Scene.SceneModel.BlendBoneRotations | SceneModel.cpp:283-304 | after the nested loops the buffer equals Transition(captured pose, frame 0 of the already switched current cycle) |
| Scene.Resize | SceneModel.cpp:289-292 | resizing gives exactly n elements: the old ones first, padded with the fill value |

## Left out

- OpenGL state, lighting, materials, the view matrix and the skeleton and terrain draw calls of `Render` (SceneModel.cpp:72-114) are rendering sinks. `Render` returns the frame it would draw instead.
- The terrain and its `getHeight` lookup (SceneModel.cpp:39, 130, 142) only shift the drawn skeleton vertically, so they change no modelled state. `Terrain` is not part of this model.
- BVH and terrain file loading (SceneModel.cpp:39-46) is file I/O. The four cycles are constructor parameters instead, and the loader's guarantee (at least one frame, 65 joints per frame) is the constructor's precondition. The unused `walking` cycle is left out.
- The camera events and camera matrices (SceneModel.cpp:150-198, 49-51, 91-103) do not touch the locomotion state.
- `Matrix4` products are not modelled. The heading is an accumulated angle, and the rotation applied to the speed is the parameter `rotate` of `Render`.
- IEEE single-precision arithmetic (`t -= tStep`, the -0.2f and -0.5f speeds, the turn increment) is modelled with exact reals.
- The model assumes a 64-bit `unsigned long` (LP64): `ULongMax` is 2^64 - 1. On a 32-bit `unsigned long` (the `_WIN32` build, SceneModel.h:17-19), `blendingStartFrame = -1` holds 4294967295 instead. No proved property depends on the width. An idle window is empty because its end is 0, and the explicit wrap in `ULongSub` happens only when `frameNumber < blendingEndFrame`, which the invariant `Consistent` rules out.
- The width of `frameNumber` itself is not modelled: it is unbounded, so `frameNumber++` and `frameNumber + 13` never wrap. The initial `blendingStartFrame = -1` is modelled as its unsigned value, and `Render`'s `frameNumber - blendingEndFrame` wraps explicitly.
- `blendedAnimation = currCycle` also copies the outgoing cycle's other `BVHData` fields (skeleton, `frame_count`). Only the bone rotations are modelled.
- What `BVHData::Render` does with frame index -1 at the first tick of a window is not modelled. `BVHData` is not part of this model.
- Scene.SceneModel.CalcRotation: the return value is not modelled, because the function has no return on its out-of-window path (undefined behaviour in C++).
- Scene.SceneModel.BlendBoneRotations: requires every captured frame and the new cycle's frames to have 65 joints. The source indexes them unchecked, and the loader guarantee makes this hold.
- The driver that calls `Render` and `Update` (the window's paint and idle callbacks) is not part of this model. `Frame` and `Run` assume one render followed by one update per tick. The lemmas about them hold from any consistent start state, so the other order only shifts the first tick.
- `blendAnimation` and `EventSwitchMode` are declared but have no definition in the source (SceneModel.h:98, 100).
