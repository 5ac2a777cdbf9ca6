# Reactive VFX Graph System — a Dafny model of its core

ReactiveVFXGraphSystem is a Unity project in which a character is drawn by a VFX Graph
that plays vertex animation textures (VAT) and reacts to collisions. This project models
and proves the parts of it that hold logic of their own:

- **VFXAnimationTransition** (`animation_transition.dfy`, module `AnimationTransition`): the
  cross-fade state machine over the current, next and previous animation, the one-shot flag,
  the two clip timers and the fade value, with the per-animation texture, dimensions and frame
  count looked up by enum ordinal in three parallel arrays. The tween that ChangeAnimation
  starts is replaced by its callbacks, which the caller invokes in the tween's order.
- **The collision packing pipeline**: `ExplodePerBone` (`explode_per_bone.dfy`) cuts each
  bone's particle collision events to five and forwards them; `ExplodeCollector`
  (`explode_collector.dfy`) gathers them into a bounded two-list buffer, pads it with the
  sentinels COLPOS/COLVEL, writes the 5x2 collision texture (row 0 positions, row 1
  velocities), explodes, clears the buffer, and lets `hasExplode` block the next texture until
  the scheduled Reset has run. `ExplodeIndividual` (`explode_individual.dfy`) and
  `ExplodeOnContact` (`explode_on_contact.dfy`) are the per-effect variants with their Single,
  Average and Burst modes. What they share (constants, texture fills, averages) is in
  `collision.dfy`; the layer-mask test is in `layer_mask.dfy`.
- **Movement** (`movement.dfy`, module `CharacterMovement`): the fire cool-down, the
  grounded/jump/landing flags, and the guards that request an animation only when it is not
  already playing.
- **VATGenerator** (`vat_generator.dfy`, module `VatBaking`): the choice of mesh to bake, the
  texel grid of both bake loops, the frame-to-time mapping and the saved file's name and path.

Engine values (vectors, colours, the 3x4 part of a matrix) are in `engine.dfy`. Floats are
reals. Calls made on a VisualEffect are appended to a ghost log of setter calls, an
`Invoke("Reset", ...)` is a ghost count of pending resets, and physics, input and the
engine's sampling of animations are parameters. Stateful components are classes whose methods
state their new fields and, where a pure step function exists, relate the new state to it;
the multi-step properties are lemmas about those step functions.

## Model

| member | source | states |
|---|---|---|
| `AnimationTransition.DefaultTableLacksFallAndLand` | Assets/Scripts/VFXAnimationTransition.cs:31-33 | with the declared five-entry arrays, an animation can be looked up exactly when it is not Fall or Land |
| `AnimationTransition.ChangeKeepsReturnPoint` | Assets/Scripts/VFXAnimationTransition.cs:110-121 | a change sets next to the requested clip, the one-shot flag to the argument and the fade value to 0; previous changes only for a one-shot to another clip, and then becomes the old current clip |
| `AnimationTransition.AdvancedAllAdds` | Assets/Scripts/VFXAnimationTransition.cs:141-146 | a run of transition updates adds exactly the sum of its frame times to the next clip's timer and changes nothing else |
| `AnimationTransition.NextTimerNeverDecreases` | Assets/Scripts/VFXAnimationTransition.cs:141-146 | with non-negative frame times the next clip's timer never decreases during a transition |
| `AnimationTransition.CrossFadeCarriesTimer` | Assets/Scripts/VFXAnimationTransition.cs:133-158 | start, updates and completion make the requested clip current with exactly the time it played during the fade, zero the next timer and the fade value, and keep the return point and the one-shot flag |
| `AnimationTransition.LoopingClipIsNeverReverted` | Assets/Scripts/VFXAnimationTransition.cs:79-87 | when the clip is not a one-shot, Update only advances the current timer |
| `AnimationTransition.RevertFiresOnce` | Assets/Scripts/VFXAnimationTransition.cs:84-87 | a revert requests the previous clip as a looping change with fade value 0, so the revert condition cannot hold on the next frame |
| `AnimationTransition.FadeIsNeverReverted` | Assets/Scripts/VFXAnimationTransition.cs:79-146 | once a fade has advanced the next clip's timer, frames of Update and tween update never revert, however long the current clip has played; both timers grow by the elapsed time |
| `AnimationTransition.OneShotReturnsToPrevious` | Assets/Scripts/VFXAnimationTransition.cs:84-158 | a one-shot change to another clip, its cross-fade, and an Update after the clip has played out request the old clip again; after that fade it is current again |
| `AnimationTransition.VFXAnimationTransition.constructor` | Assets/Scripts/VFXAnimationTransition.cs:57-68 | Idle is current with its slot pushed and timer 0, Shoot is next, Idle is previous |
| `AnimationTransition.VFXAnimationTransition.SetCurrentVAT` | Assets/Scripts/VFXAnimationTransition.cs:170-180 | the current texture, dimensions and frame count are the current animation's entries at one index, and are pushed |
| `AnimationTransition.VFXAnimationTransition.SetNextVAT` | Assets/Scripts/VFXAnimationTransition.cs:183-193 | the same for the next animation |
| `AnimationTransition.VFXAnimationTransition.ChangeAnimation` | Assets/Scripts/VFXAnimationTransition.cs:110-129 | the new state is the change step of the old one, the next slot is the requested clip's, the current slot is kept, and the invariant holds |
| `AnimationTransition.VFXAnimationTransition.TweenSetLerp` | Assets/Scripts/VFXAnimationTransition.cs:124-128 | the tween's setter stores the eased value in the fade value |
| `AnimationTransition.VFXAnimationTransition.StartTransition` | Assets/Scripts/VFXAnimationTransition.cs:133-137 | the next timer restarts at 0 and is pushed |
| `AnimationTransition.VFXAnimationTransition.UpdateTransition` | Assets/Scripts/VFXAnimationTransition.cs:141-146 | the next timer grows by the frame time and never decreases; timer and fade value are pushed |
| `AnimationTransition.VFXAnimationTransition.ChangeCurrentVAT` | Assets/Scripts/VFXAnimationTransition.cs:149-158 | the next clip becomes current carrying its timer, the next timer and fade value are zeroed, the current slot mirrors the new clip |
| `AnimationTransition.VFXAnimationTransition.UpdateVFXParameters` | Assets/Scripts/VFXAnimationTransition.cs:161-166 | the fade value and both timers are pushed |
| `AnimationTransition.VFXAnimationTransition.Update` | Assets/Scripts/VFXAnimationTransition.cs:70-87 | fps is pushed when it changed, the current timer advances, and a revert happens exactly when the one-shot clip has played out, no fade is running and the previous clip differs; a revert loads the previous clip's slot as next with a 0.1 fade, otherwise the next slot and the fade request are kept |
| `Collision.GenerateTexture` | Assets/Scripts/ExplodeCollector.cs:100-113 | every texel (x, 0) holds position x and every texel (x, 1) velocity x, with alpha 1 |
| `Collision.ResetTexture` | Assets/Scripts/ExplodeCollector.cs:115-127 | every texel of row 0 holds COLPOS and every texel of row 1 COLVEL |
| `Collector.Gathered` | Assets/Scripts/ExplodeCollector.cs:136-150 | the buffer keeps its entries in front and takes, in order, the first min(count, 5 - size) incoming ones, never exceeding five |
| `Collector.GatheredConcat` | Assets/Scripts/ExplodeCollector.cs:136-150 | offering two lists in turn leaves the buffer as offering their concatenation once |
| `Collector.GatheredAllKeepsFirstContacts` | Assets/Scripts/ExplodeCollector.cs:129-151 | however a frame's contacts are split between bones, the buffer holds the first five of the whole frame in arrival order |
| `Collector.Pad` | Assets/Scripts/ExplodeCollector.cs:156-160 | padding yields exactly five entries: the collected ones in front, the sentinel after them |
| `Collector.ExplodeCollector.constructor` | Assets/Scripts/ExplodeCollector.cs:36-43 | empty buffers, a reset texture bound to the effect, no explosion pending |
| `Collector.ExplodeCollector.LateUpdate` | Assets/Scripts/ExplodeCollector.cs:45-52 | the buffer is applied exactly when no explosion is showing and it is not empty; otherwise nothing changes |
| `Collector.ExplodeCollector.Explode` | Assets/Scripts/ExplodeCollector.cs:61-77 | pushes the texture or the contact vectors, then the radius, sets hasExplode and schedules one Reset |
| `Collector.ExplodeCollector.Reset` | Assets/Scripts/ExplodeCollector.cs:79-98 | a no-op unless hasExplode; otherwise restores the sentinel texture or vectors and the radius and clears the flag |
| `Collector.ExplodeCollector.CollectCollision` | Assets/Scripts/ExplodeCollector.cs:130-151 | the buffers become the gathered local-space positions and velocities, paired index by index |
| `Collector.ExplodeCollector.ApplyAllCollisions` | Assets/Scripts/ExplodeCollector.cs:154-169 | the texture holds the padded buffers, the explosion uses the collector's radius, and both buffers end empty |
| `PerBone.TruncateEvents` | Assets/Scripts/ExplodePerBone.cs:32-55 | two lists of length min(count, 5) holding event i's intersection and velocity at index i, in order |
| `PerBone.TruncationIsInvisibleToCollector` | Assets/Scripts/ExplodePerBone.cs:49-60 | cutting events to five before forwarding never changes what the collector keeps |
| `PerBone.ExplodePerBone.constructor` | Assets/Scripts/ExplodePerBone.cs:14-26 | the collector is the one found in the parents, or none |
| `PerBone.ExplodePerBone.OnParticleCollision` | Assets/Scripts/ExplodePerBone.cs:30-62 | with a collector, its buffers become the gathered local-space contacts of all events; without one, nothing changes |
| `Individual.PackBurst` | Assets/Scripts/ExplodeIndividual.cs:191-217 | exactly five entries: the transformed event i when there is one, else COLPOS / COLVEL; events past the fifth are ignored |
| `Individual.BurstRowIsPaddedGather` | Assets/Scripts/ExplodeIndividual.cs:193-217 | a Burst row equals what the per-bone collector pipeline writes for the same contacts |
| `Individual.Overwritten` | Assets/Scripts/ExplodeIndividual.cs:96-100 | every entry below five is replaced, the rest kept, the length unchanged |
| `Individual.ExplodeIndividual.constructor` | Assets/Scripts/ExplodeIndividual.cs:39-52 | own matrix, a reset texture bound to the effect, empty gizmo lists |
| `Individual.ExplodeIndividual.Explode` | Assets/Scripts/ExplodeIndividual.cs:61-79 | pushes the texture or the contact vectors, then the radius, sets hasExplode and schedules one Reset |
| `Individual.ExplodeIndividual.OnParticleCollision` | Assets/Scripts/ExplodeIndividual.cs:146-228 | Single uses the first event with COLRADIUS and fails with no event; Average the means; Burst the packed rows written to the texture with COLRADIUS and zero contact; every completed call explodes |
| `Individual.ExplodeIndividual.Reset` | Assets/Scripts/ExplodeIndividual.cs:81-105 | a no-op unless hasExplode; restores sentinels and radius and clears the flag, except that with a texture graph and fewer than five gizmo entries it fails after resetting the texture, leaving the flag set |
| `OnContact.ExplodeOnContact.constructor` | Assets/Scripts/ExplodeOnContact.cs:30-35 | own matrix taken once, no explosion showing |
| `OnContact.ExplodeOnContact.Explode` | Assets/Scripts/ExplodeOnContact.cs:42-50 | always pushes both contact vectors and the radius, sets hasExplode, schedules one Reset |
| `OnContact.ExplodeOnContact.Reset` | Assets/Scripts/ExplodeOnContact.cs:52-61 | restores COLPOS, COLVEL and COLRADIUS and clears the flag only if it was set |
| `OnContact.ExplodeOnContact.OnCollisionEnter` | Assets/Scripts/ExplodeOnContact.cs:63-69 | explodes with COLRADIUS at the first contact exactly when the other layer is in the mask (the intended test, equal to the test as written on masks without layer 31); otherwise nothing changes |
| `OnContact.ExplodeOnContact.OnParticleCollision` | Assets/Scripts/ExplodeOnContact.cs:71-115 | Single uses the first event with COLRADIUS and fails with no event; Average the means; Burst explodes with zero position, velocity and radius |
| `LayerMasks.ShiftRight` | Assets/Scripts/ExplodeOnContact.cs:39 | C#'s `>>` on an int keeps the sign, and a count that is a multiple of 32 shifts nothing |
| `LayerMasks.ExistsInLayerMaskAsWritten` | Assets/Scripts/ExplodeOnContact.cs:37-40 | the test as written can accept a layer only for a mask without layer 31 |
| `LayerMasks.ExistsInLayerMask` | Assets/Scripts/ExplodeIndividual.cs:56-59 | the intended test: the "Everything" mask (-1) contains every layer and the "Nothing" mask (0) none |
| `LayerMasks.Remainder` | Assets/Scripts/ExplodeOnContact.cs:39 | C#'s remainder: the dividend is the divisor times the truncated quotient plus the remainder, which takes the dividend's sign and is smaller than the divisor |
| `LayerMasks.ExistsInLayerMaskIsMembership` | Assets/Scripts/ExplodeOnContact.cs:37-40 | the intended test is true exactly when bit `layer` of the 32-bit mask is set, for every mask |
| `LayerMasks.AsWrittenAgreesOnNonNegativeMasks` | Assets/Scripts/ExplodeOnContact.cs:37-40 | on a mask without layer 31 the test as written equals the intended one |
| `LayerMasks.AsWrittenIsMembershipOnNonNegativeMasks` | Assets/Scripts/ExplodeIndividual.cs:56-59 | on a non-negative mask the test as written is true exactly when the layer's bit is set |
| `LayerMasks.AsWrittenRejectsNegativeMasks` | Assets/Scripts/ExplodeOnContact.cs:37-40 | on a mask with layer 31 the test as written is false for every layer |
| `LayerMasks.EverythingMaskCounterexample` | Assets/Scripts/ExplodeIndividual.cs:56-59 | the mask -1 contains layer 0, yet the test as written says it does not |
| `CharacterMovement.FireDelayReleasesAtThreshold` | Assets/Scripts/Character/Movement.cs:234-247 | FireDelay leaves firing blocked only with the timer below fireDelay, releases only once the accumulated time reaches it, and changes nothing when firing is allowed |
| `CharacterMovement.CoolDownIsInvariant` | Assets/Scripts/Character/Movement.cs:234-293 | Fire and FireDelay keep the timer non-negative, zero while firing is allowed and below fireDelay while blocked |
| `CharacterMovement.CoolDownLastsFireDelay` | Assets/Scripts/Character/Movement.cs:234-247 | a blocked state is released by a run of frames exactly when its timer plus their total time reaches fireDelay, with the timer back at 0 |
| `CharacterMovement.StaysReleased` | Assets/Scripts/Character/Movement.cs:236 | once firing is allowed, FireDelay changes nothing on any later frame |
| `CharacterMovement.NoJumpWhileAirborne` | Assets/Scripts/Character/Movement.cs:208-260 | after a frame spent jumping the character is not grounded, so a Jump is ignored |
| `CharacterMovement.JumpEndsWhenFalling` | Assets/Scripts/Character/Movement.cs:208-225 | during a jump the character is not grounded and the jump lasts exactly while the vertical velocity is above -0.01 |
| `CharacterMovement.RequestIsIdempotent` | Assets/Scripts/Character/Movement.cs:151-183 | on the cross-fade's fields, a second guarded request right after the first leaves them as the first did, and a request never changes the current clip; the extra tween a repeat starts is not covered |
| `CharacterMovement.Movement.constructor` | Assets/Scripts/Character/Movement.cs:23-43 | firing allowed, timer 0, not grounded, not jumping, not landing |
| `CharacterMovement.Movement.Awake` | Assets/Scripts/Character/Movement.cs:47-59 | not grounded; a present cross-fade receives a looping Idle request: the change step, the clip's slot loaded as next and pushed, the current slot and last pushed fps kept, and a tween of 0 requested |
| `CharacterMovement.Movement.Update` | Assets/Scripts/Character/Movement.cs:86-106 | Move runs exactly when there is a Move action and the character is not landing; grounding, cool-down and jump check follow in order; the animator's bools are exactly the old ones with IsShooting set while cooling down, IsGrounded set, and IsJump set while jumping |
| `CharacterMovement.Movement.CheckForIsGrounded` | Assets/Scripts/Character/Movement.cs:208-217 | never grounded while jumping, else the raycast's result |
| `CharacterMovement.Movement.CheckIsJump` | Assets/Scripts/Character/Movement.cs:219-225 | a false jump flag stays false; a true one stays true only while the vertical velocity is above -0.01, and is mirrored to the animator when there is one |
| `CharacterMovement.Movement.SetAnimatorGrounding` | Assets/Scripts/Character/Movement.cs:227-231 | the animator's IsGrounded mirrors the flag when there is an animator |
| `CharacterMovement.Movement.FireDelay` | Assets/Scripts/Character/Movement.cs:234-247 | the cool-down step; if firing stays blocked the timer is below fireDelay |
| `CharacterMovement.Movement.Jump` | Assets/Scripts/Character/Movement.cs:254-268 | ignored unless grounded; with an animator the jump flag is raised, and the force is applied when the animator is elsewhere |
| `CharacterMovement.Movement.Fire` | Assets/Scripts/Character/Movement.cs:281-293 | when allowed, blocks firing and, with a cross-fade present, requests the one-shot Shoot clip: the change step, the clip's slot loaded as next and pushed, the current slot and last pushed fps kept, and a tween of 0.1 requested; otherwise nothing changes |
| `CharacterMovement.Movement.RequestClip` | Assets/Scripts/Character/Movement.cs:151-183 | requests the target only when it is not the current clip, as a one-shot only for Jump: the change step, the clip's slot loaded as next and pushed, the current slot and last pushed fps kept, and a tween of lerpTime requested; otherwise the cross-fade is untouched |
| `CharacterMovement.Movement.VFXRun` | Assets/Scripts/Character/Movement.cs:151-158 | requests Run, looping, only when Run is not current: the change step, the clip's slot loaded as next and pushed, the current slot and last pushed fps kept, and a tween of lerpTime requested; otherwise the cross-fade is untouched |
| `CharacterMovement.Movement.VFXIdle` | Assets/Scripts/Character/Movement.cs:160-167 | requests Idle, looping, only when Idle is not current: the change step, the clip's slot loaded as next and pushed, the current slot and last pushed fps kept, and a tween of lerpTime requested; otherwise the cross-fade is untouched |
| `CharacterMovement.Movement.VFXJump` | Assets/Scripts/Character/Movement.cs:169-175 | requests Jump as a one-shot only when Jump is not current: the change step, the clip's slot loaded as next and pushed, the current slot and last pushed fps kept, and a tween of lerpTime requested; otherwise the cross-fade is untouched |
| `CharacterMovement.Movement.VFXFall` | Assets/Scripts/Character/Movement.cs:177-183 | requests Fall, looping, only when Fall is not current: the change step, the clip's slot loaded as next and pushed, the current slot and last pushed fps kept, and a tween of lerpTime requested; otherwise the cross-fade is untouched |
| `CharacterMovement.Movement.VFXLanding` | Assets/Scripts/Character/Movement.cs:185-192 | requests Land only when it is not current, and raises the landing flag exactly then: the change step, the clip's slot loaded as next and pushed, the current slot and last pushed fps kept, and a tween of lerpTime requested; otherwise the cross-fade is untouched |
| `CharacterMovement.Movement.IsNotLanding` | Assets/Scripts/Character/Movement.cs:195-199 | clears the landing flag and requests Idle, looping, whatever is playing: the change step, the clip's slot loaded as next and pushed, the current slot and last pushed fps kept, and a tween of 0.1 requested |
| `VatBaking.RemoveChar` | Assets/Scripts/VAT/VATGenerator.cs:155 | the result has no occurrence of the removed character and is no longer than the input |
| `VatBaking.RemoveCharDistributes` | Assets/Scripts/VAT/VATGenerator.cs:149-157 | removing from a concatenation removes from each part, so the remaining characters keep their order |
| `VatBaking.RemoveCharAbsent` | Assets/Scripts/VAT/VATGenerator.cs:150-157 | a name without the character is left unchanged |
| `VatBaking.RemoveCharIdempotent` | Assets/Scripts/VAT/VATGenerator.cs:150-157 | sanitising twice gives the same name as sanitising once |
| `VatBaking.RemoveCharKeepsOthers` | Assets/Scripts/VAT/VATGenerator.cs:150-157 | every other character keeps its number of occurrences |
| `VatBaking.RawFilename` | Assets/Scripts/VAT/VATGenerator.cs:149 | the name is the target's name, "-", the clip's name and ".exr", each part recoverable by position |
| `VatBaking.CleanFilenameIsCleanParts` | Assets/Scripts/VAT/VATGenerator.cs:149-157 | the saved name is the target's name and the clip's name, each without '\|', joined by "-" and ending ".exr" |
| `VatBaking.FrameTimesSpanTheClip` | Assets/Scripts/VAT/VATGenerator.cs:65-68 | with two frames or more the first frame is sampled at 0 and the last at 1 |
| `VatBaking.FrameTimesIncrease` | Assets/Scripts/VAT/VATGenerator.cs:108-111 | with two frames or more every frame time lies in [0, 1] and later frames are sampled later |
| `VatBaking.FrameTime` | Assets/Scripts/VAT/VATGenerator.cs:68 | a frame's sample time is NaN exactly when there is one frame, and otherwise lies in [0, 1] |
| `VatBaking.SingleFrameSamplesNaN` | Assets/Scripts/VAT/VATGenerator.cs:111 | with one frame the sample time is 0 / 0 |
| `VatBaking.ChooseSource` | Assets/Scripts/VAT/VATGenerator.cs:30-51 | a skinned mesh is baked whenever there is one, a mesh filter only when there is no skinned mesh, and nothing when there is neither |
| `VatBaking.VATGenerator.constructor` | Assets/Scripts/VAT/VATGenerator.cs:10-15 | the serialized settings |
| `VatBaking.VATGenerator.SaveTexture` | Assets/Scripts/VAT/VATGenerator.cs:145-159 | the file name has no '\|' and is the cleaned target and clip names joined by "-" with ".exr"; the full path is data path, directory and name with no separator inserted |
| `VatBaking.VATGenerator.GenerateFromMeshFilter` | Assets/Scripts/VAT/VATGenerator.cs:53-98 | a vertexCount x frameCount texture whose every texel (x, y) is vertex x at frame y's time, alpha 1, and the save path |
| `VatBaking.VATGenerator.GenerateFromSkinnedMesh` | Assets/Scripts/VAT/VATGenerator.cs:100-139 | the same grid from the baked mesh, with yOffset added to every texel's y channel, and the save path |
| `VatBaking.VATGenerator.Generate` | Assets/Scripts/VAT/VATGenerator.cs:30-51 | dispatches to the skinned bake, else the mesh-filter bake, else produces nothing, with the chosen bake's texels and path |

## Left out

- Floating point: every float is a real, so single-precision rounding, overflow and NaN are not modelled, except the two NaN cases named in the model (fps of 0 in the revert test, one frame in the bake).
- The Average explode mode is computed over reals with the engine's Vector3.Distance as a parameter; no property of the averages is proved.
- Matrix products are written out for the 3x4 part that MultiplyPoint3x4 and MultiplyVector read; building a TRS matrix and reading transforms are inputs.
- DOTween: easing, durations and frame timing are not modelled; the tween's setter and callbacks are methods called in the tween's order, and the duration is only recorded. Tweens left running by an earlier ChangeAnimation, which keep calling back, are not modelled.
- `Invoke("Reset", maxDeltaTime)` timing: a ghost count of pending resets; Reset may be called only while one is pending.
- VisualEffect.HasTexture is a fixed property of the graph, and setter calls are a ghost log; Texture2D.Apply and the texture format are not modelled.
- AnimationTransition.VFXAnimationTransition.ChangeAnimation: requires the three arrays to have an entry for the requested clip instead of modelling the index error thrown by SetNextVAT after the one-shot flag and the next clip have already been assigned; the constructor requires an entry for Idle, whose slot Start reads, and one for Shoot only because the transition's invariant asks that the next clip (Shoot at first) can be looked up, though Start never reads it; and Movement's requests (Awake, Fire, RequestClip and the VFX* helpers) require an entry for the clip each one asks for.
- CharacterMovement.Movement.Awake: the transition's constructor includes its Start, so Movement's Awake request reaches a transition that has already pushed its current slot; in Unity every Awake runs before any Start, so the fields end the same but the setter calls reach the effect in another order.
- The inspector's test toggles of VFXAnimationTransition (testLoopAnimation, testOneShotAnimation) and edits of fps at run time are not modelled; fps is fixed.
- Movement's Move, IsMovingInNewDirection, the sweep test and all physics: Update counts Move calls; the raycast's hit, the vertical velocity and the frame time are parameters, and ApplyJumpForce is a counted impulse.
- Movement's input wiring (SetupPlayerInput): the presence of a Move action is fixed, and Jump and Fire are methods called directly.
- CharacterMovement.Movement.RequestClip: requires a cross-fade component; the source's helpers dereference it unchecked and throw a NullReferenceException without one, which is not modelled.
- CharacterMovement.Movement.VFXRun: requires a cross-fade component; without one the source throws a NullReferenceException before any change, which is not modelled.
- CharacterMovement.Movement.VFXIdle: requires a cross-fade component; without one the source throws a NullReferenceException before any change, which is not modelled.
- CharacterMovement.Movement.VFXJump: requires a cross-fade component; without one the source throws a NullReferenceException before any change, which is not modelled.
- CharacterMovement.Movement.VFXFall: requires a cross-fade component; without one the source throws a NullReferenceException before any change, which is not modelled.
- CharacterMovement.Movement.VFXLanding: requires a cross-fade component; without one the source throws a NullReferenceException before any change, which is not modelled.
- CharacterMovement.Movement.IsNotLanding: requires a cross-fade component; without one the source clears the landing flag and then throws a NullReferenceException, which is not modelled. Awake and Fire check for the component and are modelled in both cases.
- Movement's exceptions on a missing animator (Update's final dereference, Jump's check of the animator's object, CheckIsJump's SetBool) are not modelled; the flags they follow are.
- Movement's animator transform copy, DestroyIfStopped, FireProjectile and gizmos are not modelled.
- ExplodeIndividual's `layermask` field is not modelled: its only reader, OnCollisionEnter, is commented out; the mask test itself is in LayerMasks.
- ExplodeCollector's posTest/velTest fields are never used and are not modelled.
- OnContact.ExplodeOnContact.OnCollisionEnter: uses the intended layer-mask test (see Findings); on a mask containing layer 31, such as "Everything", the component as written never explodes, while the model explodes for every layer in the mask. On other masks the two agree, and the contract says so.
- OnContact.ExplodeOnContact.OnCollisionEnter: the first contact point is a parameter; a collision without contacts is not modelled.
- VATGenerator: animation sampling, skinned-mesh baking and transforms are inputs (AnimatedMesh); EXR encoding, File.Exists/Delete/WriteAllBytes, AssetDatabase.Refresh, DestroyImmediate, Debug logging and PrintTexture are not modelled. frameCount is a natural number: a negative serialized value, and the engine's refusal of empty textures, are not modelled.
- ActAsParticleCollider, SphereMovement and EnemyShooting are not part of this model (testing helpers and a single ChangeAnimation caller).

## Findings

| source | as written | input that shows it | evidently intended | confidence | as-written member | corrected member |
|---|---|---|---|---|---|---|
| Assets/Scripts/ExplodeOnContact.cs:37-40 | `(layermask.value >> layer) % 2 == 1` on a C# int (the same in Assets/Scripts/ExplodeIndividual.cs:56-59); `>>` is arithmetic and `%` takes the dividend's sign, so a mask containing layer 31 yields 0 or -1, never 1 | mask -1 (the inspector's "Everything"), layer 0: the layer is in the mask, the test returns false; the same for every layer of every negative mask | `((layermask.value >> layer) & 1) == 1`, true exactly when the layer's bit is set | high; not executed | `LayerMasks.ExistsInLayerMaskAsWritten` with `LayerMasks.EverythingMaskCounterexample` and `LayerMasks.AsWrittenRejectsNegativeMasks` | `LayerMasks.ExistsInLayerMask` with `LayerMasks.ExistsInLayerMaskIsMembership` |
