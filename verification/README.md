# Distance-field attractors, modelled in Dafny

This project models the discrete core of a Unity DOTS particle demo. Tens
of thousands of orbiters are pulled toward the isosurface of an animated
signed distance field. Each orbiter is jittered by a per-particle random
vector and damped. It is recoloured by its signed distance and drawn with
instanced rendering, in batches of at most 1023.

The demo runs in two versions. The model covers both, plus the systems
that keep the population at its target:

- **The distance field** (`DistanceField.cs`, module `DistanceField`).
  `GetDistance` evaluates the six field models. The smooth-minimum blend
  of the Metaballs loop and the hard minimum of the SpinMixer loop are
  loops over given sphere distances. The SphereField cell wrap, the
  FigureEight reflection and the default for an unknown model are
  modelled exactly. The MonoBehaviour's model switch is a class.
- **The per-particle step.** It is shared by both update jobs (module
  `OrbiterUpdate`) and covers:
  - the 32-bit jitter seed;
  - the jitter pulled into the unit ball;
  - the clamped pull;
  - damping by 0.99;
  - the Euler step;
  - the render transform.
- **The ECS simulation system** (`ECS/DistanceFieldSystem.cs`, module
  `DistanceFieldSystem`). Its job rewrites the three component arrays of
  a chunk in place.
- **The MonoBehaviour version** (`ParticleManager.cs`, module
  `ParticleManager`). It has a pool of 40000 orbiters, batch rows
  allocated while the pool is filled, a parallel update job, and the
  per-frame copy into rows and draw calls.
- **The ECS render system** (`ECS/ParticleRenderer.cs`, module
  `ParticleRenderer`). It allocates rows in `OnCreate`. Each
  `MemCpyJob` copies one batch. A polling loop draws each batch once its
  job has completed, clearing bits of a 64-bit mask of pending batches.
- **The population systems** (`ECS/OrbiterSpawnerKillerSystem.cs`,
  `ECS/OrbiterSpawnerSystem.cs`, modules `OrbiterSpawnerKillerSystem`,
  `OrbiterSpawnerSystem`, and `EntityCommands` for the command buffer).
  Each system records create and destroy commands, and playing them back
  brings the orbiter count to its target.

Floats are exact reals. Square root, sine, cosine, atan2, Perlin noise,
normalisation, LookRotation and the seeded random generator are fields of
a `Host` record passed as a parameter. `Sane(h)` states the range facts
that some lemmas need: sin and cos lie in [-1, 1], and sqrt is a true
square root. Bit operations on the seed and on the mask act on naturals
of 32 or 64 bits (module `Words`). `Seed(frameCount, index)` is
`(frameCount * 2147483647) ^ (index + 1)` cast to uint. Below, a seed's
*index argument* is that `index`, one less than the term xored in.

The settings struct has no `particleCount` or `model` field, yet the
systems read both. The target count, the model and the renderer's
`pcount` are therefore explicit parameters.

## Model

All source paths are under `Original/DistanceFieldAttractors/Assets/Scripts/`, written in full in each row.

| member | source | states |
|---|---|---|
| DistanceField.SmoothMin | Original/DistanceFieldAttractors/Assets/Scripts/DistanceField.cs:19-22 | For radius > 0 the result is at most min(a, b). It equals min(a, b) exactly when \|a - b\| >= radius. It is never more than radius/4 below min(a, b). |
| DistanceField.SmoothMinSymmetric | Original/DistanceFieldAttractors/Assets/Scripts/DistanceField.cs:20-21 | The blend is symmetric in a and b. |
| DistanceField.HardMin | Original/DistanceFieldAttractors/Assets/Scripts/DistanceField.cs:56-60 | The reference minimum, starting from float.MaxValue. It is below every element and equals one of them or MaxValue. |
| DistanceField.Blend | Original/DistanceFieldAttractors/Assets/Scripts/DistanceField.cs:33-47 | The state of the Metaballs loop after the given spheres. The distance is at most every sphere distance and at least HardMin minus radius/4 per sphere. |
| DistanceField.BlendStepNeverIncreases | Original/DistanceFieldAttractors/Assets/Scripts/DistanceField.cs:42-46 | One step of the Metaballs loop never raises the distance. The normal changes only at a step that strictly lowers it. |
| DistanceField.NearestIsFirstMinimiser | Original/DistanceFieldAttractors/Assets/Scripts/DistanceField.cs:49-61 | The SpinMixer fold yields HardMin. Its normal is the offset of the lowest-index minimiser, or zero when no sphere beats MaxValue. |
| DistanceField.BlendSpheres | Original/DistanceFieldAttractors/Assets/Scripts/DistanceField.cs:33-47 | The Metaballs for loop, proved equal to Blend. |
| DistanceField.NearestSphere | Original/DistanceFieldAttractors/Assets/Scripts/DistanceField.cs:49-61 | The SpinMixer for loop returns the hard minimum and the normal of the first sphere attaining it. |
| DistanceField.SpinOrbitRadii | Original/DistanceFieldAttractors/Assets/Scripts/DistanceField.cs:50 | With integer i / 2, the six orbit radii are 4, 4, 6, 6, 8, 8. |
| DistanceField.WrapInCell | Original/DistanceFieldAttractors/Assets/Scripts/DistanceField.cs:74-83 | For spacing s > 0, each wrapped coordinate lies in [-s/2, s/2) and differs from the input by a whole number of cells. |
| DistanceField.WrapUnique | Original/DistanceFieldAttractors/Assets/Scripts/DistanceField.cs:74-83 | The wrap is the only point of [-s/2, s/2) congruent to the input modulo s. |
| DistanceField.WrapPeriodic | Original/DistanceFieldAttractors/Assets/Scripts/DistanceField.cs:74-83 | Moving the input by one cell does not change the wrap. |
| DistanceField.WrapIdempotent | Original/DistanceFieldAttractors/Assets/Scripts/DistanceField.cs:74-83 | Wrapping twice is wrapping once. |
| DistanceField.Reflect | Original/DistanceFieldAttractors/Assets/Scripts/DistanceField.cs:88-92 | The reflected z is non-negative. The flipper is -1 exactly when z < 0 and +1 otherwise, and the reflected z is z times the flipper. |
| DistanceField.GetDistance | Original/DistanceFieldAttractors/Assets/Scripts/DistanceField.cs:29-108 | The evaluator returns the Field sample of its model: the Metaballs and SpinMixer branches as loops, the others from their sample functions. |
| DistanceField.UnknownModelDefault | Original/DistanceFieldAttractors/Assets/Scripts/DistanceField.cs:30-31 | A model outside the six gives float.MaxValue and a zero normal. |
| DistanceField.MetaballsBounds | Original/DistanceFieldAttractors/Assets/Scripts/DistanceField.cs:32-47 | The Metaballs distance is at most each of the five sphere distances and at most 2.5 below their minimum. |
| DistanceField.SpinMixerIsNearestSphere | Original/DistanceFieldAttractors/Assets/Scripts/DistanceField.cs:48-61 | SpinMixer is the hard minimum of the six sphere distances. Its normal is the offset from the lowest-index nearest sphere. |
| DistanceField.SpherePlaneMix | Original/DistanceFieldAttractors/Assets/Scripts/DistanceField.cs:62-72 | The mixing factor stays in [0, 0.8]. At factor 0 the sample is the pure radius-5 sphere. |
| DistanceField.SphereFieldCell | Original/DistanceFieldAttractors/Assets/Scripts/DistanceField.cs:73-85 | The spacing stays in [3, 7]. The normal's coordinates are the wrapped input coordinates, and the distance is that of the cell's radius-5 sphere. |
| DistanceField.WaveHeightBounds | Original/DistanceFieldAttractors/Assets/Scripts/DistanceField.cs:98-99 | The FigureEight ripple lies in [0, 0.5]. |
| DistanceField.FigureEightTube | Original/DistanceFieldAttractors/Assets/Scripts/DistanceField.cs:86-100 | The FigureEight distance is never below -1. |
| DistanceField.AsWrittenRingOffsetLength | Original/DistanceFieldAttractors/Assets/Scripts/DistanceField.cs:93-94 | Off the ring's axis, the point divided by length × ringRadius has squared length 1/16: it lies a quarter unit from the ring centre, not on the ring. |
| DistanceField.CorrectedRingOffsetOnRing | Original/DistanceFieldAttractors/Assets/Scripts/DistanceField.cs:93-96 | The intended offset has length ringRadius, stays in the y = 0 plane and points from the ring centre toward (x, 0, z). |
| DistanceField.PerlinHeightField | Original/DistanceFieldAttractors/Assets/Scripts/DistanceField.cs:101-104 | PerlinNoise is y minus 6 times the noise, with normal (0, 1, 0). |
| DistanceField.NextModel | Original/DistanceFieldAttractors/Assets/Scripts/DistanceField.cs:133-137 | For a draw in [0, count - 1), the new model is in [0, count) and differs from the current one. |
| DistanceField.NextModelReachesEachOtherOnce | Original/DistanceFieldAttractors/Assets/Scripts/DistanceField.cs:133-137 | Every model other than the current one is reached by exactly one draw. |
| DistanceField.ModelSwitcher.Start | Original/DistanceFieldAttractors/Assets/Scripts/DistanceField.cs:120-123 | modelCount becomes the number of DistanceFieldModel values, the timer starts at 0 and the initial model is kept. The switcher is valid. |
| DistanceField.ModelSwitcher.Update | Original/DistanceFieldAttractors/Assets/Scripts/DistanceField.cs:129-138 | The timer grows by deltaTime * 0.1. When it passes 1 it drops by 1 and the model switches to NextModel, a different valid model. Otherwise the model is unchanged. |
| Numerics.Clamp | Original/DistanceFieldAttractors/Assets/Scripts/ECS/DistanceFieldSystem.cs:109 | math.clamp lies in [lo, hi], is the identity inside and saturates outside. |
| OrbiterUpdate.Seed | Original/DistanceFieldAttractors/Assets/Scripts/ECS/DistanceFieldSystem.cs:98-99 | (frameCount * 2147483647) ^ (index + 1), reduced to 32 bits, is below 2^32. |
| OrbiterUpdate.SeedDistinctIndices | Original/DistanceFieldAttractors/Assets/Scripts/ECS/DistanceFieldSystem.cs:98-99 | Within a frame, index arguments in 0 .. 2^32 - 2 give equal seeds exactly when they are equal. |
| OrbiterUpdate.SeedDistinctFrames | Original/DistanceFieldAttractors/Assets/Scripts/ECS/DistanceFieldSystem.cs:98-99 | For a fixed index, two frame counts below 2^32 give equal seeds exactly when they are equal. |
| OrbiterUpdate.MultiplierSelfInverse | Original/DistanceFieldAttractors/Assets/Scripts/ECS/DistanceFieldSystem.cs:98 | 2147483647 is its own inverse modulo 2^32. |
| OrbiterUpdate.ClampToUnitBallInside | Original/DistanceFieldAttractors/Assets/Scripts/ECS/DistanceFieldSystem.cs:101-106 | The jitter lies in the closed unit ball. A vector inside is unchanged, and one outside lands on the unit sphere. |
| OrbiterUpdate.PullIntoBall | Original/DistanceFieldAttractors/Assets/Scripts/ECS/DistanceFieldSystem.cs:102-106 | The statements `if (n > 1) insideSphere /= n` compute ClampToUnitBall. |
| OrbiterUpdate.Pull | Original/DistanceFieldAttractors/Assets/Scripts/ECS/DistanceFieldSystem.cs:109 | clamp(dist, -1, 1) * attraction is at most \|attraction\| in size. It is ±attraction beyond the unit band and 0 on the surface. |
| OrbiterUpdate.AccelerateWithoutForces | Original/DistanceFieldAttractors/Assets/Scripts/ECS/DistanceFieldSystem.cs:109-111 | With zero attraction and zero jitter, the new velocity is 0.99 times the old. |
| OrbiterUpdate.AccelerateDecomposes | Original/DistanceFieldAttractors/Assets/Scripts/ECS/DistanceFieldSystem.cs:109-111 | The new velocity is the damped old velocity plus the damped jitter minus the damped pull. On the surface only the jitter acts. |
| OrbiterUpdate.Move | Original/DistanceFieldAttractors/Assets/Scripts/ECS/DistanceFieldSystem.cs:109-112 | The statements give Accelerate's velocity, and the position advances by that new velocity. |
| OrbiterUpdate.RenderScale | Original/DistanceFieldAttractors/Assets/Scripts/ECS/DistanceFieldSystem.cs:122 | The scale is (0.1, 0.01, z), where z is the larger of 0.1 and \|v\| * speedStretch. |
| OrbiterUpdate.RelaxGap | Original/DistanceFieldAttractors/Assets/Scripts/ECS/DistanceFieldSystem.cs:116 | After n colour steps with factor k toward a fixed target, the gap is (1 - k)^n times the first gap. |
| OrbiterUpdate.RelaxApproaches | Original/DistanceFieldAttractors/Assets/Scripts/ECS/DistanceFieldSystem.cs:116 | With a factor in [0, 1], the gap to a fixed target never grows. |
| DistanceFieldSystem.NewOrbiterData | Original/DistanceFieldAttractors/Assets/Scripts/ECS/DistanceFieldSystem.cs:17-21 | A new OrbiterData sits at the given position with zero velocity. |
| DistanceFieldSystem.MakeJob | Original/DistanceFieldAttractors/Assets/Scripts/ECS/DistanceFieldSystem.cs:49-67 | The job carries the settings, dt = deltaTime * 0.1, time = the field's time * 0.1, and the frame count cast to uint. The frame count is below 2^32, and equal to the count when that is in range. |
| DistanceFieldSystem.TargetColorGradient | Original/DistanceFieldAttractors/Assets/Scripts/ECS/DistanceFieldSystem.cs:113-115 | The target is surfaceColor at distance 0, exteriorColor at exteriorColorDist and interiorColor at -interiorColorDist. In between it lies channel-wise between the two colours. |
| DistanceFieldSystem.RelaxColorBetween | Original/DistanceFieldAttractors/Assets/Scripts/ECS/DistanceFieldSystem.cs:116 | With Dt * colorStiffness in [0, 1], the new colour lies between the old colour and the target. Factor 0 keeps the old colour and factor 1 gives the target. |
| DistanceFieldSystem.StepMovesByNewVelocity | Original/DistanceFieldAttractors/Assets/Scripts/ECS/DistanceFieldSystem.cs:108-125 | The position advances by the new velocity. The transform is a TRS placed at the new position and oriented by LookRotation of the new velocity. |
| DistanceFieldSystem.JitterInUnitBall | Original/DistanceFieldAttractors/Assets/Scripts/ECS/DistanceFieldSystem.cs:97-106 | The jitter fed to the step lies in the closed unit ball. |
| DistanceFieldSystem.ChunkSeedsDistinct | Original/DistanceFieldAttractors/Assets/Scripts/ECS/DistanceFieldSystem.cs:94-99 | Within a chunk, distinct entities draw distinct seeds. |
| DistanceFieldSystem.LerpColor | Original/DistanceFieldAttractors/Assets/Scripts/ECS/DistanceFieldSystem.cs:116 | The colour statement computes RelaxColor, about which RelaxColorBetween is proved. |
| DistanceFieldSystem.Recolor | Original/DistanceFieldAttractors/Assets/Scripts/ECS/DistanceFieldSystem.cs:113-116 | The target-colour and colour statements together are one relaxation step toward TargetColor. |
| DistanceFieldSystem.UpdateOrbiter | Original/DistanceFieldAttractors/Assets/Scripts/ECS/DistanceFieldSystem.cs:96-125 | The loop body yields Step of the old components. |
| DistanceFieldSystem.UpdateEntity | Original/DistanceFieldAttractors/Assets/Scripts/ECS/DistanceFieldSystem.cs:96-125 | One pass of the loop body: slot index of the three chunk arrays becomes Step(index, old orbiter, old colour), and every other slot is unchanged. |
| DistanceFieldSystem.Execute | Original/DistanceFieldAttractors/Assets/Scripts/ECS/DistanceFieldSystem.cs:88-127 | The for loop over the chunk: for each i below the chunk count, orbiters[i], colors[i] and localToWorlds[i] become Step(i, old orbiter, old colour). The seed comes from the chunk-local i, whatever firstEntityIndex is. No other array is modified. |
| DistanceFieldSystem.ChunksShareJitter | Original/DistanceFieldAttractors/Assets/Scripts/ECS/DistanceFieldSystem.cs:94-99 | The seed index argument is chunk-local, so entities at the same position of two chunks get the same seed and jitter in a frame. With global indices first + index, two different chunk starts would give them different seeds. |
| ParticleManager.NewOrbiter | Original/DistanceFieldAttractors/Assets/Scripts/Orbiter.cs:11-15 | A new Orbiter is at rest at the given position, coloured (0, 0, 0, 1). |
| ParticleManager.ColorLerpClamped | Original/DistanceFieldAttractors/Assets/Scripts/ParticleManager.cs:102-106 | Color.Lerp stays between its endpoints for every factor. It matches the plain lerp on [0, 1] and saturates outside. |
| ParticleManager.TargetColorSaturates | Original/DistanceFieldAttractors/Assets/Scripts/ParticleManager.cs:100-105 | The target lies between surfaceColor and the colour of the particle's side. It is surfaceColor at distance 0 and saturates at the side's colour from the side's distance on. |
| ParticleManager.MakeFrame | Original/DistanceFieldAttractors/Assets/Scripts/ParticleManager.cs:113-123 | The job takes the raw deltaTime, with no factor 0.1, and the frame count cast to uint. |
| ParticleManager.RecoloredBetween | Original/DistanceFieldAttractors/Assets/Scripts/ParticleManager.cs:106 | For any frame time, the new colour lies between the old colour and the target. A step of 0 or less keeps the colour, and a step of 1 or more gives the target. |
| ParticleManager.StepParts | Original/DistanceFieldAttractors/Assets/Scripts/ParticleManager.cs:95-106 | The step moves the orbiter by its new velocity. Its colour moves toward the target for the distance sampled at the old position. |
| ParticleManager.UpdateOrbiter | Original/DistanceFieldAttractors/Assets/Scripts/ParticleManager.cs:81-108 | Execute(index) yields Step, seeded with the global index and drawing NextFloat3(). |
| ParticleManager.UpdateFromSample | Original/DistanceFieldAttractors/Assets/Scripts/ParticleManager.cs:95-106 | The statements after GetDistance compute Respond. |
| ParticleManager.UpdateSlot | Original/DistanceFieldAttractors/Assets/Scripts/ParticleManager.cs:81-108 | Execute(index) on the pool: slot index becomes Step(index, its old orbiter), and every other slot is unchanged. |
| ParticleManager.ForEachOrbiter | Original/DistanceFieldAttractors/Assets/Scripts/ParticleManager.cs:125-126 | Schedule(orbiters.Length, 1) then Complete, run in index order: every pool slot i becomes Step(i, its old orbiter). |
| ParticleManager.EveryOrbiterDrawnOnce | Original/DistanceFieldAttractors/Assets/Scripts/ParticleManager.cs:131-147 | For N orbiters, orbiter k sits in a drawn slot of a batch at most N / 1023, and i ↦ (i / 1023, i % 1023) is injective. Each drawn slot holds an orbiter below N. |
| ParticleManager.SlotsDistinctBelow | Original/DistanceFieldAttractors/Assets/Scripts/ParticleManager.cs:135-136 | Two orbiters below N never share a (batch, slot). |
| ParticleManager.SlotOf | Original/DistanceFieldAttractors/Assets/Scripts/ParticleManager.cs:135-136 | The slot index round-trips: slot j of batch b maps back to (b, j). |
| ParticleManager.DrawTotalFull | Original/DistanceFieldAttractors/Assets/Scripts/ParticleManager.cs:141-147 | Every batch before the last draws 1023 instances. |
| ParticleManager.DrawsEveryOrbiter | Original/DistanceFieldAttractors/Assets/Scripts/ParticleManager.cs:141-147 | The N / 1023 + 1 draw calls draw exactly N instances. |
| ParticleManager.AddRow | Original/DistanceFieldAttractors/Assets/Scripts/ParticleManager.cs:53-54 | The next row is allocated fresh with 1023 slots, and earlier rows are unchanged. |
| ParticleManager.CountInstance | Original/DistanceFieldAttractors/Assets/Scripts/ParticleManager.cs:49-55 | batch * 1023 + finalBatchCount grows by one and finalBatchCount stays below 1023. When the count reaches 1023, the next row is allocated, so rows 0..batch stay allocated and distinct. |
| ParticleManager.SpawnPool | Original/DistanceFieldAttractors/Assets/Scripts/ParticleManager.cs:40-56 | Slot i holds 50 times the i-th unit-ball draw, at rest. All N / 1023 + 1 rows are allocated and distinct. finalBatchCount ends at N % 1023, and the local batch ends at N / 1023, the last row's index. |
| ParticleManager.NewPropertyBlocks | Original/DistanceFieldAttractors/Assets/Scripts/ParticleManager.cs:57-61 | An array with one entry per colour row. Entries 0..batch hold a new block whose colour array is 1023 zero colours, and any later entry stays null. |
| ParticleManager.Manager.OnEnable | Original/DistanceFieldAttractors/Assets/Scripts/ParticleManager.cs:38-62 | Slot i of the pool holds orbiter i of SpawnPool. Every row is allocated, with finalBatchCount = 40000 % 1023. The loop over 0..batch, with batch = 40000 / 1023 the last row, gives every row's property block 1023 zero colours. |
| ParticleManager.Manager.FixedUpdate | Original/DistanceFieldAttractors/Assets/Scripts/ParticleManager.cs:111-127 | Orbiter i becomes Step of its old value, under MakeFrame of this fixed step's inputs. Rows and counts are unchanged. |
| ParticleManager.Manager.WriteSlot | Original/DistanceFieldAttractors/Assets/Scripts/ParticleManager.cs:135-136 | Orbiter k's slot receives the transform and colour, and the rest of its row is unchanged. |
| ParticleManager.Manager.CopyInstances | Original/DistanceFieldAttractors/Assets/Scripts/ParticleManager.cs:131-138 | Every orbiter's render transform and colour are in its (k / 1023, k % 1023) slot. |
| ParticleManager.Manager.DrawBatches | Original/DistanceFieldAttractors/Assets/Scripts/ParticleManager.cs:141-148 | One draw per row, in order. Each is 1023 instances except finalBatchCount for the last, with the row's colours set on its block. |
| ParticleManager.Manager.Update | Original/DistanceFieldAttractors/Assets/Scripts/ParticleManager.cs:129-149 | Every slot is copied, then every row is drawn with its DrawCount. |
| ParticleRenderer.DrawnCount | Original/DistanceFieldAttractors/Assets/Scripts/ECS/ParticleRenderer.cs:136-138 | The instance count passed for a batch never exceeds 1023. |
| ParticleRenderer.MemCpy | Original/DistanceFieldAttractors/Assets/Scripts/ECS/ParticleRenderer.cs:77 | The first \|src\| slots of the destination become src, and the rest are unchanged. |
| ParticleRenderer.Execute | Original/DistanceFieldAttractors/Assets/Scripts/ECS/ParticleRenderer.cs:70-86 | After batchSize is reassigned, both rows begin with the source slice [index * batchSize, index * batchSize + batchSize), and the rest of each row is unchanged. |
| ParticleRenderer.ScheduledJobIsFull | Original/DistanceFieldAttractors/Assets/Scripts/ECS/ParticleRenderer.cs:72-83 | A scheduled job has index < Length / 1023, so batchSize stays 1023. The copied range [index * 1023, index * 1023 + 1023) ends at or before Length - Length % 1023 and fits its row. |
| ParticleRenderer.InitialMask | Original/DistanceFieldAttractors/Assets/Scripts/ECS/ParticleRenderer.cs:128 | UInt64.MaxValue >> (64 - batchcount), with the shift count taken modulo 64, is a 64-bit word. |
| ParticleRenderer.InitialMaskBits | Original/DistanceFieldAttractors/Assets/Scripts/ECS/ParticleRenderer.cs:128 | For 1 <= batchcount <= 64, exactly bits 0..batchcount-1 are set. For any batchcount >= 1, no bit at or above batchcount or 64 is set. |
| ParticleRenderer.AsWrittenWideMask | Original/DistanceFieldAttractors/Assets/Scripts/ECS/ParticleRenderer.cs:128 | For 65 to 127 batches the shift count wraps to 128 - batchcount, so only bits 0..batchcount-65 are set. With 65 batches the mask is bit 0 alone. |
| ParticleRenderer.CorrectedMaskBits | Original/DistanceFieldAttractors/Assets/Scripts/ECS/ParticleRenderer.cs:128 | The intended mask, one pending bit per batch, has exactly bits 0..batchcount-1 set for every batch count. |
| ParticleRenderer.RenderSystem.OnCreate | Original/DistanceFieldAttractors/Assets/Scripts/ECS/ParticleRenderer.cs:33-54 | Allocates pcount / 1023 + 1 distinct rows of 1023 zero matrices and 1023 zero colours, and as many handles. |
| ParticleRenderer.RenderSystem.AllocateRows | Original/DistanceFieldAttractors/Assets/Scripts/ECS/ParticleRenderer.cs:46-50 | The allocation loop yields batchCount fresh, distinct, zero-filled rows of 1023 slots. |
| ParticleRenderer.RenderSystem.OnUpdate | Original/DistanceFieldAttractors/Assets/Scripts/ECS/ParticleRenderer.cs:89-165 | Fewer than 1023 entities: nothing is drawn. The handle arrays overflow exactly when Length / 1023 > pcount / 1023 + 1. Otherwise row b holds the full source batch b and later rows are unchanged. Each draw is its batch's draw, and with at most 64 batches every batch is drawn exactly once. |
| ParticleRenderer.RenderSystem.CopyBatches | Original/DistanceFieldAttractors/Assets/Scripts/ECS/ParticleRenderer.cs:114-126 | Running the scheduled jobs fills rows 0..batchcount-1 from their source batches and leaves the other rows unchanged. |
| ParticleRenderer.RenderSystem.DrawPending | Original/DistanceFieldAttractors/Assets/Scripts/ECS/ParticleRenderer.cs:128-145 | The polling loop ends once every job has completed. Every draw is the draw of a scheduled batch, and for at most 64 batches each batch is drawn exactly once. |
| ParticleRenderer.RenderSystem.Poll | Original/DistanceFieldAttractors/Assets/Scripts/ECS/ParticleRenderer.cs:131-144 | One pass keeps the mask tracking the draws. When every job has completed, the pass leaves the mask at 0. |
| ParticleRenderer.RenderSystem.PollBatch | Original/DistanceFieldAttractors/Assets/Scripts/ECS/ParticleRenderer.cs:133-143 | A pending, completed batch is drawn with its count and its bit is cleared. The mask only loses bits. |
| ParticleRenderer.ClearPending | Original/DistanceFieldAttractors/Assets/Scripts/ECS/ParticleRenderer.cs:142 | Clearing a drawn batch's bit clears exactly that bit. The mask keeps tracking the draws, and no batch is drawn twice. |
| ParticleRenderer.DrawnTotalFull | Original/DistanceFieldAttractors/Assets/Scripts/ECS/ParticleRenderer.cs:136-138 | Every drawn batch before the last draws 1023 instances. |
| ParticleRenderer.AsWrittenDrawnTotal | Original/DistanceFieldAttractors/Assets/Scripts/ECS/ParticleRenderer.cs:97-138 | As written, the batches draw n - 1023 instances in all, or none when n < 1023. |
| ParticleRenderer.AsWrittenDropsEntities | Original/DistanceFieldAttractors/Assets/Scripts/ECS/ParticleRenderer.cs:97-138 | With 1500 entities, one batch of 477 instances is drawn. |
| ParticleRenderer.ReassignedOffsetOverlaps | Original/DistanceFieldAttractors/Assets/Scripts/ECS/ParticleRenderer.cs:72-74 | With 1500 entities, a job for the partial batch would copy 477 elements starting at 477, inside batch 0. |
| ParticleRenderer.CorrectedDrawsEveryEntity | Original/DistanceFieldAttractors/Assets/Scripts/ECS/ParticleRenderer.cs:43 | With the pcount / 1023 + 1 batches OnCreate allocates, each copied from i * 1023 and drawn with DrawCount, exactly n instances are drawn. Entity k is copied and drawn in batch k / 1023 only. |
| EntityCommands.SpawnCommand | Original/DistanceFieldAttractors/Assets/Scripts/ECS/OrbiterSpawnerKillerSystem.cs:33-53 | A create has an identity LocalToWorld, OrbiterData at 50 times the point with zero velocity, and a default ColorData. |
| OrbiterSpawnerKillerSystem.Spawn | Original/DistanceFieldAttractors/Assets/Scripts/ECS/OrbiterSpawnerKillerSystem.cs:36-53 | Each create is an orbiter at rest with an identity transform and the default colour. |
| OrbiterSpawnerKillerSystem.OnUpdate | Original/DistanceFieldAttractors/Assets/Scripts/ECS/OrbiterSpawnerKillerSystem.cs:24-67 | Records exactly Reconcile's commands, including the exception for a negative target. |
| OrbiterSpawnerKillerSystem.CreateMissing | Original/DistanceFieldAttractors/Assets/Scripts/ECS/OrbiterSpawnerKillerSystem.cs:30-54 | The grow loop records max(0, target - n) creates, the k-th seeded with n + k + 1. |
| OrbiterSpawnerKillerSystem.ReconcileCounts | Original/DistanceFieldAttractors/Assets/Scripts/ECS/OrbiterSpawnerKillerSystem.cs:30-64 | Exactly max(0, target - n) creates and, for target >= 0, exactly max(0, n - target) destroys. Never both. The update throws exactly when target < 0. |
| OrbiterSpawnerKillerSystem.ReconcileReachesTarget | Original/DistanceFieldAttractors/Assets/Scripts/ECS/OrbiterSpawnerKillerSystem.cs:26-66 | Played back, the commands bring the count to the target, or to 0 for a negative target. |
| OrbiterSpawnerKillerSystem.ReconcileCommands | Original/DistanceFieldAttractors/Assets/Scripts/ECS/OrbiterSpawnerKillerSystem.cs:36-64 | Every create is at rest with an identity transform and the default colour. The k-th destroy targets the k-th entity of the query array, so distinct entities give distinct destroys. |
| OrbiterSpawnerKillerSystem.SpawnSeedsDistinct | Original/DistanceFieldAttractors/Assets/Scripts/ECS/OrbiterSpawnerKillerSystem.cs:32-42 | Within one update, the creates' seeds are distinct. Their index arguments run from n + 1 to target. |
| OrbiterSpawnerSystem.SpawnerEqualsIrreflexive | Original/DistanceFieldAttractors/Assets/Scripts/ECS/OrbiterSpawnerSystem.cs:20-23 | Equals(s, s) is false for every s, and Equals is never true both ways. |
| OrbiterSpawnerSystem.Spawn | Original/DistanceFieldAttractors/Assets/Scripts/ECS/OrbiterSpawnerSystem.cs:65-82 | Each create is an orbiter at rest with an identity transform and the default colour. |
| OrbiterSpawnerSystem.OnUpdate | Original/DistanceFieldAttractors/Assets/Scripts/ECS/OrbiterSpawnerSystem.cs:44-90 | Records exactly SpawnAll's commands. When there is a chunk, the local copy of particleCount ends at min(particleCount, 0). |
| OrbiterSpawnerSystem.CountDown | Original/DistanceFieldAttractors/Assets/Scripts/ECS/OrbiterSpawnerSystem.cs:55-83 | The while loop records max(0, p) creates with index arguments p - 1 down to 0, and ends with the counter at min(p, 0). |
| OrbiterSpawnerSystem.SpawnAllCounts | Original/DistanceFieldAttractors/Assets/Scripts/ECS/OrbiterSpawnerSystem.cs:49-86 | No chunk: nothing is recorded. Otherwise there are exactly max(0, p) creates, then one destroy of the first spawner entity. With no entity, the update throws after the creates. |
| OrbiterSpawnerSystem.SpawnSeedsDistinct | Original/DistanceFieldAttractors/Assets/Scripts/ECS/OrbiterSpawnerSystem.cs:57-70 | The creates' seeds, with index arguments p - 1 down to 0, are distinct within the frame. |

## Left out

- **Floating point.** IEEE rounding, overflow, infinities and NaN are left out. Floats are reals, and a division by zero gives 0 (`Quot`). float.MaxValue is its exact real value.
- **Foreign functions.** These come from the `Host` parameter and are not modelled: sqrt, sin, cos, atan2, `noise.cnoise`, `normalize` / `.normalized`, `LookRotation`, `Random.InitState` + `NextFloat3`. `Random.Range` is a parameter of `ModelSwitcher.Update`, and `Random.insideUnitSphere` is a function of the draw's position. Only the range facts in `Sane` are assumed of them, and only by the lemmas that require `Sane`.
- **The geometry of SpherePlane and FigureEight.** These are stated only through their sample functions and simple bounds. `FigureEightSample` keeps the ring offset as written (see Findings). The ring lemmas take the point off the ring's axis, where the length they divide by is non-zero.
- **The `DistanceFieldModel` codes.** The enum's file is not part of this model. Its values are taken to be 0..5 in the order Metaballs, SpinMixer, SpherePlane, SphereField, FigureEight, PerlinNoise, the order in which `GetDistance` tests them. `ModelCount` is 6. `NextModel` depends on this order, and a different numbering would change which model follows which.
- **Transforms and graphics.** `float4x4.TRS` / `Matrix4x4.TRS` are a symbolic `Trs` value. `Graphics.DrawMeshInstanced` is a recorded `Draw` value. A `MaterialPropertyBlock` is the colour array set on it. `GCHandle` pinning and the pointer arithmetic of `UnsafeUtility.MemCpy` become a copy of a source slice into the row. The profiler markers and the `Debug.DrawRay` preview are left out.
- **Jobs and parallelism.** Jobs run sequentially to completion. `IsCompleted` is the oracle `isCompleted(round, i)`, with a deadline pass by which every job has completed. `Complete` and the disposal of temporary arrays change nothing in the model.
- **ECS plumbing.** Entity queries become sequences of components or entities. The command buffer is a list of commands, with `CreateEntity` and its three `AddComponent` calls recorded as one command. Entities are never created by this model, and chunk iteration is one call of `Execute` per chunk.
- **The Spawner material** is an int handle that nothing reads. `GetHashCode` is not modelled.
- `OrbiterSettingsBehaviour.cs`, `SpawnerBehaviour.cs` and the `ParticleRenderer` MonoBehaviour only copy inspector fields or forward calls, and are not part of this model. `OnDisable` and the system `OnCreate` queries only acquire or release resources.
- ParticleRenderer.RenderSystem.DrawPending: exactly-once drawing is proved only for at most 64 batches. With more, the initial mask misses batches (see Findings) and `1ul << i` wraps around, and the model proves only that each recorded draw is the draw of a scheduled batch. The polling loop keeps the mask as written; a loop over the corrected, wider mask is not modelled.
- ParticleRenderer.RenderSystem.OnUpdate: the exception when the handle arrays are too short is modelled as an outcome taken before any job runs. The handles it would already have allocated are not modelled.
- ParticleRenderer.Execute: requires batchSize > 0, since the source divides by it. The renderer always passes 1023.
- ParticleRenderer.DrawnCount: states only the bound of 1023. The totals are stated by `AsWrittenDrawnTotal`.
- DistanceFieldSystem.RelaxColorBetween: Dt * colorStiffness is the named quantity `ColorStep(job)`. ParticleManager precomputes the same product once per step as `Frame.colorStep`.

## Findings

| source | as written | input that shows it | evidently intended | confidence | as-written member | corrected member |
|---|---|---|---|---|---|---|
| Original/DistanceFieldAttractors/Assets/Scripts/ECS/ParticleRenderer.cs:97-138 | `batchcount = Length / 1023` counts only the full batches. The last of them is drawn with `Length % 1023` instances, and the partial batch is never copied or drawn. | 1500 entities: one batch drawn with 477 instances, so 1023 entities are missing. Any count below 1023 draws nothing. | Length / 1023 + 1 batches, as OnCreate allocates. Each is copied from i * 1023, every batch but the last draws 1023 instances and the last draws Length % 1023, as ParticleManager does. Every entity is drawn once. | high (not executed) | ParticleRenderer.AsWrittenDrawnTotal | ParticleRenderer.CorrectedDrawsEveryEntity |
| Original/DistanceFieldAttractors/Assets/Scripts/DistanceField.cs:94 | `point /= math.length(point) * ringRadius` divides the offset from the ring centre by its length times 4. | Any point off the ring's axis, e.g. (4, 0, 4): the offset (4, 0, 0) becomes (0.25, 0, 0), so the tube is measured from 0.25 units off the centre instead of 4. | `point /= math.length(point); point *= ringRadius`, putting the point on the ring of radius 4 before it is shifted by (0, 0, ringRadius). | medium (not executed) | DistanceField.AsWrittenRingOffsetLength | DistanceField.CorrectedRingOffsetOnRing |
| Original/DistanceFieldAttractors/Assets/Scripts/ECS/ParticleRenderer.cs:128 | `UInt64.MaxValue >> (64 - batchcount)`, whose shift count C# takes modulo 64. | 65 batches (66495 or more entities): the shift is by 63, the mask is 1, and batches 1..63 never have a pending bit, so they are never drawn. | One pending bit per batch, which needs a mask wider than 64 bits or a cap of 64 batches. | medium (not executed) | ParticleRenderer.AsWrittenWideMask | ParticleRenderer.CorrectedMaskBits |
