/**
 * The ECS simulation system (DistanceFieldSystem_IJobForEach): OnUpdate
 * packs the simulation settings and the frame's clock into an
 * OrbiterUpdateJob, and the job's Execute walks one archetype chunk,
 * updating every orbiter's velocity, position, colour and render transform
 * in place.
 */
module DistanceFieldSystem {
  import opened Numerics
  import opened Words
  import opened DistanceField
  import opened OrbiterUpdate

  /** The per-entity simulation state. */
  datatype OrbiterData = OrbiterData(position: Vec3, velocity: Vec3)

  /** The per-entity colour component. */
  datatype ColorData = ColorData(value: Vec4)

  /** OrbiterData(pos): a particle at rest at `pos`. */
  function NewOrbiterData(pos: Vec3): (o: OrbiterData)
    ensures o.position == pos && o.velocity == Zero3
  {
    OrbiterData(pos, Zero3)
  }

  /** The singleton OrbiterSimmulationParams, with the field model it selects. */
  datatype Settings = Settings(
    attraction: real,
    speedStretch: real,
    jitter: real,
    surfaceColor: Vec4,
    interiorColor: Vec4,
    exteriorColor: Vec4,
    exteriorColorDist: real,
    interiorColorDist: real,
    colorStiffness: real,
    model: int)

  /** The values OnUpdate copies into the job. */
  datatype Job = Job(settings: Settings, dt: real, time: real, frameCount: nat)

  /**
   * OnUpdate's job: a tenth of the frame time as the colour step, a tenth of
   * the clock as the field time, and the frame count cast to uint.
   */
  function MakeJob(settings: Settings, deltaTime: real, timeNow: real, frameCount: int): (j: Job)
    ensures j.settings == settings
    ensures j.dt == deltaTime * 0.1 && j.time == timeNow * 0.1
    ensures j.frameCount < Word32
    ensures 0 <= frameCount < Word32 ==> j.frameCount == frameCount
    ensures j.frameCount % Word32 == frameCount % Word32
  {
    Job(settings, deltaTime * 0.1, timeNow * 0.1, frameCount % Word32)
  }

  /**
   * The colour a particle relaxes toward: a lerp from the surface colour
   * toward the exterior colour outside the surface (distance over
   * exteriorColorDist) or toward the interior colour inside (minus distance
   * over interiorColorDist). The lerp is unclamped.
   */
  function TargetColor(s: Settings, dist: real): Vec4 {
    if dist > 0.0 then Lerp4(s.surfaceColor, s.exteriorColor, Quot(dist, s.exteriorColorDist))
    else Lerp4(s.surfaceColor, s.interiorColor, Quot(-dist, s.interiorColorDist))
  }

  /**
   * On the surface the target is the surface colour; at exteriorColorDist
   * outside it is the exterior colour and at interiorColorDist inside it is
   * the interior colour; in between it is a channel-wise blend of the two.
   */
  lemma TargetColorGradient(s: Settings, dist: real)
    requires s.exteriorColorDist > 0.0 && s.interiorColorDist > 0.0
    ensures dist == 0.0 ==> TargetColor(s, dist) == s.surfaceColor
    ensures dist == s.exteriorColorDist ==> TargetColor(s, dist) == s.exteriorColor
    ensures dist == -s.interiorColorDist ==> TargetColor(s, dist) == s.interiorColor
    ensures 0.0 < dist <= s.exteriorColorDist ==>
              Between4(TargetColor(s, dist), s.surfaceColor, s.exteriorColor)
    ensures -s.interiorColorDist <= dist <= 0.0 ==>
              Between4(TargetColor(s, dist), s.surfaceColor, s.interiorColor)
  {
    if dist > 0.0 {
      var q := Quot(dist, s.exteriorColorDist);
      Lerp4Between(s.surfaceColor, s.exteriorColor, q);
      if dist <= s.exteriorColorDist {
        QuotUnit(dist, s.exteriorColorDist);
      }
    } else {
      var q := Quot(-dist, s.interiorColorDist);
      Lerp4Between(s.surfaceColor, s.interiorColor, q);
      if -s.interiorColorDist <= dist {
        QuotUnit(-dist, s.interiorColorDist);
      }
    }
  }

  /** The new colour: lerp(old, target, Dt * colorStiffness). */
  function RelaxColor(job: Job, current: Vec4, target: Vec4): Vec4 {
    Lerp4(current, target, ColorStep(job))
  }

  /** Dt * colorStiffness, the fraction of the gap to the target closed per step. */
  function ColorStep(job: Job): real {
    job.dt * job.settings.colorStiffness
  }

  /**
   * A colour step never overshoots when Dt * colorStiffness is in [0, 1]: the
   * new colour lies channel-wise between the old colour and the target; a
   * zero step keeps the colour and a unit step reaches the target.
   */
  lemma RelaxColorBetween(job: Job, current: Vec4, target: Vec4)
    ensures 0.0 <= ColorStep(job) <= 1.0 ==> Between4(RelaxColor(job, current, target), current, target)
    ensures ColorStep(job) == 0.0 ==> RelaxColor(job, current, target) == current
    ensures ColorStep(job) == 1.0 ==> RelaxColor(job, current, target) == target
  {
    Lerp4Between(current, target, ColorStep(job));
  }

  /** What one iteration of the job's loop writes for one entity. */
  datatype Particle = Particle(orbiter: OrbiterData, color: ColorData, localToWorld: Matrix)

  /** The jitter of the entity at `index` of its chunk in this frame. */
  function Jitter(h: Host, job: Job, index: int): Vec3 {
    ClampToUnitBall(h, h.nextFloat3Signed(Seed(job.frameCount, index)))
  }

  /** One entity's update, as a function of its old components. */
  function Step(h: Host, job: Job, index: int, o: OrbiterData, c: ColorData): Particle {
    var s := job.settings;
    var f := Field(h, s.model, job.time, o.position);
    var v := Accelerate(o.velocity, f.distance, s.attraction, h.normalize(f.normal), Jitter(h, job, index), s.jitter);
    var p := Advance(o.position, v);
    var color := RelaxColor(job, c.value, TargetColor(s, f.distance));
    Particle(OrbiterData(p, v), ColorData(color), RenderMatrix(h, p, v, s.speedStretch))
  }

  /**
   * The step moves the particle by exactly its new velocity, and the new
   * velocity is the damped old velocity plus the damped pull and jitter;
   * the transform is placed at the new position, oriented along the new
   * velocity.
   */
  lemma StepMovesByNewVelocity(h: Host, job: Job, index: int, o: OrbiterData, c: ColorData)
    ensures var r := Step(h, job, index, o, c);
            && r.orbiter.position == Add(o.position, r.orbiter.velocity)
            && r.localToWorld.Trs?
            && r.localToWorld.translation == r.orbiter.position
            && r.localToWorld.rotation == h.lookRotation(r.orbiter.velocity, Up)
  {
  }

  /** The jitter vector fed into the step lies in the closed unit ball. */
  lemma JitterInUnitBall(h: Host, job: Job, index: int)
    requires Sane(h)
    ensures Norm2(Jitter(h, job, index)) <= 1.0
  {
    ClampToUnitBallInside(h, h.nextFloat3Signed(Seed(job.frameCount, index)));
  }

  /**
   * Within a chunk the entities draw distinct seeds, so distinct random
   * streams.
   */
  lemma ChunkSeedsDistinct(job: Job, i: nat, j: nat)
    requires i < Word32 - 1 && j < Word32 - 1 && i != j
    ensures Seed(job.frameCount, i) != Seed(job.frameCount, j)
  {
    SeedDistinctIndices(job.frameCount, i, j);
  }

  /** One relaxation step: lerp(current, target, Dt * colorStiffness). */
  method LerpColor(job: Job, current: Vec4, target: Vec4) returns (c: Vec4)
    ensures c == RelaxColor(job, current, target)
  {
    c := Lerp4(current, target, ColorStep(job));
  }

  /** The target colour for the distance, then one relaxation step toward it. */
  method Recolor(job: Job, current: Vec4, dist: real) returns (c: Vec4)
    ensures c == RelaxColor(job, current, TargetColor(job.settings, dist))
  {
    var targetColor := TargetColor(job.settings, dist);
    c := LerpColor(job, current, targetColor);
  }

  /**
   * The body of the job's loop for the entity at `index`: draw the jitter,
   * evaluate the field, update velocity, position and colour, and build the
   * transform.
   */
  method UpdateOrbiter(h: Host, job: Job, index: int, orbiter: OrbiterData, color: ColorData)
    returns (r: Particle)
    ensures r == Step(h, job, index, orbiter, color)
  {
    var s := job.settings;
    var insideSphere := PullIntoBall(h, h.nextFloat3Signed(Seed(job.frameCount, index)));
    var dist, normal := GetDistance(h, s.model, job.time, orbiter.position.x, orbiter.position.y, orbiter.position.z);
    assert Sample(dist, normal) == Field(h, s.model, job.time, orbiter.position);
    var position, velocity := Move(orbiter.position, orbiter.velocity, dist, s.attraction, h.normalize(normal), insideSphere, s.jitter);
    var c := Recolor(job, color.value, dist);
    var localToWorld := Trs(position, h.lookRotation(velocity, Up), RenderScale(h, velocity, s.speedStretch));
    r := Particle(OrbiterData(position, velocity), ColorData(c), localToWorld);
  }

  /**
   * The job's Execute for one chunk: the loop over the chunk's entities
   * replaces the three components of entity `index` by one Step keyed by
   * that chunk-local index, in place (firstEntityIndex is not used).
   */
  method Execute(h: Host, job: Job, orbiters: array<OrbiterData>, colors: array<ColorData>, localToWorlds: array<Matrix>)
    requires orbiters.Length == colors.Length == localToWorlds.Length
    modifies orbiters, colors, localToWorlds
    ensures forall i :: 0 <= i < orbiters.Length ==>
              Particle(orbiters[i], colors[i], localToWorlds[i]) == Step(h, job, i, old(orbiters[i]), old(colors[i]))
  {
    var index := 0;
    while index < orbiters.Length
      invariant 0 <= index <= orbiters.Length
      invariant forall i :: 0 <= i < index ==>
                  Particle(orbiters[i], colors[i], localToWorlds[i]) == Step(h, job, i, old(orbiters[i]), old(colors[i]))
      invariant forall i :: index <= i < orbiters.Length ==> orbiters[i] == old(orbiters[i]) && colors[i] == old(colors[i])
    {
      UpdateEntity(h, job, orbiters, colors, localToWorlds, index);
      index := index + 1;
    }
  }

  /** One iteration of Execute's loop: read entity `index`, run the body, write its three components back. */
  method UpdateEntity(h: Host, job: Job, orbiters: array<OrbiterData>, colors: array<ColorData>, localToWorlds: array<Matrix>, index: int)
    requires orbiters.Length == colors.Length == localToWorlds.Length && 0 <= index < orbiters.Length
    modifies orbiters, colors, localToWorlds
    ensures Particle(orbiters[index], colors[index], localToWorlds[index]) == Step(h, job, index, old(orbiters[index]), old(colors[index]))
    ensures forall i :: 0 <= i < orbiters.Length && i != index ==>
              orbiters[i] == old(orbiters[i]) && colors[i] == old(colors[i]) && localToWorlds[i] == old(localToWorlds[i])
  {
    var r := UpdateOrbiter(h, job, index, orbiters[index], colors[index]);
    colors[index] := r.color;
    orbiters[index] := r.orbiter;
    localToWorlds[index] := r.localToWorld;
  }

  // ----- the chunk-local seed -----

  /**
   * Execute seeds the entity at `index` of a chunk with `index + 1` whatever
   * the chunk's firstEntityIndex. Two entities at the same position of two
   * different chunks therefore draw the same jitter every frame, although
   * seeds taken from their global indices would all be distinct.
   */
  lemma ChunksShareJitter(h: Host, job: Job, first1: nat, first2: nat, index: nat)
    requires first1 != first2 && first1 + index < Word32 - 1 && first2 + index < Word32 - 1
    ensures Seed(job.frameCount, first1 + index) != Seed(job.frameCount, first2 + index)
  {
    SeedDistinctIndices(job.frameCount, first1 + index, first2 + index);
  }
}
