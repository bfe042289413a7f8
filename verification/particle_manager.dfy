/**
 * The MonoBehaviour version of the simulation (ParticleManager): a fixed
 * pool of 40000 orbiters, updated by a parallel job on every fixed step and
 * copied into batches of at most 1023 instances for instanced drawing.
 */
module ParticleManager {
  import opened Numerics
  import opened DistanceField
  import opened OrbiterUpdate

  /** The size of the orbiter pool allocated by OnEnable. */
  const ParticleCount := 40000
  /** The most instances one DrawMeshInstanced call accepts. */
  const InstancesPerBatch := 1023

  /** One particle of the pool. */
  datatype Orbiter = Orbiter(position: Vec3, velocity: Vec3, color: Vec4)

  /** What `new NativeArray<Orbiter>` holds before OnEnable fills it. */
  const DefaultOrbiter := Orbiter(Zero3, Zero3, Zero4)

  /** Orbiter(pos): at rest at `pos`, coloured opaque black. */
  function NewOrbiter(pos: Vec3): (o: Orbiter)
    ensures o.position == pos && o.velocity == Zero3 && o.color == Vec4(0.0, 0.0, 0.0, 1.0)
  {
    Orbiter(pos, Zero3, Vec4(0.0, 0.0, 0.0, 1.0))
  }

  /** The inspector fields of the MonoBehaviour that the job reads. */
  datatype Settings = Settings(
    attraction: real,
    speedStretch: real,
    jitter: real,
    surfaceColor: Vec4,
    interiorColor: Vec4,
    exteriorColor: Vec4,
    exteriorColorDist: real,
    interiorColorDist: real,
    colorStiffness: real)

  /** The inspector defaults of exteriorColorDist and interiorColorDist. */
  const DefaultColorDist := 3.0

  /**
   * Color.Lerp: the factor is clamped to [0, 1] first, so the result never
   * leaves the box spanned by the two colours.
   */
  function ColorLerp(a: Vec4, b: Vec4, t: real): Vec4 {
    Lerp4(a, b, Clamp(t, 0.0, 1.0))
  }

  /**
   * Whatever the factor, Color.Lerp stays between its endpoints; it agrees
   * with the unclamped lerp on [0, 1] and saturates at the endpoints outside.
   */
  lemma ColorLerpClamped(a: Vec4, b: Vec4, t: real)
    ensures Between4(ColorLerp(a, b, t), a, b)
    ensures 0.0 <= t <= 1.0 ==> ColorLerp(a, b, t) == Lerp4(a, b, t)
    ensures t <= 0.0 ==> ColorLerp(a, b, t) == a
    ensures t >= 1.0 ==> ColorLerp(a, b, t) == b
  {
    Lerp4Between(a, b, Clamp(t, 0.0, 1.0));
  }

  /** The colour a particle relaxes toward at signed distance `dist`. */
  function TargetColor(s: Settings, dist: real): Vec4 {
    if dist > 0.0 then ColorLerp(s.surfaceColor, s.exteriorColor, Quot(dist, s.exteriorColorDist))
    else ColorLerp(s.surfaceColor, s.interiorColor, Quot(-dist, s.interiorColorDist))
  }

  /**
   * The target is always a blend of the surface colour with the colour of the
   * side the particle is on; it is the surface colour on the surface and
   * saturates at the side's colour from the side's distance on.
   */
  lemma TargetColorSaturates(s: Settings, dist: real)
    ensures dist > 0.0 ==> Between4(TargetColor(s, dist), s.surfaceColor, s.exteriorColor)
    ensures dist <= 0.0 ==> Between4(TargetColor(s, dist), s.surfaceColor, s.interiorColor)
    ensures dist == 0.0 ==> TargetColor(s, dist) == s.surfaceColor
    ensures s.exteriorColorDist > 0.0 && dist >= s.exteriorColorDist ==> TargetColor(s, dist) == s.exteriorColor
    ensures s.interiorColorDist > 0.0 && dist <= -s.interiorColorDist ==> TargetColor(s, dist) == s.interiorColor
  {
    if dist > 0.0 {
      ColorLerpClamped(s.surfaceColor, s.exteriorColor, Quot(dist, s.exteriorColorDist));
    } else {
      ColorLerpClamped(s.surfaceColor, s.interiorColor, Quot(-dist, s.interiorColorDist));
    }
    if s.exteriorColorDist > 0.0 && dist >= s.exteriorColorDist {
      QuotAtLeastOne(dist, s.exteriorColorDist);
    }
    if s.interiorColorDist > 0.0 && dist <= -s.interiorColorDist {
      QuotAtLeastOne(-dist, s.interiorColorDist);
    }
  }

  /**
   * The per-step values FixedUpdate copies into the job. `colorStep` is the
   * job's Dt * colorStiffness, the same for every orbiter of the step.
   */
  datatype Frame = Frame(dt: real, time: real, frameCount: nat, model: int, colorStep: real)

  /**
   * FixedUpdate's job values: the raw frame time (no 0.1 factor here), the
   * evaluator's clock and model, and the frame count cast to uint.
   */
  function MakeFrame(s: Settings, deltaTime: real, timeStatic: real, frameCount: int, model: int): (f: Frame)
    ensures f.dt == deltaTime && f.time == timeStatic && f.model == model
    ensures f.colorStep == deltaTime * s.colorStiffness
    ensures f.frameCount < Words.Word32
    ensures 0 <= frameCount < Words.Word32 ==> f.frameCount == frameCount
  {
    Frame(deltaTime, timeStatic, frameCount % Words.Word32, model, deltaTime * s.colorStiffness)
  }

  /** The jitter of the orbiter at `index`: NextFloat3() in [0, 1)^3, pulled into the unit ball. */
  function Jitter(h: Host, f: Frame, index: int): Vec3 {
    ClampToUnitBall(h, h.nextFloat3(Seed(f.frameCount, index)))
  }

  /** OrbiterUpdateJob.Execute(index) as a function of the old orbiter. */
  function Step(h: Host, s: Settings, f: Frame, index: int, o: Orbiter): Orbiter {
    Respond(h, s, f, o, Field(h, f.model, f.time, o.position), Jitter(h, f, index))
  }

  /** The update once the jitter is drawn and the field sampled at the orbiter's position. */
  function Respond(h: Host, s: Settings, f: Frame, o: Orbiter, sample: Sample, jitterVec: Vec3): Orbiter {
    var v := Accelerate(o.velocity, sample.distance, s.attraction, h.normalize(sample.normal), jitterVec, s.jitter);
    var p := Advance(o.position, v);
    Orbiter(p, v, Recolored(s, f, o.color, sample.distance))
  }

  /** The new colour: one Color.Lerp from the current colour toward the target, by dt * colorStiffness. */
  function Recolored(s: Settings, f: Frame, current: Vec4, dist: real): Vec4 {
    ColorLerp(current, TargetColor(s, dist), f.colorStep)
  }

  /**
   * Whatever the frame time, the new colour lies between the old colour and
   * the target: Color.Lerp clamps the factor, so a large step saturates at
   * the target and a negative one keeps the old colour.
   */
  lemma RecoloredBetween(s: Settings, f: Frame, current: Vec4, dist: real)
    ensures Between4(Recolored(s, f, current, dist), current, TargetColor(s, dist))
    ensures f.colorStep <= 0.0 ==> Recolored(s, f, current, dist) == current
    ensures f.colorStep >= 1.0 ==> Recolored(s, f, current, dist) == TargetColor(s, dist)
  {
    ColorLerpClamped(current, TargetColor(s, dist), f.colorStep);
  }

  /**
   * The step moves the orbiter by exactly its new velocity, and its colour
   * moves toward the target for the field sampled at the old position.
   */
  lemma StepParts(h: Host, s: Settings, f: Frame, index: int, o: Orbiter)
    ensures var dist := Field(h, f.model, f.time, o.position).distance;
            Between4(Step(h, s, f, index, o).color, o.color, TargetColor(s, dist))
    ensures Step(h, s, f, index, o).position == Add(o.position, Step(h, s, f, index, o).velocity)
  {
    var dist := Field(h, f.model, f.time, o.position).distance;
    assert Step(h, s, f, index, o).color == Recolored(s, f, o.color, dist);
    RecoloredBetween(s, f, o.color, dist);
  }

  /** The body of OrbiterUpdateJob.Execute(index), statement by statement. */
  method UpdateOrbiter(h: Host, s: Settings, f: Frame, index: int, orbiter: Orbiter) returns (r: Orbiter)
    ensures r == Step(h, s, f, index, orbiter)
  {
    var insideSphere := PullIntoBall(h, h.nextFloat3(Seed(f.frameCount, index)));
    var dist, normal := GetDistance(h, f.model, f.time, orbiter.position.x, orbiter.position.y, orbiter.position.z);
    r := UpdateFromSample(h, s, f, orbiter, insideSphere, dist, normal);
  }

  /** The statements of the job after GetDistance. */
  method UpdateFromSample(h: Host, s: Settings, f: Frame, orbiter: Orbiter, insideSphere: Vec3, dist: real, normal: Vec3)
    returns (r: Orbiter)
    ensures r == Respond(h, s, f, orbiter, Sample(dist, normal), insideSphere)
  {
    var position, velocity := Move(orbiter.position, orbiter.velocity, dist, s.attraction, h.normalize(normal), insideSphere, s.jitter);
    var c := Recolored(s, f, orbiter.color, dist);
    r := Orbiter(position, velocity, c);
  }

  /** One run of the job body, on slot `index` of the pool. */
  method UpdateSlot(h: Host, s: Settings, f: Frame, orbiters: array<Orbiter>, index: int)
    requires 0 <= index < orbiters.Length
    modifies orbiters
    ensures orbiters[index] == Step(h, s, f, index, old(orbiters[index]))
    ensures forall i :: 0 <= i < orbiters.Length && i != index ==> orbiters[i] == old(orbiters[i])
  {
    orbiters[index] := UpdateOrbiter(h, s, f, index, orbiters[index]);
  }

  /**
   * The parallel-for over the pool, run to completion (Schedule then
   * Complete): every slot is replaced by the job body's result for its index.
   */
  method ForEachOrbiter(h: Host, s: Settings, f: Frame, orbiters: array<Orbiter>)
    modifies orbiters
    ensures forall i :: 0 <= i < orbiters.Length ==> orbiters[i] == Step(h, s, f, i, old(orbiters[i]))
  {
    var index := 0;
    while index < orbiters.Length
      invariant 0 <= index <= orbiters.Length
      invariant forall i :: 0 <= i < index ==> orbiters[i] == Step(h, s, f, i, old(orbiters[i]))
      invariant forall i :: index <= i < orbiters.Length ==> orbiters[i] == old(orbiters[i])
    {
      UpdateSlot(h, s, f, orbiters, index);
      index := index + 1;
    }
  }

  // ----- batching -----

  /** The batch (row) holding orbiter k. */
  function Batch(k: int): int { k / InstancesPerBatch }

  /** The slot of orbiter k within its batch. */
  function Offset(k: int): int { k % InstancesPerBatch }

  /** The instance count drawn for batch b of a pool of n: full batches, then the remainder. */
  function DrawCount(n: nat, b: nat): (c: nat)
    ensures c <= InstancesPerBatch
  {
    if b == n / InstancesPerBatch then n % InstancesPerBatch else InstancesPerBatch
  }

  /** The orbiter index held by slot j of batch b. */
  function Slot(b: int, j: int): int { b * InstancesPerBatch + j }

  /**
   * The batching draws every orbiter exactly once: orbiter k sits in a drawn
   * slot of its batch, two orbiters never share a slot, and every drawn slot
   * of the n / 1023 + 1 batches holds an orbiter of the pool.
   */
  lemma EveryOrbiterDrawnOnce(n: nat)
    ensures forall k :: 0 <= k < n ==>
              0 <= Batch(k) <= n / InstancesPerBatch && 0 <= Offset(k) < DrawCount(n, Batch(k))
    ensures forall k1, k2 :: 0 <= k1 < k2 < n ==> Batch(k1) != Batch(k2) || Offset(k1) != Offset(k2)
    ensures forall b: nat, j :: b <= n / InstancesPerBatch && 0 <= j < DrawCount(n, b) ==>
              0 <= Slot(b, j) < n && Batch(Slot(b, j)) == b && Offset(Slot(b, j)) == j
  {
    forall k | 0 <= k < n
      ensures 0 <= Batch(k) <= n / InstancesPerBatch && 0 <= Offset(k) < DrawCount(n, Batch(k))
    {
      if Batch(k) == n / InstancesPerBatch {
        assert k == Batch(k) * InstancesPerBatch + Offset(k);
        assert n == (n / InstancesPerBatch) * InstancesPerBatch + n % InstancesPerBatch;
      }
    }
    SlotsDistinctBelow(n);
    forall b: nat, j | b <= n / InstancesPerBatch && 0 <= j < DrawCount(n, b)
      ensures 0 <= Slot(b, j) < n && Batch(Slot(b, j)) == b && Offset(Slot(b, j)) == j
    {
      assert n == (n / InstancesPerBatch) * InstancesPerBatch + n % InstancesPerBatch;
      SlotOf(b, j);
    }
  }

  /** The instances drawn in batches 0 .. k-1. */
  function DrawTotal(n: nat, k: nat): int {
    if k == 0 then 0 else DrawTotal(n, k - 1) + DrawCount(n, k - 1)
  }

  /** Every batch before the last draws 1023 instances. */
  lemma {:induction false} DrawTotalFull(n: nat, k: nat)
    requires k <= n / InstancesPerBatch
    ensures DrawTotal(n, k) == k * InstancesPerBatch
  {
    if k > 0 {
      DrawTotalFull(n, k - 1);
    }
  }

  /** The n / 1023 + 1 batches draw n instances in all. */
  lemma DrawsEveryOrbiter(n: nat)
    ensures DrawTotal(n, n / InstancesPerBatch + 1) == n
  {
    DrawTotalFull(n, n / InstancesPerBatch);
    assert n == (n / InstancesPerBatch) * InstancesPerBatch + n % InstancesPerBatch;
  }

  /** Two orbiters below n never share a slot. */
  lemma SlotsDistinctBelow(n: nat)
    ensures forall k1, k2 :: 0 <= k1 < k2 < n ==> Batch(k1) != Batch(k2) || Offset(k1) != Offset(k2)
  {
    forall k1, k2 | 0 <= k1 < k2 < n
      ensures Batch(k1) != Batch(k2) || Offset(k1) != Offset(k2)
    {
      assert k1 == Batch(k1) * InstancesPerBatch + Offset(k1);
      assert k2 == Batch(k2) * InstancesPerBatch + Offset(k2);
    }
  }

  /** Orbiters before k never share k's slot. */
  lemma SlotsDistinct(k: int)
    requires 0 <= k
    ensures forall k1 :: 0 <= k1 < k ==> Batch(k1) != Batch(k) || Offset(k1) != Offset(k)
  {
    SlotsDistinctBelow(k + 1);
  }

  /** Slot j of batch b is found again from its orbiter index. */
  lemma SlotOf(b: int, j: int)
    requires 0 <= j < InstancesPerBatch
    ensures Batch(Slot(b, j)) == b && Offset(Slot(b, j)) == j
  {
  }

  /** A MaterialPropertyBlock, reduced to the colour array set on it. */
  datatype PropertyBlock = NoBlock | Block(colors: seq<Vec4>)

  /** One Graphics.DrawMeshInstanced call: the batch's matrices, the instance count and the colours. */
  datatype Draw = Draw(matrices: seq<Matrix>, count: int, colors: seq<Vec4>)

  /** The orbiter OnEnable places at slot i: at rest at 50 times the i-th point drawn from the unit ball. */
  function Spawned(insideUnitSphere: nat -> Vec3, i: nat): Orbiter {
    NewOrbiter(Scale(insideUnitSphere(i), 50.0))
  }

  /**
   * The first n rows of a jagged batch array are allocated, 1023 slots each,
   * and pairwise distinct; the rest are still null.
   */
  ghost predicate RowsAllocated<T>(rows: array<array?<T>>, n: int)
    reads rows
  {
    && 0 <= n <= rows.Length
    && (forall b :: 0 <= b < n ==> rows[b] != null && rows[b].Length == InstancesPerBatch)
    && (forall b1, b2 :: 0 <= b1 < b2 < n ==> rows[b1] != rows[b2])
    && (forall b :: n <= b < rows.Length ==> rows[b] == null)
  }

  /** `rows[b] = new T[instancesPerBatch]`, every slot holding `fill`. */
  method AddRow<T>(rows: array<array?<T>>, b: int, fill: T)
    requires RowsAllocated(rows, b) && b < rows.Length
    modifies rows
    ensures RowsAllocated(rows, b + 1)
    ensures fresh(rows[b]) && rows[b][..] == seq(InstancesPerBatch, _ => fill)
    ensures forall c :: 0 <= c < b ==> rows[c] == old(rows[c])
  {
    rows[b] := new T[InstancesPerBatch](_ => fill);
  }

  /**
   * One more instance in the current batch; a full batch moves the tracker
   * to a freshly allocated row of each jagged array.
   */
  method CountInstance(rows: array<array?<Matrix>>, colorRows: array<array?<Vec4>>, batch: int, count: int)
    returns (batch': int, count': int)
    requires RowsAllocated(rows, batch + 1) && RowsAllocated(colorRows, batch + 1)
    requires 0 <= count < InstancesPerBatch && batch * InstancesPerBatch + count < ParticleCount
    requires rows.Length == colorRows.Length == ParticleCount / InstancesPerBatch + 1
    modifies rows, colorRows
    ensures batch' * InstancesPerBatch + count' == batch * InstancesPerBatch + count + 1
    ensures 0 <= count' < InstancesPerBatch
    ensures RowsAllocated(rows, batch' + 1) && RowsAllocated(colorRows, batch' + 1)
  {
    batch', count' := batch, count + 1;
    if count' == InstancesPerBatch {
      batch' := batch' + 1;
      count' := 0;
      AddRow(rows, batch', ZeroMatrix);
      AddRow(colorRows, batch', Zero4);
    }
  }

  /**
   * The spawning loop of OnEnable: slot i of the pool gets Spawned(i), and a
   * new row of each jagged array is allocated whenever the batch tracker
   * reaches 1023; the batch tracker ends at the last batch and the count
   * at its size.
   */
  method SpawnPool(insideUnitSphere: nat -> Vec3)
    returns (pool: array<Orbiter>, rows: array<array?<Matrix>>, colorRows: array<array?<Vec4>>, batch: int, count: int)
    ensures fresh(pool) && fresh(rows) && fresh(colorRows)
    ensures pool.Length == ParticleCount
    ensures forall k :: 0 <= k < pool.Length ==> pool[k] == Spawned(insideUnitSphere, k)
    ensures rows.Length == colorRows.Length == ParticleCount / InstancesPerBatch + 1
    ensures RowsAllocated(rows, rows.Length) && RowsAllocated(colorRows, colorRows.Length)
    ensures batch == ParticleCount / InstancesPerBatch && batch == rows.Length - 1
    ensures count == ParticleCount % InstancesPerBatch
  {
    count := 0;
    pool := new Orbiter[ParticleCount](_ => DefaultOrbiter);
    rows := new array?<Matrix>[ParticleCount / InstancesPerBatch + 1](_ => null);
    AddRow(rows, 0, ZeroMatrix);
    colorRows := new array?<Vec4>[rows.Length](_ => null);
    AddRow(colorRows, 0, Zero4);
    batch := 0;
    var i := 0;
    while i < pool.Length
      invariant 0 <= i <= pool.Length
      invariant i == batch * InstancesPerBatch + count && 0 <= count < InstancesPerBatch
      invariant RowsAllocated(rows, batch + 1) && RowsAllocated(colorRows, batch + 1)
      invariant forall k :: 0 <= k < i ==> pool[k] == Spawned(insideUnitSphere, k)
      modifies pool, rows, colorRows
    {
      pool[i] := Spawned(insideUnitSphere, i);
      batch, count := CountInstance(rows, colorRows, batch, count);
      i := i + 1;
    }
  }

  /**
   * `n` property-block slots, of which blocks 0 .. batch are created, each
   * holding 1023 zero colours; the slots above `batch` stay empty.
   */
  method NewPropertyBlocks(n: nat, batch: int) returns (props: array<PropertyBlock>)
    requires batch < n
    ensures fresh(props) && props.Length == n
    ensures forall b :: 0 <= b <= batch ==> props[b] == Block(seq(InstancesPerBatch, _ => Zero4))
    ensures forall b :: 0 <= b < n && b > batch ==> props[b] == NoBlock
  {
    props := new PropertyBlock[n](_ => NoBlock);
    var i := 0;
    while i <= batch
      invariant 0 <= i <= (if batch >= 0 then batch + 1 else 0)
      invariant forall c :: 0 <= c < i ==> props[c] == Block(seq(InstancesPerBatch, _ => Zero4))
      invariant forall c :: i <= c < n ==> props[c] == NoBlock
    {
      props[i] := Block(seq(InstancesPerBatch, _ => Zero4));
      i := i + 1;
    }
  }

  /** The MonoBehaviour's state. */
  class Manager {
    var settings: Settings
    var orbiters: array<Orbiter>
    var matrices: array<array?<Matrix>>
    var colors: array<array?<Vec4>>
    var matProps: array<PropertyBlock>
    var finalBatchCount: int

    /** The batch rows of both jagged arrays. */
    ghost function Rows(): set<object>
      reads this, matrices, colors
    {
      (set b | 0 <= b < matrices.Length && matrices[b] != null :: matrices[b] as object)
      + (set b | 0 <= b < colors.Length && colors[b] != null :: colors[b] as object)
    }

    ghost predicate Valid()
      reads this, matrices, colors
    {
      && orbiters.Length == ParticleCount
      && matrices.Length == ParticleCount / InstancesPerBatch + 1
      && colors.Length == matrices.Length && matProps.Length == colors.Length
      && RowsAllocated(matrices, matrices.Length)
      && RowsAllocated(colors, colors.Length)
      && finalBatchCount == ParticleCount % InstancesPerBatch
    }

    /**
     * OnEnable: fill the pool with orbiters at rest at 50 times a point of
     * the unit ball (`insideUnitSphere(i)` stands for the i-th draw of
     * Random.insideUnitSphere), allocate a new batch row every 1023
     * orbiters, and give each batch a property block of 1023 zero colours.
     */
    constructor OnEnable(s: Settings, insideUnitSphere: nat -> Vec3)
      ensures Valid()
      ensures settings == s
      ensures forall i :: 0 <= i < orbiters.Length ==> orbiters[i] == Spawned(insideUnitSphere, i)
      ensures forall b :: 0 <= b < matProps.Length ==> matProps[b] == Block(seq(InstancesPerBatch, _ => Zero4))
      ensures fresh(orbiters) && fresh(matrices) && fresh(colors) && fresh(matProps)
    {
      settings := s;
      var pool, rows, colorRows, batch, count := SpawnPool(insideUnitSphere);
      var props := NewPropertyBlocks(colorRows.Length, batch);
      orbiters, matrices, colors, matProps, finalBatchCount := pool, rows, colorRows, props, count;
    }

    /**
     * FixedUpdate: run the update job over the whole pool with this step's
     * frame time, evaluator clock, model and frame count.
     */
    method FixedUpdate(h: Host, deltaTime: real, timeStatic: real, frameCount: int, model: int)
      requires Valid()
      modifies orbiters
      ensures Valid()
      ensures forall i :: 0 <= i < orbiters.Length ==>
                orbiters[i] == Step(h, settings, MakeFrame(settings, deltaTime, timeStatic, frameCount, model), i, old(orbiters[i]))
    {
      var f := MakeFrame(settings, deltaTime, timeStatic, frameCount, model);
      var s := settings;
      ForEachOrbiter(h, s, f, orbiters);
    }

    /** Write orbiter k's transform and colour into its batch slot. */
    method WriteSlot(k: int, m: Matrix, c: Vec4)
      requires Valid() && 0 <= k < ParticleCount
      modifies matrices[Batch(k)], colors[Batch(k)]
      ensures matrices[Batch(k)][Offset(k)] == m && colors[Batch(k)][Offset(k)] == c
      ensures forall j :: 0 <= j < InstancesPerBatch && j != Offset(k) ==>
                matrices[Batch(k)][j] == old(matrices[Batch(k)][j]) && colors[Batch(k)][j] == old(colors[Batch(k)][j])
    {
      matrices[k / InstancesPerBatch][k % InstancesPerBatch] := m;
      colors[k / InstancesPerBatch][k % InstancesPerBatch] := c;
    }

    /**
     * Update: copy every orbiter's transform and colour into its batch slot,
     * then hand each batch to the renderer, 1023 instances per batch except
     * finalBatchCount for the last. The draws are returned in call order.
     */
    method Update(h: Host) returns (draws: seq<Draw>)
      requires Valid()
      modifies Rows(), matProps
      ensures Valid()
      ensures forall k :: 0 <= k < ParticleCount ==>
                && matrices[Batch(k)][Offset(k)] == RenderMatrix(h, orbiters[k].position, orbiters[k].velocity, settings.speedStretch)
                && colors[Batch(k)][Offset(k)] == orbiters[k].color
      ensures |draws| == matrices.Length
      ensures forall b :: 0 <= b < |draws| ==>
                && draws[b] == Draw(matrices[b][..], DrawCount(ParticleCount, b), colors[b][..])
                && matProps[b] == Block(colors[b][..])
    {
      CopyInstances(h);
      draws := DrawBatches();
    }

    /** The first loop of Update: orbiter k's transform and colour go to slot k % 1023 of row k / 1023. */
    method CopyInstances(h: Host)
      requires Valid()
      modifies Rows()
      ensures Valid()
      ensures forall k :: 0 <= k < ParticleCount ==>
                && matrices[Batch(k)][Offset(k)] == RenderMatrix(h, orbiters[k].position, orbiters[k].velocity, settings.speedStretch)
                && colors[Batch(k)][Offset(k)] == orbiters[k].color
    {
      var i := 0;
      while i < orbiters.Length
        invariant 0 <= i <= orbiters.Length
        invariant Valid()
        invariant forall k :: 0 <= k < i ==>
                    && matrices[Batch(k)][Offset(k)] == RenderMatrix(h, orbiters[k].position, orbiters[k].velocity, settings.speedStretch)
                    && colors[Batch(k)][Offset(k)] == orbiters[k].color
      {
        var orbiter := orbiters[i];
        var matrix := RenderMatrix(h, orbiter.position, orbiter.velocity, settings.speedStretch);
        SlotsDistinct(i);
        WriteSlot(i, matrix, orbiter.color);
        i := i + 1;
      }
    }

    /**
     * The second loop of Update: each batch's colours are set on its
     * property block and the batch is drawn, 1023 instances except
     * finalBatchCount for the last.
     */
    method DrawBatches() returns (draws: seq<Draw>)
      requires Valid()
      modifies matProps
      ensures |draws| == matrices.Length
      ensures forall b :: 0 <= b < |draws| ==>
                && draws[b] == Draw(matrices[b][..], DrawCount(ParticleCount, b), colors[b][..])
                && matProps[b] == Block(colors[b][..])
    {
      draws := [];
      var b := 0;
      while b < matrices.Length
        invariant 0 <= b <= matrices.Length
        invariant |draws| == b
        invariant forall c :: 0 <= c < b ==>
                    && draws[c] == Draw(matrices[c][..], DrawCount(ParticleCount, c), colors[c][..])
                    && matProps[c] == Block(colors[c][..])
      {
        var count := InstancesPerBatch;
        if b == matrices.Length - 1 {
          count := finalBatchCount;
        }
        matProps[b] := Block(colors[b][..]);
        draws := draws + [Draw(matrices[b][..], count, colors[b][..])];
        b := b + 1;
      }
    }
  }
}
