/**
 * The ECS render system (ECS/ParticleRenderer.cs): per-batch rows of 1023
 * matrix and colour slots allocated once, a copy job per batch that moves
 * the entities' transforms and colours into their row, and a polling loop
 * that draws each batch once its copy job reports completion, tracking the
 * batches still pending in a 64-bit mask.
 */
module ParticleRenderer {
  import opened Numerics
  import opened Words
  import opened ParticleManager

  // ----- batch counts -----

  /** OnCreate's row count for a particle count of pcount. */
  function RowCount(pcount: nat): nat {
    pcount / InstancesPerBatch + 1
  }

  /** OnUpdate's batch count: only the full batches of the n entities. */
  function BatchCount(n: nat): nat {
    n / InstancesPerBatch
  }

  /** The instance count OnUpdate passes for batch i: n % 1023 for the last batch, 1023 otherwise. */
  function DrawnCount(n: nat, i: int): (c: nat)
    ensures c <= InstancesPerBatch
  {
    if i == BatchCount(n) - 1 then n % InstancesPerBatch else InstancesPerBatch
  }

  // ----- the copy job -----

  /** The fields of MemCpyJob that its Execute reads; the destinations are passed to Execute. */
  datatype MemCpyJob = MemCpyJob(srcMatrix: seq<Matrix>, srcColor: seq<Vec4>, batchSize: int, index: int)

  /** The batchSize field after Execute's first statement: the remainder for the partial batch. */
  function EffectiveBatchSize(job: MemCpyJob): int
    requires job.batchSize > 0
  {
    if job.index == |job.srcColor| / job.batchSize then |job.srcColor| % job.batchSize else job.batchSize
  }

  /** The first source element Execute copies: the index times the reassigned batchSize. */
  function CopyStart(job: MemCpyJob): int
    requires job.batchSize > 0
  {
    job.index * EffectiveBatchSize(job)
  }

  /** The copied range lies within both sources and both destinations. */
  predicate CopyFits(job: MemCpyJob, matrixSlots: int, colorSlots: int)
    requires job.batchSize > 0
  {
    && 0 <= CopyStart(job)
    && 0 <= EffectiveBatchSize(job) <= matrixSlots
    && EffectiveBatchSize(job) <= colorSlots
    && CopyStart(job) + EffectiveBatchSize(job) <= |job.srcMatrix|
    && CopyStart(job) + EffectiveBatchSize(job) <= |job.srcColor|
  }

  /** UnsafeUtility.MemCpy of |src| elements to the start of dst. */
  method MemCpy<T>(dst: array<T>, src: seq<T>)
    requires |src| <= dst.Length
    modifies dst
    ensures dst[..] == src + old(dst[..])[|src|..]
  {
    var k := 0;
    while k < |src|
      invariant 0 <= k <= |src|
      invariant forall j :: 0 <= j < k ==> dst[j] == src[j]
      invariant forall j :: k <= j < dst.Length ==> dst[j] == old(dst[j])
    {
      dst[k] := src[k];
      k := k + 1;
    }
  }

  /**
   * MemCpyJob.Execute: batchSize is reassigned first, then batchSize
   * transforms and colours starting at index * batchSize are copied to the
   * start of the batch's rows.
   */
  method Execute(job: MemCpyJob, dstMatrix: array<Matrix>, dstColor: array<Vec4>)
    requires job.batchSize > 0 && CopyFits(job, dstMatrix.Length, dstColor.Length)
    modifies dstMatrix, dstColor
    ensures dstMatrix[..] == job.srcMatrix[CopyStart(job) .. CopyStart(job) + EffectiveBatchSize(job)]
                             + old(dstMatrix[..])[EffectiveBatchSize(job)..]
    ensures dstColor[..] == job.srcColor[CopyStart(job) .. CopyStart(job) + EffectiveBatchSize(job)]
                            + old(dstColor[..])[EffectiveBatchSize(job)..]
  {
    var batchSize := if job.index == |job.srcColor| / job.batchSize then |job.srcColor| % job.batchSize else job.batchSize;
    var start := job.index * batchSize;
    MemCpy(dstMatrix, job.srcMatrix[start .. start + batchSize]);
    MemCpy(dstColor, job.srcColor[start .. start + batchSize]);
  }

  /**
   * Every job OnUpdate schedules is for a full batch: its index is below
   * Length / 1023, so the reassignment keeps batchSize = 1023 and the job
   * copies source range [index * 1023, index * 1023 + 1023), which ends at
   * or before Length - Length % 1023; the trailing Length % 1023 entities
   * are never copied.
   */
  lemma ScheduledJobIsFull(job: MemCpyJob)
    requires job.batchSize == InstancesPerBatch && |job.srcMatrix| == |job.srcColor|
    requires 0 <= job.index < BatchCount(|job.srcColor|)
    ensures EffectiveBatchSize(job) == InstancesPerBatch
    ensures CopyStart(job) == job.index * InstancesPerBatch
    ensures CopyStart(job) + InstancesPerBatch <= |job.srcColor| - |job.srcColor| % InstancesPerBatch
    ensures CopyFits(job, InstancesPerBatch, InstancesPerBatch)
  {
    var n := |job.srcColor|;
    assert n == BatchCount(n) * InstancesPerBatch + n % InstancesPerBatch;
  }

  // ----- the pending-batch mask -----

  /**
   * UInt64.MaxValue >> (64 - bc); C# takes a ulong shift count modulo 64,
   * which for a negative count is the Euclidean remainder.
   */
  function InitialMask(bc: int): (m: nat)
    ensures m < Word64
  {
    Pow2Widths();
    ShrNotGreater(Word64 - 1, (64 - bc) % 64);
    Shr(Word64 - 1, (64 - bc) % 64)
  }

  /**
   * The initial mask has exactly bits 0 .. bc-1 set when 1 <= bc <= 64; for
   * any positive bc its bits lie below both bc and 64.
   */
  lemma InitialMaskBits(bc: int, j: nat)
    requires 1 <= bc
    ensures 1 <= bc <= 64 ==> (TestBit(InitialMask(bc), j) <==> j < bc)
    ensures TestBit(InitialMask(bc), j) ==> j < bc && j < 64
  {
    var s := (64 - bc) % 64;
    Pow2Widths();
    ShrBits(Word64 - 1, s, j);
    AllOnesBits(64, j + s);
  }

  /**
   * As written, for 65 .. 127 batches the shift count wraps to 128 - bc and
   * the mask keeps only bits 0 .. bc-65: with 65 batches it is 1, so batches
   * 1 .. 63 never have a pending bit and the polling loop never draws them.
   */
  lemma AsWrittenWideMask(bc: int, j: nat)
    requires 65 <= bc <= 127
    ensures TestBit(InitialMask(bc), j) <==> j < bc - 64
  {
    Pow2Widths();
    ShrBits(Word64 - 1, 128 - bc, j);
    AllOnesBits(64, j + 128 - bc);
  }

  /** The mask evidently intended: one pending bit per batch, however many batches. */
  function CorrectedInitialMask(bc: nat): nat {
    Pow2(bc) - 1
  }

  /** The corrected mask has exactly bits 0 .. bc-1 set, for every batch count. */
  lemma CorrectedMaskBits(bc: nat, j: nat)
    ensures TestBit(CorrectedInitialMask(bc), j) <==> j < bc
  {
    AllOnesBits(bc, j);
  }

  /** The batches drawn, in draw order, are each drawn at most once and cover 0 .. bc-1. */
  predicate EachOnce(order: seq<int>, bc: int) {
    && (forall i :: 0 <= i < bc ==> i in order)
    && (forall k1, k2 :: 0 <= k1 < k2 < |order| ==> order[k1] != order[k2])
  }

  /** The result of one OnUpdate: the draws in call order, with the batch of each, or the exception. */
  datatype Outcome = Rendered(order: seq<int>, draws: seq<Draw>) | IndexOutOfRange

  /** The render system's state. */
  class RenderSystem {
    var matricesM: array<array?<Matrix>>
    var colorsM: array<array?<Vec4>>
    /** The length of handlesC, handlesM and jobs, allocated alongside the rows. */
    var handleCount: int

    /** The batch rows of both jagged arrays. */
    ghost function Rows(): set<object>
      reads this, matricesM, colorsM
    {
      (set b | 0 <= b < matricesM.Length && matricesM[b] != null :: matricesM[b] as object)
      + (set b | 0 <= b < colorsM.Length && colorsM[b] != null :: colorsM[b] as object)
    }

    ghost predicate Valid()
      reads this, matricesM, colorsM
    {
      && matricesM.Length == handleCount
      && colorsM.Length == handleCount
      && RowsAllocated(matricesM, matricesM.Length)
      && RowsAllocated(colorsM, colorsM.Length)
    }

    /** OnCreate: pcount / 1023 + 1 rows of 1023 zero matrices and 1023 zero colours, and as many handles. */
    constructor OnCreate(pcount: nat)
      ensures Valid() && handleCount == RowCount(pcount)
      ensures forall b :: 0 <= b < handleCount ==>
                matricesM[b][..] == seq(InstancesPerBatch, _ => ZeroMatrix) && colorsM[b][..] == seq(InstancesPerBatch, _ => Zero4)
      ensures fresh(matricesM) && fresh(colorsM)
    {
      var rows, colorRows := AllocateRows(RowCount(pcount));
      matricesM, colorsM, handleCount := rows, colorRows, RowCount(pcount);
    }

    /** The allocation loop of OnCreate. */
    static method AllocateRows(batchCount: nat) returns (rows: array<array?<Matrix>>, colorRows: array<array?<Vec4>>)
      ensures fresh(rows) && fresh(colorRows)
      ensures rows.Length == batchCount && colorRows.Length == batchCount
      ensures RowsAllocated(rows, batchCount) && RowsAllocated(colorRows, batchCount)
      ensures forall b :: 0 <= b < batchCount ==>
                rows[b][..] == seq(InstancesPerBatch, _ => ZeroMatrix) && colorRows[b][..] == seq(InstancesPerBatch, _ => Zero4)
    {
      rows := new array?<Matrix>[batchCount](_ => null);
      colorRows := new array?<Vec4>[batchCount](_ => null);
      var i := 0;
      while i < batchCount
        invariant 0 <= i <= batchCount
        invariant RowsAllocated(rows, i) && RowsAllocated(colorRows, i)
        invariant forall b :: 0 <= b < i ==>
                    rows[b][..] == seq(InstancesPerBatch, _ => ZeroMatrix) && colorRows[b][..] == seq(InstancesPerBatch, _ => Zero4)
        modifies rows, colorRows
      {
        AddRow(rows, i, ZeroMatrix);
        AddRow(colorRows, i, Zero4);
        i := i + 1;
      }
    }

    /** Batch i as handed to DrawMeshInstanced for n entities: its row of matrices, its count, its row of colours. */
    function DrawOf(n: nat, i: int): Draw
      requires Valid() && 0 <= i < handleCount
      reads this, matricesM, colorsM, matricesM[i], colorsM[i]
    {
      Draw(matricesM[i][..], DrawnCount(n, i), colorsM[i][..])
    }

    /** Each recorded draw is the draw of its batch, and every batch drawn is scheduled. */
    ghost predicate Drawn(n: nat, order: seq<int>, draws: seq<Draw>)
      reads this, matricesM, colorsM, Rows()
    {
      && Valid()
      && BatchCount(n) <= handleCount
      && |order| == |draws|
      && (forall k :: 0 <= k < |order| ==> 0 <= order[k] < BatchCount(n) && draws[k] == DrawOf(n, order[k]))
    }

    /**
     * OnUpdate for the n = |localToWorlds| entities of the query, whose
     * colours come from the same query. `isCompleted(round, i)` answers
     * jobs[i].IsCompleted during the round-th pass of the polling loop; every
     * job has completed by pass `deadline`.
     */
    method OnUpdate(localToWorlds: seq<Matrix>, colors: seq<Vec4>, isCompleted: (nat, int) -> bool, deadline: nat)
      returns (outcome: Outcome)
      requires Valid() && |colors| == |localToWorlds|
      requires forall round: nat, i :: deadline <= round ==> isCompleted(round, i)
      modifies Rows()
      ensures Valid()
      ensures outcome == IndexOutOfRange <==> BatchCount(|colors|) > handleCount
      ensures BatchCount(|colors|) == 0 ==> outcome == Rendered([], [])
      ensures outcome.Rendered? ==>
                forall b :: 0 <= b < BatchCount(|colors|) ==>
                  && matricesM[b][..] == localToWorlds[b * InstancesPerBatch .. b * InstancesPerBatch + InstancesPerBatch]
                  && colorsM[b][..] == colors[b * InstancesPerBatch .. b * InstancesPerBatch + InstancesPerBatch]
      ensures forall b :: BatchCount(|colors|) <= b < handleCount || (outcome == IndexOutOfRange && 0 <= b < handleCount) ==>
                matricesM[b][..] == old(matricesM[b][..]) && colorsM[b][..] == old(colorsM[b][..])
      ensures outcome.Rendered? ==> Drawn(|colors|, outcome.order, outcome.draws)
      ensures outcome.Rendered? && BatchCount(|colors|) <= 64 ==> EachOnce(outcome.order, BatchCount(|colors|))
    {
      var n := |colors|;
      var batchcount := n / InstancesPerBatch;
      if batchcount == 0 {
        return Rendered([], []);
      }
      if batchcount > handleCount {
        // handlesM[handleCount] is out of range: the exception leaves OnUpdate before any job is scheduled.
        return IndexOutOfRange;
      }
      CopyBatches(localToWorlds, colors);
      var order, draws := DrawPending(n, isCompleted, deadline);
      outcome := Rendered(order, draws);
    }

    /** The scheduled copy jobs, run to completion: job i copies full batch i into row i. */
    method CopyBatches(localToWorlds: seq<Matrix>, colors: seq<Vec4>)
      requires Valid() && |colors| == |localToWorlds| && BatchCount(|colors|) <= handleCount
      modifies Rows()
      ensures Valid()
      ensures forall b :: 0 <= b < handleCount ==>
                if b < BatchCount(|colors|) then
                  && matricesM[b][..] == localToWorlds[b * InstancesPerBatch .. b * InstancesPerBatch + InstancesPerBatch]
                  && colorsM[b][..] == colors[b * InstancesPerBatch .. b * InstancesPerBatch + InstancesPerBatch]
                else
                  matricesM[b][..] == old(matricesM[b][..]) && colorsM[b][..] == old(colorsM[b][..])
    {
      var i := 0;
      while i < BatchCount(|colors|)
        invariant 0 <= i <= BatchCount(|colors|)
        invariant Valid()
        invariant forall b :: 0 <= b < handleCount ==>
                    if b < i then
                      && matricesM[b][..] == localToWorlds[b * InstancesPerBatch .. b * InstancesPerBatch + InstancesPerBatch]
                      && colorsM[b][..] == colors[b * InstancesPerBatch .. b * InstancesPerBatch + InstancesPerBatch]
                    else
                      matricesM[b][..] == old(matricesM[b][..]) && colorsM[b][..] == old(colorsM[b][..])
      {
        var job := MemCpyJob(localToWorlds, colors, InstancesPerBatch, i);
        ScheduledJobIsFull(job);
        Execute(job, matricesM[i], colorsM[i]);
        i := i + 1;
      }
    }

    /**
     * The polling loop: pass after pass over the batches, draw every pending
     * batch whose job has completed and clear its bit, until the mask is 0.
     */
    method DrawPending(n: nat, isCompleted: (nat, int) -> bool, deadline: nat) returns (order: seq<int>, draws: seq<Draw>)
      requires Valid() && 1 <= BatchCount(n) <= handleCount
      requires forall round: nat, i :: deadline <= round ==> isCompleted(round, i)
      ensures Drawn(n, order, draws)
      ensures BatchCount(n) <= 64 ==> EachOnce(order, BatchCount(n))
    {
      var bc := BatchCount(n);
      var mask := InitialMask(bc);
      forall j: nat
        ensures 1 <= bc <= 64 ==> (TestBit(mask, j) <==> j < bc)
        ensures TestBit(mask, j) ==> j < bc && j < 64
      {
        InitialMaskBits(bc, j);
      }
      order, draws := [], [];
      var round: nat := 0;
      while mask != 0
        invariant Drawn(n, order, draws) && MaskTracks(bc, mask, order)
        invariant mask != 0 ==> round <= deadline
        decreases deadline - round
      {
        mask, order, draws := Poll(n, round, isCompleted, mask, order, draws);
        round := round + 1;
      }
      if bc <= 64 {
        forall i | 0 <= i < bc
          ensures i in order
        {
          ZeroHasNoBits(i);
        }
      }
    }

    /** One pass of the for loop inside the polling loop. */
    method Poll(n: nat, round: nat, isCompleted: (nat, int) -> bool, mask0: nat, order0: seq<int>, draws0: seq<Draw>)
      returns (mask: nat, order: seq<int>, draws: seq<Draw>)
      requires 1 <= BatchCount(n)
      requires Drawn(n, order0, draws0) && MaskTracks(BatchCount(n), mask0, order0)
      ensures Drawn(n, order, draws) && MaskTracks(BatchCount(n), mask, order)
      ensures (forall i :: 0 <= i < BatchCount(n) ==> isCompleted(round, i)) ==> mask == 0
    {
      mask, order, draws := mask0, order0, draws0;
      var batchcount := BatchCount(n);
      var i := 0;
      while i < batchcount
        invariant 0 <= i <= batchcount
        invariant Drawn(n, order, draws) && MaskTracks(batchcount, mask, order)
        invariant forall j :: 0 <= j < i && isCompleted(round, j) ==> !TestBit(mask, j % 64)
      {
        mask, order, draws := PollBatch(n, round, isCompleted, i, mask, order, draws);
        i := i + 1;
      }
      if forall i :: 0 <= i < batchcount ==> isCompleted(round, i) {
        forall j | 0 <= j < 64
          ensures !TestBit(mask, j)
        {
          assert j % 64 == j;
        }
        Pow2Widths();
        NoBitsIsZero(mask, 64);
      }
    }

    /**
     * The body of that for loop for batch i: a pending batch whose job has
     * completed is drawn, 1023 instances except n % 1023 for the last, and its
     * bit is cleared.
     */
    method PollBatch(n: nat, round: nat, isCompleted: (nat, int) -> bool, i: int, mask0: nat, order0: seq<int>, draws0: seq<Draw>)
      returns (mask: nat, order: seq<int>, draws: seq<Draw>)
      requires 0 <= i < BatchCount(n)
      requires Drawn(n, order0, draws0) && MaskTracks(BatchCount(n), mask0, order0)
      ensures Drawn(n, order, draws) && MaskTracks(BatchCount(n), mask, order)
      ensures isCompleted(round, i) ==> !TestBit(mask, i % 64)
      ensures forall j :: TestBit(mask, j) ==> TestBit(mask0, j)
    {
      mask, order, draws := mask0, order0, draws0;
      var batchcount := BatchCount(n);
      var bit := Pow2(i % 64);
      AndWithBit(mask, i % 64, 64);
      if And(mask, bit, 64) != 0 && isCompleted(round, i) {
        var count := if i == batchcount - 1 then n % InstancesPerBatch else InstancesPerBatch;
        draws := draws + [Draw(matricesM[i][..], count, colorsM[i][..])];
        ClearPending(batchcount, mask, order, i);
        order := order + [i];
        mask := And(mask, Not(bit, 64), 64);
      }
    }
  }

  /** The bits of the mask lie below the batch count and below 64. */
  ghost predicate MaskBelow(bc: int, mask: nat) {
    && mask < Word64
    && (forall j: nat :: TestBit(mask, j) ==> j < bc && j < 64)
  }

  /** No batch appears twice in the draw order. */
  predicate Distinct(order: seq<int>) {
    forall k1, k2 :: 0 <= k1 < k2 < |order| ==> order[k1] != order[k2]
  }

  /**
   * The mask is a 64-bit word whose bits lie below the batch count; with at
   * most 64 batches, a batch has been drawn exactly when its bit is clear,
   * and no batch has been drawn twice.
   */
  ghost predicate MaskTracks(bc: int, mask: nat, order: seq<int>) {
    && MaskBelow(bc, mask)
    && (bc <= 64 ==>
          && (forall i :: 0 <= i < bc ==> (i in order <==> !TestBit(mask, i)))
          && Distinct(order))
  }

  /** Clearing the bit of pending batch i as it is drawn keeps the mask tracking the draws. */
  lemma ClearPending(bc: int, mask: nat, before: seq<int>, i: int)
    requires 0 <= i < bc && MaskTracks(bc, mask, before) && TestBit(mask, i % 64)
    ensures MaskTracks(bc, And(mask, Not(Pow2(i % 64), 64), 64), before + [i])
    ensures !TestBit(And(mask, Not(Pow2(i % 64), 64), 64), i % 64)
    ensures forall j :: TestBit(And(mask, Not(Pow2(i % 64), 64), 64), j) ==> TestBit(mask, j)
  {
    ClearedBits(mask, i % 64);
    TracksAfterClear(bc, mask, And(mask, Not(Pow2(i % 64), 64), 64), before, i);
  }

  /** A mask with exactly the bit of batch i cleared tracks the order with i appended. */
  lemma TracksAfterClear(bc: int, mask: nat, cleared: nat, before: seq<int>, i: int)
    requires 0 <= i < bc && MaskTracks(bc, mask, before) && TestBit(mask, i % 64)
    requires cleared < Word64
    requires forall j :: TestBit(cleared, j) <==> TestBit(mask, j) && j != i % 64 && j < 64
    ensures MaskTracks(bc, cleared, before + [i])
  {
    if bc <= 64 {
      assert i % 64 == i;
      AppendDistinct(before, i);
      forall i' | 0 <= i' < bc
        ensures i' in before + [i] <==> !TestBit(cleared, i')
      {
        assert i' in before + [i] <==> i' in before || i' == i;
      }
    }
  }

  /** mask & ~(1 << b) is a 64-bit word with the bits of mask other than b. */
  lemma ClearedBits(mask: nat, b: nat)
    requires b < 64
    ensures And(mask, Not(Pow2(b), 64), 64) < Word64
    ensures forall j :: TestBit(And(mask, Not(Pow2(b), 64), 64), j) <==> TestBit(mask, j) && j != b && j < 64
  {
    Pow2Widths();
    forall j
      ensures TestBit(And(mask, Not(Pow2(b), 64), 64), j) <==> TestBit(mask, j) && j != b && j < 64
    {
      AndNotBit(mask, b, 64, j);
    }
  }

  /** Appending a batch not yet drawn keeps the order free of repeats. */
  lemma AppendDistinct(before: seq<int>, i: int)
    requires Distinct(before) && i !in before
    ensures Distinct(before + [i])
  {
    var order := before + [i];
    forall k1, k2 | 0 <= k1 < k2 < |order|
      ensures order[k1] != order[k2]
    {
      if k2 < |before| {
        assert order[k1] == before[k1] && order[k2] == before[k2];
      } else {
        assert order[k1] in before;
      }
    }
  }

  // ----- what the batching draws -----

  /** The instances OnUpdate draws in batches 0 .. k-1. */
  function DrawnTotal(n: nat, k: nat): int {
    if k == 0 then 0 else DrawnTotal(n, k - 1) + DrawnCount(n, k - 1)
  }

  /** All batches before the last draw 1023 instances. */
  lemma {:induction false} DrawnTotalFull(n: nat, k: nat)
    requires k < BatchCount(n)
    ensures DrawnTotal(n, k) == k * InstancesPerBatch
  {
    if k > 0 {
      DrawnTotalFull(n, k - 1);
    }
  }

  /**
   * As written, OnUpdate draws 1023 instances fewer than there are entities
   * (none at all below 1023): the last full batch is drawn with only
   * n % 1023 instances and the partial batch is not drawn.
   */
  lemma AsWrittenDrawnTotal(n: nat)
    ensures DrawnTotal(n, BatchCount(n)) == if n < InstancesPerBatch then 0 else n - InstancesPerBatch
  {
    var bc := BatchCount(n);
    if bc > 0 {
      DrawnTotalFull(n, bc - 1);
      assert n == bc * InstancesPerBatch + n % InstancesPerBatch;
    }
  }

  /** With 1500 entities, one batch is drawn with 477 instances: 1023 entities are never drawn. */
  lemma AsWrittenDropsEntities()
    ensures BatchCount(1500) == 1 && DrawnCount(1500, 0) == 477
    ensures DrawnTotal(1500, BatchCount(1500)) == 477
  {
    AsWrittenDrawnTotal(1500);
  }

  /**
   * Had the partial batch been scheduled, the reassigned batchSize would also
   * have moved its source offset: with 1500 entities, job 1 would copy from
   * 477 instead of 1023, overlapping batch 0.
   */
  lemma ReassignedOffsetOverlaps(srcMatrix: seq<Matrix>, srcColor: seq<Vec4>)
    requires |srcColor| == 1500
    ensures EffectiveBatchSize(MemCpyJob(srcMatrix, srcColor, InstancesPerBatch, 1)) == 477
    ensures CopyStart(MemCpyJob(srcMatrix, srcColor, InstancesPerBatch, 1)) == 477
  {
  }

  /** The intended copy offset of batch i: i * 1023, whatever the batch's size. */
  function CorrectedCopyStart(i: int): int {
    i * InstancesPerBatch
  }

  /**
   * With n / 1023 + 1 batches, as OnCreate allocates and the MonoBehaviour
   * version draws, each copied from i * 1023 and drawn with DrawCount(n, i)
   * instances, the batches tile the entities: entity k is
   * copied and drawn in batch k / 1023 only, and exactly n instances are
   * drawn.
   */
  lemma CorrectedDrawsEveryEntity(n: nat)
    ensures DrawTotal(n, RowCount(n)) == n
    ensures forall k :: 0 <= k < n ==>
              && 0 <= k / InstancesPerBatch < RowCount(n)
              && CorrectedCopyStart(k / InstancesPerBatch) <= k < CorrectedCopyStart(k / InstancesPerBatch) + DrawCount(n, k / InstancesPerBatch)
    ensures forall b: nat, j :: b < RowCount(n) && 0 <= j < DrawCount(n, b) ==>
              Slot(b, j) == CorrectedCopyStart(b) + j && 0 <= Slot(b, j) < n && Batch(Slot(b, j)) == b
  {
    DrawsEveryOrbiter(n);
    EveryOrbiterDrawnOnce(n);
    forall k | 0 <= k < n
      ensures CorrectedCopyStart(k / InstancesPerBatch) <= k < CorrectedCopyStart(k / InstancesPerBatch) + DrawCount(n, k / InstancesPerBatch)
    {
      assert k == Batch(k) * InstancesPerBatch + Offset(k);
    }
  }
}
