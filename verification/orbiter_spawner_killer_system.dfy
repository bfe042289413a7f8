/**
 * OrbiterSpawnerKillerSystem: every frame, record creates until the orbiter
 * count reaches the target particle count, or destroys of the first surplus
 * orbiters when it is above it.
 */
module OrbiterSpawnerKillerSystem {
  import opened Numerics
  import opened Words
  import opened OrbiterUpdate
  import opened EntityCommands

  /**
   * The orbiter created when the running count reaches `count`: its seed
   * uses count + 1, its point is NextFloat3(-1, 1) pulled into the unit ball.
   */
  function Spawn(h: Host, frameCount: int, count: int): (c: Command)
    ensures c.CreateOrbiter? && c.localToWorld == IdentityMatrix && c.orbiter.velocity == Zero3 && c.color.value == Zero4
  {
    SpawnCommand(ClampToUnitBall(h, h.nextFloat3Signed(Seed(frameCount, count))))
  }

  /**
   * What OnUpdate records for the orbiters `entities` (in query order) and
   * the target count: one create per missing orbiter, numbered on from the
   * current count, or one destroy per surplus orbiter, from the front. A
   * negative target asks for more destroys than there are orbiters: every
   * orbiter is destroyed, then the next array access throws.
   */
  function Reconcile(h: Host, frameCount: int, target: int, entities: seq<Entity>): Recorded {
    var n := |entities|;
    if n < target then
      Recorded(seq(target - n, k => Spawn(h, frameCount, n + k + 1)), false)
    else if target < 0 then
      Recorded(seq(n, i requires 0 <= i < n => DestroyEntity(entities[i])), true)
    else
      Recorded(seq(n - target, i requires 0 <= i < n - target => DestroyEntity(entities[i])), false)
  }

  /** OnUpdate, with the particle query's entities and the target count (settings.particleCount). */
  method OnUpdate(h: Host, frameCount: int, target: int, entities: seq<Entity>) returns (r: Recorded)
    ensures r == Reconcile(h, frameCount, target, entities)
  {
    var commands := CreateMissing(h, frameCount, target, |entities|);
    var currentParticleCount := |entities| + |commands|;
    if currentParticleCount > target {
      var toKill := currentParticleCount - target;
      var i := 0;
      while i < toKill
        invariant 0 <= i <= toKill && i <= |entities|
        invariant |commands| == i
        invariant forall k :: 0 <= k < i ==> commands[k] == DestroyEntity(entities[k])
      {
        if i >= |entities| {
          // entityArray[i] is out of range.
          return Recorded(commands, true);
        }
        commands := commands + [DestroyEntity(entities[i])];
        i := i + 1;
      }
    }
    r := Recorded(commands, false);
  }

  /**
   * The create loop of OnUpdate: the running count goes up from n to the
   * target, and each step records a create seeded with the new count.
   */
  method CreateMissing(h: Host, frameCount: int, target: int, n: int) returns (commands: seq<Command>)
    ensures commands == seq(if n < target then target - n else 0, k => Spawn(h, frameCount, n + k + 1))
  {
    var currentParticleCount := n;
    commands := [];
    while currentParticleCount < target
      invariant n <= currentParticleCount
      invariant n < target ==> currentParticleCount <= target
      invariant n >= target ==> currentParticleCount == n
      invariant |commands| == currentParticleCount - n
      invariant forall k :: 0 <= k < |commands| ==> commands[k] == Spawn(h, frameCount, n + k + 1)
    {
      currentParticleCount := currentParticleCount + 1;
      var seed := Seed(frameCount, currentParticleCount);
      var insideSphere := PullIntoBall(h, h.nextFloat3Signed(seed));
      commands := commands + [SpawnCommand(insideSphere)];
      assert commands[|commands| - 1] == Spawn(h, frameCount, currentParticleCount);
    }
    CreatesInOrder(h, frameCount, target, n, commands);
  }

  /** The creates of the loop, in order, are those Reconcile records. */
  lemma CreatesInOrder(h: Host, frameCount: int, target: int, n: int, commands: seq<Command>)
    requires |commands| == (if n < target then target - n else 0)
    requires forall k :: 0 <= k < |commands| ==> commands[k] == Spawn(h, frameCount, n + k + 1)
    ensures commands == seq(if n < target then target - n else 0, k => Spawn(h, frameCount, n + k + 1))
  {
  }

  /**
   * Exactly max(0, target - n) creates and, for a non-negative target,
   * exactly max(0, n - target) destroys are recorded; never both. The
   * update throws exactly when the target is negative, after destroying
   * every orbiter.
   */
  lemma ReconcileCounts(h: Host, frameCount: int, target: int, entities: seq<Entity>)
    ensures var r := Reconcile(h, frameCount, target, entities);
            && Creates(r.commands) == (if target > |entities| then target - |entities| else 0)
            && (target >= 0 ==> Destroys(r.commands) == (if |entities| > target then |entities| - target else 0))
            && (target < 0 ==> Destroys(r.commands) == |entities|)
            && (Creates(r.commands) == 0 || Destroys(r.commands) == 0)
            && (r.threw <==> target < 0)
  {
    var r := Reconcile(h, frameCount, target, entities);
    if |entities| < target {
      forall k | 0 <= k < |r.commands|
        ensures r.commands[k].CreateOrbiter?
      {
        assert r.commands[k] == Spawn(h, frameCount, |entities| + k + 1);
      }
      OnlyCreates(r.commands);
    } else {
      OnlyDestroys(r.commands);
    }
  }

  /**
   * Played back, the recorded commands bring the orbiter count to the
   * target; with a negative target, to zero.
   */
  lemma ReconcileReachesTarget(h: Host, frameCount: int, target: int, entities: seq<Entity>)
    ensures target >= 0 ==> PlayBack(|entities|, Reconcile(h, frameCount, target, entities).commands) == target
    ensures target < 0 ==> PlayBack(|entities|, Reconcile(h, frameCount, target, entities).commands) == 0
  {
    ReconcileCounts(h, frameCount, target, entities);
  }

  /**
   * The destroys target the first orbiters of the query array, so distinct
   * entities give distinct destroys; each create is an orbiter at rest, of
   * default colour, with an identity transform.
   */
  lemma ReconcileCommands(h: Host, frameCount: int, target: int, entities: seq<Entity>)
    ensures var r := Reconcile(h, frameCount, target, entities);
            forall k :: 0 <= k < |r.commands| ==>
              if |entities| < target then
                && r.commands[k].CreateOrbiter?
                && r.commands[k].localToWorld == IdentityMatrix
                && r.commands[k].orbiter.velocity == Zero3
                && r.commands[k].color.value == Zero4
              else
                k < |entities| && r.commands[k] == DestroyEntity(entities[k])
    ensures (forall i, j :: 0 <= i < j < |entities| ==> entities[i] != entities[j]) ==>
              var r := Reconcile(h, frameCount, target, entities);
              forall k1, k2 :: 0 <= k1 < k2 < |r.commands| && r.commands[k1].DestroyEntity? ==> r.commands[k1] != r.commands[k2]
  {
    var r := Reconcile(h, frameCount, target, entities);
    if |entities| < target {
      forall k | 0 <= k < |r.commands|
        ensures r.commands[k].CreateOrbiter? && r.commands[k].localToWorld == IdentityMatrix
        ensures r.commands[k].orbiter.velocity == Zero3 && r.commands[k].color.value == Zero4
      {
        assert r.commands[k] == Spawn(h, frameCount, |entities| + k + 1);
      }
    }
  }

  /**
   * Within one update the creates draw distinct seeds: the k-th create's
   * seed has index argument n + k + 1, and these run from n + 1 to target.
   */
  lemma SpawnSeedsDistinct(frameCount: int, target: int, n: nat, k1: nat, k2: nat)
    requires target <= 0x7FFF_FFFF && n + k1 < target && n + k2 < target
    ensures Seed(frameCount, n + k1 + 1) == Seed(frameCount, n + k2 + 1) <==> k1 == k2
  {
    SeedDistinctIndices(frameCount, n + k1 + 1, n + k2 + 1);
  }
}
