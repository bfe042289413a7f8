/**
 * OrbiterSpawnerSystem: when a Spawner entity exists, record one create per
 * particle of the first chunk's Spawner, counting the local copy of its
 * particleCount down to zero, then destroy the first Spawner entity so the
 * spawn happens once.
 */
module OrbiterSpawnerSystem {
  import opened Numerics
  import opened Words
  import opened OrbiterUpdate
  import opened EntityCommands

  /** The shared component: the material handle (unused here) and the particle count. */
  datatype Spawner = Spawner(material: int, particleCount: int)

  /** Spawner.Equals as written: whether this count exceeds the other's. */
  function SpawnerEquals(s: Spawner, other: Spawner): bool {
    s.particleCount > other.particleCount
  }

  /** Spawner.Equals is not an equality: no spawner equals itself, and it is never symmetric. */
  lemma SpawnerEqualsIrreflexive(s: Spawner, t: Spawner)
    ensures !SpawnerEquals(s, s)
    ensures SpawnerEquals(s, t) ==> !SpawnerEquals(t, s)
  {
  }

  /**
   * The orbiter created when the local count has dropped to `remaining`:
   * its seed uses remaining + 1, its point is NextFloat3() pulled into the
   * unit ball.
   */
  function Spawn(h: Host, frameCount: int, remaining: int): (c: Command)
    ensures c.CreateOrbiter? && c.localToWorld == IdentityMatrix && c.orbiter.velocity == Zero3 && c.color.value == Zero4
  {
    SpawnCommand(ClampToUnitBall(h, h.nextFloat3(Seed(frameCount, remaining))))
  }

  /**
   * What OnUpdate records, given the Spawner of each spawner chunk and the
   * spawner entities: nothing without a chunk; otherwise max(0, p) creates
   * for the first chunk's count p, then the destroy of the first spawner
   * entity, or the exception when there is none.
   */
  function SpawnAll(h: Host, frameCount: int, chunks: seq<Spawner>, spawners: seq<Entity>): Recorded {
    if |chunks| == 0 then Recorded([], false)
    else
      var p := chunks[0].particleCount;
      var creates := seq(if p > 0 then p else 0, k => Spawn(h, frameCount, p - k - 1));
      if |spawners| == 0 then Recorded(creates, true)
      else Recorded(creates + [DestroyEntity(spawners[0])], false)
  }

  /** OnUpdate; `remaining` is the local copy's particleCount when the loop ends. */
  method OnUpdate(h: Host, frameCount: int, chunks: seq<Spawner>, spawners: seq<Entity>)
    returns (r: Recorded, remaining: int)
    ensures r == SpawnAll(h, frameCount, chunks, spawners)
    ensures |chunks| > 0 ==> remaining == (if chunks[0].particleCount < 0 then chunks[0].particleCount else 0)
  {
    if |chunks| == 0 {
      return Recorded([], false), 0;
    }
    var commands;
    commands, remaining := CountDown(h, frameCount, chunks[0]);
    if |spawners| == 0 {
      // entities[0] is out of range.
      return Recorded(commands, true), remaining;
    }
    commands := commands + [DestroyEntity(spawners[0])];
    r := Recorded(commands, false);
  }

  /**
   * The loop of OnUpdate over the first chunk's Spawner: one create per
   * decrement of the local copy's particleCount, until it is no longer positive.
   */
  method CountDown(h: Host, frameCount: int, first: Spawner) returns (commands: seq<Command>, remaining: int)
    ensures var p := first.particleCount;
            commands == seq(if p > 0 then p else 0, k => Spawn(h, frameCount, p - k - 1))
    ensures remaining == (if first.particleCount < 0 then first.particleCount else 0)
  {
    var spawner := first;
    commands := [];
    while spawner.particleCount > 0
      invariant spawner.particleCount == first.particleCount - |commands|
      invariant first.particleCount > 0 ==> spawner.particleCount >= 0
      invariant first.particleCount <= 0 ==> commands == []
      invariant forall k :: 0 <= k < |commands| ==> commands[k] == Spawn(h, frameCount, first.particleCount - k - 1)
    {
      spawner := spawner.(particleCount := spawner.particleCount - 1);
      var seed := Seed(frameCount, spawner.particleCount);
      var insideSphere := PullIntoBall(h, h.nextFloat3(seed));
      commands := commands + [SpawnCommand(insideSphere)];
      assert commands[|commands| - 1] == Spawn(h, frameCount, spawner.particleCount);
    }
    remaining := spawner.particleCount;
    CreatesInOrder(h, frameCount, first.particleCount, commands);
  }

  /** The creates of the loop, in order, are those SpawnAll records. */
  lemma CreatesInOrder(h: Host, frameCount: int, p: int, commands: seq<Command>)
    requires |commands| == (if p > 0 then p else 0)
    requires forall k :: 0 <= k < |commands| ==> commands[k] == Spawn(h, frameCount, p - k - 1)
    ensures commands == seq(if p > 0 then p else 0, k => Spawn(h, frameCount, p - k - 1))
  {
  }

  /**
   * With no spawner chunk nothing is recorded. Otherwise exactly max(0, p)
   * orbiters are created and exactly one destroy follows, of the first
   * spawner entity.
   */
  lemma SpawnAllCounts(h: Host, frameCount: int, chunks: seq<Spawner>, spawners: seq<Entity>)
    ensures |chunks| == 0 ==> SpawnAll(h, frameCount, chunks, spawners) == Recorded([], false)
    ensures var r := SpawnAll(h, frameCount, chunks, spawners);
            |chunks| > 0 ==>
              && Creates(r.commands) == (if chunks[0].particleCount > 0 then chunks[0].particleCount else 0)
              && Destroys(r.commands) == (if |spawners| > 0 then 1 else 0)
              && (r.threw <==> |spawners| == 0)
              && (|spawners| > 0 ==> r.commands[|r.commands| - 1] == DestroyEntity(spawners[0]))
  {
    if |chunks| > 0 {
      var p := chunks[0].particleCount;
      var creates := seq(if p > 0 then p else 0, k => Spawn(h, frameCount, p - k - 1));
      OnlyCreates(creates);
      if |spawners| > 0 {
        CountsOfConcat(creates, [DestroyEntity(spawners[0])]);
        OnlyDestroys([DestroyEntity(spawners[0])]);
      }
    }
  }

  /**
   * The k-th create's seed has index argument p - k - 1: the arguments run
   * p - 1, p - 2, ..., 0, and the seeds are distinct within the frame.
   */
  lemma SpawnSeedsDistinct(frameCount: int, p: int, k1: nat, k2: nat)
    requires p <= 0x7FFF_FFFF && k1 < p && k2 < p
    ensures Seed(frameCount, p - k1 - 1) == Seed(frameCount, p - k2 - 1) <==> k1 == k2
  {
    SeedDistinctIndices(frameCount, p - k1 - 1, p - k2 - 1);
  }
}
