/**
 * The EntityCommandBuffer the two spawner systems record into, reduced to
 * the two kinds of command they record: create an orbiter entity with its
 * three components, or destroy an entity. Playing the buffer back changes
 * the orbiter count by one per command.
 */
module EntityCommands {
  import opened Numerics
  import opened DistanceFieldSystem

  /** An entity handle. */
  datatype Entity = Entity(index: int, version: int)

  datatype Command =
    | CreateOrbiter(localToWorld: Matrix, orbiter: OrbiterData, color: ColorData)
    | DestroyEntity(entity: Entity)

  /** What one OnUpdate records, and whether it left by an IndexOutOfRangeException after recording it. */
  datatype Recorded = Recorded(commands: seq<Command>, threw: bool)

  /**
   * CreateEntity, then AddComponent of an identity LocalToWorld, of
   * OrbiterData(insideSphere * 50) and of a default ColorData.
   */
  function SpawnCommand(insideSphere: Vec3): (c: Command)
    ensures c.CreateOrbiter? && c.localToWorld == IdentityMatrix
    ensures c.orbiter.position == Scale(insideSphere, 50.0) && c.orbiter.velocity == Zero3
    ensures c.color == ColorData(Zero4)
  {
    CreateOrbiter(IdentityMatrix, NewOrbiterData(Scale(insideSphere, 50.0)), ColorData(Zero4))
  }

  /** The number of create commands. */
  function Creates(cmds: seq<Command>): nat {
    if cmds == [] then 0
    else Creates(cmds[..|cmds| - 1]) + (if cmds[|cmds| - 1].CreateOrbiter? then 1 else 0)
  }

  /** The number of destroy commands. */
  function Destroys(cmds: seq<Command>): nat {
    if cmds == [] then 0
    else Destroys(cmds[..|cmds| - 1]) + (if cmds[|cmds| - 1].DestroyEntity? then 1 else 0)
  }

  /** The orbiter count after the buffer plays back on `count` orbiters. */
  function PlayBack(count: int, cmds: seq<Command>): int {
    count + Creates(cmds) - Destroys(cmds)
  }

  /** Every command is a create or a destroy. */
  lemma {:induction false} CountsAddUp(cmds: seq<Command>)
    ensures Creates(cmds) + Destroys(cmds) == |cmds|
  {
    if cmds != [] {
      CountsAddUp(cmds[..|cmds| - 1]);
    }
  }

  /** Counts of a concatenation are sums of counts. */
  lemma {:induction false} CountsOfConcat(a: seq<Command>, b: seq<Command>)
    ensures Creates(a + b) == Creates(a) + Creates(b)
    ensures Destroys(a + b) == Destroys(a) + Destroys(b)
  {
    if b == [] {
      assert a + b == a;
    } else {
      CountsOfConcat(a, b[..|b| - 1]);
      assert (a + b)[..|a + b| - 1] == a + b[..|b| - 1];
    }
  }

  /** A buffer of creates only. */
  lemma {:induction false} OnlyCreates(cmds: seq<Command>)
    requires forall k :: 0 <= k < |cmds| ==> cmds[k].CreateOrbiter?
    ensures Creates(cmds) == |cmds| && Destroys(cmds) == 0
  {
    if cmds != [] {
      OnlyCreates(cmds[..|cmds| - 1]);
    }
  }

  /** A buffer of destroys only. */
  lemma {:induction false} OnlyDestroys(cmds: seq<Command>)
    requires forall k :: 0 <= k < |cmds| ==> cmds[k].DestroyEntity?
    ensures Creates(cmds) == 0 && Destroys(cmds) == |cmds|
  {
    if cmds != [] {
      OnlyDestroys(cmds[..|cmds| - 1]);
    }
  }
}
