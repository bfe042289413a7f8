/**
 * The per-particle update law shared by the two OrbiterUpdateJob structs
 * (the ECS job in ECS/DistanceFieldSystem.cs and the older job in
 * ParticleManager.cs) and by the spawners: the jitter seed, the jitter
 * vector pulled into the unit ball, the damped velocity step, the render
 * scale and the colour relaxation.
 */
module OrbiterUpdate {
  import opened Numerics
  import opened Words

  /** 2147483647, the seed multiplier. */
  const SeedMultiplier := 0x7FFF_FFFF

  /**
   * (frameCount * 2147483647) ^ (index + 1), kept to its low 32 bits as the
   * final (uint) cast does. Every operand is reduced modulo 2^32 first, which
   * gives the same low 32 bits whether the source computes in uint, int or
   * long.
   */
  function Seed(frameCount: int, index: int): (s: nat)
    ensures s < Word32
  {
    Pow2Widths();
    Xor(FrameTerm(frameCount), (index + 1) % Word32, 32)
  }

  /** The frame's half of the seed, frameCount * 2147483647 modulo 2^32. */
  function FrameTerm(frameCount: int): nat {
    (frameCount * SeedMultiplier) % Word32
  }

  /**
   * Within one frame, two particles whose index arguments are distinct and
   * below 2^32 - 1 get distinct seeds, and equal indices get equal seeds.
   */
  lemma SeedDistinctIndices(frameCount: int, i: int, j: int)
    requires 0 <= i < Word32 - 1 && 0 <= j < Word32 - 1
    ensures Seed(frameCount, i) == Seed(frameCount, j) <==> i == j
  {
    Pow2Widths();
    assert (i + 1) % Word32 == i + 1 && (j + 1) % Word32 == j + 1;
    XorCancel(FrameTerm(frameCount), i + 1, j + 1, 32);
  }

  /**
   * For a fixed index the seed changes with every frame: 2147483647 is its
   * own inverse modulo 2^32, so the multiplied frame count is a bijection.
   */
  lemma SeedDistinctFrames(f: int, g: int, index: int)
    requires 0 <= f < Word32 && 0 <= g < Word32
    ensures Seed(f, index) == Seed(g, index) <==> f == g
  {
    Pow2Widths();
    XorSymmetric(FrameTerm(f), (index + 1) % Word32, 32);
    XorSymmetric(FrameTerm(g), (index + 1) % Word32, 32);
    XorCancel((index + 1) % Word32, FrameTerm(f), FrameTerm(g), 32);
    MultiplierSelfInverse(f);
    MultiplierSelfInverse(g);
  }

  lemma MultiplierSelfInverse(f: int)
    requires 0 <= f < Word32
    ensures ((f * SeedMultiplier) % Word32 * SeedMultiplier) % Word32 == f
  {
    ModThenMultiply(f * SeedMultiplier);
    var k := f * 0x3FFF_FFFF;
    assert (f * SeedMultiplier) * SeedMultiplier == f + k * Word32;
    AddMultiple(f, k);
  }

  /** Adding a multiple of 2^32 does not change the remainder. */
  lemma AddMultiple(a: int, k: int)
    ensures (a + k * Word32) % Word32 == a % Word32
  {
  }

  lemma ModThenMultiply(a: int)
    ensures ((a % Word32) * SeedMultiplier) % Word32 == (a * SeedMultiplier) % Word32
  {
    var q, r := a / Word32, a % Word32;
    assert a == q * Word32 + r;
    var m := q * SeedMultiplier;
    assert a * SeedMultiplier == r * SeedMultiplier + m * Word32;
    AddMultiple(r * SeedMultiplier, m);
  }

  /** insideSphere /= n when its length n exceeds 1. */
  function ClampToUnitBall(h: Host, v: Vec3): Vec3 {
    var n := Length(h, v);
    if n > 1.0 then Div3(v, n) else v
  }

  /**
   * The jitter vector lies in the closed unit ball: a vector already inside
   * is kept, one outside is rescaled onto the unit sphere.
   */
  lemma ClampToUnitBallInside(h: Host, v: Vec3)
    requires Sane(h)
    ensures Norm2(ClampToUnitBall(h, v)) <= 1.0
    ensures Norm2(v) <= 1.0 ==> ClampToUnitBall(h, v) == v
    ensures Norm2(v) > 1.0 ==> Norm2(ClampToUnitBall(h, v)) == 1.0
  {
    var n := Length(h, v);
    LengthIsEuclidean(h, v);
    if n > 1.0 {
      assert n * n > 1.0 * n;
      DividedNorm(v, n);
    } else {
      assert n * n <= 1.0 * n;
      assert Norm2(v) <= 1.0;
    }
  }

  /** Dividing a vector by its length lands on the unit sphere. */
  lemma DividedNorm(v: Vec3, n: real)
    requires n > 0.0 && n * n == Norm2(v)
    ensures Norm2(Div3(v, n)) == 1.0
  {
    var r := 1.0 / n;
    assert Div3(v, n) == Scale(v, r);
    ScaledNorm(v, r);
    InverseSquare(n, r);
  }

  lemma ScaledNorm(v: Vec3, r: real)
    ensures Norm2(Scale(v, r)) == (r * r) * Norm2(v)
  {
  }

  lemma InverseSquare(n: real, r: real)
    requires r * n == 1.0
    ensures (r * r) * (n * n) == 1.0
  {
    assert (r * r) * (n * n) == (r * n) * (r * n);
  }

  /** The signed strength of the pull toward the surface: clamp(dist, -1, 1) * attraction. */
  function Pull(dist: real, attraction: real): (k: real)
    ensures Abs(k) <= Abs(attraction)
    ensures dist >= 1.0 ==> k == attraction
    ensures dist <= -1.0 ==> k == -attraction
    ensures dist == 0.0 ==> k == 0.0
  {
    var c := Clamp(dist, -1.0, 1.0);
    PullBounded(c, attraction);
    c * attraction
  }

  lemma PullBounded(c: real, a: real)
    requires -1.0 <= c <= 1.0
    ensures Abs(c * a) <= Abs(a)
  {
    if c >= 0.0 && a >= 0.0 {
      FractionOf(c, a);
    } else if c >= 0.0 {
      FractionOf(c, -a);
      assert c * a == -(c * -a);
    } else if a >= 0.0 {
      FractionOf(-c, a);
      assert c * a == -(-c * a);
    } else {
      FractionOf(-c, -a);
      assert c * a == -c * -a;
    }
  }

  /**
   * One velocity step: subtract the pull along `direction`, add the scaled
   * jitter, then damp by 0.99.
   */
  function Accelerate(v: Vec3, dist: real, attraction: real, direction: Vec3, jitterVec: Vec3, jitter: real): Vec3 {
    var pulled := Sub(v, Scale(direction, Pull(dist, attraction)));
    var jittered := Add(pulled, Scale(jitterVec, jitter));
    Scale(jittered, 0.99)
  }

  /** With no attraction and no jitter the step is pure damping. */
  lemma AccelerateWithoutForces(v: Vec3, dist: real, direction: Vec3, jitterVec: Vec3)
    ensures Accelerate(v, dist, 0.0, direction, jitterVec, 0.0) == Scale(v, 0.99)
  {
    assert Pull(dist, 0.0) == 0.0;
  }

  /**
   * The step decomposes into damping of the old velocity plus the damped
   * forces; on the surface (dist = 0) only the jitter acts.
   */
  lemma AccelerateDecomposes(v: Vec3, dist: real, attraction: real, direction: Vec3, jitterVec: Vec3, jitter: real)
    ensures Accelerate(v, dist, attraction, direction, jitterVec, jitter)
            == Add(Scale(v, 0.99), Scale(Sub(Scale(jitterVec, jitter), Scale(direction, Pull(dist, attraction))), 0.99))
    ensures dist == 0.0 ==>
              Accelerate(v, dist, attraction, direction, jitterVec, jitter) == Scale(Add(v, Scale(jitterVec, jitter)), 0.99)
  {
  }

  /** `if (n > 1) insideSphere /= n;` on the drawn vector. */
  method PullIntoBall(h: Host, drawn: Vec3) returns (insideSphere: Vec3)
    ensures insideSphere == ClampToUnitBall(h, drawn)
  {
    insideSphere := drawn;
    var n := Length(h, insideSphere);
    if n > 1.0 {
      insideSphere := Div3(insideSphere, n);
    }
  }

  /**
   * The velocity statements of the update, in order (pull, jitter, damping),
   * then the position statement.
   */
  method Move(position: Vec3, velocity: Vec3, dist: real, attraction: real, direction: Vec3, insideSphere: Vec3, jitter: real)
    returns (newPosition: Vec3, newVelocity: Vec3)
    ensures newVelocity == Accelerate(velocity, dist, attraction, direction, insideSphere, jitter)
    ensures newPosition == Advance(position, newVelocity)
  {
    newVelocity := Sub(velocity, Scale(direction, Pull(dist, attraction)));
    newVelocity := Add(newVelocity, Scale(insideSphere, jitter));
    newVelocity := Scale(newVelocity, 0.99);
    newPosition := Add(position, newVelocity);
  }

  /** Euler step: position += velocity, using the new velocity. */
  function Advance(position: Vec3, velocity: Vec3): Vec3 {
    Add(position, velocity)
  }

  /**
   * The render scale (0.1, 0.01, max(0.1, |v| * speedStretch)): the particle
   * is stretched along its velocity but never shorter than 0.1.
   */
  function RenderScale(h: Host, v: Vec3, speedStretch: real): (r: Vec3)
    ensures r.x == 0.1 && r.y == 0.01
    ensures r.z >= 0.1 && r.z >= Length(h, v) * speedStretch
    ensures r.z == 0.1 || r.z == Length(h, v) * speedStretch
  {
    Vec3(0.1, 0.01, Max(0.1, Length(h, v) * speedStretch))
  }

  /** The instance transform TRS(position, LookRotation(velocity, up), scale). */
  function RenderMatrix(h: Host, position: Vec3, velocity: Vec3, speedStretch: real): Matrix {
    Trs(position, h.lookRotation(velocity, Up), RenderScale(h, velocity, speedStretch))
  }

  // ----- colour relaxation -----

  function RealPow(x: real, n: nat): real {
    if n == 0 then 1.0 else x * RealPow(x, n - 1)
  }

  /** n colour updates toward a fixed target with a fixed factor, on one channel. */
  function Relax(c: real, target: real, k: real, n: nat): real {
    if n == 0 then c else Lerp(Relax(c, target, k, n - 1), target, k)
  }

  /** The gap left after n shrinkings of g0 by the factor keep. */
  function Shrunk(g0: real, keep: real, n: nat): real {
    if n == 0 then g0 else keep * Shrunk(g0, keep, n - 1)
  }

  /**
   * Each update shrinks the gap to the target by the factor 1 - k, so after
   * n updates the gap is (1 - k)^n times the original gap.
   */
  lemma RelaxGap(c: real, target: real, k: real, n: nat)
    ensures Relax(c, target, k, n) - target == RealPow(1.0 - k, n) * (c - target)
  {
    RelaxShrinks(c, target, k, n);
    ShrunkIsPower(c - target, 1.0 - k, n);
  }

  lemma {:induction false} RelaxShrinks(c: real, target: real, k: real, n: nat)
    ensures Relax(c, target, k, n) == target + Shrunk(c - target, 1.0 - k, n)
  {
    if n > 0 {
      RelaxShrinks(c, target, k, n - 1);
      LerpGap(Relax(c, target, k, n - 1), target, k, Shrunk(c - target, 1.0 - k, n - 1));
    }
  }

  lemma {:induction false} ShrunkIsPower(g0: real, keep: real, n: nat)
    ensures Shrunk(g0, keep, n) == RealPow(keep, n) * g0
  {
    if n > 0 {
      ShrunkIsPower(g0, keep, n - 1);
      assert keep * (RealPow(keep, n - 1) * g0) == (keep * RealPow(keep, n - 1)) * g0;
    }
  }

  /** One lerp toward the target leaves 1 - k of the gap. */
  lemma LerpGap(a: real, target: real, k: real, gap: real)
    requires gap == a - target
    ensures Lerp(a, target, k) - target == (1.0 - k) * gap
  {
  }

  /** With a factor in [0, 1] the gap to the target never grows. */
  lemma {:induction false} RelaxApproaches(c: real, target: real, k: real, n: nat)
    requires 0.0 <= k <= 1.0
    ensures Abs(Relax(c, target, k, n) - target) <= Abs(c - target)
  {
    if n > 0 {
      RelaxApproaches(c, target, k, n - 1);
      var prev := Relax(c, target, k, n - 1);
      var gap, keep := prev - target, 1.0 - k;
      LerpGap(prev, target, k, gap);
      assert Relax(c, target, k, n) - target == keep * gap;
      PullBounded(keep, gap);
    }
  }
}
