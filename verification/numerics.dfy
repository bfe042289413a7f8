/**
 * Exact-arithmetic stand-ins for the Unity.Mathematics / UnityEngine value types
 * the simulation uses (float, float3, float4, quaternion, float4x4), plus the
 * host services the model cannot define itself (square root, trigonometry,
 * coherent noise, vector normalisation, look rotation and the seeded random
 * generator). Floats are modelled as `real`; rounding is not modelled.
 */
module Numerics {

  datatype Vec3 = Vec3(x: real, y: real, z: real)
  datatype Vec4 = Vec4(x: real, y: real, z: real, w: real)
  datatype Quaternion = Quaternion(x: real, y: real, z: real, w: real)

  /** A 4x4 transform as the renderer sees it; the zero matrix is what a fresh
      Matrix4x4 / float4x4 array slot holds. TRS matrices are kept symbolic. */
  datatype Matrix = ZeroMatrix | IdentityMatrix | Trs(translation: Vec3, rotation: Quaternion, scale: Vec3)

  const Zero3 := Vec3(0.0, 0.0, 0.0)
  const Zero4 := Vec4(0.0, 0.0, 0.0, 0.0)
  const Up := Vec3(0.0, 1.0, 0.0)

  /** float.MaxValue, (2 - 2^-23) * 2^127, exactly. */
  const MaxFloat: real := 340282346638528859811704183484516925440.0

  function Min(a: real, b: real): real { if a <= b then a else b }
  function Max(a: real, b: real): real { if a >= b then a else b }
  function Abs(a: real): real { if a < 0.0 then -a else a }

  /** Division with the IEEE infinities and NaN left out: a zero divisor gives 0. */
  function Quot(a: real, b: real): real { if b == 0.0 then 0.0 else a / b }

  function Add(a: Vec3, b: Vec3): Vec3 { Vec3(a.x + b.x, a.y + b.y, a.z + b.z) }
  function Sub(a: Vec3, b: Vec3): Vec3 { Vec3(a.x - b.x, a.y - b.y, a.z - b.z) }
  function Scale(v: Vec3, k: real): Vec3 { Vec3(v.x * k, v.y * k, v.z * k) }
  function Div3(v: Vec3, k: real): Vec3 { Vec3(Quot(v.x, k), Quot(v.y, k), Quot(v.z, k)) }
  function Norm2(v: Vec3): real { v.x * v.x + v.y * v.y + v.z * v.z }

  /** math.clamp(x, lo, hi) = max(lo, min(hi, x)). */
  function Clamp(x: real, lo: real, hi: real): (r: real)
    requires lo <= hi
    ensures lo <= r <= hi
    ensures lo <= x <= hi ==> r == x
    ensures x < lo ==> r == lo
    ensures hi < x ==> r == hi
  {
    Max(lo, Min(hi, x))
  }

  /** math.lerp(a, b, t) = a + t * (b - a), unclamped. */
  function Lerp(a: real, b: real, t: real): real {
    a + t * (b - a)
  }

  /** The lerp starts at a, ends at b, and in between stays between them. */
  lemma LerpBetween(a: real, b: real, t: real)
    ensures t == 0.0 ==> Lerp(a, b, t) == a
    ensures t == 1.0 ==> Lerp(a, b, t) == b
    ensures 0.0 <= t <= 1.0 ==> Min(a, b) <= Lerp(a, b, t) <= Max(a, b)
  {
    var d := b - a;
    assert Lerp(a, b, t) == a + t * d;
    if 0.0 <= t <= 1.0 {
      if d >= 0.0 {
        FractionOf(t, d);
      } else {
        FractionOf(t, -d);
        assert t * -d == -(t * d);
      }
    }
  }

  lemma FractionOf(t: real, d: real)
    requires 0.0 <= t <= 1.0 && 0.0 <= d
    ensures 0.0 <= t * d <= d
  {
    assert (1.0 - t) * d >= 0.0;
  }

  function Lerp3(a: Vec3, b: Vec3, t: real): Vec3 {
    Vec3(Lerp(a.x, b.x, t), Lerp(a.y, b.y, t), Lerp(a.z, b.z, t))
  }

  function Lerp4(a: Vec4, b: Vec4, t: real): Vec4 {
    Vec4(Lerp(a.x, b.x, t), Lerp(a.y, b.y, t), Lerp(a.z, b.z, t), Lerp(a.w, b.w, t))
  }

  /** Channel by channel, the colour lerp starts at a, ends at b, and stays between them. */
  lemma Lerp4Between(a: Vec4, b: Vec4, t: real)
    ensures t == 0.0 ==> Lerp4(a, b, t) == a
    ensures t == 1.0 ==> Lerp4(a, b, t) == b
    ensures 0.0 <= t <= 1.0 ==> Between4(Lerp4(a, b, t), a, b)
  {
    LerpBetween(a.x, b.x, t);
    LerpBetween(a.y, b.y, t);
    LerpBetween(a.z, b.z, t);
    LerpBetween(a.w, b.w, t);
  }

  /** A ratio of a non-negative amount to a positive bound it does not exceed is a fraction. */
  lemma QuotUnit(a: real, b: real)
    requires 0.0 <= a <= b && b > 0.0
    ensures 0.0 <= Quot(a, b) <= 1.0
  {
    assert Quot(a, b) * b == a;
  }

  /** A ratio of an amount to a positive bound it reaches is at least one. */
  lemma QuotAtLeastOne(a: real, b: real)
    requires a >= b > 0.0
    ensures Quot(a, b) >= 1.0
  {
    assert Quot(a, b) * b == a;
  }

  /** Every channel of c lies between the matching channels of a and b. */
  predicate Between4(c: Vec4, a: Vec4, b: Vec4) {
    && Min(a.x, b.x) <= c.x <= Max(a.x, b.x)
    && Min(a.y, b.y) <= c.y <= Max(a.y, b.y)
    && Min(a.z, b.z) <= c.z <= Max(a.z, b.z)
    && Min(a.w, b.w) <= c.w <= Max(a.w, b.w)
  }

  /**
   * What the engine and its libraries supply. Each field is one foreign
   * function; the model never assumes more about them than `Sane` states.
   *  - nextFloat3Signed(seed): Random.InitState(seed) then NextFloat3(-1, 1)
   *  - nextFloat3(seed):       Random.InitState(seed) then NextFloat3()
   * Seeds are 32-bit words, given as naturals below 2^32.
   */
  datatype Host = Host(
    sqrt: real -> real,
    sin: real -> real,
    cos: real -> real,
    atan2: (real, real) -> real,
    noise: (real, real) -> real,
    normalize: Vec3 -> Vec3,
    lookRotation: (Vec3, Vec3) -> Quaternion,
    nextFloat3Signed: nat -> Vec3,
    nextFloat3: nat -> Vec3)

  /** math.length / Vector3.magnitude. */
  function Length(h: Host, v: Vec3): real { h.sqrt(Norm2(v)) }

  /** The range facts the exact-arithmetic lemmas rely on. */
  ghost predicate Sane(h: Host) {
    && (forall t :: -1.0 <= h.sin(t) <= 1.0)
    && (forall t :: -1.0 <= h.cos(t) <= 1.0)
    && (forall r :: 0.0 <= r ==> 0.0 <= h.sqrt(r) && h.sqrt(r) * h.sqrt(r) == r)
  }

  lemma Norm2NonNegative(v: Vec3)
    ensures 0.0 <= Norm2(v)
  {
    assert v.x * v.x >= 0.0 && v.y * v.y >= 0.0 && v.z * v.z >= 0.0;
  }

  /** With a sane host, Length is a true Euclidean length. */
  lemma LengthIsEuclidean(h: Host, v: Vec3)
    requires Sane(h)
    ensures 0.0 <= Length(h, v) && Length(h, v) * Length(h, v) == Norm2(v)
  {
    Norm2NonNegative(v);
  }
}
