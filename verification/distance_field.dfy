/**
 * The distance-field evaluator (DistanceField.GetDistance) and the timer that
 * switches between field models (DistanceField.Update).
 *
 * The evaluator's control structure is modelled exactly: the smooth-minimum
 * blend of the Metaballs loop, the hard minimum of the SpinMixer loop, the
 * SphereField cell wrap, the FigureEight reflection and the default for a
 * model that matches no branch. Square roots, trigonometry and noise come
 * from the `Host`.
 */
module DistanceField {
  import opened Numerics

  // DistanceFieldModel, in declaration order.
  const Metaballs := 0
  const SpinMixer := 1
  const SpherePlane := 2
  const SphereField := 3
  const FigureEight := 4
  const PerlinNoise := 5
  /** System.Enum.GetValues(typeof(DistanceFieldModel)).Length */
  const ModelCount := 6

  /** Radius of every Metaballs / SpinMixer sphere and of the Metaballs blend. */
  const BallRadius := 2.0

  /** One evaluation: the signed distance and the (un-normalised) direction. */
  datatype Sample = Sample(distance: real, normal: Vec3)

  /**
   * Smooth minimum (Media Molecule's "Dreams" blend). It never exceeds the hard
   * minimum, equals it exactly when the inputs are at least `radius` apart,
   * and dips below it by at most radius/4.
   */
  function SmoothMin(a: real, b: real, radius: real): (r: real)
    requires radius > 0.0
    ensures r <= Min(a, b)
    ensures r == Min(a, b) <==> Abs(a - b) >= radius
    ensures Min(a, b) - radius / 4.0 <= r
  {
    var e := Max(radius - Abs(a - b), 0.0);
    PenaltyBounds(e, radius);
    Min(a, b) - e * e * 0.25 / radius
  }

  lemma PenaltyBounds(e: real, radius: real)
    requires radius > 0.0 && 0.0 <= e <= radius
    ensures 0.0 <= e * e * 0.25 / radius <= radius / 4.0
    ensures e * e * 0.25 / radius == 0.0 <==> e == 0.0
  {
    assert e * e <= radius * e <= radius * radius;
    assert e * e * 0.25 / radius <= radius * radius * 0.25 / radius;
    if e > 0.0 {
      PenaltyPositive(e, radius);
    }
  }

  lemma PenaltyPositive(e: real, radius: real)
    requires e > 0.0 && radius > 0.0
    ensures e * e * 0.25 / radius > 0.0
  {
    assert e * e * 0.25 / radius == (e / radius) * e * 0.25;
    assert e / radius > 0.0;
    assert (e / radius) * e > 0.0 * e;
  }

  /** The blend treats its two operands alike. */
  lemma SmoothMinSymmetric(a: real, b: real, radius: real)
    requires radius > 0.0
    ensures SmoothMin(a, b, radius) == SmoothMin(b, a, radius)
  {
    assert Abs(a - b) == Abs(b - a);
  }

  /** Sphere(x, y, z, radius) applied to an offset from the sphere's centre. */
  function SphereDistance(h: Host, offset: Vec3, radius: real): real {
    Length(h, offset) - radius
  }

  /** The hard minimum of `d`, starting from float.MaxValue as GetDistance does. */
  function HardMin(d: seq<real>): (m: real)
    ensures m <= MaxFloat
    ensures forall k :: 0 <= k < |d| ==> m <= d[k]
    ensures m == MaxFloat || exists k :: 0 <= k < |d| && m == d[k]
    decreases |d|
  {
    if |d| == 0 then MaxFloat
    else
      var prefix := d[..|d| - 1];
      assert forall k :: 0 <= k < |prefix| ==> prefix[k] == d[k];
      Min(HardMin(prefix), d[|d| - 1])
  }

  /**
   * The state (distance, normal) of the Metaballs loop after the spheres with
   * distances `d` and offsets `offsets` have been visited in order. The
   * blended distance lies below every sphere distance and at most a quarter
   * of the blend radius per sphere below their hard minimum.
   */
  function Blend(d: seq<real>, offsets: seq<Vec3>): (r: Sample)
    requires |d| == |offsets|
    ensures r.distance <= MaxFloat
    ensures forall k :: 0 <= k < |d| ==> r.distance <= d[k]
    ensures HardMin(d) - |d| as real * (BallRadius / 4.0) <= r.distance
    decreases |d|
  {
    if |d| == 0 then Sample(MaxFloat, Zero3)
    else
      var n := |d| - 1;
      var prev := Blend(d[..n], offsets[..n]);
      assert forall k :: 0 <= k < n ==> d[..n][k] == d[k];
      assert HardMin(d) == Min(HardMin(d[..n]), d[n]);
      var newDist := SmoothMin(prev.distance, d[n], BallRadius);
      if newDist < prev.distance then Sample(newDist, offsets[n]) else prev
  }

  /**
   * The state of the SpinMixer loop after visiting spheres `d` in order: the
   * normal is replaced only by a strictly nearer sphere.
   */
  function Nearest(d: seq<real>, offsets: seq<Vec3>): (r: Sample)
    requires |d| == |offsets|
    decreases |d|
  {
    if |d| == 0 then Sample(MaxFloat, Zero3)
    else
      var n := |d| - 1;
      var prev := Nearest(d[..n], offsets[..n]);
      if d[n] < prev.distance then Sample(d[n], offsets[n]) else prev
  }

  /**
   * In the Metaballs loop the running distance never increases, and the
   * normal changes only at a step that strictly lowers the distance.
   */
  lemma {:induction false} BlendStepNeverIncreases(d: seq<real>, offsets: seq<Vec3>, k: nat)
    requires |d| == |offsets| && k < |d|
    ensures Blend(d[..k + 1], offsets[..k + 1]).distance <= Blend(d[..k], offsets[..k]).distance
    ensures Blend(d[..k + 1], offsets[..k + 1]).normal != Blend(d[..k], offsets[..k]).normal
            ==> Blend(d[..k + 1], offsets[..k + 1]).distance < Blend(d[..k], offsets[..k]).distance
  {
    assert d[..k + 1][..k] == d[..k];
    assert offsets[..k + 1][..k] == offsets[..k];
  }

  /**
   * SpinMixer yields the hard minimum of the sphere distances, with the
   * offset of the lowest-index sphere attaining it; when no sphere is nearer
   * than float.MaxValue the normal stays zero.
   */
  lemma {:induction false} NearestIsFirstMinimiser(d: seq<real>, offsets: seq<Vec3>)
    requires |d| == |offsets|
    ensures Nearest(d, offsets).distance == HardMin(d)
    ensures Nearest(d, offsets).distance == MaxFloat ==> Nearest(d, offsets).normal == Zero3
    ensures Nearest(d, offsets).distance < MaxFloat ==>
              exists k :: 0 <= k < |d| && d[k] == Nearest(d, offsets).distance
                          && Nearest(d, offsets).normal == offsets[k]
                          && forall j :: 0 <= j < k ==> Nearest(d, offsets).distance < d[j]
    decreases |d|
  {
    if |d| > 0 {
      var n := |d| - 1;
      NearestIsFirstMinimiser(d[..n], offsets[..n]);
      var prev := Nearest(d[..n], offsets[..n]);
      var r := Nearest(d, offsets);
      assert HardMin(d) == Min(HardMin(d[..n]), d[n]);
      if d[n] < prev.distance {
        assert r == Sample(d[n], offsets[n]);
        assert forall j :: 0 <= j < n ==> prev.distance <= d[..n][j] == d[j];
      } else if r.distance < MaxFloat {
        var k :| 0 <= k < n && d[..n][k] == prev.distance && prev.normal == offsets[..n][k]
                 && forall j :: 0 <= j < k ==> prev.distance < d[..n][j];
        assert d[k] == r.distance && r.normal == offsets[k];
        assert forall j :: 0 <= j < k ==> r.distance < d[j] by {
          forall j | 0 <= j < k ensures r.distance < d[j] {
            assert d[..n][j] == d[j];
          }
        }
      }
    }
  }

  /** The Metaballs fold of GetDistance over given sphere distances and offsets. */
  method BlendSpheres(d: seq<real>, offsets: seq<Vec3>) returns (distance: real, normal: Vec3)
    requires |d| == |offsets|
    ensures Sample(distance, normal) == Blend(d, offsets)
  {
    distance, normal := MaxFloat, Zero3;
    for i := 0 to |d|
      invariant Sample(distance, normal) == Blend(d[..i], offsets[..i])
    {
      assert d[..i + 1][..i] == d[..i] && offsets[..i + 1][..i] == offsets[..i];
      var newDist := SmoothMin(distance, d[i], BallRadius);
      if newDist < distance {
        normal := offsets[i];
        distance := newDist;
      }
    }
    assert d[..|d|] == d && offsets[..|d|] == offsets;
  }

  /** The SpinMixer fold of GetDistance over given sphere distances and offsets. */
  method NearestSphere(d: seq<real>, offsets: seq<Vec3>) returns (distance: real, normal: Vec3)
    requires |d| == |offsets|
    ensures distance == HardMin(d)
    ensures distance == MaxFloat ==> normal == Zero3
    ensures distance < MaxFloat ==>
              exists k :: 0 <= k < |d| && d[k] == distance && normal == offsets[k]
                          && forall j :: 0 <= j < k ==> distance < d[j]
    ensures Sample(distance, normal) == Nearest(d, offsets)
  {
    distance, normal := MaxFloat, Zero3;
    for i := 0 to |d|
      invariant Sample(distance, normal) == Nearest(d[..i], offsets[..i])
    {
      assert d[..i + 1][..i] == d[..i] && offsets[..i + 1][..i] == offsets[..i];
      var newDist := d[i];
      if newDist < distance {
        normal := offsets[i];
        distance := newDist;
      }
    }
    assert d[..|d|] == d && offsets[..|d|] == offsets;
    NearestIsFirstMinimiser(d, offsets);
  }

  // ----- sphere positions of the two orbiting models -----

  /** Offset of point p from Metaballs sphere i at time t. */
  function MetaballOffset(h: Host, t: real, p: Vec3, i: int): Vec3 {
    var orbitRadius := i as real * 0.5 + 2.0;
    var angle1 := t * 4.0 * (1.0 + i as real * 0.1);
    var angle2 := t * 4.0 * (1.2 + i as real * 0.117);
    var angle3 := t * 4.0 * (1.3 + i as real * 0.1618);
    Vec3(p.x - h.cos(angle1) * orbitRadius, p.y - h.sin(angle2) * orbitRadius, p.z - h.sin(angle3) * orbitRadius)
  }

  function MetaballOffsets(h: Host, t: real, p: Vec3): (s: seq<Vec3>)
    ensures |s| == 5
  {
    seq(5, i => MetaballOffset(h, t, p, i))
  }

  function MetaballDistances(h: Host, t: real, p: Vec3): (s: seq<real>)
    ensures |s| == 5
  {
    seq(5, i => SphereDistance(h, MetaballOffset(h, t, p, i), BallRadius))
  }

  /** (i / 2 + 2) * 2 with C#'s integer division (i is never negative). */
  function SpinOrbitRadius(i: nat): int {
    (i / 2 + 2) * 2
  }

  /** The six SpinMixer spheres orbit in pairs at radii 4, 6 and 8. */
  lemma SpinOrbitRadii()
    ensures seq(6, i requires 0 <= i => SpinOrbitRadius(i)) == [4, 4, 6, 6, 8, 8]
  {
  }

  /** Offset of point p from SpinMixer sphere i at time t. */
  function SpinMixerOffset(h: Host, t: real, p: Vec3, i: nat): Vec3 {
    var orbitRadius := SpinOrbitRadius(i) as real;
    var angle := t * 20.0 * (1.0 + i as real * 0.1);
    Vec3(p.x - h.cos(angle) * orbitRadius, p.y - h.sin(angle), p.z - h.sin(angle) * orbitRadius)
  }

  function SpinMixerOffsets(h: Host, t: real, p: Vec3): (s: seq<Vec3>)
    ensures |s| == 6
  {
    seq(6, i requires 0 <= i => SpinMixerOffset(h, t, p, i))
  }

  function SpinMixerDistances(h: Host, t: real, p: Vec3): (s: seq<real>)
    ensures |s| == 6
  {
    seq(6, i requires 0 <= i => SphereDistance(h, SpinMixerOffset(h, t, p, i), BallRadius))
  }

  // ----- SpherePlane -----

  /** The sphere/plane mixing factor sin(8t) * 0.4 + 0.4. */
  function MorphFactor(h: Host, t: real): real {
    h.sin(t * 8.0) * 0.4 + 0.4
  }

  function SpherePlaneSample(h: Host, t: real, p: Vec3): Sample {
    var sphereDist := SphereDistance(h, p, 5.0);
    var sphereNormal := Div3(p, Length(h, p));
    var f := MorphFactor(h, t);
    Sample(Lerp(sphereDist, p.y, f), Lerp3(sphereNormal, Up, f))
  }

  // ----- SphereField -----

  /** Grid spacing 5 + 2 sin(5t). */
  function Spacing(h: Host, t: real): real {
    5.0 + h.sin(t * 5.0) * 2.0
  }

  /** Centred modulo: shift by half a cell, reduce with floor, shift back. */
  function Wrap(c: real, s: real): real {
    var shifted := c + s * 0.5;
    var reduced := shifted - Quot(shifted, s).Floor as real * s;
    reduced - s * 0.5
  }

  /** c moved by k cells of size s. */
  function Shift(c: real, k: int, s: real): real {
    c + k as real * s
  }

  /**
   * For a positive spacing, the wrapped coordinate lies in [-s/2, s/2) and
   * differs from the input by a whole number of cells.
   */
  lemma WrapInCell(c: real, s: real)
    requires s > 0.0
    ensures -s / 2.0 <= Wrap(c, s) < s / 2.0
    ensures exists k: int :: Wrap(c, s) == Shift(c, k, s)
  {
    var u := c + s * 0.5;
    assert Quot(u, s) == u / s;
    var f := (u / s).Floor;
    FloorBounds(u, s);
    var fs := f as real * s;
    assert fs <= u < fs + s;
    assert Wrap(c, s) == u - fs - s * 0.5;
    assert -s / 2.0 <= Wrap(c, s);
    assert Wrap(c, s) < s / 2.0;
    assert Wrap(c, s) == Shift(c, -f, s);
  }

  lemma FloorBounds(u: real, s: real)
    requires s > 0.0
    ensures (u / s).Floor as real * s <= u < (u / s).Floor as real * s + s
  {
    var q := u / s;
    var f := q.Floor as real;
    assert f <= q < f + 1.0;
    MultiplyBySpacing(f, q, s);
    MultiplyBySpacing(q, f + 1.0, s);
    assert q * s == u;
    assert f * s <= u;
    assert (f + 1.0) * s == f * s + s;
    assert u < f * s + s;
  }

  lemma MultiplyBySpacing(a: real, b: real, s: real)
    requires s > 0.0 && a <= b
    ensures a * s <= b * s
    ensures a < b ==> a * s < b * s
  {
    assert (b - a) * s >= 0.0;
    if a < b {
      assert (b - a) * s > 0.0;
    }
  }

  /** A point of [-s/2, s/2) congruent to c modulo s is Wrap(c, s). */
  lemma WrapUnique(c: real, s: real, w: real, k: int)
    requires s > 0.0
    requires -s / 2.0 <= w < s / 2.0 && w == Shift(c, k, s)
    ensures w == Wrap(c, s)
  {
    WrapInCell(c, s);
    var j: int :| Wrap(c, s) == Shift(c, j, s);
    var diff := (k - j) as real * s;
    assert w - Wrap(c, s) == diff;
    assert -s < diff < s;
    if k - j >= 1 {
      MultiplyBySpacing(1.0, (k - j) as real, s);
      assert false;
    } else if k - j <= -1 {
      MultiplyBySpacing((k - j) as real, -1.0, s);
      assert false;
    }
    assert k == j;
  }

  /** Each cell is independent: moving a whole cell does not change the wrap. */
  lemma {:induction false} WrapPeriodic(c: real, s: real)
    requires s > 0.0
    ensures Wrap(c + s, s) == Wrap(c, s)
  {
    WrapInCell(c, s);
    var k: int :| Wrap(c, s) == Shift(c, k, s);
    WrapUnique(c + s, s, Wrap(c, s), k - 1);
  }

  /** Wrapping an already wrapped coordinate changes nothing. */
  lemma {:induction false} WrapIdempotent(c: real, s: real)
    requires s > 0.0
    ensures Wrap(Wrap(c, s), s) == Wrap(c, s)
  {
    WrapInCell(c, s);
    WrapUnique(Wrap(c, s), s, Wrap(c, s), 0);
  }

  function SphereFieldSample(h: Host, t: real, p: Vec3): Sample {
    var s := Spacing(h, t);
    var local := Vec3(Wrap(p.x, s), Wrap(p.y, s), Wrap(p.z, s));
    Sample(SphereDistance(h, local, 5.0), local)
  }

  // ----- FigureEight -----

  /**
   * The z-reflection of FigureEight: the reflected z is never negative and
   * the flipper is -1 exactly when the input z is negative.
   */
  function Reflect(z: real): (r: (real, real))
    ensures r.0 >= 0.0
    ensures r.1 == -1.0 <==> z < 0.0
    ensures r.1 == 1.0 || r.1 == -1.0
    ensures r.0 == z * r.1
  {
    if z < 0.0 then (-z, -1.0) else (z, 1.0)
  }

  const RingRadius := 4.0

  /**
   * The ring offset FigureEight computes for (x, 0, z): the offset from the
   * ring centre (0, 0, RingRadius) divided by its length times RingRadius,
   * which leaves a vector of length 1 / RingRadius (see
   * AsWrittenRingOffsetLength).
   */
  function RingDirection(h: Host, x: real, z: real): Vec3 {
    var q0 := Vec3(x, 0.0, z - RingRadius);
    Div3(q0, Length(h, q0) * RingRadius)
  }

  /**
   * (x, 0, z) is off the ring's axis: its offset from the ring centre
   * (0, 0, RingRadius) is non-zero, so the division by its length is defined.
   */
  predicate OffAxis(x: real, z: real) {
    Norm2(Vec3(x, 0.0, z - RingRadius)) > 0.0
  }

  /**
   * As written, off the ring's axis the ring offset has squared length
   * 1/16: the point FigureEight measures the tube from lies a quarter unit
   * from the centre, not on the ring of radius 4.
   */
  lemma AsWrittenRingOffsetLength(h: Host, x: real, z: real)
    requires Sane(h) && OffAxis(x, z)
    ensures Norm2(RingDirection(h, x, z)) == 1.0 / (RingRadius * RingRadius)
  {
    var q0 := Vec3(x, 0.0, z - RingRadius);
    var l := Length(h, q0);
    UnitOffset(h, q0);
    var u := Div3(q0, l);
    assert RingDirection(h, x, z) == Scale(u, 1.0 / RingRadius) by {
      assert q0.x / (l * RingRadius) == (q0.x / l) * (1.0 / RingRadius);
      assert q0.z / (l * RingRadius) == (q0.z / l) * (1.0 / RingRadius);
    }
    assert Norm2(Scale(u, 1.0 / RingRadius)) == Norm2(u) * (1.0 / (RingRadius * RingRadius));
  }

  /** A non-zero offset in the y = 0 plane divided by its length has squared length 1. */
  lemma UnitOffset(h: Host, q0: Vec3)
    requires Sane(h) && q0.y == 0.0 && Norm2(q0) > 0.0
    ensures Length(h, q0) > 0.0 && Norm2(Div3(q0, Length(h, q0))) == 1.0
  {
    var l := Length(h, q0);
    LengthIsEuclidean(h, q0);
    assert l > 0.0;
    var u := Div3(q0, l);
    assert u.x * u.x == (q0.x * q0.x) / (l * l);
    assert u.z * u.z == (q0.z * q0.z) / (l * l);
  }

  /** The ring offset evidently intended: the offset from the ring centre scaled to length RingRadius. */
  function CorrectedRingOffset(h: Host, x: real, z: real): Vec3 {
    var q0 := Vec3(x, 0.0, z - RingRadius);
    Scale(Div3(q0, Length(h, q0)), RingRadius)
  }

  /**
   * The corrected offset lies on the ring: it has length RingRadius, stays
   * in the y = 0 plane and points from the centre toward (x, 0, z) (it is
   * parallel to that offset, with a positive dot product).
   */
  lemma CorrectedRingOffsetOnRing(h: Host, x: real, z: real)
    requires Sane(h) && OffAxis(x, z)
    ensures Norm2(CorrectedRingOffset(h, x, z)) == RingRadius * RingRadius
    ensures CorrectedRingOffset(h, x, z).y == 0.0
    ensures var c := CorrectedRingOffset(h, x, z);
            c.x * (z - RingRadius) == c.z * x && c.x * x + c.z * (z - RingRadius) > 0.0
  {
    var q0 := Vec3(x, 0.0, z - RingRadius);
    var l := Length(h, q0);
    UnitOffset(h, q0);
    var u := Div3(q0, l);
    assert Norm2(Scale(u, RingRadius)) == Norm2(u) * (RingRadius * RingRadius);
    var k := RingRadius / l;
    assert Scale(u, RingRadius) == Scale(q0, k) by {
      assert (q0.x / l) * RingRadius == q0.x * k;
      assert (q0.z / l) * RingRadius == q0.z * k;
    }
    assert k > 0.0;
    assert (q0.x * k) * q0.x + (q0.z * k) * q0.z == k * Norm2(q0);
  }

  function FigureEightSample(h: Host, t: real, p: Vec3): Sample {
    var (z, flipper) := Reflect(p.z);
    var q1 := RingDirection(h, p.x, z);
    var angle := h.atan2(q1.z, q1.x) + t * 8.0;
    var q := Add(q1, Vec3(0.0, 0.0, RingRadius));
    var normal := Vec3(p.x - q.x, p.y - q.y, (z - q.z) * flipper);
    Sample(Length(h, normal) - (0.5 + WaveHeight(h, angle, flipper)), normal)
  }

  /** The ripple added to the tube radius: w * w / 2 for w = (cos(3 angle flipper) + 1) / 2. */
  function WaveHeight(h: Host, angle: real, flipper: real): real {
    var w := h.cos(angle * flipper * 3.0) * 0.5 + 0.5;
    w * (w * 0.5)
  }

  // ----- the evaluator -----

  function PerlinSample(h: Host, p: Vec3): Sample {
    Sample(p.y - h.noise(p.x * 0.2, p.z * 0.2) * 6.0, Up)
  }

  /** What GetDistance returns, model by model. */
  function Field(h: Host, model: int, t: real, p: Vec3): Sample {
    if model == Metaballs then Blend(MetaballDistances(h, t, p), MetaballOffsets(h, t, p))
    else if model == SpinMixer then Nearest(SpinMixerDistances(h, t, p), SpinMixerOffsets(h, t, p))
    else if model == SpherePlane then SpherePlaneSample(h, t, p)
    else if model == SphereField then SphereFieldSample(h, t, p)
    else if model == FigureEight then FigureEightSample(h, t, p)
    else if model == PerlinNoise then PerlinSample(h, p)
    else Sample(MaxFloat, Zero3)
  }

  /**
   * GetDistance(model, time, x, y, z, out normal). The two sphere loops run
   * as loops; the straight-line branches evaluate their sample functions. A
   * model that matches no branch leaves float.MaxValue and a zero normal.
   */
  method GetDistance(h: Host, model: int, time: real, x: real, y: real, z: real)
    returns (distance: real, normal: Vec3)
    ensures Sample(distance, normal) == Field(h, model, time, Vec3(x, y, z))
  {
    var p := Vec3(x, y, z);
    distance := MaxFloat;
    normal := Zero3;
    if model == Metaballs {
      distance, normal := BlendSpheres(MetaballDistances(h, time, p), MetaballOffsets(h, time, p));
    } else if model == SpinMixer {
      distance, normal := NearestSphere(SpinMixerDistances(h, time, p), SpinMixerOffsets(h, time, p));
    } else if model == SpherePlane {
      var r := SpherePlaneSample(h, time, p);
      distance, normal := r.distance, r.normal;
    } else if model == SphereField {
      var r := SphereFieldSample(h, time, p);
      distance, normal := r.distance, r.normal;
    } else if model == FigureEight {
      var r := FigureEightSample(h, time, p);
      distance, normal := r.distance, r.normal;
    } else if model == PerlinNoise {
      var r := PerlinSample(h, p);
      distance, normal := r.distance, r.normal;
    }
  }

  // ----- properties of the evaluator -----

  /** A model that matches no branch yields float.MaxValue and a zero normal. */
  lemma UnknownModelDefault(h: Host, model: int, t: real, p: Vec3)
    requires !(0 <= model < ModelCount)
    ensures Field(h, model, t, p) == Sample(MaxFloat, Zero3)
  {
  }

  /**
   * Metaballs: the blended distance is at most every sphere distance and at
   * most 5 * BallRadius/4 below their hard minimum.
   */
  lemma MetaballsBounds(h: Host, t: real, p: Vec3)
    ensures var r := Field(h, Metaballs, t, p);
            var d := MetaballDistances(h, t, p);
            && (forall k :: 0 <= k < 5 ==> r.distance <= d[k])
            && HardMin(d) - 2.5 <= r.distance
  {
  }

  /**
   * SpinMixer: the hard minimum of the six sphere distances, the normal being
   * the offset from the lowest-index nearest sphere.
   */
  lemma SpinMixerIsNearestSphere(h: Host, t: real, p: Vec3)
    ensures var r := Field(h, SpinMixer, t, p);
            var d := SpinMixerDistances(h, t, p);
            && r.distance == HardMin(d)
            && (r.distance < MaxFloat ==>
                  exists k :: 0 <= k < 6 && d[k] == r.distance
                              && r.normal == SpinMixerOffset(h, t, p, k)
                              && forall j :: 0 <= j < k ==> r.distance < d[j])
  {
    NearestIsFirstMinimiser(SpinMixerDistances(h, t, p), SpinMixerOffsets(h, t, p));
  }

  /** SpherePlane: the mixing factor stays in [0, 0.8]; at 0 it is the pure sphere. */
  lemma SpherePlaneMix(h: Host, t: real, p: Vec3)
    requires Sane(h)
    ensures 0.0 <= MorphFactor(h, t) <= 0.8
    ensures MorphFactor(h, t) == 0.0 ==>
              Field(h, SpherePlane, t, p) == Sample(Length(h, p) - 5.0, Div3(p, Length(h, p)))
  {
    assert -1.0 <= h.sin(t * 8.0) <= 1.0;
  }

  /**
   * SphereField: the spacing stays in [3, 7]; every coordinate of the normal
   * is the input coordinate moved by whole cells into [-s/2, s/2), and the
   * distance is that of the cell's radius-5 sphere.
   */
  lemma SphereFieldCell(h: Host, t: real, p: Vec3)
    requires Sane(h)
    ensures var s := Spacing(h, t);
            var r := Field(h, SphereField, t, p);
            && 3.0 <= s <= 7.0
            && -s / 2.0 <= r.normal.x < s / 2.0
            && -s / 2.0 <= r.normal.y < s / 2.0
            && -s / 2.0 <= r.normal.z < s / 2.0
            && (exists k: int :: r.normal.x == Shift(p.x, k, s))
            && (exists k: int :: r.normal.y == Shift(p.y, k, s))
            && (exists k: int :: r.normal.z == Shift(p.z, k, s))
            && r.distance == Length(h, r.normal) - 5.0
  {
    var s := Spacing(h, t);
    assert -1.0 <= h.sin(t * 5.0) <= 1.0;
    WrapInCell(p.x, s);
    WrapInCell(p.y, s);
    WrapInCell(p.z, s);
  }

  /** The FigureEight ripple lies in [0, 0.5]. */
  lemma WaveHeightBounds(h: Host, angle: real, flipper: real)
    requires Sane(h)
    ensures 0.0 <= WaveHeight(h, angle, flipper) <= 0.5
  {
    var c := h.cos(angle * flipper * 3.0);
    assert -1.0 <= c <= 1.0;
    FractionOf(c * 0.5 + 0.5, (c * 0.5 + 0.5) * 0.5);
  }

  /**
   * FigureEight: the tube around the ring has radius between 0.5 and 1, so
   * the distance never drops below -1.
   */
  lemma FigureEightTube(h: Host, t: real, p: Vec3)
    requires Sane(h)
    ensures Field(h, FigureEight, t, p).distance >= -1.0
  {
    var (z, flipper) := Reflect(p.z);
    var q1 := RingDirection(h, p.x, z);
    var angle := h.atan2(q1.z, q1.x) + t * 8.0;
    WaveHeightBounds(h, angle, flipper);
    LengthIsEuclidean(h, FigureEightSample(h, t, p).normal);
  }

  /** PerlinNoise: a height field with the normal fixed to world up. */
  lemma PerlinHeightField(h: Host, t: real, p: Vec3)
    ensures Field(h, PerlinNoise, t, p).normal == Up
    ensures Field(h, PerlinNoise, t, p).distance == p.y - 6.0 * h.noise(0.2 * p.x, 0.2 * p.z)
  {
  }

  // ----- the model switcher (DistanceField.Update) -----

  /**
   * The model chosen from a draw r in [0, count - 1): r itself, moved up by
   * one when it would land on or above the current model. The result is a
   * valid model different from the current one.
   */
  function NextModel(current: int, r: int, count: int): (next: int)
    requires 0 <= r < count - 1
    ensures 0 <= next < count
    ensures next != current
  {
    if r >= current then r + 1 else r
  }

  /** Each model other than the current one is reached by exactly one draw. */
  lemma NextModelReachesEachOtherOnce(current: int, target: int, count: int)
    requires 0 <= current < count && 0 <= target < count && target != current
    ensures exists r :: 0 <= r < count - 1 && NextModel(current, r, count) == target
    ensures forall r1, r2 :: 0 <= r1 < count - 1 && 0 <= r2 < count - 1
              && NextModel(current, r1, count) == target && NextModel(current, r2, count) == target
              ==> r1 == r2
  {
    var r := if target < current then target else target - 1;
    assert NextModel(current, r, count) == target;
  }

  /** The MonoBehaviour's model-switching state. */
  class ModelSwitcher {
    var model: int
    var switchTimer: real
    var modelCount: int

    ghost predicate Valid()
      reads this
    {
      modelCount == ModelCount && 0 <= model < modelCount
    }

    /** Start(): modelCount is the number of DistanceFieldModel values. */
    constructor Start(initial: int)
      requires 0 <= initial < ModelCount
      ensures Valid()
      ensures model == initial && switchTimer == 0.0
    {
      model := initial;
      switchTimer := 0.0;
      modelCount := ModelCount;
    }

    /**
     * Update(): advance the timer by deltaTime * 0.1; once it passes 1 it
     * drops by 1 and the model switches to NextModel for the draw `r`,
     * which stands for Random.Range(0, modelCount - 1).
     */
    method Update(deltaTime: real, r: int)
      requires Valid()
      requires 0 <= r < modelCount - 1
      modifies this
      ensures Valid()
      ensures modelCount == old(modelCount)
      ensures old(switchTimer) + deltaTime * 0.1 > 1.0 ==>
                switchTimer == old(switchTimer) + deltaTime * 0.1 - 1.0
                && model == NextModel(old(model), r, modelCount)
                && model != old(model)
      ensures old(switchTimer) + deltaTime * 0.1 <= 1.0 ==>
                switchTimer == old(switchTimer) + deltaTime * 0.1 && model == old(model)
    {
      switchTimer := switchTimer + deltaTime * 0.1;
      if switchTimer > 1.0 {
        switchTimer := switchTimer - 1.0;
        var newModel := r;
        if newModel >= model {
          newModel := newModel + 1;
        }
        model := newModel;
      }
    }
  }
}
