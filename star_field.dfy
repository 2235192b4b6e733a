/** Procedural generation of the two star populations of the galaxy view
    (bulge and disk), the flat stride-3 buffer layout they are written in,
    and the per-star orbital step of the animation. Every Math.random()
    sample is a parameter in [0, 1). */
module StarField {
  import opened Transcendental
  import opened RotationCurves

  /** Scale factors turning a rotation-curve speed divided by the radius into
      an angle increment per frame. */
  const BULGE_SPIN: real := 0.025
  const DISK_SPIN: real := 0.02

  /** Bulge stars at or inside this radius are not moved by the animation. */
  const BULGE_STILL_RADIUS: real := 0.5

  /** Planar radius stored when a bulge star sits exactly on the axis. */
  const AXIS_RADIUS: real := 0.1

  /** An (x, y, z) position or an (r, g, b) colour. */
  datatype Vec3 = Vec3(x: real, y: real, z: real)

  /** The orbital record kept per star (the source's bulgeData / starData
      entries; the bulge calls the height field `y`). */
  datatype Orbit = Orbit(
    radius: real,
    angle: real,
    angularVelocity: real,
    keplerianAngularVelocity: real,
    height: real)

  /** The four random samples drawn per bulge star, in call order. */
  datatype BulgeDraw = BulgeDraw(radius: real, theta: real, phi: real, age: real)

  /** The five random samples drawn per disk star, in call order. */
  datatype DiskDraw = DiskDraw(arm: real, radius: real, scatter: real, height: real, temperature: real)

  datatype BulgeStar = BulgeStar(sampledRadius: real, position: Vec3, colour: Vec3, size: real, orbit: Orbit)

  datatype DiskStar = DiskStar(arm: int, position: Vec3, colour: Vec3, orbit: Orbit)

  predicate InUnit(u: real)
  {
    0.0 <= u < 1.0
  }

  predicate BulgeDrawInUnit(d: BulgeDraw)
  {
    InUnit(d.radius) && InUnit(d.theta) && InUnit(d.phi) && InUnit(d.age)
  }

  /** The disk samples are in [0, 1), and so is pow(sample, 0.6) up to 1:
      the only range fact about a library function the disk relies on. */
  predicate DiskDrawInUnit(m: MathLib, d: DiskDraw)
  {
    && InUnit(d.arm) && InUnit(d.radius) && InUnit(d.scatter) && InUnit(d.height) && InUnit(d.temperature)
    && 0.0 <= m.pow(d.radius, 0.6) <= 1.0
  }

  /** The stored bulge radius: the planar distance, or AXIS_RADIUS when that
      distance is 0 (the `|| 0.1` fallback). Never zero, so dividing by it is
      always defined. */
  function PlanarRadius(m: MathLib, x: real, z: real): (r: real)
    ensures r != 0.0
  {
    var d := PlanarDistance(m, x, z);
    if d == 0.0 then AXIS_RADIUS else d
  }

  function PlanarDistance(m: MathLib, x: real, z: real): real
  {
    m.sqrt(x * x + z * z)
  }

  /** The orbit of a star at (nonzero) radius r, with both angular velocities
      precomputed from the rotation curves. */
  function OrbitAt(m: MathLib, r: real, angle: real, height: real, spin: real): Orbit
    requires r != 0.0
  {
    Orbit(r, angle, ObservedVelocity(m, r) / r * spin, KeplerianVelocity(m, r) / r * spin, height)
  }

  /** One bulge star: radius u^2 * BULGE_RADIUS, a flattened spherical
      direction, a red-to-yellow colour and a size that shrinks outward. */
  function BulgeStarOf(m: MathLib, d: BulgeDraw): BulgeStar
  {
    var r := d.radius * d.radius * BULGE_RADIUS;
    var theta := d.theta * PI * 2.0;
    var phi := m.acos(2.0 * d.phi - 1.0);
    var x := r * m.sin(phi) * m.cos(theta);
    var y := r * m.cos(phi) * 0.6;
    var z := r * m.sin(phi) * m.sin(theta);
    var colour := Vec3(1.0, 0.8 - d.age * 0.3, 0.5 - d.age * 0.3);
    var size := 0.1 + (1.0 - r / BULGE_RADIUS) * 0.15;
    var actualR := PlanarRadius(m, x, z);
    BulgeStar(r, Vec3(x, y, z), colour, size, OrbitAt(m, actualR, m.atan2(z, x), y, BULGE_SPIN))
  }

  /** One disk star: one of two arms, radius between BULGE_RADIUS and
      GALAXY_RADIUS, a logarithmic-spiral angle with scatter, a height that
      tapers with radius, and a blue-white colour. */
  function DiskStarOf(m: MathLib, d: DiskDraw): DiskStar
    requires m.pow(d.radius, 0.6) >= 0.0
  {
    var arm := (d.arm * 2.0).Floor;
    var armAngle := arm as real * PI;
    var r := BULGE_RADIUS + m.pow(d.radius, 0.6) * (GALAXY_RADIUS - BULGE_RADIUS);
    var spiralAngle := armAngle + (r / GALAXY_RADIUS) * PI * 2.5;
    var scatter := (d.scatter - 0.5) * 0.6;
    var angle := spiralAngle + scatter;
    var height := (d.height - 0.5) * 0.3 * m.exp(-r / 15.0);
    var colour := Vec3(0.7 + d.temperature * 0.3, 0.8 + d.temperature * 0.2, 0.9 + d.temperature * 0.1);
    DiskStar(arm, Vec3(m.cos(angle) * r, height, m.sin(angle) * r), colour, OrbitAt(m, r, angle, height, DISK_SPIN))
  }

  /** The flat buffer layout: star i occupies slots 3i, 3i+1 and 3i+2. */
  function Interleave(vs: seq<Vec3>): (buf: seq<real>)
    ensures |buf| == 3 * |vs|
  {
    if vs == [] then [] else
      var v := vs[|vs| - 1];
      Interleave(vs[..|vs| - 1]) + [v.x, v.y, v.z]
  }

  lemma {:induction false} InterleaveSlots(vs: seq<Vec3>, i: int)
    requires 0 <= i < |vs|
    ensures Interleave(vs)[3 * i] == vs[i].x
    ensures Interleave(vs)[3 * i + 1] == vs[i].y
    ensures Interleave(vs)[3 * i + 2] == vs[i].z
  {
    if i < |vs| - 1 {
      InterleaveSlots(vs[..|vs| - 1], i);
    }
  }

  /** Appending a star appends its three slots. */
  lemma InterleaveSnoc(vs: seq<Vec3>, v: Vec3)
    ensures Interleave(vs + [v]) == Interleave(vs) + [v.x, v.y, v.z]
  {
    assert (vs + [v])[..|vs|] == vs;
  }

  // The per-population sequences the generation loops produce, star by star.

  function BulgePositions(m: MathLib, ds: seq<BulgeDraw>): seq<Vec3>
  {
    seq(|ds|, i requires 0 <= i < |ds| => BulgeStarOf(m, ds[i]).position)
  }

  function BulgeColours(m: MathLib, ds: seq<BulgeDraw>): seq<Vec3>
  {
    seq(|ds|, i requires 0 <= i < |ds| => BulgeStarOf(m, ds[i]).colour)
  }

  function BulgeSizes(m: MathLib, ds: seq<BulgeDraw>): seq<real>
  {
    seq(|ds|, i requires 0 <= i < |ds| => BulgeStarOf(m, ds[i]).size)
  }

  function BulgeOrbits(m: MathLib, ds: seq<BulgeDraw>): seq<Orbit>
  {
    seq(|ds|, i requires 0 <= i < |ds| => BulgeStarOf(m, ds[i]).orbit)
  }

  predicate PowNonNegative(m: MathLib, ds: seq<DiskDraw>)
  {
    forall d <- ds :: m.pow(d.radius, 0.6) >= 0.0
  }

  function DiskPositions(m: MathLib, ds: seq<DiskDraw>): seq<Vec3>
    requires PowNonNegative(m, ds)
  {
    seq(|ds|, i requires 0 <= i < |ds| => DiskStarOf(m, ds[i]).position)
  }

  function DiskColours(m: MathLib, ds: seq<DiskDraw>): seq<Vec3>
    requires PowNonNegative(m, ds)
  {
    seq(|ds|, i requires 0 <= i < |ds| => DiskStarOf(m, ds[i]).colour)
  }

  function DiskOrbits(m: MathLib, ds: seq<DiskDraw>): seq<Orbit>
    requires PowNonNegative(m, ds)
  {
    seq(|ds|, i requires 0 <= i < |ds| => DiskStarOf(m, ds[i]).orbit)
  }

  /** Generating one more bulge star extends each sequence by that star. */
  lemma BulgeSnoc(m: MathLib, ds: seq<BulgeDraw>, i: nat)
    requires i < |ds|
    ensures var s := BulgeStarOf(m, ds[i]);
      && BulgePositions(m, ds[..i + 1]) == BulgePositions(m, ds[..i]) + [s.position]
      && BulgeColours(m, ds[..i + 1]) == BulgeColours(m, ds[..i]) + [s.colour]
      && BulgeSizes(m, ds[..i + 1]) == BulgeSizes(m, ds[..i]) + [s.size]
      && BulgeOrbits(m, ds[..i + 1]) == BulgeOrbits(m, ds[..i]) + [s.orbit]
  {
  }

  /** Generating one more disk star extends each sequence by that star. */
  lemma DiskSnoc(m: MathLib, ds: seq<DiskDraw>, i: nat)
    requires i < |ds| && PowNonNegative(m, ds)
    ensures PowNonNegative(m, ds[..i]) && PowNonNegative(m, ds[..i + 1])
    ensures var s := DiskStarOf(m, ds[i]);
      && DiskPositions(m, ds[..i + 1]) == DiskPositions(m, ds[..i]) + [s.position]
      && DiskColours(m, ds[..i + 1]) == DiskColours(m, ds[..i]) + [s.colour]
      && DiskOrbits(m, ds[..i + 1]) == DiskOrbits(m, ds[..i]) + [s.orbit]
  {
    PowPrefix(m, ds, i);
    PowPrefix(m, ds, i + 1);
  }

  lemma PowPrefix(m: MathLib, ds: seq<DiskDraw>, k: nat)
    requires k <= |ds| && PowNonNegative(m, ds)
    ensures PowNonNegative(m, ds[..k])
  {
    forall d <- ds[..k] ensures m.pow(d.radius, 0.6) >= 0.0 {
      assert d in ds;
    }
  }

  /** A stored orbit whose angular velocities are the rotation curves at its
      radius, divided by that (nonzero) radius and scaled by `spin`. */
  predicate Consistent(m: MathLib, o: Orbit, spin: real)
  {
    && o.radius != 0.0
    && o.angularVelocity == ObservedVelocity(m, o.radius) / o.radius * spin
    && o.keplerianAngularVelocity == KeplerianVelocity(m, o.radius) / o.radius * spin
  }

  // ----- Generation properties -----

  /** The stored bulge radius is never zero and carries both precomputed
      velocities; it is the planar distance unless that is 0, in which case
      it is AXIS_RADIUS; and it is positive when sqrt returns a non-negative
      value. */
  lemma BulgeRadiusGuard(m: MathLib, d: BulgeDraw)
    ensures var s := BulgeStarOf(m, d);
      var d2 := PlanarDistance(m, s.position.x, s.position.z);
      && Consistent(m, s.orbit, BULGE_SPIN)
      && (d2 != 0.0 ==> s.orbit.radius == d2)
      && (d2 == 0.0 ==> s.orbit.radius == AXIS_RADIUS)
      && (d2 >= 0.0 ==> s.orbit.radius > 0.0)
  {
    var s := BulgeStarOf(m, d);
    assert s.orbit.radius == PlanarRadius(m, s.position.x, s.position.z);
  }

  /** With every sample in [0, 1): the sampled bulge radius lies in [0, 6),
      the size in (0.1, 0.25] and the colour in (1.0, (0.5, 0.8], (0.2, 0.5]). */
  lemma BulgeBands(m: MathLib, d: BulgeDraw)
    requires BulgeDrawInUnit(d)
    ensures var s := BulgeStarOf(m, d);
      && 0.0 <= s.sampledRadius < BULGE_RADIUS
      && 0.1 < s.size <= 0.25
      && s.colour.x == 1.0
      && 0.5 < s.colour.y <= 0.8
      && 0.2 < s.colour.z <= 0.5
  {
    var u := d.radius;
    assert 0.0 <= u * u <= u by {
      assert u * u <= u * 1.0;
    }
  }

  /** With every sample in [0, 1) and pow(u, 0.6) in [0, 1]: the disk star
      belongs to arm 0 or arm 1, its radius lies in [6, 30], its colour in
      [0.7, 1.0) x [0.8, 1.0) x [0.9, 1.0), and it carries both precomputed
      velocities. */
  lemma DiskBands(m: MathLib, d: DiskDraw)
    requires DiskDrawInUnit(m, d)
    ensures var s := DiskStarOf(m, d);
      && (s.arm == 0 || s.arm == 1)
      && BULGE_RADIUS <= s.orbit.radius <= GALAXY_RADIUS
      && 0.7 <= s.colour.x < 1.0
      && 0.8 <= s.colour.y < 1.0
      && 0.9 <= s.colour.z < 1.0
      && Consistent(m, s.orbit, DISK_SPIN)
  {
  }

  // ----- The per-frame orbital step -----

  /** The angle increment a star receives in one frame under the current mode. */
  function SelectedVelocity(o: Orbit, observed: bool): real
  {
    if observed then o.angularVelocity else o.keplerianAngularVelocity
  }

  /** One frame of a disk star (and of a moving bulge star). */
  function Advance(o: Orbit, observed: bool): Orbit
  {
    o.(angle := o.angle + SelectedVelocity(o, observed))
  }

  /** One frame of a bulge star: stars at or inside BULGE_STILL_RADIUS stay put. */
  function AdvanceBulge(o: Orbit, observed: bool): Orbit
  {
    if o.radius > BULGE_STILL_RADIUS then Advance(o, observed) else o
  }

  /** The position a frame writes for an orbit: x and z on the circle of its
      radius at its angle (y is left as it is). */
  function PlanarX(m: MathLib, o: Orbit): real
  {
    m.cos(o.angle) * o.radius
  }

  function PlanarZ(m: MathLib, o: Orbit): real
  {
    m.sin(o.angle) * o.radius
  }

  /** A frame changes only the angle, by exactly the velocity of the selected
      mode; radius, height and both velocities are untouched, so the orbit
      stays consistent with the rotation curves. */
  lemma AdvanceChangesOnlyAngle(m: MathLib, o: Orbit, observed: bool, spin: real)
    ensures var n := Advance(o, observed);
      && n.radius == o.radius && n.height == o.height
      && n.angularVelocity == o.angularVelocity
      && n.keplerianAngularVelocity == o.keplerianAngularVelocity
      && n.angle == o.angle + (if observed then o.angularVelocity else o.keplerianAngularVelocity)
      && (Consistent(m, o, spin) ==> Consistent(m, n, spin))
  {
  }

  /** Inside the core both rotation curves are rigid rotation, so a
      consistent orbit there turns at spin / CORE_RADIUS per frame in either
      mode: toggling the mode does not affect core stars. */
  lemma CoreStarsIgnoreMode(m: MathLib, o: Orbit, spin: real, observed: bool)
    requires Consistent(m, o, spin)
    requires 0.0 < o.radius < CORE_RADIUS
    ensures o.angularVelocity == o.keplerianAngularVelocity == spin / CORE_RADIUS
    ensures Advance(o, observed) == Advance(o, !observed)
  {
    var r := o.radius;
    assert (r / CORE_RADIUS) / r == 1.0 / CORE_RADIUS;
  }

  /** `frames` frames in a fixed mode. */
  function AdvanceFrames(o: Orbit, observed: bool, frames: nat): Orbit
  {
    if frames == 0 then o else Advance(AdvanceFrames(o, observed, frames - 1), observed)
  }

  /** Under a fixed mode the angle grows linearly with the number of frames,
      and nothing but the angle ever changes. */
  lemma {:induction false} AdvanceFramesLinear(o: Orbit, observed: bool, frames: nat)
    ensures AdvanceFrames(o, observed, frames) ==
      o.(angle := o.angle + frames as real * SelectedVelocity(o, observed))
  {
    if frames > 0 {
      AdvanceFramesLinear(o, observed, frames - 1);
    }
  }
}
