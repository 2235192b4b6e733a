/** The running galaxy view: the position, colour and size buffers handed to
    the renderer, the per-star orbital records, the rotation-mode flag, and
    the per-frame update of every star. */
module Galaxy {
  import opened Transcendental
  import opened RotationCurves
  import opened StarField

  const STAR_COUNT: nat := 12000
  const BULGE_STAR_COUNT: nat := 8000

  class Simulation {
    const math: MathLib

    /** true: observed (flat) rotation; false: Keplerian (expected) rotation. */
    var useObservedRotation: bool

    // Bulge population: stride-3 position and colour buffers, one size per star.
    const bulgePositions: array<real>
    const bulgeColors: array<real>
    const bulgeSizes: array<real>
    var bulgeData: seq<Orbit>

    // Disk population: stride-3 position and colour buffers.
    const positions: array<real>
    const colors: array<real>
    var starData: seq<Orbit>

    /** The five buffers are distinct arrays. */
    ghost predicate Separate()
    {
      && bulgePositions != bulgeColors && bulgePositions != bulgeSizes
      && bulgePositions != positions && bulgePositions != colors
      && bulgeColors != bulgeSizes && bulgeColors != positions && bulgeColors != colors
      && bulgeSizes != positions && bulgeSizes != colors
      && positions != colors
    }

    /** Buffer sizes are fixed by the star counts, and every orbital record
        carries the angular velocities of its own radius. */
    ghost predicate Valid()
      reads this
    {
      && Separate()
      && |bulgeData| == BULGE_STAR_COUNT
      && bulgePositions.Length == 3 * BULGE_STAR_COUNT
      && bulgeColors.Length == 3 * BULGE_STAR_COUNT
      && bulgeSizes.Length == BULGE_STAR_COUNT
      && |starData| == STAR_COUNT
      && positions.Length == 3 * STAR_COUNT
      && colors.Length == 3 * STAR_COUNT
      && (forall o <- bulgeData :: Consistent(math, o, BULGE_SPIN))
      && (forall o <- starData :: Consistent(math, o, DISK_SPIN) && BULGE_RADIUS <= o.radius <= GALAXY_RADIUS)
    }

    /** Startup: both populations are generated from their random samples and
        the view starts in observed mode. */
    constructor (m: MathLib, bulgeDraws: seq<BulgeDraw>, diskDraws: seq<DiskDraw>)
      requires |bulgeDraws| == BULGE_STAR_COUNT && |diskDraws| == STAR_COUNT
      requires forall d <- bulgeDraws :: BulgeDrawInUnit(d)
      requires forall d <- diskDraws :: DiskDrawInUnit(m, d)
      ensures Valid() && useObservedRotation && math == m
      ensures fresh(bulgePositions) && fresh(bulgeColors) && fresh(bulgeSizes)
      ensures fresh(positions) && fresh(colors)
      ensures bulgePositions[..] == Interleave(BulgePositions(m, bulgeDraws))
      ensures bulgeColors[..] == Interleave(BulgeColours(m, bulgeDraws))
      ensures bulgeSizes[..] == BulgeSizes(m, bulgeDraws)
      ensures bulgeData == BulgeOrbits(m, bulgeDraws)
      ensures PowNonNegative(m, diskDraws)
      ensures positions[..] == Interleave(DiskPositions(m, diskDraws))
      ensures colors[..] == Interleave(DiskColours(m, diskDraws))
      ensures starData == DiskOrbits(m, diskDraws)
    {
      math := m;
      useObservedRotation := true;
      bulgePositions := new real[3 * BULGE_STAR_COUNT](_ => 0.0);
      bulgeColors := new real[3 * BULGE_STAR_COUNT](_ => 0.0);
      bulgeSizes := new real[BULGE_STAR_COUNT](_ => 0.0);
      bulgeData := [];
      positions := new real[3 * STAR_COUNT](_ => 0.0);
      colors := new real[3 * STAR_COUNT](_ => 0.0);
      starData := [];
      new;
      GenerateBulge(bulgeDraws);
      GenerateDisk(diskDraws);
      forall o <- bulgeData
        ensures Consistent(math, o, BULGE_SPIN)
      {
        var i :| 0 <= i < |bulgeDraws| && o == bulgeData[i];
        BulgeRadiusGuard(m, bulgeDraws[i]);
      }
      forall o <- starData
        ensures Consistent(math, o, DISK_SPIN) && BULGE_RADIUS <= o.radius <= GALAXY_RADIUS
      {
        var i :| 0 <= i < |diskDraws| && o == starData[i];
        DiskBands(m, diskDraws[i]);
      }
    }

    /** The bulge generation loop: star i's position goes to slots 3i..3i+2,
        its colour likewise, its size to slot i, and its orbit is appended. */
    method GenerateBulge(draws: seq<BulgeDraw>)
      requires Separate() && bulgeData == []
      requires bulgePositions.Length == 3 * |draws| && bulgeColors.Length == 3 * |draws|
      requires bulgeSizes.Length == |draws|
      modifies bulgePositions, bulgeColors, bulgeSizes, this`bulgeData
      ensures bulgePositions[..] == Interleave(BulgePositions(math, draws))
      ensures bulgeColors[..] == Interleave(BulgeColours(math, draws))
      ensures bulgeSizes[..] == BulgeSizes(math, draws)
      ensures bulgeData == BulgeOrbits(math, draws)
    {
      var i := 0;
      while i < |draws|
        invariant 0 <= i <= |draws|
        invariant bulgePositions[..3 * i] == Interleave(BulgePositions(math, draws[..i]))
        invariant bulgeColors[..3 * i] == Interleave(BulgeColours(math, draws[..i]))
        invariant bulgeSizes[..i] == BulgeSizes(math, draws[..i])
        invariant bulgeData == BulgeOrbits(math, draws[..i])
      {
        var s := BulgeStarOf(math, draws[i]);
        Put3(bulgePositions, i, s.position);
        Put3(bulgeColors, i, s.colour);
        bulgeSizes[i] := s.size;
        bulgeData := bulgeData + [s.orbit];
        assert bulgeSizes[..i + 1] == bulgeSizes[..i] + [s.size];
        BulgeSnoc(math, draws, i);
        InterleaveSnoc(BulgePositions(math, draws[..i]), s.position);
        InterleaveSnoc(BulgeColours(math, draws[..i]), s.colour);
        i := i + 1;
      }
      assert draws[..i] == draws;
      assert bulgePositions[..] == bulgePositions[..3 * i];
      assert bulgeColors[..] == bulgeColors[..3 * i];
      assert bulgeSizes[..] == bulgeSizes[..i];
    }

    /** The disk generation loop: star i's position goes to slots 3i..3i+2,
        its colour likewise, and its orbit is appended. */
    method GenerateDisk(draws: seq<DiskDraw>)
      requires Separate() && starData == []
      requires positions.Length == 3 * |draws| && colors.Length == 3 * |draws|
      requires forall d <- draws :: DiskDrawInUnit(math, d)
      modifies positions, colors, this`starData
      ensures PowNonNegative(math, draws)
      ensures positions[..] == Interleave(DiskPositions(math, draws))
      ensures colors[..] == Interleave(DiskColours(math, draws))
      ensures starData == DiskOrbits(math, draws)
    {
      assert PowNonNegative(math, draws) by {
        forall d <- draws ensures math.pow(d.radius, 0.6) >= 0.0 {
          assert DiskDrawInUnit(math, d);
        }
      }
      PowPrefix(math, draws, 0);
      var i := 0;
      while i < |draws|
        invariant 0 <= i <= |draws|
        invariant PowNonNegative(math, draws[..i])
        invariant positions[..3 * i] == Interleave(DiskPositions(math, draws[..i]))
        invariant colors[..3 * i] == Interleave(DiskColours(math, draws[..i]))
        invariant starData == DiskOrbits(math, draws[..i])
      {
        assert draws[i] in draws;
        var s := DiskStarOf(math, draws[i]);
        Put3(positions, i, s.position);
        Put3(colors, i, s.colour);
        starData := starData + [s.orbit];
        DiskSnoc(math, draws, i);
        InterleaveSnoc(DiskPositions(math, draws[..i]), s.position);
        InterleaveSnoc(DiskColours(math, draws[..i]), s.colour);
        i := i + 1;
      }
      assert draws[..i] == draws;
      assert positions[..] == positions[..3 * i];
      assert colors[..] == colors[..3 * i];
    }

    /** The mode button: flips the flag and changes nothing else, so no star
        moves at the instant of the toggle. */
    method Toggle()
      modifies this`useObservedRotation
      ensures useObservedRotation == !old(useObservedRotation)
      ensures bulgeData == old(bulgeData) && starData == old(starData)
    {
      useObservedRotation := !useObservedRotation;
    }

    /** One animation frame. Every disk star advances by the velocity of the
        current mode and gets new x and z slots; every bulge star outside
        BULGE_STILL_RADIUS does the same, and the others are left alone. No y
        slot, no colour and no size changes, and neither does the mode. */
    method AdvanceFrame()
      requires Valid()
      modifies positions, bulgePositions, this`starData, this`bulgeData
      ensures Valid()
      ensures |starData| == |old(starData)| && |bulgeData| == |old(bulgeData)|
      ensures forall i :: 0 <= i < |starData| ==>
        && starData[i] == Advance(old(starData[i]), useObservedRotation)
        && positions[3 * i] == PlanarX(math, starData[i])
        && positions[3 * i + 1] == old(positions[3 * i + 1])
        && positions[3 * i + 2] == PlanarZ(math, starData[i])
      ensures forall i :: 0 <= i < |bulgeData| ==>
        && bulgeData[i] == AdvanceBulge(old(bulgeData[i]), useObservedRotation)
        && bulgePositions[3 * i + 1] == old(bulgePositions[3 * i + 1])
        && (bulgeData[i].radius > BULGE_STILL_RADIUS ==>
              bulgePositions[3 * i] == PlanarX(math, bulgeData[i]) &&
              bulgePositions[3 * i + 2] == PlanarZ(math, bulgeData[i]))
        && (bulgeData[i].radius <= BULGE_STILL_RADIUS ==>
              bulgePositions[3 * i] == old(bulgePositions[3 * i]) &&
              bulgePositions[3 * i + 2] == old(bulgePositions[3 * i + 2]))
      ensures unchanged(colors, bulgeColors, bulgeSizes)
    {
      var observed := useObservedRotation;
      AdvanceDisk(observed);
      AdvanceBulgeStars(observed);
    }

    /** The disk half of a frame. */
    method AdvanceDisk(observed: bool)
      requires Valid()
      modifies positions, this`starData
      ensures Valid()
      ensures |starData| == |old(starData)|
      ensures forall i :: 0 <= i < |starData| ==>
        && starData[i] == Advance(old(starData[i]), observed)
        && positions[3 * i] == PlanarX(math, starData[i])
        && positions[3 * i + 1] == old(positions[3 * i + 1])
        && positions[3 * i + 2] == PlanarZ(math, starData[i])
    {
      ghost var before := starData;
      var i := 0;
      while i < |starData|
        invariant 0 <= i <= |starData| == |before|
        invariant forall j :: 0 <= j < |before| ==>
          starData[j] == if j < i then Advance(before[j], observed) else before[j]
        invariant forall j :: 0 <= j < i ==>
          positions[3 * j] == PlanarX(math, starData[j]) && positions[3 * j + 2] == PlanarZ(math, starData[j])
        invariant forall j :: i <= j < |before| ==>
          positions[3 * j] == old(positions[3 * j]) && positions[3 * j + 2] == old(positions[3 * j + 2])
        invariant forall j :: 0 <= j < |before| ==> positions[3 * j + 1] == old(positions[3 * j + 1])
      {
        var data := Advance(starData[i], observed);
        starData := starData[i := data];
        positions[3 * i] := PlanarX(math, data);
        positions[3 * i + 2] := PlanarZ(math, data);
        i := i + 1;
      }
      forall o <- starData
        ensures Consistent(math, o, DISK_SPIN) && BULGE_RADIUS <= o.radius <= GALAXY_RADIUS
      {
        var j :| 0 <= j < |starData| && o == starData[j];
        AdvanceChangesOnlyAngle(math, before[j], observed, DISK_SPIN);
      }
    }

    /** The bulge half of a frame. */
    method AdvanceBulgeStars(observed: bool)
      requires Valid()
      modifies bulgePositions, this`bulgeData
      ensures Valid()
      ensures |bulgeData| == |old(bulgeData)|
      ensures forall i :: 0 <= i < |bulgeData| ==>
        && bulgeData[i] == AdvanceBulge(old(bulgeData[i]), observed)
        && bulgePositions[3 * i + 1] == old(bulgePositions[3 * i + 1])
        && (bulgeData[i].radius > BULGE_STILL_RADIUS ==>
              bulgePositions[3 * i] == PlanarX(math, bulgeData[i]) &&
              bulgePositions[3 * i + 2] == PlanarZ(math, bulgeData[i]))
        && (bulgeData[i].radius <= BULGE_STILL_RADIUS ==>
              bulgePositions[3 * i] == old(bulgePositions[3 * i]) &&
              bulgePositions[3 * i + 2] == old(bulgePositions[3 * i + 2]))
    {
      ghost var before := bulgeData;
      var i := 0;
      while i < |bulgeData|
        invariant 0 <= i <= |bulgeData| == |before|
        invariant forall j :: 0 <= j < |before| ==>
          bulgeData[j] == if j < i then AdvanceBulge(before[j], observed) else before[j]
        invariant forall j :: 0 <= j < i && bulgeData[j].radius > BULGE_STILL_RADIUS ==>
          bulgePositions[3 * j] == PlanarX(math, bulgeData[j]) && bulgePositions[3 * j + 2] == PlanarZ(math, bulgeData[j])
        invariant forall j :: 0 <= j < |before| && (i <= j || bulgeData[j].radius <= BULGE_STILL_RADIUS) ==>
          bulgePositions[3 * j] == old(bulgePositions[3 * j]) && bulgePositions[3 * j + 2] == old(bulgePositions[3 * j + 2])
        invariant forall j :: 0 <= j < |before| ==> bulgePositions[3 * j + 1] == old(bulgePositions[3 * j + 1])
      {
        var data := bulgeData[i];
        if data.radius > BULGE_STILL_RADIUS {
          data := Advance(data, observed);
          bulgeData := bulgeData[i := data];
          bulgePositions[3 * i] := PlanarX(math, data);
          bulgePositions[3 * i + 2] := PlanarZ(math, data);
        }
        i := i + 1;
      }
      forall o <- bulgeData
        ensures Consistent(math, o, BULGE_SPIN)
      {
        var j :| 0 <= j < |bulgeData| && o == bulgeData[j];
        AdvanceChangesOnlyAngle(math, before[j], observed, BULGE_SPIN);
      }
    }
  }

  /** Writes one star's three slots 3i, 3i+1, 3i+2 after the slots already written. */
  method Put3(a: array<real>, i: nat, v: Vec3)
    requires 3 * i + 2 < a.Length
    modifies a
    ensures a[..3 * (i + 1)] == old(a[..3 * i]) + [v.x, v.y, v.z]
    ensures a[3 * (i + 1)..] == old(a[3 * (i + 1)..])
  {
    a[3 * i] := v.x;
    a[3 * i + 1] := v.y;
    a[3 * i + 2] := v.z;
  }

  /** Toggling twice restores the original mode and leaves every star where it was. */
  method ToggleTwice(s: Simulation)
    modifies s
    ensures s.useObservedRotation == old(s.useObservedRotation)
    ensures s.bulgeData == old(s.bulgeData) && s.starData == old(s.starData)
  {
    s.Toggle();
    s.Toggle();
  }
}
