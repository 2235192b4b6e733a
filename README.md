# Galaxy rotation and earthquake feed — a Dafny model

This project models the two computational cores of an educational 3D
visualisation site.

**The galaxy view** (`galaxy.js`) shows why galaxy rotation curves suggest
dark matter. It has four parts:

- Two rotation curves: the Keplerian (Newtonian) one and the observed, flat
  one. Both equal `r / CORE_RADIUS` inside the core.
- Procedural generation of 8000 bulge stars and 12000 disk stars. Positions
  and colours go into flat stride-3 buffers. Each star keeps an orbital
  record with both angular velocities precomputed.
- A mode flag choosing the observed or the Keplerian velocity.
- A per-frame step. It advances every star's angle by the selected velocity
  and rewrites the x and z slots of its position.

**The earthquake globe** (`earthquake.js`) turns magnitudes into marker
colours, marker sizes and list classes. It turns timestamps into "time ago"
text. It summarises a feed into a total count, a major count, the largest
magnitude and the five strongest candidates.

Modules, one per component:

- `Transcendental` (`transcendental.dfy`): `MathLib` is a record of functions
  standing for `Math.sqrt`, `exp`, `pow`, `cos`, `sin`, `acos` and `atan2`.
  The model is parametric in them. A property that needs a range fact about
  one of them states that fact as a precondition.
- `RotationCurves` (`rotation_curves.dfy`): `KeplerianVelocity`,
  `ObservedVelocity` and the galaxy constants.
- `StarField` (`star_field.dfy`):
  - the random samples of one star (`BulgeDraw`, `DiskDraw`, each sample a
    real in [0, 1));
  - the per-star generation functions `BulgeStarOf` and `DiskStarOf`;
  - the buffer layout `Interleave`;
  - the per-frame orbit step `Advance` / `AdvanceBulge`.
- `Galaxy` (`galaxy.dfy`): class `Simulation`.
  - The `Float32Array` buffers are `array<real>` fields.
  - `bulgeData` and `starData` are `seq<Orbit>` fields that the methods
    reassign.
  - `useObservedRotation` is a `bool` field.
  - The constructor runs both generation loops (`GenerateBulge`,
    `GenerateDisk`).
  - `Toggle` is the mode button and `AdvanceFrame` is the star-update part of
    `animate`.
- `QuakeDisplay` (`quake_display.dfy`): colour, size, CSS class, elapsed
  seconds, the time-ago bucket and its text.
- `QuakeFeed` (`quake_feed.dfy`): the counting, candidate selection, sort and
  top-5 cut inside `fetchEarthquakes`, lifted into `Summarize` over a `seq` of
  features. `Visit` models the `forEach` callback. The specification
  functions are `Counted`, `CountAtLeast`, `LargestMag`, `Candidates`,
  `SortByMagnitude` and `TopQuakes`.

Modelling choices:

- `Math.pow(u, 2)` in the bulge radius is the exact square `u * u`.
- `Math.sqrt(...) || 0.1` becomes "0.1 when the distance is 0, the distance
  otherwise".
- `mag || 0` becomes "0 when the magnitude is missing".
- `place || 'Unknown location'` becomes "the default when the place is missing
  or empty".
- Times are integer milliseconds. Dafny's `/` by 1000 rounds down, like
  `Math.floor`, for negative differences too.
- `|| 0.1` replaces only an exactly-zero planar distance; a tiny nonzero
  distance is kept and divided by.
- `Array.prototype.sort` with comparator `b.mag - a.mag` is a library call.
  It is modelled by a stable insertion sort on sequences (`SortByMagnitude`).

## Model

| member | source | states |
|---|---|---|
| RotationCurves.KeplerianVelocity | galaxy.js:27-30 | the Newtonian curve; stated by CoreAgreement (rigid rotation r / CORE_RADIUS inside the core, 0 at the centre) |
| RotationCurves.ObservedVelocity | galaxy.js:32-35 | the observed curve; stated by CoreAgreement (equal to the Newtonian curve inside the core) and ObservedFlatOutsideCore (within (0.85, 1] beyond it) |
| RotationCurves.CoreAgreement | galaxy.js:27-35 | for 0 <= r < CORE_RADIUS both curves equal r / CORE_RADIUS, whatever sqrt and exp are; they are in [0, 1) there and 0 at r = 0 |
| RotationCurves.ObservedFlatOutsideCore | galaxy.js:32-35 | beyond the core the observed curve stays in (0.85, 1.0] when exp of a negative number is in (0, 1] |
| StarField.PlanarRadius | galaxy.js:110 | the stored bulge radius is never 0, so the velocity divisions are always defined |
| StarField.BulgeStarOf | galaxy.js:87-117 | one bulge star from its samples; stated by BulgeBands (radius, size and colour bands) and BulgeRadiusGuard (stored radius and velocities) |
| StarField.DiskStarOf | galaxy.js:142-166 | one disk star from its samples; stated by DiskBands (arm, radius, colour bands, velocities consistent with the curves) |
| StarField.BulgeRadiusGuard | galaxy.js:110-115 | the stored radius is the planar distance, or 0.1 exactly when that distance is 0; it is > 0 when sqrt is non-negative; both angular velocities are the curves at that radius / radius * 0.025 |
| StarField.BulgeBands | galaxy.js:87-107 | with samples in [0,1): sampled radius in [0, 6), size in (0.1, 0.25], colour (1.0, (0.5, 0.8], (0.2, 0.5]) |
| StarField.DiskBands | galaxy.js:142-164 | with samples in [0,1) and pow(u, 0.6) in [0,1]: arm is 0 or 1, radius in [6, 30], colour in [0.7,1) x [0.8,1) x [0.9,1), velocities are the curves / radius * 0.02 |
| StarField.Interleave | galaxy.js:80-81 | a buffer for n stars has 3n slots (positions and colours of both populations) |
| StarField.InterleaveSlots | galaxy.js:96-98 | star i occupies exactly slots 3i, 3i+1, 3i+2 holding its x, y, z (or r, g, b) |
| StarField.AdvanceChangesOnlyAngle | galaxy.js:331-334 | one frame adds exactly angularVelocity (observed mode) or keplerianAngularVelocity (Keplerian mode) to the angle; radius, height and both velocities are unchanged, and consistency with the curves is kept |
| StarField.Advance | galaxy.js:333-334 | one frame of a star's orbit; stated by AdvanceChangesOnlyAngle (only the angle changes, by the selected velocity) and AdvanceFramesLinear |
| StarField.AdvanceBulge | galaxy.js:344-346 | one frame of a bulge star: Advance when radius > 0.5, no change otherwise; stated by Galaxy.Simulation.AdvanceBulgeStars |
| StarField.CoreStarsIgnoreMode | galaxy.js:109-117 | a star inside the core turns at 0.025 / CORE_RADIUS per frame in both modes, so toggling does not affect it |
| StarField.AdvanceFramesLinear | galaxy.js:331-334 | after n frames in one mode the angle has grown by n times the selected velocity and nothing else has changed |
| Galaxy.Simulation.constructor | galaxy.js:78-167 | startup leaves the view in observed mode with every buffer equal to the interleaved per-star values and every orbit record generated from its samples |
| Galaxy.Simulation.GenerateBulge | galaxy.js:85-118 | the bulge loop fills positions and colours at stride 3, sizes at stride 1, and appends each star's orbit in order |
| Galaxy.Simulation.GenerateDisk | galaxy.js:141-167 | the disk loop fills positions and colours at stride 3 and appends each star's orbit in order |
| Galaxy.Simulation.Toggle | galaxy.js:201-202 | the flag is negated and no star record changes |
| Galaxy.ToggleTwice | galaxy.js:201-202 | toggling twice restores the original mode |
| Galaxy.Simulation.AdvanceFrame | galaxy.js:329-351 | one frame: each disk star advances by the velocity of the current mode and gets new x and z; bulge stars with radius > 0.5 likewise; bulge stars with radius <= 0.5 keep their record and all three slots; no y slot, colour or size changes; orbit records stay consistent |
| Galaxy.Simulation.AdvanceDisk | galaxy.js:330-337 | the disk loop: records advanced, slots 3i and 3i+2 rewritten from the new angle, slot 3i+1 unchanged |
| Galaxy.Simulation.AdvanceBulgeStars | galaxy.js:341-350 | the bulge loop: only stars with radius > 0.5 are advanced and rewritten; every other slot is unchanged |
| QuakeDisplay.MagnitudeColor | earthquake.js:182-187 | green exactly below 2.5, yellow exactly on [2.5, 4.5), orange exactly on [4.5, 6.0), red exactly from 6.0 |
| QuakeDisplay.MagnitudeSize | earthquake.js:189-194 | the marker radius is at least 0.08, at most 0.25 below magnitude 6 and at least 0.4 from 6 |
| QuakeDisplay.SizeMonotone | earthquake.js:189-194 | marker size is non-decreasing in magnitude |
| QuakeDisplay.SizeFollowsColor | earthquake.js:182-194 | below 6 two magnitudes get the same size exactly when they get the same colour |
| QuakeDisplay.MagnitudeClass | earthquake.js:313 | the class is one of minor, moderate, major, great |
| QuakeDisplay.ClassMatchesColor | earthquake.js:313 | each list class corresponds to exactly one marker colour: the thresholds 2.5, 4.5, 6 coincide |
| QuakeDisplay.ElapsedSeconds | earthquake.js:328 | the elapsed seconds are the floor of the millisecond difference / 1000, negative differences included |
| QuakeDisplay.TimeAgoOf | earthquake.js:327-333 | "just now" exactly below 60 s (future included); minutes exactly on [60, 3600) with 1..59 minutes; hours exactly on [3600, 86400) with 1..23 hours; days otherwise with at least 1 day; each count is the floor of seconds per unit |
| QuakeDisplay.TimeAgoTextReadable | earthquake.js:329-332 | the text is "Just now", or the count as a run of decimal digits that reads back as the count, followed by exactly " minutes ago", " hours ago" or " days ago" according to the bucket |
| QuakeDisplay.TimeAgoTextInjective | earthquake.js:329-332 | two buckets with the same text are the same bucket: the text determines both the unit and the count |
| QuakeDisplay.TimeAgoText | earthquake.js:329-332 | the text of a bucket; stated by TimeAgoTextReadable (the count in decimal followed by the bucket's unit) and TimeAgoTextInjective |
| QuakeDisplay.Decimal | earthquake.js:330-332 | a count is written with decimal digits only and no leading zero |
| QuakeDisplay.DecimalRoundTrip | earthquake.js:330-332 | reading back the decimal text of a count gives the count |
| QuakeFeed.PlaceOrUnknown | earthquake.js:263 | a missing or empty place becomes "Unknown location", so the place is never empty |
| QuakeFeed.MagOrZero | earthquake.js:262 | a missing magnitude reads as 0; stated by CountedStep (such a feature is skipped) |
| QuakeFeed.QuakeOf | earthquake.js:262-274 | the record pushed for a feature; stated by CountedStep (a feature with positive magnitude is appended as this record) |
| QuakeFeed.Counted | earthquake.js:262-268 | the counted quakes are at most the features and all have positive magnitude |
| QuakeFeed.CountedStep | earthquake.js:262-268 | a feature with a missing, zero or negative magnitude is skipped; any other is appended as itself |
| QuakeFeed.CountedComplete | earthquake.js:266-268 | every feature with positive magnitude is among the counted quakes |
| QuakeFeed.CountAtLeast | earthquake.js:270 | the major count is at most the total count, and equal to it exactly when every counted quake is at least 4.5 |
| QuakeFeed.LargestMagIsMaximum | earthquake.js:254-271 | the running maximum bounds every counted magnitude, is attained by one, and is 0 exactly when nothing was counted |
| QuakeFeed.LargestMag | earthquake.js:254-271 | the running maximum from 0; stated by LargestMagIsMaximum and AppendQuake |
| QuakeFeed.Candidates | earthquake.js:273-275 | the candidate list has between min(5, n) and n entries for n counted quakes |
| QuakeFeed.CandidatesKeepStrong | earthquake.js:273-275 | every counted quake of magnitude >= 4.0 is a candidate |
| QuakeFeed.CandidatesStartWithFirstFive | earthquake.js:273-275 | the first min(5, n) counted quakes open the candidate list in feed order |
| QuakeFeed.CandidatesAreCounted | earthquake.js:273-275 | every candidate is a counted quake that is among the first five or has magnitude >= 4.0 |
| QuakeFeed.AppendQuake | earthquake.js:266-275 | counting one more quake raises the major count iff it is >= 4.5, raises the maximum iff it is larger, and adds it to the candidates iff fewer than five were counted before or it is >= 4.0 |
| QuakeFeed.Visit | earthquake.js:257-277 | the forEach callback turns the tally of the quakes counted so far into the tally after this feature, using the source's `significantQuakes.length < 5` test |
| QuakeFeed.Insert | earthquake.js:280 | inserting into a sequence sorted by non-increasing magnitude keeps it sorted and adds exactly that quake |
| QuakeFeed.SortByMagnitude | earthquake.js:280 | the sort returns a permutation of its input ordered by non-increasing magnitude |
| QuakeFeed.TopQuakes | earthquake.js:280-281 | the top list has min(5, candidates) entries, is ordered by non-increasing magnitude and is a sub-multiset of the candidates |
| QuakeFeed.TopQuakesAreStrongest | earthquake.js:279-281 | any candidate left out of the top list is no stronger than each quake in it |
| QuakeFeed.Summarize | earthquake.js:252-281 | totalCount counts the features with positive magnitude; majorCount counts those >= 4.5 and is <= totalCount; largestMag is their maximum or 0 if none; topQuakes is the top-5 cut of the sorted candidates |

## Left out

- Three.js scene construction, materials, lights, camera, controls, `renderer.render` and the `needsUpdate` flags are foreign library calls with no logic of their own.
- `drawChart` (galaxy.js:227-317) is Canvas 2D drawing whose result is pixels. The curves it samples are `KeplerianVelocity` and `ObservedVelocity`.
- The DOM updates in `toggleRotation` (button text, hint, indicator) and the `drawChart` call there are UI output. Only the flag flip is modelled.
- The background star field (galaxy.js:183-193), the accretion-disk spin, the core-light pulse, `requestAnimationFrame` and the resize handlers are scenery, timing or UI.
- `Math.random` is not modelled. Each sample is a parameter, and the band lemmas assume it lies in [0, 1).
- Transcendental accuracy is not modelled: `sqrt`, `exp`, `pow`, `cos`, `sin`, `acos` and `atan2` are arbitrary functions. So the model does not prove the divergence of the two curves beyond the core, trigonometric position identities, or the initial bulge position equalling `cos(angle) * radius`.
- Float32 rounding of the buffers and IEEE NaN/Infinity are not modelled. Numbers are exact reals.
- StarField.DiskStarOf: requires pow(u, 0.6) >= 0. This is true of `Math.pow` on [0, 1) and keeps the disk radius nonzero. A negative value could make the radius 0 (at pow = -0.25), and then the source stores NaN (0 / 0) in both angular velocities.
- Galaxy.Simulation.constructor: takes the star counts 8000 and 12000 as fixed, as the source does.
- `fetchEarthquakes`'s `fetch`/`json`, the error path, `setInterval`, `clearEarthquakes`/`addEarthquake`, `latLongToVector3` and `createEarthTexture` are network, DOM, trigonometry or Three.js object management. So are marker pulsing and the globe's animation loop.
- `updateQuakeList`'s HTML and `toFixed`/`toLocaleString` formatting are DOM output. The magnitude class and the time-ago text it uses are modelled.
- QuakeFeed.Feature: a missing `time` is not modelled; the source would print "NaN days ago".
- QuakeFeed.SortByMagnitude: is stable like the engine's sort, but only sortedness and permutation are proved, not stability.
- main.js (solar-system animation) and vite.config.js (build configuration) have no logic beyond what is modelled here.
