/** The summary the earthquake globe computes from one feed: how many quakes
    were plotted, how many were major, the largest magnitude, and the five
    strongest among a candidate list. */
module QuakeFeed {

  datatype Option<T> = None | Some(value: T)

  /** One feed entry: its coordinates and the properties the summary reads;
      magnitude and place may be missing. */
  datatype Feature = Feature(lon: real, lat: real, mag: Option<real>, place: Option<string>, time: int)

  /** A plotted quake as the summary keeps it. */
  datatype Quake = Quake(mag: real, place: string, time: int, lat: real, lon: real)

  datatype Summary = Summary(totalCount: nat, majorCount: nat, largestMag: real, topQuakes: seq<Quake>)

  const UNKNOWN_PLACE: string := "Unknown location"
  const MAJOR_MAG: real := 4.5
  const CANDIDATE_MAG: real := 4.0
  const LIST_SIZE: nat := 5

  function Min(a: int, b: int): int
  {
    if a <= b then a else b
  }

  /** `mag || 0`: a missing magnitude reads as 0. */
  function MagOrZero(f: Feature): real
  {
    match f.mag
    case None => 0.0
    case Some(m) => m
  }

  /** `place || 'Unknown location'`: a missing or empty place is replaced. */
  function PlaceOrUnknown(f: Feature): (p: string)
    ensures p != []
  {
    match f.place
    case None => UNKNOWN_PLACE
    case Some(p) => if p == [] then UNKNOWN_PLACE else p
  }

  function QuakeOf(f: Feature): Quake
  {
    Quake(MagOrZero(f), PlaceOrUnknown(f), f.time, f.lat, f.lon)
  }

  /** The quakes the summary counts and plots, in feed order: those with a
      positive magnitude. */
  function Counted(fs: seq<Feature>): (c: seq<Quake>)
    ensures |c| <= |fs|
    ensures forall q <- c :: q.mag > 0.0
  {
    if fs == [] then []
    else
      var f := fs[|fs| - 1];
      Counted(fs[..|fs| - 1]) + if MagOrZero(f) > 0.0 then [QuakeOf(f)] else []
  }

  /** A feature without a positive magnitude (missing, zero or negative)
      leaves the counted quakes as they were; any other adds exactly itself. */
  lemma CountedStep(fs: seq<Feature>, i: nat)
    requires i < |fs|
    ensures MagOrZero(fs[i]) <= 0.0 ==> Counted(fs[..i + 1]) == Counted(fs[..i])
    ensures MagOrZero(fs[i]) > 0.0 ==> Counted(fs[..i + 1]) == Counted(fs[..i]) + [QuakeOf(fs[i])]
  {
    assert fs[..i + 1][..i] == fs[..i];
  }

  /** Every feature with a positive magnitude is among the counted quakes. */
  lemma {:induction false} CountedComplete(fs: seq<Feature>, i: int)
    requires 0 <= i < |fs| && MagOrZero(fs[i]) > 0.0
    ensures QuakeOf(fs[i]) in Counted(fs)
  {
    if i < |fs| - 1 {
      CountedComplete(fs[..|fs| - 1], i);
    }
  }

  /** How many of the quakes have magnitude at least t. */
  function CountAtLeast(qs: seq<Quake>, t: real): (n: nat)
    ensures n <= |qs|
    ensures n == |qs| <==> forall q <- qs :: q.mag >= t
  {
    if qs == [] then 0
    else CountAtLeast(qs[..|qs| - 1], t) + if qs[|qs| - 1].mag >= t then 1 else 0
  }

  /** The candidate list, stated per counted quake: the quake at position k
      of the counted sequence is a candidate when k < 5 or its magnitude is
      at least 4.0. */
  function Candidates(c: seq<Quake>): (r: seq<Quake>)
    ensures Min(LIST_SIZE, |c|) <= |r| <= |c|
  {
    if c == [] then []
    else
      var k := |c| - 1;
      Candidates(c[..k]) + if k < LIST_SIZE || c[k].mag >= CANDIDATE_MAG then [c[k]] else []
  }

  /** Every counted quake of magnitude 4.0 or more is a candidate. */
  lemma {:induction false} CandidatesKeepStrong(c: seq<Quake>, j: int)
    requires 0 <= j < |c| && c[j].mag >= CANDIDATE_MAG
    ensures c[j] in Candidates(c)
  {
    if j < |c| - 1 {
      CandidatesKeepStrong(c[..|c| - 1], j);
    }
  }

  /** The first min(5, n) counted quakes open the candidate list, in feed order. */
  lemma {:induction false} CandidatesStartWithFirstFive(c: seq<Quake>)
    ensures var k := Min(LIST_SIZE, |c|);
      Candidates(c)[..k] == c[..k]
  {
    if c != [] {
      var p := c[..|c| - 1];
      CandidatesStartWithFirstFive(p);
      if |c| <= LIST_SIZE {
        assert Candidates(c) == Candidates(p) + [c[|c| - 1]];
        assert Candidates(p) == p;
      } else {
        assert c[..LIST_SIZE] == p[..LIST_SIZE];
      }
    }
  }

  /** Every candidate is a counted quake that is among the first five or has
      magnitude 4.0 or more. */
  lemma {:induction false} CandidatesAreCounted(c: seq<Quake>)
    ensures forall q <- Candidates(c) ::
      exists j :: 0 <= j < |c| && c[j] == q && (j < LIST_SIZE || q.mag >= CANDIDATE_MAG)
  {
    if c != [] {
      var k := |c| - 1;
      var p := c[..k];
      CandidatesAreCounted(p);
      forall q <- Candidates(c)
        ensures exists j :: 0 <= j < |c| && c[j] == q && (j < LIST_SIZE || q.mag >= CANDIDATE_MAG)
      {
        if q in Candidates(p) {
          var j :| 0 <= j < |p| && p[j] == q && (j < LIST_SIZE || q.mag >= CANDIDATE_MAG);
          assert c[j] == q;
        } else {
          assert c[k] == q;
        }
      }
    }
  }

  // ----- Ordering: Array.prototype.sort with (a, b) => b.mag - a.mag -----

  predicate SortedByMagnitude(s: seq<Quake>)
  {
    forall i, j :: 0 <= i < j < |s| ==> s[i].mag >= s[j].mag
  }

  /** Inserts q before the first element it is at least as strong as. */
  function Insert(q: Quake, s: seq<Quake>): (r: seq<Quake>)
    requires SortedByMagnitude(s)
    ensures SortedByMagnitude(r)
    ensures multiset(r) == multiset(s) + multiset{q}
    ensures |r| == |s| + 1
    ensures r[0] == q || (s != [] && r[0] == s[0])
  {
    if s == [] || q.mag >= s[0].mag then [q] + s
    else
      var rest := Insert(q, s[1..]);
      assert s == [s[0]] + s[1..];
      [s[0]] + rest
  }

  /** The candidates ordered by non-increasing magnitude (a stable sort). */
  function SortByMagnitude(s: seq<Quake>): (r: seq<Quake>)
    ensures SortedByMagnitude(r)
    ensures multiset(r) == multiset(s)
    ensures |r| == |s|
  {
    if s == [] then []
    else
      assert s == [s[0]] + s[1..];
      Insert(s[0], SortByMagnitude(s[1..]))
  }

  /** `slice(0, 5)` of the sorted candidates. */
  function TopQuakes(candidates: seq<Quake>): (top: seq<Quake>)
    ensures |top| == Min(LIST_SIZE, |candidates|)
    ensures SortedByMagnitude(top)
    ensures multiset(top) <= multiset(candidates)
  {
    var sorted := SortByMagnitude(candidates);
    var top := sorted[..Min(LIST_SIZE, |sorted|)];
    assert sorted == top + sorted[|top|..];
    top
  }

  /** No candidate left out of the top list is stronger than any quake in it. */
  lemma TopQuakesAreStrongest(candidates: seq<Quake>, q: Quake)
    requires q in candidates
    ensures var top := TopQuakes(candidates);
      q in top || forall t <- top :: t.mag >= q.mag
  {
    var sorted := SortByMagnitude(candidates);
    var top := TopQuakes(candidates);
    assert q in multiset(sorted);
    var j :| 0 <= j < |sorted| && sorted[j] == q;
    if j < |top| {
      assert sorted[j] == top[j];
    } else {
      forall t <- top ensures t.mag >= q.mag {
        var i :| 0 <= i < |top| && top[i] == t;
        assert sorted[i] == t;
      }
    }
  }

  // ----- The summary loop of the feed handler -----

  /** The running maximum the loop keeps, starting from 0. */
  function LargestMag(c: seq<Quake>): real
  {
    if c == [] then 0.0
    else
      var m := LargestMag(c[..|c| - 1]);
      if c[|c| - 1].mag > m then c[|c| - 1].mag else m
  }

  /** Over positive magnitudes the running maximum is the largest one: it
      bounds every quake and is attained by one, and it is 0 only for no quakes. */
  lemma {:induction false} LargestMagIsMaximum(c: seq<Quake>)
    requires forall q <- c :: q.mag > 0.0
    ensures forall q <- c :: q.mag <= LargestMag(c)
    ensures c == [] <==> LargestMag(c) == 0.0
    ensures c != [] ==> exists q <- c :: q.mag == LargestMag(c)
  {
    if c != [] {
      var p := c[..|c| - 1];
      assert forall q <- p :: q in c;
      LargestMagIsMaximum(p);
      assert c == p + [c[|c| - 1]];
      if p != [] {
        var w :| w in p && w.mag == LargestMag(p);
        assert w in c;
      }
    }
  }

  /** Appending one counted quake extends the running values the loop keeps. */
  lemma AppendQuake(c: seq<Quake>, q: Quake)
    ensures CountAtLeast(c + [q], MAJOR_MAG) == CountAtLeast(c, MAJOR_MAG) + if q.mag >= MAJOR_MAG then 1 else 0
    ensures LargestMag(c + [q]) == if q.mag > LargestMag(c) then q.mag else LargestMag(c)
    ensures Candidates(c + [q]) == Candidates(c) + if |c| < LIST_SIZE || q.mag >= CANDIDATE_MAG then [q] else []
  {
    assert (c + [q])[..|c|] == c;
  }

  /** The variables the feed handler updates while it walks the feed. */
  datatype Tally = Tally(totalCount: nat, majorCount: nat, largestMag: real, significantQuakes: seq<Quake>)

  /** What the tally holds after the quakes c have been counted, in order. */
  function TallyOf(c: seq<Quake>): Tally
  {
    Tally(|c|, CountAtLeast(c, MAJOR_MAG), LargestMag(c), Candidates(c))
  }

  /** The forEach callback for one feature: a feature with a positive
      magnitude is counted, counted as major from 4.5, may raise the largest
      magnitude, and is kept as a candidate if it reaches 4.0 or fewer than
      five candidates are kept so far. */
  method Visit(t: Tally, feature: Feature, ghost counted: seq<Quake>) returns (next: Tally)
    requires t == TallyOf(counted)
    ensures next == TallyOf(if MagOrZero(feature) > 0.0 then counted + [QuakeOf(feature)] else counted)
  {
    var totalCount, majorCount, largestMag, significantQuakes :=
      t.totalCount, t.majorCount, t.largestMag, t.significantQuakes;
    var mag := MagOrZero(feature);
    var place := PlaceOrUnknown(feature);
    if mag > 0.0 {
      var quake := Quake(mag, place, feature.time, feature.lat, feature.lon);
      assert quake == QuakeOf(feature);
      AppendQuake(counted, quake);
      // fewer than five candidates exactly when fewer than five quakes were counted
      assert |significantQuakes| < LIST_SIZE <==> |counted| < LIST_SIZE;
      totalCount := totalCount + 1;
      if mag >= MAJOR_MAG {
        majorCount := majorCount + 1;
      }
      if mag > largestMag {
        largestMag := mag;
      }
      if mag >= CANDIDATE_MAG || |significantQuakes| < LIST_SIZE {
        significantQuakes := significantQuakes + [quake];
      }
    }
    next := Tally(totalCount, majorCount, largestMag, significantQuakes);
  }

  /** Walks the feed once, then sorts the candidates by decreasing magnitude
      and keeps the first five. */
  method Summarize(features: seq<Feature>) returns (s: Summary)
    ensures s.totalCount == |Counted(features)|
    ensures s.majorCount == CountAtLeast(Counted(features), MAJOR_MAG) <= s.totalCount
    ensures forall q <- Counted(features) :: q.mag <= s.largestMag
    ensures Counted(features) == [] <==> s.largestMag == 0.0
    ensures Counted(features) != [] ==> exists q <- Counted(features) :: q.mag == s.largestMag
    ensures s.topQuakes == TopQuakes(Candidates(Counted(features)))
  {
    var tally := Tally(0, 0, 0.0, []);
    var i := 0;
    while i < |features|
      invariant 0 <= i <= |features|
      invariant tally == TallyOf(Counted(features[..i]))
    {
      CountedStep(features, i);
      tally := Visit(tally, features[i], Counted(features[..i]));
      i := i + 1;
    }
    assert features[..i] == features;
    LargestMagIsMaximum(Counted(features));
    var sorted := SortByMagnitude(tally.significantQuakes);
    s := Summary(tally.totalCount, tally.majorCount, tally.largestMag, sorted[..Min(LIST_SIZE, |sorted|)]);
  }
}
