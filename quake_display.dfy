/** How the earthquake globe presents one quake: marker colour and size from
    the magnitude, the CSS class of its list entry, and the "time ago" text. */
module QuakeDisplay {

  // Magnitude thresholds shared by the colour, size and class buckets.
  const LIGHT: real := 2.5
  const MODERATE: real := 4.5
  const STRONG: real := 6.0

  // Marker colours (0xRRGGBB).
  const GREEN: int := 0x44aa44
  const YELLOW: int := 0xddaa00
  const ORANGE: int := 0xff6644
  const RED: int := 0xff2222

  /** Marker colour: green below 2.5, yellow in [2.5, 4.5), orange in
      [4.5, 6.0), red from 6.0 up. */
  function MagnitudeColor(mag: real): (c: int)
    ensures c == GREEN <==> mag < LIGHT
    ensures c == YELLOW <==> LIGHT <= mag < MODERATE
    ensures c == ORANGE <==> MODERATE <= mag < STRONG
    ensures c == RED <==> STRONG <= mag
  {
    if mag < LIGHT then GREEN
    else if mag < MODERATE then YELLOW
    else if mag < STRONG then ORANGE
    else RED
  }

  /** Marker radius: 0.08, 0.15 and 0.25 on the three lower bands, then
      growing by 0.1 per magnitude unit from 0.4 at magnitude 6. */
  function MagnitudeSize(mag: real): (s: real)
    ensures s >= 0.08
    ensures mag < STRONG ==> s <= 0.25
    ensures STRONG <= mag ==> s >= 0.4
  {
    if mag < LIGHT then 0.08
    else if mag < MODERATE then 0.15
    else if mag < STRONG then 0.25
    else 0.4 + (mag - 6.0) * 0.1
  }

  /** A stronger quake never gets a smaller marker. */
  lemma SizeMonotone(a: real, b: real)
    requires a <= b
    ensures MagnitudeSize(a) <= MagnitudeSize(b)
  {
  }

  /** Below magnitude 6 the marker size is determined by the colour bucket. */
  lemma SizeFollowsColor(a: real, b: real)
    requires a < STRONG && b < STRONG
    ensures MagnitudeColor(a) == MagnitudeColor(b) <==> MagnitudeSize(a) == MagnitudeSize(b)
  {
  }

  /** The CSS class of a list entry. */
  function MagnitudeClass(mag: real): (cls: string)
    ensures cls in {"minor", "moderate", "major", "great"}
  {
    if mag < 2.5 then "minor" else if mag < 4.5 then "moderate" else if mag < 6.0 then "major" else "great"
  }

  /** The list classes use exactly the marker-colour thresholds: each class
      corresponds to one colour, in both directions. */
  lemma ClassMatchesColor(mag: real)
    ensures MagnitudeClass(mag) == "minor" <==> MagnitudeColor(mag) == GREEN
    ensures MagnitudeClass(mag) == "moderate" <==> MagnitudeColor(mag) == YELLOW
    ensures MagnitudeClass(mag) == "major" <==> MagnitudeColor(mag) == ORANGE
    ensures MagnitudeClass(mag) == "great" <==> MagnitudeColor(mag) == RED
  {
  }

  // ----- Elapsed time -----

  /** Whole seconds between two millisecond timestamps, rounded down (also
      for a timestamp in the future). */
  function ElapsedSeconds(now: int, timestamp: int): (s: int)
    ensures 1000 * s <= now - timestamp < 1000 * (s + 1)
  {
    (now - timestamp) / 1000
  }

  datatype TimeAgo = JustNow | MinutesAgo(minutes: nat) | HoursAgo(hours: nat) | DaysAgo(days: nat)
  {
    /** The number shown in the text (none for JustNow). */
    function Count(): nat
    {
      match this
      case JustNow => 0
      case MinutesAgo(n) => n
      case HoursAgo(n) => n
      case DaysAgo(n) => n
    }
  }

  /** The "time ago" bucket of a timestamp: under a minute (including the
      future) is "just now"; otherwise the count in the largest unit that
      fits, rounded down, which is between 1 and 59 minutes, 1 and 23 hours,
      or at least 1 day. */
  function TimeAgoOf(now: int, timestamp: int): (t: TimeAgo)
    ensures var s := ElapsedSeconds(now, timestamp);
      && (t == JustNow <==> s < 60)
      && (t.MinutesAgo? <==> 60 <= s < 3600)
      && (t.HoursAgo? <==> 3600 <= s < 86400)
      && (t.DaysAgo? <==> 86400 <= s)
      && (t.MinutesAgo? ==> 1 <= t.minutes <= 59 && 60 * t.minutes <= s < 60 * (t.minutes + 1))
      && (t.HoursAgo? ==> 1 <= t.hours <= 23 && 3600 * t.hours <= s < 3600 * (t.hours + 1))
      && (t.DaysAgo? ==> 1 <= t.days && 86400 * t.days <= s < 86400 * (t.days + 1))
  {
    var seconds := ElapsedSeconds(now, timestamp);
    if seconds < 60 then JustNow
    else if seconds < 3600 then MinutesAgo(seconds / 60)
    else if seconds < 86400 then HoursAgo(seconds / 3600)
    else DaysAgo(seconds / 86400)
  }

  /** The text shown for a bucket. */
  function TimeAgoText(t: TimeAgo): string
  {
    match t
    case JustNow => "Just now"
    case MinutesAgo(n) => Decimal(n) + " minutes ago"
    case HoursAgo(n) => Decimal(n) + " hours ago"
    case DaysAgo(n) => Decimal(n) + " days ago"
  }

  /** Every bucket's text can be read back: "Just now", or the count in
      decimal followed by the bucket's unit. */
  lemma TimeAgoTextReadable(t: TimeAgo)
    ensures t == JustNow ==> TimeAgoText(t) == "Just now"
    ensures !t.JustNow? ==>
      var text := TimeAgoText(t);
      var k := |Decimal(t.Count())|;
      && 0 < k < |text| && ParseDecimal(text[..k]) == t.Count() && text[k] == ' '
      && (forall j :: 0 <= j < k ==> '0' <= text[j] <= '9')
      && (t.MinutesAgo? ==> text[k..] == " minutes ago")
      && (t.HoursAgo? ==> text[k..] == " hours ago")
      && (t.DaysAgo? ==> text[k..] == " days ago")
  {
    match t
    case JustNow =>
    case MinutesAgo(n) => DecimalPrefix(n, " minutes ago");
    case HoursAgo(n) => DecimalPrefix(n, " hours ago");
    case DaysAgo(n) => DecimalPrefix(n, " days ago");
  }

  lemma DecimalPrefix(n: nat, rest: string)
    requires |rest| > 0 && rest[0] == ' '
    ensures var s := Decimal(n) + rest;
      var k := |Decimal(n)|;
      && 0 < k < |s| && ParseDecimal(s[..k]) == n && s[k] == ' '
      && (forall j :: 0 <= j < k ==> '0' <= s[j] <= '9')
      && s[k..] == rest
  {
    var s := Decimal(n) + rest;
    assert s[..|Decimal(n)|] == Decimal(n);
    assert forall j :: 0 <= j < |Decimal(n)| ==> s[j] == Decimal(n)[j];
    DecimalRoundTrip(n);
  }

  /** Different buckets never share a text: the text determines the unit
      and the count, so the list never shows one age for another. */
  lemma TimeAgoTextInjective(a: TimeAgo, b: TimeAgo)
    requires TimeAgoText(a) == TimeAgoText(b)
    ensures a == b
  {
    var text := TimeAgoText(a);
    TimeAgoTextReadable(a);
    TimeAgoTextReadable(b);
    if a.JustNow? || b.JustNow? {
      // "Just now" starts with a letter, every other text with a digit
      assert text[0] == 'J';
    } else {
      var ka, kb := |Decimal(a.Count())|, |Decimal(b.Count())|;
      // both prefixes are digit runs ended by the first space
      assert text[ka] == ' ' && text[kb] == ' ';
      assert ka == kb;
      assert a.Count() == b.Count();
      assert text[ka..] == TimeAgoText(b)[kb..];
    }
  }

  // ----- Decimal rendering of a count -----

  function DigitChar(d: nat): (c: char)
    requires d < 10
    ensures '0' <= c <= '9' && c as int - '0' as int == d
  {
    ('0' as int + d) as char
  }

  /** A count written in decimal, without leading zeros. */
  function Decimal(n: nat): (s: string)
    ensures |s| >= 1
    ensures forall c <- s :: '0' <= c <= '9'
    ensures |s| > 1 ==> s[0] != '0'
  {
    if n < 10 then [DigitChar(n)] else Decimal(n / 10) + [DigitChar(n % 10)]
  }

  /** Reads a run of decimal digits. */
  function ParseDecimal(s: string): nat
  {
    if s == [] then 0
    else
      var c := s[|s| - 1];
      var d := if '0' <= c <= '9' then c as int - '0' as int else 0;
      ParseDecimal(s[..|s| - 1]) * 10 + d
  }

  lemma {:induction false} DecimalRoundTrip(n: nat)
    ensures ParseDecimal(Decimal(n)) == n
  {
    if n >= 10 {
      var s := Decimal(n);
      assert s[..|s| - 1] == Decimal(n / 10);
      DecimalRoundTrip(n / 10);
    }
  }
}
