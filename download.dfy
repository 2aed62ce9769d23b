/** The per-date choice in `main`: the archive URL to request (built from the
    long name when the date has one, from the short name otherwise) and the
    local file name, which is always the short name; and the sequence of
    such targets for the dates given on the command line. */
module Download {
  import opened Wrappers
  import opened Decimal
  import opened Calendar
  import opened DateRanges
  import opened Ionex

  const ArchiveUrl := "https://cddis.nasa.gov/archive/gps/products/ionex/"

  /** What one iteration of the loop in `main` requests and saves. */
  datatype Target = Target(url: string, localName: string)

  /** The URL of a file in the archive: the archive root, the year, a slash,
      the day of the year in three digits, a slash and the file name. */
  function UrlFor(d: ValidDate, name: string): string {
    ArchiveUrl + (Digits(d.year) + ("/" + (Pad(DayOfYear(d), 3) + ("/" + name))))
  }

  /** The name of the remote file. */
  function RemoteName(d: ValidDate, ionexType: string): string {
    match FormatLong(d, ionexType)
    case Some(long) => long
    case None => FormatShort(d, ionexType)
  }

  /** One iteration of the loop in `main`, without the request and the write. */
  function ResolveTarget(d: ValidDate, ionexType: string): Target {
    Target(UrlFor(d, RemoteName(d, ionexType)), FormatShort(d, ionexType))
  }

  /** Where the fields of a URL sit, for any year digits `y` and day digits `p`. */
  lemma {:induction false} UrlLayout(y: string, p: string, name: string)
    requires AllDigits(y) && |p| == 3
    ensures var url := ArchiveUrl + (y + ("/" + (p + ("/" + name))));
      var n := |ArchiveUrl|;
      && url[..n] == ArchiveUrl
      && DigitRun(url[n..]) == |y|
      && |url| == n + |y| + 5 + |name|
      && url[n..n + |y|] == y
      && url[n + |y|] == '/'
      && url[n + |y| + 1..n + |y| + 4] == p
      && url[n + |y| + 4] == '/'
      && url[n + |y| + 5..] == name
  {
    var url := ArchiveUrl + (y + ("/" + (p + ("/" + name))));
    var n := |ArchiveUrl|;
    var rest := p + ("/" + name);
    assert url[n..] == y + ("/" + rest);
    DigitRunBeforeSlash(y, rest);
  }

  /** Read back from a URL, past the archive root: the year in decimal, a
      slash, three digits giving the day of the year, a slash and the file name. */
  lemma UrlForFields(d: ValidDate, name: string)
    ensures var url := UrlFor(d, name);
      var n := |ArchiveUrl|;
      && url[..n] == ArchiveUrl
      && var k := DigitRun(url[n..]);
      && 1 <= k <= 4 && |url| == n + k + 5 + |name|
      && AllDigits(url[n..n + k]) && DecimalValue(url[n..n + k]) == d.year
      && url[n + k] == '/'
      && AllDigits(url[n + k + 1..n + k + 4]) && DecimalValue(url[n + k + 1..n + k + 4]) == DayOfYear(d)
      && url[n + k + 4] == '/'
      && url[n + k + 5..] == name
  {
    DigitsAtMost(d.year, 4);
    DigitsValue(d.year);
    PadWidth(DayOfYear(d), 3);
    PadValue(DayOfYear(d), 3);
    UrlLayout(Digits(d.year), Pad(DayOfYear(d), 3), name);
  }

  /** The file name at the end of the URL is the long name when the date has
      one and the short name exactly when it has none; the local name is
      always the short name. */
  lemma UrlFields(d: ValidDate, ionexType: string)
    ensures var t := ResolveTarget(d, ionexType);
      var k := DigitRun(t.url[|ArchiveUrl|..]);
      && |t.url| >= |ArchiveUrl| + k + 5
      && var name := t.url[|ArchiveUrl| + k + 5..];
      && (FormatLong(d, ionexType).Some? ==> name == FormatLong(d, ionexType).value)
      && (name == FormatShort(d, ionexType) <==> FormatLong(d, ionexType).None?)
      && t.localName == FormatShort(d, ionexType)
  {
    UrlForFields(d, RemoteName(d, ionexType));
    RemoteNameChoice(d, ionexType);
  }

  lemma RemoteNameChoice(d: ValidDate, ionexType: string)
    ensures FormatLong(d, ionexType).Some? ==> RemoteName(d, ionexType) == FormatLong(d, ionexType).value
    ensures RemoteName(d, ionexType) == FormatShort(d, ionexType) <==> FormatLong(d, ionexType).None?
  {
    if FormatLong(d, ionexType).Some? {
      assert |FormatLong(d, ionexType).value| == 41 by { LongNameFields(d, ionexType); }
      assert |FormatShort(d, ionexType)| == |ionexType| + 10 by { ShortNameFields(d, ionexType); }
      assert |ionexType| == 4;
    }
  }

  /** The local file carries the name of the remote file exactly when the date
      has no long name. */
  lemma LocalNameIsRemoteNameIff(d: ValidDate, ionexType: string)
    ensures ResolveTarget(d, ionexType).url == UrlFor(d, ResolveTarget(d, ionexType).localName)
      <==> FormatLong(d, ionexType).None?
  {
    var t := ResolveTarget(d, ionexType);
    if FormatLong(d, ionexType).Some? {
      LongNameFields(d, ionexType);
      ShortNameFields(d, ionexType);
      assert |t.url| != |UrlFor(d, t.localName)|;
    }
  }

  /** The number of leading decimal digits of a string. */
  function DigitRun(s: string): nat {
    if s == [] || !IsDigit(s[0]) then 0 else 1 + DigitRun(s[1..])
  }

  lemma {:induction false} DigitRunBeforeSlash(a: string, x: string)
    requires AllDigits(a)
    ensures DigitRun(a + ("/" + x)) == |a|
  {
    if a != [] {
      assert (a + ("/" + x))[1..] == a[1..] + ("/" + x);
      DigitRunBeforeSlash(a[1..], x);
    }
  }

  /** A digit string followed by a slash can be split off again. */
  lemma SplitAtSlash(a: string, x: string, b: string, y: string)
    requires AllDigits(a) && AllDigits(b)
    requires a + ("/" + x) == b + ("/" + y)
    ensures a == b && x == y
  {
    var s := a + ("/" + x);
    DigitRunBeforeSlash(a, x);
    DigitRunBeforeSlash(b, y);
    assert a == s[..|a|] && b == s[..|b|];
    assert x == s[|a| + 1..] && y == s[|b| + 1..];
  }

  /** Distinct dates are requested from distinct URLs, whatever the map type. */
  lemma DistinctDatesDistinctUrls(d1: ValidDate, d2: ValidDate, ionexType: string)
    requires d1 != d2
    ensures ResolveTarget(d1, ionexType).url != ResolveTarget(d2, ionexType).url
  {
    if ResolveTarget(d1, ionexType).url == ResolveTarget(d2, ionexType).url {
      var p1, p2 := Pad(DayOfYear(d1), 3), Pad(DayOfYear(d2), 3);
      var r1, r2 := p1 + ("/" + RemoteName(d1, ionexType)), p2 + ("/" + RemoteName(d2, ionexType));
      var n := |ArchiveUrl|;
      assert ResolveTarget(d1, ionexType).url[n..] == Digits(d1.year) + ("/" + r1);
      assert ResolveTarget(d2, ionexType).url[n..] == Digits(d2.year) + ("/" + r2);
      SplitAtSlash(Digits(d1.year), r1, Digits(d2.year), r2);
      DigitsValue(d1.year);
      DigitsValue(d2.year);
      PadWidth(DayOfYear(d1), 3);
      PadWidth(DayOfYear(d2), 3);
      PadValue(DayOfYear(d1), 3);
      PadValue(DayOfYear(d2), 3);
      assert p1 == r1[..3] && p2 == r2[..3];
      OrderByDayOfYear(d1, d2);
    }
  }

  /** The dates `main` processes: the start date alone without an end date,
      `get_date_range` otherwise. */
  function DatesFor(start: ValidDate, end: Option<ValidDate>): seq<ValidDate> {
    match end
    case None => [start]
    case Some(e) => DateRange(start, e)
  }

  /** The loop of `main` over the dates: one target per date, in order. */
  method ResolveTargets(dates: seq<ValidDate>, ionexType: string) returns (targets: seq<Target>)
    ensures |targets| == |dates|
    ensures forall i :: 0 <= i < |dates| ==> targets[i] == ResolveTarget(dates[i], ionexType)
  {
    targets := [];
    for i := 0 to |dates|
      invariant |targets| == i
      invariant forall j :: 0 <= j < i ==> targets[j] == ResolveTarget(dates[j], ionexType)
    {
      targets := targets + [ResolveTarget(dates[i], ionexType)];
    }
  }

  /** `main` after argument parsing: the dates to process, then one target per
      date; Failure, before any request, where the date range overflows. */
  method Plan(start: ValidDate, end: Option<ValidDate>, ionexType: string) returns (r: Result<seq<Target>, Error>)
    ensures r.Failure? <==> end.Some? && Overflows(start, end.value)
    ensures r.Success? ==> |r.value| == |DatesFor(start, end)|
    ensures r.Success? ==> forall i :: 0 <= i < |r.value| ==>
      r.value[i] == ResolveTarget(DatesFor(start, end)[i], ionexType)
  {
    var dates: seq<ValidDate>;
    match end {
      case None =>
        dates := [start];
      case Some(e) =>
        var range := GetDateRange(start, e);
        if range.Failure? {
          return Failure(range.error);
        }
        dates := range.value;
    }
    var targets := ResolveTargets(dates, ionexType);
    r := Success(targets);
  }

  /** No URL is requested twice in one run. */
  lemma PlannedTargetsDistinct(start: ValidDate, end: Option<ValidDate>, ionexType: string)
    ensures var dates := DatesFor(start, end);
      forall i, j :: 0 <= i < j < |dates| ==>
        ResolveTarget(dates[i], ionexType).url != ResolveTarget(dates[j], ionexType).url
  {
    var dates := DatesFor(start, end);
    if end.Some? {
      DateRangeOrdinals(start, end.value);
      forall i, j | 0 <= i < j < |dates|
        ensures ResolveTarget(dates[i], ionexType).url != ResolveTarget(dates[j], ionexType).url
      {
        OrderByOrdinal(dates[i], dates[j]);
        DistinctDatesDistinctUrls(dates[i], dates[j], ionexType);
      }
    }
  }

  /** Local names are not distinct in a run that spans a century: the short
      name holds only the year modulo 100, so 2100-01-01 is saved under the
      name of 2000-01-01 and overwrites its file. */
  lemma LocalNamesRepeatAcrossCentury(ionexType: string)
    ensures Date(2000, 1, 1) in DatesFor(Date(2000, 1, 1), Some(Date(2100, 1, 1)))
    ensures Date(2100, 1, 1) in DatesFor(Date(2000, 1, 1), Some(Date(2100, 1, 1)))
    ensures ResolveTarget(Date(2000, 1, 1), ionexType).localName == ResolveTarget(Date(2100, 1, 1), ionexType).localName
  {
    var first: ValidDate := Date(2000, 1, 1);
    var last: ValidDate := Date(2100, 1, 1);
    DateRangeMembers(first, last, first);
    DateRangeMembers(first, last, last);
    assert DayOfYear(first) == DayOfYear(last) && first.year % 100 == last.year % 100;
  }
}
