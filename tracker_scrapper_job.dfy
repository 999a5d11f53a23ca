/**
 * One scrape cycle (Scheduler/TrackerScrapperJob.cs, whose class is named
 * AlertScrapperJob): URL validation, the weekday release gate, dispatch on
 * the host, digit extraction, and the DoWork loop that propagates each
 * extracted release to the store. Page loading and node selection are an
 * oracle; the store is the repository of TrackerStore.
 */
module Scraper {
  import opened Wrappers
  import opened DotNet
  import opened TrackerEntity
  import opened TrackerStore

  /** `Uri.TryCreate(url, UriKind.Absolute, out uri)`, taken as given. */
  type UriParser = string -> Option<Uri>

  /** IsValidUrl: `url` parses as an absolute URI whose scheme is http or https. */
  predicate IsValidUrl(parseUri: UriParser, url: string)
  {
    && parseUri(url).Some?
    && (parseUri(url).value.scheme == UriSchemeHttp || parseUri(url).value.scheme == UriSchemeHttps)
  }

  // ---------------------------------------------------------------------
  // Host dispatch
  // ---------------------------------------------------------------------

  /** The five sites, one GetLatestReleaseFrom* extractor each. */
  datatype Site = Mangakakalot | Pahe | MangaHub | Toomics | Manganato

  /** A site's host name without the `www.` prefix. */
  function BareHost(site: Site): string
  {
    match site
    case Mangakakalot => "mangakakalot.com"
    case Pahe => "pahe.win"
    case MangaHub => "mangahub.io"
    case Toomics => "toomics.com"
    case Manganato => "readmanganato.com"
  }

  /** A site's host name with the `www.` prefix. */
  function WwwHost(site: Site): string
  {
    match site
    case Mangakakalot => "www.mangakakalot.com"
    case Pahe => "www.pahe.win"
    case MangaHub => "www.mangahub.io"
    case Toomics => "www.toomics.com"
    case Manganato => "www.readmanganato.com"
  }

  /**
   * The `switch (domainNameOfUrl)` of DoWork: the bare host and the `www.`
   * host of each site select that site's extractor; any other host matches
   * no case.
   */
  function SiteOfHost(host: string): Option<Site>
  {
    if host == "www.mangakakalot.com" then Some(Mangakakalot)
    else if host == "mangakakalot.com" then Some(Mangakakalot)
    else if host == "www.pahe.win" then Some(Pahe)
    else if host == "pahe.win" then Some(Pahe)
    else if host == "www.mangahub.io" then Some(MangaHub)
    else if host == "mangahub.io" then Some(MangaHub)
    else if host == "www.toomics.com" then Some(Toomics)
    else if host == "toomics.com" then Some(Toomics)
    else if host == "www.readmanganato.com" then Some(Manganato)
    else if host == "readmanganato.com" then Some(Manganato)
    else None
  }

  /** A host selects a site exactly when it is that site's bare or `www.` host. */
  lemma SiteOfHostCases(host: string)
    ensures SiteOfHost(host).Some? ==>
      host == BareHost(SiteOfHost(host).value) || host == WwwHost(SiteOfHost(host).value)
    ensures forall s :: host == BareHost(s) || host == WwwHost(s) ==> SiteOfHost(host) == Some(s)
  {
    forall s | host == BareHost(s) || host == WwwHost(s)
      ensures SiteOfHost(host) == Some(s)
    {
      match s
      case Mangakakalot =>
      case Pahe =>
      case MangaHub =>
      case Toomics =>
      case Manganato =>
    }
  }

  // ---------------------------------------------------------------------
  // Digit extraction
  // ---------------------------------------------------------------------

  predicate IsDigit(c: char)
  {
    '0' <= c <= '9'
  }

  predicate AllDigits(s: string)
  {
    forall i :: 0 <= i < |s| ==> IsDigit(s[i])
  }

  /** `string.Join("", new Regex("[0-9]").Matches(text))`: the ASCII digits of `text`, in order. */
  function DigitsOf(text: string): (ds: string)
    ensures AllDigits(ds)
    ensures |ds| <= |text|
    ensures ds == [] <==> forall i :: 0 <= i < |text| ==> !IsDigit(text[i])
  {
    if text == [] then []
    else (if IsDigit(text[0]) then [text[0]] else []) + DigitsOf(text[1..])
  }

  /** A single character is kept exactly when it is a digit; with DigitsOfAppend this determines DigitsOf. */
  lemma DigitsOfChar(c: char)
    ensures DigitsOf([c]) == if IsDigit(c) then [c] else []
  {
    assert [c][1..] == [];
  }

  lemma {:induction false} DigitsOfAppend(a: string, b: string)
    ensures DigitsOf(a + b) == DigitsOf(a) + DigitsOf(b)
  {
    if a == [] {
      assert a + b == b;
    } else {
      assert (a + b)[1..] == a[1..] + b;
      DigitsOfAppend(a[1..], b);
    }
  }

  lemma {:induction false} DigitsOfAllDigits(ds: string)
    requires AllDigits(ds)
    ensures DigitsOf(ds) == ds
  {
    if ds != [] {
      DigitsOfAllDigits(ds[1..]);
    }
  }

  function DigitValue(c: char): nat
    requires IsDigit(c)
  {
    c as int - '0' as int
  }

  function DigitChar(d: nat): (c: char)
    requires d < 10
    ensures IsDigit(c) && DigitValue(c) == d
  {
    ('0' as int + d) as char
  }

  /** The number a string of decimal digits denotes; leading zeros are allowed. */
  function DecimalValue(ds: string): nat
    requires AllDigits(ds)
  {
    if ds == [] then 0 else 10 * DecimalValue(ds[..|ds| - 1]) + DigitValue(ds[|ds| - 1])
  }

  /** The decimal digits of `n`, without leading zeros. */
  function DecimalText(n: nat): (ds: string)
    ensures ds != [] && AllDigits(ds)
  {
    if n < 10 then [DigitChar(n)] else DecimalText(n / 10) + [DigitChar(n % 10)]
  }

  lemma {:induction false} DecimalRoundTrip(n: nat)
    ensures DecimalValue(DecimalText(n)) == n
  {
    if n >= 10 {
      DecimalRoundTrip(n / 10);
      var ds := DecimalText(n);
      assert ds[..|ds| - 1] == DecimalText(n / 10);
    }
  }

  /** `int.Parse` on a string of digits: FormatException when it is empty, OverflowException above int.MaxValue. */
  function ParseInt32(ds: string): (r: Result<int, Exception>)
    requires AllDigits(ds)
    ensures r.Success? ==> 0 <= r.value <= Int32Max
  {
    if ds == [] then Failure(FormatException)
    else if DecimalValue(ds) > Int32Max then Failure(OverflowException)
    else Success(DecimalValue(ds))
  }

  /** GetLatestReleaseFromPahe subtracts 100 from the parsed number; the other four do not. */
  function Offset(site: Site): int
  {
    if site == Pahe then 100 else 0
  }

  /**
   * What GetLatestReleaseFrom<site> returns for the text it selected: the
   * decimal value of all digits of the text, less the site's offset.
   */
  function ReleaseFromText(site: Site, text: string): (r: Result<int, Exception>)
    ensures r.Success? ==> -Offset(site) <= r.value <= Int32Max - Offset(site)
  {
    match ParseInt32(DigitsOf(text))
    case Failure(e) => Failure(e)
    case Success(n) => Success(n - Offset(site))
  }

  /**
   * Extraction succeeds exactly when the text has digits whose value fits
   * an int; it fails with FormatException or OverflowException, never with
   * the InvalidCastException the loop catches.
   */
  lemma ReleaseFromTextCases(site: Site, text: string)
    ensures var r := ReleaseFromText(site, text);
      && (r.Success? <==> DigitsOf(text) != [] && DecimalValue(DigitsOf(text)) <= Int32Max)
      && (r.Success? ==> r.value == DecimalValue(DigitsOf(text)) - Offset(site))
      && (r.Failure? ==> (DigitsOf(text) == [] <==> r.error == FormatException))
      && (r.Failure? ==> r.error == FormatException || r.error == OverflowException)
  {
  }

  /**
   * A release number printed between digit-free text is read back exactly,
   * by pahe's extractor less 100.
   */
  lemma ReleaseFromPrintedNumber(site: Site, prefix: string, n: nat, suffix: string)
    requires n <= Int32Max
    requires DigitsOf(prefix) == [] && DigitsOf(suffix) == []
    ensures ReleaseFromText(site, prefix + DecimalText(n) + suffix) == Success(n - Offset(site))
  {
    ReleaseFromTextCases(site, prefix + DecimalText(n) + suffix);
    DigitsOfAppend(prefix + DecimalText(n), suffix);
    DigitsOfAppend(prefix, DecimalText(n));
    DigitsOfAllDigits(DecimalText(n));
    DecimalRoundTrip(n);
    assert DigitsOf(prefix + DecimalText(n) + suffix) == DecimalText(n);
  }

  /** What `Web.Load(url)` and the site's node selection yield: the selected text, or the exception thrown. */
  datatype Selected = Text(text: string) | Threw(exception: Exception)

  /** The page oracle: network access and the HTML library are not modelled. */
  type PageSelector = (Site, string) -> Selected

  /** GetLatestReleaseFrom<site>(url). */
  function Extract(site: Site, url: string, select: PageSelector): Result<int, Exception>
  {
    match select(site, url)
    case Threw(e) => Failure(e)
    case Text(text) => ReleaseFromText(site, text)
  }

  // ---------------------------------------------------------------------
  // The release gate
  // ---------------------------------------------------------------------

  /**
   * `(nextRelease.Any() && Enum.Parse(typeof(DayOfWeek), nextRelease.First()) == today) || !nextRelease.Any()`:
   * poll when no schedule is stored, otherwise only when the first value
   * names today. `Enum.Parse` throws on a null value and on a name that is
   * no weekday.
   */
  function ReleaseGate(schedule: seq<Option<string>>, today: DayOfWeek): Result<bool, Exception>
  {
    if schedule == [] then Success(true)
    else match schedule[0]
      case None => Failure(ArgumentNullException)
      case Some(name) =>
        match ParseDayOfWeek(name)
        case None => Failure(ArgumentException)
        case Some(day) => Success(day == today)
  }

  /**
   * The gate opens for an empty schedule or when the first value names
   * today; it throws (never an InvalidCastException) exactly when the first
   * value is null or no weekday name.
   */
  lemma ReleaseGateCases(schedule: seq<Option<string>>, today: DayOfWeek)
    ensures schedule == [] ==> ReleaseGate(schedule, today) == Success(true)
    ensures schedule != [] ==>
      (ReleaseGate(schedule, today) == Success(true)
       <==> schedule[0].Some? && ParseDayOfWeek(schedule[0].value) == Some(today))
    ensures ReleaseGate(schedule, today).Failure?
        <==> schedule != [] && (schedule[0].None? || ParseDayOfWeek(schedule[0].value).None?)
    ensures ReleaseGate(schedule, today).Failure? ==> ReleaseGate(schedule, today).error != InvalidCastException
  {
  }

  /** Only the first schedule value is read. */
  lemma ReleaseGateReadsFirstOnly(s: seq<Option<string>>, t: seq<Option<string>>, today: DayOfWeek)
    requires s != [] && t != [] && s[0] == t[0]
    ensures ReleaseGate(s, today) == ReleaseGate(t, today)
  {
  }

  // ---------------------------------------------------------------------
  // One URL, and the cycle
  // ---------------------------------------------------------------------

  /** What the cycle is given from outside: the URI parser, the page oracle, the day and time, and the store's null handling. */
  datatype ScrapeEnv = ScrapeEnv(
    parseUri: UriParser,
    select: PageSelector,
    today: DayOfWeek,
    now: Instant,
    nullsListed: bool)

  /** What the body of the DoWork loop does with one URL. */
  datatype UrlOutcome = Skipped | Released(release: Int32) | Thrown(exception: Exception)

  /** An exception the loop's `catch (InvalidCastException)` does not catch. */
  predicate Uncaught(o: UrlOutcome)
  {
    o.Thrown? && o.exception != InvalidCastException
  }

  /** The decision the loop body reaches for `url` against the records `ts`. */
  function Decide(ts: seq<Tracker>, url: string, env: ScrapeEnv): UrlOutcome
  {
    if !IsValidUrl(env.parseUri, url) then Skipped
    else match ReleaseGate(ReleaseSchedule(ts, url, env.nullsListed), env.today)
      case Failure(e) => Thrown(e)
      case Success(poll) =>
        if !poll then Skipped
        else match SiteOfHost(env.parseUri(url).value.host)
          case None => Skipped
          case Some(site) =>
            match Extract(site, url, env.select)
            case Failure(e) => Thrown(e)
            case Success(n) => Released(n)
  }

  /**
   * A URL that is not http(s) is skipped; one on an unsupported host is
   * never updated; a release is taken only when the gate opens, and it is
   * the extractor's value.
   */
  lemma DecideReleasesOnlyThroughGate(ts: seq<Tracker>, url: string, env: ScrapeEnv)
    ensures !IsValidUrl(env.parseUri, url) ==> Decide(ts, url, env) == Skipped
    ensures IsValidUrl(env.parseUri, url) && SiteOfHost(env.parseUri(url).value.host).None? ==>
      !Decide(ts, url, env).Released?
    ensures Decide(ts, url, env).Released? ==>
      && IsValidUrl(env.parseUri, url)
      && ReleaseGate(ReleaseSchedule(ts, url, env.nullsListed), env.today) == Success(true)
      && SiteOfHost(env.parseUri(url).value.host).Some?
      && Extract(SiteOfHost(env.parseUri(url).value.host).value, url, env.select)
         == Success(Decide(ts, url, env).release as int)
  {
  }

  /** A per-URL decision, as a function of the records as they stand and the URL. */
  type Decision = (seq<Tracker>, string) -> UrlOutcome

  /** The decision DoWork takes in the environment `env`. */
  function DecisionOf(env: ScrapeEnv): Decision
  {
    (ts: seq<Tracker>, url: string) => Decide(ts, url, env)
  }

  /** Two record lists agree on everything the gate reads: positions, URLs and schedules. */
  predicate SameSchedules(a: seq<Tracker>, b: seq<Tracker>)
  {
    |a| == |b| && forall k :: 0 <= k < |a| ==> a[k].Url == b[k].Url && a[k].ReleasesOn == b[k].ReleasesOn
  }

  /** A decision that looks at the records only through their URLs and schedules. */
  ghost predicate ReadsSchedulesOnly(decide: Decision)
  {
    forall a: seq<Tracker>, b: seq<Tracker>, url: string :: SameSchedules(a, b) ==> decide(a, url) == decide(b, url)
  }

  lemma {:induction false} ScheduleValuesAgree(a: seq<Tracker>, b: seq<Tracker>, url: string, nullsListed: bool)
    requires SameSchedules(a, b)
    ensures ScheduleValues(a, url, nullsListed) == ScheduleValues(b, url, nullsListed)
  {
    if a != [] {
      ScheduleValuesAgree(a[..|a| - 1], b[..|b| - 1], url, nullsListed);
    }
  }

  /** DoWork's decision depends on the records only through their URLs and schedules. */
  lemma DecisionReadsSchedulesOnly(env: ScrapeEnv)
    ensures ReadsSchedulesOnly(DecisionOf(env))
  {
    forall a: seq<Tracker>, b: seq<Tracker>, url: string | SameSchedules(a, b)
      ensures DecisionOf(env)(a, url) == DecisionOf(env)(b, url)
    {
      ScheduleValuesAgree(a, b, url, env.nullsListed);
      DecideAgrees(a, b, url, env);
    }
  }

  /** Decide reads the records only through the release schedule of the URL. */
  lemma DecideAgrees(a: seq<Tracker>, b: seq<Tracker>, url: string, env: ScrapeEnv)
    requires ScheduleValues(a, url, env.nullsListed) == ScheduleValues(b, url, env.nullsListed)
    ensures Decide(a, url, env) == Decide(b, url, env)
  {
    assert ReleaseSchedule(a, url, env.nullsListed) == ReleaseSchedule(b, url, env.nullsListed);
  }

  /** The records after the loop body for `url`: one BulkUpdateTracker call when a release was extracted. */
  function Apply(ts: seq<Tracker>, url: string, decide: Decision, now: Instant): seq<Tracker>
  {
    match decide(ts, url)
    case Released(n) => BulkUpdateAsWritten(ts, url, n, now)
    case _ => ts
  }

  /** The result of a cycle: the records, how many URLs were entered, and whether the loop ran to its end. */
  datatype CycleResult = CycleResult(trackers: seq<Tracker>, visited: nat, completed: bool)

  /** The DoWork loop over `urls`, in order, stopping at the first uncaught exception. */
  function RunUrls(ts: seq<Tracker>, urls: seq<string>, decide: Decision, now: Instant): (r: CycleResult)
    ensures |r.trackers| == |ts|
    ensures r.visited <= |urls|
    ensures r.completed ==> r.visited == |urls|
    ensures !r.completed ==> 1 <= r.visited
    decreases |urls|
  {
    if urls == [] then CycleResult(ts, 0, true)
    else if Uncaught(decide(ts, urls[0])) then CycleResult(ts, 1, false)
    else
      var rest := RunUrls(Apply(ts, urls[0], decide, now), urls[1..], decide, now);
      rest.(visited := rest.visited + 1)
  }

  /**
   * The records after the loop has handled `urls[..i]`, or None when an
   * uncaught exception ended it before that.
   */
  ghost function StateAfter(start: seq<Tracker>, urls: seq<string>, i: nat, decide: Decision, now: Instant): Option<seq<Tracker>>
    requires i <= |urls|
    decreases i
  {
    if i == 0 then Some(start)
    else match StateAfter(start, urls, i - 1, decide, now)
      case None => None
      case Some(cur) =>
        if Uncaught(decide(cur, urls[i - 1])) then None else Some(Apply(cur, urls[i - 1], decide, now))
  }

  /** The cycle over `urls` is the loop's first `i` turns followed by the cycle over the rest. */
  lemma {:induction false} StateAfterResumes(start: seq<Tracker>, urls: seq<string>, i: nat, decide: Decision, now: Instant)
    requires i <= |urls| && StateAfter(start, urls, i, decide, now).Some?
    ensures RunUrls(start, urls, decide, now)
      == RunUrls(StateAfter(start, urls, i, decide, now).value, urls[i..], decide, now).(
           visited := RunUrls(StateAfter(start, urls, i, decide, now).value, urls[i..], decide, now).visited + i)
    decreases i
  {
    if i == 0 {
      assert urls[0..] == urls;
    } else {
      StateAfterResumes(start, urls, i - 1, decide, now);
      assert urls[i - 1..][0] == urls[i - 1] && urls[i - 1..][1..] == urls[i..];
    }
  }

  /** A URL with an uncaught exception ends the cycle there, with the records as they stand. */
  lemma StateAfterStop(start: seq<Tracker>, urls: seq<string>, i: nat, decide: Decision, now: Instant)
    requires i < |urls| && StateAfter(start, urls, i, decide, now).Some?
    requires Uncaught(decide(StateAfter(start, urls, i, decide, now).value, urls[i]))
    ensures RunUrls(start, urls, decide, now) == CycleResult(StateAfter(start, urls, i, decide, now).value, i + 1, false)
  {
    StateAfterResumes(start, urls, i, decide, now);
    assert urls[i..][0] == urls[i];
  }

  /** Past the last URL the cycle has run to its end. */
  lemma StateAfterEnd(start: seq<Tracker>, urls: seq<string>, decide: Decision, now: Instant)
    requires StateAfter(start, urls, |urls|, decide, now).Some?
    ensures RunUrls(start, urls, decide, now) == CycleResult(StateAfter(start, urls, |urls|, decide, now).value, |urls|, true)
  {
    StateAfterResumes(start, urls, |urls|, decide, now);
    assert urls[|urls|..] == [];
  }

  // ---------------------------------------------------------------------
  // What a cycle can change
  // ---------------------------------------------------------------------

  /** A record the cycle may have written: it differs from `t` at most in its release and release time. */
  predicate ReleaseFieldsOnly(t: Tracker, u: Tracker)
  {
    u == t.(LatestRelease := u.LatestRelease, LatestReleaseUpdatedAt := u.LatestReleaseUpdatedAt)
  }

  /** What the loop body does to the records for one URL. */
  lemma ApplyEffect(ts: seq<Tracker>, url: string, decide: Decision, now: Instant)
    ensures var a := Apply(ts, url, decide, now);
      && SameSchedules(ts, a)
      && (forall k :: 0 <= k < |ts| ==> ReleaseFieldsOnly(ts[k], a[k]))
      && (forall k :: 0 <= k < |ts| && ts[k].Url != url ==> a[k] == ts[k])
      && (!decide(ts, url).Released? ==> a == ts)
      && (decide(ts, url).Released? ==>
            forall k :: 0 <= k < |ts| && ts[k].Url == url ==>
              a[k].LatestRelease == decide(ts, url).release && a[k].LatestReleaseUpdatedAt == Some(now))
  {
  }

  /** The loop body for `url` leaves the records of other URLs as they were. */
  lemma ApplyKeepsOtherUrls(ts: seq<Tracker>, url: string, decide: Decision, now: Instant)
    ensures |Apply(ts, url, decide, now)| == |ts|
    ensures forall k :: 0 <= k < |ts| && ts[k].Url != url ==> Apply(ts, url, decide, now)[k] == ts[k]
  {
    ApplyEffect(ts, url, decide, now);
  }

  /**
   * A cycle creates and deletes nothing, keeps every URL and schedule, and
   * writes nothing but `LatestRelease` and `LatestReleaseUpdatedAt`: as
   * written, it never changes a seen flag.
   */
  lemma {:induction false} CycleWritesReleaseFieldsOnly(ts: seq<Tracker>, urls: seq<string>, decide: Decision, now: Instant)
    ensures SameSchedules(ts, RunUrls(ts, urls, decide, now).trackers)
    ensures forall k :: 0 <= k < |ts| ==> ReleaseFieldsOnly(ts[k], RunUrls(ts, urls, decide, now).trackers[k])
    decreases |urls|
  {
    if urls != [] && !Uncaught(decide(ts, urls[0])) {
      ApplyEffect(ts, urls[0], decide, now);
      CycleWritesReleaseFieldsOnly(Apply(ts, urls[0], decide, now), urls[1..], decide, now);
    }
  }

  /** One record whose URL the cycle did not enter is left as it was. */
  lemma {:induction false} CycleSkipsUnvisitedAt(ts: seq<Tracker>, urls: seq<string>, decide: Decision, now: Instant, k: nat)
    requires k < |ts| && ts[k].Url !in urls[..RunUrls(ts, urls, decide, now).visited]
    ensures RunUrls(ts, urls, decide, now).trackers[k] == ts[k]
    decreases |urls|
  {
    if urls != [] && !Uncaught(decide(ts, urls[0])) {
      var next := Apply(ts, urls[0], decide, now);
      var rest := RunUrls(next, urls[1..], decide, now);
      assert RunUrls(ts, urls, decide, now) == rest.(visited := rest.visited + 1);
      var entered := urls[..rest.visited + 1];
      assert entered == [urls[0]] + urls[1..][..rest.visited];
      assert entered[0] == urls[0];
      ApplyKeepsOtherUrls(ts, urls[0], decide, now);
      assert next[k] == ts[k];
      CycleSkipsUnvisitedAt(next, urls[1..], decide, now, k);
    }
  }

  /** Records whose URL the cycle did not enter are left as they were. */
  lemma CycleSkipsUnvisited(ts: seq<Tracker>, urls: seq<string>, decide: Decision, now: Instant)
    ensures forall k :: 0 <= k < |ts| && ts[k].Url !in urls[..RunUrls(ts, urls, decide, now).visited] ==>
      RunUrls(ts, urls, decide, now).trackers[k] == ts[k]
  {
    forall k | 0 <= k < |ts| && ts[k].Url !in urls[..RunUrls(ts, urls, decide, now).visited]
      ensures RunUrls(ts, urls, decide, now).trackers[k] == ts[k]
    {
      CycleSkipsUnvisitedAt(ts, urls, decide, now, k);
    }
  }

  /**
   * Records whose URL yields no release (an invalid URL, an unsupported
   * host, a closed gate, a failed extraction) are left as they were.
   */
  lemma {:induction false} CycleSkipsUnreleased(ts: seq<Tracker>, urls: seq<string>, decide: Decision, now: Instant)
    requires ReadsSchedulesOnly(decide)
    ensures forall k :: 0 <= k < |ts| && !decide(ts, ts[k].Url).Released? ==>
      RunUrls(ts, urls, decide, now).trackers[k] == ts[k]
    decreases |urls|
  {
    if urls != [] && !Uncaught(decide(ts, urls[0])) {
      var next := Apply(ts, urls[0], decide, now);
      ApplyEffect(ts, urls[0], decide, now);
      CycleSkipsUnreleased(next, urls[1..], decide, now);
    }
  }

  /**
   * With distinct URLs, every record of a URL the cycle entered and for
   * which a release was extracted ends with that release and the cycle's
   * time.
   */
  lemma {:induction false} CycleStoresReleases(ts: seq<Tracker>, urls: seq<string>, decide: Decision, now: Instant, j: nat)
    requires ReadsSchedulesOnly(decide)
    requires NoDuplicates(urls)
    requires j < RunUrls(ts, urls, decide, now).visited
    requires decide(ts, urls[j]).Released?
    ensures forall k :: 0 <= k < |ts| && ts[k].Url == urls[j] ==>
      && RunUrls(ts, urls, decide, now).trackers[k].LatestRelease == decide(ts, urls[j]).release
      && RunUrls(ts, urls, decide, now).trackers[k].LatestReleaseUpdatedAt == Some(now)
    decreases |urls|
  {
    var next := Apply(ts, urls[0], decide, now);
    var rest := RunUrls(next, urls[1..], decide, now);
    assert !Uncaught(decide(ts, urls[0]));
    assert RunUrls(ts, urls, decide, now).trackers == rest.trackers;
    if j == 0 {
      ApplyEffect(ts, urls[0], decide, now);
      CycleSkipsUnvisited(next, urls[1..], decide, now);
      assert forall i :: 0 <= i < rest.visited ==> urls[1..][..rest.visited][i] == urls[i + 1] != urls[0];
      forall k | 0 <= k < |ts| && ts[k].Url == urls[0]
        ensures rest.trackers[k] == next[k]
      {
        assert next[k].Url == urls[0];
      }
    } else {
      assert urls[1..][j - 1] == urls[j];
      assert RunUrls(ts, urls, decide, now).visited == rest.visited + 1;
      DecideAfterApply(ts, urls[0], decide, now, urls[j]);
      CycleStoresReleases(next, urls[1..], decide, now, j - 1);
      ApplyEffect(ts, urls[0], decide, now);
    }
  }

  /** A decision that reads only schedules is the same before and after one loop turn. */
  lemma DecideAfterApply(ts: seq<Tracker>, url: string, decide: Decision, now: Instant, u: string)
    requires ReadsSchedulesOnly(decide)
    ensures decide(Apply(ts, url, decide, now), u) == decide(ts, u)
  {
    ApplyEffect(ts, url, decide, now);
  }

  /** The cycle runs to its end exactly when no URL throws an uncaught exception. */
  lemma {:induction false} CycleCompletesUnlessUncaught(ts: seq<Tracker>, urls: seq<string>, decide: Decision, now: Instant)
    requires ReadsSchedulesOnly(decide)
    ensures RunUrls(ts, urls, decide, now).completed
        <==> forall i :: 0 <= i < |urls| ==> !Uncaught(decide(ts, urls[i]))
    decreases |urls|
  {
    if urls != [] && !Uncaught(decide(ts, urls[0])) {
      var next := Apply(ts, urls[0], decide, now);
      CycleCompletesUnlessUncaught(next, urls[1..], decide, now);
      forall i | 0 <= i < |urls| - 1
        ensures decide(next, urls[1..][i]) == decide(ts, urls[i + 1])
      {
        DecideAfterApply(ts, urls[0], decide, now, urls[i + 1]);
      }
    }
  }

  /** A cycle that does not run to its end stops at a URL that throws an uncaught exception. */
  lemma {:induction false} CycleStopsAtUncaught(ts: seq<Tracker>, urls: seq<string>, decide: Decision, now: Instant)
    requires ReadsSchedulesOnly(decide)
    requires !RunUrls(ts, urls, decide, now).completed
    ensures Uncaught(decide(ts, urls[RunUrls(ts, urls, decide, now).visited - 1]))
    decreases |urls|
  {
    if !Uncaught(decide(ts, urls[0])) {
      var next := Apply(ts, urls[0], decide, now);
      var v := RunUrls(next, urls[1..], decide, now).visited;
      assert RunUrls(ts, urls, decide, now).visited == v + 1;
      CycleStopsAtUncaught(next, urls[1..], decide, now);
      assert urls[1..][v - 1] == urls[v];
      DecideAfterApply(ts, urls[0], decide, now, urls[v]);
    }
  }

  /** Every URL the cycle passed before the one it stopped at threw nothing uncaught: it stops at the first. */
  lemma {:induction false} CycleStopsAtFirstUncaught(ts: seq<Tracker>, urls: seq<string>, decide: Decision, now: Instant)
    requires ReadsSchedulesOnly(decide)
    requires !RunUrls(ts, urls, decide, now).completed
    ensures forall i :: 0 <= i < RunUrls(ts, urls, decide, now).visited - 1 ==> !Uncaught(decide(ts, urls[i]))
    decreases |urls|
  {
    if !Uncaught(decide(ts, urls[0])) {
      var next := Apply(ts, urls[0], decide, now);
      var v := RunUrls(next, urls[1..], decide, now).visited;
      assert RunUrls(ts, urls, decide, now).visited == v + 1;
      CycleStopsAtFirstUncaught(next, urls[1..], decide, now);
      forall i | 0 < i < v
        ensures !Uncaught(decide(ts, urls[i]))
      {
        assert urls[1..][i - 1] == urls[i];
        DecideAfterApply(ts, urls[0], decide, now, urls[i]);
      }
    }
  }

  /** A cycle that stops keeps the writes made for the URLs before the one that threw. */
  lemma {:induction false} CycleStopKeepsEarlierWrites(ts: seq<Tracker>, urls: seq<string>, decide: Decision, now: Instant)
    requires !RunUrls(ts, urls, decide, now).completed
    ensures RunUrls(ts, urls, decide, now).trackers
      == RunUrls(ts, urls[..RunUrls(ts, urls, decide, now).visited - 1], decide, now).trackers
    decreases |urls|
  {
    if Uncaught(decide(ts, urls[0])) {
      assert urls[..0] == [];
    } else {
      var next := Apply(ts, urls[0], decide, now);
      var v := RunUrls(next, urls[1..], decide, now).visited;
      CycleStopKeepsEarlierWrites(next, urls[1..], decide, now);
      var prefix := urls[..v];
      assert prefix[0] == urls[0] && prefix[1..] == urls[1..][..v - 1];
      assert RunUrls(ts, prefix, decide, now).trackers == RunUrls(next, prefix[1..], decide, now).trackers;
    }
  }

  // ---------------------------------------------------------------------
  // The job
  // ---------------------------------------------------------------------

  /** How DoWork ends: URL discovery failed, or the loop entered `visited` URLs and ran to its end or not. */
  datatype Outcome = DiscoveryFailed | Finished(visited: nat, completed: bool)

  /** The scrape job and the repository it writes through. */
  class AlertScrapperJob {
    const trackerRepository: TrackerRepository

    constructor (trackerRepository: TrackerRepository)
      ensures this.trackerRepository == trackerRepository
    {
      this.trackerRepository := trackerRepository;
    }

    /**
     * DoWork: discover the distinct URLs, then for each in turn validate,
     * gate, dispatch, extract and propagate. `discoveryFails` stands for the
     * store failing the discovery query, which sits outside the loop's try.
     */
    method DoWork(env: ScrapeEnv, discoveryFails: bool) returns (outcome: Outcome)
      requires trackerRepository.Valid()
      modifies trackerRepository
      ensures trackerRepository.Valid()
      ensures discoveryFails ==>
        outcome == DiscoveryFailed && trackerRepository.trackers == old(trackerRepository.trackers)
      ensures !discoveryFails ==>
        var r := RunUrls(old(trackerRepository.trackers), UniqueUrls(old(trackerRepository.trackers)), DecisionOf(env), env.now);
        trackerRepository.trackers == r.trackers && outcome == Finished(r.visited, r.completed)
    {
      if discoveryFails {
        return DiscoveryFailed;
      }
      var allUniqueUrls := trackerRepository.GetAllUniqueTrackersByUrl();
      ghost var decide := DecisionOf(env);
      ghost var start := trackerRepository.trackers;
      outcome := Finished(|allUniqueUrls|, true);
      var i := 0;
      while i < |allUniqueUrls|
        invariant 0 <= i <= |allUniqueUrls|
        invariant trackerRepository.Valid()
        invariant StateAfter(start, allUniqueUrls, i, decide, env.now) == Some(trackerRepository.trackers)
      {
        var uncaught := ScrapeUrl(allUniqueUrls[i], env);
        if uncaught {
          StateAfterStop(start, allUniqueUrls, i, decide, env.now);
          outcome := Finished(i + 1, false);
          break;
        }
        i := i + 1;
      }
      if outcome.completed {
        StateAfterEnd(start, allUniqueUrls, decide, env.now);
      }
    }

    /**
     * The body of DoWork's loop for one URL, with its `try`: reports whether
     * an exception escaped the `catch (InvalidCastException)`.
     */
    method ScrapeUrl(url: string, env: ScrapeEnv) returns (uncaught: bool)
      requires trackerRepository.Valid()
      modifies trackerRepository
      ensures trackerRepository.Valid()
      ensures uncaught == Uncaught(Decide(old(trackerRepository.trackers), url, env))
      ensures trackerRepository.trackers == Apply(old(trackerRepository.trackers), url, DecisionOf(env), env.now)
    {
      uncaught := false;
      if IsValidUrl(env.parseUri, url) {
        var nextRelease := trackerRepository.GetReleaseScheduleForUrl(url, env.nullsListed);
        var gate := ReleaseGate(nextRelease, env.today);
        if gate.Failure? {
          uncaught := gate.error != InvalidCastException;
        } else if gate.value {
          var domainNameOfUrl := env.parseUri(url).value.host;
          var site := SiteOfHost(domainNameOfUrl);
          if site.Some? {
            var latestRelease := Extract(site.value, url, env.select);
            if latestRelease.Failure? {
              uncaught := latestRelease.error != InvalidCastException;
            } else {
              trackerRepository.BulkUpdateTracker(url, latestRelease.value, env.now);
            }
          }
        }
      }
    }
  }
}
