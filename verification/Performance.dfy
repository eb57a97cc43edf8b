/**
 Per-route running statistics beside the request log they summarise (`performance.py`,
 `PerformanceConsumer`). Floats are modelled as reals; files as the entries they hold, keyed by
 the slug in their name.
 */
module Performance {
  import opened Common

  datatype Metric =
    | TotalTps | CompletionTps | PromptTps | CompletionTokens | PromptTokens | CachedPromptTokens | UncachedPromptTokens
    | TtftMs | ElapsedMs | UpstreamAttempts | UsageReportedAttempts | RecoveryCount | RetryAmplificationRatio

  /** One request record; `metrics` holds the fields that read as finite numbers. */
  datatype Entry = Entry(
    route: string, model: Option<string>, hierarchy: Option<seq<string>>, completedAt: Option<real>,
    metrics: map<Metric, real>, usageComplete: bool)

  // ---- One metric ---------------------------------------------------------

  /** The infinities of an empty accumulator are None. */
  datatype MetricAccum = MetricAccum(sum: real, min: Option<real>, max: Option<real>, cnt: nat)

  const NO_VALUES := MetricAccum(0.0, None, None, 0)

  function UpdateAccum(a: MetricAccum, value: real): MetricAccum {
    MetricAccum(
      a.sum + value,
      if a.min.None? || value < a.min.value then Some(value) else a.min,
      if a.max.None? || value > a.max.value then Some(value) else a.max,
      a.cnt + 1)
  }

  // ---- One route ----------------------------------------------------------

  datatype RouteStats = RouteStats(
    route: string, model: string, hierarchy: seq<string>, count: nat,
    firstCompletedAt: Option<real>, lastCompletedAt: Option<real>, windowRequestCount: nat,
    accums: map<Metric, MetricAccum>, usageCompleteCount: nat)

  function AccumOf(accums: map<Metric, MetricAccum>, k: Metric): MetricAccum {
    if k in accums then accums[k] else NO_VALUES
  }

  function ApplyMetrics(accums: map<Metric, MetricAccum>, entry: Entry): map<Metric, MetricAccum> {
    map k | k in accums.Keys + entry.metrics.Keys ::
      if k in entry.metrics then UpdateAccum(AccumOf(accums, k), entry.metrics[k]) else AccumOf(accums, k)
  }

  /** `route_name or "unknown"`. */
  function RouteName(name: string): string {
    if name == "" then "unknown" else name
  }

  /** `model or route_name`. */
  function ModelName(entry: Entry, route: string): string {
    if entry.model.Some? && entry.model.value != "" then entry.model.value else route
  }

  /** `RouteStats(entry)`: the statistics of a first entry. */
  function FirstStats(entry: Entry): RouteStats {
    var route := RouteName(entry.route);
    RouteStats(
      route, ModelName(entry, route), if entry.hierarchy.Some? then entry.hierarchy.value else [route],
      1, entry.completedAt, entry.completedAt, if entry.completedAt.Some? then 1 else 0,
      ApplyMetrics(map[], entry), if entry.usageComplete then 1 else 0)
  }

  /** `update(entry)`: one more entry of the route. */
  function UpdatedStats(s: RouteStats, entry: Entry): RouteStats {
    RouteStats(
      s.route, ModelName(entry, s.route), if entry.hierarchy.Some? then entry.hierarchy.value else s.hierarchy,
      s.count + 1,
      if s.firstCompletedAt.None? then entry.completedAt else s.firstCompletedAt,
      if entry.completedAt.Some? then entry.completedAt else s.lastCompletedAt,
      s.windowRequestCount + (if entry.completedAt.Some? then 1 else 0),
      ApplyMetrics(s.accums, entry),
      s.usageCompleteCount + (if entry.usageComplete then 1 else 0))
  }

  type StatsTable = map<string, RouteStats>

  function Counted(table: StatsTable, entry: Entry): StatsTable {
    var route := RouteName(entry.route);
    table[route := if route in table then UpdatedStats(table[route], entry) else FirstStats(entry)]
  }

  function CountedAll(table: StatsTable, entries: seq<Entry>): StatsTable {
    if entries == [] then table else Counted(CountedAll(table, entries[..|entries| - 1]), Last(entries))
  }

  lemma {:induction false} CountedAllAppend(table: StatsTable, xs: seq<Entry>, ys: seq<Entry>)
    ensures CountedAll(CountedAll(table, xs), ys) == CountedAll(table, xs + ys)
  {
    if ys == [] {
      assert xs + ys == xs;
    } else {
      CountedAllAppend(table, xs, ys[..|ys| - 1]);
      assert (xs + ys)[..|xs + ys| - 1] == xs + ys[..|ys| - 1] && Last(xs + ys) == Last(ys);
    }
  }

  // ---- Throughput of one request ------------------------------------------

  datatype Throughput = Throughput(
    cachedPrompt: Option<int>, uncachedPrompt: Option<int>, total: Option<int>,
    completionTps: Option<real>, promptTps: Option<real>, totalTps: Option<real>)

  function Max(a: int, b: int): int {
    if a >= b then a else b
  }

  function Min(a: int, b: int): int {
    if a <= b then a else b
  }

  /** The cache count after repair. */
  function RepairedCache(prompt: Option<int>, cached: Option<int>): Option<int> {
    if cached.None? then None
    else if prompt.Some? then Some(Min(Max(0, cached.value), prompt.value)) else Some(Max(0, cached.value))
  }

  function Uncached(prompt: Option<int>, cached: Option<int>): Option<int> {
    if prompt.None? then None
    else
      var repaired := RepairedCache(prompt, cached);
      Some(prompt.value - (if repaired.Some? then repaired.value else 0))
  }

  function PerSecond(tokens: int, ms: real): real
    requires ms > 0.0
  {
    tokens as real / (ms / 1000.0)
  }

  /** `compute_request_performance`, before rounding to four digits. */
  function RequestPerformance(elapsed: Option<real>, completion: Option<int>, ttft: Option<real>, prompt: Option<int>,
                              total: Option<int>, cached: Option<int>): Throughput
  {
    var uncached := Uncached(prompt, cached);
    var timed := elapsed.Some? && elapsed.value > 0.0;
    Throughput(
      RepairedCache(prompt, cached), uncached,
      if total.None? && prompt.Some? && completion.Some? then Some(prompt.value + completion.value) else total,
      if timed && completion.Some? && completion.value >= 0
         && elapsed.value - (if ttft.Some? then ttft.value else 0.0) > 0.0
      then Some(PerSecond(completion.value, elapsed.value - (if ttft.Some? then ttft.value else 0.0))) else None,
      if timed && uncached.Some? && uncached.value >= 0
      then Some(PerSecond(uncached.value, if ttft.Some? && ttft.value > 0.0 then ttft.value else elapsed.value))
      else None,
      if timed && uncached.Some? && completion.Some?
      then Some(PerSecond(uncached.value + completion.value, elapsed.value)) else None)
  }

  // ---- Files --------------------------------------------------------------

  const SLUG_LIMIT: nat := 50

  predicate SlugChar(c: char) {
    'a' <= c <= 'z' || 'A' <= c <= 'Z' || '0' <= c <= '9' || c == '_' || c == '-'
  }

  function Slugged(s: string): string {
    if s == "" then "" else [if SlugChar(s[0]) then s[0] else '_'] + Slugged(s[1..])
  }

  /** `_safe_slug`: the file a route's entries go to; different routes may share it. */
  function Slug(s: string): string {
    var t := Slugged(s);
    if |t| <= SLUG_LIMIT then t else t[..SLUG_LIMIT]
  }

  type Files = map<string, seq<Entry>>

  function FileOf(files: Files, name: string): seq<Entry> {
    if name in files then files[name] else []
  }

  /** The entries of a directory, file by file in the order of a listing. */
  function InOrder(files: Files, listing: seq<string>): seq<Entry> {
    if listing == [] then [] else InOrder(files, listing[..|listing| - 1]) + FileOf(files, Last(listing))
  }

  ghost predicate ListingOf(files: Files, listing: seq<string>) {
    Elements(listing) == files.Keys && Distinct(listing)
  }

  // ---- The consumer -------------------------------------------------------

  const ARCHIVE_EVERY: nat := 1000

  predicate SummaryDue(counter: nat, interval: nat)
    requires interval > 0
  {
    counter == 1 || counter % interval == 0
  }

  /** Archiving happens only on a request that also writes the summary. */
  predicate ArchiveDue(counter: nat, interval: nat)
    requires interval > 0
  {
    SummaryDue(counter, interval) && counter > 1 && counter % ARCHIVE_EVERY == 0
  }

  /** `archived` holds every directory moved away, oldest first. */
  datatype State = State(
    files: Files, archived: seq<Files>, stats: StatsTable, seeded: bool, counter: nat)

  function Seeded(s: State, listing: seq<string>): State {
    if s.seeded then s else s.(stats := CountedAll(map[], InOrder(s.files, listing)), seeded := true)
  }

  function Appended(files: Files, entry: Entry): Files {
    var name := Slug(RouteName(entry.route));
    files[name := FileOf(files, name) + [entry]]
  }

  function Recorded(s: State, listing: seq<string>, entry: Entry, interval: nat): State
    requires interval > 0
  {
    var t := Seeded(s, listing);
    var u := t.(files := Appended(t.files, entry), stats := Counted(t.stats, entry), counter := t.counter + 1);
    if ArchiveDue(u.counter, interval)
    then u.(files := map[], archived := u.archived + [u.files], stats := map[], seeded := true)
    else u
  }

  class PerformanceConsumer {
    var files: Files
    ghost var archived: seq<Files>
    var routeStats: StatsTable
    var routeStatsSeeded: bool
    var requestCounter: nat
    const summaryInterval: nat

    /** A new process over the directory an earlier one left. */
    constructor (files: Files, summaryInterval: int)
      ensures this.summaryInterval == (if summaryInterval < 1 then 1 else summaryInterval)
      ensures View() == State(files, [], map[], false, 0)
    {
      this.files, this.summaryInterval := files, if summaryInterval < 1 then 1 else summaryInterval;
      archived, routeStats, routeStatsSeeded, requestCounter := [], map[], false, 0;
    }

    ghost function View(): State
      reads this
    {
      State(files, archived, routeStats, routeStatsSeeded, requestCounter)
    }

    method CountEntry(entry: Entry)
      modifies this`routeStats
      ensures routeStats == Counted(old(routeStats), entry)
    {
      var route := RouteName(entry.route);
      if route in routeStats {
        routeStats := routeStats[route := UpdatedStats(routeStats[route], entry)];
      } else {
        routeStats := routeStats[route := FirstStats(entry)];
      }
    }

    method CountFile(entries: seq<Entry>)
      modifies this`routeStats
      ensures routeStats == CountedAll(old(routeStats), entries)
    {
      for j := 0 to |entries|
        invariant routeStats == CountedAll(old(routeStats), entries[..j])
      {
        CountEntry(entries[j]);
        assert entries[..j + 1][..j] == entries[..j];
      }
      assert entries[..|entries|] == entries;
    }

    /** Rebuild the statistics from the files, once per epoch. */
    method SeedRouteStats(listing: seq<string>)
      modifies this`routeStats, this`routeStatsSeeded
      ensures View() == Seeded(old(View()), listing)
    {
      if routeStatsSeeded {
        return;
      }
      routeStats := map[];
      for i := 0 to |listing|
        invariant routeStats == CountedAll(map[], InOrder(files, listing[..i]))
        invariant !routeStatsSeeded
      {
        CountFile(FileOf(files, listing[i]));
        CountedAllAppend(map[], InOrder(files, listing[..i]), FileOf(files, listing[i]));
        assert listing[..i + 1][..i] == listing[..i];
      }
      assert listing[..|listing|] == listing;
      routeStatsSeeded := true;
    }

    method AppendEntry(entry: Entry)
      modifies this`files
      ensures files == Appended(old(files), entry)
    {
      var name := Slug(RouteName(entry.route));
      files := files[name := FileOf(files, name) + [entry]];
    }

    /** Move every request file away and start a fresh epoch. */
    method Archive()
      modifies this`files, this`archived, this`routeStats, this`routeStatsSeeded
      ensures files == map[] && archived == old(archived) + [old(files)] && routeStats == map[] && !routeStatsSeeded
    {
      archived := archived + [files];
      files, routeStats, routeStatsSeeded := map[], map[], false;
    }

    /** Record one completed request; `listing` is what a directory listing would return before it. */
    method HandleRequestComplete(listing: seq<string>, entry: Entry)
      requires summaryInterval > 0 && ListingOf(files, listing)
      modifies this
      ensures View() == Recorded(old(View()), listing, entry, summaryInterval)
    {
      SeedRouteStats(listing);
      AppendEntry(entry);
      CountEntry(entry);
      requestCounter := requestCounter + 1;
      if requestCounter == 1 || requestCounter % summaryInterval == 0 {
        if requestCounter > 1 && requestCounter % ARCHIVE_EVERY == 0 {
          Archive();
        }
        SeedRouteStats([]);
      }
    }
  }
}
