/** The running statistics agree with the request log, across seeding, restarts and archive epochs. */
module PerformanceLaws {
  import opened Common
  import opened Performance

  // ---- Throughput ---------------------------------------------------------

  lemma {:induction false} ProductSign(x: real, y: real)
    requires x > 0.0 && y > 0.0
    ensures x * y > 0.0
  {
  }

  lemma {:induction false} PerSecondSign(tokens: int, ms: real)
    requires ms > 0.0
    ensures PerSecond(tokens, ms) < 0.0 <==> tokens < 0
    ensures PerSecond(tokens, ms) * (ms / 1000.0) == tokens as real
  {
    var seconds := ms / 1000.0;
    var rate := PerSecond(tokens, ms);
    assert rate * seconds == tokens as real;
    if rate < 0.0 {
      ProductSign(-rate, seconds);
    } else if rate > 0.0 {
      ProductSign(rate, seconds);
    }
  }

  /** A repaired cache count stays within a sensible prompt, and cached and uncached tokens make up the prompt. */
  lemma {:induction false} CacheWithinPrompt(prompt: int, cached: int)
    ensures var c, u := RepairedCache(Some(prompt), Some(cached)), Uncached(Some(prompt), Some(cached));
      && c.Some? && u.Some? && c.value + u.value == prompt
      && u.value >= 0 && (prompt >= 0 ==> 0 <= c.value)
  {
  }

  /** What is left of a reported cache count: the nearest one that fits the prompt. */
  lemma {:induction false} CacheRepaired(prompt: Option<int>, cached: int)
    ensures var r := RepairedCache(prompt, Some(cached));
      && r.Some?
      && (cached >= 0 && (prompt.None? || cached <= prompt.value) ==> r.value == cached)
      && (cached < 0 && (prompt.None? || 0 <= prompt.value) ==> r.value == 0)
      && (prompt.Some? && (prompt.value < cached || prompt.value < 0) && (cached >= 0 || prompt.value < 0) ==>
            r.value == prompt.value)
    ensures RepairedCache(prompt, None) == None
  {
  }

  /** The time from the first token on, and the time until it; both are the whole time if it is not known. */
  function DecodeTime(elapsed: real, ttft: Option<real>): real {
    match ttft case Some(t) => elapsed - t case None => elapsed
  }

  function PrefillTime(elapsed: real, ttft: Option<real>): real {
    match ttft case Some(t) => if t > 0.0 then t else elapsed case None => elapsed
  }

  /** A rate that, over this many milliseconds, makes this many tokens. */
  predicate Makes(rate: Option<real>, ms: real, tokens: int) {
    rate.Some? && rate.value * (ms / 1000.0) == tokens as real
  }

  lemma {:induction false} PerSecondMakes(tokens: int, ms: real)
    requires ms > 0.0
    ensures Makes(Some(PerSecond(tokens, ms)), ms, tokens)
  {
    PerSecondSign(tokens, ms);
  }

  /** The uncached tokens of a prompt: those not taken from the cache. */
  lemma {:induction false} UncachedIs(prompt: Option<int>, cached: Option<int>)
    ensures var u := Uncached(prompt, cached);
      && (u.Some? <==> prompt.Some?)
      && (prompt.Some? && cached.None? ==> u == prompt)
      && (prompt.Some? && cached.Some? ==> u.value + RepairedCache(prompt, cached).value == prompt.value)
  {
  }

  /**
   What the three rates mean, and when there is one: over the time from the first token on the
   completion rate makes the completion tokens; over the time until it the prompt rate makes
   the uncached prompt tokens; over the whole time the total rate makes both.
   */
  lemma {:induction false} RatesMakeTokens(elapsed: Option<real>, completion: Option<int>, ttft: Option<real>,
                                           prompt: Option<int>, total: Option<int>, cached: Option<int>)
    ensures var p, uncached := RequestPerformance(elapsed, completion, ttft, prompt, total, cached),
                               Uncached(prompt, cached);
      && p.cachedPrompt == RepairedCache(prompt, cached) && p.uncachedPrompt == uncached
      && (if elapsed.Some? && elapsed.value > 0.0 then
            && (if completion.Some? && completion.value >= 0 && DecodeTime(elapsed.value, ttft) > 0.0
                then Makes(p.completionTps, DecodeTime(elapsed.value, ttft), completion.value)
                else p.completionTps == None)
            && (if uncached.Some? && uncached.value >= 0
                then Makes(p.promptTps, PrefillTime(elapsed.value, ttft), uncached.value)
                else p.promptTps == None)
            && (if uncached.Some? && completion.Some?
                then Makes(p.totalTps, elapsed.value, uncached.value + completion.value)
                else p.totalTps == None)
          else p.completionTps == None && p.promptTps == None && p.totalTps == None)
  {
    if elapsed.Some? && elapsed.value > 0.0 {
      var uncached := Uncached(prompt, cached);
      if completion.Some? && DecodeTime(elapsed.value, ttft) > 0.0 {
        PerSecondMakes(completion.value, DecodeTime(elapsed.value, ttft));
      }
      if uncached.Some? {
        PerSecondMakes(uncached.value, PrefillTime(elapsed.value, ttft));
        if completion.Some? {
          PerSecondMakes(uncached.value + completion.value, elapsed.value);
        }
      }
    }
  }

  lemma {:induction false} TotalCounted(elapsed: Option<real>, completion: Option<int>, ttft: Option<real>,
                                        prompt: Option<int>, total: Option<int>, cached: Option<int>)
    ensures var p := RequestPerformance(elapsed, completion, ttft, prompt, total, cached);
      && (total.Some? || prompt.None? || completion.None? ==> p.total == total)
      && (total.None? && prompt.Some? && completion.Some? ==>
            p.total.Some? && p.total.value - completion.value == prompt.value)
  {
  }

  lemma {:induction false} AddUp(a: real, x: int, b: real, y: int, c: real)
    requires a == x as real && b == y as real && c == (x + y) as real
    ensures a + b == c
  {
  }

  /** When all three rates are known the two phases together make what the total rate makes. */
  lemma {:induction false} PhasesAddUp(elapsed: real, completion: int, ttft: real, prompt: int, cached: Option<int>)
    requires 0.0 < ttft < elapsed && completion >= 0 && prompt >= 0
    ensures var p := RequestPerformance(Some(elapsed), Some(completion), Some(ttft), Some(prompt), None, cached);
      && p.completionTps.Some? && p.promptTps.Some? && p.totalTps.Some?
      && p.completionTps.value * ((elapsed - ttft) / 1000.0) + p.promptTps.value * (ttft / 1000.0)
         == p.totalTps.value * (elapsed / 1000.0)
  {
    var p := RequestPerformance(Some(elapsed), Some(completion), Some(ttft), Some(prompt), None, cached);
    RatesMakeTokens(Some(elapsed), Some(completion), Some(ttft), Some(prompt), None, cached);
    var uncached := Uncached(Some(prompt), cached).value;
    assert uncached >= 0 by {
      if cached.Some? {
        CacheRepaired(Some(prompt), cached.value);
      }
    }
    AddUp(p.completionTps.value * ((elapsed - ttft) / 1000.0), completion,
          p.promptTps.value * (ttft / 1000.0), uncached, p.totalTps.value * (elapsed / 1000.0));
  }

  /** Only the total throughput can come out negative, and exactly when the physical token count is. */
  lemma {:induction false} NegativeThroughputIff(elapsed: Option<real>, completion: Option<int>,
                                                 ttft: Option<real>, prompt: Option<int>,
                              total: Option<int>, cached: Option<int>)
    ensures var p := RequestPerformance(elapsed, completion, ttft, prompt, total, cached);
      && (p.completionTps.Some? ==> p.completionTps.value >= 0.0)
      && (p.promptTps.Some? ==> p.promptTps.value >= 0.0)
      && ((p.totalTps.Some? && p.totalTps.value < 0.0) <==>
            && elapsed.Some? && elapsed.value > 0.0 && prompt.Some? && completion.Some?
            && (if cached.None? then prompt.value + completion.value < 0
                else completion.value < 0 && Max(0, prompt.value - Max(0, cached.value)) + completion.value < 0))
  {
    if elapsed.Some? && elapsed.value > 0.0 {
      var uncached := Uncached(prompt, cached);
      var generation := elapsed.value - if ttft.Some? then ttft.value else 0.0;
      if completion.Some? && generation > 0.0 {
        PerSecondSign(completion.value, generation);
      }
      if uncached.Some? {
        PerSecondSign(uncached.value, if ttft.Some? && ttft.value > 0.0 then ttft.value else elapsed.value);
        if completion.Some? {
          PerSecondSign(uncached.value + completion.value, elapsed.value);
        }
      }
    }
  }

  /** Five tokens fewer than none, in one second. */
  lemma {:induction false} NegativeThroughput()
    ensures RequestPerformance(Some(1000.0), Some(0), None, Some(-5), None, None).totalTps == Some(-5.0)
  {
    assert PerSecond(-5, 1000.0) == -5.0;
  }

  // ---- One metric ---------------------------------------------------------

  function AccumAll(values: seq<real>): MetricAccum {
    if values == [] then NO_VALUES else UpdateAccum(AccumAll(values[..|values| - 1]), Last(values))
  }

  function Sum(values: seq<real>): real {
    if values == [] then 0.0 else Sum(values[..|values| - 1]) + Last(values)
  }

  /** The accumulator holds the count, the sum, the least and the greatest of the values it was given. */
  lemma {:induction false} AccumMeaning(values: seq<real>)
    ensures var a := AccumAll(values);
      && a.cnt == |values| && a.sum == Sum(values)
      && (a.min.Some? <==> values != []) && (a.max.Some? <==> values != [])
      && (values != [] ==> a.min.value in values && a.max.value in values)
      && forall v :: v in values ==> a.min.value <= v <= a.max.value
  {
    if values != [] {
      var init := values[..|values| - 1];
      AccumMeaning(init);
      assert values == init + [Last(values)];
    }
  }

  ghost predicate AtLeast(sum: real, n: real, low: real) {
    n * low <= sum
  }

  ghost predicate AtMost(sum: real, n: real, high: real) {
    sum <= n * high
  }

  /** count * min <= sum <= count * max. */
  ghost predicate Bounded(a: MetricAccum) {
    if a.cnt == 0 then a == NO_VALUES
    else
      && a.min.Some? && a.max.Some?
      && AtLeast(a.sum, a.cnt as real, a.min.value) && AtMost(a.sum, a.cnt as real, a.max.value)
  }

  lemma {:induction false} AtLeastStep(sum: real, n: real, low: real, v: real, newLow: real)
    requires n >= 0.0 && AtLeast(sum, n, low) && newLow <= low && newLow <= v
    ensures AtLeast(sum + v, n + 1.0, newLow)
  {
    assert n * newLow <= n * low;
  }

  lemma {:induction false} AtMostStep(sum: real, n: real, high: real, v: real, newHigh: real)
    requires n >= 0.0 && AtMost(sum, n, high) && newHigh >= high && newHigh >= v
    ensures AtMost(sum + v, n + 1.0, newHigh)
  {
    assert n * high <= n * newHigh;
  }

  lemma {:induction false} UpdateBounded(a: MetricAccum, v: real)
    requires Bounded(a)
    ensures Bounded(UpdateAccum(a, v))
  {
    if a.cnt > 0 {
      AtLeastStep(a.sum, a.cnt as real, a.min.value, v, UpdateAccum(a, v).min.value);
      AtMostStep(a.sum, a.cnt as real, a.max.value, v, UpdateAccum(a, v).max.value);
    }
  }

  lemma {:induction false} AccumBounds(values: seq<real>)
    ensures Bounded(AccumAll(values))
  {
    if values != [] {
      AccumBounds(values[..|values| - 1]);
      UpdateBounded(AccumAll(values[..|values| - 1]), Last(values));
    }
  }

  // ---- One route ----------------------------------------------------------

  /** The entries of one route, in order. */
  function EntriesOf(entries: seq<Entry>, route: string): seq<Entry> {
    if entries == [] then []
    else
      var before := EntriesOf(entries[..|entries| - 1], route);
      if RouteName(Last(entries).route) == route then before + [Last(entries)] else before
  }

  lemma {:induction false} EntriesOfAppend(xs: seq<Entry>, ys: seq<Entry>, route: string)
    ensures EntriesOf(xs + ys, route) == EntriesOf(xs, route) + EntriesOf(ys, route)
  {
    if ys == [] {
      assert xs + ys == xs;
    } else {
      EntriesOfAppend(xs, ys[..|ys| - 1], route);
      assert (xs + ys)[..|xs + ys| - 1] == xs + ys[..|ys| - 1];
    }
  }

  /** Statistics from scratch over the entries of one route. */
  function Replay(entries: seq<Entry>): Option<RouteStats> {
    if entries == [] then None
    else
      var before := Replay(entries[..|entries| - 1]);
      Some(if before.None? then FirstStats(Last(entries)) else UpdatedStats(before.value, Last(entries)))
  }

  lemma {:induction false} ReplayAppend(entries: seq<Entry>, e: Entry)
    ensures Replay(entries + [e])
      == Some(if Replay(entries).None? then FirstStats(e) else UpdatedStats(Replay(entries).value, e))
  {
    assert (entries + [e])[..|entries|] == entries;
  }

  lemma {:induction false} CountedAt(table: StatsTable, e: Entry, route: string)
    ensures var s := Get(table, route);
      Get(Counted(table, e), route)
      == if RouteName(e.route) == route then Some(if s.None? then FirstStats(e) else UpdatedStats(s.value, e)) else s
  {
  }

  /** Counting a mixed log keeps, for each route, the replay of its own entries. */
  lemma {:induction false} CountedIsReplay(entries: seq<Entry>, route: string)
    ensures Get(CountedAll(map[], entries), route) == Replay(EntriesOf(entries, route))
  {
    if entries != [] {
      CountedIsReplay(entries[..|entries| - 1], route);
      ReplayAppend(EntriesOf(entries[..|entries| - 1], route), Last(entries));
      CountedAt(CountedAll(map[], entries[..|entries| - 1]), Last(entries), route);
    }
  }

  function ValuesOf(entries: seq<Entry>, k: Metric): seq<real> {
    if entries == [] then []
    else
      var before := ValuesOf(entries[..|entries| - 1], k);
      if k in Last(entries).metrics then before + [Last(entries).metrics[k]] else before
  }

  function CompletionTimes(entries: seq<Entry>): seq<real> {
    if entries == [] then []
    else
      var before := CompletionTimes(entries[..|entries| - 1]);
      if Last(entries).completedAt.Some? then before + [Last(entries).completedAt.value] else before
  }

  function CompleteUsage(entries: seq<Entry>): nat {
    if entries == [] then 0
    else CompleteUsage(entries[..|entries| - 1]) + (if Last(entries).usageComplete then 1 else 0)
  }

  function Hierarchies(entries: seq<Entry>): seq<seq<string>> {
    if entries == [] then []
    else
      var before := Hierarchies(entries[..|entries| - 1]);
      if Last(entries).hierarchy.Some? then before + [Last(entries).hierarchy.value] else before
  }

  function FirstOf<T>(s: seq<T>): Option<T> {
    if s == [] then None else Some(s[0])
  }

  function LastOf<T>(s: seq<T>): Option<T> {
    if s == [] then None else Some(Last(s))
  }

  /** The statistics, read off the entries without any running state. */
  ghost predicate Summarises(s: RouteStats, entries: seq<Entry>, route: string)
    requires entries != []
  {
    && s.route == route && s.count == |entries|
    && (if Last(entries).model in {None, Some("")} then s.model == route else Some(s.model) == Last(entries).model)
    && s.hierarchy == (if Hierarchies(entries) == [] then [route] else Last(Hierarchies(entries)))
    && s.firstCompletedAt == FirstOf(CompletionTimes(entries))
    && s.lastCompletedAt == LastOf(CompletionTimes(entries))
    && s.windowRequestCount == |CompletionTimes(entries)|
    && s.usageCompleteCount == CompleteUsage(entries)
    && forall k :: AccumOf(s.accums, k) == AccumAll(ValuesOf(entries, k))
  }

  lemma {:induction false} AppliedMetric(accums: map<Metric, MetricAccum>, entries: seq<Entry>, k: Metric)
    requires entries != [] && AccumOf(accums, k) == AccumAll(ValuesOf(entries[..|entries| - 1], k))
    ensures AccumOf(ApplyMetrics(accums, Last(entries)), k) == AccumAll(ValuesOf(entries, k))
  {
    var values := ValuesOf(entries[..|entries| - 1], k);
    if k in Last(entries).metrics {
      assert (values + [Last(entries).metrics[k]])[..|values|] == values;
    }
  }

  lemma {:induction false} ReplaySummarises(entries: seq<Entry>, route: string)
    requires entries != [] && forall e :: e in entries ==> RouteName(e.route) == route
    ensures Replay(entries).Some? && Summarises(Replay(entries).value, entries, route)
  {
    var init := entries[..|entries| - 1];
    if init == [] {
      assert entries[..0] == [];
      forall k
        ensures AccumOf(Replay(entries).value.accums, k) == AccumAll(ValuesOf(entries, k))
      {
        AppliedMetric(map[], entries, k);
      }
    } else {
      ReplaySummarises(init, route);
      forall k
        ensures AccumOf(Replay(entries).value.accums, k) == AccumAll(ValuesOf(entries, k))
      {
        AppliedMetric(Replay(init).value.accums, entries, k);
      }
    }
  }

  // ---- Files and statistics -----------------------------------------------

  lemma {:induction false} SluggedAt(s: string, i: nat)
    ensures |Slugged(s)| == |s|
    ensures i < |s| ==> Slugged(s)[i] == if SlugChar(s[i]) then s[i] else '_'
  {
    if s != "" {
      SluggedAt(s[1..], if i == 0 then 0 else i - 1);
    }
  }

  /**
   The file of a route has the first 50 characters of its name, where anything but letters,
   digits, underscores and hyphens is an underscore; no name at all counts as "unknown".
   */
  lemma {:induction false} FileNameIs(route: string, i: nat)
    ensures var text, name := if route == "" then "unknown" else route, Slug(RouteName(route));
      && RouteName(route) == text
      && |name| == (if |text| < 50 then |text| else 50)
      && (i < |name| ==> name[i] == if SlugChar(text[i]) then text[i] else '_')
  {
    SluggedAt(RouteName(route), i);
  }

  /** Every entry is in the file its route names, as every writer puts it. */
  ghost predicate WellFiled(files: Files) {
    forall name, i :: name in files && 0 <= i < |files[name]| ==> Slug(RouteName(files[name][i].route)) == name
  }

  /** The entries of a route in the current files. */
  function RouteEntries(files: Files, route: string): seq<Entry> {
    EntriesOf(FileOf(files, Slug(route)), route)
  }

  /** The statistics in memory are, route by route, a replay of the current files. */
  ghost predicate Agrees(stats: StatsTable, files: Files) {
    forall route :: Get(stats, route) == Replay(RouteEntries(files, route))
  }

  lemma {:induction false} ForeignFile(entries: seq<Entry>, route: string, name: string)
    requires forall i :: 0 <= i < |entries| ==> Slug(RouteName(entries[i].route)) == name
    requires Slug(route) != name
    ensures EntriesOf(entries, route) == []
  {
    if entries != [] {
      ForeignFile(entries[..|entries| - 1], route, name);
    }
  }

  lemma {:induction false} NewLast(listing: seq<string>)
    requires Distinct(listing) && listing != []
    ensures Distinct(listing[..|listing| - 1]) && Last(listing) !in listing[..|listing| - 1]
    ensures forall x :: x in listing <==> x in listing[..|listing| - 1] || x == Last(listing)
  {
    assert listing == listing[..|listing| - 1] + [Last(listing)];
  }

  /** In a well-filed directory a route's entries come out the same for every listing order. */
  lemma {:induction false} ListedEntries(files: Files, listing: seq<string>, route: string)
    requires WellFiled(files) && Distinct(listing)
    ensures EntriesOf(InOrder(files, listing), route)
      == if Slug(route) in listing then RouteEntries(files, route) else []
  {
    if listing != [] {
      var init, name := listing[..|listing| - 1], Last(listing);
      NewLast(listing);
      ListedEntries(files, init, route);
      EntriesOfAppend(InOrder(files, init), FileOf(files, name), route);
      if Slug(route) != name {
        ForeignFile(FileOf(files, name), route, name);
      }
    }
  }

  lemma {:induction false} SeedingAgrees(files: Files, listing: seq<string>)
    requires WellFiled(files) && ListingOf(files, listing)
    ensures Agrees(CountedAll(map[], InOrder(files, listing)), files)
  {
    forall route
      ensures Get(CountedAll(map[], InOrder(files, listing)), route) == Replay(RouteEntries(files, route))
    {
      CountedIsReplay(InOrder(files, listing), route);
      ListedEntries(files, listing, route);
      assert Slug(route) in listing <==> Slug(route) in files;
    }
  }

  lemma {:induction false} AppendKeepsFiled(files: Files, entry: Entry)
    requires WellFiled(files)
    ensures WellFiled(Appended(files, entry))
  {
  }

  lemma {:induction false} AppendedEntries(files: Files, entry: Entry, route: string)
    ensures RouteEntries(Appended(files, entry), route)
      == if RouteName(entry.route) == route then RouteEntries(files, route) + [entry] else RouteEntries(files, route)
  {
    var name := Slug(RouteName(entry.route));
    var file := FileOf(files, name);
    assert (file + [entry])[..|file|] == file;
  }

  lemma {:induction false} CountingAgrees(stats: StatsTable, files: Files, entry: Entry)
    requires Agrees(stats, files)
    ensures Agrees(Counted(stats, entry), Appended(files, entry))
  {
    forall route
      ensures Get(Counted(stats, entry), route) == Replay(RouteEntries(Appended(files, entry), route))
    {
      assert Get(stats, route) == Replay(RouteEntries(files, route));
      AppendedEntries(files, entry, route);
      CountedAt(stats, entry, route);
      ReplayAppend(RouteEntries(files, route), entry);
    }
  }

  lemma {:induction false} NothingAgrees()
    ensures Agrees(map[], map[])
  {
    forall route
      ensures Get<string, RouteStats>(map[], route) == Replay(RouteEntries(map[], route))
    {
    }
  }

  // ---- Whole runs ---------------------------------------------------------

  /** One request, or a new process over the same directory. */
  datatype Act = Record(listing: seq<string>, entry: Entry) | Restart

  function Step(s: State, act: Act, interval: nat): State
    requires interval > 0
  {
    match act
    case Record(listing, entry) => Recorded(s, listing, entry, interval)
    case Restart => s.(stats := map[], seeded := false, counter := 0)
  }

  function Run(files: Files, acts: seq<Act>, interval: nat): State
    requires interval > 0
  {
    if acts == [] then State(files, [], map[], false, 0)
    else Step(Run(files, acts[..|acts| - 1], interval), Last(acts), interval)
  }

  /** Each listing in a run is one of the directory as it is then. */
  ghost predicate Listed(files: Files, acts: seq<Act>, interval: nat)
    requires interval > 0
  {
    acts != [] ==>
      && Listed(files, acts[..|acts| - 1], interval)
      && (Last(acts).Record? ==> ListingOf(Run(files, acts[..|acts| - 1], interval).files, Last(acts).listing))
  }

  ghost predicate Sound(s: State) {
    WellFiled(s.files) && (s.seeded ==> Agrees(s.stats, s.files))
  }

  lemma {:induction false} RecordedSound(s: State, listing: seq<string>, entry: Entry, interval: nat)
    requires interval > 0 && Sound(s) && ListingOf(s.files, listing)
    ensures Sound(Recorded(s, listing, entry, interval)) && Recorded(s, listing, entry, interval).seeded
  {
    if !s.seeded {
      SeedingAgrees(s.files, listing);
    }
    var t := Seeded(s, listing);
    AppendKeepsFiled(t.files, entry);
    CountingAgrees(t.stats, t.files, entry);
    NothingAgrees();
  }

  /** In every reachable state, seeded statistics are the replay of the current files. */
  lemma {:induction false} StatisticsMatchLog(files: Files, acts: seq<Act>, interval: nat)
    requires interval > 0 && WellFiled(files) && Listed(files, acts, interval)
    ensures Sound(Run(files, acts, interval))
    ensures acts != [] && Last(acts).Record? ==> Run(files, acts, interval).seeded
  {
    if acts != [] {
      StatisticsMatchLog(files, acts[..|acts| - 1], interval);
      if Last(acts).Record? {
        RecordedSound(Run(files, acts[..|acts| - 1], interval), Last(acts).listing, Last(acts).entry, interval);
      }
    }
  }

  // ---- Any directory at all -----------------------------------------------

  /** The counted entries are those of the current files, in the order in which they were seen. */
  ghost predicate CountsFiles(s: State, seen: seq<Entry>, listing: seq<string>) {
    && s.stats == CountedAll(map[], seen)
    && ListingOf(s.files, listing)
    && multiset(seen) == multiset(InOrder(s.files, listing))
  }

  lemma {:induction false} InOrderAppend(files: Files, listing: seq<string>, entry: Entry)
    requires Distinct(listing)
    ensures multiset(InOrder(Appended(files, entry), listing))
      == multiset(InOrder(files, listing))
         + if Slug(RouteName(entry.route)) in listing then multiset{entry} else multiset{}
  {
    if listing != [] {
      NewLast(listing);
      InOrderAppend(files, listing[..|listing| - 1], entry);
    }
  }

  /** A listing that also has a given name, over the same entries. */
  lemma {:induction false} ListAlso(files: Files, listing: seq<string>, name: string) returns (more: seq<string>)
    requires ListingOf(files, listing)
    ensures Distinct(more) && Elements(more) == files.Keys + {name}
    ensures InOrder(files, more) == InOrder(files, listing)
  {
    more := listing;
    if name in files {
      assert name in Elements(listing);
    } else {
      assert name !in Elements(listing);
      more := listing + [name];
      assert more[..|listing|] == listing;
      assert Elements(more) == Elements(listing) + {name};
    }
  }

  lemma {:induction false} FilesGainEntry(files: Files, entry: Entry, listing: seq<string>) returns (more: seq<string>)
    requires ListingOf(files, listing)
    ensures ListingOf(Appended(files, entry), more)
    ensures multiset(InOrder(Appended(files, entry), more)) == multiset(InOrder(files, listing)) + multiset{entry}
  {
    var name := Slug(RouteName(entry.route));
    more := ListAlso(files, listing, name);
    assert name in Elements(more);
    InOrderAppend(files, more, entry);
    assert Appended(files, entry).Keys == files.Keys + {name};
  }

  lemma {:induction false} CountedOneMore(seen: seq<Entry>, entry: Entry)
    ensures CountedAll(map[], seen + [entry]) == Counted(CountedAll(map[], seen), entry)
  {
    assert (seen + [entry])[..|seen|] == seen;
  }

  lemma {:induction false} AppendCounts(s: State, t: State, entry: Entry, seen: seq<Entry>, listing: seq<string>)
      returns (more: seq<string>)
    requires CountsFiles(s, seen, listing)
    requires t.files == Appended(s.files, entry) && t.stats == Counted(s.stats, entry)
    ensures CountsFiles(t, seen + [entry], more)
  {
    more := FilesGainEntry(s.files, entry, listing);
    CountedOneMore(seen, entry);
  }

  lemma {:induction false} RecordCounts(s: State, now: seq<string>, entry: Entry, interval: nat, seen: seq<Entry>,
                                        listing: seq<string>) returns (seen': seq<Entry>, listing': seq<string>)
    requires interval > 0 && ListingOf(s.files, now)
    requires s.seeded ==> CountsFiles(s, seen, listing)
    ensures CountsFiles(Recorded(s, now, entry, interval), seen', listing')
  {
    var t := Seeded(s, now);
    seen', listing' := if s.seeded then seen else InOrder(s.files, now), if s.seeded then listing else now;
    var u := t.(files := Appended(t.files, entry), stats := Counted(t.stats, entry), counter := t.counter + 1);
    if ArchiveDue(u.counter, interval) {
      seen', listing' := [], [];
    } else {
      listing' := AppendCounts(t, u, entry, seen', listing');
      seen' := seen' + [entry];
    }
  }

  /**
   Without any assumption on what the directory held: seeded statistics are a replay of
   exactly the entries of the current files, in the order in which the process saw them.
   */
  lemma {:induction false} StatisticsCountFiles(files: Files, acts: seq<Act>, interval: nat)
      returns (seen: seq<Entry>, listing: seq<string>)
    requires interval > 0 && Listed(files, acts, interval)
    ensures Run(files, acts, interval).seeded ==> CountsFiles(Run(files, acts, interval), seen, listing)
  {
    seen, listing := [], [];
    if acts != [] {
      var s := Run(files, acts[..|acts| - 1], interval);
      seen, listing := StatisticsCountFiles(files, acts[..|acts| - 1], interval);
      if Last(acts).Record? {
        seen, listing := RecordCounts(s, Last(acts).listing, Last(acts).entry, interval, seen, listing);
      }
    }
  }

  // ---- Archives -----------------------------------------------------------

  /** A route's entries in the archived directories, oldest first. */
  function ArchivedEntries(archived: seq<Files>, route: string): seq<Entry> {
    if archived == [] then []
    else ArchivedEntries(archived[..|archived| - 1], route) + RouteEntries(Last(archived), route)
  }

  function Own(act: Act, route: string): seq<Entry> {
    if act.Record? && RouteName(act.entry.route) == route then [act.entry] else []
  }

  /** What a run recorded for one route. */
  function RecordsOf(acts: seq<Act>, route: string): seq<Entry> {
    if acts == [] then [] else RecordsOf(acts[..|acts| - 1], route) + Own(Last(acts), route)
  }

  function Ledger(s: State, route: string): seq<Entry> {
    ArchivedEntries(s.archived, route) + RouteEntries(s.files, route)
  }

  lemma {:induction false} ArchivedAppend(archived: seq<Files>, moved: Files, route: string)
    ensures ArchivedEntries(archived + [moved], route) == ArchivedEntries(archived, route) + RouteEntries(moved, route)
  {
    assert (archived + [moved])[..|archived|] == archived;
  }

  lemma {:induction false} RecordedFiles(s: State, listing: seq<string>, entry: Entry, interval: nat)
    requires interval > 0
    ensures var t, moved := Recorded(s, listing, entry, interval), Appended(s.files, entry);
      (t.files == moved && t.archived == s.archived) || (t.files == map[] && t.archived == s.archived + [moved])
  {
  }

  /** Whether or not the directory was archived, its entries stay in the ledger. */
  lemma {:induction false} MovedLedger(archived: seq<Files>, moved: Files, t: State, route: string)
    requires (t.files == moved && t.archived == archived) || (t.files == map[] && t.archived == archived + [moved])
    ensures Ledger(t, route) == ArchivedEntries(archived, route) + RouteEntries(moved, route)
  {
    ArchivedAppend(archived, moved, route);
    assert RouteEntries(map[], route) == [];
  }

  lemma {:induction false} Reassociate(xs: seq<Entry>, ys: seq<Entry>, zs: seq<Entry>)
    ensures xs + (ys + zs) == xs + ys + zs
  {
  }

  lemma {:induction false} RecordedLedger(s: State, listing: seq<string>, entry: Entry, interval: nat, route: string)
    requires interval > 0
    ensures Ledger(Recorded(s, listing, entry, interval), route)
      == Ledger(s, route) + if RouteName(entry.route) == route then [entry] else []
  {
    RecordedFiles(s, listing, entry, interval);
    MovedLedger(s.archived, Appended(s.files, entry), Recorded(s, listing, entry, interval), route);
    AppendedEntries(s.files, entry, route);
    Reassociate(ArchivedEntries(s.archived, route), RouteEntries(s.files, route), [entry]);
  }

  lemma {:induction false} StepLedger(s: State, act: Act, interval: nat, route: string)
    requires interval > 0
    ensures Ledger(Step(s, act, interval), route) == Ledger(s, route) + Own(act, route)
  {
    if act.Record? {
      RecordedLedger(s, act.listing, act.entry, interval, route);
    }
  }

  /** Archives and current files together hold every record of a run, route by route, in order. */
  lemma {:induction false} NothingLost(files: Files, acts: seq<Act>, interval: nat, route: string)
    requires interval > 0
    ensures Ledger(Run(files, acts, interval), route) == RouteEntries(files, route) + RecordsOf(acts, route)
  {
    if acts != [] {
      var init := acts[..|acts| - 1];
      NothingLost(files, init, interval, route);
      StepLedger(Run(files, init, interval), Last(acts), interval, route);
      Reassociate(RouteEntries(files, route), RecordsOf(init, route), Own(Last(acts), route));
    }
  }

  lemma {:induction false} SmallMultiple(m: int, n: nat, r: nat)
    requires n > 0 && m * n == r && r < n
    ensures r == 0
  {
    assert (m - 1) * n == m * n - n < 0;
    assert m - 1 < 0;
  }

  lemma {:induction false} DividesMultiple(c: nat, interval: nat)
    requires interval > 0 && ARCHIVE_EVERY % interval == 0 && c % ARCHIVE_EVERY == 0
    ensures c % interval == 0
  {
    var q, k := c / ARCHIVE_EVERY, ARCHIVE_EVERY / interval;
    assert ARCHIVE_EVERY == k * interval;
    assert c == (q * k) * interval;
    SmallMultiple(q * k - c / interval, interval, c % interval);
  }

  // ---- When archives happen -----------------------------------------------

  /** The requests recorded since the last restart. */
  function Requests(acts: seq<Act>): nat {
    if acts == [] || Last(acts).Restart? then 0 else Requests(acts[..|acts| - 1]) + 1
  }

  /** The requests of a run at which the count since the last restart is a multiple of 1000. */
  function Thousands(acts: seq<Act>): nat {
    if acts == [] then 0
    else Thousands(acts[..|acts| - 1]) + (if Last(acts).Record? && Requests(acts) % 1000 == 0 then 1 else 0)
  }

  /** Those among them at which the summary is due as well. */
  function ThousandsDue(acts: seq<Act>, interval: nat): nat
    requires interval > 0
  {
    if acts == [] then 0
    else
      ThousandsDue(acts[..|acts| - 1], interval)
      + (if Last(acts).Record? && Requests(acts) % 1000 == 0 && Requests(acts) % interval == 0 then 1 else 0)
  }

  lemma {:induction false} CounterIsRequests(files: Files, acts: seq<Act>, interval: nat)
    requires interval > 0
    ensures Run(files, acts, interval).counter == Requests(acts)
  {
    if acts != [] {
      CounterIsRequests(files, acts[..|acts| - 1], interval);
    }
  }

  lemma {:induction false} StepArchives(s: State, act: Act, interval: nat)
    requires interval > 0
    ensures |Step(s, act, interval).archived|
      == |s.archived| + if act.Record? && ArchiveDue(s.counter + 1, interval) then 1 else 0
  {
  }

  /** Over every run the directory is archived at exactly these requests. */
  lemma {:induction false} ArchivesAtThousandsDue(files: Files, acts: seq<Act>, interval: nat)
    requires interval > 0
    ensures |Run(files, acts, interval).archived| == ThousandsDue(acts, interval)
  {
    if acts != [] {
      var init := acts[..|acts| - 1];
      ArchivesAtThousandsDue(files, init, interval);
      CounterIsRequests(files, init, interval);
      StepArchives(Run(files, init, interval), Last(acts), interval);
    }
  }

  lemma {:induction false} DueWhenDividing(acts: seq<Act>, interval: nat)
    requires interval > 0
    ensures ThousandsDue(acts, interval) <= Thousands(acts)
    ensures ARCHIVE_EVERY % interval == 0 ==> ThousandsDue(acts, interval) == Thousands(acts)
  {
    if acts != [] {
      DueWhenDividing(acts[..|acts| - 1], interval);
      if ARCHIVE_EVERY % interval == 0 && Requests(acts) % ARCHIVE_EVERY == 0 {
        DividesMultiple(Requests(acts), interval);
      }
    }
  }

  lemma {:induction false} ListNames(names: set<string>) returns (listing: seq<string>)
    ensures Distinct(listing) && Elements(listing) == names
    decreases |names|
  {
    if name :| name in names {
      var rest := ListNames(names - {name});
      assert name !in Elements(rest);
      listing := rest + [name];
      assert Elements(listing) == Elements(rest) + {name};
    } else {
      listing := [];
    }
  }

  lemma {:induction false} OneMoreRequest(files: Files, acts: seq<Act>, listing: seq<string>, entry: Entry,
                                          interval: nat)
    requires interval > 0 && Listed(files, acts, interval)
    requires ListingOf(Run(files, acts, interval).files, listing)
    ensures Listed(files, acts + [Record(listing, entry)], interval)
    ensures Requests(acts + [Record(listing, entry)]) == Requests(acts) + 1
  {
    assert (acts + [Record(listing, entry)])[..|acts|] == acts;
  }

  /** A run of any number of requests in one process. */
  lemma {:induction false} RequestRun(files: Files, entry: Entry, interval: nat, n: nat) returns (acts: seq<Act>)
    requires interval > 0
    ensures |acts| == n && Listed(files, acts, interval) && Requests(acts) == n
    ensures acts != [] ==> Last(acts).Record?
  {
    acts := [];
    if n > 0 {
      var init := RequestRun(files, entry, interval, n - 1);
      var listing := ListNames(Run(files, init, interval).files.Keys);
      OneMoreRequest(files, init, listing, entry, interval);
      acts := init + [Record(listing, entry)];
    }
  }

  const SOME_ENTRY := Entry("r", None, None, None, map[], false)

  /**
   As documented, every run archives at each thousandth request of a process, if and only if
   the summary interval divides 1000.
   */
  lemma {:induction false} ArchivesEveryThousandIff(files: Files, interval: nat)
    requires interval > 0
    ensures (forall acts :: Listed(files, acts, interval) ==>
               |Run(files, acts, interval).archived| == Thousands(acts))
      <==> 1000 % interval == 0
  {
    if ARCHIVE_EVERY % interval == 0 {
      forall acts | Listed(files, acts, interval)
        ensures |Run(files, acts, interval).archived| == Thousands(acts)
      {
        ArchivesAtThousandsDue(files, acts, interval);
        DueWhenDividing(acts, interval);
      }
    } else {
      var acts := RequestRun(files, SOME_ENTRY, interval, ARCHIVE_EVERY);
      ArchivesAtThousandsDue(files, acts, interval);
      DueWhenDividing(acts[..|acts| - 1], interval);
      assert |Run(files, acts, interval).archived| < Thousands(acts);
    }
  }

  lemma {:induction false} NoneDueYet(acts: seq<Act>)
    requires |acts| <= ARCHIVE_EVERY
    ensures ThousandsDue(acts, 3) == 0 && Requests(acts) <= |acts|
  {
    if acts != [] {
      NoneDueYet(acts[..|acts| - 1]);
    }
  }

  /** With an interval of 3, a process has served 1000 requests and archived nothing. */
  lemma {:induction false} ThousandWithoutArchive(files: Files) returns (acts: seq<Act>)
    ensures Listed(files, acts, 3) && Requests(acts) == 1000 && Run(files, acts, 3).archived == []
  {
    acts := RequestRun(files, SOME_ENTRY, 3, ARCHIVE_EVERY);
    ArchivesAtThousandsDue(files, acts, 3);
    NoneDueYet(acts);
  }
}
