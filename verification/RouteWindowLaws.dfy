/** The rolling window agrees with the full event log, over every log in time order. */
module RouteWindowLaws {
  import opened Common
  import opened RouteWindow

  /** The events the registry consumed, each with its time. */
  type Log = seq<(Event, int)>

  /** Event times never decrease. */
  ghost predicate TimeOrdered(log: Log) {
    |log| <= 1 || (log[|log| - 2].1 <= Last(log).1 && TimeOrdered(log[..|log| - 1]))
  }

  function AfterLog(log: Log): State {
    if log == [] then EMPTY else Handle(AfterLog(log[..|log| - 1]), Last(log).0, Last(log).1)
  }

  // ---- Activity -----------------------------------------------------------

  /** The number of route-resolved events of a route in one minute of the log. */
  function ResolvedIn(log: Log, r: string, minute: int): nat {
    if log == [] then 0
    else ResolvedIn(log[..|log| - 1], r, minute)
         + (if Last(log).0.RouteResolved? && Last(log).0.route == Some(r) && Minute(Last(log).1) == minute
            then 1 else 0)
  }

  lemma {:induction false} PruneKeepsVisible(s: State, r: string, minute: int, now: int)
    requires minute >= Minute(now - WINDOW)
    ensures BucketAt(Pruned(s, now).activity, r, minute) == BucketAt(s.activity, r, minute)
  {
    if r in s.activity && minute in s.activity[r] {
      assert minute in KeptBuckets(s.activity[r], Minute(now - WINDOW));
    }
  }

  lemma {:induction false} ReactCounts(s: State, e: Event, now: int, r: string, minute: int)
    ensures BucketAt(React(s, e, now).activity, r, minute) == BucketAt(s.activity, r, minute)
      + (if e.RouteResolved? && e.route == Some(r) && Minute(now) == minute then 1 else 0)
  {
  }

  lemma {:induction false} MinuteMonotone(a: int, b: int)
    requires a <= b
    ensures Minute(a) <= Minute(b)
  {
  }

  /** No bucket still in the window was ever pruned: each holds the log's count. */
  lemma {:induction false} BucketMatchesLog(log: Log, r: string, minute: int)
    requires TimeOrdered(log)
    requires log != [] ==> minute >= Minute(Last(log).1 - WINDOW)
    ensures BucketAt(AfterLog(log).activity, r, minute) == ResolvedIn(log, r, minute)
  {
    if log != [] {
      var init, e, now := log[..|log| - 1], Last(log).0, Last(log).1;
      if init != [] {
        assert Last(init).1 <= now;
        MinuteMonotone(Last(init).1 - WINDOW, now - WINDOW);
      }
      BucketMatchesLog(init, r, minute);
      ReactCounts(AfterLog(init), e, now, r, minute);
      PruneKeepsVisible(React(AfterLog(init), e, now), r, minute, now);
    }
  }

  lemma {:induction false} SnapshotActivityAt(s: State, r: string, now: int, i: nat)
    requires i < 60
    ensures SnapshotOf(s, r, now).activity[i] == BucketAt(s.activity, r, Minute(now) - 59 + i)
  {
  }

  lemma {:induction false} WindowMinutes(now: int)
    ensures Minute(now - WINDOW) == Minute(now) - 60
  {
  }

  /** Each of the 60 counts of a snapshot is the number of resolved events in that minute of the log. */
  lemma {:induction false} SnapshotActivityMatchesLog(log: Log, r: string, now: int, i: nat)
    requires TimeOrdered(log) && (log != [] ==> Last(log).1 <= now) && i < 60
    ensures SnapshotOf(Pruned(AfterLog(log), now), r, now).activity[i]
      == ResolvedIn(log, r, Minute(now) - 59 + i)
  {
    var minute := Minute(now) - 59 + i;
    WindowMinutes(now);
    if log != [] {
      MinuteMonotone(Last(log).1 - WINDOW, now - WINDOW);
    }
    BucketMatchesLog(log, r, minute);
    PruneKeepsVisible(AfterLog(log), r, minute, now);
    SnapshotActivityAt(Pruned(AfterLog(log), now), r, now, i);
  }

  // ---- Bounded deques -----------------------------------------------------

  ghost predicate StampsOrdered(d: seq<Stamped>) {
    forall i, j :: 0 <= i < j < |d| ==> d[i].at <= d[j].at
  }

  /** Everything before index `k` is old and everything from it on is recent. */
  ghost predicate SplitAt(d: seq<Stamped>, cutoff: int, k: nat) {
    && k <= |d|
    && (forall i :: 0 <= i < k ==> d[i].at < cutoff)
    && (forall i :: k <= i < |d| ==> d[i].at >= cutoff)
  }

  /** A deque in time order splits somewhere. */
  lemma {:induction false} SplitExists(d: seq<Stamped>, cutoff: int) returns (k: nat)
    requires StampsOrdered(d)
    ensures SplitAt(d, cutoff, k)
  {
    k := 0;
    while k < |d| && d[k].at < cutoff
      invariant k <= |d| && forall i :: 0 <= i < k ==> d[i].at < cutoff
    {
      k := k + 1;
    }
  }

  lemma {:induction false} DropOldAt(d: seq<Stamped>, cutoff: int, k: nat)
    requires SplitAt(d, cutoff, k)
    ensures DropOld(d, cutoff) == d[k..]
  {
    if k > 0 {
      DropOldAt(d[1..], cutoff, k - 1);
      assert d[1..][k - 1..] == d[k..];
    }
  }

  lemma {:induction false} SplitLastN(d: seq<Stamped>, cutoff: int, n: nat, k: nat)
    requires SplitAt(d, cutoff, k) && |d| > n
    ensures DropOld(d[|d| - n..], cutoff) == LastN(d[k..], n)
  {
    var skip := |d| - n;
    DropOldAt(d[skip..], cutoff, if k <= skip then 0 else k - skip);
    if k <= skip {
      assert d[k..][skip - k..] == d[skip..];
    } else {
      assert d[skip..][k - skip..] == d[k..];
    }
  }

  /** Dropping old elements commutes with keeping the last `n`. */
  lemma {:induction false} DropOldLastN(d: seq<Stamped>, cutoff: int, n: nat)
    requires StampsOrdered(d)
    ensures DropOld(LastN(d, n), cutoff) == LastN(DropOld(d, cutoff), n)
  {
    var k := SplitExists(d, cutoff);
    DropOldAt(d, cutoff, k);
    if |d| > n {
      SplitLastN(d, cutoff, n, k);
    }
  }

  lemma {:induction false} SplitOrder(d: seq<Stamped>, early: int, late: int, k: nat, m: nat)
    requires SplitAt(d, early, k) && SplitAt(d, late, m) && early <= late
    ensures k <= m
  {
    assert m < |d| ==> d[m].at >= late;
  }

  lemma {:induction false} DropOldLater(d: seq<Stamped>, early: int, late: int)
    requires StampsOrdered(d) && early <= late
    ensures DropOld(DropOld(d, early), late) == DropOld(d, late)
  {
    var k := SplitExists(d, early);
    var m := SplitExists(d, late);
    SplitOrder(d, early, late, k, m);
    DropOldAt(d, early, k);
    DropOldAt(d, late, m);
    DropOldAt(d[k..], late, m - k);
    assert d[k..][m - k..] == d[m..];
  }

  lemma {:induction false} DropOldAppend(d: seq<Stamped>, cutoff: int, x: Stamped)
    requires x.at >= cutoff
    ensures DropOld(d + [x], cutoff) == DropOld(d, cutoff) + [x]
  {
    if d != [] {
      assert (d + [x])[1..] == d[1..] + [x];
      if d[0].at < cutoff {
        DropOldAppend(d[1..], cutoff, x);
      }
    }
  }

  /** Dropping early, appending and dropping late is appending and dropping late. */
  lemma {:induction false} DropOldTwice(d: seq<Stamped>, early: int, late: int, x: Stamped)
    requires StampsOrdered(d) && early <= late <= x.at
    ensures DropOld(DropOld(d, early) + [x], late) == DropOld(d + [x], late)
  {
    DropOldLater(d, early, late);
    DropOldAppend(DropOld(d, early), late, x);
    DropOldAppend(d, late, x);
  }

  lemma {:induction false} DropOldKeepsOrder(d: seq<Stamped>, cutoff: int)
    requires StampsOrdered(d)
    ensures StampsOrdered(DropOld(d, cutoff)) && forall x :: x in DropOld(d, cutoff) ==> x in d
  {
    if d != [] && d[0].at < cutoff {
      DropOldKeepsOrder(d[1..], cutoff);
    }
  }

  // ---- Samples and errors -------------------------------------------------

  function Pushed(d: seq<Stamped>, x: Option<(string, Stamped)>, r: string, n: nat): seq<Stamped> {
    if x.Some? && x.value.0 == r then PushBounded(d, x.value.1, n) else d
  }

  function Extended(all: seq<Stamped>, x: Option<(string, Stamped)>, r: string): seq<Stamped> {
    if x.Some? && x.value.0 == r then all + [x.value.1] else all
  }

  ghost predicate OrderedUpTo(d: seq<Stamped>, now: int) {
    StampsOrdered(d) && forall i :: 0 <= i < |d| ==> d[i].at <= now
  }

  /** The bounded window of a full history: its last `n` recent elements. */
  function WindowOf(all: seq<Stamped>, cutoff: int, n: nat): seq<Stamped> {
    LastN(DropOld(all, cutoff), n)
  }

  lemma {:induction false} PushKeepsLast(d: seq<Stamped>, x: Stamped, n: nat)
    ensures PushBounded(LastN(d, n), x, n) == LastN(d + [x], n)
  {
  }

  /** Appending to the bounded window and pruning it again gives the window of the longer history. */
  lemma {:induction false} WindowStep(all: seq<Stamped>, early: int, late: int, n: nat, x: Stamped)
    requires OrderedUpTo(all, x.at) && early <= late <= x.at
    ensures DropOld(PushBounded(WindowOf(all, early, n), x, n), late) == WindowOf(all + [x], late, n)
  {
    var d := DropOld(all, early);
    DropOldKeepsOrder(all, early);
    assert forall i :: 0 <= i < |d| ==> d[i] in all;
    PushKeepsLast(d, x, n);
    DropOldLastN(d + [x], late, n);
    DropOldTwice(all, early, late, x);
  }

  lemma {:induction false} WindowAges(all: seq<Stamped>, early: int, late: int, n: nat)
    requires StampsOrdered(all) && early <= late
    ensures DropOld(WindowOf(all, early, n), late) == WindowOf(all, late, n)
  {
    DropOldKeepsOrder(all, early);
    DropOldLastN(DropOld(all, early), late, n);
    DropOldLater(all, early, late);
  }

  /** One deque over one event: the window of the extended history. */
  lemma {:induction false} DequeStep(d: seq<Stamped>, pushed: Option<(string, Stamped)>, r: string,
                  all: seq<Stamped>, early: int, now: int, n: nat)
    requires d == WindowOf(all, early, n)
    requires OrderedUpTo(all, now) && early <= now - WINDOW
    requires pushed.Some? ==> pushed.value.1.at == now
    ensures DropOld(Pushed(d, pushed, r, n), now - WINDOW) == WindowOf(Extended(all, pushed, r), now - WINDOW, n)
  {
    if pushed.Some? && pushed.value.0 == r {
      WindowStep(all, early, now - WINDOW, n, pushed.value.1);
    } else {
      WindowAges(all, early, now - WINDOW, n);
    }
  }

  /** One step of a run: what the event pushed, to which route, and the time. */
  type Pushes = seq<(Option<(string, Stamped)>, int)>

  /** The deque of one route over a run: push, then drop what is old. */
  function RunDeque(ps: Pushes, r: string, n: nat): seq<Stamped> {
    if ps == [] then []
    else DropOld(Pushed(RunDeque(ps[..|ps| - 1], r, n), Last(ps).0, r, n), Last(ps).1 - WINDOW)
  }

  /** Everything ever pushed for a route. */
  function History(ps: Pushes, r: string): seq<Stamped> {
    if ps == [] then [] else Extended(History(ps[..|ps| - 1], r), Last(ps).0, r)
  }

  /** Times never decrease, up to `now`, and each push is stamped with its time. */
  ghost predicate InTime(ps: Pushes, now: int) {
    ps != [] ==>
      && Last(ps).1 <= now && (Last(ps).0.Some? ==> Last(ps).0.value.1.at == Last(ps).1)
      && InTime(ps[..|ps| - 1], Last(ps).1)
  }

  lemma {:induction false} HistoryOrdered(ps: Pushes, r: string, now: int)
    requires InTime(ps, now)
    ensures OrderedUpTo(History(ps, r), now)
  {
    if ps != [] {
      HistoryOrdered(ps[..|ps| - 1], r, Last(ps).1);
    }
  }

  /** A deque over a run holds exactly the last `n` of all pushes that are in the window. */
  lemma {:induction false} RunMatchesHistory(ps: Pushes, r: string, n: nat)
    requires ps != [] && InTime(ps, Last(ps).1)
    ensures RunDeque(ps, r, n) == WindowOf(History(ps, r), Last(ps).1 - WINDOW, n)
  {
    var init, now := ps[..|ps| - 1], Last(ps).1;
    var early := if init == [] then now - WINDOW else Last(init).1 - WINDOW;
    if init != [] {
      RunMatchesHistory(init, r, n);
    }
    HistoryOrdered(init, r, now);
    DequeStep(RunDeque(init, r, n), Last(ps).0, r, History(init, r), early, now, n);
  }

  function SamplePush(e: Event, now: int): Option<(string, Stamped)> {
    if e.RequestComplete? && e.route.Some? then Some((e.route.value, Stamped(now, e.sample))) else None
  }

  /** The route of an error is the one known when its event arrived. */
  function ErrorPush(s: State, e: Event, now: int): Option<(string, Stamped)> {
    var error := ErrorOf(s, e);
    if error.Some? then Some((error.value.0, Stamped(now, error.value.1))) else None
  }

  /** What the events of a log push onto the sample deques. */
  function SamplePushes(log: Log): Pushes {
    if log == [] then []
    else SamplePushes(log[..|log| - 1]) + [(SamplePush(Last(log).0, Last(log).1), Last(log).1)]
  }

  /** What they push onto the error deques. */
  function ErrorPushes(log: Log): Pushes {
    if log == [] then []
    else ErrorPushes(log[..|log| - 1])
         + [(ErrorPush(AfterLog(log[..|log| - 1]), Last(log).0, Last(log).1), Last(log).1)]
  }

  lemma {:induction false} InTimeLater(ps: Pushes, before: int, now: int)
    requires InTime(ps, before) && before <= now
    ensures InTime(ps, now)
  {
  }

  lemma {:induction false} InTimeAppend(ps: Pushes, before: int, x: Option<(string, Stamped)>, now: int)
    requires InTime(ps, before) && before <= now && (x.Some? ==> x.value.1.at == now)
    ensures InTime(ps + [(x, now)], now)
  {
    assert (ps + [(x, now)])[..|ps|] == ps;
    InTimeLater(ps, before, now);
  }

  /** The time of a log's last event. */
  function Clock(log: Log): int {
    if log == [] then 0 else Last(log).1
  }

  lemma {:induction false} SamplePushesInTime(log: Log)
    requires TimeOrdered(log)
    ensures InTime(SamplePushes(log), Clock(log)) && |SamplePushes(log)| == |log|
    ensures log != [] ==> Last(SamplePushes(log)).1 == Last(log).1
  {
    if log != [] {
      var init := log[..|log| - 1];
      SamplePushesInTime(init);
      var before := if init == [] then Last(log).1 else Clock(init);
      InTimeAppend(SamplePushes(init), before, SamplePush(Last(log).0, Last(log).1), Last(log).1);
    }
  }

  lemma {:induction false} ErrorPushesInTime(log: Log)
    requires TimeOrdered(log)
    ensures InTime(ErrorPushes(log), Clock(log)) && |ErrorPushes(log)| == |log|
    ensures log != [] ==> Last(ErrorPushes(log)).1 == Last(log).1
  {
    if log != [] {
      var init := log[..|log| - 1];
      ErrorPushesInTime(init);
      var before := if init == [] then Last(log).1 else Clock(init);
      InTimeAppend(ErrorPushes(init), before, ErrorPush(AfterLog(init), Last(log).0, Last(log).1), Last(log).1);
    }
  }

  lemma {:induction false} PrunedDequeAt(m: map<string, seq<Stamped>>, cutoff: int, r: string)
    ensures DequeOf(PrunedDeques(m, cutoff), r) == DropOld(DequeOf(m, r), cutoff)
  {
  }

  lemma {:induction false} RunAppend(ps: Pushes, x: Option<(string, Stamped)>, now: int, r: string, n: nat)
    ensures RunDeque(ps + [(x, now)], r, n) == DropOld(Pushed(RunDeque(ps, r, n), x, r, n), now - WINDOW)
  {
    assert (ps + [(x, now)])[..|ps|] == ps;
  }

  lemma {:induction false} HandleSamples(s: State, e: Event, now: int, r: string)
    ensures DequeOf(Handle(s, e, now).samples, r)
      == DropOld(Pushed(DequeOf(s.samples, r), SamplePush(e, now), r, MAX_SAMPLES), now - WINDOW)
  {
    PrunedDequeAt(ReactSamples(s, e, now), now - WINDOW, r);
  }

  lemma {:induction false} HandleErrors(s: State, e: Event, now: int, r: string)
    ensures DequeOf(Handle(s, e, now).errors, r)
      == DropOld(Pushed(DequeOf(s.errors, r), ErrorPush(s, e, now), r, MAX_ERRORS), now - WINDOW)
  {
    PrunedDequeAt(ReactErrors(s, e, now), now - WINDOW, r);
  }

  lemma {:induction false} SamplesAreRun(log: Log, r: string)
    ensures DequeOf(AfterLog(log).samples, r) == RunDeque(SamplePushes(log), r, MAX_SAMPLES)
  {
    if log != [] {
      var init, e, now := log[..|log| - 1], Last(log).0, Last(log).1;
      SamplesAreRun(init, r);
      HandleSamples(AfterLog(init), e, now, r);
      RunAppend(SamplePushes(init), SamplePush(e, now), now, r, MAX_SAMPLES);
    }
  }

  lemma {:induction false} ErrorsAreRun(log: Log, r: string)
    ensures DequeOf(AfterLog(log).errors, r) == RunDeque(ErrorPushes(log), r, MAX_ERRORS)
  {
    if log != [] {
      var init, e, now := log[..|log| - 1], Last(log).0, Last(log).1;
      ErrorsAreRun(init, r);
      HandleErrors(AfterLog(init), e, now, r);
      RunAppend(ErrorPushes(init), ErrorPush(AfterLog(init), e, now), now, r, MAX_ERRORS);
    }
  }

  /** The sample deque of a route is exactly the last 1024 of all its samples that are in the window. */
  lemma {:induction false} SamplesMatchLog(log: Log, r: string)
    requires TimeOrdered(log) && log != []
    ensures DequeOf(AfterLog(log).samples, r)
      == WindowOf(History(SamplePushes(log), r), Clock(log) - WINDOW, 1024)
  {
    SamplesAreRun(log, r);
    SamplePushesInTime(log);
    RunMatchesHistory(SamplePushes(log), r, MAX_SAMPLES);
  }

  /** The error deque of a route is exactly the last 256 of all its errors that are in the window. */
  lemma {:induction false} ErrorsMatchLog(log: Log, r: string)
    requires TimeOrdered(log) && log != []
    ensures DequeOf(AfterLog(log).errors, r) == WindowOf(History(ErrorPushes(log), r), Clock(log) - WINDOW, 256)
  {
    ErrorsAreRun(log, r);
    ErrorPushesInTime(log);
    RunMatchesHistory(ErrorPushes(log), r, MAX_ERRORS);
  }

  // ---- Snapshots at any later time ----------------------------------------

  /** Pruning once more, at a later time, gives the window at that time. */
  lemma {:induction false} LaterWindow(m: map<string, seq<Stamped>>, r: string, ps: Pushes, n: nat, at: int, now: int)
    requires InTime(ps, at) && at <= now
    requires DequeOf(m, r) == WindowOf(History(ps, r), at - WINDOW, n)
    ensures DequeOf(PrunedDeques(m, now - WINDOW), r) == WindowOf(History(ps, r), now - WINDOW, n)
  {
    HistoryOrdered(ps, r, at);
    PrunedDequeAt(m, now - WINDOW, r);
    WindowAges(History(ps, r), at - WINDOW, now - WINDOW, n);
  }

  lemma {:induction false} RecentTake(d: seq<Stamped>, cutoff: int, n: nat)
    requires n <= |d| && forall i :: 0 <= i < |d| ==> d[i].at >= cutoff
    ensures Recent(d[..n], cutoff) == d[..n]
  {
    if n > 0 {
      RecentTake(d, cutoff, n - 1);
      assert d[..n][..n - 1] == d[..n - 1] && Last(d[..n]) == d[n - 1];
      assert d[..n] == d[..n - 1] + [d[n - 1]];
    }
  }

  lemma {:induction false} WindowIsRecent(all: seq<Stamped>, cutoff: int, n: nat)
    requires StampsOrdered(all)
    ensures Recent(WindowOf(all, cutoff, n), cutoff) == WindowOf(all, cutoff, n)
  {
    var k := SplitExists(all, cutoff);
    DropOldAt(all, cutoff, k);
    var d := WindowOf(all, cutoff, n);
    RecentTake(d, cutoff, |d|);
    assert d[..|d|] == d;
  }

  /** The samples of a snapshot are the last 1024 of all samples that are in the window at its time. */
  lemma {:induction false} SnapshotSamplesMatchLog(log: Log, r: string, now: int)
    requires TimeOrdered(log) && log != [] && Clock(log) <= now
    ensures SnapshotOf(Pruned(AfterLog(log), now), r, now).samples
      == WindowOf(History(SamplePushes(log), r), now - WINDOW, 1024)
  {
    SamplesMatchLog(log, r);
    SamplePushesInTime(log);
    LaterWindow(AfterLog(log).samples, r, SamplePushes(log), MAX_SAMPLES, Clock(log), now);
  }

  lemma {:induction false} LaterErrors(s: State, r: string, ps: Pushes, at: int, now: int)
    requires InTime(ps, at) && at <= now
    requires DequeOf(s.errors, r) == WindowOf(History(ps, r), at - WINDOW, MAX_ERRORS)
    ensures SnapshotOf(Pruned(s, now), r, now).errors == Reversed(WindowOf(History(ps, r), now - WINDOW, MAX_ERRORS))
  {
    LaterWindow(s.errors, r, ps, MAX_ERRORS, at, now);
    HistoryOrdered(ps, r, at);
    WindowIsRecent(History(ps, r), now - WINDOW, MAX_ERRORS);
  }

  /** The errors of a snapshot are the last 256 of all errors in the window at its time, newest first. */
  lemma {:induction false} SnapshotErrorsMatchLog(log: Log, r: string, now: int)
    requires TimeOrdered(log) && log != [] && Clock(log) <= now
    ensures SnapshotOf(Pruned(AfterLog(log), now), r, now).errors
      == Reversed(WindowOf(History(ErrorPushes(log), r), now - WINDOW, 256))
  {
    ErrorsMatchLog(log, r);
    ErrorPushesInTime(log);
    LaterErrors(AfterLog(log), r, ErrorPushes(log), Clock(log), now);
  }

  // ---- Requests in flight -------------------------------------------------

  /** Every request in flight has the same route and start time in the request-route index. */
  ghost predicate Indexed(s: State) {
    forall q :: q in s.inFlight ==>
      q in s.requestRoutes && s.requestRoutes[q] == (s.inFlight[q].route, s.inFlight[q].startedAt)
  }

  lemma {:induction false} ReactKeepsIndexed(s: State, e: Event, now: int)
    requires Indexed(s)
    ensures Indexed(React(s, e, now))
  {
    var t := React(s, e, now);
    if Starts(s, e).None? && !e.OtherEvent? && e.req in s.inFlight {
      assert e.req in t.inFlight ==>
        && t.inFlight[e.req].route == s.inFlight[e.req].route
        && t.inFlight[e.req].startedAt == s.inFlight[e.req].startedAt;
    }
  }

  lemma {:induction false} HandleKeepsIndexed(s: State, e: Event, now: int)
    requires Indexed(s)
    ensures Indexed(Handle(s, e, now))
  {
    ReactKeepsIndexed(s, e, now);
  }

  /** In every run, whatever the times and the order of events. */
  lemma {:induction false} InFlightIndexed(log: Log)
    ensures Indexed(AfterLog(log))
  {
    if log != [] {
      InFlightIndexed(log[..|log| - 1]);
      HandleKeepsIndexed(AfterLog(log[..|log| - 1]), Last(log).0, Last(log).1);
    }
  }

  lemma {:induction false} PhaseListed(p: Phase)
    ensures p in {Queued} || p in {Preparing, Connecting} || p in {Requesting, Streaming}
  {
  }

  /** The three request lists of a snapshot partition the route's requests in flight. */
  lemma {:induction false} ListsPartition(s: State, r: string, now: int)
    ensures var shot := SnapshotOf(s, r, now);
      && shot.queued !! shot.pending !! shot.active
      && shot.queued + shot.pending + shot.active == set q | q in s.inFlight && s.inFlight[q].route == r
  {
    var shot := SnapshotOf(s, r, now);
    forall q
      ensures q in shot.queued + shot.pending + shot.active <==> q in s.inFlight && s.inFlight[q].route == r
    {
      if q in s.inFlight {
        PhaseListed(s.inFlight[q].phase);
      }
    }
  }

  // ---- A request's life, read off the log ---------------------------------

  /** The event is about this request. */
  predicate About(e: Event, q: string) {
    q != "" && !e.OtherEvent? && e.req == q
  }

  /** The event ends the tracking of its request. */
  predicate Ends(e: Event) {
    e.AdmissionRejected? || e.RequestComplete? || e.ErrorEvent? || e.TerminalEvent?
  }

  /** The event gives its request a route: it starts the request or finds it waiting for admission. */
  predicate Places(e: Event) {
    (e.RouteResolved? || e.AdmissionQueued? || e.AdmissionAcquired?) && e.route.Some?
  }

  function InWindow<T>(x: Option<(T, int)>, now: int): Option<(T, int)> {
    if x.Some? && x.value.1 >= now - WINDOW then x else None
  }

  /**
   The route and the start of a tracked request: resolution always starts it anew, admission
   starts it if it is not tracked, an end stops it, and an hour after its start it is dropped.
   */
  function Tracked(log: Log, q: string): Option<(string, int)> {
    if log == [] then None
    else
      var before, e, now := Tracked(log[..|log| - 1], q), Last(log).0, Last(log).1;
      InWindow(if !About(e, q) then before
               else if Ends(e) then None
               else if Places(e) && (e.RouteResolved? || before.None?) then Some((e.route.value, now))
               else before, now)
  }

  /** The event decides which list its request is in. */
  predicate Decides(e: Event) {
    Places(e) || e.UpstreamConnect? || e.UpstreamConnected? || (e.RequestRoute? && !e.stream)
  }

  /** The latest event about a request that decides its list, and whether a stream was asked for since. */
  function Latest(log: Log, q: string): Option<(Event, bool)> {
    if log == [] then None
    else
      var before, e := Latest(log[..|log| - 1], q), Last(log).0;
      if About(e, q) && Decides(e) then Some((e, false))
      else if About(e, q) && e.RequestRoute? && before.Some? then Some((before.value.0, true))
      else before
  }

  /** Whether the request itself asked for a stream, once it said so since its start. */
  function Asked(log: Log, q: string): Option<bool> {
    if log == [] then None
    else
      var init, e := log[..|log| - 1], Last(log).0;
      if About(e, q) && e.RequestRoute? then Some(e.stream)
      else if About(e, q) && Places(e) && (e.RouteResolved? || Tracked(init, q).None?) then None
      else Asked(init, q)
  }

  /** The phase that the latest deciding event stands for. */
  ghost predicate PhaseSays(phase: Phase, e: Event, askedForStream: bool) {
    && (phase == Queued <==> e.AdmissionQueued?)
    && (phase == Requesting <==> e.RequestRoute?)
    && (phase == Streaming <==> e.UpstreamConnected?)
    && (phase == Preparing <==> (e.RouteResolved? || e.AdmissionAcquired?) && !askedForStream)
  }

  /** A record in flight is what the log says of its request. */
  ghost predicate Reads(r: Option<Request>, tracked: Option<(string, int)>, latest: Option<(Event, bool)>,
                        asked: Option<bool>) {
    && (r.Some? <==> tracked.Some?)
    && (r.Some? ==>
      && (r.value.route, r.value.startedAt) == tracked.value && r.value.stream == asked
      && latest.Some? && PhaseSays(r.value.phase, latest.value.0, latest.value.1))
  }

  /** What one event makes of one request, before pruning. */
  function ReactOne(r: Option<Request>, e: Event, q: string, now: int): Option<Request> {
    if !About(e, q) then r
    else if Places(e) && (e.RouteResolved? || r.None?) then
      Some(Request(e.route.value, now, if e.AdmissionQueued? then Queued else Preparing, None))
    else if r.None? then None
    else Progress(r.value, e)
  }

  lemma {:induction false} ReactInFlightAt(s: State, e: Event, now: int, q: string)
    requires "" !in s.inFlight
    ensures Get(ReactInFlight(s, e, now), q) == ReactOne(Get(s.inFlight, q), e, q, now)
  {
  }

  lemma {:induction false} NoUnnamed(log: Log)
    ensures "" !in AfterLog(log).inFlight
  {
    if log != [] {
      NoUnnamed(log[..|log| - 1]);
    }
  }

  lemma {:induction false} HandleInFlightAt(s: State, e: Event, now: int, q: string)
    requires "" !in s.inFlight
    ensures var r := ReactOne(Get(s.inFlight, q), e, q, now);
      Get(Handle(s, e, now).inFlight, q) == if r.Some? && r.value.startedAt >= now - WINDOW then r else None
  {
    ReactInFlightAt(s, e, now, q);
  }

  lemma {:induction false} ProgressReads(r: Request, tracked: (string, int), latest: (Event, bool),
                                         asked: Option<bool>, e: Event)
    requires Reads(Some(r), Some(tracked), Some(latest), asked) && !e.RouteResolved? && !e.OtherEvent?
    ensures Ends(e) ==> Progress(r, e).None?
    ensures !Ends(e) ==>
      Reads(Progress(r, e), Some(tracked),
            Some(if Decides(e) then (e, false) else if e.RequestRoute? then (latest.0, true) else latest),
            if e.RequestRoute? then Some(e.stream) else asked)
  {
  }

  /**
   A request is in flight exactly when the log says that it is tracked, with the route and the
   start the log gives, in the phase of the latest event that decides it, and as a stream if it
   last asked for one; in every run.
   */
  lemma {:induction false} InFlightReadsLog(log: Log, q: string)
    ensures Reads(Get(AfterLog(log).inFlight, q), Tracked(log, q), Latest(log, q), Asked(log, q))
  {
    if log != [] {
      var init, e, now := log[..|log| - 1], Last(log).0, Last(log).1;
      InFlightReadsLog(init, q);
      NoUnnamed(init);
      HandleInFlightAt(AfterLog(init), e, now, q);
      var r := Get(AfterLog(init).inFlight, q);
      if About(e, q) && r.Some? && !e.RouteResolved? {
        ProgressReads(r.value, Tracked(init, q).value, Latest(init, q).value, Asked(init, q), e);
      }
    }
  }

  /** The request is on its way to an upstream. */
  predicate Pends(e: Event) {
    e.RouteResolved? || e.AdmissionAcquired? || e.UpstreamConnect?
  }

  lemma {:induction false} LatestDecides(log: Log, q: string)
    ensures Latest(log, q).Some? ==> Decides(Latest(log, q).value.0)
  {
    if log != [] {
      LatestDecides(log[..|log| - 1], q);
    }
  }

  /**
   Which list of a snapshot a request is in, if any, is read off the log: it must be tracked for
   the route within the hour, and the latest event that decides it says which.
   */
  lemma {:induction false} ListsReadLog(log: Log, r: string, now: int, q: string)
    ensures var shot, tracked := SnapshotOf(Pruned(AfterLog(log), now), r, now), InWindow(Tracked(log, q), now);
      var here, latest := tracked.Some? && tracked.value.0 == r, Latest(log, q);
      && (here ==> latest.Some?)
      && (q in shot.queued <==> here && latest.value.0.AdmissionQueued?)
      && (q in shot.active <==> here && (latest.value.0.UpstreamConnected? || latest.value.0.RequestRoute?))
      && (q in shot.pending <==> here && Pends(latest.value.0))
  {
    InFlightReadsLog(log, q);
    LatestDecides(log, q);
    var inFlight := Pruned(AfterLog(log), now).inFlight;
    assert Get(inFlight, q) == if InWindow(Tracked(log, q), now).Some? then Get(AfterLog(log).inFlight, q) else None;
    if q in inFlight {
      PhaseListed(inFlight[q].phase);
    }
  }

  // ---- Which events record an error ---------------------------------------

  /** The route and time that the registry remembers for a request, whether or not it is still in flight. */
  function Remembered(log: Log, q: string): Option<(string, int)> {
    if log == [] then None
    else
      var init, e, now := log[..|log| - 1], Last(log).0, Last(log).1;
      InWindow(if About(e, q) && Places(e) && (e.RouteResolved? || Tracked(init, q).None?)
               then Some((e.route.value, now)) else Remembered(init, q), now)
  }

  lemma {:induction false} HandleRoutesAt(s: State, e: Event, now: int, q: string)
    requires "" !in s.inFlight
    ensures Get(Handle(s, e, now).requestRoutes, q)
      == InWindow(if About(e, q) && Places(e) && (e.RouteResolved? || q !in s.inFlight)
                  then Some((e.route.value, now)) else Get(s.requestRoutes, q), now)
  {
  }

  lemma {:induction false} RoutesReadLog(log: Log, q: string)
    ensures Get(AfterLog(log).requestRoutes, q) == Remembered(log, q)
  {
    if log != [] {
      var init := log[..|log| - 1];
      RoutesReadLog(init, q);
      InFlightReadsLog(init, q);
      NoUnnamed(init);
      HandleRoutesAt(AfterLog(init), Last(log).0, Last(log).1, q);
    }
  }

  /** The route an event names, or else the one remembered for its request. */
  function RouteKnown(log: Log, route: Option<string>, req: string): Option<string> {
    if route.Some? then route
    else match Remembered(log, req) case Some((known, _)) => Some(known) case None => None
  }

  lemma {:induction false} NothingForUnnamed(log: Log)
    ensures Remembered(log, "") == None
  {
    if log != [] {
      NothingForUnnamed(log[..|log| - 1]);
    }
  }

  lemma {:induction false} EventRouteReadsLog(log: Log, route: Option<string>, req: string)
    ensures EventRoute(AfterLog(log), route, req) == RouteKnown(log, route, req)
  {
    RoutesReadLog(log, req);
    NothingForUnnamed(log);
  }

  /**
   The errors recorded are exactly the rejections and error events of a known route and the
   completions of a named route that failed, each for that route, with its message and time.
   */
  lemma {:induction false} ErrorsRecorded(log: Log, e: Event, now: int)
    ensures var push := ErrorPush(AfterLog(log), e, now);
      && (e.AdmissionRejected? ==>
            match RouteKnown(log, e.route, e.req)
            case Some(r) => push == Some((r, Stamped(now, "route admission capacity exceeded")))
            case None => push == None)
      && (e.ErrorEvent? ==>
            match RouteKnown(log, e.route, e.req)
            case Some(r) => push == Some((r, Stamped(now, e.message)))
            case None => push == None)
      && (e.RequestComplete? && e.failed && e.route.Some? ==>
            push == Some((e.route.value, Stamped(now, "request completed with finish_reason=error"))))
      && (e.RequestComplete? && (!e.failed || e.route.None?) ==> push == None)
      && (!e.AdmissionRejected? && !e.ErrorEvent? && !e.RequestComplete? ==> push == None)
  {
    if e.AdmissionRejected? || e.ErrorEvent? {
      EventRouteReadsLog(log, e.route, e.req);
    }
  }
}
