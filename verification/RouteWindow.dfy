/**
 The one-hour operational view per route (`RouteStatusRegistry`). Times are nanoseconds;
 an absent request id is the empty string.
 */
module RouteWindow {
  import opened Common

  const MINUTE: int := 60_000_000_000
  const WINDOW: int := 60 * MINUTE
  const WINDOW_MINUTES: nat := 60
  const MAX_SAMPLES: nat := 1024
  const MAX_ERRORS: nat := 256

  function Minute(t: int): int {
    t / MINUTE
  }

  datatype Phase = Queued | Preparing | Connecting | Requesting | Streaming

  datatype Request = Request(route: string, startedAt: int, phase: Phase, stream: Option<bool>)

  datatype Stamped = Stamped(at: int, payload: string)

  /** The runtime events the registry reacts to; a route is the trimmed text, if any. */
  datatype Event =
    | RouteResolved(route: Option<string>, req: string)
    | AdmissionQueued(route: Option<string>, req: string)
    | AdmissionAcquired(route: Option<string>, req: string)
    | AdmissionRejected(route: Option<string>, req: string)
    | RequestRoute(req: string, stream: bool)
    | UpstreamConnect(req: string)
    | UpstreamConnected(req: string)
    | RequestComplete(route: Option<string>, req: string, sample: string, failed: bool)
    | ErrorEvent(route: Option<string>, req: string, message: string)
    | TerminalEvent(req: string)
    | OtherEvent

  type Buckets = map<int, nat>

  datatype State = State(
    activity: map<string, Buckets>,
    samples: map<string, seq<Stamped>>,
    errors: map<string, seq<Stamped>>,
    requestRoutes: map<string, (string, int)>,
    inFlight: map<string, Request>)

  const EMPTY := State(map[], map[], map[], map[], map[])

  // ---- Bounded deques and buckets -----------------------------------------

  function DequeOf(m: map<string, seq<Stamped>>, r: string): seq<Stamped> {
    if r in m then m[r] else []
  }

  function BucketsOf(m: map<string, Buckets>, r: string): Buckets {
    if r in m then m[r] else map[]
  }

  function BucketAt(m: map<string, Buckets>, r: string, minute: int): nat {
    var b := BucketsOf(m, r);
    if minute in b then b[minute] else 0
  }

  /** The last `n` elements. */
  function LastN<T>(s: seq<T>, n: nat): seq<T> {
    if |s| <= n then s else s[|s| - n..]
  }

  /** `append` on a deque with a maximum length. */
  function PushBounded(d: seq<Stamped>, x: Stamped, n: nat): seq<Stamped> {
    LastN(d + [x], n)
  }

  /** What is left after taking old elements from the left. */
  function DropOld(d: seq<Stamped>, cutoff: int): seq<Stamped> {
    if d != [] && d[0].at < cutoff then DropOld(d[1..], cutoff) else d
  }

  /** The elements that are recent, wherever they stand. */
  function Recent(d: seq<Stamped>, cutoff: int): seq<Stamped> {
    if d == [] then [] else Recent(d[..|d| - 1], cutoff) + (if Last(d).at >= cutoff then [Last(d)] else [])
  }

  function KeptBuckets(b: Buckets, cutoffMinute: int): Buckets {
    map m | m in b && m >= cutoffMinute :: b[m]
  }

  // ---- One event as a function --------------------------------------------

  function EventRoute(s: State, route: Option<string>, req: string): Option<string> {
    if route.Some? then route
    else if req != "" && req in s.requestRoutes then Some(s.requestRoutes[req].0)
    else None
  }

  /** The error an event records, with its route. */
  function ErrorOf(s: State, e: Event): Option<(string, string)> {
    match e
    case AdmissionRejected(route, req) =>
      var r := EventRoute(s, route, req);
      if r.Some? then Some((r.value, "route admission capacity exceeded")) else None
    case RequestComplete(route, _, _, failed) =>
      if route.Some? && failed then Some((route.value, "request completed with finish_reason=error")) else None
    case ErrorEvent(route, req, message) =>
      var r := EventRoute(s, route, req);
      if r.Some? then Some((r.value, message)) else None
    case _ => None
  }

  function CountOne(m: map<string, Buckets>, r: string, minute: int): map<string, Buckets> {
    m[r := BucketsOf(m, r)[minute := BucketAt(m, r, minute) + 1]]
  }

  function Push(m: map<string, seq<Stamped>>, r: string, x: Stamped, n: nat): map<string, seq<Stamped>> {
    m[r := PushBounded(DequeOf(m, r), x, n)]
  }

  function ReactActivity(s: State, e: Event, now: int): map<string, Buckets> {
    if e.RouteResolved? && e.route.Some? then CountOne(s.activity, e.route.value, Minute(now)) else s.activity
  }

  function ReactSamples(s: State, e: Event, now: int): map<string, seq<Stamped>> {
    if e.RequestComplete? && e.route.Some?
    then Push(s.samples, e.route.value, Stamped(now, e.sample), MAX_SAMPLES) else s.samples
  }

  function ReactErrors(s: State, e: Event, now: int): map<string, seq<Stamped>> {
    var error := ErrorOf(s, e);
    if error.Some? then Push(s.errors, error.value.0, Stamped(now, error.value.1), MAX_ERRORS) else s.errors
  }

  /** The request whose tracking an event starts, with its route. */
  function Starts(s: State, e: Event): Option<string> {
    match e
    case RouteResolved(route, req) => if req != "" then route else None
    case AdmissionQueued(route, req) => if req != "" && req !in s.inFlight then route else None
    case AdmissionAcquired(route, req) => if req != "" && req !in s.inFlight then route else None
    case _ => None
  }

  function ReactRoutes(s: State, e: Event, now: int): map<string, (string, int)> {
    if Starts(s, e).Some? then s.requestRoutes[e.req := (Starts(s, e).value, now)] else s.requestRoutes
  }

  /** How an event changes a request that is in flight; None ends it. */
  function Progress(q: Request, e: Event): Option<Request> {
    match e
    case AdmissionQueued(route, _) => Some(if route.Some? then q.(phase := Queued) else q)
    case AdmissionAcquired(route, _) => Some(if route.Some? then q.(phase := Preparing) else q)
    case RequestRoute(_, stream) =>
      Some(q.(stream := Some(stream),
              phase := if !stream then Requesting else if q.phase == Preparing then Connecting else q.phase))
    case UpstreamConnect(_) => Some(q.(phase := Connecting))
    case UpstreamConnected(_) => Some(q.(phase := Streaming))
    case RouteResolved(_, _) => Some(q)
    case OtherEvent => Some(q)
    case _ => None
  }

  function ReactInFlight(s: State, e: Event, now: int): map<string, Request> {
    if Starts(s, e).Some? then
      s.inFlight[e.req := Request(Starts(s, e).value, now, if e.AdmissionQueued? then Queued else Preparing, None)]
    else if e.OtherEvent? || e.req == "" || e.req !in s.inFlight then s.inFlight
    else if Progress(s.inFlight[e.req], e).None? then s.inFlight - {e.req}
    else s.inFlight[e.req := Progress(s.inFlight[e.req], e).value]
  }

  /** What an event does before pruning. */
  function React(s: State, e: Event, now: int): State {
    State(ReactActivity(s, e, now), ReactSamples(s, e, now), ReactErrors(s, e, now),
          ReactRoutes(s, e, now), ReactInFlight(s, e, now))
  }

  function PrunedDeques(m: map<string, seq<Stamped>>, cutoff: int): map<string, seq<Stamped>> {
    map r | r in m && DropOld(m[r], cutoff) != [] :: DropOld(m[r], cutoff)
  }

  function PrunedActivity(m: map<string, Buckets>, cutoffMinute: int): map<string, Buckets> {
    map r | r in m && KeptBuckets(m[r], cutoffMinute) != map[] :: KeptBuckets(m[r], cutoffMinute)
  }

  function Pruned(s: State, now: int): State {
    var cutoff := now - WINDOW;
    State(
      PrunedActivity(s.activity, Minute(cutoff)),
      PrunedDeques(s.samples, cutoff),
      PrunedDeques(s.errors, cutoff),
      map q | q in s.requestRoutes && s.requestRoutes[q].1 >= cutoff :: s.requestRoutes[q],
      map q | q in s.inFlight && s.inFlight[q].startedAt >= cutoff :: s.inFlight[q])
  }

  function Handle(s: State, e: Event, now: int): State {
    Pruned(React(s, e, now), now)
  }

  datatype Snapshot = Snapshot(
    activity: seq<nat>, errors: seq<Stamped>, samples: seq<Stamped>,
    queued: set<string>, pending: set<string>, active: set<string>)

  function Reversed<T>(s: seq<T>): seq<T> {
    if s == [] then [] else Reversed(s[1..]) + [s[0]]
  }

  function RequestsInPhase(s: State, r: string, phases: set<Phase>): set<string> {
    set q | q in s.inFlight && s.inFlight[q].route == r && s.inFlight[q].phase in phases
  }

  /** What the dashboard sees of a state that has just been pruned. */
  function SnapshotOf(s: State, r: string, now: int): Snapshot {
    Snapshot(
      seq<nat>(WINDOW_MINUTES, i requires 0 <= i < WINDOW_MINUTES =>
        BucketAt(s.activity, r, Minute(now) - (WINDOW_MINUTES - 1) + i)),
      Reversed(Recent(DequeOf(s.errors, r), now - WINDOW)),
      DequeOf(s.samples, r),
      RequestsInPhase(s, r, {Queued}),
      RequestsInPhase(s, r, {Preparing, Connecting}),
      RequestsInPhase(s, r, {Requesting, Streaming}))
  }

  // ---- The registry -------------------------------------------------------

  class RouteStatusRegistry {
    var activity: map<string, Buckets>
    var samples: map<string, seq<Stamped>>
    var errors: map<string, seq<Stamped>>
    var requestRoutes: map<string, (string, int)>
    var inFlight: map<string, Request>

    constructor ()
      ensures View() == EMPTY
    {
      activity, samples, errors, requestRoutes, inFlight := map[], map[], map[], map[], map[];
    }

    ghost function View(): State
      reads this
    {
      State(activity, samples, errors, requestRoutes, inFlight)
    }

    method PruneBuckets(b: Buckets, cutoffMinute: int) returns (kept: Buckets)
      ensures kept == KeptBuckets(b, cutoffMinute)
    {
      kept := b;
      var todo := b.Keys;
      while exists m :: m in todo
        invariant todo <= b.Keys
        invariant kept == map m | m in b && (m in todo || m >= cutoffMinute) :: b[m]
        decreases todo
      {
        var m :| m in todo;
        todo := todo - {m};
        if m < cutoffMinute {
          kept := kept - {m};
        }
      }
    }

    method PruneDeque(d: seq<Stamped>, cutoff: int) returns (kept: seq<Stamped>)
      ensures kept == DropOld(d, cutoff)
    {
      kept := d;
      while kept != [] && kept[0].at < cutoff
        invariant DropOld(d, cutoff) == DropOld(kept, cutoff)
      {
        kept := kept[1..];
      }
    }

    method PruneDeques(m: map<string, seq<Stamped>>, cutoff: int) returns (kept: map<string, seq<Stamped>>)
      ensures kept == PrunedDeques(m, cutoff)
    {
      kept := m;
      var todo := m.Keys;
      while exists r :: r in todo
        invariant todo <= m.Keys
        invariant kept == map r | r in m && (r in todo || DropOld(m[r], cutoff) != []) ::
          if r in todo then m[r] else DropOld(m[r], cutoff)
        decreases todo
      {
        var r :| r in todo;
        todo := todo - {r};
        var d := PruneDeque(kept[r], cutoff);
        kept := if d == [] then kept - {r} else kept[r := d];
      }
    }

    method PruneActivity(m: map<string, Buckets>, cutoffMinute: int) returns (kept: map<string, Buckets>)
      ensures kept == PrunedActivity(m, cutoffMinute)
    {
      kept := m;
      var todo := m.Keys;
      while exists r :: r in todo
        invariant todo <= m.Keys
        invariant kept == map r | r in m && (r in todo || KeptBuckets(m[r], cutoffMinute) != map[]) ::
          if r in todo then m[r] else KeptBuckets(m[r], cutoffMinute)
        decreases todo
      {
        var r :| r in todo;
        todo := todo - {r};
        var b := PruneBuckets(kept[r], cutoffMinute);
        kept := if b == map[] then kept - {r} else kept[r := b];
      }
    }

    method PruneRequestRoutes(cutoff: int)
      modifies this`requestRoutes
      ensures requestRoutes
        == map q | q in old(requestRoutes) && old(requestRoutes)[q].1 >= cutoff :: old(requestRoutes)[q]
    {
      ghost var before := requestRoutes;
      var todo := requestRoutes.Keys;
      while exists q :: q in todo
        invariant todo <= before.Keys
        invariant requestRoutes == map q | q in before && (q in todo || before[q].1 >= cutoff) :: before[q]
        decreases todo
      {
        var q :| q in todo;
        todo := todo - {q};
        if requestRoutes[q].1 < cutoff {
          requestRoutes := requestRoutes - {q};
        }
      }
    }

    method PruneInFlight(cutoff: int)
      modifies this`inFlight
      ensures inFlight == map q | q in old(inFlight) && old(inFlight)[q].startedAt >= cutoff :: old(inFlight)[q]
    {
      ghost var before := inFlight;
      var todo := inFlight.Keys;
      while exists q :: q in todo
        invariant todo <= before.Keys
        invariant inFlight == map q | q in before && (q in todo || before[q].startedAt >= cutoff) :: before[q]
        decreases todo
      {
        var q :| q in todo;
        todo := todo - {q};
        if inFlight[q].startedAt < cutoff {
          inFlight := inFlight - {q};
        }
      }
    }

    method Prune(now: int)
      modifies this
      ensures View() == Pruned(old(View()), now)
    {
      var cutoff := now - WINDOW;
      activity := PruneActivity(activity, Minute(cutoff));
      samples := PruneDeques(samples, cutoff);
      errors := PruneDeques(errors, cutoff);
      PruneRequestRoutes(cutoff);
      PruneInFlight(cutoff);
    }

    method SetPhase(req: string, phase: Phase)
      modifies this`inFlight
      ensures inFlight == if req != "" && req in old(inFlight)
                          then old(inFlight)[req := old(inFlight)[req].(phase := phase)] else old(inFlight)
    {
      if req == "" || req !in inFlight {
        return;
      }
      inFlight := inFlight[req := inFlight[req].(phase := phase)];
    }

    method SetAdmissionState(event: Event, route: Option<string>, req: string, now: int, phase: Phase)
      requires event == (if phase == Queued then AdmissionQueued(route, req) else AdmissionAcquired(route, req))
      requires phase == Queued || phase == Preparing
      modifies this`inFlight, this`requestRoutes
      ensures inFlight == ReactInFlight(old(View()), event, now)
      ensures requestRoutes == ReactRoutes(old(View()), event, now)
    {
      if req == "" || route.None? {
        return;
      }
      if req !in inFlight {
        requestRoutes := requestRoutes[req := (route.value, now)];
        inFlight := inFlight[req := Request(route.value, now, phase, None)];
      } else {
        inFlight := inFlight[req := inFlight[req].(phase := phase)];
      }
    }

    method MarkRequestStarted(req: string, stream: bool)
      modifies this`inFlight
      ensures forall now :: inFlight == ReactInFlight(old(View()), RequestRoute(req, stream), now)
    {
      if req == "" || req !in inFlight {
        return;
      }
      var request := inFlight[req].(stream := Some(stream));
      if !stream {
        request := request.(phase := Requesting);
      } else if request.phase == Preparing {
        request := request.(phase := Connecting);
      }
      inFlight := inFlight[req := request];
    }

    method PopInFlight(req: string)
      modifies this`inFlight
      ensures inFlight == if req != "" && req in old(inFlight) then old(inFlight) - {req} else old(inFlight)
    {
      if req != "" && req in inFlight {
        inFlight := inFlight - {req};
      }
    }

    method AppendError(route: Option<string>, message: string, now: int)
      modifies this`errors
      ensures errors == if route.Some? then Push(old(errors), route.value, Stamped(now, message), MAX_ERRORS)
                        else old(errors)
    {
      if route.Some? {
        errors := errors[route.value := PushBounded(DequeOf(errors, route.value), Stamped(now, message), MAX_ERRORS)];
      }
    }

    method RouteOf(route: Option<string>, req: string) returns (r: Option<string>)
      ensures r == EventRoute(View(), route, req)
    {
      if route.Some? {
        return route;
      }
      if req != "" && req in requestRoutes {
        return Some(requestRoutes[req].0);
      }
      return None;
    }

    method Resolve(route: Option<string>, req: string, now: int)
      modifies this
      ensures View() == React(old(View()), RouteResolved(route, req), now)
    {
      if route.Some? {
        var r, minute := route.value, Minute(now);
        var buckets := BucketsOf(activity, r);
        activity := activity[r := buckets[minute := (if minute in buckets then buckets[minute] else 0) + 1]];
        if req != "" {
          requestRoutes := requestRoutes[req := (r, now)];
          inFlight := inFlight[req := Request(r, now, Preparing, None)];
        }
      }
    }

    method Reject(route: Option<string>, req: string, now: int)
      modifies this
      ensures View() == React(old(View()), AdmissionRejected(route, req), now)
    {
      var r := RouteOf(route, req);
      AppendError(r, "route admission capacity exceeded", now);
      PopInFlight(req);
    }

    method Complete(route: Option<string>, req: string, sample: string, failed: bool, now: int)
      modifies this
      ensures View() == React(old(View()), RequestComplete(route, req, sample, failed), now)
    {
      if route.Some? {
        var r := route.value;
        samples := samples[r := PushBounded(DequeOf(samples, r), Stamped(now, sample), MAX_SAMPLES)];
        if failed {
          AppendError(route, "request completed with finish_reason=error", now);
        }
      }
      PopInFlight(req);
    }

    method RecordError(route: Option<string>, req: string, message: string, now: int)
      modifies this
      ensures View() == React(old(View()), ErrorEvent(route, req, message), now)
    {
      var r := RouteOf(route, req);
      AppendError(r, message, now);
      PopInFlight(req);
    }

    /** The branch of an event, before pruning. */
    method Dispatch(event: Event, now: int)
      modifies this
      ensures View() == React(old(View()), event, now)
    {
      match event {
        case RouteResolved(route, req) => Resolve(route, req, now);
        case AdmissionQueued(route, req) => SetAdmissionState(event, route, req, now, Queued);
        case AdmissionAcquired(route, req) => SetAdmissionState(event, route, req, now, Preparing);
        case AdmissionRejected(route, req) => Reject(route, req, now);
        case RequestRoute(req, stream) => MarkRequestStarted(req, stream);
        case UpstreamConnect(req) => SetPhase(req, Connecting);
        case UpstreamConnected(req) => SetPhase(req, Streaming);
        case RequestComplete(route, req, sample, failed) => Complete(route, req, sample, failed, now);
        case ErrorEvent(route, req, message) => RecordError(route, req, message, now);
        case TerminalEvent(req) => PopInFlight(req);
        case OtherEvent =>
      }
    }

    /** Consume one runtime event. */
    method HandleEvent(event: Event, now: int)
      modifies this
      ensures View() == Handle(old(View()), event, now)
    {
      Dispatch(event, now);
      Prune(now);
    }

    method TakeSnapshot(route: string, now: int) returns (shot: Snapshot)
      modifies this
      ensures View() == Pruned(old(View()), now)
      ensures shot == SnapshotOf(View(), route, now)
    {
      Prune(now);
      var counts: seq<nat> := [];
      var first := Minute(now) - (WINDOW_MINUTES - 1);
      for i := 0 to WINDOW_MINUTES
        invariant |counts| == i && forall j :: 0 <= j < i ==> counts[j] == BucketAt(activity, route, first + j)
      {
        var buckets := BucketsOf(activity, route);
        counts := counts + [if first + i in buckets then buckets[first + i] else 0];
      }
      var s := State(activity, samples, errors, requestRoutes, inFlight);
      shot := Snapshot(counts, Reversed(Recent(DequeOf(errors, route), now - WINDOW)), DequeOf(samples, route),
                       RequestsInPhase(s, route, {Queued}),
                       RequestsInPhase(s, route, {Preparing, Connecting}),
                       RequestsInPhase(s, route, {Requesting, Streaming}));
    }
  }
}
