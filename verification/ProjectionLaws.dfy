/** What holds of the queued projectors after every run of emissions and worker steps. */
module ProjectionLaws {
  import opened Common
  import opened Projection

  // ---- Reading a history --------------------------------------------------

  function AcceptedIn(h: seq<Entry>): seq<Event> {
    if h == [] then [] else AcceptedIn(h[..|h| - 1]) + (if Last(h).Accepted? then [Last(h).event] else [])
  }

  function TakenIn(h: seq<Entry>): seq<Event> {
    if h == [] then [] else TakenIn(h[..|h| - 1]) + (if Last(h).Taken? then [Last(h).event] else [])
  }

  /** The events handed to the projector's formatter and sinks. */
  function DeliveredIn(h: seq<Entry>): seq<Event> {
    if h == [] then [] else DeliveredIn(h[..|h| - 1]) + (if Last(h).Finished? then [Last(h).event] else [])
  }

  function DroppedIn(h: seq<Entry>): seq<Event> {
    if h == [] then [] else DroppedIn(h[..|h| - 1]) + (if Last(h).Dropped? then [Last(h).event] else [])
  }

  function NoticesIn(h: seq<Entry>): seq<Event> {
    if h == [] then [] else NoticesIn(h[..|h| - 1]) + (if Last(h).Noticed? then [Last(h).event] else [])
  }

  /** A notice was raised and no worker step has since finished with room. */
  function Pending(h: seq<Entry>): bool {
    if h == [] then false
    else if Last(h).Noticed? then true
    else Pending(h[..|h| - 1]) && !(Last(h).Finished? && Last(h).room)
  }

  /** The entries that can come next in a history. */
  predicate Fits(h: seq<Entry>, x: Entry, c: Config) {
    var waiting := |AcceptedIn(h)| - |TakenIn(h)|;
    && (h != [] && Last(h).Dropped? && !Pending(h) ==> x.Noticed?)
    && match x
       case Accepted(e) => Wants(c, e) && waiting < Capacity(c)
       case Dropped(e) => Wants(c, e) && waiting == Capacity(c)
       case Noticed(e) => !Pending(h) && h != [] && Last(h).Dropped? && e == Notice(c, |DroppedIn(h)|)
       case Taken(e) =>
         DeliveredIn(h) == TakenIn(h) && waiting > 0 && e == AcceptedIn(h)[|TakenIn(h)|]
       case Finished(e, room) => DeliveredIn(h) + [e] == TakenIn(h) && (room <==> waiting < Capacity(c))
  }

  predicate Legal(h: seq<Entry>, c: Config) {
    h == [] || (Legal(h[..|h| - 1], c) && Fits(h[..|h| - 1], Last(h), c))
  }

  function Flight(o: Option<Event>): seq<Event> {
    if o.Some? then [o.value] else []
  }

  /** The queue is what its history says: nothing accepted is lost, reordered or doubled. */
  predicate Consistent(q: Queue) {
    && Legal(q.history, q.config)
    && TakenIn(q.history) == DeliveredIn(q.history) + Flight(q.inFlight)
    && AcceptedIn(q.history) == DeliveredIn(q.history) + Flight(q.inFlight) + q.queued
    && |q.queued| <= Capacity(q.config)
    && q.dropped == |DroppedIn(q.history)|
    && q.noticePending == Pending(q.history)
    && (q.history != [] && Last(q.history).Dropped? ==> q.noticePending)
  }

  /** One more entry, seen by every reading of the history. */
  lemma {:induction false} Appended(h: seq<Entry>, x: Entry)
    ensures h <= h + [x] && h + [x] != [] && Last(h + [x]) == x
    ensures AcceptedIn(h + [x]) == AcceptedIn(h) + (if x.Accepted? then [x.event] else [])
    ensures TakenIn(h + [x]) == TakenIn(h) + (if x.Taken? then [x.event] else [])
    ensures DeliveredIn(h + [x]) == DeliveredIn(h) + (if x.Finished? then [x.event] else [])
    ensures DroppedIn(h + [x]) == DroppedIn(h) + (if x.Dropped? then [x.event] else [])
    ensures NoticesIn(h + [x]) == NoticesIn(h) + (if x.Noticed? then [x.event] else [])
    ensures Pending(h + [x]) == (x.Noticed? || (Pending(h) && !(x.Finished? && x.room)))
    ensures forall c :: Legal(h + [x], c) <==> Legal(h, c) && Fits(h, x, c)
  {
    assert (h + [x])[..|h|] == h;
  }

  // ---- One queue, one emission --------------------------------------------

  /** What emissions can do to a queue: at most one notice, and one exactly when the first drop needs it. */
  ghost predicate Grown(q: Queue, r: Queue) {
    && r.config == q.config && r.inFlight == q.inFlight
    && q.queued <= r.queued && q.history <= r.history
    && |DroppedIn(r.history)| >= |DroppedIn(q.history)|
    && (r.noticePending <==> q.noticePending || |DroppedIn(r.history)| > |DroppedIn(q.history)|)
    && |NoticesIn(r.history)| == |NoticesIn(q.history)| + (if r.noticePending && !q.noticePending then 1 else 0)
    && (Consistent(q) ==> Consistent(r))
  }

  lemma {:induction false} GrownOnward(q: Queue, r: Queue, s: Queue)
    requires Grown(q, r) && Grown(r, s)
    ensures Grown(q, s)
  {
  }

  /** What a queue does with an event when it raises no notice. */
  function Quietly(q: Queue, e: Event): Queue {
    if !Wants(q.config, e) then q else if |q.queued| < Capacity(q.config) then Accept(q, e) else Drop(q, e)
  }

  predicate Overflows(q: Queue, e: Event) {
    Wants(q.config, e) && |q.queued| >= Capacity(q.config) && !q.noticePending
  }

  lemma {:induction false} OfferedQuietly<K>(reg: Registry<K>, traceAll: bool, to: K, m: map<K, Queue>, e: Event)
    requires Covers(reg, m.Keys) && to in m && !Overflows(m[to], e)
    ensures Offered(reg, traceAll, to, m, e) == m[to := Quietly(m[to], e)]
  {
  }

  lemma {:induction false} AcceptGrows(q: Queue, e: Event)
    requires Wants(q.config, e) && |q.queued| < Capacity(q.config)
    ensures Grown(q, Accept(q, e))
  {
    Appended(q.history, Accepted(e));
  }

  lemma {:induction false} DropGrows(q: Queue, e: Event)
    requires Wants(q.config, e) && |q.queued| >= Capacity(q.config) && q.noticePending
    ensures Grown(q, Drop(q, e))
  {
    Appended(q.history, Dropped(e));
  }

  lemma {:induction false} GrownSame(q: Queue)
    ensures Grown(q, q)
  {
  }

  lemma {:induction false} QuietlyGrows(q: Queue, e: Event)
    requires !Overflows(q, e)
    ensures Grown(q, Quietly(q, e))
  {
    if !Wants(q.config, e) {
      GrownSame(q);
    } else if |q.queued| < Capacity(q.config) {
      AcceptGrows(q, e);
    } else {
      DropGrows(q, e);
    }
  }

  lemma {:induction false} NoticeGrows(q: Queue, e: Event)
    requires Overflows(q, e)
    ensures Grown(q, RaiseNotice(Drop(q, e)))
  {
    var h := q.history;
    Appended(h, Dropped(e));
    Appended(h + [Dropped(e)], Noticed(Notice(q.config, q.dropped + 1)));
  }

  /** The overflow cascade of one emission: every queue grows by it, with at most one notice each. */
  lemma {:induction false} EmittedGrows<K>(reg: Registry<K>, traceAll: bool, m: map<K, Queue>, e: Event, k: K)
    requires Covers(reg, m.Keys) && k in m
    ensures Grown(m[k], Emitted(reg, traceAll, m, e)[k])
    decreases Quiet(m), 2, 0
  {
    MatchingCovered(reg, traceAll, e.kind, m.Keys);
    DeliveredGrows(reg, traceAll, Matching(reg, traceAll, e.kind), m, e, k);
  }

  lemma {:induction false} DeliveredGrows<K>(reg: Registry<K>, traceAll: bool, ks: seq<K>, m: map<K, Queue>,
                                             e: Event, k: K)
    requires Covers(reg, m.Keys) && (forall i :: 0 <= i < |ks| ==> ks[i] in m.Keys) && k in m
    ensures Grown(m[k], Delivered(reg, traceAll, ks, m, e)[k])
    decreases Quiet(m), 1, |ks|
  {
    if ks == [] {
      GrownSame(m[k]);
    } else {
      var r := Offered(reg, traceAll, ks[0], m, e);
      OfferedGrows(reg, traceAll, ks[0], m, e, k);
      DeliveredGrows(reg, traceAll, ks[1..], r, e, k);
      GrownOnward(m[k], r[k], Delivered(reg, traceAll, ks[1..], r, e)[k]);
    }
  }

  lemma {:induction false} OfferedGrows<K>(reg: Registry<K>, traceAll: bool, to: K, m: map<K, Queue>, e: Event, k: K)
    requires Covers(reg, m.Keys) && to in m && k in m
    ensures Grown(m[k], Offered(reg, traceAll, to, m, e)[k])
    decreases Quiet(m), 0, 0
  {
    var q := m[to];
    GrownSame(m[k]);
    if Overflows(q, e) {
      var raised := RaiseNotice(Drop(q, e));
      NoticeGrows(q, e);
      QuietShrinks(m, to, raised);
      EmittedGrows(reg, traceAll, m[to := raised], Notice(q.config, raised.dropped), k);
      GrownOnward(m[k], m[to := raised][k], Offered(reg, traceAll, to, m, e)[k]);
    } else {
      QuietlyGrows(q, e);
      OfferedQuietly(reg, traceAll, to, m, e);
    }
  }

  lemma {:induction false} EmittedKeeps<K>(reg: Registry<K>, traceAll: bool, m: map<K, Queue>, e: Event, k: K)
    requires Covers(reg, m.Keys) && k in m
    ensures var r := Emitted(reg, traceAll, m, e);
      m[k].history <= r[k].history && r[k].config == m[k].config && (Consistent(m[k]) ==> Consistent(r[k]))
  {
    EmittedGrows(reg, traceAll, m, e, k);
  }

  lemma {:induction false} DeliveredKeeps<K>(reg: Registry<K>, traceAll: bool, ks: seq<K>, m: map<K, Queue>,
                                             e: Event, k: K)
    requires Covers(reg, m.Keys) && (forall i :: 0 <= i < |ks| ==> ks[i] in m.Keys) && k in m
    ensures m[k].history <= Delivered(reg, traceAll, ks, m, e)[k].history
  {
    DeliveredGrows(reg, traceAll, ks, m, e, k);
  }

  lemma {:induction false} OfferedKeeps<K>(reg: Registry<K>, traceAll: bool, to: K, m: map<K, Queue>, e: Event, k: K)
    requires Covers(reg, m.Keys) && to in m && k in m
    ensures var r := Offered(reg, traceAll, to, m, e);
      m[k].history <= r[k].history && r[k].config == m[k].config
  {
    OfferedGrows(reg, traceAll, to, m, e, k);
  }

  // ---- Notices ------------------------------------------------------------

  lemma {:induction false} PendingSince(h: seq<Entry>, i: nat)
    requires i < |h| && h[i].Noticed? && !Pending(h)
    ensures exists k :: i < k < |h| && h[k].Finished? && h[k].room
  {
    var last := |h| - 1;
    if !(Last(h).Finished? && Last(h).room) {
      PendingSince(h[..last], i);
      var k :| i < k < last && h[..last][k].Finished? && h[..last][k].room;
      assert h[k].Finished? && h[k].room;
    } else {
      assert i < last && h[last].Finished?;
    }
  }

  /** Between two notices of one projector a worker step finished with room in the queue. */
  lemma {:induction false} NoticesSpaced(h: seq<Entry>, c: Config, i: nat, j: nat)
    requires Legal(h, c) && i < j < |h| && h[i].Noticed? && h[j].Noticed?
    ensures exists k :: i < k < j && h[k].Finished? && h[k].room
  {
    if j < |h| - 1 {
      NoticesSpaced(h[..|h| - 1], c, i, j);
    } else {
      PendingSince(h[..j], i);
    }
  }

  // ---- Every offer is accounted for ---------------------------------------

  /** How often an event was accepted or dropped. */
  function OffersOf(h: seq<Entry>, x: Event): nat {
    if h == [] then 0
    else OffersOf(h[..|h| - 1], x) + (if Last(h) == Accepted(x) || Last(h) == Dropped(x) then 1 else 0)
  }

  function Occurs<T(==)>(s: seq<T>, x: T): nat {
    if s == [] then 0 else (if s[0] == x then 1 else 0) + Occurs(s[1..], x)
  }

  lemma {:induction false} OccursAppend<T>(s: seq<T>, t: seq<T>, x: T)
    ensures Occurs(s + t, x) == Occurs(s, x) + Occurs(t, x)
  {
    if s == [] {
      assert s + t == t;
    } else {
      assert (s + t)[1..] == s[1..] + t;
      OccursAppend(s[1..], t, x);
    }
  }

  lemma {:induction false} OffersAppend(h: seq<Entry>, y: Entry, x: Event)
    ensures OffersOf(h + [y], x) == OffersOf(h, x) + (if y == Accepted(x) || y == Dropped(x) then 1 else 0)
  {
    assert (h + [y])[..|h|] == h;
  }

  // ---- The notices of one emission ----------------------------------------

  /** The notices that an emission raises on the way, in order, each with the projector that raised it. */
  ghost function EmittedNotices<K>(reg: Registry<K>, traceAll: bool, m: map<K, Queue>, e: Event): seq<(K, Event)>
    requires Covers(reg, m.Keys)
    decreases Quiet(m), 2, 0
  {
    MatchingCovered(reg, traceAll, e.kind, m.Keys);
    DeliveredNotices(reg, traceAll, Matching(reg, traceAll, e.kind), m, e)
  }

  ghost function DeliveredNotices<K>(reg: Registry<K>, traceAll: bool, ks: seq<K>, m: map<K, Queue>, e: Event)
    : seq<(K, Event)>
    requires Covers(reg, m.Keys) && forall i :: 0 <= i < |ks| ==> ks[i] in m.Keys
    decreases Quiet(m), 1, |ks|
  {
    if ks == [] then []
    else
      OfferedNotices(reg, traceAll, ks[0], m, e)
      + DeliveredNotices(reg, traceAll, ks[1..], Offered(reg, traceAll, ks[0], m, e), e)
  }

  ghost function OfferedNotices<K>(reg: Registry<K>, traceAll: bool, to: K, m: map<K, Queue>, e: Event): seq<(K, Event)>
    requires Covers(reg, m.Keys) && to in m
    decreases Quiet(m), 0, 0
  {
    if !Overflows(m[to], e) then []
    else
      var raised := RaiseNotice(Drop(m[to], e));
      var notice := Notice(raised.config, raised.dropped);
      QuietShrinks(m, to, raised);
      [(to, notice)] + EmittedNotices(reg, traceAll, m[to := raised], notice)
  }

  /** The notices of one projector among those raised. */
  function RaisedBy<K(==)>(raised: seq<(K, Event)>, k: K): seq<Event> {
    if raised == [] then []
    else if raised[0].0 == k then [raised[0].1] + RaisedBy(raised[1..], k)
    else RaisedBy(raised[1..], k)
  }

  lemma {:induction false} RaisedByCons<K>(to: K, n: Event, rest: seq<(K, Event)>, k: K)
    ensures RaisedBy([(to, n)] + rest, k) == if to == k then [n] + RaisedBy(rest, k) else RaisedBy(rest, k)
  {
    assert ([(to, n)] + rest)[1..] == rest;
  }

  lemma {:induction false} JoinEvents(xs: seq<Event>, ys: seq<Event>, zs: seq<Event>)
    ensures xs + (ys + zs) == xs + ys + zs
  {
  }

  lemma {:induction false} RaisedByAppend<K>(xs: seq<(K, Event)>, ys: seq<(K, Event)>, k: K)
    ensures RaisedBy(xs + ys, k) == RaisedBy(xs, k) + RaisedBy(ys, k)
  {
    if xs == [] {
      assert xs + ys == ys;
    } else {
      assert (xs + ys)[1..] == xs[1..] + ys;
      RaisedByAppend(xs[1..], ys, k);
      RaisedByCons(xs[0].0, xs[0].1, xs[1..] + ys, k);
      assert xs + ys == [(xs[0].0, xs[0].1)] + (xs[1..] + ys);
    }
  }

  lemma {:induction false} NoticesAppend(h: seq<Entry>, x: Entry)
    ensures NoticesIn(h + [x]) == NoticesIn(h) + (if x.Noticed? then [x.event] else [])
  {
    assert (h + [x])[..|h|] == h;
  }

  lemma {:induction false} OverflowNotices(q: Queue, e: Event)
    ensures NoticesIn(RaiseNotice(Drop(q, e)).history) == NoticesIn(q.history) + [Notice(q.config, q.dropped + 1)]
  {
    NoticesAppend(q.history, Dropped(e));
    NoticesAppend(q.history + [Dropped(e)], Noticed(Notice(q.config, q.dropped + 1)));
  }

  lemma {:induction false} QuietNotices(q: Queue, e: Event)
    ensures NoticesIn(Quietly(q, e).history) == NoticesIn(q.history)
  {
    NoticesAppend(q.history, Accepted(e));
    NoticesAppend(q.history, Dropped(e));
  }

  /** The notices of an emission are exactly those its projectors' histories gain. */
  lemma {:induction false} EmittedNoticed<K>(reg: Registry<K>, traceAll: bool, m: map<K, Queue>, e: Event, k: K)
    requires Covers(reg, m.Keys) && k in m
    ensures NoticesIn(Emitted(reg, traceAll, m, e)[k].history)
      == NoticesIn(m[k].history) + RaisedBy(EmittedNotices(reg, traceAll, m, e), k)
    decreases Quiet(m), 2, 0
  {
    MatchingCovered(reg, traceAll, e.kind, m.Keys);
    DeliveredNoticed(reg, traceAll, Matching(reg, traceAll, e.kind), m, e, k);
  }

  lemma {:induction false} DeliveredNoticed<K>(reg: Registry<K>, traceAll: bool, ks: seq<K>, m: map<K, Queue>,
                                               e: Event, k: K)
    requires Covers(reg, m.Keys) && (forall i :: 0 <= i < |ks| ==> ks[i] in m.Keys) && k in m
    ensures NoticesIn(Delivered(reg, traceAll, ks, m, e)[k].history)
      == NoticesIn(m[k].history) + RaisedBy(DeliveredNotices(reg, traceAll, ks, m, e), k)
    decreases Quiet(m), 1, |ks|
  {
    if ks != [] {
      var r := Offered(reg, traceAll, ks[0], m, e);
      OfferedNoticed(reg, traceAll, ks[0], m, e, k);
      DeliveredNoticed(reg, traceAll, ks[1..], r, e, k);
      JoinEvents(NoticesIn(m[k].history), RaisedBy(OfferedNotices(reg, traceAll, ks[0], m, e), k),
                 RaisedBy(DeliveredNotices(reg, traceAll, ks[1..], r, e), k));
      RaisedByAppend(OfferedNotices(reg, traceAll, ks[0], m, e), DeliveredNotices(reg, traceAll, ks[1..], r, e), k);
    }
  }

  lemma {:induction false} OfferedNoticed<K>(reg: Registry<K>, traceAll: bool, to: K, m: map<K, Queue>, e: Event, k: K)
    requires Covers(reg, m.Keys) && to in m && k in m
    ensures NoticesIn(Offered(reg, traceAll, to, m, e)[k].history)
      == NoticesIn(m[k].history) + RaisedBy(OfferedNotices(reg, traceAll, to, m, e), k)
    decreases Quiet(m), 0, 0
  {
    var q := m[to];
    if Overflows(q, e) {
      var raised := RaiseNotice(Drop(q, e));
      var notice := Notice(q.config, raised.dropped);
      OverflowNotices(q, e);
      QuietShrinks(m, to, raised);
      EmittedNoticed(reg, traceAll, m[to := raised], notice, k);
      RaisedByCons(to, notice, EmittedNotices(reg, traceAll, m[to := raised], notice), k);
      JoinEvents(NoticesIn(m[k].history), [notice],
                 RaisedBy(EmittedNotices(reg, traceAll, m[to := raised], notice), k));
    } else {
      OfferedQuietly(reg, traceAll, to, m, e);
      QuietNotices(q, e);
    }
  }

  /** Only projectors that are known raise notices. */
  lemma {:induction false} EmittedNoticesKnown<K>(reg: Registry<K>, traceAll: bool, m: map<K, Queue>, e: Event, k: K)
    requires Covers(reg, m.Keys) && k !in m
    ensures RaisedBy(EmittedNotices(reg, traceAll, m, e), k) == []
    decreases Quiet(m), 2, 0
  {
    MatchingCovered(reg, traceAll, e.kind, m.Keys);
    DeliveredNoticesKnown(reg, traceAll, Matching(reg, traceAll, e.kind), m, e, k);
  }

  lemma {:induction false} DeliveredNoticesKnown<K>(reg: Registry<K>, traceAll: bool, ks: seq<K>, m: map<K, Queue>,
                                                    e: Event, k: K)
    requires Covers(reg, m.Keys) && (forall i :: 0 <= i < |ks| ==> ks[i] in m.Keys) && k !in m
    ensures RaisedBy(DeliveredNotices(reg, traceAll, ks, m, e), k) == []
    decreases Quiet(m), 1, |ks|
  {
    if ks != [] {
      var r := Offered(reg, traceAll, ks[0], m, e);
      OfferedNoticesKnown(reg, traceAll, ks[0], m, e, k);
      DeliveredNoticesKnown(reg, traceAll, ks[1..], r, e, k);
      RaisedByAppend(OfferedNotices(reg, traceAll, ks[0], m, e), DeliveredNotices(reg, traceAll, ks[1..], r, e), k);
    }
  }

  lemma {:induction false} OfferedNoticesKnown<K>(reg: Registry<K>, traceAll: bool, to: K, m: map<K, Queue>,
                                                  e: Event, k: K)
    requires Covers(reg, m.Keys) && to in m && k !in m
    ensures RaisedBy(OfferedNotices(reg, traceAll, to, m, e), k) == []
    decreases Quiet(m), 0, 0
  {
    if Overflows(m[to], e) {
      var raised := RaiseNotice(Drop(m[to], e));
      var notice := Notice(raised.config, raised.dropped);
      QuietShrinks(m, to, raised);
      EmittedNoticesKnown(reg, traceAll, m[to := raised], notice, k);
      RaisedByCons(to, notice, EmittedNotices(reg, traceAll, m[to := raised], notice), k);
    }
  }

  // ---- What one emission offers -------------------------------------------

  /** How often a consumer is to get `x` when `e` reaches it a number of times. */
  function Share(c: Config, e: Event, x: Event, times: nat): nat {
    if x == e && Wants(c, x) then times else 0
  }

  /** How often it is to get `x` from notices that each reach it a number of times. */
  function NoticeShare<K>(raised: seq<(K, Event)>, c: Config, x: Event, times: nat): nat {
    if raised == [] then 0 else Share(c, raised[0].1, x, times) + NoticeShare(raised[1..], c, x, times)
  }

  lemma {:induction false} NoticeShareAppend<K>(xs: seq<(K, Event)>, ys: seq<(K, Event)>, c: Config, x: Event,
                                                times: nat)
    ensures NoticeShare(xs + ys, c, x, times) == NoticeShare(xs, c, x, times) + NoticeShare(ys, c, x, times)
  {
    if xs == [] {
      assert xs + ys == ys;
    } else {
      assert (xs + ys)[1..] == xs[1..] + ys;
      NoticeShareAppend(xs[1..], ys, c, x, times);
    }
  }

  /**
   What one emission offers to one consumer, event by event: the emitted event once for each
   matching subscription, each notice raised on the way once for each subscription that
   matches notices, and nothing else; its own notices and unwanted events never.
   */
  lemma {:induction false} EmittedOffers<K>(reg: Registry<K>, traceAll: bool, m: map<K, Queue>, e: Event, k: K,
                                            x: Event)
    requires Covers(reg, m.Keys) && k in m
    ensures OffersOf(Emitted(reg, traceAll, m, e)[k].history, x)
      == OffersOf(m[k].history, x)
         + Share(m[k].config, e, x, Occurs(Matching(reg, traceAll, e.kind), k))
         + NoticeShare(EmittedNotices(reg, traceAll, m, e), m[k].config, x,
                       Occurs(Matching(reg, traceAll, OVERFLOW), k))
    decreases Quiet(m), 2, 0
  {
    MatchingCovered(reg, traceAll, e.kind, m.Keys);
    DeliveredOffers(reg, traceAll, Matching(reg, traceAll, e.kind), m, e, k, x);
  }

  lemma {:induction false} DeliveredOffers<K>(reg: Registry<K>, traceAll: bool, ks: seq<K>, m: map<K, Queue>,
                                              e: Event, k: K, x: Event)
    requires Covers(reg, m.Keys) && (forall i :: 0 <= i < |ks| ==> ks[i] in m.Keys) && k in m
    ensures OffersOf(Delivered(reg, traceAll, ks, m, e)[k].history, x)
      == OffersOf(m[k].history, x) + Share(m[k].config, e, x, Occurs(ks, k))
         + NoticeShare(DeliveredNotices(reg, traceAll, ks, m, e), m[k].config, x,
                       Occurs(Matching(reg, traceAll, OVERFLOW), k))
    decreases Quiet(m), 1, |ks|
  {
    if ks != [] {
      var r := Offered(reg, traceAll, ks[0], m, e);
      OfferedKeeps(reg, traceAll, ks[0], m, e, k);
      OfferedOffers(reg, traceAll, ks[0], m, e, k, x);
      DeliveredOffers(reg, traceAll, ks[1..], r, e, k, x);
      NoticeShareAppend(OfferedNotices(reg, traceAll, ks[0], m, e), DeliveredNotices(reg, traceAll, ks[1..], r, e),
                        m[k].config, x, Occurs(Matching(reg, traceAll, OVERFLOW), k));
    }
  }

  lemma {:induction false} QuietOffers(q: Queue, e: Event, x: Event)
    ensures OffersOf(Quietly(q, e).history, x) == OffersOf(q.history, x) + Share(q.config, e, x, 1)
  {
    OffersAppend(q.history, Accepted(e), x);
    OffersAppend(q.history, Dropped(e), x);
  }

  lemma {:induction false} OverflowOffers(q: Queue, e: Event, x: Event)
    requires Overflows(q, e)
    ensures OffersOf(RaiseNotice(Drop(q, e)).history, x) == OffersOf(q.history, x) + Share(q.config, e, x, 1)
  {
    OffersAppend(q.history, Dropped(e), x);
    OffersAppend(q.history + [Dropped(e)], Noticed(Notice(q.config, q.dropped + 1)), x);
  }

  lemma {:induction false} NoticeShareCons<K>(to: K, n: Event, rest: seq<(K, Event)>, c: Config, x: Event, times: nat)
    ensures NoticeShare([(to, n)] + rest, c, x, times) == Share(c, n, x, times) + NoticeShare(rest, c, x, times)
  {
    assert ([(to, n)] + rest)[1..] == rest;
  }

  lemma {:induction false} OfferedOffers<K>(reg: Registry<K>, traceAll: bool, to: K, m: map<K, Queue>, e: Event,
                                            k: K, x: Event)
    requires Covers(reg, m.Keys) && to in m && k in m
    ensures OffersOf(Offered(reg, traceAll, to, m, e)[k].history, x)
      == OffersOf(m[k].history, x) + Share(m[k].config, e, x, if to == k then 1 else 0)
         + NoticeShare(OfferedNotices(reg, traceAll, to, m, e), m[k].config, x,
                       Occurs(Matching(reg, traceAll, OVERFLOW), k))
    decreases Quiet(m), 0, 0
  {
    var q := m[to];
    if Overflows(q, e) {
      var raised := RaiseNotice(Drop(q, e));
      var notice := Notice(q.config, raised.dropped);
      OverflowOffers(q, e, x);
      QuietShrinks(m, to, raised);
      EmittedOffers(reg, traceAll, m[to := raised], notice, k, x);
      NoticeShareCons(to, notice, EmittedNotices(reg, traceAll, m[to := raised], notice), m[k].config, x,
                      Occurs(Matching(reg, traceAll, OVERFLOW), k));
    } else {
      QuietOffers(q, e, x);
      OfferedQuietly(reg, traceAll, to, m, e);
    }
  }

  lemma {:induction false} NoticeShareOne<K>(raised: seq<(K, Event)>, i: nat, c: Config, times: nat)
    requires i < |raised| && Wants(c, raised[i].1)
    ensures NoticeShare(raised, c, raised[i].1, times) >= times
  {
    if i > 0 {
      NoticeShareOne(raised[1..], i - 1, c, times);
    }
  }

  /**
   Each notice raised during an emission is newly accepted or dropped, before the emission
   ends, by every consumer that wants it, once for each of its subscriptions that matches.
   */
  lemma {:induction false} NoticesSeen<K>(reg: Registry<K>, traceAll: bool, m: map<K, Queue>, e: Event, i: nat, b: K)
    requires Covers(reg, m.Keys) && b in m && i < |EmittedNotices(reg, traceAll, m, e)|
    requires Wants(m[b].config, EmittedNotices(reg, traceAll, m, e)[i].1)
    ensures var n := EmittedNotices(reg, traceAll, m, e)[i].1;
      OffersOf(Emitted(reg, traceAll, m, e)[b].history, n)
      >= OffersOf(m[b].history, n) + Occurs(Matching(reg, traceAll, OVERFLOW), b)
  {
    var raised := EmittedNotices(reg, traceAll, m, e);
    EmittedOffers(reg, traceAll, m, e, b, raised[i].1);
    NoticeShareOne(raised, i, m[b].config, Occurs(Matching(reg, traceAll, OVERFLOW), b));
  }

  // ---- Subscriptions ------------------------------------------------------

  function Reached(traceAll: bool, kind: string, namespace: string): nat {
    if traceAll || Under(kind, namespace) then 1 else 0
  }

  lemma {:induction false} MatchingHead<K>(reg: Registry<K>, traceAll: bool, kind: string, other: K)
    requires reg != []
    ensures Occurs(Matching(reg, traceAll, kind), other)
      == (if traceAll || Under(kind, reg[0].0) then Occurs(reg[0].1, other) else 0)
         + Occurs(Matching(reg[1..], traceAll, kind), other)
  {
    var init, last := reg[..|reg| - 1], Last(reg);
    OccursAppend(Matching(init, traceAll, kind), if traceAll || Under(kind, last.0) then last.1 else [], other);
    if |reg| > 1 {
      MatchingHead(init, traceAll, kind, other);
      assert reg[1..][..|reg| - 2] == init[1..] && Last(reg[1..]) == last;
      OccursAppend(Matching(init[1..], traceAll, kind), if traceAll || Under(kind, last.0) then last.1 else [], other);
    }
  }

  lemma {:induction false} SubscribedReaches<K>(reg: Registry<K>, namespace: string, k: K, traceAll: bool, kind: string,
                                                other: K)
    ensures Occurs(Matching(Subscribed(reg, namespace, k), traceAll, kind), other)
      == Occurs(Matching(reg, traceAll, kind), other) + (if other == k then Reached(traceAll, kind, namespace) else 0)
  {
    if reg == [] {
      assert [(namespace, [k])][..0] == [];
      assert [] + [k] == [k];
    } else if reg[0].0 == namespace {
      MatchingHead(reg, traceAll, kind, other);
      MatchingHead(Subscribed(reg, namespace, k), traceAll, kind, other);
      OccursAppend(reg[0].1, [k], other);
      assert Subscribed(reg, namespace, k)[1..] == reg[1..];
    } else {
      MatchingHead(reg, traceAll, kind, other);
      MatchingHead(Subscribed(reg, namespace, k), traceAll, kind, other);
      SubscribedReaches(reg[1..], namespace, k, traceAll, kind, other);
      assert Subscribed(reg, namespace, k)[1..] == Subscribed(reg[1..], namespace, k);
    }
  }

  function ReachedBy(traceAll: bool, kind: string, namespaces: seq<string>): nat {
    if namespaces == [] then 0
    else ReachedBy(traceAll, kind, namespaces[..|namespaces| - 1]) + Reached(traceAll, kind, Last(namespaces))
  }

  /** Starting a projector adds one delivery for each of its namespaces over an event, and none to others. */
  lemma {:induction false} StartedReaches<K>(reg: Registry<K>, namespaces: seq<string>, k: K, traceAll: bool,
                                             kind: string,
                                             other: K)
    ensures Occurs(Matching(SubscribedAll(reg, namespaces, k), traceAll, kind), other)
      == Occurs(Matching(reg, traceAll, kind), other)
         + (if other == k then ReachedBy(traceAll, kind, namespaces) else 0)
  {
    if namespaces != [] {
      var init := namespaces[..|namespaces| - 1];
      StartedReaches(reg, init, k, traceAll, kind, other);
      SubscribedReaches(SubscribedAll(reg, init, k), Last(namespaces), k, traceAll, kind, other);
    }
  }

  lemma {:induction false} UnderHead(kind: string, namespace: string)
    requires Under(kind, namespace) && |namespace| >= 2
    ensures |kind| >= 2 && kind[0] == namespace[0] && kind[1] == namespace[1]
  {
    if namespace + "." <= kind {
      assert kind[0] == (namespace + ".")[0] && kind[1] == (namespace + ".")[1];
    }
  }

  /** No event lies under two root namespaces. */
  lemma {:induction false} OneRoot(kind: string, i: nat, j: nat)
    requires i < |ROOT_NAMESPACES| && j < |ROOT_NAMESPACES|
    requires Under(kind, ROOT_NAMESPACES[i]) && Under(kind, ROOT_NAMESPACES[j])
    ensures i == j
  {
    UnderHead(kind, ROOT_NAMESPACES[i]);
    UnderHead(kind, ROOT_NAMESPACES[j]);
  }

  lemma {:induction false} ReachedByRoots(kind: string, i: nat, name: string, n: nat)
    requires i < |ROOT_NAMESPACES| && Under(kind, ROOT_NAMESPACES[i]) && n <= |ROOT_NAMESPACES|
    ensures ReachedBy(false, kind, [name] + ROOT_NAMESPACES[..n])
      == Reached(false, kind, name) + (if i < n then 1 else 0)
  {
    if n == 0 {
      assert [name] + ROOT_NAMESPACES[..0] == [name];
      assert [name][..0] == [];
    } else {
      ReachedByRoots(kind, i, name, n - 1);
      var all := [name] + ROOT_NAMESPACES[..n];
      assert all[..|all| - 1] == [name] + ROOT_NAMESPACES[..n - 1] && Last(all) == ROOT_NAMESPACES[n - 1];
      if Under(kind, ROOT_NAMESPACES[n - 1]) {
        OneRoot(kind, i, n - 1);
      }
    }
  }

  /** A started projector gets each rooted event once, and once more when its own name is a prefix of it. */
  lemma {:induction false} StartedDeliveries<K>(reg: Registry<K>, k: K, c: Config, kind: string, i: nat)
    requires i < |ROOT_NAMESPACES| && Under(kind, ROOT_NAMESPACES[i])
    requires Occurs(Matching(reg, false, kind), k) == 0
    ensures Occurs(Matching(SubscribedAll(reg, SubscriptionNamespaces(c), k), false, kind), k)
      == 1 + Reached(false, kind, c.name)
  {
    StartedReaches(reg, SubscriptionNamespaces(c), k, false, kind, k);
    ReachedByRoots(kind, i, c.name, |ROOT_NAMESPACES|);
    assert ROOT_NAMESPACES[..|ROOT_NAMESPACES|] == ROOT_NAMESPACES;
  }

  lemma {:induction false} ReachedByTrace(kind: string, namespaces: seq<string>)
    ensures ReachedBy(true, kind, namespaces) == |namespaces|
  {
    if namespaces != [] {
      ReachedByTrace(kind, namespaces[..|namespaces| - 1]);
    }
  }

  /** With `trace_all` a started projector gets every event eight times. */
  lemma {:induction false} StartedDeliveriesTraced<K>(reg: Registry<K>, k: K, c: Config, kind: string)
    requires Occurs(Matching(reg, true, kind), k) == 0
    ensures Occurs(Matching(SubscribedAll(reg, SubscriptionNamespaces(c), k), true, kind), k) == 8
  {
    StartedReaches(reg, SubscriptionNamespaces(c), k, true, kind, k);
    ReachedByTrace(kind, SubscriptionNamespaces(c));
  }

  /** A subscription reaches its namespace and every type a dot below it, and nothing else. */
  lemma {:induction false} SubscriptionReach<K>(reg: Registry<K>, namespace: string, k: K, kind: string)
    ensures Occurs(Matching(Subscribed(reg, namespace, k), false, kind), k)
      == Occurs(Matching(reg, false, kind), k)
         + if kind == namespace || (exists rest :: kind == namespace + "." + rest) then 1 else 0
  {
    SubscribedReaches(reg, namespace, k, false, kind, k);
    if namespace + "." <= kind {
      assert kind == namespace + "." + kind[|namespace| + 1..];
    }
  }

  /** A longer word does not lie under its beginning. */
  lemma {:induction false} NoPartialWord<K>(k: K)
    ensures Matching(Subscribed([], "request", k), false, "requests.x") == []
    ensures Matching(Subscribed([], "request", k), false, "request.x") == [k]
  {
    SubscriptionReach([], "request", k, "requests.x");
    var reg := [("request", [k])];
    assert reg[..0] == [];
    assert "requests.x"[7] != "request."[7];
    assert "request.x" == "request" + "." + "x";
  }

  /** Events go out namespace by namespace, in the order of first subscription. */
  lemma {:induction false} MatchingInOrder<K>(reg: Registry<K>, namespace: string, ks: seq<K>, traceAll: bool,
                                              kind: string)
    ensures Matching(reg + [(namespace, ks)], traceAll, kind)
      == Matching(reg, traceAll, kind)
         + if traceAll || kind == namespace || (exists rest :: kind == namespace + "." + rest) then ks else []
  {
    assert (reg + [(namespace, ks)])[..|reg|] == reg;
    if namespace + "." <= kind {
      assert kind == namespace + "." + kind[|namespace| + 1..];
    }
  }

  /** A started projector gets every event a dot below a root namespace. */
  lemma {:induction false} RootedDeliveries<K>(reg: Registry<K>, k: K, c: Config, i: nat, rest: string)
    requires i < |ROOT_NAMESPACES|
    requires Occurs(Matching(reg, false, ROOT_NAMESPACES[i] + "." + rest), k) == 0
    ensures var kind := ROOT_NAMESPACES[i] + "." + rest;
      Occurs(Matching(SubscribedAll(reg, SubscriptionNamespaces(c), k), false, kind), k)
      == 1 + if kind == c.name || (exists more :: kind == c.name + "." + more) then 1 else 0
  {
    var kind := ROOT_NAMESPACES[i] + "." + rest;
    StartedDeliveries(reg, k, c, kind, i);
    if c.name + "." <= kind {
      assert kind == c.name + "." + kind[|c.name| + 1..];
    }
  }

  lemma {:induction false} OverflowIsRooted()
    ensures Under(OVERFLOW, ROOT_NAMESPACES[0])
  {
    var head := ROOT_NAMESPACES[0] + ".";
    forall i | 0 <= i < |head|
      ensures head[i] == OVERFLOW[i]
    {
      assert head[i] == "execution."[i];
    }
  }

  /** Starting a projector subscribes it at least once to every type under a root namespace, in both modes. */
  lemma {:induction false} StartedUnderRoot<K>(reg: Registry<K>, k: K, c: Config, traceAll: bool, kind: string, i: nat)
    requires i < |ROOT_NAMESPACES| && Under(kind, ROOT_NAMESPACES[i])
    ensures Occurs(Matching(SubscribedAll(reg, SubscriptionNamespaces(c), k), traceAll, kind), k) >= 1
  {
    StartedReaches(reg, SubscriptionNamespaces(c), k, traceAll, kind, k);
    if traceAll {
      ReachedByTrace(kind, SubscriptionNamespaces(c));
    } else {
      ReachedByRoots(kind, i, c.name, |ROOT_NAMESPACES|);
      assert ROOT_NAMESPACES[..|ROOT_NAMESPACES|] == ROOT_NAMESPACES;
    }
  }

  // ---- Whole runs ---------------------------------------------------------

  /** The dispatcher with its registry and mode, and the queues of the projectors started so far. */
  datatype World<!K> = World(reg: Registry<K>, traceAll: bool, queues: map<K, Queue>)

  datatype Act<K> =
    | StartProjector(k: K, config: Config)
    | SetTraceAll(on: bool)
    | EmitEvent(event: Event)
    | TakeFrom(k: K)
    | FinishOf(k: K)

  function FreshQueue(c: Config): Queue {
    Queue(c, [], None, 0, false, [])
  }

  ghost predicate Sound<K>(w: World<K>) {
    Covers(w.reg, w.queues.Keys)
  }

  lemma {:induction false} SubscribedCovered<K>(reg: Registry<K>, namespace: string, k: K, ks: set<K>)
    requires Covers(reg, ks)
    ensures Covers(Subscribed(reg, namespace, k), ks + {k})
  {
    if reg != [] && reg[0].0 != namespace {
      assert Covers(reg[1..], ks) by {
        forall i, j | 0 <= i < |reg[1..]| && 0 <= j < |reg[1..][i].1|
          ensures reg[1..][i].1[j] in ks
        {
          assert reg[i + 1].1[j] in ks;
        }
      }
      SubscribedCovered(reg[1..], namespace, k, ks);
    }
  }

  lemma {:induction false} StartedCovered<K>(reg: Registry<K>, namespaces: seq<string>, k: K, ks: set<K>)
    requires Covers(reg, ks)
    ensures Covers(SubscribedAll(reg, namespaces, k), ks + {k})
  {
    if namespaces != [] {
      var init := namespaces[..|namespaces| - 1];
      StartedCovered(reg, init, k, ks);
      SubscribedCovered(SubscribedAll(reg, init, k), Last(namespaces), k, ks + {k});
      assert ks + {k} + {k} == ks + {k};
    }
  }

  /** One act; starting a projector that was started already changes nothing. */
  ghost function Step<K>(w: World<K>, act: Act<K>): (r: World<K>)
    requires Sound(w)
    ensures Sound(r) && w.queues.Keys <= r.queues.Keys
  {
    match act
    case StartProjector(k, c) =>
      if k in w.queues then w
      else
        StartedCovered(w.reg, SubscriptionNamespaces(c), k, w.queues.Keys);
        World(SubscribedAll(w.reg, SubscriptionNamespaces(c), k), w.traceAll, w.queues[k := FreshQueue(c)])
    case SetTraceAll(on) => w.(traceAll := on)
    case EmitEvent(e) => w.(queues := Emitted(w.reg, w.traceAll, w.queues, e))
    case TakeFrom(k) => if k in w.queues then w.(queues := w.queues[k := Take(w.queues[k])]) else w
    case FinishOf(k) => if k in w.queues then w.(queues := w.queues[k := Finish(w.queues[k])]) else w
  }

  /** A run, from a dispatcher without consumers. */
  ghost function Run<K>(traceAll: bool, acts: seq<Act<K>>): (w: World<K>)
    ensures Sound(w)
  {
    if acts == [] then World([], traceAll, map[]) else Step(Run(traceAll, acts[..|acts| - 1]), Last(acts))
  }

  lemma {:induction false} TakeConsistent(q: Queue)
    requires Consistent(q)
    ensures Consistent(Take(q)) && q.history <= Take(q).history && Take(q).config == q.config
  {
    if q.inFlight.None? && q.queued != [] {
      Appended(q.history, Taken(q.queued[0]));
      assert AcceptedIn(q.history)[|TakenIn(q.history)|] == q.queued[0];
    }
  }

  lemma {:induction false} FinishConsistent(q: Queue)
    requires Consistent(q)
    ensures Consistent(Finish(q)) && q.history <= Finish(q).history && Finish(q).config == q.config
  {
    if q.inFlight.Some? {
      Appended(q.history, Finished(q.inFlight.value, |q.queued| < Capacity(q.config)));
    }
  }

  /** What a worker step, or none, does to one queue. */
  ghost predicate Worked(q: Queue, r: Queue) {
    r == q || r == Take(q) || r == Finish(q)
  }

  lemma {:induction false} WorkerConsistent(q: Queue, r: Queue)
    requires Consistent(q) && Worked(q, r)
    ensures Consistent(r) && q.history <= r.history && r.config == q.config
  {
    TakeConsistent(q);
    FinishConsistent(q);
  }

  lemma {:induction false} StepConsistent<K>(w: World<K>, act: Act<K>, k: K)
    requires Sound(w) && k in w.queues && Consistent(w.queues[k])
    ensures var r := Step(w, act).queues[k];
      Consistent(r) && r.config == w.queues[k].config && w.queues[k].history <= r.history
  {
    if act.EmitEvent? {
      EmittedKeeps(w.reg, w.traceAll, w.queues, act.event, k);
    } else {
      WorkerConsistent(w.queues[k], Step(w, act).queues[k]);
    }
  }

  /** In every reachable state accepted events are delivered, in flight or queued, in order; the rest is counted. */
  lemma {:induction false} RunConsistent<K>(traceAll: bool, acts: seq<Act<K>>, k: K)
    requires k in Run(traceAll, acts).queues
    ensures Consistent(Run(traceAll, acts).queues[k])
  {
    if acts != [] {
      var w := Run(traceAll, acts[..|acts| - 1]);
      if k in w.queues {
        RunConsistent(traceAll, acts[..|acts| - 1], k);
        StepConsistent(w, Last(acts), k);
      }
    }
  }

  /** How often one act hands `x` to a consumer that wants it: as the emitted event or as a notice raised on the way. */
  ghost function Due<K>(w: World<K>, act: Act<K>, k: K, x: Event): nat
    requires Sound(w)
  {
    if !act.EmitEvent? || k !in w.queues then 0
    else
      var c := w.queues[k].config;
      Share(c, act.event, x, Occurs(Matching(w.reg, w.traceAll, act.event.kind), k))
      + NoticeShare(EmittedNotices(w.reg, w.traceAll, w.queues, act.event), c, x,
                    Occurs(Matching(w.reg, w.traceAll, OVERFLOW), k))
  }

  /** The same over a whole run. */
  ghost function Expected<K>(traceAll: bool, acts: seq<Act<K>>, k: K, x: Event): nat {
    if acts == [] then 0
    else
      var init := acts[..|acts| - 1];
      Expected(traceAll, init, k, x) + Due(Run(traceAll, init), Last(acts), k, x)
  }

  /** The notices raised over a whole run. */
  ghost function RunNotices<K>(traceAll: bool, acts: seq<Act<K>>): seq<(K, Event)> {
    if acts == [] then []
    else
      var init := acts[..|acts| - 1];
      var w := Run(traceAll, init);
      if Last(acts).EmitEvent?
      then RunNotices(traceAll, init) + EmittedNotices(w.reg, w.traceAll, w.queues, Last(acts).event)
      else RunNotices(traceAll, init)
  }

  lemma {:induction false} WorkerReads(q: Queue, r: Queue, x: Event)
    requires Worked(q, r)
    ensures OffersOf(r.history, x) == OffersOf(q.history, x) && NoticesIn(r.history) == NoticesIn(q.history)
  {
    if q.queued != [] {
      Appended(q.history, Taken(q.queued[0]));
      OffersAppend(q.history, Taken(q.queued[0]), x);
    }
    if q.inFlight.Some? {
      var done := Finished(q.inFlight.value, |q.queued| < Capacity(q.config));
      Appended(q.history, done);
      OffersAppend(q.history, done, x);
    }
  }

  lemma {:induction false} StepOffers<K>(w: World<K>, act: Act<K>, k: K, x: Event)
    requires Sound(w) && k in w.queues
    ensures OffersOf(Step(w, act).queues[k].history, x) == OffersOf(w.queues[k].history, x) + Due(w, act, k, x)
  {
    if act.EmitEvent? {
      EmittedOffers(w.reg, w.traceAll, w.queues, act.event, k, x);
    } else {
      WorkerReads(w.queues[k], Step(w, act).queues[k], x);
    }
  }

  /** A consumer that was never started is owed nothing. */
  lemma {:induction false} ExpectedFromStart<K>(traceAll: bool, acts: seq<Act<K>>, k: K, x: Event)
    requires k !in Run(traceAll, acts).queues
    ensures Expected(traceAll, acts, k, x) == 0
  {
    if acts != [] {
      ExpectedFromStart(traceAll, acts[..|acts| - 1], k, x);
    }
  }

  lemma {:induction false} RunOffers<K>(traceAll: bool, acts: seq<Act<K>>, k: K, x: Event)
    requires k in Run(traceAll, acts).queues
    ensures OffersOf(Run(traceAll, acts).queues[k].history, x) == Expected(traceAll, acts, k, x)
  {
    if acts != [] {
      var init := acts[..|acts| - 1];
      if k in Run(traceAll, init).queues {
        RunOffers(traceAll, init, k, x);
        StepOffers(Run(traceAll, init), Last(acts), k, x);
      } else {
        ExpectedFromStart(traceAll, init, k, x);
      }
    }
  }

  lemma {:induction false} OffersSplit(h: seq<Entry>, x: Event)
    ensures OffersOf(h, x) == Occurs(AcceptedIn(h), x) + Occurs(DroppedIn(h), x)
  {
    if h != [] {
      var init, last := h[..|h| - 1], Last(h);
      OffersSplit(init, x);
      OccursAppend(AcceptedIn(init), if last.Accepted? then [last.event] else [], x);
      OccursAppend(DroppedIn(init), if last.Dropped? then [last.event] else [], x);
    }
  }

  /**
   Conservation, for every event, notices of other projectors included: what a projector was
   to get is delivered, in flight, queued, or among the counted drops, and nothing else is.
   */
  lemma {:induction false} EveryEventAccounted<K>(traceAll: bool, acts: seq<Act<K>>, k: K, x: Event)
    requires k in Run(traceAll, acts).queues
    ensures var q := Run(traceAll, acts).queues[k];
      && q.dropped == |DroppedIn(q.history)|
      && Occurs(DeliveredIn(q.history) + Flight(q.inFlight) + q.queued, x) + Occurs(DroppedIn(q.history), x)
         == Expected(traceAll, acts, k, x)
  {
    RunConsistent(traceAll, acts, k);
    RunOffers(traceAll, acts, k, x);
    OffersSplit(Run(traceAll, acts).queues[k].history, x);
  }

  /** The notices that the account counts are exactly those in the projectors' histories, in order. */
  lemma {:induction false} NoticesRecorded<K>(traceAll: bool, acts: seq<Act<K>>, k: K)
    ensures RaisedBy(RunNotices(traceAll, acts), k)
      == if k in Run(traceAll, acts).queues then NoticesIn(Run(traceAll, acts).queues[k].history) else []
  {
    if acts != [] {
      var init, act := acts[..|acts| - 1], Last(acts);
      var w := Run(traceAll, init);
      NoticesRecorded(traceAll, init, k);
      if act.EmitEvent? {
        RaisedByAppend(RunNotices(traceAll, init), EmittedNotices(w.reg, w.traceAll, w.queues, act.event), k);
        if k in w.queues {
          EmittedNoticed(w.reg, w.traceAll, w.queues, act.event, k);
        } else {
          EmittedNoticesKnown(w.reg, w.traceAll, w.queues, act.event, k);
        }
      } else if k in w.queues {
        WorkerReads(w.queues[k], Step(w, act).queues[k], Notice(w.queues[k].config, 0));
      }
    }
  }

  // ---- In terms of the events alone ---------------------------------------

  /** In every reachable state every started projector is subscribed to every type under a root namespace. */
  lemma {:induction false} RunUnderRoot<K>(traceAll: bool, acts: seq<Act<K>>, k: K, mode: bool, kind: string, i: nat)
    requires k in Run(traceAll, acts).queues
    requires i < |ROOT_NAMESPACES| && Under(kind, ROOT_NAMESPACES[i])
    ensures Occurs(Matching(Run(traceAll, acts).reg, mode, kind), k) >= 1
  {
    var init, act := acts[..|acts| - 1], Last(acts);
    var w := Run(traceAll, init);
    if k in w.queues {
      RunUnderRoot(traceAll, init, k, mode, kind, i);
      if act.StartProjector? {
        StartedReaches(w.reg, SubscriptionNamespaces(act.config), act.k, mode, kind, k);
      }
    } else {
      StartedUnderRoot(w.reg, k, act.config, mode, kind, i);
    }
  }

  /** The conditions of the source on an event for a projector, one by one. */
  ghost predicate Welcome(c: Config, e: Event) {
    && c.selects(e.kind) && e.level >= c.level
    && !(e.kind == "execution.observability.projection_overflow" && e.projector == Some(c.name))
  }

  /**
   In every reachable state, each notice that an emission raises is newly accepted or dropped
   by every started projector that selects it at its level and did not raise it itself.
   */
  lemma {:induction false} NoticesReachAll<K>(traceAll: bool, acts: seq<Act<K>>, e: Event, i: nat, b: K)
    requires var w := Run(traceAll, acts);
      && b in w.queues && i < |EmittedNotices(w.reg, w.traceAll, w.queues, e)|
      && Welcome(w.queues[b].config, EmittedNotices(w.reg, w.traceAll, w.queues, e)[i].1)
    ensures var w := Run(traceAll, acts);
      var n := EmittedNotices(w.reg, w.traceAll, w.queues, e)[i].1;
      OffersOf(Emitted(w.reg, w.traceAll, w.queues, e)[b].history, n) > OffersOf(w.queues[b].history, n)
  {
    var w := Run(traceAll, acts);
    OverflowIsRooted();
    RunUnderRoot(traceAll, acts, b, w.traceAll, OVERFLOW, 0);
    NoticesSeen(w.reg, w.traceAll, w.queues, e, i, b);
  }

  /** In every reachable state an event a dot below a root namespace is newly accepted or dropped by each projector. */
  lemma {:induction false} RootedEventsReachAll<K>(traceAll: bool, acts: seq<Act<K>>, e: Event, i: nat, rest: string,
                                                   b: K)
    requires i < |ROOT_NAMESPACES| && e.kind == ROOT_NAMESPACES[i] + "." + rest
    requires b in Run(traceAll, acts).queues && Welcome(Run(traceAll, acts).queues[b].config, e)
    ensures var w := Run(traceAll, acts);
      OffersOf(Emitted(w.reg, w.traceAll, w.queues, e)[b].history, e) > OffersOf(w.queues[b].history, e)
  {
    var w := Run(traceAll, acts);
    assert ROOT_NAMESPACES[i] + "." <= e.kind;
    RunUnderRoot(traceAll, acts, b, w.traceAll, e.kind, i);
    EmittedOffers(w.reg, w.traceAll, w.queues, e, b, e);
  }

  /** In a legal history only welcome events are accepted or dropped. */
  lemma {:induction false} OnlyWelcomeEvents(h: seq<Entry>, c: Config, i: nat)
    requires Legal(h, c) && i < |h| && (h[i].Accepted? || h[i].Dropped?)
    ensures Welcome(c, h[i].event)
  {
    if i < |h| - 1 {
      OnlyWelcomeEvents(h[..|h| - 1], c, i);
    }
  }

  /** Events are dropped exactly when the queue holds its bound, and accepted below it. */
  lemma {:induction false} DropsOnlyWhenFull(h: seq<Entry>, c: Config, i: nat)
    requires Legal(h, c) && i < |h| && (h[i].Accepted? || h[i].Dropped?)
    ensures var bound := if c.maxQueueSize < 1 then 1 else c.maxQueueSize;
      h[i].Dropped? <==> |AcceptedIn(h[..i])| - |TakenIn(h[..i])| == bound
  {
    if i < |h| - 1 {
      DropsOnlyWhenFull(h[..|h| - 1], c, i);
      assert h[..|h| - 1][..i] == h[..i];
    }
  }

  /** A notice is a warning that names its projector, the bound of its queue and the drops so far. */
  lemma {:induction false} NoticeContent(h: seq<Entry>, c: Config, i: nat)
    requires Legal(h, c) && i < |h| && h[i].Noticed?
    ensures h[i].event == Event("execution.observability.projection_overflow", 4, Some(c.name),
                                if c.maxQueueSize < 1 then 1 else c.maxQueueSize, |DroppedIn(h[..i])|, "")
  {
    if i < |h| - 1 {
      NoticeContent(h[..|h| - 1], c, i);
      assert h[..|h| - 1][..i] == h[..i];
    }
  }
}
