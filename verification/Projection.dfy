/**
 Optional projections behind one dispatcher: the ordered consumer registry (`EventDispatcher`)
 and the bounded queues that may overflow and say so through the same dispatcher
 (`QueuedProjector`). The specification functions are over any kind of consumer reference `K`.
 */
module Projection {
  import opened Common

  const OVERFLOW := "execution.observability.projection_overflow"
  const WARN: nat := 4
  const ROOT_NAMESPACES := ["execution", "request", "streaming", "routing", "transport", "downstream", "filter"]

  /** `projector`, `capacity` and `dropped` are what an overflow notice carries; `body` is all other data. */
  datatype Event = Event(kind: string, level: nat, projector: Option<string>, capacity: nat, dropped: nat, body: string)

  /** A projector's fixed settings; `selects` is its glob selector. */
  datatype Config = Config(name: string, selects: string -> bool, level: nat, maxQueueSize: int)

  function Capacity(c: Config): nat {
    if c.maxQueueSize < 1 then 1 else c.maxQueueSize
  }

  function Notice(c: Config, dropped: nat): Event {
    Event(OVERFLOW, WARN, Some(c.name), Capacity(c), dropped, "")
  }

  predicate IsOwnNotice(c: Config, e: Event) {
    e.kind == OVERFLOW && e.projector == Some(c.name)
  }

  predicate ShouldEmit(c: Config, e: Event) {
    c.selects(e.kind) && e.level >= c.level
  }

  /** The events a queue has to account for. */
  predicate Wants(c: Config, e: Event) {
    !IsOwnNotice(c, e) && ShouldEmit(c, e)
  }

  /** What happened to one queue, in order. */
  datatype Entry =
    | Accepted(event: Event)
    | Dropped(event: Event)
    | Noticed(event: Event)
    | Taken(event: Event)
    | Finished(event: Event, room: bool)

  datatype Queue = Queue(
    config: Config, queued: seq<Event>, inFlight: Option<Event>, dropped: nat, noticePending: bool,
    history: seq<Entry>)

  // ---- The registry -------------------------------------------------------

  type Registry<K> = seq<(string, seq<K>)>

  /** `setdefault(namespace, []).append(consumer)` on an insertion-ordered dictionary. */
  function Subscribed<K>(reg: Registry<K>, namespace: string, k: K): Registry<K> {
    if reg == [] then [(namespace, [k])]
    else if reg[0].0 == namespace then [(namespace, reg[0].1 + [k])] + reg[1..]
    else [reg[0]] + Subscribed(reg[1..], namespace, k)
  }

  lemma {:induction false} SubscribedAt<K>(reg: Registry<K>, namespace: string, k: K, i: nat)
    requires i <= |reg| && (forall j :: 0 <= j < i ==> reg[j].0 != namespace)
    requires i < |reg| ==> reg[i].0 == namespace
    ensures Subscribed(reg, namespace, k)
      == if i < |reg| then reg[i := (namespace, reg[i].1 + [k])] else reg + [(namespace, [k])]
  {
    if reg != [] && i > 0 {
      SubscribedAt(reg[1..], namespace, k, i - 1);
      assert reg == [reg[0]] + reg[1..];
    }
  }

  function SubscribedAll<K>(reg: Registry<K>, namespaces: seq<string>, k: K): Registry<K> {
    if namespaces == [] then reg
    else Subscribed(SubscribedAll(reg, namespaces[..|namespaces| - 1], k), Last(namespaces), k)
  }

  predicate Under(kind: string, namespace: string) {
    namespace + "." <= kind || kind == namespace
  }

  /** The consumers an event reaches, one entry for each matching subscription. */
  function Matching<K>(reg: Registry<K>, traceAll: bool, kind: string): (ks: seq<K>)
  {
    if reg == [] then []
    else Matching(reg[..|reg| - 1], traceAll, kind) + (if traceAll || Under(kind, Last(reg).0) then Last(reg).1 else [])
  }

  function SubscriptionNamespaces(c: Config): seq<string> {
    [c.name] + ROOT_NAMESPACES
  }

  ghost predicate Covers<K>(reg: Registry<K>, ks: set<K>) {
    forall i, j :: 0 <= i < |reg| && 0 <= j < |reg[i].1| ==> reg[i].1[j] in ks
  }

  lemma {:induction false} MatchingCovered<K>(reg: Registry<K>, traceAll: bool, kind: string, ks: set<K>)
    requires Covers(reg, ks)
    ensures forall i :: 0 <= i < |Matching(reg, traceAll, kind)| ==> Matching(reg, traceAll, kind)[i] in ks
  {
    if reg != [] {
      MatchingCovered(reg[..|reg| - 1], traceAll, kind, ks);
    }
  }

  // ---- Emission -----------------------------------------------------------

  function Accept(q: Queue, e: Event): Queue {
    q.(queued := q.queued + [e], history := q.history + [Accepted(e)])
  }

  function Drop(q: Queue, e: Event): Queue {
    q.(dropped := q.dropped + 1, history := q.history + [Dropped(e)])
  }

  function RaiseNotice(q: Queue): Queue {
    q.(noticePending := true, history := q.history + [Noticed(Notice(q.config, q.dropped))])
  }

  /** The projectors that may still raise a notice. */
  ghost function Quiet<K>(m: map<K, Queue>): set<K> {
    set k | k in m && !m[k].noticePending
  }

  lemma {:induction false} QuietShrinks<K>(m: map<K, Queue>, k: K, q: Queue)
    requires k in m && !m[k].noticePending && q.noticePending
    ensures Quiet(m[k := q]) < Quiet(m)
  {
    assert k in Quiet(m) && k !in Quiet(m[k := q]);
  }

  /** Fan one event out to every matching consumer, notices included. */
  ghost function Emitted<K>(reg: Registry<K>, traceAll: bool, m: map<K, Queue>, e: Event): (r: map<K, Queue>)
    requires Covers(reg, m.Keys)
    ensures r.Keys == m.Keys && Quiet(r) <= Quiet(m)
    decreases Quiet(m), 2, 0
  {
    MatchingCovered(reg, traceAll, e.kind, m.Keys);
    Delivered(reg, traceAll, Matching(reg, traceAll, e.kind), m, e)
  }

  ghost function Delivered<K>(reg: Registry<K>, traceAll: bool, ks: seq<K>, m: map<K, Queue>,
                              e: Event): (r: map<K, Queue>)
    requires Covers(reg, m.Keys) && forall i :: 0 <= i < |ks| ==> ks[i] in m.Keys
    ensures r.Keys == m.Keys && Quiet(r) <= Quiet(m)
    decreases Quiet(m), 1, |ks|
  {
    if ks == [] then m else Delivered(reg, traceAll, ks[1..], Offered(reg, traceAll, ks[0], m, e), e)
  }

  /** One queue's reaction to one event. */
  ghost function Offered<K>(reg: Registry<K>, traceAll: bool, k: K, m: map<K, Queue>, e: Event): (r: map<K, Queue>)
    requires Covers(reg, m.Keys) && k in m
    ensures r.Keys == m.Keys && Quiet(r) <= Quiet(m)
    decreases Quiet(m), 0, 0
  {
    var q := m[k];
    if !Wants(q.config, e) then m
    else if |q.queued| < Capacity(q.config) then m[k := Accept(q, e)]
    else if q.noticePending then m[k := Drop(q, e)]
    else
      var raised := RaiseNotice(Drop(q, e));
      QuietShrinks(m, k, raised);
      Emitted(reg, traceAll, m[k := raised], Notice(q.config, raised.dropped))
  }

  lemma {:induction false} DeliveredHead<K>(reg: Registry<K>, traceAll: bool, ks: seq<K>, i: nat, m: map<K, Queue>,
                                            e: Event)
    requires Covers(reg, m.Keys) && i < |ks| && forall j :: 0 <= j < |ks| ==> ks[j] in m.Keys
    ensures Delivered(reg, traceAll, ks[i..], m, e)
      == Delivered(reg, traceAll, ks[i + 1..], Offered(reg, traceAll, ks[i], m, e), e)
  {
    assert ks[i..][1..] == ks[i + 1..];
  }

  // ---- The worker ---------------------------------------------------------

  /** The worker takes the oldest queued event, when it is free and there is one. */
  function Take(q: Queue): Queue {
    if q.inFlight.Some? || q.queued == [] then q
    else q.(queued := q.queued[1..], inFlight := Some(q.queued[0]), history := q.history + [Taken(q.queued[0])])
  }

  /** The projector has handled the event in flight. */
  function Finish(q: Queue): Queue {
    if q.inFlight.None? then q
    else
      var room := |q.queued| < Capacity(q.config);
      q.(inFlight := None, noticePending := q.noticePending && !room,
         history := q.history + [Finished(q.inFlight.value, room)])
  }

  // ---- The objects --------------------------------------------------------

  ghost function Views(ps: set<QueuedProjector>): map<QueuedProjector, Queue>
    reads ps
  {
    map p | p in ps :: p.View()
  }

  class QueuedProjector {
    const config: Config
    var queue: seq<Event>
    var inFlight: Option<Event>
    var droppedEvents: nat
    var overflowNoticePending: bool
    var active: bool
    ghost var history: seq<Entry>

    constructor (config: Config)
      ensures this.config == config && View() == Queue(config, [], None, 0, false, []) && !active
    {
      this.config := config;
      queue, inFlight, droppedEvents, overflowNoticePending, history := [], None, 0, false, [];
      active := false;
    }

    ghost function View(): Queue
      reads this
    {
      Queue(config, queue, inFlight, droppedEvents, overflowNoticePending, history)
    }

    /** Subscribe under the projector's own name and every root namespace, unless that was done. */
    method Start(dispatcher: EventDispatcher)
      requires dispatcher.Valid()
      modifies this`active, dispatcher
      ensures dispatcher.Valid() && dispatcher.traceAll == old(dispatcher.traceAll) && active
      ensures dispatcher.projectors == old(dispatcher.projectors) + if old(active) then {} else {this}
      ensures dispatcher.consumers
        == if old(active) then old(dispatcher.consumers)
           else SubscribedAll(old(dispatcher.consumers), SubscriptionNamespaces(config), this)
    {
      if active {
        return;
      }
      var namespaces := SubscriptionNamespaces(config);
      for i := 0 to |namespaces|
        invariant dispatcher.Valid() && dispatcher.traceAll == old(dispatcher.traceAll)
        invariant dispatcher.projectors == old(dispatcher.projectors) + if i == 0 then {} else {this}
        invariant dispatcher.consumers == SubscribedAll(old(dispatcher.consumers), namespaces[..i], this)
      {
        dispatcher.Subscribe(namespaces[i], this);
        assert namespaces[..i + 1][..i] == namespaces[..i];
      }
      assert namespaces[..|namespaces|] == namespaces;
      active := true;
    }

    /** Accept a wanted event, or drop it; the first drop since the last progress raises a notice. */
    method Enqueue(event: Event, dispatcher: EventDispatcher)
      requires dispatcher.Valid() && this in dispatcher.projectors
      modifies dispatcher.projectors
      ensures Views(dispatcher.projectors)
        == Offered(dispatcher.consumers, dispatcher.traceAll, this, old(Views(dispatcher.projectors)), event)
      decreases Quiet(Views(dispatcher.projectors)), 0, 0
    {
      ghost var before := Views(dispatcher.projectors);
      if event.kind == OVERFLOW && event.projector == Some(config.name) {
        return;
      }
      if !ShouldEmit(config, event) {
        return;
      }
      if |queue| < Capacity(config) {
        queue, history := queue + [event], history + [Accepted(event)];
        assert Views(dispatcher.projectors) == before[this := Accept(before[this], event)];
      } else {
        droppedEvents, history := droppedEvents + 1, history + [Dropped(event)];
        if overflowNoticePending {
          assert Views(dispatcher.projectors) == before[this := Drop(before[this], event)];
        } else {
          overflowNoticePending, history := true, history + [Noticed(Notice(config, droppedEvents))];
          ghost var raised := RaiseNotice(Drop(before[this], event));
          assert Views(dispatcher.projectors) == before[this := raised];
          QuietShrinks(before, this, raised);
          assert Quiet(Views(dispatcher.projectors)) < Quiet(before);
          dispatcher.Emit(Notice(config, droppedEvents));
        }
      }
    }

    method TakeNext()
      modifies this
      ensures View() == Take(old(View()))
    {
      if inFlight.None? && queue != [] {
        history := history + [Taken(queue[0])];
        inFlight, queue := Some(queue[0]), queue[1..];
      }
    }

    method FinishCurrent()
      modifies this
      ensures View() == Finish(old(View()))
    {
      if inFlight.Some? {
        history := history + [Finished(inFlight.value, |queue| < Capacity(config))];
        inFlight := None;
        if |queue| < Capacity(config) {
          overflowNoticePending := false;
        }
      }
    }
  }

  class EventDispatcher {
    var consumers: Registry<QueuedProjector>
    var traceAll: bool
    ghost var projectors: set<QueuedProjector>

    constructor (traceAll: bool)
      ensures Valid() && consumers == [] && projectors == {} && this.traceAll == traceAll
    {
      consumers, projectors := [], {};
      this.traceAll := traceAll;
    }

    ghost predicate Valid()
      reads this
    {
      Covers(consumers, projectors)
    }

    method Subscribe(namespace: string, consumer: QueuedProjector)
      requires Valid()
      modifies this
      ensures Valid() && traceAll == old(traceAll) && projectors == old(projectors) + {consumer}
      ensures consumers == Subscribed(old(consumers), namespace, consumer)
    {
      var i := 0;
      while i < |consumers| && consumers[i].0 != namespace
        invariant i <= |consumers| && forall j :: 0 <= j < i ==> consumers[j].0 != namespace
      {
        i := i + 1;
      }
      SubscribedAt(consumers, namespace, consumer, i);
      projectors := projectors + {consumer};
      if i < |consumers| {
        consumers := consumers[i := (namespace, consumers[i].1 + [consumer])];
      } else {
        consumers := consumers + [(namespace, [consumer])];
      }
    }

    method MatchPrefix(kind: string) returns (result: seq<QueuedProjector>)
      ensures result == Matching(consumers, traceAll, kind)
    {
      result := [];
      for i := 0 to |consumers|
        invariant result == Matching(consumers[..i], traceAll, kind)
      {
        var (prefix, ps) := consumers[i];
        if traceAll || prefix + "." <= kind || kind == prefix {
          result := result + ps;
        }
        assert consumers[..i + 1][..i] == consumers[..i];
      }
      assert consumers[..|consumers|] == consumers;
    }

    /** Hand an event to every matching projector; notices raised on the way are emitted at once. */
    method Emit(event: Event)
      requires Valid()
      modifies projectors
      ensures Views(projectors) == Emitted(consumers, traceAll, old(Views(projectors)), event)
      decreases Quiet(Views(projectors)), 2, 0
    {
      var matching := MatchPrefix(event.kind);
      MatchingCovered(consumers, traceAll, event.kind, projectors);
      FanOut(matching, event);
    }

    method FanOut(matching: seq<QueuedProjector>, event: Event)
      requires Valid() && forall i :: 0 <= i < |matching| ==> matching[i] in projectors
      modifies projectors
      ensures Views(projectors) == Delivered(consumers, traceAll, matching, old(Views(projectors)), event)
      decreases Quiet(Views(projectors)), 1, 0
    {
      ghost var before := Views(projectors);
      for i := 0 to |matching|
        invariant Delivered(consumers, traceAll, matching, before, event)
          == Delivered(consumers, traceAll, matching[i..], Views(projectors), event)
        invariant Quiet(Views(projectors)) <= Quiet(before)
      {
        DeliveredHead(consumers, traceAll, matching, i, Views(projectors), event);
        matching[i].Enqueue(event, this);
      }
    }
  }
}
