/** What tool-call assembly promises, over every run of the finalizer. */
module ToolCallLaws {
  import opened Common
  import opened Sorting
  import opened ToolCalls

  // ---- Assembly depends on each index alone -------------------------------

  /** The fragments of one index, in arrival order. */
  function Project(ds: seq<Fragment>, i: int): seq<Fragment> {
    if ds == [] then []
    else Project(ds[..|ds| - 1], i) + (if Last(ds).index == i then [Last(ds)] else [])
  }

  /** One call assembled from its own fragments only. */
  function Assemble(ds: seq<Fragment>): Option<Buffer> {
    if ds == [] then None else Some(AddFragment(Assemble(ds[..|ds| - 1]), Last(ds)))
  }

  function AfterFragments(s: State, ds: seq<Fragment>, c: Config): State {
    if ds == [] then s else Process(AfterFragments(s, ds[..|ds| - 1], c), Delta(Last(ds)), c).0
  }

  lemma {:induction false} AssembleAppend(ds: seq<Fragment>, d: Fragment)
    ensures Assemble(ds + [d]) == Some(AddFragment(Assemble(ds), d))
  {
    assert (ds + [d])[..|ds|] == ds;
  }

  /** The buffer of an index is the assembly of that index's fragments, however they interleave. */
  lemma {:induction false} BufferIsAssembly(ds: seq<Fragment>, c: Config, i: int)
    ensures Get(AfterFragments(INITIAL, ds, c).buffers, i) == Assemble(Project(ds, i))
    ensures !AfterFragments(INITIAL, ds, c).flushed && !AfterFragments(INITIAL, ds, c).finalized
  {
    if ds != [] {
      var init := ds[..|ds| - 1];
      BufferIsAssembly(init, c, i);
      AssembleAppend(Project(init, i), Last(ds));
      assert Project(init, i) + [] == Project(init, i);
    }
  }

  function AllArguments(ds: seq<Fragment>): seq<string> {
    if ds == [] then [] else AllArguments(ds[..|ds| - 1]) + Arguments(Last(ds))
  }

  /** The assembled arguments are the fragments' non-empty arguments in arrival order. */
  lemma {:induction false} AssembledArguments(ds: seq<Fragment>)
    requires ds != []
    ensures Assemble(ds).value.args == AllArguments(ds)
  {
    if |ds| > 1 {
      AssembledArguments(ds[..|ds| - 1]);
    } else {
      assert AllArguments(ds[..0]) == [];
    }
  }

  /** The first value that was given at all, or nothing when none was. */
  ghost predicate FirstGiven(values: seq<string>, r: string) {
    if r == "" then forall i :: 0 <= i < |values| ==> values[i] == ""
    else exists i :: 0 <= i < |values| && values[i] == r && forall j :: 0 <= j < i ==> values[j] == ""
  }

  lemma {:induction false} FirstGivenAppend(values: seq<string>, r: string, x: string)
    requires FirstGiven(values, r)
    ensures FirstGiven(values + [x], OrElse(r, x))
  {
    if r != "" {
      var i :| 0 <= i < |values| && values[i] == r && forall j :: 0 <= j < i ==> values[j] == "";
      assert (values + [x])[i] == r;
    } else if x != "" {
      assert (values + [x])[|values|] == x;
    }
  }

  function Ids(ds: seq<Fragment>): seq<string> {
    if ds == [] then [] else Ids(ds[..|ds| - 1]) + [Last(ds).id]
  }

  function CallNames(ds: seq<Fragment>): seq<string> {
    if ds == [] then [] else CallNames(ds[..|ds| - 1]) + [Last(ds).name]
  }

  function EventIds(ds: seq<Fragment>): seq<string> {
    if ds == [] then [] else EventIds(ds[..|ds| - 1]) + [Last(ds).eventId]
  }

  /** The value that the latest fragment with a metadata key gave it. */
  function LatestMeta(ds: seq<Fragment>, k: string): Option<string> {
    if ds == [] then None
    else if k in Last(ds).meta then Some(Last(ds).meta[k]) else LatestMeta(ds[..|ds| - 1], k)
  }

  /** What a buffer's fields say about the fragments it holds. */
  ghost predicate Describes(b: Buffer, ds: seq<Fragment>) {
    && FirstGiven(Ids(ds), b.id) && FirstGiven(CallNames(ds), b.name) && FirstGiven(EventIds(ds), b.eventId)
    && forall k :: Get(b.meta, k) == LatestMeta(ds, k)
  }

  lemma {:induction false} FieldsAppend(ds: seq<Fragment>, d: Fragment)
    ensures Ids(ds + [d]) == Ids(ds) + [d.id] && CallNames(ds + [d]) == CallNames(ds) + [d.name]
    ensures EventIds(ds + [d]) == EventIds(ds) + [d.eventId]
    ensures forall k :: LatestMeta(ds + [d], k) == if k in d.meta then Some(d.meta[k]) else LatestMeta(ds, k)
  {
    assert (ds + [d])[..|ds|] == ds;
  }

  lemma {:induction false} DescribesFirst(d: Fragment)
    ensures Describes(AddFragment(None, d), [d])
  {
    FieldsAppend([], d);
    assert [] + [d] == [d];
    FirstGivenAppend([], "", d.id);
    FirstGivenAppend([], "", d.name);
    FirstGivenAppend([], "", d.eventId);
  }

  lemma {:induction false} DescribesNext(b: Buffer, ds: seq<Fragment>, d: Fragment)
    requires Describes(b, ds)
    ensures Describes(AddFragment(Some(b), d), ds + [d])
  {
    FieldsAppend(ds, d);
    FirstGivenAppend(Ids(ds), b.id, d.id);
    FirstGivenAppend(CallNames(ds), b.name, d.name);
    FirstGivenAppend(EventIds(ds), b.eventId, d.eventId);
  }

  /** Id, name and event id are the first that were given; metadata keys hold their latest value. */
  lemma {:induction false} AssembledFields(ds: seq<Fragment>)
    requires ds != []
    ensures Describes(Assemble(ds).value, ds)
  {
    var init, d := ds[..|ds| - 1], Last(ds);
    assert ds == init + [d];
    if init == [] {
      DescribesFirst(d);
    } else {
      AssembledFields(init);
      DescribesNext(Assemble(init).value, init, d);
    }
  }

  /** Two interleavings with the same fragments per index leave the same state. */
  lemma {:induction false} InterleavingIrrelevant(ds: seq<Fragment>, es: seq<Fragment>, c: Config)
    requires forall i :: Project(ds, i) == Project(es, i)
    ensures AfterFragments(INITIAL, ds, c) == AfterFragments(INITIAL, es, c)
  {
    var a, b := AfterFragments(INITIAL, ds, c), AfterFragments(INITIAL, es, c);
    forall i
      ensures Get(a.buffers, i) == Get(b.buffers, i)
    {
      BufferIsAssembly(ds, c, i);
      BufferIsAssembly(es, c, i);
    }
    MapsEqual(a.buffers, b.buffers);
    BufferIsAssembly(ds, c, 0);
    BufferIsAssembly(es, c, 0);
  }

  // ---- Runs ---------------------------------------------------------------

  /** A call on the finalizer by the stream runner. */
  datatype Call = Feed(event: Event) | End | Restart(preserveBuffer: bool)

  function Next(s: State, call: Call, c: Config): (State, seq<Event>) {
    match call
    case Feed(e) => Process(s, e, c)
    case End => (Finalize(s, c).0, if Finalize(s, c).1.Some? then Finalize(s, c).1.value else [])
    case Restart(preserve) => (Reset(s, preserve), [])
  }

  function StateAfter(calls: seq<Call>, c: Config): State {
    if calls == [] then INITIAL else Next(StateAfter(calls[..|calls| - 1], c), Last(calls), c).0
  }

  /** The events the calls sent downstream, batch by batch. */
  function Output(calls: seq<Call>, c: Config): seq<Event> {
    if calls == [] then []
    else Output(calls[..|calls| - 1], c) + Next(StateAfter(calls[..|calls| - 1], c), Last(calls), c).1
  }

  /** The parser sends deltas only; completes come from the finalizer. */
  ghost predicate ParserCalls(calls: seq<Call>) {
    forall i :: 0 <= i < |calls| && calls[i].Feed? ==> !calls[i].event.Complete?
  }

  /** The argument fragments a call brings for an index. */
  function Brought(call: Call, i: int): seq<string> {
    if call.Feed? && call.event.Delta? && call.event.fragment.index == i then Arguments(call.event.fragment) else []
  }

  /** All argument fragments that arrived for an index. */
  function Arrived(calls: seq<Call>, i: int): seq<string> {
    if calls == [] then [] else Arrived(calls[..|calls| - 1], i) + Brought(Last(calls), i)
  }

  function Pending(s: State, i: int): seq<string> {
    if i in s.buffers then s.buffers[i].args else []
  }

  /** A buffer that left the assembly in one call, and whether it went downstream. */
  datatype Segment = Segment(args: seq<string>, sent: bool)

  /** The joined arguments of the completes of one index. */
  function CompletesOf(es: seq<Event>, i: int): seq<string> {
    if es == [] then []
    else CompletesOf(es[..|es| - 1], i) + (if Last(es).Complete? && Last(es).index == i then [Last(es).args] else [])
  }

  /** The buffer of an index that a call takes out of the assembly, if it does. */
  function StepSegments(s: State, call: Call, c: Config, i: int): seq<Segment> {
    if i in s.buffers && i !in Next(s, call, c).0.buffers
    then [Segment(s.buffers[i].args, CompletesOf(Next(s, call, c).1, i) != [])] else []
  }

  /** The buffers of an index that left the assembly, in order. */
  function Segments(calls: seq<Call>, c: Config, i: int): seq<Segment> {
    if calls == [] then [] else
      var init := calls[..|calls| - 1];
      Segments(init, c, i) + StepSegments(StateAfter(init, c), Last(calls), c, i)
  }

  function SegmentArgs(segments: seq<Segment>): seq<string> {
    if segments == [] then [] else SegmentArgs(segments[..|segments| - 1]) + Last(segments).args
  }

  function SentArgs(segments: seq<Segment>): seq<string> {
    if segments == [] then []
    else SentArgs(segments[..|segments| - 1]) + (if Last(segments).sent then [Concat(Last(segments).args)] else [])
  }

  lemma {:induction false} CompletesOfAppend(a: seq<Event>, b: seq<Event>, i: int)
    ensures CompletesOf(a + b, i) == CompletesOf(a, i) + CompletesOf(b, i)
  {
    if b == [] {
      assert a + b == a;
    } else {
      assert (a + b)[..|a + b| - 1] == a + b[..|b| - 1];
      CompletesOfAppend(a, b[..|b| - 1], i);
    }
  }

  lemma {:induction false} CompletesOfKeys(keys: seq<int>, buffers: map<int, Buffer>, parse: string -> Parsed, i: int)
    requires Ascending(keys) && forall j :: 0 <= j < |keys| ==> keys[j] in buffers
    ensures CompletesOf(Completes(keys, buffers, parse), i) == if i in keys then [Concat(buffers[i].args)] else []
    decreases |keys|
  {
    if keys != [] {
      var init, k := keys[..|keys| - 1], Last(keys);
      assert keys == init + [k];
      CompletesOfKeys(init, buffers, parse, i);
      CompletesAppend(init, k, buffers, parse);
      CompletesOfAppend(Completes(init, buffers, parse), [CompleteOf(k, buffers[k], parse)], i);
      assert CompletesOf([CompleteOf(k, buffers[k], parse)], i) == if k == i then [Concat(buffers[k].args)] else [];
      assert k !in init;
    }
  }

  /** A flush sends one complete with the whole buffer for each index it takes, and none for others. */
  lemma {:induction false} FlushSendsTaken(buffers: map<int, Buffer>, policy: Policy, parse: string -> Parsed, i: int)
    ensures var f := Flushed(buffers, policy, parse);
      && (i in f.1 <==> i in buffers && !Keeps(policy, buffers[i], parse))
      && (i in f.1 ==> f.1[i] == buffers[i])
      && CompletesOf(f.0, i)
         == if i in buffers && Keeps(policy, buffers[i], parse) then [Concat(buffers[i].args)] else []
  {
    FlushTakes(buffers, policy, parse);
    TakenBuffered(buffers, policy, parse);
    CompletesOfKeys(Taken(buffers, policy, parse), buffers, parse, i);
  }

  /** The policy a call flushes with, if it flushes. */
  function FlushPolicy(s: State, call: Call, c: Config): Option<Policy> {
    match call
    case Feed(e) =>
      if e.Finish? && e.reason == TOOL_CALLS then Some(if c.flushValidOnly then NonNull else All)
      else if e.Finish? && s.buffers != map[] then Some(if c.flushValidOnly then Decodable else All)
      else None
    case End =>
      if s.finalized || s.buffers == map[] || c.streamDeltas then None
      else Some(if c.flushValidOnly then Decodable else All)
    case Restart(_) => None
  }

  /** The calls whose flush throws its completes away: a repeated tool-calls finish. */
  predicate Discards(s: State, call: Call) {
    call.Feed? && call.event == Finish(TOOL_CALLS) && s.flushed
  }

  /** The call takes the buffer of an index out of the assembly. */
  predicate Takes(s: State, call: Call, c: Config, i: int) {
    && i in s.buffers
    && FlushPolicy(s, call, c).Some? && Keeps(FlushPolicy(s, call, c).value, s.buffers[i], c.parse)
  }

  lemma {:induction false} FlushStep(s: State, call: Call, c: Config, i: int)
    requires FlushPolicy(s, call, c).Some?
    ensures var (t, out) := Next(s, call, c);
      && (i in t.buffers <==> i in s.buffers && !Takes(s, call, c, i))
      && (i in t.buffers ==> t.buffers[i] == s.buffers[i])
      && CompletesOf(out, i) == if Takes(s, call, c, i) && !Discards(s, call) then [Concat(s.buffers[i].args)] else []
  {
    var p := FlushPolicy(s, call, c).value;
    var f := Flushed(s.buffers, p, c.parse);
    FlushSendsTaken(s.buffers, p, c.parse, i);
    if call.Feed? {
      CompletesOfAppend(f.0, [call.event], i);
      CompletesOfAppend(f.0, [Finish(TOOL_CALLS)], i);
      assert CompletesOf([call.event], i) == [] && CompletesOf([Finish(TOOL_CALLS)], i) == [];
    }
  }

  /** What one call does to one index: extend it, send it, lose it, or leave it. */
  lemma {:induction false} StepOnIndex(s: State, call: Call, c: Config, i: int)
    requires call.Feed? ==> !call.event.Complete?
    ensures var (t, out) := Next(s, call, c);
      && CompletesOf(out, i) == (if Takes(s, call, c, i) && !Discards(s, call) then [Concat(s.buffers[i].args)] else [])
      && (i in s.buffers ==> (i !in t.buffers <==> Takes(s, call, c, i) || call == Restart(false)))
      && (i in t.buffers ==> t.buffers[i].args == Pending(s, i) + Brought(call, i))
      && (i !in s.buffers && i !in t.buffers ==> Brought(call, i) == [])
      && (i in s.buffers && i !in t.buffers ==> Brought(call, i) == [])
  {
    if FlushPolicy(s, call, c).Some? {
      FlushStep(s, call, c, i);
    } else if call.Feed? {
      assert CompletesOf([call.event], i) == [];
    }
  }

  lemma {:induction false} SegmentsAppend(before: seq<Segment>, more: seq<Segment>)
    requires |more| <= 1
    ensures SegmentArgs(before + more) == SegmentArgs(before) + SegmentArgs(more)
    ensures SentArgs(before + more) == SentArgs(before) + SentArgs(more)
  {
    if more == [] {
      assert before + more == before;
    } else {
      assert (before + more)[..|before|] == before;
      assert more[..0] == [];
    }
  }

  /** One call neither creates nor loses fragments of an index, and sends what it says it sends. */
  lemma {:induction false} StepConserves(s: State, call: Call, c: Config, i: int)
    requires call.Feed? ==> !call.event.Complete?
    ensures SegmentArgs(StepSegments(s, call, c, i)) + Pending(Next(s, call, c).0, i)
      == Pending(s, i) + Brought(call, i)
    ensures SentArgs(StepSegments(s, call, c, i)) == CompletesOf(Next(s, call, c).1, i)
  {
    StepOnIndex(s, call, c, i);
    var t, out := Next(s, call, c).0, Next(s, call, c).1;
    var segments := StepSegments(s, call, c, i);
    if segments != [] {
      assert segments[..0] == [];
      assert SegmentArgs(segments) == s.buffers[i].args;
    }
  }

  lemma {:induction false} Regroup<T>(a: seq<T>, b: seq<T>, p: seq<T>, q: seq<T>, r: seq<T>)
    requires b + p == q + r
    ensures (a + b) + p == (a + q) + r
  {
    assert (a + b) + p == a + (b + p);
    assert (a + q) + r == a + (q + r);
  }

  /**
   Fragments are conserved. For every index and every run, the buffers that left the
   assembly followed by the pending one are exactly the fragments that arrived, in order;
   so no fragment is in two of them. And the completes sent for the index are exactly the
   joined buffers that were sent, in order.
   */
  lemma {:induction false} FragmentsConserved(calls: seq<Call>, c: Config, i: int)
    requires ParserCalls(calls)
    ensures SegmentArgs(Segments(calls, c, i)) + Pending(StateAfter(calls, c), i) == Arrived(calls, i)
    ensures CompletesOf(Output(calls, c), i) == SentArgs(Segments(calls, c, i))
  {
    if calls != [] {
      var init, call := calls[..|calls| - 1], Last(calls);
      var s, before := StateAfter(init, c), Segments(init, c, i);
      var more := StepSegments(s, call, c, i);
      FragmentsConserved(init, c, i);
      StepConserves(s, call, c, i);
      SegmentsAppend(before, more);
      CompletesOfAppend(Output(init, c), Next(s, call, c).1, i);
      Regroup(SegmentArgs(before), SegmentArgs(more), Pending(Next(s, call, c).0, i), Pending(s, i), Brought(call, i));
    }
  }

  /** A buffer leaves without being sent exactly on a clearing reset or a repeated tool-calls finish. */
  lemma {:induction false} LostExactlyWhen(s: State, call: Call, c: Config, i: int)
    requires (call.Feed? ==> !call.event.Complete?) && i in s.buffers
    ensures (i !in Next(s, call, c).0.buffers && CompletesOf(Next(s, call, c).1, i) == [])
      <==> (call == Restart(false) || (Discards(s, call) && Takes(s, call, c, i)))
  {
    StepOnIndex(s, call, c, i);
  }

  // ---- Batches ------------------------------------------------------------

  /** Completes of one batch come first and in strictly ascending index. */
  ghost predicate OrderedBatch(out: seq<Event>, n: nat) {
    && n <= |out|
    && (forall j :: 0 <= j < n ==> out[j].Complete?)
    && (forall j :: n <= j < |out| ==> !out[j].Complete?)
    && (forall j, k :: 0 <= j < k < n ==> out[j].index < out[k].index)
  }

  lemma {:induction false} FlushOrdered(buffers: map<int, Buffer>, policy: Policy, parse: string -> Parsed)
    ensures OrderedBatch(Flushed(buffers, policy, parse).0, |Flushed(buffers, policy, parse).0|)
  {
    FlushTakes(buffers, policy, parse);
  }

  /**
   In terminal mode completes appear only on a finish or at the end of the stream. On a
   finish they come in ascending index, followed in the same batch by the single event
   `Finish("tool_calls")`.
   */
  lemma {:induction false} FinishFollowsCompletes(s: State, e: Event, c: Config)
    requires !e.Complete?
    ensures var out := Process(s, e, c).1;
      (exists j :: 0 <= j < |out| && out[j].Complete?) ==>
        e.Finish? && OrderedBatch(out, |out| - 1) && Last(out) == Finish(TOOL_CALLS)
  {
    var p := FlushPolicy(s, Feed(e), c);
    if p.Some? {
      FlushOrdered(s.buffers, p.value, c.parse);
    }
  }

  /** After the end of the stream was handled, handling it again is an error that changes nothing. */
  lemma {:induction false} FinalizeOnce(s: State, c: Config)
    ensures Finalize(Finalize(s, c).0, c) == (Finalize(s, c).0, None)
  {
  }

  /** Valid-only flushing holds back `null` arguments on a tool-calls finish and sends them on others. */
  lemma {:induction false} NullHeldBack(s: State, reason: string, c: Config, i: int)
    requires c.flushValidOnly && !s.flushed && i in s.buffers && c.parse(Concat(s.buffers[i].args)).Null?
    ensures CompletesOf(Process(s, Finish(reason), c).1, i) != [] <==> reason != TOOL_CALLS
    ensures i in Process(s, Finish(reason), c).0.buffers <==> reason == TOOL_CALLS
  {
    StepOnIndex(s, Feed(Finish(reason)), c, i);
  }

  /**
   In live mode a complete still duplicates relayed deltas exactly when a finish meets a
   buffer its policy keeps, unless it is a repeated tool-calls finish; the end of the
   stream adds none.
   */
  lemma {:induction false} LiveModeDuplicatesExactlyWhen(s: State, e: Event, c: Config, i: int)
    requires c.streamDeltas && !e.Complete?
    ensures CompletesOf(Process(s, e, c).1, i) != [] <==>
      e.Finish? && i in s.buffers && !(e.reason == TOOL_CALLS && s.flushed)
      && Keeps(if !c.flushValidOnly then All else if e.reason == TOOL_CALLS then NonNull else Decodable,
               s.buffers[i], c.parse)
    ensures Finalize(s, c).1.Some? ==> Finalize(s, c).1.value == []
  {
    StepOnIndex(s, Feed(e), c, i);
  }

  // ---- What a complete carries --------------------------------------------

  function BroughtFragments(call: Call, i: int): seq<Fragment> {
    if call.Feed? && call.event.Delta? && call.event.fragment.index == i then [call.event.fragment] else []
  }

  /** The fragments of an index that arrived since its buffer last left the assembly. */
  function PendingFragments(calls: seq<Call>, c: Config, i: int): seq<Fragment> {
    if calls == [] || i !in StateAfter(calls, c).buffers then []
    else PendingFragments(calls[..|calls| - 1], c, i) + BroughtFragments(Last(calls), i)
  }

  lemma {:induction false} StepBuffer(s: State, call: Call, c: Config, i: int)
    requires call.Feed? ==> !call.event.Complete?
    requires i in Next(s, call, c).0.buffers
    ensures var brought := BroughtFragments(call, i);
      Some(Next(s, call, c).0.buffers[i])
      == if brought == [] then Get(s.buffers, i) else Some(AddFragment(Get(s.buffers, i), brought[0]))
  {
    if FlushPolicy(s, call, c).Some? {
      FlushStep(s, call, c, i);
    }
  }

  /** A buffer is the assembly of its pending fragments. */
  lemma {:induction false} PendingAssembled(calls: seq<Call>, c: Config, i: int)
    requires ParserCalls(calls)
    ensures Get(StateAfter(calls, c).buffers, i) == Assemble(PendingFragments(calls, c, i))
  {
    if calls != [] {
      var init, call := calls[..|calls| - 1], Last(calls);
      PendingAssembled(init, c, i);
      if i in StateAfter(calls, c).buffers {
        StepBuffer(StateAfter(init, c), call, c, i);
        var brought := BroughtFragments(call, i);
        if brought != [] {
          AssembleAppend(PendingFragments(init, c, i), brought[0]);
        } else {
          assert PendingFragments(init, c, i) + [] == PendingFragments(init, c, i);
        }
      }
    }
  }

  lemma {:induction false} FlushedAreBuffers(buffers: map<int, Buffer>, policy: Policy, parse: string -> Parsed, j: nat)
    requires j < |Flushed(buffers, policy, parse).0|
    ensures var e := Flushed(buffers, policy, parse).0[j];
      e.Complete? && e.index in buffers && e == CompleteOf(e.index, buffers[e.index], parse)
  {
    TakenBuffered(buffers, policy, parse);
  }

  lemma {:induction false} SentAreBuffers(s: State, call: Call, c: Config, j: nat)
    requires call.Feed? ==> !call.event.Complete?
    requires j < |Next(s, call, c).1| && Next(s, call, c).1[j].Complete?
    ensures var e := Next(s, call, c).1[j];
      e.index in s.buffers && e == CompleteOf(e.index, s.buffers[e.index], c.parse)
  {
    var policy := FlushPolicy(s, call, c);
    if policy.Some? && j < |Flushed(s.buffers, policy.value, c.parse).0| {
      FlushedAreBuffers(s.buffers, policy.value, c.parse, j);
    }
  }

  /** What a complete says about the fragments it was made from. */
  ghost predicate CompleteSays(e: Event, ds: seq<Fragment>, parse: string -> Parsed)
    requires e.Complete?
  {
    && FirstGiven(Ids(ds), e.id) && FirstGiven(CallNames(ds), e.name) && FirstGiven(EventIds(ds), e.eventId)
    && (forall k :: Get(e.meta, k) == LatestMeta(ds, k))
    && e.args == Concat(AllArguments(ds))
    && e.parsed == match parse(e.args) case Value(document) => Some(document) case _ => None
  }

  /**
   Over every run, each complete that is sent is made from the fragments of its index that
   arrived since that index last left the assembly: the first id, name and event id given,
   the latest metadata, all arguments in order, and the document they decode to, if any.
   */
  lemma {:induction false} CompleteCarriesFragments(calls: seq<Call>, call: Call, c: Config, j: nat)
    requires ParserCalls(calls) && (call.Feed? ==> !call.event.Complete?)
    requires j < |Next(StateAfter(calls, c), call, c).1| && Next(StateAfter(calls, c), call, c).1[j].Complete?
    ensures var e := Next(StateAfter(calls, c), call, c).1[j];
      PendingFragments(calls, c, e.index) != [] && CompleteSays(e, PendingFragments(calls, c, e.index), c.parse)
  {
    var e := Next(StateAfter(calls, c), call, c).1[j];
    SentAreBuffers(StateAfter(calls, c), call, c, j);
    PendingAssembled(calls, c, e.index);
    AssembledFields(PendingFragments(calls, c, e.index));
    AssembledArguments(PendingFragments(calls, c, e.index));
  }

  // ---- Which buffers are sent, and what else is ---------------------------

  /** A finish sends a buffer unless it repeats a tool-calls finish or its arguments are held back as invalid. */
  lemma {:induction false} FinishSends(s: State, reason: string, c: Config, i: int)
    requires i in s.buffers
    ensures var args := Concat(s.buffers[i].args);
      var held := c.flushValidOnly && (c.parse(args).Invalid? || (c.parse(args).Null? && reason == "tool_calls"));
      && CompletesOf(Process(s, Finish(reason), c).1, i)
         == (if held || (reason == "tool_calls" && s.flushed) then [] else [args])
      && (i in Process(s, Finish(reason), c).0.buffers <==> held)
  {
    StepOnIndex(s, Feed(Finish(reason)), c, i);
  }

  /** The end of the stream sends what decodes, or everything, but nothing in live mode. */
  lemma {:induction false} EndSends(s: State, c: Config, i: int)
    requires i in s.buffers && !s.finalized
    ensures var args := Concat(s.buffers[i].args);
      Finalize(s, c).1.Some?
      && CompletesOf(Finalize(s, c).1.value, i)
         == (if c.streamDeltas || (c.flushValidOnly && c.parse(args).Invalid?) then [] else [args])
  {
    StepOnIndex(s, End, c, i);
  }

  /** Everything but the completes. */
  function WithoutCompletes(es: seq<Event>): seq<Event> {
    if es == [] then []
    else if Last(es).Complete? then WithoutCompletes(es[..|es| - 1]) else WithoutCompletes(es[..|es| - 1]) + [Last(es)]
  }

  lemma {:induction false} AllCompletes(es: seq<Event>)
    requires forall j :: 0 <= j < |es| ==> es[j].Complete?
    ensures WithoutCompletes(es) == []
  {
    if es != [] {
      AllCompletes(es[..|es| - 1]);
    }
  }

  lemma {:induction false} WithoutCompletesAppend(a: seq<Event>, b: seq<Event>)
    ensures WithoutCompletes(a + b) == WithoutCompletes(a) + WithoutCompletes(b)
  {
    if b == [] {
      assert a + b == a;
    } else {
      assert (a + b)[..|a + b| - 1] == a + b[..|b| - 1];
      WithoutCompletesAppend(a, b[..|b| - 1]);
    }
  }

  /** What stands for an event beside completes: itself, nothing for a withheld fragment, or an upgraded finish. */
  function Relay(e: Event, upgraded: bool, c: Config): seq<Event> {
    if e.Delta? then (if c.streamDeltas then [e] else [])
    else if e.Finish? && upgraded then [Finish("tool_calls")]
    else [e]
  }

  lemma {:induction false} OneEvent(e: Event)
    requires !e.Complete?
    ensures WithoutCompletes([e]) == [e]
  {
    assert [e][..0] == [];
  }

  lemma {:induction false} CompletesThen(sent: seq<Event>, last: Event)
    requires !last.Complete? && forall j :: 0 <= j < |sent| ==> sent[j].Complete?
    ensures WithoutCompletes(sent + [last]) == [last]
  {
    AllCompletes(sent);
    OneEvent(last);
    WithoutCompletesAppend(sent, [last]);
  }

  lemma {:induction false} FlushedAreCompletes(buffers: map<int, Buffer>, policy: Policy, parse: string -> Parsed)
    ensures var sent := Flushed(buffers, policy, parse).0; forall j :: 0 <= j < |sent| ==> sent[j].Complete?
  {
    FlushOrdered(buffers, policy, parse);
  }

  /** Besides completes, an event yields exactly its relay; a finish is upgraded exactly when completes go before it. */
  lemma {:induction false} EventRelayed(s: State, e: Event, c: Config)
    requires !e.Complete?
    ensures var out := Process(s, e, c).1; WithoutCompletes(out) == Relay(e, |out| > 1, c)
  {
    OneEvent(e);
    if e.Finish? && (e.reason == TOOL_CALLS || s.buffers != map[]) {
      var policy := FlushPolicy(s, Feed(e), c).value;
      FlushedAreCompletes(s.buffers, policy, c.parse);
      CompletesThen(Flushed(s.buffers, policy, c.parse).0, Finish(TOOL_CALLS));
    }
  }

  function RelayOfCall(s: State, call: Call, c: Config): seq<Event> {
    if call.Feed? then Relay(call.event, |Process(s, call.event, c).1| > 1, c) else []
  }

  /** The relays of a run, call by call. */
  function Relays(calls: seq<Call>, c: Config): seq<Event> {
    if calls == [] then []
    else Relays(calls[..|calls| - 1], c) + RelayOfCall(StateAfter(calls[..|calls| - 1], c), Last(calls), c)
  }

  lemma {:induction false} CallRelayed(s: State, call: Call, c: Config)
    requires call.Feed? ==> !call.event.Complete?
    ensures WithoutCompletes(Next(s, call, c).1) == RelayOfCall(s, call, c)
  {
    if call.Feed? {
      EventRelayed(s, call.event, c);
    } else if FlushPolicy(s, call, c).Some? {
      FlushOrdered(s.buffers, FlushPolicy(s, call, c).value, c.parse);
      AllCompletes(Next(s, call, c).1);
    }
  }

  /** Over every run, what goes downstream beside completes is every event's relay, in order. */
  lemma {:induction false} EventsRelayedInOrder(calls: seq<Call>, c: Config)
    requires ParserCalls(calls)
    ensures WithoutCompletes(Output(calls, c)) == Relays(calls, c)
  {
    if calls != [] {
      var init, call := calls[..|calls| - 1], Last(calls);
      var s := StateAfter(init, c);
      EventsRelayedInOrder(init, c);
      WithoutCompletesAppend(Output(init, c), Next(s, call, c).1);
      CallRelayed(s, call, c);
    }
  }

  /** The stream was ended, and not restarted since. */
  predicate Ended(calls: seq<Call>) {
    calls != [] && (Last(calls).End? || (!Last(calls).Restart? && Ended(calls[..|calls| - 1])))
  }

  /** Buffers were flushed, or their flush was due, since the last restart. */
  predicate FlushedSince(calls: seq<Call>, c: Config) {
    calls != [] && !Last(calls).Restart? && (
      || Last(calls).End?
      || (Last(calls).event.Finish?
          && (Last(calls).event.reason == "tool_calls" || StateAfter(calls[..|calls| - 1], c).buffers != map[]))
      || FlushedSince(calls[..|calls| - 1], c))
  }

  /** The two flags of the finalizer, read off the run. */
  lemma {:induction false} FlagsOfRun(calls: seq<Call>, c: Config)
    requires ParserCalls(calls)
    ensures StateAfter(calls, c).finalized <==> Ended(calls)
    ensures StateAfter(calls, c).flushed || Ended(calls) <==> FlushedSince(calls, c)
    ensures Ended(calls) ==> StateAfter(calls, c).flushed
  {
    if calls != [] {
      FlagsOfRun(calls[..|calls| - 1], c);
    }
  }

  // ---- Reachable cases ----------------------------------------------------

  lemma {:induction false} RunAppend(calls: seq<Call>, call: Call, c: Config)
    ensures StateAfter(calls + [call], c) == Next(StateAfter(calls, c), call, c).0
    ensures Output(calls + [call], c) == Output(calls, c) + Next(StateAfter(calls, c), call, c).1
  {
    assert (calls + [call])[..|calls|] == calls;
  }

  function Piece(args: string): Call {
    Feed(Delta(Fragment(0, "id", "name", args, "", map[])))
  }

  /** Whether a finish takes a buffer. */
  predicate FinishTakes(reason: string, b: Buffer, c: Config) {
    Keeps(if !c.flushValidOnly then All else if reason == TOOL_CALLS then NonNull else Decodable, b, c.parse)
  }

  lemma {:induction false} PieceBuffered(s: State, args: string, c: Config)
    requires 0 !in s.buffers && args != ""
    ensures var (t, out) := Next(s, Piece(args), c);
      && t.buffers == s.buffers[0 := Buffer("id", "name", [args], "", map[])] && t.flushed == s.flushed
      && CompletesOf(out, 0) == [] && out == (if c.streamDeltas then [Piece(args).event] else [])
  {
    StepOnIndex(s, Piece(args), c, 0);
    assert [] + [args] == [args];
  }

  lemma {:induction false} BufferFinished(t: State, args: string, reason: string, c: Config)
    requires 0 in t.buffers && t.buffers[0].args == [args]
    ensures var (u, out) := Next(t, Feed(Finish(reason)), c);
      && (FinishTakes(reason, t.buffers[0], c) <==> 0 !in u.buffers) && u.flushed
      && CompletesOf(out, 0)
         == (if FinishTakes(reason, t.buffers[0], c) && !(reason == TOOL_CALLS && t.flushed) then [args] else [])
  {
    StepOnIndex(t, Feed(Finish(reason)), c, 0);
    assert Concat([args]) == args + Concat([args][1..]) == args;
  }

  /** A round of one fragment and a finish, from a state without a buffer for the index. */
  lemma {:induction false} Round(calls: seq<Call>, args: string, reason: string, c: Config)
    requires 0 !in StateAfter(calls, c).buffers && args != ""
    ensures var all := calls + [Piece(args)] + [Feed(Finish(reason))];
      var taken := FinishTakes(reason, Buffer("id", "name", [args], "", map[]), c);
      && (taken <==> 0 !in StateAfter(all, c).buffers) && StateAfter(all, c).flushed
      && CompletesOf(Output(all, c), 0)
         == CompletesOf(Output(calls, c), 0)
            + (if taken && !(reason == TOOL_CALLS && StateAfter(calls, c).flushed) then [args] else [])
  {
    var one := calls + [Piece(args)];
    var s, t := StateAfter(calls, c), StateAfter(one, c);
    RunAppend(calls, Piece(args), c);
    RunAppend(one, Feed(Finish(reason)), c);
    PieceBuffered(s, args, c);
    BufferFinished(t, args, reason, c);
    CompletesOfAppend(Output(calls, c), Next(s, Piece(args), c).1, 0);
    CompletesOfAppend(Output(one, c), Next(t, Feed(Finish(reason)), c).1, 0);
    assert CompletesOf(Output(calls, c), 0) + [] == CompletesOf(Output(calls, c), 0);
  }

  /** The first round of a run. */
  lemma {:induction false} FirstRound(args: string, reason: string, c: Config)
    requires args != ""
    ensures var calls := [Piece(args), Feed(Finish(reason))];
      var taken := FinishTakes(reason, Buffer("id", "name", [args], "", map[]), c);
      && (taken <==> 0 !in StateAfter(calls, c).buffers) && StateAfter(calls, c).flushed
      && CompletesOf(Output(calls, c), 0) == (if taken then [args] else [])
  {
    Round([], args, reason, c);
    assert [] + [Piece(args)] + [Feed(Finish(reason))] == [Piece(args), Feed(Finish(reason))];
    assert Output([], c) == [] && CompletesOf([], 0) == [];
  }

  lemma {:induction false} FragmentsOf(calls: seq<Call>)
    requires calls == [Piece("a"), Feed(Finish(TOOL_CALLS)), Piece("b"), Feed(Finish(TOOL_CALLS))]
    ensures Arrived(calls, 0) == ["a", "b"]
  {
    assert Arrived(calls[..1], 0) == ["a"] by { assert calls[..1][..0] == []; }
    assert calls[..2][..1] == calls[..1] && calls[..3][..2] == calls[..2] && calls[..4][..3] == calls[..3];
    assert Arrived(calls[..2], 0) == ["a"];
    assert Arrived(calls[..3], 0) == ["a", "b"];
    assert calls[..4] == calls;
  }

  /** A second round of fragments after a tool-calls finish is assembled and then lost. */
  lemma {:induction false} SecondFinishLosesCall(c: Config)
    requires !c.flushValidOnly
    ensures var calls := [Piece("a"), Feed(Finish(TOOL_CALLS)), Piece("b"), Feed(Finish(TOOL_CALLS))];
      && Arrived(calls, 0) == ["a", "b"]
      && CompletesOf(Output(calls, c), 0) == ["a"] && Pending(StateAfter(calls, c), 0) == []
  {
    var first := [Piece("a"), Feed(Finish(TOOL_CALLS))];
    FirstRound("a", TOOL_CALLS, c);
    Round(first, "b", TOOL_CALLS, c);
    assert first + [Piece("b")] + [Feed(Finish(TOOL_CALLS))]
        == [Piece("a"), Feed(Finish(TOOL_CALLS)), Piece("b"), Feed(Finish(TOOL_CALLS))];
    FragmentsOf([Piece("a"), Feed(Finish(TOOL_CALLS)), Piece("b"), Feed(Finish(TOOL_CALLS))]);
  }

  /** In live mode a relayed fragment comes back in a complete at the finish. */
  lemma {:induction false} LiveModeDuplicates(parse: string -> Parsed)
    ensures var c := Config(false, true, parse);
      var calls := [Piece("a"), Feed(Finish(TOOL_CALLS))];
      [Piece("a").event] <= Output(calls, c) && CompletesOf(Output(calls, c), 0) == ["a"]
  {
    var c := Config(false, true, parse);
    FirstRound("a", TOOL_CALLS, c);
    RunAppend([], Piece("a"), c);
    RunAppend([Piece("a")], Feed(Finish(TOOL_CALLS)), c);
    assert [Piece("a")] + [Feed(Finish(TOOL_CALLS))] == [Piece("a"), Feed(Finish(TOOL_CALLS))];
    assert [] + [Piece("a")] == [Piece("a")];
  }

  lemma {:induction false} NullRound(reason: string, parse: string -> Parsed)
    requires parse("null").Null?
    ensures CompletesOf(Output([Piece("null"), Feed(Finish(reason))], Config(true, false, parse)), 0)
      == if reason == TOOL_CALLS then [] else ["null"]
  {
    assert Concat(["null"]) == "null" + Concat(["null"][1..]) == "null";
    FirstRound("null", reason, Config(true, false, parse));
  }

  /** The same `null` arguments, held back on a tool-calls finish and sent on a stop. */
  lemma {:induction false} NullHeldBackAndSent(parse: string -> Parsed)
    requires parse("null").Null?
    ensures CompletesOf(Output([Piece("null"), Feed(Finish(TOOL_CALLS))], Config(true, false, parse)), 0) == []
    ensures CompletesOf(Output([Piece("null"), Feed(Finish("stop"))], Config(true, false, parse)), 0) == ["null"]
  {
    assert |"stop"| != |TOOL_CALLS|;
    NullRound(TOOL_CALLS, parse);
    NullRound("stop", parse);
  }
}
