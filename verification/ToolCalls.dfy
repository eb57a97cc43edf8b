/**
 Assembly of tool-call fragments (`ToolCallFinalizer`). Absent ids, names and event ids are
 empty strings; decoding of the arguments is a parameter.
 */
module ToolCalls {
  import opened Common
  import opened Sorting

  /** What decoding the joined arguments yields; Null is the JSON document `null`. */
  datatype Parsed = Invalid | Null | Value(document: string)

  /** One fragment of a tool call, as the parser emits it. */
  datatype Fragment =
    Fragment(index: int, id: string, name: string, args: string, eventId: string, meta: map<string, string>)

  datatype Event =
    | Delta(fragment: Fragment)
    | Complete(index: int, id: string, name: string, args: string, parsed: Option<string>, eventId: string,
               meta: map<string, string>)
    | Finish(reason: string)
    | Other(kind: string)

  const TOOL_CALLS := "tool_calls"

  datatype Buffer = Buffer(id: string, name: string, args: seq<string>, eventId: string, meta: map<string, string>)

  datatype Config = Config(flushValidOnly: bool, streamDeltas: bool, parse: string -> Parsed)

  datatype State = State(buffers: map<int, Buffer>, flushed: bool, finalized: bool)

  const INITIAL := State(map[], false, false)

  // ---- The finalizer as a function ----------------------------------------

  function OrElse(a: string, b: string): string {
    if a == "" then b else a
  }

  function Arguments(d: Fragment): seq<string> {
    if d.args == "" then [] else [d.args]
  }

  /** A fragment joins its buffer: first non-empty id, name and event id stay, arguments append. */
  function AddFragment(b: Option<Buffer>, d: Fragment): Buffer {
    match b
    case None => Buffer(d.id, d.name, Arguments(d), d.eventId, d.meta)
    case Some(buf) => Buffer(OrElse(buf.id, d.id), OrElse(buf.name, d.name), buf.args + Arguments(d),
                             OrElse(buf.eventId, d.eventId), buf.meta + d.meta)
  }

  function CompleteOf(i: int, b: Buffer, parse: string -> Parsed): Event {
    var p := parse(Concat(b.args));
    Complete(i, b.id, b.name, Concat(b.args), if p.Value? then Some(p.document) else None, b.eventId, b.meta)
  }

  /** Which buffers a flush takes: all, those that decode, or those that decode to something but null. */
  datatype Policy = All | Decodable | NonNull

  predicate Keeps(policy: Policy, b: Buffer, parse: string -> Parsed) {
    match policy
    case All => true
    case Decodable => !parse(Concat(b.args)).Invalid?
    case NonNull => parse(Concat(b.args)).Value?
  }

  function FlushKeys(keys: seq<int>, buffers: map<int, Buffer>, policy: Policy, parse: string -> Parsed): seq<int> {
    if keys == [] then [] else
      FlushKeys(keys[..|keys| - 1], buffers, policy, parse)
      + (if Last(keys) in buffers && Keeps(policy, buffers[Last(keys)], parse) then [Last(keys)] else [])
  }

  function Completes(keys: seq<int>, buffers: map<int, Buffer>, parse: string -> Parsed): (es: seq<Event>)
    requires forall i :: 0 <= i < |keys| ==> keys[i] in buffers
    ensures |es| == |keys|
    ensures forall i :: 0 <= i < |keys| ==> es[i] == CompleteOf(keys[i], buffers[keys[i]], parse)
  {
    seq(|keys|, i requires 0 <= i < |keys| => CompleteOf(keys[i], buffers[keys[i]], parse))
  }

  lemma {:induction false} FlushKeysIn(keys: seq<int>, buffers: map<int, Buffer>, policy: Policy,
                                       parse: string -> Parsed, k: int)
    ensures k in FlushKeys(keys, buffers, policy, parse)
      <==> k in keys && k in buffers && Keeps(policy, buffers[k], parse)
    decreases |keys|
  {
    if keys != [] {
      assert keys == keys[..|keys| - 1] + [Last(keys)];
      FlushKeysIn(keys[..|keys| - 1], buffers, policy, parse, k);
    }
  }

  lemma {:induction false} FlushKeysAscending(keys: seq<int>, buffers: map<int, Buffer>, policy: Policy,
                                              parse: string -> Parsed)
    requires Ascending(keys)
    ensures Ascending(FlushKeys(keys, buffers, policy, parse))
    decreases |keys|
  {
    if keys != [] {
      var init := keys[..|keys| - 1];
      var f := FlushKeys(init, buffers, policy, parse);
      FlushKeysAscending(init, buffers, policy, parse);
      forall j | 0 <= j < |f| ensures f[j] < Last(keys) {
        FlushKeysIn(init, buffers, policy, parse, f[j]);
      }
    }
  }

  lemma {:induction false} FlushKeysStep(keys: seq<int>, i: nat, buffers: map<int, Buffer>, policy: Policy,
                                         parse: string -> Parsed)
    requires i < |keys|
    ensures FlushKeys(keys[..i + 1], buffers, policy, parse)
      == FlushKeys(keys[..i], buffers, policy, parse)
         + (if keys[i] in buffers && Keeps(policy, buffers[keys[i]], parse) then [keys[i]] else [])
  {
    assert keys[..i + 1][..i] == keys[..i];
  }

  lemma {:induction false} CompletesAppend(keys: seq<int>, k: int, buffers: map<int, Buffer>, parse: string -> Parsed)
    requires k in buffers && forall i :: 0 <= i < |keys| ==> keys[i] in buffers
    ensures forall i :: 0 <= i < |keys + [k]| ==> (keys + [k])[i] in buffers
    ensures Completes(keys + [k], buffers, parse)
      == Completes(keys, buffers, parse) + [CompleteOf(k, buffers[k], parse)]
  {
  }

  /** The keys a flush takes, in ascending order. */
  function Taken(buffers: map<int, Buffer>, policy: Policy, parse: string -> Parsed): seq<int> {
    FlushKeys(Sorted(buffers.Keys), buffers, policy, parse)
  }

  lemma {:induction false} TakenBuffered(buffers: map<int, Buffer>, policy: Policy, parse: string -> Parsed)
    ensures forall i :: 0 <= i < |Taken(buffers, policy, parse)| ==> Taken(buffers, policy, parse)[i] in buffers
  {
    var f := Taken(buffers, policy, parse);
    forall i | 0 <= i < |f| ensures f[i] in buffers {
      FlushKeysIn(Sorted(buffers.Keys), buffers, policy, parse, f[i]);
    }
  }

  function Flushed(buffers: map<int, Buffer>, policy: Policy, parse: string -> Parsed): (seq<Event>, map<int, Buffer>) {
    TakenBuffered(buffers, policy, parse);
    (Completes(Taken(buffers, policy, parse), buffers, parse), buffers - Elements(Taken(buffers, policy, parse)))
  }

  /** A flush takes exactly the buffers its policy keeps, in ascending order of index. */
  lemma {:induction false} FlushTakes(buffers: map<int, Buffer>, policy: Policy, parse: string -> Parsed)
    ensures Ascending(Taken(buffers, policy, parse))
    ensures forall k :: k in Taken(buffers, policy, parse) <==> k in buffers && Keeps(policy, buffers[k], parse)
  {
    SortedListsAll(buffers.Keys);
    FlushKeysAscending(Sorted(buffers.Keys), buffers, policy, parse);
    forall k
      ensures k in Taken(buffers, policy, parse) <==> k in buffers && Keeps(policy, buffers[k], parse)
    {
      FlushKeysIn(Sorted(buffers.Keys), buffers, policy, parse, k);
    }
  }

  function WithFragment(buffers: map<int, Buffer>, d: Fragment): map<int, Buffer> {
    buffers[d.index := AddFragment(Get(buffers, d.index), d)]
  }

  /** One input event: the new state and the events that go downstream. */
  function Process(s: State, e: Event, c: Config): (State, seq<Event>) {
    if e.Delta? then
      (s.(buffers := WithFragment(s.buffers, e.fragment)), if c.streamDeltas then [e] else [])
    else if e.Finish? && e.reason == TOOL_CALLS then
      var f := Flushed(s.buffers, if c.flushValidOnly then NonNull else All, c.parse);
      (s.(buffers := f.1, flushed := true), if s.flushed then [e] else f.0 + [e])
    else if e.Finish? && s.buffers != map[] then
      var f := Flushed(s.buffers, if c.flushValidOnly then Decodable else All, c.parse);
      (s.(buffers := f.1, flushed := true), if f.0 != [] then f.0 + [Finish(TOOL_CALLS)] else [e])
    else (s, [e])
  }

  /** The end of the stream; a second call is an error, here None. */
  function Finalize(s: State, c: Config): (State, Option<seq<Event>>) {
    if s.finalized then (s, None)
    else if s.buffers == map[] || c.streamDeltas then (s.(flushed := true, finalized := true), Some([]))
    else
      var f := Flushed(s.buffers, if c.flushValidOnly then Decodable else All, c.parse);
      (State(f.1, true, true), Some(f.0))
  }

  function Reset(s: State, preserveBuffer: bool): State {
    State(if preserveBuffer then s.buffers else map[], false, false)
  }

  // ---- The finalizer as a class -------------------------------------------

  class ToolCallFinalizer {
    const config: Config
    var buffers: map<int, Buffer>
    var flushed: bool
    var finalized: bool

    constructor (config: Config)
      ensures this.config == config && View() == INITIAL
    {
      this.config := config;
      buffers, flushed, finalized := map[], false, false;
    }

    ghost function View(): State
      reads this
    {
      State(buffers, flushed, finalized)
    }

    method ResetState(preserveBuffer: bool)
      modifies this
      ensures View() == Reset(old(View()), preserveBuffer)
    {
      if !preserveBuffer {
        buffers := map[];
      }
      flushed := false;
      finalized := false;
    }

    method BufferDelta(delta: Fragment)
      modifies this`buffers
      ensures buffers == WithFragment(old(buffers), delta)
    {
      var buf := if delta.index in buffers then buffers[delta.index]
                 else Buffer(delta.id, delta.name, [], delta.eventId, delta.meta);
      if delta.id != "" && buf.id == "" {
        buf := buf.(id := delta.id);
      }
      if delta.name != "" && buf.name == "" {
        buf := buf.(name := delta.name);
      }
      if delta.args != "" {
        buf := buf.(args := buf.args + [delta.args]);
      }
      if delta.eventId != "" && buf.eventId == "" {
        buf := buf.(eventId := delta.eventId);
      }
      buf := buf.(meta := buf.meta + delta.meta);
      assert delta.meta + delta.meta == delta.meta;
      assert [] + Arguments(delta) == Arguments(delta);
      assert buf == AddFragment(Get(buffers, delta.index), delta);
      buffers := buffers[delta.index := buf];
    }

    /** The flush loop under a policy: collect in key order, then delete what was taken. */
    method Flush(policy: Policy) returns (result: seq<Event>)
      modifies this`buffers
      ensures (result, buffers) == Flushed(old(buffers), policy, config.parse)
    {
      var flushedKeys: seq<int>;
      result, flushedKeys := Collect(policy);
      if policy == All {
        FlushTakes(buffers, All, config.parse);
        assert buffers - Elements(flushedKeys) == map[];
        buffers := map[];
      } else {
        DeleteKeys(flushedKeys);
      }
    }

    method CompleteBuffer(key: int, buf: Buffer, policy: Policy) returns (complete: Option<Event>)
      ensures complete == if Keeps(policy, buf, config.parse) then Some(CompleteOf(key, buf, config.parse)) else None
    {
      var parsed := config.parse(Concat(buf.args));
      if (policy == Decodable && parsed.Invalid?) || (policy == NonNull && !parsed.Value?) {
        return None;
      }
      return Some(Complete(key, buf.id, buf.name, Concat(buf.args),
                           if parsed.Value? then Some(parsed.document) else None, buf.eventId, buf.meta));
    }

    method Collect(policy: Policy) returns (result: seq<Event>, flushedKeys: seq<int>)
      ensures flushedKeys == Taken(buffers, policy, config.parse)
      ensures result == Flushed(buffers, policy, config.parse).0
    {
      var keys := Sorted(buffers.Keys);
      SortedListsAll(buffers.Keys);
      result, flushedKeys := [], [];
      for i := 0 to |keys|
        invariant forall j :: 0 <= j < |flushedKeys| ==> flushedKeys[j] in buffers
        invariant result == Completes(flushedKeys, buffers, config.parse)
        invariant flushedKeys == FlushKeys(keys[..i], buffers, policy, config.parse)
      {
        FlushKeysStep(keys, i, buffers, policy, config.parse);
        assert keys[i] in keys;
        var complete := CompleteBuffer(keys[i], buffers[keys[i]], policy);
        if complete.None? {
          continue;
        }
        CompletesAppend(flushedKeys, keys[i], buffers, config.parse);
        result := result + [complete.value];
        flushedKeys := flushedKeys + [keys[i]];
      }
      assert keys[..|keys|] == keys;
    }

    method DeleteKeys(keys: seq<int>)
      modifies this`buffers
      ensures buffers == old(buffers) - Elements(keys)
    {
      for i := 0 to |keys|
        invariant buffers == old(buffers) - Elements(keys[..i])
      {
        assert Elements(keys[..i + 1]) == Elements(keys[..i]) + {keys[i]};
        buffers := buffers - {keys[i]};
      }
      assert keys[..|keys|] == keys;
    }

    method ProcessEvent(event: Event) returns (out: seq<Event>)
      modifies this
      ensures (View(), out) == Process(old(View()), event, config)
    {
      if event.Delta? {
        BufferDelta(event.fragment);
        return if config.streamDeltas then [event] else [];
      }
      if event.Finish? && event.reason == TOOL_CALLS {
        var completes := Flush(if config.flushValidOnly then NonNull else All);
        if flushed {
          return [event];
        }
        flushed := true;
        return completes + [event];
      }
      if event.Finish? && buffers != map[] {
        var completes := Flush(if config.flushValidOnly then Decodable else All);
        flushed := true;
        if completes != [] {
          return completes + [Finish(TOOL_CALLS)];
        }
      }
      return [event];
    }

    method FinalizeStream() returns (out: Option<seq<Event>>)
      modifies this
      ensures (View(), out) == Finalize(old(View()), config)
    {
      if finalized {
        return None;
      }
      finalized := true;
      flushed := true;
      if buffers == map[] || config.streamDeltas {
        return Some([]);
      }
      var completes := Flush(if config.flushValidOnly then Decodable else All);
      return Some(completes);
    }
  }
}
