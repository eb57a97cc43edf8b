/**
 The attempt loop of one streaming request (`upstream_stream`): it tries the upstreams in
 order and streams the first one that answers. What each upstream does is a script.
 */
module StreamingFallback {
  import opened Common

  /** An exception: cancellation and generator exit are never retried, all others may be. */
  datatype Fault = Cancelled | Transport(what: string)

  /** What the upstream of one attempt does when it is tried. */
  datatype Script =
    | NoResponse(fault: Fault)
    | Response(status: int, errorBody: string, readFault: Option<Fault>, chunks: seq<string>, ending: Option<Fault>)

  /** What the loop does that others can see: it starts attempts and hands on chunks. */
  datatype Act = Start(attempt: nat) | Chunk(attempt: nat, data: string)

  datatype Outcome =
    | Completed
    | UpstreamError(status: int, body: string)
    | Raised(fault: Fault)
    | ClosedByClient

  predicate IsTerminalClientError(status: int) {
    status == 400
  }

  // ---- Specification ------------------------------------------------------

  function StartActs(n: nat): seq<Act> {
    if n == 0 then [] else StartActs(n - 1) + [Start(n - 1)]
  }

  function ChunkActs(attempt: nat, chunks: seq<string>): (acts: seq<Act>)
    ensures |acts| == |chunks| && forall i :: 0 <= i < |acts| ==> acts[i] == Chunk(attempt, chunks[i])
  {
    seq(|chunks|, i requires 0 <= i < |chunks| => Chunk(attempt, chunks[i]))
  }

  function Limit(chunks: seq<string>, closeAfter: Option<nat>): (sent: seq<string>)
    ensures sent <= chunks
  {
    if closeAfter.Some? && closeAfter.value < |chunks|
    then chunks[..if closeAfter.value == 0 then 1 else closeAfter.value] else chunks
  }

  /** The body that an attempt streams, none unless its status is below 400. */
  function BodyOf(s: Script): seq<string> {
    if s.Response? && s.status < 400 then s.chunks else []
  }

  function Delivered(s: Script, closeAfter: Option<nat>): seq<string> {
    Limit(BodyOf(s), closeAfter)
  }

  function BodyOutcome(chunks: seq<string>, ending: Option<Fault>, closeAfter: Option<nat>): Outcome {
    if chunks != [] && closeAfter.Some? && closeAfter.value <= |chunks| then ClosedByClient
    else if ending.Some? then Raised(ending.value) else Completed
  }

  function OutcomeOf(s: Script, closeAfter: Option<nat>): Outcome {
    match s
    case NoResponse(fault) => Raised(fault)
    case Response(status, body, readFault, chunks, ending) =>
      if status < 400 then BodyOutcome(chunks, ending, closeAfter)
      else if readFault.Some? then Raised(readFault.value) else UpstreamError(status, body)
  }

  /** An attempt that failed before its first chunk for a reason another upstream may not share. */
  predicate Retryable(s: Script) {
    match s
    case NoResponse(fault) => fault != Cancelled
    case Response(status, _, readFault, chunks, ending) =>
      if status < 400 then chunks == [] && ending.Some? && ending.value != Cancelled
      else if readFault.Some? then readFault.value != Cancelled
      else !IsTerminalClientError(status)
  }

  /** The first attempt that is not retryable, or the last one. */
  function Decisive(attempts: seq<Script>): (w: nat)
    requires attempts != []
    ensures w < |attempts|
    ensures forall i :: 0 <= i < w ==> Retryable(attempts[i])
    ensures w + 1 < |attempts| ==> !Retryable(attempts[w])
  {
    if |attempts| == 1 || !Retryable(attempts[0]) then 0 else 1 + Decisive(attempts[1..])
  }

  // ---- The loop -----------------------------------------------------------

  /** Deliver the chunks of one attempt until the consumer closes, the body fails or it ends. */
  method StreamBody(index: nat, chunks: seq<string>, ending: Option<Fault>, closeAfter: Option<nat>, log: seq<Act>)
      returns (outcome: Outcome, seen: bool, after: seq<Act>)
    ensures var sent := Limit(chunks, closeAfter); after == log + ChunkActs(index, sent)
    ensures seen <==> chunks != []
    ensures outcome == BodyOutcome(chunks, ending, closeAfter)
  {
    seen, after := false, log;
    for i := 0 to |chunks|
      invariant after == log + ChunkActs(index, chunks[..i]) && (seen <==> i > 0)
      invariant i > 0 && closeAfter.Some? ==> i < closeAfter.value
    {
      seen := true;
      assert chunks[..i + 1] == chunks[..i] + [chunks[i]];
      after := after + [Chunk(index, chunks[i])];
      if closeAfter.Some? && i + 1 >= closeAfter.value {
        return ClosedByClient, seen, after;
      }
    }
    assert chunks[..|chunks|] == chunks;
    return if ending.Some? then Raised(ending.value) else Completed, seen, after;
  }

  /**
   One run. `closeAfter` is the number of chunks after which the consumer closes the stream,
   if it does.
   */
  method UpstreamStream(attempts: seq<Script>, closeAfter: Option<nat>) returns (outcome: Outcome, log: seq<Act>)
    requires attempts != []
    ensures var w := Decisive(attempts);
      && log == StartActs(w + 1) + ChunkActs(w, Delivered(attempts[w], closeAfter))
      && outcome == OutcomeOf(attempts[w], closeAfter)
  {
    log := [];
    for index := 0 to |attempts|
      invariant log == StartActs(index)
      invariant index < |attempts| && Decisive(attempts) == index + Decisive(attempts[index..])
    {
      assert attempts[index..][0] == attempts[index];
      assert attempts[index..][1..] == attempts[index + 1..];
      var more := index + 1 < |attempts|;
      log := log + [Start(index)];
      match attempts[index] {
        case NoResponse(fault) =>
          if fault == Cancelled || !more {
            return Raised(fault), log;
          }
        case Response(status, errorBody, readFault, chunks, ending) =>
          if status >= 400 {
            if readFault.Some? {
              if readFault.value == Cancelled || !more {
                return Raised(readFault.value), log;
              }
              continue;
            }
            if !IsTerminalClientError(status) && more {
              continue;
            }
            return UpstreamError(status, errorBody), log;
          }
          var seen;
          outcome, seen, log := StreamBody(index, chunks, ending, closeAfter, log);
          if !outcome.Raised? || outcome.fault == Cancelled || seen || !more {
            return;
          }
          assert ChunkActs(index, []) == [];
      }
    }
  }

  // ---- What the client sees -----------------------------------------------

  function RunLog(attempts: seq<Script>, closeAfter: Option<nat>): seq<Act>
    requires attempts != []
  {
    var w := Decisive(attempts);
    StartActs(w + 1) + ChunkActs(w, Delivered(attempts[w], closeAfter))
  }

  lemma {:induction false} StartsInOrder(n: nat)
    ensures |StartActs(n)| == n && forall i :: 0 <= i < n ==> StartActs(n)[i] == Start(i)
  {
    if n > 0 {
      StartsInOrder(n - 1);
    }
  }

  /**
   Upstreams are never mixed: attempts start in order and once each, every chunk comes from
   the attempt started last, and nothing starts after a chunk.
   */
  lemma {:induction false} NeverMixed(attempts: seq<Script>, closeAfter: Option<nat>, i: nat, j: nat)
    requires attempts != [] && i < j < |RunLog(attempts, closeAfter)|
    ensures var log := RunLog(attempts, closeAfter);
      && (log[i].Start? && log[j].Start? ==> log[j].attempt - log[i].attempt == j - i)
      && (log[i].Chunk? ==> log[j].Chunk? && log[j].attempt == log[i].attempt)
      && (log[i].Start? && log[j].Chunk? ==> log[i].attempt <= log[j].attempt)
  {
    StartsInOrder(Decisive(attempts) + 1);
  }

  function ChunkData(log: seq<Act>): seq<string> {
    if log == [] then []
    else ChunkData(log[..|log| - 1]) + (if Last(log).Chunk? then [Last(log).data] else [])
  }

  lemma {:induction false} ChunkDataAppend(log: seq<Act>, act: Act)
    ensures ChunkData(log + [act]) == ChunkData(log) + (if act.Chunk? then [act.data] else [])
  {
    assert (log + [act])[..|log|] == log;
  }

  lemma {:induction false} StartsHoldNoChunk(n: nat)
    ensures ChunkData(StartActs(n)) == []
  {
    if n > 0 {
      StartsHoldNoChunk(n - 1);
      ChunkDataAppend(StartActs(n - 1), Start(n - 1));
    }
  }

  lemma {:induction false} ChunkDataOf(n: nat, attempt: nat, chunks: seq<string>)
    ensures ChunkData(StartActs(n) + ChunkActs(attempt, chunks)) == chunks
    decreases |chunks|
  {
    if chunks == [] {
      StartsHoldNoChunk(n);
      assert StartActs(n) + ChunkActs(attempt, chunks) == StartActs(n);
    } else {
      var init := chunks[..|chunks| - 1];
      ChunkDataOf(n, attempt, init);
      ChunkDataAppend(StartActs(n) + ChunkActs(attempt, init), Chunk(attempt, Last(chunks)));
      assert StartActs(n) + ChunkActs(attempt, chunks)
          == StartActs(n) + ChunkActs(attempt, init) + [Chunk(attempt, Last(chunks))];
    }
  }

  lemma {:induction false} CutOnlyByClient(s: Script, closeAfter: Option<nat>)
    ensures Delivered(s, closeAfter) <= BodyOf(s)
    ensures OutcomeOf(s, closeAfter) != ClosedByClient ==> Delivered(s, closeAfter) == BodyOf(s)
  {
  }

  lemma {:induction false} DeliveredChunks(attempts: seq<Script>, closeAfter: Option<nat>)
    requires attempts != []
    ensures ChunkData(RunLog(attempts, closeAfter)) == Delivered(attempts[Decisive(attempts)], closeAfter)
  {
    var w := Decisive(attempts);
    ChunkDataOf(w + 1, w, Delivered(attempts[w], closeAfter));
  }

  lemma {:induction false} RetryableEmpty(s: Script)
    requires Retryable(s)
    ensures BodyOf(s) == []
  {
  }

  /**
   What was delivered is a prefix of one attempt's body, its whole body unless the consumer
   closed, and earlier attempts delivered nothing.
   */
  lemma {:induction false} DeliveredFromOne(attempts: seq<Script>, closeAfter: Option<nat>)
    requires attempts != []
    ensures var w := Decisive(attempts);
      && ChunkData(RunLog(attempts, closeAfter)) <= BodyOf(attempts[w])
      && (OutcomeOf(attempts[w], closeAfter) != ClosedByClient ==>
            ChunkData(RunLog(attempts, closeAfter)) == BodyOf(attempts[w]))
      && forall i :: 0 <= i < w ==> BodyOf(attempts[i]) == []
  {
    var w := Decisive(attempts);
    DeliveredChunks(attempts, closeAfter);
    CutOnlyByClient(attempts[w], closeAfter);
    forall i | 0 <= i < w
      ensures BodyOf(attempts[i]) == []
    {
      RetryableEmpty(attempts[i]);
    }
  }

  /**
   When the run goes on to another attempt, read off what the upstream of this one did: it
   gave no response, its error body could not be read, it answered with an error status other
   than 400, or its stream broke before the first chunk. A cancellation is never followed by
   another attempt, and neither is a readable 400.
   */
  lemma {:induction false} MovesOnIff(attempts: seq<Script>, i: nat)
    requires i + 1 < |attempts| && i <= Decisive(attempts)
    ensures var s := attempts[i];
      i < Decisive(attempts) <==>
        || (s.NoResponse? && s.fault != Cancelled)
        || (s.Response? && s.status >= 400 && s.readFault.Some? && s.readFault.value != Cancelled)
        || (s.Response? && s.status >= 400 && s.status != 400 && s.readFault.None?)
        || (s.Response? && s.status < 400 && s.chunks == [] && s.ending.Some? && s.ending.value != Cancelled)
  {
    if i < Decisive(attempts) {
      assert Retryable(attempts[i]);
    } else {
      assert !Retryable(attempts[i]);
    }
  }

  /**
   What the client gets from a run, read off the decisive attempt: that attempt's own fault, or
   its own status and error body, or its chunks up to where the client closed, or all of them
   followed by the fault of its stream or by completion.
   */
  lemma {:induction false} ClientSees(attempts: seq<Script>, closeAfter: Option<nat>)
    requires attempts != []
    ensures var s, data := attempts[Decisive(attempts)], ChunkData(RunLog(attempts, closeAfter));
      var outcome := OutcomeOf(s, closeAfter);
      && (s.NoResponse? ==> data == [] && outcome == Raised(s.fault))
      && (s.Response? && s.status >= 400 ==>
            && data == []
            && (s.readFault.None? ==> outcome == UpstreamError(s.status, s.errorBody))
            && (s.readFault.Some? ==> outcome == Raised(s.readFault.value)))
      && (s.Response? && s.status < 400 ==>
            if s.chunks != [] && closeAfter.Some? && closeAfter.value <= |s.chunks| then
              && outcome == ClosedByClient && data <= s.chunks
              && |data| == (if closeAfter.value == 0 then 1 else closeAfter.value)
            else
              && data == s.chunks
              && (s.ending.None? ==> outcome == Completed)
              && (s.ending.Some? ==> outcome == Raised(s.ending.value)))
  {
    DeliveredChunks(attempts, closeAfter);
  }

  /** After a 400 no further attempt starts, except exactly when reading its error body fails. */
  lemma {:induction false} RetriedAfter400(attempts: seq<Script>, i: nat)
    requires i + 1 < |attempts| && i <= Decisive(attempts)
    requires attempts[i].Response? && attempts[i].status == 400
    ensures i < Decisive(attempts) <==> attempts[i].readFault.Some? && attempts[i].readFault.value != Cancelled
  {
  }

  const UNREADABLE_400 := Response(400, "", Some(Transport("reset")), [], None)

  /** A 400 whose error body cannot be read is retried, and the fallback's answer is delivered. */
  lemma {:induction false} RetriedAfter400Reset()
    ensures var attempts := [UNREADABLE_400, Response(200, "", None, ["x"], None)];
      Decisive(attempts) == 1 && RunLog(attempts, None) == [Start(0), Start(1), Chunk(1, "x")]
  {
    var attempts := [UNREADABLE_400, Response(200, "", None, ["x"], None)];
    assert Decisive(attempts[1..]) == 0;
    assert StartActs(2) == [Start(0), Start(1)];
  }

  /** When every attempt is retryable the run tries them all and ends in the last one's error. */
  lemma {:induction false} AllRetryableRaisesLast(attempts: seq<Script>, closeAfter: Option<nat>)
    requires attempts != [] && forall i :: 0 <= i < |attempts| ==> Retryable(attempts[i])
    ensures Decisive(attempts) == |attempts| - 1
    ensures var last := Last(attempts);
      && BodyOf(last) == []
      && (OutcomeOf(last, closeAfter).Raised? || OutcomeOf(last, closeAfter).UpstreamError?)
  {
    assert Retryable(Last(attempts));
  }
}
