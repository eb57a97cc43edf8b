/**
 Keepalive markers between the chunks of a slow stream (`_interleave_keepalive`). A
 schedule says, for each wait, which of the two tasks had completed when it returned.
 */
module Keepalive {
  import opened Common

  datatype Out = Chunk(data: string) | Marker

  /** One return of the wait: the read may be done, and if it is not the timer is. */
  datatype Wake = Wake(readDone: bool)

  /** A read task ends with a chunk of the source, with the end of the source, or cancelled. */
  datatype Act =
    | StartRead
    | ReadChunk(data: string)
    | ReadEnded
    | CancelRead
    | Yield(out: Out)
    | Resume
    | CloseSource

  /** How the source ends once its chunks are used up. */
  datatype Ending = Exhausted | Fails(what: string)

  datatype Stop = SourceEnded(ending: Ending) | ClosedAtChunk | ClosedAtMarker | CancelledWhileWaiting

  // ---- Specification ------------------------------------------------------

  /**
   Leaving with a read outstanding: it is cancelled, unless it had completed while the
   wrapper was suspended; then there is nothing to cancel and its result is dropped.
   */
  function Leave(upstream: seq<string>, late: bool): seq<Act> {
    [if !late then CancelRead else if upstream == [] then ReadEnded else ReadChunk(upstream[0])] + [CloseSource]
  }

  /** What happens from a wait on; `next` is the number of the next output. */
  function Trace(upstream: seq<string>, schedule: seq<Wake>, closeAt: Option<nat>, late: bool, next: nat): seq<Act> {
    if schedule == [] then Leave(upstream, late)
    else if !schedule[0].readDone then
      [Yield(Marker)] + (if closeAt == Some(next) then Leave(upstream, late)
                         else [Resume] + Trace(upstream, schedule[1..], closeAt, late, next + 1))
    else if upstream == [] then [ReadEnded] + [CloseSource]
    else
      [ReadChunk(upstream[0])] + ([Yield(Chunk(upstream[0]))]
        + (if closeAt == Some(next) then [CloseSource]
           else [Resume] + ([StartRead] + Trace(upstream[1..], schedule[1..], closeAt, late, next + 1))))
  }

  function StopOf(upstream: seq<string>, ending: Ending, schedule: seq<Wake>, closeAt: Option<nat>, next: nat): Stop {
    if schedule == [] then CancelledWhileWaiting
    else if schedule[0].readDone && upstream == [] then SourceEnded(ending)
    else if closeAt == Some(next) then (if schedule[0].readDone then ClosedAtChunk else ClosedAtMarker)
    else StopOf(if schedule[0].readDone then upstream[1..] else upstream, ending, schedule[1..], closeAt, next + 1)
  }

  // ---- The wrapper --------------------------------------------------------

  /** A wait that ends with the timer, and what the rest of the log is then. */
  lemma {:induction false} AfterMarker(log: seq<Act>, rest: seq<string>, waits: seq<Wake>, closeAt: Option<nat>,
                                       late: bool, next: nat)
    requires waits != [] && !waits[0].readDone
    ensures log + Trace(rest, waits, closeAt, late, next)
      == if closeAt == Some(next) then log + [Yield(Marker)] + Leave(rest, late)
         else log + [Yield(Marker)] + [Resume] + Trace(rest, waits[1..], closeAt, late, next + 1)
  {
    var more := Trace(rest, waits[1..], closeAt, late, next + 1);
    assert log + ([Yield(Marker)] + ([Resume] + more)) == log + [Yield(Marker)] + [Resume] + more;
    assert log + ([Yield(Marker)] + Leave(rest, late)) == log + [Yield(Marker)] + Leave(rest, late);
  }

  /** A wait that ends with a chunk. */
  lemma {:induction false} AfterChunk(log: seq<Act>, rest: seq<string>, waits: seq<Wake>, closeAt: Option<nat>,
                                      late: bool, next: nat)
    requires waits != [] && waits[0].readDone && rest != []
    ensures var yielded := log + [ReadChunk(rest[0])] + [Yield(Chunk(rest[0]))];
      log + Trace(rest, waits, closeAt, late, next)
      == if closeAt == Some(next) then yielded + [CloseSource]
         else yielded + [Resume, StartRead] + Trace(rest[1..], waits[1..], closeAt, late, next + 1)
  {
    var more := Trace(rest[1..], waits[1..], closeAt, late, next + 1);
    var r, y := [ReadChunk(rest[0])], [Yield(Chunk(rest[0]))];
    assert log + (r + (y + ([Resume] + ([StartRead] + more)))) == log + r + y + [Resume, StartRead] + more;
    assert log + (r + (y + [CloseSource])) == log + r + y + [CloseSource];
  }

  /** The log of a run that has come to a wait, grown at its end as the wrapper grows it. */
  function Grown(log: seq<Act>, upstream: seq<string>, schedule: seq<Wake>, closeAt: Option<nat>, late: bool, next: nat)
    : seq<Act>
    decreases |schedule|
  {
    if schedule == [] then log + Leave(upstream, late)
    else if !schedule[0].readDone then
      if closeAt == Some(next) then log + [Yield(Marker)] + Leave(upstream, late)
      else Grown(log + [Yield(Marker)] + [Resume], upstream, schedule[1..], closeAt, late, next + 1)
    else if upstream == [] then log + [ReadEnded] + [CloseSource]
    else
      var yielded := log + [ReadChunk(upstream[0])] + [Yield(Chunk(upstream[0]))];
      if closeAt == Some(next) then yielded + [CloseSource]
      else Grown(yielded + [Resume, StartRead], upstream[1..], schedule[1..], closeAt, late, next + 1)
  }

  lemma {:induction false} GrownIsTrace(log: seq<Act>, upstream: seq<string>, schedule: seq<Wake>, closeAt: Option<nat>,
                                        late: bool, next: nat)
    ensures Grown(log, upstream, schedule, closeAt, late, next) == log + Trace(upstream, schedule, closeAt, late, next)
    decreases |schedule|
  {
    if schedule == [] {
    } else if !schedule[0].readDone {
      AfterMarker(log, upstream, schedule, closeAt, late, next);
      if closeAt != Some(next) {
        GrownIsTrace(log + [Yield(Marker)] + [Resume], upstream, schedule[1..], closeAt, late, next + 1);
      }
    } else if upstream == [] {
      assert log + [ReadEnded] + [CloseSource] == log + ([ReadEnded] + [CloseSource]);
    } else {
      AfterChunk(log, upstream, schedule, closeAt, late, next);
      if closeAt != Some(next) {
        var yielded := log + [ReadChunk(upstream[0])] + [Yield(Chunk(upstream[0]))];
        GrownIsTrace(yielded + [Resume, StartRead], upstream[1..], schedule[1..], closeAt, late, next + 1);
      }
    }
  }

  lemma {:induction false} FromNext<T>(s: seq<T>, i: nat)
    requires i < |s|
    ensures s[i..] != [] && s[i..][0] == s[i] && s[i..][1..] == s[i + 1..]
  {
  }

  /** The pending task when the wrapper ends: cancelled if it is not done, otherwise left alone. */
  method EndRead(upstream: seq<string>, handed: nat, late: bool) returns (act: Act)
    requires handed <= |upstream|
    ensures [act] + [CloseSource] == Leave(upstream[handed..], late)
  {
    if !late {
      return CancelRead;
    }
    return if handed == |upstream| then ReadEnded else ReadChunk(upstream[handed]);
  }

  /**
   The wrapper over one schedule. `closeAt` is the number of outputs after which the consumer
   closes the stream, if it does; a schedule that runs out is a cancellation. `late` says
   whether a read that is outstanding then has completed all the same.
   */
  method Interleave(upstream: seq<string>, ending: Ending, schedule: seq<Wake>, closeAt: Option<nat>, late: bool)
      returns (log: seq<Act>, stop: Stop)
    ensures log == [StartRead] + Trace(upstream, schedule, closeAt, late, 1)
    ensures stop == StopOf(upstream, ending, schedule, closeAt, 1)
  {
    var handed, outputs := 0, 0;
    log := [StartRead];
    var reading := true;
    stop := CancelledWhileWaiting;
    ghost var whole := Grown(log, upstream, schedule, closeAt, late, 1);
    GrownIsTrace(log, upstream, schedule, closeAt, late, 1);
    ghost var end := StopOf(upstream, ending, schedule, closeAt, 1);
    var i := 0;
    while i < |schedule|
      invariant 0 <= i <= |schedule| && handed <= |upstream| && reading && stop == CancelledWhileWaiting
      invariant whole == Grown(log, upstream[handed..], schedule[i..], closeAt, late, outputs + 1)
      invariant end == StopOf(upstream[handed..], ending, schedule[i..], closeAt, outputs + 1)
    {
      FromNext(schedule, i);
      if schedule[i].readDone {
        reading := false;
        if handed == |upstream| {
          log := log + [ReadEnded];
          stop := SourceEnded(ending);
          break;
        }
        FromNext(upstream, handed);
        log := log + [ReadChunk(upstream[handed])] + [Yield(Chunk(upstream[handed]))];
        outputs := outputs + 1;
        if closeAt == Some(outputs) {
          stop := ClosedAtChunk;
          break;
        }
        handed := handed + 1;
        log := log + [Resume, StartRead];
        reading := true;
      } else {
        log := log + [Yield(Marker)];
        outputs := outputs + 1;
        if closeAt == Some(outputs) {
          stop := ClosedAtMarker;
          break;
        }
        log := log + [Resume];
      }
      i := i + 1;
    }
    if reading {
      var left := EndRead(upstream, handed, late);
      log := log + [left];
    }
    log := log + [CloseSource];
  }

  /** With the interval disabled the chunks pass through. */
  method PassThrough(upstream: seq<string>) returns (outs: seq<Out>)
    ensures |outs| == |upstream| && forall i :: 0 <= i < |outs| ==> outs[i] == Chunk(upstream[i])
  {
    outs := [];
    for i := 0 to |upstream|
      invariant |outs| == i && forall j :: 0 <= j < i ==> outs[j] == Chunk(upstream[j])
    {
      outs := outs + [Chunk(upstream[i])];
    }
  }

  // ---- Transparency -------------------------------------------------------

  /** The chunks among the outputs of a log, markers erased. */
  function Erased(log: seq<Act>): seq<string> {
    if log == [] then []
    else if log[0].Yield? && log[0].out.Chunk? then [log[0].out.data] + Erased(log[1..])
    else Erased(log[1..])
  }

  /** The chunks taken from the source. */
  function Consumed(log: seq<Act>): seq<string> {
    if log == [] then []
    else if log[0].ReadChunk? then [log[0].data] + Consumed(log[1..])
    else Consumed(log[1..])
  }

  /**
   The discipline of one log: at most one read is pending; a chunk is handed on with no read
   pending and its successor is read only after the consumer resumed; markers go out only
   while a read is pending; and at the close no read is left pending.
   */
  predicate Disciplined(log: seq<Act>, reading: bool, waiting: bool) {
    if log == [] then false else
      match log[0]
      case StartRead => !reading && !waiting && Disciplined(log[1..], true, false)
      case ReadChunk(_) => reading && Disciplined(log[1..], false, waiting)
      case ReadEnded => reading && Disciplined(log[1..], false, waiting)
      case Yield(out) => !waiting && (out.Marker? <==> reading) && Disciplined(log[1..], reading, true)
      case Resume => waiting && Disciplined(log[1..], reading, false)
      case CancelRead => reading && Disciplined(log[1..], false, waiting)
      case CloseSource => !reading && log == [CloseSource]
  }

  /** The number of waits that return before the stream is left, when the source does not end first. */
  function Waits(schedule: seq<Wake>, closeAt: Option<nat>, next: nat): nat {
    if closeAt.Some? && next <= closeAt.value < next + |schedule| then closeAt.value - next + 1 else |schedule|
  }

  /** How many of the first `n` waits return with a completed read. */
  function ReadsIn(schedule: seq<Wake>, n: nat): nat {
    if schedule == [] || n == 0 then 0 else (if schedule[0].readDone then 1 else 0) + ReadsIn(schedule[1..], n - 1)
  }

  /** The last output before the consumer closed was a chunk, so no read was outstanding. */
  predicate LeftAtChunk(schedule: seq<Wake>, closeAt: Option<nat>, next: nat) {
    closeAt.Some? && next <= closeAt.value < next + |schedule| && schedule[closeAt.value - next].readDone
  }

  /**
   When a chunk is taken from the source and never handed on: the read outstanding at the
   close or cancellation had completed, and the source still had a chunk for it.
   */
  predicate LosesChunk(upstream: seq<string>, schedule: seq<Wake>, closeAt: Option<nat>, late: bool, next: nat) {
    late && !LeftAtChunk(schedule, closeAt, next) && ReadsIn(schedule, Waits(schedule, closeAt, next)) < |upstream|
  }

  /** What holds of a log over a source; `lost` and `ended` say how it was left. */
  ghost predicate Transparent(log: seq<Act>, upstream: seq<string>, lost: bool, ended: bool) {
    && Consumed(log) <= upstream
    && (ended ==> Consumed(log) == upstream)
    && Erased(log) <= Consumed(log)
    && |Consumed(log)| == |Erased(log)| + (if lost then 1 else 0)
    && Disciplined(log, true, false)
  }

  lemma {:induction false} Cons(a: Act, rest: seq<Act>)
    ensures ([a] + rest)[1..] == rest
    ensures Erased([a] + rest) == (if a.Yield? && a.out.Chunk? then [a.out.data] + Erased(rest) else Erased(rest))
    ensures Consumed([a] + rest) == (if a.ReadChunk? then [a.data] + Consumed(rest) else Consumed(rest))
  {
    assert ([a] + rest)[1..] == rest;
  }

  /** How a log ends when a read is outstanding. */
  lemma {:induction false} Leaving(upstream: seq<string>, late: bool, waiting: bool)
    ensures var log := Leave(upstream, late);
      && Erased(log) == [] && Consumed(log) == (if late && upstream != [] then [upstream[0]] else [])
      && Disciplined(log, true, waiting)
  {
    var last := if !late then CancelRead else if upstream == [] then ReadEnded else ReadChunk(upstream[0]);
    Cons(last, [CloseSource]);
    Cons(CloseSource, []);
    assert [CloseSource] + [] == [CloseSource];
    assert Disciplined([CloseSource], false, waiting);
  }

  lemma {:induction false} MarkerStep(rest: seq<Act>, upstream: seq<string>, lost: bool, ended: bool)
    requires Transparent(rest, upstream, lost, ended)
    ensures Transparent([Yield(Marker)] + ([Resume] + rest), upstream, lost, ended)
  {
    Cons(Resume, rest);
    Cons(Yield(Marker), [Resume] + rest);
  }

  lemma {:induction false} ChunkActs(data: string, rest: seq<Act>)
    ensures var log := [ReadChunk(data)] + ([Yield(Chunk(data))] + ([Resume] + ([StartRead] + rest)));
      && Erased(log) == [data] + Erased(rest) && Consumed(log) == [data] + Consumed(rest)
      && (Disciplined(rest, true, false) ==> Disciplined(log, true, false))
  {
    var l3 := [StartRead] + rest;
    var l2 := [Resume] + l3;
    var l1 := [Yield(Chunk(data))] + l2;
    Cons(StartRead, rest);
    Cons(Resume, l3);
    Cons(Yield(Chunk(data)), l2);
    Cons(ReadChunk(data), l1);
    if Disciplined(rest, true, false) {
      assert Disciplined(l3, false, false);
      assert Disciplined(l2, false, true);
      assert Disciplined(l1, false, false);
    }
  }

  lemma {:induction false} ChunkStep(rest: seq<Act>, upstream: seq<string>, lost: bool, ended: bool)
    requires upstream != [] && Transparent(rest, upstream[1..], lost, ended)
    ensures Transparent([ReadChunk(upstream[0])] + ([Yield(Chunk(upstream[0]))] + ([Resume] + ([StartRead] + rest))),
                        upstream, lost, ended)
  {
    ChunkActs(upstream[0], rest);
    assert upstream == [upstream[0]] + upstream[1..];
  }

  lemma {:induction false} CloseAtMarker(upstream: seq<string>, late: bool)
    ensures var log := [Yield(Marker)] + Leave(upstream, late);
      && Erased(log) == [] && Consumed(log) == (if late && upstream != [] then [upstream[0]] else [])
      && Disciplined(log, true, false)
  {
    Leaving(upstream, late, true);
    Cons(Yield(Marker), Leave(upstream, late));
  }

  lemma {:induction false} CloseAtChunk(data: string)
    ensures var log := [ReadChunk(data)] + ([Yield(Chunk(data))] + [CloseSource]);
      Erased(log) == [data] && Consumed(log) == [data] && Disciplined(log, true, false)
  {
    Cons(CloseSource, []);
    assert [CloseSource] + [] == [CloseSource];
    Cons(Yield(Chunk(data)), [CloseSource]);
    Cons(ReadChunk(data), [Yield(Chunk(data))] + [CloseSource]);
    assert Disciplined([CloseSource], false, true);
    assert Disciplined([Yield(Chunk(data))] + [CloseSource], false, false);
  }

  lemma {:induction false} SourceEnd()
    ensures var log := [ReadEnded] + [CloseSource];
      Erased(log) == [] && Consumed(log) == [] && Disciplined(log, true, false)
  {
    Cons(CloseSource, []);
    assert [CloseSource] + [] == [CloseSource];
    Cons(ReadEnded, [CloseSource]);
    assert Disciplined([CloseSource], false, false);
  }

  /** The condition for a loss, one wait later. */
  lemma {:induction false} LossShifts(upstream: seq<string>, schedule: seq<Wake>, closeAt: Option<nat>, late: bool,
                                      next: nat)
    requires schedule != [] && closeAt != Some(next) && (schedule[0].readDone ==> upstream != [])
    ensures LosesChunk(upstream, schedule, closeAt, late, next)
      <==> LosesChunk(if schedule[0].readDone then upstream[1..] else upstream, schedule[1..], closeAt, late, next + 1)
  {
    if closeAt.Some? && next < closeAt.value < next + |schedule| {
      assert schedule[closeAt.value - next] == schedule[1..][closeAt.value - (next + 1)];
    }
  }

  /**
   Keepalives are transparent, for every schedule: erasing the markers gives exactly the
   chunks taken from the source, in order, except for one chunk lost exactly when
   `LosesChunk` says so; the source's chunks are taken in order, all of them when it was
   read to its end; and reads keep their discipline.
   */
  lemma {:induction false} KeepaliveTransparent(upstream: seq<string>, schedule: seq<Wake>, closeAt: Option<nat>,
                                                late: bool, next: nat)
    ensures Transparent(Trace(upstream, schedule, closeAt, late, next), upstream,
                        LosesChunk(upstream, schedule, closeAt, late, next),
                        StopOf(upstream, Exhausted, schedule, closeAt, next).SourceEnded?)
    decreases |schedule|
  {
    var lost := LosesChunk(upstream, schedule, closeAt, late, next);
    var ended := StopOf(upstream, Exhausted, schedule, closeAt, next).SourceEnded?;
    if schedule == [] {
      Leaving(upstream, late, false);
    } else if !schedule[0].readDone {
      if closeAt == Some(next) {
        CloseAtMarker(upstream, late);
        assert ReadsIn(schedule, 1) == 0;
      } else {
        LossShifts(upstream, schedule, closeAt, late, next);
        KeepaliveTransparent(upstream, schedule[1..], closeAt, late, next + 1);
        MarkerStep(Trace(upstream, schedule[1..], closeAt, late, next + 1), upstream, lost, ended);
      }
    } else if upstream == [] {
      SourceEnd();
    } else if closeAt == Some(next) {
      CloseAtChunk(upstream[0]);
    } else {
      LossShifts(upstream, schedule, closeAt, late, next);
      KeepaliveTransparent(upstream[1..], schedule[1..], closeAt, late, next + 1);
      ChunkStep(Trace(upstream[1..], schedule[1..], closeAt, late, next + 1), upstream, lost, ended);
    }
  }

  /** The same for the whole log, from the first read on. */
  lemma {:induction false} InterleaveTransparent(upstream: seq<string>, schedule: seq<Wake>, closeAt: Option<nat>,
                                                 late: bool)
    ensures var log := [StartRead] + Trace(upstream, schedule, closeAt, late, 1);
      && Consumed(log) <= upstream && Disciplined(log, false, false)
      && (StopOf(upstream, Exhausted, schedule, closeAt, 1).SourceEnded? ==> Consumed(log) == upstream)
      && (if LosesChunk(upstream, schedule, closeAt, late, 1)
          then Consumed(log) != [] && Erased(log) == Consumed(log)[..|Consumed(log)| - 1]
          else Erased(log) == Consumed(log))
  {
    KeepaliveTransparent(upstream, schedule, closeAt, late, 1);
    Cons(StartRead, Trace(upstream, schedule, closeAt, late, 1));
  }

  /** A consumer that closes at a marker while the read completes: the chunk is gone. */
  lemma {:induction false} ChunkLostAtMarker()
    ensures var log := [StartRead] + Trace(["x"], [Wake(false)], Some(1), true, 1);
      log == [StartRead, Yield(Marker), ReadChunk("x"), CloseSource] && Consumed(log) == ["x"] && Erased(log) == []
  {
    CloseAtMarker(["x"], true);
    Cons(StartRead, [Yield(Marker)] + Leave(["x"], true));
  }

  // ---- One output for each wait -------------------------------------------

  /** What a log hands on, in order. */
  function Outputs(log: seq<Act>): seq<Out> {
    if log == [] then [] else (if log[0].Yield? then [log[0].out] else []) + Outputs(log[1..])
  }

  lemma {:induction false} OutputsCons(a: Act, rest: seq<Act>)
    ensures Outputs([a] + rest) == if a.Yield? then [a.out] + Outputs(rest) else Outputs(rest)
  {
    assert ([a] + rest)[1..] == rest;
  }

  lemma {:induction false} CloseIsSilent()
    ensures Outputs([CloseSource]) == []
  {
    OutputsCons(CloseSource, []);
    assert [CloseSource] + [] == [CloseSource];
  }

  lemma {:induction false} LeaveIsSilent(upstream: seq<string>, late: bool)
    ensures Outputs(Leave(upstream, late)) == []
  {
    var last := if !late then CancelRead else if upstream == [] then ReadEnded else ReadChunk(upstream[0]);
    OutputsCons(last, [CloseSource]);
    CloseIsSilent();
  }

  /** What the first wait hands on, and what is handed on after it. */
  lemma {:induction false} FirstOutput(upstream: seq<string>, schedule: seq<Wake>, closeAt: Option<nat>, late: bool,
                                       next: nat)
    requires schedule != []
    ensures var outs := Outputs(Trace(upstream, schedule, closeAt, late, next));
      if schedule[0].readDone && upstream == [] then outs == [] else
        var first := if schedule[0].readDone then Chunk(upstream[0]) else Marker;
        var rest := if schedule[0].readDone then upstream[1..] else upstream;
        outs == if closeAt == Some(next) then [first]
                else [first] + Outputs(Trace(rest, schedule[1..], closeAt, late, next + 1))
  {
    if !schedule[0].readDone {
      var more := Trace(upstream, schedule[1..], closeAt, late, next + 1);
      OutputsCons(Yield(Marker), [Resume] + more);
      OutputsCons(Resume, more);
      OutputsCons(Yield(Marker), Leave(upstream, late));
      LeaveIsSilent(upstream, late);
    } else if upstream == [] {
      OutputsCons(ReadEnded, [CloseSource]);
      CloseIsSilent();
    } else {
      var more := Trace(upstream[1..], schedule[1..], closeAt, late, next + 1);
      var handOn := Yield(Chunk(upstream[0]));
      OutputsCons(StartRead, more);
      OutputsCons(Resume, [StartRead] + more);
      OutputsCons(handOn, [Resume] + ([StartRead] + more));
      OutputsCons(ReadChunk(upstream[0]), [handOn] + ([Resume] + ([StartRead] + more)));
      CloseIsSilent();
      OutputsCons(handOn, [CloseSource]);
      OutputsCons(ReadChunk(upstream[0]), [handOn] + [CloseSource]);
    }
  }

  /** What a run hands on from a wait on: it does not depend on how a pending read ends. */
  function HandedOn(upstream: seq<string>, schedule: seq<Wake>, closeAt: Option<nat>, next: nat): seq<Out>
    decreases |schedule|
  {
    if schedule == [] || (schedule[0].readDone && upstream == []) then []
    else
      var first := if schedule[0].readDone then Chunk(upstream[0]) else Marker;
      var rest := if schedule[0].readDone then upstream[1..] else upstream;
      if closeAt == Some(next) then [first] else [first] + HandedOn(rest, schedule[1..], closeAt, next + 1)
  }

  lemma {:induction false} OutputsAreHandedOn(upstream: seq<string>, schedule: seq<Wake>, closeAt: Option<nat>,
                                              late: bool, next: nat)
    ensures Outputs(Trace(upstream, schedule, closeAt, late, next)) == HandedOn(upstream, schedule, closeAt, next)
    decreases |schedule|
  {
    if schedule == [] {
      LeaveIsSilent(upstream, late);
    } else {
      FirstOutput(upstream, schedule, closeAt, late, next);
      if !(schedule[0].readDone && upstream == []) && closeAt != Some(next) {
        var rest := if schedule[0].readDone then upstream[1..] else upstream;
        OutputsAreHandedOn(rest, schedule[1..], closeAt, late, next + 1);
      }
    }
  }

  /**
   How a run stops is read off what it handed on: the source ended when fewer outputs went out
   than waits could return; otherwise the consumer closed at the last output if that is the one
   it closes at, and if not the run was cancelled.
   */
  function StopBy(outs: seq<Out>, ending: Ending, schedule: seq<Wake>, closeAt: Option<nat>, next: nat): Stop {
    if |outs| < Waits(schedule, closeAt, next) then SourceEnded(ending)
    else if outs == [] || closeAt != Some(next + |outs| - 1) then CancelledWhileWaiting
    else if Last(outs).Chunk? then ClosedAtChunk else ClosedAtMarker
  }

  lemma {:induction false} WaitsShift(schedule: seq<Wake>, closeAt: Option<nat>, next: nat)
    requires schedule != []
    ensures Waits(schedule, closeAt, next)
      == if closeAt == Some(next) then 1 else 1 + Waits(schedule[1..], closeAt, next + 1)
  {
  }

  /** How a run stops that goes on after its first output. */
  lemma {:induction false} StopLater(outs: seq<Out>, first: Out, upstream: seq<string>, ending: Ending,
                                     schedule: seq<Wake>, closeAt: Option<nat>, next: nat)
    requires schedule != [] && closeAt != Some(next) && (schedule[0].readDone ==> upstream != [])
    requires StopOf(if schedule[0].readDone then upstream[1..] else upstream, ending, schedule[1..], closeAt, next + 1)
      == StopBy(outs, ending, schedule[1..], closeAt, next + 1)
    ensures StopOf(upstream, ending, schedule, closeAt, next) == StopBy([first] + outs, ending, schedule, closeAt, next)
  {
    WaitsShift(schedule, closeAt, next);
    assert outs != [] ==> Last([first] + outs) == Last(outs);
  }

  /** How a run stops that has no second output. */
  lemma {:induction false} StopAtOnce(upstream: seq<string>, ending: Ending, schedule: seq<Wake>, closeAt: Option<nat>,
                                      next: nat)
    requires schedule != [] && (closeAt == Some(next) || (schedule[0].readDone && upstream == []))
    ensures schedule[0].readDone && upstream == [] ==>
      StopOf(upstream, ending, schedule, closeAt, next) == StopBy([], ending, schedule, closeAt, next)
    ensures !schedule[0].readDone ==>
      StopOf(upstream, ending, schedule, closeAt, next) == StopBy([Marker], ending, schedule, closeAt, next)
    ensures schedule[0].readDone && upstream != [] ==>
      StopOf(upstream, ending, schedule, closeAt, next)
      == StopBy([Chunk(upstream[0])], ending, schedule, closeAt, next)
  {
    WaitsShift(schedule, closeAt, next);
  }

  /** At most `waits` outputs, and fewer only when the wait after them ends with the end of the source. */
  predicate OnePerWait(outputs: nat, upstream: seq<string>, schedule: seq<Wake>, waits: nat) {
    && outputs <= waits <= |schedule|
    && (outputs < waits ==> schedule[outputs].readDone && ReadsIn(schedule, outputs) == |upstream|)
  }

  lemma {:induction false} OnePerWaitShift(outputs: nat, upstream: seq<string>, schedule: seq<Wake>, waits: nat)
    requires schedule != [] && (schedule[0].readDone ==> upstream != [])
    requires OnePerWait(outputs, if schedule[0].readDone then upstream[1..] else upstream, schedule[1..], waits)
    ensures OnePerWait(1 + outputs, upstream, schedule, 1 + waits)
  {
  }

  lemma {:induction false} HandedOnCounted(upstream: seq<string>, schedule: seq<Wake>, closeAt: Option<nat>, next: nat)
    ensures OnePerWait(|HandedOn(upstream, schedule, closeAt, next)|, upstream, schedule,
                       Waits(schedule, closeAt, next))
    decreases |schedule|
  {
    if schedule != [] {
      WaitsShift(schedule, closeAt, next);
      if !(schedule[0].readDone && upstream == []) && closeAt != Some(next) {
        var rest := if schedule[0].readDone then upstream[1..] else upstream;
        HandedOnCounted(rest, schedule[1..], closeAt, next + 1);
        OnePerWaitShift(|HandedOn(rest, schedule[1..], closeAt, next + 1)|, upstream, schedule,
                        Waits(schedule[1..], closeAt, next + 1));
      }
    }
  }

  lemma {:induction false} StopIsBy(upstream: seq<string>, ending: Ending, schedule: seq<Wake>, closeAt: Option<nat>,
                                    next: nat)
    ensures StopOf(upstream, ending, schedule, closeAt, next)
      == StopBy(HandedOn(upstream, schedule, closeAt, next), ending, schedule, closeAt, next)
    decreases |schedule|
  {
    if schedule != [] {
      if closeAt == Some(next) || (schedule[0].readDone && upstream == []) {
        StopAtOnce(upstream, ending, schedule, closeAt, next);
      } else {
        var rest := if schedule[0].readDone then upstream[1..] else upstream;
        StopIsBy(rest, ending, schedule[1..], closeAt, next + 1);
        StopLater(HandedOn(rest, schedule[1..], closeAt, next + 1),
                  if schedule[0].readDone then Chunk(upstream[0]) else Marker,
                  upstream, ending, schedule, closeAt, next);
      }
    }
  }

  lemma {:induction false} HandedOnAt(upstream: seq<string>, schedule: seq<Wake>, closeAt: Option<nat>, next: nat,
                                      j: nat)
    requires j < |HandedOn(upstream, schedule, closeAt, next)|
    ensures var out := HandedOn(upstream, schedule, closeAt, next)[j];
      && j < |schedule|
      && (!schedule[j].readDone ==> out == Marker)
      && (schedule[j].readDone ==>
            ReadsIn(schedule, j) < |upstream| && out == Chunk(upstream[ReadsIn(schedule, j)]))
    decreases |schedule|
  {
    if j > 0 {
      var rest := if schedule[0].readDone then upstream[1..] else upstream;
      HandedOnAt(rest, schedule[1..], closeAt, next + 1, j - 1);
    }
  }

  /**
   The outputs of a run follow its waits one to one, for every schedule: a wait that ends with
   the timer hands on a marker, and a wait that ends with a read hands on the next chunk of the
   source. There are fewer only if the source ended, and the way a run stops is what its
   outputs say.
   */
  lemma {:induction false} OutputsFollowWaits(upstream: seq<string>, ending: Ending, schedule: seq<Wake>,
                                              closeAt: Option<nat>, late: bool, j: nat)
    ensures var outs := Outputs([StartRead] + Trace(upstream, schedule, closeAt, late, 1));
      && OnePerWait(|outs|, upstream, schedule, Waits(schedule, closeAt, 1))
      && StopOf(upstream, ending, schedule, closeAt, 1) == StopBy(outs, ending, schedule, closeAt, 1)
      && (j < |outs| ==>
            && (!schedule[j].readDone ==> outs[j] == Marker)
            && (schedule[j].readDone ==>
                  ReadsIn(schedule, j) < |upstream| && outs[j] == Chunk(upstream[ReadsIn(schedule, j)])))
  {
    OutputsCons(StartRead, Trace(upstream, schedule, closeAt, late, 1));
    OutputsAreHandedOn(upstream, schedule, closeAt, late, 1);
    HandedOnCounted(upstream, schedule, closeAt, 1);
    StopIsBy(upstream, ending, schedule, closeAt, 1);
    if j < |HandedOn(upstream, schedule, closeAt, 1)| {
      HandedOnAt(upstream, schedule, closeAt, 1, j);
    }
  }
}
