/**
 Lookup of the longest cached summary of a conversation's beginning
 (`find_best_prefix_entry_with_reasons`). Normalizing a message and hashing a list of
 normalized messages are parameters.
 */
module SummaryCache {
  import opened Common

  datatype Message = Message(role: string, name: string, content: string)

  datatype Hashing = Hashing(normalize: Message -> string, digest: seq<string> -> string)

  datatype Entry = Entry(start: int, end: int, rangeHash: string, summary: string)

  datatype Mismatch = StartMismatch | EndOutOfBounds | HashMismatch

  datatype Reason = Reason(start: int, end: int, why: Mismatch)

  function Clamp(i: int, n: nat): nat {
    if i < 0 then 0 else if i > n then n else i
  }

  function Normalize(messages: seq<Message>, h: Hashing): (r: seq<string>)
    ensures |r| == |messages| && forall i :: 0 <= i < |r| ==> r[i] == h.normalize(messages[i])
  {
    seq(|messages|, i requires 0 <= i < |messages| => h.normalize(messages[i]))
  }

  /** The hash of messages `start` to `end` inclusive; the slice stops at the last message. */
  function RangeHash(messages: seq<Message>, start: int, end: int, h: Hashing): string {
    if start < 0 || end < start then h.digest([])
    else
      var lo := Clamp(start, |messages|);
      var hi := Clamp(end + 1, |messages|);
      h.digest(Normalize(if lo <= hi then messages[lo..hi] else [], h))
  }

  function MakeCacheEntry(start: int, end: int, messages: seq<Message>, summary: string, h: Hashing): Entry {
    Entry(start, end, RangeHash(messages, start, end, h), summary)
  }

  /** Why an entry cannot be used, in the order the code checks. */
  function Verdict(e: Entry, messages: seq<Message>, expected: int, h: Hashing): Option<Mismatch> {
    if e.start != expected || e.end < e.start then Some(StartMismatch)
    else if e.end >= |messages| then Some(EndOutOfBounds)
    else if RangeHash(messages, e.start, e.end, h) != e.rangeHash then Some(HashMismatch)
    else None
  }

  predicate Usable(e: Entry, messages: seq<Message>, expected: int, h: Hashing) {
    Verdict(e, messages, expected, h).None?
  }

  // ---- The stable sort by start and end -----------------------------------

  predicate NotAfter(a: Entry, b: Entry) {
    a.start < b.start || (a.start == b.start && a.end <= b.end)
  }

  /** Insert behind every entry that is not after it. */
  function Insert(e: Entry, sorted: seq<Entry>): seq<Entry> {
    if sorted != [] && NotAfter(sorted[0], e) then [sorted[0]] + Insert(e, sorted[1..]) else [e] + sorted
  }

  function SortEntries(entries: seq<Entry>): seq<Entry> {
    if entries == [] then [] else Insert(Last(entries), SortEntries(entries[..|entries| - 1]))
  }

  // ---- The loop -----------------------------------------------------------

  method CheckEntry(entry: Entry, messages: seq<Message>, expected: int, h: Hashing) returns (reason: Option<Mismatch>)
    ensures reason == Verdict(entry, messages, expected, h)
  {
    reason := None;
    if entry.start != expected || entry.end < entry.start {
      reason := Some(StartMismatch);
    } else if entry.end >= |messages| {
      reason := Some(EndOutOfBounds);
    } else {
      var actual := RangeHash(messages, entry.start, entry.end, h);
      if actual != entry.rangeHash {
        reason := Some(HashMismatch);
      }
    }
  }

  /** The first usable entry with the greatest end. */
  function BestOf(entries: seq<Entry>, messages: seq<Message>, expected: int, h: Hashing): Option<Entry> {
    if entries == [] then None else
      var best := BestOf(entries[..|entries| - 1], messages, expected, h);
      var e := Last(entries);
      if Usable(e, messages, expected, h) && (best.None? || e.end > best.value.end) then Some(e) else best
  }

  function ReasonsOf(entries: seq<Entry>, messages: seq<Message>, expected: int, h: Hashing): seq<Reason> {
    if entries == [] then [] else
      var e := Last(entries);
      var why := Verdict(e, messages, expected, h);
      ReasonsOf(entries[..|entries| - 1], messages, expected, h)
      + (if why.Some? then [Reason(e.start, e.end, why.value)] else [])
  }

  lemma {:induction false} BestStep(entries: seq<Entry>, i: nat, messages: seq<Message>, expected: int, h: Hashing)
    requires i < |entries|
    ensures var best, why := BestOf(entries[..i], messages, expected, h), Verdict(entries[i], messages, expected, h);
      && BestOf(entries[..i + 1], messages, expected, h)
         == (if why.None? && (best.None? || entries[i].end > best.value.end) then Some(entries[i]) else best)
      && ReasonsOf(entries[..i + 1], messages, expected, h)
         == ReasonsOf(entries[..i], messages, expected, h)
            + (if why.Some? then [Reason(entries[i].start, entries[i].end, why.value)] else [])
  {
    assert entries[..i + 1][..i] == entries[..i];
  }

  method FindBest(entries: seq<Entry>, messages: seq<Message>, expected: int, h: Hashing)
      returns (best: Option<Entry>, reasons: seq<Reason>)
    ensures best == BestOf(SortEntries(entries), messages, expected, h)
    ensures reasons == ReasonsOf(SortEntries(entries), messages, expected, h)
  {
    best, reasons := None, [];
    var sorted := SortEntries(entries);
    for i := 0 to |sorted|
      invariant best == BestOf(sorted[..i], messages, expected, h)
      invariant reasons == ReasonsOf(sorted[..i], messages, expected, h)
    {
      var entry := sorted[i];
      BestStep(sorted, i, messages, expected, h);
      var reason := CheckEntry(entry, messages, expected, h);
      if reason.Some? {
        reasons := reasons + [Reason(entry.start, entry.end, reason.value)];
        continue;
      }
      if best.None? || entry.end > best.value.end {
        best := Some(entry);
      }
    }
    assert sorted[..|sorted|] == sorted;
  }

  // ---- What the lookup promises -------------------------------------------

  lemma {:induction false} InsertKeeps(e: Entry, sorted: seq<Entry>)
    ensures multiset(Insert(e, sorted)) == multiset(sorted) + multiset{e}
  {
    if sorted != [] && NotAfter(sorted[0], e) {
      InsertKeeps(e, sorted[1..]);
      assert sorted == [sorted[0]] + sorted[1..];
    }
  }

  lemma {:induction false} SortKeeps(entries: seq<Entry>)
    ensures multiset(SortEntries(entries)) == multiset(entries)
  {
    if entries != [] {
      SortKeeps(entries[..|entries| - 1]);
      InsertKeeps(Last(entries), SortEntries(entries[..|entries| - 1]));
      assert entries == entries[..|entries| - 1] + [Last(entries)];
    }
  }

  lemma {:induction false} SortKeepsMembers(entries: seq<Entry>, e: Entry)
    ensures e in SortEntries(entries) <==> e in entries
  {
    SortKeeps(entries);
    assert e in multiset(entries) <==> e in entries;
    assert e in multiset(SortEntries(entries)) <==> e in SortEntries(entries);
  }

  /** A result is usable and no usable entry ends later; there is none only if no entry is usable. */
  ghost predicate IsBest(best: Option<Entry>, entries: seq<Entry>, messages: seq<Message>, expected: int, h: Hashing) {
    && (best.Some? ==> best.value in entries && Usable(best.value, messages, expected, h))
    && forall e :: e in entries && Usable(e, messages, expected, h) ==> best.Some? && e.end <= best.value.end
  }

  lemma {:induction false} BestOfIsBest(entries: seq<Entry>, messages: seq<Message>, expected: int, h: Hashing)
    ensures IsBest(BestOf(entries, messages, expected, h), entries, messages, expected, h)
    decreases |entries|
  {
    if entries != [] {
      BestOfIsBest(entries[..|entries| - 1], messages, expected, h);
      assert entries == entries[..|entries| - 1] + [Last(entries)];
    }
  }

  function Lookup(entries: seq<Entry>, messages: seq<Message>, expected: int, h: Hashing): Option<Entry> {
    BestOf(SortEntries(entries), messages, expected, h)
  }

  /** The lookup returns a longest usable entry among those given. */
  lemma {:induction false} LookupIsLongest(entries: seq<Entry>, messages: seq<Message>, expected: int, h: Hashing)
    ensures IsBest(Lookup(entries, messages, expected, h), entries, messages, expected, h)
  {
    BestOfIsBest(SortEntries(entries), messages, expected, h);
    forall e ensures e in SortEntries(entries) <==> e in entries {
      SortKeepsMembers(entries, e);
    }
  }

  /** How far the found prefix reaches. */
  function Reach(found: Option<Entry>): Option<int> {
    if found.Some? then Some(found.value.end) else None
  }

  /** How far the lookup reaches does not depend on the order of the entries. */
  lemma {:induction false} ReachIgnoresOrder(entries: seq<Entry>, others: seq<Entry>, messages: seq<Message>,
                                             expected: int, h: Hashing)
    requires multiset(entries) == multiset(others)
    ensures Reach(Lookup(entries, messages, expected, h)) == Reach(Lookup(others, messages, expected, h))
  {
    LookupIsLongest(entries, messages, expected, h);
    LookupIsLongest(others, messages, expected, h);
    assert forall e :: e in entries <==> e in multiset(entries);
    assert forall e :: e in others <==> e in multiset(others);
  }

  /** An entry usable for a conversation is usable for every extension of it. */
  lemma {:induction false} UsableInExtension(e: Entry, messages: seq<Message>, more: seq<Message>, expected: int,
                                             h: Hashing)
    requires Usable(e, messages, expected, h)
    ensures Usable(e, messages + more, expected, h)
  {
    if e.start >= 0 {
      assert (messages + more)[e.start..e.end + 1] == messages[e.start..e.end + 1];
    }
  }

  /** Appending messages and adding entries never shortens what is found. */
  lemma {:induction false} LookupGrows(entries: seq<Entry>, added: seq<Entry>, messages: seq<Message>,
                                       more: seq<Message>,
                    expected: int, h: Hashing)
    requires Lookup(entries, messages, expected, h).Some?
    ensures Lookup(entries + added, messages + more, expected, h).Some?
    ensures Lookup(entries + added, messages + more, expected, h).value.end
      >= Lookup(entries, messages, expected, h).value.end
  {
    var best := Lookup(entries, messages, expected, h).value;
    LookupIsLongest(entries, messages, expected, h);
    LookupIsLongest(entries + added, messages + more, expected, h);
    UsableInExtension(best, messages, more, expected, h);
    assert best in entries + added;
  }

  /** A cached summary is found again, or beaten by a longer one, in every extension of its conversation. */
  lemma {:induction false} MadeEntryFound(start: int, end: int, messages: seq<Message>, summary: string, h: Hashing,
                       entries: seq<Entry>, more: seq<Message>)
    requires 0 <= start <= end < |messages|
    requires MakeCacheEntry(start, end, messages, summary, h) in entries
    ensures var found := Lookup(entries, messages + more, start, h);
      found.Some? && found.value.end >= end
  {
    var e := MakeCacheEntry(start, end, messages, summary, h);
    assert Usable(e, messages, start, h);
    UsableInExtension(e, messages, more, start, h);
    LookupIsLongest(entries, messages + more, start, h);
  }

  // ---- When a made entry is used ------------------------------------------

  /** Different lists of texts have different digests. */
  ghost predicate Injective(h: Hashing) {
    forall a: seq<string>, b: seq<string> :: h.digest(a) == h.digest(b) ==> a == b
  }

  /** Messages `start` to `end` inclusive are there in both conversations and normalize alike. */
  ghost predicate SameRange(start: int, end: int, messages: seq<Message>, other: seq<Message>, h: Hashing) {
    && 0 <= start <= end < |messages| && end < |other|
    && forall i :: start <= i <= end ==> h.normalize(messages[i]) == h.normalize(other[i])
  }

  lemma {:induction false} RangeHashOf(messages: seq<Message>, start: int, end: int, h: Hashing)
    requires 0 <= start <= end
    ensures var hi := if end < |messages| then end + 1 else |messages|;
      RangeHash(messages, start, end, h) == h.digest(Normalize(if start <= hi then messages[start..hi] else [], h))
  {
    if start > |messages| {
      assert Clamp(start, |messages|) == Clamp(end + 1, |messages|) == |messages|;
      assert messages[|messages|..|messages|] == [];
    }
  }

  lemma {:induction false} SameHashSameRange(start: int, end: int, messages: seq<Message>, other: seq<Message>,
                                             h: Hashing)
    requires Injective(h) && 0 <= start <= end < |other|
    requires RangeHash(messages, start, end, h) == RangeHash(other, start, end, h)
    ensures SameRange(start, end, messages, other, h)
  {
    RangeHashOf(messages, start, end, h);
    RangeHashOf(other, start, end, h);
    var hi := if end < |messages| then end + 1 else |messages|;
    var a := Normalize(if start <= hi then messages[start..hi] else [], h);
    var b := Normalize(other[start..end + 1], h);
    assert a == b;
    assert |b| == end + 1 - start;
    assert |a| == |b|;
    forall i | start <= i <= end
      ensures h.normalize(messages[i]) == h.normalize(other[i])
    {
      assert a[i - start] == b[i - start];
    }
  }

  lemma {:induction false} SameRangeSameHash(start: int, end: int, messages: seq<Message>, other: seq<Message>,
                                             h: Hashing)
    requires SameRange(start, end, messages, other, h)
    ensures RangeHash(messages, start, end, h) == RangeHash(other, start, end, h)
  {
    assert Normalize(messages[start..end + 1], h) == Normalize(other[start..end + 1], h);
  }

  /**
   What becomes of an entry made over messages `start` to `end` of one conversation when it is
   looked up for another one, for every range: it is used exactly when the lookup starts where
   it starts, it ends inside the other conversation and the messages in its range are the same
   in both (a range that starts before the first message has no content to compare). Otherwise
   the reason is the first of these that fails.
   */
  lemma {:induction false} MadeEntryVerdict(start: int, end: int, messages: seq<Message>, summary: string, h: Hashing,
                                            other: seq<Message>, expected: int)
    requires Injective(h)
    ensures var verdict := Verdict(MakeCacheEntry(start, end, messages, summary, h), other, expected, h);
      && (verdict == Some(StartMismatch) <==> start != expected || end < start)
      && (verdict == Some(EndOutOfBounds) <==> start == expected && start <= end && |other| <= end)
      && (verdict == Some(HashMismatch) <==>
            start == expected && 0 <= start <= end < |other| && !SameRange(start, end, messages, other, h))
      && (verdict == None <==>
            start == expected && start <= end < |other| && (start < 0 || SameRange(start, end, messages, other, h)))
  {
    if 0 <= start <= end < |other| {
      if RangeHash(messages, start, end, h) == RangeHash(other, start, end, h) {
        SameHashSameRange(start, end, messages, other, h);
      }
      if SameRange(start, end, messages, other, h) {
        SameRangeSameHash(start, end, messages, other, h);
      }
    }
  }

  /** What an entry was made from. */
  datatype Origin = Origin(start: int, end: int, messages: seq<Message>, summary: string)

  function EntryOf(o: Origin, h: Hashing): Entry {
    MakeCacheEntry(o.start, o.end, o.messages, o.summary, h)
  }

  /** The entry carries the range and the summary that it was made with. */
  predicate Carries(e: Entry, o: Origin) {
    e.start == o.start && e.end == o.end && e.summary == o.summary
  }

  /** The conversation repeats what the entry summarizes, from its first message on. */
  ghost predicate Repeats(o: Origin, messages: seq<Message>, h: Hashing) {
    o.start == 0 && SameRange(0, o.end, o.messages, messages, h)
  }

  /**
   Over a cache of made entries a lookup from the first message on finds a summary exactly when
   the conversation repeats one that was summarized, it is then the summary of such a one, and
   no repeated one was longer.
   */
  lemma {:induction false} LookupFindsRepeated(origins: seq<Origin>, entries: seq<Entry>, messages: seq<Message>,
                                               h: Hashing)
    requires Injective(h) && |entries| == |origins|
    requires forall i :: 0 <= i < |origins| ==> entries[i] == EntryOf(origins[i], h)
    ensures var found := Lookup(entries, messages, 0, h);
      && (found.Some? ==> exists o :: o in origins && Repeats(o, messages, h) && Carries(found.value, o))
      && (forall o :: o in origins && Repeats(o, messages, h) ==> found.Some? && o.end <= found.value.end)
  {
    var found := Lookup(entries, messages, 0, h);
    LookupIsLongest(entries, messages, 0, h);
    if found.Some? {
      var i :| 0 <= i < |entries| && entries[i] == found.value;
      var o := origins[i];
      MadeEntryVerdict(o.start, o.end, o.messages, o.summary, h, messages, 0);
      assert o in origins && Repeats(o, messages, h) && Carries(found.value, o);
    }
    forall o | o in origins && Repeats(o, messages, h)
      ensures found.Some? && o.end <= found.value.end
    {
      var i :| 0 <= i < |origins| && origins[i] == o;
      MadeEntryVerdict(o.start, o.end, o.messages, o.summary, h, messages, 0);
      assert EntryOf(o, h) == entries[i];
    }
  }

  // ---- Ties ----------------------------------------------------------------

  function Better(x: Option<Entry>, y: Option<Entry>): Option<Entry> {
    if y.Some? && (x.None? || y.value.end > x.value.end) then y else x
  }

  lemma {:induction false} BestOfAppend(a: seq<Entry>, b: seq<Entry>, messages: seq<Message>, expected: int, h: Hashing)
    ensures BestOf(a + b, messages, expected, h)
      == Better(BestOf(a, messages, expected, h), BestOf(b, messages, expected, h))
    decreases |b|
  {
    if b == [] {
      assert a + b == a;
    } else {
      assert (a + b)[..|a + b| - 1] == a + b[..|b| - 1];
      BestOfAppend(a, b[..|b| - 1], messages, expected, h);
    }
  }

  ghost predicate SortedEntries(s: seq<Entry>) {
    forall i, j :: 0 <= i < j < |s| ==> NotAfter(s[i], s[j])
  }

  lemma {:induction false} InsertSorts(e: Entry, s: seq<Entry>)
    requires SortedEntries(s)
    ensures SortedEntries(Insert(e, s))
    ensures forall x :: x in Insert(e, s) ==> x == e || x in s
  {
    if s != [] && NotAfter(s[0], e) {
      InsertSorts(e, s[1..]);
      var rest := Insert(e, s[1..]);
      forall j | 0 <= j < |rest| ensures NotAfter(s[0], rest[j]) {
        assert rest[j] in rest;
      }
    }
  }

  lemma {:induction false} SortSorts(entries: seq<Entry>)
    ensures SortedEntries(SortEntries(entries))
  {
    if entries != [] {
      SortSorts(entries[..|entries| - 1]);
      InsertSorts(Last(entries), SortEntries(entries[..|entries| - 1]));
    }
  }

  /** Inserting into the sorted list has the effect on the best entry of appending at the end. */
  lemma {:induction false} InsertLikeAppend(e: Entry, s: seq<Entry>, messages: seq<Message>, expected: int, h: Hashing)
    requires SortedEntries(s)
    ensures BestOf(Insert(e, s), messages, expected, h)
      == Better(BestOf(s, messages, expected, h), BestOf([e], messages, expected, h))
    decreases |s|
  {
    if s != [] && NotAfter(s[0], e) {
      InsertLikeAppend(e, s[1..], messages, expected, h);
      BestOfAppend([s[0]], Insert(e, s[1..]), messages, expected, h);
      BestOfAppend([s[0]], s[1..], messages, expected, h);
      assert s == [s[0]] + s[1..];
    } else {
      BestOfAppend([e], s, messages, expected, h);
      BestOfIsBest(s, messages, expected, h);
      BestOfIsBest([e], messages, expected, h);
      if s != [] {
        assert forall x :: x in s ==> x == s[0] || NotAfter(s[0], x);
      }
    }
  }

  /** Sorting first changes nothing, even among ties: of the longest usable entries the first given wins. */
  lemma {:induction false} FirstLongestWins(entries: seq<Entry>, messages: seq<Message>, expected: int, h: Hashing)
    ensures Lookup(entries, messages, expected, h) == BestOf(entries, messages, expected, h)
    decreases |entries|
  {
    if entries != [] {
      var init := entries[..|entries| - 1];
      FirstLongestWins(init, messages, expected, h);
      SortSorts(init);
      InsertLikeAppend(Last(entries), SortEntries(init), messages, expected, h);
      BestOfAppend(init, [Last(entries)], messages, expected, h);
      assert entries == init + [Last(entries)];
    }
  }

  /** Every entry is either usable or has exactly one reason, so the counts add up. */
  function CountUsable(entries: seq<Entry>, messages: seq<Message>, expected: int, h: Hashing): nat {
    if entries == [] then 0
    else CountUsable(entries[..|entries| - 1], messages, expected, h)
         + (if Usable(Last(entries), messages, expected, h) then 1 else 0)
  }

  predicate Explains(r: Reason, e: Entry, messages: seq<Message>, expected: int, h: Hashing) {
    r.start == e.start && r.end == e.end && Verdict(e, messages, expected, h) == Some(r.why)
  }

  lemma {:induction false} ReasonsPartition(entries: seq<Entry>, messages: seq<Message>, expected: int, h: Hashing)
    ensures |ReasonsOf(entries, messages, expected, h)| + CountUsable(entries, messages, expected, h) == |entries|
    ensures forall r :: r in ReasonsOf(entries, messages, expected, h) ==>
      exists e :: e in entries && Explains(r, e, messages, expected, h)
    decreases |entries|
  {
    if entries != [] {
      var init := entries[..|entries| - 1];
      ReasonsPartition(init, messages, expected, h);
      forall r | r in ReasonsOf(entries, messages, expected, h)
        ensures exists e :: e in entries && Explains(r, e, messages, expected, h)
      {
        if r in ReasonsOf(init, messages, expected, h) {
          var e :| e in init && Explains(r, e, messages, expected, h);
          assert e in entries;
        } else {
          assert Last(entries) in entries && Explains(r, Last(entries), messages, expected, h);
        }
      }
    }
  }

  ghost predicate ReasonsAscend(reasons: seq<Reason>) {
    forall i, j :: 0 <= i < j < |reasons| ==>
      reasons[i].start < reasons[j].start || (reasons[i].start == reasons[j].start && reasons[i].end <= reasons[j].end)
  }

  lemma {:induction false} ReasonsNotAfter(entries: seq<Entry>, e: Entry, messages: seq<Message>, expected: int,
                                           h: Hashing)
    requires forall i :: 0 <= i < |entries| ==> NotAfter(entries[i], e)
    ensures forall r :: r in ReasonsOf(entries, messages, expected, h) ==>
      r.start < e.start || (r.start == e.start && r.end <= e.end)
  {
    if entries != [] {
      ReasonsNotAfter(entries[..|entries| - 1], e, messages, expected, h);
      assert NotAfter(entries[|entries| - 1], e);
    }
  }

  lemma {:induction false} ReasonsAscendOf(entries: seq<Entry>, messages: seq<Message>, expected: int, h: Hashing)
    requires SortedEntries(entries)
    ensures ReasonsAscend(ReasonsOf(entries, messages, expected, h))
  {
    if entries != [] {
      var init := entries[..|entries| - 1];
      ReasonsAscendOf(init, messages, expected, h);
      ReasonsNotAfter(init, Last(entries), messages, expected, h);
    }
  }

  /** The reasons of a lookup are listed by start and end, whatever the order of the entries. */
  lemma {:induction false} ReasonsListed(entries: seq<Entry>, messages: seq<Message>, expected: int, h: Hashing)
    ensures ReasonsAscend(ReasonsOf(SortEntries(entries), messages, expected, h))
  {
    SortSorts(entries);
    ReasonsAscendOf(SortEntries(entries), messages, expected, h);
  }
}
