/**
 The rotating log sink (`RotatingFileSink`): the current file has index 0, the retained
 files `.1` to `.N` have indices 1 to N, and a file is the sequence of its records.
 */
module LogRotation {
  import opened Common

  type Files = map<nat, seq<string>>

  /** The number of bytes of a character and of a text in UTF-8. */
  function CharBytes(c: char): nat {
    var n := c as int;
    if n < 0x80 then 1 else if n < 0x800 then 2 else if n < 0x10000 then 3 else 4
  }

  function Bytes(s: string): (n: nat)
    ensures n >= |s|
  {
    if s == [] then 0 else CharBytes(s[0]) + Bytes(s[1..])
  }

  function FileSize(records: seq<string>): nat {
    if records == [] then 0 else FileSize(records[..|records| - 1]) + Bytes(Last(records))
  }

  /** The text as it is stored: with a final newline, which is added only if there is none. */
  function Record(text: string): (r: string)
    ensures text <= r && r != [] && Last(r) == '\n'
    ensures |r| == |text| + (if text != [] && Last(text) == '\n' then 0 else 1)
  {
    if text != [] && Last(text) == '\n' then text else text + "\n"
  }

  // ---- One write as a function of the directory ---------------------------

  /** The contents of a file, if it exists. */
  function At(files: Files, i: nat): Option<seq<string>> {
    if i in files then Some(files[i]) else None
  }

  function Current(files: Files): seq<string> {
    if 0 in files then files[0] else []
  }

  predicate NeedsRotation(files: Files, maxBytes: nat, incoming: nat) {
    maxBytes != 0 && FileSize(Current(files)) + incoming > maxBytes
  }

  function Below(i: nat): nat
    requires i > 0
  {
    i - 1
  }

  /** Every file up to index `n - 1` moves up by one, file `n` is lost, files beyond stay. */
  function Rotated(files: Files, n: nat): Files {
    (map i: nat | i in files && i > n :: files[i]) + (map i: nat | 0 < i <= n && Below(i) in files :: files[Below(i)])
  }

  function AfterWrite(files: Files, maxBytes: nat, n: nat, text: string): Files {
    var base := if NeedsRotation(files, maxBytes, Bytes(Record(text))) then Rotated(files, n) else files;
    base[0 := Current(base) + [Record(text)]]
  }

  function AfterWrites(files: Files, maxBytes: nat, n: nat, texts: seq<string>): Files {
    if texts == [] then files
    else AfterWrite(AfterWrites(files, maxBytes, n, texts[..|texts| - 1]), maxBytes, n, Last(texts))
  }

  // ---- The sink -----------------------------------------------------------

  /** Where the open descriptor points: renaming a file moves it along. */
  datatype Handle = Closed | On(index: nat) | Unlinked

  lemma {:induction false} RotatedAt(files: Files, n: nat, i: nat)
    ensures At(Rotated(files, n), i)
      == if i > n then At(files, i) else if i == 0 then None else At(files, Below(i))
  {
  }

  lemma {:induction false} RotatedPointwise(before: Files, after: Files, n: nat)
    requires At(after, 0) == None
    requires forall i: nat :: i > n ==> At(after, i) == At(before, i)
    requires forall i: nat :: 0 < i <= n ==> At(after, i) == At(before, Below(i))
    ensures after == Rotated(before, n)
  {
    forall i: nat
      ensures Get(after, i) == Get(Rotated(before, n), i)
    {
      RotatedAt(before, n, i);
      assert At(after, i) == At(Rotated(before, n), i);
    }
    MapsEqual(after, Rotated(before, n));
  }

  lemma {:induction false} AfterWritesAppend(files: Files, maxBytes: nat, n: nat, texts: seq<string>, text: string)
    ensures AfterWrites(files, maxBytes, n, texts + [text])
      == AfterWrite(AfterWrites(files, maxBytes, n, texts), maxBytes, n, text)
  {
    assert (texts + [text])[..|texts|] == texts;
  }

  class RotatingFileSink {
    const maxBytes: nat
    const backupCount: nat
    ghost const start: Files

    var files: Files
    var handle: Handle
    ghost var written: seq<string>

    constructor (maxBytes: int, backupCount: int, existing: Files)
      ensures Valid()
      ensures this.maxBytes == (if maxBytes < 0 then 0 else maxBytes)
      ensures this.backupCount == (if backupCount < 0 then 0 else backupCount)
      ensures start == existing && written == []
    {
      this.maxBytes := if maxBytes < 0 then 0 else maxBytes;
      this.backupCount := if backupCount < 0 then 0 else backupCount;
      start, files, handle, written := existing, existing, Closed, [];
    }

    /** The directory is what the writes so far make of the initial one; an open handle is on file 0. */
    ghost predicate Valid()
      reads this
    {
      && files == AfterWrites(start, maxBytes, backupCount, written)
      && (handle == Closed || (handle == On(0) && 0 in files))
    }

    method Remove(i: nat)
      requires i in files
      modifies this`files, this`handle
      ensures forall k: nat :: At(files, k) == if k == i then None else At(old(files), k)
      ensures handle == if old(handle) == On(i) then Unlinked else old(handle)
    {
      files := files - {i};
      if handle == On(i) {
        handle := Unlinked;
      }
    }

    method Rename(i: nat, j: nat)
      requires i in files && i != j
      modifies this`files, this`handle
      ensures forall k: nat ::
        At(files, k) == if k == j then At(old(files), i) else if k == i then None else At(old(files), k)
      ensures handle == if old(handle) == On(i) then On(j) else if old(handle) == On(j) then Unlinked else old(handle)
    {
      var moved := files[i];
      files := (files - {i})[j := moved];
      handle := if handle == On(i) then On(j) else if handle == On(j) then Unlinked else handle;
    }

    method RotateIfNeeded(incoming: nat)
      requires handle == Closed || handle == On(0)
      modifies this`files, this`handle
      ensures files == if NeedsRotation(old(files), maxBytes, incoming)
                       then Rotated(old(files), backupCount) else old(files)
      ensures handle == Closed || (handle == old(handle) && files == old(files))
    {
      if maxBytes == 0 {
        return;
      }
      var currentSize := if 0 in files then FileSize(files[0]) else 0;
      if currentSize + incoming <= maxBytes {
        return;
      }
      handle := Closed;
      ghost var before := files;
      if backupCount != 0 {
        ShiftBackups();
        assert At(files, 0) == At(before, 0) && At(files, 1) == None;
        if 0 in files {
          Rename(0, 1);
        }
        assert At(files, 0) == None && At(files, 1) == At(before, 0);
      } else if 0 in files {
        Remove(0);
      }
      RotatedPointwise(before, files, backupCount);
    }

    /** The oldest file goes; the others move up by one, the highest index first. */
    method ShiftBackups()
      requires backupCount > 0 && handle == Closed
      modifies this`files, this`handle
      ensures handle == Closed
      ensures At(files, 0) == At(old(files), 0) && At(files, 1) == None
      ensures forall i: nat :: i > backupCount ==> At(files, i) == At(old(files), i)
      ensures forall i: nat :: 1 < i <= backupCount ==> At(files, i) == At(old(files), Below(i))
    {
      ghost var before := files;
      if backupCount in files {
        Remove(backupCount);
      }
      var index: nat := backupCount - 1;
      while index > 0
        invariant index < backupCount && handle == Closed
        invariant forall i: nat :: i <= index || i > backupCount ==> At(files, i) == At(before, i)
        invariant At(files, index + 1) == None
        invariant forall i: nat :: index + 1 < i <= backupCount ==> At(files, i) == At(before, Below(i))
      {
        assert At(files, index) == At(before, index);
        if index in files {
          Rename(index, index + 1);
        }
        assert At(files, index + 1) == At(before, index);
        index := index - 1;
      }
    }

    /** Open the current file for appending when needed, then write through the handle. */
    method Append(line: string)
      requires handle == Closed || (handle == On(0) && 0 in files)
      modifies this`files, this`handle
      ensures files == old(files)[0 := Current(old(files)) + [line]] && handle == On(0)
    {
      if handle == Closed {
        if 0 !in files {
          files := files[0 := []];
        }
        handle := On(0);
      }
      files := files[handle.index := files[handle.index] + [line]];
    }

    /** Rotate if the record would overflow the current file, then append it. */
    method Write(text: string)
      requires Valid()
      modifies this
      ensures Valid() && written == old(written) + [text]
      ensures files == AfterWrite(old(files), maxBytes, backupCount, text)
    {
      var line := Record(text);
      RotateIfNeeded(Bytes(line));
      Append(line);
      AfterWritesAppend(start, maxBytes, backupCount, written, text);
      written := written + [text];
    }
  }

  // ---- The bytes of a text ------------------------------------------------

  /** The UTF-8 encoding of a character (section 3 of RFC 3629). */
  function EncodeChar(c: char): (bytes: seq<int>)
    ensures forall i :: 0 <= i < |bytes| ==> 0 <= bytes[i] < 0x100
  {
    var n := c as int;
    if n < 0x80 then [n]
    else if n < 0x800 then [0xC0 + n / 0x40, 0x80 + n % 0x40]
    else if n < 0x10000 then [0xE0 + n / 0x1000, 0x80 + n / 0x40 % 0x40, 0x80 + n % 0x40]
    else [0xF0 + n / 0x40000, 0x80 + n / 0x1000 % 0x40, 0x80 + n / 0x40 % 0x40, 0x80 + n % 0x40]
  }

  function Encode(s: string): seq<int> {
    if s == [] then [] else EncodeChar(s[0]) + Encode(s[1..])
  }

  /** How many bytes the character has that starts with this byte. */
  function LengthFrom(lead: int): nat {
    if lead < 0x80 then 1 else if lead < 0xE0 then 2 else if lead < 0xF0 then 3 else 4
  }

  function PointOf(bytes: seq<int>): int {
    if |bytes| == 1 then bytes[0]
    else if |bytes| == 2 then (bytes[0] - 0xC0) * 0x40 + (bytes[1] - 0x80)
    else if |bytes| == 3 then (bytes[0] - 0xE0) * 0x1000 + (bytes[1] - 0x80) * 0x40 + (bytes[2] - 0x80)
    else if |bytes| == 4 then
      (bytes[0] - 0xF0) * 0x40000 + (bytes[1] - 0x80) * 0x1000 + (bytes[2] - 0x80) * 0x40 + (bytes[3] - 0x80)
    else 0
  }

  /** The code points of encoded text: the low bits of the first byte, then six of each further one. */
  function Decode(bytes: seq<int>): (points: seq<int>) {
    if bytes == [] || |bytes| < LengthFrom(bytes[0]) then []
    else
      var n := LengthFrom(bytes[0]);
      [PointOf(bytes[..n])] + Decode(bytes[n..])
  }

  lemma {:induction false} CharRoundTrip(c: char)
    ensures var bytes := EncodeChar(c);
      && |bytes| == CharBytes(c) == LengthFrom(bytes[0])
      && PointOf(bytes) == c as int
  {
    var n := c as int;
    assert n / 0x1000 == n / 0x40 / 0x40 && n / 0x40000 == n / 0x40 / 0x40 / 0x40;
  }

  function Points(s: string): (points: seq<int>)
    ensures |points| == |s| && forall i :: 0 <= i < |s| ==> points[i] == s[i] as int
  {
    seq(|s|, i requires 0 <= i < |s| => s[i] as int)
  }

  /**
   The size a record is counted with is the length of its encoding, and the encoding is a
   faithful one: decoding it gives back the text.
   */
  lemma {:induction false} BytesAreEncoded(s: string)
    ensures Bytes(s) == |Encode(s)| && Decode(Encode(s)) == Points(s)
  {
    if s != [] {
      var head, rest := EncodeChar(s[0]), Encode(s[1..]);
      CharRoundTrip(s[0]);
      BytesAreEncoded(s[1..]);
      assert (head + rest)[0] == head[0];
      assert (head + rest)[..|head|] == head && (head + rest)[|head|..] == rest;
      assert Points(s) == [s[0] as int] + Points(s[1..]);
    }
  }

  lemma {:induction false} EncodeAppend(a: string, b: string)
    ensures Encode(a + b) == Encode(a) + Encode(b)
  {
    if a == [] {
      assert a + b == b;
    } else {
      assert (a + b)[1..] == a[1..] + b;
      EncodeAppend(a[1..], b);
    }
  }

  /** The size of a file is the length of the encoded concatenation of its records. */
  lemma {:induction false} FileSizeIsEncoded(records: seq<string>)
    ensures FileSize(records) == |Encode(Concat(records))|
  {
    if records != [] {
      var init := records[..|records| - 1];
      FileSizeIsEncoded(init);
      BytesAreEncoded(Last(records));
      assert records == init + [Last(records)];
      ConcatAppend(init, [Last(records)]);
      assert Concat([Last(records)]) == Last(records) by {
        assert [Last(records)][1..] == [];
      }
      EncodeAppend(Concat(init), Last(records));
    }
  }

  // ---- What a run keeps ---------------------------------------------------

  /** The retained files, newest first, as a list: writes either extend its head or push onto it. */
  function Push(stack: seq<seq<string>>, maxBytes: nat, n: nat, text: string): (r: seq<seq<string>>)
    ensures |r| <= |stack| + 1 && r != []
  {
    var current := if stack == [] then [] else stack[0];
    if maxBytes != 0 && FileSize(current) + Bytes(Record(text)) > maxBytes then
      [[Record(text)]] + (if |stack| <= n then stack else stack[..n])
    else if stack == [] then [[Record(text)]]
    else [stack[0] + [Record(text)]] + stack[1..]
  }

  function Stack(maxBytes: nat, n: nat, texts: seq<string>): seq<seq<string>> {
    if texts == [] then [] else Push(Stack(maxBytes, n, texts[..|texts| - 1]), maxBytes, n, Last(texts))
  }

  function FilesOf(stack: seq<seq<string>>): Files {
    map i: nat | i < |stack| :: stack[i]
  }

  /** What rotation leaves of a stack of files: all but the oldest when they are at the limit, one place up. */
  lemma {:induction false} RotatedStackAt(stack: seq<seq<string>>, n: nat, i: nat)
    requires |stack| <= n + 1
    ensures var kept := if |stack| <= n then stack else stack[..n];
      At(Rotated(FilesOf(stack), n), i) == if 0 < i <= |kept| then Some(kept[i - 1]) else None
  {
    RotatedAt(FilesOf(stack), n, i);
  }

  lemma {:induction false} PushRotated(stack: seq<seq<string>>, maxBytes: nat, n: nat, text: string)
    requires |stack| <= n + 1 && NeedsRotation(FilesOf(stack), maxBytes, Bytes(Record(text)))
    ensures AfterWrite(FilesOf(stack), maxBytes, n, text) == FilesOf(Push(stack, maxBytes, n, text))
  {
    var a := AfterWrite(FilesOf(stack), maxBytes, n, text);
    var b := FilesOf(Push(stack, maxBytes, n, text));
    RotatedStackAt(stack, n, 0);
    assert [] + [Record(text)] == [Record(text)];
    forall i: nat
      ensures Get(a, i) == Get(b, i)
    {
      RotatedStackAt(stack, n, i);
      assert At(a, i) == At(b, i);
    }
    MapsEqual(a, b);
  }

  lemma {:induction false} PushIsWrite(stack: seq<seq<string>>, maxBytes: nat, n: nat, text: string)
    requires |stack| <= n + 1
    ensures AfterWrite(FilesOf(stack), maxBytes, n, text) == FilesOf(Push(stack, maxBytes, n, text))
  {
    if NeedsRotation(FilesOf(stack), maxBytes, Bytes(Record(text))) {
      PushRotated(stack, maxBytes, n, text);
    } else {
      assert Current(FilesOf(stack)) == if stack == [] then [] else stack[0];
      assert [] + [Record(text)] == [Record(text)];
    }
  }

  /**
   From an empty directory, any sequence of writes leaves exactly the files 0 to k with
   no gap and at most `n + 1` of them, holding the stack's contents.
   */
  lemma {:induction false} RunIsStack(maxBytes: nat, n: nat, texts: seq<string>)
    ensures AfterWrites(map[], maxBytes, n, texts) == FilesOf(Stack(maxBytes, n, texts))
    ensures |Stack(maxBytes, n, texts)| <= n + 1
  {
    if texts != [] {
      var init := texts[..|texts| - 1];
      RunIsStack(maxBytes, n, init);
      PushIsWrite(Stack(maxBytes, n, init), maxBytes, n, Last(texts));
    } else {
      assert FilesOf([]) == map[];
    }
  }

  /** The retained records from the oldest file to the current one. */
  function Retained(stack: seq<seq<string>>): seq<string> {
    if stack == [] then [] else Retained(stack[1..]) + stack[0]
  }

  function Records(texts: seq<string>): (r: seq<string>)
    ensures |r| == |texts|
    ensures forall i :: 0 <= i < |r| ==> r[i] == Record(texts[i])
  {
    seq(|texts|, i requires 0 <= i < |texts| => Record(texts[i]))
  }

  lemma {:induction false} RecordsInit(texts: seq<string>)
    requires texts != []
    ensures Records(texts) == Records(texts[..|texts| - 1]) + [Record(Last(texts))]
  {
  }

  ghost predicate IsSuffix<T>(a: seq<T>, b: seq<T>) {
    |a| <= |b| && a == b[|b| - |a|..]
  }

  lemma {:induction false} SuffixChain<T>(a: seq<T>, b: seq<T>, c: seq<T>, x: T)
    requires IsSuffix(a, b + [x]) && IsSuffix(b, c)
    ensures IsSuffix(a, c + [x])
  {
    assert (c + [x])[|c| - |b|..] == b + [x];
  }

  lemma {:induction false} RetainedDropsOldest(stack: seq<seq<string>>, k: nat)
    requires k <= |stack|
    ensures IsSuffix(Retained(stack[..k]), Retained(stack))
    ensures k < |stack| && stack[k] != [] ==> |Retained(stack[..k])| < |Retained(stack)|
  {
    if k > 0 {
      RetainedDropsOldest(stack[1..], k - 1);
      assert stack[..k][1..] == stack[1..][..k - 1];
      assert stack[..k][0] == stack[0];
    } else if stack != [] {
      RetainedDropsOldest(stack[1..], 0);
      assert stack[..0] == stack[1..][..0] == [];
      assert Retained(stack) == Retained(stack[1..]) + stack[0];
    }
  }

  lemma {:induction false} PushRetained(stack: seq<seq<string>>, maxBytes: nat, n: nat, text: string)
    requires |stack| <= n + 1 && forall i :: 0 <= i < |stack| ==> stack[i] != []
    ensures IsSuffix(Retained(Push(stack, maxBytes, n, text)), Retained(stack) + [Record(text)])
    ensures |Retained(Push(stack, maxBytes, n, text))| == |Retained(stack)| + 1
      || |Push(stack, maxBytes, n, text)| == n + 1
  {
    var r := Push(stack, maxBytes, n, text);
    if r[0] == [Record(text)] {
      var kept := if |stack| <= n then stack else stack[..n];
      if stack != [] {
        assert r == [[Record(text)]] + kept;
        assert r[1..] == kept;
      }
      if |stack| > n {
        RetainedDropsOldest(stack, n);
      }
    } else {
      assert r[1..] == stack[1..];
      assert Retained(r) == Retained(stack[1..]) + stack[0] + [Record(text)];
    }
  }

  lemma {:induction false} NoEmptyFile(maxBytes: nat, n: nat, texts: seq<string>)
    ensures forall i :: 0 <= i < |Stack(maxBytes, n, texts)| ==> Stack(maxBytes, n, texts)[i] != []
  {
    if texts != [] {
      NoEmptyFile(maxBytes, n, texts[..|texts| - 1]);
    }
  }

  /** The retained records are a suffix of all records, and files are missing only if nothing was lost. */
  ghost predicate LostOnlyOldest(stack: seq<seq<string>>, n: nat, records: seq<string>) {
    && IsSuffix(Retained(stack), records)
    && (|Retained(stack)| < |records| ==> |stack| == n + 1)
  }

  lemma {:induction false} FullStaysFull(stack: seq<seq<string>>, maxBytes: nat, n: nat, text: string)
    requires |stack| <= n + 1
    ensures |stack| <= |Push(stack, maxBytes, n, text)| <= n + 1
  {
  }

  lemma {:induction false} LostOnlyOldestStep(stack: seq<seq<string>>, maxBytes: nat, n: nat, text: string,
                                              records: seq<string>)
    requires |stack| <= n + 1 && forall i :: 0 <= i < |stack| ==> stack[i] != []
    requires LostOnlyOldest(stack, n, records)
    ensures LostOnlyOldest(Push(stack, maxBytes, n, text), n, records + [Record(text)])
  {
    PushRetained(stack, maxBytes, n, text);
    SuffixChain(Retained(Push(stack, maxBytes, n, text)), Retained(stack), records, Record(text));
    FullStaysFull(stack, maxBytes, n, text);
  }

  /** Only the oldest data is lost: what is retained is a suffix of all records ever written. */
  lemma {:induction false} RetainsSuffix(maxBytes: nat, n: nat, texts: seq<string>)
    ensures LostOnlyOldest(Stack(maxBytes, n, texts), n, Records(texts))
  {
    if texts != [] {
      var init, text := texts[..|texts| - 1], Last(texts);
      RetainsSuffix(maxBytes, n, init);
      RunIsStack(maxBytes, n, init);
      NoEmptyFile(maxBytes, n, init);
      LostOnlyOldestStep(Stack(maxBytes, n, init), maxBytes, n, text, Records(init));
      RecordsInit(texts);
    }
  }

  /** Without a limit every record stays in the current file. */
  lemma {:induction false} NeverRotated(n: nat, texts: seq<string>)
    ensures Stack(0, n, texts) == if texts == [] then [] else [Records(texts)]
  {
    if texts != [] {
      var init := texts[..|texts| - 1];
      NeverRotated(n, init);
      RecordsInit(texts);
      assert Records([]) == [] && [] + [Record(Last(texts))] == [Record(Last(texts))];
      assert init == [] ==> Stack(0, n, texts) == [Records(texts)];
      assert init != [] ==> Stack(0, n, texts) == [Records(init) + [Record(Last(texts))]] + [];
    }
  }

  // ---- Size bounds --------------------------------------------------------

  ghost predicate Bounded(stack: seq<seq<string>>, maxBytes: nat) {
    && (forall i :: 0 <= i < |stack| ==> stack[i] != [])
    && (forall i :: 0 <= i < |stack| && FileSize(stack[i]) > maxBytes ==> |stack[i]| == 1)
    && (forall i :: 0 <= i < |stack| - 1 ==> FileSize(stack[i]) + FileSize(stack[i + 1]) > maxBytes)
  }

  lemma {:induction false} ConsBounded(file: seq<string>, rest: seq<seq<string>>, maxBytes: nat)
    requires Bounded(rest, maxBytes) && file != [] && (FileSize(file) > maxBytes ==> |file| == 1)
    requires rest != [] ==> FileSize(file) + FileSize(rest[0]) > maxBytes
    ensures Bounded([file] + rest, maxBytes)
  {
  }

  lemma {:induction false} PartBounded(stack: seq<seq<string>>, from: nat, to: nat, maxBytes: nat)
    requires Bounded(stack, maxBytes) && from <= to <= |stack|
    ensures Bounded(stack[from..to], maxBytes)
  {
  }

  lemma {:induction false} FileSizeAppend(file: seq<string>, r: string)
    ensures FileSize(file + [r]) == FileSize(file) + Bytes(r)
  {
    assert (file + [r])[..|file|] == file;
  }

  lemma {:induction false} RotateBounded(stack: seq<seq<string>>, kept: nat, maxBytes: nat, r: string)
    requires Bounded(stack, maxBytes) && kept <= |stack|
    requires FileSize(if stack == [] then [] else stack[0]) + Bytes(r) > maxBytes
    ensures Bounded([[r]] + stack[..kept], maxBytes)
  {
    FileSizeAppend([], r);
    assert [] + [r] == [r];
    PartBounded(stack, 0, kept, maxBytes);
    ConsBounded([r], stack[..kept], maxBytes);
  }

  lemma {:induction false} AppendBounded(stack: seq<seq<string>>, maxBytes: nat, r: string)
    requires Bounded(stack, maxBytes) && stack != [] && FileSize(stack[0]) + Bytes(r) <= maxBytes
    ensures Bounded([stack[0] + [r]] + stack[1..], maxBytes)
  {
    FileSizeAppend(stack[0], r);
    PartBounded(stack, 1, |stack|, maxBytes);
    ConsBounded(stack[0] + [r], stack[1..], maxBytes);
  }

  lemma {:induction false} PushBounded(stack: seq<seq<string>>, maxBytes: nat, n: nat, text: string)
    requires maxBytes > 0 && Bounded(stack, maxBytes)
    ensures Bounded(Push(stack, maxBytes, n, text), maxBytes)
  {
    var r := Record(text);
    var current := if stack == [] then [] else stack[0];
    if FileSize(current) + Bytes(r) > maxBytes {
      RotateBounded(stack, if |stack| <= n then |stack| else n, maxBytes, r);
      assert stack[..|stack|] == stack;
    } else if stack != [] {
      AppendBounded(stack, maxBytes, r);
    }
  }

  /** A file over the limit holds one record, and neighbouring files together exceed the limit. */
  lemma {:induction false} FilesBounded(maxBytes: nat, n: nat, texts: seq<string>)
    requires maxBytes > 0
    ensures Bounded(Stack(maxBytes, n, texts), maxBytes)
  {
    if texts != [] {
      FilesBounded(maxBytes, n, texts[..|texts| - 1]);
      PushBounded(Stack(maxBytes, n, texts[..|texts| - 1]), maxBytes, n, Last(texts));
    }
  }

  function TotalSize(stack: seq<seq<string>>): nat {
    if stack == [] then 0 else FileSize(stack[0]) + TotalSize(stack[1..])
  }

  lemma {:induction false} MulSucc(k: nat, x: nat)
    ensures (k + 1) * x == x + k * x
  {
  }

  lemma {:induction false} TotalAtMost(stack: seq<seq<string>>, limit: nat)
    requires forall i :: 0 <= i < |stack| ==> FileSize(stack[i]) <= limit
    ensures TotalSize(stack) <= |stack| * limit
  {
    if stack != [] {
      TotalAtMost(stack[1..], limit);
      MulSucc(|stack| - 1, limit);
    }
  }

  lemma {:induction false} TotalExceedsPairs(stack: seq<seq<string>>, limit: nat)
    requires forall i :: 0 <= i < |stack| - 1 ==> FileSize(stack[i]) + FileSize(stack[i + 1]) > limit
    ensures TotalSize(stack) >= |stack| / 2 * limit
    ensures |stack| >= 2 ==> TotalSize(stack) > |stack| / 2 * limit
  {
    if |stack| >= 2 {
      var rest := stack[2..];
      assert stack[1..][1..] == rest;
      TotalExceedsPairs(rest, limit);
      assert |stack| / 2 == |rest| / 2 + 1;
      MulSucc(|rest| / 2, limit);
    }
  }

  ghost predicate AllFrom(stack: seq<seq<string>>, records: seq<string>) {
    forall i, r :: 0 <= i < |stack| && r in stack[i] ==> r in records
  }

  lemma {:induction false} PushFrom(stack: seq<seq<string>>, maxBytes: nat, n: nat, text: string, records: seq<string>)
    requires AllFrom(stack, records)
    ensures AllFrom(Push(stack, maxBytes, n, text), records + [Record(text)])
  {
  }

  lemma {:induction false} FilesHoldRecords(maxBytes: nat, n: nat, texts: seq<string>)
    ensures AllFrom(Stack(maxBytes, n, texts), Records(texts))
  {
    if texts != [] {
      var init := texts[..|texts| - 1];
      FilesHoldRecords(maxBytes, n, init);
      PushFrom(Stack(maxBytes, n, init), maxBytes, n, Last(texts), Records(init));
      RecordsInit(texts);
    }
  }

  lemma {:induction false} MulMonotone(a: nat, b: nat, x: nat)
    requires a <= b
    ensures a * x <= b * x
  {
  }

  /** When every record fits the limit, so does the retained total, file by file. */
  lemma {:induction false} TotalAtMostLimit(maxBytes: nat, n: nat, texts: seq<string>)
    requires maxBytes > 0
    requires forall t :: t in texts ==> Bytes(Record(t)) <= maxBytes
    ensures TotalSize(Stack(maxBytes, n, texts)) <= (n + 1) * maxBytes
  {
    var stack := Stack(maxBytes, n, texts);
    FilesBounded(maxBytes, n, texts);
    FilesHoldRecords(maxBytes, n, texts);
    RunIsStack(maxBytes, n, texts);
    forall i | 0 <= i < |stack|
      ensures FileSize(stack[i]) <= maxBytes
    {
      if FileSize(stack[i]) > maxBytes {
        assert stack[i] == [stack[i][0]];
        assert stack[i][0] in Records(texts);
        assert FileSize([stack[i][0]]) == Bytes(stack[i][0]);
      }
    }
    TotalAtMost(stack, maxBytes);
    MulMonotone(|stack|, n + 1, maxBytes);
  }

  lemma {:induction false} TotalWhenFull(stack: seq<seq<string>>, maxBytes: nat, n: nat)
    requires Bounded(stack, maxBytes) && |stack| == n + 1 && TotalSize(stack) > 0
    ensures TotalSize(stack) > (n + 1) / 2 * maxBytes
  {
    TotalExceedsPairs(stack, maxBytes);
    if n == 0 {
      assert (n + 1) / 2 == 0;
    }
  }

  lemma {:induction false} OneFileNonempty(maxBytes: nat, n: nat, texts: seq<string>)
    requires Stack(maxBytes, n, texts) != []
    ensures TotalSize(Stack(maxBytes, n, texts)) > 0
  {
    var stack := Stack(maxBytes, n, texts);
    assert Last(stack[0]) == Record(Last(texts));
  }

  /** Once anything has been dropped, more than half of what may be retained is. */
  lemma {:induction false} TotalAfterDrop(maxBytes: nat, n: nat, texts: seq<string>)
    requires maxBytes > 0 && |Retained(Stack(maxBytes, n, texts))| < |texts|
    ensures TotalSize(Stack(maxBytes, n, texts)) > (n + 1) / 2 * maxBytes
  {
    FilesBounded(maxBytes, n, texts);
    RetainsSuffix(maxBytes, n, texts);
    OneFileNonempty(maxBytes, n, texts);
    TotalWhenFull(Stack(maxBytes, n, texts), maxBytes, n);
  }
}
