/** Routes of the proxy and the two readings of their `extends` field. */
module Routes {
  import opened Common
  import opened Text

  /** `extends` as configuration loading and other callers supply it. */
  datatype Extends = NoParent | Words(text: string) | Many(names: seq<string>)

  /** The settings that the resolver merges key by key. */
  datatype Key =
    | SummaryEnabled | PassthroughEnabled | Model | SummaryModel | CtxLen | MaxTokens
    | TransformReasoning | AddEmptyContent | ReasoningPlaceholder | ModelPattern
    | UpstreamUrl | UpstreamHeaders | ApiKey | ApiKeys | FallbackChain
    | CircuitBreakerEnabled | FailureThreshold | RecoveryTimeout | RequestTimeout
    | MaxConcurrent | QueueTimeout | CostPriority | PerformanceLogsDir | Capabilities | Filters

  datatype Value =
    | Flag(flag: bool)
    | Number(number: real)
    | Word(word: string)
    | Names(names: seq<string>)
    | Headers(headers: map<string, string>)
    | Json(document: string)

  /** A route. A key missing from `settings` is a field that holds None. */
  datatype Route = Route(
    name: string,
    pattern: string,
    settings: map<Key, Value>,
    overrides: map<string, Value>,
    parents: Extends,
    hierarchy: seq<string>)

  type Table = map<string, Route>

  /** Routes are registered under their own name. */
  ghost predicate KeyedByName(table: Table) {
    forall n :: n in table ==> table[n].name == n
  }

  const ALL_KEYS: seq<Key> := [
    SummaryEnabled, PassthroughEnabled, Model, SummaryModel, CtxLen, MaxTokens,
    TransformReasoning, AddEmptyContent, ReasoningPlaceholder, ModelPattern,
    UpstreamUrl, UpstreamHeaders, ApiKey, ApiKeys, FallbackChain,
    CircuitBreakerEnabled, FailureThreshold, RecoveryTimeout, RequestTimeout,
    MaxConcurrent, QueueTimeout, CostPriority, PerformanceLogsDir, Capabilities, Filters]

  function KeyIndex(k: Key): nat {
    match k
    case SummaryEnabled => 0 case PassthroughEnabled => 1 case Model => 2
    case SummaryModel => 3 case CtxLen => 4 case MaxTokens => 5
    case TransformReasoning => 6 case AddEmptyContent => 7 case ReasoningPlaceholder => 8
    case ModelPattern => 9 case UpstreamUrl => 10 case UpstreamHeaders => 11
    case ApiKey => 12 case ApiKeys => 13 case FallbackChain => 14
    case CircuitBreakerEnabled => 15 case FailureThreshold => 16 case RecoveryTimeout => 17
    case RequestTimeout => 18 case MaxConcurrent => 19 case QueueTimeout => 20
    case CostPriority => 21 case PerformanceLogsDir => 22 case Capabilities => 23
    case Filters => 24
  }

  /** The merge loop's key list leaves no setting out. */
  lemma {:induction false} AllKeysComplete(k: Key)
    ensures KeyIndex(k) < |ALL_KEYS| && ALL_KEYS[KeyIndex(k)] == k
  {
  }

  // ---- Reading `extends` -------------------------------------------------

  /** `s.split(",")`: always at least one piece, none of which holds a comma. */
  function SplitComma(s: string): (pieces: seq<string>)
    ensures |pieces| >= 1
    ensures forall p :: p in pieces ==> ',' !in p
    ensures ',' !in s ==> pieces == [s]
  {
    if s == [] then [[]]
    else
      var rest := SplitComma(s[1..]);
      assert ',' !in s ==> [s[0]] + rest[0] == s;
      if s[0] == ',' then [[]] + rest
      else [[s[0]] + rest[0]] + rest[1..]
  }

  lemma {:induction false} JoinHead(head: string, parts: seq<string>, sep: string)
    requires parts != []
    ensures Join([head + parts[0]] + parts[1..], sep) == head + Join(parts, sep)
  {
    if |parts| > 1 {
      assert ([head + parts[0]] + parts[1..])[1..] == parts[1..];
    }
  }

  /** The pieces with commas between them are the text again. */
  lemma {:induction false} SplitJoins(s: string)
    ensures Join(SplitComma(s), ",") == s
  {
    if s != [] {
      var rest := SplitComma(s[1..]);
      SplitJoins(s[1..]);
      if s[0] == ',' {
        assert ([[]] + rest)[1..] == rest;
      } else {
        JoinHead([s[0]], rest, ",");
      }
    }
  }

  lemma {:induction false} SplitCons(c: char, t: string)
    requires c != ','
    ensures SplitComma([c] + t) == [[c] + SplitComma(t)[0]] + SplitComma(t)[1..]
  {
    assert ([c] + t)[1..] == t;
  }

  lemma {:induction false} SplitAfterPiece(piece: string, tail: string)
    requires ',' !in piece
    ensures SplitComma(piece + "," + tail) == [piece] + SplitComma(tail)
  {
    if piece == [] {
      assert (piece + "," + tail)[1..] == tail;
    } else {
      var c, rest := piece[0], piece[1..];
      SplitAfterPiece(rest, tail);
      SplitCons(c, rest + "," + tail);
      assert piece + "," + tail == [c] + (rest + "," + tail);
      assert piece == [c] + rest;
    }
  }

  /** Conversely, splitting what was joined gives the pieces back. */
  lemma {:induction false} JoinSplits(pieces: seq<string>)
    requires pieces != [] && forall p :: p in pieces ==> ',' !in p
    ensures SplitComma(Join(pieces, ",")) == pieces
  {
    if |pieces| > 1 {
      JoinSplits(pieces[1..]);
      SplitAfterPiece(pieces[0], Join(pieces[1..], ","));
      assert pieces == [pieces[0]] + pieces[1..];
    }
  }

  function StripAll(pieces: seq<string>): (r: seq<string>)
    ensures |r| == |pieces|
    ensures forall i :: 0 <= i < |r| ==> r[i] == Strip(pieces[i])
  {
    if pieces == [] then [] else [Strip(pieces[0])] + StripAll(pieces[1..])
  }

  /** The parents that `resolve_inherited_route` reads: text is split at commas. */
  function ResolverParents(e: Extends): seq<string> {
    match e
    case NoParent => []
    case Words(text) => if text == "" then [] else StripAll(SplitComma(text))
    case Many(names) => names
  }

  lemma {:induction false} StripAllKeeps(names: seq<string>)
    ensures StripAll(names) == names <==> forall i :: 0 <= i < |names| ==> Trimmed(names[i])
  {
    forall i | 0 <= i < |names|
      ensures Strip(names[i]) == names[i] <==> Trimmed(names[i])
    {
      StripKeepsTrimmed(names[i]);
    }
  }

  lemma {:induction false} JoinedEmpty(names: seq<string>)
    ensures Join(names, ",") == "" <==> names == [] || names == [""]
  {
  }

  lemma {:induction false} StripKeepsCommaFree(s: string)
    requires ',' !in s
    ensures ',' !in Strip(s)
    decreases |s|
  {
    if s != [] && IsSpace(s[0]) {
      assert StripLeft(s) == StripLeft(s[1..]);
      StripKeepsCommaFree(s[1..]);
    } else {
      assert StripLeft(s) == s;
    }
  }

  /**
   A list of parents, joined with commas as configuration loading does, is read back by the
   resolver as that list if and only if its names are trimmed and hold no comma, and it is
   not the list of one empty name.
   */
  lemma {:induction false} JoinedListIff(names: seq<string>)
    ensures ResolverParents(Words(Join(names, ","))) == names <==>
      names != [""] && forall i :: 0 <= i < |names| ==> Trimmed(names[i]) && ',' !in names[i]
  {
    var text := Join(names, ",");
    JoinedEmpty(names);
    if text != "" {
      if forall i :: 0 <= i < |names| ==> ',' !in names[i] {
        JoinSplits(names);
        StripAllKeeps(names);
      } else if ResolverParents(Words(text)) == names {
        forall i | 0 <= i < |names|
          ensures ',' !in names[i]
        {
          StripKeepsCommaFree(SplitComma(text)[i]);
        }
      }
    }
  }

  /** The parents that `check_circular_references` reads: text is one name. */
  function CheckerParents(e: Extends): seq<string> {
    match e
    case NoParent => []
    case Words(text) => [text]
    case Many(names) => names
  }

  /** A list, nothing, or a single trimmed non-empty name. */
  predicate PlainExtends(e: Extends) {
    e.Words? ==> e.text != "" && ',' !in e.text && Trimmed(e.text)
  }

  /** Text, if there is any, is a single trimmed name: the resolver reads no parent that the checker does not. */
  predicate SafeExtends(e: Extends) {
    e.Words? && e.text != "" ==> ',' !in e.text && Trimmed(e.text)
  }

  lemma {:induction false} SafeParents(e: Extends)
    requires SafeExtends(e)
    ensures Elements(ResolverParents(e)) <= Elements(CheckerParents(e))
  {
    if e.Words? && e.text != "" {
      StripKeepsTrimmed(e.text);
      assert ResolverParents(e) == [e.text];
    }
  }

  lemma {:induction false} UnsafeParent(e: Extends) returns (p: string)
    requires !SafeExtends(e)
    ensures e.Words? && p in ResolverParents(e) && p !in CheckerParents(e)
  {
    p := ResolverParents(e)[0];
    if ',' in e.text {
      StripKeepsCommaFree(SplitComma(e.text)[0]);
    } else {
      StripKeepsTrimmed(e.text);
      assert ResolverParents(e) == [Strip(e.text)];
    }
  }

  /** Both readers see the same set of parents exactly when `extends` is plain. */
  lemma {:induction false} SameParentsIffPlain(e: Extends)
    ensures Elements(ResolverParents(e)) == Elements(CheckerParents(e)) <==> PlainExtends(e)
  {
    if e.Words? {
      var t := e.text;
      assert t in Elements(CheckerParents(e));
      if PlainExtends(e) {
        StripKeepsTrimmed(t);
        assert ResolverParents(e) == [t];
      } else if t != "" {
        if ',' in t {
          forall i | 0 <= i < |SplitComma(t)|
            ensures ResolverParents(e)[i] != t
          {
            StripKeepsCommaFree(SplitComma(t)[i]);
          }
        } else {
          StripKeepsTrimmed(t);
          assert ResolverParents(e) == [Strip(t)];
        }
        assert t !in ResolverParents(e);
        assert t !in Elements(ResolverParents(e));
      }
    }
  }
}
