/**
 Normalization of a route's `filters` mapping (`normalize_filters`) and the order in which
 the enabled filters run (`Pipeline.enabled_filter_names`, `_from_simple_config`, `filters`).
 A mapping is the sequence of its items in mapping order, with distinct names.
 */
module FilterOrder {
  import opened Common

  /** A setting's value as far as normalization looks at it. */
  datatype Field = Bool(flag: bool) | Int(number: int) | Else(text: string)

  datatype Raw = NotMapping | Settings(enabled: Option<Field>, priority: Option<Field>, others: map<string, string>)

  datatype Item = Item(name: string, raw: Raw)

  datatype Config = Config(name: string, enabled: bool, priority: int, others: map<string, string>)

  datatype Error =
    | UnknownFilter(name: string)
    | ConfigNotMapping(name: string)
    | EnabledNotBoolean(name: string)
    | PriorityNotInteger(name: string)
    | SamePriority(first: string, second: string, priority: int)

  datatype Result<T> = Ok(value: T) | Err(error: Error)

  /** One item on its own; a Boolean is not an integer priority. */
  function NormalizeItem(item: Item, defaults: map<string, int>): Result<Config> {
    if item.name !in defaults then Err(UnknownFilter(item.name))
    else if item.raw.NotMapping? then Err(ConfigNotMapping(item.name))
    else
      var enabled := if item.raw.enabled.Some? then item.raw.enabled.value else Bool(true);
      if !enabled.Bool? then Err(EnabledNotBoolean(item.name)) else
      var priority := if item.raw.priority.Some? then item.raw.priority.value else Int(defaults[item.name]);
      if !priority.Int? then Err(PriorityNotInteger(item.name)) else
      Ok(Config(item.name, enabled.flag, priority.number, item.raw.others))
  }

  // ---- What an item's settings mean ---------------------------------------

  /** The filter is switched on: `enabled` is absent or true. */
  predicate SwitchedOn(raw: Raw) {
    raw.Settings? && (raw.enabled == None || raw.enabled == Some(Bool(true)))
  }

  /** The filter runs with these settings: its own priority if it gives one, otherwise the default. */
  predicate RunsAs(x: Item, c: Config, defaults: map<string, int>) {
    && SwitchedOn(x.raw) && c.enabled
    && c.name == x.name && c.others == x.raw.others
    && (x.raw.priority == Some(Int(c.priority))
        || (x.raw.priority == None && Get(defaults, x.name) == Some(c.priority)))
  }

  /** When an item is valid, what it stands for, and which error it gives when it is not. */
  lemma {:induction false} ItemMeaning(x: Item, defaults: map<string, int>)
    ensures var r, raw := NormalizeItem(x, defaults), x.raw;
      && (r.Ok? <==>
            && x.name in defaults && raw.Settings?
            && (raw.enabled.None? || raw.enabled.value.Bool?) && (raw.priority.None? || raw.priority.value.Int?))
      && (r.Ok? && SwitchedOn(raw) ==> RunsAs(x, r.value, defaults))
      && (r.Ok? && !SwitchedOn(raw) ==> !r.value.enabled && r.value.name == x.name)
      && (x.name !in defaults <==> r == Err(UnknownFilter(x.name)))
      && (x.name in defaults && raw.NotMapping? <==> r == Err(ConfigNotMapping(x.name)))
      && (x.name in defaults && raw.Settings? && raw.enabled.Some? && !raw.enabled.value.Bool?
          <==> r == Err(EnabledNotBoolean(x.name)))
  {
  }

  ghost predicate DistinctNames(items: seq<Item>) {
    forall i, j :: 0 <= i < j < |items| ==> items[i].name != items[j].name
  }

  /** Both are enabled and would run at the same priority. */
  ghost predicate Clash(a: Item, b: Item, defaults: map<string, int>) {
    var x, y := NormalizeItem(a, defaults), NormalizeItem(b, defaults);
    a != b && x.Ok? && y.Ok? && x.value.enabled && y.value.enabled && x.value.priority == y.value.priority
  }

  /** What the documentation asks of a mapping: every item is valid and enabled priorities differ. */
  ghost predicate Acceptable(items: seq<Item>, defaults: map<string, int>) {
    && (forall x :: x in items ==> NormalizeItem(x, defaults).Ok?)
    && (forall x, y :: x in items && y in items ==> !Clash(x, y, defaults))
  }

  function Configs(items: seq<Item>, defaults: map<string, int>): (cs: seq<Config>)
    requires forall x :: x in items ==> NormalizeItem(x, defaults).Ok?
    ensures |cs| == |items|
    ensures forall i :: 0 <= i < |items| ==> cs[i] == NormalizeItem(items[i], defaults).value
  {
    seq(|items|, i requires 0 <= i < |items| => NormalizeItem(items[i], defaults).value)
  }

  /**
   The error reported for a mapping is that of its first item that is at fault, where an item
   is at fault on its own or by clashing with an earlier one.
   */
  ghost predicate FirstFault(items: seq<Item>, i: nat, defaults: map<string, int>, e: Error) {
    && i < |items|
    && (forall j :: 0 <= j < i ==> NormalizeItem(items[j], defaults).Ok?)
    && (forall j, k :: 0 <= j < k < i ==> !Clash(items[j], items[k], defaults))
    && (NormalizeItem(items[i], defaults) == Err(e)
        || exists j :: 0 <= j < i && Clash(items[j], items[i], defaults)
             && e == SamePriority(items[j].name, items[i].name, NormalizeItem(items[i], defaults).value.priority))
  }

  method NormalizeOne(item: Item, defaults: map<string, int>) returns (r: Result<Config>)
    ensures r == NormalizeItem(item, defaults)
  {
    var name, raw := item.name, item.raw;
    if name !in defaults {
      return Err(UnknownFilter(name));
    }
    if raw.NotMapping? {
      return Err(ConfigNotMapping(name));
    }
    var enabled := if raw.enabled.Some? then raw.enabled.value else Bool(true);
    if !enabled.Bool? {
      return Err(EnabledNotBoolean(name));
    }
    var priority := if raw.priority.Some? then raw.priority.value else Int(defaults[name]);
    if !priority.Int? {
      return Err(PriorityNotInteger(name));
    }
    return Ok(Config(name, enabled.flag, priority.number, raw.others));
  }

  /** The enabled filter of this name has taken this priority. */
  ghost predicate Claims(x: Item, c: Config, priority: int, name: string) {
    c.enabled && c.priority == priority && x.name == name
  }

  lemma {:induction false} NoneClash(items: seq<Item>, defaults: map<string, int>)
    requires forall j, k :: 0 <= j < k < |items| ==> !Clash(items[j], items[k], defaults)
    ensures forall x, y :: x in items && y in items ==> !Clash(x, y, defaults)
  {
    forall x, y | x in items && y in items
      ensures !Clash(x, y, defaults)
    {
      var j :| 0 <= j < |items| && items[j] == x;
      var k :| 0 <= k < |items| && items[k] == y;
      if j < k {
        assert !Clash(items[j], items[k], defaults);
      } else if k < j {
        assert !Clash(items[k], items[j], defaults);
      }
    }
  }

  method NormalizeFilters(items: seq<Item>, defaults: map<string, int>) returns (r: Result<seq<Config>>)
    requires DistinctNames(items)
    ensures r.Ok? <==> Acceptable(items, defaults)
    ensures r.Ok? ==> r.value == Configs(items, defaults)
    ensures r.Err? ==> exists i: nat :: FirstFault(items, i, defaults, r.error)
  {
    var normalized: seq<Config> := [];
    var enabledPriorities: map<int, string> := map[];
    for i := 0 to |items|
      invariant forall j :: 0 <= j < i ==> NormalizeItem(items[j], defaults).Ok?
      invariant |normalized| == i && forall j :: 0 <= j < i ==> normalized[j] == NormalizeItem(items[j], defaults).value
      invariant forall j :: 0 <= j < i && normalized[j].enabled ==> normalized[j].priority in enabledPriorities
      invariant forall p :: p in enabledPriorities ==>
        exists j :: 0 <= j < i && Claims(items[j], normalized[j], p, enabledPriorities[p])
      invariant forall j, k :: 0 <= j < k < i ==> !Clash(items[j], items[k], defaults)
    {
      assert items[i] in items;
      var one := NormalizeOne(items[i], defaults);
      if one.Err? {
        assert FirstFault(items, i, defaults, one.error);
        return Err(one.error);
      }
      var config := one.value;
      if config.enabled {
        if config.priority in enabledPriorities {
          ghost var j :| 0 <= j < i
            && Claims(items[j], normalized[j], config.priority, enabledPriorities[config.priority]);
          assert items[j] in items && Clash(items[j], items[i], defaults);
          r := Err(SamePriority(enabledPriorities[config.priority], config.name, config.priority));
          assert FirstFault(items, i, defaults, r.error);
          return;
        }
        enabledPriorities := enabledPriorities[config.priority := config.name];
        assert Claims(items[i], config, config.priority, config.name);
      }
      normalized := normalized + [config];
    }
    NoneClash(items, defaults);
    return Ok(normalized);
  }

  // ---- The order of execution ---------------------------------------------

  /** Python's stable `sorted` by priority. */
  function Insert(c: Config, sorted: seq<Config>): seq<Config> {
    if sorted != [] && sorted[0].priority <= c.priority then [sorted[0]] + Insert(c, sorted[1..]) else [c] + sorted
  }

  function SortByPriority(cs: seq<Config>): seq<Config> {
    if cs == [] then [] else Insert(Last(cs), SortByPriority(cs[..|cs| - 1]))
  }

  function Enabled(cs: seq<Config>): seq<Config> {
    if cs == [] then [] else (if cs[0].enabled then [cs[0]] else []) + Enabled(cs[1..])
  }

  /** The enabled filters in the order in which they run. */
  function Execution(cs: seq<Config>): seq<Config> {
    Enabled(SortByPriority(cs))
  }

  /** Building the pipeline: instances of the enabled filters in sorted order. */
  method BuildFilters(normalized: seq<Config>) returns (filters: seq<Config>)
    ensures filters == Execution(normalized)
  {
    var sorted := SortByPriority(normalized);
    filters := [];
    for i := 0 to |sorted|
      invariant Enabled(sorted) == filters + Enabled(sorted[i..])
    {
      assert sorted[i..][1..] == sorted[i + 1..];
      if sorted[i].enabled {
        filters := filters + [sorted[i]];
      }
    }
  }

  ghost predicate StrictlyAscending(cs: seq<Config>) {
    forall i, j :: 0 <= i < j < |cs| ==> cs[i].priority < cs[j].priority
  }

  ghost predicate Sorted(cs: seq<Config>) {
    forall i, j :: 0 <= i < j < |cs| ==> cs[i].priority <= cs[j].priority
  }

  lemma {:induction false} InsertKeeps(c: Config, cs: seq<Config>)
    ensures multiset(Insert(c, cs)) == multiset(cs) + multiset{c}
  {
    if cs != [] && cs[0].priority <= c.priority {
      InsertKeeps(c, cs[1..]);
      assert cs == [cs[0]] + cs[1..];
    }
  }

  lemma {:induction false} InsertAtLeast(c: Config, cs: seq<Config>, low: int)
    requires c.priority >= low && forall i :: 0 <= i < |cs| ==> cs[i].priority >= low
    ensures forall i :: 0 <= i < |Insert(c, cs)| ==> Insert(c, cs)[i].priority >= low
  {
    if cs != [] && cs[0].priority <= c.priority {
      InsertAtLeast(c, cs[1..], low);
    }
  }

  lemma {:induction false} InsertSorts(c: Config, cs: seq<Config>)
    requires Sorted(cs)
    ensures Sorted(Insert(c, cs))
  {
    if cs != [] && cs[0].priority <= c.priority {
      InsertSorts(c, cs[1..]);
      InsertAtLeast(c, cs[1..], cs[0].priority);
    }
  }

  lemma {:induction false} SortSorts(cs: seq<Config>)
    ensures Sorted(SortByPriority(cs)) && multiset(SortByPriority(cs)) == multiset(cs)
  {
    if cs != [] {
      SortSorts(cs[..|cs| - 1]);
      InsertSorts(Last(cs), SortByPriority(cs[..|cs| - 1]));
      InsertKeeps(Last(cs), SortByPriority(cs[..|cs| - 1]));
      assert cs == cs[..|cs| - 1] + [Last(cs)];
    }
  }

  lemma {:induction false} EnabledOfSorted(cs: seq<Config>)
    requires Sorted(cs)
    ensures Sorted(Enabled(cs))
    ensures forall c :: c in Enabled(cs) <==> c in cs && c.enabled
    ensures forall c :: multiset(Enabled(cs))[c] <= multiset(cs)[c]
  {
    if cs != [] {
      EnabledOfSorted(cs[1..]);
      assert cs == [cs[0]] + cs[1..];
      forall c | c in Enabled(cs[1..]) ensures cs[0].priority <= c.priority {
        assert c in cs[1..];
      }
    }
  }

  lemma {:induction false} TailMembers(a: seq<Config>, b: seq<Config>)
    requires StrictlyAscending(a) && StrictlyAscending(b) && a != [] && b != [] && a[0] == b[0]
    requires forall c :: c in a <==> c in b
    ensures forall c :: c in a[1..] <==> c in b[1..]
  {
    assert a == [a[0]] + a[1..] && b == [b[0]] + b[1..];
    forall c
      ensures c in a[1..] <==> c in b[1..]
    {
      if c in a[1..] {
        var i :| 0 <= i < |a[1..]| && a[1..][i] == c;
        assert a[i + 1] == c && c != a[0] && c in a;
      }
      if c in b[1..] {
        var i :| 0 <= i < |b[1..]| && b[1..][i] == c;
        assert b[i + 1] == c && c != b[0] && c in b;
      }
    }
  }

  /** Two strictly ascending lists of the same configurations are the same list. */
  lemma {:induction false} AscendingUnique(a: seq<Config>, b: seq<Config>)
    requires StrictlyAscending(a) && StrictlyAscending(b)
    requires forall c :: c in a <==> c in b
    ensures a == b
    decreases |a|
  {
    assert b != [] ==> b[0] in b;
    if a != [] {
      assert a[0] in b && (b != [] ==> b[0] in a);
      assert a[0] == b[0];
      TailMembers(a, b);
      AscendingUnique(a[1..], b[1..]);
      assert a == [a[0]] + a[1..] && b == [b[0]] + b[1..];
    }
  }

  // ---- Mapping order is not significant -----------------------------------

  lemma {:induction false} ExecutionMembers(cs: seq<Config>, c: Config)
    ensures c in Execution(cs) <==> c in cs && c.enabled
    ensures multiset(Execution(cs))[c] <= multiset(cs)[c]
  {
    SortSorts(cs);
    EnabledOfSorted(SortByPriority(cs));
    assert c in SortByPriority(cs) <==> c in multiset(SortByPriority(cs));
    assert c in cs <==> c in multiset(cs);
  }

  lemma {:induction false} MembersOf(items: seq<Item>, defaults: map<string, int>, c: Config)
    requires Acceptable(items, defaults)
    ensures c in Execution(Configs(items, defaults)) <==>
      c.enabled && exists x :: x in items && NormalizeItem(x, defaults).value == c
  {
    var cs := Configs(items, defaults);
    ExecutionMembers(cs, c);
    if c in cs {
      var i :| 0 <= i < |cs| && cs[i] == c;
      assert items[i] in items;
    }
    if x :| x in items && NormalizeItem(x, defaults).value == c {
      var i :| 0 <= i < |items| && items[i] == x;
      assert cs[i] == c;
    }
  }

  /**
   Which filters run is read off the mapping itself: exactly those switched on, each with its
   own priority or its module's default, and with its settings.
   */
  lemma {:induction false} RunsIff(items: seq<Item>, defaults: map<string, int>, c: Config)
    requires Acceptable(items, defaults)
    ensures c in Execution(Configs(items, defaults)) <==> exists x :: x in items && RunsAs(x, c, defaults)
  {
    MembersOf(items, defaults, c);
    forall x | x in items
      ensures RunsAs(x, c, defaults) <==> c.enabled && NormalizeItem(x, defaults).value == c
    {
      assert NormalizeItem(x, defaults).Ok?;
      ItemMeaning(x, defaults);
    }
  }

  lemma {:induction false} TwiceCounted(cs: seq<Config>, i: nat, j: nat)
    requires i < j < |cs| && cs[i] == cs[j]
    ensures multiset(cs)[cs[i]] >= 2
  {
    assert cs == cs[..j] + [cs[j]] + cs[j + 1..];
    assert cs[..j][i] == cs[i];
  }

  lemma {:induction false} CountedOnce(cs: seq<Config>, c: Config)
    requires forall i, j :: 0 <= i < j < |cs| ==> cs[i].name != cs[j].name
    ensures multiset(cs)[c] <= 1
  {
    if cs != [] {
      var init := cs[..|cs| - 1];
      CountedOnce(init, c);
      assert cs == init + [Last(cs)];
      assert Last(cs) !in init;
    }
  }

  lemma {:induction false} ConfigsNamed(items: seq<Item>, defaults: map<string, int>, i: nat)
    requires Acceptable(items, defaults) && i < |items|
    ensures Configs(items, defaults)[i].name == items[i].name
  {
    assert items[i] in items;
  }

  lemma {:induction false} RunsOnce(items: seq<Item>, defaults: map<string, int>, c: Config)
    requires DistinctNames(items) && Acceptable(items, defaults)
    ensures multiset(Execution(Configs(items, defaults)))[c] <= 1
  {
    var cs := Configs(items, defaults);
    forall i, j | 0 <= i < j < |cs|
      ensures cs[i].name != cs[j].name
    {
      ConfigsNamed(items, defaults, i);
      ConfigsNamed(items, defaults, j);
    }
    CountedOnce(cs, c);
    ExecutionMembers(cs, c);
  }

  lemma {:induction false} TieIsSame(items: seq<Item>, defaults: map<string, int>, a: Config, b: Config)
    requires Acceptable(items, defaults) && a.priority == b.priority
    requires a in Execution(Configs(items, defaults)) && b in Execution(Configs(items, defaults))
    ensures a == b
  {
    MembersOf(items, defaults, a);
    MembersOf(items, defaults, b);
    var x :| x in items && NormalizeItem(x, defaults).value == a;
    var y :| y in items && NormalizeItem(y, defaults).value == b;
    assert !Clash(x, y, defaults);
  }

  /** Enabled filters run in strictly ascending priority: no two can tie. */
  lemma {:induction false} ExecutionAscending(items: seq<Item>, defaults: map<string, int>)
    requires DistinctNames(items) && Acceptable(items, defaults)
    ensures StrictlyAscending(Execution(Configs(items, defaults)))
  {
    var run := Execution(Configs(items, defaults));
    SortSorts(Configs(items, defaults));
    EnabledOfSorted(SortByPriority(Configs(items, defaults)));
    forall i, j | 0 <= i < j < |run|
      ensures run[i].priority < run[j].priority
    {
      if run[i].priority == run[j].priority {
        TieIsSame(items, defaults, run[i], run[j]);
        RunsOnce(items, defaults, run[i]);
        TwiceCounted(run, i, j);
      }
    }
  }

  /** Permuting the mapping changes neither whether it is accepted nor the order of execution. */
  lemma {:induction false} MappingOrderIrrelevant(items: seq<Item>, permuted: seq<Item>, defaults: map<string, int>)
    requires DistinctNames(items) && DistinctNames(permuted)
    requires multiset(items) == multiset(permuted)
    ensures Acceptable(items, defaults) <==> Acceptable(permuted, defaults)
    ensures Acceptable(items, defaults) ==>
      Execution(Configs(items, defaults)) == Execution(Configs(permuted, defaults))
  {
    assert forall x :: x in items <==> x in multiset(items);
    assert forall x :: x in permuted <==> x in multiset(permuted);
    if Acceptable(items, defaults) {
      ExecutionAscending(items, defaults);
      ExecutionAscending(permuted, defaults);
      forall c ensures c in Execution(Configs(items, defaults)) <==> c in Execution(Configs(permuted, defaults)) {
        MembersOf(items, defaults, c);
        MembersOf(permuted, defaults, c);
      }
      AscendingUnique(Execution(Configs(items, defaults)), Execution(Configs(permuted, defaults)));
    }
  }

  lemma {:induction false} InsertAtEnd(c: Config, cs: seq<Config>)
    requires forall x :: x in cs ==> x.priority <= c.priority
    ensures Insert(c, cs) == cs + [c]
  {
    if cs != [] {
      assert cs[0] in cs;
      InsertAtEnd(c, cs[1..]);
    }
  }

  /** Sorting the built filters again, as the pipeline's `filters` property does, keeps their order. */
  lemma {:induction false} ResortKeepsOrder(cs: seq<Config>)
    requires Sorted(cs)
    ensures SortByPriority(cs) == cs
  {
    if cs != [] {
      ResortKeepsOrder(cs[..|cs| - 1]);
      InsertAtEnd(Last(cs), cs[..|cs| - 1]);
    }
  }
}
