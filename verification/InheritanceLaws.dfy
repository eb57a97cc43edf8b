/** What route inheritance promises, over every table of routes. */
module InheritanceLaws {
  import opened Common
  import opened Text
  import opened Routes
  import opened CycleCheck
  import opened Inheritance

  // ---- The circular branch and the cycle check ---------------------------

  lemma {:induction false} GuardHitFromWalk(route: Route, table: Table, visited: set<string>, w: seq<string>)
    requires KeyedByName(table) && route.name in table && table[route.name] == route
    requires Walk(ResolverGraph(table), w) && w[0] == route.name
    requires Last(w) in visited || Last(w) in w[..|w| - 1]
    ensures HitsGuard(route, table, visited)
    decreases |w|
  {
    if route.name !in visited {
      var tail := w[1..];
      assert Walk(ResolverGraph(table), tail) by {
        forall j | 0 <= j < |tail| - 1
          ensures tail[j + 1] in ResolverGraph(table)[tail[j]]
        {
          assert w[(j + 1) + 1] in ResolverGraph(table)[w[j + 1]];
        }
      }
      assert w[..|w| - 1] == [w[0]] + tail[..|tail| - 1];
      GuardHitFromWalk(table[w[1]], table, visited + {route.name}, tail);
    }
  }

  lemma {:induction false} WalkFromGuardHit(route: Route, table: Table, path: seq<string>) returns (w: seq<string>)
    requires KeyedByName(table) && route.name in table && table[route.name] == route
    requires path != [] ==> Walk(ResolverGraph(table), path) && route.name in ResolverGraph(table)[Last(path)]
    requires HitsGuard(route, table, Elements(path))
    ensures Walk(ResolverGraph(table), w) && path < w && Last(w) in w[..|w| - 1]
    ensures path == [] ==> w[0] == route.name
    decreases NamesIn(table) + {route.name} - Elements(path)
  {
    var here := path + [route.name];
    assert Walk(ResolverGraph(table), here);
    if route.name in Elements(path) {
      return here;
    }
    assert Elements(here) == Elements(path) + {route.name};
    var p :| p in ResolverParents(route.parents) && p in table
      && HitsGuard(table[p], table, Elements(path) + {route.name});
    GuardedCallDecreases(table, p, route, Elements(path));
    w := WalkFromGuardHit(table[p], table, here);
  }

  /** Resolving some route takes the circular branch exactly when the resolver's edges have a cycle. */
  lemma {:induction false} GuardHitIffCycle(table: Table)
    requires KeyedByName(table)
    ensures (forall n :: n in table ==> !HitsGuard(table[n], table, {})) <==> Acyclic(ResolverGraph(table))
  {
    var g := ResolverGraph(table);
    if !Acyclic(g) {
      var c :| Cycle(g, c);
      assert c[0] in c[..|c| - 1];
      GuardHitFromWalk(table[c[0]], table, {}, c);
    }
    if n :| n in table && HitsGuard(table[n], table, {}) {
      assert Elements<string>([]) == {};
      var w := WalkFromGuardHit(table[n], table, []);
      var i := IndexOf(w[..|w| - 1], Last(w));
      var c := w[i..];
      assert Walk(g, c) by {
        forall j | 0 <= j < |c| - 1
          ensures c[j + 1] in g[c[j]]
        {
          assert w[(i + j) + 1] in g[w[i + j]];
        }
      }
      assert Cycle(g, c);
    }
  }

  ghost predicate PlainTable(table: Table) {
    forall n :: n in table ==> PlainExtends(table[n].parents)
  }

  lemma {:induction false} WalkTransfers(g: Graph, h: Graph, w: seq<string>)
    requires g.Keys == h.Keys && Walk(g, w)
    requires forall n :: n in g ==> Elements(g[n]) <= Elements(h[n])
    ensures Walk(h, w)
  {
    forall i | 0 <= i < |w| - 1
      ensures w[i + 1] in h[w[i]]
    {
      assert w[i + 1] in Elements(g[w[i]]);
    }
  }

  /**
   The check answers None exactly when no resolution takes the circular branch,
   on tables whose `extends` fields are lists or single trimmed names.
   */
  lemma {:induction false} CheckerDecidesGuard(table: Table)
    requires KeyedByName(table) && PlainTable(table)
    ensures Acyclic(CheckerGraph(table)) <==> (forall n :: n in table ==> !HitsGuard(table[n], table, {}))
  {
    GuardHitIffCycle(table);
    var g, h := CheckerGraph(table), ResolverGraph(table);
    forall n | n in table
      ensures Elements(g[n]) == Elements(h[n])
    {
      SameParentsIffPlain(table[n].parents);
    }
    forall c
      ensures Cycle(g, c) <==> Cycle(h, c)
    {
      if Walk(g, c) { WalkTransfers(g, h, c); }
      if Walk(h, c) { WalkTransfers(h, g, c); }
    }
  }

  /** When the check answers None, no resolution takes the circular branch. */
  ghost predicate Reliable(table: Table) {
    Acyclic(CheckerGraph(table)) ==> forall n :: n in table ==> !HitsGuard(table[n], table, {})
  }

  /** Every `extends` field in the table is either this one or a safe one. */
  ghost predicate SafeExcept(table: Table, e: Extends) {
    forall n :: n in table ==> table[n].parents == e || SafeExtends(table[n].parents)
  }

  lemma {:induction false} SafeTablesReliable(table: Table)
    requires KeyedByName(table) && forall n :: n in table ==> SafeExtends(table[n].parents)
    ensures Reliable(table)
  {
    GuardHitIffCycle(table);
    var g, h := CheckerGraph(table), ResolverGraph(table);
    forall n | n in table
      ensures Elements(h[n]) <= Elements(g[n])
    {
      SafeParents(table[n].parents);
    }
    forall c
      ensures Cycle(h, c) ==> Cycle(g, c)
    {
      if Walk(h, c) { WalkTransfers(h, g, c); }
    }
  }

  /** A route named like a parent that only the resolver reads. */
  function SelfTable(e: Extends, p: string): Table {
    map[p := Route(p, p, map[], map[], e, [])]
  }

  lemma {:induction false} SelfUnchecked(e: Extends, p: string)
    requires p !in CheckerParents(e)
    ensures Acyclic(CheckerGraph(SelfTable(e, p)))
  {
    ParentsFirstAcyclic(CheckerGraph(SelfTable(e, p)), [p]);
  }

  lemma {:induction false} UnsafeHidesCycle(e: Extends, p: string)
    requires p in ResolverParents(e) && p !in CheckerParents(e)
    ensures KeyedByName(SelfTable(e, p)) && SafeExcept(SelfTable(e, p), e) && !Reliable(SelfTable(e, p))
  {
    SelfUnchecked(e, p);
    GuardHitFromWalk(SelfTable(e, p)[p], SelfTable(e, p), {}, [p, p]);
  }

  /**
   Exactly which `extends` fields the check can be relied on for: whatever the rest of the
   table, as long as it is safe, None rules out the circular branch if and only if this
   field is safe too.
   */
  lemma {:induction false} CheckReliableIff(e: Extends)
    ensures (forall table :: KeyedByName(table) && SafeExcept(table, e) ==> Reliable(table)) <==> SafeExtends(e)
  {
    if SafeExtends(e) {
      forall table | KeyedByName(table) && SafeExcept(table, e)
        ensures Reliable(table)
      {
        SafeTablesReliable(table);
      }
    } else {
      var p := UnsafeParent(e);
      UnsafeHidesCycle(e, p);
    }
  }

  const COMMA_ROUTE := Route("a", "a", map[], map[], Words("a,b"), [])

  lemma {:induction false} CommaParents()
    ensures ResolverParents(Words("a,b")) != [] && ResolverParents(Words("a,b"))[0] == "a"
  {
    assert "a,b"[1..] == ",b" && ",b"[1..] == "b";
    assert SplitComma(",b") == [""] + SplitComma("b");
    assert SplitComma("a,b")[0] == ['a'] + "";
    StripKeepsTrimmed("a");
  }

  /** The check reads the comma list as one unknown name. */
  lemma {:induction false} CommaUnchecked(table: Table)
    requires table == map["a" := COMMA_ROUTE]
    ensures Acyclic(CheckerGraph(table))
  {
    var g := CheckerGraph(table);
    assert g["a"] == ["a,b"] && |"a"| != |"a,b"|;
    ParentsFirstAcyclic(g, ["a"]);
  }

  /** A comma list hides a cycle from the check: a route that extends itself and another name. */
  lemma {:induction false} CommaListHidesCycle()
    ensures var table := map["a" := COMMA_ROUTE];
      Acyclic(CheckerGraph(table)) && HitsGuard(COMMA_ROUTE, table, {})
  {
    var table := map["a" := COMMA_ROUTE];
    CommaUnchecked(table);
    CommaParents();
    assert HitsGuard(table["a"], table, {"a"});
    assert {} + {"a"} == {"a"};
  }

  // ---- Who wins -----------------------------------------------------------

  predicate Has<K, V>(m: Option<map<K, V>>, k: K) {
    m.Some? && k in m.value
  }

  /** The rightmost known parent that has a key. */
  ghost predicate Rightmost<K, V>(parents: seq<Option<map<K, V>>>, k: K, i: int) {
    0 <= i < |parents| && Has(parents[i], k) && forall j :: i < j < |parents| ==> !Has(parents[j], k)
  }

  /** The leftmost known parent that has a key. */
  ghost predicate Leftmost<K, V>(parents: seq<Option<map<K, V>>>, k: K, i: int) {
    0 <= i < |parents| && Has(parents[i], k) && forall j :: 0 <= j < i ==> !Has(parents[j], k)
  }

  ghost predicate NoneHas<K, V>(parents: seq<Option<map<K, V>>>, k: K) {
    forall i :: 0 <= i < |parents| ==> !Has(parents[i], k)
  }

  /** The child's value wins, then that of the rightmost known parent that has one. */
  ghost predicate RightmostWins<K, V>(own: map<K, V>, parents: seq<Option<map<K, V>>>, k: K, v: Option<V>) {
    if k in own then v == Some(own[k])
    else if v.None? then NoneHas(parents, k)
    else exists i :: Rightmost(parents, k, i) && v == Some(parents[i].value[k])
  }

  /** The child's entry wins, then that of the leftmost known parent that has one. */
  ghost predicate LeftmostWins<K, V>(own: map<K, V>, parents: seq<Option<map<K, V>>>, k: K, v: Option<V>) {
    if k in own then v == Some(own[k])
    else if v.None? then NoneHas(parents, k)
    else exists i :: Leftmost(parents, k, i) && v == Some(parents[i].value[k])
  }

  function SettingsOf(ps: seq<Option<Route>>): (ms: seq<Option<map<Key, Value>>>)
    ensures |ms| == |ps|
    ensures forall i :: 0 <= i < |ps| ==> ms[i] == if ps[i].Some? then Some(ps[i].value.settings) else None
  {
    seq(|ps|, i requires 0 <= i < |ps| => if ps[i].Some? then Some(ps[i].value.settings) else None)
  }

  function OverridesOf(ps: seq<Option<Route>>): (ms: seq<Option<map<string, Value>>>)
    ensures |ms| == |ps|
    ensures forall i :: 0 <= i < |ps| ==> ms[i] == if ps[i].Some? then Some(ps[i].value.overrides) else None
  {
    seq(|ps|, i requires 0 <= i < |ps| => if ps[i].Some? then Some(ps[i].value.overrides) else None)
  }

  lemma {:induction false} RightmostStep<K, V>(own: map<K, V>, ms: seq<Option<map<K, V>>>, k: K, v: Option<V>)
    requires ms != [] && RightmostWins(own, ms[..|ms| - 1], k, v)
    ensures RightmostWins(own, ms, k, if k !in own && Has(Last(ms), k) then Some(Last(ms).value[k]) else v)
  {
    var init := ms[..|ms| - 1];
    if k in own {
    } else if Has(Last(ms), k) {
      assert Rightmost(ms, k, |ms| - 1);
    } else if v.Some? {
      var i :| Rightmost(init, k, i) && v == Some(init[i].value[k]);
      assert Rightmost(ms, k, i);
    }
  }

  lemma {:induction false} LeftmostStep<K, V>(own: map<K, V>, ms: seq<Option<map<K, V>>>, k: K, v: Option<V>)
    requires ms != [] && LeftmostWins(own, ms[..|ms| - 1], k, v)
    ensures LeftmostWins(own, ms, k, if v.None? && Has(Last(ms), k) then Some(Last(ms).value[k]) else v)
  {
    var init := ms[..|ms| - 1];
    if k in own {
    } else if v.Some? {
      var i :| Leftmost(init, k, i) && v == Some(init[i].value[k]);
      assert Leftmost(ms, k, i);
    } else if Has(Last(ms), k) {
      assert Leftmost(ms, k, |ms| - 1);
    }
  }

  /** Every merged setting of a child comes from the child or from the rightmost parent that has it. */
  lemma {:induction false} SettingWinner(own: map<Key, Value>, ps: seq<Option<Route>>, k: Key)
    ensures RightmostWins(own, SettingsOf(ps), k, Get(MergedSettings(own, ps), k))
  {
    if ps != [] {
      var init := ps[..|ps| - 1];
      SettingWinner(own, init, k);
      assert SettingsOf(ps)[..|init|] == SettingsOf(init);
      RightmostStep(own, SettingsOf(ps), k, Get(MergedSettings(own, init), k));
    }
  }

  /** Every override of a child comes from the child or from the leftmost parent that has it. */
  lemma {:induction false} OverrideWinner(own: map<string, Value>, ps: seq<Option<Route>>, k: string)
    ensures LeftmostWins(own, OverridesOf(ps), k, Get(MergedOverrides(own, ps), k))
  {
    if ps != [] {
      var init := ps[..|ps| - 1];
      OverrideWinner(own, init, k);
      assert OverridesOf(ps)[..|init|] == OverridesOf(init);
      LeftmostStep(own, OverridesOf(ps), k, Get(MergedOverrides(own, init), k));
    }
  }

  // ---- Resolution is the unique solution of the who-wins equations --------

  /** The resolved known parents of a route, looked up in a proposed solution. */
  function SolvedParents(names: seq<string>, e: Table): (ps: seq<Option<Route>>)
    ensures |ps| == |names|
    ensures forall i :: 0 <= i < |names| ==> ps[i] == Get(e, names[i])
  {
    seq(|names|, i requires 0 <= i < |names| => Get(e, names[i]))
  }

  /** One solved route agrees with the who-wins account of its parents' solutions. */
  ghost predicate SolvesRoute(route: Route, solved: Route, ps: seq<Option<Route>>) {
    && (forall k :: RightmostWins(route.settings, SettingsOf(ps), k, Get(solved.settings, k)))
    && (forall k :: LeftmostWins(route.overrides, OverridesOf(ps), k, Get(solved.overrides, k)))
    && solved.hierarchy == (if ps != [] && Last(ps).Some? then Last(ps).value.hierarchy else []) + [route.name]
    && solved.name == route.name && solved.pattern == route.pattern && ResolverParents(solved.parents) == []
  }

  ghost predicate Solves(table: Table, e: Table) {
    && e.Keys == table.Keys
    && forall n :: n in table ==>
         SolvesRoute(table[n], e[n], SolvedParents(ResolverParents(table[n].parents), e))
  }

  function Resolutions(table: Table): Table {
    map n | n in table :: Resolved(table[n], table, {})
  }

  /** Away from the circular branch, the names already on the path do not matter. */
  lemma {:induction false} VisitedIrrelevant(route: Route, table: Table, visited: set<string>, fewer: set<string>)
    requires !HitsGuard(route, table, visited) && fewer <= visited
    ensures !HitsGuard(route, table, fewer)
    ensures Resolved(route, table, visited) == Resolved(route, table, fewer)
    decreases NamesIn(table) + {route.name} - visited
  {
    var names := ResolverParents(route.parents);
    var v, f := visited + {route.name}, fewer + {route.name};
    forall p | p in names && p in table
      ensures !HitsGuard(table[p], table, f)
      ensures Resolved(table[p], table, v) == Resolved(table[p], table, f)
    {
      GuardedCallDecreases(table, p, route, visited);
      VisitedIrrelevant(table[p], table, v, f);
    }
    assert ResolvedParents(names, table, v) == ResolvedParents(names, table, f);
  }

  lemma {:induction false} WinnerUnique<K, V>(own: map<K, V>, ps: seq<Option<map<K, V>>>, k: K, a: Option<V>,
                                              b: Option<V>)
    ensures RightmostWins(own, ps, k, a) && RightmostWins(own, ps, k, b) ==> a == b
    ensures LeftmostWins(own, ps, k, a) && LeftmostWins(own, ps, k, b) ==> a == b
  {
    if k !in own {
      if i, j :| Rightmost(ps, k, i) && Rightmost(ps, k, j) {
        assert i == j;
      }
    }
  }

  lemma {:induction false} InheritSolves(route: Route, ps: seq<Option<Route>>)
    ensures SolvesRoute(route, Inherit(route, ps), ps)
  {
    forall k { SettingWinner(route.settings, ps, k); }
    forall k { OverrideWinner(route.overrides, ps, k); }
  }

  lemma {:induction false} ResolvedSolves(table: Table, n: string)
    requires KeyedByName(table) && n in table
    requires forall m :: m in table ==> !HitsGuard(table[m], table, {})
    ensures SolvesRoute(table[n], Resolved(table[n], table, {}),
                        SolvedParents(ResolverParents(table[n].parents), Resolutions(table)))
  {
    var route, e := table[n], Resolutions(table);
    var names := ResolverParents(route.parents);
    var ps := SolvedParents(names, e);
    assert {} + {n} == {n};
    forall p | p in names && p in table
      ensures Resolved(table[p], table, {n}) == e[p]
    {
      assert !HitsGuard(table[p], table, {n});
      VisitedIrrelevant(table[p], table, {n}, {});
    }
    assert ResolvedParents(names, table, {n}) == ps;
    InheritSolves(route, ps);
  }

  /** On acyclic inheritance, resolving every route yields a solution of the who-wins equations. */
  lemma {:induction false} ResolutionSolves(table: Table)
    requires KeyedByName(table) && Acyclic(ResolverGraph(table))
    ensures Solves(table, Resolutions(table))
  {
    GuardHitIffCycle(table);
    forall n | n in table
      ensures SolvesRoute(table[n], Resolutions(table)[n],
                          SolvedParents(ResolverParents(table[n].parents), Resolutions(table)))
    {
      ResolvedSolves(table, n);
    }
  }

  ghost predicate SameResult(a: Route, b: Route) {
    && a.name == b.name && a.pattern == b.pattern
    && a.settings == b.settings && a.overrides == b.overrides && a.hierarchy == b.hierarchy
  }

  lemma {:induction false} SolvesRouteUnique(route: Route, a: Route, b: Route, ps: seq<Option<Route>>,
                                             qs: seq<Option<Route>>)
    requires SolvesRoute(route, a, ps) && SolvesRoute(route, b, qs) && |ps| == |qs|
    requires forall i :: 0 <= i < |ps| ==> ps[i].Some? == qs[i].Some?
    requires forall i :: 0 <= i < |ps| && ps[i].Some? ==> SameResult(ps[i].value, qs[i].value)
    ensures SameResult(a, b)
  {
    assert SettingsOf(ps) == SettingsOf(qs);
    assert OverridesOf(ps) == OverridesOf(qs);
    forall k ensures Get(a.settings, k) == Get(b.settings, k) {
      WinnerUnique(route.settings, SettingsOf(ps), k, Get(a.settings, k), Get(b.settings, k));
    }
    MapsEqual(a.settings, b.settings);
    forall k ensures Get(a.overrides, k) == Get(b.overrides, k) {
      WinnerUnique(route.overrides, OverridesOf(ps), k, Get(a.overrides, k), Get(b.overrides, k));
    }
    MapsEqual(a.overrides, b.overrides);
  }

  lemma {:induction false} AgreementStep(table: Table, e: Table, f: Table, n: string)
    requires Solves(table, e) && Solves(table, f) && n in table
    requires forall p :: p in ResolverParents(table[n].parents) && p in table ==> SameResult(e[p], f[p])
    ensures SameResult(e[n], f[n])
  {
    var names := ResolverParents(table[n].parents);
    SolvesRouteUnique(table[n], e[n], f[n], SolvedParents(names, e), SolvedParents(names, f));
  }

  lemma {:induction false} SolutionAgrees(table: Table, e: Table, f: Table, n: string, visited: set<string>)
    requires KeyedByName(table) && Solves(table, e) && Solves(table, f)
    requires n in table && !HitsGuard(table[n], table, visited)
    ensures SameResult(e[n], f[n])
    decreases NamesIn(table) + {n} - visited
  {
    forall p | p in ResolverParents(table[n].parents) && p in table
      ensures SameResult(e[p], f[p])
    {
      GuardedCallDecreases(table, p, table[n], visited);
      SolutionAgrees(table, e, f, p, visited + {n});
    }
    AgreementStep(table, e, f, n);
  }

  /** On acyclic inheritance the equations have one solution, so they say exactly what resolving yields. */
  lemma {:induction false} SolutionUnique(table: Table, e: Table, n: string)
    requires KeyedByName(table) && Acyclic(ResolverGraph(table)) && Solves(table, e) && n in table
    ensures SameResult(e[n], Resolved(table[n], table, {}))
  {
    ResolutionSolves(table);
    GuardHitIffCycle(table);
    SolutionAgrees(table, e, Resolutions(table), n, {});
  }

  /** A list of parents that loading joined with commas is inherited from as the list would be. */
  lemma {:induction false} JoinedListInherits(route: Route, names: seq<string>, table: Table, visited: set<string>)
    requires names != [] && names != [""] && route.name !in visited
    requires forall i :: 0 <= i < |names| ==> Trimmed(names[i]) && ',' !in names[i]
    ensures Resolved(route.(parents := Words(Join(names, ","))), table, visited)
      == Resolved(route.(parents := Many(names)), table, visited)
      == Inherit(route, ResolvedParents(names, table, visited + {route.name}))
  {
    JoinedListIff(names);
  }

  // ---- Defaults -----------------------------------------------------------

  /** The value a setting has when neither the route nor a parent gives one. */
  function DefaultOf(k: Key, hasParents: bool, d: Option<Defaults>): Option<Value> {
    match k
    case SummaryEnabled => Some(Flag(true))
    case PassthroughEnabled => Some(Flag(false))
    case TransformReasoning => Some(Flag(false))
    case AddEmptyContent => Some(Flag(false))
    case ReasoningPlaceholder => Some(Word(""))
    case UpstreamHeaders => Some(Headers(map[]))
    case ApiKeys => if d.Some? then Some(Names(d.value.apiKeys)) else None
    case FallbackChain => Some(Names([]))
    case CircuitBreakerEnabled => Some(Flag(false))
    case FailureThreshold => Some(Number(3.0))
    case RecoveryTimeout => Some(Number(60.0))
    case CostPriority => Some(Number(999.0))
    case RequestTimeout => if hasParents && d.Some? then Some(Number(d.value.requestTimeout)) else None
    case PerformanceLogsDir =>
      if !hasParents then None
      else Some(Word(if d.Some? then d.value.performanceLogsDir else "__performance_logs"))
    case _ => None
  }

  lemma {:induction false} BaseDefault(k: Key)
    ensures Get(BASE_DEFAULTS, k)
      == if k == ApiKeys || k == RequestTimeout || k == PerformanceLogsDir then None else DefaultOf(k, false, None)
  {
    match k {
      case SummaryEnabled => case PassthroughEnabled => case TransformReasoning => case AddEmptyContent =>
      case ReasoningPlaceholder => case UpstreamHeaders => case FallbackChain => case CircuitBreakerEnabled =>
      case FailureThreshold => case RecoveryTimeout => case CostPriority =>
      case _ =>
    }
  }

  lemma {:induction false} CommonDefault(d: Option<Defaults>, k: Key)
    ensures Get(CommonDefaults(d), k) == DefaultOf(k, false, d)
  {
    BaseDefault(k);
  }

  lemma {:induction false} Overlaid<K, V>(a: map<K, V>, b: map<K, V>, k: K)
    ensures Get(a + b, k) == if k in b then Some(b[k]) else Get(a, k)
  {
  }

  lemma {:induction false} RootDefault(route: Route, d: Option<Defaults>, k: Key)
    ensures Get(RootDefaults(route, d), k) == DefaultOf(k, ResolverParents(route.parents) != [], d)
  {
    CommonDefault(d, k);
    if ResolverParents(route.parents) != [] {
      var timeout: map<Key, Value> :=
        if d.Some? then map[RequestTimeout := Number(d.value.requestTimeout)] else map[];
      var dir := map[PerformanceLogsDir := Word(if d.Some? then d.value.performanceLogsDir else "__performance_logs")];
      Overlaid(CommonDefaults(d), timeout, k);
      Overlaid(CommonDefaults(d) + timeout, dir, k);
    }
  }

  /** At the root, each setting is the merged one, else its default. */
  lemma {:induction false} DefaultsFillGaps(route: Route, merged: map<Key, Value>, d: Option<Defaults>, k: Key)
    ensures Get(RootDefaults(route, d) + merged, k)
      == if k in merged then Some(merged[k]) else DefaultOf(k, ResolverParents(route.parents) != [], d)
  {
    RootDefault(route, d, k);
  }

  // ---- The hierarchy ------------------------------------------------------

  /** The last known one among resolved parents, whose hierarchy the documentation asks for. */
  function LastKnown(ps: seq<Option<Route>>): Option<Route> {
    if ps == [] then None else if Last(ps).Some? then Last(ps) else LastKnown(ps[..|ps| - 1])
  }

  function DocumentedHierarchy(name: string, ps: seq<Option<Route>>): seq<string> {
    (if LastKnown(ps).Some? then LastKnown(ps).value.hierarchy else []) + [name]
  }

  /** The merge yields the documented hierarchy exactly when the last listed parent is known or makes no difference. */
  lemma {:induction false} HierarchyDocumentedIff(name: string, ps: seq<Option<Route>>)
    ensures MergedHierarchy(name, ps) == DocumentedHierarchy(name, ps) <==>
      ps == [] || Last(ps).Some? || LastKnown(ps).None? || LastKnown(ps).value.hierarchy == []
  {
    if ps != [] && Last(ps).None? && LastKnown(ps).Some? {
      assert |DocumentedHierarchy(name, ps)| == |LastKnown(ps).value.hierarchy| + 1;
    }
  }

  lemma {:induction false} LastKnownAt(ps: seq<Option<Route>>) returns (i: nat)
    ensures LastKnown(ps).None? ==> forall j :: 0 <= j < |ps| ==> ps[j].None?
    ensures LastKnown(ps).Some? ==> i < |ps| && ps[i] == LastKnown(ps)
  {
    i := 0;
    if ps != [] && Last(ps).Some? {
      i := |ps| - 1;
    } else if ps != [] {
      i := LastKnownAt(ps[..|ps| - 1]);
    }
  }

  /** A hierarchy resolved outside the circular branch ends in the route's own name. */
  lemma {:induction false} HierarchyEndsInName(route: Route, table: Table, visited: set<string>)
    requires route.name !in visited
    ensures var hierarchy := Resolved(route, table, visited).hierarchy;
      hierarchy != [] && Last(hierarchy) == route.name
  {
  }

  /**
   A route that does not list itself has the documented hierarchy if and only if the name it
   lists last is in the table, or none of its names is.
   */
  lemma {:induction false} ResolvedHierarchyIff(route: Route, table: Table)
    requires ResolverParents(route.parents) != []
    requires forall p :: p in ResolverParents(route.parents) && p in table ==> table[p].name != route.name
    ensures var names := ResolverParents(route.parents);
      Resolved(route, table, {}).hierarchy
        == DocumentedHierarchy(route.name, ResolvedParents(names, table, {route.name}))
      <==> Last(names) in table || forall p :: p in names ==> p !in table
  {
    var names, own := ResolverParents(route.parents), {route.name};
    var ps := ResolvedParents(names, table, own);
    assert {} + {route.name} == own;
    HierarchyDocumentedIff(route.name, ps);
    var i := LastKnownAt(ps);
    if LastKnown(ps).Some? {
      var p := names[i];
      assert p in names && p in table;
      HierarchyEndsInName(table[p], table, own);
    } else {
      forall p | p in names
        ensures p !in table
      {
        var j :| 0 <= j < |names| && names[j] == p;
        assert ps[j].None?;
      }
    }
  }

  function PlainRoute(name: string, parents: Extends): Route {
    Route(name, name, map[], map[], parents, [])
  }

  lemma {:induction false} BaseHierarchy(table: Table)
    requires "base" in table && table["base"] == PlainRoute("base", NoParent)
    ensures Resolved(table["base"], table, {"child"}).hierarchy == ["base"]
  {
    assert |"child"| != |"base"|;
  }

  /** A missing name listed last drops the hierarchy of the parent before it. */
  lemma {:induction false} MissingParentDropsHierarchy()
    ensures var child := PlainRoute("child", Many(["base", "missing"]));
      var table := map["base" := PlainRoute("base", NoParent)];
      && Resolved(child, table, {}).hierarchy == ["child"]
      && DocumentedHierarchy("child", ResolvedParents(["base", "missing"], table, {"child"})) == ["base", "child"]
  {
    var child := PlainRoute("child", Many(["base", "missing"]));
    var table := map["base" := PlainRoute("base", NoParent)];
    var ps := ResolvedParents(["base", "missing"], table, {"child"});
    assert |"missing"| != |"base"| && |"child"| != |"base"|;
    assert ps == [Some(Resolved(table["base"], table, {"child"})), None];
    BaseHierarchy(table);
    assert ps[..1] == [ps[0]] && Last(ps[..1]) == ps[0];
    assert LastKnown(ps) == LastKnown(ps[..1]) == ps[0];
    assert {} + {"child"} == {"child"};
    assert Resolved(child, table, {}) == Inherit(child, ps);
  }
}
