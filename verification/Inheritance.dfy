/**
 Route inheritance (`resolve_inherited_route`): a recursive merge over `extends` with
 a per-path visited set that cuts cycles, proved equal to a declarative account of who wins.
 */
module Inheritance {
  import opened Common
  import opened Routes

  datatype Defaults = Defaults(apiKeys: seq<string>, requestTimeout: real, performanceLogsDir: string)

  function NamesIn(table: Table): set<string> {
    set n | n in table :: table[n].name
  }

  // ---- The merge as a function ------------------------------------------

  /** A known parent writes its settings over what is merged, except where the child has its own. */
  function SettingsWith(own: map<Key, Value>, merged: map<Key, Value>, parent: Option<Route>): map<Key, Value> {
    if parent.Some? then merged + (parent.value.settings + own) else merged
  }

  /** What is already merged wins over the overrides of a known parent. */
  function OverridesWith(merged: map<string, Value>, parent: Option<Route>): map<string, Value> {
    if parent.Some? then parent.value.overrides + merged else merged
  }

  function MergedSettings(own: map<Key, Value>, ps: seq<Option<Route>>): map<Key, Value> {
    if ps == [] then own else SettingsWith(own, MergedSettings(own, ps[..|ps| - 1]), Last(ps))
  }

  function MergedOverrides(own: map<string, Value>, ps: seq<Option<Route>>): map<string, Value> {
    if ps == [] then own else OverridesWith(MergedOverrides(own, ps[..|ps| - 1]), Last(ps))
  }

  /** Only the last listed parent counts for the hierarchy, and only when it is known. */
  function MergedHierarchy(name: string, ps: seq<Option<Route>>): seq<string> {
    (if ps != [] && Last(ps).Some? then Last(ps).value.hierarchy else []) + [name]
  }

  function Inherit(child: Route, ps: seq<Option<Route>>): Route {
    Route(child.name, child.pattern, MergedSettings(child.settings, ps),
          MergedOverrides(child.overrides, ps), NoParent, MergedHierarchy(child.name, ps))
  }

  /** The resolution of a route before defaults, given the names already on the path. */
  function Resolved(route: Route, table: Table, visited: set<string>): Route
    decreases NamesIn(table) + {route.name} - visited, 0, 0
  {
    if route.name in visited then route
    else if ResolverParents(route.parents) == [] then route.(hierarchy := [route.name])
    else Inherit(route, ResolvedParents(ResolverParents(route.parents), table, visited + {route.name}))
  }

  function ResolvedParents(ps: seq<string>, table: Table, visited: set<string>): (rs: seq<Option<Route>>)
    ensures |rs| == |ps|
    ensures forall i :: 0 <= i < |ps| ==>
      rs[i] == if ps[i] in table then Some(Resolved(table[ps[i]], table, visited)) else None
    decreases NamesIn(table) - visited, 1, |ps|
  {
    if ps == [] then [] else
      assert ps[0] in table ==> NamesIn(table) + {table[ps[0]].name} == NamesIn(table);
      [if ps[0] in table then Some(Resolved(table[ps[0]], table, visited)) else None]
      + ResolvedParents(ps[1..], table, visited)
  }

  lemma {:induction false} GuardedCallDecreases(table: Table, parent: string, child: Route, visited: set<string>)
    requires parent in table && child.name !in visited
    ensures NamesIn(table) + {table[parent].name} - (visited + {child.name})
            < NamesIn(table) + {child.name} - visited
  {
    assert table[parent].name in NamesIn(table);
    assert child.name in NamesIn(table) + {child.name} - visited;
  }

  /** The resolution meets a name already on its path, the branch that cuts the recursion. */
  predicate HitsGuard(route: Route, table: Table, visited: set<string>)
    decreases NamesIn(table) + {route.name} - visited
  {
    || route.name in visited
    || exists p :: p in ResolverParents(route.parents) && p in table
         && (GuardedCallDecreases(table, p, route, visited);
             HitsGuard(table[p], table, visited + {route.name}))
  }

  // ---- Defaults -----------------------------------------------------------

  const BASE_DEFAULTS: map<Key, Value> := map[
    SummaryEnabled := Flag(true), PassthroughEnabled := Flag(false),
    TransformReasoning := Flag(false), AddEmptyContent := Flag(false),
    ReasoningPlaceholder := Word(""), UpstreamHeaders := Headers(map[]),
    FallbackChain := Names([]), CircuitBreakerEnabled := Flag(false),
    FailureThreshold := Number(3.0), RecoveryTimeout := Number(60.0),
    CostPriority := Number(999.0)]

  function CommonDefaults(d: Option<Defaults>): map<Key, Value> {
    BASE_DEFAULTS + (if d.Some? then map[ApiKeys := Names(d.value.apiKeys)] else map[])
  }

  /** A route without parents keeps its request timeout and log directory unset. */
  function RootDefaults(route: Route, d: Option<Defaults>): map<Key, Value> {
    if ResolverParents(route.parents) == [] then CommonDefaults(d) else
      CommonDefaults(d)
      + (if d.Some? then map[RequestTimeout := Number(d.value.requestTimeout)] else map[])
      + map[PerformanceLogsDir := Word(if d.Some? then d.value.performanceLogsDir else "__performance_logs")]
  }

  // ---- The resolver -------------------------------------------------------

  /** One pass of the merge loop: what this parent adds over the child's own values. */
  method MergeKeys(own: map<Key, Value>, parent: map<Key, Value>) returns (merged: map<Key, Value>)
    ensures merged == parent + own
  {
    merged := map[];
    for j := 0 to |ALL_KEYS|
      invariant merged.Keys <= Elements(ALL_KEYS[..j])
      invariant forall k :: k in ALL_KEYS[..j] ==> Get(merged, k) == Get(parent + own, k)
    {
      var key := ALL_KEYS[j];
      if key in own {
        merged := merged[key := own[key]];
      } else if key in parent {
        merged := merged[key := parent[key]];
      }
    }
    forall k: Key
      ensures Get(merged, k) == Get(parent + own, k)
    {
      AllKeysComplete(k);
      assert k in ALL_KEYS[..|ALL_KEYS|];
    }
    MapsEqual(merged, parent + own);
  }

  /** A listed parent, resolved with the child's name on its path when it is known. */
  method ResolveParent(route: Route, name: string, table: Table, visited: set<string>) returns (r: Option<Route>)
    requires route.name !in visited
    ensures r == if name in table then Some(Resolved(table[name], table, visited + {route.name})) else None
    decreases NamesIn(table) + {route.name} - visited, 0
  {
    if name !in table {
      return None;
    }
    GuardedCallDecreases(table, name, route, visited);
    var resolved := ResolveInherited(table[name], table, visited + {route.name}, None, false);
    return Some(resolved);
  }

  /** One pass of the merge loop: an unknown parent changes nothing. */
  method MergeParent(route: Route, parent: Option<Route>, settings: map<Key, Value>, overrides: map<string, Value>)
      returns (newSettings: map<Key, Value>, newOverrides: map<string, Value>)
    ensures newSettings == SettingsWith(route.settings, settings, parent)
    ensures newOverrides == OverridesWith(overrides, parent)
  {
    if parent.None? {
      return settings, overrides;
    }
    var merged := MergeKeys(route.settings, parent.value.settings);
    return settings + merged, parent.value.overrides + overrides;
  }

  lemma {:induction false} MergeStep(route: Route, ps: seq<Option<Route>>, i: nat)
    requires i < |ps|
    ensures MergedSettings(route.settings, ps[..i + 1])
      == SettingsWith(route.settings, MergedSettings(route.settings, ps[..i]), ps[i])
    ensures MergedOverrides(route.overrides, ps[..i + 1])
      == OverridesWith(MergedOverrides(route.overrides, ps[..i]), ps[i])
  {
    assert ps[..i + 1][..i] == ps[..i] && Last(ps[..i + 1]) == ps[i];
  }

  /** The merge loop over the listed parents. */
  method MergeParents(route: Route, names: seq<string>, table: Table, visited: set<string>)
      returns (settings: map<Key, Value>, overrides: map<string, Value>, lastParent: Option<Route>)
    requires route.name !in visited
    ensures var ps := ResolvedParents(names, table, visited + {route.name});
      && settings == MergedSettings(route.settings, ps)
      && overrides == MergedOverrides(route.overrides, ps)
      && lastParent == if ps == [] then None else Last(ps)
    decreases NamesIn(table) + {route.name} - visited, 1
  {
    ghost var ps := ResolvedParents(names, table, visited + {route.name});
    settings, overrides, lastParent := route.settings, route.overrides, None;
    for i := 0 to |names|
      invariant settings == MergedSettings(route.settings, ps[..i])
      invariant overrides == MergedOverrides(route.overrides, ps[..i])
      invariant lastParent == if i == 0 then None else ps[i - 1]
    {
      MergeStep(route, ps, i);
      lastParent := ResolveParent(route, names[i], table, visited);
      settings, overrides := MergeParent(route, lastParent, settings, overrides);
    }
    assert ps[..|names|] == ps;
  }

  method ResolveInherited(route: Route, table: Table, visited: set<string>,
      defaults: Option<Defaults>, applyDefaults: bool) returns (r: Route)
    ensures !applyDefaults || route.name in visited ==> r == Resolved(route, table, visited)
    ensures applyDefaults && route.name !in visited ==>
      var bare := Resolved(route, table, visited);
      r == bare.(settings := RootDefaults(route, defaults) + bare.settings)
    decreases NamesIn(table) + {route.name} - visited, 2
  {
    if route.name in visited {
      return route;
    }
    var names := ResolverParents(route.parents);
    if names == [] {
      r := route.(hierarchy := [route.name]);
    } else {
      var settings, overrides, lastParent := MergeParents(route, names, table, visited);
      var hierarchy := (if lastParent.Some? then lastParent.value.hierarchy else []) + [route.name];
      r := Route(route.name, route.pattern, settings, overrides, NoParent, hierarchy);
    }
    if applyDefaults {
      r := r.(settings := RootDefaults(route, defaults) + r.settings);
    }
  }
}
