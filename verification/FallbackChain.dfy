/** The attempts of one request (`resolve_fallback_chain`): the primary and up to three distinct fallbacks. */
module FallbackChain {
  import opened Common
  import opened Routes
  import opened Inheritance
  import opened InheritanceLaws

  /** A configured fallback: a name, or a mapping with a model. */
  datatype FallbackOption = Named(name: string) | Detailed(model: string)

  datatype Attempt = Attempt(route: Route, model: string)

  type Identity = (string, string)

  const MAX_FALLBACKS: nat := 3

  function IdentityOf(a: Attempt): Identity {
    (a.route.name, a.model)
  }

  /** A route resolved at the root, defaults included. */
  function RootResolved(route: Route, table: Table, defaults: Option<Defaults>): Route {
    var bare := Resolved(route, table, {});
    bare.(settings := RootDefaults(route, defaults) + bare.settings)
  }

  /** The model a route names, empty when it has none. */
  function ModelOf(route: Route): string {
    if Model in route.settings && route.settings[Model].Word? then route.settings[Model].word else ""
  }

  /** The attempt that one option stands for, if any. */
  function Candidate(option: FallbackOption, primary: Route, table: Table,
                     defaults: Option<Defaults>): Option<Attempt> {
    match option
    case Named(name) =>
      if name !in table then Some(Attempt(primary, name))
      else
        var resolved := RootResolved(table[name], table, defaults);
        if ModelOf(resolved) == "" then None else Some(Attempt(resolved, ModelOf(resolved)))
    case Detailed(model) => if model == "" then None else Some(Attempt(primary, model))
  }

  function Candidates(options: seq<FallbackOption>, primary: Route, table: Table,
                      defaults: Option<Defaults>): seq<Attempt> {
    if options == [] then []
    else
      var before := Candidates(options[..|options| - 1], primary, table, defaults);
      var c := Candidate(Last(options), primary, table, defaults);
      if c.Some? then before + [c.value] else before
  }

  function IdentitiesOf(attempts: seq<Attempt>): set<Identity> {
    set a | a in attempts :: IdentityOf(a)
  }

  /** The candidates whose identity is new when they come, at most three of them. */
  function Chain(first: Attempt, candidates: seq<Attempt>): (attempts: seq<Attempt>) {
    if candidates == [] then [first]
    else
      var before := Chain(first, candidates[..|candidates| - 1]);
      if |before| - 1 >= MAX_FALLBACKS || IdentityOf(Last(candidates)) in IdentitiesOf(before) then before
      else before + [Last(candidates)]
  }

  method CandidateFor(option: FallbackOption, primary: Route, table: Table, defaults: Option<Defaults>)
      returns (candidate: Option<Attempt>)
    ensures candidate == Candidate(option, primary, table, defaults)
  {
    match option {
      case Named(name) =>
        if name !in table {
          return Some(Attempt(primary, name));
        }
        var resolved := ResolveInherited(table[name], table, {}, defaults, true);
        var model := ModelOf(resolved);
        return if model == "" then None else Some(Attempt(resolved, model));
      case Detailed(model) =>
        return if model == "" then None else Some(Attempt(primary, model));
    }
  }

  lemma {:induction false} AddedIdentity(attempts: seq<Attempt>, a: Attempt)
    ensures IdentitiesOf(attempts + [a]) == IdentitiesOf(attempts) + {IdentityOf(a)}
  {
    assert a in attempts + [a];
    forall id | id in IdentitiesOf(attempts)
      ensures id in IdentitiesOf(attempts + [a])
    {
      var b :| b in attempts && IdentityOf(b) == id;
      assert b in attempts + [a];
    }
  }

  lemma {:induction false} ChainAppend(first: Attempt, candidates: seq<Attempt>, a: Attempt)
    ensures var before := Chain(first, candidates);
      Chain(first, candidates + [a])
      == if |before| - 1 >= MAX_FALLBACKS || IdentityOf(a) in IdentitiesOf(before) then before else before + [a]
  {
    assert (candidates + [a])[..|candidates|] == candidates;
  }

  lemma {:induction false} NextCandidate(first: Attempt, options: seq<FallbackOption>, i: nat,
                                         primary: Route, table: Table, defaults: Option<Defaults>)
    requires i < |options|
    ensures var before := Chain(first, Candidates(options[..i], primary, table, defaults));
      var c := Candidate(options[i], primary, table, defaults);
      Chain(first, Candidates(options[..i + 1], primary, table, defaults))
      == if c.None? || |before| - 1 >= MAX_FALLBACKS || IdentityOf(c.value) in IdentitiesOf(before)
         then before else before + [c.value]
  {
    assert options[..i + 1][..i] == options[..i];
    var c := Candidate(options[i], primary, table, defaults);
    if c.Some? {
      ChainAppend(first, Candidates(options[..i], primary, table, defaults), c.value);
    }
  }

  lemma {:induction false} FullChainStays(first: Attempt, options: seq<FallbackOption>, i: nat,
                                          primary: Route, table: Table, defaults: Option<Defaults>)
    requires i <= |options|
    requires |Chain(first, Candidates(options[..i], primary, table, defaults))| - 1 >= MAX_FALLBACKS
    ensures Chain(first, Candidates(options, primary, table, defaults))
      == Chain(first, Candidates(options[..i], primary, table, defaults))
    decreases |options|
  {
    if i == |options| {
      assert options[..i] == options;
    } else {
      var init := options[..|options| - 1];
      assert init[..i] == options[..i] && options[..|options|] == options;
      FullChainStays(first, init, i, primary, table, defaults);
      NextCandidate(first, options, |options| - 1, primary, table, defaults);
    }
  }

  method ResolveFallbackChain(primary: Route, backend: string, options: seq<FallbackOption>, table: Table,
                              defaults: Option<Defaults>) returns (attempts: seq<Attempt>)
    ensures attempts == Chain(Attempt(primary, backend), Candidates(options, primary, table, defaults))
  {
    attempts := [Attempt(primary, backend)];
    var visited := {(primary.name, backend)};
    AddedIdentity([], attempts[0]);
    assert [] + attempts == attempts;
    for i := 0 to |options|
      invariant attempts == Chain(Attempt(primary, backend), Candidates(options[..i], primary, table, defaults))
      invariant visited == IdentitiesOf(attempts)
    {
      if |attempts| - 1 >= MAX_FALLBACKS {
        FullChainStays(Attempt(primary, backend), options, i, primary, table, defaults);
        return;
      }
      var candidate := CandidateFor(options[i], primary, table, defaults);
      NextCandidate(Attempt(primary, backend), options, i, primary, table, defaults);
      if candidate.Some? && IdentityOf(candidate.value) !in visited {
        AddedIdentity(attempts, candidate.value);
        attempts := attempts + [candidate.value];
        visited := visited + {IdentityOf(candidate.value)};
      }
    }
    assert options[..|options|] == options;
  }

  // ---- What an option stands for ------------------------------------------

  lemma {:induction false} ResolvedKeepsName(route: Route, table: Table, visited: set<string>)
    ensures Resolved(route, table, visited).name == route.name
  {
  }

  lemma {:induction false} RootSetting(route: Route, table: Table, defaults: Option<Defaults>, k: Key)
    ensures var merged := Resolved(route, table, {}).settings;
      Get(RootResolved(route, table, defaults).settings, k)
      == if k in merged then Some(merged[k]) else DefaultOf(k, ResolverParents(route.parents) != [], defaults)
  {
    DefaultsFillGaps(route, Resolved(route, table, {}).settings, defaults, k);
  }

  lemma {:induction false} ModelMeaning(route: Route)
    ensures ModelOf(route) != "" ==> Get(route.settings, Model) == Some(Word(ModelOf(route)))
    ensures (exists w :: w != "" && Get(route.settings, Model) == Some(Word(w))) ==> ModelOf(route) != ""
  {
  }

  /**
   A known name is tried under its own route: its name, its merged settings with the defaults
   below them, and the model these settings name. It is passed over when they name none.
   */
  lemma {:induction false} NamedFallback(name: string, primary: Route, table: Table, defaults: Option<Defaults>, k: Key)
    requires KeyedByName(table) && name in table
    ensures var merged := Resolved(table[name], table, {}).settings;
      var c := Candidate(Named(name), primary, table, defaults);
      && (c.Some? <==> exists w :: w != "" && Get(merged, Model) == Some(Word(w)))
      && (c.Some? ==>
        && c.value.route.name == name && c.value.model != "" && Get(merged, Model) == Some(Word(c.value.model))
        && Get(c.value.route.settings, k)
           == if k in merged then Some(merged[k])
              else DefaultOf(k, ResolverParents(table[name].parents) != [], defaults))
  {
    ResolvedKeepsName(table[name], table, {});
    ModelMeaning(RootResolved(table[name], table, defaults));
    RootSetting(table[name], table, defaults, Model);
    RootSetting(table[name], table, defaults, k);
  }

  /** Any other option is a model for the primary route, unless a mapping names none. */
  lemma {:induction false} ModelFallback(option: FallbackOption, primary: Route, table: Table,
                                         defaults: Option<Defaults>)
    requires option.Named? ==> option.name !in table
    ensures Candidate(option, primary, table, defaults)
      == match option
         case Named(name) => Some(Attempt(primary, name))
         case Detailed(model) => if model == "" then None else Some(Attempt(primary, model))
  {
  }

  // ---- What the chain promises --------------------------------------------

  ghost predicate DistinctIdentities(attempts: seq<Attempt>) {
    forall i, j :: 0 <= i < j < |attempts| ==> IdentityOf(attempts[i]) != IdentityOf(attempts[j])
  }

  lemma {:induction false} ChainByIdentity(first: Attempt, candidates: seq<Attempt>)
    ensures var chain := Chain(first, candidates);
      && 1 <= |chain| <= 4 && chain[0] == first
      && DistinctIdentities(chain)
      && (forall i :: 0 < i < |chain| ==> chain[i] in candidates)
      && (|chain| < 4 ==> forall c :: c in candidates ==> IdentityOf(c) in IdentitiesOf(chain))
  {
    if candidates != [] {
      var init, last := candidates[..|candidates| - 1], Last(candidates);
      var before := Chain(first, init);
      ChainByIdentity(first, init);
      assert candidates == init + [last];
      AddedIdentity(before, last);
      forall i | 0 <= i < |before|
        ensures IdentityOf(before[i]) in IdentitiesOf(before)
      {
        assert before[i] in before;
      }
    }
  }

  /** Both are the same model under a route of the same name. */
  predicate SameTarget(a: Attempt, b: Attempt) {
    a.route.name == b.route.name && a.model == b.model
  }

  ghost predicate DistinctTargets(attempts: seq<Attempt>) {
    forall i, j :: 0 <= i < j < |attempts| ==> !SameTarget(attempts[i], attempts[j])
  }

  ghost predicate Targets(attempts: seq<Attempt>, c: Attempt) {
    exists a :: a in attempts && SameTarget(a, c)
  }

  /**
   The primary comes first, no attempt repeats route and model of an earlier one, there are at
   most four, and a candidate is left out only when its route and model are there or the chain
   is full.
   */
  lemma {:induction false} ChainPromises(first: Attempt, candidates: seq<Attempt>)
    ensures var chain := Chain(first, candidates);
      && 1 <= |chain| <= 4 && chain[0] == first
      && DistinctTargets(chain)
      && (forall i :: 0 < i < |chain| ==> chain[i] in candidates)
      && (|chain| < 4 ==> forall c :: c in candidates ==> Targets(chain, c))
  {
    ChainByIdentity(first, candidates);
    var chain := Chain(first, candidates);
    assert forall i, j :: 0 <= i < j < |chain| ==> IdentityOf(chain[i]) != IdentityOf(chain[j]);
    if |chain| < 4 {
      forall c | c in candidates
        ensures Targets(chain, c)
      {
        var a :| a in chain && IdentityOf(a) == IdentityOf(c);
        assert SameTarget(a, c);
      }
    }
  }

  /** Fallbacks come in the order of the options. */
  lemma {:induction false} ChainKeepsOrder(first: Attempt, candidates: seq<Attempt>) returns (at: seq<nat>)
    ensures |at| == |Chain(first, candidates)| - 1
    ensures forall i :: 0 <= i < |at| ==> at[i] < |candidates| && candidates[at[i]] == Chain(first, candidates)[i + 1]
    ensures forall i, j :: 0 <= i < j < |at| ==> at[i] < at[j]
  {
    at := [];
    if candidates != [] {
      var init := candidates[..|candidates| - 1];
      at := ChainKeepsOrder(first, init);
      if |Chain(first, candidates)| > |Chain(first, init)| {
        at := at + [|candidates| - 1];
      }
    }
  }
}
