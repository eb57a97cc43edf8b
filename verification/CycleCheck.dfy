/**
 The cycle check over route inheritance (`check_circular_references`): a depth-first
 search with a visited set, a recursion stack and the current path.
 */
module CycleCheck {
  import opened Common
  import opened Routes

  /** Names with the parent names that one reader of `extends` sees, in order. */
  type Graph = map<string, seq<string>>

  function CheckerGraph(table: Table): Graph {
    map n | n in table :: CheckerParents(table[n].parents)
  }

  function ResolverGraph(table: Table): Graph {
    map n | n in table :: ResolverParents(table[n].parents)
  }

  /** A walk visits known names only and follows one parent edge per step. */
  ghost predicate Walk(g: Graph, p: seq<string>) {
    && p != []
    && (forall i :: 0 <= i < |p| ==> p[i] in g)
    && (forall i :: 0 <= i < |p| - 1 ==> p[i + 1] in g[p[i]])
  }

  /** A closed walk of at least one edge. */
  ghost predicate Cycle(g: Graph, p: seq<string>) {
    Walk(g, p) && |p| >= 2 && p[0] == Last(p)
  }

  ghost predicate Acyclic(g: Graph) {
    forall p :: !Cycle(g, p)
  }

  /** Every known parent of a listed name is listed before it. */
  ghost predicate ParentsFirst(g: Graph, done: seq<string>) {
    forall i, q :: 0 <= i < |done| && done[i] in g && q in g[done[i]] && q in g ==> q in done[..i]
  }

  lemma {:induction false} WalkStaysBefore(g: Graph, done: seq<string>, p: seq<string>, m: nat)
    requires Walk(g, p) && ParentsFirst(g, done)
    requires m <= |done| && p[0] in done[..m]
    ensures forall x :: x in p ==> x in done[..m]
  {
    if |p| > 1 {
      var i :| 0 <= i < m && done[i] == p[0];
      assert p[1] in done[..i];
      assert Walk(g, p[1..]) by {
        forall j | 0 <= j < |p[1..]| - 1
          ensures p[1..][j + 1] in g[p[1..][j]]
        {
          assert p[(j + 1) + 1] in g[p[j + 1]];
        }
      }
      WalkStaysBefore(g, done, p[1..], m);
      assert p == [p[0]] + p[1..];
    }
  }

  ghost function FirstIndex(s: seq<string>, x: string): (i: nat)
    requires x in s
    ensures i < |s| && s[i] == x && x !in s[..i]
  {
    if s[0] == x then 0 else
      var i := FirstIndex(s[1..], x);
      assert s[..i + 1] == [s[0]] + s[1..][..i];
      i + 1
  }

  /** A parents-first listing of every name rules out cycles. */
  lemma {:induction false} ParentsFirstAcyclic(g: Graph, done: seq<string>)
    requires ParentsFirst(g, done) && g.Keys <= Elements(done)
    ensures Acyclic(g)
  {
    forall p | Cycle(g, p)
      ensures false
    {
      var i := FirstIndex(done, p[0]);
      var tail := p[1..];
      assert p[1] in done[..i];
      assert Walk(g, tail) by {
        forall j | 0 <= j < |tail| - 1
          ensures tail[j + 1] in g[tail[j]]
        {
          assert p[(j + 1) + 1] in g[p[j + 1]];
        }
      }
      assert p[0] in tail by { assert tail[|tail| - 1] == p[0]; }
      WalkStaysBefore(g, done, tail, i);
    }
  }

  function IndexOf(s: seq<string>, x: string): (i: nat)
    requires x in s
    ensures i < |s| && s[i] == x
  {
    if s[0] == x then 0 else 1 + IndexOf(s[1..], x)
  }

  /** A parent found on the path closes a cycle. */
  lemma {:induction false} ClosesCycle(g: Graph, path: seq<string>, start: nat, parent: string)
    requires Walk(g, path) && start < |path| && path[start] == parent && parent in g[Last(path)]
    ensures Cycle(g, path[start..] + [parent])
  {
    var c := path[start..] + [parent];
    forall i | 0 <= i < |c| - 1
      ensures c[i + 1] in g[c[i]]
    {
      if i < |c| - 2 {
        assert c[i] == path[start + i] && c[i + 1] == path[(start + i) + 1];
      }
    }
  }

  class CycleChecker {
    /** The routes in iteration order and the parents read for each. */
    const order: seq<string>
    const g: Graph

    var visited: set<string>
    var recStack: set<string>
    /** The error entries of the validation result: the cycle of each message. */
    var errors: seq<seq<string>>

    /** Names whose search returned without a cycle, in finishing order. */
    ghost var finished: seq<string>

    constructor (order: seq<string>, g: Graph)
      requires Elements(order) == g.Keys
      ensures this.order == order && this.g == g && errors == []
      ensures visited == {} && recStack == {} && finished == []
    {
      this.order, this.g := order, g;
      visited, recStack, errors, finished := {}, {}, [], [];
    }

    /** The recursion stack is the set of the path; everything else visited is finished. */
    ghost predicate Valid(path: seq<string>)
      reads this
    {
      && (path != [] ==> Walk(g, path))
      && recStack == Elements(path)
      && visited == recStack + Elements(finished)
      && recStack !! Elements(finished)
      && visited <= g.Keys
      && ParentsFirst(g, finished)
    }

    method Dfs(name: string, path: seq<string>) returns (cycle: Option<seq<string>>)
      requires Valid(path)
      requires name in g && name !in visited
      requires path != [] ==> name in g[Last(path)]
      modifies this`visited, this`recStack, this`finished
      ensures cycle.Some? ==> Cycle(g, cycle.value)
      ensures cycle.None? ==> Valid(path) && recStack == old(recStack)
      ensures cycle.None? ==> old(visited) + {name} <= visited && old(finished) <= finished
      decreases g.Keys - visited
    {
      visited := visited + {name};
      recStack := recStack + {name};
      var here := path + [name];
      assert Walk(g, here);
      assert Elements(here) == Elements(path) + {name};
      var parents := g[name];
      for i := 0 to |parents|
        invariant Valid(here) && recStack == old(recStack) + {name}
        invariant old(visited) + {name} <= visited && old(finished) <= finished
        invariant forall j :: 0 <= j < i && parents[j] in g ==> parents[j] in finished
      {
        var parent := parents[i];
        if parent !in g {
          continue;
        }
        if parent !in visited {
          cycle := Dfs(parent, here);
          if cycle.Some? {
            return;
          }
        } else if parent in recStack {
          var start := IndexOf(here, parent);
          ClosesCycle(g, here, start, parent);
          return Some(here[start..] + [parent]);
        }
      }
      recStack := recStack - {name};
      Finish(name);
      assert recStack == Elements(path);
      return None;
    }

    /** Ghost bookkeeping: a name whose known parents are all finished is finished. */
    ghost method Finish(name: string)
      requires name in g && name !in finished && ParentsFirst(g, finished)
      requires forall q :: q in g[name] && q in g ==> q in finished
      modifies this`finished
      ensures finished == old(finished) + [name] && ParentsFirst(g, finished)
      ensures Elements(finished) == Elements(old(finished)) + {name}
    {
      var before := finished;
      finished := finished + [name];
      forall i, q | 0 <= i < |finished| && finished[i] in g && q in g[finished[i]] && q in g
        ensures q in finished[..i]
      {
        if i < |before| {
          assert finished[..i] == before[..i];
        } else {
          assert finished[..i] == before;
        }
      }
    }

    /** Sound and complete: a returned list is a cycle, and None means there is none. */
    method Check() returns (cycle: Option<seq<string>>)
      requires visited == {} && recStack == {} && finished == []
      requires Elements(order) == g.Keys
      modifies this
      ensures cycle.None? <==> Acyclic(g)
      ensures cycle.Some? ==> Cycle(g, cycle.value) && errors == old(errors) + [cycle.value]
      ensures cycle.None? ==> errors == old(errors)
    {
      for i := 0 to |order|
        invariant Valid([]) && errors == old(errors)
        invariant forall j :: 0 <= j < i ==> order[j] in visited
      {
        if order[i] !in visited {
          cycle := Dfs(order[i], []);
          if cycle.Some? {
            errors := errors + [cycle.value];
            return;
          }
        }
      }
      ParentsFirstAcyclic(g, finished);
      return None;
    }
  }
}
