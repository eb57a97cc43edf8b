/** `sorted` on a finite set of integers, such as the keys of a dictionary. */
module Sorting {
  ghost predicate IsMin(s: set<int>, m: int) {
    m in s && forall x :: x in s ==> m <= x
  }

  lemma {:induction false} MinExists(s: set<int>, x: int) returns (m: int)
    requires x in s
    ensures IsMin(s, m)
    decreases |s|
  {
    if y :| y in s && y < x {
      m := MinExists(s - {x}, y);
      forall z | z in s ensures m <= z {
        assert z == x || z in s - {x};
      }
    } else {
      m := x;
    }
  }

  function Min(s: set<int>): (m: int)
    requires exists x :: x in s
    ensures IsMin(s, m)
  {
    assert exists m :: IsMin(s, m) by {
      var x :| x in s;
      var m := MinExists(s, x);
    }
    var m :| m in s && forall x :: x in s ==> m <= x;
    m
  }

  predicate Ascending(keys: seq<int>) {
    forall i, j :: 0 <= i < j < |keys| ==> keys[i] < keys[j]
  }

  function Sorted(s: set<int>): seq<int>
    decreases |s|
  {
    if exists x :: x in s then [Min(s)] + Sorted(s - {Min(s)}) else []
  }

  lemma {:induction false} AscendingCons(m: int, rest: seq<int>)
    requires Ascending(rest) && forall k :: k in rest ==> m < k
    ensures Ascending([m] + rest)
  {
    forall j | 0 <= j < |rest| ensures m < rest[j] {
      assert rest[j] in rest;
    }
  }

  /** Sorting lists every element, once, in ascending order. */
  lemma {:induction false} SortedListsAll(s: set<int>)
    ensures forall k :: k in Sorted(s) <==> k in s
    ensures Ascending(Sorted(s))
    decreases |s|
  {
    if exists x :: x in s {
      var m := Min(s);
      var rest := Sorted(s - {m});
      SortedListsAll(s - {m});
      assert Sorted(s) == [m] + rest;
      AscendingCons(m, rest);
    }
  }
}
