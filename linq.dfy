/** Query methods over a finite sequence (LINQ/linq.py).

    QueryMethodBase only wraps an iterable, and each query method returns a new
    wrapper, so a query is modelled by the sequence of elements its iterable yields.
    Keys for ordering and grouping are integers. `select`, `where`, `orderby` and
    `groupby` are functions; `take` and `flatten`, generators with loops in the source,
    are methods with loops, proved against the functions that specify them. */
module Linq {

  // ---------------------------------------------------------------- select, where

  /** select: map(f, items). */
  function Select<T, U>(s: seq<T>, f: T -> U): (r: seq<U>)
    ensures |r| == |s|
    ensures forall i :: 0 <= i < |s| ==> r[i] == f(s[i])
  {
    if |s| == 0 then [] else [f(s[0])] + Select(s[1..], f)
  }

  /** Selecting twice is selecting the composition once. */
  lemma SelectCompose<T, U, W>(s: seq<T>, f: T -> U, g: U -> W)
    ensures Select(Select(s, f), g) == Select(s, x => g(f(x)))
  {
  }

  /** where: filter(p, items). */
  function Where<T>(s: seq<T>, p: T -> bool): (r: seq<T>)
    ensures |r| <= |s|
    ensures forall x :: x in r ==> x in s && p(x)
    ensures forall x :: x in s && p(x) ==> x in r
  {
    if |s| == 0 then [] else (if p(s[0]) then [s[0]] else []) + Where(s[1..], p)
  }

  /** where keeps the original order: filtering a concatenation filters each part. */
  lemma {:induction false} WhereConcat<T>(a: seq<T>, b: seq<T>, p: T -> bool)
    ensures Where(a + b, p) == Where(a, p) + Where(b, p)
  {
    if |a| > 0 {
      assert (a + b)[0] == a[0] && (a + b)[1..] == a[1..] + b;
      var h := if p(a[0]) then [a[0]] else [];
      assert Where(a + b, p) == h + Where(a[1..] + b, p);
      assert Where(a, p) == h + Where(a[1..], p);
      WhereConcat(a[1..], b, p);
    } else {
      assert a + b == b;
    }
  }

  /** where keeps every occurrence of an element satisfying p and none of the others. */
  lemma {:induction false} WhereCounts<T>(s: seq<T>, p: T -> bool, x: T)
    ensures multiset(Where(s, p))[x] == if p(x) then multiset(s)[x] else 0
  {
    if |s| > 0 {
      assert s == [s[0]] + s[1..];
      WhereCounts(s[1..], p, x);
    }
  }

  // ---------------------------------------------------------------- take

  /** How many elements take(n) yields: the loop stops when the index reaches n, which
      a negative n never does. */
  function TakeCount(n: int, len: nat): (k: nat)
    ensures k <= len
  {
    if 0 <= n <= len then n else len
  }

  /** take(n): the generator, with its early break. */
  method Take<T>(s: seq<T>, n: int) returns (r: seq<T>)
    ensures r == s[..TakeCount(n, |s|)]
    ensures n < 0 ==> r == s
    ensures 0 <= n ==> r == s[..if n < |s| then n else |s|]
  {
    r := [];
    var idx := 0;
    while idx < |s|
      invariant 0 <= idx <= |s|
      invariant idx <= TakeCount(n, |s|)
      invariant r == s[..idx]
    {
      if idx == n {
        break;
      }
      r := r + [s[idx]];
      idx := idx + 1;
    }
  }

  // ---------------------------------------------------------------- flatten

  /** The inner sequences one after another. */
  function Concat<T>(ss: seq<seq<T>>): seq<T> {
    if |ss| == 0 then [] else ss[0] + Concat(ss[1..])
  }

  /** Flattening a concatenation of outer sequences concatenates the results. */
  lemma {:induction false} ConcatAppend<T>(a: seq<seq<T>>, b: seq<seq<T>>)
    ensures Concat(a + b) == Concat(a) + Concat(b)
  {
    if |a| > 0 {
      assert (a + b)[0] == a[0] && (a + b)[1..] == a[1..] + b;
      ConcatAppend(a[1..], b);
    } else {
      assert a + b == b;
    }
  }

  /** The flattened length is the sum of the inner lengths. */
  function TotalLength<T>(ss: seq<seq<T>>): nat {
    if |ss| == 0 then 0 else |ss[0]| + TotalLength(ss[1..])
  }

  lemma {:induction false} ConcatLength<T>(ss: seq<seq<T>>)
    ensures |Concat(ss)| == TotalLength(ss)
  {
    if |ss| > 0 {
      ConcatLength(ss[1..]);
    }
  }

  /** flatten: every element of every inner sequence, in order. */
  method Flatten<T>(ss: seq<seq<T>>) returns (r: seq<T>)
    ensures r == Concat(ss)
  {
    r := [];
    var i := 0;
    while i < |ss|
      invariant 0 <= i <= |ss|
      invariant r == Concat(ss[..i])
    {
      var j := 0;
      while j < |ss[i]|
        invariant 0 <= j <= |ss[i]|
        invariant r == Concat(ss[..i]) + ss[i][..j]
      {
        r := r + [ss[i][j]];
        j := j + 1;
      }
      assert ss[i][..j] == ss[i];
      ConcatAppend(ss[..i], [ss[i]]);
      assert ss[..i + 1] == ss[..i] + [ss[i]];
      i := i + 1;
    }
    assert ss[..i] == ss;
  }

  // ---------------------------------------------------------------- orderby

  /** Ordered by key, equal keys in any order. */
  predicate SortedBy<T>(s: seq<T>, key: T -> int) {
    forall i, j :: 0 <= i < j < |s| ==> key(s[i]) <= key(s[j])
  }

  /** x placed before the first element whose key is not smaller. */
  function Insert<T>(x: T, s: seq<T>, key: T -> int): seq<T> {
    if |s| == 0 || key(x) <= key(s[0]) then [x] + s else [s[0]] + Insert(x, s[1..], key)
  }

  /** orderby: sorted(items, key=key), a stable sort. */
  function OrderBy<T>(s: seq<T>, key: T -> int): seq<T> {
    if |s| == 0 then [] else Insert(s[0], OrderBy(s[1..], key), key)
  }

  /** The elements with key k, in order. */
  function WithKey<T>(s: seq<T>, key: T -> int, k: int): seq<T> {
    Where(s, (x: T) => key(x) == k)
  }

  lemma {:induction false} InsertFacts<T>(x: T, s: seq<T>, key: T -> int)
    requires SortedBy(s, key)
    ensures SortedBy(Insert(x, s, key), key)
    ensures multiset(Insert(x, s, key)) == multiset{x} + multiset(s)
    ensures |Insert(x, s, key)| == |s| + 1
    ensures forall y :: y in Insert(x, s, key) ==> y == x || y in s
  {
    if |s| > 0 && key(x) > key(s[0]) {
      InsertFacts(x, s[1..], key);
      assert s == [s[0]] + s[1..];
      var t := Insert(x, s[1..], key);
      assert forall y :: y in t ==> key(s[0]) <= key(y) by {
        forall y | y in t ensures key(s[0]) <= key(y) {
          if y != x {
            var m :| 0 <= m < |s[1..]| && s[1..][m] == y;
            assert s[m + 1] == y;
          }
        }
      }
      assert forall j :: 0 < j < |[s[0]] + t| ==> ([s[0]] + t)[j] in t;
    }
  }

  /** Inserting x into the elements with keys other than its own changes nothing there,
      and puts x first among those with its key. */
  lemma {:induction false} InsertWithKey<T>(x: T, s: seq<T>, key: T -> int, k: int)
    ensures WithKey(Insert(x, s, key), key, k) == WithKey([x], key, k) + WithKey(s, key, k)
  {
    var p := (y: T) => key(y) == k;
    if |s| == 0 || key(x) <= key(s[0]) {
      WhereConcat([x], s, p);
    } else {
      InsertWithKey(x, s[1..], key, k);
      assert s == [s[0]] + s[1..];
      WhereConcat([s[0]], Insert(x, s[1..], key), p);
      WhereConcat([s[0]], s[1..], p);
      if key(s[0]) == k {
        // s[0]'s key is below x's, so x's key is not k
        assert WithKey([x], key, k) == [];
      }
    }
  }

  /** orderby sorts by key. */
  lemma {:induction false} OrderBySorted<T>(s: seq<T>, key: T -> int)
    ensures SortedBy(OrderBy(s, key), key)
    ensures multiset(OrderBy(s, key)) == multiset(s)
  {
    if |s| > 0 {
      OrderBySorted(s[1..], key);
      InsertFacts(s[0], OrderBy(s[1..], key), key);
      assert s == [s[0]] + s[1..];
    }
  }

  /** orderby is stable: for every key, the elements with that key keep their order. */
  lemma {:induction false} OrderByStable<T>(s: seq<T>, key: T -> int, k: int)
    ensures WithKey(OrderBy(s, key), key, k) == WithKey(s, key, k)
  {
    if |s| > 0 {
      OrderByStable(s[1..], key, k);
      InsertWithKey(s[0], OrderBy(s[1..], key), key, k);
      assert s == [s[0]] + s[1..];
      WhereConcat([s[0]], s[1..], (y: T) => key(y) == k);
    }
  }

  // ---------------------------------------------------------------- groupby

  /** One pair of itertools.groupby: a key and the run of elements with it. */
  datatype Group<T> = Group(key: int, items: seq<T>)

  /** itertools.groupby: the maximal runs of adjacent elements with equal keys. */
  function Runs<T>(s: seq<T>, key: T -> int): (gs: seq<Group<T>>)
    ensures |s| > 0 ==> |gs| > 0 && gs[0].key == key(s[0])
    ensures |s| == 0 ==> gs == []
  {
    if |s| == 0 then []
    else
      var rest := Runs(s[1..], key);
      if |rest| > 0 && rest[0].key == key(s[0]) then [Group(key(s[0]), [s[0]] + rest[0].items)] + rest[1..]
      else [Group(key(s[0]), [s[0]])] + rest
  }

  /** The items of the groups, one group after another. */
  function Ungroup<T>(gs: seq<Group<T>>): seq<T> {
    if |gs| == 0 then [] else gs[0].items + Ungroup(gs[1..])
  }

  /** Each run is non-empty and holds only elements with its key. */
  predicate WellFormedGroups<T>(gs: seq<Group<T>>, key: T -> int) {
    forall i :: 0 <= i < |gs| ==>
      |gs[i].items| > 0 && forall j :: 0 <= j < |gs[i].items| ==> key(gs[i].items[j]) == gs[i].key
  }

  /** Keys strictly increase from one group to the next. */
  predicate KeysIncrease<T>(gs: seq<Group<T>>) {
    forall i, j :: 0 <= i < j < |gs| ==> gs[i].key < gs[j].key
  }

  /** The runs put back together are the sequence. */
  lemma {:induction false} RunsUngroup<T>(s: seq<T>, key: T -> int)
    ensures Ungroup(Runs(s, key)) == s
  {
    if |s| > 0 {
      RunsUngroup(s[1..], key);
      var rest := Runs(s[1..], key);
      assert s == [s[0]] + s[1..];
      if |rest| > 0 && rest[0].key == key(s[0]) {
        var g := Group(key(s[0]), [s[0]] + rest[0].items);
        assert ([g] + rest[1..])[1..] == rest[1..];
      } else {
        var g := Group(key(s[0]), [s[0]]);
        assert ([g] + rest)[1..] == rest;
      }
    }
  }

  /** Each run is non-empty and of one key, and neighbouring runs have different keys,
      so no run could be longer. */
  lemma {:induction false} RunsMaximal<T>(s: seq<T>, key: T -> int)
    ensures WellFormedGroups(Runs(s, key), key)
    ensures forall i :: 0 <= i < |Runs(s, key)| - 1 ==> Runs(s, key)[i].key != Runs(s, key)[i + 1].key
  {
    if |s| > 0 {
      RunsMaximal(s[1..], key);
      var rest := Runs(s[1..], key);
      if |rest| > 0 && rest[0].key == key(s[0]) {
        var g := Group(key(s[0]), [s[0]] + rest[0].items);
        assert forall j :: 1 <= j < |g.items| ==> g.items[j] == rest[0].items[j - 1];
        assert forall i :: 1 <= i < |rest| ==> ([g] + rest[1..])[i] == rest[i];
      } else {
        var g := Group(key(s[0]), [s[0]]);
        assert forall i :: 1 <= i <= |rest| ==> ([g] + rest)[i] == rest[i - 1];
      }
    }
  }

  /** On a sequence sorted by key the run keys strictly increase, so each key has at
      most one group. */
  lemma {:induction false} SortedRunsKeysIncrease<T>(s: seq<T>, key: T -> int)
    requires SortedBy(s, key)
    ensures KeysIncrease(Runs(s, key))
  {
    if |s| > 1 {
      assert SortedBy(s[1..], key);
      SortedRunsKeysIncrease(s[1..], key);
      var rest := Runs(s[1..], key);
      assert rest[0].key == key(s[1]) && key(s[0]) <= key(s[1]);
      if rest[0].key == key(s[0]) {
        var gs := [Group(key(s[0]), [s[0]] + rest[0].items)] + rest[1..];
        assert forall i :: 0 <= i < |gs| ==> gs[i].key == rest[i].key;
      } else {
        var gs := [Group(key(s[0]), [s[0]])] + rest;
        assert forall i :: 1 <= i < |gs| ==> gs[i] == rest[i - 1];
      }
    }
  }

  /** groupby: itertools.groupby over the orderby result. */
  function GroupBy<T>(s: seq<T>, key: T -> int): seq<Group<T>> {
    Runs(OrderBy(s, key), key)
  }

  /** groupby's groups, put back together, are the orderby output, so every element is
      in exactly one group; each group is non-empty and of one key; and keys strictly
      increase, so each key present has exactly one group. */
  lemma GroupByFacts<T>(s: seq<T>, key: T -> int)
    ensures Ungroup(GroupBy(s, key)) == OrderBy(s, key)
    ensures multiset(Ungroup(GroupBy(s, key))) == multiset(s)
    ensures WellFormedGroups(GroupBy(s, key), key)
    ensures KeysIncrease(GroupBy(s, key))
  {
    RunsUngroup(OrderBy(s, key), key);
    RunsMaximal(OrderBy(s, key), key);
    OrderBySorted(s, key);
    SortedRunsKeysIncrease(OrderBy(s, key), key);
  }
}
