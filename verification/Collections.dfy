/** Go maps and API lists are enumerated in an unspecified order: `Enumerate` fixes one of them. */
module Collections {

  predicate Distinct<T(==)>(s: seq<T>) {
    forall i, j :: 0 <= i < j < |s| ==> s[i] != s[j]
  }

  /** `order` lists every member of `keys` exactly once. */
  predicate Enumerates<T(==)>(order: seq<T>, keys: set<T>) {
    && Distinct(order)
    && (forall x | x in order :: x in keys)
    && (forall x | x in keys :: x in order)
  }

  method Enumerate<T(==)>(keys: set<T>) returns (order: seq<T>)
    ensures Enumerates(order, keys)
    ensures order == [] <==> keys == {}
  {
    order := [];
    var rest := keys;
    while rest != {}
      invariant rest <= keys && Enumerates(order, keys - rest)
      invariant order == [] <==> rest == keys
      decreases |rest|
    {
      var x :| x in rest;
      order, rest := order + [x], rest - {x};
    }
  }

  /** A loop over `order` has visited exactly the first `i` members, `done`. */
  ghost predicate Visited<T>(order: seq<T>, done: set<T>, i: nat) {
    forall j :: 0 <= j < |order| ==> (order[j] in done <==> j < i)
  }

  lemma VisitNext<T>(order: seq<T>, done: set<T>, i: nat, keys: set<T>)
    requires Enumerates(order, keys) && Visited(order, done, i) && i < |order|
    ensures Visited(order, done + {order[i]}, i + 1) && order[i] !in done && order[i] in keys
  {}

  lemma VisitedAll<T>(order: seq<T>, done: set<T>, keys: set<T>)
    requires Enumerates(order, keys) && Visited(order, done, |order|) && done <= keys
    ensures done == keys
  {
    forall x | x in keys ensures x in done { assert x in order; }
  }

  /** A counter of the members of `s` among the visited ones. */
  lemma CountNext<T>(s: set<T>, done: set<T>, x: T)
    requires x !in done
    ensures |s * (done + {x})| == |s * done| + if x in s then 1 else 0
  {
    assert s * (done + {x}) == s * done + if x in s then {x} else {};
  }

  lemma CountAll<T>(s: set<T>, done: set<T>)
    requires s <= done
    ensures |s * done| == |s|
  {
    assert s * done == s;
  }

  lemma LastOf<T>(s: seq<T>)
    requires s != []
    ensures forall x :: x in s <==> x in s[..|s| - 1] || x == s[|s| - 1]
  {
    assert s == s[..|s| - 1] + [s[|s| - 1]];
  }

  // ---- Selecting from a list ----

  function Filter<T>(s: seq<T>, keep: T -> bool): seq<T> {
    if s == [] then []
    else
      var n := |s| - 1;
      Filter(s[..n], keep) + if keep(s[n]) then [s[n]] else []
  }

  lemma FilterNext<T>(s: seq<T>, keep: T -> bool, i: nat)
    requires i < |s|
    ensures Filter(s[..i + 1], keep) == Filter(s[..i], keep) + if keep(s[i]) then [s[i]] else []
  {
    assert s[..i + 1][..i] == s[..i];
  }

  lemma FilterOne<T>(x: T, keep: T -> bool)
    ensures Filter([x], keep) == if keep(x) then [x] else []
  {
    assert [x][..0] == [];
  }

  lemma {:induction false} FilterAppend<T>(s: seq<T>, t: seq<T>, keep: T -> bool)
    ensures Filter(s + t, keep) == Filter(s, keep) + Filter(t, keep)
  {
    if t == [] {
      assert s + t == s;
    } else {
      var n := |t| - 1;
      assert (s + t)[..|s| + n] == s + t[..n];
      FilterAppend(s, t[..n], keep);
    }
  }

  /** Selecting keeps every item that qualifies, as often as it occurs, and nothing else. */
  lemma {:induction false} FilterCounts<T>(s: seq<T>, keep: T -> bool, x: T)
    ensures multiset(Filter(s, keep))[x] == if keep(x) then multiset(s)[x] else 0
  {
    if s != [] {
      var n := |s| - 1;
      FilterCounts(s[..n], keep, x);
      assert s == s[..n] + [s[n]];
    }
  }

  lemma FilterMembers<T>(s: seq<T>, keep: T -> bool, x: T)
    ensures x in Filter(s, keep) <==> x in s && keep(x)
  {
    FilterCounts(s, keep, x);
    assert x in Filter(s, keep) <==> multiset(Filter(s, keep))[x] > 0;
    assert x in s <==> multiset(s)[x] > 0;
  }

  ghost predicate KeptAt<T>(s: seq<T>, keep: T -> bool, i: int) {
    0 <= i < |s| && keep(s[i])
  }

  /** One item alone qualifies: the one at position `i`. */
  ghost predicate OnlyAt<T>(s: seq<T>, keep: T -> bool, i: int) {
    KeptAt(s, keep, i) && forall j :: KeptAt(s, keep, j) ==> j == i
  }

  lemma NoneKept<T>(s: seq<T>, keep: T -> bool)
    ensures Filter(s, keep) == [] <==> forall i :: !KeptAt(s, keep, i)
  {
    forall i | KeptAt(s, keep, i) ensures Filter(s, keep) != [] { FilterMembers(s, keep, s[i]); }
    if Filter(s, keep) != [] {
      FilterMembers(s, keep, Filter(s, keep)[0]);
      var i :| 0 <= i < |s| && s[i] == Filter(s, keep)[0];
      assert KeptAt(s, keep, i);
    }
  }

  lemma SplitAt<T>(s: seq<T>, keep: T -> bool, i: int)
    requires KeptAt(s, keep, i)
    ensures Filter(s, keep) == Filter(s[..i], keep) + [s[i]] + Filter(s[i + 1..], keep)
    ensures forall j :: KeptAt(s, keep, j) <==> KeptAt(s[..i], keep, j) || j == i || KeptAt(s[i + 1..], keep, j - i - 1)
  {
    assert s == s[..i] + ([s[i]] + s[i + 1..]);
    FilterAppend(s[..i], [s[i]] + s[i + 1..], keep);
    FilterAppend([s[i]], s[i + 1..], keep);
    assert [s[i]][..0] == [];
  }

  lemma OneKept<T>(s: seq<T>, keep: T -> bool, i: int)
    requires KeptAt(s, keep, i)
    ensures Filter(s, keep) == [s[i]] <==> OnlyAt(s, keep, i)
    ensures |Filter(s, keep)| == 1 <==> OnlyAt(s, keep, i)
  {
    SplitAt(s, keep, i);
    NoneKept(s[..i], keep);
    NoneKept(s[i + 1..], keep);
    var rest := s[i + 1..];
    if k :| KeptAt(rest, keep, k) {
      assert KeptAt(s, keep, k + i + 1);
    }
  }

  // ---- Adding up a list ----

  function Sum<T>(s: seq<T>, f: T -> int): int {
    if s == [] then 0 else Sum(s[..|s| - 1], f) + f(s[|s| - 1])
  }

  lemma SumNext<T>(s: seq<T>, f: T -> int, i: nat)
    requires i < |s|
    ensures Sum(s[..i + 1], f) == Sum(s[..i], f) + f(s[i])
  {
    assert s[..i + 1][..i] == s[..i];
  }

  /** Adding up the selected items is adding up all of them, where the others weigh nothing. */
  lemma {:induction false} SumOfFilter<T(!new)>(s: seq<T>, keep: T -> bool, f: T -> int, g: T -> int)
    requires forall x :: g(x) == if keep(x) then f(x) else 0
    ensures Sum(Filter(s, keep), f) == Sum(s, g)
  {
    if s != [] {
      var n := |s| - 1;
      SumOfFilter(s[..n], keep, f, g);
      var kept := Filter(s[..n], keep);
      if keep(s[n]) {
        assert (kept + [s[n]])[..|kept|] == kept;
      } else {
        assert Filter(s, keep) == kept;
      }
    }
  }

  lemma {:induction false} SumRemove<T>(s: seq<T>, f: T -> int, i: nat)
    requires i < |s|
    ensures Sum(s, f) == Sum(s[..i] + s[i + 1..], f) + f(s[i])
    decreases |s|
  {
    var n := |s| - 1;
    if i < n {
      SumRemove(s[..n], f, i);
      assert s[..n][..i] + s[..n][i + 1..] == (s[..i] + s[i + 1..])[..n - 1];
    } else {
      assert s[..i] + s[i + 1..] == s[..n];
    }
  }

  /** Replacing an item by one of the same weight does not show. */
  lemma SumUpdate<T>(s: seq<T>, f: T -> int, i: nat, x: T)
    requires i < |s| && f(x) == f(s[i])
    ensures Sum(s[i := x], f) == Sum(s, f)
  {
    SumRemove(s, f, i);
    SumRemove(s[i := x], f, i);
    assert s[i := x][..i] + s[i := x][i + 1..] == s[..i] + s[i + 1..];
  }

  /** The sum is one of a multiset: the order of the list does not matter. */
  lemma {:induction false} SumOfPermutation<T>(a: seq<T>, b: seq<T>, f: T -> int)
    requires multiset(a) == multiset(b)
    ensures Sum(a, f) == Sum(b, f)
    decreases |a|
  {
    if a == [] {
      assert |b| == |multiset(b)| == 0;
    } else {
      var n := |a| - 1;
      assert a[n] in multiset(b);
      var i :| 0 <= i < |b| && b[i] == a[n];
      RemoveAt(a, n);
      RemoveAt(b, i);
      assert a[..n] + a[n + 1..] == a[..n];
      SumOfPermutation(a[..n], b[..i] + b[i + 1..], f);
      SumRemove(b, f, i);
    }
  }

  lemma RemoveAt<T>(s: seq<T>, i: nat)
    requires i < |s|
    ensures multiset(s[..i] + s[i + 1..]) == multiset(s) - multiset{s[i]}
  {
    assert s == s[..i] + [s[i]] + s[i + 1..];
  }

  // ---- Logs ----

  /** Every entry of a log is sound, and each follows on the one before it. */
  ghost predicate Chain<T>(log: seq<T>, sound: T -> bool, follows: (T, T) -> bool) {
    log == [] ||
    var n := |log| - 1;
    Chain(log[..n], sound, follows) && sound(log[n]) && (n > 0 ==> follows(log[n - 1], log[n]))
  }

  lemma {:induction false} ChainAt<T>(log: seq<T>, sound: T -> bool, follows: (T, T) -> bool, i: nat)
    requires Chain(log, sound, follows) && i < |log|
    ensures sound(log[i]) && (i > 0 ==> follows(log[i - 1], log[i]))
    decreases |log|
  {
    if i < |log| - 1 {
      ChainAt(log[..|log| - 1], sound, follows, i);
    }
  }

  lemma ChainNext<T>(log: seq<T>, sound: T -> bool, follows: (T, T) -> bool, x: T)
    requires Chain(log, sound, follows) && sound(x) && (log != [] ==> follows(log[|log| - 1], x))
    ensures Chain(log + [x], sound, follows)
  {
    assert (log + [x])[..|log|] == log;
  }
}
