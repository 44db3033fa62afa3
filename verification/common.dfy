/** Generic helpers over sequences that stand in for the query primitives the
    data layer offers: `findFirst`/`findUnique` (Find), `where` filters (Filter),
    `orderBy ... 'desc'` (SortDesc) and fresh primary keys (NextId). */
module Common {

  datatype Option<+T> = None | Some(value: T)

  /** The first element of `xs` satisfying `p`, if any. */
  function Find<T>(xs: seq<T>, p: T -> bool): (r: Option<T>)
    ensures r.Some? ==> r.value in xs && p(r.value)
    ensures r.None? <==> forall x :: x in xs ==> !p(x)
    ensures r.Some? ==> exists i :: 0 <= i < |xs| && xs[i] == r.value && forall j :: 0 <= j < i ==> !p(xs[j])
  {
    if |xs| == 0 then None
    else if p(xs[0]) then Some(xs[0])
    else
      var r := Find(xs[1..], p);
      assert forall x :: x in xs[1..] ==> x in xs;
      assert r.Some? ==> exists i :: 0 <= i < |xs[1..]| && xs[1..][i] == r.value && forall j :: 0 <= j < i ==> !p(xs[1..][j]);
      r
  }

  /** Two sequences whose elements agree on `p` position by position have
      their first match at the same position. */
  lemma {:induction false} FindPointwise<T>(xs: seq<T>, ys: seq<T>, p: T -> bool)
    requires |xs| == |ys|
    requires forall k :: 0 <= k < |xs| ==> p(xs[k]) == p(ys[k])
    ensures Find(xs, p).Some? <==> Find(ys, p).Some?
    ensures Find(xs, p).Some? ==>
              exists k :: 0 <= k < |xs| && Find(xs, p).value == xs[k] && Find(ys, p).value == ys[k]
  {
    if |xs| > 0 && !p(xs[0]) {
      FindPointwise(xs[1..], ys[1..], p);
      if Find(xs, p).Some? {
        var k :| 0 <= k < |xs[1..]| && Find(xs[1..], p).value == xs[1..][k] && Find(ys[1..], p).value == ys[1..][k];
        assert Find(xs, p).value == xs[k + 1] && Find(ys, p).value == ys[k + 1];
      }
    }
  }

  /** The elements of `xs` satisfying `p`, with their multiplicities, in order. */
  function Filter<T(!new)>(xs: seq<T>, p: T -> bool): (r: seq<T>)
    ensures forall x :: multiset(r)[x] == if p(x) then multiset(xs)[x] else 0
    ensures forall x :: x in r <==> x in xs && p(x)
    ensures |r| <= |xs|
    ensures Distinct(xs) ==> Distinct(r)
  {
    if |xs| == 0 then []
    else
      var rest := Filter(xs[1..], p);
      assert xs == [xs[0]] + xs[1..];
      assert multiset(xs) == multiset{xs[0]} + multiset(xs[1..]);
      if p(xs[0]) then
        DistinctCons(xs, rest);
        assert multiset([xs[0]] + rest) == multiset{xs[0]} + multiset(rest);
        [xs[0]] + rest
      else
        assert Distinct(xs) ==> Distinct(xs[1..]);
        rest
  }

  lemma DistinctCons<T>(xs: seq<T>, rest: seq<T>)
    requires |xs| > 0
    requires forall x :: x in rest ==> x in xs[1..]
    requires Distinct(xs[1..]) ==> Distinct(rest)
    ensures Distinct(xs) ==> Distinct([xs[0]] + rest)
  {
    if Distinct(xs) {
      assert Distinct(xs[1..]);
      assert xs[0] !in xs[1..];
      var r := [xs[0]] + rest;
      forall i, j | 0 <= i < j < |r| ensures r[i] != r[j] {
        if i == 0 {
          assert r[j] in rest;
        } else {
          assert r[i] == rest[i - 1] && r[j] == rest[j - 1];
        }
      }
    }
  }

  /** No element occurs twice. */
  ghost predicate Distinct<T>(xs: seq<T>) {
    forall i, j :: 0 <= i < j < |xs| ==> xs[i] != xs[j]
  }

  /** A sequence without repetitions has as many elements as its set. */
  lemma {:induction false} DistinctCard<T>(xs: seq<T>)
    requires Distinct(xs)
    ensures |set x | x in xs| == |xs|
  {
    if |xs| > 0 {
      DistinctCard(xs[1..]);
      assert (set x | x in xs) == {xs[0]} + (set x | x in xs[1..]);
      assert xs[0] !in (set x | x in xs[1..]);
    }
  }

  /** `xs` is ordered by `key`, largest first. */
  ghost predicate SortedDesc<T>(xs: seq<T>, key: T -> int) {
    forall i, j :: 0 <= i < j < |xs| ==> key(xs[i]) >= key(xs[j])
  }

  /** Inserts `x` into a descending sequence in front of the first element
      whose key does not exceed its own. */
  function Insert<T>(x: T, xs: seq<T>, key: T -> int): (r: seq<T>)
    requires SortedDesc(xs, key)
    ensures SortedDesc(r, key)
    ensures multiset(r) == multiset(xs) + multiset{x}
  {
    if |xs| == 0 then [x]
    else if key(xs[0]) <= key(x) then [x] + xs
    else
      var rest := Insert(x, xs[1..], key);
      assert xs == [xs[0]] + xs[1..];
      BoundedByMultiset(rest, xs[1..], x, key(xs[0]), key);
      SortedCons(xs[0], rest, key);
      [xs[0]] + rest
  }

  /** Every element of a sequence with the same elements as `ys` plus `x` has
      a key of at most `k` when `x` and all of `ys` do. */
  lemma BoundedByMultiset<T>(rs: seq<T>, ys: seq<T>, x: T, k: int, key: T -> int)
    requires multiset(rs) == multiset(ys) + multiset{x}
    requires key(x) <= k
    requires forall y :: y in ys ==> key(y) <= k
    ensures forall r :: r in rs ==> key(r) <= k
  {
    forall r | r in rs ensures key(r) <= k {
      assert r in multiset(rs);
      assert r == x || r in multiset(ys);
    }
  }

  /** Prepending an element no smaller than the rest keeps a sequence descending. */
  lemma SortedCons<T>(a: T, rs: seq<T>, key: T -> int)
    requires SortedDesc(rs, key)
    requires forall r :: r in rs ==> key(r) <= key(a)
    ensures SortedDesc([a] + rs, key)
  {
  }

  /** Orders `xs` by `key`, largest first. */
  function SortDesc<T>(xs: seq<T>, key: T -> int): (r: seq<T>)
    ensures SortedDesc(r, key)
    ensures multiset(r) == multiset(xs)
    ensures |r| == |xs|
  {
    if |xs| == 0 then []
    else
      assert xs == [xs[0]] + xs[1..];
      var r := Insert(xs[0], SortDesc(xs[1..], key), key);
      assert |r| == |multiset(r)|;
      r
  }

  /** A key larger than every key in `ids`: the model's stand-in for the
      fresh primary key the database generates on `create`. */
  function NextId(ids: seq<nat>): (r: nat)
    ensures forall i :: i in ids ==> i < r
  {
    if |ids| == 0 then 0
    else
      var m := NextId(ids[1..]);
      assert forall i :: i in ids ==> i == ids[0] || i in ids[1..];
      if ids[0] + 1 > m then ids[0] + 1 else m
  }
}
