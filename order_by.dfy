/** The meaning of `ORDER BY key LIMIT k` in PostgreSQL: ascending order with
    NULL keys last, then the first k rows. Rows with equal keys may come back
    in any order, so results are specified by a relation, and one ordering
    (a stable insertion sort) is shown to meet it. */
module OrderBy {

  import opened Results

  /** A row together with its sort key; `None` is SQL NULL. */
  datatype Keyed<T> = Keyed(row: T, key: Option<real>)

  /** `a` may come before `b` under ORDER BY ... ASC (NULLS LAST by default). */
  predicate NoLater(a: Option<real>, b: Option<real>)
  {
    b.None? || (a.Some? && a.value <= b.value)
  }

  predicate Ascending<T>(s: seq<Keyed<T>>)
  {
    forall i, j :: 0 <= i < j < |s| ==> NoLater(s[i].key, s[j].key)
  }

  lemma {:induction false} FirstNoLaterThanRest<T>(y: Keyed<T>, x: Keyed<T>, s: seq<Keyed<T>>, r: seq<Keyed<T>>)
    requires forall i :: 0 <= i < |s| ==> NoLater(y.key, s[i].key)
    requires NoLater(y.key, x.key)
    requires multiset(r) == multiset(s) + multiset{x}
    ensures forall j :: 0 <= j < |r| ==> NoLater(y.key, r[j].key)
  {
    forall j | 0 <= j < |r| ensures NoLater(y.key, r[j].key) {
      assert r[j] in multiset(r);
      if r[j] != x {
        assert r[j] in multiset(s);
        var i :| 0 <= i < |s| && s[i] == r[j];
      }
    }
  }

  function Insert<T(==)>(x: Keyed<T>, s: seq<Keyed<T>>): (r: seq<Keyed<T>>)
    requires Ascending(s)
    ensures Ascending(r)
    ensures multiset(r) == multiset(s) + multiset{x}
  {
    if s == [] || NoLater(x.key, s[0].key) then [x] + s
    else
      var rest := Insert(x, s[1..]);
      assert s == [s[0]] + s[1..];
      FirstNoLaterThanRest(s[0], x, s[1..], rest);
      [s[0]] + rest
  }

  /** One admissible ORDER BY: a stable insertion sort. */
  function Sort<T(==)>(s: seq<Keyed<T>>): (r: seq<Keyed<T>>)
    ensures Ascending(r)
    ensures multiset(r) == multiset(s)
  {
    if s == [] then []
    else
      assert s == [s[0]] + s[1..];
      Insert(s[0], Sort(s[1..]))
  }

  /** LIMIT k on an ordered result. */
  function Limit<T>(s: seq<T>, k: nat): (r: seq<T>)
    ensures |r| == Min(k, |s|) && r == s[..|r|]
  {
    s[..Min(k, |s|)]
  }

  /** What `ORDER BY key LIMIT k` may return for `input`: `min(k, |input|)`
      of its rows, ascending, and no row left out sorts before a row kept. */
  predicate IsOrderByLimit<T(==,!new)>(input: seq<Keyed<T>>, k: nat, out: seq<Keyed<T>>)
  {
    && |out| == Min(k, |input|)
    && Ascending(out)
    && multiset(out) <= multiset(input)
    && forall x, i :: x in multiset(input) - multiset(out) && 0 <= i < |out| ==> NoLater(out[i].key, x.key)
  }

  lemma DroppedSortsLater<T>(sorted: seq<Keyed<T>>, n: nat, x: Keyed<T>, i: nat)
    requires Ascending(sorted) && n <= |sorted| && i < n
    requires x in multiset(sorted[n..])
    ensures NoLater(sorted[i].key, x.key)
  {
    assert x in sorted[n..];
    var j :| 0 <= j < |sorted[n..]| && sorted[n..][j] == x;
    assert sorted[n + j] == x;
  }

  lemma {:induction false} SortThenLimit<T(!new)>(input: seq<Keyed<T>>, k: nat)
    ensures IsOrderByLimit(input, k, Limit(Sort(input), k))
  {
    var sorted := Sort(input);
    var out := Limit(sorted, k);
    var dropped := sorted[|out|..];
    assert sorted == out + dropped;
    assert multiset(sorted) == multiset(out) + multiset(dropped);
    assert multiset(out) <= multiset(input);
    assert multiset(input) - multiset(out) == multiset(dropped);
    assert Ascending(out) by {
      forall i, j | 0 <= i < j < |out| ensures NoLater(out[i].key, out[j].key) {
        assert out[i] == sorted[i] && out[j] == sorted[j];
      }
    }
    forall x, i | x in multiset(input) - multiset(out) && 0 <= i < |out|
      ensures NoLater(out[i].key, x.key)
    {
      DroppedSortsLater(sorted, |out|, x, i);
    }
  }
}
