/** Sequence facts shared by the models: Python comprehensions, `dict.fromkeys`
    and dictionaries that collect rows under a key in insertion order. */
module Sequences {

  /** The list a loop or comprehension builds by appending `f(x)` for every x. */
  function FlatMap<T, R>(s: seq<T>, f: T -> seq<R>): (r: seq<R>) {
    if s == [] then [] else FlatMap(s[..|s| - 1], f) + f(s[|s| - 1])
  }

  lemma {:induction false} FlatMapAppend<T, R>(a: seq<T>, b: seq<T>, f: T -> seq<R>)
    ensures FlatMap(a + b, f) == FlatMap(a, f) + FlatMap(b, f)
    decreases |b|
  {
    if b == [] {
      assert a + b == a;
    } else {
      var c := b[..|b| - 1];
      FlatMapAppend(a, c, f);
      assert (a + b)[..|a + b| - 1] == a + c;
      assert (a + b)[|a + b| - 1] == b[|b| - 1];
    }
  }

  lemma FlatMapStep<T, R>(s: seq<T>, i: nat, f: T -> seq<R>)
    requires i < |s|
    ensures FlatMap(s[..i + 1], f) == FlatMap(s[..i], f) + f(s[i])
  {
    assert s[..i + 1][..i] == s[..i];
  }

  lemma {:induction false} FlatMapMembers<T, R>(s: seq<T>, f: T -> seq<R>)
    ensures forall x :: x in FlatMap(s, f) <==> exists i :: 0 <= i < |s| && x in f(s[i])
  {
    if s != [] {
      var t := s[..|s| - 1];
      FlatMapMembers(t, f);
      forall x ensures x in FlatMap(s, f) <==> exists i :: 0 <= i < |s| && x in f(s[i]) {
        if i :| 0 <= i < |s| && x in f(s[i]) {
          assert i < |t| ==> t[i] == s[i];
        }
        if x in FlatMap(t, f) {
          var i :| 0 <= i < |t| && x in f(t[i]);
          assert x in f(s[i]);
        }
      }
    }
  }

  /** Where a member of the output comes from. */
  lemma {:induction false} FlatMapSource<T, R>(s: seq<T>, f: T -> seq<R>, x: R) returns (i: nat)
    requires x in FlatMap(s, f)
    ensures i < |s| && x in f(s[i])
  {
    if x in f(s[|s| - 1]) {
      i := |s| - 1;
    } else {
      i := FlatMapSource(s[..|s| - 1], f, x);
    }
  }

  lemma {:induction false} FlatMapEmpty<T, R>(s: seq<T>, f: T -> seq<R>)
    ensures FlatMap(s, f) == [] <==> forall i :: 0 <= i < |s| ==> f(s[i]) == []
  {
    if s != [] {
      FlatMapEmpty(s[..|s| - 1], f);
      assert forall i :: 0 <= i < |s| - 1 ==> s[..|s| - 1][i] == s[i];
    }
  }

  lemma {:induction false} FlatMapAgree<T, R>(s: seq<T>, f: T -> seq<R>, g: T -> seq<R>)
    requires forall i :: 0 <= i < |s| ==> f(s[i]) == g(s[i])
    ensures FlatMap(s, f) == FlatMap(s, g)
  {
    if s != [] {
      assert forall i :: 0 <= i < |s| - 1 ==> s[..|s| - 1][i] == s[i];
      FlatMapAgree(s[..|s| - 1], f, g);
    }
  }

  function Keep<T>(p: T -> bool): (f: T -> seq<T>) {
    x => if p(x) then [x] else []
  }

  function Filter<T>(s: seq<T>, p: T -> bool): (r: seq<T>) {
    FlatMap(s, Keep(p))
  }

  lemma FilterMembers<T>(s: seq<T>, p: T -> bool)
    ensures forall x :: x in Filter(s, p) <==> x in s && p(x)
  {
    FlatMapMembers(s, Keep(p));
  }

  /** Elements that contribute nothing may be dropped beforehand. */
  lemma {:induction false} FlatMapIgnores<T, R>(s: seq<T>, p: T -> bool, f: T -> seq<R>)
    requires forall x :: x in s && !p(x) ==> f(x) == []
    ensures FlatMap(Filter(s, p), f) == FlatMap(s, f)
  {
    if s != [] {
      var t, x := s[..|s| - 1], s[|s| - 1];
      FlatMapIgnores(t, p, f);
      FlatMapAppend(Filter(t, p), Keep(p)(x), f);
      assert Filter(s, p) == Filter(t, p) + Keep(p)(x);
      if p(x) {
        assert [x][..0] == [];
        assert FlatMap([x], f) == f(x);
      }
    }
  }

  lemma FlatMapOne<T, R>(x: T, f: T -> seq<R>)
    ensures FlatMap([x], f) == f(x)
  {
    assert [x][..0] == [];
  }

  /** Taking one element out of the input takes its contribution out of the output. */
  lemma FlatMapRemove<T, R>(a: seq<T>, x: T, b: seq<T>, f: T -> seq<R>)
    ensures multiset(FlatMap(a + [x] + b, f)) == multiset(FlatMap(a + b, f)) + multiset(f(x))
  {
    hide FlatMap;
    FlatMapAppend(a + [x], b, f);
    FlatMapAppend(a, [x], f);
    FlatMapAppend(a, b, f);
    FlatMapOne(x, f);
  }

  lemma SplitPermutation<T>(s: seq<T>, t: seq<T>) returns (k: nat)
    requires s != [] && multiset(s) == multiset(t)
    ensures k < |t| && t[k] == s[|s| - 1]
    ensures t == t[..k] + [t[k]] + t[k + 1..]
    ensures multiset(s[..|s| - 1]) == multiset(t[..k] + t[k + 1..])
  {
    var n := |s| - 1;
    assert s == s[..n] + [s[n]];
    assert s[n] in multiset(t);
    k :| 0 <= k < |t| && t[k] == s[n];
    var a, b, x := t[..k], t[k + 1..], s[n];
    assert t == a + [x] + b;
    calc {
      multiset(s[..n]);
      multiset(s) - multiset{x};
      multiset(a + [x] + b) - multiset{x};
      multiset(a) + multiset{x} + multiset(b) - multiset{x};
      multiset(a) + multiset(b);
      multiset(a + b);
    }
  }

  /** A permuted input gives a permuted output. */
  lemma {:induction false} FlatMapPermutes<T, R>(s: seq<T>, t: seq<T>, f: T -> seq<R>)
    requires multiset(s) == multiset(t)
    ensures multiset(FlatMap(s, f)) == multiset(FlatMap(t, f))
    decreases |s|
  {
    if s == [] {
      assert |multiset(t)| == 0;
      assert t == [];
    } else {
      hide FlatMap;
      var n := |s| - 1;
      var k := SplitPermutation(s, t);
      FlatMapPermutes(s[..n], t[..k] + t[k + 1..], f);
      FlatMapRemove(t[..k], t[k], t[k + 1..], f);
      FlatMapAppend(s[..n], [s[n]], f);
      FlatMapOne(s[n], f);
      assert s == s[..n] + [s[n]];
    }
  }

  lemma PermutedMembers<T>(s: seq<T>, t: seq<T>)
    requires multiset(s) == multiset(t)
    ensures |s| == |t| && forall x :: x in s <==> x in t
  {
    assert |multiset(s)| == |s| && |multiset(t)| == |t|;
    forall x ensures x in s <==> x in t {
      assert x in s <==> x in multiset(s);
      assert x in t <==> x in multiset(t);
    }
  }

  ghost predicate Unique<T>(s: seq<T>) {
    forall i, j :: 0 <= i < j < |s| ==> s[i] != s[j]
  }

  /** `list(dict.fromkeys(s))`: first occurrences, in order. */
  function Dedup<T(==, !new)>(s: seq<T>): (r: seq<T>)
    ensures Unique(r)
    ensures forall x :: x in r <==> x in s
  {
    if s == [] then []
    else
      var d, x := Dedup(s[..|s| - 1]), s[|s| - 1];
      assert s == s[..|s| - 1] + [x];
      if x in d then d else d + [x]
  }

  /** The first occurrences, in the order in which they appear. */
  lemma {:induction false} DedupPrefix<T(!new)>(s: seq<T>, k: nat)
    requires k <= |s|
    ensures Dedup(s[..k]) <= Dedup(s)
  {
    if k == |s| {
      assert s[..k] == s;
    } else {
      var n := |s| - 1;
      DedupPrefix(s[..n], k);
      assert s[..n][..k] == s[..k];
    }
  }

  function HasKey<T>(key: T -> string, k: string): (p: T -> bool) {
    x => key(x) == k
  }

  /** The list stored under `k` after `rows.setdefault(key(x), []).append(x)` for every x. */
  function Rows<T>(s: seq<T>, key: T -> string, k: string): (r: seq<T>) {
    Filter(s, HasKey(key, k))
  }

  function KeyOf<T>(key: T -> string): (f: T -> seq<string>) {
    x => [key(x)]
  }

  function Keys<T>(s: seq<T>, key: T -> string): (r: seq<string>) {
    FlatMap(s, KeyOf(key))
  }

  lemma {:induction false} KeysAt<T>(s: seq<T>, key: T -> string)
    ensures |Keys(s, key)| == |s| && forall i :: 0 <= i < |s| ==> Keys(s, key)[i] == key(s[i])
  {
    if s != [] {
      KeysAt(s[..|s| - 1], key);
    }
  }

  lemma RowsMembers<T>(s: seq<T>, key: T -> string, k: string)
    ensures forall x :: x in Rows(s, key, k) <==> x in s && key(x) == k
  {
    FilterMembers(s, HasKey(key, k));
  }

  /** One row at most for every key of a duplicate-free list: the rows' keys are duplicate-free. */
  lemma {:induction false} UniqueRowKeys<T>(order: seq<string>, f: string -> seq<T>, key: T -> string)
    requires Unique(order)
    requires forall k :: k in order ==> |f(k)| <= 1 && forall x :: x in f(k) ==> key(x) == k
    ensures Unique(Keys(FlatMap(order, f), key))
  {
    if order != [] {
      var n := |order| - 1;
      var prefix := order[..n];
      var before, all := FlatMap(prefix, f), FlatMap(order, f);
      UniqueRowKeys(prefix, f, key);
      KeysAt(before, key);
      KeysAt(all, key);
      forall i | 0 <= i < |before| ensures key(all[i]) == key(before[i]) == Keys(before, key)[i] != order[n] {
        assert before[i] in before;
        var m := FlatMapSource(prefix, f, before[i]);
        assert prefix[m] == order[m] && key(before[i]) == order[m];
      }
      if |all| > |before| {
        assert all[|before|] in f(order[n]);
      }
    }
  }

  /** Filtering keeps lists duplicate-free. */
  lemma {:induction false} UniqueFilter<T>(s: seq<T>, p: T -> bool)
    requires Unique(s)
    ensures Unique(Filter(s, p))
  {
    if s != [] {
      UniqueFilter(s[..|s| - 1], p);
      FilterMembers(s[..|s| - 1], p);
    }
  }

  lemma {:induction false} UniqueFilterKeys<T>(s: seq<T>, p: T -> bool, key: T -> string)
    requires Unique(Keys(s, key))
    ensures Unique(Keys(Filter(s, p), key))
  {
    if s != [] {
      var t := s[..|s| - 1];
      KeysAt(s, key);
      KeysAt(t, key);
      UniqueFilterKeys(t, p, key);
      var before, all := Filter(t, p), Filter(s, p);
      KeysAt(before, key);
      KeysAt(all, key);
      forall i | 0 <= i < |before|
        ensures key(all[i]) == key(before[i]) == Keys(before, key)[i] != key(s[|s| - 1])
      {
        var m := FlatMapSource(t, Keep(p), before[i]);
        assert t[m] == before[i];
        assert Keys(s, key)[m] == key(s[m]);
      }
    }
  }

  /** The insertion-ordered dictionary loop itself. */
  method GroupBy<T>(s: seq<T>, key: T -> string) returns (order: seq<string>, rows: map<string, seq<T>>)
    ensures order == Dedup(Keys(s, key))
    ensures forall k :: k in rows <==> k in order
    ensures forall k :: k in rows ==> rows[k] == Rows(s, key, k)
  {
    hide FlatMap, Dedup, Rows, Keys;
    order, rows := [], map[];
    GroupByStart(s, key);
    for i := 0 to |s|
      invariant order == Dedup(Keys(s[..i], key))
      invariant forall k :: k in rows <==> k in order
      invariant forall k :: k in rows ==> rows[k] == Rows(s[..i], key, k)
      invariant forall k :: k !in rows ==> Rows(s[..i], key, k) == []
    {
      var k := key(s[i]);
      GroupByStep(s, i, key);
      if k !in rows {
        order := order + [k];
        rows := rows[k := []];
      }
      rows := rows[k := rows[k] + [s[i]]];
    }
    assert s[..|s|] == s;
  }

  lemma GroupByStart<T>(s: seq<T>, key: T -> string)
    ensures Dedup(Keys(s[..0], key)) == []
    ensures forall k :: Rows(s[..0], key, k) == []
  {
    assert s[..0] == [];
  }

  lemma GroupByStep<T>(s: seq<T>, i: nat, key: T -> string)
    requires i < |s|
    ensures var d, k := Dedup(Keys(s[..i], key)), key(s[i]);
      Dedup(Keys(s[..i + 1], key)) == if k in d then d else d + [k]
    ensures forall j ::
      Rows(s[..i + 1], key, j) == if j == key(s[i]) then Rows(s[..i], key, j) + [s[i]] else Rows(s[..i], key, j)
  {
    FlatMapStep(s, i, KeyOf(key));
    assert Keys(s[..i + 1], key)[..|Keys(s[..i + 1], key)| - 1] == Keys(s[..i], key);
    forall j
      ensures Rows(s[..i + 1], key, j) ==
        if j == key(s[i]) then Rows(s[..i], key, j) + [s[i]] else Rows(s[..i], key, j)
    {
      FlatMapStep(s, i, Keep(HasKey(key, j)));
    }
  }
}
