/** Datatypes and list, sorting and number facts that the models of the
    individual source files share. */
module Prelude {

  datatype Option<+T> = None | Some(value: T)

  datatype Result<+T, +E> = Ok(value: T) | Err(error: E)

  // ---- lists ------------------------------------------------------------

  /** Python's `[x for x in s if p(x)]`. */
  function Filter<T>(p: T -> bool, s: seq<T>): (r: seq<T>)
    ensures |r| <= |s|
  {
    if s == [] then []
    else if p(s[0]) then [s[0]] + Filter(p, s[1..])
    else Filter(p, s[1..])
  }

  /** Python's `[f(x) for x in s]`. */
  function Map<T, U>(f: T -> U, s: seq<T>): (r: seq<U>)
    ensures |r| == |s|
  {
    if s == [] then [] else [f(s[0])] + Map(f, s[1..])
  }

  lemma {:induction false} MapAppend<T, U>(f: T -> U, a: seq<T>, b: seq<T>)
    ensures Map(f, a + b) == Map(f, a) + Map(f, b)
  {
    if a == [] {
      assert a + b == b;
    } else {
      MapAppend(f, a[1..], b);
      assert (a + b)[1..] == a[1..] + b && (a + b)[0] == a[0];
    }
  }

  lemma MapSnoc<T, U>(f: T -> U, a: seq<T>, x: T)
    ensures Map(f, a + [x]) == Map(f, a) + [f(x)]
  {
    MapAppend(f, a, [x]);
    assert Map(f, [x]) == [f(x)] + Map(f, [x][1..]);
  }

  lemma {:induction false} MapAt<T, U>(f: T -> U, s: seq<T>, i: nat)
    requires i < |s|
    ensures Map(f, s)[i] == f(s[i])
  {
    if i == 0 {
    } else {
      MapAt(f, s[1..], i - 1);
    }
  }

  lemma MapMember<T, U>(f: T -> U, s: seq<T>, y: U)
    ensures y in Map(f, s) <==> exists i :: 0 <= i < |s| && y == f(s[i])
  {
    if y in Map(f, s) {
      var i :| 0 <= i < |s| && Map(f, s)[i] == y;
      MapAt(f, s, i);
    }
    if i :| 0 <= i < |s| && y == f(s[i]) {
      MapAt(f, s, i);
    }
  }

  lemma {:induction false} MapSame<T, U>(f: T -> U, g: T -> U, s: seq<T>)
    requires forall i :: 0 <= i < |s| ==> f(s[i]) == g(s[i])
    ensures Map(f, s) == Map(g, s)
  {
    forall i | 0 <= i < |s| ensures Map(f, s)[i] == Map(g, s)[i] {
      MapAt(f, s, i);
      MapAt(g, s, i);
    }
  }

  /** The loop that a Python list comprehension stands for. */
  method Collect<T, U>(f: T -> U, s: seq<T>) returns (r: seq<U>)
    ensures r == Map(f, s)
  {
    r := [];
    for i := 0 to |s|
      invariant r == Map(f, s[..i])
    {
      MapSnoc(f, s[..i], s[i]);
      assert s[..i + 1] == s[..i] + [s[i]];
      r := r + [f(s[i])];
    }
    assert s[..|s|] == s;
  }

  /** The lists f(x), one after the other. */
  function FlatMap<T, U>(f: T -> seq<U>, s: seq<T>): seq<U> {
    if s == [] then [] else f(s[0]) + FlatMap(f, s[1..])
  }

  lemma {:induction false} FlatMapAppend<T, U>(f: T -> seq<U>, a: seq<T>, b: seq<T>)
    ensures FlatMap(f, a + b) == FlatMap(f, a) + FlatMap(f, b)
  {
    if a == [] {
      assert a + b == b;
    } else {
      assert (a + b)[1..] == a[1..] + b && (a + b)[0] == a[0];
      FlatMapAppend(f, a[1..], b);
    }
  }

  lemma FlatMapSnoc<T, U>(f: T -> seq<U>, a: seq<T>, x: T)
    ensures FlatMap(f, a + [x]) == FlatMap(f, a) + f(x)
  {
    FlatMapAppend(f, a, [x]);
    assert [x][1..] == [];
    assert FlatMap(f, [x]) == f(x) + FlatMap(f, [x][1..]);
  }

  lemma NoMembers<T(!new)>(s: seq<T>)
    ensures (forall x :: x !in s) ==> s == []
  {
    if s != [] { assert s[0] in s; }
  }

  ghost predicate NoDup<T>(s: seq<T>) {
    forall i, j :: 0 <= i < j < |s| ==> s[i] != s[j]
  }

  lemma {:induction false} FilterMember<T>(p: T -> bool, s: seq<T>, x: T)
    ensures x in Filter(p, s) <==> x in s && p(x)
  {
    if s == [] {
    } else {
      FilterMember(p, s[1..], x);
    }
  }

  lemma FilterMembers<T(!new)>(p: T -> bool, s: seq<T>)
    ensures forall x :: x in Filter(p, s) <==> x in s && p(x)
  {
    forall x ensures x in Filter(p, s) <==> x in s && p(x) { FilterMember(p, s, x); }
  }

  lemma {:induction false} FilterAppend<T>(p: T -> bool, a: seq<T>, b: seq<T>)
    ensures Filter(p, a + b) == Filter(p, a) + Filter(p, b)
  {
    if a == [] {
      assert a + b == b;
    } else {
      var x, rest := a[0], Filter(p, a[1..]);
      assert (a + b)[1..] == a[1..] + b && (a + b)[0] == x;
      FilterAppend(p, a[1..], b);
      assert [x] + (rest + Filter(p, b)) == ([x] + rest) + Filter(p, b);
      assert Filter(p, a + b) == (if p(x) then [x] + (rest + Filter(p, b)) else rest + Filter(p, b));
    }
  }

  lemma FilterSnoc<T>(p: T -> bool, a: seq<T>, x: T)
    ensures Filter(p, a + [x]) == Filter(p, a) + if p(x) then [x] else []
  {
    FilterAppend(p, a, [x]);
    assert [x][1..] == [];
  }

  lemma {:induction false} FilterCount<T>(p: T -> bool, s: seq<T>, x: T)
    ensures multiset(Filter(p, s))[x] == if p(x) then multiset(s)[x] else 0
  {
    if s == [] {
    } else {
      FilterCount(p, s[1..], x);
      assert s == [s[0]] + s[1..];
    }
  }

  /** Filtering a permutation gives a permutation. */
  lemma FilterPermutation<T(!new)>(p: T -> bool, a: seq<T>, b: seq<T>)
    requires multiset(a) == multiset(b)
    ensures multiset(Filter(p, a)) == multiset(Filter(p, b))
  {
    forall x: T ensures multiset(Filter(p, a))[x] == multiset(Filter(p, b))[x] {
      FilterCount(p, a, x);
      FilterCount(p, b, x);
    }
  }

  lemma PermutationMembers<T(!new)>(a: seq<T>, b: seq<T>)
    requires multiset(a) == multiset(b)
    ensures |a| == |b|
    ensures forall x :: x in a <==> x in b
  {
    assert |multiset(a)| == |a| && |multiset(b)| == |b|;
    forall x ensures x in a <==> x in b {
      assert x in a <==> x in multiset(a);
      assert x in b <==> x in multiset(b);
    }
  }

  lemma HeadCount<T>(s: seq<T>, x: T)
    requires s != []
    ensures multiset(s)[x] == (if s[0] == x then 1 else 0) + multiset(s[1..])[x]
  {
    assert s == [s[0]] + s[1..];
  }

  lemma {:induction false} NoDupCount<T>(s: seq<T>)
    ensures NoDup(s) <==> forall x :: multiset(s)[x] <= 1
  {
    if s == [] {
    } else {
      var t := s[1..];
      NoDupCount(t);
      assert s == [s[0]] + t;
      if NoDup(s) {
        forall i, j | 0 <= i < j < |t| ensures t[i] != t[j] {
          assert s[i + 1] != s[j + 1];
        }
        assert s[0] !in t;
        forall x ensures multiset(s)[x] <= 1 { }
      }
      if forall x :: multiset(s)[x] <= 1 {
        assert multiset(s)[s[0]] == 1 + multiset(t)[s[0]];
        assert s[0] !in t;
        forall x ensures multiset(t)[x] <= 1 {
          assert multiset(s)[x] <= 1;
        }
        assert NoDup(t);
        forall i, j | 0 <= i < j < |s| ensures s[i] != s[j] {
          if i > 0 { assert t[i - 1] != t[j - 1]; } else { assert s[j] == t[j - 1]; }
        }
      }
    }
  }

  lemma NoDupPermutation<T>(a: seq<T>, b: seq<T>)
    requires NoDup(a) && multiset(a) == multiset(b)
    ensures NoDup(b)
  {
    NoDupCount(a);
    NoDupCount(b);
  }

  /** The first member of s with p. */
  function Find<T>(p: T -> bool, s: seq<T>): (r: Option<T>)
    ensures r.Some? ==> r.value in s && p(r.value)
  {
    if s == [] then None else if p(s[0]) then Some(s[0]) else Find(p, s[1..])
  }

  lemma {:induction false} FindHits<T>(p: T -> bool, s: seq<T>, x: T)
    requires x in s && p(x)
    ensures Find(p, s).Some?
  {
    if p(s[0]) {
    } else {
      FindHits(p, s[1..], x);
    }
  }

  /** Where at most one member has p, the listing order does not matter. */
  lemma FindPermutation<T>(p: T -> bool, a: seq<T>, b: seq<T>)
    requires multiset(a) == multiset(b)
    requires forall i, j :: 0 <= i < |a| && 0 <= j < |a| && p(a[i]) && p(a[j]) ==> a[i] == a[j]
    ensures Find(p, a) == Find(p, b)
  {
    var x, y := Find(p, a), Find(p, b);
    if x.Some? {
      PermutationMember(a, b, x.value);
      FindHits(p, b, x.value);
    }
    if y.Some? {
      PermutationMember(a, b, y.value);
      FindHits(p, a, y.value);
    }
  }

  lemma {:induction false} FindSame<T>(p: T -> bool, q: T -> bool, s: seq<T>)
    requires forall i :: 0 <= i < |s| ==> p(s[i]) == q(s[i])
    ensures Find(p, s) == Find(q, s)
  {
    if s == [] {
    } else {
      forall i | 0 <= i < |s[1..]| ensures p(s[1..][i]) == q(s[1..][i]) { assert s[1..][i] == s[i + 1]; }
      FindSame(p, q, s[1..]);
    }
  }

  lemma {:induction false} FilterSame<T>(p: T -> bool, q: T -> bool, s: seq<T>)
    requires forall i :: 0 <= i < |s| ==> p(s[i]) == q(s[i])
    ensures Filter(p, s) == Filter(q, s)
  {
    if s == [] {
    } else {
      forall i | 0 <= i < |s[1..]| ensures p(s[1..][i]) == q(s[1..][i]) { assert s[1..][i] == s[i + 1]; }
      FilterSame(p, q, s[1..]);
    }
  }

  lemma {:induction false} FilterTwice<T>(p: T -> bool, q: T -> bool, both: T -> bool, s: seq<T>)
    requires forall i :: 0 <= i < |s| ==> both(s[i]) == (q(s[i]) && p(s[i]))
    ensures Filter(p, Filter(q, s)) == Filter(both, s)
  {
    if s == [] {
    } else {
      forall i | 0 <= i < |s[1..]| ensures both(s[1..][i]) == (q(s[1..][i]) && p(s[1..][i])) {
        assert s[1..][i] == s[i + 1];
      }
      FilterTwice(p, q, both, s[1..]);
      assert ([s[0]] + Filter(q, s[1..]))[1..] == Filter(q, s[1..]);
    }
  }

  lemma {:induction false} FilterNoDup<T>(p: T -> bool, s: seq<T>)
    requires NoDup(s)
    ensures NoDup(Filter(p, s))
  {
    if s == [] {
    } else {
      assert NoDup(s[1..]);
      FilterNoDup(p, s[1..]);
      FilterMember(p, s[1..], s[0]);
      assert s[0] !in s[1..];
    }
  }

  lemma {:induction false} FlatMapMember<T, U>(f: T -> seq<U>, s: seq<T>, y: U)
    ensures y in FlatMap(f, s) <==> exists i :: 0 <= i < |s| && y in f(s[i])
  {
    if s == [] {
    } else {
      FlatMapMember(f, s[1..], y);
      assert y in FlatMap(f, s[1..]) ==> exists i :: 0 <= i < |s| && y in f(s[i]) by {
        if y in FlatMap(f, s[1..]) {
          var i :| 0 <= i < |s[1..]| && y in f(s[1..][i]);
          assert y in f(s[i + 1]);
        }
      }
      if i :| 0 <= i < |s| && y in f(s[i]) {
        assert i > 0 ==> s[i] == s[1..][i - 1];
      }
    }
  }

  lemma {:induction false} FlatMapSame<T, U>(f: T -> seq<U>, g: T -> seq<U>, s: seq<T>)
    requires forall i :: 0 <= i < |s| ==> f(s[i]) == g(s[i])
    ensures FlatMap(f, s) == FlatMap(g, s)
  {
    if s == [] {
    } else {
      forall i | 0 <= i < |s[1..]| ensures f(s[1..][i]) == g(s[1..][i]) { assert s[1..][i] == s[i + 1]; }
      FlatMapSame(f, g, s[1..]);
    }
  }

  // ---- a dict as the list of its values, in insertion order ------------------

  /** Python's `d[key(x)] = x`. */
  function Put<T>(key: T -> string, d: seq<T>, x: T): seq<T> {
    if d == [] then [x]
    else if key(d[0]) == key(x) then [x] + d[1..]
    else [d[0]] + Put(key, d[1..], x)
  }

  function PutAll<T>(key: T -> string, d: seq<T>, more: seq<T>): seq<T>
    decreases |more|
  {
    if more == [] then d else PutAll(key, Put(key, d, more[0]), more[1..])
  }

  lemma {:induction false} PutAllAppend<T>(key: T -> string, d: seq<T>, a: seq<T>, b: seq<T>)
    ensures PutAll(key, d, a + b) == PutAll(key, PutAll(key, d, a), b)
    decreases |a|
  {
    if a == [] {
      assert a + b == b;
    } else {
      assert (a + b)[1..] == a[1..] + b && (a + b)[0] == a[0];
      PutAllAppend(key, Put(key, d, a[0]), a[1..], b);
    }
  }

  /** Members with the same key are the same member. */
  ghost predicate Keyed<T>(key: T -> string, s: seq<T>) {
    forall i, j :: 0 <= i < |s| && 0 <= j < |s| && key(s[i]) == key(s[j]) ==> s[i] == s[j]
  }

  ghost predicate DistinctKeys<T>(key: T -> string, s: seq<T>) {
    forall i, j :: 0 <= i < j < |s| ==> key(s[i]) != key(s[j])
  }

  lemma {:induction false} PutDistinct<T>(key: T -> string, d: seq<T>, x: T)
    requires DistinctKeys(key, d)
    ensures DistinctKeys(key, Put(key, d, x))
    ensures forall i :: 0 <= i < |Put(key, d, x)| ==>
      key(Put(key, d, x)[i]) == key(x) || exists j :: 0 <= j < |d| && key(Put(key, d, x)[i]) == key(d[j])
  {
    if d == [] || key(d[0]) == key(x) {
    } else {
      PutDistinct(key, d[1..], x);
      var r := Put(key, d[1..], x);
      forall i | 0 <= i < |r| ensures key(r[i]) != key(d[0]) {
        if key(r[i]) != key(x) {
          var j :| 0 <= j < |d[1..]| && key(r[i]) == key(d[1..][j]);
          assert d[1..][j] == d[j + 1];
        }
      }
      assert Put(key, d, x) == [d[0]] + r;
      forall i | 0 <= i < |Put(key, d, x)|
        ensures key(Put(key, d, x)[i]) == key(x) || exists j :: 0 <= j < |d| && key(Put(key, d, x)[i]) == key(d[j])
      {
        if i > 0 && key(r[i - 1]) != key(x) {
          var j :| 0 <= j < |d[1..]| && key(r[i - 1]) == key(d[1..][j]);
          assert d[1..][j] == d[j + 1];
        }
      }
    }
  }

  lemma {:induction false} PutMember<T>(key: T -> string, d: seq<T>, x: T, y: T)
    requires forall i :: 0 <= i < |d| && key(d[i]) == key(x) ==> d[i] == x
    ensures y in Put(key, d, x) <==> y in d || y == x
  {
    if d == [] {
    } else {
      assert forall i :: 0 <= i < |d[1..]| ==> d[1..][i] == d[i + 1];
      PutMember(key, d[1..], x, y);
    }
  }

  lemma {:induction false} PutAllDistinct<T>(key: T -> string, d: seq<T>, more: seq<T>)
    requires DistinctKeys(key, d)
    ensures DistinctKeys(key, PutAll(key, d, more))
    decreases |more|
  {
    if more == [] {
    } else {
      PutDistinct(key, d, more[0]);
      PutAllDistinct(key, Put(key, d, more[0]), more[1..]);
    }
  }

  /** Nothing is lost or overwritten by another value. */
  lemma {:induction false} PutAllMember<T(!new)>(key: T -> string, d: seq<T>, more: seq<T>, y: T)
    requires Keyed(key, d + more)
    ensures y in PutAll(key, d, more) <==> y in d || y in more
    decreases |more|
  {
    if more == [] {
    } else {
      var all, x := d + more, more[0];
      assert all[|d|] == x;
      assert forall i :: 0 <= i < |d| ==> all[i] == d[i];
      assert forall i :: 0 <= i < |more| ==> all[|d| + i] == more[i];
      PutMember(key, d, x, y);
      var next := Put(key, d, x) + more[1..];
      forall i | 0 <= i < |next| ensures next[i] in all {
        if i < |Put(key, d, x)| {
          PutMember(key, d, x, next[i]);
        } else {
          assert next[i] == more[i - |Put(key, d, x)| + 1];
        }
      }
      PutAllMember(key, Put(key, d, x), more[1..], y);
    }
  }

  lemma {:induction false} PutKeeps<T>(key: T -> string, d: seq<T>, x: T, y: T)
    requires y in d && key(y) != key(x)
    ensures y in Put(key, d, x)
  {
    if y == d[0] {
    } else {
      PutKeeps(key, d[1..], x, y);
    }
    assert key(d[0]) == key(x) ==> y in d[1..];
  }

  lemma {:induction false} PutHas<T>(key: T -> string, d: seq<T>, x: T)
    ensures x in Put(key, d, x)
  {
    if d == [] || key(d[0]) == key(x) {
    } else {
      PutHas(key, d[1..], x);
    }
  }

  lemma {:induction false} PutAllKeeps<T>(key: T -> string, d: seq<T>, more: seq<T>, y: T)
    requires y in d && forall i :: 0 <= i < |more| ==> key(more[i]) != key(y)
    ensures y in PutAll(key, d, more)
    decreases |more|
  {
    if more == [] {
    } else {
      PutKeeps(key, d, more[0], y);
      PutAllKeeps(key, Put(key, d, more[0]), more[1..], y);
    }
  }

  /** The last value put under a key is the one found there. */
  lemma {:induction false} PutAllHas<T>(key: T -> string, d: seq<T>, more: seq<T>, k: nat)
    requires DistinctKeys(key, more) && k < |more|
    ensures more[k] in PutAll(key, d, more)
    decreases |more|
  {
    if k == 0 {
      PutHas(key, d, more[0]);
      PutAllKeeps(key, Put(key, d, more[0]), more[1..], more[0]);
    } else {
      PutAllHas(key, Put(key, d, more[0]), more[1..], k - 1);
    }
  }

  lemma {:induction false} PutKeys<T>(key: T -> string, d: seq<T>, x: T, k: string)
    ensures (exists y :: y in Put(key, d, x) && key(y) == k) <==> key(x) == k || exists y :: y in d && key(y) == k
  {
    if d == [] {
      assert x in [x];
    } else if key(d[0]) == key(x) {
      assert Put(key, d, x)[0] == x && Put(key, d, x)[1..] == d[1..];
      assert forall y :: y in d[1..] <==> y in Put(key, d, x)[1..];
    } else {
      PutKeys(key, d[1..], x, k);
      var r := Put(key, d, x);
      assert forall y :: y in r <==> y == d[0] || y in Put(key, d[1..], x);
      assert forall y :: y in d <==> y == d[0] || y in d[1..];
    }
  }

  lemma {:induction false} PutAllKeys<T>(key: T -> string, d: seq<T>, more: seq<T>, k: string)
    ensures (exists y :: y in PutAll(key, d, more) && key(y) == k) <==>
      (exists y :: y in d && key(y) == k) || exists y :: y in more && key(y) == k
    decreases |more|
  {
    if more == [] {
    } else {
      PutKeys(key, d, more[0], k);
      PutAllKeys(key, Put(key, d, more[0]), more[1..], k);
      assert forall y :: y in more <==> y == more[0] || y in more[1..];
    }
  }

  lemma DistinctKeysConcat<T>(key: T -> string, a: seq<T>, b: seq<T>)
    requires DistinctKeys(key, a) && DistinctKeys(key, b)
    requires forall x, y :: x in a && y in b ==> key(x) != key(y)
    ensures DistinctKeys(key, a + b)
  {
    var all := a + b;
    forall i, j | 0 <= i < j < |all| ensures key(all[i]) != key(all[j]) {
      assert all[i] == if i < |a| then a[i] else b[i - |a|];
      assert all[j] == if j < |a| then a[j] else b[j - |a|];
    }
  }

  lemma DistinctMap<T, U>(key: U -> string, f: T -> U, s: seq<T>)
    requires forall i, j :: 0 <= i < j < |s| ==> key(f(s[i])) != key(f(s[j]))
    ensures DistinctKeys(key, Map(f, s))
  {
    forall i, j | 0 <= i < j < |s| ensures key(Map(f, s)[i]) != key(Map(f, s)[j]) {
      MapAt(f, s, i);
      MapAt(f, s, j);
    }
  }

  lemma DistinctKeysSame<T>(key: T -> string, s: seq<T>, x: T, y: T)
    requires DistinctKeys(key, s) && x in s && y in s && key(x) == key(y)
    ensures x == y
  {
    var i :| 0 <= i < |s| && s[i] == x;
    var j :| 0 <= j < |s| && s[j] == y;
    assert key(s[i]) == key(s[j]);
  }

  lemma DistinctKeysNoDup<T>(key: T -> string, s: seq<T>)
    requires DistinctKeys(key, s)
    ensures NoDup(s)
  {
    forall i, j | 0 <= i < j < |s| ensures s[i] != s[j] { assert key(s[i]) != key(s[j]); }
  }

  // ---- stable sorting ---------------------------------------------------

  ghost predicate TotalPreorder<T(!new)>(le: (T, T) -> bool) {
    && (forall x, y :: le(x, y) || le(y, x))
    && (forall x, y, z :: le(x, y) && le(y, z) ==> le(x, z))
  }

  /** No two different members of s compare equal. */
  ghost predicate Strict<T>(le: (T, T) -> bool, s: seq<T>) {
    forall x, y :: x in s && y in s && le(x, y) && le(y, x) ==> x == y
  }

  lemma SubsetStrict<T>(le: (T, T) -> bool, a: seq<T>, s: seq<T>)
    requires Strict(le, s) && forall i :: 0 <= i < |a| ==> a[i] in s
    ensures Strict(le, a)
  {}

  ghost predicate Sorted<T>(le: (T, T) -> bool, s: seq<T>) {
    forall i, j :: 0 <= i < j < |s| ==> le(s[i], s[j])
  }

  function Insert<T>(le: (T, T) -> bool, x: T, s: seq<T>): (r: seq<T>)
    ensures multiset(r) == multiset(s) + multiset{x}
  {
    if s == [] || le(x, s[0]) then [x] + s
    else
      assert s == [s[0]] + s[1..];
      [s[0]] + Insert(le, x, s[1..])
  }

  /** Python's `sorted(s, key=...)`: ascending and stable. */
  function Sort<T>(le: (T, T) -> bool, s: seq<T>): (r: seq<T>)
    ensures multiset(r) == multiset(s)
    ensures |r| == |s|
  {
    if s == [] then []
    else
      assert s == [s[0]] + s[1..];
      var r := Insert(le, s[0], Sort(le, s[1..]));
      assert |r| == |multiset(r)| == |multiset(s)| == |s|;
      r
  }

  lemma {:induction false} InsertSorted<T(!new)>(le: (T, T) -> bool, x: T, s: seq<T>)
    requires TotalPreorder(le) && Sorted(le, s)
    ensures Sorted(le, Insert(le, x, s))
  {
    if s == [] || le(x, s[0]) {
    } else {
      InsertSorted(le, x, s[1..]);
      var r := Insert(le, x, s[1..]);
      PermutationMembers(r, s[1..] + [x]);
      forall y | y in r ensures le(s[0], y) { }
      assert forall j :: 0 <= j < |r| ==> r[j] in r;
    }
  }

  lemma {:induction false} SortSorted<T(!new)>(le: (T, T) -> bool, s: seq<T>)
    requires TotalPreorder(le)
    ensures Sorted(le, Sort(le, s))
  {
    if s == [] {
    } else {
      SortSorted(le, s[1..]);
      InsertSorted(le, s[0], Sort(le, s[1..]));
    }
  }

  lemma SortMembers<T(!new)>(le: (T, T) -> bool, s: seq<T>)
    ensures forall x :: x in Sort(le, s) <==> x in s
  {
    PermutationMembers(Sort(le, s), s);
  }

  lemma PermutationMember<T>(a: seq<T>, b: seq<T>, x: T)
    requires multiset(a) == multiset(b)
    ensures |a| == |b| && (x in a <==> x in b)
  {
    assert |multiset(a)| == |a| && |multiset(b)| == |b|;
    assert x in a <==> x in multiset(a);
    assert x in b <==> x in multiset(b);
  }

  lemma PermutationTail<T>(a: seq<T>, b: seq<T>)
    requires a != [] && b != [] && a[0] == b[0] && multiset(a) == multiset(b)
    ensures multiset(a[1..]) == multiset(b[1..])
  {
    assert a == [a[0]] + a[1..] && b == [b[0]] + b[1..];
    assert multiset(a[1..]) == multiset(a) - multiset{a[0]};
    assert multiset(b[1..]) == multiset(b) - multiset{b[0]};
  }

  lemma SortedFirst<T>(le: (T, T) -> bool, a: seq<T>, x: T)
    requires Sorted(le, a) && x in a
    ensures a[0] == x || le(a[0], x)
  {
    var i :| 0 <= i < |a| && a[i] == x;
  }

  /** A list whose members all compare different has one sorted arrangement. */
  lemma {:induction false} SortedUnique<T>(le: (T, T) -> bool, a: seq<T>, b: seq<T>)
    requires Strict(le, a)
    requires Sorted(le, a) && Sorted(le, b) && multiset(a) == multiset(b)
    ensures a == b
  {
    if a == [] {
      assert |multiset(b)| == |b|;
    } else {
      PermutationMember(a, b, a[0]);
      PermutationMember(a, b, b[0]);
      SortedFirst(le, a, b[0]);
      SortedFirst(le, b, a[0]);
      PermutationTail(a, b);
      assert forall x :: x in a[1..] ==> x in a;
      SortedUnique(le, a[1..], b[1..]);
      assert a == [a[0]] + a[1..] && b == [b[0]] + b[1..];
    }
  }

  /** Sorting forgets the listing order. */
  lemma SortPermutation<T(!new)>(le: (T, T) -> bool, a: seq<T>, b: seq<T>)
    requires TotalPreorder(le) && Strict(le, a) && multiset(a) == multiset(b)
    ensures Sort(le, a) == Sort(le, b)
  {
    SortSorted(le, a);
    SortSorted(le, b);
    forall i | 0 <= i < |a| ensures Sort(le, a)[i] in a {
      PermutationMember(Sort(le, a), a, Sort(le, a)[i]);
    }
    SubsetStrict(le, Sort(le, a), a);
    SortedUnique(le, Sort(le, a), Sort(le, b));
  }

  lemma {:induction false} FilterSorted<T>(le: (T, T) -> bool, p: T -> bool, s: seq<T>)
    requires Sorted(le, s)
    ensures Sorted(le, Filter(p, s))
  {
    if s == [] {
    } else {
      FilterSorted(le, p, s[1..]);
      var r := Filter(p, s[1..]);
      forall j | 0 <= j < |r| ensures le(s[0], r[j]) {
        FilterMember(p, s[1..], r[j]);
      }
    }
  }

  /** Lists without repeats and with the same members are permutations. */
  lemma SameMembers<T(!new)>(a: seq<T>, b: seq<T>)
    requires NoDup(a) && NoDup(b)
    requires forall x :: x in a <==> x in b
    ensures multiset(a) == multiset(b)
  {
    NoDupCount(a);
    NoDupCount(b);
    forall x: T ensures multiset(a)[x] == multiset(b)[x] {
      assert x in a <==> x in multiset(a);
      assert x in b <==> x in multiset(b);
    }
  }

  // ---- strings ----------------------------------------------------------

  /** Python's `a <= b` on strings: lexicographic by code point. */
  predicate StrLe(a: string, b: string) {
    a == [] || (b != [] && (a[0] < b[0] || (a[0] == b[0] && StrLe(a[1..], b[1..]))))
  }

  lemma {:induction false} StrLeTotal(a: string, b: string)
    ensures StrLe(a, b) || StrLe(b, a)
  {
    if a == [] || b == [] || a[0] != b[0] {
    } else {
      StrLeTotal(a[1..], b[1..]);
    }
  }

  lemma {:induction false} StrLeTransitive(a: string, b: string, c: string)
    requires StrLe(a, b) && StrLe(b, c)
    ensures StrLe(a, c)
  {
    if a == [] || a[0] != b[0] || b[0] != c[0] {
    } else {
      StrLeTransitive(a[1..], b[1..], c[1..]);
    }
  }

  lemma {:induction false} StrLeAntisymmetric(a: string, b: string)
    requires StrLe(a, b) && StrLe(b, a)
    ensures a == b
  {
    if a == [] {
    } else {
      StrLeAntisymmetric(a[1..], b[1..]);
      assert a == [a[0]] + a[1..] && b == [b[0]] + b[1..];
    }
  }

  lemma StrLeOrder()
    ensures TotalPreorder(StrLe)
  {
    forall a, b ensures StrLe(a, b) || StrLe(b, a) { StrLeTotal(a, b); }
    forall a, b, c | StrLe(a, b) && StrLe(b, c) ensures StrLe(a, c) { StrLeTransitive(a, b, c); }
  }

  predicate StartsWith(s: string, prefix: string) {
    prefix <= s
  }

  predicate EndsWith(s: string, suffix: string) {
    |suffix| <= |s| && s[|s| - |suffix|..] == suffix
  }

  /** Python's `sep.join(parts)`. */
  function Join(sep: string, parts: seq<string>): string {
    if |parts| == 0 then ""
    else if |parts| == 1 then parts[0]
    else parts[0] + sep + Join(sep, parts[1..])
  }

  /** Sorting depends on the members alone. */
  lemma SortByMembers<T(!new)>(le: (T, T) -> bool, a: seq<T>, b: seq<T>)
    requires TotalPreorder(le) && Strict(le, a)
    requires NoDup(a) && NoDup(b) && forall x :: x in a <==> x in b
    ensures Sort(le, a) == Sort(le, b)
  {
    SameMembers(a, b);
    SortPermutation(le, a, b);
  }

  // ---- splitting ----------------------------------------------------------

  /** Python's `s.split(c)`. */
  function Split(c: char, s: string): (r: seq<string>)
    ensures r != []
  {
    if s == "" then [""]
    else
      var rest := Split(c, s[1..]);
      if s[0] == c then [""] + rest else [[s[0]] + rest[0]] + rest[1..]
  }

  lemma {:induction false} SplitWord(c: char, w: string)
    requires c !in w
    ensures Split(c, w) == [w]
  {
    if w == "" {
    } else {
      SplitWord(c, w[1..]);
      assert w == [w[0]] + w[1..];
    }
  }

  lemma {:induction false} SplitAtSeparator(c: char, w: string, rest: string)
    requires c !in w
    ensures Split(c, w + [c] + rest) == [w] + Split(c, rest)
  {
    var s := w + [c] + rest;
    if w == "" {
      assert s[1..] == rest;
    } else {
      SplitAtSeparator(c, w[1..], rest);
      assert s[1..] == w[1..] + [c] + rest;
      assert w == [w[0]] + w[1..];
    }
  }

  lemma {:induction false} SplitJoin(c: char, parts: seq<string>)
    requires parts != [] && forall p :: p in parts ==> c !in p
    ensures Split(c, Join([c], parts)) == parts
  {
    if |parts| == 1 {
      SplitWord(c, parts[0]);
    } else {
      SplitJoin(c, parts[1..]);
      SplitAtSeparator(c, parts[0], Join([c], parts[1..]));
      assert parts == [parts[0]] + parts[1..];
    }
  }

  lemma SplitHead(c: char, s: string)
    requires s != ""
    ensures var rest := Split(c, s[1..]);
      Split(c, s) == if s[0] == c then [""] + rest else [[s[0]] + rest[0]] + rest[1..]
  {}

  lemma SplitEmpty(c: char)
    ensures Split(c, "") == [""]
  {}

  lemma HeadAppend(first: string, ra: seq<string>, rb: seq<string>)
    requires ra != []
    ensures (ra + rb)[0] == ra[0] && (ra + rb)[1..] == ra[1..] + rb
    ensures [first] + (ra + rb) == ([first] + ra) + rb
    ensures [first + ra[0]] + (ra[1..] + rb) == ([first + ra[0]] + ra[1..]) + rb
  {}

  lemma {:induction false} SplitConcat(c: char, a: string, b: string)
    ensures Split(c, a + [c] + b) == Split(c, a) + Split(c, b)
  {
    hide *;
    var s := a + [c] + b;
    SplitHead(c, s);
    if a == "" {
      assert s[0] == c && s[1..] == b;
      SplitEmpty(c);
    } else {
      SplitHead(c, a);
      SplitConcat(c, a[1..], b);
      assert s[1..] == a[1..] + [c] + b && s[0] == a[0];
      HeadAppend("", Split(c, a[1..]), Split(c, b));
      HeadAppend([a[0]], Split(c, a[1..]), Split(c, b));
    }
  }

  /** Joining what was split gives the text back. */
  lemma {:induction false} JoinOfSplit(c: char, s: string)
    ensures Join([c], Split(c, s)) == s
  {
    if s == "" {
    } else {
      var rest := Split(c, s[1..]);
      JoinOfSplit(c, s[1..]);
      if s[0] == c {
        assert ([""] + rest)[1..] == rest;
      } else {
        assert ([[s[0]] + rest[0]] + rest[1..])[1..] == rest[1..];
      }
      assert s == [s[0]] + s[1..];
    }
  }

  lemma {:induction false} SplitLacks(c: char, s: string)
    ensures forall w :: w in Split(c, s) ==> c !in w
  {
    if s == "" {
    } else {
      SplitLacks(c, s[1..]);
      var rest := Split(c, s[1..]);
      assert rest[0] in rest && forall w :: w in rest[1..] ==> w in rest;
    }
  }

  // ---- ASCII text ---------------------------------------------------------

  predicate IsSpace(c: char) { c == ' ' || '\t' <= c <= '\r' || 0x1C as char <= c <= 0x1F as char }

  predicate IsControl(c: char) { c < ' ' || c == 0x7F as char }

  /** One word: some text without white space. */
  predicate OneWord(s: string) { s != "" && forall i :: 0 <= i < |s| ==> !IsSpace(s[i]) }

  /** What `$` of a regular expression also ends at: the text without a final
      line break. */
  function BeforeBreak(s: string): string { if EndsWith(s, "\n") then s[..|s| - 1] else s }

  function StripLeft(s: string): string {
    if s != "" && IsSpace(s[0]) then StripLeft(s[1..]) else s
  }

  function StripRight(s: string): string {
    if s != "" && IsSpace(s[|s| - 1]) then StripRight(s[..|s| - 1]) else s
  }

  /** Python's `s.strip()` on ASCII text. */
  function Strip(s: string): string { StripRight(StripLeft(s)) }

  /** The characters whose lower case is an ASCII letter (U+212A is KELVIN SIGN). */
  function Lower(c: char): char {
    if 'A' <= c <= 'Z' then (c as int + 32) as char else if c == 0x212A as char then 'k' else c
  }

  function LowerAll(s: string): string {
    seq(|s|, i requires 0 <= i < |s| => Lower(s[i]))
  }

  /** The characters whose upper case is one ASCII letter (U+0131 is the
      dotless i, U+017F the long s). */
  function Upper(c: char): char {
    if 'a' <= c <= 'z' then (c as int - 32) as char
    else if c == 0x131 as char then 'I'
    else if c == 0x17F as char then 'S'
    else c
  }

  function UpperAll(s: string): string { Map(Upper, s) }

  /** Python's `part in s`. */
  predicate Contains(s: string, part: string) {
    StartsWith(s, part) || (s != "" && Contains(s[1..], part))
  }

  // ---- decimal numbers --------------------------------------------------

  predicate IsDigit(c: char) { '0' <= c <= '9' }

  function DigitChar(d: nat): (c: char)
    requires d < 10
    ensures IsDigit(c)
  {
    ('0' as int + d) as char
  }

  function DigitValue(c: char): (d: nat)
    requires IsDigit(c)
    ensures d < 10
  {
    c as int - '0' as int
  }

  predicate AllDigits(s: string) {
    forall i :: 0 <= i < |s| ==> IsDigit(s[i])
  }

  /** Python's `str(n)` for n >= 0. */
  function Decimal(n: nat): (s: string)
    ensures |s| >= 1 && AllDigits(s)
    ensures |s| > 1 ==> s[0] != '0'
    ensures s[0] == '0' ==> n == 0
  {
    if n < 10 then [DigitChar(n)] else Decimal(n / 10) + [DigitChar(n % 10)]
  }

  /** Python's `str(n)`. */
  function IntText(n: int): string {
    if n < 0 then "-" + Decimal(-n) else Decimal(n)
  }

  /** Python's `int(s)` for a string of ASCII digits. */
  function ParseDigits(s: string): nat
    requires AllDigits(s)
  {
    if s == "" then 0 else 10 * ParseDigits(s[..|s| - 1]) + DigitValue(s[|s| - 1])
  }

  /** Python's `int(s)` on ASCII text: surrounding space, a sign, digits with
      single underscores between them; None stands for ValueError. */
  function PythonInt(s: string): Option<int> {
    var t := Strip(s);
    var signed := t != "" && (t[0] == '+' || t[0] == '-');
    var body := if signed then t[1..] else t;
    var digits := Filter((c: char) => c != '_', body);
    if body != "" && body[0] != '_' && body[|body| - 1] != '_' && AllDigits(digits)
       && forall i :: 0 <= i < |body| - 1 ==> !(body[i] == '_' && body[i + 1] == '_')
    then
      var magnitude: int := ParseDigits(digits);
      Some(if signed && t[0] == '-' then -magnitude else magnitude)
    else None
  }

  lemma {:induction false} DecimalParses(n: nat)
    ensures ParseDigits(Decimal(n)) == n
  {
    if n < 10 {
      assert Decimal(n)[..0] == "";
    } else {
      DecimalParses(n / 10);
      assert Decimal(n)[..|Decimal(n)| - 1] == Decimal(n / 10);
    }
  }

  /** A number as it is printed: an optional minus, digits without leading zeros. */
  function ReadInt(text: string): Option<int> {
    var digits := if text != "" && text[0] == '-' then text[1..] else text;
    if digits != "" && AllDigits(digits) && (|digits| > 1 ==> digits[0] != '0') then
      var magnitude: int := ParseDigits(digits);
      Some(if text[0] == '-' then -magnitude else magnitude)
    else None
  }

  /** Printed numbers read back. */
  lemma IntTextReads(n: int)
    ensures ReadInt(IntText(n)) == Some(n)
    ensures IntText(n) != "" && (IntText(n)[0] == '-' || IsDigit(IntText(n)[0]))
  {
    var m: nat := if n < 0 then -n else n;
    DecimalParses(m);
    var text := IntText(n);
    assert IsDigit(Decimal(m)[0]);
    assert n < 0 ==> text[1..] == Decimal(m);
  }
}
