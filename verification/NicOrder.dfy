/** The ordered guest NIC names of a device (jobs/lib/platform_facts.py):
    list position = netN index = guest enumeration order. */
module NicOrder {
  import opened Prelude

  /** A platform either fixes its list, or names position 0 and a pattern
      `prefix{n}suffix` for positions 1, 2, ... */
  datatype Facts =
    | FixedList(order: seq<string>)
    | Pattern(mgmt: string, prefix: string, suffix: string)

  datatype Refusal = MgmtMissing | Unmatched(names: seq<string>) | NotContiguous(found: seq<nat>)

  /** The name of dataplane interface n. */
  function Dataplane(f: Facts, n: nat): string
    requires f.Pattern?
  {
    f.prefix + Decimal(n) + f.suffix
  }

  /** What is left of a name between the prefix and the suffix; empty when the
      two overlap, as a Python slice whose start is past its stop. */
  function Middle(f: Facts, name: string): string
    requires f.Pattern? && StartsWith(name, f.prefix) && EndsWith(name, f.suffix)
  {
    if |f.prefix| <= |name| - |f.suffix| then name[|f.prefix|..|name| - |f.suffix|] else ""
  }

  /** The dataplane index a name stands for: canonical digits only, so "01"
      never aliases index 1. */
  function Index(f: Facts, name: string): Option<nat>
    requires f.Pattern?
  {
    if StartsWith(name, f.prefix) && EndsWith(name, f.suffix) then
      var middle := Middle(f, name);
      if middle != "" && AllDigits(middle) && Decimal(ParseDigits(middle)) == middle
      then Some(ParseDigits(middle)) else None
    else None
  }

  /** Reading an index and printing a name are inverse to each other. */
  lemma IndexInvertsDataplane(f: Facts, name: string, n: nat)
    requires f.Pattern?
    ensures Index(f, name) == Some(n) <==> name == Dataplane(f, n)
  {
    if name == Dataplane(f, n) {
      assert name[..|f.prefix|] == f.prefix;
      assert name[|name| - |f.suffix|..] == f.suffix;
      assert Middle(f, name) == Decimal(n);
      DecimalParses(n);
    }
    if Index(f, name) == Some(n) {
      assert name == name[..|f.prefix|] + Middle(f, name) + name[|name| - |f.suffix|..];
    }
  }

  /** Every interface but the management one, in listing order. */
  function DataNames(f: Facts, names: seq<string>): seq<string>
    requires f.Pattern?
  {
    Filter((x: string) => x != f.mgmt, names)
  }

  predicate NatLe(a: nat, b: nat) { a <= b }

  lemma NatLeOrders(s: seq<nat>)
    ensures TotalPreorder(NatLe) && Strict(NatLe, s)
  {}

  function Names(f: Facts, indices: seq<nat>): (r: seq<string>)
    requires f.Pattern?
    ensures |r| == |indices|
    ensures forall k :: 0 <= k < |r| ==> r[k] == Dataplane(f, indices[k])
  {
    if indices == [] then [] else [Dataplane(f, indices[0])] + Names(f, indices[1..])
  }

  function UpTo(n: nat): (r: seq<nat>)
    ensures |r| == n && forall k :: 0 <= k < n ==> r[k] == k + 1
  {
    seq(n, k requires 0 <= k < n => k + 1)
  }

  /** The dataplane names 1..n in index order. */
  function DataplaneNames(f: Facts, n: nat): (r: seq<string>)
    requires f.Pattern?
    ensures |r| == n && forall k :: 0 <= k < n ==> r[k] == Dataplane(f, k + 1)
  {
    Names(f, UpTo(n))
  }

  /** A name occurs among the printed names as often as its index among the indices. */
  lemma {:induction false} NamesCount(f: Facts, indices: seq<nat>, name: string)
    requires f.Pattern?
    ensures multiset(Names(f, indices))[name]
         == match Index(f, name) { case Some(n) => multiset(indices)[n] case None => 0 }
  {
    if indices == [] {
    } else {
      NamesCount(f, indices[1..], name);
      HeadCount(Names(f, indices), name);
      IndexInvertsDataplane(f, name, indices[0]);
      match Index(f, name)
      case Some(n) => HeadCount(indices, n);
      case None =>
    }
  }

  lemma NamesPermutation(f: Facts, a: seq<nat>, b: seq<nat>)
    requires f.Pattern?
    ensures multiset(Names(f, a)) == multiset(Names(f, b)) <==> multiset(a) == multiset(b)
  {
    if multiset(a) == multiset(b) {
      forall x: string ensures multiset(Names(f, a))[x] == multiset(Names(f, b))[x] {
        NamesCount(f, a, x);
        NamesCount(f, b, x);
      }
    }
    if multiset(Names(f, a)) == multiset(Names(f, b)) {
      forall n: nat ensures multiset(a)[n] == multiset(b)[n] {
        IndexInvertsDataplane(f, Dataplane(f, n), n);
        NamesCount(f, a, Dataplane(f, n));
        NamesCount(f, b, Dataplane(f, n));
      }
    }
  }

  /** `sorted(indices) == [1..n]` says exactly that indices is a permutation of 1..n. */
  lemma SortedIsUpTo(indices: seq<nat>)
    ensures Sort(NatLe, indices) == UpTo(|indices|) <==> multiset(indices) == multiset(UpTo(|indices|))
  {
    var expected := UpTo(|indices|);
    NatLeOrders(indices);
    NatLeOrders(expected);
    if multiset(indices) == multiset(expected) {
      SortPermutation(NatLe, indices, expected);
      SortSorted(NatLe, expected);
      SortedUnique(NatLe, expected, Sort(NatLe, expected));
    }
  }

  /** A pattern device is accepted when it has the management interface and its
      other interfaces are, in some order, exactly dataplane 1..n. */
  ghost predicate Acceptable(f: Facts, names: seq<string>)
    requires f.Pattern?
  {
    var data := DataNames(f, names);
    f.mgmt in names && multiset(data) == multiset(DataplaneNames(f, |data|))
  }

  lemma ContiguousIffAcceptable(f: Facts, names: seq<string>, indices: seq<nat>)
    requires f.Pattern? && f.mgmt in names
    requires DataNames(f, names) == Names(f, indices)
    ensures Sort(NatLe, indices) == UpTo(|indices|) <==> Acceptable(f, names)
  {
    var n := |indices|;
    SortedIsUpTo(indices);
    NamesPermutation(f, indices, UpTo(n));
  }

  lemma AcceptableIsMatched(f: Facts, names: seq<string>, name: string)
    requires f.Pattern? && Acceptable(f, names)
    requires name in names && name != f.mgmt
    ensures Index(f, name).Some?
  {
    var data := DataNames(f, names);
    var expected := DataplaneNames(f, |data|);
    FilterMember((x: string) => x != f.mgmt, names, name);
    PermutationMember(data, expected, name);
    var k :| 0 <= k < |expected| && expected[k] == name;
    IndexInvertsDataplane(f, name, 1 + k);
  }

  /** Interfaces that are neither management nor on the pattern. */
  function UnmatchedNames(f: Facts, names: seq<string>): seq<string>
    requires f.Pattern?
  {
    Filter((x: string) => x != f.mgmt && Index(f, x).None?, names)
  }

  function MatchedNames(f: Facts, names: seq<string>): seq<string>
    requires f.Pattern?
  {
    Filter((x: string) => x != f.mgmt && Index(f, x).Some?, names)
  }

  lemma ClassifyStep(f: Facts, names: seq<string>, name: string)
    requires f.Pattern?
    ensures UnmatchedNames(f, names + [name]) == UnmatchedNames(f, names)
              + if name != f.mgmt && Index(f, name).None? then [name] else []
    ensures MatchedNames(f, names + [name]) == MatchedNames(f, names)
              + if name != f.mgmt && Index(f, name).Some? then [name] else []
  {
    FilterSnoc((x: string) => x != f.mgmt && Index(f, x).None?, names, name);
    FilterSnoc((x: string) => x != f.mgmt && Index(f, x).Some?, names, name);
  }

  lemma NamesStep(f: Facts, indices: seq<nat>, n: nat, name: string)
    requires f.Pattern? && Index(f, name) == Some(n)
    ensures Names(f, indices + [n]) == Names(f, indices) + [name]
  {
    IndexInvertsDataplane(f, name, n);
  }

  /** The loop of resolve_nic_order that sorts the names into canonical indices
      and names that match nothing. */
  method Classify(f: Facts, names: seq<string>) returns (indices: seq<nat>, unmatched: seq<string>)
    requires f.Pattern?
    ensures unmatched == UnmatchedNames(f, names)
    ensures Names(f, indices) == MatchedNames(f, names)
  {
    indices, unmatched := [], [];
    for i := 0 to |names|
      invariant unmatched == UnmatchedNames(f, names[..i])
      invariant Names(f, indices) == MatchedNames(f, names[..i])
    {
      var name := names[i];
      assert names[..i + 1] == names[..i] + [name];
      ClassifyStep(f, names[..i], name);
      if name != f.mgmt {
        var index := Index(f, name);
        if index.Some? {
          NamesStep(f, indices, index.value, name);
          indices := indices + [index.value];
        } else {
          unmatched := unmatched + [name];
        }
      }
    }
    assert names[..|names|] == names;
  }

  lemma UnmatchedIsRefused(f: Facts, names: seq<string>)
    requires f.Pattern? && UnmatchedNames(f, names) != []
    ensures !Acceptable(f, names)
  {
    var name := UnmatchedNames(f, names)[0];
    FilterMember((x: string) => x != f.mgmt && Index(f, x).None?, names, name);
    if Acceptable(f, names) {
      AcceptableIsMatched(f, names, name);
    }
  }

  lemma AllMatched(f: Facts, names: seq<string>)
    requires f.Pattern? && UnmatchedNames(f, names) == []
    ensures MatchedNames(f, names) == DataNames(f, names)
  {
    forall x | x in names && x != f.mgmt ensures Index(f, x).Some? {
      FilterMember((y: string) => y != f.mgmt && Index(f, y).None?, names, x);
    }
    FilterAgree((x: string) => x != f.mgmt && Index(f, x).Some?, (x: string) => x != f.mgmt, names);
  }

  /** jobs/lib/platform_facts.py resolve_nic_order: succeeds exactly on
      contiguous index sets, with position k holding index k. */
  method Resolve(f: Facts, names: seq<string>) returns (r: Result<seq<string>, Refusal>)
    ensures f.FixedList? ==> r == Ok(f.order)
    ensures f.Pattern? ==> (r.Ok? <==> Acceptable(f, names))
    ensures f.Pattern? && r.Ok? ==>
              r.value == [f.mgmt] + DataplaneNames(f, |DataNames(f, names)|)
    ensures f.Pattern? ==> (r == Err(MgmtMissing) <==> f.mgmt !in names)
    ensures f.Pattern? && r.Err? && r.error.Unmatched? ==>
              r.error.names == UnmatchedNames(f, names) != []
    ensures f.Pattern? && r.Err? && r.error.NotContiguous? ==> UnmatchedNames(f, names) == []
  {
    if f.FixedList? {
      return Ok(f.order);
    }
    var indices, unmatched := Classify(f, names);
    if f.mgmt !in names {
      return Err(MgmtMissing);
    }
    if unmatched != [] {
      UnmatchedIsRefused(f, names);
      return Err(Unmatched(unmatched));
    }
    AllMatched(f, names);
    ContiguousIffAcceptable(f, names, indices);
    if Sort(NatLe, indices) != UpTo(|indices|) {
      return Err(NotContiguous(Sort(NatLe, indices)));
    }
    return Ok([f.mgmt] + DataplaneNames(f, |indices|));
  }

  lemma {:induction false} FilterAgree(p: string -> bool, q: string -> bool, s: seq<string>)
    requires forall x :: x in s ==> (p(x) <==> q(x))
    ensures Filter(p, s) == Filter(q, s)
  {
    if s == [] {
    } else {
      assert s[0] in s && forall x :: x in s[1..] ==> x in s;
      FilterAgree(p, q, s[1..]);
    }
  }

  /** For duplicate-free interface names the resolved order is a duplicate-free
      rearrangement of the device's interfaces: no modelled NIC is dropped and
      none is invented. */
  lemma ResolvedIsPermutation(f: Facts, names: seq<string>)
    requires f.Pattern? && NoDup(names) && Acceptable(f, names)
    ensures var r := [f.mgmt] + DataplaneNames(f, |DataNames(f, names)|);
            NoDup(r) && multiset(r) == multiset(names)
  {
    var r := [f.mgmt] + DataplaneNames(f, |DataNames(f, names)|);
    NoDupCount(names);
    forall x ensures multiset(r)[x] == multiset(names)[x] {
      FilterCount((y: string) => y != f.mgmt, names, x);
    }
    NoDupPermutation(names, r);
  }

  /** Conversely, duplicate-free names that are mgmt plus prefix 1..n in any
      order are accepted. */
  lemma PermutationIsAcceptable(f: Facts, names: seq<string>, n: nat)
    requires f.Pattern? && NoDup(names)
    requires multiset(names) == multiset([f.mgmt] + DataplaneNames(f, n))
    ensures Acceptable(f, names) && |DataNames(f, names)| == n
  {
    var full := [f.mgmt] + DataplaneNames(f, n);
    var data := DataNames(f, names);
    PermutationMembers(names, full);
    assert f.mgmt == full[0];
    NoDupCount(names);
    forall x ensures multiset(data)[x] == multiset(DataplaneNames(f, n))[x] {
      FilterCount((y: string) => y != f.mgmt, names, x);
      assert multiset(full)[x] == multiset([f.mgmt])[x] + multiset(DataplaneNames(f, n))[x];
    }
    PermutationMembers(data, DataplaneNames(f, n));
  }
}
