/** What the capacity rule of the storage layout picks: the one set of equal
    drives that is strictly smaller (or larger) than every other. */
module StoragePick {
  import opened Prelude
  import opened StorageLayout

  /** a is at the picked end, strictly before b. */
  predicate Beyond(select: Select, a: Drive, b: Drive) {
    if select.Smallest? then Capacity(a) < Capacity(b) else Capacity(a) > Capacity(b)
  }

  ghost function SetOf(s: seq<Drive>): set<Drive> { set d | d in s }

  /** p holds n drives of one size, strictly smaller (or larger) than all others. */
  ghost predicate IsExtreme(free: set<Drive>, select: Select, n: nat, p: set<Drive>) {
    && p <= free
    && |p| == n
    && (forall d, e :: d in p && e in p ==> Capacity(d) == Capacity(e))
    && (forall d, e :: d in p && e in free - p ==> Beyond(select, d, e))
  }

  lemma {:induction false} SetSize(s: seq<Drive>)
    requires NoDup(s)
    ensures |SetOf(s)| == |s|
  {
    if s == [] {
    } else {
      assert NoDup(s[1..]);
      SetSize(s[1..]);
      assert forall i :: 0 <= i < |s[1..]| ==> s[1..][i] == s[i + 1];
      assert SetOf(s) == {s[0]} + SetOf(s[1..]);
      assert s[0] !in SetOf(s[1..]);
    }
  }

  lemma DriveOrder()
    ensures TotalPreorder(DriveLe)
  {
    forall a, b ensures DriveLe(a, b) || DriveLe(b, a) { StrLeTotal(a.id, b.id); }
    forall a, b, c | DriveLe(a, b) && DriveLe(b, c) ensures DriveLe(a, c) {
      if Capacity(a) == Capacity(b) == Capacity(c) { StrLeTransitive(a.id, b.id, c.id); }
    }
  }

  lemma CutSplits(s: seq<Drive>, cut: nat)
    requires NoDup(s) && cut <= |s|
    ensures NoDup(s[..cut]) && NoDup(s[cut..])
    ensures SetOf(s[..cut]) !! SetOf(s[cut..]) && SetOf(s[..cut]) + SetOf(s[cut..]) == SetOf(s)
  {
    var a, b := s[..cut], s[cut..];
    assert forall i :: 0 <= i < |a| ==> a[i] == s[i];
    assert forall j :: 0 <= j < |b| ==> b[j] == s[cut + j];
    forall d ensures d in s <==> d in a || d in b {
      if d in s {
        var i :| 0 <= i < |s| && s[i] == d;
        assert if i < cut then a[i] == d else b[i - cut] == d;
      }
    }
  }

  lemma PickSplits(s: seq<Drive>, select: Select, n: nat)
    requires NoDup(s)
    ensures var (pick, rest) := Pick(s, select, n);
      NoDup(pick) && SetOf(pick) !! SetOf(rest) && SetOf(pick) + SetOf(rest) == SetOf(s)
        && |pick| == if n < |s| then n else |s|
  {
    var k := if n < |s| then n else |s|;
    CutSplits(s, if select.Smallest? then k else |s| - k);
  }

  lemma PickOrder(s: seq<Drive>, select: Select, n: nat, d: Drive, e: Drive)
    requires Sorted(DriveLe, s)
    ensures d in Pick(s, select, n).0 && e in Pick(s, select, n).1 ==>
      if select.Smallest? then DriveLe(d, e) else DriveLe(e, d)
  {
    var k := if n < |s| then n else |s|;
    var cut := if select.Smallest? then k else |s| - k;
    var x, y := if select.Smallest? then d else e, if select.Smallest? then e else d;
    if x in s[..cut] && y in s[cut..] {
      var i :| 0 <= i < cut && s[i] == x;
      var j :| 0 <= j < |s[cut..]| && s[cut..][j] == y;
      assert DriveLe(s[i], s[cut + j]);
    }
  }

  lemma ExtremeBeyond(free: set<Drive>, select: Select, n: nat, p: set<Drive>, d: Drive, e: Drive)
    requires IsExtreme(free, select, n, p)
    ensures d in p && e in free && e !in p ==> Beyond(select, d, e)
  {
    assert d in p && e in free && e !in p ==> e in free - p;
  }

  /** An extreme set is what the rule picks from the sorted list. */
  lemma ExtremeIsPick(s: seq<Drive>, select: Select, n: nat, p: set<Drive>)
    requires NoDup(s) && Sorted(DriveLe, s) && IsExtreme(SetOf(s), select, n, p)
    ensures SetOf(Pick(s, select, n).0) == p
  {
    hide IsExtreme, Pick;
    var (pick, rest) := Pick(s, select, n);
    PickSplits(s, select, n);
    SetSize(s);
    SetSize(pick);
    ExtremeSize(s, select, n, p);
    forall d | d in SetOf(pick) ensures d in p {
      if d !in p {
        Outside(SetOf(pick), p, d);
        var e :| e in p && e !in SetOf(pick);
        assert e in rest;
        PickOrder(s, select, n, d, e);
        ExtremeBeyond(SetOf(s), select, n, p, e, d);
      }
    }
    Same(SetOf(pick), p);
  }

  lemma ExtremeSize(s: seq<Drive>, select: Select, n: nat, p: set<Drive>)
    requires NoDup(s) && IsExtreme(SetOf(s), select, n, p)
    ensures p <= SetOf(s) && |p| == n <= |s|
  {
    SetSize(s);
    Subset(p, SetOf(s));
  }

  lemma Subset(a: set<Drive>, b: set<Drive>)
    requires a <= b
    ensures |a| <= |b|
  {
    assert b == a + (b - a);
    assert |b| == |a| + |b - a|;
  }

  lemma Same(a: set<Drive>, b: set<Drive>)
    requires a <= b && |a| == |b|
    ensures a == b
  {
    assert |b - a| == |b| - |a|;
    assert b - a == {};
  }

  /** Sets of one size that differ, differ in both directions. */
  lemma Outside(a: set<Drive>, b: set<Drive>, x: Drive)
    requires |a| == |b| && x in a && x !in b
    ensures exists y :: y in b && y !in a
  {
    if forall y :: y in b ==> y in a {
      Same(b, a);
    }
  }

  /** The equal-size and ambiguity checks accept exactly the extreme sets. */
  lemma ChecksAcceptExtremes(s: seq<Drive>, select: Select, n: nat)
    requires NoDup(s) && Sorted(DriveLe, s) && n >= 1
    ensures var (pick, rest) := Pick(s, select, n);
      |s| >= n && Equal(pick) && !Shared(pick, rest) <==> exists p :: IsExtreme(SetOf(s), select, n, p)
    ensures var (pick, rest) := Pick(s, select, n);
      |s| >= n && Equal(pick) && !Shared(pick, rest) ==> IsExtreme(SetOf(s), select, n, SetOf(pick))
  {
    var (pick, rest) := Pick(s, select, n);
    PickSplits(s, select, n);
    if |s| >= n && Equal(pick) && !Shared(pick, rest) {
      SetSize(pick);
      forall d, e | d in SetOf(pick) && e in SetOf(s) - SetOf(pick) ensures Beyond(select, d, e) {
        assert e in rest;
        PickOrder(s, select, n, d, e);
      }
      assert IsExtreme(SetOf(s), select, n, SetOf(pick));
    }
    if p :| IsExtreme(SetOf(s), select, n, p) {
      ExtremeIsPick(s, select, n, p);
      ExtremeSize(s, select, n, p);
      forall d, e | d in pick && e in rest ensures Capacity(d) != Capacity(e) {
        assert d in SetOf(pick) && e in SetOf(s) && e !in SetOf(pick);
        assert Beyond(select, d, e);
      }
      forall d, e | d in pick && e in pick ensures Capacity(d) == Capacity(e) {
        assert d in SetOf(pick) && e in SetOf(pick);
      }
    }
  }

  /** The extreme set is unique. */
  lemma ExtremeIsUnique(s: seq<Drive>, select: Select, n: nat, p: set<Drive>, q: set<Drive>)
    requires NoDup(s) && IsExtreme(SetOf(s), select, n, p) && IsExtreme(SetOf(s), select, n, q)
    ensures p == q
  {
    hide IsExtreme;
    ExtremeSize(s, select, n, p);
    ExtremeSize(s, select, n, q);
    forall d | d in p ensures d in q {
      if d !in q {
        Outside(p, q, d);
        var e :| e in q && e !in p;
        ExtremeBeyond(SetOf(s), select, n, p, d, e);
        ExtremeBeyond(SetOf(s), select, n, q, e, d);
      }
    }
    Same(p, q);
  }

  // ---- the rule on the capacities as they are reported -----------------------------------

  /** p holds n drives that report one size, and every other drive reports a
      strictly larger (smaller) one. */
  ghost predicate IsEnd(free: set<Drive>, select: Select, n: nat, size: int, p: set<Drive>) {
    && p <= free && |p| == n
    && (forall d :: d in p ==> d.capacity == Some(size))
    && (forall e :: e in free - p ==>
      e.capacity.Some? && if select.Smallest? then size < e.capacity.value else e.capacity.value < size)
  }

  lemma KnownMeans(d: Drive)
    ensures Known(d) <==> d.capacity.Some? && d.capacity.value > 0
    ensures Known(d) ==> d.capacity == Some(Capacity(d))
  {}

  lemma AllKnownMeans(s: seq<Drive>)
    ensures AllKnown(s) <==> forall d :: d in s ==> d.capacity.Some? && d.capacity.value > 0
    ensures AllKnown(s) ==> forall d :: d in s ==> d.capacity == Some(Capacity(d))
  {}

  /** On known capacities an end is an extreme set. */
  lemma EndIsExtreme(s: seq<Drive>, select: Select, n: nat, p: set<Drive>, d: Drive)
    requires AllKnown(s) && d in p
    ensures IsExtreme(SetOf(s), select, n, p) <==> IsEnd(SetOf(s), select, n, Capacity(d), p)
  {
    AllKnownMeans(s);
    hide Known, Capacity, AllKnown;
    assert forall e :: e in SetOf(s) ==> e.capacity == Some(Capacity(e));
    if IsExtreme(SetOf(s), select, n, p) {
      forall e | e in SetOf(s) - p
        ensures if select.Smallest? then Capacity(d) < e.capacity.value else e.capacity.value < Capacity(d)
      {
        assert Beyond(select, d, e);
      }
    }
  }

  lemma ExtremeHas(free: set<Drive>, select: Select, n: nat, p: set<Drive>) returns (d: Drive)
    requires IsExtreme(free, select, n, p) && n >= 1
    ensures d in p
  {
    d :| d in p;
  }

  /** An extreme set is an end of its own size. */
  lemma SomeEnd(s: seq<Drive>, select: Select, n: nat)
    requires AllKnown(s) && n >= 1
    ensures (exists p :: IsExtreme(SetOf(s), select, n, p)) <==> exists size, p :: IsEnd(SetOf(s), select, n, size, p)
  {
    if p :| IsExtreme(SetOf(s), select, n, p) {
      var d := ExtremeHas(SetOf(s), select, n, p);
      EndIsExtreme(s, select, n, p, d);
    }
    if size, p :| IsEnd(SetOf(s), select, n, size, p) {
      var d :| d in p;
      EndIsExtreme(s, select, n, p, d);
      KnownMeans(d);
    }
  }

  /** A create step succeeds iff every free drive reports a positive number of
      bytes and there is a set of count free drives at the wanted end; its drives
      are then that set, and its size is the one they report. */
  lemma CreateIsExact(vol: VolSpec, free: seq<Drive>)
    requires NoDup(free) && Sorted(DriveLe, free) && vol.count >= 1
    ensures CreateStep(vol, free).Ok? <==>
      && (forall d :: d in free ==> d.capacity.Some? && d.capacity.value > 0)
      && exists size, p :: IsEnd(SetOf(free), vol.select, vol.count, size, p)
    ensures CreateStep(vol, free).Ok? ==>
      exists p: set<Drive> :: IsEnd(SetOf(free), vol.select, vol.count, CreateStep(vol, free).value.size, p)
        && (set x | x in CreateStep(vol, free).value.drives) == (set d: Drive | d in p :: d.path)
        && |CreateStep(vol, free).value.drives| == vol.count
  {
    var (pick, rest) := Pick(free, vol.select, vol.count);
    ChecksAcceptExtremes(free, vol.select, vol.count);
    AllKnownMeans(free);
    hide Known, Capacity, IsExtreme, Equal, Shared, Pick, IsEnd;
    if AllKnown(free) { SomeEnd(free, vol.select, vol.count); }
    if CreateStep(vol, free).Ok? {
      PathMembers(pick);
      assert pick[0] in pick;
      EndIsExtreme(free, vol.select, vol.count, SetOf(pick), pick[0]);
      assert PathSet(pick) == (set d: Drive | d in SetOf(pick) :: d.path);
    }
  }

  /** Two of the free drives with these paths, in the order of their ids. */
  ghost predicate ById(free: seq<Drive>, p: string, q: string) {
    exists d, e :: d in free && e in free && d.path == p && e.path == q && StrLe(d.id, e.id)
  }

  /** The step is for its entry, and lists its drives by id. */
  lemma CreateListsById(vol: VolSpec, free: seq<Drive>, i: nat, j: nat)
    requires Sorted(DriveLe, free) && CreateStep(vol, free).Ok?
    requires i < j < |CreateStep(vol, free).value.drives|
    ensures var step := CreateStep(vol, free).value;
      step.Create? && step.name == vol.name && step.raid == vol.raid && ById(free, step.drives[i], step.drives[j])
  {
    var (pick, rest) := Pick(free, vol.select, vol.count);
    CreatePick(vol, free);
    PickInFront(free, vol.select, vol.count, i, j);
    hide Pick, CreateStep, Capacity, StrLe;
    MapAt(DrivePath, pick, i);
    MapAt(DrivePath, pick, j);
    assert pick[i] in pick && pick[j] in pick && Capacity(pick[i]) == Capacity(pick[j]);
    assert StrLe(pick[i].id, pick[j].id);
  }

  lemma CreatePick(vol: VolSpec, free: seq<Drive>)
    requires CreateStep(vol, free).Ok?
    ensures var step, pick := CreateStep(vol, free).value, Pick(free, vol.select, vol.count).0;
      step.Create? && step.name == vol.name && step.raid == vol.raid && step.drives == Paths(pick) && Equal(pick)
    ensures vol.count <= |free|
  {
    hide Pick, Paths, Shared, AllKnown, Capacity;
  }

  lemma PickInFront(free: seq<Drive>, select: Select, n: nat, i: nat, j: nat)
    requires Sorted(DriveLe, free) && n <= |free| && i < j < |Pick(free, select, n).0|
    ensures var pick := Pick(free, select, n).0; pick[i] in free && pick[j] in free && DriveLe(pick[i], pick[j])
  {
    hide DriveLe;
    var at := if select.Smallest? then 0 else |free| - n;
    var pick := Pick(free, select, n).0;
    assert pick[i] == free[at + i] && pick[j] == free[at + j];
  }

  // ---- the refusals of a create step --------------------------------------------------------

  /** The drive at the wanted end of a sorted list. */
  function EndDrive(s: seq<Drive>, select: Select): Drive
    requires s != []
  {
    if select.Smallest? then s[0] else s[|s| - 1]
  }

  ghost function EndSet(s: seq<Drive>, select: Select): set<Drive>
    requires s != []
  {
    set d | d in s && Capacity(d) == Capacity(EndDrive(s, select))
  }

  lemma EndSetIsEnd(s: seq<Drive>, select: Select)
    requires s != [] && Sorted(DriveLe, s) && AllKnown(s)
    ensures IsEnd(SetOf(s), select, |EndSet(s, select)|, Capacity(EndDrive(s, select)), EndSet(s, select))
    ensures EndDrive(s, select) in EndSet(s, select)
  {
    AllKnownMeans(s);
    hide Known, Capacity, AllKnown;
    var end := EndDrive(s, select);
    forall e | e in SetOf(s) - EndSet(s, select)
      ensures if select.Smallest? then Capacity(end) < e.capacity.value else e.capacity.value < Capacity(end)
    {
      var i :| 0 <= i < |s| && s[i] == e;
      assert if select.Smallest? then DriveLe(s[0], s[i]) else i < |s| - 1 && DriveLe(s[i], s[|s| - 1]);
    }
  }

  /** There is one end only. */
  lemma OneEnd(s: seq<Drive>, select: Select, n: nat, size: int, p: set<Drive>, m: nat, other: int, q: set<Drive>)
    requires IsEnd(SetOf(s), select, n, size, p) && IsEnd(SetOf(s), select, m, other, q) && n >= 1 && m >= 1
    ensures p == q && n == m && size == other
  {
    var d :| d in p;
    var e :| e in q;
    assert d !in q ==> d in SetOf(s) - q;
    assert e !in p ==> e in SetOf(s) - p;
    assert size == other;
    assert forall x :: x in p && x !in q ==> x in SetOf(s) - q;
    assert forall x :: x in q && x !in p ==> x in SetOf(s) - p;
    assert p == q;
  }

  /** How many drives are at the end decides: as many as are picked, or more, or
      fewer. */
  lemma PickAndEnd(s: seq<Drive>, select: Select, n: nat)
    requires NoDup(s) && Sorted(DriveLe, s) && AllKnown(s) && 1 <= n <= |s|
    ensures var (pick, rest) := Pick(s, select, n);
      && pick != []
      && (Equal(pick) <==> |EndSet(s, select)| >= n)
      && (Equal(pick) && Shared(pick, rest) <==> |EndSet(s, select)| > n)
  {
    var (pick, rest) := Pick(s, select, n);
    var end, ends := EndDrive(s, select), EndSet(s, select);
    PickSplits(s, select, n);
    SetSize(pick);
    EndSetIsEnd(s, select);
    EndIsPicked(s, select, n);
    if Equal(pick) {
      assert forall d :: d in SetOf(pick) ==> d in s && d in ends;
      Subset(SetOf(pick), ends);
    }
    if |ends| >= n { EndsArePicked(s, select, n); }
    if Equal(pick) && Shared(pick, rest) {
      var d, e :| d in pick && e in rest && Capacity(d) == Capacity(e);
      assert e in SetOf(s) && e in ends && e !in SetOf(pick);
      if |ends| == n { Same(SetOf(pick), ends); }
    }
    if |ends| > n {
      var e := Extra(ends, SetOf(pick));
      assert e in SetOf(s) && e in rest && Capacity(end) == Capacity(e) && end in pick;
    }
  }

  lemma Extra(a: set<Drive>, b: set<Drive>) returns (x: Drive)
    requires |a| > |b|
    ensures x in a && x !in b
  {
    if a <= b { Subset(a, b); }
    x :| x in a && x !in b;
  }

  lemma EndIsPicked(s: seq<Drive>, select: Select, n: nat)
    requires 1 <= n <= |s|
    ensures EndDrive(s, select) in Pick(s, select, n).0
  {
    var pick := Pick(s, select, n).0;
    assert EndDrive(s, select) == if select.Smallest? then pick[0] else pick[|pick| - 1];
  }

  /** Where the end has n drives or more, only they are picked. */
  lemma EndsArePicked(s: seq<Drive>, select: Select, n: nat)
    requires NoDup(s) && Sorted(DriveLe, s) && 1 <= n <= |s| && |EndSet(s, select)| >= n
    ensures forall d :: d in Pick(s, select, n).0 ==> d in EndSet(s, select)
    ensures Equal(Pick(s, select, n).0)
  {
    var (pick, rest) := Pick(s, select, n);
    var ends := EndSet(s, select);
    PickSplits(s, select, n);
    SetSize(pick);
    hide Pick, Capacity;
    forall d | d in pick ensures d in ends {
      assert d in SetOf(pick) && d in SetOf(s);
      assert |SetOf(pick) - {d}| == n - 1;
      var e := Extra(ends, SetOf(pick) - {d});
      assert e in SetOf(s) && (e == d || e in rest);
      PickOrder(s, select, n, d, e);
      EndLeads(s, select, d);
    }
  }

  lemma EndLeads(s: seq<Drive>, select: Select, d: Drive)
    requires s != [] && Sorted(DriveLe, s) && d in s
    ensures var end := EndDrive(s, select);
      if select.Smallest? then Capacity(end) <= Capacity(d) else Capacity(d) <= Capacity(end)
  {
    var i :| 0 <= i < |s| && s[i] == d;
    assert if select.Smallest? then i == 0 || DriveLe(s[0], s[i]) else i == |s| - 1 || DriveLe(s[i], s[|s| - 1]);
  }

  /** Too few free drives are refused first, then an unknown capacity; then a
      create is ambiguous iff more than count drives are at the wanted end, and
      over unequal drives iff fewer are. */
  lemma CreateRefusals(vol: VolSpec, free: seq<Drive>)
    requires NoDup(free) && Sorted(DriveLe, free) && vol.count >= 1
    ensures CreateStep(vol, free) == Err(TooFewFree(vol.name)) <==> |free| < vol.count
    ensures CreateStep(vol, free) == Err(CapacityUnknown(vol.name)) <==>
      |free| >= vol.count && exists d :: d in free && (d.capacity.None? || d.capacity.value <= 0)
    ensures CreateStep(vol, free) == Err(AmbiguousPick(vol.name)) <==>
      && |free| >= vol.count && (forall d :: d in free ==> d.capacity.Some? && d.capacity.value > 0)
      && exists n, size, p :: n > vol.count && IsEnd(SetOf(free), vol.select, n, size, p)
    ensures CreateStep(vol, free) == Err(UnequalDrives(vol.name)) <==>
      && |free| >= vol.count && (forall d :: d in free ==> d.capacity.Some? && d.capacity.value > 0)
      && exists n, size, p :: 1 <= n < vol.count && IsEnd(SetOf(free), vol.select, n, size, p)
  {
    AllKnownMeans(free);
    hide Known, Capacity, Equal, Shared, Pick, IsEnd, EndSet, EndDrive, AllKnown;
    if |free| >= vol.count && AllKnown(free) {
      PickAndEnd(free, vol.select, vol.count);
      EndSetIsEnd(free, vol.select);
      var size, ends := Capacity(EndDrive(free, vol.select)), EndSet(free, vol.select);
      assert |ends| >= 1;
      forall n, other, p | n >= 1 && IsEnd(SetOf(free), vol.select, n, other, p) ensures n == |ends| {
        OneEnd(free, vol.select, n, other, p, |ends|, size, ends);
      }
    }
  }

  lemma {:induction false} PathMember(s: seq<Drive>, x: string)
    ensures x in Paths(s) <==> exists d :: d in s && d.path == x
  {
    if s == [] {
    } else {
      PathMember(s[1..], x);
      assert s[0] in s && forall d :: d in s[1..] ==> d in s;
      assert s == [s[0]] + s[1..];
    }
  }

  lemma PathMembers(s: seq<Drive>)
    ensures (set x | x in Paths(s)) == PathSet(s)
  {
    forall x ensures x in Paths(s) <==> x in PathSet(s) { PathMember(s, x); }
  }
}
