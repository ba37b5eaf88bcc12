/** Adoption by role in the storage layout: on a well-formed adapter, which
    hand-made volume is taken for an entry. */
module StorageAdopt {
  import opened Prelude
  import opened StorageLayout
  import opened StoragePick
  import opened StorageSafety

  // ---- the drives behind a volume -----------------------------------------------------

  function AtPath(drives: seq<Drive>, p: string): seq<Drive> {
    var d := DriveAt(drives, p);
    if d.Some? then [d.value] else []
  }

  lemma DrivesOfIs(drives: seq<Drive>, v: Volume)
    ensures DrivesOf(drives, v) == FlatMap((p: string) => AtPath(drives, p), v.drives)
  {
    FlatMapSame((p: string) => var d := DriveAt(drives, p); if d.Some? then [d.value] else [],
                (p: string) => AtPath(drives, p), v.drives);
  }

  lemma DrivesOfMember(drives: seq<Drive>, v: Volume, d: Drive)
    ensures d in DrivesOf(drives, v) <==> d.path in v.drives && DriveAt(drives, d.path) == Some(d)
  {
    DrivesOfIs(drives, v);
    var f := (p: string) => AtPath(drives, p);
    FlatMapMember(f, v.drives, d);
    if d.path in v.drives && DriveAt(drives, d.path) == Some(d) {
      var i :| 0 <= i < |v.drives| && v.drives[i] == d.path;
      assert d in f(v.drives[i]);
    }
  }

  lemma DriveFound(inv: Inventory, d: Drive)
    requires DrivesOk(inv.drives)
    ensures DriveAt(inv.drives, d.path) == Some(d) <==> d in inv.drives
  {
    var e := DriveAt(inv.drives, d.path);
    if e.Some? { DriveByPath(inv, d, e.value); }
  }

  /** On distinct paths: the listed drives that the volume names. */
  lemma DrivesOfMembers(inv: Inventory, v: Volume)
    requires DrivesOk(inv.drives)
    ensures forall d :: d in DrivesOf(inv.drives, v) <==> d.path in v.drives && d in inv.drives
  {
    forall d ensures d in DrivesOf(inv.drives, v) <==> d.path in v.drives && d in inv.drives {
      DrivesOfMember(inv.drives, v, d);
      DriveFound(inv, d);
    }
  }

  lemma {:induction false} AtPathsNoDup(drives: seq<Drive>, paths: seq<string>)
    requires NoDup(paths)
    ensures NoDup(FlatMap((p: string) => AtPath(drives, p), paths))
  {
    if paths == [] {
    } else {
      var f := (p: string) => AtPath(drives, p);
      assert NoDup(paths[1..]);
      AtPathsNoDup(drives, paths[1..]);
      var rest := FlatMap(f, paths[1..]);
      forall j | 0 <= j < |rest| ensures rest[j] !in f(paths[0]) {
        FlatMapMember(f, paths[1..], rest[j]);
        var i :| 0 <= i < |paths[1..]| && rest[j] in f(paths[1..][i]);
        assert paths[1..][i] == paths[i + 1] != paths[0];
      }
      assert FlatMap(f, paths) == f(paths[0]) + rest;
      assert forall i, j :: 0 <= i < |f(paths[0])| && 0 <= j < |rest| ==> f(paths[0])[i] != rest[j];
    }
  }

  lemma DrivesOfNoDup(drives: seq<Drive>, v: Volume)
    requires NoDup(v.drives)
    ensures NoDup(DrivesOf(drives, v))
  {
    DrivesOfIs(drives, v);
    AtPathsNoDup(drives, v.drives);
  }

  // ---- the pool ------------------------------------------------------------------------------

  /** The drives that compete for a role. */
  ghost predicate InPool(inv: Inventory, free: seq<Drive>, cands: seq<Volume>, d: Drive) {
    d in inv.drives && (d in free || exists v :: v in cands && d.path in v.drives)
  }

  lemma CandidateDrives(inv: Inventory, cands: seq<Volume>, d: Drive)
    requires DrivesOk(inv.drives)
    ensures d in FlatMap((v: Volume) => DrivesOf(inv.drives, v), cands) <==>
      d in inv.drives && exists v :: v in cands && d.path in v.drives
  {
    var f := (v: Volume) => DrivesOf(inv.drives, v);
    FlatMapMember(f, cands, d);
    if i :| 0 <= i < |cands| && d in f(cands[i]) {
      DrivesOfMembers(inv, cands[i]);
      assert cands[i] in cands;
    }
    if d in inv.drives && exists v :: v in cands && d.path in v.drives {
      var v :| v in cands && d.path in v.drives;
      DrivesOfMembers(inv, v);
      var i :| 0 <= i < |cands| && cands[i] == v;
      assert d in f(cands[i]);
    }
  }

  lemma AllKeyed(inv: Inventory, s: seq<Drive>)
    requires DrivesOk(inv.drives) && forall d :: d in s ==> d in inv.drives
    ensures Keyed(DrivePath, s)
  {
    forall i, j | 0 <= i < |s| && 0 <= j < |s| && DrivePath(s[i]) == DrivePath(s[j]) ensures s[i] == s[j] {
      DriveByPath(inv, s[i], s[j]);
    }
  }

  lemma PoolFacts(inv: Inventory, free: seq<Drive>, cands: seq<Volume>)
    requires DrivesOk(inv.drives) && forall d :: d in free ==> d in inv.drives
    ensures DistinctKeys(DrivePath, Pool(free, inv.drives, cands)) && NoDup(Pool(free, inv.drives, cands))
    ensures forall d :: d in Pool(free, inv.drives, cands) <==> InPool(inv, free, cands, d)
  {
    hide DrivesOf;
    var more := FlatMap((v: Volume) => DrivesOf(inv.drives, v), cands);
    var first := PutAll(DrivePath, [], free);
    assert DistinctKeys<Drive>(DrivePath, []);
    PutAllDistinct(DrivePath, [], free);
    PutAllDistinct(DrivePath, first, more);
    DistinctKeysNoDup(DrivePath, Pool(free, inv.drives, cands));
    assert [] + free == free;
    AllKeyed(inv, free);
    forall d ensures d in first <==> d in free { PutAllMember(DrivePath, [], free, d); }
    forall d ensures d in more <==> d in inv.drives && exists v :: v in cands && d.path in v.drives {
      CandidateDrives(inv, cands, d);
    }
    AllKeyed(inv, first + more);
    forall d ensures d in Pool(free, inv.drives, cands) <==> InPool(inv, free, cands, d) {
      PutAllMember(DrivePath, first, more, d);
    }
  }

  // ---- which volume is adopted -----------------------------------------------------------------

  lemma CandidateFacts(vol: VolSpec, names: set<string>, inv: Inventory, claimed: set<string>, v: Volume)
    ensures v in Candidates(vol, names, inv, claimed) <==>
      v in inv.volumes && IsCandidate(vol, names, inv.drives, claimed, v)
  {
    FilterMember((v: Volume) => IsCandidate(vol, names, inv.drives, claimed, v), inv.volumes, v);
  }

  /** Volumes over the same drives are the same volume. */
  lemma OnePicked(inv: Inventory, pick: seq<Drive>, v: Volume, w: Volume)
    requires WellFormed(inv) && v in inv.volumes && w in inv.volumes
    requires DrivesOf(inv.drives, v) != [] && IsPicked(inv.drives, pick, v) && IsPicked(inv.drives, pick, w)
    ensures v == w
  {
    var d := DrivesOf(inv.drives, v)[0];
    DrivesOfMembers(inv, v);
    DrivesOfMembers(inv, w);
    assert d.path in PathSet(DrivesOf(inv.drives, v));
    assert d.path in PathSet(DrivesOf(inv.drives, w));
    assert d.path in w.drives;
  }

  lemma CandidatesUnique(vol: VolSpec, names: set<string>, inv: Inventory, claimed: set<string>, pick: seq<Drive>)
    requires WellFormed(inv)
    ensures var cands := Candidates(vol, names, inv, claimed);
      forall i, j :: 0 <= i < |cands| && 0 <= j < |cands|
        && IsPicked(inv.drives, pick, cands[i]) && IsPicked(inv.drives, pick, cands[j])
        ==> cands[i] == cands[j]
  {
    hide WellFormed, IsPicked;
    var cands := Candidates(vol, names, inv, claimed);
    forall i, j | 0 <= i < |cands| && 0 <= j < |cands| && IsPicked(inv.drives, pick, cands[i])
        && IsPicked(inv.drives, pick, cands[j])
      ensures cands[i] == cands[j]
    {
      CandidateFacts(vol, names, inv, claimed, cands[i]);
      CandidateFacts(vol, names, inv, claimed, cands[j]);
      OnePicked(inv, pick, cands[i], cands[j]);
    }
  }

  /** p holds the n drives that come first (last) by capacity, then id. */
  ghost predicate Leads(pool: set<Drive>, select: Select, n: nat, p: set<Drive>) {
    && p <= pool
    && |p| == n
    && forall d, e :: d in p && e in pool && e !in p ==> if select.Smallest? then DriveLe(d, e) else DriveLe(e, d)
  }

  lemma PickLeads(s: seq<Drive>, select: Select, n: nat, p: set<Drive>)
    requires NoDup(s) && Sorted(DriveLe, s) && Strict(DriveLe, s) && n <= |s|
    ensures Leads(SetOf(s), select, n, p) <==> p == SetOf(Pick(s, select, n).0)
  {
    hide Pick, DriveLe;
    var (pick, rest) := Pick(s, select, n);
    PickSplits(s, select, n);
    SetSize(pick);
    forall d, e | d in SetOf(pick) && e in SetOf(s) && e !in SetOf(pick)
      ensures if select.Smallest? then DriveLe(d, e) else DriveLe(e, d)
    {
      PickOrder(s, select, n, d, e);
    }
    if Leads(SetOf(s), select, n, p) {
      forall d | d in SetOf(pick) ensures d in p {
        if d !in p {
          Outside(SetOf(pick), p, d);
          var e :| e in p && e !in SetOf(pick);
          assert d in SetOf(s) && e in SetOf(s);
          PickOrder(s, select, n, d, e);
        }
      }
      Same(SetOf(pick), p);
    }
  }

  lemma PathSetIsSet(inv: Inventory, a: seq<Drive>, b: seq<Drive>)
    requires DrivesOk(inv.drives)
    requires forall d :: d in a || d in b ==> d in inv.drives
    ensures PathSet(a) == PathSet(b) <==> SetOf(a) == SetOf(b)
  {
    if PathSet(a) == PathSet(b) {
      forall d ensures d in a <==> d in b {
        if d in a {
          assert d.path in PathSet(b);
          var e :| e in b && e.path == d.path;
          DriveByPath(inv, d, e);
        }
        if d in b {
          assert d.path in PathSet(a);
          var e :| e in a && e.path == d.path;
          DriveByPath(inv, d, e);
        }
      }
    }
    if SetOf(a) == SetOf(b) {
      forall d ensures d in a <==> d in b { assert d in SetOf(a) <==> d in SetOf(b); }
    }
  }

  /** The drives lead the pool, and are extreme in it when they are of one size. */
  ghost predicate LeadsAlone(vol: VolSpec, pool: set<Drive>, drives: seq<Drive>) {
    && Leads(pool, vol.select, vol.count, SetOf(drives))
    && (Equal(drives) ==> IsExtreme(pool, vol.select, vol.count, SetOf(drives)))
  }

  lemma SortedPool(inv: Inventory, pool: seq<Drive>)
    requires DrivesOk(inv.drives) && NoDup(pool) && forall d :: d in pool ==> d in inv.drives
    ensures var s := Sort(DriveLe, pool);
      NoDup(s) && Sorted(DriveLe, s) && Strict(DriveLe, s) && SetOf(s) == SetOf(pool) && |s| == |pool|
  {
    var s := Sort(DriveLe, pool);
    DriveOrder();
    SortSorted(DriveLe, pool);
    SortMembers(DriveLe, pool);
    NoDupPermutation(pool, s);
    DrivesStrict(inv, s);
  }

  lemma PickedLeadsAlone(vol: VolSpec, inv: Inventory, pool: seq<Drive>, v: Volume)
    requires DrivesOk(inv.drives) && NoDup(pool) && forall d :: d in pool ==> d in inv.drives
    requires NoDup(v.drives) && |DrivesOf(inv.drives, v)| == vol.count >= 1
    requires forall d :: d in DrivesOf(inv.drives, v) ==> d in pool
    ensures var (pick, rest) := Pick(Sort(DriveLe, pool), vol.select, vol.count);
      IsPicked(inv.drives, pick, v) && !(pick != [] && Equal(pick) && Shared(pick, rest)) <==>
      LeadsAlone(vol, SetOf(pool), DrivesOf(inv.drives, v))
  {
    var own := DrivesOf(inv.drives, v);
    var s := Sort(DriveLe, pool);
    var (pick, rest) := Pick(s, vol.select, vol.count);
    SortedPool(inv, pool);
    DrivesOfNoDup(inv.drives, v);
    SetSize(own);
    SetSize(pool);
    Subset(SetOf(own), SetOf(pool));
    PickSplits(s, vol.select, vol.count);
    PickLeads(s, vol.select, vol.count, SetOf(own));
    ChecksAcceptExtremes(s, vol.select, vol.count);
    assert forall d :: d in pick ==> d in SetOf(pick) && d in SetOf(pool);
    PathSetIsSet(inv, pick, own);
    hide Pick, IsExtreme, Shared, Leads, DrivesOf;
    if SetOf(pick) == SetOf(own) {
      EqualSets(pick, own);
      if IsExtreme(SetOf(s), vol.select, vol.count, SetOf(own)) {
        assert exists p :: IsExtreme(SetOf(s), vol.select, vol.count, p);
      }
    }
  }

  lemma EqualSets(a: seq<Drive>, b: seq<Drive>)
    requires SetOf(a) == SetOf(b)
    ensures Equal(a) <==> Equal(b)
    ensures a == [] <==> b == []
  {
    forall d ensures d in a <==> d in b { assert d in SetOf(a) <==> d in SetOf(b); }
    if a != [] { assert a[0] in b; }
    if b != [] { assert b[0] in a; }
  }

  lemma AdoptFromIs(vol: VolSpec, drives: seq<Drive>, cands: seq<Volume>, pool: seq<Drive>, v: Volume)
    requires var (pick, rest) := Pick(Sort(DriveLe, pool), vol.select, vol.count);
      forall i, j :: 0 <= i < |cands| && 0 <= j < |cands|
        && IsPicked(drives, pick, cands[i]) && IsPicked(drives, pick, cands[j])
        ==> cands[i] == cands[j]
    ensures var (pick, rest) := Pick(Sort(DriveLe, pool), vol.select, vol.count);
      AdoptFrom(vol, drives, cands, pool) == Ok(Some(v)) <==>
      v in cands && AllKnown(pool) && IsPicked(drives, pick, v) && !(pick != [] && Equal(pick) && Shared(pick, rest))
  {
    hide Pick, IsPicked, Equal, Shared, AllKnown, DriveLe;
    var (pick, rest) := Pick(Sort(DriveLe, pool), vol.select, vol.count);
    if v in cands && IsPicked(drives, pick, v) {
      FindHits((w: Volume) => IsPicked(drives, pick, w), cands, v);
    }
  }

  // ---- adoption on the values that are reported -------------------------------------------------

  /** a is smaller than b, or as large and before it by id. */
  ghost predicate Before(a: Drive, b: Drive) {
    && a.capacity.Some? && b.capacity.Some?
    && (a.capacity.value < b.capacity.value || (a.capacity == b.capacity && StrLe(a.id, b.id)))
  }

  /** The drives are the first (last) of the pool. */
  ghost predicate InFront(vol: VolSpec, pool: set<Drive>, drives: set<Drive>) {
    && drives <= pool && |drives| == vol.count
    && forall d, e :: d in drives && e in pool && e !in drives ==>
      if vol.select.Smallest? then Before(d, e) else Before(e, d)
  }

  ghost predicate OfSize(drives: set<Drive>, size: int) { forall d :: d in drives ==> d.capacity == Some(size) }

  /** The drives are in front, and strictly beyond the rest of the pool when they
      report one size. */
  ghost predicate HasRole(vol: VolSpec, pool: set<Drive>, drives: set<Drive>) {
    && InFront(vol, pool, drives)
    && forall size :: OfSize(drives, size) ==> IsEnd(pool, vol.select, vol.count, size, drives)
  }

  /** The drives are in front and of one size, and another drive of the pool
      reports that size. */
  ghost predicate Ambiguous(vol: VolSpec, pool: set<Drive>, drives: set<Drive>) {
    && InFront(vol, pool, drives)
    && exists size, e :: OfSize(drives, size) && e in pool - drives && e.capacity == Some(size)
  }

  lemma OrderIsReported(d: Drive, e: Drive)
    requires Known(d) && Known(e)
    ensures DriveLe(d, e) <==> Before(d, e)
  {}

  lemma FrontIsReported(vol: VolSpec, pool: seq<Drive>, drives: set<Drive>)
    requires AllKnown(pool)
    ensures Leads(SetOf(pool), vol.select, vol.count, drives) <==> InFront(vol, SetOf(pool), drives)
  {
    hide Known, DriveLe, Before;
    forall d, e | d in pool && e in pool ensures DriveLe(d, e) <==> Before(d, e) { OrderIsReported(d, e); }
  }

  lemma SizeIsReported(drives: seq<Drive>)
    requires AllKnown(drives) && drives != []
    ensures Equal(drives) <==> OfSize(SetOf(drives), Capacity(drives[0]))
    ensures forall size :: OfSize(SetOf(drives), size) ==> size == Capacity(drives[0])
  {
    AllKnownMeans(drives);
    hide Known, Capacity, AllKnown;
    assert drives[0] in SetOf(drives);
    assert forall d :: d in drives <==> d in SetOf(drives);
  }

  lemma SublistKnown(pool: seq<Drive>, drives: seq<Drive>)
    requires AllKnown(pool) && SetOf(drives) <= SetOf(pool)
    ensures AllKnown(drives)
  {
    assert forall d :: d in drives ==> d in SetOf(drives) && d in SetOf(pool);
  }

  lemma RoleIsReported(vol: VolSpec, pool: seq<Drive>, drives: seq<Drive>)
    requires AllKnown(pool) && drives != []
    ensures LeadsAlone(vol, SetOf(pool), drives) <==> HasRole(vol, SetOf(pool), SetOf(drives))
  {
    hide Known, Capacity, IsEnd, IsExtreme, AllKnown, Equal, OfSize, InFront;
    FrontIsReported(vol, pool, SetOf(drives));
    if Leads(SetOf(pool), vol.select, vol.count, SetOf(drives)) {
      SublistKnown(pool, drives);
      SizeIsReported(drives);
      assert drives[0] in SetOf(drives);
      EndIsExtreme(pool, vol.select, vol.count, SetOf(drives), drives[0]);
    }
  }

  /** The volumes that compete for an entry: unclaimed, not named for another
      entry, of the entry's RAID type in any case and spacing, and over exactly
      count drives, all of them listed. */
  lemma CandidateMeans(vol: VolSpec, names: set<string>, inv: Inventory, claimed: set<string>, v: Volume)
    requires WellFormed(inv) && vol.count >= 1
    ensures v in Candidates(vol, names, inv, claimed) <==>
      && v in inv.volumes && v.path !in claimed
      && (v.name.Some? ==> v.name.value !in names)
      && Normal(v.raidType) == RaidText(vol.raid)
      && |v.drives| == vol.count && forall p :: p in v.drives ==> exists d :: d in inv.drives && d.path == p
  {
    CandidateFacts(vol, names, inv, claimed, v);
    DrivesOfSize(inv.drives, v);
    hide WellFormed, DrivesOf, RaidText, Normal, Candidates;
  }

  function Listed(drives: seq<Drive>, paths: seq<string>): seq<Drive> {
    if paths == [] then [] else AtPath(drives, paths[0]) + Listed(drives, paths[1..])
  }

  lemma {:induction false} ListedDrives(drives: seq<Drive>, paths: seq<string>)
    ensures |Listed(drives, paths)| <= |paths|
    ensures |Listed(drives, paths)| == |paths| <==> forall p :: p in paths ==> DriveAt(drives, p).Some?
  {
    if paths == [] {
    } else {
      ListedDrives(drives, paths[1..]);
      hide DriveAt;
      assert paths == [paths[0]] + paths[1..];
      assert |AtPath(drives, paths[0])| == if DriveAt(drives, paths[0]).Some? then 1 else 0;
      assert |Listed(drives, paths)| == |AtPath(drives, paths[0])| + |Listed(drives, paths[1..])|;
      assert paths[0] in paths && forall p :: p in paths <==> p == paths[0] || p in paths[1..];
    }
  }

  lemma {:induction false} ListedIs(drives: seq<Drive>, paths: seq<string>)
    ensures FlatMap((p: string) => AtPath(drives, p), paths) == Listed(drives, paths)
  {
    if paths == [] {
    } else {
      ListedIs(drives, paths[1..]);
    }
  }

  /** A volume's drives are all found iff all of them are listed. */
  lemma DrivesOfSize(drives: seq<Drive>, v: Volume)
    ensures |DrivesOf(drives, v)| == |v.drives|
      <==> forall p :: p in v.drives ==> exists d :: d in drives && d.path == p
  {
    DrivesOfIs(drives, v);
    ListedIs(drives, v.drives);
    ListedDrives(drives, v.drives);
    hide DrivesOf, Listed;
    forall p ensures DriveAt(drives, p).Some? <==> exists d :: d in drives && d.path == p {}
  }

  /** A volume is adopted iff it competes, every drive of the pool reports a
      positive number of bytes, and its drives have the role. */
  lemma AdoptionIsExact(vol: VolSpec, names: set<string>, inv: Inventory, free: seq<Drive>, claimed: set<string>,
                        v: Volume)
    requires WellFormed(inv) && vol.count >= 1 && forall d :: d in free ==> d in inv.drives
    ensures var cands := Candidates(vol, names, inv, claimed);
      var pool := Pool(free, inv.drives, cands);
      Adopt(vol, names, inv, free, claimed) == Ok(Some(v)) <==>
      && v in cands && (forall d :: d in pool ==> d.capacity.Some? && d.capacity.value > 0)
      && HasRole(vol, SetOf(pool), SetOf(DrivesOf(inv.drives, v)))
  {
    var cands := Candidates(vol, names, inv, claimed);
    var pool := Pool(free, inv.drives, cands);
    PoolFacts(inv, free, cands);
    CandidatesUnique(vol, names, inv, claimed, Pick(Sort(DriveLe, pool), vol.select, vol.count).0);
    AdoptFromIs(vol, inv.drives, cands, pool, v);
    CandidateFacts(vol, names, inv, claimed, v);
    DrivesOfMembers(inv, v);
    AllKnownMeans(pool);
    hide Pick, Pool, LeadsAlone, HasRole, DrivesOf, IsPicked, Equal, Shared, Candidates, AdoptFrom, DriveLe, AllKnown;
    if v in cands {
      PickedLeadsAlone(vol, inv, pool, v);
      if AllKnown(pool) { RoleIsReported(vol, pool, DrivesOf(inv.drives, v)); }
    }
  }

  /** Another drive of the pool has the size of one of the drives. */
  ghost predicate Rivalled(pool: set<Drive>, drives: seq<Drive>) {
    exists d, e :: d in drives && e in pool && e !in drives && Capacity(d) == Capacity(e)
  }

  lemma AmbiguityIsReported(vol: VolSpec, pool: seq<Drive>, drives: seq<Drive>)
    requires AllKnown(pool) && drives != []
    ensures Ambiguous(vol, SetOf(pool), SetOf(drives)) <==>
      Leads(SetOf(pool), vol.select, vol.count, SetOf(drives)) && Equal(drives) && Rivalled(SetOf(pool), drives)
  {
    FrontIsReported(vol, pool, SetOf(drives));
    AllKnownMeans(pool);
    hide Known, Capacity, AllKnown, InFront, OfSize;
    if Leads(SetOf(pool), vol.select, vol.count, SetOf(drives)) {
      SublistKnown(pool, drives);
      SizeIsReported(drives);
      if Equal(drives) && Rivalled(SetOf(pool), drives) {
        var d, e :| d in drives && e in SetOf(pool) && e !in drives && Capacity(d) == Capacity(e);
        assert drives[0] in drives && e in SetOf(pool) - SetOf(drives);
        assert e.capacity == Some(Capacity(drives[0]));
      }
      if Ambiguous(vol, SetOf(pool), SetOf(drives)) {
        var size, e :| OfSize(SetOf(drives), size) && e in SetOf(pool) - SetOf(drives) && e.capacity == Some(size);
        assert drives[0] in drives && Capacity(drives[0]) == Capacity(e);
      }
    }
  }

  lemma PickIsOwn(vol: VolSpec, inv: Inventory, pool: seq<Drive>, v: Volume)
    requires DrivesOk(inv.drives) && NoDup(pool) && forall d :: d in pool ==> d in inv.drives
    requires NoDup(v.drives) && |DrivesOf(inv.drives, v)| == vol.count >= 1
    requires forall d :: d in DrivesOf(inv.drives, v) ==> d in pool
    ensures var (pick, rest) := Pick(Sort(DriveLe, pool), vol.select, vol.count);
      var own := DrivesOf(inv.drives, v);
      && (IsPicked(inv.drives, pick, v) <==> Leads(SetOf(pool), vol.select, vol.count, SetOf(own)))
      && (IsPicked(inv.drives, pick, v) ==>
        pick != [] && (Equal(pick) <==> Equal(own)) && (Shared(pick, rest) <==> Rivalled(SetOf(pool), own)))
  {
    var own := DrivesOf(inv.drives, v);
    var s := Sort(DriveLe, pool);
    var (pick, rest) := Pick(s, vol.select, vol.count);
    SortedPool(inv, pool);
    DrivesOfNoDup(inv.drives, v);
    SetSize(own);
    SetSize(pool);
    Subset(SetOf(own), SetOf(pool));
    PickSplits(s, vol.select, vol.count);
    PickLeads(s, vol.select, vol.count, SetOf(own));
    assert forall d :: d in pick ==> d in SetOf(pick) && d in SetOf(pool);
    PathSetIsSet(inv, pick, own);
    hide Pick, Leads, DrivesOf, Capacity, DriveLe;
    if SetOf(pick) == SetOf(own) {
      EqualSets(pick, own);
      assert forall d :: d in pick <==> d in SetOf(own);
      assert forall d :: d in own <==> d in SetOf(own);
      assert forall e :: e in rest <==> e in SetOf(pool) && e !in SetOf(own) by {
        assert forall e :: e in rest <==> e in SetOf(rest);
      }
    }
  }

  lemma AdoptFromFails(vol: VolSpec, drives: seq<Drive>, cands: seq<Volume>, pool: seq<Drive>)
    ensures var (pick, rest) := Pick(Sort(DriveLe, pool), vol.select, vol.count);
      var r := AdoptFrom(vol, drives, cands, pool);
      && (r == Err(CapacityUnknown(vol.name)) <==> !AllKnown(pool))
      && (r.Err? ==> r.error == CapacityUnknown(vol.name) || r.error == AmbiguousRole(vol.name))
      && (r == Err(AmbiguousRole(vol.name)) <==>
        AllKnown(pool) && pick != [] && Equal(pick) && Shared(pick, rest)
        && exists v :: v in cands && IsPicked(drives, pick, v))
  {
    hide Pick, IsPicked, Equal, Shared, AllKnown, DriveLe;
    var (pick, rest) := Pick(Sort(DriveLe, pool), vol.select, vol.count);
    if v :| v in cands && IsPicked(drives, pick, v) {
      FindHits((w: Volume) => IsPicked(drives, pick, w), cands, v);
    }
  }

  /** With competing volumes, adoption refuses iff some drive of the pool reports
      no size, zero or less, or else iff a competing volume has the leading drives
      in one size with another drive of the pool. Without any it adopts none. */
  lemma AdoptionRefusals(vol: VolSpec, names: set<string>, inv: Inventory, free: seq<Drive>, claimed: set<string>)
    requires WellFormed(inv) && vol.count >= 1 && forall d :: d in free ==> d in inv.drives
    ensures var cands := Candidates(vol, names, inv, claimed);
      var pool := Pool(free, inv.drives, cands);
      var r := Adopt(vol, names, inv, free, claimed);
      && (cands == [] ==> r == Ok(None))
      && (r.Err? ==> r.error == CapacityUnknown(vol.name) || r.error == AmbiguousRole(vol.name))
      && (r == Err(CapacityUnknown(vol.name)) <==>
        cands != [] && exists d :: d in pool && (d.capacity.None? || d.capacity.value <= 0))
      && (r == Err(AmbiguousRole(vol.name)) <==>
        (forall d :: d in pool ==> d.capacity.Some? && d.capacity.value > 0)
        && exists v :: v in cands && Ambiguous(vol, SetOf(pool), SetOf(DrivesOf(inv.drives, v))))
  {
    var cands := Candidates(vol, names, inv, claimed);
    var pool := Pool(free, inv.drives, cands);
    var pick := Pick(Sort(DriveLe, pool), vol.select, vol.count).0;
    PoolFacts(inv, free, cands);
    AllKnownMeans(pool);
    if cands != [] { AdoptFromFails(vol, inv.drives, cands, pool); }
    hide Pick, Pool, DrivesOf, IsPicked, Equal, Shared, Candidates, AdoptFrom, DriveLe, AllKnown, Ambiguous, Leads;
    if AllKnown(pool) {
      forall v | v in cands
        ensures IsPicked(inv.drives, pick, v) && pick != [] && Equal(pick)
            && Shared(pick, Pick(Sort(DriveLe, pool), vol.select, vol.count).1)
          <==> Ambiguous(vol, SetOf(pool), SetOf(DrivesOf(inv.drives, v)))
      {
        CompetingDrives(vol, names, inv, free, claimed, v);
        PickIsOwn(vol, inv, pool, v);
        AmbiguityIsReported(vol, pool, DrivesOf(inv.drives, v));
      }
    }
  }

  lemma CompetingDrives(vol: VolSpec, names: set<string>, inv: Inventory, free: seq<Drive>, claimed: set<string>,
                        v: Volume)
    requires WellFormed(inv) && vol.count >= 1 && forall d :: d in free ==> d in inv.drives
    requires v in Candidates(vol, names, inv, claimed)
    ensures NoDup(v.drives) && |DrivesOf(inv.drives, v)| == vol.count && v in inv.volumes
    ensures var pool := Pool(free, inv.drives, Candidates(vol, names, inv, claimed));
      forall d :: d in DrivesOf(inv.drives, v) ==> d in pool
  {
    var cands := Candidates(vol, names, inv, claimed);
    PoolFacts(inv, free, cands);
    CandidateFacts(vol, names, inv, claimed, v);
    DrivesOfMembers(inv, v);
    hide Pool, Candidates, DrivesOf;
    assert forall d :: d in DrivesOf(inv.drives, v) ==> InPool(inv, free, cands, d);
  }
}
