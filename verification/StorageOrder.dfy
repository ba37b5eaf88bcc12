/** The order in which the adapter lists its drives and volumes never decides
    a storage layout. */
module StorageOrder {
  import opened Prelude
  import opened StorageLayout
  import opened StoragePick
  import opened StorageSafety
  import opened StorageAdopt

  /** The same drives and volumes, listed in any order. */
  ghost predicate SameListing(a: Inventory, b: Inventory) {
    multiset(a.drives) == multiset(b.drives) && multiset(a.volumes) == multiset(b.volumes)
  }

  lemma DrivesOkAnyOrder(a: Inventory, b: Inventory)
    requires DrivesOk(a.drives) && SameListing(a, b)
    ensures DrivesOk(b.drives)
    ensures forall d :: d in a.drives <==> d in b.drives
  {
    PermutationMembers(a.drives, b.drives);
    NoDupPermutation(a.drives, b.drives);
    forall i, j | 0 <= i < j < |b.drives|
      ensures b.drives[i].path != b.drives[j].path && b.drives[i].id != b.drives[j].id
    {
      assert b.drives[i] in a.drives && b.drives[j] in a.drives;
      DriveByPath(a, b.drives[i], b.drives[j]);
    }
  }

  lemma DrivesOfAnyOrder(a: Inventory, b: Inventory, v: Volume)
    requires DrivesOk(a.drives) && SameListing(a, b)
    ensures DrivesOf(a.drives, v) == DrivesOf(b.drives, v)
  {
    DrivesOkAnyOrder(a, b);
    var f, g := (p: string) => AtPath(a.drives, p), (p: string) => AtPath(b.drives, p);
    forall i | 0 <= i < |v.drives| ensures f(v.drives[i]) == g(v.drives[i]) {
      var d, e := DriveAt(a.drives, v.drives[i]), DriveAt(b.drives, v.drives[i]);
      if d.Some? { DriveFound(b, d.value); }
      if e.Some? { DriveFound(a, e.value); }
    }
    FlatMapSame(f, g, v.drives);
    DrivesOfIs(a.drives, v);
    DrivesOfIs(b.drives, v);
  }

  lemma FreeAnyOrder(a: Inventory, b: Inventory)
    requires DrivesOk(a.drives) && SameListing(a, b)
    ensures SortedFree(a) == SortedFree(b)
  {
    hide IsFree, DriveLe;
    DriveOrder();
    FilterPermutation(IsFree, a.drives, b.drives);
    forall d | d in Filter(IsFree, a.drives) ensures d in a.drives { FilterMember(IsFree, a.drives, d); }
    DrivesStrict(a, Filter(IsFree, a.drives));
    SortPermutation(DriveLe, Filter(IsFree, a.drives), Filter(IsFree, b.drives));
  }

  lemma CandidatesAnyOrder(vol: VolSpec, names: set<string>, a: Inventory, b: Inventory, claimed: set<string>)
    requires DrivesOk(a.drives) && SameListing(a, b)
    ensures multiset(Candidates(vol, names, a, claimed)) == multiset(Candidates(vol, names, b, claimed))
  {
    var p := (v: Volume) => IsCandidate(vol, names, a.drives, claimed, v);
    var q := (v: Volume) => IsCandidate(vol, names, b.drives, claimed, v);
    forall i | 0 <= i < |b.volumes| ensures p(b.volumes[i]) == q(b.volumes[i]) {
      DrivesOfAnyOrder(a, b, b.volumes[i]);
    }
    FilterPermutation(p, a.volumes, b.volumes);
    FilterSame(p, q, b.volumes);
  }

  lemma PoolAnyOrder(a: Inventory, b: Inventory, free: seq<Drive>, left: seq<Volume>, right: seq<Volume>)
    requires DrivesOk(a.drives) && SameListing(a, b) && multiset(left) == multiset(right)
    requires forall d :: d in free ==> d in a.drives
    ensures Sort(DriveLe, Pool(free, a.drives, left)) == Sort(DriveLe, Pool(free, b.drives, right))
    ensures AllKnown(Pool(free, a.drives, left)) == AllKnown(Pool(free, b.drives, right))
  {
    hide Pool, DriveLe;
    DrivesOkAnyOrder(a, b);
    PoolFacts(a, free, left);
    PoolFacts(b, free, right);
    PermutationMembers(left, right);
    var p, q := Pool(free, a.drives, left), Pool(free, b.drives, right);
    forall d ensures d in p <==> d in q {
      assert InPool(a, free, left, d) <==> InPool(b, free, right, d);
    }
    DriveOrder();
    DrivesStrict(a, p);
    SortByMembers(DriveLe, p, q);
  }

  lemma FoundAnyOrder(a: Inventory, b: Inventory, pick: seq<Drive>, left: seq<Volume>, right: seq<Volume>)
    requires DrivesOk(a.drives) && SameListing(a, b) && multiset(left) == multiset(right)
    requires forall i, j ::
      0 <= i < |left| && 0 <= j < |left| && IsPicked(a.drives, pick, left[i]) && IsPicked(a.drives, pick, left[j])
      ==> left[i] == left[j]
    ensures Find((v: Volume) => IsPicked(a.drives, pick, v), left)
      == Find((v: Volume) => IsPicked(b.drives, pick, v), right)
  {
    var p, q := (v: Volume) => IsPicked(a.drives, pick, v), (v: Volume) => IsPicked(b.drives, pick, v);
    forall i | 0 <= i < |right| ensures p(right[i]) == q(right[i]) { DrivesOfAnyOrder(a, b, right[i]); }
    hide IsPicked;
    FindPermutation(p, left, right);
    FindSame(p, q, right);
  }

  lemma AdoptAnyOrder(vol: VolSpec, names: set<string>, a: Inventory, b: Inventory, free: seq<Drive>,
                      claimed: set<string>)
    requires WellFormed(a) && SameListing(a, b) && forall d :: d in free ==> d in a.drives
    ensures Adopt(vol, names, a, free, claimed) == Adopt(vol, names, b, free, claimed)
  {
    hide Candidates, Pool, DriveLe, Equal, Shared, AllKnown, Pick, IsPicked, DrivesOk, VolumesOk, LinksOk, SameListing;
    var left, right := Candidates(vol, names, a, claimed), Candidates(vol, names, b, claimed);
    CandidatesAnyOrder(vol, names, a, b, claimed);
    PoolAnyOrder(a, b, free, left, right);
    PermutationMembers(left, right);
    NoMembers(left);
    NoMembers(right);
    var pick := Pick(Sort(DriveLe, Pool(free, a.drives, left)), vol.select, vol.count).0;
    CandidatesUnique(vol, names, a, claimed, pick);
    FoundAnyOrder(a, b, pick, left, right);
  }

  lemma NameAnyOrder(a: Inventory, b: Inventory, name: string)
    requires VolumesOk(a.volumes) && SameListing(a, b)
    ensures ByName(a.volumes, name) == ByName(b.volumes, name)
  {
    PermutationMembers(a.volumes, b.volumes);
    var v, w := ByName(a.volumes, name), ByName(b.volumes, name);
    if v.Some? && w.Some? { VolumeByPath(a, v.value, w.value); }
  }

  lemma {:induction false} PlanFromAnyOrder(vols: seq<VolSpec>, names: set<string>, a: Inventory, b: Inventory,
                                            free: seq<Drive>, claimed: set<string>)
    requires WellFormed(a) && SameListing(a, b) && forall d :: d in free ==> d in a.drives
    ensures PlanFrom(vols, names, a, free, claimed) == PlanFrom(vols, names, b, free, claimed)
    decreases |vols|
  {
    hide Adopt, CreateStep, KeepStep;
    if vols == [] {
    } else {
      NameAnyOrder(a, b, vols[0].name);
      AdoptAnyOrder(vols[0], names, a, b, free, claimed);
      var step := StepFor(vols[0], names, a, free, claimed);
      assert step == StepFor(vols[0], names, b, free, claimed);
      if step.Ok? {
        var free1 := FreeAfter(free, step.value);
        forall d | d in free1 ensures d in a.drives {
          if step.value.Create? { FilterMember((d: Drive) => d.path !in step.value.drives, free, d); }
        }
        PlanFromAnyOrder(vols[1..], names, a, b, free1, ClaimedAfter(claimed, step.value));
      }
    }
  }

  /** Any two listings of the same well-formed adapter give the same plan or
      the same refusal. */
  lemma ListingOrderNeverDecides(spec: seq<VolSpec>, a: Inventory, b: Inventory)
    requires WellFormed(a) && SameListing(a, b)
    ensures Plan(spec, a) == Plan(spec, b)
  {
    FreeAnyOrder(a, b);
    FreeSublist(a);
    PlanFromAnyOrder(spec, NamesIn(spec), a, b, SortedFree(a), {});
  }
}
