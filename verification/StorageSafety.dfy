/** What a storage-layout plan may touch: it claims every volume at most once
    and builds new ones only from free drives, each used at most once. */
module StorageSafety {
  import opened Prelude
  import opened StorageLayout
  import opened StorageTrace
  import opened StoragePick

  ghost predicate DrivesOk(drives: seq<Drive>) {
    forall i, j :: 0 <= i < j < |drives| ==> drives[i].path != drives[j].path && drives[i].id != drives[j].id
  }

  ghost predicate VolumesOk(volumes: seq<Volume>) {
    && (forall i, j :: 0 <= i < j < |volumes| ==>
      volumes[i].path != volumes[j].path && volumes[i].id != volumes[j].id
      && (volumes[i].name.Some? ==> volumes[i].name != volumes[j].name))
    && (forall v :: v in volumes ==> NoDup(v.drives))
    && (forall v, w, p :: v in volumes && w in volumes && p in v.drives && p in w.drives ==> v == w)
  }

  ghost predicate LinksOk(inv: Inventory) {
    && (forall d, v :: d in inv.drives && v in inv.volumes ==> (d.path in v.drives <==> v.path in d.volumes))
    && (forall d, p :: d in inv.drives && p in d.volumes ==> exists v :: v in inv.volumes && v.path == p)
  }

  /** Unique paths, ids and names, every drive in at most one volume, and
      drives and volumes that name each other. */
  ghost predicate WellFormed(inv: Inventory) {
    DrivesOk(inv.drives) && VolumesOk(inv.volumes) && LinksOk(inv)
  }

  /** What parse_storage_spec guarantees of the entries. */
  ghost predicate ValidSpec(spec: seq<VolSpec>) {
    && (forall i, j :: 0 <= i < j < |spec| ==> spec[i].name != spec[j].name)
    && (forall v :: v in spec ==> v.count >= 1)
  }

  // ---- the free drives ------------------------------------------------------------------

  lemma DriveByPath(inv: Inventory, d: Drive, e: Drive)
    requires DrivesOk(inv.drives)
    ensures d in inv.drives && e in inv.drives && (d.path == e.path || d.id == e.id) ==> d == e
  {}

  lemma VolumeByPath(inv: Inventory, v: Volume, w: Volume)
    requires VolumesOk(inv.volumes)
    ensures v in inv.volumes && w in inv.volumes && v.path == w.path ==> v == w
    ensures v in inv.volumes && w in inv.volumes && v.id == w.id ==> v == w
    ensures v in inv.volumes && w in inv.volumes && v.name.Some? && v.name == w.name ==> v == w
  {}

  lemma DrivesStrict(inv: Inventory, s: seq<Drive>)
    requires DrivesOk(inv.drives) && forall d :: d in s ==> d in inv.drives
    ensures Strict(DriveLe, s)
  {
    forall a, b | a in s && b in s && DriveLe(a, b) && DriveLe(b, a) ensures a == b {
      StrLeAntisymmetric(a.id, b.id);
      DriveByPath(inv, a, b);
    }
  }

  lemma FreeFacts(inv: Inventory, gone: set<string>)
    requires DrivesOk(inv.drives)
    ensures var s := Without(gone, SortedFree(inv));
      NoDup(s) && Sorted(DriveLe, s)
        && forall d :: d in s <==> d in inv.drives && IsFree(d) && d.path !in gone
  {
    hide IsFree;
    var f := Filter(IsFree, inv.drives);
    var free := SortedFree(inv);
    assert NoDup(inv.drives) by {
      forall i, j | 0 <= i < j < |inv.drives| ensures inv.drives[i] != inv.drives[j] {
        assert inv.drives[i].path != inv.drives[j].path;
      }
    }
    FilterNoDup(IsFree, inv.drives);
    NoDupPermutation(f, free);
    DriveOrder();
    SortSorted(DriveLe, f);
    var keep := (d: Drive) => NotIn(gone, d);
    FilterNoDup(keep, free);
    FilterSorted(DriveLe, keep, free);
    FilterMembers(IsFree, inv.drives);
    SortMembers(DriveLe, f);
    FilterMembers(keep, free);
  }

  lemma FreeSublist(inv: Inventory)
    ensures forall d :: d in SortedFree(inv) ==> d in inv.drives
  {
    forall d | d in SortedFree(inv) ensures d in inv.drives {
      SortMembers(DriveLe, Filter(IsFree, inv.drives));
      FilterMember(IsFree, inv.drives, d);
    }
  }

  lemma FreeKeys(inv: Inventory, s: seq<Drive>)
    requires DrivesOk(inv.drives) && NoDup(s) && forall d :: d in s ==> d in inv.drives
    ensures DistinctKeys(DrivePath, s)
  {
    forall i, j | 0 <= i < j < |s| ensures DrivePath(s[i]) != DrivePath(s[j]) {
      DriveByPath(inv, s[i], s[j]);
    }
  }

  // ---- what one step is ------------------------------------------------------------------

  /** The step keeps volume v for the entry: by its name, or by role. */
  ghost predicate Keeps(step: Step, vol: VolSpec, names: set<string>, claimed: set<string>, v: Volume) {
    && step.Keep? && step.name == vol.name && step.raid == vol.raid
    && step.drives == v.drives && step.capacity == v.capacity && step.id == v.id && step.path == v.path
    && (Normal(v.raidType) == "" || Normal(v.raidType) == RaidText(vol.raid))
    && (if v.name == Some(vol.name) then step.adoptedFrom == None
        else v.path !in claimed && !(v.name.Some? && v.name.value in names) && step.adoptedFrom == v.name)
  }

  lemma AdoptedIsCandidate(vol: VolSpec, names: set<string>, inv: Inventory, free: seq<Drive>, claimed: set<string>,
                           v: Volume)
    requires Adopt(vol, names, inv, free, claimed) == Ok(Some(v))
    ensures v in inv.volumes && IsCandidate(vol, names, inv.drives, claimed, v)
  {
    FilterMember((v: Volume) => IsCandidate(vol, names, inv.drives, claimed, v), inv.volumes, v);
  }

  lemma KeepOf(vol: VolSpec, names: set<string>, inv: Inventory, free: seq<Drive>, claimed: set<string>, step: Step)
    requires StepFor(vol, names, inv, free, claimed) == Ok(step) && step.Keep? && vol.name in names
    ensures exists v :: v in inv.volumes && Keeps(step, vol, names, claimed, v)
  {
    hide Adopt;
    var named := ByName(inv.volumes, vol.name);
    if named.Some? {
      assert Keeps(step, vol, names, claimed, named.value);
    } else {
      var v := Adopt(vol, names, inv, free, claimed).value.value;
      AdoptedIsCandidate(vol, names, inv, free, claimed, v);
      assert Keeps(step, vol, names, claimed, v);
    }
  }

  lemma CreateOf(vol: VolSpec, names: set<string>, inv: Inventory, free: seq<Drive>, claimed: set<string>, step: Step)
    requires StepFor(vol, names, inv, free, claimed) == Ok(step) && step.Create?
    ensures CreateStep(vol, free) == Ok(step) && step.name == vol.name && step.raid == vol.raid
    ensures forall v :: v in inv.volumes ==> v.name != Some(vol.name)
    ensures Adopt(vol, names, inv, free, claimed) == Ok(None)
  {}

  /** The drives of a create step are distinct free drives that report its size,
      and every other free drive reports a size strictly beyond. */
  ghost predicate Built(step: Step, vol: VolSpec, free: seq<Drive>) {
    && step.Create? && step.size > 0 && |step.drives| == vol.count && NoDup(step.drives)
    && (forall p :: p in step.drives ==> exists d :: d in free && d.path == p && d.capacity == Some(step.size))
    && (forall e :: e in free && e.path !in step.drives ==>
      e.capacity.Some? && if vol.select.Smallest? then step.size < e.capacity.value else e.capacity.value < step.size)
  }

  lemma {:induction false} PathsNoDup(s: seq<Drive>)
    requires DistinctKeys(DrivePath, s)
    ensures NoDup(Paths(s))
  {
    forall i, j | 0 <= i < j < |s| ensures Paths(s)[i] != Paths(s)[j] {
      MapAt(DrivePath, s, i);
      MapAt(DrivePath, s, j);
    }
  }

  lemma SublistKeys(s: seq<Drive>, pick: seq<Drive>)
    requires DistinctKeys(DrivePath, s) && NoDup(pick) && SetOf(pick) <= SetOf(s)
    ensures DistinctKeys(DrivePath, pick)
  {
    forall i, j | 0 <= i < j < |pick| ensures DrivePath(pick[i]) != DrivePath(pick[j]) {
      assert pick[i] in SetOf(pick) && pick[j] in SetOf(pick);
      assert pick[i] in s && pick[j] in s;
    }
  }

  /** The picked drives are one size and every other is strictly beyond. */
  ghost predicate Extreme(select: Select, size: int, free: seq<Drive>, pick: seq<Drive>) {
    && (forall d :: d in pick ==> d in free && Capacity(d) == size)
    && (forall e :: e in free && e !in pick ==>
      if select.Smallest? then size < Capacity(e) else Capacity(e) < size)
  }

  lemma AcceptedPick(vol: VolSpec, free: seq<Drive>, step: Step)
    requires CreateStep(vol, free) == Ok(step)
    ensures var (pick, rest) := Pick(free, vol.select, vol.count);
      |free| >= vol.count && pick != [] && Equal(pick) && !Shared(pick, rest)
        && AllKnown(free) && step.Create? && step.drives == Paths(pick) && step.size == Capacity(pick[0])
  {}

  lemma ExtremeOfSet(select: Select, n: nat, free: seq<Drive>, pick: seq<Drive>)
    requires pick != [] && IsExtreme(SetOf(free), select, n, SetOf(pick))
    ensures Extreme(select, Capacity(pick[0]), free, pick)
  {
    assert pick[0] in SetOf(pick);
    forall e | e in free && e !in pick
      ensures if select.Smallest? then Capacity(pick[0]) < Capacity(e) else Capacity(e) < Capacity(pick[0])
    {
      assert e in SetOf(free) - SetOf(pick);
      assert Beyond(select, pick[0], e);
    }
    forall d | d in pick ensures d in free && Capacity(d) == Capacity(pick[0]) {
      assert d in SetOf(pick) && d in SetOf(free);
    }
  }

  lemma PickIsExtreme(vol: VolSpec, free: seq<Drive>, step: Step)
    requires NoDup(free) && Sorted(DriveLe, free) && vol.count >= 1 && CreateStep(vol, free) == Ok(step)
    ensures var pick := Pick(free, vol.select, vol.count).0;
      NoDup(pick) && |pick| == vol.count && SetOf(pick) <= SetOf(free) && Extreme(vol.select, step.size, free, pick)
  {
    hide Equal, Shared, Extreme, Pick, CreateStep, IsExtreme;
    var (pick, rest) := Pick(free, vol.select, vol.count);
    AcceptedPick(vol, free, step);
    PickSplits(free, vol.select, vol.count);
    ChecksAcceptExtremes(free, vol.select, vol.count);
    ExtremeOfSet(vol.select, vol.count, free, pick);
  }

  lemma CreateBuilds(vol: VolSpec, free: seq<Drive>, step: Step)
    requires DistinctKeys(DrivePath, free) && Sorted(DriveLe, free) && vol.count >= 1
    requires CreateStep(vol, free) == Ok(step)
    ensures Built(step, vol, free)
  {
    DistinctKeysNoDup(DrivePath, free);
    PickIsExtreme(vol, free, step);
    var pick := Pick(free, vol.select, vol.count).0;
    hide Pick;
    SublistKeys(free, pick);
    PathsNoDup(pick);
    PathMembers(pick);
    AllKnownMeans(free);
    AcceptedPick(vol, free, step);
    hide Known, Capacity, AllKnown, CreateStep;
    assert forall p :: p in step.drives <==> p in PathSet(pick);
    assert pick[0] in pick;
    forall p | p in step.drives ensures exists d :: d in free && d.path == p && d.capacity == Some(step.size) {
      var d :| d in pick && d.path == p;
      assert d in free;
    }
  }

  // ---- the whole plan ---------------------------------------------------------------------

  /** The step builds a volume from drives that nothing uses. */
  ghost predicate UsesFreeDrives(inv: Inventory, step: Step) {
    && NoDup(step.drives)
    && (forall p :: p in step.drives ==> exists d :: d in inv.drives && d.path == p && IsFree(d))
    && (forall p, v :: p in step.drives && v in inv.volumes ==> p !in v.drives)
  }

  predicate IsKept(step: Step, v: Volume) {
    && step.Keep? && v.id == step.id && v.drives == step.drives && v.capacity == step.capacity
    && (Normal(v.raidType) == "" || Normal(v.raidType) == RaidText(step.raid))
  }

  ghost predicate KeepsExisting(inv: Inventory, step: Step) {
    && step.Keep?
    && exists v :: v in inv.volumes && v.path == step.path && IsKept(step, v)
  }

  lemma SpecNames(spec: seq<VolSpec>, i: nat)
    requires i < |spec|
    ensures spec[i].name in NamesIn(spec)
  {
    assert spec[i] in spec;
  }

  lemma StepFacts(spec: seq<VolSpec>, inv: Inventory, plan: seq<Step>, i: nat)
    requires WellFormed(inv) && ValidSpec(spec) && i < |spec| == |plan| && StepIs(spec, inv, plan, i)
    ensures plan[i].name == spec[i].name && plan[i].raid == spec[i].raid
    ensures plan[i].Keep? ==> exists v :: v in inv.volumes && Keeps(plan[i], spec[i], NamesIn(spec), Held(plan[..i]), v)
    ensures plan[i].Create? ==> Built(plan[i], spec[i], FreeAt(inv, plan[..i]))
    ensures plan[i].Create? ==> forall v :: v in inv.volumes ==> v.name != Some(spec[i].name)
  {
    hide Built, NamesIn, Held;
    assert DrivesOk(inv.drives) && spec[i].count >= 1 by { assert spec[i] in spec; }
    SpecNames(spec, i);
    if plan[i].Keep? {
      KeepOf(spec[i], NamesIn(spec), inv, FreeAt(inv, plan[..i]), Held(plan[..i]), plan[i]);
    } else {
      CreateOf(spec[i], NamesIn(spec), inv, FreeAt(inv, plan[..i]), Held(plan[..i]), plan[i]);
      FreeFacts(inv, Taken(plan[..i]));
      FreeKeys(inv, FreeAt(inv, plan[..i]));
      CreateBuilds(spec[i], FreeAt(inv, plan[..i]), plan[i]);
    }
  }

  lemma HeldHas(plan: seq<Step>, i: nat, j: nat)
    requires i < j <= |plan|
    ensures plan[i].Keep? ==> plan[i].path in Held(plan[..j])
    ensures plan[i].Create? ==> forall p :: p in plan[i].drives ==> p in Taken(plan[..j])
  {
    assert plan[..j][i] == plan[i];
    assert plan[i] in plan[..j];
  }

  lemma DistinctKeeps(spec: seq<VolSpec>, inv: Inventory, plan: seq<Step>, i: nat, j: nat)
    requires WellFormed(inv) && ValidSpec(spec) && i < j < |spec| == |plan|
    requires StepIs(spec, inv, plan, i) && StepIs(spec, inv, plan, j)
    ensures plan[i].Keep? && plan[j].Keep? ==> plan[i].path != plan[j].path
  {
    hide StepIs, LinksOk, NamesIn, Held;
    StepFacts(spec, inv, plan, i);
    StepFacts(spec, inv, plan, j);
    HeldHas(plan, i, j);
    SpecNames(spec, i);
    SpecNames(spec, j);
    if plan[i].Keep? && plan[j].Keep? {
      var v :| v in inv.volumes && Keeps(plan[i], spec[i], NamesIn(spec), Held(plan[..i]), v);
      var w :| w in inv.volumes && Keeps(plan[j], spec[j], NamesIn(spec), Held(plan[..j]), w);
      VolumeByPath(inv, v, w);
    }
  }

  lemma BuiltUsesFree(spec: seq<VolSpec>, inv: Inventory, plan: seq<Step>, i: nat)
    requires WellFormed(inv) && ValidSpec(spec) && i < |spec| == |plan| && StepIs(spec, inv, plan, i) && plan[i].Create?
    ensures UsesFreeDrives(inv, plan[i]) && |plan[i].drives| == spec[i].count
    ensures forall p :: p in plan[i].drives ==> p !in Taken(plan[..i])
  {
    hide StepIs, IsFree, FreeAt, Taken, NamesIn, Held, Keeps;
    StepFacts(spec, inv, plan, i);
    FreeFacts(inv, Taken(plan[..i]));
    assert FreeAt(inv, plan[..i]) == Without(Taken(plan[..i]), SortedFree(inv)) by { FreeAtIs(inv, plan[..i]); }
    hide Without, SortedFree;
    forall p | p in plan[i].drives
      ensures p !in Taken(plan[..i]) && exists d :: d in inv.drives && d.path == p && IsFree(d)
    {
      var d :| d in FreeAt(inv, plan[..i]) && d.path == p;
      assert d in inv.drives && IsFree(d) && d.path !in Taken(plan[..i]);
    }
    forall p, v | p in plan[i].drives && v in inv.volumes ensures p !in v.drives {
      var d :| d in inv.drives && d.path == p && IsFree(d);
      FreeIsUnassigned(d);
    }
  }

  lemma BuiltHasSize(spec: seq<VolSpec>, inv: Inventory, plan: seq<Step>, i: nat)
    requires WellFormed(inv) && ValidSpec(spec) && i < |spec| == |plan| && StepIs(spec, inv, plan, i) && plan[i].Create?
    ensures plan[i].size > 0
    ensures forall p, d :: p in plan[i].drives && d in inv.drives && d.path == p ==> d.capacity == Some(plan[i].size)
  {
    StepFacts(spec, inv, plan, i);
    FreeFacts(inv, Taken(plan[..i]));
    FreeAtIs(inv, plan[..i]);
    hide StepIs, IsFree, FreeAt, Taken, NamesIn, Held, Without, SortedFree;
    forall p, d | p in plan[i].drives && d in inv.drives && d.path == p ensures d.capacity == Some(plan[i].size) {
      var e :| e in FreeAt(inv, plan[..i]) && e.path == p && e.capacity == Some(plan[i].size);
      DriveByPath(inv, d, e);
    }
  }

  lemma FreeIsUnassigned(d: Drive)
    requires IsFree(d)
    ensures d.volumes == [] && !Unusable(d)
  {}

  /** A drive is free iff nothing uses it, its status begins with
      "unconfigured" or "ready" and does not say "bad", and it is not reported
      as other than enabled. */
  lemma FreeMeans(d: Drive)
    ensures var status := LowerAll(Strip(d.status));
      IsFree(d) <==>
        && d.volumes == []
        && (StartsWith(status, "unconfigured") || StartsWith(status, "ready")) && !Contains(status, "bad")
        && (d.state.None? || LowerAll(Strip(d.state.value)) == "enabled")
  {
    var status := LowerAll(Strip(d.status));
    assert "unconfigured" <= "unconfigured good";
    assert FREE_STATES[0] == "unconfigured good" && FREE_STATES[1] == "unconfigured" && FREE_STATES[2] == "ready";
    assert StartsWith(status, "unconfigured good") ==> StartsWith(status, "unconfigured");
    hide LowerAll, Strip, Contains;
    assert "unconfigured" in FREE_STATES && "ready" in FREE_STATES;
  }

  lemma FreeAtIs(inv: Inventory, steps: seq<Step>)
    ensures FreeAt(inv, steps) == Without(Taken(steps), SortedFree(inv))
  {}

  /** Every volume is claimed at most once, and as it is; new volumes use
      drives that are usable and unassigned, and no drive twice. */
  lemma PlanSafety(spec: seq<VolSpec>, inv: Inventory, plan: seq<Step>)
    requires WellFormed(inv) && ValidSpec(spec) && Plan(spec, inv) == Ok(plan)
    ensures |plan| == |spec|
    ensures forall i :: 0 <= i < |plan| ==> plan[i].name == spec[i].name && plan[i].raid == spec[i].raid
    ensures forall i :: 0 <= i < |plan| && plan[i].Keep? ==> KeepsExisting(inv, plan[i])
    ensures forall i :: 0 <= i < |plan| && plan[i].Create? ==>
      UsesFreeDrives(inv, plan[i]) && |plan[i].drives| == spec[i].count && plan[i].size > 0
    ensures forall i, p :: 0 <= i < |plan| && plan[i].Create? && p in plan[i].drives ==>
      forall d :: d in inv.drives && d.path == p ==> d.capacity == Some(plan[i].size)
    ensures forall i, j :: 0 <= i < j < |plan| && plan[i].Keep? && plan[j].Keep? ==> plan[i].path != plan[j].path
    ensures forall i, j, p :: 0 <= i < j < |plan| && plan[i].Create? && plan[j].Create? && p in plan[i].drives ==>
      p !in plan[j].drives
  {
    hide WellFormed, ValidSpec, StepIs, UsesFreeDrives, KeepsExisting, Taken, Plan;
    PlanIffSteps(spec, inv, plan);
    forall i | 0 <= i < |plan|
      ensures plan[i].name == spec[i].name && plan[i].raid == spec[i].raid
      ensures (plan[i].Keep? ==> KeepsExisting(inv, plan[i]))
    {
      StepFacts(spec, inv, plan, i);
      KeptIsExisting(spec, inv, plan, i);
    }
    forall i | 0 <= i < |plan| && plan[i].Create?
      ensures UsesFreeDrives(inv, plan[i]) && |plan[i].drives| == spec[i].count && plan[i].size > 0
      ensures forall p, d :: p in plan[i].drives && d in inv.drives && d.path == p ==> d.capacity == Some(plan[i].size)
    {
      BuiltUsesFree(spec, inv, plan, i);
      BuiltHasSize(spec, inv, plan, i);
    }
    forall i, j | 0 <= i < j < |plan| && plan[i].Keep? && plan[j].Keep? ensures plan[i].path != plan[j].path {
      DistinctKeeps(spec, inv, plan, i, j);
    }
    forall i, j, p | 0 <= i < j < |plan| && plan[i].Create? && plan[j].Create? && p in plan[i].drives
      ensures p !in plan[j].drives
    {
      BuiltUsesFree(spec, inv, plan, j);
      HeldHas(plan, i, j);
    }
  }

  lemma KeptIsExisting(spec: seq<VolSpec>, inv: Inventory, plan: seq<Step>, i: nat)
    requires WellFormed(inv) && ValidSpec(spec) && i < |spec| == |plan| && StepIs(spec, inv, plan, i)
    ensures plan[i].Keep? ==> KeepsExisting(inv, plan[i])
  {
    StepFacts(spec, inv, plan, i);
    hide StepIs, NamesIn, WellFormed;
    if plan[i].Keep? {
      var v :| v in inv.volumes && Keeps(plan[i], spec[i], NamesIn(spec), Held(plan[..i]), v);
      assert IsKept(plan[i], v);
    }
  }

  /** After a create from the smallest (largest) drives every later create
      gets strictly larger (smaller) ones: a created `boot` stays below a
      `datastore` created after it. */
  lemma LaterCreatesLieBeyond(spec: seq<VolSpec>, inv: Inventory, plan: seq<Step>, i: nat, j: nat)
    requires WellFormed(inv) && ValidSpec(spec) && Plan(spec, inv) == Ok(plan)
    requires i < j < |plan| && plan[i].Create? && plan[j].Create?
    ensures i < |spec| && if spec[i].select.Smallest? then plan[i].size < plan[j].size else plan[j].size < plan[i].size
  {
    hide StepIs, IsFree, NamesIn, Held, Plan;
    PlanIffSteps(spec, inv, plan);
    StepFacts(spec, inv, plan, i);
    StepFacts(spec, inv, plan, j);
    assert spec[j] in spec;
    assert Built(plan[j], spec[j], FreeAt(inv, plan[..j]));
    var p := plan[j].drives[0];
    assert p in plan[j].drives;
    var d :| d in FreeAt(inv, plan[..j]) && d.path == p && d.capacity == Some(plan[j].size);
    HeldHas(plan, i, j);
    FreeFacts(inv, Taken(plan[..i]));
    FreeFacts(inv, Taken(plan[..j]));
    assert forall q :: q in Taken(plan[..i]) ==> q in Taken(plan[..j]) by { TakenGrows(plan, i, j); }
    assert d in FreeAt(inv, plan[..i]);
  }

  lemma TakenGrows(plan: seq<Step>, i: nat, j: nat)
    requires i <= j <= |plan|
    ensures Taken(plan[..i]) <= Taken(plan[..j])
  {
    forall s | s in plan[..i] ensures s in plan[..j] {
      var k :| 0 <= k < i && plan[..i][k] == s;
      assert plan[..j][k] == s;
    }
  }
}
