/** Executing the create steps of a storage plan, and planning again: after any
    number of them the new plan keeps what was there and what was built, and
    builds exactly what is left. */
module StorageResume {
  import opened Prelude
  import opened StorageLayout
  import opened StorageTrace
  import opened StoragePick
  import opened StorageSafety
  import opened StorageAdopt

  /** What the adapter chooses for a new volume. */
  datatype Handle = Handle(path: string, id: string, capacity: Option<int>)

  function NewVolume(step: Step, h: Handle): Volume
    requires step.Create?
  {
    Volume(h.path, h.id, Some(step.name), RaidText(step.raid), step.drives, h.capacity)
  }

  function Assigned(paths: seq<string>, volume: string, d: Drive): Drive {
    if d.path in paths then d.(volumes := [volume], status := "Online") else d
  }

  /** create_volume: one more volume, and its drives are taken. */
  function CreateVolume(inv: Inventory, step: Step, h: Handle): Inventory
    requires step.Create?
  {
    Inventory(Map((d: Drive) => Assigned(step.drives, h.path, d), inv.drives), inv.volumes + [NewVolume(step, h)])
  }

  ghost predicate Fresh(inv: Inventory, h: Handle) {
    forall v :: v in inv.volumes ==> v.path != h.path && v.id != h.id
  }

  ghost predicate AllFresh(inv: Inventory, handles: seq<Handle>) {
    && (forall h :: h in handles ==> Fresh(inv, h))
    && (forall i, j :: 0 <= i < j < |handles| ==>
      handles[i].path != handles[j].path && handles[i].id != handles[j].id)
  }

  /** A step that a well-formed adapter can execute. */
  ghost predicate Executable(inv: Inventory, step: Step, h: Handle) {
    && step.Create? && UsesFreeDrives(inv, step) && Fresh(inv, h)
    && (forall v :: v in inv.volumes ==> v.name != Some(step.name))
  }

  // ---- one create ------------------------------------------------------------------------

  lemma {:induction false} AssignedAt(inv: Inventory, step: Step, h: Handle, i: nat)
    requires step.Create? && i < |inv.drives|
    ensures CreateVolume(inv, step, h).drives[i] == Assigned(step.drives, h.path, inv.drives[i])
  {
    MapAt((d: Drive) => Assigned(step.drives, h.path, d), inv.drives, i);
  }

  lemma DrivesOkAfter(inv: Inventory, step: Step, h: Handle)
    requires step.Create? && DrivesOk(inv.drives)
    ensures DrivesOk(CreateVolume(inv, step, h).drives)
  {
    var after := CreateVolume(inv, step, h).drives;
    forall i, j | 0 <= i < j < |after| ensures after[i].path != after[j].path && after[i].id != after[j].id {
      AssignedAt(inv, step, h, i);
      AssignedAt(inv, step, h, j);
    }
  }

  /** The drives after a create: the untouched ones, and the assigned ones. */
  lemma DrivesAfter(inv: Inventory, step: Step, h: Handle, d: Drive)
    requires step.Create? && DrivesOk(inv.drives)
    ensures d.path !in step.drives ==> (d in CreateVolume(inv, step, h).drives <==> d in inv.drives)
    ensures d.path in step.drives && d in CreateVolume(inv, step, h).drives ==>
      d.volumes == [h.path] && exists e :: e in inv.drives && e.path == d.path && d == Assigned(step.drives, h.path, e)
    ensures d.path in step.drives && d in inv.drives ==>
      Assigned(step.drives, h.path, d) in CreateVolume(inv, step, h).drives
  {
    hide DrivesOk;
    var after := CreateVolume(inv, step, h).drives;
    if d in inv.drives {
      var i :| 0 <= i < |inv.drives| && inv.drives[i] == d;
      AssignedAt(inv, step, h, i);
      assert after[i] in after;
    }
    if d in after {
      var i :| 0 <= i < |after| && after[i] == d;
      AssignedAt(inv, step, h, i);
      assert inv.drives[i].path == d.path && inv.drives[i] in inv.drives;
    }
  }

  lemma FreshVolumesOk(inv: Inventory, step: Step, h: Handle)
    requires WellFormed(inv) && Executable(inv, step, h)
    ensures VolumesOk(CreateVolume(inv, step, h).volumes)
  {
    var after, v := CreateVolume(inv, step, h).volumes, NewVolume(step, h);
    forall i, j | 0 <= i < j < |after|
      ensures after[i].path != after[j].path && after[i].id != after[j].id
      ensures after[i].name.Some? ==> after[i].name != after[j].name
    {
      assert after[i] == inv.volumes[i] && inv.volumes[i] in inv.volumes;
      assert after[j] == if j < |inv.volumes| then inv.volumes[j] else v;
    }
    forall w | w in after ensures w == v || w in inv.volumes {}
  }

  lemma CreateKeepsLinks(inv: Inventory, step: Step, h: Handle)
    requires WellFormed(inv) && Executable(inv, step, h)
    ensures LinksOk(CreateVolume(inv, step, h))
  {
    var after, nv := CreateVolume(inv, step, h), NewVolume(step, h);
    assert forall w :: w in after.volumes <==> w == nv || w in inv.volumes by {
      assert after.volumes[|inv.volumes|] == nv;
      assert forall i :: 0 <= i < |inv.volumes| ==> after.volumes[i] == inv.volumes[i];
    }
    forall d, v | d in after.drives && v in after.volumes ensures d.path in v.drives <==> v.path in d.volumes {
      DrivesAfter(inv, step, h, d);
      if d.path in step.drives {
        assert v != nv ==> d.path !in v.drives;
      } else {
        assert h.path !in d.volumes;
      }
    }
    forall d, p | d in after.drives && p in d.volumes ensures exists v :: v in after.volumes && v.path == p {
      DrivesAfter(inv, step, h, d);
      if d.path in step.drives {
        assert nv in after.volumes && nv.path == p;
      } else {
        var v :| v in inv.volumes && v.path == p;
        assert v in after.volumes;
      }
    }
  }

  lemma CreateKeepsWellFormed(inv: Inventory, step: Step, h: Handle)
    requires WellFormed(inv) && Executable(inv, step, h)
    ensures WellFormed(CreateVolume(inv, step, h))
  {
    DrivesOkAfter(inv, step, h);
    FreshVolumesOk(inv, step, h);
    CreateKeepsLinks(inv, step, h);
  }

  ghost function Used(step: Step): set<string> { set p | p in step.drives }

  /** A create removes its drives from the free ones, and no others. */
  lemma FreeAfterCreate(inv: Inventory, step: Step, h: Handle)
    requires WellFormed(inv) && Executable(inv, step, h)
    ensures SortedFree(CreateVolume(inv, step, h)) == Without(Used(step), SortedFree(inv))
  {
    var after := CreateVolume(inv, step, h);
    CreateKeepsWellFormed(inv, step, h);
    FreeFacts(inv, Used(step));
    FreeFacts(after, {});
    WithoutNone(SortedFree(after));
    var a, b := Without(Used(step), SortedFree(inv)), SortedFree(after);
    hide Without, SortedFree, CreateVolume;
    forall d ensures d in a <==> d in b {
      DrivesAfter(inv, step, h, d);
      if d.path in step.drives && IsFree(d) { FreeIsUnassigned(d); }
    }
    SameMembers(a, b);
    DrivesStrict(inv, a);
    SortedUnique(DriveLe, a, b);
  }

  lemma ExistingDrivesStay(inv: Inventory, step: Step, h: Handle, v: Volume)
    requires WellFormed(inv) && Executable(inv, step, h) && v in inv.volumes
    ensures DrivesOf(CreateVolume(inv, step, h).drives, v) == DrivesOf(inv.drives, v)
  {
    var after := CreateVolume(inv, step, h);
    CreateKeepsWellFormed(inv, step, h);
    var f, g := (p: string) => AtPath(after.drives, p), (p: string) => AtPath(inv.drives, p);
    DrivesOfIs(after.drives, v);
    DrivesOfIs(inv.drives, v);
    forall i | 0 <= i < |v.drives| ensures f(v.drives[i]) == g(v.drives[i]) {
      var d, e := DriveAt(after.drives, v.drives[i]), DriveAt(inv.drives, v.drives[i]);
      assert v.drives[i] in v.drives && v.drives[i] !in step.drives;
      if d.Some? { DrivesAfter(inv, step, h, d.value); DriveFound(inv, d.value); }
      if e.Some? { DrivesAfter(inv, step, h, e.value); DriveFound(after, e.value); }
    }
    FlatMapSame(f, g, v.drives);
  }

  // ---- planning again after one create -------------------------------------------------------

  function KeptOf(step: Step, h: Handle): Step
    requires step.Create?
  {
    Keep(step.name, step.raid, step.drives, h.capacity, h.id, h.path, None)
  }

  lemma CandidatesStay(vol: VolSpec, names: set<string>, inv: Inventory, step: Step, h: Handle,
                       claimed: set<string>, claimed': set<string>)
    requires WellFormed(inv) && Executable(inv, step, h) && step.name in names
    requires claimed' == claimed || claimed' == claimed + {h.path}
    ensures Candidates(vol, names, CreateVolume(inv, step, h), claimed') == Candidates(vol, names, inv, claimed)
  {
    var after, nv := CreateVolume(inv, step, h), NewVolume(step, h);
    var p := (v: Volume) => IsCandidate(vol, names, after.drives, claimed', v);
    var q := (v: Volume) => IsCandidate(vol, names, inv.drives, claimed, v);
    forall i | 0 <= i < |inv.volumes| ensures p(inv.volumes[i]) == q(inv.volumes[i]) {
      assert inv.volumes[i] in inv.volumes;
      ExistingDrivesStay(inv, step, h, inv.volumes[i]);
    }
    FilterSame(p, q, inv.volumes);
    FilterSnoc(p, inv.volumes, nv);
  }

  lemma CandidateDrivesStay(vol: VolSpec, names: set<string>, inv: Inventory, step: Step, h: Handle,
                            claimed: set<string>)
    requires WellFormed(inv) && Executable(inv, step, h)
    ensures forall v :: v in Candidates(vol, names, inv, claimed) ==>
      DrivesOf(CreateVolume(inv, step, h).drives, v) == DrivesOf(inv.drives, v)
  {
    forall v | v in Candidates(vol, names, inv, claimed)
      ensures DrivesOf(CreateVolume(inv, step, h).drives, v) == DrivesOf(inv.drives, v)
    {
      CandidateFacts(vol, names, inv, claimed, v);
      ExistingDrivesStay(inv, step, h, v);
    }
  }

  lemma PoolStays(inv: Inventory, after: Inventory, free: seq<Drive>, cands: seq<Volume>)
    requires forall v :: v in cands ==> DrivesOf(after.drives, v) == DrivesOf(inv.drives, v)
    ensures Pool(free, after.drives, cands) == Pool(free, inv.drives, cands)
  {
    FlatMapSame((v: Volume) => DrivesOf(after.drives, v), (v: Volume) => DrivesOf(inv.drives, v), cands);
  }

  /** On the same free drives adoption decides as before the create. */
  lemma AdoptStays(vol: VolSpec, names: set<string>, inv: Inventory, step: Step, h: Handle, free: seq<Drive>,
                   claimed: set<string>, claimed': set<string>)
    requires WellFormed(inv) && Executable(inv, step, h) && step.name in names
    requires claimed' == claimed || claimed' == claimed + {h.path}
    ensures Adopt(vol, names, CreateVolume(inv, step, h), free, claimed') == Adopt(vol, names, inv, free, claimed)
  {
    hide WellFormed, UsesFreeDrives, Fresh, CreateVolume, Candidates, DrivesOf, Pool, Pick, Equal, Shared;
    var after := CreateVolume(inv, step, h);
    var cands := Candidates(vol, names, inv, claimed);
    CandidatesStay(vol, names, inv, step, h, claimed, claimed');
    CandidateDrivesStay(vol, names, inv, step, h, claimed);
    PoolStays(inv, after, free, cands);
    var pick := Pick(Sort(DriveLe, Pool(free, inv.drives, cands)), vol.select, vol.count).0;
    FindSame((v: Volume) => IsPicked(after.drives, pick, v), (v: Volume) => IsPicked(inv.drives, pick, v), cands);
  }

  lemma SmallerPoolKnown(inv: Inventory, a: seq<Drive>, b: seq<Drive>)
    requires AllKnown(a) && forall d :: d in b ==> d in a
    ensures AllKnown(b)
  {}

  lemma RoleInSmallerPool(vol: VolSpec, pool: set<Drive>, less: set<Drive>, drives: set<Drive>)
    requires HasRole(vol, pool, drives) && less <= pool && drives <= less
    ensures HasRole(vol, less, drives)
  {}

  /** An adoption outlives the loss of free drives to a create. */
  lemma AdoptionStays(vol: VolSpec, names: set<string>, inv: Inventory, step: Step, h: Handle, free: seq<Drive>,
                      claimed: set<string>, v: Volume)
    requires WellFormed(inv) && Executable(inv, step, h) && step.name in names && vol.count >= 1
    requires forall d :: d in free ==> d in inv.drives
    requires Adopt(vol, names, inv, free, claimed) == Ok(Some(v))
    ensures Adopt(vol, names, CreateVolume(inv, step, h), Without(Used(step), free), claimed) == Ok(Some(v))
  {
    var after := CreateVolume(inv, step, h);
    var less := Without(Used(step), free);
    var cands := Candidates(vol, names, inv, claimed);
    var pool, pool' := Pool(free, inv.drives, cands), Pool(less, after.drives, cands);
    CreateKeepsWellFormed(inv, step, h);
    CandidatesStay(vol, names, inv, step, h, claimed, claimed);
    CandidateDrivesStay(vol, names, inv, step, h, claimed);
    FilterMembers((d: Drive) => NotIn(Used(step), d), free);
    forall d | d in less ensures d in after.drives { DrivesAfter(inv, step, h, d); }
    AdoptionIsExact(vol, names, inv, free, claimed, v);
    AdoptionIsExact(vol, names, after, less, claimed, v);
    PoolFacts(inv, free, cands);
    PoolFacts(after, less, cands);
    PoolStays(inv, after, less, cands);
    hide Adopt, Pool, CreateVolume, DrivesOf, HasRole;
    PoolFacts(inv, less, cands);
    forall d | d in pool' ensures d in pool {
      assert InPool(inv, less, cands, d);
    }
    SmallerPoolKnown(inv, pool, pool');
    DrivesOfMembers(inv, v);
    forall d | d in SetOf(DrivesOf(inv.drives, v)) ensures d in SetOf(pool') {
      assert InPool(inv, less, cands, d);
    }
    RoleInSmallerPool(vol, SetOf(pool), SetOf(pool'), SetOf(DrivesOf(inv.drives, v)));
  }

  lemma NamedStays(inv: Inventory, step: Step, h: Handle, name: string)
    requires step.Create? && VolumesOk(inv.volumes) && VolumesOk(CreateVolume(inv, step, h).volumes)
    ensures name != step.name ==> ByName(CreateVolume(inv, step, h).volumes, name) == ByName(inv.volumes, name)
    ensures name == step.name ==> ByName(CreateVolume(inv, step, h).volumes, name) == Some(NewVolume(step, h))
  {
    var after, nv := CreateVolume(inv, step, h), NewVolume(step, h);
    assert after.volumes[|inv.volumes|] == nv;
    assert forall v :: v in inv.volumes ==> v in after.volumes;
    var a, b := ByName(after.volumes, name), ByName(inv.volumes, name);
    if name == step.name {
      VolumeByPath(after, a.value, nv);
    } else if a.Some? && b.Some? {
      VolumeByPath(after, a.value, b.value);
    }
  }

  /** A keep step before the create is decided the same way after it. */
  lemma KeepStays(vol: VolSpec, names: set<string>, inv: Inventory, step: Step, h: Handle, claimed: set<string>,
                  keep: Step)
    requires WellFormed(inv) && Executable(inv, step, h) && step.name in names
    requires vol.count >= 1 && vol.name != step.name
    requires StepFor(vol, names, inv, SortedFree(inv), claimed) == Ok(keep) && keep.Keep?
    ensures StepFor(vol, names, CreateVolume(inv, step, h), SortedFree(CreateVolume(inv, step, h)), claimed) == Ok(keep)
  {
    hide UsesFreeDrives, LinksOk, DrivesOk, Fresh, CreateVolume, Adopt, KeepStep, CreateStep, SortedFree;
    CreateKeepsWellFormed(inv, step, h);
    NamedStays(inv, step, h, vol.name);
    FreeAfterCreate(inv, step, h);
    FreeSublist(inv);
    if ByName(inv.volumes, vol.name).None? {
      CreateNotKeep(vol, SortedFree(inv));
      var v := Adopt(vol, names, inv, SortedFree(inv), claimed).value.value;
      AdoptionStays(vol, names, inv, step, h, SortedFree(inv), claimed, v);
    }
  }

  lemma CreateNotKeep(vol: VolSpec, free: seq<Drive>)
    ensures CreateStep(vol, free).Ok? ==> CreateStep(vol, free).value.Create?
  {}

  /** The created volume is found by its name. */
  lemma CreatedIsKept(vol: VolSpec, names: set<string>, inv: Inventory, step: Step, h: Handle, free: seq<Drive>,
                      claimed: set<string>)
    requires WellFormed(inv) && Executable(inv, step, h) && vol.name == step.name && vol.raid == step.raid
    ensures StepFor(vol, names, CreateVolume(inv, step, h), free, claimed) == Ok(KeptOf(step, h))
  {
    CreateKeepsWellFormed(inv, step, h);
    NamedStays(inv, step, h, vol.name);
    hide WellFormed, Executable, CreateVolume;
    RaidIsNormal(step.raid);
  }

  lemma RaidIsNormal(raid: Raid)
    ensures Normal(RaidText(raid)) == RaidText(raid)
  {
    var t := RaidText(raid);
    forall i | 0 <= i < |t| ensures Upper(t[i]) == t[i] && t[i] != ' ' {}
    SameText(t);
  }

  lemma {:induction false} SameText(t: string)
    requires forall i :: 0 <= i < |t| ==> Upper(t[i]) == t[i] && t[i] != ' '
    ensures Normal(t) == t
  {
    if t == "" {
    } else {
      SameText(t[1..]);
      assert t == [t[0]] + t[1..];
      assert UpperAll(t) == [t[0]] + UpperAll(t[1..]);
    }
  }

  /** A step after the create, on the same free drives. */
  lemma LaterStays(vol: VolSpec, names: set<string>, inv: Inventory, step: Step, h: Handle, free: seq<Drive>,
                   claimed: set<string>, claimed': set<string>)
    requires WellFormed(inv) && Executable(inv, step, h) && step.name in names && vol.name != step.name
    requires claimed' == claimed + {h.path}
    ensures StepFor(vol, names, CreateVolume(inv, step, h), free, claimed') == StepFor(vol, names, inv, free, claimed)
  {
    hide UsesFreeDrives, LinksOk, DrivesOk, Fresh, CreateVolume, Adopt, KeepStep, CreateStep;
    CreateKeepsWellFormed(inv, step, h);
    NamedStays(inv, step, h, vol.name);
    AdoptStays(vol, names, inv, step, h, free, claimed, claimed');
  }

  // ---- the whole plan after one create --------------------------------------------------------

  /** Step i is the first create of the plan. */
  ghost predicate FirstCreate(plan: seq<Step>, i: nat) {
    i < |plan| && plan[i].Create? && forall j :: 0 <= j < i ==> plan[j].Keep?
  }

  lemma PlannedIsExecutable(spec: seq<VolSpec>, inv: Inventory, plan: seq<Step>, i: nat, h: Handle)
    requires WellFormed(inv) && ValidSpec(spec) && i < |spec| == |plan| && StepIs(spec, inv, plan, i)
    requires plan[i].Create? && Fresh(inv, h)
    ensures Executable(inv, plan[i], h)
  {
    hide StepIs, WellFormed, ValidSpec, UsesFreeDrives, Fresh;
    BuiltUsesFree(spec, inv, plan, i);
    StepFacts(spec, inv, plan, i);
  }

  lemma KeepsTakeNothing(plan: seq<Step>, i: nat)
    requires i <= |plan| && forall j :: 0 <= j < i ==> plan[j].Keep?
    ensures Taken(plan[..i]) == {}
  {
    assert forall s :: s in plan[..i] ==> s.Keep?;
  }

  lemma StepBeforeCreate(spec: seq<VolSpec>, inv: Inventory, plan: seq<Step>, i: nat, h: Handle, j: nat)
    requires WellFormed(inv) && ValidSpec(spec) && |spec| == |plan| && FirstCreate(plan, i)
    requires j < i && StepIs(spec, inv, plan, j) && Executable(inv, plan[i], h) && plan[i].name == spec[i].name
    ensures StepIs(spec, CreateVolume(inv, plan[i], h), plan[i := KeptOf(plan[i], h)], j)
  {
    hide WellFormed, Executable, UsesFreeDrives, Fresh, CreateVolume, Without, SortedFree, StepFor;
    var plan', after := plan[i := KeptOf(plan[i], h)], CreateVolume(inv, plan[i], h);
    assert plan'[..j] == plan[..j];
    KeepsTakeNothing(plan, j);
    WithoutNone(SortedFree(inv));
    WithoutNone(SortedFree(after));
    SpecNames(spec, i);
    assert spec[j] in spec;
    KeepStays(spec[j], NamesIn(spec), inv, plan[i], h, Held(plan[..j]), plan[j]);
  }

  lemma StateAfterCreate(plan: seq<Step>, i: nat, h: Handle, j: nat)
    requires i < j <= |plan| && plan[i].Create?
    ensures var plan' := plan[i := KeptOf(plan[i], h)];
      Used(plan[i]) + Taken(plan'[..j]) == Taken(plan[..j]) && Held(plan'[..j]) == Held(plan[..j]) + {h.path}
  {
    var plan' := plan[i := KeptOf(plan[i], h)];
    var before, after := plan[..i], plan[i + 1..j];
    assert plan[..j] == before + ([plan[i]] + after);
    assert plan'[..j] == before + ([plan'[i]] + after);
    TakenOfTwo(before, [plan[i]] + after);
    TakenOfTwo(before, [plan'[i]] + after);
    TakenStep(plan[i], after);
    TakenStep(plan'[i], after);
    TakenOfOne(plan[i]);
    TakenOfOne(plan'[i]);
    hide Taken, Held, Used;
  }

  lemma TakenOfOne(step: Step)
    ensures Taken([step]) == if step.Create? then Used(step) else {}
    ensures Held([step]) == if step.Keep? then {step.path} else {}
  {
    assert [step][0] == step;
  }

  lemma TakenOfTwo(a: seq<Step>, b: seq<Step>)
    ensures Taken(a + b) == Taken(a) + Taken(b)
    ensures Held(a + b) == Held(a) + Held(b)
  {
    forall s ensures s in a + b <==> s in a || s in b {}
  }

  lemma StepAfterCreate(spec: seq<VolSpec>, inv: Inventory, plan: seq<Step>, i: nat, h: Handle, j: nat)
    requires WellFormed(inv) && ValidSpec(spec) && |spec| == |plan| && FirstCreate(plan, i)
    requires i < j < |plan| && StepIs(spec, inv, plan, j) && Executable(inv, plan[i], h) && plan[i].name == spec[i].name
    ensures StepIs(spec, CreateVolume(inv, plan[i], h), plan[i := KeptOf(plan[i], h)], j)
  {
    hide WellFormed, UsesFreeDrives, Fresh, CreateVolume, Without, SortedFree, StepFor;
    var plan', after := plan[i := KeptOf(plan[i], h)], CreateVolume(inv, plan[i], h);
    StateAfterCreate(plan, i, h, j);
    FreeAfterCreate(inv, plan[i], h);
    WithoutTwice(Used(plan[i]), Taken(plan'[..j]), SortedFree(inv));
    assert FreeAt(after, plan'[..j]) == FreeAt(inv, plan[..j]);
    SpecNames(spec, i);
    LaterStays(spec[j], NamesIn(spec), inv, plan[i], h, FreeAt(inv, plan[..j]), Held(plan[..j]), Held(plan'[..j]));
  }

  /** Executing the first create turns that step into a keep, and changes no
      other step. */
  lemma OneCreate(spec: seq<VolSpec>, inv: Inventory, plan: seq<Step>, i: nat, h: Handle)
    requires WellFormed(inv) && ValidSpec(spec) && Plan(spec, inv) == Ok(plan)
    requires FirstCreate(plan, i) && Fresh(inv, h)
    ensures WellFormed(CreateVolume(inv, plan[i], h))
    ensures Plan(spec, CreateVolume(inv, plan[i], h)) == Ok(plan[i := KeptOf(plan[i], h)])
  {
    hide WellFormed, Fresh, CreateVolume, Plan, StepIs, Executable;
    var plan', after := plan[i := KeptOf(plan[i], h)], CreateVolume(inv, plan[i], h);
    PlanIffSteps(spec, inv, plan);
    PlannedIsExecutable(spec, inv, plan, i, h);
    CreateKeepsWellFormed(inv, plan[i], h);
    StepFacts(spec, inv, plan, i);
    forall j | 0 <= j < |plan'| ensures StepIs(spec, after, plan', j) {
      if j < i {
        StepBeforeCreate(spec, inv, plan, i, h, j);
      } else if j > i {
        StepAfterCreate(spec, inv, plan, i, h, j);
      } else {
        CreatedIsKept(spec[i], NamesIn(spec), inv, plan[i], h, FreeAt(after, plan'[..i]), Held(plan'[..i]));
        StepIsBy(spec, after, plan', i);
      }
    }
    PlanIffSteps(spec, after, plan');
  }

  lemma StepIsBy(spec: seq<VolSpec>, inv: Inventory, plan: seq<Step>, i: nat)
    requires i < |spec| == |plan|
    requires StepFor(spec[i], NamesIn(spec), inv, FreeAt(inv, plan[..i]), Held(plan[..i])) == Ok(plan[i])
    ensures StepIs(spec, inv, plan, i)
  {}

  // ---- any number of creates --------------------------------------------------------------------

  function Creates(plan: seq<Step>): (r: seq<Step>)
    ensures forall s :: s in r ==> s.Create?
  {
    FilterMembers((s: Step) => s.Create?, plan);
    Filter((s: Step) => s.Create?, plan)
  }

  /** The adapter after it executed one create for each handle. */
  function Executed(inv: Inventory, creates: seq<Step>, handles: seq<Handle>): Inventory
    requires forall s :: s in creates ==> s.Create?
    decreases |creates|
  {
    if creates == [] || handles == [] then inv
    else Executed(CreateVolume(inv, creates[0], handles[0]), creates[1..], handles[1..])
  }

  /** The plan with the executed creates turned into keeps. */
  function Resumed(plan: seq<Step>, handles: seq<Handle>): (r: seq<Step>)
    ensures |r| == |plan|
  {
    if plan == [] || handles == [] then plan
    else if plan[0].Keep? then [plan[0]] + Resumed(plan[1..], handles)
    else [KeptOf(plan[0], handles[0])] + Resumed(plan[1..], handles[1..])
  }

  /** The next create of a plan, and the plan once it is executed. */
  lemma {:induction false} NextCreate(plan: seq<Step>, handles: seq<Handle>) returns (i: nat)
    requires Creates(plan) != [] && handles != []
    ensures FirstCreate(plan, i) && Creates(plan)[0] == plan[i]
    ensures Creates(plan[i := KeptOf(plan[i], handles[0])]) == Creates(plan)[1..]
    ensures Resumed(plan[i := KeptOf(plan[i], handles[0])], handles[1..]) == Resumed(plan, handles)
  {
    if plan[0].Create? {
      i := 0;
      assert plan[0 := KeptOf(plan[0], handles[0])][1..] == plan[1..];
    } else {
      var k := NextCreate(plan[1..], handles);
      i := k + 1;
      assert plan[i := KeptOf(plan[i], handles[0])] == [plan[0]] + plan[1..][k := KeptOf(plan[i], handles[0])];
      assert plan[i := KeptOf(plan[i], handles[0])][1..] == plan[1..][k := KeptOf(plan[1..][k], handles[0])];
      forall j | 0 <= j < i ensures plan[j].Keep? { assert j > 0 ==> plan[j] == plan[1..][j - 1]; }
    }
  }

  lemma {:induction false} NoCreates(plan: seq<Step>, handles: seq<Handle>)
    requires Creates(plan) == []
    ensures Resumed(plan, handles) == plan
  {
    if plan == [] {
    } else {
      assert plan[0].Keep?;
      NoCreates(plan[1..], handles);
    }
  }

  lemma FreshAfter(inv: Inventory, step: Step, handles: seq<Handle>)
    requires step.Create? && handles != [] && AllFresh(inv, handles)
    ensures AllFresh(CreateVolume(inv, step, handles[0]), handles[1..])
  {
    var after := CreateVolume(inv, step, handles[0]);
    forall h | h in handles[1..] ensures Fresh(after, h) {
      var k :| 0 <= k < |handles[1..]| && handles[1..][k] == h;
      assert handles[k + 1] == h && h in handles;
    }
  }

  /** Planning again after any number of a plan's creates succeeds, keeps what
      was kept and what was created, and leaves the other creates as they were. */
  lemma {:induction false} ResumeAfterInterruption(spec: seq<VolSpec>, inv: Inventory, plan: seq<Step>,
                                                   handles: seq<Handle>)
    requires WellFormed(inv) && ValidSpec(spec) && Plan(spec, inv) == Ok(plan) && AllFresh(inv, handles)
    ensures WellFormed(Executed(inv, Creates(plan), handles))
    ensures Plan(spec, Executed(inv, Creates(plan), handles)) == Ok(Resumed(plan, handles))
    decreases |handles|
  {
    hide WellFormed, ValidSpec, Plan, CreateVolume, Creates;
    if Creates(plan) == [] {
      NoCreates(plan, handles);
    } else if handles == [] {
    } else {
      var i := NextCreate(plan, handles);
      assert Fresh(inv, handles[0]);
      OneCreate(spec, inv, plan, i, handles[0]);
      FreshAfter(inv, plan[i], handles);
      ResumeAfterInterruption(spec, CreateVolume(inv, plan[i], handles[0]),
                              plan[i := KeptOf(plan[i], handles[0])], handles[1..]);
    }
  }

  // ---- what a resumed plan says -------------------------------------------------------------------

  /** Exactly the creates that are left, with the same drives. */
  lemma {:induction false} ResumedCreates(plan: seq<Step>, handles: seq<Handle>)
    ensures Creates(Resumed(plan, handles)) ==
      if |handles| <= |Creates(plan)| then Creates(plan)[|handles|..] else []
  {
    if plan == [] || handles == [] {
    } else {
      if plan[0].Keep? {
        ResumedCreates(plan[1..], handles);
      } else {
        ResumedCreates(plan[1..], handles[1..]);
        assert Creates(plan) == [plan[0]] + Creates(plan[1..]);
      }
    }
  }

  /** A step that was a keep is the same keep; a create is the same create or
      the keep of the volume built for it. */
  lemma {:induction false} ResumedStep(plan: seq<Step>, handles: seq<Handle>, k: nat)
    requires k < |plan|
    ensures var before, after := plan[k], Resumed(plan, handles)[k];
      var made := |Creates(plan[..k])|;
      after == if before.Create? && made < |handles| then KeptOf(before, handles[made]) else before
  {
    if k == 0 {
      assert plan[..0] == [];
    } else if handles == [] {
    } else {
      var front := plan[1..][..k - 1];
      assert plan[..k] == [plan[0]] + front;
      CreatesOfMore(plan[0], front);
      hide Creates;
      ResumedStep(plan[1..], if plan[0].Keep? then handles else handles[1..], k - 1);
    }
  }

  lemma CreatesOfMore(step: Step, rest: seq<Step>)
    ensures Creates([step] + rest) == (if step.Create? then [step] else []) + Creates(rest)
  {
    assert ([step] + rest)[1..] == rest;
  }

  /** With every create executed, planning again only keeps. */
  lemma CompletedIsIdempotent(spec: seq<VolSpec>, inv: Inventory, plan: seq<Step>, handles: seq<Handle>)
    requires WellFormed(inv) && ValidSpec(spec) && Plan(spec, inv) == Ok(plan) && AllFresh(inv, handles)
    requires |handles| >= |Creates(plan)|
    ensures var again := Plan(spec, Executed(inv, Creates(plan), handles));
      again.Ok? && forall s :: s in again.value ==> s.Keep?
  {
    hide WellFormed, ValidSpec, Plan, AllFresh;
    ResumeAfterInterruption(spec, inv, plan, handles);
    ResumedCreates(plan, handles);
    var again := Resumed(plan, handles);
    forall s | s in again ensures s.Keep? {
      FilterMember((s: Step) => s.Create?, again, s);
    }
  }

  // ---- what execution leaves alone ----------------------------------------------------------------

  /** The drives and volumes of a are in b as they were, and new volumes come after. */
  ghost predicate Preserved(a: Inventory, b: Inventory) {
    && a.volumes <= b.volumes
    && (forall d: Drive, v :: v in a.volumes && d.path in v.drives ==> (d in b.drives <==> d in a.drives))
  }

  lemma CreatePreserves(inv: Inventory, step: Step, h: Handle)
    requires WellFormed(inv) && Executable(inv, step, h)
    ensures Preserved(inv, CreateVolume(inv, step, h))
  {
    forall d: Drive, v | v in inv.volumes && d.path in v.drives
      ensures d in CreateVolume(inv, step, h).drives <==> d in inv.drives
    {
      DrivesAfter(inv, step, h, d);
    }
  }

  lemma PreservedTwice(a: Inventory, b: Inventory, c: Inventory)
    requires Preserved(a, b) && Preserved(b, c)
    ensures Preserved(a, c)
  {
    assert forall v :: v in a.volumes ==> v in b.volumes;
  }

  /** Executing any number of a plan's creates changes no existing volume and
      no drive of one. */
  lemma {:induction false} ExistingVolumesSurvive(spec: seq<VolSpec>, inv: Inventory, plan: seq<Step>,
                                                  handles: seq<Handle>)
    requires WellFormed(inv) && ValidSpec(spec) && Plan(spec, inv) == Ok(plan) && AllFresh(inv, handles)
    ensures Preserved(inv, Executed(inv, Creates(plan), handles))
    decreases |handles|
  {
    hide WellFormed, ValidSpec, Plan, CreateVolume, Creates, StepIs, Executable, Preserved;
    if Creates(plan) != [] && handles != [] {
      var i := NextCreate(plan, handles);
      var after := CreateVolume(inv, plan[i], handles[0]);
      assert Fresh(inv, handles[0]);
      PlanIffSteps(spec, inv, plan);
      PlannedIsExecutable(spec, inv, plan, i, handles[0]);
      CreatePreserves(inv, plan[i], handles[0]);
      OneCreate(spec, inv, plan, i, handles[0]);
      FreshAfter(inv, plan[i], handles);
      ExistingVolumesSurvive(spec, after, plan[i := KeptOf(plan[i], handles[0])], handles[1..]);
      PreservedTwice(inv, after, Executed(inv, Creates(plan), handles));
    } else {
      PreservedSelf(inv);
    }
  }

  lemma PreservedSelf(inv: Inventory)
    ensures Preserved(inv, inv)
  {}
}
