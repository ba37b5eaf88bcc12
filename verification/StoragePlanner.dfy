/** plan_volumes and _adopt of the storage layout with the loops of the source:
    they compute the planner of StorageLayout. */
module StoragePlanner {
  import opened Prelude
  import opened StorageLayout

  method CollectCandidates(vol: VolSpec, names: set<string>, inv: Inventory, claimed: set<string>)
    returns (cands: seq<Volume>)
    ensures cands == Candidates(vol, names, inv, claimed)
  {
    ghost var p := (v: Volume) => IsCandidate(vol, names, inv.drives, claimed, v);
    cands := [];
    for i := 0 to |inv.volumes|
      invariant cands == Filter(p, inv.volumes[..i])
    {
      var cand := inv.volumes[i];
      assert inv.volumes[..i + 1] == inv.volumes[..i] + [cand];
      FilterSnoc(p, inv.volumes[..i], cand);
      if cand.path in claimed || (cand.name.Some? && cand.name.value in names) { continue; }
      if Normal(cand.raidType) != RaidText(vol.raid) { continue; }
      var drives := DrivesOf(inv.drives, cand);
      if cand.drives == [] || |drives| != |cand.drives| || |cand.drives| != vol.count { continue; }
      cands := cands + [cand];
    }
    assert inv.volumes[..|inv.volumes|] == inv.volumes;
  }

  method CollectPool(free: seq<Drive>, drives: seq<Drive>, cands: seq<Volume>) returns (pool: seq<Drive>)
    ensures pool == Pool(free, drives, cands)
  {
    ghost var f := (v: Volume) => DrivesOf(drives, v);
    pool := PutAll(DrivePath, [], free);
    ghost var first := pool;
    assert FlatMap(f, cands[..0]) == [] && PutAll(DrivePath, first, []) == first;
    hide PutAll, FlatMap, DrivesOf;
    for i := 0 to |cands|
      invariant pool == PutAll(DrivePath, first, FlatMap(f, cands[..i]))
    {
      assert cands[..i + 1] == cands[..i] + [cands[i]];
      FlatMapSnoc(f, cands[..i], cands[i]);
      PutAllAppend(DrivePath, first, FlatMap(f, cands[..i]), DrivesOf(drives, cands[i]));
      pool := PutAll(DrivePath, pool, DrivesOf(drives, cands[i]));
    }
    assert cands[..|cands|] == cands;
  }

  method AdoptVolume(vol: VolSpec, names: set<string>, inv: Inventory, free: seq<Drive>, claimed: set<string>)
    returns (r: Result<Option<Volume>, Error>)
    ensures r == Adopt(vol, names, inv, free, claimed)
  {
    hide IsPicked, Equal, Shared, Pick, Pool, Candidates;
    var cands := CollectCandidates(vol, names, inv, claimed);
    if cands == [] { return Ok(None); }
    var pool := CollectPool(free, inv.drives, cands);
    if !AllKnown(pool) { return Err(CapacityUnknown(vol.name)); }
    var (pick, rest) := Pick(Sort(DriveLe, pool), vol.select, vol.count);
    ghost var p := (v: Volume) => IsPicked(inv.drives, pick, v);
    for i := 0 to |cands|
      invariant Find(p, cands) == Find(p, cands[i..])
    {
      if !IsPicked(inv.drives, pick, cands[i]) { continue; }
      assert Find(p, cands[i..]) == Some(cands[i]);
      if pick != [] && Equal(pick) && Shared(pick, rest) { return Err(AmbiguousRole(vol.name)); }
      return Ok(Some(cands[i]));
    }
    assert cands[|cands|..] == [];
    return Ok(None);
  }

  /** The decisions so far, followed by those for the rest. */
  ghost function Prefixed(done: seq<Step>, rest: Result<seq<Step>, Error>): Result<seq<Step>, Error> {
    match rest
    case Err(e) => Err(e)
    case Ok(steps) => Ok(done + steps)
  }

  lemma PrefixedEnds(done: seq<Step>, r: Result<seq<Step>, Error>)
    ensures Prefixed([], r) == r && Prefixed(done, Ok([])) == Ok(done)
  {
    assert done + [] == done;
    if r.Ok? { assert [] + r.value == r.value; }
  }

  lemma PrefixedStep(vols: seq<VolSpec>, names: set<string>, inv: Inventory, free: seq<Drive>, claimed: set<string>,
                     done: seq<Step>)
    requires vols != []
    ensures var decided := StepFor(vols[0], names, inv, free, claimed);
      Prefixed(done, PlanFrom(vols, names, inv, free, claimed)) ==
        if decided.Err? then Err(decided.error)
        else Prefixed(done + [decided.value],
                      PlanFrom(vols[1..], names, inv, FreeAfter(free, decided.value),
                               ClaimedAfter(claimed, decided.value)))
  {
    hide StepFor, FreeAfter, ClaimedAfter;
    var decided := StepFor(vols[0], names, inv, free, claimed);
    if decided.Ok? {
      var step := decided.value;
      var rest := PlanFrom(vols[1..], names, inv, FreeAfter(free, step), ClaimedAfter(claimed, step));
      if rest.Ok? { assert done + ([step] + rest.value) == (done + [step]) + rest.value; }
    }
  }

  method DecideStep(vol: VolSpec, names: set<string>, inv: Inventory, free: seq<Drive>, claimed: set<string>)
    returns (r: Result<Step, Error>)
    ensures r == StepFor(vol, names, inv, free, claimed)
  {
    hide Adopt, KeepStep, CreateStep;
    var existing := ByName(inv.volumes, vol.name);
    var adoptedFrom: Option<string> := None;
    if existing.None? {
      var adopted := AdoptVolume(vol, names, inv, free, claimed);
      if adopted.Err? { return Err(adopted.error); }
      existing := adopted.value;
      if existing.Some? { adoptedFrom := existing.value.name; }
    }
    r := if existing.Some? then KeepStep(vol, existing.value, adoptedFrom) else CreateStep(vol, free);
  }

  method PlanVolumes(spec: seq<VolSpec>, inv: Inventory) returns (r: Result<seq<Step>, Error>)
    ensures r == Plan(spec, inv)
  {
    hide StepFor, SortedFree, FreeAfter, ClaimedAfter, Prefixed;
    var names := NamesIn(spec);
    var claimed: set<string> := {};
    var free := SortedFree(inv);
    var plan: seq<Step> := [];
    assert spec[0..] == spec;
    PrefixedEnds([], Plan(spec, inv));
    for i := 0 to |spec|
      invariant Plan(spec, inv) == Prefixed(plan, PlanFrom(spec[i..], names, inv, free, claimed))
    {
      assert spec[i..][0] == spec[i] && spec[i..][1..] == spec[i + 1..];
      PrefixedStep(spec[i..], names, inv, free, claimed, plan);
      var decided := DecideStep(spec[i], names, inv, free, claimed);
      if decided.Err? { return Err(decided.error); }
      plan := plan + [decided.value];
      free := FreeAfter(free, decided.value);
      claimed := ClaimedAfter(claimed, decided.value);
    }
    assert spec[|spec|..] == [];
    PrefixedEnds(plan, Ok([]));
    return Ok(plan);
  }
}
