/** apply_storage_layout: plan, then create the missing volumes in order, each
    looked up by its name once it is made; a dry run only predicts. */
module StorageApply {
  import opened Prelude
  import opened StorageLayout
  import opened StorageTrace
  import opened StorageSafety
  import opened StorageResume
  import opened StoragePlanner

  /** resolved: the adapter's id of each entry's volume. */
  datatype Summary = Summary(
    plan: seq<Step>, created: seq<string>, kept: seq<string>, resolved: map<string, string>, bootIsFirst: bool)

  datatype ApplyError =
    | PoweredOff
    | NotEnumerated
    | Refused(error: Error)
    | NotAppeared(name: string)

  function StepName(s: Step): string { s.name }

  function KeptSteps(plan: seq<Step>): seq<Step> { Filter((s: Step) => s.Keep?, plan) }

  /** The ids of the volumes that a plan keeps; a later step wins. */
  function KeptIds(plan: seq<Step>): map<string, string> {
    if plan == [] then map[]
    else
      var last := plan[|plan| - 1];
      var front := KeptIds(plan[..|plan| - 1]);
      if last.Keep? then front[last.name := last.id] else front
  }

  function FirstNamed(volumes: seq<Volume>, name: string): Option<Volume> {
    Find((v: Volume) => v.name == Some(name), volumes)
  }

  function IdOf(ids: map<string, string>, name: string): Option<string> {
    if name in ids then Some(ids[name]) else None
  }

  /** The ids once the creates are executed: each is the id of the first volume
      then listed under the name. */
  function Resolved(inv: Inventory, creates: seq<Step>, handles: seq<Handle>, ids: map<string, string>)
    : map<string, string>
    requires forall s :: s in creates ==> s.Create?
    decreases |creates|
  {
    if creates == [] || handles == [] then ids
    else
      var after := CreateVolume(inv, creates[0], handles[0]);
      var found := FirstNamed(after.volumes, creates[0].name);
      var now := if found.Some? then ids[creates[0].name := found.value.id] else ids;
      Resolved(after, creates[1..], handles[1..], now)
  }

  /** The dry-run verdict. */
  predicate PredictedFirst(plan: seq<Step>, boot: string, inv: Inventory)
    requires plan != []
  {
    if plan[0].Create? then inv.volumes == [] else BootIsFirst(IdOf(KeptIds(plan), boot), inv.volumes)
  }

  lemma CreatedAppears(inv: Inventory, step: Step, h: Handle)
    requires step.Create?
    ensures FirstNamed(CreateVolume(inv, step, h).volumes, step.name).Some?
  {
    var vs := CreateVolume(inv, step, h).volumes;
    assert vs[|inv.volumes|] == NewVolume(step, h);
    FindHits((v: Volume) => v.name == Some(step.name), vs, NewVolume(step, h));
  }

  lemma CreatesTail(plan: seq<Step>, i: nat)
    requires i < |plan|
    ensures Creates(plan[i..]) == (if plan[i].Create? then [plan[i]] else []) + Creates(plan[i + 1..])
  {
    assert plan[i..] == [plan[i]] + plan[i + 1..];
    CreatesOfMore(plan[i], plan[i + 1..]);
  }

  method CollectNames(plan: seq<Step>) returns (kept: seq<string>, ids: map<string, string>)
    ensures kept == Map(StepName, KeptSteps(plan)) && ids == KeptIds(plan)
  {
    kept, ids := [], map[];
    for i := 0 to |plan|
      invariant kept == Map(StepName, KeptSteps(plan[..i])) && ids == KeptIds(plan[..i])
    {
      assert plan[..i + 1] == plan[..i] + [plan[i]];
      assert plan[..i + 1][..i] == plan[..i];
      FilterSnoc((s: Step) => s.Keep?, plan[..i], plan[i]);
      MapSnoc(StepName, KeptSteps(plan[..i]), plan[i]);
      assert KeptSteps(plan[..i]) + [] == KeptSteps(plan[..i]);
      if plan[i].Keep? {
        kept := kept + [plan[i].name];
        ids := ids[plan[i].name := plan[i].id];
      }
    }
    assert plan[..|plan|] == plan;
  }

  class Adapter {
    var powered: bool
    var drives: seq<Drive>
    var volumes: seq<Volume>

    constructor (powered: bool, drives: seq<Drive>, volumes: seq<Volume>)
      ensures this.powered == powered && Listed() == Inventory(drives, volumes)
    {
      this.powered, this.drives, this.volumes := powered, drives, volumes;
    }

    function Listed(): Inventory
      reads this
    {
      Inventory(drives, volumes)
    }

    method Create(step: Step, h: Handle)
      requires step.Create?
      modifies this`drives, this`volumes
      ensures Listed() == CreateVolume(old(Listed()), step, h)
    {
      volumes := volumes + [NewVolume(step, h)];
      drives := Collect((d: Drive) => Assigned(step.drives, h.path, d), drives);
    }

    /** The creates of the plan, in order; the adapter makes as many volumes as
        there are handles. */
    method CreateAll(plan: seq<Step>, handles: seq<Handle>, ids: map<string, string>)
      returns (missing: Option<string>, created: seq<string>, resolved: map<string, string>)
      modifies this`drives, this`volumes
      ensures Listed() == Executed(old(Listed()), Creates(plan), handles)
      ensures missing.Some? <==> |handles| < |Creates(plan)|
      ensures missing.Some? ==> missing.value == Creates(plan)[|handles|].name
      ensures missing.None? ==> created == Map(StepName, Creates(plan))
      ensures missing.None? ==> resolved == Resolved(old(Listed()), Creates(plan), handles, ids)
    {
      hide Creates, CreateVolume;
      created, resolved := [], ids;
      assert plan[0..] == plan;
      assert [] + Map(StepName, Creates(plan)) == Map(StepName, Creates(plan));
      ghost var all := Creates(plan);
      var made := 0;
      for i := 0 to |plan|
        invariant made <= |handles| && made <= |all| && all[made..] == Creates(plan[i..])
        invariant Executed(Listed(), Creates(plan[i..]), handles[made..]) == Executed(old(Listed()), all, handles)
        invariant Resolved(Listed(), Creates(plan[i..]), handles[made..], resolved)
          == Resolved(old(Listed()), all, handles, ids)
        invariant created + Map(StepName, Creates(plan[i..])) == Map(StepName, all)
      {
        CreatesTail(plan, i);
        if plan[i].Keep? { continue; }
        ghost var rest := Creates(plan[i..]);
        assert rest[0] == plan[i] && rest[1..] == Creates(plan[i + 1..]);
        if made == |handles| {
          return Some(plan[i].name), created, resolved;
        }
        assert handles[made..][1..] == handles[made + 1..];
        CreatedAppears(Listed(), plan[i], handles[made]);
        Create(plan[i], handles[made]);
        var appeared := FirstNamed(volumes, plan[i].name);
        made := made + 1;
        created := created + [plan[i].name];
        resolved := resolved[plan[i].name := appeared.value.id];
      }
      assert plan[|plan|..] == [];
      assert Creates([]) == [] by { CreatesNone(); }
      missing := None;
    }

    /** Plans, and unless it is a dry run creates what is missing. */
    method Apply(spec: seq<VolSpec>, dryRun: bool, enumerates: bool, handles: seq<Handle>)
      returns (r: Result<Summary, ApplyError>)
      requires spec != []
      modifies this
      ensures powered == (old(powered) || !dryRun)
      ensures !old(powered) && dryRun ==> r == Err(PoweredOff)
      ensures !old(powered) && !dryRun && !enumerates ==> r == Err(NotEnumerated)
      ensures var plan := Plan(spec, old(Listed()));
        if dryRun || plan.Err? || (!old(powered) && !enumerates) then Listed() == old(Listed())
        else Listed() == Executed(old(Listed()), Creates(plan.value), handles)
      ensures var plan := Plan(spec, old(Listed()));
        (if dryRun then old(powered) else old(powered) || enumerates) ==>
          if plan.Err? then r == Err(Refused(plan.error))
          else if dryRun then
            && plan.value != []
            && r == Ok(Summary(plan.value, [], Map(StepName, KeptSteps(plan.value)), KeptIds(plan.value),
                               PredictedFirst(plan.value, spec[0].name, old(Listed()))))
          else if |handles| < |Creates(plan.value)| then r == Err(NotAppeared(Creates(plan.value)[|handles|].name))
          else
            var resolved := Resolved(old(Listed()), Creates(plan.value), handles, KeptIds(plan.value));
            r == Ok(Summary(plan.value, Map(StepName, Creates(plan.value)), Map(StepName, KeptSteps(plan.value)),
                            resolved, BootIsFirst(IdOf(resolved, spec[0].name), volumes)))
      // The boot volume is first iff the adapter lists it first; a dry run that
      // would create it says so iff the adapter has no volume yet.
      ensures r.Ok? ==> r.value.plan != []
      ensures r.Ok? && dryRun && r.value.plan[0].Create? ==> (r.value.bootIsFirst <==> volumes == [])
      ensures r.Ok? && !(dryRun && r.value.plan[0].Create?) ==>
        var ids := r.value.resolved;
        r.value.bootIsFirst <==> volumes != [] && spec[0].name in ids && ids[spec[0].name] == volumes[0].id
    {
      if !powered {
        if dryRun { return Err(PoweredOff); }
        powered := true;
        if !enumerates { return Err(NotEnumerated); }
      }
      var planned := PlanVolumes(spec, Listed());
      if planned.Err? { return Err(Refused(planned.error)); }
      var plan := planned.value;
      PlanLength(spec, Listed(), plan);
      var kept, ids := CollectNames(plan);
      if dryRun {
        var first := if plan[0].Create? then volumes == [] else BootIsFirst(IdOf(ids, spec[0].name), volumes);
        return Ok(Summary(plan, [], kept, ids, first));
      }
      var missing, created, resolved := CreateAll(plan, handles, ids);
      if missing.Some? { return Err(NotAppeared(missing.value)); }
      return Ok(Summary(plan, created, kept, resolved, BootIsFirst(IdOf(resolved, spec[0].name), volumes)));
    }
  }

  lemma CreatesNone()
    ensures Creates([]) == []
  {}

  lemma PlanLength(spec: seq<VolSpec>, inv: Inventory, plan: seq<Step>)
    requires Plan(spec, inv) == Ok(plan)
    ensures |plan| == |spec|
  {
    PlanIffSteps(spec, inv, plan);
  }

  // ---- the dry run predicts the real run -------------------------------------------------

  ghost predicate DistinctNames(plan: seq<Step>) {
    forall i, j :: 0 <= i < j < |plan| ==> plan[i].name != plan[j].name
  }

  lemma {:induction false} KeptIdsAt(plan: seq<Step>, name: string)
    requires DistinctNames(plan)
    ensures name in KeptIds(plan) <==> exists k :: 0 <= k < |plan| && plan[k].Keep? && plan[k].name == name
    ensures forall k :: 0 <= k < |plan| && plan[k].Keep? && plan[k].name == name ==> KeptIds(plan)[name] == plan[k].id
  {
    if plan == [] {
    } else {
      var n := |plan| - 1;
      var front := plan[..n];
      assert forall k :: 0 <= k < n ==> front[k] == plan[k];
      KeptIdsAt(front, name);
      if name in KeptIds(front) {
        var k :| 0 <= k < n && front[k].Keep? && front[k].name == name;
        assert plan[k].name == name;
      }
    }
  }

  lemma KeptIdsAfter(plan: seq<Step>, i: nat, h: Handle)
    requires DistinctNames(plan) && i < |plan| && plan[i].Create?
    ensures DistinctNames(plan[i := KeptOf(plan[i], h)])
    ensures KeptIds(plan[i := KeptOf(plan[i], h)]) == KeptIds(plan)[plan[i].name := h.id]
  {
    var plan' := plan[i := KeptOf(plan[i], h)];
    assert forall k :: 0 <= k < |plan| ==> plan'[k].name == plan[k].name;
    assert forall k :: 0 <= k < |plan| && k != i ==> plan'[k] == plan[k];
    var a, b := KeptIds(plan'), KeptIds(plan)[plan[i].name := h.id];
    forall name ensures name in a <==> name in b {
      KeptIdsAt(plan, name);
      KeptIdsAt(plan', name);
      SameKeeps(plan, plan', i, name);
    }
    forall name | name in a ensures a[name] == b[name] {
      KeptIdsAt(plan, name);
      KeptIdsAt(plan', name);
      var k :| 0 <= k < |plan'| && plan'[k].Keep? && plan'[k].name == name;
      assert k != i ==> plan[k].Keep? && plan[k].name == name && plan[i].name != name;
    }
  }

  lemma SameKeeps(plan: seq<Step>, plan': seq<Step>, i: nat, name: string)
    requires |plan| == |plan'| && i < |plan| && plan[i].Create? && plan'[i].Keep? && plan'[i].name == plan[i].name
    requires forall k :: 0 <= k < |plan| && k != i ==> plan'[k] == plan[k]
    ensures (exists k :: 0 <= k < |plan'| && plan'[k].Keep? && plan'[k].name == name) <==>
      name == plan[i].name || exists k :: 0 <= k < |plan| && plan[k].Keep? && plan[k].name == name
  {
    if k :| 0 <= k < |plan| && plan[k].Keep? && plan[k].name == name {
      assert plan'[k].Keep? && plan'[k].name == name;
    }
    if name == plan[i].name { assert plan'[i].Keep? && plan'[i].name == name; }
  }

  /** The new volume is the one listed under its name. */
  lemma AppearedIsCreated(inv: Inventory, step: Step, h: Handle)
    requires step.Create? && forall v :: v in inv.volumes ==> v.name != Some(step.name)
    ensures FirstNamed(CreateVolume(inv, step, h).volumes, step.name) == Some(NewVolume(step, h))
  {
    CreatedAppears(inv, step, h);
    var found := FirstNamed(CreateVolume(inv, step, h).volumes, step.name).value;
    assert found in inv.volumes || found == NewVolume(step, h);
  }

  lemma PlanNames(spec: seq<VolSpec>, inv: Inventory, plan: seq<Step>)
    requires WellFormed(inv) && ValidSpec(spec) && Plan(spec, inv) == Ok(plan)
    ensures |plan| == |spec| && DistinctNames(plan)
    ensures forall k :: 0 <= k < |plan| ==> plan[k].name == spec[k].name
  {
    hide WellFormed, Plan;
    PlanSafety(spec, inv, plan);
  }

  /** The ids that a run resolves are those that planning again would keep. */
  lemma {:induction false} ResolvedIsResumed(spec: seq<VolSpec>, inv: Inventory, plan: seq<Step>, handles: seq<Handle>)
    requires WellFormed(inv) && ValidSpec(spec) && Plan(spec, inv) == Ok(plan) && AllFresh(inv, handles)
    ensures Resolved(inv, Creates(plan), handles, KeptIds(plan)) == KeptIds(Resumed(plan, handles))
    decreases |handles|
  {
    hide WellFormed, ValidSpec, Plan, CreateVolume, Creates, StepIs, Executable, FirstNamed, KeptIds;
    if Creates(plan) == [] {
      NoCreates(plan, handles);
    } else if handles != [] {
      var i := NextCreate(plan, handles);
      var plan', after := plan[i := KeptOf(plan[i], handles[0])], CreateVolume(inv, plan[i], handles[0]);
      assert Fresh(inv, handles[0]);
      PlanIffSteps(spec, inv, plan);
      StepFacts(spec, inv, plan, i);
      AppearedIsCreated(inv, plan[i], handles[0]);
      PlanNames(spec, inv, plan);
      KeptIdsAfter(plan, i, handles[0]);
      OneCreate(spec, inv, plan, i, handles[0]);
      FreshAfter(inv, plan[i], handles);
      ResolvedIsResumed(spec, after, plan', handles[1..]);
    }
  }

  /** The first volume of the adapter after the creates. */
  lemma {:induction false} FirstVolume(inv: Inventory, creates: seq<Step>, handles: seq<Handle>)
    requires forall s :: s in creates ==> s.Create?
    ensures inv.volumes != [] ==>
      Executed(inv, creates, handles).volumes != [] && Executed(inv, creates, handles).volumes[0] == inv.volumes[0]
    decreases |creates|
  {
    if creates == [] || handles == [] {
    } else {
      FirstVolume(CreateVolume(inv, creates[0], handles[0]), creates[1..], handles[1..]);
    }
  }

  lemma {:induction false} FirstStepResumed(plan: seq<Step>, handles: seq<Handle>)
    requires plan != [] && |handles| >= |Creates(plan)|
    ensures Resumed(plan, handles)[0] ==
      if plan[0].Create? && handles != [] then KeptOf(plan[0], handles[0]) else plan[0]
    ensures plan[0].Create? ==> handles != [] && Creates(plan) != [] && Creates(plan)[0] == plan[0]
  {
    assert plan == [plan[0]] + plan[1..];
    CreatesOfMore(plan[0], plan[1..]);
  }

  /** On a well-formed adapter the dry run's verdict on the boot volume is the
      one of the real run, once that made all volumes. */
  lemma DryRunPredicts(spec: seq<VolSpec>, inv: Inventory, plan: seq<Step>, handles: seq<Handle>)
    requires WellFormed(inv) && ValidSpec(spec) && spec != [] && Plan(spec, inv) == Ok(plan)
    requires AllFresh(inv, handles) && |handles| >= |Creates(plan)|
    ensures plan != []
    ensures PredictedFirst(plan, spec[0].name, inv) <==>
      BootIsFirst(IdOf(Resolved(inv, Creates(plan), handles, KeptIds(plan)), spec[0].name),
                  Executed(inv, Creates(plan), handles).volumes)
  {
    hide WellFormed, ValidSpec, Plan, Creates, KeptIds, Resumed, CreateVolume;
    PlanNames(spec, inv, plan);
    ResumeAfterInterruption(spec, inv, plan, handles);
    PlanNames(spec, Executed(inv, Creates(plan), handles), Resumed(plan, handles));
    ResolvedIsResumed(spec, inv, plan, handles);
    KeptIdsAt(plan, spec[0].name);
    KeptIdsAt(Resumed(plan, handles), spec[0].name);
    FirstStepResumed(plan, handles);
    FirstVolume(inv, Creates(plan), handles);
    assert Resumed(plan, handles)[0].Keep?;
    if plan[0].Create? {
      CreatedFirst(inv, plan[0], handles[0]);
      FirstVolume(CreateVolume(inv, plan[0], handles[0]), Creates(plan)[1..], handles[1..]);
      FreshFirst(inv, handles);
    } else {
      KeptMeansListed(spec, inv, plan);
    }
  }

  lemma CreatedFirst(inv: Inventory, step: Step, h: Handle)
    requires step.Create?
    ensures var after := CreateVolume(inv, step, h).volumes;
      after != [] && after[0] == if inv.volumes == [] then NewVolume(step, h) else inv.volumes[0]
  {}

  lemma FreshFirst(inv: Inventory, handles: seq<Handle>)
    requires AllFresh(inv, handles) && handles != []
    ensures inv.volumes != [] ==> inv.volumes[0].id != handles[0].id
  {
    assert Fresh(inv, handles[0]);
  }

  lemma KeptMeansListed(spec: seq<VolSpec>, inv: Inventory, plan: seq<Step>)
    requires WellFormed(inv) && ValidSpec(spec) && Plan(spec, inv) == Ok(plan) && plan != [] && plan[0].Keep?
    ensures inv.volumes != []
  {
    hide WellFormed, ValidSpec, Plan;
    PlanSafety(spec, inv, plan);
    assert KeepsExisting(inv, plan[0]);
  }
}
