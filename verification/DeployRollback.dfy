/** Concurrent deploys on one node: the name check, the vmid that is looked up
    but not reserved, the create task, and the rollback after a failure
    (jobs/proxmox/deploy_device.py run, jobs/lib/proxmox_client.py
    rollback_vm_decision). Run r deploys the device named roster[r]. */
module DeployRollback {
  import opened Prelude

  /** owner is history: the run whose create task made the VM, None for a VM
      that was there before. The node does not store it. */
  datatype Vm = Vm(vmid: nat, name: Option<string>, owner: Option<nat>)

  datatype Action = Absent | Destroy | Foreign

  datatype Phase =
    | Start
    | Checked
    | HasId(vmid: nat)
    | Creating(vmid: nat)
    | Failing(vmid: nat)
    | Decided(vmid: nat, action: Action)
    | Stopped(vmid: nat)
    | Deployed(vmid: nat)
    | Over

  /** tasks holds create tasks that may still take effect, even after the run
      that posted them gave up waiting; destroyed is the history of rollbacks. */
  datatype State = State(
    vms: map<nat, Vm>,
    tasks: set<(nat, nat)>,
    phases: seq<Phase>,
    destroyed: seq<(nat, Vm)>)

  datatype Event =
    | List(run: nat, listing: seq<Vm>)
    | Abort(run: nat)
    | NextId(run: nat, vmid: nat)
    | Post(run: nat)
    | PostRefused(run: nat)
    | TaskCreates(run: nat, vmid: nat)
    | TaskDies(run: nat, vmid: nat)
    | Succeed(run: nat)
    | Fail(run: nat)
    | RollbackList(run: nat, listing: seq<Vm>)
    | StopVm(run: nat)
    | DestroyVm(run: nat)
    | GiveUp(run: nat)

  /** vms[i] is the first VM with that vmid. */
  ghost predicate FirstWithId(vms: seq<Vm>, vmid: nat, i: nat) {
    i < |vms| && vms[i].vmid == vmid && forall k :: 0 <= k < i ==> vms[k].vmid != vmid
  }

  /** rollback_vm_decision on the node's VM list: the first VM with that vmid
      decides, and exactly this deploy's non-empty name is a licence to destroy. */
  function RollbackDecision(vms: seq<Vm>, vmid: nat, expected: string): (a: Action)
    ensures a == Absent <==> forall v :: v in vms ==> v.vmid != vmid
    ensures a == Destroy <==>
      expected != "" && exists i: nat :: FirstWithId(vms, vmid, i) && vms[i].name == Some(expected)
  {
    if vms == [] then Absent
    else if vms[0].vmid == vmid then
      assert FirstWithId(vms, vmid, 0);
      if vms[0].name.Some? && vms[0].name.value != "" && expected != "" && vms[0].name.value == expected
      then Destroy else Foreign
    else
      assert forall v :: v in vms <==> v == vms[0] || v in vms[1..];
      assert forall i: nat :: FirstWithId(vms, vmid, i) ==> i > 0 && FirstWithId(vms[1..], vmid, i - 1);
      assert forall i: nat :: FirstWithId(vms[1..], vmid, i) ==> FirstWithId(vms, vmid, i + 1);
      RollbackDecision(vms[1..], vmid, expected)
  }

  /** A listing shows exactly the node's VMs, in any order. */
  ghost predicate Shows(listing: seq<Vm>, vms: map<nat, Vm>) {
    && (forall v :: v in listing ==> v.vmid in vms && vms[v.vmid] == v)
    && (forall k :: k in vms ==> vms[k] in listing)
  }

  ghost predicate Enabled(roster: seq<string>, s: State, e: Event) {
    e.run < |roster| == |s.phases| &&
    var p := s.phases[e.run];
    match e
    case List(_, listing) => p.Start? && Shows(listing, s.vms)
    case Abort(_) => p.Start? || p.Checked? || p.HasId?
    case NextId(_, vmid) => p.Checked? && vmid !in s.vms
    case Post(_) => p.HasId?
    case PostRefused(_) => p.HasId?
    case TaskCreates(run, vmid) => (run, vmid) in s.tasks && vmid !in s.vms
    case TaskDies(run, vmid) => (run, vmid) in s.tasks
    case Succeed(run) => p.Creating? && p.vmid in s.vms && s.vms[p.vmid].owner == Some(run)
    case Fail(_) => p.Creating?
    case RollbackList(_, listing) => p.Failing? && Shows(listing, s.vms)
    case StopVm(_) => p.Decided? && p.action == Destroy
    case DestroyVm(_) => p.Stopped?
    case GiveUp(_) => p.Failing? || p.Decided? || p.Stopped?
  }

  function Move(s: State, run: nat, p: Phase): State
    requires run < |s.phases|
  {
    s.(phases := s.phases[run := p])
  }

  ghost function Apply(roster: seq<string>, s: State, e: Event): State
    requires Enabled(roster, s, e)
  {
    var p := s.phases[e.run];
    match e
    case List(run, listing) =>
      // "A VM named ... already exists": refused before anything is created.
      Move(s, run, if exists v :: v in listing && v.name == Some(roster[run]) then Over else Checked)
    case Abort(run) => Move(s, run, Over)
    case NextId(run, vmid) => Move(s, run, HasId(vmid))
    case Post(run) => Move(s, run, Creating(p.vmid)).(tasks := s.tasks + {(run, p.vmid)})
    case PostRefused(run) => Move(s, run, Failing(p.vmid))
    case TaskCreates(run, vmid) =>
      s.(vms := s.vms[vmid := Vm(vmid, Some(roster[run]), Some(run))], tasks := s.tasks - {(run, vmid)})
    case TaskDies(run, vmid) => s.(tasks := s.tasks - {(run, vmid)})
    case Succeed(run) => Move(s, run, Deployed(p.vmid))
    case Fail(run) => Move(s, run, Failing(p.vmid))
    case RollbackList(run, listing) =>
      Move(s, run, Decided(p.vmid, RollbackDecision(listing, p.vmid, roster[run])))
    case StopVm(run) => Move(s, run, Stopped(p.vmid))
    case DestroyVm(run) =>
      if p.vmid in s.vms
      then Move(s, run, Over).(vms := s.vms - {p.vmid}, destroyed := s.destroyed + [(run, s.vms[p.vmid])])
      else Move(s, run, Over)
    case GiveUp(run) => Move(s, run, Over)
  }

  /** Nothing has started; whatever VMs exist belong to nobody in the roster. */
  ghost predicate Initial(roster: seq<string>, s: State) {
    && s.tasks == {} && s.destroyed == []
    && |s.phases| == |roster| && (forall r :: 0 <= r < |roster| ==> s.phases[r] == Start)
    && (forall k :: k in s.vms ==> s.vms[k].vmid == k && s.vms[k].owner == None)
  }

  /** es is a possible interleaving from s. */
  ghost predicate Possible(roster: seq<string>, s: State, es: seq<Event>)
    decreases |es|
  {
    es == [] || (Enabled(roster, s, es[0]) && Possible(roster, Apply(roster, s, es[0]), es[1..]))
  }

  ghost function After(roster: seq<string>, s: State, es: seq<Event>): State
    requires Possible(roster, s, es)
    decreases |es|
  {
    if es == [] then s else After(roster, Apply(roster, s, es[0]), es[1..])
  }

  /** Every rollback so far destroyed a VM that its own run had created. */
  ghost predicate OnlyOwnVms(s: State) {
    forall i :: 0 <= i < |s.destroyed| ==> s.destroyed[i].1.owner == Some(s.destroyed[i].0)
  }

  /** No two runs deploy devices of the same (non-empty) name. */
  ghost predicate DistinctNames(roster: seq<string>) {
    forall i, j :: 0 <= i < j < |roster| && roster[i] == roster[j] ==> roster[i] == ""
  }

  ghost predicate PastCheck(p: Phase) { !p.Start? && !p.Over? }

  /** The run may still create or destroy: it is between its name check and its
      end, or a create task of its is open. */
  ghost predicate Busy(s: State, r: nat)
    requires r < |s.phases|
  {
    (PastCheck(s.phases[r]) && !s.phases[r].Deployed?) || exists vmid :: (r, vmid) in s.tasks
  }

  /** A run checks its name only while no other run of that name is busy. */
  ghost predicate Serial(roster: seq<string>, s: State, e: Event)
    requires e.run < |roster| == |s.phases|
  {
    e.List? && roster[e.run] != "" ==>
      forall r: nat :: r < |roster| && r != e.run && roster[r] == roster[e.run] ==> !Busy(s, r)
  }

  /** A possible interleaving in which that is so throughout. */
  ghost predicate SerialRun(roster: seq<string>, s: State, es: seq<Event>)
    decreases |es|
  {
    es == []
    || (Enabled(roster, s, es[0]) && Serial(roster, s, es[0]) && SerialRun(roster, Apply(roster, s, es[0]), es[1..]))
  }

  lemma {:induction false} SerialIsPossible(roster: seq<string>, s: State, es: seq<Event>)
    requires SerialRun(roster, s, es)
    ensures Possible(roster, s, es)
    decreases |es|
  {
    if es == [] {
    } else {
      SerialIsPossible(roster, Apply(roster, s, es[0]), es[1..]);
    }
  }

  /** Runs of different names never get in each other's way. */
  lemma {:induction false} DistinctIsSerial(roster: seq<string>, s: State, es: seq<Event>)
    requires DistinctNames(roster) && Possible(roster, s, es)
    ensures SerialRun(roster, s, es)
    decreases |es|
  {
    if es == [] {
    } else {
      DistinctIsSerial(roster, Apply(roster, s, es[0]), es[1..]);
    }
  }

  // ---- the invariant ---------------------------------------------------------------

  /** The run's device name is, on this node, only carried by its own VM. */
  ghost predicate CheckedName(roster: seq<string>, s: State, r: nat)
    requires r < |roster|
  {
    forall k :: k in s.vms && s.vms[k].name == Some(roster[r]) ==> s.vms[k].owner == Some(r)
  }

  /** About to destroy the VM at its vmid. */
  ghost predicate Marked(p: Phase) { p.Stopped? || (p.Decided? && p.action == Destroy) }

  ghost predicate Shaped(roster: seq<string>, s: State) {
    && |s.phases| == |roster|
    && (forall t :: t in s.tasks ==> t.0 < |roster|)
    && (forall k :: k in s.vms ==> s.vms[k].vmid == k)
    && (forall k :: k in s.vms && s.vms[k].owner.Some? ==>
          s.vms[k].owner.value < |roster| && s.vms[k].name == Some(roster[s.vms[k].owner.value]))
  }

  /** No other run of a busy run's name is busy. */
  ghost predicate Alone(roster: seq<string>, s: State)
    requires |roster| == |s.phases|
  {
    forall r: nat, q: nat :: r < |roster| && q < |roster| && r != q && roster[r] == roster[q] && roster[r] != "" ==>
      !Busy(s, r) || !Busy(s, q)
  }

  ghost predicate AllChecked(roster: seq<string>, s: State)
    requires |roster| == |s.phases|
  {
    forall r: nat :: r < |roster| && Busy(s, r) && roster[r] != "" ==> CheckedName(roster, s, r)
  }

  ghost predicate MarkedOwn(s: State) {
    forall r: nat :: r < |s.phases| && Marked(s.phases[r]) ==>
      s.phases[r].vmid in s.vms && s.vms[s.phases[r].vmid].owner == Some(r)
  }

  ghost predicate Inv(roster: seq<string>, s: State) {
    Shaped(roster, s) && OnlyOwnVms(s) && Alone(roster, s) && AllChecked(roster, s) && MarkedOwn(s)
  }

  lemma InitialInv(roster: seq<string>, s: State)
    requires Initial(roster, s)
    ensures Inv(roster, s)
  {}

  /** Only a name check makes a run busy. */
  lemma BusyAfter(roster: seq<string>, s: State, e: Event, r: nat)
    requires Shaped(roster, s) && Enabled(roster, s, e) && r < |roster|
    ensures var s' := Apply(roster, s, e);
      |s'.phases| == |roster| && (Busy(s', r) ==> Busy(s, r) || (e.List? && r == e.run && s'.phases[r] == Checked))
  {
    var s' := Apply(roster, s, e);
    assert r != e.run ==> s'.phases[r] == s.phases[r];
    assert forall vmid :: (r, vmid) in s'.tasks ==> (r, vmid) in s.tasks || (e.Post? && r == e.run);
  }

  lemma ShapedStep(roster: seq<string>, s: State, e: Event)
    requires Shaped(roster, s) && Enabled(roster, s, e)
    ensures Shaped(roster, Apply(roster, s, e))
  {}

  lemma AloneStep(roster: seq<string>, s: State, e: Event)
    requires Shaped(roster, s) && Alone(roster, s) && Enabled(roster, s, e) && Serial(roster, s, e)
    ensures |Apply(roster, s, e).phases| == |roster| && Alone(roster, Apply(roster, s, e))
  {
    ShapedStep(roster, s, e);
    hide Shaped, Enabled, Apply, Busy;
    var s' := Apply(roster, s, e);
    ShapedSize(roster, s);
    ShapedSize(roster, s');
    forall r: nat, q: nat | r < |roster| && q < |roster| && r != q && roster[r] == roster[q] && roster[r] != ""
      ensures !Busy(s', r) || !Busy(s', q)
    {
      BusyAfter(roster, s, e, r);
      BusyAfter(roster, s, e, q);
    }
  }

  lemma ShapedSize(roster: seq<string>, s: State)
    requires Shaped(roster, s)
    ensures |roster| == |s.phases|
  {}

  /** A VM appears only by a create task, under the name of the task's run. */
  lemma VmsAfter(roster: seq<string>, s: State, e: Event, k: nat)
    requires Shaped(roster, s) && Enabled(roster, s, e)
    ensures var s' := Apply(roster, s, e);
      k in s'.vms ==>
        || (k in s.vms && s'.vms[k] == s.vms[k])
        || (e.TaskCreates? && k == e.vmid && s'.vms[k] == Vm(k, Some(roster[e.run]), Some(e.run)))
  {}

  /** The name check passes only where the node has no VM of that name. */
  lemma ListChecks(roster: seq<string>, s: State, e: Event)
    requires Shaped(roster, s) && Enabled(roster, s, e) && e.List?
    ensures var s' := Apply(roster, s, e);
      s'.vms == s.vms && (s'.phases[e.run] == Checked ==> CheckedName(roster, s', e.run))
  {}

  lemma TaskIsBusy(roster: seq<string>, s: State, e: Event)
    requires Shaped(roster, s) && Enabled(roster, s, e) && e.TaskCreates?
    ensures Busy(s, e.run)
  {}

  lemma CheckedStep(roster: seq<string>, s: State, e: Event)
    requires Shaped(roster, s) && Alone(roster, s) && AllChecked(roster, s) && Enabled(roster, s, e)
    ensures |Apply(roster, s, e).phases| == |roster| && AllChecked(roster, Apply(roster, s, e))
  {
    ShapedStep(roster, s, e);
    if e.List? { ListChecks(roster, s, e); }
    if e.TaskCreates? { TaskIsBusy(roster, s, e); }
    assert e.run < |roster|;
    hide Shaped, Enabled, Apply, Busy;
    var s' := Apply(roster, s, e);
    ShapedSize(roster, s);
    ShapedSize(roster, s');
    forall r: nat | r < |roster| && Busy(s', r) && roster[r] != "" ensures CheckedName(roster, s', r) {
      BusyAfter(roster, s, e, r);
      if Busy(s, r) {
        forall k | k in s'.vms && s'.vms[k].name == Some(roster[r]) ensures s'.vms[k].owner == Some(r) {
          VmsAfter(roster, s, e, k);
        }
      }
    }
  }

  /** A run decides to destroy only its own VM. */
  lemma DecidesOwn(roster: seq<string>, s: State, e: Event)
    requires Shaped(roster, s) && AllChecked(roster, s) && Enabled(roster, s, e) && e.RollbackList?
    ensures var s' := Apply(roster, s, e);
      Marked(s'.phases[e.run]) ==>
        s'.phases[e.run].vmid in s'.vms && s'.vms[s'.phases[e.run].vmid].owner == Some(e.run)
  {
    assert Busy(s, e.run);
  }

  lemma MarkedStep(roster: seq<string>, s: State, e: Event)
    requires Shaped(roster, s) && AllChecked(roster, s) && MarkedOwn(s) && Enabled(roster, s, e)
    ensures MarkedOwn(Apply(roster, s, e))
  {
    var s' := Apply(roster, s, e);
    if e.RollbackList? { DecidesOwn(roster, s, e); }
    hide AllChecked;
    forall r: nat | r < |s'.phases| && Marked(s'.phases[r])
      ensures s'.phases[r].vmid in s'.vms && s'.vms[s'.phases[r].vmid].owner == Some(r)
    {
      if r != e.run || !e.RollbackList? {
        assert Marked(s.phases[r]) && s'.phases[r].vmid == s.phases[r].vmid;
        assert e.DestroyVm? ==> r != e.run && Marked(s.phases[e.run]);
      }
    }
  }

  lemma OwnStep(roster: seq<string>, s: State, e: Event)
    requires OnlyOwnVms(s) && MarkedOwn(s) && Enabled(roster, s, e)
    ensures OnlyOwnVms(Apply(roster, s, e))
  {
    assert e.DestroyVm? ==> Marked(s.phases[e.run]);
  }

  lemma StepInv(roster: seq<string>, s: State, e: Event)
    requires Inv(roster, s) && Enabled(roster, s, e) && Serial(roster, s, e)
    ensures Inv(roster, Apply(roster, s, e))
  {
    hide Shaped, OnlyOwnVms, Alone, AllChecked, MarkedOwn, Enabled, Apply;
    ShapedStep(roster, s, e);
    AloneStep(roster, s, e);
    CheckedStep(roster, s, e);
    MarkedStep(roster, s, e);
    OwnStep(roster, s, e);
  }

  lemma {:induction false} RunInv(roster: seq<string>, s: State, es: seq<Event>)
    requires Inv(roster, s) && SerialRun(roster, s, es)
    ensures Possible(roster, s, es) && Inv(roster, After(roster, s, es))
    decreases |es|
  {
    hide Inv, Enabled, Apply, Serial;
    SerialIsPossible(roster, s, es);
    if es == [] {
    } else {
      StepInv(roster, s, es[0]);
      RunInv(roster, Apply(roster, s, es[0]), es[1..]);
    }
  }

  /** The rollback is safe in every interleaving in which a run checks its name
      only while no other run of that name is busy: earlier ones have ended and
      have no open create task. */
  lemma SerialRunsAreSafe(roster: seq<string>, s: State, es: seq<Event>)
    requires Initial(roster, s) && SerialRun(roster, s, es)
    ensures Possible(roster, s, es) && OnlyOwnVms(After(roster, s, es))
  {
    InitialInv(roster, s);
    RunInv(roster, s, es);
  }

  /** In such an interleaving a VM leaves the node only by the rollback of the
      run that created it; everything else stays exactly as it was. */
  lemma OnlyOwnerRemoves(roster: seq<string>, s: State, es: seq<Event>, e: Event, k: nat)
    requires Initial(roster, s) && SerialRun(roster, s, es) && Possible(roster, s, es)
    requires Enabled(roster, After(roster, s, es), e)
    requires k in After(roster, s, es).vms
    ensures var before, after := After(roster, s, es).vms, Apply(roster, After(roster, s, es), e).vms;
            (k in after && after[k] == before[k]) || (e.DestroyVm? && before[k].owner == Some(e.run))
  {
    InitialInv(roster, s);
    RunInv(roster, s, es);
    OneStepRemoves(roster, After(roster, s, es), e, k);
  }

  lemma OneStepRemoves(roster: seq<string>, s: State, e: Event, k: nat)
    requires Inv(roster, s) && Enabled(roster, s, e) && k in s.vms
    ensures var after := Apply(roster, s, e).vms;
      (k in after && after[k] == s.vms[k]) || (e.DestroyVm? && s.vms[k].owner == Some(e.run))
  {
    hide Shaped, OnlyOwnVms, Alone, AllChecked;
    assert e.DestroyVm? ==> Marked(s.phases[e.run]);
  }

  lemma {:induction false} UnownedVmsKept(roster: seq<string>, s: State, es: seq<Event>, k: nat)
    requires Inv(roster, s) && SerialRun(roster, s, es) && k in s.vms && s.vms[k].owner == None
    ensures Possible(roster, s, es) && k in After(roster, s, es).vms && After(roster, s, es).vms[k] == s.vms[k]
    decreases |es|
  {
    hide Inv, Enabled, Apply, Serial;
    SerialIsPossible(roster, s, es);
    if es == [] {
    } else {
      StepInv(roster, s, es[0]);
      OneStepRemoves(roster, s, es[0], k);
      UnownedVmsKept(roster, Apply(roster, s, es[0]), es[1..], k);
    }
  }

  /** VMs that were there before any deploy survive it unchanged. */
  lemma EarlierVmsSurvive(roster: seq<string>, s: State, es: seq<Event>, k: nat)
    requires Initial(roster, s) && SerialRun(roster, s, es) && k in s.vms
    ensures Possible(roster, s, es) && k in After(roster, s, es).vms && After(roster, s, es).vms[k] == s.vms[k]
  {
    InitialInv(roster, s);
    UnownedVmsKept(roster, s, es, k);
  }

  // ---- the distinct names are needed -------------------------------------------

  ghost predicate Reachable(roster: seq<string>, s0: State, s: State) {
    exists es :: Possible(roster, s0, es) && After(roster, s0, es) == s
  }

  /** No interleaving of any start ever destroys another run's VM. */
  ghost predicate SafeAlways(roster: seq<string>) {
    forall s0, s :: Initial(roster, s0) && Reachable(roster, s0, s) ==> OnlyOwnVms(s)
  }

  lemma {:induction false} PossibleAppend(roster: seq<string>, s: State, es: seq<Event>, e: Event)
    requires Possible(roster, s, es) && Enabled(roster, After(roster, s, es), e)
    ensures Possible(roster, s, es + [e])
    ensures After(roster, s, es + [e]) == Apply(roster, After(roster, s, es), e)
    decreases |es|
  {
    var all := es + [e];
    if es == [] {
      assert all == [e] && all[1..] == [];
      assert Possible(roster, Apply(roster, s, e), []);
    } else {
      PossibleAppend(roster, Apply(roster, s, es[0]), es[1..], e);
      assert all[1..] == es[1..] + [e];
    }
  }

  lemma Step(roster: seq<string>, s0: State, s: State, e: Event) returns (s': State)
    requires Reachable(roster, s0, s) && Enabled(roster, s, e)
    ensures s' == Apply(roster, s, e) && Reachable(roster, s0, s')
  {
    var es :| Possible(roster, s0, es) && After(roster, s0, es) == s;
    PossibleAppend(roster, s0, es, e);
    s' := Apply(roster, s, e);
  }

  /** Both runs pass the name check and are told the same free vmid. */
  lemma ClashSameId(roster: seq<string>, i: nat, j: nat) returns (s0: State, s: State)
    requires i < |roster| && j < |roster| && i != j
    ensures Initial(roster, s0) && Reachable(roster, s0, s)
    ensures |s.phases| == |roster| && s.phases[i] == s.phases[j] == HasId(100)
    ensures s.vms == map[] && s.tasks == {} && s.destroyed == []
  {
    s0 := State(map[], {}, seq(|roster|, _ => Start), []);
    assert Possible(roster, s0, []) && After(roster, s0, []) == s0;
    s := Step(roster, s0, s0, List(i, []));
    s := Step(roster, s0, s, List(j, []));
    s := Step(roster, s0, s, NextId(i, 100));
    s := Step(roster, s0, s, NextId(j, 100));
  }

  /** Run i's create wins the vmid, run j's create is refused, and run j's
      rollback finds its own name there. */
  lemma Clash(roster: seq<string>, i: nat, j: nat)
    requires i < |roster| && j < |roster| && i != j && roster[i] == roster[j] && roster[i] != ""
    ensures exists s0, s :: Initial(roster, s0) && Reachable(roster, s0, s) && !OnlyOwnVms(s)
  {
    var s0, s := ClashSameId(roster, i, j);
    s := Step(roster, s0, s, Post(i));
    s := Step(roster, s0, s, TaskCreates(i, 100));
    s := Step(roster, s0, s, PostRefused(j));
    s := DestroysOther(roster, s0, s, i, j);
  }

  /** The rollback is safe in every interleaving exactly when no two runs of the
      history carry the same device name. */
  lemma RollbackSafeIffNamesDistinct(roster: seq<string>)
    ensures SafeAlways(roster) <==> DistinctNames(roster)
  {
    hide Inv, Enabled, Apply;
    if DistinctNames(roster) {
      forall s0, s | Initial(roster, s0) && Reachable(roster, s0, s) ensures OnlyOwnVms(s) {
        var es :| Possible(roster, s0, es) && After(roster, s0, es) == s;
        DistinctIsSerial(roster, s0, es);
        SerialRunsAreSafe(roster, s0, es);
      }
    } else {
      var i, j :| 0 <= i < j < |roster| && roster[i] == roster[j] && roster[i] != "";
      Clash(roster, i, j);
    }
  }

  /** Run i is over, with its create task still open. */
  lemma GaveUpEarly(roster: seq<string>, i: nat, j: nat) returns (s0: State, s: State)
    requires i < |roster| && j < |roster| && i != j
    ensures Initial(roster, s0) && Reachable(roster, s0, s) && |s.phases| == |roster|
    ensures s.phases[i] == Over && s.phases[j] == Start
    ensures s.vms == map[] && s.tasks == {(i, 100)} && s.destroyed == []
  {
    s0 := State(map[], {}, seq(|roster|, _ => Start), []);
    assert Possible(roster, s0, []) && After(roster, s0, []) == s0;
    s := Step(roster, s0, s0, List(i, []));
    s := Step(roster, s0, s, NextId(i, 100));
    s := Step(roster, s0, s, Post(i));
    s := Step(roster, s0, s, Fail(i));
    s := Step(roster, s0, s, GiveUp(i));
  }

  lemma LateTask(roster: seq<string>, s1: State, i: nat, j: nat) returns (s: State)
    requires i < |roster| && j < |roster| && i != j && roster[i] == roster[j] && roster[i] != ""
    requires |s1.phases| == |roster| && s1.phases[j] == Start
    requires s1.vms == map[] && s1.tasks == {(i, 100)} && s1.destroyed == []
    ensures Reachable(roster, s1, s) && |s.phases| == |roster| && s.phases[j] == Failing(100)
    ensures s.vms == map[100 := Vm(100, Some(roster[i]), Some(i))] && s.destroyed == []
  {
    assert Possible(roster, s1, []) && After(roster, s1, []) == s1;
    s := Step(roster, s1, s1, List(j, []));
    s := Step(roster, s1, s, NextId(j, 100));
    s := Step(roster, s1, s, TaskCreates(i, 100));
    s := Step(roster, s1, s, PostRefused(j));
  }

  lemma DestroysOther(roster: seq<string>, s0: State, s: State, i: nat, j: nat) returns (s': State)
    requires i < |roster| && j < |roster| && i != j && roster[i] == roster[j] && roster[i] != ""
    requires Reachable(roster, s0, s) && |s.phases| == |roster| && s.phases[j] == Failing(100)
    requires s.vms == map[100 := Vm(100, Some(roster[i]), Some(i))] && s.destroyed == []
    ensures Reachable(roster, s0, s') && !OnlyOwnVms(s')
  {
    var vm := Vm(100, Some(roster[i]), Some(i));
    assert Shows([vm], s.vms);
    s' := Step(roster, s0, s, RollbackList(j, [vm]));
    s' := Step(roster, s0, s', StopVm(j));
    s' := Step(roster, s0, s', DestroyVm(j));
    assert s'.destroyed == [(j, vm)];
    assert s'.destroyed[0].1.owner == Some(i);
  }

  /** From s1, where run i is over and run j has not started, run j can come to
      destroy a VM that is not its own. */
  ghost predicate Threatened(roster: seq<string>, s1: State, i: nat, j: nat) {
    && i < |s1.phases| && j < |s1.phases| && s1.phases[i] == Over && s1.phases[j] == Start
    && exists s :: Reachable(roster, s1, s) && !OnlyOwnVms(s)
  }

  /** Starting after run i of the same name is over is not enough: run i may
      have given up while its create task was open. */
  lemma OpenTaskClash(roster: seq<string>, i: nat, j: nat)
    requires i < |roster| && j < |roster| && i != j && roster[i] == roster[j] && roster[i] != ""
    ensures exists s0, s1 :: Initial(roster, s0) && Reachable(roster, s0, s1) && Threatened(roster, s1, i, j)
  {
    hide Reachable, Initial, OnlyOwnVms;
    var s0, s1 := GaveUpEarly(roster, i, j);
    var s := LateTask(roster, s1, i, j);
    s := DestroysOther(roster, s1, s, i, j);
    assert Threatened(roster, s1, i, j);
  }
}
