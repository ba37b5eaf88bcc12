/** Deploys get somewhere: what the name check decides, that a deploy whose name
    and vmid are free can always go through, and that one which fails can always
    be cleaned up. */
module DeployProgress {
  import opened Prelude
  import opened DeployRollback

  /** The name check passes iff no VM on the node has the device's name, and ends
      the run iff some VM has; it changes nothing else. */
  lemma ListDecides(roster: seq<string>, s: State, e: Event)
    requires Enabled(roster, s, e) && e.List?
    ensures var s' := Apply(roster, s, e);
      && (s' == Move(s, e.run, Checked) <==> forall k :: k in s.vms ==> s.vms[k].name != Some(roster[e.run]))
      && (s' == Move(s, e.run, Over) <==> exists k :: k in s.vms && s.vms[k].name == Some(roster[e.run]))
  {
    assert Move(s, e.run, Checked).phases[e.run] == Checked;
    assert forall v :: v in e.listing ==> s.vms[v.vmid] == v;
  }

  /** Every node can be listed. */
  lemma {:induction false} Listing(vms: map<nat, Vm>) returns (listing: seq<Vm>)
    requires forall k :: k in vms ==> vms[k].vmid == k
    ensures Shows(listing, vms)
    decreases |vms|
  {
    if vms == map[] {
      listing := [];
    } else {
      var k :| k in vms;
      var less := vms - {k};
      assert |less| < |vms| by { assert less.Keys == vms.Keys - {k}; }
      var rest := Listing(less);
      listing := [vms[k]] + rest;
      assert listing[0] == vms[k];
      forall j | j in vms ensures vms[j] in listing {
        if j != k { assert less[j] in rest; }
      }
    }
  }

  lemma {:induction false} ShapedRun(roster: seq<string>, s: State, es: seq<Event>)
    requires Shaped(roster, s) && Possible(roster, s, es)
    ensures Shaped(roster, After(roster, s, es))
    decreases |es|
  {
    hide Shaped, Enabled, Apply;
    if es == [] {
    } else {
      ShapedStep(roster, s, es[0]);
      ShapedRun(roster, Apply(roster, s, es[0]), es[1..]);
    }
  }

  lemma ReachableShaped(roster: seq<string>, s0: State, s: State)
    requires Initial(roster, s0) && Reachable(roster, s0, s)
    ensures Shaped(roster, s)
  {
    var es :| Possible(roster, s0, es) && After(roster, s0, es) == s;
    ShapedRun(roster, s0, es);
  }

  lemma Stay(roster: seq<string>, s: State)
    ensures Reachable(roster, s, s)
  {
    assert Possible(roster, s, []) && After(roster, s, []) == s;
  }

  lemma PassesCheck(roster: seq<string>, s: State, listing: seq<Vm>, run: nat, vmid: nat) returns (s': State)
    requires run < |roster| == |s.phases| && s.phases[run] == Start && vmid !in s.vms && Shows(listing, s.vms)
    requires forall k :: k in s.vms ==> s.vms[k].name != Some(roster[run])
    ensures Reachable(roster, s, s') && s' == Move(s, run, HasId(vmid))
  {
    Stay(roster, s);
    hide Reachable;
    var list := List(run, listing);
    assert Enabled(roster, s, list);
    ListDecides(roster, s, list);
    s' := DeployRollback.Step(roster, s, s, list);
    s' := DeployRollback.Step(roster, s, s', NextId(run, vmid));
  }

  /** From every reachable state: a run that has not started, and whose name no VM
      on the node has, can deploy its VM under any free vmid; exactly that VM is
      added. */
  lemma DeployCanSucceed(roster: seq<string>, s0: State, s: State, run: nat, vmid: nat) returns (s': State)
    requires Initial(roster, s0) && Reachable(roster, s0, s) && run < |roster| == |s.phases|
    requires s.phases[run] == Start && vmid !in s.vms
    requires forall k :: k in s.vms ==> s.vms[k].name != Some(roster[run])
    ensures Reachable(roster, s, s') && s'.phases == s.phases[run := Deployed(vmid)]
    ensures s'.vms == s.vms[vmid := Vm(vmid, Some(roster[run]), Some(run))] && s'.destroyed == s.destroyed
  {
    ReachableShaped(roster, s0, s);
    var listing := Listing(s.vms);
    hide Reachable, Shaped, Initial;
    s' := PassesCheck(roster, s, listing, run, vmid);
    s' := DeployRollback.Step(roster, s, s', Post(run));
    s' := DeployRollback.Step(roster, s, s', TaskCreates(run, vmid));
    s' := DeployRollback.Step(roster, s, s', Succeed(run));
  }

  /** From every reachable state: a named run whose create task made its VM, and
      that then fails, can remove that VM again; nothing else goes. */
  lemma RollbackCanSucceed(roster: seq<string>, s0: State, s: State, run: nat) returns (s': State)
    requires Initial(roster, s0) && Reachable(roster, s0, s) && run < |roster| == |s.phases| && roster[run] != ""
    requires s.phases[run].Creating? && s.phases[run].vmid in s.vms
    requires s.vms[s.phases[run].vmid].owner == Some(run)
    ensures Reachable(roster, s, s') && s'.phases == s.phases[run := Over]
    ensures s'.vms == s.vms - {s.phases[run].vmid}
    ensures s'.destroyed == s.destroyed + [(run, s.vms[s.phases[run].vmid])]
  {
    var vmid := s.phases[run].vmid;
    ReachableShaped(roster, s0, s);
    var listing := Listing(s.vms);
    assert s.vms[vmid].name == Some(roster[run]) && s.vms[vmid].vmid == vmid;
    hide Reachable, Shaped, Initial;
    OwnIsDestroyed(s.vms, listing, vmid, roster[run]);
    Stay(roster, s);
    s' := DeployRollback.Step(roster, s, s, Fail(run));
    s' := DeployRollback.Step(roster, s, s', RollbackList(run, listing));
    s' := DeployRollback.Step(roster, s, s', StopVm(run));
    s' := DeployRollback.Step(roster, s, s', DestroyVm(run));
  }

  /** A create call that is refused, and a deploy that fails later, can reach the
      rollback's decision on its vmid: absent iff the node has no VM under it, destroy
      iff the VM there has the run's own name. Nothing has been touched by then. */
  lemma FailureIsDecided(roster: seq<string>, s0: State, s: State, e: Event) returns (s': State)
    requires Initial(roster, s0) && Reachable(roster, s0, s) && Enabled(roster, s, e) && (e.PostRefused? || e.Fail?)
    ensures Reachable(roster, s, s') && s'.vms == s.vms && s'.destroyed == s.destroyed && e.run < |s'.phases|
    ensures var p, vmid := s'.phases[e.run], s.phases[e.run].vmid;
      && p.Decided? && p.vmid == vmid
      && (p.action == Absent <==> vmid !in s.vms)
      && (p.action == Destroy <==> roster[e.run] != "" && vmid in s.vms && s.vms[vmid].name == Some(roster[e.run]))
  {
    var vmid := s.phases[e.run].vmid;
    ReachableShaped(roster, s0, s);
    var listing := Listing(s.vms);
    if vmid in s.vms {
      assert s.vms[vmid] in listing && s.vms[vmid].vmid == vmid;
      var i := FirstAt(listing, vmid);
      assert listing[i] in listing && s.vms[vmid] == listing[i];
    }
    hide Reachable, Shaped, Initial;
    Stay(roster, s);
    s' := DeployRollback.Step(roster, s, s, e);
    s' := DeployRollback.Step(roster, s, s', RollbackList(e.run, listing));
  }

  lemma OwnIsDestroyed(vms: map<nat, Vm>, listing: seq<Vm>, vmid: nat, name: string)
    requires Shows(listing, vms) && vmid in vms && vms[vmid].vmid == vmid && vms[vmid].name == Some(name) && name != ""
    ensures RollbackDecision(listing, vmid, name) == Destroy
  {
    var i := FirstAt(listing, vmid);
    assert vms[listing[i].vmid] == listing[i];
  }

  lemma {:induction false} FirstAt(listing: seq<Vm>, vmid: nat) returns (i: nat)
    requires exists v :: v in listing && v.vmid == vmid
    ensures FirstWithId(listing, vmid, i)
  {
    if listing[0].vmid == vmid {
      i := 0;
    } else {
      var v :| v in listing && v.vmid == vmid;
      assert v in listing[1..];
      i := FirstAt(listing[1..], vmid);
      i := i + 1;
    }
  }

  // ---- runs that are over -----------------------------------------------------------------------

  predicate Early(p: Phase) { p.Start? || p.Checked? || p.HasId? }

  /** The run has neither an open create task nor a VM. */
  ghost predicate Traceless(s: State, run: nat) {
    && (forall t :: t in s.tasks ==> t.0 != run)
    && (forall k :: k in s.vms ==> s.vms[k].owner != Some(run))
    && (forall i :: 0 <= i < |s.destroyed| ==> s.destroyed[i].0 != run)
  }

  ghost predicate EarlyTraceless(s: State) {
    forall r :: 0 <= r < |s.phases| && Early(s.phases[r]) ==> Traceless(s, r)
  }

  lemma EarlyTracelessStep(roster: seq<string>, s: State, e: Event)
    requires Shaped(roster, s) && EarlyTraceless(s) && Enabled(roster, s, e)
    ensures EarlyTraceless(Apply(roster, s, e))
  {
    var s' := Apply(roster, s, e);
    forall r | 0 <= r < |s'.phases| && Early(s'.phases[r]) ensures Traceless(s', r) {
      assert Early(s.phases[r]) && Traceless(s, r);
    }
  }

  lemma {:induction false} EarlyTracelessRun(roster: seq<string>, s: State, es: seq<Event>)
    requires Shaped(roster, s) && EarlyTraceless(s) && Possible(roster, s, es)
    ensures EarlyTraceless(After(roster, s, es))
    decreases |es|
  {
    hide Shaped, Enabled, Apply, EarlyTraceless;
    if es == [] {
    } else {
      ShapedStep(roster, s, es[0]);
      EarlyTracelessStep(roster, s, es[0]);
      EarlyTracelessRun(roster, Apply(roster, s, es[0]), es[1..]);
    }
  }

  lemma InitialShaped(roster: seq<string>, s0: State)
    requires Initial(roster, s0)
    ensures Shaped(roster, s0) && EarlyTraceless(s0)
  {}

  lemma OverStays(roster: seq<string>, s: State, e: Event, run: nat)
    requires Enabled(roster, s, e) && run < |s.phases| && s.phases[run] == Over
    ensures var s' := Apply(roster, s, e);
      && |s'.phases| == |s.phases| && s'.phases[run] == Over && (Traceless(s, run) ==> Traceless(s', run))
      && |s.destroyed| <= |s'.destroyed| && s'.destroyed[..|s.destroyed|] == s.destroyed
      && forall i :: |s.destroyed| <= i < |s'.destroyed| ==> s'.destroyed[i].0 != run
  {}

  lemma {:induction false} NothingLost(roster: seq<string>, s: State, es: seq<Event>, i: nat)
    requires Possible(roster, s, es) && i < |s.destroyed|
    ensures i < |After(roster, s, es).destroyed| && After(roster, s, es).destroyed[i] == s.destroyed[i]
    decreases |es|
  {
    if es == [] {
    } else {
      NothingLost(roster, Apply(roster, s, es[0]), es[1..], i);
    }
  }

  /** A run that is over stays so, and destroys nothing any more. */
  lemma {:induction false} OverIsFinal(roster: seq<string>, s: State, es: seq<Event>, run: nat)
    requires Possible(roster, s, es) && run < |s.phases| && s.phases[run] == Over
    ensures var s' := After(roster, s, es);
      && run < |s'.phases| && s'.phases[run] == Over && (Traceless(s, run) ==> Traceless(s', run))
      && |s.destroyed| <= |s'.destroyed|
      && forall i :: |s.destroyed| <= i < |s'.destroyed| ==> s'.destroyed[i].0 != run
    decreases |es|
  {
    hide Enabled, Apply, Traceless;
    if es == [] {
    } else {
      OverStays(roster, s, es[0], run);
      var s1 := Apply(roster, s, es[0]);
      OverIsFinal(roster, s1, es[1..], run);
      var s' := After(roster, s, es);
      assert s' == After(roster, s1, es[1..]);
      forall i | |s.destroyed| <= i < |s'.destroyed| ensures s'.destroyed[i].0 != run {
        if i < |s1.destroyed| { NothingLost(roster, s1, es[1..], i); }
      }
    }
  }

  /** A run that is aborted before its create call, or whose name is taken, is over
      and never has a VM on the node, in any interleaving; nor does it destroy one. */
  lemma RefusedLeavesNoTrace(roster: seq<string>, s0: State, s: State, e: Event, es: seq<Event>)
    requires Initial(roster, s0) && Reachable(roster, s0, s) && Enabled(roster, s, e)
    requires e.Abort? || (e.List? && exists k :: k in s.vms && s.vms[k].name == Some(roster[e.run]))
    requires Possible(roster, Apply(roster, s, e), es)
    ensures var s' := After(roster, Apply(roster, s, e), es);
      e.run < |s'.phases| && s'.phases[e.run] == Over && Traceless(s', e.run)
  {
    var past :| Possible(roster, s0, past) && After(roster, s0, past) == s;
    InitialShaped(roster, s0);
    EarlyTracelessRun(roster, s0, past);
    if e.List? { ListDecides(roster, s, e); }
    assert Early(s.phases[e.run]) && Traceless(s, e.run);
    var s1 := Apply(roster, s, e);
    assert s1 == Move(s, e.run, Over);
    assert Traceless(s1, e.run);
    hide Enabled, Apply, Traceless, EarlyTraceless, Initial, Reachable;
    OverIsFinal(roster, s1, es, e.run);
  }

  /** A rollback that is given up leaves the node as it is, and the run is over. */
  lemma GivenUpIsOver(roster: seq<string>, s: State, e: Event, es: seq<Event>, i: nat)
    requires Enabled(roster, s, e) && e.GiveUp? && Possible(roster, Apply(roster, s, e), es)
    ensures Apply(roster, s, e).vms == s.vms && Apply(roster, s, e).destroyed == s.destroyed
    ensures var s' := After(roster, Apply(roster, s, e), es);
      |s.destroyed| <= i < |s'.destroyed| ==> s'.destroyed[i].0 != e.run
  {
    OverIsFinal(roster, Apply(roster, s, e), es, e.run);
  }

  // ---- create tasks --------------------------------------------------------------------------------

  /** A run posts one create task, and has no VM while it is open. */
  ghost predicate OneTask(s: State) {
    && (forall t, t' :: t in s.tasks && t' in s.tasks && t.0 == t'.0 ==> t == t')
    && (forall t :: t in s.tasks ==> t.0 < |s.phases| && !Early(s.phases[t.0]))
    && (forall t, k :: t in s.tasks && k in s.vms ==> s.vms[k].owner != Some(t.0))
  }

  lemma OneTaskStep(roster: seq<string>, s: State, e: Event)
    requires OneTask(s) && EarlyTraceless(s) && Enabled(roster, s, e)
    ensures OneTask(Apply(roster, s, e))
  {
    if e.Post? {
      assert Traceless(s, e.run);
      assert Apply(roster, s, e).vms == s.vms;
    } else {
      hide Traceless, EarlyTraceless;
      assert Apply(roster, s, e).tasks <= s.tasks;
      if e.TaskCreates? {
        assert forall t :: t in Apply(roster, s, e).tasks ==> t.0 != e.run;
      }
    }
  }

  lemma {:induction false} OneTaskRun(roster: seq<string>, s: State, es: seq<Event>)
    requires Shaped(roster, s) && EarlyTraceless(s) && OneTask(s) && Possible(roster, s, es)
    ensures OneTask(After(roster, s, es))
    decreases |es|
  {
    hide Shaped, Enabled, Apply, EarlyTraceless, OneTask;
    if es == [] {
    } else {
      ShapedStep(roster, s, es[0]);
      EarlyTracelessStep(roster, s, es[0]);
      OneTaskStep(roster, s, es[0]);
      OneTaskRun(roster, Apply(roster, s, es[0]), es[1..]);
    }
  }

  /** The run has posted its task, which is gone, and there is no VM of its. */
  ghost predicate Childless(s: State, run: nat) {
    && run < |s.phases| && !Early(s.phases[run]) && (forall t :: t in s.tasks ==> t.0 != run)
    && forall k :: k in s.vms ==> s.vms[k].owner != Some(run)
  }

  lemma ChildlessStep(roster: seq<string>, s: State, e: Event, run: nat)
    requires Childless(s, run) && Enabled(roster, s, e)
    ensures Childless(Apply(roster, s, e), run)
  {}

  lemma {:induction false} ChildlessRun(roster: seq<string>, s: State, es: seq<Event>, run: nat)
    requires Childless(s, run) && Possible(roster, s, es)
    ensures Childless(After(roster, s, es), run)
    decreases |es|
  {
    hide Childless, Enabled, Apply;
    if es == [] {
    } else {
      ChildlessStep(roster, s, es[0], run);
      ChildlessRun(roster, Apply(roster, s, es[0]), es[1..], run);
    }
  }

  /** A run whose create task died never has a VM on the node, in any interleaving. */
  lemma DeadTaskMakesNothing(roster: seq<string>, s0: State, s: State, e: Event, es: seq<Event>, k: nat)
    requires Initial(roster, s0) && Reachable(roster, s0, s) && Enabled(roster, s, e) && e.TaskDies?
    requires Possible(roster, Apply(roster, s, e), es)
    ensures var s' := After(roster, Apply(roster, s, e), es);
      k in s'.vms ==> s'.vms[k].owner != Some(e.run)
  {
    var past :| Possible(roster, s0, past) && After(roster, s0, past) == s;
    InitialShaped(roster, s0);
    OneTaskRun(roster, s0, past);
    assert Childless(Apply(roster, s, e), e.run);
    hide Enabled, Apply, OneTask, EarlyTraceless, Initial, Reachable;
    ChildlessRun(roster, Apply(roster, s, e), es, e.run);
  }
}
