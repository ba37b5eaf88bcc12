/** A plan of the storage layout, step by step: step i is the decision for
    entry i given what the steps before it took and claimed. */
module StorageTrace {
  import opened Prelude
  import opened StorageLayout

  /** The drives that the create steps use. */
  function Taken(steps: seq<Step>): set<string> {
    set s, p | s in steps && s.Create? && p in s.drives :: p
  }

  /** The volumes that the keep steps claim. */
  function Held(steps: seq<Step>): set<string> { set s | s in steps && s.Keep? :: s.path }

  predicate NotIn(gone: set<string>, d: Drive) { d.path !in gone }

  function Without(gone: set<string>, s: seq<Drive>): seq<Drive> { Filter((d: Drive) => NotIn(gone, d), s) }

  function FreeAt(inv: Inventory, steps: seq<Step>): seq<Drive> { Without(Taken(steps), SortedFree(inv)) }

  lemma WithoutNone(s: seq<Drive>)
    ensures Without({}, s) == s
  {
    forall i | 0 <= i < |s| ensures NotIn({}, s[i]) == ((d: Drive) => true)(s[i]) {}
    FilterSame((d: Drive) => NotIn({}, d), (d: Drive) => true, s);
    FilterAll(s);
  }

  lemma {:induction false} FilterAll(s: seq<Drive>)
    ensures Filter((d: Drive) => true, s) == s
  {
    if s == [] {
    } else {
      FilterAll(s[1..]);
    }
  }

  lemma WithoutTwice(a: set<string>, b: set<string>, s: seq<Drive>)
    ensures Without(b, Without(a, s)) == Without(a + b, s)
  {
    FilterTwice((d: Drive) => NotIn(b, d), (d: Drive) => NotIn(a, d), (d: Drive) => NotIn(a + b, d), s);
  }

  lemma TakenStep(step: Step, rest: seq<Step>)
    ensures Taken([step] + rest) == Taken([step]) + Taken(rest)
    ensures Held([step] + rest) == Held([step]) + Held(rest)
  {
    var all := [step] + rest;
    assert all[0] == step;
    forall s ensures s in all <==> s == step || s in rest {
      if s in rest {
        var i :| 0 <= i < |rest| && rest[i] == s;
        assert all[i + 1] == s;
      }
    }
  }

  lemma FreeAfterIsWithout(free: seq<Drive>, step: Step)
    ensures FreeAfter(free, step) == Without(Taken([step]), free)
  {
    assert [step][0] == step;
    if step.Create? {
      FilterSame((d: Drive) => d.path !in step.drives, (d: Drive) => NotIn(Taken([step]), d), free);
    } else {
      assert Taken([step]) == {};
      WithoutNone(free);
    }
  }

  /** The state after a step and some more. */
  lemma PrefixStep(free: seq<Drive>, claimed: set<string>, step: Step, more: seq<Step>)
    ensures Without(Taken(more), FreeAfter(free, step)) == Without(Taken([step] + more), free)
    ensures ClaimedAfter(claimed, step) + Held(more) == claimed + Held([step] + more)
  {
    TakenStep(step, more);
    FreeAfterIsWithout(free, step);
    WithoutTwice(Taken([step]), Taken(more), free);
    assert [step][0] == step;
    assert Held([step]) == if step.Keep? then {step.path} else {};
  }

  lemma EmptyPrefix(free: seq<Drive>, claimed: set<string>)
    ensures Without(Taken([]), free) == free && claimed + Held([]) == claimed
  {
    assert Taken([]) == {};
    WithoutNone(free);
  }

  /** Entry i is decided after the steps before it. */
  ghost predicate StepAfter(vols: seq<VolSpec>, names: set<string>, inv: Inventory, free: seq<Drive>,
                            claimed: set<string>, plan: seq<Step>, i: nat)
    requires i < |vols| == |plan|
  {
    StepFor(vols[i], names, inv, Without(Taken(plan[..i]), free), claimed + Held(plan[..i])) == Ok(plan[i])
  }

  lemma StepAfterTail(vols: seq<VolSpec>, names: set<string>, inv: Inventory, free: seq<Drive>,
                      claimed: set<string>, plan: seq<Step>, i: nat)
    requires i + 1 < |vols| == |plan|
    ensures StepAfter(vols, names, inv, free, claimed, plan, i + 1) <==>
            StepAfter(vols[1..], names, inv, FreeAfter(free, plan[0]), ClaimedAfter(claimed, plan[0]), plan[1..], i)
  {
    hide StepFor, FreeAfter, ClaimedAfter, Without, Taken, Held;
    assert plan[..i + 1] == [plan[0]] + plan[1..][..i];
    PrefixStep(free, claimed, plan[0], plan[1..][..i]);
  }

  lemma {:induction false} PlanFromAt(vols: seq<VolSpec>, names: set<string>, inv: Inventory, free: seq<Drive>,
                                      claimed: set<string>, plan: seq<Step>, i: nat)
    requires PlanFrom(vols, names, inv, free, claimed) == Ok(plan)
    ensures |plan| == |vols|
    ensures i < |plan| ==> StepAfter(vols, names, inv, free, claimed, plan, i)
    decreases |vols|
  {
    hide StepFor, FreeAfter, ClaimedAfter, Without, Taken, Held;
    if vols == [] {
    } else {
      var free1, claimed1 := FreeAfter(free, plan[0]), ClaimedAfter(claimed, plan[0]);
      assert PlanFrom(vols[1..], names, inv, free1, claimed1) == Ok(plan[1..]);
      PlanFromAt(vols[1..], names, inv, free1, claimed1, plan[1..], if i > 0 then i - 1 else 0);
      EmptyPrefix(free, claimed);
      assert plan[..0] == [];
      if 0 < i < |plan| { StepAfterTail(vols, names, inv, free, claimed, plan, i - 1); }
    }
  }

  lemma {:induction false} PlanFromBuild(vols: seq<VolSpec>, names: set<string>, inv: Inventory, free: seq<Drive>,
                                         claimed: set<string>, plan: seq<Step>)
    requires |plan| == |vols|
    requires forall i :: 0 <= i < |plan| ==> StepAfter(vols, names, inv, free, claimed, plan, i)
    ensures PlanFrom(vols, names, inv, free, claimed) == Ok(plan)
    decreases |vols|
  {
    hide StepFor, FreeAfter, ClaimedAfter, Without, Taken, Held;
    if vols == [] {
    } else {
      var free1, claimed1 := FreeAfter(free, plan[0]), ClaimedAfter(claimed, plan[0]);
      EmptyPrefix(free, claimed);
      assert plan[..0] == [];
      assert StepAfter(vols, names, inv, free, claimed, plan, 0);
      forall i | 0 <= i < |plan[1..]| ensures StepAfter(vols[1..], names, inv, free1, claimed1, plan[1..], i) {
        StepAfterTail(vols, names, inv, free, claimed, plan, i);
      }
      PlanFromBuild(vols[1..], names, inv, free1, claimed1, plan[1..]);
      assert plan == [plan[0]] + plan[1..];
    }
  }

  /** Step i of a plan is the decision for entry i. */
  ghost predicate StepIs(spec: seq<VolSpec>, inv: Inventory, plan: seq<Step>, i: nat)
    requires i < |spec| == |plan|
  {
    StepFor(spec[i], NamesIn(spec), inv, FreeAt(inv, plan[..i]), Held(plan[..i])) == Ok(plan[i])
  }

  /** A list of steps is the plan iff every step is the decision for its
      entry after the steps before it. */
  lemma PlanIffSteps(spec: seq<VolSpec>, inv: Inventory, plan: seq<Step>)
    ensures Plan(spec, inv) == Ok(plan) <==>
      |plan| == |spec| && forall i :: 0 <= i < |plan| ==> StepIs(spec, inv, plan, i)
  {
    hide StepFor;
    var names, free := NamesIn(spec), SortedFree(inv);
    assert forall i :: 0 <= i < |plan| ==> {} + Held(plan[..i]) == Held(plan[..i]);
    if Plan(spec, inv) == Ok(plan) {
      PlanFromAt(spec, names, inv, free, {}, plan, 0);
      forall i | 0 <= i < |plan| ensures StepIs(spec, inv, plan, i) {
        PlanFromAt(spec, names, inv, free, {}, plan, i);
      }
    }
    if |plan| == |spec| && forall i :: 0 <= i < |plan| ==> StepIs(spec, inv, plan, i) {
      forall i | 0 <= i < |plan| ensures StepAfter(spec, names, inv, free, {}, plan, i) {
        assert StepIs(spec, inv, plan, i);
      }
      PlanFromBuild(spec, names, inv, free, {}, plan);
    }
  }

  // ---- refused plans ----------------------------------------------------------------------

  /** The first entries are decided as in done, and the next one is refused. */
  ghost predicate Refused(vols: seq<VolSpec>, names: set<string>, inv: Inventory, free: seq<Drive>,
                          claimed: set<string>, done: seq<Step>, e: Error)
  {
    && |done| < |vols|
    && (forall k :: 0 <= k < |done| ==>
      StepFor(vols[k], names, inv, Without(Taken(done[..k]), free), claimed + Held(done[..k])) == Ok(done[k]))
    && StepFor(vols[|done|], names, inv, Without(Taken(done), free), claimed + Held(done)) == Err(e)
  }

  lemma RefusedTail(vols: seq<VolSpec>, names: set<string>, inv: Inventory, free: seq<Drive>, claimed: set<string>,
                    step: Step, rest: seq<Step>, e: Error)
    requires vols != [] && StepFor(vols[0], names, inv, free, claimed) == Ok(step)
    ensures Refused(vols, names, inv, free, claimed, [step] + rest, e) <==>
            Refused(vols[1..], names, inv, FreeAfter(free, step), ClaimedAfter(claimed, step), rest, e)
  {
    hide StepFor, FreeAfter, ClaimedAfter, Without, Taken, Held;
    var done, free1, claimed1 := [step] + rest, FreeAfter(free, step), ClaimedAfter(claimed, step);
    PrefixStep(free, claimed, step, rest);
    EmptyPrefix(free, claimed);
    assert done[..0] == [];
    if |done| < |vols| {
      forall k | 0 <= k < |rest|
        ensures StepFor(vols[1..][k], names, inv, Without(Taken(rest[..k]), free1), claimed1 + Held(rest[..k]))
             == StepFor(vols[k + 1], names, inv, Without(Taken(done[..k + 1]), free), claimed + Held(done[..k + 1]))
      {
        assert done[..k + 1] == [step] + rest[..k];
        PrefixStep(free, claimed, step, rest[..k]);
      }
      if Refused(vols, names, inv, free, claimed, done, e) {
        assert forall k :: 0 <= k < |rest| ==> done[k + 1] == rest[k];
      }
      if Refused(vols[1..], names, inv, free1, claimed1, rest, e) {
        assert forall k :: 0 < k < |done| ==> done[k] == rest[k - 1];
      }
    }
  }

  lemma RefusedFirst(vols: seq<VolSpec>, names: set<string>, inv: Inventory, free: seq<Drive>, claimed: set<string>,
                     done: seq<Step>, e: Error)
    requires Refused(vols, names, inv, free, claimed, done, e)
    ensures StepFor(vols[0], names, inv, free, claimed) == if done == [] then Err(e) else Ok(done[0])
  {
    hide StepFor, Without, Taken, Held;
    EmptyPrefix(free, claimed);
    if done == [] {
    } else {
      assert done[..0] == [];
    }
  }

  lemma {:induction false} PlanFromRefused(vols: seq<VolSpec>, names: set<string>, inv: Inventory, free: seq<Drive>,
                                           claimed: set<string>, e: Error)
    ensures PlanFrom(vols, names, inv, free, claimed) == Err(e) <==>
      exists done :: Refused(vols, names, inv, free, claimed, done, e)
    decreases |vols|
  {
    hide StepFor, FreeAfter, ClaimedAfter, Without, Taken, Held;
    EmptyPrefix(free, claimed);
    if vols == [] {
    } else {
      var decided := StepFor(vols[0], names, inv, free, claimed);
      if decided.Err? {
        assert decided == Err(e) ==> Refused(vols, names, inv, free, claimed, [], e);
        forall done | Refused(vols, names, inv, free, claimed, done, e) ensures decided == Err(e) {
          RefusedFirst(vols, names, inv, free, claimed, done, e);
        }
      } else {
        var step := decided.value;
        var free1, claimed1 := FreeAfter(free, step), ClaimedAfter(claimed, step);
        PlanFromRefused(vols[1..], names, inv, free1, claimed1, e);
        forall done | Refused(vols, names, inv, free, claimed, done, e)
          ensures Refused(vols[1..], names, inv, free1, claimed1, done[1..], e)
        {
          RefusedFirst(vols, names, inv, free, claimed, done, e);
          assert done == [step] + done[1..];
          RefusedTail(vols, names, inv, free, claimed, step, done[1..], e);
        }
        forall rest | Refused(vols[1..], names, inv, free1, claimed1, rest, e)
          ensures Refused(vols, names, inv, free, claimed, [step] + rest, e)
        {
          RefusedTail(vols, names, inv, free, claimed, step, rest, e);
        }
      }
    }
  }

  /** A plan is refused with an error iff that is the refusal of an entry, all
      entries before it being decided. */
  lemma PlanRefusedIff(spec: seq<VolSpec>, inv: Inventory, e: Error)
    ensures Plan(spec, inv) == Err(e) <==>
      exists done :: Refused(spec, NamesIn(spec), inv, SortedFree(inv), {}, done, e)
  {
    PlanFromRefused(spec, NamesIn(spec), inv, SortedFree(inv), {}, e);
  }
}
