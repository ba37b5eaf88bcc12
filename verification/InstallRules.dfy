/** How the install NIC is derived, said of the interfaces themselves, for every
    device: which NIC it is, and when and why there is none. */
module InstallRules {
  import opened Prelude
  import opened NetworkModel
  import opened NetworkForest
  import opened NetworkRules
  import opened InstallNic

  // ---- the pick ---------------------------------------------------------------------------------

  /** Of the interfaces with p, i is the only one, or the only flagged one. */
  ghost predicate Only(ifaces: seq<Iface>, p: Iface -> bool, i: Iface) {
    && i in ifaces && p(i)
    && ((forall j :: j in ifaces && p(j) ==> j == i)
      || (i.primaryMember && forall j :: j in ifaces && p(j) && j.primaryMember ==> j == i))
  }

  /** s lists the interfaces with p, each once. */
  ghost predicate Lists(s: seq<Iface>, ifaces: seq<Iface>, p: Iface -> bool) {
    NoDup(s) && forall i :: i in s <==> i in ifaces && p(i)
  }

  lemma Flags(s: seq<Iface>)
    requires NoDup(s)
    ensures NoDup(Flagged(s)) && forall i :: i in Flagged(s) <==> i in s && i.primaryMember
  {
    FilterMembers((i: Iface) => i.primaryMember, s);
    FilterNoDup((i: Iface) => i.primaryMember, s);
  }

  lemma OneOrMore(s: seq<Iface>)
    requires NoDup(s)
    ensures s == [] <==> forall i :: i !in s
    ensures |s| == 1 ==> s[0] in s && forall i :: i in s ==> i == s[0]
    ensures |s| > 1 ==> s[0] in s && s[1] in s && s[0] != s[1]
  {
    if s != [] { assert s[0] in s; }
  }

  lemma PickIs(parent: Iface, s: seq<Iface>, ifaces: seq<Iface>, p: Iface -> bool, i: Iface)
    requires Lists(s, ifaces, p)
    ensures PickMember(parent, s) == Ok(i) <==> Only(ifaces, p, i)
  {
    Flags(s);
    var flagged := Flagged(s);
    OneOrMore(s);
    OneOrMore(flagged);
    hide Flagged, NoDup;
  }

  /** There are several interfaces with p. */
  ghost predicate Several(ifaces: seq<Iface>, p: Iface -> bool) {
    exists i, j :: i in ifaces && j in ifaces && p(i) && p(j) && i != j
  }

  ghost predicate SeveralFlagged(ifaces: seq<Iface>, p: Iface -> bool) {
    exists i, j :: i in ifaces && j in ifaces && p(i) && p(j) && i != j && i.primaryMember && j.primaryMember
  }

  ghost predicate NoFlag(ifaces: seq<Iface>, p: Iface -> bool) {
    forall i :: i in ifaces && p(i) ==> !i.primaryMember
  }

  /** Why nothing is picked: no member, several that are flagged, or several of which
      none is. */
  ghost predicate NoPick(ifaces: seq<Iface>, p: Iface -> bool, parent: Iface, e: NicError) {
    || (e == NoMember(parent.name) && forall i :: i in ifaces ==> !p(i))
    || (e == SeveralMembersFlagged(parent.name) && SeveralFlagged(ifaces, p))
    || (e == NoneFlagged(parent.name) && Several(ifaces, p) && NoFlag(ifaces, p))
  }

  lemma PickRefusals(parent: Iface, s: seq<Iface>, ifaces: seq<Iface>, p: Iface -> bool, e: NicError)
    requires Lists(s, ifaces, p)
    ensures PickMember(parent, s) == Err(e) <==> NoPick(ifaces, p, parent, e)
  {
    Flags(s);
    var flagged := Flagged(s);
    OneOrMore(s);
    OneOrMore(flagged);
    hide Flagged, NoDup;
  }

  // ---- the start -----------------------------------------------------------------------------------

  lemma CarriersList(ifaces: seq<Iface>, ids: seq<string>)
    requires Unique(ifaces)
    ensures Lists(Carriers(ifaces, ids), ifaces, (i: Iface) => i.id in ids)
  {
    OneCarrier(ifaces, ids);
    hide Carriers, Unique, NoDup;
    MineInList(ifaces, ids);
    forall i | i in ifaces ensures i in Mine(ifaces, ids) <==> i.id in ids {
      MineCount(ifaces, ids, i);
      hide Mine;
    }
  }

  lemma ChildrenList(ifaces: seq<Iface>, b: Iface)
    requires Unique(ifaces)
    ensures Lists(OnParent(ifaces, b), ifaces, (i: Iface) => i.bridge == Some(b.id))
    ensures Lists(InLag(ifaces, b), ifaces, (i: Iface) => i.lag == Some(b.id))
  {
    assert NoDup(ifaces) by {
      forall i, j | 0 <= i < j < |ifaces| ensures ifaces[i] != ifaces[j] { assert ifaces[i].id != ifaces[j].id; }
    }
    FilterMembers((i: Iface) => i.bridge == Some(b.id), ifaces);
    FilterNoDup((i: Iface) => i.bridge == Some(b.id), ifaces);
    FilterMembers((i: Iface) => i.lag == Some(b.id), ifaces);
    FilterNoDup((i: Iface) => i.lag == Some(b.id), ifaces);
    hide Unique, NoDup;
  }

  // ---- the way ---------------------------------------------------------------------------------------

  /** The address is on start alone. */
  ghost predicate StartsAt(ifaces: seq<Iface>, ids: seq<string>, start: Iface) {
    start in ifaces && start.id in ids && forall i :: i in ifaces && i.id in ids ==> i == start
  }

  /** From a bridge to the one interface on it. */
  ghost predicate Descends(ifaces: seq<Iface>, start: Iface, next: Iface) {
    if start.kind == Bridge then Only(ifaces, (i: Iface) => i.bridge == Some(start.id), next) else next == start
  }

  /** From a bond to its one member. */
  ghost predicate Enters(ifaces: seq<Iface>, next: Iface, nic: Iface) {
    if next.kind == Lag then Only(ifaces, (i: Iface) => i.lag == Some(next.id), nic) else nic == next
  }

  function NamesOnWay(start: Iface, next: Iface, nic: Iface): seq<string> {
    [start.name] + (if start.kind == Bridge then [next.name] else []) + if next.kind == Lag then [nic.name] else []
  }

  /** From the one interface with the address through its bridge and its bond, where
      there are any, to an interface that is neither. */
  ghost predicate Reaches(ifaces: seq<Iface>, ids: seq<string>, start: Iface, next: Iface, nic: Iface) {
    && StartsAt(ifaces, ids, start) && Descends(ifaces, start, next) && Enters(ifaces, next, nic)
    && nic.kind != Bridge && nic.kind != Lag
  }

  lemma FollowMeans(ifaces: seq<Iface>, next: Iface, chain: seq<string>, nic: Iface, whole: seq<string>)
    requires Unique(ifaces)
    ensures FollowLag(ifaces, next, chain) == Ok((nic, whole)) <==>
      && Enters(ifaces, next, nic) && nic.kind != Bridge && nic.kind != Lag
      && whole == chain + if next.kind == Lag then [nic.name] else []
  {
    ChildrenList(ifaces, next);
    PickIs(next, InLag(ifaces, next), ifaces, (i: Iface) => i.lag == Some(next.id), nic);
    hide PickMember, InLag, Only, Unique, Lists;
    assert chain + [] == chain;
  }

  lemma StartMeans(ifaces: seq<Iface>, ids: seq<string>, start: Iface)
    requires Unique(ifaces)
    ensures Carriers(ifaces, ids) == [start] <==> StartsAt(ifaces, ids, start)
  {
    CarriersList(ifaces, ids);
    var mine := Carriers(ifaces, ids);
    OneOrMore(mine);
    hide Carriers, Unique, NoDup;
  }

  lemma DeriveFrom(ifaces: seq<Iface>, ids: seq<string>, start: Iface)
    requires Carriers(ifaces, ids) == [start]
    ensures Derive(ifaces, ids) ==
      if start.kind != Bridge then FollowLag(ifaces, start, [start.name])
      else
        var found := PickMember(start, OnParent(ifaces, start));
        if found.Err? then Err(found.error) else FollowLag(ifaces, found.value, [start.name, found.value.name])
  {
    hide Carriers, PickMember, OnParent, FollowLag;
  }

  lemma DeriveOne(ifaces: seq<Iface>, ids: seq<string>, start: Iface, nic: Iface, chain: seq<string>)
    requires Unique(ifaces) && Carriers(ifaces, ids) == [start]
    ensures Derive(ifaces, ids) == Ok((nic, chain)) <==>
      exists next :: Descends(ifaces, start, next) && Enters(ifaces, next, nic) && nic.kind != Bridge && nic.kind != Lag
        && chain == NamesOnWay(start, next, nic)
  {
    DeriveFrom(ifaces, ids, start);
    ChildrenList(ifaces, start);
    var on := OnParent(ifaces, start);
    forall next: Iface
      ensures start.kind == Bridge ==> (PickMember(start, on) == Ok(next) <==> Descends(ifaces, start, next))
      ensures var front := [start.name] + if start.kind == Bridge then [next.name] else [];
        FollowLag(ifaces, next, front) == Ok((nic, chain)) <==>
        Enters(ifaces, next, nic) && nic.kind != Bridge && nic.kind != Lag && chain == NamesOnWay(start, next, nic)
    {
      PickIs(start, on, ifaces, (i: Iface) => i.bridge == Some(start.id), next);
      FollowMeans(ifaces, next, [start.name] + (if start.kind == Bridge then [next.name] else []), nic, chain);
    }
    hide PickMember, FollowLag, Enters, OnParent, Unique, Carriers, Derive, NamesOnWay, Lists;
    assert [start.name] + [] == [start.name];
    forall next: Iface ensures [start.name] + [next.name] == [start.name, next.name] {}
  }

  /** For every device: the derived NIC is the one that is reached in this way, and
      the chain names the way to it. */
  lemma DeriveMeans(ifaces: seq<Iface>, ids: seq<string>, nic: Iface, chain: seq<string>)
    requires Unique(ifaces)
    ensures Derive(ifaces, ids) == Ok((nic, chain)) <==>
      exists start, next :: Reaches(ifaces, ids, start, next, nic) && chain == NamesOnWay(start, next, nic)
  {
    forall start ensures Carriers(ifaces, ids) == [start] <==> StartsAt(ifaces, ids, start) {
      StartMeans(ifaces, ids, start);
    }
    var mine := Carriers(ifaces, ids);
    if |mine| == 1 {
      assert mine == [mine[0]];
      DeriveOne(ifaces, ids, mine[0], nic, chain);
      hide StartsAt, Descends, Enters, Derive, Carriers, NamesOnWay, Unique;
      assert forall start :: StartsAt(ifaces, ids, start) ==> start == mine[0];
    } else {
      hide StartsAt, Descends, Enters, NamesOnWay, Unique, Carriers;
    }
  }

  /** The address is on several interfaces. */
  ghost predicate OnSeveral(ifaces: seq<Iface>, ids: seq<string>) {
    exists i, j :: i in ifaces && j in ifaces && i.id in ids && j.id in ids && i != j
  }

  /** Without one interface that carries the address, that is the refusal. */
  lemma StartRefusals(ifaces: seq<Iface>, ids: seq<string>)
    requires Unique(ifaces)
    ensures Derive(ifaces, ids) == Err(NotAssigned) <==> forall i :: i in ifaces ==> i.id !in ids
    ensures Derive(ifaces, ids) == Err(SeveralAssigned) <==> OnSeveral(ifaces, ids)
  {
    CarriersList(ifaces, ids);
    var mine := Carriers(ifaces, ids);
    OneOrMore(mine);
    DeriveStart(ifaces, ids);
    hide Carriers, Unique, NoDup, Derive;
  }

  lemma DeriveStart(ifaces: seq<Iface>, ids: seq<string>)
    ensures Derive(ifaces, ids) == Err(NotAssigned) <==> Carriers(ifaces, ids) == []
    ensures Derive(ifaces, ids) == Err(SeveralAssigned) <==> |Carriers(ifaces, ids)| > 1
  {
    hide Carriers, OnParent, InLag, Flagged;
  }

  /** No member is picked below the start or below the bond, or the way ends at a
      bridge or a bond. */
  ghost predicate Stuck(ifaces: seq<Iface>, start: Iface, e: NicError) {
    || (start.kind == Bridge && NoPick(ifaces, (i: Iface) => i.bridge == Some(start.id), start, e))
    || exists next :: Descends(ifaces, start, next) && StuckAt(ifaces, next, e)
  }

  ghost predicate StuckAt(ifaces: seq<Iface>, next: Iface, e: NicError) {
    || (next.kind == Lag && NoPick(ifaces, (i: Iface) => i.lag == Some(next.id), next, e))
    || exists nic :: Enters(ifaces, next, nic) && (nic.kind == Bridge || nic.kind == Lag) && e == TooDeep(nic.name)
  }

  lemma FollowRefuses(ifaces: seq<Iface>, next: Iface, chain: seq<string>, e: NicError)
    requires Unique(ifaces)
    ensures FollowLag(ifaces, next, chain) == Err(e) <==> StuckAt(ifaces, next, e)
  {
    ChildrenList(ifaces, next);
    var s, p := InLag(ifaces, next), (i: Iface) => i.lag == Some(next.id);
    PickRefusals(next, s, ifaces, p, e);
    forall nic ensures PickMember(next, s) == Ok(nic) <==> Only(ifaces, p, nic) { PickIs(next, s, ifaces, p, nic); }
    hide PickMember, InLag, Only, Unique, Lists, NoPick;
    if next.kind == Lag && PickMember(next, s).Ok? {
      assert Enters(ifaces, next, PickMember(next, s).value);
    } else if next.kind != Lag {
      assert Enters(ifaces, next, next);
    }
  }

  lemma DeriveRefusesFrom(ifaces: seq<Iface>, ids: seq<string>, start: Iface, e: NicError)
    requires Unique(ifaces) && Carriers(ifaces, ids) == [start]
    ensures Derive(ifaces, ids) == Err(e) <==> Stuck(ifaces, start, e)
  {
    DeriveFrom(ifaces, ids, start);
    ChildrenList(ifaces, start);
    var on, p := OnParent(ifaces, start), (i: Iface) => i.bridge == Some(start.id);
    PickRefusals(start, on, ifaces, p, e);
    forall next ensures PickMember(start, on) == Ok(next) <==> Only(ifaces, p, next) {
      PickIs(start, on, ifaces, p, next);
    }
    hide PickMember, FollowLag, OnParent, Unique, Carriers, Derive, Lists, NoPick, StuckAt, Only;
    if start.kind != Bridge {
      FollowRefuses(ifaces, start, [start.name], e);
      assert Descends(ifaces, start, start);
    } else if PickMember(start, on).Ok? {
      var next := PickMember(start, on).value;
      FollowRefuses(ifaces, next, [start.name, next.name], e);
      assert Descends(ifaces, start, next);
    }
  }

  /** For every device: why there is no install NIC. The address is on none of its
      interfaces or on several, or the way from the one that has it does not lead to
      one port. */
  lemma DeriveRefusals(ifaces: seq<Iface>, ids: seq<string>, e: NicError)
    requires Unique(ifaces)
    ensures Derive(ifaces, ids) == Err(e) <==>
      || (e == NotAssigned && forall i :: i in ifaces ==> i.id !in ids)
      || (e == SeveralAssigned && OnSeveral(ifaces, ids))
      || exists start :: StartsAt(ifaces, ids, start) && Stuck(ifaces, start, e)
  {
    var mine := Carriers(ifaces, ids);
    StartRefusals(ifaces, ids);
    forall start ensures mine == [start] <==> StartsAt(ifaces, ids, start) { StartMeans(ifaces, ids, start); }
    if |mine| == 1 {
      assert mine == [mine[0]] && StartsAt(ifaces, ids, mine[0]);
      DeriveRefusesFrom(ifaces, ids, mine[0], e);
      assert mine[0] in ifaces && mine[0].id in ids;
      assert !OnSeveral(ifaces, ids);
      assert forall start :: StartsAt(ifaces, ids, start) ==> start == mine[0];
      hide Carriers, Unique, Derive, Stuck, StartsAt, OnSeveral;
    } else {
      DeriveStart(ifaces, ids);
      hide Carriers, Unique, Stuck, StartsAt, OnSeveral;
      assert mine == [] || |mine| > 1;
      assert Derive(ifaces, ids) == if mine == [] then Err(NotAssigned) else Err(SeveralAssigned);
    }
  }
}
