/** When a device's interfaces describe one consistent topology, said of the
    interfaces themselves. */
module NetworkRules {
  import opened Prelude
  import opened NetworkModel
  import opened NetworkForest

  ghost predicate InRange(mtu: Option<int>) { mtu.None? || 576 <= mtu.value <= 9216 }

  /** The stem, one to most digits, and at most a line break after them. */
  ghost predicate Numbered(s: string, stem: string, most: nat) {
    exists digits :: 1 <= |digits| <= most && AllDigits(digits) && (s == stem + digits || s == stem + digits + "\n")
  }

  /** A physical port in one place, with a MAC. */
  ghost predicate PortRules(i: Iface) {
    i.kind == Physical && (i.lag.None? || i.bridge.None?) && i.mac.Some? && i.mac.value != ""
  }

  ghost predicate MemberRules(b: Iface, m: Iface) {
    InRange(m.mtu) && PortRules(m) && (b.mtu.Some? && m.mtu.Some? ==> b.mtu == m.mtu)
  }

  /** At most one of the flagged interfaces with p. */
  ghost predicate OneFlagged(ifaces: seq<Iface>, p: Iface -> bool) {
    forall i, j :: i in ifaces && j in ifaces && p(i) && p(j) && i.primaryMember && j.primaryMember ==> i == j
  }

  ghost predicate IsMember(b: Iface, m: Iface) { m.lag == Some(b.id) }

  ghost predicate IsAttached(b: Iface, i: Iface) { i.bridge == Some(b.id) }

  /** An active-backup bond of several members has a flagged one. */
  ghost predicate BackupRules(ifaces: seq<Iface>, b: Iface) {
    forall m, n :: m in ifaces && n in ifaces && m != n && IsMember(b, m) && IsMember(b, n) ==> HasFlagged(ifaces, b)
  }

  ghost predicate HasFlagged(ifaces: seq<Iface>, b: Iface) {
    exists m :: m in ifaces && IsMember(b, m) && m.primaryMember
  }

  /** The transmit hash policy. */
  ghost predicate HashRules(b: Iface) {
    && (b.lagMode in {Some(BalanceXor), Some(Ieee8023ad)} ==> b.xmitHash.Some?)
    && (b.lagMode in {Some(BalanceRr), Some(ActiveBackup), Some(Broadcast)} ==> b.xmitHash.None?)
    && b.xmitHash != Some(UnknownHash)
  }

  /** The bond's own fields, and that it has members. */
  ghost predicate BondFields(ifaces: seq<Iface>, net: Net, b: Iface) {
    && Numbered(b.name, "bond", 3) && InRange(b.mtu) && net.miimon.Some?
    && b.lagMode.Some? && b.lagMode != Some(UnknownMode) && HashRules(b)
    && (b.lagMode == Some(Ieee8023ad) ==> net.lacpRate.Some?)
    && (exists m :: m in ifaces && IsMember(b, m))
    && OneFlagged(ifaces, m => IsMember(b, m))
    && (b.lagMode == Some(ActiveBackup) ==> BackupRules(ifaces, b))
  }

  /** The rules for a bond. */
  ghost predicate BondRules(ifaces: seq<Iface>, net: Net, b: Iface) {
    BondFields(ifaces, net, b) && forall m :: m in ifaces && IsMember(b, m) ==> MemberRules(b, m)
  }

  lemma NumberedIs(s: string, stem: string, most: nat)
    requires '\n' !in stem
    ensures IsNumbered(s, stem, most) <==> Numbered(s, stem, most)
  {
    var t := BeforeBreak(s);
    assert s == t || s == t + "\n";
    if IsNumbered(s, stem, most) {
      assert t == stem + t[|stem|..];
    }
    if digits :| 1 <= |digits| <= most && AllDigits(digits) && (s == stem + digits || s == stem + digits + "\n") {
      var u := stem + digits;
      assert u[|u| - 1] == digits[|digits| - 1] && IsDigit(digits[|digits| - 1]);
      if s == u + "\n" { assert s[..|s| - 1] == u && s[|s| - 1..] == "\n"; }
      assert t == u && u[|stem|..] == digits && stem <= u;
    }
  }

  lemma FlaggedOnce(ifaces: seq<Iface>, p: Iface -> bool, s: seq<Iface>)
    requires NoDup(s) && forall i :: i in s <==> i in ifaces && p(i)
    ensures |Flagged(s)| <= 1 <==> OneFlagged(ifaces, p)
    ensures Flagged(s) != [] <==> exists i :: i in ifaces && p(i) && i.primaryMember
  {
    var f := Flagged(s);
    FilterMembers((i: Iface) => i.primaryMember, s);
    FilterNoDup((i: Iface) => i.primaryMember, s);
    assert forall i :: i in f <==> i in ifaces && p(i) && i.primaryMember;
    hide Flagged;
    if |f| > 1 { assert f[0] in f && f[1] in f && f[0] != f[1]; }
    if |f| == 1 { assert forall i :: i in f ==> i == f[0]; }
    if f != [] { assert f[0] in f; }
  }

  lemma AllEqual(s: seq<Iface>)
    requires |s| <= 1
    ensures forall m, n :: m in s && n in s ==> m == n
  {}

  lemma BackupMeans(ifaces: seq<Iface>, b: Iface)
    requires Unique(ifaces)
    ensures var members := Members(ifaces, b.id); (|members| > 1 ==> Flagged(members) != []) <==> BackupRules(ifaces, b)
  {
    var s := Members(ifaces, b.id);
    MembersAre(ifaces, b);
    FlaggedOnce(ifaces, m => IsMember(b, m), s);
    hide Members, Flagged, Unique;
    if |s| > 1 { assert s[0] in s && s[1] in s && s[0] != s[1]; } else { AllEqual(s); }
  }

  lemma MembersAre(ifaces: seq<Iface>, b: Iface)
    requires Unique(ifaces)
    ensures NoDup(Members(ifaces, b.id)) && NoDup(Attached(ifaces, b.id))
    ensures forall m :: m in Members(ifaces, b.id) <==> m in ifaces && IsMember(b, m)
    ensures forall i :: i in Attached(ifaces, b.id) <==> i in ifaces && IsAttached(b, i)
  {
    SelectionNoDup((i: Iface) => i.lag == Some(b.id), ifaces);
    SelectionNoDup((i: Iface) => i.bridge == Some(b.id), ifaces);
    LagMembers(ifaces, b);
  }

  lemma MemberMeans(b: Iface, m: Iface)
    ensures MemberOk(b, m) <==> MemberRules(b, m)
  {}

  lemma HashMeans(b: Iface)
    requires b.lagMode.Some? && b.lagMode.value != UnknownMode
    ensures HashRules(b) <==>
      && (b.xmitHash.Some? ==> b.xmitHash.value != UnknownHash && UsesHash(b.lagMode.value))
      && (NeedsHash(b.lagMode.value) ==> b.xmitHash.Some?)
  {}

  lemma FieldsMean(ifaces: seq<Iface>, net: Net, b: Iface)
    requires Unique(ifaces)
    ensures BondFieldsOk(net, b, Members(ifaces, b.id)) <==> BondFields(ifaces, net, b)
  {
    hide Members, Flagged, IsNumbered, Numbered, Unique, BackupRules, OneFlagged, HashRules, UsesHash, NeedsHash;
    var members := Members(ifaces, b.id);
    MembersAre(ifaces, b);
    NumberedIs(b.name, "bond", 3);
    FlaggedOnce(ifaces, m => IsMember(b, m), members);
    BackupMeans(ifaces, b);
    if b.lagMode.Some? && b.lagMode.value != UnknownMode { HashMeans(b); }
    assert members != [] <==> exists m :: m in ifaces && IsMember(b, m) by {
      if members != [] { assert members[0] in members; }
    }
  }

  /** A bond is as the topology demands iff it keeps its rules. */
  lemma BondMeans(ifaces: seq<Iface>, net: Net, b: Iface)
    requires Unique(ifaces)
    ensures BondOk(net, b, Members(ifaces, b.id)) <==> BondRules(ifaces, net, b)
  {
    FieldsMean(ifaces, net, b);
    MembersAre(ifaces, b);
    forall m ensures MemberOk(b, m) <==> MemberRules(b, m) { MemberMeans(b, m); }
    hide BondFieldsOk, BondFields, Members, MemberOk, MemberRules, Unique;
  }

  // ---- bridges ------------------------------------------------------------------------------------

  /** The MTU of a bond without one of its own. */
  ghost predicate LargestIs(ifaces: seq<Iface>, bond: Iface, mtu: Option<int>) {
    if mtu.None? then forall m :: m in ifaces && IsMember(bond, m) ==> m.mtu.None?
    else
      && (exists m :: m in ifaces && IsMember(bond, m) && m.mtu == mtu)
      && forall m :: m in ifaces && IsMember(bond, m) && m.mtu.Some? ==> m.mtu.value <= mtu.value
  }

  /** The MTU that a bridge finds on an attached interface: a bond without one has
      the largest of its members. */
  ghost predicate EffectiveMtu(ifaces: seq<Iface>, i: Iface, mtu: Option<int>) {
    if i.kind != Lag || i.mtu.Some? then mtu == i.mtu else LargestIs(ifaces, i, mtu)
  }

  /** An attached interface is a bond or a port, and no smaller than the bridge. */
  ghost predicate AttachedRules(ifaces: seq<Iface>, b: Iface, i: Iface) {
    && i.kind != Bridge && (i.kind != Lag ==> InRange(i.mtu) && PortRules(i))
    && forall mtu :: b.mtu.Some? && EffectiveMtu(ifaces, i, mtu) && mtu.Some? ==> b.mtu.value <= mtu.value
  }

  /** The bridge's own fields; carrier is the bridge with the primary address. */
  ghost predicate BridgeFields(ifaces: seq<Iface>, p: Primary, carrier: Iface, b: Iface) {
    && Numbered(b.name, "vmbr", 4) && InRange(b.mtu) && b.mode != Access && (b.mode == Tagged ==> b.taggedVids != [])
    && OneFlagged(ifaces, i => IsAttached(b, i))
    && forall ip :: ip in b.ips ==> b == carrier && ip == p.address
  }

  /** The rules for a bridge. */
  ghost predicate BridgeRules(ifaces: seq<Iface>, p: Primary, carrier: Iface, b: Iface) {
    BridgeFields(ifaces, p, carrier, b) && forall i :: i in ifaces && IsAttached(b, i) ==> AttachedRules(ifaces, b, i)
  }

  /** Of the device's interfaces the address is on m only, once. */
  ghost predicate OnlyOne(ifaces: seq<Iface>, ids: seq<string>, m: Iface) {
    m in ifaces && multiset(ids)[m.id] == 1 && forall i :: i in ifaces && i.id in ids ==> i == m
  }

  /** One interface of the device carries the primary address, once; it is a bridge,
      and address and gateway are good. */
  ghost predicate Carries(ifaces: seq<Iface>, p: Primary, m: Iface) {
    && OnlyOne(ifaces, p.ids, m) && m.kind == Bridge
    && p.addressOk && OneWord(p.address) && p.gatewayInside && p.gateway.Some? && OneWord(p.gateway.value)
  }

  lemma {:induction false} MineCount(ifaces: seq<Iface>, ids: seq<string>, m: Iface)
    requires Unique(ifaces) && m in ifaces
    ensures multiset(Mine(ifaces, ids))[m] == multiset(ids)[m.id]
    ensures forall i :: i in Mine(ifaces, ids) ==> i in ifaces && i.id in ids
  {
    if ids == [] {
    } else {
      MineCount(ifaces, ids[1..], m);
      var found, rest := ById(ifaces, ids[0]), Mine(ifaces, ids[1..]);
      assert ids == [ids[0]] + ids[1..];
      if found.Some? {
        SameIface(ifaces, found.value, m);
        assert Mine(ifaces, ids) == [found.value] + rest;
      } else {
        assert Mine(ifaces, ids) == [] + rest == rest;
      }
    }
  }

  lemma Twice(s: seq<Iface>, m: Iface)
    requires |s| > 1 && s[0] == m && s[1] == m
    ensures multiset(s)[m] > 1
  {
    assert s == [m] + ([m] + s[2..]);
  }

  lemma OneOf(s: seq<Iface>, m: Iface)
    requires multiset(s)[m] == 1 && forall i :: i in s ==> i == m
    ensures |s| == 1 && s[0] == m
  {
    assert m in s;
    assert s[0] in s;
    assert |s| > 1 ==> s[1] in s;
    if |s| > 1 { Twice(s, m); }
  }

  lemma OneIsMine(ifaces: seq<Iface>, ids: seq<string>, m: Iface)
    requires Unique(ifaces)
    ensures Mine(ifaces, ids) == [m] <==> OnlyOne(ifaces, ids, m)
  {
    var mine := Mine(ifaces, ids);
    if OnlyOne(ifaces, ids, m) {
      MineCount(ifaces, ids, m);
      OneOf(mine, m);
    }
    if mine == [m] {
      MineInList(ifaces, ids);
      assert m in mine;
      MineCount(ifaces, ids, m);
      forall i | i in ifaces && i.id in ids ensures i == m {
        MineCount(ifaces, ids, i);
        assert i in mine;
      }
    }
  }

  lemma ManagementMeans(ifaces: seq<Iface>, p: Primary)
    requires Unique(ifaces)
    ensures PrimaryOk(ifaces, p) <==> exists m :: Carries(ifaces, p, m)
    ensures forall m :: Carries(ifaces, p, m) ==> Mgmt(ifaces, p) == Some(m)
  {
    hide Mine, OneWord, Unique, OnlyOne;
    var mine := Mine(ifaces, p.ids);
    forall m: Iface ensures OnlyOne(ifaces, p.ids, m) ==> mine == [m] { OneIsMine(ifaces, p.ids, m); }
    if |mine| == 1 {
      assert mine == [mine[0]];
      OneIsMine(ifaces, p.ids, mine[0]);
      assert PrimaryOk(ifaces, p) ==> Carries(ifaces, p, mine[0]);
    }
  }

  lemma AttachedMeans(ifaces: seq<Iface>, b: Iface, i: Iface)
    requires Unique(ifaces)
    requires i.kind == Lag ==> forall m :: m in ifaces && IsMember(i, m) ==> InRange(m.mtu)
    requires InRange(i.mtu)
    ensures AttachedOk(ifaces, b, i) <==> AttachedRules(ifaces, b, i)
  {
    AttachedMtuIs(ifaces, i);
    hide AttachedMtu, Unique;
  }

  lemma {:induction false} Largest(members: seq<Iface>)
    requires forall m :: m in members ==> InRange(m.mtu)
    ensures LargestMtu(members) == 0 <==> forall m :: m in members ==> m.mtu.None?
    ensures LargestMtu(members) != 0 ==> exists m :: m in members && m.mtu == Some(LargestMtu(members))
    ensures forall m :: m in members && m.mtu.Some? ==> m.mtu.value <= LargestMtu(members)
    ensures LargestMtu(members) >= 0
  {
    if members == [] {
    } else {
      var first, rest := members[0], members[1..];
      assert first in members && forall m :: m in rest ==> m in members;
      assert forall m :: m in members ==> m == first || m in rest;
      Largest(rest);
    }
  }

  lemma LargestAgree(ifaces: seq<Iface>, bond: Iface, mtu: Option<int>, other: Option<int>)
    requires LargestIs(ifaces, bond, mtu) && LargestIs(ifaces, bond, other)
    ensures mtu == other
  {
    if mtu.Some? {
      var m :| m in ifaces && IsMember(bond, m) && m.mtu == mtu;
    }
    if other.Some? {
      var m :| m in ifaces && IsMember(bond, m) && m.mtu == other;
    }
  }

  lemma LargestHolds(ifaces: seq<Iface>, bond: Iface)
    requires Unique(ifaces) && bond.mtu.None?
    requires forall m :: m in ifaces && IsMember(bond, m) ==> InRange(m.mtu)
    ensures LargestIs(ifaces, bond, BondMtu(bond, Members(ifaces, bond.id)))
  {
    var members := Members(ifaces, bond.id);
    MembersAre(ifaces, bond);
    Largest(members);
    hide Members, LargestMtu, Unique, InRange;
  }

  lemma AttachedMtuIs(ifaces: seq<Iface>, i: Iface)
    requires Unique(ifaces) && InRange(i.mtu)
    requires i.kind == Lag ==> forall m :: m in ifaces && IsMember(i, m) ==> InRange(m.mtu)
    ensures forall mtu :: EffectiveMtu(ifaces, i, mtu) <==> mtu == AttachedMtu(ifaces, i)
  {
    hide LargestIs, Unique, Members, LargestMtu;
    var mine := AttachedMtu(ifaces, i);
    if i.kind == Lag && i.mtu.None? {
      LargestHolds(ifaces, i);
      forall mtu ensures LargestIs(ifaces, i, mtu) <==> mtu == mine {
        if LargestIs(ifaces, i, mtu) { LargestAgree(ifaces, i, mtu, mine); }
      }
    }
  }

  lemma AttachedAll(ifaces: seq<Iface>, net: Net, b: Iface, i: Iface)
    requires Unique(ifaces) && i in ifaces
    requires forall l :: l in ifaces && l.kind == Lag ==> BondRules(ifaces, net, l)
    ensures AttachedOk(ifaces, b, i) <==> AttachedRules(ifaces, b, i)
  {
    if i.kind == Lag || InRange(i.mtu) {
      if i.kind == Lag {
        assert BondRules(ifaces, net, i);
        assert InRange(i.mtu);
      }
      hide BondFields, PortRules, AttachedOk, AttachedRules;
      AttachedMeans(ifaces, b, i);
    }
  }

  lemma AddressesMean(ifaces: seq<Iface>, p: Primary, m: Iface, b: Iface)
    requires Unique(ifaces) && m in ifaces && b in ifaces
    ensures (forall ip :: ip in b.ips ==> b.id == m.id && ip == p.address)
      <==> forall ip :: ip in b.ips ==> b == m && ip == p.address
  {
    SameIface(ifaces, b, m);
    hide Unique;
  }

  lemma CarrierIsListed(ifaces: seq<Iface>, p: Primary, m: Iface)
    requires Carries(ifaces, p, m)
    ensures m in ifaces
  {
    hide OneWord;
  }

  lemma BridgeFieldsMean(ifaces: seq<Iface>, p: Primary, m: Iface, b: Iface)
    requires Unique(ifaces) && Carries(ifaces, p, m) && b in ifaces
    ensures BridgeFieldsOk(p, Some(m), b, Attached(ifaces, b.id)) <==> BridgeFields(ifaces, p, m, b)
  {
    hide Attached, Flagged, IsNumbered, Numbered, Unique, OneFlagged, Carries;
    NumberedIs(b.name, "vmbr", 4);
    MembersAre(ifaces, b);
    CarrierIsListed(ifaces, p, m);
    AddressesMean(ifaces, p, m, b);
    FlaggedOnce(ifaces, i => IsAttached(b, i), Attached(ifaces, b.id));
  }

  lemma BridgeMeans(ifaces: seq<Iface>, net: Net, p: Primary, m: Iface, b: Iface)
    requires Unique(ifaces) && Carries(ifaces, p, m) && b in ifaces
    requires forall l :: l in ifaces && l.kind == Lag ==> BondRules(ifaces, net, l)
    ensures BridgeOk(ifaces, p, Some(m), b, Attached(ifaces, b.id)) <==> BridgeRules(ifaces, p, m, b)
  {
    hide BridgeFieldsOk, BridgeFields, Attached, AttachedOk, AttachedRules, Unique, BondRules, Carries;
    BridgeFieldsMean(ifaces, p, m, b);
    MembersAre(ifaces, b);
    forall i | i in ifaces ensures AttachedOk(ifaces, b, i) <==> AttachedRules(ifaces, b, i) {
      AttachedAll(ifaces, net, b, i);
    }
  }

  /** The interface is a bridge, a bond, the XCC, without an address, or one of the
      topology's ports. */
  ghost predicate AddressKept(ifaces: seq<Iface>, i: Iface) {
    || i.kind == Bridge || i.kind == Lag || i.name == "xcc" || i.ips == []
    || (exists b :: b in ifaces && b.kind == Lag && IsMember(b, i))
    || (exists b :: b in ifaces && b.kind == Bridge && IsAttached(b, i))
  }

  lemma KeptMeans(ifaces: seq<Iface>, i: Iface)
    requires Unique(ifaces) && i in ifaces
    ensures NoAddressLost(ifaces, i) <==> AddressKept(ifaces, i)
  {
    hide PortList, Unique;
    if i.kind != Bridge && i.kind != Lag {
      if q :| q in PortList(ifaces) && q.id == i.id {
        PortListMember(ifaces, q);
        if m, b :| BondPort(ifaces, m, b, q) {
          SameIface(ifaces, m, i);
          assert b in ifaces && b.kind == Lag && IsMember(b, i);
        } else {
          var k, b :| BridgePort(ifaces, k, b, q);
          SameIface(ifaces, k, i);
          assert b in ifaces && b.kind == Bridge && IsAttached(b, i);
        }
      }
      if b :| b in ifaces && b.kind == Lag && IsMember(b, i) {
        var q := PortOf(i, MtuOr(i.mtu, b.mtu));
        assert BondPort(ifaces, i, b, q);
        PortListMember(ifaces, q);
      } else if b :| b in ifaces && b.kind == Bridge && IsAttached(b, i) {
        var q := PortOf(i, i.mtu);
        assert BridgePort(ifaces, i, b, q);
        PortListMember(ifaces, q);
      }
    }
  }

  /** Every bond and bridge keeps its rules, one bridge carries the primary
      address, and no address lies outside. */
  ghost predicate Consistent(ifaces: seq<Iface>, net: Net, p: Primary, m: Iface) {
    && Carries(ifaces, p, m)
    && (forall b :: b in ifaces && b.kind == Lag ==> BondRules(ifaces, net, b))
    && (forall b :: b in ifaces && b.kind == Bridge ==> BridgeRules(ifaces, p, m, b))
    && forall i :: i in ifaces ==> AddressKept(ifaces, i)
  }

  lemma BondsMean(ifaces: seq<Iface>, net: Net)
    requires Unique(ifaces)
    ensures BondsOk(ifaces, net, OfKind(ifaces, Lag))
      <==> forall b :: b in ifaces && b.kind == Lag ==> BondRules(ifaces, net, b)
  {
    KindMembers(ifaces, Lag);
    forall b: Iface ensures BondOk(net, b, Members(ifaces, b.id)) <==> BondRules(ifaces, net, b) {
      BondMeans(ifaces, net, b);
    }
    hide OfKind, Members, BondOk, BondRules, Unique;
  }

  lemma BridgesMean(ifaces: seq<Iface>, net: Net, p: Primary, m: Iface)
    requires Unique(ifaces) && Carries(ifaces, p, m)
    requires forall l :: l in ifaces && l.kind == Lag ==> BondRules(ifaces, net, l)
    ensures BridgesOk(ifaces, p, OfKind(ifaces, Bridge))
      <==> forall b :: b in ifaces && b.kind == Bridge ==> BridgeRules(ifaces, p, m, b)
  {
    hide OfKind, Attached, Mgmt, BridgeOk, BridgeRules, Unique, BondRules, Carries;
    KindMembers(ifaces, Bridge);
    ManagementMeans(ifaces, p);
    forall b | b in ifaces
      ensures BridgeOk(ifaces, p, Some(m), b, Attached(ifaces, b.id)) <==> BridgeRules(ifaces, p, m, b)
    {
      BridgeMeans(ifaces, net, p, m, b);
    }
  }

  /** The interfaces describe one consistent topology iff every rule above holds
      of them, for one management bridge. */
  lemma CleanMeans(ifaces: seq<Iface>, net: Net, p: Primary)
    requires Unique(ifaces)
    ensures Clean(ifaces, net, p) <==> exists m :: Consistent(ifaces, net, p, m)
    ensures forall m :: Consistent(ifaces, net, p, m) ==> Mgmt(ifaces, p) == Some(m)
  {
    hide PrimaryOk, BondsOk, BridgesOk, NoAddressLost, AddressKept, Carries, BondRules, BridgeRules;
    hide Unique, Mgmt, OfKind;
    ManagementMeans(ifaces, p);
    BondsMean(ifaces, net);
    forall i | i in ifaces ensures NoAddressLost(ifaces, i) <==> AddressKept(ifaces, i) { KeptMeans(ifaces, i); }
    forall m | Consistent(ifaces, net, p, m) ensures Clean(ifaces, net, p) { BridgesMean(ifaces, net, p, m); }
    if Clean(ifaces, net, p) {
      var m :| Carries(ifaces, p, m);
      BridgesMean(ifaces, net, p, m);
      assert Consistent(ifaces, net, p, m);
    }
  }
}
