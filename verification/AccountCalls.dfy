/** What a service-account plan holds, read off the node's report, and the calls
    that it becomes: which they are, in which order, and that the removed ACL
    entries are listed in order, each once. */
module AccountCalls {
  import opened Prelude
  import opened Accounts
  import opened AccountPlan
  import opened AccountConvergence

  // ---- what a plan holds -----------------------------------------------------------------------

  /** The role on the path for the user, and with privilege separation for its token. */
  ghost predicate Wanted(acc: Account, a: Acl) {
    && a.path == acc.path && a.role == acc.role
    && ((a.kind == User && a.ugid == acc.user)
      || (acc.privsep && a.kind == Token && a.ugid == acc.user + "!" + acc.token))
  }

  /** An entry of the account's user or of its token. */
  ghost predicate Owned(acc: Account, a: Acl) {
    (a.kind == User && a.ugid == acc.user) || (a.kind == Token && a.ugid == acc.user + "!" + acc.token)
  }

  /** The entry is there, and stays while the token is made. */
  ghost predicate Stays(acls: seq<Acl>, acc: Account, action: TokenAction, a: Acl) {
    a in acls && (action == Keep || a.ugid != acc.user + "!" + acc.token)
  }

  lemma DesiredIs(acc: Account, a: Acl)
    ensures a in Desired(acc) <==> Wanted(acc, a)
    ensures Managed(acc, a) <==> Owned(acc, a)
  {}

  lemma BaselineIs(acls: seq<Acl>, acc: Account, action: TokenAction, a: Acl)
    ensures a in Baseline(acls, acc, action) <==> Stays(acls, acc, action, a)
  {
    WithoutUgidMembers(acls, FullId(acc.user, acc.token), a);
  }

  /** A plan adds the user iff the node lacks it, grants exactly the wanted entries
      that are not there, and removes exactly the others that the account owns. */
  lemma PlanHolds(users: Users, acls: seq<Acl>, stored: map<string, StoredState>, acc: Account, a: Acl)
    ensures var p := PlanAccount(users, acls, stored, acc);
      && p.account == acc
      && (p.userAdd <==> acc.user !in users)
      && (a in p.aclAdds <==> Wanted(acc, a) && !Stays(acls, acc, p.token, a))
      && (a in p.aclDeletes <==> Owned(acc, a) && Stays(acls, acc, p.token, a) && !Wanted(acc, a))
  {
    var p := PlanAccount(users, acls, stored, acc);
    var current := Baseline(acls, acc, p.token);
    DesiredIs(acc, a);
    BaselineIs(acls, acc, p.token, a);
    AclAddsMembers(Desired(acc), current, a);
    UnwantedMembers(acc, Desired(acc), SortedAcls(current), a);
    SortedAclsMembers(current, a);
    hide Wanted, Owned, Stays, Desired, Managed, Baseline, AclAdds, Unwanted, SortedAcls;
  }

  /** A plan changes the flag iff the token is kept and its flag is another one; a
      flag that is not reported is on. */
  lemma FlagIsFixed(users: Users, acls: seq<Acl>, stored: map<string, StoredState>, acc: Account)
    ensures var p := PlanAccount(users, acls, stored, acc);
      p.privsepFix <==>
        p.token == Keep && users[acc.user][acc.token] in if acc.privsep then {Some(false)} else {Some(true), None}
  {
    hide AclAdds, Unwanted, SortedAcls, Baseline, Desired;
  }

  /** The user's grant comes before its token's, and neither comes twice. */
  lemma GrantsInOrder(users: Users, acls: seq<Acl>, stored: map<string, StoredState>, acc: Account, i: nat, j: nat)
    requires i < j < |PlanAccount(users, acls, stored, acc).aclAdds|
    ensures var adds := PlanAccount(users, acls, stored, acc).aclAdds; adds[i].kind == User && adds[j].kind == Token
  {
    hide Unwanted, SortedAcls;
    var p := PlanAccount(users, acls, stored, acc);
    var current := Baseline(acls, acc, p.token);
    var first := Acl(acc.path, User, acc.user, acc.role);
    var second := Acl(acc.path, Token, FullId(acc.user, acc.token), acc.role);
    hide Baseline;
    assert Desired(acc)[0] == first;
    assert AclAdds([], current) == [];
    assert AclAdds([second], current) == (if second in current then [] else [second]) + AclAdds([], current);
    assert Desired(acc)[1..] == if acc.privsep then [second] else [];
  }

  /** A node is as an account says iff it has the user and the token with the flag,
      and of the entries that the account owns exactly the wanted ones. */
  lemma SatisfiedIs(n: Node, acc: Account)
    ensures Satisfied(n, acc) <==>
      && acc.user in n.users && acc.token in n.users[acc.user]
      && n.users[acc.user][acc.token] in (if acc.privsep then {Some(true), None} else {Some(false)})
      && forall a :: Owned(acc, a) ==> (a in n.acls <==> Wanted(acc, a))
  {
    hide Desired, Managed, Wanted, Owned;
    forall a ensures (a in Desired(acc) <==> Wanted(acc, a)) && (Managed(acc, a) <==> Owned(acc, a)) {
      DesiredIs(acc, a);
    }
  }

  // ---- the calls ---------------------------------------------------------------------------------

  /** The calls of a plan: the user if it is missing, one token call or report, the
      flag if it is wrong, a delete for each unwanted entry, a grant for each missing
      one, and a report where the ACL is as wanted. */
  lemma CallMembers(p: Plan, c: Call)
    ensures c in AccountCalls(p) <==>
      var acc := p.account;
      || (c == Run(UserAdd(acc.user)) && p.userAdd)
      || (c == MakeToken(acc.user, acc.token, acc.privsep, p.token == Rotate) && p.token != Keep)
      || (c == Run(TokenModify(acc.user, acc.token, acc.privsep)) && p.privsepFix)
      || (exists a :: a in p.aclDeletes && c == Run(AclDelete(a)))
      || (exists a :: a in p.aclAdds && c == Run(AclModify(a)))
      || (c == Emit && (p.token == Keep || (p.aclAdds == [] && p.aclDeletes == [])))
  {
    CommandMembers(p.aclDeletes, p.aclAdds, c);
    hide Revokes, Grants;
  }

  lemma CommandMembers(deletes: seq<Acl>, adds: seq<Acl>, c: Call)
    ensures c in Revokes(deletes) <==> exists a :: a in deletes && c == Run(AclDelete(a))
    ensures c in Grants(adds) <==> exists a :: a in adds && c == Run(AclModify(a))
  {
    MapMember((a: Acl) => Run(AclDelete(a)), deletes, c);
    MapMember((a: Acl) => Run(AclModify(a)), adds, c);
    if a :| a in deletes && c == Run(AclDelete(a)) {
      var i :| 0 <= i < |deletes| && deletes[i] == a;
    }
    if a :| a in adds && c == Run(AclModify(a)) {
      var i :| 0 <= i < |adds| && adds[i] == a;
    }
  }

  /** None of them is made twice. */
  lemma CallCount(p: Plan)
    ensures |AccountCalls(p)| == (if p.userAdd then 1 else 0) + 1 + (if p.privsepFix then 1 else 0)
      + |p.aclDeletes| + |p.aclAdds| + (if p.aclAdds == [] && p.aclDeletes == [] then 1 else 0)
  {
    CommandCount(p.aclDeletes, p.aclAdds);
    hide Revokes, Grants;
  }

  lemma CommandCount(deletes: seq<Acl>, adds: seq<Acl>)
    ensures |Revokes(deletes)| == |deletes| && |Grants(adds)| == |adds|
  {}

  /** The user, its token, the flag, then what is taken away, then what is given. */
  function Rank(c: Call): nat {
    match c
    case Run(UserAdd(_)) => 0
    case MakeToken(_, _, _, _) => 1
    case Run(TokenModify(_, _, _)) => 2
    case Run(AclDelete(_)) => 3
    case Run(AclModify(_)) => 4
    case Emit => 5
  }

  ghost predicate InOrder(calls: seq<Call>) {
    forall i, j :: 0 <= i < j < |calls| && !calls[i].Emit? && !calls[j].Emit? ==> Rank(calls[i]) <= Rank(calls[j])
  }

  /** The ranks of the calls lie within these. */
  ghost predicate Within(calls: seq<Call>, low: nat, high: nat) {
    forall i :: 0 <= i < |calls| && !calls[i].Emit? ==> low <= Rank(calls[i]) <= high
  }

  lemma OrderJoins(a: seq<Call>, b: seq<Call>, low: nat, middle: nat, high: nat)
    requires InOrder(a) && InOrder(b) && Within(a, low, middle) && Within(b, middle, high) && low <= middle <= high
    ensures InOrder(a + b) && Within(a + b, low, high)
  {
    hide Rank;
    var all := a + b;
    assert forall i :: 0 <= i < |all| ==> all[i] == if i < |a| then a[i] else b[i - |a|];
  }

  lemma IdentityInOrder(p: Plan)
    ensures InOrder(IdentityCalls(p)) && Within(IdentityCalls(p), 0, 2)
  {}

  lemma CommandsInOrder(deletes: seq<Acl>, adds: seq<Acl>)
    ensures InOrder(Revokes(deletes)) && Within(Revokes(deletes), 3, 3)
    ensures InOrder(Grants(adds)) && Within(Grants(adds), 4, 4)
  {
    CommandCount(deletes, adds);
    forall i | 0 <= i < |deletes| ensures Rank(Revokes(deletes)[i]) == 3 {
      MapAt((a: Acl) => Run(AclDelete(a)), deletes, i);
    }
    forall i | 0 <= i < |adds| ensures Rank(Grants(adds)[i]) == 4 {
      MapAt((a: Acl) => Run(AclModify(a)), adds, i);
    }
    hide Revokes, Grants;
  }

  lemma ReportInOrder(b: bool)
    ensures InOrder(if b then [Emit] else []) && Within(if b then [Emit] else [], 4, 4)
  {}

  lemma CallParts(p: Plan)
    ensures AccountCalls(p) == IdentityCalls(p) + Revokes(p.aclDeletes) + Grants(p.aclAdds)
      + (if p.aclAdds == [] && p.aclDeletes == [] then [Emit] else [])
  {}

  lemma Widen(calls: seq<Call>, low: nat, high: nat, high': nat)
    requires Within(calls, low, high) && high <= high'
    ensures Within(calls, low, high')
  {}

  /** Nothing is granted before everything unwanted is gone, and no entry is touched
      before the user and its token are there. */
  lemma CallsInOrder(p: Plan)
    ensures InOrder(AccountCalls(p))
  {
    hide *;
    IdentityInOrder(p);
    CommandsInOrder(p.aclDeletes, p.aclAdds);
    ReportInOrder(p.aclAdds == [] && p.aclDeletes == []);
    CallParts(p);
    var tail := if p.aclAdds == [] && p.aclDeletes == [] then [Emit] else [];
    Widen(IdentityCalls(p), 0, 2, 3);
    OrderJoins(IdentityCalls(p), Revokes(p.aclDeletes), 0, 3, 3);
    Widen(IdentityCalls(p) + Revokes(p.aclDeletes), 0, 3, 4);
    OrderJoins(IdentityCalls(p) + Revokes(p.aclDeletes), Grants(p.aclAdds), 0, 4, 4);
    OrderJoins(IdentityCalls(p) + Revokes(p.aclDeletes) + Grants(p.aclAdds), tail, 0, 4, 4);
  }

  // ---- the order of the removed entries --------------------------------------------------------

  /** a comes before b: by path, then kind (group, token, user), id and role. */
  ghost predicate Precedes(a: Acl, b: Acl) {
    if a.path != b.path then StrLe(a.path, b.path)
    else if a.kind != b.kind then a.kind == Group || b.kind == User
    else if a.ugid != b.ugid then StrLe(a.ugid, b.ugid)
    else StrLe(a.role, b.role)
  }

  lemma KindOrder(a: Kind, b: Kind)
    ensures a != b ==> (StrLe(KindText(a), KindText(b)) <==> a == Group || b == User)
  {
    assert "user"[0] == 'u' && "group"[0] == 'g' && "token"[0] == 't';
  }

  lemma AclOrder(a: Acl, b: Acl)
    ensures AclLe(a, b) <==> Precedes(a, b)
  {
    KindOrder(a.kind, b.kind);
    hide KindText, StrLe;
  }

  lemma PrecedesOrders(a: Acl, b: Acl, c: Acl)
    ensures Precedes(a, b) || Precedes(b, a)
    ensures Precedes(a, b) && Precedes(b, c) ==> Precedes(a, c)
    ensures Precedes(a, b) && Precedes(b, a) ==> a == b
  {
    StrOrder(a.path, b.path, c.path);
    StrOrder(a.ugid, b.ugid, c.ugid);
    StrOrder(a.role, b.role, c.role);
    hide StrLe;
  }

  lemma StrOrder(a: string, b: string, c: string)
    ensures StrLe(a, b) || StrLe(b, a)
    ensures StrLe(a, b) && StrLe(b, c) ==> StrLe(a, c)
    ensures StrLe(a, b) && StrLe(b, a) ==> a == b
    ensures StrLe(b, c) && StrLe(c, b) ==> b == c
  {
    StrLeTotal(a, b);
    if StrLe(a, b) && StrLe(b, c) { StrLeTransitive(a, b, c); }
    if StrLe(a, b) && StrLe(b, a) { StrLeAntisymmetric(a, b); }
    if StrLe(b, c) && StrLe(c, b) { StrLeAntisymmetric(b, c); }
  }

  lemma AclLeOrders()
    ensures TotalPreorder(AclLe)
  {
    hide AclLe, Precedes;
    forall a, b ensures AclLe(a, b) || AclLe(b, a) {
      AclOrder(a, b);
      AclOrder(b, a);
      PrecedesOrders(a, b, a);
    }
    forall a, b, c | AclLe(a, b) && AclLe(b, c) ensures AclLe(a, c) {
      AclOrder(a, b);
      AclOrder(b, c);
      AclOrder(a, c);
      PrecedesOrders(a, b, c);
    }
  }

  lemma {:induction false} DedupOnce(s: seq<Acl>)
    ensures NoDup(Dedup(s))
  {
    if s == [] {
    } else {
      DedupOnce(s[1..]);
      DedupMembers(s[1..], s[0]);
    }
  }

  lemma {:induction false} UnwantedIsFilter(acc: Account, desired: seq<Acl>, current: seq<Acl>)
    ensures Unwanted(acc, desired, current) == Filter((a: Acl) => Managed(acc, a) && a !in desired, current)
  {
    hide Managed;
    if current == [] {
    } else {
      UnwantedIsFilter(acc, desired, current[1..]);
    }
  }

  /** The entries that a plan removes are listed in order, each once. */
  lemma DeletesInOrder(users: Users, acls: seq<Acl>, stored: map<string, StoredState>, acc: Account, i: nat, j: nat)
    requires i < j < |PlanAccount(users, acls, stored, acc).aclDeletes|
    ensures var d := PlanAccount(users, acls, stored, acc).aclDeletes; d[i] != d[j] && Precedes(d[i], d[j])
  {
    var p := PlanAccount(users, acls, stored, acc);
    var current := Baseline(acls, acc, p.token);
    var wanted := (a: Acl) => Managed(acc, a) && a !in Desired(acc);
    hide AclLe, Precedes, Managed, Desired, Baseline, AclAdds;
    AclLeOrders();
    DedupOnce(current);
    SortSorted(AclLe, Dedup(current));
    NoDupPermutation(Dedup(current), SortedAcls(current));
    UnwantedIsFilter(acc, Desired(acc), SortedAcls(current));
    FilterSame(wanted, (a: Acl) => Managed(acc, a) && a !in Desired(acc), SortedAcls(current));
    FilterSorted(AclLe, wanted, SortedAcls(current));
    FilterNoDup(wanted, SortedAcls(current));
    AclOrder(p.aclDeletes[i], p.aclDeletes[j]);
  }
}
