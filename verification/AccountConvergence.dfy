/** Executing the service-account plans makes the node what the accounts say,
    touches nothing else, and leaves nothing to plan. */
module AccountConvergence {
  import opened Prelude
  import opened Accounts
  import opened AccountPlan

  /** The node is as the account says: user, token, privsep flag, and exactly
      the desired ACL entries for both identities. */
  ghost predicate Satisfied(n: Node, acc: Account) {
    && HasToken(n.users, acc)
    && Privsep(n.users[acc.user][acc.token]) == acc.privsep
    && forall a :: Managed(acc, a) ==> (a in n.acls <==> a in Desired(acc))
  }

  /** A leftover entry of a token the node does not have. */
  ghost predicate Leftover(n: Node, acc: Account, a: Acl) {
    !HasToken(n.users, acc) && a in n.acls && a.kind == Token && a.ugid == FullId(acc.user, acc.token)
  }

  /** No unwanted entry waits for the account's token to be created. */
  ghost predicate NoLeftovers(n: Node, acc: Account) {
    forall a :: Leftover(n, acc, a) ==> a in Desired(acc)
  }

  ghost predicate SameUser(n: Node, n': Node, user: string) {
    (user in n.users <==> user in n'.users) && (user in n.users ==> n.users[user] == n'.users[user])
  }

  /** What the account's plan was computed from still holds. */
  ghost predicate SameFor(n: Node, n': Node, acc: Account) {
    SameUser(n, n', acc.user) && forall a :: Managed(acc, a) ==> (a in n.acls <==> a in n'.acls)
  }

  /** The node lacks the account's token, or its Secrets are not known to be good. */
  predicate NeedsToken(users: Users, stored: map<string, StoredState>, acc: Account) {
    || !(acc.user in users && acc.token in users[acc.user])
    || acc.name !in stored || stored[acc.name] != StoredOk
  }

  /** The full ids of the accounts that need a token, in order. */
  function Minted(users: Users, stored: map<string, StoredState>, accounts: seq<Account>): seq<string> {
    if accounts == [] then []
    else (if NeedsToken(users, stored, accounts[0]) then [FullId(accounts[0].user, accounts[0].token)] else [])
         + Minted(users, stored, accounts[1..])
  }

  ghost predicate ManagedBySome(accounts: seq<Account>, a: Acl) {
    exists acc :: acc in accounts && Managed(acc, a)
  }

  /** Users, tokens and ACL entries the accounts do not name are unchanged. */
  ghost predicate OthersUntouched(n: Node, n': Node, accounts: seq<Account>) {
    && (forall u :: (forall acc :: acc in accounts ==> acc.user != u) ==> SameUser(n, n', u))
    && (forall acc, t :: acc in accounts && t != acc.token && acc.user in n.users && acc.user in n'.users ==>
          (t in n.users[acc.user] <==> t in n'.users[acc.user])
          && (t in n.users[acc.user] ==> n.users[acc.user][t] == n'.users[acc.user][t]))
    && (forall a :: !ManagedBySome(accounts, a) ==> (a in n.acls <==> a in n'.acls))
  }

  // ---- identities of different accounts are different -----------------------------------

  /** Position of the first '!'. */
  function FirstBang(s: string): nat {
    if s == "" || s[0] == '!' then 0 else 1 + FirstBang(s[1..])
  }

  lemma {:induction false} BangAfterUser(u: string, t: string)
    requires '!' !in u
    ensures FirstBang(FullId(u, t)) == |u|
  {
    if u == "" {
    } else {
      BangAfterUser(u[1..], t);
      assert FullId(u, t)[1..] == FullId(u[1..], t);
    }
  }

  /** A full token id names its user and its token. */
  lemma FullIdInjective(u: string, t: string, u': string, t': string)
    requires '!' !in u && '!' !in u' && FullId(u, t) == FullId(u', t')
    ensures u == u' && t == t'
  {
    BangAfterUser(u, t);
    BangAfterUser(u', t');
    var s := FullId(u, t);
    assert s[..|u|] == u && s[..|u'|] == u';
    assert s[|u| + 1..] == t && s[|u'| + 1..] == t';
  }

  lemma ManagedDisjoint(x: Account, y: Account, a: Acl)
    requires '!' !in x.user && '!' !in y.user && x.user != y.user && Managed(x, a)
    ensures !Managed(y, a)
  {
    if a.kind == Token && FullId(x.user, x.token) == FullId(y.user, y.token) {
      FullIdInjective(x.user, x.token, y.user, y.token);
    }
  }

  // ---- one account --------------------------------------------------------------------------

  function AclsAfterToken(n: Node, p: Plan): set<Acl> {
    if p.token == Rotate
    then set a | a in n.acls && !(a.kind == Token && a.ugid == FullId(p.account.user, p.account.token))
    else n.acls
  }

  ghost predicate PlanFits(n: Node, p: Plan) {
    var acc := p.account;
    && (p.userAdd <==> acc.user !in n.users)
    && (p.token == Create <==> !HasToken(n.users, acc))
    && (p.privsepFix <==> p.token == Keep && Privsep(n.users[acc.user][acc.token]) != acc.privsep)
  }

  /** The user and its token after the first calls of a plan. */
  lemma IdentityPhase(n: Node, p: Plan) returns (n': Node)
    requires PlanFits(n, p)
    ensures n' == PerformAll(n, IdentityCalls(p))
    ensures n'.acls == AclsAfterToken(n, p)
    ensures n'.minted == n.minted + if p.token == Keep then [] else [FullId(p.account.user, p.account.token)]
    ensures HasToken(n'.users, p.account)
    ensures Privsep(n'.users[p.account.user][p.account.token]) == p.account.privsep
    ensures forall u :: u != p.account.user ==> SameUser(n, n', u)
    ensures forall t :: t != p.account.token && p.account.user in n.users ==>
              var before, after := n.users[p.account.user], n'.users[p.account.user];
              (t in before <==> t in after) && (t in before ==> before[t] == after[t])
  {
    var acc := p.account;
    var c1 := if p.userAdd then [Run(UserAdd(acc.user))] else [];
    var c2 := if p.token == Keep then Emit else MakeToken(acc.user, acc.token, acc.privsep, p.token == Rotate);
    var c3 := if p.privsepFix then [Run(TokenModify(acc.user, acc.token, acc.privsep))] else [];
    var n1 := if p.userAdd then Perform(n, Run(UserAdd(acc.user))) else n;
    var n2 := Perform(n1, c2);
    n' := if p.privsepFix then Perform(n2, Run(TokenModify(acc.user, acc.token, acc.privsep))) else n2;
    PerformOptional(n, p.userAdd, Run(UserAdd(acc.user)));
    PerformOptional(n1, true, c2);
    PerformOptional(n2, p.privsepFix, Run(TokenModify(acc.user, acc.token, acc.privsep)));
    PerformAppend(n, c1, [c2]);
    PerformAppend(n, c1 + [c2], c3);
  }

  lemma PerformOptional(n: Node, b: bool, c: Call)
    ensures PerformAll(n, if b then [c] else []) == if b then Perform(n, c) else n
  {
    assert [c][1..] == [];
    assert PerformAll(Perform(n, c), []) == Perform(n, c);
  }

  lemma {:induction false} RevokePhase(n: Node, acls: seq<Acl>)
    ensures PerformAll(n, Revokes(acls)) == n.(acls := n.acls - set a | a in acls)
    decreases |acls|
  {
    if acls == [] {
      assert (set a | a in acls) == {};
    } else {
      RevokePhase(Perform(n, Run(AclDelete(acls[0]))), acls[1..]);
      assert Revokes(acls)[1..] == Revokes(acls[1..]);
      assert (set a | a in acls) == {acls[0]} + set a | a in acls[1..];
      assert n.acls - {acls[0]} - (set a | a in acls[1..]) == n.acls - set a | a in acls;
    }
  }

  lemma {:induction false} GrantPhase(n: Node, acls: seq<Acl>)
    requires forall a :: a in acls ==> Exists(n, a.kind, a.ugid)
    ensures PerformAll(n, Grants(acls)) == n.(acls := n.acls + set a | a in acls)
    decreases |acls|
  {
    if acls == [] {
      assert (set a | a in acls) == {};
    } else {
      var n1 := Perform(n, Run(AclModify(acls[0])));
      assert n1 == n.(acls := n.acls + {acls[0]});
      GrantPhase(n1, acls[1..]);
      assert Grants(acls)[1..] == Grants(acls[1..]);
      assert (set a | a in acls) == {acls[0]} + set a | a in acls[1..];
      assert n.acls + {acls[0]} + (set a | a in acls[1..]) == n.acls + set a | a in acls;
    }
  }

  /** The ACL changes of a plan, given the identities. */
  lemma AclPhase(n: Node, deletes: seq<Acl>, adds: seq<Acl>)
    requires forall a :: a in adds ==> Exists(n, a.kind, a.ugid)
    ensures var calls := Revokes(deletes) + Grants(adds) + (if adds == [] && deletes == [] then [Emit] else []);
            PerformAll(n, calls) == n.(acls := n.acls - (set a | a in deletes) + (set a | a in adds))
  {
    var tail: seq<Call> := if adds == [] && deletes == [] then [Emit] else [];
    RevokePhase(n, deletes);
    var n1 := PerformAll(n, Revokes(deletes));
    GrantPhase(n1, adds);
    var n2 := PerformAll(n1, Grants(adds));
    PerformAppend(n, Revokes(deletes), Grants(adds));
    PerformAppend(n, Revokes(deletes) + Grants(adds), tail);
    PerformOptional(n2, adds == [] && deletes == [], Emit);
  }

  /** PVE drops the entries of tokens it does not have, so a node as PVE keeps
      it has no leftovers. */
  lemma WellFormedHasNoLeftovers(n: Node, acc: Account)
    requires WellFormed(n) && '!' !in acc.user
    ensures NoLeftovers(n, acc)
  {
    forall a | a in n.acls && a.kind == Token && a.ugid == FullId(acc.user, acc.token)
      ensures HasToken(n.users, acc)
    {
      var u :| u in n.users && exists t | t in n.users[u] :: FullId(u, t) == a.ugid;
      var t :| t in n.users[u] && FullId(u, t) == a.ugid;
      FullIdInjective(u, t, acc.user, acc.token);
    }
  }

  /** For the account's identities, the planner's baseline is what the node
      holds once the token step is done, leftovers aside. */
  lemma BaselineIsCurrent(n0: Node, acls: seq<Acl>, n: Node, stored: map<string, StoredState>, acc: Account, a: Acl)
    requires Shows(acls, n0) && SameFor(n0, n, acc) && Managed(acc, a)
    ensures var p := PlanAccount(n0.users, acls, stored, acc);
            a in AclsAfterToken(n, p) <==> a in Baseline(acls, acc, p.token) || Leftover(n0, acc, a)
  {
    var p := PlanAccount(n0.users, acls, stored, acc);
    WithoutUgidMembers(acls, FullId(acc.user, acc.token), a);
    assert |FullId(acc.user, acc.token)| > |acc.user|;
  }

  lemma AclResult(n0: Node, acls: seq<Acl>, n: Node, stored: map<string, StoredState>, acc: Account, a: Acl)
    requires Shows(acls, n0) && SameFor(n0, n, acc)
    ensures var p := PlanAccount(n0.users, acls, stored, acc);
            (a in p.aclAdds ==> a in Desired(acc))
            && var after := AclsAfterToken(n, p) - (set x | x in p.aclDeletes) + (set x | x in p.aclAdds);
            if Managed(acc, a) then a in after <==> a in Desired(acc) || Leftover(n0, acc, a)
            else a in after <==> a in n.acls
  {
    var p := PlanAccount(n0.users, acls, stored, acc);
    var current := Baseline(acls, acc, p.token);
    AclAddsMembers(Desired(acc), current, a);
    UnwantedMembers(acc, Desired(acc), SortedAcls(current), a);
    SortedAclsMembers(current, a);
    WithoutUgidMembers(acls, FullId(acc.user, acc.token), a);
    if Managed(acc, a) { BaselineIsCurrent(n0, acls, n, stored, acc, a); }
  }

  lemma DesiredExists(n: Node, acc: Account, a: Acl)
    requires HasToken(n.users, acc) && a in Desired(acc)
    ensures Exists(n, a.kind, a.ugid)
  {}

  /** Executing one account's plan, computed from n0, on a node that still
      looks like n0 to that account. */
  lemma AccountStep(n0: Node, acls: seq<Acl>, n: Node, stored: map<string, StoredState>, acc: Account)
    returns (n': Node)
    requires Shows(acls, n0) && SameFor(n0, n, acc)
    ensures n' == PerformAll(n, AccountCalls(PlanAccount(n0.users, acls, stored, acc)))
    ensures HasToken(n'.users, acc) && OthersUntouched(n, n', [acc])
    ensures Satisfied(n', acc) <==> NoLeftovers(n0, acc)
    ensures n'.minted == n.minted + if NeedsToken(n0.users, stored, acc) then [FullId(acc.user, acc.token)] else []
  {
    hide PlanAccount, PlanFits, AclsAfterToken, Desired, Exists, Managed, IdentityCalls, Shows, Leftover;
    var p := PlanAccount(n0.users, acls, stored, acc);
    PlanFitsNow(n0, acls, n, stored, acc);
    TokenActionIs(n0.users, acls, stored, acc);
    var n1 := IdentityPhase(n, p);
    forall a | a in p.aclAdds ensures Exists(n1, a.kind, a.ugid) {
      AclResult(n0, acls, n, stored, acc, a);
      DesiredExists(n1, acc, a);
    }
    n' := RunPlan(n, n1, p);
    forall u | u != acc.user ensures SameUser(n, n', u) { assert SameUser(n, n1, u); }
    forall a ensures if Managed(acc, a) then a in n'.acls <==> a in Desired(acc) || Leftover(n0, acc, a)
                     else a in n'.acls <==> a in n.acls
    {
      AclResult(n0, acls, n, stored, acc, a);
    }
    forall a | Leftover(n0, acc, a) ensures Managed(acc, a) { LeftoverIsManaged(n0, acc, a); }
    OneAccountUntouched(n, n', acc);
  }

  lemma OneAccountUntouched(n: Node, n': Node, acc: Account)
    requires forall u :: u != acc.user ==> SameUser(n, n', u)
    requires forall t :: t != acc.token && acc.user in n.users && acc.user in n'.users ==>
               (t in n.users[acc.user] <==> t in n'.users[acc.user])
               && (t in n.users[acc.user] ==> n.users[acc.user][t] == n'.users[acc.user][t])
    requires forall a :: !Managed(acc, a) ==> (a in n.acls <==> a in n'.acls)
    ensures OthersUntouched(n, n', [acc])
  {
    hide Managed;
    assert acc in [acc];
  }

  lemma LeftoverIsManaged(n: Node, acc: Account, a: Acl)
    requires Leftover(n, acc, a)
    ensures Managed(acc, a)
  {}

  lemma PlanFitsNow(n0: Node, acls: seq<Acl>, n: Node, stored: map<string, StoredState>, acc: Account)
    requires SameFor(n0, n, acc)
    ensures var p := PlanAccount(n0.users, acls, stored, acc); PlanFits(n, p) && p.account == acc
  {}

  /** A plan runs as its identity calls, then its ACL calls. */
  lemma RunPlan(n: Node, n1: Node, p: Plan) returns (n': Node)
    requires n1 == PerformAll(n, IdentityCalls(p))
    requires forall a :: a in p.aclAdds ==> Exists(n1, a.kind, a.ugid)
    ensures n' == PerformAll(n, AccountCalls(p))
    ensures n' == n1.(acls := n1.acls - (set a | a in p.aclDeletes) + (set a | a in p.aclAdds))
  {
    hide IdentityCalls, Exists;
    AclPhase(n1, p.aclDeletes, p.aclAdds);
    var calls := Revokes(p.aclDeletes) + Grants(p.aclAdds)
      + (if p.aclAdds == [] && p.aclDeletes == [] then [Emit] else []);
    assert AccountCalls(p) == IdentityCalls(p) + calls;
    PerformAppend(n, IdentityCalls(p), calls);
    n' := PerformAll(n1, calls);
  }

  // ---- the whole list -------------------------------------------------------------------------

  ghost predicate DistinctUsers(accounts: seq<Account>) {
    forall i, j :: 0 <= i < j < |accounts| ==> accounts[i].user != accounts[j].user
  }

  /** Another account's step leaves this account's starting point alone. */
  lemma StepKeepsOther(n: Node, n': Node, acc: Account, other: Account)
    requires OthersUntouched(n, n', [acc]) && acc.user != other.user && '!' !in acc.user && '!' !in other.user
    ensures SameFor(n, n', other)
  {
    forall a | Managed(other, a) ensures a in n.acls <==> a in n'.acls {
      ManagedDisjoint(other, acc, a);
      assert !ManagedBySome([acc], a);
    }
  }

  /** Later steps leave a satisfied account satisfied, and mend none. */
  lemma RestKeepsSatisfied(n: Node, n': Node, rest: seq<Account>, acc: Account)
    requires OthersUntouched(n, n', rest) && '!' !in acc.user
    requires forall x :: x in rest ==> x.user != acc.user && '!' !in x.user
    ensures Satisfied(n', acc) <==> Satisfied(n, acc)
  {
    assert SameUser(n, n', acc.user);
    forall a | Managed(acc, a) ensures a in n.acls <==> a in n'.acls {
      forall x | x in rest ensures !Managed(x, a) { ManagedDisjoint(acc, x, a); }
      assert !ManagedBySome(rest, a);
    }
  }

  lemma UntouchedCompose(n: Node, n1: Node, n2: Node, acc: Account, rest: seq<Account>)
    requires OthersUntouched(n, n1, [acc]) && OthersUntouched(n1, n2, rest)
    requires acc.user in n1.users && forall x :: x in rest ==> x.user != acc.user
    ensures OthersUntouched(n, n2, [acc] + rest)
  {
    var all := [acc] + rest;
    assert acc in all && forall x :: x in rest ==> x in all;
    forall u | forall x :: x in all ==> x.user != u ensures SameUser(n, n2, u) {
      assert SameUser(n, n1, u) && SameUser(n1, n2, u);
    }
    assert SameUser(n1, n2, acc.user);
    forall x, t | x in all && t != x.token && x.user in n.users && x.user in n2.users
      ensures (t in n.users[x.user] <==> t in n2.users[x.user])
              && (t in n.users[x.user] ==> n.users[x.user][t] == n2.users[x.user][t])
    {
      if x in rest { assert SameUser(n, n1, x.user); }
    }
    forall a | !ManagedBySome(all, a) ensures a in n.acls <==> a in n2.acls {
      assert !ManagedBySome([acc], a) && !ManagedBySome(rest, a);
    }
  }

  lemma {:induction false} ExecuteAll(n0: Node, acls: seq<Acl>, n: Node, stored: map<string, StoredState>,
                                      accounts: seq<Account>)
    returns (n': Node)
    requires Shows(acls, n0)
    requires DistinctUsers(accounts) && forall acc :: acc in accounts ==> '!' !in acc.user && SameFor(n0, n, acc)
    ensures n' == PerformAll(n, AllCalls(PlanAll(n0.users, acls, stored, accounts)))
    ensures forall acc :: acc in accounts ==> (Satisfied(n', acc) <==> NoLeftovers(n0, acc))
    ensures OthersUntouched(n, n', accounts)
    ensures n'.minted == n.minted + Minted(n0.users, stored, accounts)
    decreases |accounts|
  {
    hide SameFor, OthersUntouched, Satisfied, NoLeftovers, Shows;
    hide PlanAccount, AccountCalls, PlanAll, AllCalls, PerformAll;
    if accounts == [] {
      n' := n;
      NothingExecuted(n0, acls, n, stored);
    } else {
      var acc, rest := accounts[0], accounts[1..];
      assert accounts == [acc] + rest && acc in accounts;
      forall x | x in rest ensures x in accounts && x.user != acc.user { }
      var n1 := AccountStep(n0, acls, n, stored, acc);
      forall x | x in rest ensures SameFor(n0, n1, x) {
        StepKeepsOther(n, n1, acc, x);
        SameForTwice(n0, n, n1, x);
      }
      n' := ExecuteAll(n0, acls, n1, stored, rest);
      RestKeepsSatisfied(n1, n', rest, acc);
      UserStays(n1, acc);
      UntouchedCompose(n, n1, n', acc, rest);
      PlanAllCons(n0.users, acls, stored, acc, rest);
      PerformAppend(n, AccountCalls(PlanAccount(n0.users, acls, stored, acc)),
                    AllCalls(PlanAll(n0.users, acls, stored, rest)));
    }
  }

  lemma NothingExecuted(n0: Node, acls: seq<Acl>, n: Node, stored: map<string, StoredState>)
    ensures PerformAll(n, AllCalls(PlanAll(n0.users, acls, stored, []))) == n
    ensures OthersUntouched(n, n, [])
  {}

  lemma SameForTwice(a: Node, b: Node, c: Node, acc: Account)
    requires SameFor(a, b, acc) && SameFor(b, c, acc)
    ensures SameFor(a, c, acc)
  {}

  lemma UserStays(n: Node, acc: Account)
    requires HasToken(n.users, acc)
    ensures acc.user in n.users
  {}

  lemma PlanAllCons(users: Users, acls: seq<Acl>, stored: map<string, StoredState>, acc: Account, rest: seq<Account>)
    ensures AllCalls(PlanAll(users, acls, stored, [acc] + rest))
         == AccountCalls(PlanAccount(users, acls, stored, acc)) + AllCalls(PlanAll(users, acls, stored, rest))
  {
    assert ([acc] + rest)[1..] == rest;
    var all := PlanAll(users, acls, stored, [acc] + rest);
    assert all[1..] == PlanAll(users, acls, stored, rest);
  }

  ghost function Executed(n: Node, acls: seq<Acl>, stored: map<string, StoredState>, accounts: seq<Account>): Node {
    PerformAll(n, AllCalls(PlanAll(n.users, acls, stored, accounts)))
  }

  /** For any valid account list, node and stored tokens: executing all plans,
      each computed from the same observation, leaves everything the accounts do
      not name untouched, and leaves an account satisfied exactly when no
      unwanted ACL entry was left behind for its missing token. */
  lemma Converges(n: Node, acls: seq<Acl>, stored: map<string, StoredState>, accounts: seq<Account>)
    requires Shows(acls, n) && ValidAccounts(accounts)
    ensures var n' := Executed(n, acls, stored, accounts);
            OthersUntouched(n, n', accounts)
            && forall acc :: acc in accounts ==> (Satisfied(n', acc) <==> NoLeftovers(n, acc))
  {
    var n' := ExecuteAll(n, acls, n, stored, accounts);
  }

  /** The run makes a token anew for each account that needs one, once and in
      order, and makes no other. */
  lemma TokensMadeAnew(n: Node, acls: seq<Acl>, stored: map<string, StoredState>, accounts: seq<Account>)
    requires Shows(acls, n) && ValidAccounts(accounts)
    ensures Executed(n, acls, stored, accounts).minted == n.minted + Minted(n.users, stored, accounts)
  {
    var n' := ExecuteAll(n, acls, n, stored, accounts);
  }

  /** Among these every account that needs a token occurs once, and no other. */
  lemma {:induction false} MintedOnce(users: Users, stored: map<string, StoredState>, accounts: seq<Account>,
                                      acc: Account)
    requires ValidAccounts(accounts) && acc in accounts
    ensures multiset(Minted(users, stored, accounts))[FullId(acc.user, acc.token)] ==
      if !(acc.user in users && acc.token in users[acc.user] && acc.name in stored && stored[acc.name] == StoredOk)
      then 1 else 0
  {
    var first, rest := accounts[0], accounts[1..];
    assert forall x :: x in rest ==> x in accounts;
    var made := if NeedsToken(users, stored, first) then [FullId(first.user, first.token)] else [];
    assert Minted(users, stored, accounts) == made + Minted(users, stored, rest);
    assert first in accounts;
    if acc == first {
      assert forall x :: x in rest ==> x.user != acc.user;
      MintedForOthers(users, stored, rest, acc);
    } else {
      assert acc in rest;
      MintedOnce(users, stored, rest, acc);
      if FullId(first.user, first.token) == FullId(acc.user, acc.token) {
        FullIdInjective(first.user, first.token, acc.user, acc.token);
      }
    }
  }

  lemma {:induction false} MintedForOthers(users: Users, stored: map<string, StoredState>, accounts: seq<Account>,
                                           acc: Account)
    requires '!' !in acc.user && forall x :: x in accounts ==> x.user != acc.user && '!' !in x.user
    ensures FullId(acc.user, acc.token) !in Minted(users, stored, accounts)
  {
    if accounts == [] {
    } else {
      MintedForOthers(users, stored, accounts[1..], acc);
      var first := accounts[0];
      if FullId(first.user, first.token) == FullId(acc.user, acc.token) {
        FullIdInjective(first.user, first.token, acc.user, acc.token);
      }
    }
  }

  /** On a node as PVE keeps it every account is satisfied. */
  lemma ConvergesOnWellFormed(n: Node, acls: seq<Acl>, stored: map<string, StoredState>, accounts: seq<Account>)
    requires WellFormed(n) && Shows(acls, n) && ValidAccounts(accounts)
    ensures forall acc :: acc in accounts ==> Satisfied(Executed(n, acls, stored, accounts), acc)
  {
    Converges(n, acls, stored, accounts);
    forall acc | acc in accounts ensures NoLeftovers(n, acc) { WellFormedHasNoLeftovers(n, acc); }
  }

  lemma NothingMissing(acls: seq<Acl>, desired: seq<Acl>)
    ensures AclAdds(desired, acls) == [] <==> forall a :: a in desired ==> a in acls
  {
    var adds := AclAdds(desired, acls);
    forall a ensures a in adds <==> a in desired && a !in acls { AclAddsMembers(desired, acls, a); }
    NoMembers(adds);
    assert adds == [] ==> forall a :: a !in adds;
  }

  lemma NothingUnwanted(acls: seq<Acl>, acc: Account)
    ensures Unwanted(acc, Desired(acc), SortedAcls(acls)) == [] <==>
      forall a :: a in acls && Managed(acc, a) ==> a in Desired(acc)
  {
    hide SortedAcls, Managed, Desired;
    var deletes := Unwanted(acc, Desired(acc), SortedAcls(acls));
    forall a ensures a in deletes <==> a in acls && Managed(acc, a) && a !in Desired(acc) {
      UnwantedMembers(acc, Desired(acc), SortedAcls(acls), a);
      SortedAclsMembers(acls, a);
    }
    NoMembers(deletes);
    assert deletes == [] ==> forall a :: a !in deletes;
  }

  lemma DesiredIsManaged(acc: Account)
    ensures forall a :: a in Desired(acc) ==> Managed(acc, a)
  {}

  /** Nothing is to be done for an account, its token stored, iff the node is as
      the account says. */
  lemma NothingToPlan(n: Node, acls: seq<Acl>, stored: map<string, StoredState>, acc: Account)
    requires Shows(acls, n) && acc.name in stored && stored[acc.name] == StoredOk
    ensures PlanAccount(n.users, acls, stored, acc) == Plan(acc, false, Keep, false, [], []) <==> Satisfied(n, acc)
  {
    hide AclAdds, Unwanted, Desired, SortedAcls, Managed;
    NothingMissing(acls, Desired(acc));
    NothingUnwanted(acls, acc);
    DesiredIsManaged(acc);
  }

  /** Idempotence: after the plans were executed and the tokens stored, the next
      plan of an account keeps its token and changes nothing, iff no unwanted
      entry of its absent token was on the node; on a node as PVE keeps it that
      is always so. */
  lemma ReplanIsEmpty(n: Node, acls: seq<Acl>, stored: map<string, StoredState>, accounts: seq<Account>,
                      acls': seq<Acl>, stored': map<string, StoredState>, i: nat)
    requires Shows(acls, n) && ValidAccounts(accounts) && i < |accounts|
    requires Shows(acls', Executed(n, acls, stored, accounts))
    requires forall acc :: acc in accounts ==> acc.name in stored' && stored'[acc.name] == StoredOk
    ensures var again := PlanAll(Executed(n, acls, stored, accounts).users, acls', stored', accounts)[i];
      && (again == Plan(accounts[i], false, Keep, false, [], []) <==> NoLeftovers(n, accounts[i]))
      && (WellFormed(n) ==> again == Plan(accounts[i], false, Keep, false, [], []))
  {
    hide PlanAccount, NoLeftovers, Satisfied, Shows, WellFormed, Executed;
    var n' := Executed(n, acls, stored, accounts);
    Converges(n, acls, stored, accounts);
    assert accounts[i] in accounts;
    MapAt((acc: Account) => PlanAccount(n'.users, acls', stored', acc), accounts, i);
    NothingToPlan(n', acls', stored', accounts[i]);
    if WellFormed(n) { WellFormedHasNoLeftovers(n, accounts[i]); }
  }
}
