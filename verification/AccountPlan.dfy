/** The plan for a node's service accounts and the calls it is executed as
    (jobs/lib/host_baseline.py plan_acl_changes, plan_service_accounts;
    jobs/baremetal/host_baseline.py _account_calls). */
module AccountPlan {
  import opened Prelude
  import opened Accounts

  datatype Kind = User | Group | Token

  datatype Acl = Acl(path: string, kind: Kind, ugid: string, role: string)

  /** What the node reports: per user its tokens with their privsep flag (None
      when not reported), and the ACL list. */
  type Users = map<string, map<string, Option<bool>>>

  /** The Nautobot side of a token. */
  datatype StoredState = StoredOk | Missing | Invalid

  datatype TokenAction = Create | Rotate | Keep

  /** userAdd and privsepFix say whether the plan carries that argv; the ACL
      argvs are kept as the entries they add and delete. */
  datatype Plan = Plan(
    account: Account,
    userAdd: bool,
    token: TokenAction,
    privsepFix: bool,
    aclAdds: seq<Acl>,
    aclDeletes: seq<Acl>)

  /** token_full_id */
  function FullId(user: string, token: string): string { user + "!" + token }

  function KindText(k: Kind): string {
    match k
    case User => "user"
    case Group => "group"
    case Token => "token"
  }

  /** Order of the tuples (path, kind, ugid, role). */
  predicate AclLe(a: Acl, b: Acl) {
    if a.path != b.path then StrLe(a.path, b.path)
    else if a.kind != b.kind then StrLe(KindText(a.kind), KindText(b.kind))
    else if a.ugid != b.ugid then StrLe(a.ugid, b.ugid)
    else StrLe(a.role, b.role)
  }

  /** The set of the listed entries, each once. */
  function Dedup(s: seq<Acl>): seq<Acl> {
    if s == [] then [] else if s[0] in s[1..] then Dedup(s[1..]) else [s[0]] + Dedup(s[1..])
  }

  /** The identities whose ACLs the account owns completely. */
  predicate Managed(acc: Account, a: Acl) {
    (a.kind == User && a.ugid == acc.user) || (a.kind == Token && a.ugid == FullId(acc.user, acc.token))
  }

  function Desired(acc: Account): seq<Acl> {
    [Acl(acc.path, User, acc.user, acc.role)]
    + if acc.privsep then [Acl(acc.path, Token, FullId(acc.user, acc.token), acc.role)] else []
  }

  /** plan_acl_changes: the grants that are missing. */
  function AclAdds(desired: seq<Acl>, current: seq<Acl>): seq<Acl> {
    if desired == [] then []
    else (if desired[0] in current then [] else [desired[0]]) + AclAdds(desired[1..], current)
  }

  /** plan_acl_changes: of the current entries, the managed ones that are not wanted. */
  function Unwanted(acc: Account, desired: seq<Acl>, current: seq<Acl>): seq<Acl> {
    if current == [] then []
    else (if Managed(acc, current[0]) && current[0] !in desired then [current[0]] else [])
         + Unwanted(acc, desired, current[1..])
  }

  /** `sorted(current)` of the ACL set. */
  function SortedAcls(current: seq<Acl>): seq<Acl> {
    Sort(AclLe, Dedup(current))
  }

  lemma {:induction false} DedupMembers(s: seq<Acl>, a: Acl)
    ensures a in Dedup(s) <==> a in s
  {
    if s == [] {
    } else {
      DedupMembers(s[1..], a);
    }
  }

  lemma SortedAclsMembers(current: seq<Acl>, a: Acl)
    ensures a in SortedAcls(current) <==> a in current
  {
    DedupMembers(current, a);
    SortMembers(AclLe, Dedup(current));
  }

  lemma {:induction false} AclAddsMembers(desired: seq<Acl>, current: seq<Acl>, a: Acl)
    ensures a in AclAdds(desired, current) <==> a in desired && a !in current
  {
    if desired == [] {
    } else {
      AclAddsMembers(desired[1..], current, a);
    }
  }

  lemma {:induction false} UnwantedMembers(acc: Account, desired: seq<Acl>, current: seq<Acl>, a: Acl)
    ensures a in Unwanted(acc, desired, current) <==> a in current && Managed(acc, a) && a !in desired
  {
    if current == [] {
    } else {
      UnwantedMembers(acc, desired, current[1..], a);
    }
  }

  predicate HasToken(users: Users, acc: Account) {
    acc.user in users && acc.token in users[acc.user]
  }

  /** The privsep flag in force; PVE's default is on. */
  function Privsep(flag: Option<bool>): bool { if flag.Some? then flag.value else true }

  function TokenPlan(users: Users, acc: Account, stored: StoredState): TokenAction {
    if !HasToken(users, acc) then Create
    else match stored { case Missing => Rotate case Invalid => Rotate case StoredOk => Keep }
  }

  /** A token is made iff the node does not have it; one that it has is replaced
      iff Nautobot has no verdict on its Secrets, or they are missing or rejected;
      otherwise it is kept. */
  lemma TokenActionIs(users: Users, acls: seq<Acl>, stored: map<string, StoredState>, acc: Account)
    ensures var action := PlanAccount(users, acls, stored, acc).token;
      var present := acc.user in users && acc.token in users[acc.user];
      && (action == Create <==> !present)
      && (action == Rotate <==> present && (acc.name !in stored || stored[acc.name] in {Missing, Invalid}))
      && (action == Keep <==> present && acc.name in stored && stored[acc.name] == StoredOk)
  {}

  /** The entries left when a token's own are gone. */
  function WithoutUgid(acls: seq<Acl>, ugid: string): seq<Acl> {
    if acls == [] then []
    else (if acls[0].ugid != ugid then [acls[0]] else []) + WithoutUgid(acls[1..], ugid)
  }

  lemma {:induction false} WithoutUgidMembers(acls: seq<Acl>, ugid: string, a: Acl)
    ensures a in WithoutUgid(acls, ugid) <==> a in acls && a.ugid != ugid
  {
    if acls == [] {
    } else {
      WithoutUgidMembers(acls[1..], ugid, a);
    }
  }

  /** The ACLs the account starts from: a created or rotated token has none. */
  function Baseline(acls: seq<Acl>, acc: Account, action: TokenAction): seq<Acl> {
    if action == Keep then acls else WithoutUgid(acls, FullId(acc.user, acc.token))
  }

  function PlanAccount(users: Users, acls: seq<Acl>, stored: map<string, StoredState>, acc: Account): Plan {
    var action := TokenPlan(users, acc, if acc.name in stored then stored[acc.name] else Missing);
    var current := Baseline(acls, acc, action);
    Plan(acc, acc.user !in users, action,
         action == Keep && Privsep(users[acc.user][acc.token]) != acc.privsep,
         AclAdds(Desired(acc), current),
         Unwanted(acc, Desired(acc), SortedAcls(current)))
  }

  /** plan_service_accounts: every plan is computed from the same observation. */
  function PlanAll(users: Users, acls: seq<Acl>, stored: map<string, StoredState>, accounts: seq<Account>)
    : (r: seq<Plan>)
    ensures |r| == |accounts|
  {
    Map((acc: Account) => PlanAccount(users, acls, stored, acc), accounts)
  }

  method PlanServiceAccounts(accounts: seq<Account>, users: Users, acls: seq<Acl>, stored: map<string, StoredState>)
    returns (plans: seq<Plan>)
    ensures plans == PlanAll(users, acls, stored, accounts)
  {
    plans := Collect((acc: Account) => PlanAccount(users, acls, stored, acc), accounts);
  }

  // ---- executing a plan -----------------------------------------------------------------

  /** One pveum command of a plan:
      `user add U --comment ...`, `user token modify U T --privsep B`,
      `acl modify P --users|--groups|--tokens U --roles R`, `acl delete ...`. */
  datatype Command =
    | UserAdd(user: string)
    | TokenModify(user: string, token: string, privsep: bool)
    | AclModify(acl: Acl)
    | AclDelete(acl: Acl)

  /** A call of the on-node applier: report only, run one command, or make a
      token (removing the old one first when rotating). */
  datatype Call =
    | Emit
    | Run(command: Command)
    | MakeToken(user: string, token: string, privsep: bool, rotate: bool)

  function Grants(acls: seq<Acl>): seq<Call> { Map((a: Acl) => Run(AclModify(a)), acls) }

  function Revokes(acls: seq<Acl>): seq<Call> { Map((a: Acl) => Run(AclDelete(a)), acls) }

  /** What precedes the ACL changes: the user, the token, its privsep flag. */
  function IdentityCalls(p: Plan): seq<Call> {
    (if p.userAdd then [Run(UserAdd(p.account.user))] else [])
    + [if p.token == Keep then Emit
       else MakeToken(p.account.user, p.account.token, p.account.privsep, p.token == Rotate)]
    + (if p.privsepFix then [Run(TokenModify(p.account.user, p.account.token, p.account.privsep))] else [])
  }

  function AccountCalls(p: Plan): seq<Call> {
    IdentityCalls(p) + Revokes(p.aclDeletes) + Grants(p.aclAdds)
    + (if p.aclAdds == [] && p.aclDeletes == [] then [Emit] else [])
  }

  function AllCalls(plans: seq<Plan>): seq<Call> { FlatMap(AccountCalls, plans) }

  method IdentityCallsOf(p: Plan) returns (calls: seq<Call>)
    ensures calls == IdentityCalls(p)
  {
    calls := [];
    if p.userAdd { calls := calls + [Run(UserAdd(p.account.user))]; }
    if p.token == Keep { calls := calls + [Emit]; }
    else { calls := calls + [MakeToken(p.account.user, p.account.token, p.account.privsep, p.token == Rotate)]; }
    if p.privsepFix { calls := calls + [Run(TokenModify(p.account.user, p.account.token, p.account.privsep))]; }
  }

  /** The calls of one plan: user, token, privsep, then ACL deletes before ACL adds. */
  method CallsOf(p: Plan) returns (calls: seq<Call>)
    ensures calls == AccountCalls(p)
  {
    calls := IdentityCallsOf(p);
    var revokes := Collect((a: Acl) => Run(AclDelete(a)), p.aclDeletes);
    var grants := Collect((a: Acl) => Run(AclModify(a)), p.aclAdds);
    calls := calls + revokes + grants;
    if p.aclAdds == [] && p.aclDeletes == [] { calls := calls + [Emit]; }
  }

  /** _account_calls: the plans are executed one after the other. */
  method AccountCallList(plans: seq<Plan>) returns (calls: seq<Call>)
    ensures calls == AllCalls(plans)
  {
    calls := [];
    for i := 0 to |plans|
      invariant calls == AllCalls(plans[..i])
    {
      FlatMapSnoc(AccountCalls, plans[..i], plans[i]);
      assert plans[..i + 1] == plans[..i] + [plans[i]];
      var more := CallsOf(plans[i]);
      calls := calls + more;
    }
    assert plans[..|plans|] == plans;
  }

  // ---- the node ---------------------------------------------------------------------------

  /** minted is history: the tokens that were made, by full id. */
  datatype Node = Node(users: Users, acls: set<Acl>, minted: seq<string>)

  predicate TokenExists(n: Node, fullId: string) {
    exists u | u in n.users :: exists t | t in n.users[u] :: FullId(u, t) == fullId
  }

  /** PVE grants a role only to an identity that exists. */
  predicate Exists(n: Node, kind: Kind, ugid: string) {
    match kind
    case User => ugid in n.users
    case Group => true
    case Token => TokenExists(n, ugid)
  }

  /** One pveum command; a command PVE refuses leaves the node as it was. */
  function Exec(n: Node, command: Command): Node {
    match command
    case UserAdd(u) => if u in n.users then n else n.(users := n.users[u := map[]])
    case TokenModify(u, t, privsep) =>
      if u in n.users && t in n.users[u]
      then n.(users := n.users[u := n.users[u][t := Some(privsep)]]) else n
    case AclModify(a) => if Exists(n, a.kind, a.ugid) then n.(acls := n.acls + {a}) else n
    case AclDelete(a) => n.(acls := n.acls - {a})
  }

  /** Removing a token removes every ACL entry of that token. */
  function RemoveToken(n: Node, user: string, token: string): Node {
    if user in n.users && token in n.users[user]
    then n.(users := n.users[user := n.users[user] - {token}],
            acls := set a | a in n.acls && !(a.kind == Token && a.ugid == FullId(user, token)))
    else n
  }

  function AddToken(n: Node, user: string, token: string, privsep: bool): Node {
    if user in n.users && token !in n.users[user]
    then n.(users := n.users[user := n.users[user][token := Some(privsep)]],
            minted := n.minted + [FullId(user, token)])
    else n
  }

  function Perform(n: Node, c: Call): Node {
    match c
    case Emit => n
    case Run(command) => Exec(n, command)
    case MakeToken(user, token, privsep, rotate) =>
      AddToken(if rotate then RemoveToken(n, user, token) else n, user, token, privsep)
  }

  function PerformAll(n: Node, calls: seq<Call>): Node
    decreases |calls|
  {
    if calls == [] then n else PerformAll(Perform(n, calls[0]), calls[1..])
  }

  lemma {:induction false} PerformAppend(n: Node, a: seq<Call>, b: seq<Call>)
    ensures PerformAll(n, a + b) == PerformAll(PerformAll(n, a), b)
    decreases |a|
  {
    if a == [] {
      assert a + b == b;
    } else {
      PerformAppend(Perform(n, a[0]), a[1..], b);
      assert (a + b)[1..] == a[1..] + b;
    }
  }

  /** Shape of every PVE node: no '!' in a user id, and token ACL entries only
      for tokens that exist. */
  ghost predicate WellFormed(n: Node) {
    && (forall u :: u in n.users ==> '!' !in u)
    && (forall a :: a in n.acls && a.kind == Token ==> TokenExists(n, a.ugid))
  }

  /** The observation shows the node's ACLs, in any order, repeats allowed. */
  ghost predicate Shows(acls: seq<Acl>, n: Node) {
    forall a :: a in acls <==> a in n.acls
  }
}
