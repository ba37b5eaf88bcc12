/** Validation of the service-account list of the config context
    (jobs/lib/host_baseline.py _validate_accounts). */
module Accounts {
  import opened Prelude

  // ---- validation -------------------------------------------------------------------

  /** One entry as read from the config context; None is a value that is
      missing or not of the expected JSON type. A path of None is absent (it
      defaults to "/"); a path that is present but no string counts as "". A
      name of None is absent; one that is present but no string counts as a text
      that is not a name, such as "?". */
  datatype RawAccount =
    | NotMapping
    | Raw(user: Option<string>, token: Option<string>, role: Option<string>,
          path: Option<string>, privsep: Option<bool>, name: Option<string>)

  /** A validated entry; role, path and privsep stay None when they were refused. */
  datatype Checked = Checked(user: string, token: string, role: Option<string>,
                             path: Option<string>, privsep: Option<bool>, name: string)

  datatype Problem = Problem(index: nat, field: string)

  /** What `\s` matches outside the control characters. */
  predicate IsBlank(c: char) {
    c == ' ' || c == 0x85 as char || c == 0xA0 as char || c == 0x1680 as char || 0x2000 as char <= c <= 0x200A as char
    || c == 0x2028 as char || c == 0x2029 as char || c == 0x202F as char || c == 0x205F as char || c == 0x3000 as char
  }

  predicate IsAlnum(c: char) { 'A' <= c <= 'Z' || 'a' <= c <= 'z' || '0' <= c <= '9' }
  predicate IsIdChar(c: char) { IsAlnum(c) || c == '.' || c == '_' || c == '-' }

  predicate AllOf(p: char -> bool, s: string) { forall i :: 0 <= i < |s| ==> p(s[i]) }

  /** _text: present, a string, no control character, not over-long. */
  predicate IsText(s: string) { s != "" && |s| <= 255 && AllOf(c => !IsControl(c), s) }

  /** _USERID_RE: a user name in the pam or pve realm. */
  predicate IsUserId(s: string) {
    IsText(s) && 5 <= |s| <= 64 && (s[|s| - 4..] == "@pam" || s[|s| - 4..] == "@pve")
    && AllOf(c => !IsBlank(c) && c != '@' && c != ':' && c != '!' && c != '/', s[..|s| - 4])
  }

  /** _TOKEN_ID_RE */
  predicate IsTokenId(s: string) {
    2 <= |s| <= 64 && ('A' <= s[0] <= 'Z' || 'a' <= s[0] <= 'z') && AllOf(c => IsIdChar(c), s)
  }

  /** _PVE_ID_RE */
  predicate IsPveId(s: string) { 1 <= |s| <= 64 && AllOf(c => IsIdChar(c), s) }

  /** _ACL_PATH_RE: "/" or slash-separated non-empty names. */
  predicate IsAclPath(s: string) {
    IsText(s) && s[0] == '/' && AllOf(c => IsIdChar(c) || c == '/', s)
    && (s == "/" || (s[|s| - 1] != '/' && forall i :: 0 <= i < |s| - 1 ==> !(s[i] == '/' && s[i + 1] == '/')))
  }

  /** _ACCOUNT_NAME_RE; its `$` also matches before one final line break. */
  predicate IsAccountName(s: string) {
    var t := BeforeBreak(s);
    1 <= |t| <= 31 && 'a' <= t[0] <= 'z' && AllOf(c => 'a' <= c <= 'z' || '0' <= c <= '9' || c == '-', t)
  }

  const RESERVED_USERS := ["root@pam", "svc-nfv@pve"]
  const RESERVED_NAMES := ["proxmox"]

  function Kept(ok: string -> bool, v: Option<string>): Option<string> {
    if v.Some? && ok(v.value) then v else None
  }

  function AccountName(r: RawAccount): string
    requires r.Raw? && r.user.Some? && IsUserId(r.user.value)
  {
    if r.name.Some? && r.name.value != "" then r.name.value
    else LowerAll(r.user.value[..|r.user.value| - 4])
  }

  /** The validated entry e belongs to the raw entry r. */
  ghost predicate Belongs(e: Checked, r: RawAccount) {
    r.Raw? && r.user == Some(e.user) && IsUserId(e.user) && r.token == Some(e.token) && IsTokenId(e.token)
    && e.user != "root@pam" && e.user != "svc-nfv@pve" && e.name != "proxmox"
    && e.name == AccountName(r) && IsAccountName(e.name)
    && e.role == Kept(IsPveId, r.role) && e.path == Kept(IsAclPath, if r.path.None? then Some("/") else r.path)
    && e.privsep == r.privsep
  }

  ghost predicate Listed(e: Checked, raw: seq<RawAccount>) {
    exists i :: 0 <= i < |raw| && Belongs(e, raw[i])
  }

  lemma ListedAt(e: Checked, raw: seq<RawAccount>, i: nat)
    requires i < |raw| && Belongs(e, raw[i])
    ensures Listed(e, raw)
  {}

  ghost predicate DistinctAccounts(es: seq<Checked>) {
    forall i, j :: 0 <= i < j < |es| ==> es[i].user != es[j].user && es[i].name != es[j].name
  }

  ghost predicate Complete(e: Checked) { e.role.Some? && e.path.Some? && e.privsep.Some? }

  /** The entry names a user, a token and a SecretsGroup suffix of its own. */
  ghost predicate Acceptable(r: RawAccount) {
    && r.Raw? && r.user.Some? && IsUserId(r.user.value) && r.token.Some? && IsTokenId(r.token.value)
    && r.user.value != "root@pam" && r.user.value != "svc-nfv@pve"
    && AccountName(r) != "proxmox" && IsAccountName(AccountName(r))
  }

  /** The entry meets every rule. */
  ghost predicate Fine(r: RawAccount) {
    && Acceptable(r) && r.role.Some? && IsPveId(r.role.value) && (r.path.Some? ==> IsAclPath(r.path.value))
    && r.privsep.Some?
  }

  ghost predicate AllFine(raw: seq<RawAccount>) { forall i :: 0 <= i < |raw| ==> Fine(raw[i]) }

  /** Two entries for the same user, or with the same name. */
  ghost predicate Clash(a: RawAccount, b: RawAccount) {
    Acceptable(a) && Acceptable(b) && (a.user == b.user || AccountName(a) == AccountName(b))
  }

  ghost predicate NoRepeats(raw: seq<RawAccount>) { forall i, j :: 0 <= i < j < |raw| ==> !Clash(raw[i], raw[j]) }

  lemma RootPath()
    ensures IsAclPath("/")
  {}

  /** The body of the loop: entry n against the users and names seen so far. */
  method ValidateEntry(n: nat, entry: RawAccount, users: set<string>, names: set<string>)
    returns (accepted: Option<Checked>, problems: seq<Problem>)
    ensures accepted.Some? ==> Belongs(accepted.value, entry)
    ensures accepted.Some? <==> Acceptable(entry) && entry.user.value !in users && AccountName(entry) !in names
    ensures problems == [] <==> accepted.Some? && Complete(accepted.value)
    ensures problems == [] <==> Fine(entry) && entry.user.value !in users && AccountName(entry) !in names
    ensures forall p :: p in problems ==> p.index == n
  {
    hide IsUserId, IsTokenId, IsPveId, IsAclPath, IsAccountName;
    RootPath();
    problems := [];
    if entry.NotMapping? {
      return None, [Problem(n, "")];
    }
    var user := Kept(IsUserId, entry.user);
    var token := Kept(IsTokenId, entry.token);
    var role := Kept(IsPveId, entry.role);
    var path := Kept(IsAclPath, if entry.path.None? then Some("/") else entry.path);
    if user.None? { problems := problems + [Problem(n, "user")]; }
    if token.None? { problems := problems + [Problem(n, "token")]; }
    if role.None? { problems := problems + [Problem(n, "role")]; }
    if path.None? { problems := problems + [Problem(n, "path")]; }
    if entry.privsep.None? { problems := problems + [Problem(n, "privsep")]; }
    if user.None? || token.None? {
      return None, problems;
    }
    if user.value in RESERVED_USERS {
      return None, problems + [Problem(n, "user")];
    }
    var name := AccountName(entry);
    if !IsAccountName(name) || name in RESERVED_NAMES {
      return None, problems + [Problem(n, "name")];
    }
    if user.value in users {
      return None, problems + [Problem(n, "user")];
    }
    if name in names {
      return None, problems + [Problem(n, "name")];
    }
    return Some(Checked(user.value, token.value, role, path, entry.privsep, name)), problems;
  }

  /** One more entry keeps the list fine iff it is fine and repeats none. */
  lemma OneMoreFine(raw: seq<RawAccount>, n: nat)
    requires n < |raw|
    ensures AllFine(raw[..n + 1]) && NoRepeats(raw[..n + 1]) <==>
      AllFine(raw[..n]) && NoRepeats(raw[..n]) && Fine(raw[n]) && forall k :: 0 <= k < n ==> !Clash(raw[k], raw[n])
  {
    hide Fine, Clash;
    var front, more := raw[..n], raw[..n + 1];
    assert forall k :: 0 <= k < n ==> more[k] == front[k] == raw[k];
    assert more[n] == raw[n];
    if AllFine(more) && NoRepeats(more) {
      forall k | 0 <= k < n ensures Fine(front[k]) && !Clash(raw[k], raw[n]) {
        assert Fine(more[k]) && !Clash(more[k], more[n]);
      }
    }
  }

  /** Entry out[k] was read from raw[source[k]], one of the first n. */
  ghost predicate Sourced(out: seq<Checked>, source: seq<nat>, raw: seq<RawAccount>, n: nat)
    requires n <= |raw|
  {
    |source| == |out| && forall k :: 0 <= k < |out| ==> source[k] < n && Belongs(out[k], raw[source[k]])
  }

  /** All of the first n were accepted, in order and complete. */
  ghost predicate InOrder(out: seq<Checked>, raw: seq<RawAccount>, n: nat)
    requires n <= |raw|
  {
    |out| == n && forall i :: 0 <= i < n ==> Belongs(out[i], raw[i]) && Complete(out[i])
  }

  function UsersOf(out: seq<Checked>): set<string> { set e | e in out :: e.user }

  function NamesOf(out: seq<Checked>): set<string> { set e | e in out :: e.name }

  lemma OneMoreSeen(out: seq<Checked>, e: Checked)
    requires DistinctAccounts(out) && e.user !in UsersOf(out) && e.name !in NamesOf(out)
    ensures DistinctAccounts(out + [e])
    ensures UsersOf(out + [e]) == UsersOf(out) + {e.user} && NamesOf(out + [e]) == NamesOf(out) + {e.name}
  {
    assert forall x :: x in out + [e] <==> x in out || x == e;
    forall i | 0 <= i < |out| ensures out[i].user != e.user && out[i].name != e.name {
      assert out[i] in out;
    }
  }

  lemma BelongsNames(e: Checked, r: RawAccount)
    requires Belongs(e, r)
    ensures Acceptable(r) && r.user == Some(e.user) && AccountName(r) == e.name
  {}

  /** An entry repeats an earlier one iff its user or name has been seen. */
  lemma SeenMeansClash(out: seq<Checked>, raw: seq<RawAccount>, n: nat)
    requires n < |raw| && InOrder(out, raw, n) && Acceptable(raw[n])
    ensures raw[n].user.value !in UsersOf(out) && AccountName(raw[n]) !in NamesOf(out) <==>
      forall k :: 0 <= k < n ==> !Clash(raw[k], raw[n])
  {
    forall k | 0 <= k < n
      ensures Clash(raw[k], raw[n]) <==> out[k].user == raw[n].user.value || out[k].name == AccountName(raw[n])
    {
      BelongsNames(out[k], raw[k]);
    }
    hide Acceptable, Clash, Belongs;
    if raw[n].user.value in UsersOf(out) {
      var k :| 0 <= k < |out| && out[k].user == raw[n].user.value;
    }
    if AccountName(raw[n]) in NamesOf(out) {
      var k :| 0 <= k < |out| && out[k].name == AccountName(raw[n]);
    }
    forall k | 0 <= k < n && Clash(raw[k], raw[n])
      ensures raw[n].user.value in UsersOf(out) || AccountName(raw[n]) in NamesOf(out)
    {
      assert out[k] in out;
    }
  }

  lemma NothingWrong(raw: seq<RawAccount>)
    ensures AllFine(raw[..0]) && NoRepeats(raw[..0]) && InOrder([], raw, 0) && Sourced([], [], raw, 0)
    ensures UsersOf([]) == {} && NamesOf([]) == {}
  {}

  lemma OneMoreSourced(out: seq<Checked>, source: seq<nat>, raw: seq<RawAccount>, n: nat, e: Checked)
    requires n < |raw| && Sourced(out, source, raw, n)
    ensures Sourced(out, source, raw, n + 1)
    ensures Belongs(e, raw[n]) ==> Sourced(out + [e], source + [n], raw, n + 1)
    ensures InOrder(out, raw, n) && Belongs(e, raw[n]) && Complete(e) ==> InOrder(out + [e], raw, n + 1)
  {
    hide Belongs;
  }

  /** _validate_accounts over the listed entries. Whatever the input, the
      accepted entries have pairwise different users and names; there is no
      problem exactly when every entry is fine and repeats no other, and then
      every entry was accepted, in order and complete. */
  method ValidateAccounts(raw: seq<RawAccount>) returns (out: seq<Checked>, problems: seq<Problem>)
    ensures DistinctAccounts(out)
    ensures forall k :: 0 <= k < |out| ==> Listed(out[k], raw)
    ensures problems == [] <==> AllFine(raw) && NoRepeats(raw)
    ensures problems == [] ==>
              |out| == |raw| && forall i :: 0 <= i < |raw| ==> Belongs(out[i], raw[i]) && Complete(out[i])
    ensures forall p :: p in problems ==> p.index < |raw|
  {
    hide Belongs, AllFine, NoRepeats, Acceptable, DistinctAccounts, Sourced, UsersOf, NamesOf;
    out, problems := [], [];
    var users: set<string>, names: set<string> := {}, {};
    ghost var source: seq<nat> := [];
    NothingWrong(raw);
    NoneRepeated();
    for n := 0 to |raw|
      invariant users == UsersOf(out) && names == NamesOf(out) && DistinctAccounts(out)
      invariant Sourced(out, source, raw, n)
      invariant problems == [] <==> AllFine(raw[..n]) && NoRepeats(raw[..n])
      invariant problems == [] ==> InOrder(out, raw, n)
      invariant forall p :: p in problems ==> p.index < n
    {
      hide InOrder;
      OneMoreFine(raw, n);
      var accepted, found := ValidateEntry(n, raw[n], users, names);
      FineIsAcceptable(raw[n]);
      if problems == [] && Acceptable(raw[n]) { SeenMeansClash(out, raw, n); }
      problems := problems + found;
      if accepted.Some? {
        OneMoreSourced(out, source, raw, n, accepted.value);
        OneMoreSeen(out, accepted.value) by { AcceptedIsNew(accepted.value, raw[n], users, names); }
        users, names := users + {accepted.value.user}, names + {accepted.value.name};
        out, source := out + [accepted.value], source + [n];
      } else {
        StillSourced(out, source, raw, n);
      }
    }
    assert raw[..|raw|] == raw;
    forall k | 0 <= k < |out| ensures Listed(out[k], raw) { SourcedListed(out, source, raw, k); }
  }

  lemma NoneRepeated()
    ensures DistinctAccounts([])
  {}

  lemma FineIsAcceptable(r: RawAccount)
    ensures Fine(r) ==> Acceptable(r)
  {}

  lemma AcceptedIsNew(e: Checked, r: RawAccount, users: set<string>, names: set<string>)
    requires Belongs(e, r) && r.user.value !in users && AccountName(r) !in names
    ensures e.user !in users && e.name !in names
  {
    BelongsNames(e, r);
  }

  lemma StillSourced(out: seq<Checked>, source: seq<nat>, raw: seq<RawAccount>, n: nat)
    requires n < |raw| && Sourced(out, source, raw, n)
    ensures Sourced(out, source, raw, n + 1)
  {}

  lemma SourcedListed(out: seq<Checked>, source: seq<nat>, raw: seq<RawAccount>, k: nat)
    requires Sourced(out, source, raw, |raw|) && k < |out|
    ensures Listed(out[k], raw)
  {
    ListedAt(out[k], raw, source[k]);
  }

  /** An account as the planner takes it: a complete entry. */
  datatype Account = Account(user: string, token: string, role: string, path: string, privsep: bool, name: string)

  function ToAccount(e: Checked): Account
    requires Complete(e)
  {
    Account(e.user, e.token, e.role.value, e.path.value, e.privsep.value, e.name)
  }

  /** What the planner relies on: one entry per user, and no '!' in a user id,
      so that a token's full id names its user. */
  ghost predicate ValidAccounts(accounts: seq<Account>) {
    && (forall i, j :: 0 <= i < j < |accounts| ==> accounts[i].user != accounts[j].user)
    && (forall a :: a in accounts ==> '!' !in a.user)
  }

  lemma UserIdHasNoBang(s: string)
    requires IsUserId(s)
    ensures '!' !in s
  {
    assert s == s[..|s| - 4] + s[|s| - 4..];
  }

  /** A list that validates without a problem is what the planner relies on. */
  lemma ValidatedAccountsAreValid(raw: seq<RawAccount>, es: seq<Checked>, accounts: seq<Account>)
    requires DistinctAccounts(es) && |es| == |raw| == |accounts|
    requires forall i :: 0 <= i < |raw| ==> Belongs(es[i], raw[i]) && Complete(es[i]) && accounts[i] == ToAccount(es[i])
    ensures ValidAccounts(accounts)
    ensures forall a :: a in accounts ==> a.user !in RESERVED_USERS && a.name !in RESERVED_NAMES
  {
    forall i | 0 <= i < |raw| ensures '!' !in accounts[i].user { UserIdHasNoBang(es[i].user); }
  }
}
