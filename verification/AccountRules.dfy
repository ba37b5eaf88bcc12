/** What the validators of the service accounts accept, as languages: user ids,
    token ids, role ids, ACL paths and SecretsGroup suffixes. */
module AccountRules {
  import opened Prelude
  import opened Accounts

  ghost predicate IdText(s: string) {
    forall c :: c in s ==> 'A' <= c <= 'Z' || 'a' <= c <= 'z' || '0' <= c <= '9' || c == '.' || c == '_' || c == '-'
  }

  /** 1 to 60 characters that may stand before the realm of a user id. */
  ghost predicate UserText(s: string) {
    1 <= |s| <= 60 && forall c :: c in s ==>
      c >= ' ' && c != 0x7F as char && !IsBlank(c) && c != '@' && c != ':' && c != '!' && c != '/'
  }

  /** A user id is a name, "@", and the realm pam or pve. */
  lemma UserIdMeans(s: string)
    ensures IsUserId(s) <==> exists u :: UserText(u) && (s == u + "@pam" || s == u + "@pve")
  {
    if IsUserId(s) {
      var u := s[..|s| - 4];
      forall c | c in u
        ensures c >= ' ' && c != 0x7F as char && !IsBlank(c) && c != '@' && c != ':' && c != '!' && c != '/'
      {
        var i :| 0 <= i < |u| && u[i] == c;
        assert s[i] == c && !IsControl(s[i]);
      }
      assert s == u + s[|s| - 4..];
      assert UserText(u);
    }
    if u :| UserText(u) && (s == u + "@pam" || s == u + "@pve") {
      assert s[..|s| - 4] == u && (s[|s| - 4..] == "@pam" || s[|s| - 4..] == "@pve");
      forall i | 0 <= i < |s| ensures !IsControl(s[i]) {
        if i < |u| { assert u[i] in u; } else { assert s[i] == s[|s| - 4..][i - |u|]; }
      }
      forall i | 0 <= i < |u| ensures !IsBlank(u[i]) && u[i] != '@' && u[i] != ':' && u[i] != '!' && u[i] != '/' {
        assert u[i] in u;
      }
    }
  }

  /** A token id is a letter and 1 to 63 more id characters, a role id 1 to 64 of
      them. */
  lemma IdsMean(s: string)
    ensures IsTokenId(s) <==> 2 <= |s| <= 64 && ('A' <= s[0] <= 'Z' || 'a' <= s[0] <= 'z') && IdText(s)
    ensures IsPveId(s) <==> 1 <= |s| <= 64 && IdText(s)
  {
    if IdText(s) {
      forall i | 0 <= i < |s| ensures IsIdChar(s[i]) { assert s[i] in s; }
    }
    if forall i :: 0 <= i < |s| ==> IsIdChar(s[i]) { assert IdText(s); }
  }

  /** A SecretsGroup suffix: a small letter and up to 30 small letters, digits or
      dashes, with at most a line break after it. */
  ghost predicate SuffixText(t: string) {
    1 <= |t| <= 31 && 'a' <= t[0] <= 'z' && forall c :: c in t ==> 'a' <= c <= 'z' || '0' <= c <= '9' || c == '-'
  }

  lemma AccountNameMeans(s: string)
    ensures IsAccountName(s) <==> exists t :: SuffixText(t) && (s == t || s == t + "\n")
  {
    var t := BeforeBreak(s);
    assert s == t || s == t + "\n";
    if u :| SuffixText(u) && (s == u || s == u + "\n") {
      assert u[|u| - 1] in u && u[|u| - 1] != '\n';
      if s == u + "\n" { assert s[..|s| - 1] == u && s[|s| - 1..] == "\n"; }
      assert t == u;
      assert forall i :: 0 <= i < |t| ==> t[i] in u;
    }
    if IsAccountName(s) {
      assert forall c :: c in t ==> exists i :: 0 <= i < |t| && t[i] == c;
      assert SuffixText(t);
    }
  }

  /** The suffix is the given name, or else the user's name in small letters. */
  lemma NameDefaults(r: RawAccount, u: string)
    requires r.Raw? && UserText(u) && (r.user == Some(u + "@pam") || r.user == Some(u + "@pve"))
    ensures IsUserId(r.user.value)
    ensures r.name.Some? && r.name.value != "" ==> AccountName(r) == r.name.value
    ensures r.name.None? || r.name.value == "" ==> AccountName(r) == LowerAll(u)
  {
    UserIdMeans(r.user.value);
    assert r.user.value[..|r.user.value| - 4] == u;
    hide IsUserId;
  }

  // ---- ACL paths ----------------------------------------------------------------------------

  ghost predicate Segments(parts: seq<string>) {
    parts != [] && forall p :: p in parts ==> p != "" && IdText(p)
  }

  /** An ACL path is "/", or "/" before names that are parted by single slashes. */
  lemma AclPathMeans(s: string)
    ensures IsAclPath(s) <==>
      |s| <= 255 && (s == "/" || exists parts :: Segments(parts) && s == "/" + Join("/", parts))
  {
    if IsAclPath(s) && s != "/" {
      PathSplits(s[1..]);
      JoinOfSplit('/', s[1..]);
      assert s == "/" + s[1..];
    }
    if parts :| Segments(parts) && s == "/" + Join("/", parts) {
      PathJoins(parts);
      var t := Join("/", parts);
      assert s[1..] == t && s[0] == '/';
      forall i | 0 <= i < |s| ensures !IsControl(s[i]) && (IsIdChar(s[i]) || s[i] == '/') {
        if i > 0 { assert s[i] == t[i - 1]; }
      }
      forall i | 0 <= i < |s| - 1 ensures !(s[i] == '/' && s[i + 1] == '/') {
        if i > 0 { assert s[i] == t[i - 1] && s[i + 1] == t[i]; } else { assert s[1] == t[0]; }
      }
    }
  }

  /** Path text that neither begins nor ends with a slash, and has no two in a row. */
  ghost predicate PathText(t: string) {
    && t != "" && t[0] != '/' && t[|t| - 1] != '/'
    && (forall i :: 0 <= i < |t| ==> IsIdChar(t[i]) || t[i] == '/')
    && forall i :: 0 <= i < |t| - 1 ==> !(t[i] == '/' && t[i + 1] == '/')
  }

  lemma {:induction false} PathSplits(t: string)
    requires PathText(t)
    ensures Segments(Split('/', t))
    decreases |t|
  {
    var k := FirstSlash(t);
    var head := t[..k];
    forall c | c in head ensures IsIdChar(c) {
      var i :| 0 <= i < |head| && head[i] == c;
      assert t[i] == c && t[i] != '/';
    }
    assert IdText(head);
    if k == |t| {
      assert head == t;
      SplitWord('/', t);
    } else {
      var rest := t[k + 1..];
      assert t == head + ['/'] + rest && '/' !in head;
      SplitAtSeparator('/', head, rest);
      assert t[k] == '/' && t[k + 1] != '/' && rest[0] == t[k + 1];
      PathSplits(rest);
    }
  }

  function FirstSlash(t: string): (k: nat)
    ensures k <= |t| && (k < |t| ==> t[k] == '/') && forall i :: 0 <= i < k ==> t[i] != '/'
  {
    if t == "" || t[0] == '/' then 0
    else
      var k := FirstSlash(t[1..]);
      assert forall i :: 0 < i < k + 1 ==> t[i] == t[1..][i - 1];
      k + 1
  }

  lemma {:induction false} PathJoins(parts: seq<string>)
    requires Segments(parts)
    ensures PathText(Join("/", parts))
  {
    var p := parts[0];
    assert p in parts && forall i :: 0 <= i < |p| ==> p[i] in p;
    if |parts| == 1 {
    } else {
      assert forall q :: q in parts[1..] ==> q in parts;
      PathJoins(parts[1..]);
      var rest := Join("/", parts[1..]);
      var t := p + "/" + rest;
      assert t == Join("/", parts);
      forall i | 0 <= i < |t| ensures IsIdChar(t[i]) || t[i] == '/' {
        if i < |p| { assert t[i] == p[i]; } else if i > |p| { assert t[i] == rest[i - |p| - 1]; }
      }
      forall i | 0 <= i < |t| - 1 ensures !(t[i] == '/' && t[i + 1] == '/') {
        if i < |p| { assert t[i] == p[i]; }
        else if i > |p| { assert t[i] == rest[i - |p| - 1] && t[i + 1] == rest[i - |p|]; }
        else { assert t[i + 1] == rest[0]; }
      }
      assert t[|t| - 1] == rest[|rest| - 1];
    }
  }
}
