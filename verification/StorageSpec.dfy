/** parse_storage_spec: which storage sections are accepted, and what the
    planner may rely on afterwards. */
module StorageSpec {
  import opened Prelude
  import opened StorageLayout
  import opened StorageSafety

  /** The count as it is read: left out, a number (truncated if it is a fraction,
      0 or 1 for a boolean), a text, or anything else. */
  datatype RawCount = Absent | Number(n: int) | Text(s: string) | NoNumber

  /** `int(vol.get("count", 2))`; None stands for TypeError and ValueError. */
  function CountOf(c: RawCount): Option<int> {
    match c
    case Absent => Some(2)
    case Number(n) => Some(n)
    case Text(s) => PythonInt(s)
    case NoNumber => None
  }

  /** One entry of storage.volumes. */
  datatype RawVolume = NotMapping | Raw(name: string, raid: string, select: string, count: RawCount)

  datatype SpecError = EmptyList | BadEntry(index: nat) | DuplicateName(index: nat)

  predicate NameChar(c: char) {
    'A' <= c <= 'Z' || 'a' <= c <= 'z' || IsDigit(c) || c == '.' || c == '_' || c == '-'
  }

  /** _NAME_RE; its `$` also matches before one final line break. */
  predicate IsName(s: string) {
    var t := BeforeBreak(s);
    1 <= |t| <= 15 && forall i :: 0 <= i < |t| ==> NameChar(t[i])
  }

  function ParseRaid(s: string): (r: Option<Raid>)
    ensures forall raid :: r == Some(raid) <==> UpperAll(s) == RaidText(raid)
  {
    var t := UpperAll(s);
    if t == "RAID0" then Some(RAID0) else if t == "RAID1" then Some(RAID1)
    else if t == "RAID10" then Some(RAID10) else None
  }

  function ParseSelect(s: string): Option<Select> {
    var t := LowerAll(s);
    if t == "smallest" then Some(Smallest) else if t == "largest" then Some(Largest) else None
  }

  predicate CountOk(raid: Raid, count: int) {
    match raid
    case RAID0 => count >= 1
    case RAID1 => count == 2
    case RAID10 => count >= 4 && count % 2 == 0
  }

  predicate EntryOk(r: RawVolume) {
    && r.Raw? && IsName(r.name) && CountOf(r.count).Some? && ParseSelect(r.select).Some?
    && ParseRaid(r.raid).Some? && CountOk(ParseRaid(r.raid).value, CountOf(r.count).value)
  }

  function Entry(r: RawVolume): VolSpec
    requires EntryOk(r)
  {
    VolSpec(r.name, ParseRaid(r.raid).value, ParseSelect(r.select).value, CountOf(r.count).value)
  }

  /** An entry is good iff its name is 1 to 15 letters, digits, dots, underscores or
      dashes, with at most a line break after it, it selects an end, its count is a
      number (2 when left out), and the RAID type allows that count: RAID0 one or
      more, RAID1 exactly two, RAID10 four or more and even. It is read as it says. */
  lemma EntryMeans(r: RawVolume)
    ensures EntryOk(r) <==>
      && r.Raw? && NameMeans(r.name) && (LowerAll(r.select) == "smallest" || LowerAll(r.select) == "largest")
      && CountOf(r.count).Some? && var n := CountOf(r.count).value;
      (UpperAll(r.raid) == "RAID0" && n >= 1) || (UpperAll(r.raid) == "RAID1" && n == 2)
      || (UpperAll(r.raid) == "RAID10" && n >= 4 && n % 2 == 0)
    ensures r.Raw? && r.count.Absent? ==> CountOf(r.count) == Some(2)
    ensures EntryOk(r) ==> var v := Entry(r);
      && v.name == r.name && Some(v.count) == CountOf(r.count)
      && (v.select.Smallest? <==> LowerAll(r.select) == "smallest")
      && (v.raid.RAID0? <==> UpperAll(r.raid) == "RAID0") && (v.raid.RAID1? <==> UpperAll(r.raid) == "RAID1")
  {
    assert |"smallest"| == 8 && |"largest"| == 7 && |"RAID0"| == 5 && |"RAID1"| == 5 && |"RAID10"| == 6;
    assert "RAID0"[4] == '0' && "RAID1"[4] == '1';
    if r.Raw? { NameIs(r.name); }
    hide IsName, NameMeans, CountOf, LowerAll, UpperAll;
  }

  /** 1 to 15 characters of a volume name. */
  ghost predicate NameText(t: string) {
    1 <= |t| <= 15 && forall c :: c in t ==>
      'A' <= c <= 'Z' || 'a' <= c <= 'z' || '0' <= c <= '9' || c == '.' || c == '_' || c == '-'
  }

  ghost predicate NameMeans(s: string) { exists t :: NameText(t) && (s == t || s == t + "\n") }

  lemma NameIs(s: string)
    ensures IsName(s) <==> NameMeans(s)
  {
    var t := BeforeBreak(s);
    assert s == t || s == t + "\n";
    if u :| NameText(u) && (s == u || s == u + "\n") {
      assert u[|u| - 1] in u && u[|u| - 1] != '\n';
      if s == u + "\n" { assert s[..|s| - 1] == u && s[|s| - 1..] == "\n"; }
      assert t == u;
      assert forall i :: 0 <= i < |t| ==> t[i] in u;
    }
    if IsName(s) {
      assert forall c :: c in t ==> NameChar(c);
      assert NameText(t);
    }
  }

  ghost predicate AllOk(raw: seq<RawVolume>) { forall i :: 0 <= i < |raw| ==> EntryOk(raw[i]) }

  ghost predicate DistinctRawNames(raw: seq<RawVolume>) {
    forall i, j :: 0 <= i < j < |raw| && raw[i].Raw? && raw[j].Raw? ==> raw[i].name != raw[j].name
  }

  function RawNames(raw: seq<RawVolume>): set<string> { set r | r in raw && r.Raw? :: r.name }

  /** spec holds the entries of raw, one by one. */
  ghost predicate Parsed(raw: seq<RawVolume>, spec: seq<VolSpec>) {
    |spec| == |raw| && forall i :: 0 <= i < |raw| ==> EntryOk(raw[i]) && spec[i] == Entry(raw[i])
  }

  lemma OneMoreName(raw: seq<RawVolume>, i: nat)
    requires i < |raw| && raw[i].Raw? && DistinctRawNames(raw[..i])
    ensures RawNames(raw[..i + 1]) == RawNames(raw[..i]) + {raw[i].name}
    ensures DistinctRawNames(raw[..i + 1]) <==> raw[i].name !in RawNames(raw[..i])
  {
    var front, more := raw[..i], raw[..i + 1];
    assert more == front + [raw[i]];
    assert forall r :: r in more <==> r in front || r == raw[i];
    if raw[i].name in RawNames(front) {
      var r :| r in front && r.Raw? && r.name == raw[i].name;
      var k :| 0 <= k < i && front[k] == r;
      assert more[k].name == more[i].name;
    }
    assert forall k :: 0 <= k < i ==> more[k] == front[k];
    if !DistinctRawNames(more) {
      var k, m :| 0 <= k < m < |more| && more[k].Raw? && more[m].Raw? && more[k].name == more[m].name;
      assert m == i ==> front[k] in front && front[k] == more[k];
    }
  }

  lemma FrontDistinct(raw: seq<RawVolume>, i: nat)
    requires i <= |raw|
    ensures DistinctRawNames(raw) ==> DistinctRawNames(raw[..i])
  {}

  lemma OneMoreEntry(raw: seq<RawVolume>, spec: seq<VolSpec>, i: nat, v: VolSpec)
    requires i < |raw| && Parsed(raw[..i], spec) && EntryOk(raw[i]) && v == Entry(raw[i])
    ensures Parsed(raw[..i + 1], spec + [v])
  {
    hide EntryOk, Entry;
    var more := raw[..i + 1];
    forall k | 0 <= k < |more| ensures EntryOk(more[k]) && (spec + [v])[k] == Entry(more[k]) {
      assert k < i ==> raw[..i][k] == more[k];
    }
  }

  /** Accepts exactly the non-empty lists of good entries with distinct names. */
  method ParseVolumes(raw: seq<RawVolume>) returns (r: Result<seq<VolSpec>, SpecError>)
    ensures r.Ok? <==> raw != [] && AllOk(raw) && DistinctRawNames(raw)
    ensures r.Ok? ==> Parsed(raw, r.value) && ValidSpec(r.value)
  {
    hide IsName, CountOf, ParseRaid, ParseSelect, CountOk, DistinctRawNames, RawNames, Parsed;
    if raw == [] { return Err(EmptyList); }
    var seen: set<string> := {};
    var parsed: seq<VolSpec> := [];
    assert raw[..0] == [];
    NoneParsed();
    for i := 0 to |raw|
      invariant Parsed(raw[..i], parsed) && seen == RawNames(raw[..i]) && DistinctRawNames(raw[..i])
    {
      var vol := raw[i];
      if vol.NotMapping? { return Err(BadEntry(i)); }
      var count := CountOf(vol.count);
      if count.None? || !IsName(vol.name) { return Err(BadEntry(i)); }
      OneMoreName(raw, i);
      FrontDistinct(raw, i + 1);
      if vol.name in seen { return Err(DuplicateName(i)); }
      seen := seen + {vol.name};
      var raid, select := ParseRaid(vol.raid), ParseSelect(vol.select);
      if raid.None? || select.None? || !CountOk(raid.value, count.value) { return Err(BadEntry(i)); }
      CountIsPositive(raid.value, count.value);
      var entry := VolSpec(vol.name, raid.value, select.value, count.value);
      OneMoreEntry(raw, parsed, i, entry);
      parsed := parsed + [entry];
    }
    assert raw[..|raw|] == raw;
    ParsedAllOk(raw, parsed);
    ParsedIsValid(raw, parsed);
    return Ok(parsed);
  }

  lemma NoneParsed()
    ensures Parsed([], []) && RawNames([]) == {} && DistinctRawNames([])
  {}

  lemma ParsedAllOk(raw: seq<RawVolume>, spec: seq<VolSpec>)
    requires Parsed(raw, spec)
    ensures AllOk(raw)
  {}

  lemma CountIsPositive(raid: Raid, count: int)
    requires CountOk(raid, count)
    ensures count >= 1
  {}

  lemma ParsedIsValid(raw: seq<RawVolume>, spec: seq<VolSpec>)
    requires Parsed(raw, spec) && DistinctRawNames(raw)
    ensures ValidSpec(spec)
  {
    forall v | v in spec ensures v.count >= 1 {
      var i :| 0 <= i < |spec| && spec[i] == v;
      assert EntryOk(raw[i]);
    }
    forall i, j | 0 <= i < j < |spec| ensures spec[i].name != spec[j].name {
      assert EntryOk(raw[i]) && EntryOk(raw[j]);
    }
  }
}
