/** Looking up drives and volumes on the adapter, as they are listed: repeats are
    possible, and then the last one counts; RAID types are compared without
    blanks and in capitals. */
module StorageLookup {
  import opened Prelude
  import opened StorageLayout

  /** x is the last member of s with p. */
  ghost predicate IsLast<T>(p: T -> bool, s: seq<T>, x: T) {
    exists i :: 0 <= i < |s| && s[i] == x && p(x) && forall j :: i < j < |s| ==> !p(s[j])
  }

  lemma LastLater<T>(p: T -> bool, s: seq<T>, x: T)
    requires s != [] && IsLast(p, s[1..], x)
    ensures IsLast(p, s, x)
  {
    var i :| 0 <= i < |s[1..]| && s[1..][i] == x && p(x) && forall j :: i < j < |s[1..]| ==> !p(s[1..][j]);
    assert s[i + 1] == x;
    forall j | i + 1 < j < |s| ensures !p(s[j]) { assert s[j] == s[1..][j - 1]; }
  }

  /** A path leads to the last drive that is listed under it. */
  lemma {:induction false} LastDriveCounts(drives: seq<Drive>, path: string)
    ensures DriveAt(drives, path).Some? ==>
      IsLast((d: Drive) => d.path == path, drives, DriveAt(drives, path).value)
    ensures DriveAt(drives, path).None? <==> forall d :: d in drives ==> d.path != path
  {
    if drives == [] {
    } else {
      var p := (d: Drive) => d.path == path;
      LastDriveCounts(drives[1..], path);
      if DriveAt(drives[1..], path).Some? {
        LastLater(p, drives, DriveAt(drives[1..], path).value);
      } else {
        assert forall j :: 0 < j < |drives| ==> drives[j] in drives[1..];
      }
    }
  }

  /** A name leads to the last volume that is listed under it. */
  lemma {:induction false} LastVolumeCounts(volumes: seq<Volume>, name: string)
    ensures ByName(volumes, name).Some? ==>
      IsLast((v: Volume) => v.name == Some(name), volumes, ByName(volumes, name).value)
    ensures ByName(volumes, name).None? <==> forall v :: v in volumes ==> v.name != Some(name)
  {
    if volumes == [] {
    } else {
      var p := (v: Volume) => v.name == Some(name);
      LastVolumeCounts(volumes[1..], name);
      if ByName(volumes[1..], name).Some? {
        LastLater(p, volumes, ByName(volumes[1..], name).value);
      } else {
        assert forall j :: 0 < j < |volumes| ==> volumes[j] in volumes[1..];
      }
    }
  }

  // ---- RAID types ---------------------------------------------------------------------------

  /** Reported RAID types are told apart by their letters and digits alone: no
      blank and no small letter is left, a blank anywhere makes no difference, nor
      does the case of a letter, and a type in capitals without blanks is itself. */
  lemma NormalForm(s: string)
    ensures ' ' !in Normal(s) && forall c :: c in Normal(s) ==> !('a' <= c <= 'z')
    ensures (forall i :: 0 <= i < |s| ==> s[i] != ' ' && Upper(s[i]) == s[i]) ==> Normal(s) == s
  {
    FilterMembers((c: char) => c != ' ', UpperAll(s));
    forall c | c in Normal(s) ensures !('a' <= c <= 'z') {
      MapMember(Upper, s, c);
    }
    if forall i :: 0 <= i < |s| ==> s[i] != ' ' && Upper(s[i]) == s[i] { PlainIsNormal(s); }
  }

  lemma {:induction false} PlainIsNormal(s: string)
    requires forall i :: 0 <= i < |s| ==> s[i] != ' ' && Upper(s[i]) == s[i]
    ensures Normal(s) == s
  {
    if s == "" {
    } else {
      PlainIsNormal(s[1..]);
      assert s == [s[0]] + s[1..];
      assert UpperAll(s) == [s[0]] + UpperAll(s[1..]);
    }
  }

  lemma NormalIgnoresBlanks(a: string, b: string)
    ensures Normal(a + " " + b) == Normal(a + b) == Normal(a) + Normal(b)
  {
    var p := (c: char) => c != ' ';
    MapAppend(Upper, a, b);
    MapAppend(Upper, a + " ", b);
    MapAppend(Upper, a, " ");
    assert UpperAll(" ") == " ";
    FilterAppend(p, UpperAll(a), UpperAll(b));
    FilterAppend(p, UpperAll(a) + " ", UpperAll(b));
    FilterAppend(p, UpperAll(a), " ");
    assert Filter(p, " ") == [] by { assert " "[1..] == []; }
    assert Filter(p, UpperAll(a)) + [] == Filter(p, UpperAll(a));
  }

  /** The types that an entry can ask for, as adapters report them. */
  lemma RaidTypes()
    ensures Normal("RAID0") == RaidText(RAID0) && Normal("RAID1") == RaidText(RAID1)
    ensures Normal("RAID10") == RaidText(RAID10)
  {
    PlainRaid("RAID0");
    PlainRaid("RAID1");
    PlainRaid("RAID10");
    hide Normal;
  }

  lemma PlainRaid(s: string)
    requires forall i :: 0 <= i < |s| ==> s[i] in {'R', 'A', 'I', 'D', '0', '1'}
    ensures Normal(s) == s
  {
    forall i | 0 <= i < |s| ensures s[i] != ' ' && Upper(s[i]) == s[i] { PlainLetter(s[i]); }
    PlainIsNormal(s);
  }

  lemma PlainLetter(c: char)
    requires c in {'R', 'A', 'I', 'D', '0', '1'}
    ensures c != ' ' && Upper(c) == c
  {}

  // ---- existing volumes --------------------------------------------------------------------

  /** An entry whose name a volume has keeps that volume as it is, unless the volume
      reports another RAID type; one that reports none is kept. */
  lemma NamedVolumeDecides(vol: VolSpec, names: set<string>, inv: Inventory, free: seq<Drive>, claimed: set<string>,
                           v: Volume)
    requires ByName(inv.volumes, vol.name) == Some(v)
    ensures var r, have := StepFor(vol, names, inv, free, claimed), Normal(v.raidType);
      && (r == Err(WrongRaid(vol.name)) <==> have != "" && have != RaidText(vol.raid))
      && (r == Ok(Keep(vol.name, vol.raid, v.drives, v.capacity, v.id, v.path, None)) <==>
        have == "" || have == RaidText(vol.raid))
  {}

  /** Without one, an adopted volume is kept under the entry's name, and recorded as
      adopted from its own; a refused adoption refuses the entry; else it is created. */
  lemma UnnamedEntryDecides(vol: VolSpec, names: set<string>, inv: Inventory, free: seq<Drive>, claimed: set<string>)
    requires forall v :: v in inv.volumes ==> v.name != Some(vol.name)
    ensures var r, adopted := StepFor(vol, names, inv, free, claimed), Adopt(vol, names, inv, free, claimed);
      && (adopted.Err? ==> r == Err(adopted.error))
      && (adopted == Ok(None) ==> r == CreateStep(vol, free))
      && (adopted.Ok? && adopted.value.Some? ==> var v := adopted.value.value;
        r == Ok(Keep(vol.name, vol.raid, v.drives, v.capacity, v.id, v.path, v.name)))
  {
    var adopted := Adopt(vol, names, inv, free, claimed);
    if adopted.Ok? && adopted.value.Some? { AdoptedHasType(vol, names, inv, free, claimed, adopted.value.value); }
    hide Adopt, CreateStep, Normal;
  }

  lemma AdoptedHasType(vol: VolSpec, names: set<string>, inv: Inventory, free: seq<Drive>, claimed: set<string>,
                       v: Volume)
    requires Adopt(vol, names, inv, free, claimed) == Ok(Some(v))
    ensures Normal(v.raidType) == RaidText(vol.raid)
  {
    FilterMember((w: Volume) => IsCandidate(vol, names, inv.drives, claimed, w), inv.volumes, v);
  }
}
