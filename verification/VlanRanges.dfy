/** Compression of a bridge's tagged VLAN ids into ifupdown2 bridge-vids
    syntax (jobs/lib/host_baseline.py _bridge_vids). */
module VlanRanges {
  import opened Prelude

  datatype Range = Range(lo: nat, hi: nat)

  ghost predicate Covers(rs: seq<Range>, v: nat) {
    exists i :: 0 <= i < |rs| && rs[i].lo <= v <= rs[i].hi
  }

  /** Non-empty ranges in increasing order with a gap between any two, so no
      two of them could be merged into one. */
  ghost predicate Maximal(rs: seq<Range>) {
    && (forall i :: 0 <= i < |rs| ==> rs[i].lo <= rs[i].hi)
    && (forall i, j :: 0 <= i < j < |rs| ==> rs[i].hi + 1 < rs[j].lo)
  }

  ghost predicate Increasing(s: seq<nat>) {
    forall i, j :: 0 <= i < j < |s| ==> s[i] < s[j]
  }

  function InsertOnce(x: nat, s: seq<nat>): (r: seq<nat>)
    requires Increasing(s)
    ensures Increasing(r)
    ensures forall v :: v in r <==> v == x || v in s
  {
    if s == [] || x < s[0] then [x] + s
    else if x == s[0] then s
    else
      var r := InsertOnce(x, s[1..]);
      assert forall j :: 0 <= j < |r| ==> r[j] in r;
      [s[0]] + r
  }

  /** Python's `sorted(set(vids))`. */
  function SortedSet(vids: seq<nat>): (r: seq<nat>)
    ensures Increasing(r)
    ensures forall v :: v in r <==> v in vids
  {
    if vids == [] then [] else InsertOnce(vids[0], SortedSet(vids[1..]))
  }

  /** One item of the output: `lo-hi`, or just `lo`. */
  function Item(r: Range): string {
    if r.hi != r.lo then Decimal(r.lo) + "-" + Decimal(r.hi) else Decimal(r.lo)
  }

  function Items(rs: seq<Range>): seq<string> { Map(Item, rs) }

  function Text(rs: seq<Range>): string {
    Join(" ", Items(rs))
  }

  lemma CoversAppend(out: seq<Range>, r: Range, v: nat)
    ensures Covers(out + [r], v) <==> Covers(out, v) || r.lo <= v <= r.hi
  {
    var all := out + [r];
    if Covers(out, v) {
      var i :| 0 <= i < |out| && out[i].lo <= v <= out[i].hi;
      assert all[i] == out[i];
    }
    if r.lo <= v <= r.hi { assert all[|out|] == r; }
  }

  /** The ranges are maximal and expand to exactly the ids seen. */
  ghost predicate Describes(rs: seq<Range>, seen: seq<nat>) {
    Maximal(rs) && forall v :: Covers(rs, v) <==> v in seen
  }

  /** The next id continues the last range. */
  lemma ExtendLast(out: seq<Range>, r: Range, seen: seq<nat>, vid: nat)
    requires Describes(out + [r], seen) && vid == r.hi + 1
    ensures Describes(out + [Range(r.lo, vid)], seen + [vid])
  {
    var before, after := out + [r], out + [Range(r.lo, vid)];
    assert forall i :: 0 <= i < |out| ==> after[i] == before[i];
    assert before[|out|] == r;
    forall v ensures Covers(after, v) <==> v in seen + [vid] {
      CoversAppend(out, r, v);
      CoversAppend(out, Range(r.lo, vid), v);
    }
  }

  /** The next id leaves a gap and opens a range of its own. */
  lemma OpenNext(out: seq<Range>, seen: seq<nat>, vid: nat)
    requires Describes(out, seen) && (out != [] ==> out[|out| - 1].hi + 1 < vid)
    ensures Describes(out + [Range(vid, vid)], seen + [vid])
  {
    var after := out + [Range(vid, vid)];
    forall i, j | 0 <= i < j < |after| ensures after[i].hi + 1 < after[j].lo {
      assert after[i] == out[i] && out[i].lo <= out[i].hi;
      assert out[|out| - 1].lo <= out[|out| - 1].hi;
    }
    forall v ensures Covers(after, v) <==> v in seen + [vid] {
      CoversAppend(out, Range(vid, vid), v);
    }
  }

  lemma CoversSome(rs: seq<Range>)
    requires Maximal(rs)
    ensures rs != [] ==> exists v :: Covers(rs, v)
  {
    if rs != [] { assert Covers(rs, rs[0].lo); }
  }

  /** The output is determined by the set of ids: two maximal range lists that
      cover the same ids are the same list. */
  lemma {:induction false} MaximalUnique(a: seq<Range>, b: seq<Range>)
    requires Maximal(a) && Maximal(b)
    requires forall v :: Covers(a, v) <==> Covers(b, v)
    ensures a == b
  {
    if a == [] {
      CoversSome(b);
    } else {
      assert Covers(a, a[0].lo);
      FirstLow(a, b);
      FirstLow(b, a);
      FirstHigh(a, b);
      FirstHigh(b, a);
      TailMaximal(a);
      TailMaximal(b);
      hide Covers, Maximal;
      forall v ensures Covers(a[1..], v) <==> Covers(b[1..], v) {
        TailCovers(a, v);
        TailCovers(b, v);
      }
      MaximalUnique(a[1..], b[1..]);
      assert a == [a[0]] + a[1..] && b == [b[0]] + b[1..];
    }
  }

  lemma FirstLow(a: seq<Range>, b: seq<Range>)
    requires Maximal(a) && Maximal(b) && a != []
    requires forall v :: Covers(a, v) <==> Covers(b, v)
    ensures b != [] && b[0].lo <= a[0].lo
  {
    assert Covers(a, a[0].lo);
    var i :| 0 <= i < |b| && b[i].lo <= a[0].lo <= b[i].hi;
  }

  lemma FirstHigh(a: seq<Range>, b: seq<Range>)
    requires Maximal(a) && Maximal(b) && a != [] && b != [] && a[0].lo == b[0].lo
    requires forall v :: Covers(a, v) <==> Covers(b, v)
    ensures a[0].hi <= b[0].hi
  {
    assert !Covers(b, b[0].hi + 1);
    assert a[0].lo <= b[0].hi + 1 <= a[0].hi ==> Covers(a, b[0].hi + 1);
  }

  lemma TailCovers(a: seq<Range>, v: nat)
    requires Maximal(a) && a != []
    ensures Covers(a[1..], v) <==> Covers(a, v) && v > a[0].hi
  {
    if Covers(a[1..], v) {
      var i :| 0 <= i < |a[1..]| && a[1..][i].lo <= v <= a[1..][i].hi;
      assert a[i + 1].lo <= v <= a[i + 1].hi;
    }
    if Covers(a, v) && v > a[0].hi {
      var i :| 0 <= i < |a| && a[i].lo <= v <= a[i].hi;
      assert a[1..][i - 1] == a[i];
    }
  }

  /** The same grouping as a function of the list, from its end. */
  function Group(s: seq<nat>): (r: seq<Range>)
    requires Increasing(s)
    ensures s != [] ==> r != [] && r[0].lo == s[0]
  {
    if s == [] then []
    else
      var rest := Group(s[1..]);
      if rest != [] && rest[0].lo == s[0] + 1 then [Range(s[0], rest[0].hi)] + rest[1..]
      else [Range(s[0], s[0])] + rest
  }

  lemma HeadMaximal(all: seq<Range>)
    requires all != [] && Maximal(all[1..]) && all[0].lo <= all[0].hi
    requires |all| > 1 ==> all[0].hi + 1 < all[1].lo
    ensures Maximal(all)
  {
    var rest := all[1..];
    assert forall i :: 0 < i < |all| ==> all[i] == rest[i - 1];
  }

  lemma TailMaximal(rs: seq<Range>)
    requires Maximal(rs) && rs != []
    ensures Maximal(rs[1..])
  {
    assert forall i :: 0 <= i < |rs[1..]| ==> rs[1..][i] == rs[i + 1];
  }

  lemma {:induction false} GroupMaximal(s: seq<nat>)
    requires Increasing(s)
    ensures Maximal(Group(s))
  {
    if s == [] {
    } else {
      var rest, all := Group(s[1..]), Group(s);
      GroupMaximal(s[1..]);
      if rest != [] && rest[0].lo == s[0] + 1 {
        TailMaximal(rest);
        assert all[1..] == rest[1..] && all[0].hi == rest[0].hi;
        assert |all| > 1 ==> all[1] == rest[1];
      } else {
        assert all[1..] == rest;
      }
      HeadMaximal(all);
    }
  }

  lemma {:induction false} GroupCovers(s: seq<nat>, v: nat)
    requires Increasing(s)
    ensures Covers(Group(s), v) <==> v in s
  {
    if s == [] {
    } else {
      var rest := Group(s[1..]);
      GroupCovers(s[1..], v);
      GroupMaximal(s[1..]);
      assert s == [s[0]] + s[1..];
      if rest != [] && rest[0].lo == s[0] + 1 {
        HeadCovers(rest, v);
        HeadCovers(Group(s), v);
        assert Group(s)[1..] == rest[1..];
      } else {
        HeadCovers(Group(s), v);
        assert Group(s)[1..] == rest;
      }
    }
  }

  lemma HeadCovers(rs: seq<Range>, v: nat)
    requires rs != []
    ensures Covers(rs, v) <==> rs[0].lo <= v <= rs[0].hi || Covers(rs[1..], v)
  {
    if Covers(rs, v) && !(rs[0].lo <= v <= rs[0].hi) {
      var i :| 0 <= i < |rs| && rs[i].lo <= v <= rs[i].hi;
      assert rs[1..][i - 1] == rs[i];
    }
    if Covers(rs[1..], v) {
      var i :| 0 <= i < |rs[1..]| && rs[1..][i].lo <= v <= rs[1..][i].hi;
      assert rs[i + 1] == rs[1..][i];
    }
  }

  function Ranges(vids: seq<nat>): (r: seq<Range>)
    ensures Maximal(r)
    ensures forall v :: Covers(r, v) <==> v in vids
  {
    GroupMaximal(SortedSet(vids));
    assert forall v :: Covers(Group(SortedSet(vids)), v) <==> v in vids by {
      forall v ensures Covers(Group(SortedSet(vids)), v) <==> v in vids { GroupCovers(SortedSet(vids), v); }
    }
    Group(SortedSet(vids))
  }

  /** bridge-vids of a list of ids. */
  function VidText(vids: seq<nat>): string { Text(Ranges(vids)) }

  /** The text depends on the set of ids only. */
  lemma SameIdsSameText(a: seq<nat>, b: seq<nat>)
    requires forall v :: v in a <==> v in b
    ensures VidText(a) == VidText(b)
  {
    MaximalUnique(Ranges(a), Ranges(b));
  }

  /** The loop of _bridge_vids: for any list, in any order and with duplicates,
      the ranges expand to exactly the listed ids and are maximal. */
  method BridgeVids(vids: seq<nat>) returns (ranges: seq<Range>, text: string)
    ensures Maximal(ranges)
    ensures forall v :: Covers(ranges, v) <==> v in vids
    ensures ranges == Ranges(vids) && text == Text(ranges)
  {
    var sorted := SortedSet(vids);
    var out: seq<Range> := [];
    var open: Option<Range> := None;
    for i := 0 to |sorted|
      invariant open.None? <==> i == 0
      invariant open.None? ==> out == []
      invariant open.Some? ==> open.value.hi == sorted[i - 1] && Describes(out + [open.value], sorted[..i])
    {
      var vid := sorted[i];
      assert sorted[..i + 1] == sorted[..i] + [vid];
      if open.None? {
        OpenNext([], [], vid);
        assert [] + [Range(vid, vid)] == out + [Range(vid, vid)] && sorted[..i] == [];
        open := Some(Range(vid, vid));
      } else if vid == open.value.hi + 1 {
        ExtendLast(out, open.value, sorted[..i], vid);
        open := Some(Range(open.value.lo, vid));
      } else {
        out := out + [open.value];
        OpenNext(out, sorted[..i], vid);
        open := Some(Range(vid, vid));
      }
    }
    if open.Some? {
      out := out + [open.value];
    }
    assert sorted[..|sorted|] == sorted;
    MaximalUnique(out, Ranges(vids));
    ranges, text := out, Text(out);
  }

  // ---- reading the text back ---------------------------------------------

  function ReadItem(item: string): Option<Range> {
    var ends := Split('-', item);
    if |ends| == 1 && AllDigits(ends[0]) then Some(Range(ParseDigits(ends[0]), ParseDigits(ends[0])))
    else if |ends| == 2 && AllDigits(ends[0]) && AllDigits(ends[1])
    then Some(Range(ParseDigits(ends[0]), ParseDigits(ends[1])))
    else None
  }

  function ReadItems(items: seq<string>): Option<seq<Range>> {
    if items == [] then Some([])
    else
      match (ReadItem(items[0]), ReadItems(items[1..]))
      case (Some(r), Some(rest)) => Some([r] + rest)
      case _ => None
  }

  /** How ifupdown2 reads the value back into ranges. */
  function ReadText(text: string): Option<seq<Range>> {
    if text == "" then Some([]) else ReadItems(Split(' ', text))
  }

  lemma DigitsAvoid(n: nat, c: char)
    requires !IsDigit(c)
    ensures c !in Decimal(n)
  {}

  lemma ItemReads(r: Range)
    ensures ReadItem(Item(r)) == Some(r)
    ensures ' ' !in Item(r) && Item(r) != ""
  {
    DigitsAvoid(r.lo, '-');
    DigitsAvoid(r.hi, '-');
    DigitsAvoid(r.lo, ' ');
    DigitsAvoid(r.hi, ' ');
    DecimalParses(r.lo);
    DecimalParses(r.hi);
    SplitWord('-', Decimal(r.lo));
    SplitWord('-', Decimal(r.hi));
    SplitAtSeparator('-', Decimal(r.lo), Decimal(r.hi));
  }

  lemma {:induction false} ItemsRead(rs: seq<Range>)
    ensures ReadItems(Items(rs)) == Some(rs)
    ensures forall p :: p in Items(rs) ==> ' ' !in p
  {
    if rs == [] {
    } else {
      ItemReads(rs[0]);
      ItemsRead(rs[1..]);
      assert rs == [rs[0]] + rs[1..];
    }
  }

  /** Reading the rendered value gives the ranges back. */
  lemma TextReads(rs: seq<Range>)
    ensures ReadText(Text(rs)) == Some(rs)
  {
    if rs == [] {
    } else {
      ItemsRead(rs);
      SplitJoin(' ', Items(rs));
      ItemReads(rs[0]);
    }
  }
}
