/** The AD realm and its sync job: what the config wants, the command that
    brings the node there, and what the next plan says
    (jobs/lib/host_baseline.py realm_options, plan_realm, plan_sync_job). */
module Realm {
  import opened Prelude

  /** A JSON value as the config or pvesh reports it; Null also stands for a key
      that is absent. */
  datatype Value = Null | Bool(b: bool) | Int(n: int) | Str(s: string)

  /** _pve_str */
  function PveStr(v: Value): string {
    match v
    case Null => "None"
    case Bool(b) => if b then "1" else "0"
    case Int(n) => IntText(n)
    case Str(s) => s
  }

  predicate Truthy(v: Value) {
    match v
    case Null => false
    case Bool(b) => b
    case Int(n) => n != 0
    case Str(s) => s != ""
  }

  function Get<K>(m: map<K, Value>, k: K): Value { if k in m then m[k] else Null }

  // ---- the realm ----------------------------------------------------------------------

  /** Options of a PVE realm: its type, the ones the config can name, and any other. */
  datatype Key =
    | Type | Domain | Server1 | Server2 | Port | Mode | Verify | BaseDn | BindDn | UserFilter | GroupFilter
    | SyncAttributes | SyncDefaults | CaseSensitive | Comment | Default
    | Other(name: string)

  /** _REALM_OPTIONS: the managed options in argv order. */
  const ORDER: seq<Key> := [Domain, Server1, Server2, Port, Mode, Verify, BaseDn, BindDn, UserFilter, GroupFilter,
                            SyncAttributes, SyncDefaults, CaseSensitive, Comment, Default]

  /** The validated ad section: one or two servers, and its other fields by name. */
  datatype Ad = Ad(realm: string, servers: seq<string>, fields: map<string, Value>)

  /** _REALM_OPTIONS: the field of the config that an option is read from. */
  function Field(k: Key): string {
    match k
    case Type => "type"
    case Domain => "domain"
    case Server1 => "server1"
    case Server2 => "server2"
    case Port => "port"
    case Mode => "mode"
    case Verify => "verify"
    case BaseDn => "base_dn"
    case BindDn => "bind_dn"
    case UserFilter => "user_filter"
    case GroupFilter => "group_filter"
    case SyncAttributes => "sync_attributes"
    case SyncDefaults => "sync_defaults_options"
    case CaseSensitive => "case_sensitive"
    case Comment => "comment"
    case Default => "default_realm"
    case Other(name) => name
  }

  type Options = map<Key, Value>

  /** _REALM_BOOL_DEFAULTS */
  function BoolDefault(k: Key): Option<string> {
    match k
    case Verify => Some("0")
    case CaseSensitive => Some("1")
    case Default => Some("0")
    case _ => None
  }

  function Wanted(ad: Ad, k: Key): Value
    requires ad.servers != []
  {
    if k == Server1 then Str(ad.servers[0])
    else if k == Server2 then if |ad.servers| > 1 then Str(ad.servers[1]) else Null
    else Get(ad.fields, Field(k))
  }

  /** realm_options: the options the config names, as PVE text. */
  function RealmOptions(ad: Ad): map<Key, string>
    requires ad.servers != []
  {
    map k | k in ORDER && Wanted(ad, k) != Null :: PveStr(Wanted(ad, k))
  }

  /** Each option is read from the config field of its name, the servers from their
      list; a field that is missing or null wants nothing. */
  lemma WantedFields(ad: Ad)
    requires ad.servers != []
    ensures var want := RealmOptions(ad);
      && Server1 in want && want[Server1] == ad.servers[0]
      && (Server2 in want <==> |ad.servers| > 1) && (Server2 in want ==> want[Server2] == ad.servers[1])
      && WantsField(want, ad, Domain, "domain") && WantsField(want, ad, Port, "port")
      && WantsField(want, ad, Mode, "mode") && WantsField(want, ad, Verify, "verify")
      && WantsField(want, ad, BaseDn, "base_dn") && WantsField(want, ad, BindDn, "bind_dn")
      && WantsField(want, ad, UserFilter, "user_filter") && WantsField(want, ad, GroupFilter, "group_filter")
      && WantsField(want, ad, SyncAttributes, "sync_attributes")
      && WantsField(want, ad, SyncDefaults, "sync_defaults_options")
      && WantsField(want, ad, CaseSensitive, "case_sensitive") && WantsField(want, ad, Comment, "comment")
      && WantsField(want, ad, Default, "default_realm")
  {
    hide *;
    WantedServers(ad);
    WantedField(ad, Domain);
    WantedField(ad, Port);
    WantedField(ad, Mode);
    WantedField(ad, Verify);
    WantedField(ad, BaseDn);
    WantedField(ad, BindDn);
    WantedField(ad, UserFilter);
    WantedField(ad, GroupFilter);
    WantedField(ad, SyncAttributes);
    WantedField(ad, SyncDefaults);
    WantedField(ad, CaseSensitive);
    WantedField(ad, Comment);
    WantedField(ad, Default);
    FieldNames();
  }

  lemma WantedServers(ad: Ad)
    requires ad.servers != []
    ensures var want := RealmOptions(ad);
      && Server1 in want && want[Server1] == ad.servers[0]
      && (Server2 in want <==> |ad.servers| > 1) && (Server2 in want ==> want[Server2] == ad.servers[1])
  {
    assert Server1 in ORDER && Server2 in ORDER;
    hide ORDER;
  }

  lemma WantedField(ad: Ad, k: Key)
    requires ad.servers != [] && k != Server1 && k != Server2 && k != Type && !k.Other?
    ensures WantsField(RealmOptions(ad), ad, k, Field(k))
  {
    assert k in ORDER;
    hide ORDER, Field;
  }

  lemma FieldNames()
    ensures Field(Domain) == "domain" && Field(Port) == "port" && Field(Mode) == "mode" && Field(Verify) == "verify"
    ensures Field(BaseDn) == "base_dn" && Field(BindDn) == "bind_dn" && Field(UserFilter) == "user_filter"
    ensures Field(GroupFilter) == "group_filter" && Field(SyncAttributes) == "sync_attributes"
    ensures Field(SyncDefaults) == "sync_defaults_options" && Field(CaseSensitive) == "case_sensitive"
    ensures Field(Comment) == "comment" && Field(Default) == "default_realm"
  {}

  /** The option is wanted iff the field is given, as its PVE text: 1 or 0 for a
      boolean, digits for a number, a text as it is. */
  ghost predicate WantsField(want: map<Key, string>, ad: Ad, k: Key, field: string) {
    var given := field in ad.fields && ad.fields[field] != Null;
    && (k in want <==> given)
    && (given && ad.fields[field].Bool? ==> want[k] == if ad.fields[field].b then "1" else "0")
    && (given && ad.fields[field].Int? ==> want[k] == IntText(ad.fields[field].n))
    && (given && ad.fields[field].Str? ==> want[k] == ad.fields[field].s)
  }

  method RealmOptionList(ad: Ad) returns (out: map<Key, string>)
    requires ad.servers != []
    ensures out == RealmOptions(ad)
  {
    out := map[];
    for i := 0 to |ORDER|
      invariant forall k :: k in out <==> k in ORDER[..i] && Wanted(ad, k) != Null
      invariant forall k :: k in out ==> out[k] == PveStr(Wanted(ad, k))
    {
      var k := ORDER[i];
      assert ORDER[..i + 1] == ORDER[..i] + [k];
      var value := Wanted(ad, k);
      if value != Null {
        out := out[k := PveStr(value)];
      }
    }
    assert ORDER[..|ORDER|] == ORDER;
  }

  /** _current_option: what is in force for an option, None when that is unknown. */
  function CurrentOption(current: Options, k: Key): Option<string> {
    var v := Get(current, k);
    if v == Null then BoolDefault(k) else Some(PveStr(v))
  }

  /** `--key value ...` in order, and the keys after `--delete`. */
  datatype Command =
    | RealmAdd(realm: string, options: seq<(Key, string)>)
    | RealmModify(realm: string, options: seq<(Key, string)>, deletes: seq<Key>)

  datatype Plan = Add(command: Command) | Modify(command: Command) | Settled | Refuse

  function Pairs(want: map<Key, string>, keys: seq<Key>): seq<(Key, string)>
    requires forall k :: k in keys ==> k in want
  {
    if keys == [] then [] else [(keys[0], want[keys[0]])] + Pairs(want, keys[1..])
  }

  lemma {:induction false} PairsMember(want: map<Key, string>, keys: seq<Key>, k: Key, text: string)
    requires forall x :: x in keys ==> x in want
    ensures (k, text) in Pairs(want, keys) <==> k in keys && want[k] == text
  {
    if keys == [] {
    } else {
      PairsMember(want, keys[1..], k, text);
    }
  }

  /** The wanted options, in order, that the node does not have in force. */
  function Changes(want: map<Key, string>, current: Options, keys: seq<Key>): (r: seq<Key>)
    ensures forall k :: k in r <==> k in keys && k in want && CurrentOption(current, k) != Some(want[k])
  {
    if keys == [] then []
    else (if keys[0] in want && CurrentOption(current, keys[0]) != Some(want[keys[0]]) then [keys[0]] else [])
         + Changes(want, current, keys[1..])
  }

  function Named(want: map<Key, string>, keys: seq<Key>): (r: seq<Key>)
    ensures forall k :: k in r <==> k in keys && k in want
  {
    if keys == [] then [] else (if keys[0] in want then [keys[0]] else []) + Named(want, keys[1..])
  }

  predicate StaleServer2(want: map<Key, string>, current: Options) {
    Server2 !in want && Truthy(Get(current, Server2))
  }

  /** plan_realm */
  function PlanRealm(ad: Ad, current: Option<Options>): Plan
    requires ad.servers != []
  {
    var want := RealmOptions(ad);
    match current
    case None => Add(RealmAdd(ad.realm, Pairs(want, Named(want, ORDER))))
    case Some(cur) =>
      if Get(cur, Type) != Null && Get(cur, Type) != Str("ad") then Refuse
      else
        var changes := Changes(want, cur, ORDER);
        var deletes := if StaleServer2(want, cur) then [Server2] else [];
        if changes == [] && deletes == [] then Settled
        else Modify(RealmModify(ad.realm, Pairs(want, changes), deletes))
  }

  lemma {:induction false} PairsSnoc(want: map<Key, string>, keys: seq<Key>, k: Key)
    requires k in want && forall x :: x in keys ==> x in want
    ensures Pairs(want, keys + [k]) == Pairs(want, keys) + [(k, want[k])]
  {
    if keys == [] {
      assert keys + [k] == [k] + keys;
      PairsCons(want, k, keys);
      hide Pairs;
    } else {
      hide Pairs;
      var x, rest := keys[0], keys[1..];
      assert keys == [x] + rest && keys + [k] == [x] + (rest + [k]);
      assert x in keys && forall y :: y in rest + [k] ==> y in want;
      PairsSnoc(want, rest, k);
      PairsCons(want, x, rest + [k]);
      PairsCons(want, x, rest);
    }
  }

  lemma PairsCons(want: map<Key, string>, k: Key, keys: seq<Key>)
    requires k in want && forall x :: x in keys ==> x in want
    ensures Pairs(want, [k] + keys) == [(k, want[k])] + Pairs(want, keys)
  {
    assert ([k] + keys)[1..] == keys;
  }

  lemma {:induction false} NamedSnoc(want: map<Key, string>, keys: seq<Key>, k: Key)
    ensures k in want ==> Named(want, keys + [k]) == Named(want, keys) + [k]
    ensures k !in want ==> Named(want, keys + [k]) == Named(want, keys)
  {
    if keys == [] {
      assert keys + [k] == [k] + keys;
      NamedCons(want, k, keys);
    } else {
      hide Named;
      var x, rest := keys[0], keys[1..];
      assert keys == [x] + rest && keys + [k] == [x] + (rest + [k]);
      NamedSnoc(want, rest, k);
      NamedCons(want, x, rest + [k]);
      NamedCons(want, x, rest);
    }
  }

  lemma NamedCons(want: map<Key, string>, k: Key, keys: seq<Key>)
    ensures Named(want, [k] + keys) == (if k in want then [k] else []) + Named(want, keys)
  {
    assert ([k] + keys)[1..] == keys;
  }

  /** The loops of plan_realm that append `--key value` to the argv. */
  method OptionArgs(want: map<Key, string>, keys: seq<Key>) returns (options: seq<(Key, string)>)
    ensures options == Pairs(want, Named(want, keys))
  {
    options := [];
    for i := 0 to |keys|
      invariant options == Pairs(want, Named(want, keys[..i]))
    {
      var k := keys[i];
      assert keys[..i + 1] == keys[..i] + [k];
      NamedSnoc(want, keys[..i], k);
      if k in want {
        PairsSnoc(want, Named(want, keys[..i]), k);
        options := options + [(k, want[k])];
      }
    }
    assert keys[..|keys|] == keys;
  }

  lemma {:induction false} AllNamed(want: map<Key, string>, keys: seq<Key>)
    requires forall k :: k in keys ==> k in want
    ensures Named(want, keys) == keys
  {
    if keys == [] {
    } else {
      AllNamed(want, keys[1..]);
    }
  }

  method PlanRealmCommand(ad: Ad, current: Option<Options>) returns (p: Plan)
    requires ad.servers != []
    ensures p == PlanRealm(ad, current)
  {
    hide RealmOptions, ORDER;
    var want := RealmOptionList(ad);
    if current.None? {
      var options := OptionArgs(want, ORDER);
      return Add(RealmAdd(ad.realm, options));
    }
    var cur := current.value;
    if Get(cur, Type) != Null && Get(cur, Type) != Str("ad") {
      return Refuse;
    }
    var changes := Changes(want, cur, ORDER);
    var deletes: seq<Key> := if Server2 !in want && Truthy(Get(cur, Server2)) then [Server2] else [];
    if changes == [] && deletes == [] {
      return Settled;
    }
    AllNamed(want, changes);
    var options := OptionArgs(want, changes);
    return Modify(RealmModify(ad.realm, options, deletes));
  }

  // ---- executing the command ------------------------------------------------------------

  /** The realm's section of the node's configuration: option texts. */
  type Stored = map<Key, string>

  /** `--key value` for each pair, in order. */
  function SetAll<K>(m: map<K, string>, options: seq<(K, string)>): map<K, string>
    decreases |options|
  {
    if options == [] then m else SetAll(m[options[0].0 := options[0].1], options[1..])
  }

  lemma {:induction false} SetAllUntouched<K(!new)>(m: map<K, string>, options: seq<(K, string)>, k: K)
    requires forall v :: (k, v) !in options
    ensures k in SetAll(m, options) <==> k in m
    ensures k in m ==> SetAll(m, options)[k] == m[k]
    decreases |options|
  {
    if options == [] {
    } else {
      assert options[0] == (options[0].0, options[0].1) && options[0] in options;
      assert forall o :: o in options[1..] ==> o in options;
      SetAllUntouched(m[options[0].0 := options[0].1], options[1..], k);
    }
  }

  lemma {:induction false} SetAllSets<K(!new)>(m: map<K, string>, options: seq<(K, string)>, k: K, text: string)
    requires (k, text) in options && forall v :: (k, v) in options ==> v == text
    ensures k in SetAll(m, options) && SetAll(m, options)[k] == text
    decreases |options|
  {
    var first, rest := options[0], options[1..];
    assert forall o :: o in rest ==> o in options;
    if (k, text) in rest {
      SetAllSets(m[first.0 := first.1], rest, k, text);
    } else {
      assert first == (k, text);
      SetAllUntouched(m[first.0 := first.1], rest, k);
    }
  }

  /** What the command makes of the node's configuration. */
  function ExecRealm(before: Option<Stored>, c: Command): Stored {
    match c
    case RealmAdd(_, options) => SetAll(map[Type := "ad"], options)
    case RealmModify(_, options, deletes) =>
      SetAll(if before.Some? then before.value else map[], options) - (set k | k in deletes)
  }

  /** PVE's own defaults for the boolean options. */
  datatype Defaults = Defaults(verify: bool, caseSensitive: bool, isDefault: bool)

  function PveDefault(d: Defaults, k: Key): Option<string> {
    match k
    case Verify => Some(PveStr(Bool(d.verify)))
    case CaseSensitive => Some(PveStr(Bool(d.caseSensitive)))
    case Default => Some(PveStr(Bool(d.isDefault)))
    case _ => None
  }

  /** The planner's table is the one of PVE. */
  predicate Agree(d: Defaults) { !d.verify && d.caseSensitive && !d.isDefault }

  /** What the node may show of its configuration: each known option as a value of
      the same text, a boolean one at its default perhaps not at all; and beside
      them anything else, such as a digest that changes with every write. */
  ghost predicate Reports(d: Defaults, stored: Stored, shown: Options) {
    && (forall k: Key :: !k.Other? && Get(shown, k) != Null ==>
      k in stored && PveStr(Get(shown, k)) == stored[k] && (k == Server2 ==> Get(shown, k).Str?))
    && (forall k: Key :: !k.Other? && k in stored && Get(shown, k) == Null ==> PveDefault(d, k) == Some(stored[k]))
  }

  /** The text that holds for an option: the configured one, or PVE's default. */
  function InEffect(d: Defaults, stored: Stored, k: Key): Option<string> {
    if k in stored then Some(stored[k]) else PveDefault(d, k)
  }

  /** The realm is as the config says, as far as the planner can see. */
  ghost predicate Matches(ad: Ad, cur: Options)
    requires ad.servers != []
  {
    var want := RealmOptions(ad);
    && (Get(cur, Type) == Null || Get(cur, Type) == Str("ad"))
    && (forall k :: k in want ==> CurrentOption(cur, k) == Some(want[k]))
    && !StaleServer2(want, cur)
  }

  /** Nothing is planned exactly when the realm is as the config says. */
  lemma SettledIffMatches(ad: Ad, cur: Options)
    requires ad.servers != []
    ensures PlanRealm(ad, Some(cur)) == Settled <==> Matches(ad, cur)
  {
    var want := RealmOptions(ad);
    assert forall k :: k in want ==> k in ORDER;
    hide RealmOptions, Changes, CurrentOption, StaleServer2, ORDER, Pairs;
    var changes := Changes(want, cur, ORDER);
    NoMembers(changes);
    assert changes == [] ==> forall k :: k !in changes;
  }

  /** What kind of plan it is: a realm that the node does not have is added, one of
      another type refused, one that is as wanted left alone, and any other
      modified; the command names the config's realm. */
  lemma PlanKinds(ad: Ad, current: Option<Options>)
    requires ad.servers != []
    ensures var p := PlanRealm(ad, current);
      && (p.Add? <==> current.None?)
      && (p.Refuse? <==> current.Some? && Get(current.value, Type) != Null && Get(current.value, Type) != Str("ad"))
      && (p.Settled? <==> current.Some? && Matches(ad, current.value))
      && (p.Add? || p.Modify? ==> p.command.realm == ad.realm)
      && (p.Add? <==> p.Add? && p.command.RealmAdd?) && (p.Modify? <==> p.Modify? && p.command.RealmModify?)
  {
    if current.Some? { SettledIffMatches(ad, current.value); }
    hide RealmOptions, Changes, Pairs, Named, StaleServer2, Matches, ORDER;
  }

  lemma ManagedKey(ad: Ad, k: Key)
    requires ad.servers != [] && k in RealmOptions(ad)
    ensures k in ORDER && k != Type && !k.Other?
  {}

  /** On agreeing defaults the planner sees what is in effect. */
  lemma CurrentIsInEffect(d: Defaults, stored: Stored, shown: Options, k: Key)
    requires Agree(d) && Reports(d, stored, shown) && !k.Other?
    ensures CurrentOption(shown, k) == InEffect(d, stored, k)
  {
    if Get(shown, k) == Null && k !in stored { assert BoolDefault(k) == PveDefault(d, k); }
  }

  // ---- what the planned command does ------------------------------------------------------

  /** The options of a planned command: an option is named iff it is wanted and
      not in force, and then with the wanted text. */
  lemma PlannedOptions(ad: Ad, current: Option<Options>, k: Key, text: string)
    requires ad.servers != [] && (PlanRealm(ad, current).Add? || PlanRealm(ad, current).Modify?)
    ensures var want := RealmOptions(ad);
      (k, text) in PlanRealm(ad, current).command.options <==>
      k in want && text == want[k] && (current.Some? ==> CurrentOption(current.value, k) != Some(want[k]))
  {
    if k in RealmOptions(ad) { ManagedKey(ad, k); }
    hide RealmOptions, ORDER, CurrentOption, Pairs, Named, Changes;
    var want := RealmOptions(ad);
    PairsMember(want, if current.Some? then Changes(want, current.value, ORDER) else Named(want, ORDER), k, text);
  }

  /** The second server is deleted iff the config has none and the node shows one. */
  lemma PlannedDeletes(ad: Ad, cur: Options, k: Key)
    requires ad.servers != [] && PlanRealm(ad, Some(cur)).Modify?
    ensures k in PlanRealm(ad, Some(cur)).command.deletes <==> k == Server2 && StaleServer2(RealmOptions(ad), cur)
  {
    hide RealmOptions, ORDER;
  }

  lemma SetByCommand(ad: Ad, before: Option<Stored>, current: Option<Options>, k: Key)
    requires ad.servers != [] && (PlanRealm(ad, current).Add? || PlanRealm(ad, current).Modify?)
    requires k in RealmOptions(ad) && (current.Some? ==> CurrentOption(current.value, k) != Some(RealmOptions(ad)[k]))
    ensures var after := ExecRealm(before, PlanRealm(ad, current).command);
      k in after && after[k] == RealmOptions(ad)[k]
  {
    hide RealmOptions, CurrentOption, ORDER, Pairs, Named, Changes, SetAll;
    var want, c := RealmOptions(ad), PlanRealm(ad, current).command;
    forall v ensures (k, v) in c.options <==> v == want[k] { PlannedOptions(ad, current, k, v); }
    if current.Some? { PlannedDeletes(ad, current.value, k); }
    hide PlanRealm;
    match c {
      case RealmAdd(_, options) => SetAllSets(map[Type := "ad"], options, k, want[k]);
      case RealmModify(_, options, _) => SetAllSets(if before.Some? then before.value else map[], options, k, want[k]);
    }
  }

  lemma KeptByModify(ad: Ad, before: Stored, cur: Options, k: Key)
    requires ad.servers != [] && PlanRealm(ad, Some(cur)).Modify?
    requires var want := RealmOptions(ad); k in want ==> CurrentOption(cur, k) == Some(want[k])
    requires k != Server2 || !StaleServer2(RealmOptions(ad), cur)
    ensures var after := ExecRealm(Some(before), PlanRealm(ad, Some(cur)).command);
      (k in after <==> k in before) && (k in before ==> after[k] == before[k])
  {
    var c := PlanRealm(ad, Some(cur)).command;
    forall v ensures (k, v) !in c.options { PlannedOptions(ad, Some(cur), k, v); }
    PlannedDeletes(ad, cur, k);
    hide RealmOptions, PlanRealm, CurrentOption;
    SetAllUntouched(before, c.options, k);
  }

  lemma DroppedByModify(ad: Ad, before: Stored, cur: Options)
    requires ad.servers != [] && PlanRealm(ad, Some(cur)).Modify? && StaleServer2(RealmOptions(ad), cur)
    ensures Server2 !in ExecRealm(Some(before), PlanRealm(ad, Some(cur)).command)
  {
    PlannedDeletes(ad, cur, Server2);
    hide RealmOptions, PlanRealm;
  }

  /** The planner reads a stale second server off the report iff one is stored. */
  lemma StaleIsStored(d: Defaults, want: map<Key, string>, stored: Stored, shown: Options)
    requires Reports(d, stored, shown)
    ensures StaleServer2(want, shown) <==> Server2 !in want && Server2 in stored && stored[Server2] != ""
  {
    assert PveDefault(d, Server2) == None;
  }

  /** Options the config does not name keep their text, except a second server
      that the node has and the config no longer does; that one goes. */
  lemma UnnamedOptionsKept(d: Defaults, ad: Ad, before: Stored, cur: Options, k: Key)
    requires ad.servers != [] && PlanRealm(ad, Some(cur)).Modify? && Reports(d, before, cur)
    requires k !in RealmOptions(ad)
    ensures var after := ExecRealm(Some(before), PlanRealm(ad, Some(cur)).command);
      if k == Server2 && k in before && before[k] != "" then k !in after
      else (k in after <==> k in before) && (k in before ==> after[k] == before[k])
  {
    StaleIsStored(d, RealmOptions(ad), before, cur);
    hide RealmOptions, PlanRealm;
    if k == Server2 && StaleServer2(RealmOptions(ad), cur) {
      DroppedByModify(ad, before, cur);
    } else {
      KeptByModify(ad, before, cur, k);
    }
  }

  // ---- convergence ----------------------------------------------------------------------------

  /** What is planned from: the realm does not exist, or the node shows it. */
  ghost predicate Observed(d: Defaults, before: Option<Stored>, current: Option<Options>) {
    before.Some? == current.Some? && (before.Some? ==> Reports(d, before.value, current.value))
  }

  /** After the command every wanted option is in effect. */
  lemma WantedInEffect(d: Defaults, ad: Ad, before: Option<Stored>, current: Option<Options>, k: Key)
    requires Agree(d) && ad.servers != [] && Observed(d, before, current) && k in RealmOptions(ad)
    requires PlanRealm(ad, current).Add? || PlanRealm(ad, current).Modify?
    ensures InEffect(d, ExecRealm(before, PlanRealm(ad, current).command), k) == Some(RealmOptions(ad)[k])
  {
    ManagedKey(ad, k);
    hide RealmOptions, PlanRealm, ExecRealm, ORDER, CurrentOption, Reports;
    if current.Some? && CurrentOption(current.value, k) == Some(RealmOptions(ad)[k]) {
      CurrentIsInEffect(d, before.value, current.value, k);
      AddNeedsNone(ad, current);
      KeptByModify(ad, before.value, current.value, k) by { StaleIsUnwanted(RealmOptions(ad), current.value); }
    } else {
      SetByCommand(ad, before, current, k);
    }
  }

  lemma AddNeedsNone(ad: Ad, current: Option<Options>)
    requires ad.servers != []
    ensures PlanRealm(ad, current).Add? <==> current.None?
  {}

  lemma StaleIsUnwanted(want: map<Key, string>, cur: Options)
    ensures StaleServer2(want, cur) ==> Server2 !in want
  {}

  lemma ModifyNeedsType(ad: Ad, cur: Options)
    requires ad.servers != [] && PlanRealm(ad, Some(cur)).Modify?
    ensures Get(cur, Type) == Null || Get(cur, Type) == Str("ad")
  {
    hide RealmOptions, ORDER;
  }

  lemma StoredType(d: Defaults, stored: Stored, shown: Options)
    requires Reports(d, stored, shown) && (Get(shown, Type) == Null || Get(shown, Type) == Str("ad"))
    ensures Type in stored ==> stored[Type] == "ad"
  {
    assert PveDefault(d, Type) == None;
  }

  lemma TypeAfter(d: Defaults, ad: Ad, before: Option<Stored>, current: Option<Options>)
    requires ad.servers != [] && Observed(d, before, current)
    requires PlanRealm(ad, current).Add? || PlanRealm(ad, current).Modify?
    ensures var after := ExecRealm(before, PlanRealm(ad, current).command); Type in after ==> after[Type] == "ad"
  {
    hide RealmOptions, ORDER, PlanRealm, ExecRealm, Reports, PveStr, CurrentOption;
    TypeIsUnmanaged(ad);
    AddNeedsNone(ad, current);
    match current {
      case None =>
        var c := PlanRealm(ad, current).command;
        forall v ensures (Type, v) !in c.options { PlannedOptions(ad, current, Type, v); }
        AddsToType(ad);
        AddIgnoresBefore(ad, before);
        SetAllUntouched(map[Type := "ad"], c.options, Type);
      case Some(cur) =>
        ModifyNeedsType(ad, cur);
        StoredType(d, before.value, cur);
        KeptByModify(ad, before.value, cur, Type);
    }
  }

  lemma AddIgnoresBefore(ad: Ad, before: Option<Stored>)
    requires ad.servers != []
    ensures ExecRealm(before, PlanRealm(ad, None).command) == ExecRealm(None, PlanRealm(ad, None).command)
  {}

  lemma TypeIsUnmanaged(ad: Ad)
    requires ad.servers != []
    ensures Type !in RealmOptions(ad)
  {}

  lemma Server2After(d: Defaults, ad: Ad, before: Option<Stored>, current: Option<Options>)
    requires ad.servers != [] && Observed(d, before, current) && Server2 !in RealmOptions(ad)
    requires PlanRealm(ad, current).Add? || PlanRealm(ad, current).Modify?
    ensures var after := ExecRealm(before, PlanRealm(ad, current).command); Server2 in after ==> after[Server2] == ""
  {
    AddNeedsNone(ad, current);
    hide RealmOptions, ORDER;
    var c := PlanRealm(ad, current).command;
    match current {
      case None =>
        forall v ensures (Server2, v) !in c.options { PlannedOptions(ad, current, Server2, v); }
        SetAllUntouched(map[Type := "ad"], c.options, Server2);
      case Some(cur) => UnnamedOptionsKept(d, ad, before.value, cur, Server2);
    }
  }

  /** Convergence: from whatever the node showed of its configuration, after the
      planned command and whatever the node then shows, the next plan is empty. */
  lemma RealmConverges(d: Defaults, ad: Ad, before: Option<Stored>, current: Option<Options>, after: Options)
    requires Agree(d) && ad.servers != [] && Observed(d, before, current)
    requires PlanRealm(ad, current).Add? || PlanRealm(ad, current).Modify?
    requires Reports(d, ExecRealm(before, PlanRealm(ad, current).command), after)
    ensures PlanRealm(ad, Some(after)) == Settled
  {
    var stored, want := ExecRealm(before, PlanRealm(ad, current).command), RealmOptions(ad);
    forall k | k in want ensures CurrentOption(after, k) == Some(want[k]) {
      ManagedKey(ad, k);
      CurrentIsInEffect(d, stored, after, k);
      WantedInEffect(d, ad, before, current, k);
    }
    TypeAfter(d, ad, before, current);
    StaleIsStored(d, want, stored, after);
    if Server2 !in want { Server2After(d, ad, before, current); }
    hide RealmOptions, PlanRealm, ExecRealm, CurrentOption, PveDefault;
    ShownType(d, stored, after);
    SettledIffMatches(ad, after);
  }

  lemma ShownType(d: Defaults, stored: Stored, shown: Options)
    requires Reports(d, stored, shown) && (Type in stored ==> stored[Type] == "ad")
    ensures Get(shown, Type) == Null || Get(shown, Type) == Str("ad")
  {
    TextIsText(Get(shown, Type));
  }

  lemma TextIsText(v: Value)
    ensures v != Null && PveStr(v) == "ad" ==> v == Str("ad")
  {
    assert "ad"[0] == 'a' && "0"[0] == '0' && "1"[0] == '1';
    if v.Int? {
      var t := IntText(v.n);
      assert t[0] == '-' || IsDigit(t[0]);
    }
  }

  /** With PVE's defaults d: every run of the planner converges. */
  ghost predicate ConvergesAlways(d: Defaults) {
    forall ad: Ad, before, current, after ::
      ad.servers != [] && Observed(d, before, current)
      && (PlanRealm(ad, current).Add? || PlanRealm(ad, current).Modify?)
      && Reports(d, ExecRealm(before, PlanRealm(ad, current).command), after)
      ==> PlanRealm(ad, Some(after)) == Settled
  }

  /** A realm with one server and one boolean option. */
  function SmallRealm(k: Key, b: bool): Ad { Ad("corp", ["dc1"], map[Field(k) := Bool(b)]) }

  lemma RealmOptionIs(ad: Ad, k: Key)
    requires ad.servers != []
    ensures k in RealmOptions(ad) <==> k in ORDER && Wanted(ad, k) != Null
    ensures k in RealmOptions(ad) ==> RealmOptions(ad)[k] == PveStr(Wanted(ad, k))
  {
    hide ORDER, Wanted, PveStr;
  }

  lemma FieldsDiffer(k: Key, x: Key)
    requires k in {Verify, CaseSensitive, Default} && x in ORDER && x != k
    ensures Field(k) != Field(x)
  {
    assert |"verify"| == 6 && |"case_sensitive"| == 14 && |"default_realm"| == 13 && |"sync_attributes"| == 15;
    assert |"sync_defaults_options"| == 21 && |"domain"| == 6 && |"server1"| == 7 && |"server2"| == 7 && |"port"| == 4;
    assert |"mode"| == 4 && |"base_dn"| == 7 && |"bind_dn"| == 7 && |"user_filter"| == 11 && |"group_filter"| == 12;
    assert |"comment"| == 7 && "domain"[0] == 'd' && "verify"[0] == 'v';
  }

  lemma SmallWanted(k: Key, b: bool, x: Key)
    requires k in {Verify, CaseSensitive, Default} && x in ORDER
    ensures Wanted(SmallRealm(k, b), x) == if x == Server1 then Str("dc1") else if x == k then Bool(b) else Null
  {
    if x != k { FieldsDiffer(k, x); }
    hide Field, ORDER;
  }

  lemma SmallOrder(k: Key)
    requires k in {Verify, CaseSensitive, Default}
    ensures Server1 in ORDER && k in ORDER && PveStr(Str("dc1")) == "dc1"
  {}

  function SmallOptions(k: Key, b: bool): map<Key, string> { map[Server1 := "dc1", k := PveStr(Bool(b))] }

  lemma SmallWantAt(k: Key, b: bool, x: Key)
    requires k in {Verify, CaseSensitive, Default}
    requires SmallRealm(k, b).servers != []
    ensures x in RealmOptions(SmallRealm(k, b)) <==> x in SmallOptions(k, b)
    ensures x in SmallOptions(k, b) ==> RealmOptions(SmallRealm(k, b))[x] == SmallOptions(k, b)[x]
  {
    hide RealmOptions, Wanted, SmallRealm, PveStr, ORDER, Get;
    SmallOrder(k);
    RealmOptionIs(SmallRealm(k, b), x);
    if x in ORDER { SmallWanted(k, b, x); }
  }

  lemma SmallWant(k: Key, b: bool)
    requires k in {Verify, CaseSensitive, Default}
    ensures SmallRealm(k, b).servers != []
    ensures RealmOptions(SmallRealm(k, b)) == SmallOptions(k, b)
    ensures k in SmallOptions(k, b) && SmallOptions(k, b)[k] == PveStr(Bool(b))
  {
    assert SmallRealm(k, b).servers != [];
    assert k in SmallOptions(k, b) && SmallOptions(k, b)[k] == PveStr(Bool(b));
    hide *;
    forall x { SmallWantAt(k, b, x); }
  }

  lemma AddsToType(ad: Ad)
    requires ad.servers != []
    ensures PlanRealm(ad, None).Add?
    ensures var c := PlanRealm(ad, None).command; ExecRealm(None, c) == SetAll(map[Type := "ad"], c.options)
  {}

  /** A new realm has its type and the wanted options. */
  lemma AddStores(ad: Ad)
    requires ad.servers != []
    ensures ExecRealm(None, PlanRealm(ad, None).command) == map[Type := "ad"] + RealmOptions(ad)
  {
    hide RealmOptions, PlanRealm, ExecRealm, ORDER;
    AddsToType(ad);
    TypeIsUnmanaged(ad);
    var c := PlanRealm(ad, None).command;
    var stored, both := ExecRealm(None, c), map[Type := "ad"] + RealmOptions(ad);
    forall x ensures (x in stored <==> x in both) && (x in stored ==> stored[x] == both[x]) {
      if x in RealmOptions(ad) {
        SetByCommand(ad, None, None, x);
      } else {
        forall v ensures (x, v) !in c.options { PlannedOptions(ad, None, x, v); }
        SetAllUntouched(map[Type := "ad"], c.options, x);
      }
    }
  }

  /** The report of that realm without the option. */
  const SMALL_REPORT: Options := map[Type := Str("ad"), Server1 := Str("dc1")]

  lemma SmallReport(d: Defaults, k: Key, b: bool, want: map<Key, string>)
    requires k in {Verify, CaseSensitive, Default} && PveDefault(d, k) == Some(PveStr(Bool(b)))
    requires want == SmallOptions(k, b)
    ensures Reports(d, map[Type := "ad"] + want, SMALL_REPORT)
    ensures CurrentOption(SMALL_REPORT, k) == BoolDefault(k)
  {}

  lemma UnsettledReport(d: Defaults, ad: Ad, after: Options)
    requires ad.servers != [] && PlanRealm(ad, None).Add? && PlanRealm(ad, Some(after)) != Settled
    requires Reports(d, ExecRealm(None, PlanRealm(ad, None).command), after)
    ensures !ConvergesAlways(d)
  {
    hide PlanRealm, ExecRealm, Reports;
    assert Observed(d, None, None);
  }

  lemma OptionUnsettled(ad: Ad, after: Options, k: Key)
    requires ad.servers != [] && k in RealmOptions(ad) && CurrentOption(after, k) != Some(RealmOptions(ad)[k])
    ensures PlanRealm(ad, Some(after)) != Settled
  {
    hide PlanRealm, RealmOptions, CurrentOption;
    SettledIffMatches(ad, after);
  }

  /** The planner keeps modifying an option at a default that it does not know. */
  lemma UnknownDefaultNeverSettles(d: Defaults, k: Key, b: bool)
    requires k in {Verify, CaseSensitive, Default}
    requires PveDefault(d, k) == Some(PveStr(Bool(b))) && BoolDefault(k) != PveDefault(d, k)
    ensures !ConvergesAlways(d)
  {
    hide *;
    var ad := SmallRealm(k, b);
    SmallWant(k, b);
    AddStores(ad);
    AddsToType(ad);
    SmallReport(d, k, b, RealmOptions(ad));
    OptionUnsettled(ad, SMALL_REPORT, k);
    UnsettledReport(d, ad, SMALL_REPORT);
  }

  /** The plans converge for all configs, nodes and reports, iff PVE's boolean
      defaults are those of the planner. */
  lemma ConvergesIffDefaultsAgree(d: Defaults)
    ensures ConvergesAlways(d) <==> Agree(d)
  {
    if Agree(d) {
      forall ad: Ad, before, current, after |
        ad.servers != [] && Observed(d, before, current)
        && (PlanRealm(ad, current).Add? || PlanRealm(ad, current).Modify?)
        && Reports(d, ExecRealm(before, PlanRealm(ad, current).command), after)
        ensures PlanRealm(ad, Some(after)) == Settled
      {
        RealmConverges(d, ad, before, current, after);
      }
    } else if d.verify {
      UnknownDefaultNeverSettles(d, Verify, true);
    } else if !d.caseSensitive {
      UnknownDefaultNeverSettles(d, CaseSensitive, false);
    } else {
      UnknownDefaultNeverSettles(d, Default, true);
    }
  }

  // ---- the sync job ---------------------------------------------------------------------

  /** Options of a realm-sync job. */
  datatype JobKey = JobRealm | Schedule | Scope | EnableNew | RemoveVanished | Enabled | OtherJobKey(name: string)

  type JobOptions = map<JobKey, Value>

  /** The validated sync_job section. */
  datatype Job = Job(name: string, schedule: string, scope: string, enableNew: Option<bool>,
                     removeVanished: Option<string>)

  /** An entry of the node's job list. */
  datatype JobEntry = JobEntry(id: string, options: JobOptions)

  datatype JobCommand =
    | JobCreate(id: string, realm: string, options: seq<(JobKey, string)>)
    | JobSet(id: string, options: seq<(JobKey, string)>)

  datatype JobPlan = CreateJob(command: JobCommand) | SetJob(command: JobCommand) | JobSettled | JobRefuse

  /** The wanted options in the order the code adds them. */
  function JobWant(job: Job): seq<(JobKey, string)> {
    [(Schedule, job.schedule), (Scope, job.scope)]
    + (if job.enableNew.Some? then [(EnableNew, PveStr(Bool(job.enableNew.value)))] else [])
    + (if job.removeVanished.Some? && job.removeVanished.value != ""
       then [(RemoveVanished, job.removeVanished.value)] else [])
  }

  function FirstJob(jobs: seq<JobEntry>, id: string): Option<JobOptions> {
    if jobs == [] then None else if jobs[0].id == id then Some(jobs[0].options) else FirstJob(jobs[1..], id)
  }

  function JobChanges(want: seq<(JobKey, string)>, cur: JobOptions): (r: seq<(JobKey, string)>)
    ensures forall o :: o in r <==> o in want && PveStr(Get(cur, o.0)) != o.1
  {
    if want == [] then []
    else (if PveStr(Get(cur, want[0].0)) != want[0].1 then [want[0]] else []) + JobChanges(want[1..], cur)
  }

  /** A job runs unless it says otherwise. */
  predicate IsEnabled(cur: JobOptions) { Enabled !in cur || PveStr(cur[Enabled]) == "1" }

  /** plan_sync_job */
  function PlanSyncJob(realm: string, job: Job, jobs: seq<JobEntry>): JobPlan {
    match FirstJob(jobs, job.name)
    case None => CreateJob(JobCreate(job.name, realm, JobWant(job)))
    case Some(cur) =>
      if Get(cur, JobRealm) != Str(realm) then JobRefuse
      else
        var changes := JobChanges(JobWant(job), cur) + if IsEnabled(cur) then [] else [(Enabled, "1")];
        if changes == [] then JobSettled else SetJob(JobSet(job.name, changes))
  }

  /** The job's section of the node's configuration. */
  type StoredJob = map<JobKey, string>

  /** What the command makes of it. */
  function ExecJob(before: Option<StoredJob>, c: JobCommand): StoredJob {
    match c
    case JobCreate(_, realm, options) => SetAll(map[JobRealm := realm], options)
    case JobSet(_, options) => SetAll(if before.Some? then before.value else map[], options)
  }

  /** What the node may show of it: options as values of the stored text, the
      realm always and as text, a running job's switch perhaps as 1 although it
      is not stored; and beside them anything else, such as the next run. */
  ghost predicate JobShows(stored: StoredJob, shown: JobOptions) {
    && (forall k: JobKey :: !k.OtherJobKey? && k in shown ==>
      if k in stored then PveStr(shown[k]) == stored[k] && (k == JobRealm ==> shown[k].Str?)
      else k == Enabled && PveStr(shown[k]) == "1")
    && (JobRealm in stored ==> JobRealm in shown)
    && (Enabled in stored && Enabled !in shown ==> stored[Enabled] == "1")
  }

  /** It shows every stored option, but perhaps not the switch of a running job. */
  ghost predicate JobReports(stored: StoredJob, shown: JobOptions) {
    JobShows(stored, shown) && forall k: JobKey :: !k.OtherJobKey? && k in stored && k != Enabled ==> k in shown
  }

  /** The node reports every wanted option with the wanted text, and the job runs. */
  ghost predicate JobMatches(realm: string, job: Job, cur: JobOptions) {
    && Get(cur, JobRealm) == Str(realm)
    && (forall o :: o in JobWant(job) ==> PveStr(Get(cur, o.0)) == o.1)
    && IsEnabled(cur)
  }

  /** Nothing is planned exactly when the node reports the wanted job; an option
      the node leaves out of its report counts as different. */
  lemma JobSettledIffMatches(realm: string, job: Job, jobs: seq<JobEntry>)
    ensures PlanSyncJob(realm, job, jobs) == JobSettled <==>
            FirstJob(jobs, job.name).Some? && JobMatches(realm, job, FirstJob(jobs, job.name).value)
  {
    hide JobWant;
    if FirstJob(jobs, job.name).Some? {
      var cur := FirstJob(jobs, job.name).value;
      var changes := JobChanges(JobWant(job), cur);
      NoMembers(changes);
      assert changes == [] ==> forall o :: o !in changes;
    }
  }

  /** The wanted options of a job: its schedule and scope under their own names, the
      switch for new entries as 1 or 0 where it is given, and what to remove where
      that is not empty. */
  lemma JobWants(job: Job, k: JobKey, text: string)
    ensures (k, text) in JobWant(job) <==>
      || (k == Schedule && text == job.schedule) || (k == Scope && text == job.scope)
      || (k == EnableNew && job.enableNew.Some? && text == if job.enableNew.value then "1" else "0")
      || (k == RemoveVanished && job.removeVanished == Some(text) && text != "")
  {
    assert PveStr(Bool(true)) == "1" && PveStr(Bool(false)) == "0";
  }

  /** A job that the node does not have is created for the realm, one of another
      realm refused; the command names the config's job. */
  lemma JobPlanIs(realm: string, job: Job, jobs: seq<JobEntry>)
    ensures var p, current := PlanSyncJob(realm, job, jobs), FirstJob(jobs, job.name);
      && (p.CreateJob? <==> current.None?)
      && (p.JobRefuse? <==> current.Some? && Get(current.value, JobRealm) != Str(realm))
      && (p.CreateJob? ==> p.command.JobCreate? && p.command.id == job.name && p.command.realm == realm)
      && (p.SetJob? ==> p.command.JobSet? && p.command.id == job.name)
  {
    hide JobWant, JobChanges, IsEnabled;
  }

  /** The first entry of the list with the job's id counts. */
  lemma {:induction false} FirstJobFound(jobs: seq<JobEntry>, id: string)
    ensures FirstJob(jobs, id) == var found := Find((j: JobEntry) => j.id == id, jobs);
      if found.Some? then Some(found.value.options) else None
  {
    if jobs == [] {
    } else {
      FirstJobFound(jobs[1..], id);
    }
  }

  /** The planner knows no default of a job option: one that the node leaves out
      is planned again and again. */
  lemma OmittedJobOptionUnsettled(realm: string, job: Job, jobs: seq<JobEntry>, o: (JobKey, string))
    requires FirstJob(jobs, job.name).Some? && o in JobWant(job) && o.1 != "None"
    requires Get(FirstJob(jobs, job.name).value, o.0) == Null
    ensures PlanSyncJob(realm, job, jobs) != JobSettled
  {
    JobSettledIffMatches(realm, job, jobs);
  }

  lemma WantedJobKeys(job: Job, o: (JobKey, string), o': (JobKey, string))
    requires o in JobWant(job) && o' in JobWant(job)
    ensures o.0 != JobRealm && o.0 != Enabled && !o.0.OtherJobKey? && (o.0 == o'.0 ==> o == o')
  {}

  /** The switch that a stored job has. */
  predicate Runs(stored: StoredJob) { Enabled !in stored || stored[Enabled] == "1" }

  lemma EnabledIsShown(stored: StoredJob, shown: JobOptions)
    requires JobShows(stored, shown)
    ensures IsEnabled(shown) <==> Runs(stored)
  {}

  ghost predicate JobObserved(before: Option<StoredJob>, current: Option<JobOptions>) {
    before.Some? == current.Some? && (before.Some? ==> JobShows(before.value, current.value))
  }

  ghost predicate JobFullyObserved(before: Option<StoredJob>, current: Option<JobOptions>) {
    before.Some? == current.Some? && (before.Some? ==> JobReports(before.value, current.value))
  }

  /** The options of a planned command: an option is named iff it is wanted and
      shown with another text, and then with the wanted text; the switch iff it
      is off. */
  lemma PlannedJobOptions(realm: string, job: Job, jobs: seq<JobEntry>, o: (JobKey, string))
    requires PlanSyncJob(realm, job, jobs).CreateJob? || PlanSyncJob(realm, job, jobs).SetJob?
    ensures var current := FirstJob(jobs, job.name);
      o in PlanSyncJob(realm, job, jobs).command.options <==>
        || (o in JobWant(job) && (current.Some? ==> PveStr(Get(current.value, o.0)) != o.1))
        || (current.Some? && !IsEnabled(current.value) && o == (Enabled, "1"))
  {
    hide JobWant, PveStr;
  }

  lemma JobPlanKinds(realm: string, job: Job, jobs: seq<JobEntry>)
    ensures var p, current := PlanSyncJob(realm, job, jobs), FirstJob(jobs, job.name);
      && (p.CreateJob? ==> current.None? && p.command.JobCreate? && p.command.realm == realm)
      && (p.SetJob? ==> current.Some? && p.command.JobSet? && Get(current.value, JobRealm) == Str(realm))
  {}

  /** The job as it was when the plan was made. */
  function JobBase(before: Option<StoredJob>, c: JobCommand): StoredJob {
    if c.JobCreate? then map[JobRealm := c.realm] else if before.Some? then before.value else map[]
  }

  lemma ExecJobIs(before: Option<StoredJob>, c: JobCommand)
    ensures ExecJob(before, c) == SetAll(JobBase(before, c), c.options)
  {}

  /** Every wanted option is stored with the wanted text afterwards. */
  lemma WantedJobStored(realm: string, job: Job, before: Option<StoredJob>, jobs: seq<JobEntry>, o: (JobKey, string))
    requires PlanSyncJob(realm, job, jobs).CreateJob? || PlanSyncJob(realm, job, jobs).SetJob?
    requires JobObserved(before, FirstJob(jobs, job.name)) && o in JobWant(job)
    requires (FirstJob(jobs, job.name).Some? && PveStr(Get(FirstJob(jobs, job.name).value, o.0)) == o.1) ==>
      o.0 in FirstJob(jobs, job.name).value
    ensures var after := ExecJob(before, PlanSyncJob(realm, job, jobs).command); o.0 in after && after[o.0] == o.1
  {
    var c, current := PlanSyncJob(realm, job, jobs).command, FirstJob(jobs, job.name);
    WantedJobKeys(job, o, o);
    forall v ensures (o.0, v) in c.options ==> v == o.1 {
      PlannedJobOptions(realm, job, jobs, (o.0, v));
      if (o.0, v) in JobWant(job) { WantedJobKeys(job, (o.0, v), o); }
    }
    PlannedJobOptions(realm, job, jobs, o);
    JobPlanKinds(realm, job, jobs);
    ExecJobIs(before, c);
    hide PlanSyncJob, JobWant, ExecJob, PveStr, FirstJob;
    assert o == (o.0, o.1);
    if o in c.options {
      SetAllSets(JobBase(before, c), c.options, o.0, o.1);
    } else {
      assert forall v :: (o.0, v) in c.options ==> v == o.1;
      SetAllUntouched(JobBase(before, c), c.options, o.0);
    }
  }

  /** Options the config does not name keep their text; the switch is only ever
      turned on. */
  lemma UnnamedJobOptionsKept(realm: string, job: Job, before: Option<StoredJob>, jobs: seq<JobEntry>, k: JobKey)
    requires PlanSyncJob(realm, job, jobs).SetJob? && JobObserved(before, FirstJob(jobs, job.name))
    requires forall v :: (k, v) !in JobWant(job)
    ensures var after := ExecJob(before, PlanSyncJob(realm, job, jobs).command);
      && before.Some?
      && if k == Enabled && !Runs(before.value) then k in after && after[k] == "1"
         else (k in after <==> k in before.value) && (k in after ==> after[k] == before.value[k])
  {
    var c, current := PlanSyncJob(realm, job, jobs).command, FirstJob(jobs, job.name);
    JobPlanKinds(realm, job, jobs);
    ExecJobIs(before, c);
    EnabledIsShown(before.value, current.value);
    forall v ensures (k, v) in c.options <==> k == Enabled && v == "1" && !Runs(before.value) {
      PlannedJobOptions(realm, job, jobs, (k, v));
    }
    hide PlanSyncJob, JobWant, ExecJob, PveStr, FirstJob, IsEnabled, JobReports;
    if k == Enabled && !Runs(before.value) {
      SetAllSets(JobBase(before, c), c.options, k, "1");
    } else {
      SetAllUntouched(JobBase(before, c), c.options, k);
    }
  }

  /** An option that neither the node has nor the command names stays away. */
  lemma MissingJobOptionStays(realm: string, job: Job, before: Option<StoredJob>, jobs: seq<JobEntry>, k: JobKey)
    requires PlanSyncJob(realm, job, jobs).SetJob? && JobFullyObserved(before, FirstJob(jobs, job.name))
    requires k != Enabled && !k.OtherJobKey? && k !in FirstJob(jobs, job.name).value
    requires forall v :: (k, v) in JobWant(job) ==> v == "None"
    ensures k !in ExecJob(before, PlanSyncJob(realm, job, jobs).command)
  {
    var c, current := PlanSyncJob(realm, job, jobs).command, FirstJob(jobs, job.name);
    JobPlanKinds(realm, job, jobs);
    ExecJobIs(before, c);
    assert PveStr(Get(current.value, k)) == "None";
    forall v ensures (k, v) !in c.options { PlannedJobOptions(realm, job, jobs, (k, v)); }
    hide PlanSyncJob, JobWant, ExecJob, PveStr, FirstJob;
    SetAllUntouched(JobBase(before, c), c.options, k);
  }

  /** What the next report says of a wanted option. */
  lemma WantedJobShown(realm: string, job: Job, before: Option<StoredJob>, jobs: seq<JobEntry>, after: JobOptions,
                       o: (JobKey, string))
    requires PlanSyncJob(realm, job, jobs).CreateJob? || PlanSyncJob(realm, job, jobs).SetJob?
    requires JobFullyObserved(before, FirstJob(jobs, job.name)) && o in JobWant(job)
    requires JobReports(ExecJob(before, PlanSyncJob(realm, job, jobs).command), after)
    ensures PveStr(Get(after, o.0)) == o.1
  {
    var current := FirstJob(jobs, job.name);
    WantedJobKeys(job, o, o);
    JobPlanKinds(realm, job, jobs);
    if current.Some? && o.0 !in current.value && o.1 == "None" {
      forall v | (o.0, v) in JobWant(job) ensures v == "None" { WantedJobKeys(job, (o.0, v), o); }
      hide PlanSyncJob, JobWant, ExecJob, FirstJob;
      MissingJobOptionStays(realm, job, before, jobs, o.0);
    } else {
      hide PlanSyncJob, JobWant, ExecJob, FirstJob;
      WantedJobStored(realm, job, before, jobs, o);
      assert o.0 in after;
    }
  }

  /** The realm stays, and the job runs. */
  lemma JobRealmStored(realm: string, job: Job, before: Option<StoredJob>, jobs: seq<JobEntry>)
    requires PlanSyncJob(realm, job, jobs).CreateJob? || PlanSyncJob(realm, job, jobs).SetJob?
    requires JobObserved(before, FirstJob(jobs, job.name))
    ensures var after := ExecJob(before, PlanSyncJob(realm, job, jobs).command);
      JobRealm in after && after[JobRealm] == realm && Runs(after)
  {
    var p := PlanSyncJob(realm, job, jobs);
    JobPlanKinds(realm, job, jobs);
    forall o | o in JobWant(job) ensures o.0 != JobRealm && o.0 != Enabled { WantedJobKeys(job, o, o); }
    if p.CreateJob? {
      forall k, v | k == JobRealm || k == Enabled ensures (k, v) !in p.command.options {
        PlannedJobOptions(realm, job, jobs, (k, v));
      }
      ExecJobIs(before, p.command);
      hide PlanSyncJob, JobWant, ExecJob;
      SetAllUntouched(JobBase(before, p.command), p.command.options, JobRealm);
      SetAllUntouched(JobBase(before, p.command), p.command.options, Enabled);
    } else {
      hide PlanSyncJob, JobWant, ExecJob;
      UnnamedJobOptionsKept(realm, job, before, jobs, JobRealm);
      UnnamedJobOptionsKept(realm, job, before, jobs, Enabled);
    }
  }

  /** Convergence of the sync job: after the planned command and whatever the
      node then shows of the job, the next plan is empty. */
  lemma SyncJobConverges(realm: string, job: Job, before: Option<StoredJob>, jobs: seq<JobEntry>, jobs': seq<JobEntry>)
    requires PlanSyncJob(realm, job, jobs).CreateJob? || PlanSyncJob(realm, job, jobs).SetJob?
    requires JobFullyObserved(before, FirstJob(jobs, job.name))
    requires FirstJob(jobs', job.name).Some?
    requires JobReports(ExecJob(before, PlanSyncJob(realm, job, jobs).command), FirstJob(jobs', job.name).value)
    ensures PlanSyncJob(realm, job, jobs') == JobSettled
  {
    hide PlanSyncJob, JobWant, ExecJob, FirstJob;
    var stored, after := ExecJob(before, PlanSyncJob(realm, job, jobs).command), FirstJob(jobs', job.name).value;
    forall o | o in JobWant(job) ensures PveStr(Get(after, o.0)) == o.1 {
      WantedJobShown(realm, job, before, jobs, after, o);
    }
    JobRealmStored(realm, job, before, jobs);
    EnabledIsShown(stored, after);
    assert JobRealm in after;
    JobSettledIffMatches(realm, job, jobs');
  }

  /** No option is wanted with the text that the planner reads off a missing one. */
  ghost predicate NoNone(job: Job) { forall o :: o in JobWant(job) ==> o.1 != "None" }

  /** For reports that may leave options out, before and after: the next plan is
      empty iff the report after the command shows every wanted option. */
  lemma JobSettlesIffShown(realm: string, job: Job, before: Option<StoredJob>, jobs: seq<JobEntry>,
                           jobs': seq<JobEntry>)
    requires PlanSyncJob(realm, job, jobs).CreateJob? || PlanSyncJob(realm, job, jobs).SetJob?
    requires JobObserved(before, FirstJob(jobs, job.name)) && NoNone(job)
    requires FirstJob(jobs', job.name).Some?
    requires JobShows(ExecJob(before, PlanSyncJob(realm, job, jobs).command), FirstJob(jobs', job.name).value)
    ensures PlanSyncJob(realm, job, jobs') == JobSettled <==>
      forall o :: o in JobWant(job) ==> o.0 in FirstJob(jobs', job.name).value
  {
    hide PlanSyncJob, JobWant, ExecJob, FirstJob;
    var stored, after := ExecJob(before, PlanSyncJob(realm, job, jobs).command), FirstJob(jobs', job.name).value;
    forall o | o in JobWant(job) ensures o.0 in after <==> PveStr(Get(after, o.0)) == o.1 {
      WantedJobKeys(job, o, o);
      WantedJobStored(realm, job, before, jobs, o);
    }
    JobRealmStored(realm, job, before, jobs);
    EnabledIsShown(stored, after);
    JobSettledIffMatches(realm, job, jobs');
  }
}
