/** The argument lists that the planned realm and sync-job commands are run as, and
    a reader of them (jobs/lib/host_baseline.py plan_realm, plan_sync_job). */
module RealmArgv {
  import opened Prelude
  import opened Realm

  // ---- printing -----------------------------------------------------------------------------

  /** The name of an option in PVE. */
  function OptionName(k: Key): string {
    match k
    case Type => "type"
    case Domain => "domain"
    case Server1 => "server1"
    case Server2 => "server2"
    case Port => "port"
    case Mode => "mode"
    case Verify => "verify"
    case BaseDn => "base_dn"
    case BindDn => "bind_dn"
    case UserFilter => "filter"
    case GroupFilter => "group_filter"
    case SyncAttributes => "sync_attributes"
    case SyncDefaults => "sync-defaults-options"
    case CaseSensitive => "case-sensitive"
    case Comment => "comment"
    case Default => "default"
    case Other(name) => name
  }

  function Flags(options: seq<(Key, string)>): seq<string> {
    if options == [] then [] else ["--" + OptionName(options[0].0), options[0].1] + Flags(options[1..])
  }

  function RealmArgs(c: Command): seq<string> {
    match c
    case RealmAdd(realm, options) => ["pveum", "realm", "add", realm, "--type", "ad"] + Flags(options)
    case RealmModify(realm, options, deletes) =>
      ["pveum", "realm", "modify", realm] + Flags(options)
      + if deletes == [] then [] else ["--delete", Join(",", Map(OptionName, deletes))]
  }

  function JobOptionName(k: JobKey): string {
    match k
    case JobRealm => "realm"
    case Schedule => "schedule"
    case Scope => "scope"
    case EnableNew => "enable-new"
    case RemoveVanished => "remove-vanished"
    case Enabled => "enabled"
    case OtherJobKey(name) => name
  }

  function JobFlags(options: seq<(JobKey, string)>): seq<string> {
    if options == [] then [] else ["--" + JobOptionName(options[0].0), options[0].1] + JobFlags(options[1..])
  }

  const JOBS := "/cluster/jobs/realm-sync/"

  function JobArgs(c: JobCommand): seq<string> {
    match c
    case JobCreate(id, realm, options) => ["pvesh", "create", JOBS + id, "--realm", realm] + JobFlags(options)
    case JobSet(id, options) => ["pvesh", "set", JOBS + id] + JobFlags(options)
  }

  // ---- reading -------------------------------------------------------------------------------

  function KeyNamed(s: string): Option<Key> {
    if s == "domain" then Some(Domain)
    else if s == "server1" then Some(Server1)
    else if s == "server2" then Some(Server2)
    else if s == "port" then Some(Port)
    else if s == "mode" then Some(Mode)
    else if s == "verify" then Some(Verify)
    else if s == "base_dn" then Some(BaseDn)
    else if s == "bind_dn" then Some(BindDn)
    else if s == "filter" then Some(UserFilter)
    else if s == "group_filter" then Some(GroupFilter)
    else if s == "sync_attributes" then Some(SyncAttributes)
    else if s == "sync-defaults-options" then Some(SyncDefaults)
    else if s == "case-sensitive" then Some(CaseSensitive)
    else if s == "comment" then Some(Comment)
    else if s == "default" then Some(Default)
    else None
  }

  /** The options that the flags set, in order, and the keys after --delete. */
  function ReadFlags(args: seq<string>): Option<(seq<(Key, string)>, seq<Key>)> {
    if args == [] then Some(([], []))
    else if |args| < 2 || !StartsWith(args[0], "--") then None
    else if args[0] == "--delete" then
      if |args| == 2 && args[1] == "server2" then Some(([], [Server2])) else None
    else
      var key, rest := KeyNamed(args[0][2..]), ReadFlags(args[2..]);
      if key.Some? && rest.Some? then Some(([(key.value, args[1])] + rest.value.0, rest.value.1)) else None
  }

  function ReadRealmArgs(args: seq<string>): Option<Command> {
    if |args| >= 6 && args[..3] == ["pveum", "realm", "add"] && args[4..6] == ["--type", "ad"] then
      var flags := ReadFlags(args[6..]);
      if flags.Some? && flags.value.1 == [] then Some(RealmAdd(args[3], flags.value.0)) else None
    else if |args| >= 4 && args[..3] == ["pveum", "realm", "modify"] then
      var flags := ReadFlags(args[4..]);
      if flags.Some? then Some(RealmModify(args[3], flags.value.0, flags.value.1)) else None
    else None
  }

  function JobKeyNamed(s: string): Option<JobKey> {
    if s == "schedule" then Some(Schedule)
    else if s == "scope" then Some(Scope)
    else if s == "enable-new" then Some(EnableNew)
    else if s == "remove-vanished" then Some(RemoveVanished)
    else if s == "enabled" then Some(Enabled)
    else None
  }

  function ReadJobFlags(args: seq<string>): Option<seq<(JobKey, string)>> {
    if args == [] then Some([])
    else if |args| < 2 || !StartsWith(args[0], "--") then None
    else
      var key, rest := JobKeyNamed(args[0][2..]), ReadJobFlags(args[2..]);
      if key.Some? && rest.Some? then Some([(key.value, args[1])] + rest.value) else None
  }

  function ReadJobArgs(args: seq<string>): Option<JobCommand> {
    if |args| >= 5 && args[..2] == ["pvesh", "create"] && StartsWith(args[2], JOBS) && args[3] == "--realm" then
      var flags := ReadJobFlags(args[5..]);
      if flags.Some? then Some(JobCreate(args[2][|JOBS|..], args[4], flags.value)) else None
    else if |args| >= 3 && args[..2] == ["pvesh", "set"] && StartsWith(args[2], JOBS) then
      var flags := ReadJobFlags(args[3..]);
      if flags.Some? then Some(JobSet(args[2][|JOBS|..], flags.value)) else None
    else None
  }

  // ---- reading what was printed -----------------------------------------------------------------

  lemma NameSizes()
    ensures |"domain"| == 6 && |"server1"| == 7 && |"server2"| == 7 && |"port"| == 4 && |"mode"| == 4
    ensures |"verify"| == 6 && |"base_dn"| == 7 && |"bind_dn"| == 7 && |"filter"| == 6 && |"group_filter"| == 12
    ensures |"sync_attributes"| == 15 && |"sync-defaults-options"| == 21 && |"case-sensitive"| == 14
    ensures |"comment"| == 7 && |"default"| == 7 && |"delete"| == 6
  {}

  lemma OptionReads(k: Key)
    requires k in ORDER
    ensures KeyNamed(OptionName(k)) == Some(k) && OptionName(k) != "delete"
  {
    hide KeyNamed, OptionName;
    match k {
      case Domain => ShortReads(k);
      case Verify => ShortReads(k);
      case UserFilter => ShortReads(k);
      case Port => ShortReads(k);
      case Mode => ShortReads(k);
      case Server1 => SevenReads(k);
      case Server2 => SevenReads(k);
      case BaseDn => SevenReads(k);
      case BindDn => SevenReads(k);
      case Comment => SevenReads(k);
      case Default => SevenReads(k);
      case _ => LongReads(k);
    }
  }

  lemma ShortReads(k: Key)
    requires k in {Domain, Verify, UserFilter, Port, Mode}
    ensures KeyNamed(OptionName(k)) == Some(k) && OptionName(k) != "delete"
  {
    NameSizes();
    assert "domain"[0] == 'd' && "verify"[0] == 'v' && "filter"[0] == 'f' && "delete"[1] == 'e' && "domain"[1] == 'o';
    assert "port"[0] == 'p' && "mode"[0] == 'm';
  }

  lemma SevenReads(k: Key)
    requires k in {Server1, Server2, BaseDn, BindDn, Comment, Default}
    ensures KeyNamed(OptionName(k)) == Some(k) && OptionName(k) != "delete"
  {
    NameSizes();
    assert "server1"[6] == '1' && "server2"[6] == '2' && "server1"[0] == 's' && "server2"[0] == 's';
    assert "base_dn"[1] == 'a' && "bind_dn"[1] == 'i' && "base_dn"[0] == 'b' && "bind_dn"[0] == 'b';
    assert "comment"[0] == 'c' && "default"[0] == 'd';
  }

  lemma LongReads(k: Key)
    requires k in {GroupFilter, SyncAttributes, SyncDefaults, CaseSensitive}
    ensures KeyNamed(OptionName(k)) == Some(k) && OptionName(k) != "delete"
  {
    NameSizes();
  }

  lemma FlagWord(name: string)
    ensures StartsWith("--" + name, "--") && ("--" + name)[2..] == name
    ensures "--" + name == "--delete" <==> name == "delete"
  {
    assert "--delete"[2..] == "delete";
  }

  lemma {:induction false} FlagsRead(options: seq<(Key, string)>, tail: seq<string>, deletes: seq<Key>)
    requires forall o :: o in options ==> o.0 in ORDER
    requires ReadFlags(tail) == Some(([], deletes))
    ensures ReadFlags(Flags(options) + tail) == Some((options, deletes))
  {
    hide OptionName, KeyNamed, ORDER;
    if options == [] {
      assert Flags(options) + tail == tail;
    } else {
      var (k, text) := options[0];
      assert options[0] in options && options == [(k, text)] + options[1..];
      OptionReads(k);
      FlagWord(OptionName(k));
      FlagsRead(options[1..], tail, deletes);
      var args := Flags(options) + tail;
      assert args[0] == "--" + OptionName(k) && args[1] == text && args[2..] == Flags(options[1..]) + tail;
    }
  }

  lemma DeleteReads(deletes: seq<Key>)
    requires deletes == [] || deletes == [Server2]
    ensures ReadFlags(if deletes == [] then [] else ["--delete", Join(",", Map(OptionName, deletes))])
      == Some(([], deletes))
  {
    if deletes == [Server2] {
      assert deletes[1..] == [];
      FlagWord("delete");
    }
  }

  lemma PlannedKeys(ad: Ad, current: Option<Options>)
    requires ad.servers != [] && (PlanRealm(ad, current).Add? || PlanRealm(ad, current).Modify?)
    ensures forall o :: o in PlanRealm(ad, current).command.options ==> o.0 in ORDER
    ensures PlanRealm(ad, current).Modify? ==>
      PlanRealm(ad, current).command.deletes == [] || PlanRealm(ad, current).command.deletes == [Server2]
  {
    forall o | o in PlanRealm(ad, current).command.options ensures o.0 in ORDER {
      PlannedOptions(ad, current, o.0, o.1);
      ManagedKey(ad, o.0);
    }
    hide RealmOptions, ORDER, Changes, Named, Pairs;
  }

  lemma AddReads(realm: string, options: seq<(Key, string)>)
    requires forall o :: o in options ==> o.0 in ORDER
    ensures ReadRealmArgs(RealmArgs(RealmAdd(realm, options))) == Some(RealmAdd(realm, options))
  {
    hide ORDER, Flags, ReadFlags;
    var args := RealmArgs(RealmAdd(realm, options));
    EmptyReads();
    FlagsRead(options, [], []);
    assert Flags(options) + [] == Flags(options);
    assert args[6..] == Flags(options) && args[..3] == ["pveum", "realm", "add"] && args[4..6] == ["--type", "ad"];
  }

  lemma ModifyReads(realm: string, options: seq<(Key, string)>, deletes: seq<Key>)
    requires (forall o :: o in options ==> o.0 in ORDER) && (deletes == [] || deletes == [Server2])
    ensures ReadRealmArgs(RealmArgs(RealmModify(realm, options, deletes))) == Some(RealmModify(realm, options, deletes))
  {
    hide ORDER, Flags, ReadFlags;
    var tail := if deletes == [] then [] else ["--delete", Join(",", Map(OptionName, deletes))];
    DeleteReads(deletes);
    FlagsRead(options, tail, deletes);
    hide OptionName;
    var args := RealmArgs(RealmModify(realm, options, deletes));
    assert args == ["pveum", "realm", "modify", realm] + (Flags(options) + tail);
    assert args[4..] == Flags(options) + tail && args[..3] == ["pveum", "realm", "modify"];
    assert args[..3][2] == "modify" && "modify"[0] == 'm' && "add"[0] == 'a';
  }

  /** The arguments of a planned realm command read back as that command: every
      option under its PVE name, in order, and nothing else. */
  lemma RealmArgsRead(ad: Ad, current: Option<Options>)
    requires ad.servers != [] && (PlanRealm(ad, current).Add? || PlanRealm(ad, current).Modify?)
    ensures ReadRealmArgs(RealmArgs(PlanRealm(ad, current).command)) == Some(PlanRealm(ad, current).command)
  {
    PlannedKeys(ad, current);
    PlanKinds(ad, current);
    hide *;
    var c := PlanRealm(ad, current).command;
    if c.RealmAdd? {
      AddReads(c.realm, c.options);
    } else {
      ModifyReads(c.realm, c.options, c.deletes);
    }
  }

  lemma EmptyReads()
    ensures ReadFlags([]) == Some(([], []))
  {}

  lemma JobOptionReads(k: JobKey)
    requires k in {Schedule, Scope, EnableNew, RemoveVanished, Enabled}
    ensures JobKeyNamed(JobOptionName(k)) == Some(k)
  {
    assert |"schedule"| == 8 && |"scope"| == 5 && |"enable-new"| == 10 && |"remove-vanished"| == 15 && |"enabled"| == 7;
  }

  lemma {:induction false} JobFlagsRead(options: seq<(JobKey, string)>)
    requires forall o :: o in options ==> o.0 in {Schedule, Scope, EnableNew, RemoveVanished, Enabled}
    ensures ReadJobFlags(JobFlags(options)) == Some(options)
  {
    hide JobOptionName, JobKeyNamed;
    if options == [] {
    } else {
      var (k, text) := options[0];
      assert options[0] in options && options == [(k, text)] + options[1..];
      JobOptionReads(k);
      FlagWord(JobOptionName(k));
      JobFlagsRead(options[1..]);
      var args := JobFlags(options);
      assert args[0] == "--" + JobOptionName(k) && args[1] == text && args[2..] == JobFlags(options[1..]);
    }
  }

  lemma PlannedJobKeys(realm: string, job: Job, jobs: seq<JobEntry>)
    requires PlanSyncJob(realm, job, jobs).CreateJob? || PlanSyncJob(realm, job, jobs).SetJob?
    ensures forall o :: o in PlanSyncJob(realm, job, jobs).command.options ==>
      o.0 in {Schedule, Scope, EnableNew, RemoveVanished, Enabled}
  {
    forall o | o in PlanSyncJob(realm, job, jobs).command.options
      ensures o.0 in {Schedule, Scope, EnableNew, RemoveVanished, Enabled}
    {
      PlannedJobOptions(realm, job, jobs, o);
      JobWants(job, o.0, o.1);
      assert o == (o.0, o.1);
    }
  }

  /** So do those of a planned sync-job command, the job's path included. */
  lemma JobArgsRead(realm: string, job: Job, jobs: seq<JobEntry>)
    requires PlanSyncJob(realm, job, jobs).CreateJob? || PlanSyncJob(realm, job, jobs).SetJob?
    ensures ReadJobArgs(JobArgs(PlanSyncJob(realm, job, jobs).command)) == Some(PlanSyncJob(realm, job, jobs).command)
  {
    PlannedJobKeys(realm, job, jobs);
    hide PlanSyncJob, JobFlags, ReadJobFlags;
    var c := PlanSyncJob(realm, job, jobs).command;
    var args := JobArgs(c);
    JobFlagsRead(c.options);
    assert (JOBS + c.id)[|JOBS|..] == c.id;
    if c.JobCreate? {
      assert args[5..] == JobFlags(c.options) && args[..2] == ["pvesh", "create"];
    } else {
      assert args[3..] == JobFlags(c.options) && args[..2] == ["pvesh", "set"];
      assert |"set"| == 3 && |"create"| == 6 && args[..2][1] == "set";
    }
  }
}
