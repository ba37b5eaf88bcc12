/** The storage-layout planner (jobs/lib/storage_layout.py): for each declared
    virtual drive keep the volume of that name, adopt a hand-made one by role,
    or create one from the smallest or largest free drives; refuse on any
    ambiguity. */
module StorageLayout {
  import opened Prelude

  datatype Drive = Drive(
    path: string, id: string, capacity: Option<int>, status: string, state: Option<string>,
    volumes: seq<string>)

  datatype Volume = Volume(
    path: string, id: string, name: Option<string>, raidType: string, drives: seq<string>, capacity: Option<int>)

  /** What the adapter lists. */
  datatype Inventory = Inventory(drives: seq<Drive>, volumes: seq<Volume>)

  datatype Raid = RAID0 | RAID1 | RAID10

  datatype Select = Smallest | Largest

  /** One entry of the profile's storage.volumes. */
  datatype VolSpec = VolSpec(name: string, raid: Raid, select: Select, count: nat)

  datatype Step =
    | Keep(name: string, raid: Raid, drives: seq<string>, capacity: Option<int>,
           id: string, path: string, adoptedFrom: Option<string>)
    | Create(name: string, raid: Raid, drives: seq<string>, size: int)

  datatype Error =
    | CapacityUnknown(name: string)
    | AmbiguousRole(name: string)
    | WrongRaid(name: string)
    | TooFewFree(name: string)
    | UnequalDrives(name: string)
    | AmbiguousPick(name: string)

  function RaidText(raid: Raid): string {
    match raid
    case RAID0 => "RAID0"
    case RAID1 => "RAID1"
    case RAID10 => "RAID10"
  }

  // ---- drives --------------------------------------------------------------------

  const FREE_STATES := ["unconfigured good", "unconfigured", "ready"]

  /** Failed, foreign or disabled. */
  predicate Unusable(d: Drive) {
    Contains(LowerAll(Strip(d.status)), "bad") || (d.state.Some? && LowerAll(Strip(d.state.value)) != "enabled")
  }

  predicate IsFree(d: Drive) {
    && d.volumes == []
    && !Unusable(d)
    && exists s | s in FREE_STATES :: StartsWith(LowerAll(Strip(d.status)), s)
  }

  /** The capacity as a positive number, if it is one. */
  predicate Known(d: Drive) { d.capacity.Some? && d.capacity.value > 0 }

  /** Sort key: 0 for an unknown capacity. */
  function Capacity(d: Drive): nat { if Known(d) then d.capacity.value else 0 }

  predicate DriveLe(a: Drive, b: Drive) {
    Capacity(a) < Capacity(b) || (Capacity(a) == Capacity(b) && StrLe(a.id, b.id))
  }

  function DrivePath(d: Drive): string { d.path }

  predicate AllKnown(s: seq<Drive>) { forall d :: d in s ==> Known(d) }

  function Paths(s: seq<Drive>): seq<string> { Map(DrivePath, s) }

  function PathSet(s: seq<Drive>): set<string> { set d | d in s :: d.path }

  /** drive_by_path: the last drive listed under a path. */
  function DriveAt(drives: seq<Drive>, path: string): (r: Option<Drive>)
    ensures r.Some? ==> r.value in drives && r.value.path == path
    ensures r.None? ==> forall d :: d in drives ==> d.path != path
  {
    if drives == [] then None
    else
      var later := DriveAt(drives[1..], path);
      if later.Some? then later else if drives[0].path == path then Some(drives[0]) else None
  }

  /** The drives behind a volume, as far as they are listed. */
  function DrivesOf(drives: seq<Drive>, v: Volume): seq<Drive> {
    FlatMap((p: string) => var d := DriveAt(drives, p); if d.Some? then [d.value] else [], v.drives)
  }

  // ---- the capacity rule -----------------------------------------------------------

  /** The n smallest or largest of a list sorted by capacity, and the rest;
      a slice past either end is cut off there. */
  function Pick(s: seq<Drive>, select: Select, n: nat): (r: (seq<Drive>, seq<Drive>)) {
    var k := if n < |s| then n else |s|;
    if select.Smallest? then (s[..k], s[k..]) else (s[|s| - k..], s[..|s| - k])
  }

  /** All of one size. */
  predicate Equal(s: seq<Drive>) { forall d, e :: d in s && e in s ==> Capacity(d) == Capacity(e) }

  /** A drive outside the pick has a picked size. */
  predicate Shared(pick: seq<Drive>, rest: seq<Drive>) {
    exists d, e :: d in pick && e in rest && Capacity(d) == Capacity(e)
  }

  // ---- adoption by role --------------------------------------------------------------

  /** What `str(raid_type).upper().replace(" ", "")` makes of a reported type. */
  function Normal(s: string): string {
    Filter((c: char) => c != ' ', UpperAll(s))
  }

  predicate IsCandidate(vol: VolSpec, names: set<string>, drives: seq<Drive>, claimed: set<string>, v: Volume) {
    && v.path !in claimed
    && !(v.name.Some? && v.name.value in names)
    && Normal(v.raidType) == RaidText(vol.raid)
    && v.drives != []
    && |DrivesOf(drives, v)| == |v.drives| == vol.count
  }

  function Candidates(vol: VolSpec, names: set<string>, inv: Inventory, claimed: set<string>): seq<Volume> {
    Filter((v: Volume) => IsCandidate(vol, names, inv.drives, claimed, v), inv.volumes)
  }

  /** The free drives and those of every candidate, one per path. */
  function Pool(free: seq<Drive>, drives: seq<Drive>, cands: seq<Volume>): seq<Drive> {
    PutAll(DrivePath, PutAll(DrivePath, [], free), FlatMap((v: Volume) => DrivesOf(drives, v), cands))
  }

  predicate IsPicked(drives: seq<Drive>, pick: seq<Drive>, v: Volume) {
    PathSet(pick) == PathSet(DrivesOf(drives, v))
  }

  function AdoptFrom(vol: VolSpec, drives: seq<Drive>, cands: seq<Volume>, pool: seq<Drive>)
    : Result<Option<Volume>, Error>
  {
    if !AllKnown(pool) then Err(CapacityUnknown(vol.name))
    else
      var (pick, rest) := Pick(Sort(DriveLe, pool), vol.select, vol.count);
      var found := Find((v: Volume) => IsPicked(drives, pick, v), cands);
      if found.Some? && pick != [] && Equal(pick) && Shared(pick, rest) then Err(AmbiguousRole(vol.name))
      else Ok(found)
  }

  function Adopt(vol: VolSpec, names: set<string>, inv: Inventory, free: seq<Drive>, claimed: set<string>)
    : Result<Option<Volume>, Error>
  {
    var cands := Candidates(vol, names, inv, claimed);
    if cands == [] then Ok(None) else AdoptFrom(vol, inv.drives, cands, Pool(free, inv.drives, cands))
  }

  // ---- one step of the plan -------------------------------------------------------------

  /** by_name: the last volume listed under a name. */
  function ByName(volumes: seq<Volume>, name: string): (r: Option<Volume>)
    ensures r.Some? ==> r.value in volumes && r.value.name == Some(name)
    ensures r.None? ==> forall v :: v in volumes ==> v.name != Some(name)
  {
    if volumes == [] then None
    else
      var later := ByName(volumes[1..], name);
      if later.Some? then later else if volumes[0].name == Some(name) then Some(volumes[0]) else None
  }

  function KeepStep(vol: VolSpec, v: Volume, adoptedFrom: Option<string>): Result<Step, Error> {
    var have := Normal(v.raidType);
    if have != "" && have != RaidText(vol.raid) then Err(WrongRaid(vol.name))
    else Ok(Keep(vol.name, vol.raid, v.drives, v.capacity, v.id, v.path, adoptedFrom))
  }

  function CreateStep(vol: VolSpec, free: seq<Drive>): Result<Step, Error> {
    if |free| < vol.count then Err(TooFewFree(vol.name))
    else if !AllKnown(free) then Err(CapacityUnknown(vol.name))
    else
      var (pick, rest) := Pick(free, vol.select, vol.count);
      if pick == [] || !Equal(pick) then Err(UnequalDrives(vol.name))
      else if Shared(pick, rest) then Err(AmbiguousPick(vol.name))
      else Ok(Create(vol.name, vol.raid, Paths(pick), Capacity(pick[0])))
  }

  function StepFor(vol: VolSpec, names: set<string>, inv: Inventory, free: seq<Drive>, claimed: set<string>)
    : Result<Step, Error>
  {
    var named := ByName(inv.volumes, vol.name);
    if named.Some? then KeepStep(vol, named.value, None)
    else
      match Adopt(vol, names, inv, free, claimed)
      case Err(e) => Err(e)
      case Ok(Some(v)) => KeepStep(vol, v, v.name)
      case Ok(None) => CreateStep(vol, free)
  }

  // ---- the whole plan ---------------------------------------------------------------------

  /** The free drives and the claimed volumes after a step. */
  function FreeAfter(free: seq<Drive>, step: Step): seq<Drive> {
    if step.Create? then Filter((d: Drive) => d.path !in step.drives, free) else free
  }

  function ClaimedAfter(claimed: set<string>, step: Step): set<string> {
    if step.Keep? then claimed + {step.path} else claimed
  }

  function PlanFrom(vols: seq<VolSpec>, names: set<string>, inv: Inventory, free: seq<Drive>, claimed: set<string>)
    : Result<seq<Step>, Error>
    decreases |vols|
  {
    if vols == [] then Ok([])
    else
      match StepFor(vols[0], names, inv, free, claimed)
      case Err(e) => Err(e)
      case Ok(step) =>
        match PlanFrom(vols[1..], names, inv, FreeAfter(free, step), ClaimedAfter(claimed, step))
        case Err(e) => Err(e)
        case Ok(rest) => Ok([step] + rest)
  }

  function SortedFree(inv: Inventory): seq<Drive> { Sort(DriveLe, Filter(IsFree, inv.drives)) }

  function NamesIn(spec: seq<VolSpec>): set<string> { set v | v in spec :: v.name }

  function Plan(spec: seq<VolSpec>, inv: Inventory): Result<seq<Step>, Error> {
    PlanFrom(spec, NamesIn(spec), inv, SortedFree(inv), {})
  }

  // ---- boot position --------------------------------------------------------------------------

  /** The boot volume is the adapter's first. */
  predicate BootIsFirst(boot: Option<string>, volumes: seq<Volume>) {
    boot.Some? && volumes != [] && volumes[0].id == boot.value
  }
}
