# Models of the NFV bare-metal and deploy automation

This project models the parts of the automation that decide something hard to
undo - which drives become which volume, which accounts and ACL entries a node
keeps, which network file a node boots with, which one-time key opens which
step, which virtual machine a failed deploy may destroy - and proves what those
decisions guarantee, for all inputs, all runs and all interleavings.

`dafny verify dfyconfig.toml` checks everything. Code that loops or changes
state in the source is a method (or a class) here, proved against a function;
the theorems are about that function.

| files | what they model |
|---|---|
| `StorageLayout`, `StorageTrace`, `StorageSpec` | `jobs/lib/storage_layout.py`: the planner, its steps one by one, the profile's volume list |
| `StorageLookup`, `StoragePick`, `StorageAdopt`, `StorageSafety` | how names, paths and RAID types are read, what the capacity rule picks, what is adopted, what a plan may touch |
| `StorageOrder`, `StorageResume` | listing order; planning again after any part of the creates |
| `StoragePlanner`, `StorageApply` | the loops of the source; the adapter, the apply run and the dry run |
| `Accounts`, `AccountRules`, `AccountPlan`, `AccountCalls`, `AccountConvergence` | service accounts: validation and its rules, plans, the calls they become, convergence |
| `Realm`, `RealmArgv` | the AD realm and its sync job; reading the arguments back |
| `NetworkModel`, `NetworkRules`, `NetworkBuild`, `NetworkOrder` | the bond and bridge topology, its rules, its validation, listing order |
| `NetworkMatch`, `NetworkRender`, `NetworkPlan` | finding the ports on the node, the rendered file, both in sequence |
| `NetworkForest`, `NetworkOnce`, `NetworkSlaves` | what refers to what in the rendered file, and what occurs once |
| `NetworkReader`, `NetworkOptions`, `NetworkRead` | a reader of the file with its own keywords, and what it finds in a stanza's lines |
| `NetworkTree`, `NetworkFile`, `NetworkSays`, `NetworkLines` | exactly when the stanzas are a forest; exactly when the text says the same; what it says of every interface, and that it says no more |
| `NetworkClash` | four accepted topologies whose file is no forest, or does not read back |
| `InstallNic`, `InstallRules`, `VlanRanges` | the install NIC, and how it is reached on any device; VLAN range compression |
| `KeyStore`, `AnswerService`, `AnswerReplies`, `Toml` | `bmc/answer_service/app.py`: one-time keys, the four handlers, when they succeed and refuse, the TOML printer |
| `DeployRollback`, `DeployProgress`, `TaskWait` | deploys on one node, in any interleaving, and their rollback; that they can go through; task polling |
| `NicOrder` | `jobs/lib/platform_facts.py`: NIC order |
| `Prelude` | lists, sorting, dictionaries kept in insertion order, text, decimals |

## Results that differ from what a reader might expect

- **The rendered network file need not be a forest**, although every accepted
  topology is one: a NIC of the node may be named like something in the model,
  and the name checks of bonds and bridges let a final line break pass, which
  breaks the `iface` line in two. `NetworkFile.FileIsForestIff` gives the exact
  condition for all inputs: no bond's or bridge's name ends in a line break, no
  bridge's one port is a NIC named `none` (which the file cannot tell from no
  port), and no port's NIC is named `lo` or like a bond or bridge of the model.
  The last of these is what the stanzas themselves need
  (`NetworkTree.ForestIffNamesFree`), the first two are what the text needs to
  say what the stanzas say (`NetworkFile.ReadsBackIff`). Nothing is enslaved
  twice under a weaker condition (`NetworkSlaves.NothingEnslavedTwice`): no
  port's NIC is named like a bond that is attached to a bridge. `NetworkClash`
  has an accepted topology for each failure: `bond0` enslaved twice, `vmbr0` as
  a port of itself, a bridge whose name ends in a line break, and a NIC `none`.
- **Convergence of the realm** depends on the planner's table of boolean
  defaults: `Realm.ConvergesIffDefaultsAgree` says that every plan, executed on
  the node's configuration and reported back with defaults left out or not, is
  followed by an empty plan iff PVE's defaults are those of the table. The sync
  job has no such table: it settles iff the node shows every wanted option
  (`Realm.JobSettlesIffShown`). Values that a report shows beside the options,
  such as a digest that every write changes, play no part in either.
- **Convergence of service accounts** depends on PVE dropping the ACL entries
  of tokens it does not have: `AccountConvergence.Converges` says that an
  account ends as declared iff no unwanted entry of its absent token was left
  behind, on any node; on a node as PVE keeps it that is always so.
- **The rollback guarantee** holds in every interleaving iff no two runs of the
  history, retries included, carry the same device name
  (`DeployRollback.RollbackSafeIffNamesDistinct`). Names may repeat when runs of
  one name are serial (`DeployRollback.SerialRunsAreSafe`): each checks its name
  only while no other run of that name is under way or has an open create task.
  That the earlier run is over is not enough
  (`DeployRollback.OpenTaskClash`).
- **A resumed storage run** needs no rule of its own: the plan that is made
  after any number of executed creates is the old plan with those creates
  turned into keeps (`StorageResume.ResumeAfterInterruption`).

## Model

| member | source | states |
|---|---|---|
| `StorageResume.ResumeAfterInterruption` | jobs/lib/storage_layout.py:179-294 | after any prefix of a successful plan's creates on a well-formed adapter, whatever paths and ids the adapter chose, planning again never refuses and gives the same plan with exactly the executed creates turned into keeps; the adapter stays well-formed |
| `StorageResume.ResumedCreates` | jobs/lib/storage_layout.py:419-438 | the resumed plan creates exactly the steps that are left, with the same drives |
| `StorageResume.ResumedStep` | jobs/lib/storage_layout.py:419-438 | each step of the resumed plan is the old step, or the keep of the volume that was built for it |
| `StorageResume.CompletedIsIdempotent` | jobs/lib/storage_layout.py:17-18 | once all creates are executed, planning again only keeps |
| `StorageResume.OneCreate` | jobs/lib/storage_layout.py:424-436 | executing the first create of a plan turns that step into a keep and changes no other decision, by name or by role |
| `StorageResume.CreateKeepsWellFormed` | tests/test_storage_layout.py:278-287 | creating a volume from free drives under a fresh path, id and name keeps paths, ids and names unique and all drive/volume links consistent |
| `StorageResume.FreeAfterCreate` | jobs/lib/storage_layout.py:138-142 | a create removes exactly its own drives from the sorted free list |
| `StorageResume.AdoptionStays` | jobs/lib/storage_layout.py:179-219 | an adoption by role survives the loss of free drives to a create (the pool shrinks, the pick and its unambiguity stay) |
| `StorageResume.ExistingVolumesSurvive` | jobs/lib/storage_layout.py:17-18 | executing any part of a plan changes no existing volume and no drive of one, and only appends volumes |
| `StorageSafety.PlanSafety` | jobs/lib/storage_layout.py:222-294 | keeps claim pairwise different existing volumes of the right RAID type; creates use the wanted number of distinct drives that are usable, unassigned, in no volume and report the step's size, which is above zero; no drive is used by two creates |
| `StorageSafety.LaterCreatesLieBeyond` | jobs/lib/storage_layout.py:267-293 | after a create from the smallest (largest) drives every later create has strictly larger (smaller) ones, so a created `boot` is below a later created `datastore` |
| `StorageSafety.FreeMeans` | jobs/lib/storage_layout.py:126-142 | exactly which drives count as free: unassigned, status beginning with unconfigured or ready and nowhere "bad", state enabled if reported |
| `StorageSafety.CreateBuilds` | jobs/lib/storage_layout.py:273-293 | the drives of a create are distinct, of its size and of known capacity, and every other free drive is strictly beyond that size |
| `StoragePick.CreateIsExact` | jobs/lib/storage_layout.py:267-291 | a create succeeds iff every free drive reports a capacity above zero and some set of count free drives of one size is strictly smaller (larger), by the reported bytes, than all others; its drives are then such a set and its size is theirs |
| `StoragePick.CreateListsById` | jobs/lib/storage_layout.py:285-291 | a create has its entry's name and RAID type and lists its drives by id |
| `StoragePick.CreateRefusals` | jobs/lib/storage_layout.py:267-291 | exactly when each refusal comes: too few free drives; with enough, some free drive that reports no capacity, zero or less; with all known, smallest drives of differing size, or several sets that would do |
| `StoragePick.ExtremeIsUnique` | jobs/lib/storage_layout.py:14-17 | there is at most one such set, so the pick is the one the rule describes |
| `StoragePick.ExtremeIsPick` | jobs/lib/storage_layout.py:174-176 | the slice of the sorted list is that set |
| `StorageAdopt.AdoptionIsExact` | jobs/lib/storage_layout.py:179-219 | a volume is adopted iff it is an unclaimed, not otherwise named volume of the entry's shape, every free drive and every drive of a candidate reports a capacity above zero, and its drives come first (last), by reported size and path, among all of these, strictly so by size alone when they are of one size |
| `StorageAdopt.CandidateMeans` | jobs/lib/storage_layout.py:189-199 | a volume competes for an entry iff it is unclaimed, no entry has its name, its RAID type is the entry's, it has the entry's number of drives and all of them are listed |
| `StorageAdopt.AdoptionRefusals` | jobs/lib/storage_layout.py:179-219 | an adoption is refused iff there are candidates and some competing drive reports no capacity above zero, or the drives at the front are one volume's and other drives of their size would do as well |
| `StorageAdopt.PoolFacts` | jobs/lib/storage_layout.py:202-206 | the pool holds the free drives and the drives of every candidate, each once |
| `StorageAdopt.OnePicked` | jobs/lib/storage_layout.py:209-218 | two volumes over the picked drives are the same volume, so the order of the candidates cannot decide |
| `StorageOrder.ListingOrderNeverDecides` | jobs/lib/storage_layout.py:20-24 | any two listings of the same well-formed adapter, drives and volumes permuted, give the same plan or the same refusal |
| `StorageTrace.PlanIffSteps` | jobs/lib/storage_layout.py:233-294 | a list of steps is the plan iff each step is the decision for its entry given the drives taken and the volumes claimed before it |
| `StorageTrace.PlanRefusedIff` | jobs/lib/storage_layout.py:233-294 | planning is refused with an error iff that is the decision for some entry, all entries before it having their steps |
| `StorageLookup.NamedVolumeDecides` | jobs/lib/storage_layout.py:244-266 | an entry whose name a volume has keeps that volume, refuses iff the volume reports another RAID type, and keeps one that reports none |
| `StorageLookup.UnnamedEntryDecides` | jobs/lib/storage_layout.py:244-293 | otherwise an adopted volume is kept under the entry's name, a refused adoption refuses the entry, and without a volume to adopt it is created |
| `StorageLookup.LastVolumeCounts` | jobs/lib/storage_layout.py:232-232 | a name stands for the last volume listed under it |
| `StorageLookup.LastDriveCounts` | jobs/lib/storage_layout.py:233-233 | a path stands for the last drive listed under it |
| `StorageLookup.NormalForm` | jobs/lib/storage_layout.py:252-253 | RAID types are compared without blanks and without regard to case |
| `StoragePlanner.PlanVolumes` | jobs/lib/storage_layout.py:222-294 | the loop over the entries, with shrinking `free` and growing `claimed`, computes the planner |
| `StoragePlanner.AdoptVolume` | jobs/lib/storage_layout.py:179-219 | the loops of `_adopt` compute the adoption rule |
| `StoragePlanner.CollectCandidates` | jobs/lib/storage_layout.py:189-199 | the candidate loop selects exactly the unclaimed volumes of the entry's shape |
| `StorageSpec.ParseVolumes` | jobs/lib/storage_layout.py:74-107 | accepted are exactly the non-empty lists of good entries with distinct names; an accepted list meets what the planner relies on |
| `StorageSpec.EntryMeans` | jobs/lib/storage_layout.py:74-107 | the rules of an entry, said of its text: name, RAID word, select word, the count and its default, the counts each RAID type takes |
| `StorageApply.Adapter.Create` | tests/test_storage_layout.py:278-287 | create_volume appends one volume and assigns its drives, and nothing else changes |
| `StorageApply.Adapter.CreateAll` | jobs/lib/storage_layout.py:419-438 | the create loop executes the plan's creates in order as far as the adapter makes volumes, reports the first that does not appear, and records the id each name resolves to |
| `StorageApply.Adapter.Apply` | jobs/lib/storage_layout.py:349-446 | every outcome of a run: powered off, not enumerated, refused plan, volume that does not appear, and success with plan, created, kept, resolved ids and boot verdict; a dry run and a refusal change no drive or volume; the host is on after every real run |
| `StorageApply.CollectNames` | jobs/lib/storage_layout.py:398-400 | the kept names and the ids of the kept volumes, a later step winning |
| `StorageApply.ResolvedIsResumed` | jobs/lib/storage_layout.py:425-436 | the ids a run resolves are those that planning again afterwards would keep |
| `StorageApply.DryRunPredicts` | jobs/lib/storage_layout.py:297-309 | the dry run's boot verdict equals the verdict of a real run from the same state after all its creates |
| `AccountConvergence.Converges` | jobs/lib/host_baseline.py:1343-1385 | after executing all plans, each computed from the same observation, everything the accounts do not manage is untouched, and an account has exactly its token, privsep and ACL entries iff no unwanted entry of its absent token was left on the node |
| `AccountConvergence.TokensMadeAnew` | jobs/lib/host_baseline.py:1355-1363 | over the whole run the tokens made are, in order and each once, those of the accounts whose token the node lacks or whose Secrets are not stored and accepted |
| `AccountConvergence.MintedOnce` | jobs/lib/host_baseline.py:1355-1363 | an account's token is made exactly once if it is absent or its Secrets are not stored and accepted, and never otherwise |
| `AccountConvergence.ConvergesOnWellFormed` | jobs/lib/host_baseline.py:1343-1385 | on a node that holds no entries of tokens it does not have, every account ends exactly as declared |
| `AccountConvergence.ReplanIsEmpty` | jobs/lib/host_baseline.py:1343-1385 | after a run, with the tokens stored, planning an account again keeps its token and plans no user, privsep or ACL change, iff no unwanted entry of its absent token was on the node before; on a node as PVE keeps it that is always so |
| `AccountConvergence.NothingToPlan` | jobs/lib/host_baseline.py:1343-1385 | nothing is planned for an account with a stored token iff the node is exactly as declared |
| `AccountConvergence.AccountStep` | jobs/lib/host_baseline.py:1343-1385 | one account's plan, computed earlier, touches nothing else and, leftovers of its absent token aside, satisfies the account on any node that still looks the same to it |
| `AccountConvergence.FullIdInjective` | jobs/lib/host_baseline.py:1339-1340 | a full token id determines its user and token for validated users |
| `AccountConvergence.ManagedDisjoint` | jobs/lib/host_baseline.py:1343-1385 | no ACL entry is managed by two accounts |
| `AccountConvergence.StepKeepsOther` | jobs/lib/host_baseline.py:1343-1385 | executing one account's plan leaves what any other account's plan was computed from |
| `AccountPlan.AclAddsMembers` | jobs/lib/host_baseline.py:1303-1313 | an entry is added iff it is desired and absent |
| `AccountPlan.UnwantedMembers` | jobs/lib/host_baseline.py:1303-1313 | an entry is deleted iff it is present, managed by the account and not desired |
| `AccountPlan.SortedAclsMembers` | jobs/lib/host_baseline.py:1296-1300 | acl_set keeps exactly the listed entries |
| `AccountPlan.PlanServiceAccounts` | jobs/lib/host_baseline.py:1343-1385 | one plan for each account in order, all from the same observation |
| `AccountPlan.TokenActionIs` | jobs/lib/host_baseline.py:1353-1362 | a token is created iff the node lacks it; one that is present is rotated iff Nautobot has no verdict for it or finds it missing or rejected, and kept iff its Secrets are stored and accepted |
| `AccountCalls.PlanHolds` | jobs/lib/host_baseline.py:1343-1385 | a plan adds the user iff the node lacks it, grants exactly the wanted entries that are not there or go with the token, and removes exactly the other entries of its user and token |
| `AccountCalls.FlagIsFixed` | jobs/lib/host_baseline.py:1363-1367 | privilege separation is changed iff the token is kept and reports the other setting, an unreported one being on |
| `AccountCalls.SatisfiedIs` | jobs/lib/host_baseline.py:1343-1385 | what a node as declared is: the user, the token with the setting, and of the account's entries the role on the path for the user and, with privilege separation, for the token |
| `AccountCalls.DeletesInOrder` | jobs/lib/host_baseline.py:1296-1313 | the removed entries are listed by path, kind, id and role, each once |
| `AccountPlan.CallsOf` | jobs/baremetal/host_baseline.py:459-477 | the calls of one plan in the order user, token, privsep, ACL deletes, ACL adds |
| `AccountCalls.CallMembers` | jobs/baremetal/host_baseline.py:459-477 | exactly which calls a plan becomes |
| `AccountCalls.CallsInOrder` | jobs/baremetal/host_baseline.py:459-477 | user before token before privsep before ACL deletes before ACL adds |
| `AccountPlan.AccountCallList` | jobs/baremetal/host_baseline.py:457-478 | the call list is the calls of the plans one after the other |
| `Accounts.ValidateAccounts` | jobs/lib/host_baseline.py:364-413 | whatever the input, accepted entries have different users and names; there is no problem iff every entry meets every rule and none repeats the user or name of another, and then all are accepted, in order |
| `Accounts.ValidateEntry` | jobs/lib/host_baseline.py:369-412 | an entry is accepted iff its user, token and name are good, not reserved and not seen before; it has no problem iff its role, path and privsep are good as well |
| `Accounts.ValidatedAccountsAreValid` | jobs/lib/host_baseline.py:364-413 | a list that validates without a problem meets what the planner relies on |
| `AccountRules.UserIdMeans` | jobs/lib/host_baseline.py:118-124 | a user id is a name of 1 to 60 characters, "@" and pam or pve |
| `AccountRules.IdsMean` | jobs/lib/host_baseline.py:118-124 | what token ids and role ids are |
| `AccountRules.AccountNameMeans` | jobs/lib/host_baseline.py:118-124 | what the names of accounts are |
| `AccountRules.AclPathMeans` | jobs/lib/host_baseline.py:118-124 | an ACL path is "/" or names behind single slashes, with none at the end |
| `AccountRules.NameDefaults` | jobs/lib/host_baseline.py:364-413 | a name that is not given is the user's, without realm and in small letters |
| `Realm.SettledIffMatches` | jobs/lib/host_baseline.py:1201-1236 | nothing is planned iff the realm has the AD type, every configured option in force and no second server that the config lacks |
| `Realm.RealmConverges` | jobs/lib/host_baseline.py:1201-1236 | when PVE's boolean defaults are those of the planner: executing the planned add or modify on the node's configuration makes the next plan empty, whatever the node's reports showed before and show after: options re-typed, boolean defaults left out or not, and any other values, such as a digest that changes with the write |
| `Realm.ConvergesIffDefaultsAgree` | jobs/lib/host_baseline.py:1174-1175 | the planner converges for all configs, nodes and reports iff PVE's boolean defaults are those of its table |
| `Realm.UnknownDefaultNeverSettles` | jobs/lib/host_baseline.py:1201-1205 | with any other default there is a config whose plan is never empty |
| `Realm.WantedInEffect` | jobs/lib/host_baseline.py:1208-1236 | after the command every configured option holds on the node, stored or by default |
| `Realm.UnnamedOptionsKept` | jobs/lib/host_baseline.py:1226-1236 | every option that the config does not name keeps its text in the node's configuration; a second server goes exactly if the node has one and the config does not |
| `Realm.PlanRealmCommand` | jobs/lib/host_baseline.py:1208-1236 | the loops that build the add, modify and delete arguments compute the planned command |
| `Realm.RealmOptionList` | jobs/lib/host_baseline.py:1186-1198 | the realm's wanted options, in order |
| `Realm.WantedFields` | jobs/lib/host_baseline.py:1167-1198 | which field of the config goes under which option: the first server and the second, and every named field under its own PVE option |
| `Realm.PlanKinds` | jobs/lib/host_baseline.py:1208-1236 | a realm is added iff it is absent, refused iff it has another type, and nothing is planned iff all is in force; commands name the realm |
| `RealmArgv.RealmArgsRead` | jobs/lib/host_baseline.py:1208-1236 | the argument list of a planned realm command reads back as exactly that command |
| `Realm.JobSettledIffMatches` | jobs/lib/host_baseline.py:1239-1269 | no job command is planned iff the job exists for the realm, runs, and reports every wanted option |
| `Realm.SyncJobConverges` | jobs/lib/host_baseline.py:1239-1269 | executing the planned create or update on the job's configuration makes the next plan empty, for every report that shows the job's options, whatever else it shows, such as a moving next run |
| `Realm.JobSettlesIffShown` | jobs/lib/host_baseline.py:1239-1269 | for reports that may leave options out, before and after: the plan after the command is empty iff the report shows every wanted option (none being wanted as the text that stands for a missing one) |
| `Realm.UnnamedJobOptionsKept` | jobs/lib/host_baseline.py:1261-1269 | a job's options that the config does not name keep their text; its switch is turned on iff it was off |
| `Realm.OmittedJobOptionUnsettled` | jobs/lib/host_baseline.py:1261-1265 | a wanted job option that the report leaves out is planned again |
| `Realm.JobWants` | jobs/lib/host_baseline.py:1244-1248 | which value goes under schedule, scope, enable-new and remove-vanished |
| `Realm.JobPlanIs` | jobs/lib/host_baseline.py:1239-1269 | a job is created iff it is absent and refused iff it belongs to another realm; commands name the job and its realm |
| `RealmArgv.JobArgsRead` | jobs/lib/host_baseline.py:1239-1269 | the argument list of a planned job command reads back as exactly that command |
| `NetworkBuild.BuildNetworkModel` | jobs/lib/host_baseline.py:632-829 | no problem is reported iff the interfaces describe a consistent topology, and then the model is the one of that topology |
| `NetworkRules.CleanMeans` | jobs/lib/host_baseline.py:632-829 | the topology is consistent iff one bridge alone carries the primary address, with a gateway in its network, every bond and every bridge keeps its rules - said of the interfaces' own fields - and no address lies outside |
| `NetworkRules.BondMeans` | jobs/lib/host_baseline.py:710-764 | the rules of a bond: name, mode, hash policy, miimon, LACP rate, one flagged member at most, an active-backup bond of several with one, and members that are physical ports with a MAC and the bond's MTU |
| `NetworkBuild.CheckBond` | jobs/lib/host_baseline.py:710-764 | a bond adds no problem iff its fields and all its members are consistent; it then gets its members as ports and its own or its members' largest MTU |
| `NetworkBuild.CheckBondFields` | jobs/lib/host_baseline.py:710-744 | the rules on a bond's name, mode, hash policy, miimon, LACP rate and primary member |
| `NetworkBuild.CheckMembers` | jobs/lib/host_baseline.py:749-755 | members are accepted iff each is a physical port with a MAC, in one place, with an MTU that agrees with the bond's |
| `NetworkBuild.AddPort` | jobs/lib/host_baseline.py:688-705 | a port is recorded iff it is physical, has one parent and a MAC |
| `NetworkBuild.CheckBridge` | jobs/lib/host_baseline.py:767-815 | a bridge adds no problem iff its fields and everything attached to it are consistent; its model then has all attached interfaces, its VLAN ranges and, for the management bridge alone, the address |
| `NetworkBuild.CheckAddresses` | jobs/lib/host_baseline.py:816-821 | an interface with an address outside the topology is a problem |
| `NetworkBuild.FindManagement` | jobs/lib/host_baseline.py:646-675 | the management bridge is the one interface with the primary address, with a gateway inside its network |
| `NetworkOrder.CleanAnyOrder` | jobs/lib/host_baseline.py:632-829 | whether the topology is consistent does not depend on the listing order |
| `NetworkOrder.ModelAnyOrder` | jobs/lib/host_baseline.py:632-829 | neither does the model |
| `NetworkPlan.TextAnyOrder` | jobs/lib/host_baseline.py:922-964 | the rendered text is the same for every listing order of the interfaces |
| `NetworkPlan.PlanNetwork` | jobs/baremetal/host_baseline.py:366-376 | a file is rendered iff the topology is consistent and every port is matched, and it is the rendering of that model |
| `NetworkMatch.MatchPorts` | jobs/lib/host_baseline.py:862-895 | no problem iff every port has exactly one physical NIC with its MAC and no two ports the same; the names are then defined for exactly the ports |
| `NetworkMatch.PermanentAddressCounts` | jobs/lib/host_baseline.py:866-872 | a NIC goes by its permanent address, and by its current one only where it reports none |
| `NetworkMatch.ByMac` | jobs/lib/host_baseline.py:866-872 | the grouping loop lists under each address the physical NICs that have it, the permanent address first |
| `NetworkMatch.NamesAreInjective` | jobs/lib/host_baseline.py:876-894 | different ports get different NICs, each physical and with the port's MAC |
| `NetworkRender.RenderInterfaces` | jobs/lib/host_baseline.py:922-964 | the loops that collect the stanzas produce the rendered text |
| `NetworkRender.StanzaMember` | jobs/lib/host_baseline.py:928-963 | the stanzas of the file are loopback and one for each port, bond and bridge of the model, and no others |
| `NetworkForest.EveryNameHasStanza` | jobs/lib/host_baseline.py:928-963 | every name in bond-slaves and bond-primary has a port's stanza in the file, every name in bridge-ports a port's or a bond's, and every bond-primary is one of its bond's slaves |
| `NetworkForest.ModelPorts` | jobs/lib/host_baseline.py:688-705 | the ports of the model are exactly the bond members and the attached ports, each once |
| `NetworkForest.PortNamesDiffer` | jobs/lib/host_baseline.py:925-926 | ports of different interfaces have different Linux names |
| `NetworkOnce.OneAddress` | jobs/lib/host_baseline.py:948-955 | exactly one stanza of the file writes an address, the primary one with its gateway |
| `NetworkOnce.AddressIsWritten` | jobs/lib/host_baseline.py:949-957 | a bridge's text has its address line right after a static head iff it has an address, and goes on with its ports after a manual head otherwise |
| `NetworkSlaves.NothingEnslavedTwice` | jobs/lib/host_baseline.py:934-957 | no name is enslaved twice, in one stanza or in two, iff no port's NIC is named like a bond attached to a bridge |
| `NetworkClash.NicNamedLikeBondIsEnslavedTwice` | jobs/lib/host_baseline.py:934-957 | an accepted topology whose file enslaves a name twice |
| `NetworkClash.NicNamedLikeBridgeIsALoop` | jobs/lib/host_baseline.py:925-957 | an accepted topology whose file enslaves nothing twice, and has a bridge among its own ports |
| `NetworkClash.NameWithBreakIsLost` | jobs/lib/host_baseline.py:499-500 | an accepted topology, one port under a bridge whose name ends in a line break, whose file does not read back |
| `NetworkClash.NicNamedNoneIsLost` | jobs/lib/host_baseline.py:955-956 | an accepted topology, one port under a bridge, whose file does not read back because the port's NIC is named `none` |
| `NetworkTree.ForestIffNamesFree` | jobs/lib/host_baseline.py:922-964 | the stanzas are a forest - one stanza for each name, every referenced name has one, no name has two parents, every child ranks below its parent - iff no port's NIC is named `lo` or like a bond or bridge of the model; for the text see `NetworkFile.FileIsForestIff` |
| `NetworkTree.OneStanzaPerName` | jobs/lib/host_baseline.py:928-963 | no two stanzas carry the same name iff that condition holds |
| `NetworkTree.RankDrops` | jobs/lib/host_baseline.py:934-957 | with one stanza for each name, what a stanza enslaves ranks below it (port, bond, bridge), so there is no cycle |
| `NetworkRead.FileReads` | jobs/lib/host_baseline.py:922-964 | a file of stanzas with one-word names reads back, line by line, as exactly one entry for each stanza, in order, with its way, the names it enslaves and its options |
| `NetworkRead.StanzaReads` | jobs/lib/host_baseline.py:922-964 | the lines of one stanza read back as its name, its way, the names it enslaves and its options |
| `NetworkOptions.OptionsRead` | jobs/lib/host_baseline.py:928-963 | by a reader with its own keywords and words, the lines of a stanza say its MTU, mode, hash policy, LACP rate, miimon, primary, address, gateway, VLAN ids and note, each iff the stanza has it (a zero is no MTU) |
| `NetworkOptions.NoteIsWords` | jobs/lib/host_baseline.py:917-919 | a note is the words of the description with one blank between them |
| `NetworkFile.ReadsBackIff` | jobs/lib/host_baseline.py:922-964 | the rendered file reads back as the stanzas - names, ways, enslaved names and options alike - iff no bond's or bridge's name ends in a line break and no bridge's one port is a NIC named `none` |
| `NetworkFile.FileIsForestIff` | jobs/lib/host_baseline.py:922-964 | the file reads back and is a forest iff that holds and no port's NIC is named `lo` or like a bond or bridge of the model |
| `NetworkFile.MembersCarryBondMtu` | jobs/lib/host_baseline.py:744-764 | the entry that the file has for each member of a bond with an MTU of its own reads that MTU |
| `NetworkSays.BondIsSaid` | jobs/lib/host_baseline.py:922-964 | the file that is read has an entry for every bond with its name, its members' NICs in order, its primary and all its fields, its own MTU or its members' largest |
| `NetworkSays.BridgeIsSaid` | jobs/lib/host_baseline.py:922-964 | and for every bridge with its name, its ports in order, its VLAN ids and MTU, and address and gateway iff it carries the primary address |
| `NetworkSays.MemberIsSaid` | jobs/lib/host_baseline.py:922-964 | and for every bond member under its NIC's name, with its own MTU or else the bond's |
| `NetworkSays.AttachedIsSaid` | jobs/lib/host_baseline.py:922-964 | and for every port attached to a bridge under its NIC's name, with its own MTU |
| `NetworkLines.NothingElse` | jobs/lib/host_baseline.py:922-964 | the file has no line beyond its header, the lines that its entries account for, and the drop-in directory at the end; it brings up exactly its interfaces, loopback first, then ports, bonds and bridges, each by name |
| `NetworkSlaves.GroupsApart` | jobs/lib/host_baseline.py:694-697 | in a consistent topology no interface has two parents |
| `InstallNic.InstallNicIsManagementPort` | jobs/lib/host_baseline.py:539-602 | on a consistent topology a derived NIC is a physical port of the model with a MAC, reached from the management bridge directly or through a bond on it; of an active-backup bond with several members it is the primary |
| `InstallNic.DeriveSucceedsIff` | jobs/lib/host_baseline.py:563-602 | on a consistent topology the derivation succeeds iff each choice on the way has one member or one flagged member |
| `InstallNic.ActiveBackupPicks` | jobs/lib/host_baseline.py:739-748 | below an active-backup bond there is always such a choice |
| `InstallNic.PickIsExact` | jobs/lib/host_baseline.py:539-560 | a member is picked iff there is exactly one or exactly one is flagged |
| `InstallNic.PickAnyOrder` | jobs/lib/host_baseline.py:539-560 | the listing order of the members does not decide |
| `InstallRules.DeriveMeans` | jobs/lib/host_baseline.py:563-602 | on any device, consistent or not, the NIC and the chain are those of the way from the one interface with the address through its bridge and its bond, each time to the only member or the only flagged one |
| `InstallRules.PickRefusals` | jobs/lib/host_baseline.py:539-560 | exactly when each refusal of a choice comes: no member, several flagged ones, several of which none is flagged |
| `InstallRules.DeriveRefusals` | jobs/lib/host_baseline.py:563-602 | on any device, exactly when the derivation refuses and with which refusal: the address is on no interface or on several, or on the way a choice is refused, or the way ends at a bridge or a bond |
| `VlanRanges.BridgeVids` | jobs/lib/host_baseline.py:616-629 | for any list, in any order and with duplicates, the ranges expand to exactly the listed ids and are increasing and maximal |
| `VlanRanges.MaximalUnique` | jobs/lib/host_baseline.py:616-629 | only one list of maximal ranges covers a given set, so the output depends on the set alone |
| `VlanRanges.TextReads` | jobs/lib/host_baseline.py:616-629 | reading the rendered value gives the ranges back |
| `VlanRanges.SameIdsSameText` | jobs/lib/host_baseline.py:616-629 | lists with the same ids give the same text |
| `KeyStore.PurgeIsInvisible` | bmc/answer_service/app.py:237-278 | over any run with a monotone clock and any restarts, every peek and consume gets the answer of a store that never drops expired keys |
| `KeyStore.AnswerIffOutstanding` | bmc/answer_service/app.py:255-278 | a key is accepted iff an earlier call issued it for that serial and purpose, less than the credentials lifetime (for credentials) or the key lifetime (else) ago, and nothing replaced or spent it since |
| `KeyStore.ConsumedOncePerIssue` | bmc/answer_service/app.py:270-278 | between two accepted uses, the first of them a consume, the key was issued anew |
| `KeyStore.FailedConsumeIsHarmless` | bmc/answer_service/app.py:270-278 | a rejected consume changes the answer of no later call |
| `KeyStore.Store.IssueKey` | bmc/answer_service/app.py:246-252 | issuing stores the entry and drops what has expired |
| `KeyStore.Store.PeekKey` | bmc/answer_service/app.py:264-267 | a peek judges the entry and changes nothing |
| `KeyStore.Store.ConsumeKey` | bmc/answer_service/app.py:270-278 | an accepted consume removes the key, a rejected one leaves the file as it was |
| `KeyStore.Store.SaveKeys` | bmc/answer_service/app.py:237-243 | saving drops exactly the expired entries |
| `AnswerService.CredentialsCausalChain` | bmc/answer_service/app.py:1008-1095 | over any run, credentials are stored only within the credentials TTL of a firstboot for the serial, itself within the key TTL of an answer given while the Device had the NFV role and awaited its install |
| `AnswerService.StateChangeCausalChain` | bmc/answer_service/app.py:1105-1137 | every change of provisioning_state by the service goes back to such an answer for that Device's serial, directly for a webhook and through a firstboot for credentials |
| `AnswerReplies.CredentialsGoToTheDevice` | bmc/answer_service/app.py:1008-1095 | a step that stores a token, sets a secrets group or advances a Device by credentials has a good key, the one Device with the serial, a source that is the Device's address where that is checked, and a complete token; it changes only that Device and the entry <name>-proxmox, which gets the request's token |
| `AnswerReplies.OnlyCredentialsStore` | bmc/answer_service/app.py:773-1137 | no other request stores a token or sets a secrets group |
| `AnswerReplies.CredentialsSucceed` | bmc/answer_service/app.py:1008-1095 | a credentials call succeeds iff all that holds and the records can be written; the Device then no longer awaits its install |
| `AnswerReplies.CredentialsRefusals` | bmc/answer_service/app.py:1008-1095 | which refusal has which cause |
| `AnswerReplies.AnswerSucceeds` | bmc/answer_service/app.py:773-923 | an answer is given iff the one Device with the serial has the NFV role and awaits its install, no check refuses it and the file renders |
| `AnswerReplies.FirstbootSucceeds` | bmc/answer_service/app.py:933-967 | a firstboot succeeds iff its key is good, one Device has the serial and no check refuses it |
| `AnswerReplies.WebhookSucceeds` | bmc/answer_service/app.py:1105-1137 | a webhook call is recorded iff its key is good, one Device has the serial, and the Device need not be advanced or is |
| `AnswerReplies.AnswerRefusals` | bmc/answer_service/app.py:773-923 | on a Device that may be installed, a failing check gives its own status and changes nothing; a file that cannot be rendered is a 500 |
| `AnswerReplies.CredentialsFailLate` | bmc/answer_service/app.py:1036-1095 | what a failure after the first write leaves: the token in its group, the Device's record written only if the write was done, the key unspent, a 502 |
| `AnswerReplies.WebhookRefusals` | bmc/answer_service/app.py:1105-1137 | a report that cannot be recorded is a 502 and leaves its key good |
| `AnswerReplies.InstallCompletes` | bmc/answer_service/app.py:773-1095 | answer, firstboot and credentials in time, with the keys handed out on the way, go through for any one Device that awaits its install, and end with its token stored and it installed |
| `AnswerReplies.ReportCompletes` | bmc/answer_service/app.py:1105-1137 | so does the installer's report with its own key |
| `AnswerService.CredentialsKeyChain` | bmc/answer_service/app.py:1008-1026 | a credentials key that is accepted is the end of such a chain, whatever becomes of the request |
| `AnswerService.FirstbootFollowsAnswer` | bmc/answer_service/app.py:933-967 | a firstboot that issued a credentials key follows, within the key TTL, an answer for the same serial |
| `AnswerService.ServiceChangesState` | bmc/answer_service/app.py:1105-1137 | a step changes provisioning_state only from awaiting_install to bm_installed, only on the one Device with the serial, only under a valid webhook or credentials key; it changes no other field but the secrets group |
| `AnswerService.SuccessLeavesAwaiting` | bmc/answer_service/app.py:1008-1095 | after a successful credentials or webhook call the Device no longer awaits its install |
| `AnswerService.FailedStepKeepsKeys` | bmc/answer_service/app.py:1008-1095 | a refused request burns no key that was still good when it ended |
| `AnswerService.SuccessSpendsKey` | bmc/answer_service/app.py:1105-1137 | right after a successful request its key opens nothing, at any later time |
| `AnswerService.KeySpentOverRuns` | bmc/answer_service/app.py:270-278 | over any run with a clock that does not go back, some event issued the key anew between two successful requests under it |
| `AnswerService.EveryKeyHasAMaker` | bmc/answer_service/app.py:246-252 | every key in the store was issued by an earlier step of the run that was entitled to it |
| `AnswerService.Lookup` | bmc/answer_service/app.py:299-313 | a serial is resolved iff exactly one Device has it |
| `AnswerReplies.LookupFails` | bmc/answer_service/app.py:299-313 | an unknown serial is a 403, one that several Devices carry a 409 |
| `AnswerService.Service.AnswerImpl` | bmc/answer_service/app.py:773-923 | the handler does what its step says, keys on disk included |
| `AnswerService.Service.FirstbootImpl` | bmc/answer_service/app.py:933-967 | the handler does what its step says, keys on disk included |
| `AnswerService.Service.CredentialsImpl` | bmc/answer_service/app.py:1008-1095 | the handler does what its step says, keys on disk included |
| `AnswerService.Service.WebhookImpl` | bmc/answer_service/app.py:1105-1137 | the handler does what its step says, keys on disk included |
| `Toml.QuotedRoundTrip` | bmc/answer_service/app.py:113-130 | a reader of TOML basic strings takes exactly the printed string and gives the text back, whatever follows it |
| `Toml.ScalarRoundTrip` | bmc/answer_service/app.py:113-130 | printed booleans, integers and strings read back as the same value of the same type |
| `Toml.BodyIsPlain` | bmc/answer_service/app.py:116-128 | the printed body is a run of plain characters and complete escapes: no raw control character, and quotes and backslashes only in escapes |
| `Toml.EscapedEndsAtQuote` | bmc/answer_service/app.py:116-130 | any such body, with a quote after it, is read exactly up to that quote |
| `Toml.KeyRoundTrip` | bmc/answer_service/app.py:133-136 | a printed key reads back, bare or quoted |
| `Toml.KeyInjective` | bmc/answer_service/app.py:133-136 | different keys print differently |
| `Toml.EscapeIsShortest` | bmc/answer_service/app.py:116-128 | of the texts without control characters that read as a character the printed one is the shortest |
| `Toml.EscapesInCapitals` | bmc/answer_service/app.py:123-128 | what has no short escape is a control character, written with four digits in capitals |
| `Toml.BareKeys` | bmc/answer_service/app.py:133-136 | a key is printed bare iff it is letters, digits, underscores and dashes, and not empty |
| `Toml.TomlValue` | bmc/answer_service/app.py:113-130 | the escaping loop computes the printed value |
| `DeployRollback.RollbackSafeIffNamesDistinct` | jobs/proxmox/deploy_device.py:485-536 | in every interleaving no rollback destroys a VM that its own run did not create, iff no two runs of the history carry the same device name |
| `DeployRollback.SerialRunsAreSafe` | jobs/proxmox/deploy_device.py:418-536 | names may repeat: in every interleaving in which a run checks its name only while no other run of that name is under way or has an open create task, no rollback destroys a VM that its own run did not create |
| `DeployRollback.DistinctIsSerial` | jobs/proxmox/deploy_device.py:418-536 | with distinct names every possible interleaving is serial in this sense |
| `DeployRollback.OnlyOwnerRemoves` | jobs/proxmox/deploy_device.py:485-536 | in a serial interleaving a VM leaves the node only by the rollback of the run that created it, and every other VM stays as it was |
| `DeployRollback.EarlierVmsSurvive` | jobs/proxmox/deploy_device.py:418-424 | VMs that were there before survive every serial interleaving unchanged |
| `DeployRollback.RunInv` | jobs/proxmox/deploy_device.py:418-433 | the invariant behind these holds after every serial interleaving; for when a run passes its check see `DeployProgress.ListDecides` |
| `DeployRollback.RollbackDecision` | jobs/lib/proxmox_client.py:105-125 | absent iff no VM has the vmid; destroy iff the first VM with the vmid has the deploy's own non-empty name |
| `DeployProgress.ListDecides` | jobs/proxmox/deploy_device.py:418-424 | the name check passes iff no VM on the node has the name and ends the run iff some VM has |
| `DeployProgress.DeployCanSucceed` | jobs/proxmox/deploy_device.py:418-484 | from every reachable state a run whose name no VM has can deploy under any free vmid, adding exactly its VM |
| `DeployProgress.RollbackCanSucceed` | jobs/proxmox/deploy_device.py:485-536 | from every reachable state a named run whose task made its VM can fail and remove exactly that VM |
| `DeployProgress.FailureIsDecided` | jobs/proxmox/deploy_device.py:485-536 | from every reachable state a refused create call and a later failure reach the rollback's decision, with the node untouched: absent iff no VM has the vmid, destroy iff the VM there has the run's own name |
| `DeployProgress.RefusedLeavesNoTrace` | jobs/proxmox/deploy_device.py:418-484 | a run that is refused by the name check or aborted before its create call never has a VM and destroys none, in any interleaving |
| `DeployProgress.DeadTaskMakesNothing` | jobs/proxmox/deploy_device.py:418-536 | a run whose create task died never has a VM, in any interleaving |
| `DeployProgress.OverIsFinal` | jobs/proxmox/deploy_device.py:485-536 | a run that is over stays over and destroys nothing any more |
| `DeployRollback.Clash` | jobs/proxmox/deploy_device.py:485-536 | two runs of one name: an interleaving in which one destroys the other's VM |
| `DeployRollback.OpenTaskClash` | jobs/proxmox/deploy_device.py:418-536 | two runs of one name, the second not started before the first is over: an interleaving in which it still destroys a VM it did not create, because the first left its create task open |
| `TaskWait.WaitTask` | jobs/lib/proxmox_client.py:199-254 | the result is the first decision within the budget; success iff that is a stopped status OK or WARNINGS, failure iff it is another stopped status, refused iff the request was refused, lost contact iff five polls in a row fail before any decision, timeout iff nothing decides; the number of polls and the time slept are bounded |
| `TaskWait.ExitOutcome` | jobs/lib/proxmox_client.py:79-102 | which exit statuses succeed and which carry warnings |
| `TaskWait.WarningsAreCounted` | jobs/lib/proxmox_client.py:79-102 | the status PVE writes for n warnings is a success that reports n |
| `TaskWait.LostIffFiveFailures` | jobs/lib/proxmox_client.py:213-239 | the failure counter reaches five iff the last five polls failed |
| `TaskWait.DelayIs` | jobs/lib/proxmox_client.py:213-254 | after k failed polls in a row the wait is k poll intervals, at most the larger of 30 seconds and one interval |
| `TaskWait.WaitedGrows` | jobs/lib/proxmox_client.py:231-254 | each indecisive poll adds at least the poll interval to the time waited |
| `NicOrder.Resolve` | jobs/lib/platform_facts.py:54-101 | on a pattern platform the order is found iff the names are mgmt and, in any order, the dataplane names 1..n for some n; position k then holds index k; the three refusals are told apart. A fixed list is returned as it is |
| `NicOrder.ResolvedIsPermutation` | jobs/lib/platform_facts.py:54-101 | for distinct names the order is a rearrangement of all of them without repeats |
| `NicOrder.PermutationIsAcceptable` | jobs/lib/platform_facts.py:54-101 | conversely any rearrangement of mgmt and prefix 1..n is accepted |
| `NicOrder.ContiguousIffAcceptable` | jobs/lib/platform_facts.py:95-100 | the sorted-indices check accepts exactly the lists that are a permutation of 1..n |
| `NicOrder.Classify` | jobs/lib/platform_facts.py:71-82 | the loop splits the names into canonical indices and names that match nothing |
| `NicOrder.IndexInvertsDataplane` | jobs/lib/platform_facts.py:75-81 | reading an index and printing a name are inverse |

## Left out

- HTTP, Redfish, SSH, the Nautobot and Proxmox APIs, templates, ISO building and subprocesses: what they answer is an input of the model, or an event of its runs.
- Error wording and logging: refusals are constructors that name the rule and what it was about.
- StorageApply.Adapter.Apply: does not model controller selection by glob and the waits on the clock (jobs/lib/storage_layout.py:314-346); that the adapter enumerates, and how many of the requested volumes appear, are inputs of `Adapter.Apply`. A volume that appears after its wait ran out is the case of one more executed create.
- Storage: an adapter that lists volume or drive ids as null. Ids and paths are strings, names may be absent.
- Storage: the waits and controller of the profile outside its volume list.
- Text: `strip`, `lower`, `upper`, `\s` and `\d` are modelled on ASCII, with the few other characters whose case folds to one ASCII letter; names with a digit outside ASCII are not in the model.
- Service accounts: the shell quoting of the calls and the verification of stored tokens; calls are structured commands, and the stored-token verdicts are inputs. That PVE drops a token's ACL entries with the token is an assumption about the node, stated as a predicate.
- Accounts, realm and network: the validators of the other config sections (packages, SNMP, mail), which check one value each.
- NetworkBuild.FindManagement: takes the verdicts of the ipaddress library on address and gateway as inputs, the address being no empty text; an MTU that is not an integer is an integer out of range; a mode other than tagged-all, tagged and access is no mode.
- NetworkMatch.MatchPorts: takes the links as already parsed; `parse_ip_link`, the bonding report and the rollback-timer exchange with the node. The header of the rendered file is a parameter; reading the file back takes it to have no `iface` line, as its comment lines have none.
- NetworkBuild.BuildNetworkModel: relies on unique ids and names among the interfaces of one device, as Nautobot keeps them.
- KeyStore.Store.IssueKey: does not model a key file that cannot be read or parsed, a save that fails (the handlers take every save to succeed), or two processes on one file. The random key is an input; a fresh key that repeats an old one is allowed and replaces it.
- AnswerService.Service.AnswerImpl: sums up the checks of profile, inputs and API between the state gate and the keys as the status of the first that fails.
- AnswerService.Service.FirstbootImpl: does the same for its checks.
- AnswerService.Service.CredentialsImpl: sums up the secret files and records that are written as one stored token and one verdict. Two Devices whose names differ but give the same file slug share the files, which the model keeps apart.
- Handlers: each is one step on the Device record; two interleaved writes of custom fields are not modelled. Rendering either works or not.
- Toml.TomlValue: does not model floats, which are printed as Python prints them; strings are sequences of Unicode scalar values.
- Deploys: what happens between creating a VM and the end of a run (disks, cloud-init, start) is one success or failure; VMs removed by hand and deploys of other clusters are outside.
- Task polling: the clock is the sum of the sleeps, as in the source.
