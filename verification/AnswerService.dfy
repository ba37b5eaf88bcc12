/** The four handlers of the answer service (bmc/answer_service/app.py
    _answer_impl, _firstboot_impl, _firstboot_credentials_impl, _webhook_impl)
    on the Device records and the one-time keys. Each handler is one step;
    everything that can go wrong outside the service is an input of the step. */
module AnswerService {
  import opened Prelude
  import opened KeyStore

  const NFV_ROLE := "NFV"
  const AWAITING := "awaiting_install"
  const INSTALLED := "bm_installed"

  datatype Device = Device(
    name: string,
    serial: string,
    role: string,
    state: string,
    secretsGroup: Option<string>,
    managementIp: Option<string>)

  datatype Token = Token(id: string, secret: string)

  /** tokens: the stored API token of each SecretsGroup. */
  datatype World = World(devices: map<nat, Device>, keys: Keys, tokens: map<string, Token>)

  datatype Reply =
    | Refused(status: nat)
    | Answered(firstbootKey: string, webhookKey: string)
    | Script(credentialsKey: string)
    | Stored(group: string)
    | Recorded

  /** A PATCH of the Device record either takes effect and says so, does not
      take effect, or takes effect while its response is lost. */
  datatype Patch = Done | NotDone | DoneButLost

  /** Clock readings of one handler, in order: when it judges its key, when it
      issues keys and saves them, when it spends its key and saves that. */
  datatype Clock = Clock(peek: int, issue1: int, saved1: int, issue2: int, saved2: int, consume: int, saved: int)

  predicate Ticks(c: Clock) {
    c.peek <= c.issue1 <= c.saved1 <= c.issue2 <= c.saved2 <= c.consume <= c.saved
  }

  /** The requests, with what the surroundings do while each is handled (refusal
      is the status of the first check of profile, inputs or API that fails), and
      External: anyone else edits Device records or stores tokens. */
  datatype Event =
    | AnswerRequest(serial: string, refusal: Option<nat>, renderOk: bool, firstbootKey: string, webhookKey: string,
                    clock: Clock)
    | FirstbootRequest(serial: string, key: string, refusal: Option<nat>, renderOk: bool, credentialsKey: string,
                       clock: Clock)
    | CredentialsRequest(serial: string, key: string, client: Option<string>, token: Token, secretsOk: bool,
                         patch: Patch, clock: Clock)
    | WebhookRequest(serial: string, key: string, patch: Patch, clock: Clock)
    | External(devices: map<nat, Device>, tokens: map<string, Token>, clock: Clock)

  // ---- looking the Device up ------------------------------------------------------

  function Matches(devices: map<nat, Device>, serial: string): set<nat> {
    set d | d in devices && devices[d].serial == serial
  }

  /** d is the one Device that carries the serial. */
  ghost predicate OnlyDevice(devices: map<nat, Device>, serial: string, d: nat) {
    Matches(devices, serial) == {d}
  }

  /** device_by_serial: nobody is 403 (in the callers), several are 409. */
  function Lookup(devices: map<nat, Device>, serial: string): (r: Result<nat, nat>)
    ensures r.Ok? <==> exists d :: OnlyDevice(devices, serial, d)
    ensures r.Ok? ==> OnlyDevice(devices, serial, r.value) && r.value in devices && devices[r.value].serial == serial
  {
    var m := Matches(devices, serial);
    if m == {} then Err(403)
    else if exists d :: d in m && m == {d} then
      var d: nat :| d in m && m == {d};
      assert OnlyDevice(devices, serial, d);
      Ok(d)
    else
      assert forall d :: OnlyDevice(devices, serial, d) ==> d in m;
      Err(409)
  }

  // ---- the handlers ----------------------------------------------------------------

  function Issued(cfg: Config, keys: Keys, key: string, serial: string, purpose: Purpose, now: int, saved: int): Keys {
    Step(cfg, keys, Issue(key, serial, purpose, now, saved))
  }

  function Consumed(cfg: Config, keys: Keys, key: string, serial: string, purpose: Purpose, now: int, saved: int): Keys
  {
    Step(cfg, keys, Consume(key, serial, purpose, now, saved))
  }

  function AnswerStep(cfg: Config, w: World, e: Event): (World, Reply)
    requires e.AnswerRequest?
  {
    if e.serial == "" then (w, Refused(400))
    else
      match Lookup(w.devices, e.serial)
      case Err(status) => (w, Refused(status))
      case Ok(d) =>
        if w.devices[d].role != NFV_ROLE || w.devices[d].state != AWAITING then (w, Refused(403))
        else if e.refusal.Some? then (w, Refused(e.refusal.value))
        else
          var keys1 := Issued(cfg, w.keys, e.firstbootKey, e.serial, Firstboot, e.clock.issue1, e.clock.saved1);
          var keys2 := Issued(cfg, keys1, e.webhookKey, e.serial, Webhook, e.clock.issue2, e.clock.saved2);
          (w.(keys := keys2), if e.renderOk then Answered(e.firstbootKey, e.webhookKey) else Refused(500))
  }

  function FirstbootStep(cfg: Config, w: World, e: Event): (World, Reply)
    requires e.FirstbootRequest?
  {
    if !Valid(cfg, w.keys, e.key, e.serial, Firstboot, e.clock.peek) then (w, Refused(403))
    else
      match Lookup(w.devices, e.serial)
      case Err(status) => (w, Refused(status))
      case Ok(d) =>
        if e.refusal.Some? then (w, Refused(e.refusal.value))
        else
          var keys := Issued(cfg, w.keys, e.credentialsKey, e.serial, Credentials, e.clock.issue1, e.clock.saved1);
          if !e.renderOk then (w.(keys := keys), Refused(500))
          else
            // The result of the consume is not looked at.
            (w.(keys := Consumed(cfg, keys, e.key, e.serial, Firstboot, e.clock.consume, e.clock.saved)),
             Script(e.credentialsKey))
  }

  function Advance(state: string): string { if state == AWAITING then INSTALLED else state }

  function CredentialsStep(cfg: Config, verifySource: bool, w: World, e: Event): (World, Reply)
    requires e.CredentialsRequest?
  {
    if !Valid(cfg, w.keys, e.key, e.serial, Credentials, e.clock.peek) then (w, Refused(403))
    else
      match Lookup(w.devices, e.serial)
      case Err(status) => (w, Refused(status))
      case Ok(d) =>
        var device := w.devices[d];
        if verifySource && device.managementIp.Some? && device.managementIp != e.client then (w, Refused(403))
        else if e.token.id == "" || e.token.secret == "" then (w, Refused(400))
        else
          var group := device.name + "-proxmox";
          var w1 := w.(tokens := w.tokens[group := e.token]);
          if !e.secretsOk || e.patch.NotDone? then (w1, Refused(502))
          else
            var w2 := w1.(devices :=
              w.devices[d := device.(secretsGroup := Some(group), state := Advance(device.state))]);
            if e.patch.DoneButLost? then (w2, Refused(502))
            else
              (w2.(keys := Consumed(cfg, w.keys, e.key, e.serial, Credentials, e.clock.consume, e.clock.saved)),
               Stored(group))
  }

  function WebhookStep(cfg: Config, w: World, e: Event): (World, Reply)
    requires e.WebhookRequest?
  {
    if !Valid(cfg, w.keys, e.key, e.serial, Webhook, e.clock.peek) then (w, Refused(403))
    else
      match Lookup(w.devices, e.serial)
      case Err(status) => (w, Refused(status))
      case Ok(d) =>
        var device := w.devices[d];
        if device.state == AWAITING && e.patch.NotDone? then (w, Refused(502))
        else
          var w1 := w.(devices := w.devices[d := device.(state := Advance(device.state))]);
          if device.state == AWAITING && e.patch.DoneButLost? then (w1, Refused(502))
          else
            (w1.(keys := Consumed(cfg, w.keys, e.key, e.serial, Webhook, e.clock.consume, e.clock.saved)), Recorded)
  }

  function Handle(cfg: Config, verifySource: bool, w: World, e: Event): (World, Reply) {
    match e
    case AnswerRequest(_, _, _, _, _, _) => AnswerStep(cfg, w, e)
    case FirstbootRequest(_, _, _, _, _, _) => FirstbootStep(cfg, w, e)
    case CredentialsRequest(_, _, _, _, _, _, _) => CredentialsStep(cfg, verifySource, w, e)
    case WebhookRequest(_, _, _, _) => WebhookStep(cfg, w, e)
    case External(devices, tokens, _) => (w.(devices := devices, tokens := tokens), Recorded)
  }

  // ---- what one step may do --------------------------------------------------------

  /** The key that licenses a change of the Device record. */
  ghost predicate Licensed(cfg: Config, w: World, e: Event) {
    (e.WebhookRequest? && Valid(cfg, w.keys, e.key, e.serial, Webhook, e.clock.peek))
    || (e.CredentialsRequest? && Valid(cfg, w.keys, e.key, e.serial, Credentials, e.clock.peek))
  }

  /** The service changes provisioning_state only from awaiting_install to
      bm_installed, only on the one Device with the request's serial and only
      under a valid webhook or credentials key for that serial; the role, serial
      and name of a Device it never changes, and it adds and removes none. */
  lemma ServiceChangesState(cfg: Config, verifySource: bool, w: World, e: Event, d: nat)
    requires !e.External? && d in w.devices
    ensures var w' := Handle(cfg, verifySource, w, e).0;
            w'.devices.Keys == w.devices.Keys
            && w'.devices[d].(state := w.devices[d].state, secretsGroup := w.devices[d].secretsGroup) == w.devices[d]
            && (w'.devices[d].state != w.devices[d].state ==>
                  w.devices[d].state == AWAITING && w'.devices[d].state == INSTALLED
                  && Licensed(cfg, w, e) && OnlyDevice(w.devices, e.serial, d))
            && (w'.devices[d].secretsGroup != w.devices[d].secretsGroup ==>
                  e.CredentialsRequest? && Licensed(cfg, w, e) && OnlyDevice(w.devices, e.serial, d))
  {}

  /** A success advances the Device, so the reinstall gate is closed. */
  lemma SuccessLeavesAwaiting(cfg: Config, verifySource: bool, w: World, e: Event)
    requires e.CredentialsRequest? || e.WebhookRequest?
    requires !Handle(cfg, verifySource, w, e).1.Refused?
    ensures exists d :: OnlyDevice(w.devices, e.serial, d) && d in Handle(cfg, verifySource, w, e).0.devices
              && Handle(cfg, verifySource, w, e).0.devices[d].state != AWAITING
  {
    var d := Lookup(w.devices, e.serial).value;
    assert OnlyDevice(w.devices, e.serial, d);
  }

  /** A step that does not succeed burns no key: whatever key was good when it
      ended is as good afterwards, so the node can try again. */
  lemma FailedStepKeepsKeys(cfg: Config, verifySource: bool, w: World, e: Event, key: string)
    requires Ticks(e.clock) && Handle(cfg, verifySource, w, e).1.Refused?
    requires key in w.keys && Live(cfg, w.keys[key], e.clock.saved)
    requires e.AnswerRequest? ==> key != e.firstbootKey && key != e.webhookKey
    requires e.FirstbootRequest? ==> key != e.credentialsKey
    ensures var keys := Handle(cfg, verifySource, w, e).0.keys; key in keys && keys[key] == w.keys[key]
  {}

  /** A successful step spends its key: it opens nothing from then on. */
  lemma SuccessSpendsKey(cfg: Config, verifySource: bool, w: World, e: Event, purpose: Purpose, t: int)
    requires Ticks(e.clock) && t >= e.clock.saved
    requires e.FirstbootRequest? || e.CredentialsRequest? || e.WebhookRequest?
    requires purpose ==
      if e.FirstbootRequest? then Firstboot else if e.CredentialsRequest? then Credentials else Webhook
    requires !Handle(cfg, verifySource, w, e).1.Refused?
    ensures !Valid(cfg, Handle(cfg, verifySource, w, e).0.keys, e.key, e.serial, purpose, t)
  {}

  // ---- whole runs -------------------------------------------------------------------

  /** The world before event n, starting without keys. */
  function WorldAt(cfg: Config, verifySource: bool, start: World, es: seq<Event>, n: nat): World
    requires n <= |es|
  {
    if n == 0 then start.(keys := map[])
    else Handle(cfg, verifySource, WorldAt(cfg, verifySource, start, es, n - 1), es[n - 1]).0
  }

  function ReplyAt(cfg: Config, verifySource: bool, start: World, es: seq<Event>, n: nat): Reply
    requires n < |es|
  {
    Handle(cfg, verifySource, WorldAt(cfg, verifySource, start, es, n), es[n]).1
  }

  /** Event i was an /answer that got as far as issuing its keys: at that moment
      the one Device with the serial had the NFV role and was awaiting_install. */
  ghost predicate AnsweredFor(w: World, e: Event, serial: string) {
    e.AnswerRequest? && e.serial == serial && e.refusal.None?
    && exists d :: d in w.devices && OnlyDevice(w.devices, serial, d)
                   && w.devices[d].role == NFV_ROLE && w.devices[d].state == AWAITING
  }

  /** Event j was a /firstboot under a valid key that got as far as issuing the
      credentials key. */
  ghost predicate FirstbootedFor(cfg: Config, w: World, e: Event, serial: string) {
    e.FirstbootRequest? && e.serial == serial && e.refusal.None?
    && Valid(cfg, w.keys, e.key, serial, Firstboot, e.clock.peek)
  }

  /** The entry was made by event e of the run. */
  ghost predicate MadeBy(cfg: Config, w: World, e: Event, key: string, entry: Entry) {
    match entry.purpose
    case Firstboot => AnsweredFor(w, e, entry.serial) && key == e.firstbootKey && entry.issued == e.clock.issue1
    case Webhook => AnsweredFor(w, e, entry.serial) && key == e.webhookKey && entry.issued == e.clock.issue2
    case Credentials =>
      FirstbootedFor(cfg, w, e, entry.serial) && key == e.credentialsKey && entry.issued == e.clock.issue1
  }

  lemma NewEntries(cfg: Config, verifySource: bool, w: World, e: Event, key: string)
    requires key in Handle(cfg, verifySource, w, e).0.keys
    ensures var keys := Handle(cfg, verifySource, w, e).0.keys;
            (key in w.keys && keys[key] == w.keys[key]) || MadeBy(cfg, w, e, key, keys[key])
  {
    if e.AnswerRequest? && Lookup(w.devices, e.serial).Ok? {
      assert OnlyDevice(w.devices, e.serial, Lookup(w.devices, e.serial).value);
    }
  }

  /** Every key in the store was made by some event of the run. */
  lemma {:induction false} EveryKeyHasAMaker(cfg: Config, verifySource: bool, start: World, es: seq<Event>, n: nat,
                                             key: string)
    requires n <= |es| && key in WorldAt(cfg, verifySource, start, es, n).keys
    ensures exists i: nat :: i < n && MadeBy(cfg, WorldAt(cfg, verifySource, start, es, i), es[i], key,
                                             WorldAt(cfg, verifySource, start, es, n).keys[key])
  {
    var w := WorldAt(cfg, verifySource, start, es, n - 1);
    NewEntries(cfg, verifySource, w, es[n - 1], key);
    if MadeBy(cfg, w, es[n - 1], key, WorldAt(cfg, verifySource, start, es, n).keys[key]) {
    } else {
      EveryKeyHasAMaker(cfg, verifySource, start, es, n - 1, key);
    }
  }

  /** Event j is a firstboot, under the key of the answer i for the same serial,
      within the key TTL. */
  ghost predicate Followed(cfg: Config, verifySource: bool, start: World, es: seq<Event>, i: nat, j: nat)
    requires i < |es| && j < |es|
  {
    && i < j && es[j].FirstbootRequest?
    && AnsweredFor(WorldAt(cfg, verifySource, start, es, i), es[i], es[j].serial)
    && FirstbootedFor(cfg, WorldAt(cfg, verifySource, start, es, j), es[j], es[j].serial)
    && es[i].firstbootKey == es[j].key && es[j].clock.peek - es[i].clock.issue1 < cfg.keyTtl
  }

  /** A firstboot that issued a credentials key follows, within the key TTL, an
      /answer for the same serial given while the Device awaited its install. */
  lemma FirstbootFollowsAnswer(cfg: Config, verifySource: bool, start: World, es: seq<Event>, j: nat)
    requires j < |es| && es[j].FirstbootRequest?
    requires FirstbootedFor(cfg, WorldAt(cfg, verifySource, start, es, j), es[j], es[j].serial)
    ensures exists i: nat :: i < j && Followed(cfg, verifySource, start, es, i, j)
  {
    EveryKeyHasAMaker(cfg, verifySource, start, es, j, es[j].key);
    var i: nat :| i < j && MadeBy(cfg, WorldAt(cfg, verifySource, start, es, i), es[i], es[j].key,
                                  WorldAt(cfg, verifySource, start, es, j).keys[es[j].key]);
    assert Followed(cfg, verifySource, start, es, i, j);
  }

  /** Event k uses, within the credentials TTL, the key that firstboot j issued
      for the same serial. */
  ghost predicate Redeemed(cfg: Config, es: seq<Event>, j: nat, k: nat)
    requires j < |es| && k < |es|
  {
    && j < k && es[j].FirstbootRequest? && es[k].CredentialsRequest? && es[j].serial == es[k].serial
    && es[j].credentialsKey == es[k].key && es[k].clock.peek - es[j].clock.issue1 < cfg.credentialsTtl
  }

  /** A valid credentials key is the end of a chain. */
  lemma CredentialsKeyChain(cfg: Config, verifySource: bool, start: World, es: seq<Event>, k: nat)
    requires k < |es| && es[k].CredentialsRequest?
    requires Valid(cfg, WorldAt(cfg, verifySource, start, es, k).keys, es[k].key, es[k].serial,
                   Credentials, es[k].clock.peek)
    ensures exists i: nat, j: nat ::
      i < j < k && Followed(cfg, verifySource, start, es, i, j) && Redeemed(cfg, es, j, k)
  {
    EveryKeyHasAMaker(cfg, verifySource, start, es, k, es[k].key);
    var j: nat :| j < k && MadeBy(cfg, WorldAt(cfg, verifySource, start, es, j), es[j], es[k].key,
                                  WorldAt(cfg, verifySource, start, es, k).keys[es[k].key]);
    FirstbootFollowsAnswer(cfg, verifySource, start, es, j);
    var i: nat :| i < j && Followed(cfg, verifySource, start, es, i, j);
    assert Redeemed(cfg, es, j, k);
  }

  /** Credentials are stored only at the end of the whole chain: an /answer for
      that serial while its Device had the NFV role and was awaiting_install,
      then, within the key TTL, a /firstboot with that answer's key, then, within
      the credentials TTL, the store with that firstboot's key. */
  lemma CredentialsCausalChain(cfg: Config, verifySource: bool, start: World, es: seq<Event>, k: nat)
    requires k < |es| && es[k].CredentialsRequest? && ReplyAt(cfg, verifySource, start, es, k).Stored?
    ensures Valid(cfg, WorldAt(cfg, verifySource, start, es, k).keys, es[k].key, es[k].serial,
                  Credentials, es[k].clock.peek)
    ensures exists i: nat, j: nat ::
      i < j < k && Followed(cfg, verifySource, start, es, i, j) && Redeemed(cfg, es, j, k)
  {
    CredentialsKeyChain(cfg, verifySource, start, es, k);
  }

  /** Event k is a webhook call with the key of the answer i for the same
      serial, within the key TTL. */
  ghost predicate Reported(cfg: Config, verifySource: bool, start: World, es: seq<Event>, i: nat, k: nat)
    requires i < |es| && k < |es|
  {
    && i < k && es[k].WebhookRequest?
    && AnsweredFor(WorldAt(cfg, verifySource, start, es, i), es[i], es[k].serial)
    && es[i].webhookKey == es[k].key && es[k].clock.peek - es[i].clock.issue2 < cfg.keyTtl
  }

  ghost predicate ChangesState(cfg: Config, verifySource: bool, w: World, e: Event, d: nat) {
    && !e.External? && d in w.devices && d in Handle(cfg, verifySource, w, e).0.devices
    && Handle(cfg, verifySource, w, e).0.devices[d].state != w.devices[d].state
  }

  /** Every change of provisioning_state the service ever makes is on the Device
      with the request's serial and goes back to an /answer for that serial given
      while its Device had the NFV role and was awaiting_install: directly within
      the key TTL for a webhook, through a firstboot for a credentials call. */
  lemma StateChangeCausalChain(cfg: Config, verifySource: bool, start: World, es: seq<Event>, k: nat, d: nat)
    requires k < |es| && ChangesState(cfg, verifySource, WorldAt(cfg, verifySource, start, es, k), es[k], d)
    ensures es[k].serial == WorldAt(cfg, verifySource, start, es, k).devices[d].serial
    ensures es[k].WebhookRequest? || es[k].CredentialsRequest?
    ensures es[k].WebhookRequest? ==> exists i: nat :: i < k && Reported(cfg, verifySource, start, es, i, k)
    ensures es[k].CredentialsRequest? ==>
      exists i: nat, j: nat :: i < j < k && Followed(cfg, verifySource, start, es, i, j) && Redeemed(cfg, es, j, k)
  {
    var w := WorldAt(cfg, verifySource, start, es, k);
    ServiceChangesState(cfg, verifySource, w, es[k], d);
    assert d in Matches(w.devices, es[k].serial);
    if es[k].WebhookRequest? {
      EveryKeyHasAMaker(cfg, verifySource, start, es, k, es[k].key);
      var i: nat :| i < k && MadeBy(cfg, WorldAt(cfg, verifySource, start, es, i), es[i], es[k].key, w.keys[es[k].key]);
      assert Reported(cfg, verifySource, start, es, i, k);
    } else {
      CredentialsKeyChain(cfg, verifySource, start, es, k);
    }
  }

  // ---- a key over a whole run ---------------------------------------------------------

  /** The clock never goes back, within a step or between two. */
  ghost predicate ClockRuns(es: seq<Event>) {
    && (forall k :: 0 <= k < |es| ==> Ticks(es[k].clock))
    && (forall k :: 0 < k < |es| ==> es[k - 1].clock.saved <= es[k].clock.peek)
  }

  lemma {:induction false} ClockGrows(es: seq<Event>, j: nat, k: nat)
    requires ClockRuns(es) && j < k < |es|
    ensures es[j].clock.saved <= es[k].clock.peek
  {
    if j + 1 == k {
    } else {
      ClockGrows(es, j, k - 1);
      assert Ticks(es[k - 1].clock);
    }
  }

  /** The event may issue the key. */
  predicate Issues(e: Event, key: string) {
    || (e.AnswerRequest? && (key == e.firstbootKey || key == e.webhookKey))
    || (e.FirstbootRequest? && key == e.credentialsKey)
  }

  predicate UsesKey(e: Event) { e.FirstbootRequest? || e.CredentialsRequest? || e.WebhookRequest? }

  /** The store no longer accepts the key, at t or later. */
  ghost predicate Spent(cfg: Config, keys: Keys, key: string, t: int) {
    key in keys ==> !Live(cfg, keys[key], t)
  }

  lemma SpentBySuccess(cfg: Config, verifySource: bool, w: World, e: Event)
    requires Ticks(e.clock) && UsesKey(e) && !Issues(e, e.key) && !Handle(cfg, verifySource, w, e).1.Refused?
    ensures Spent(cfg, Handle(cfg, verifySource, w, e).0.keys, e.key, e.clock.saved)
  {}

  lemma NewKeyIsIssued(cfg: Config, w: World, e: Event, key: string, entry: Entry)
    requires MadeBy(cfg, w, e, key, entry)
    ensures Issues(e, key)
  {}

  lemma StaysSpent(cfg: Config, verifySource: bool, w: World, e: Event, key: string, t: int)
    requires Spent(cfg, w.keys, key, t) && !Issues(e, key)
    ensures Spent(cfg, Handle(cfg, verifySource, w, e).0.keys, key, t)
  {
    var keys := Handle(cfg, verifySource, w, e).0.keys;
    hide Handle, MadeBy;
    if key in keys {
      NewEntries(cfg, verifySource, w, e, key);
      if MadeBy(cfg, w, e, key, keys[key]) { NewKeyIsIssued(cfg, w, e, key, keys[key]); }
    }
  }

  lemma {:induction false} SpentUntilIssued(cfg: Config, verifySource: bool, start: World, es: seq<Event>, j: nat,
                                            n: nat)
    requires j < n <= |es| && Ticks(es[j].clock) && UsesKey(es[j])
    requires !ReplyAt(cfg, verifySource, start, es, j).Refused?
    requires forall i :: j <= i < n ==> !Issues(es[i], es[j].key)
    ensures Spent(cfg, WorldAt(cfg, verifySource, start, es, n).keys, es[j].key, es[j].clock.saved)
    decreases n
  {
    hide Handle;
    if n == j + 1 {
      SpentBySuccess(cfg, verifySource, WorldAt(cfg, verifySource, start, es, j), es[j]);
    } else {
      SpentUntilIssued(cfg, verifySource, start, es, j, n - 1);
      StaysSpent(cfg, verifySource, WorldAt(cfg, verifySource, start, es, n - 1), es[n - 1],
                 es[j].key, es[j].clock.saved);
    }
  }

  lemma SuccessHadKey(cfg: Config, verifySource: bool, w: World, e: Event)
    requires UsesKey(e) && !Handle(cfg, verifySource, w, e).1.Refused?
    ensures e.key in w.keys && Live(cfg, w.keys[e.key], e.clock.peek)
  {}

  /** Over a whole run: between two successful requests under one key, an event
      issued that key anew. */
  lemma KeySpentOverRuns(cfg: Config, verifySource: bool, start: World, es: seq<Event>, j: nat, n: nat)
    requires ClockRuns(es) && j < n < |es| && UsesKey(es[j]) && UsesKey(es[n]) && es[j].key == es[n].key
    requires !ReplyAt(cfg, verifySource, start, es, j).Refused? && !ReplyAt(cfg, verifySource, start, es, n).Refused?
    ensures exists i: nat :: j <= i < n && Issues(es[i], es[n].key)
  {
    if forall i :: j <= i < n ==> !Issues(es[i], es[j].key) {
      SpentUntilIssued(cfg, verifySource, start, es, j, n);
      SuccessHadKey(cfg, verifySource, WorldAt(cfg, verifySource, start, es, n), es[n]);
      ClockGrows(es, j, n);
    }
  }

  // ---- the service as the program keeps it --------------------------------------------

  /** The service process: the key store on disk, and the records it reaches
      over the Nautobot API. */
  class Service {
    const cfg: Config
    const verifySource: bool
    const store: Store
    var devices: map<nat, Device>
    var tokens: map<string, Token>

    ghost predicate Valid()
      reads this, store
    {
      store.cfg == cfg
    }

    ghost function Now(): World
      reads this, store
    {
      World(devices, store.file, tokens)
    }

    constructor (cfg: Config, verifySource: bool, devices: map<nat, Device>)
      ensures Valid() && fresh(store)
      ensures this.cfg == cfg && this.verifySource == verifySource
      ensures Now() == World(devices, map[], map[])
    {
      this.cfg, this.verifySource := cfg, verifySource;
      this.devices, this.tokens := devices, map[];
      store := new Store(cfg);
    }

    method AnswerImpl(e: Event) returns (reply: Reply)
      requires Valid() && e.AnswerRequest?
      modifies this, store
      ensures Valid() && (Now(), reply) == Handle(cfg, verifySource, old(Now()), e)
    {
      if e.serial == "" { return Refused(400); }
      var found := Lookup(devices, e.serial);
      if found.Err? { return Refused(found.error); }
      var device := devices[found.value];
      if device.role != NFV_ROLE || device.state != AWAITING { return Refused(403); }
      if e.refusal.Some? { return Refused(e.refusal.value); }
      store.IssueKey(e.firstbootKey, e.serial, Firstboot, e.clock.issue1, e.clock.saved1);
      store.IssueKey(e.webhookKey, e.serial, Webhook, e.clock.issue2, e.clock.saved2);
      if !e.renderOk { return Refused(500); }
      return Answered(e.firstbootKey, e.webhookKey);
    }

    method FirstbootImpl(e: Event) returns (reply: Reply)
      requires Valid() && e.FirstbootRequest?
      modifies this, store
      ensures Valid() && (Now(), reply) == Handle(cfg, verifySource, old(Now()), e)
    {
      var ok := store.PeekKey(e.key, e.serial, Firstboot, e.clock.peek);
      if !ok { return Refused(403); }
      var found := Lookup(devices, e.serial);
      if found.Err? { return Refused(found.error); }
      if e.refusal.Some? { return Refused(e.refusal.value); }
      store.IssueKey(e.credentialsKey, e.serial, Credentials, e.clock.issue1, e.clock.saved1);
      if !e.renderOk { return Refused(500); }
      var _ := store.ConsumeKey(e.key, e.serial, Firstboot, e.clock.consume, e.clock.saved);
      return Script(e.credentialsKey);
    }

    method CredentialsImpl(e: Event) returns (reply: Reply)
      requires Valid() && e.CredentialsRequest?
      modifies this, store
      ensures Valid() && (Now(), reply) == Handle(cfg, verifySource, old(Now()), e)
    {
      var ok := store.PeekKey(e.key, e.serial, Credentials, e.clock.peek);
      if !ok { return Refused(403); }
      var found := Lookup(devices, e.serial);
      if found.Err? { return Refused(found.error); }
      var device := devices[found.value];
      if verifySource && device.managementIp.Some? && device.managementIp != e.client { return Refused(403); }
      if e.token.id == "" || e.token.secret == "" { return Refused(400); }
      var group := device.name + "-proxmox";
      tokens := tokens[group := e.token];
      if !e.secretsOk || e.patch.NotDone? { return Refused(502); }
      device := device.(secretsGroup := Some(group));
      if device.state == AWAITING { device := device.(state := INSTALLED); }
      devices := devices[found.value := device];
      if e.patch.DoneButLost? { return Refused(502); }
      var _ := store.ConsumeKey(e.key, e.serial, Credentials, e.clock.consume, e.clock.saved);
      return Stored(group);
    }

    method WebhookImpl(e: Event) returns (reply: Reply)
      requires Valid() && e.WebhookRequest?
      modifies this, store
      ensures Valid() && (Now(), reply) == Handle(cfg, verifySource, old(Now()), e)
    {
      var ok := store.PeekKey(e.key, e.serial, Webhook, e.clock.peek);
      if !ok { return Refused(403); }
      var found := Lookup(devices, e.serial);
      if found.Err? { return Refused(found.error); }
      var device := devices[found.value];
      if device.state == AWAITING {
        if e.patch.NotDone? { return Refused(502); }
        devices := devices[found.value := device.(state := INSTALLED)];
        if e.patch.DoneButLost? { return Refused(502); }
      } else {
        assert devices[found.value := device] == devices;
      }
      var _ := store.ConsumeKey(e.key, e.serial, Webhook, e.clock.consume, e.clock.saved);
      return Recorded;
    }
  }
}
