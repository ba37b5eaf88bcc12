/** When the answer service says yes, what it then leaves behind, and that an
    install which keeps to the lifetimes of its keys goes through. */
module AnswerReplies {
  import opened Prelude
  import opened KeyStore
  import opened AnswerService

  // ---- credentials: who may store what -----------------------------------------------

  /** d is the one Device with the serial, the key is good for it, the source is
      the Device where that is checked and known, and the token is complete. */
  ghost predicate MayStore(cfg: Config, verifySource: bool, w: World, e: Event, d: nat) {
    && e.CredentialsRequest? && OnlyDevice(w.devices, e.serial, d) && d in w.devices
    && Valid(cfg, w.keys, e.key, e.serial, Credentials, e.clock.peek)
    && (!verifySource || w.devices[d].managementIp.None? || w.devices[d].managementIp == e.client)
    && e.token.id != "" && e.token.secret != ""
  }

  /** The Device with the serial, with the NFV role and awaiting its install. */
  ghost predicate AwaitingNode(devices: map<nat, Device>, serial: string, d: nat) {
    OnlyDevice(devices, serial, d) && d in devices && devices[d].role == "NFV" && devices[d].state == "awaiting_install"
  }

  /** What an install that is heard of makes of a state. */
  ghost function Installed(state: string): string { if state == "awaiting_install" then "bm_installed" else state }

  /** The token of the request is stored under the Device's own group. */
  ghost predicate WritesToken(w: World, w': World, e: Event, d: nat)
    requires e.CredentialsRequest? && d in w.devices
  {
    w'.tokens == w.tokens[w.devices[d].name + "-proxmox" := e.token]
  }

  /** The Device gets its group and is advanced; no other record changes. */
  ghost predicate WritesDevice(w: World, w': World, d: nat)
    requires d in w.devices
  {
    var device := w.devices[d];
    w'.devices
    == w.devices[d := device.(secretsGroup := Some(device.name + "-proxmox"), state := Installed(device.state))]
  }

  lemma OneDeviceOnly(devices: map<nat, Device>, serial: string, d: nat, d': nat)
    requires OnlyDevice(devices, serial, d) && OnlyDevice(devices, serial, d')
    ensures d == d'
  {
    assert d in Matches(devices, serial) && d' in Matches(devices, serial);
  }

  lemma FoundDevice(devices: map<nat, Device>, serial: string, d: nat)
    requires OnlyDevice(devices, serial, d)
    ensures d in devices && devices[d].serial == serial && Lookup(devices, serial) == Ok(d)
  {
    assert d in Matches(devices, serial);
    OneDeviceOnly(devices, serial, d, Lookup(devices, serial).value);
  }

  /** A lookup fails with 403 iff no Device has the serial, with 409 iff several have. */
  lemma LookupFails(devices: map<nat, Device>, serial: string)
    ensures Lookup(devices, serial) == Err(403) <==> forall d :: d in devices ==> devices[d].serial != serial
    ensures Lookup(devices, serial) == Err(409) <==>
      exists d, d' :: d in devices && d' in devices && d != d'
        && devices[d].serial == serial && devices[d'].serial == serial
  {
    var m := Matches(devices, serial);
    if m == {} {
      assert forall d :: d in devices ==> d !in m;
    } else {
      var d :| d in m;
      if m == {d} {
        assert OnlyDevice(devices, serial, d);
        assert forall d' :: d' in devices && devices[d'].serial == serial ==> d' in m;
      } else {
        var d' := Second(m, d);
        assert forall x: nat :: m == {x} ==> d in {x} && d' in {x};
      }
    }
  }

  lemma Second(m: set<nat>, d: nat) returns (d': nat)
    requires d in m && m != {d}
    ensures d' in m && d' != d
  {
    assert m <= {d} ==> m == {d};
    d' :| d' in m && d' != d;
  }

  /** A token is stored, and a Device given its secrets group or advanced by a
      credentials call, only where that is allowed; the token is the request's and
      goes to the group of that Device, and nothing else changes in the records. */
  lemma CredentialsGoToTheDevice(cfg: Config, verifySource: bool, w: World, e: Event)
    requires e.CredentialsRequest?
    ensures var w' := Handle(cfg, verifySource, w, e).0;
      && (w'.tokens != w.tokens ==> exists d: nat :: MayStore(cfg, verifySource, w, e, d) && WritesToken(w, w', e, d))
      && (w'.devices != w.devices ==> exists d: nat :: MayStore(cfg, verifySource, w, e, d) && WritesDevice(w, w', d))
  {
    var found := Lookup(w.devices, e.serial);
    var w' := Handle(cfg, verifySource, w, e).0;
    if found.Ok? && (w'.tokens != w.tokens || w'.devices != w.devices) {
      var d := found.value;
      assert OnlyDevice(w.devices, e.serial, d) && MayStore(cfg, verifySource, w, e, d);
      assert WritesToken(w, w', e, d) && (w'.devices != w.devices ==> WritesDevice(w, w', d));
    }
  }

  /** No other request of a node stores a token or sets a secrets group. */
  lemma OnlyCredentialsStore(cfg: Config, verifySource: bool, w: World, e: Event, d: nat)
    requires !e.External? && !e.CredentialsRequest? && d in w.devices
    ensures var w' := Handle(cfg, verifySource, w, e).0;
      w'.tokens == w.tokens && d in w'.devices && w'.devices[d].secretsGroup == w.devices[d].secretsGroup
  {}

  /** A credentials call succeeds iff it may store, and the records can be written;
      the group is then the Device's, holds the request's token and is the one that
      the Device names, which no longer awaits its install. */
  lemma CredentialsSucceed(cfg: Config, verifySource: bool, w: World, e: Event, group: string)
    requires e.CredentialsRequest?
    ensures Handle(cfg, verifySource, w, e).1 == Stored(group) <==> exists d: nat ::
      MayStore(cfg, verifySource, w, e, d) && group == w.devices[d].name + "-proxmox" && e.secretsOk && e.patch.Done?
    ensures Handle(cfg, verifySource, w, e).1 == Stored(group) ==> exists d: nat ::
      var w' := Handle(cfg, verifySource, w, e).0;
      OnlyDevice(w.devices, e.serial, d) && d in w.devices && WritesToken(w, w', e, d) && WritesDevice(w, w', d)
  {
    var found := Lookup(w.devices, e.serial);
    var (w', reply) := Handle(cfg, verifySource, w, e);
    if reply == Stored(group) {
      var d := found.value;
      assert OnlyDevice(w.devices, e.serial, d) && MayStore(cfg, verifySource, w, e, d);
      assert WritesToken(w, w', e, d) && WritesDevice(w, w', d);
    }
    forall d: nat | MayStore(cfg, verifySource, w, e, d) ensures found == Ok(d) {
      FoundDevice(w.devices, e.serial, d);
    }
  }

  /** Its refusals: 403 for the key, an unknown machine or the source, 409 for a
      serial that is not unique, 400 for half a token, 502 for the records. */
  lemma CredentialsRefusals(cfg: Config, verifySource: bool, w: World, e: Event, d: nat)
    requires e.CredentialsRequest?
    ensures !Valid(cfg, w.keys, e.key, e.serial, Credentials, e.clock.peek) ==>
      Handle(cfg, verifySource, w, e) == (w, Refused(403))
    ensures Valid(cfg, w.keys, e.key, e.serial, Credentials, e.clock.peek) && Lookup(w.devices, e.serial).Err? ==>
      Handle(cfg, verifySource, w, e) == (w, Refused(Lookup(w.devices, e.serial).error))
    ensures Valid(cfg, w.keys, e.key, e.serial, Credentials, e.clock.peek) && OnlyDevice(w.devices, e.serial, d) ==>
      && d in w.devices
      && var reply := Handle(cfg, verifySource, w, e).1;
      var foreign := verifySource && w.devices[d].managementIp.Some? && w.devices[d].managementIp != e.client;
      && (reply == Refused(403) <==> foreign)
      && (reply == Refused(400) <==> !foreign && (e.token.id == "" || e.token.secret == ""))
      && (reply == Refused(502) <==>
        MayStore(cfg, verifySource, w, e, d) && (!e.secretsOk || !e.patch.Done?))
  {
    if OnlyDevice(w.devices, e.serial, d) { FoundDevice(w.devices, e.serial, d); }
  }

  // ---- the other handlers: when they say yes ---------------------------------------------

  /** An answer is given iff the one Device with the serial has the NFV role and
      awaits its install, no check refuses it and the file can be rendered. */
  lemma AnswerSucceeds(cfg: Config, verifySource: bool, w: World, e: Event)
    requires e.AnswerRequest?
    ensures Handle(cfg, verifySource, w, e).1 == Answered(e.firstbootKey, e.webhookKey) <==>
      e.serial != "" && e.refusal.None? && e.renderOk && exists d: nat :: AwaitingNode(w.devices, e.serial, d)
    ensures e.serial == "" ==> Handle(cfg, verifySource, w, e) == (w, Refused(400))
    ensures e.serial != "" && Lookup(w.devices, e.serial).Err? ==>
      Handle(cfg, verifySource, w, e) == (w, Refused(Lookup(w.devices, e.serial).error))
    ensures forall d: nat :: e.serial != "" && OnlyDevice(w.devices, e.serial, d) ==>
      AwaitingNode(w.devices, e.serial, d) || Handle(cfg, verifySource, w, e) == (w, Refused(403))
  {
    var found := Lookup(w.devices, e.serial);
    if found.Ok? {
      assert OnlyDevice(w.devices, e.serial, found.value);
      var device := w.devices[found.value];
      assert AwaitingNode(w.devices, e.serial, found.value)
        <==> device.role == "NFV" && device.state == "awaiting_install";
    }
    forall d: nat | OnlyDevice(w.devices, e.serial, d) ensures found == Ok(d) { FoundDevice(w.devices, e.serial, d); }
  }

  lemma FirstbootSucceeds(cfg: Config, verifySource: bool, w: World, e: Event)
    requires e.FirstbootRequest?
    ensures Handle(cfg, verifySource, w, e).1 == Script(e.credentialsKey) <==>
      && Valid(cfg, w.keys, e.key, e.serial, Firstboot, e.clock.peek) && e.refusal.None? && e.renderOk
      && exists d :: OnlyDevice(w.devices, e.serial, d)
    ensures !Valid(cfg, w.keys, e.key, e.serial, Firstboot, e.clock.peek) ==>
      Handle(cfg, verifySource, w, e) == (w, Refused(403))
  {}

  /** A webhook call is recorded iff its key is good, one Device has the serial, and
      the Device need not be advanced or is; it is then as after a success. */
  lemma WebhookSucceeds(cfg: Config, verifySource: bool, w: World, e: Event)
    requires e.WebhookRequest?
    ensures Handle(cfg, verifySource, w, e).1 == Recorded <==> exists d: nat ::
      && Valid(cfg, w.keys, e.key, e.serial, Webhook, e.clock.peek) && OnlyDevice(w.devices, e.serial, d)
      && d in w.devices && (w.devices[d].state == "awaiting_install" ==> e.patch.Done?)
    ensures Handle(cfg, verifySource, w, e).1 == Recorded ==> exists d: nat ::
      OnlyDevice(w.devices, e.serial, d) && d in w.devices && Handle(cfg, verifySource, w, e).0.devices ==
        w.devices[d := w.devices[d].(state := Installed(w.devices[d].state))]
    ensures !Valid(cfg, w.keys, e.key, e.serial, Webhook, e.clock.peek) ==>
      Handle(cfg, verifySource, w, e) == (w, Refused(403))
  {
    var found := Lookup(w.devices, e.serial);
    if found.Ok? { assert OnlyDevice(w.devices, e.serial, found.value); }
    forall d: nat | OnlyDevice(w.devices, e.serial, d) ensures found == Ok(d) { FoundDevice(w.devices, e.serial, d); }
  }

  // ---- what is left behind when something fails late -----------------------------------------

  /** For a Device that may be installed, a check that fails gives its status and
      changes nothing; a file that cannot be rendered is a 500. */
  lemma AnswerRefusals(cfg: Config, verifySource: bool, w: World, e: Event, d: nat)
    requires e.AnswerRequest? && e.serial != "" && AwaitingNode(w.devices, e.serial, d)
    ensures e.refusal.Some? ==> Handle(cfg, verifySource, w, e) == (w, Refused(e.refusal.value))
    ensures e.refusal.None? && !e.renderOk ==> Handle(cfg, verifySource, w, e).1 == Refused(500)
    ensures Handle(cfg, verifySource, w, e).0 == w.(keys := Handle(cfg, verifySource, w, e).0.keys)
  {
    FoundDevice(w.devices, e.serial, d);
  }

  lemma FirstbootRefusals(cfg: Config, verifySource: bool, w: World, e: Event)
    requires e.FirstbootRequest? && Valid(cfg, w.keys, e.key, e.serial, Firstboot, e.clock.peek)
    ensures Lookup(w.devices, e.serial).Err? ==>
      Handle(cfg, verifySource, w, e) == (w, Refused(Lookup(w.devices, e.serial).error))
    ensures Lookup(w.devices, e.serial).Ok? && e.refusal.Some? ==>
      Handle(cfg, verifySource, w, e) == (w, Refused(e.refusal.value))
    ensures Lookup(w.devices, e.serial).Ok? && e.refusal.None? && !e.renderOk ==>
      Handle(cfg, verifySource, w, e).1 == Refused(500)
    ensures Handle(cfg, verifySource, w, e).0 == w.(keys := Handle(cfg, verifySource, w, e).0.keys)
  {}

  /** Where the records cannot be written, the token is in its group and nothing else
      is done; where only the answer to the last write is lost, all is done but the
      key is not spent. Both are a 502. */
  lemma CredentialsFailLate(cfg: Config, verifySource: bool, w: World, e: Event, d: nat)
    requires e.CredentialsRequest? && MayStore(cfg, verifySource, w, e, d) && (!e.secretsOk || !e.patch.Done?)
    ensures var (w', reply) := Handle(cfg, verifySource, w, e);
      && reply == Refused(502) && w'.keys == w.keys && d in w.devices && WritesToken(w, w', e, d)
      && if e.secretsOk && e.patch.DoneButLost? then WritesDevice(w, w', d) else w'.devices == w.devices
  {
    FoundDevice(w.devices, e.serial, d);
  }

  /** The one Device with the serial awaits its install. */
  ghost predicate Waits(w: World, e: Event, d: nat) {
    !e.External? && OnlyDevice(w.devices, e.serial, d) && d in w.devices && w.devices[d].state == "awaiting_install"
  }

  /** A report that cannot be recorded leaves its key good, for the next try. */
  lemma WebhookRefusals(cfg: Config, verifySource: bool, w: World, e: Event)
    requires e.WebhookRequest? && Valid(cfg, w.keys, e.key, e.serial, Webhook, e.clock.peek)
    ensures Lookup(w.devices, e.serial).Err? ==>
      Handle(cfg, verifySource, w, e) == (w, Refused(Lookup(w.devices, e.serial).error))
    ensures forall d: nat :: Waits(w, e, d) && e.patch.NotDone? ==>
      Handle(cfg, verifySource, w, e) == (w, Refused(502))
    ensures forall d: nat :: Waits(w, e, d) && e.patch.DoneButLost? ==>
      Handle(cfg, verifySource, w, e)
      == (w.(devices := w.devices[d := w.devices[d].(state := "bm_installed")]), Refused(502))
  {
    forall d: nat | OnlyDevice(w.devices, e.serial, d) ensures Lookup(w.devices, e.serial) == Ok(d) {
      FoundDevice(w.devices, e.serial, d);
    }
  }

  // ---- an install goes through ------------------------------------------------------------

  /** The key opens that purpose for the serial, from now on and within its lifetime. */
  ghost predicate Opens(cfg: Config, keys: Keys, key: string, serial: string, purpose: Purpose, issued: int,
                        from: int, ttl: int)
  {
    forall t :: from <= t && t - issued < ttl ==> Valid(cfg, keys, key, serial, purpose, t)
  }

  /** The keys of an answer open the next steps. */
  lemma AnswerOpens(cfg: Config, verifySource: bool, w: World, e: Event)
    requires e.AnswerRequest? && Ticks(e.clock) && e.firstbootKey != e.webhookKey
    requires Handle(cfg, verifySource, w, e).1.Answered?
    ensures var keys := Handle(cfg, verifySource, w, e).0.keys;
      && Opens(cfg, keys, e.firstbootKey, e.serial, Firstboot, e.clock.issue1, e.clock.saved, cfg.keyTtl)
      && Opens(cfg, keys, e.webhookKey, e.serial, Webhook, e.clock.issue2, e.clock.saved, cfg.keyTtl)
    ensures var w' := Handle(cfg, verifySource, w, e).0; w'.devices == w.devices && w'.tokens == w.tokens
  {}

  /** The key of a firstboot opens the credentials step. */
  lemma FirstbootOpens(cfg: Config, verifySource: bool, w: World, e: Event)
    requires e.FirstbootRequest? && Ticks(e.clock) && e.credentialsKey != e.key
    requires Handle(cfg, verifySource, w, e).1.Script?
    ensures Opens(cfg, Handle(cfg, verifySource, w, e).0.keys, e.credentialsKey, e.serial, Credentials,
                  e.clock.issue1, e.clock.saved, cfg.credentialsTtl)
    ensures var w' := Handle(cfg, verifySource, w, e).0; w'.devices == w.devices && w'.tokens == w.tokens
  {}

  /** The requests of one node's install, each under the key that the step before
      handed out and within that key's lifetime, with nothing refused outside. */
  ghost predicate InstallRun(cfg: Config, answer: Event, firstboot: Event, credentials: Event) {
    && answer.AnswerRequest? && firstboot.FirstbootRequest? && credentials.CredentialsRequest?
    && answer.serial == firstboot.serial == credentials.serial && answer.serial != ""
    && firstboot.key == answer.firstbootKey != answer.webhookKey
    && credentials.key == firstboot.credentialsKey != firstboot.key
    && Ticks(answer.clock) && Ticks(firstboot.clock)
    && answer.clock.saved <= firstboot.clock.peek && firstboot.clock.saved <= credentials.clock.peek
    && firstboot.clock.peek - answer.clock.issue1 < cfg.keyTtl
    && credentials.clock.peek - firstboot.clock.issue1 < cfg.credentialsTtl
    && answer.refusal.None? && answer.renderOk && firstboot.refusal.None? && firstboot.renderOk
    && credentials.token.id != "" && credentials.token.secret != "" && credentials.secretsOk && credentials.patch.Done?
  }

  /** Such an install goes through, from any state of the service: on the one Device
      with the serial, if it has the NFV role and awaits its install, and if the
      token comes from the Device's address where that is checked. The Device ends
      installed, with the token in its group. */
  lemma InstallCompletes(cfg: Config, verifySource: bool, w: World, answer: Event, firstboot: Event,
                         credentials: Event, d: nat)
    requires InstallRun(cfg, answer, firstboot, credentials)
    requires AwaitingNode(w.devices, answer.serial, d)
    requires verifySource && w.devices[d].managementIp.Some? ==> credentials.client == w.devices[d].managementIp
    ensures var w1 := Handle(cfg, verifySource, w, answer).0;
      var w2 := Handle(cfg, verifySource, w1, firstboot).0;
      var (w3, reply) := Handle(cfg, verifySource, w2, credentials);
      var group := w.devices[d].name + "-proxmox";
      && reply == Stored(group) && group in w3.tokens && w3.tokens[group] == credentials.token
      && d in w3.devices && w3.devices[d].state == "bm_installed" && w3.devices[d].secretsGroup == Some(group)
  {
    hide Handle, Valid;
    var w1 := Handle(cfg, verifySource, w, answer).0;
    AnswerSucceeds(cfg, verifySource, w, answer);
    AnswerOpens(cfg, verifySource, w, answer);
    var w2 := Handle(cfg, verifySource, w1, firstboot).0;
    FirstbootSucceeds(cfg, verifySource, w1, firstboot);
    FirstbootOpens(cfg, verifySource, w1, firstboot);
    var group := w.devices[d].name + "-proxmox";
    assert MayStore(cfg, verifySource, w2, credentials, d);
    CredentialsSucceed(cfg, verifySource, w2, credentials, group);
    StoredDevice(cfg, verifySource, w2, credentials, d);
  }

  lemma StoredDevice(cfg: Config, verifySource: bool, w: World, e: Event, d: nat)
    requires MayStore(cfg, verifySource, w, e, d) && e.secretsOk && e.patch.Done?
    requires w.devices[d].state == "awaiting_install"
    ensures var w' := Handle(cfg, verifySource, w, e).0;
      d in w'.devices && w'.devices[d].state == "bm_installed"
      && w'.devices[d].secretsGroup == Some(w.devices[d].name + "-proxmox")
  {
    FoundDevice(w.devices, e.serial, d);
  }

  /** The installer's own report goes through as well, before or after that. */
  lemma ReportCompletes(cfg: Config, verifySource: bool, w: World, answer: Event, webhook: Event, d: nat)
    requires answer.AnswerRequest? && webhook.WebhookRequest? && answer.serial == webhook.serial && answer.serial != ""
    requires webhook.key == answer.webhookKey != answer.firstbootKey && webhook.patch.Done?
    requires Ticks(answer.clock) && answer.clock.saved <= webhook.clock.peek
    requires webhook.clock.peek - answer.clock.issue2 < cfg.keyTtl && answer.refusal.None? && answer.renderOk
    requires AwaitingNode(w.devices, answer.serial, d)
    ensures var w1 := Handle(cfg, verifySource, w, answer).0;
      var (w2, reply) := Handle(cfg, verifySource, w1, webhook);
      reply == Recorded && d in w2.devices && w2.devices[d].state == "bm_installed"
  {
    hide Handle, Valid;
    var w1 := Handle(cfg, verifySource, w, answer).0;
    AnswerSucceeds(cfg, verifySource, w, answer);
    AnswerOpens(cfg, verifySource, w, answer);
    WebhookSucceeds(cfg, verifySource, w1, webhook);
    forall d': nat | OnlyDevice(w.devices, answer.serial, d') ensures d' == d {
      OneDeviceOnly(w.devices, answer.serial, d, d');
    }
  }
}
