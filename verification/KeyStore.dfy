/** The persisted store of one-time keys (bmc/answer_service/app.py:
    _ttl_for, _save_keys, issue_key, _entry_valid, peek_key, consume_key). */
module KeyStore {
  import opened Prelude

  datatype Purpose = Firstboot | Credentials | Webhook

  datatype Entry = Entry(serial: string, purpose: Purpose, issued: int)

  type Keys = map<string, Entry>

  /** Lifetimes in seconds, read from the environment at start. */
  datatype Config = Config(keyTtl: int, credentialsTtl: int)

  function Ttl(cfg: Config, purpose: Purpose): int {
    if purpose == Credentials then cfg.credentialsTtl else cfg.keyTtl
  }

  predicate Live(cfg: Config, e: Entry, now: int) {
    now - e.issued < Ttl(cfg, e.purpose)
  }

  /** _entry_valid on the store's entry for key, if any. */
  predicate Valid(cfg: Config, keys: Keys, key: string, serial: string, purpose: Purpose, now: int) {
    key in keys && keys[key].serial == serial && keys[key].purpose == purpose && Live(cfg, keys[key], now)
  }

  /** _save_keys drops every expired entry before it writes the file. */
  function Purge(cfg: Config, keys: Keys, now: int): Keys {
    map k | k in keys && Live(cfg, keys[k], now) :: keys[k]
  }

  // ---- the store as operations on the file's contents --------------------------

  /** One call: now is the clock when it judges, saved when it writes the file.
      Restart stands for a new process, or one that died before the atomic
      replace of the file took place. */
  datatype Op =
    | Issue(key: string, serial: string, purpose: Purpose, now: int, saved: int)
    | Peek(key: string, serial: string, purpose: Purpose, now: int)
    | Consume(key: string, serial: string, purpose: Purpose, now: int, saved: int)
    | Restart

  function Start(op: Op, before: int): int { if op.Restart? then before else op.now }
  function Finish(op: Op, before: int): int {
    match op
    case Issue(_, _, _, _, saved) => saved
    case Consume(_, _, _, _, saved) => saved
    case Peek(_, _, _, now) => now
    case Restart => before
  }

  /** The answer a call gives its caller (issuing and restarting give none). */
  predicate Answer(cfg: Config, keys: Keys, op: Op) {
    (op.Peek? || op.Consume?) && Valid(cfg, keys, op.key, op.serial, op.purpose, op.now)
  }

  function Step(cfg: Config, keys: Keys, op: Op): Keys {
    match op
    case Issue(key, serial, purpose, now, saved) => Purge(cfg, keys[key := Entry(serial, purpose, now)], saved)
    case Peek(_, _, _, _) => keys
    case Consume(key, _, _, _, saved) =>
      if Answer(cfg, keys, op) then Purge(cfg, keys - {key}, saved) else keys
    case Restart => keys
  }

  /** The reference store: the same calls, and nothing is ever purged. */
  function RefStep(cfg: Config, keys: Keys, op: Op): Keys {
    match op
    case Issue(key, serial, purpose, now, _) => keys[key := Entry(serial, purpose, now)]
    case Peek(_, _, _, _) => keys
    case Consume(key, _, _, _, _) => if Answer(cfg, keys, op) then keys - {key} else keys
    case Restart => keys
  }

  /** The file after the first n calls of a service that starts without keys. */
  function StoreAt(cfg: Config, ops: seq<Op>, n: nat): Keys
    requires n <= |ops|
  {
    if n == 0 then map[] else Step(cfg, StoreAt(cfg, ops, n - 1), ops[n - 1])
  }

  function RefAt(cfg: Config, ops: seq<Op>, n: nat): Keys
    requires n <= |ops|
  {
    if n == 0 then map[] else RefStep(cfg, RefAt(cfg, ops, n - 1), ops[n - 1])
  }

  /** The clock after the first n calls, starting from t0. */
  function ClockAt(ops: seq<Op>, t0: int, n: nat): int
    requires n <= |ops|
  {
    if n == 0 then t0 else Finish(ops[n - 1], ClockAt(ops, t0, n - 1))
  }

  /** The clock never runs backwards, within a call or between calls. */
  ghost predicate Monotone(ops: seq<Op>, t0: int) {
    forall i :: 0 <= i < |ops| ==>
      var before := ClockAt(ops, t0, i);
      before <= Start(ops[i], before) <= Finish(ops[i], before)
  }

  /** The purged store misses only entries that are expired for good. */
  ghost predicate Refines(cfg: Config, keys: Keys, ref: Keys, clock: int) {
    && (forall k :: k in keys ==> k in ref && ref[k] == keys[k])
    && (forall k :: k in ref && k !in keys ==> !Live(cfg, ref[k], clock))
  }

  lemma RefinesAnswer(cfg: Config, keys: Keys, ref: Keys, clock: int, op: Op)
    requires Refines(cfg, keys, ref, clock) && clock <= Start(op, clock)
    ensures Answer(cfg, keys, op) == Answer(cfg, ref, op)
  {}

  lemma RefinesStep(cfg: Config, keys: Keys, ref: Keys, clock: int, op: Op)
    requires Refines(cfg, keys, ref, clock) && clock <= Start(op, clock) <= Finish(op, clock)
    ensures Refines(cfg, Step(cfg, keys, op), RefStep(cfg, ref, op), Finish(op, clock))
  {
    RefinesAnswer(cfg, keys, ref, clock, op);
  }

  lemma {:induction false} StoreRefines(cfg: Config, ops: seq<Op>, t0: int, n: nat)
    requires Monotone(ops, t0) && n <= |ops|
    ensures Refines(cfg, StoreAt(cfg, ops, n), RefAt(cfg, ops, n), ClockAt(ops, t0, n))
  {
    if n == 0 {
    } else {
      StoreRefines(cfg, ops, t0, n - 1);
      RefinesStep(cfg, StoreAt(cfg, ops, n - 1), RefAt(cfg, ops, n - 1), ClockAt(ops, t0, n - 1), ops[n - 1]);
    }
  }

  /** Purging is invisible: over any run with a monotone clock and any
      restarts, each call gets the answer of the store that never purges. */
  lemma PurgeIsInvisible(cfg: Config, ops: seq<Op>, t0: int, n: nat)
    requires Monotone(ops, t0) && n < |ops|
    ensures Answer(cfg, StoreAt(cfg, ops, n), ops[n]) == Answer(cfg, RefAt(cfg, ops, n), ops[n])
  {
    StoreRefines(cfg, ops, t0, n);
    RefinesAnswer(cfg, StoreAt(cfg, ops, n), RefAt(cfg, ops, n), ClockAt(ops, t0, n), ops[n]);
  }

  // ---- what the answers mean in terms of the run's history ----------------------

  /** Call m replaces or spends the key. */
  ghost predicate Touches(cfg: Config, ops: seq<Op>, m: nat, key: string)
    requires m < |ops|
  {
    (ops[m].Issue? && ops[m].key == key)
    || (ops[m].Consume? && ops[m].key == key && Answer(cfg, StoreAt(cfg, ops, m), ops[m]))
  }

  /** Call i issued the key, and before call n nothing replaced or spent it. */
  ghost predicate Outstanding(cfg: Config, ops: seq<Op>, n: nat, key: string, i: nat)
    requires n <= |ops|
  {
    i < n && ops[i].Issue? && ops[i].key == key
    && forall m :: i < m < n ==> !Touches(cfg, ops, m, key)
  }

  /** The call that issued the key as it stands before call n. */
  ghost function Issuer(cfg: Config, ops: seq<Op>, n: nat, key: string): (r: Option<nat>)
    requires n <= |ops|
    ensures r.Some? ==> r.value < n && ops[r.value].Issue?
  {
    if n == 0 then None
    else if Touches(cfg, ops, n - 1, key) then if ops[n - 1].Issue? then Some(n - 1) else None
    else Issuer(cfg, ops, n - 1, key)
  }

  lemma {:induction false} IssuerIsOutstanding(cfg: Config, ops: seq<Op>, n: nat, key: string, i: nat)
    requires n <= |ops|
    ensures Outstanding(cfg, ops, n, key, i) <==> Issuer(cfg, ops, n, key) == Some(i)
  {
    if n == 0 {
    } else {
      IssuerIsOutstanding(cfg, ops, n - 1, key, i);
      if i < n - 1 {
        assert Outstanding(cfg, ops, n, key, i) <==>
               Outstanding(cfg, ops, n - 1, key, i) && !Touches(cfg, ops, n - 1, key);
      } else {
        assert i == n - 1 && ops[i].Issue? && ops[i].key == key ==> Touches(cfg, ops, i, key);
      }
    }
  }

  /** The reference store holds a key exactly as its last issuer made it. */
  lemma {:induction false} RefHistory(cfg: Config, ops: seq<Op>, t0: int, n: nat, key: string)
    requires Monotone(ops, t0) && n <= |ops|
    ensures key in RefAt(cfg, ops, n) <==> Issuer(cfg, ops, n, key).Some?
    ensures key in RefAt(cfg, ops, n) ==>
              var issue := ops[Issuer(cfg, ops, n, key).value];
              RefAt(cfg, ops, n)[key] == Entry(issue.serial, issue.purpose, issue.now)
  {
    if n == 0 {
    } else {
      RefHistory(cfg, ops, t0, n - 1, key);
      PurgeIsInvisible(cfg, ops, t0, n - 1);
    }
  }

  /** A peek or consume is answered yes exactly when some earlier call issued
      that key for that serial and purpose, less than its lifetime ago, and no
      call since has replaced or spent it. */
  lemma AnswerIffOutstanding(cfg: Config, ops: seq<Op>, t0: int, n: nat)
    requires Monotone(ops, t0) && n < |ops| && (ops[n].Peek? || ops[n].Consume?)
    ensures Answer(cfg, StoreAt(cfg, ops, n), ops[n]) <==>
            exists i: nat :: Outstanding(cfg, ops, n, ops[n].key, i)
              && ops[i].serial == ops[n].serial && ops[i].purpose == ops[n].purpose
              && ops[n].now - ops[i].now < if ops[n].purpose.Credentials? then cfg.credentialsTtl else cfg.keyTtl
  {
    PurgeIsInvisible(cfg, ops, t0, n);
    RefHistory(cfg, ops, t0, n, ops[n].key);
    forall i: nat ensures Outstanding(cfg, ops, n, ops[n].key, i) <==> Issuer(cfg, ops, n, ops[n].key) == Some(i) {
      IssuerIsOutstanding(cfg, ops, n, ops[n].key, i);
    }
  }

  /** One time: between two successful uses of a key it was issued anew. */
  lemma ConsumedOncePerIssue(cfg: Config, ops: seq<Op>, t0: int, j: nat, n: nat)
    requires Monotone(ops, t0) && j < n < |ops|
    requires ops[j].Consume? && (ops[n].Consume? || ops[n].Peek?) && ops[j].key == ops[n].key
    requires Answer(cfg, StoreAt(cfg, ops, j), ops[j]) && Answer(cfg, StoreAt(cfg, ops, n), ops[n])
    ensures exists i: nat :: j < i < n && ops[i].Issue? && ops[i].key == ops[n].key
  {
    AnswerIffOutstanding(cfg, ops, t0, n);
    var i: nat :| Outstanding(cfg, ops, n, ops[n].key, i);
    assert Touches(cfg, ops, j, ops[n].key);
  }

  /** A rejected consume leaves the file as it was, so it changes no later answer. */
  lemma FailedConsumeIsHarmless(cfg: Config, ops: seq<Op>, n: nat, m: nat)
    requires n < m < |ops| && ops[n].Consume? && !Answer(cfg, StoreAt(cfg, ops, n), ops[n])
    ensures var without := ops[..n] + ops[n + 1..];
            StoreAt(cfg, ops, m) == StoreAt(cfg, without, m - 1)
            && Answer(cfg, StoreAt(cfg, ops, m), ops[m]) == Answer(cfg, StoreAt(cfg, without, m - 1), without[m - 1])
    decreases m
  {
    var without := ops[..n] + ops[n + 1..];
    if m == n + 1 {
      SamePrefix(cfg, ops, without, n);
    } else {
      FailedConsumeIsHarmless(cfg, ops, n, m - 1);
    }
  }

  lemma {:induction false} SamePrefix(cfg: Config, a: seq<Op>, b: seq<Op>, n: nat)
    requires n <= |a| && n <= |b| && a[..n] == b[..n]
    ensures StoreAt(cfg, a, n) == StoreAt(cfg, b, n)
  {
    if n == 0 {
    } else {
      assert a[n - 1] == a[..n][n - 1] == b[..n][n - 1] == b[n - 1];
      assert a[..n - 1] == a[..n][..n - 1] == b[..n][..n - 1] == b[..n - 1];
      SamePrefix(cfg, a, b, n - 1);
    }
  }

  // ---- the store as the program keeps it ----------------------------------------

  /** The key file. Every method holds the lock for its whole body. */
  class Store {
    const cfg: Config
    var file: Keys

    constructor (cfg: Config)
      ensures this.cfg == cfg && file == map[]
    {
      this.cfg := cfg;
      file := map[];
    }

    method SaveKeys(keys: Keys, now: int)
      modifies this
      ensures file == Purge(cfg, keys, now)
    {
      file := map k | k in keys && now - keys[k].issued < Ttl(cfg, keys[k].purpose) :: keys[k];
    }

    /** key is the fresh random token. */
    method IssueKey(key: string, serial: string, purpose: Purpose, now: int, saved: int)
      modifies this
      ensures file == Step(cfg, old(file), Issue(key, serial, purpose, now, saved))
    {
      var keys := file;
      keys := keys[key := Entry(serial, purpose, now)];
      SaveKeys(keys, saved);
    }

    method PeekKey(key: string, serial: string, purpose: Purpose, now: int) returns (ok: bool)
      ensures ok == Answer(cfg, file, Peek(key, serial, purpose, now))
    {
      ok := key in file && file[key].serial == serial && file[key].purpose == purpose
        && now - file[key].issued < Ttl(cfg, file[key].purpose);
    }

    method ConsumeKey(key: string, serial: string, purpose: Purpose, now: int, saved: int) returns (ok: bool)
      modifies this
      ensures ok == Answer(cfg, old(file), Consume(key, serial, purpose, now, saved))
      ensures file == Step(cfg, old(file), Consume(key, serial, purpose, now, saved))
      ensures !ok ==> file == old(file)
    {
      var keys := file;
      ok := PeekKey(key, serial, purpose, now);
      if ok {
        keys := keys - {key};
        SaveKeys(keys, saved);
      }
    }
  }
}
