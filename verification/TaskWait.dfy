/** Observing a Proxmox task until it ends (jobs/lib/proxmox_client.py
    task_exit_outcome and ProxmoxClient.wait_task). */
module TaskWait {
  import opened Prelude

  /** A stopped task's exitstatus: a string, or any other JSON value. */
  datatype Exit = Text(s: string) | NotText

  /** One status poll: the task could not be observed (transport error, 5xx,
      not JSON, not an object), the request was refused (4xx), or the status. */
  datatype Poll = Unreachable | Refused | Running | Stopped(exit: Exit)

  datatype Outcome =
    | Finished(warnings: nat)
    | TaskFailed(exit: Exit)
    | RequestRefused
    | LostContact
    | TimedOut

  // ---- classifying the exit status ----------------------------------------

  /** What follows the first ':', or nothing. */
  function AfterColon(s: string): string {
    if s == "" then "" else if s[0] == ':' then s[1..] else AfterColon(s[1..])
  }

  const WARNINGS := "WARNINGS"

  /** (succeeded, warning count): "OK" and "WARNINGS..." succeed, anything else
      fails, and a success with warnings always counts at least one. */
  function ExitOutcome(exit: Exit): (r: (bool, nat))
    ensures r.0 <==> exit.Text? && (Strip(exit.s) == "OK" || StartsWith(Strip(exit.s), WARNINGS))
    ensures r.1 > 0 <==> exit.Text? && StartsWith(Strip(exit.s), WARNINGS)
  {
    match exit
    case NotText => (false, 0)
    case Text(s) =>
      var status := Strip(s);
      if status == "OK" then (true, 0)
      else if StartsWith(status, WARNINGS) then
        var count := match PythonInt(AfterColon(status)) { case Some(n) => n case None => 1 };
        (true, if count > 1 then count else 1)
      else (false, 0)
  }

  lemma TightText(s: string)
    requires s != "" && !IsSpace(s[0]) && !IsSpace(s[|s| - 1])
    ensures Strip(s) == s
  {}

  lemma {:induction false} NoUnderscores(s: string)
    requires AllDigits(s)
    ensures Filter((c: char) => c != '_', s) == s
  {
    if s == "" {
    } else {
      NoUnderscores(s[1..]);
      assert s == [s[0]] + s[1..];
    }
  }

  lemma SpacedNumber(n: nat)
    ensures PythonInt(" " + Decimal(n)) == Some(n)
  {
    var digits := Decimal(n);
    assert StripLeft(" " + digits) == digits by { assert (" " + digits)[1..] == digits; }
    assert !IsSpace(digits[|digits| - 1]) by { assert IsDigit(digits[|digits| - 1]); }
    assert Strip(" " + digits) == digits;
    assert IsDigit(digits[0]) && forall i :: 0 <= i < |digits| ==> digits[i] != '_';
    NoUnderscores(digits);
    DecimalParses(n);
  }

  /** The status PVE writes for a task that ended with n warnings is a success
      that reports n of them. */
  lemma WarningsAreCounted(n: nat)
    requires n >= 1
    ensures ExitOutcome(Text(WARNINGS + ([':'] + (" " + Decimal(n))))) == (true, n)
  {
    var tail := " " + Decimal(n);
    var s := WARNINGS + ([':'] + tail);
    assert IsDigit(s[|s| - 1]);
    TightText(s);
    assert s[..8] == WARNINGS;
    SkipToColon(WARNINGS, tail);
    SpacedNumber(n);
  }

  /** A count that does not parse is one warning. */
  lemma UnreadableCount(s: string)
    requires StartsWith(Strip(s), WARNINGS) && PythonInt(AfterColon(Strip(s))).None?
    ensures ExitOutcome(Text(s)) == (true, 1)
  {
    assert Strip(s)[..8] == WARNINGS && |"OK"| == 2;
  }

  lemma {:induction false} SkipToColon(word: string, tail: string)
    requires ':' !in word
    ensures AfterColon(word + ([':'] + tail)) == tail
  {
    if word == "" {
    } else {
      SkipToColon(word[1..], tail);
      assert (word + ([':'] + tail))[1..] == word[1..] + ([':'] + tail);
    }
  }

  // ---- waiting --------------------------------------------------------------

  const MAX_FAILURES := 5
  const BACKOFF_CAP := 30

  function Min(a: int, b: int): int { if a < b then a else b }
  function Max(a: int, b: int): int { if a > b then a else b }

  /** Poll i completes five failed polls in a row. */
  ghost predicate LostAt(stream: nat -> Poll, i: nat) {
    i >= 4 && forall k: nat :: i - 4 <= k <= i ==> stream(k).Unreachable?
  }

  ghost predicate Decisive(stream: nat -> Poll, i: nat) {
    stream(i).Stopped? || stream(i).Refused? || LostAt(stream, i)
  }

  ghost predicate FirstDecision(stream: nat -> Poll, i: nat) {
    Decisive(stream, i) && forall k: nat :: k < i ==> !Decisive(stream, k)
  }

  function Verdict(p: Poll): Outcome {
    match p
    case Unreachable => LostContact
    case Refused => RequestRefused
    case Stopped(exit) => if ExitOutcome(exit).0 then Finished(ExitOutcome(exit).1) else TaskFailed(exit)
    case Running => TimedOut
  }

  /** Length of the run of failed polls that ends with poll i. */
  function FailureRun(stream: nat -> Poll, i: nat): (n: nat)
    ensures n <= i + 1
  {
    if !stream(i).Unreachable? then 0
    else if i == 0 then 1 else 1 + FailureRun(stream, i - 1)
  }

  /** Seconds slept after an indecisive poll i. */
  function Delay(stream: nat -> Poll, poll: int, i: nat): int {
    if stream(i).Unreachable?
    then Min(poll * FailureRun(stream, i), Max(poll, BACKOFF_CAP)) else poll
  }

  /** Seconds slept before poll i. */
  function Waited(stream: nat -> Poll, poll: int, i: nat): int {
    if i == 0 then 0 else Waited(stream, poll, i - 1) + Delay(stream, poll, i - 1)
  }

  ghost predicate InBudget(stream: nat -> Poll, timeout: int, poll: int, i: nat) {
    Waited(stream, poll, i) <= timeout
  }

  lemma {:induction false} FailureRunMembers(stream: nat -> Poll, i: nat, k: nat)
    requires i + 1 - FailureRun(stream, i) <= k <= i
    ensures stream(k).Unreachable?
  {
    if k == i {
    } else {
      FailureRunMembers(stream, i - 1, k);
    }
  }

  lemma {:induction false} FailureRunLong(stream: nat -> Poll, i: nat, n: nat)
    requires n <= i + 1
    requires forall k: nat :: i + 1 - n <= k <= i ==> stream(k).Unreachable?
    ensures FailureRun(stream, i) >= n
  {
    if n <= 1 {
    } else {
      FailureRunLong(stream, i - 1, n - 1);
    }
  }

  lemma LostIffFiveFailures(stream: nat -> Poll, i: nat)
    ensures LostAt(stream, i) <==> FailureRun(stream, i) >= MAX_FAILURES
  {
    if FailureRun(stream, i) >= MAX_FAILURES {
      forall k: nat | i + 1 - MAX_FAILURES <= k <= i ensures stream(k).Unreachable? {
        FailureRunMembers(stream, i, k);
      }
    }
    if LostAt(stream, i) { FailureRunLong(stream, i, MAX_FAILURES); }
  }

  /** After the k-th failed poll in a row it waits k times the poll interval, but
      not longer than half a minute or the interval itself; after any other
      poll that decides nothing, the interval. */
  lemma DelayIs(stream: nat -> Poll, poll: int, i: nat, k: nat)
    requires 1 <= k <= i + 1 && poll >= 1
    requires forall j: nat :: i + 1 - k <= j <= i ==> stream(j).Unreachable?
    requires k <= i ==> !stream(i - k).Unreachable?
    ensures var cap := if poll > 30 then poll else 30;
      Delay(stream, poll, i) == if poll * k < cap then poll * k else cap
  {
    FailureRunLong(stream, i, k);
    if FailureRun(stream, i) > k { FailureRunMembers(stream, i, i - k); }
    assert FailureRun(stream, i) == k;
    assert stream(i).Unreachable?;
  }

  lemma RunningDelay(stream: nat -> Poll, poll: int, i: nat)
    requires !stream(i).Unreachable?
    ensures Delay(stream, poll, i) == poll
  {}

  lemma DelayBounds(stream: nat -> Poll, poll: int, i: nat)
    requires poll >= 1
    ensures poll <= Delay(stream, poll, i) <= Max(poll, BACKOFF_CAP)
  {
    if stream(i).Unreachable? {
      var n := FailureRun(stream, i);
      assert n >= 1;
      assert poll * n >= poll * 1;
    }
  }

  /** Waiting time only grows, by at least the poll interval each time. */
  lemma {:induction false} WaitedGrows(stream: nat -> Poll, poll: int, i: nat, j: nat)
    requires poll >= 1 && i <= j
    ensures Waited(stream, poll, j) >= Waited(stream, poll, i) + poll * (j - i)
    decreases j
  {
    if i == j {
    } else {
      WaitedGrows(stream, poll, i, j - 1);
      DelayBounds(stream, poll, j - 1);
      assert poll * (j - i) == poll * (j - 1 - i) + poll;
    }
  }

  lemma PollsBounded(stream: nat -> Poll, timeout: int, poll: int, polls: nat)
    requires poll >= 1 && timeout >= 0
    requires polls > 0 ==> InBudget(stream, timeout, poll, polls - 1)
    ensures polls <= timeout / poll + 1
  {
    if polls > 0 {
      WaitedGrows(stream, poll, 0, polls - 1);
      assert poll * (polls - 1) <= timeout;
      QuotientBound(polls - 1, timeout, poll);
    }
  }

  lemma QuotientBound(n: nat, timeout: nat, poll: int)
    requires poll >= 1 && poll * n <= timeout
    ensures n <= timeout / poll
  {
    MultiplyMonotone(poll, timeout / poll + 1, n);
  }

  lemma MultiplyMonotone(c: nat, a: int, b: int)
    ensures a <= b ==> c * a <= c * b
  {
    if a <= b { assert c * (b - a) >= 0; }
  }

  /** Budget is used up for good: once a poll is past the timeout, every later
      one is. */
  lemma PastBudget(stream: nat -> Poll, timeout: int, poll: int, i: nat, j: nat)
    requires poll >= 1 && i <= j && !InBudget(stream, timeout, poll, i)
    ensures !InBudget(stream, timeout, poll, j)
  {
    WaitedGrows(stream, poll, i, j);
    assert poll * (j - i) >= 0;
  }

  /** ProxmoxClient.wait_task over any stream of poll results. */
  method WaitTask(stream: nat -> Poll, timeout: int, poll: int)
    returns (outcome: Outcome, polls: nat, slept: int)
    requires poll >= 1
    // The first decision within the budget is the result, and nothing is polled after it.
    ensures outcome != TimedOut ==>
              polls > 0 && FirstDecision(stream, polls - 1) && Waited(stream, poll, polls - 1) <= timeout
              && outcome == Verdict(stream(polls - 1)) && slept == Waited(stream, poll, polls - 1)
    // It times out iff no poll within the budget decides.
    ensures outcome == TimedOut <==>
              forall i: nat :: Waited(stream, poll, i) <= timeout ==> !Decisive(stream, i)
    ensures outcome.Finished? <==>
              exists i: nat :: FirstDecision(stream, i) && Waited(stream, poll, i) <= timeout
                               && stream(i).Stopped? && ExitOutcome(stream(i).exit).0
    ensures outcome.TaskFailed? <==>
              exists i: nat :: FirstDecision(stream, i) && Waited(stream, poll, i) <= timeout
                               && stream(i).Stopped? && !ExitOutcome(stream(i).exit).0
    ensures outcome == RequestRefused <==>
              exists i: nat :: FirstDecision(stream, i) && Waited(stream, poll, i) <= timeout && stream(i).Refused?
    ensures outcome == LostContact <==>
              exists i: nat :: FirstDecision(stream, i) && Waited(stream, poll, i) <= timeout && LostAt(stream, i)
    // The warnings and the failed status are those of the last poll.
    ensures outcome.Finished? ==> outcome.warnings == ExitOutcome(stream(polls - 1).exit).1
    ensures outcome.TaskFailed? ==> outcome.exit == stream(polls - 1).exit
    ensures timeout >= 0 ==> polls <= timeout / poll + 1
    ensures timeout >= 0 ==> slept <= timeout + Max(poll, BACKOFF_CAP)
    ensures outcome == TimedOut ==> slept > timeout || polls == 0
  {
    hide ExitOutcome, Min, Max, LostAt;
    var waited, failures := 0, 0;
    var i: nat := 0;
    DelayBounds(stream, poll, 0);
    while waited <= timeout
      invariant waited == Waited(stream, poll, i)
      invariant failures == if i == 0 then 0 else FailureRun(stream, i - 1)
      invariant failures < MAX_FAILURES
      invariant forall k: nat :: k < i ==> !Decisive(stream, k)
      invariant i > 0 ==> InBudget(stream, timeout, poll, i - 1)
      invariant timeout >= 0 ==> waited <= timeout + Max(poll, BACKOFF_CAP)
      decreases timeout - waited
    {
      var status := stream(i);
      LostIffFiveFailures(stream, i);
      DelayBounds(stream, poll, i);
      if status.Unreachable? {
        failures := failures + 1;
        if failures >= MAX_FAILURES {
          OnlyDecision(stream, timeout, poll, i);
          PollsBounded(stream, timeout, poll, i + 1);
          return LostContact, i + 1, waited;
        }
        waited := waited + Min(poll * failures, Max(poll, BACKOFF_CAP));
      } else if status.Refused? {
        OnlyDecision(stream, timeout, poll, i);
        PollsBounded(stream, timeout, poll, i + 1);
        return RequestRefused, i + 1, waited;
      } else if status.Stopped? {
        OnlyDecision(stream, timeout, poll, i);
        PollsBounded(stream, timeout, poll, i + 1);
        var (ok, warnings) := ExitOutcome(status.exit);
        return if ok then Finished(warnings) else TaskFailed(status.exit), i + 1, waited;
      } else {
        failures := 0;
        waited := waited + poll;
      }
      i := i + 1;
    }
    forall k: nat | InBudget(stream, timeout, poll, k) ensures !Decisive(stream, k) {
      if k >= i { PastBudget(stream, timeout, poll, i, k); }
    }
    if timeout >= 0 { PollsBounded(stream, timeout, poll, i); }
    return TimedOut, i, waited;
  }

  lemma OnlyDecision(stream: nat -> Poll, timeout: int, poll: int, i: nat)
    requires FirstDecision(stream, i)
    ensures forall k: nat :: FirstDecision(stream, k) ==> k == i
  {}
}
