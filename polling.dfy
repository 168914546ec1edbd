// The client's background polling service: a Stopped/Running/Paused state
// machine guarding start, stop, pause and resume, and a polling loop that
// runs a task with a bounded retry counter. Time is abstract: a wait is
// recorded as the number of ticks it lasts. Cancellation ends a retry
// round: the outcomes a round is given are those of the attempts made
// before the service was stopped.
module Polling {
  import opened Wrappers

  datatype Status = Stopped | Running | Paused | Faulted

  /** Interval, RetryInterval, MaxRetryCount and RunImmediately. */
  datatype Config = Config(interval: int, retryInterval: int, maxRetryCount: int, runImmediately: bool)

  function DefaultConfig(): (c: Config)
    ensures c.maxRetryCount == 3 && c.runImmediately
    ensures c.interval == 5 * c.retryInterval
  {
    Config(300, 60, 3, true)
  }

  /** How one call of the task ends: it reported success; it reported
      failure or threw (ExecuteTaskAsync turns a thrown exception into a
      failed result); or an exception escaped ExecuteTaskAsync itself (a
      TaskStarted handler threw before the protected region). */
  datatype Outcome = Succeeded | Failed | Escaped

  /** The events the service raises, and the waits it performs. */
  datatype PollEvent =
    | StatusChanged(status: Status, retryCount: int)
    | ServiceStarted
    | ServiceStopped
    | TaskStarted(taskStatus: Status, startedCount: int)
    | TaskCompleted(success: bool, completedCount: int)
    | TaskFailed(failedCount: int)
    | Waited(ticks: int)
    | WaitedWhilePaused

  datatype PollError = InvalidOperation | TaskException

  predicate Quiet(es: seq<PollEvent>)
  {
    forall i :: 0 <= i < |es| ==> !es[i].StatusChanged?
  }

  /** The retry counter after one attempt that began at count. */
  function NextCount(count: int, o: Outcome, max: int): int
  {
    if o == Succeeded then 0
    else if count + 1 >= max then 0
    else count + 1
  }

  /** The events of one call of the task: TaskStarted, then TaskCompleted
      with the result unless an exception escaped. */
  function CallEvents(status: Status, count: int, o: Outcome): (r: seq<PollEvent>)
    ensures |r| == (if o == Escaped then 1 else 2) && Quiet(r)
    ensures r[0] == TaskStarted(status, count)
    ensures o != Escaped ==> r[1] == TaskCompleted(o == Succeeded, count)
  {
    [TaskStarted(status, count)] + if o == Escaped then [] else [TaskCompleted(o == Succeeded, count)]
  }

  /** What the retry rule does after a call that did not succeed: the
      counter goes up; reaching the bound raises TaskFailed and waits twice
      the retry interval, otherwise the wait is one retry interval; an
      escaped exception raises TaskFailed every time. */
  function FailureEvents(count: int, o: Outcome, cfg: Config): (r: seq<PollEvent>)
    ensures Quiet(r)
    ensures o == Succeeded <==> r == []
    ensures o != Succeeded ==>
      r[|r| - 1] == Waited(if count + 1 >= cfg.maxRetryCount then 2 * cfg.retryInterval else cfg.retryInterval)
    ensures TaskFailed(count + 1) in r <==> o == Escaped || (o == Failed && count + 1 >= cfg.maxRetryCount)
  {
    var reached := count + 1 >= cfg.maxRetryCount;
    var wait := Waited(if reached then 2 * cfg.retryInterval else cfg.retryInterval);
    match o
    case Succeeded => []
    case Failed => (if reached then [TaskFailed(count + 1)] else []) + [wait]
    case Escaped => [TaskFailed(count + 1), wait]
  }

  /** The events of one attempt that began at count. */
  function AttemptEvents(status: Status, count: int, o: Outcome, cfg: Config): (r: seq<PollEvent>)
    ensures Quiet(r)
  {
    CallEvents(status, count, o) + FailureEvents(count, o, cfg)
  }

  /** The events of a retry round that begins at count, up to the first
      success or the end of the outcomes. */
  function RetryTrace(status: Status, count: int, os: seq<Outcome>, cfg: Config): (r: seq<PollEvent>)
    ensures Quiet(r)
    ensures os != [] ==> |r| > 0 && r[0] == TaskStarted(status, count)
    decreases |os|
  {
    if os == [] then []
    else
      var first := AttemptEvents(status, count, os[0], cfg);
      if os[0] == Succeeded then first
      else first + RetryTrace(status, NextCount(count, os[0], cfg.maxRetryCount), os[1..], cfg)
  }

  /** The retry counter at the end of a round that begins at count. */
  function RetryCountAfter(count: int, os: seq<Outcome>, max: int): int
    decreases |os|
  {
    if os == [] then count
    else if os[0] == Succeeded then 0
    else RetryCountAfter(NextCount(count, os[0], max), os[1..], max)
  }

  /** How many attempts a round makes: up to and including the first
      success, or all of them when none succeeds. */
  function Attempts(os: seq<Outcome>): (r: nat)
    ensures r <= |os|
    ensures forall i :: 0 <= i < r - 1 ==> os[i] != Succeeded
    ensures (Succeeded in os) <==> (r > 0 && os[r - 1] == Succeeded)
    ensures Succeeded !in os ==> r == |os|
  {
    if os == [] then 0
    else if os[0] == Succeeded then 1
    else
      assert os == [os[0]] + os[1..];
      1 + Attempts(os[1..])
  }

  // ----- What the retry rule guarantees -----

  /** With a positive bound the counter stays below it. */
  lemma {:induction false} RetryCountBounded(count: int, os: seq<Outcome>, max: int)
    requires 1 <= max && 0 <= count < max
    ensures 0 <= RetryCountAfter(count, os, max) < max
    decreases |os|
  {
    if os != [] && os[0] != Succeeded {
      RetryCountBounded(NextCount(count, os[0], max), os[1..], max);
    }
  }

  /** A round that succeeds ends with the counter reset. */
  lemma {:induction false} SuccessResetsCount(count: int, os: seq<Outcome>, max: int)
    requires Succeeded in os
    ensures RetryCountAfter(count, os, max) == 0
    decreases |os|
  {
    if os[0] != Succeeded {
      assert os == [os[0]] + os[1..];
      SuccessResetsCount(NextCount(count, os[0], max), os[1..], max);
    }
  }

  /** One successful attempt, unfolded. */
  lemma RetrySuccessStep(status: Status, count: int, os: seq<Outcome>, cfg: Config)
    requires os != [] && os[0] == Succeeded
    ensures RetryTrace(status, count, os, cfg) == CallEvents(status, count, Succeeded)
    ensures RetryCountAfter(count, os, cfg.maxRetryCount) == 0 && Attempts(os) == 1
  {
    assert FailureEvents(count, Succeeded, cfg) == [];
  }

  /** A failed attempt moves its events from the trace still to come to
      the events already raised. */
  lemma TraceAdvance(before: seq<PollEvent>, target: seq<PollEvent>, status: Status, count: int, os: seq<Outcome>, cfg: Config)
    requires os != [] && os[0] != Succeeded
    requires before + RetryTrace(status, count, os, cfg) == target
    ensures before + CallEvents(status, count, os[0]) + FailureEvents(count, os[0], cfg)
            + RetryTrace(status, NextCount(count, os[0], cfg.maxRetryCount), os[1..], cfg) == target
  {
    RetryStep(status, count, os, cfg);
  }

  /** A successful attempt is the last part of the trace. */
  lemma TraceFinish(before: seq<PollEvent>, target: seq<PollEvent>, status: Status, count: int, os: seq<Outcome>, cfg: Config)
    requires os != [] && os[0] == Succeeded
    requires before + RetryTrace(status, count, os, cfg) == target
    ensures before + CallEvents(status, count, Succeeded) == target
  {
    RetrySuccessStep(status, count, os, cfg);
  }

  /** The loop of a retry round at attempt i, when that attempt succeeds:
      the trace is complete, the counter resets and i + 1 attempts were
      made. */
  lemma RetryRoundEnds(before: seq<PollEvent>, target: seq<PollEvent>, status: Status, count: int, os: seq<Outcome>, i: int, cfg: Config)
    requires 0 <= i < |os| && os[i] == Succeeded
    requires before + RetryTrace(status, count, os[i..], cfg) == target
    ensures before + CallEvents(status, count, Succeeded) == target
    ensures RetryCountAfter(count, os[i..], cfg.maxRetryCount) == 0
    ensures Attempts(os[i..]) == 1
  {
    RetrySuccessStep(status, count, os[i..], cfg);
  }

  /** The loop of a retry round at attempt i, when that attempt fails:
      its events are raised and the rest of the round starts at i + 1. */
  lemma RetryRoundGoesOn(before: seq<PollEvent>, target: seq<PollEvent>, status: Status, count: int, os: seq<Outcome>, i: int, cfg: Config)
    requires 0 <= i < |os| && os[i] != Succeeded
    requires before + RetryTrace(status, count, os[i..], cfg) == target
    ensures before + CallEvents(status, count, os[i]) + FailureEvents(count, os[i], cfg)
            + RetryTrace(status, NextCount(count, os[i], cfg.maxRetryCount), os[i + 1..], cfg) == target
    ensures RetryCountAfter(count, os[i..], cfg.maxRetryCount)
         == RetryCountAfter(NextCount(count, os[i], cfg.maxRetryCount), os[i + 1..], cfg.maxRetryCount)
    ensures Attempts(os[i..]) == 1 + Attempts(os[i + 1..])
  {
    var tail := os[i..];
    assert tail[0] == os[i] && tail[1..] == os[i + 1..];
    RetryStep(status, count, tail, cfg);
    TraceAdvance(before, target, status, count, tail, cfg);
  }

  /** One failed attempt, unfolded. */
  lemma RetryStep(status: Status, count: int, os: seq<Outcome>, cfg: Config)
    requires os != [] && os[0] != Succeeded
    ensures RetryTrace(status, count, os, cfg)
         == AttemptEvents(status, count, os[0], cfg) + RetryTrace(status, NextCount(count, os[0], cfg.maxRetryCount), os[1..], cfg)
    ensures RetryCountAfter(count, os, cfg.maxRetryCount)
         == RetryCountAfter(NextCount(count, os[0], cfg.maxRetryCount), os[1..], cfg.maxRetryCount)
    ensures Attempts(os) == 1 + Attempts(os[1..])
  {
  }

  /** A round without its first TaskStarted: the rest of the first call,
      then what follows it. */
  lemma AnnouncedRoundRest(status: Status, count: int, os: seq<Outcome>, cfg: Config)
    requires os != []
    ensures os[0] == Succeeded ==>
      RetryTrace(status, count, os, cfg)[1..] == CallEvents(status, count, os[0])[1..]
      && RetryCountAfter(count, os, cfg.maxRetryCount) == 0 && Attempts(os) == 1
    ensures os[0] != Succeeded ==>
      RetryTrace(status, count, os, cfg)[1..]
        == CallEvents(status, count, os[0])[1..] + FailureEvents(count, os[0], cfg)
           + RetryTrace(status, NextCount(count, os[0], cfg.maxRetryCount), os[1..], cfg)
      && RetryCountAfter(count, os, cfg.maxRetryCount)
         == RetryCountAfter(NextCount(count, os[0], cfg.maxRetryCount), os[1..], cfg.maxRetryCount)
      && Attempts(os) == 1 + Attempts(os[1..])
  {
    var call := CallEvents(status, count, os[0]);
    if os[0] == Succeeded {
      RetrySuccessStep(status, count, os, cfg);
    } else {
      RetryStep(status, count, os, cfg);
      var after := FailureEvents(count, os[0], cfg);
      var rest := RetryTrace(status, NextCount(count, os[0], cfg.maxRetryCount), os[1..], cfg);
      assert (call + after + rest)[1..] == call[1..] + after + rest;
    }
  }

  /** The log of a RunImmediately round whose first call failed: the rest
      of that call and its failure, then the round from the next counter. */
  lemma ImmediateRoundGoesOn(log0: seq<PollEvent>, log1: seq<PollEvent>, log2: seq<PollEvent>,
                             status: Status, count: int, os: seq<Outcome>, cfg: Config)
    requires os != [] && os[0] != Succeeded
    requires log1 == log0 + CallEvents(status, count, os[0])[1..] + FailureEvents(count, os[0], cfg)
    requires log2 == log1 + RetryTrace(status, NextCount(count, os[0], cfg.maxRetryCount), os[1..], cfg)
    ensures log2 == log0 + RetryTrace(status, count, os, cfg)[1..]
    ensures RetryCountAfter(count, os, cfg.maxRetryCount)
      == RetryCountAfter(NextCount(count, os[0], cfg.maxRetryCount), os[1..], cfg.maxRetryCount)
    ensures Attempts(os) == 1 + Attempts(os[1..])
  {
    AnnouncedRoundRest(status, count, os, cfg);
    var call := CallEvents(status, count, os[0])[1..];
    var after := FailureEvents(count, os[0], cfg);
    var rest := RetryTrace(status, NextCount(count, os[0], cfg.maxRetryCount), os[1..], cfg);
    AppendTwice(log0, call, after);
    AppendTwice(log0, call + after, rest);
  }

  /** Appending to a log in two steps appends the two parts together. */
  lemma AppendTwice(log: seq<PollEvent>, first: seq<PollEvent>, second: seq<PollEvent>)
    ensures log + first + second == log + (first + second)
  {
  }

  /** The number of TaskFailed events in a sequence of events. */
  function FailedRaised(es: seq<PollEvent>): (r: nat)
    ensures r <= |es|
  {
    if es == [] then 0
    else (if es[0].TaskFailed? then 1 else 0) + FailedRaised(es[1..])
  }

  lemma {:induction false} FailedRaisedAppend(a: seq<PollEvent>, b: seq<PollEvent>)
    ensures FailedRaised(a + b) == FailedRaised(a) + FailedRaised(b)
    decreases |a|
  {
    if a == [] {
      assert a + b == b;
    } else {
      assert (a + b)[1..] == a[1..] + b;
      FailedRaisedAppend(a[1..], b);
    }
  }

  /** A plain failure raises TaskFailed once when it reaches the bound. */
  lemma FailedRaisedAfterFailure(count: int, cfg: Config)
    ensures FailedRaised(FailureEvents(count, Failed, cfg)) == if count + 1 >= cfg.maxRetryCount then 1 else 0
  {
    var es := FailureEvents(count, Failed, cfg);
    assert es[|es| - 1].Waited?;
    if count + 1 >= cfg.maxRetryCount {
      assert es[0].TaskFailed? && es[1..] == [es[|es| - 1]];
    } else {
      assert es == [es[0]] && !es[0].TaskFailed?;
    }
  }

  /** The arithmetic of one step of the failure accounting. */
  lemma AccountingStep(count: int, n: int, max: int, f: int, k: int, total: int, next: int, left: int)
    requires next + (n - 1) == k * max + left
    requires (f == 1 && count + 1 == max && next == 0) || (f == 0 && next == count + 1)
    requires total == f + k
    ensures count + n == total * max + left
  {
    assert (f + k) * max == f * max + k * max;
  }

  /** Plain failures are accounted for exactly: the starting count plus
      the failures equals the bound times the TaskFailed events raised plus
      the counter left over, which stays below the bound. So the counter is
      the number of failures modulo the bound, and TaskFailed is raised once
      per full count. */
  lemma {:induction false} FailuresAccounting(status: Status, count: int, os: seq<Outcome>, cfg: Config)
    requires 1 <= cfg.maxRetryCount && 0 <= count < cfg.maxRetryCount
    requires forall i :: 0 <= i < |os| ==> os[i] == Failed
    ensures var left := RetryCountAfter(count, os, cfg.maxRetryCount);
      && 0 <= left < cfg.maxRetryCount
      && count + |os| == FailedRaised(RetryTrace(status, count, os, cfg)) * cfg.maxRetryCount + left
    decreases |os|
  {
    var max := cfg.maxRetryCount;
    if os != [] {
      assert os[0] == Failed;
      var next := NextCount(count, Failed, max);
      var call := CallEvents(status, count, Failed);
      var after := FailureEvents(count, Failed, cfg);
      var rest := RetryTrace(status, next, os[1..], cfg);
      FailuresAccounting(status, next, os[1..], cfg);
      RetryStep(status, count, os, cfg);
      FailedRaisedAppend(call + after, rest);
      FailedRaisedAppend(call, after);
      assert FailedRaised(call) == 0 by {
        assert !call[0].TaskFailed? && !call[1].TaskFailed? && call[1..][1..] == [];
      }
      FailedRaisedAfterFailure(count, cfg);
      var total := FailedRaised(RetryTrace(status, count, os, cfg));
      assert RetryTrace(status, count, os, cfg) == (call + after) + rest;
      assert total == FailedRaised(after) + FailedRaised(rest);
      AccountingStep(count, |os|, max, FailedRaised(after), FailedRaised(rest), total, next, RetryCountAfter(next, os[1..], max));
    }
  }

  // ----- The status history -----

  /** The status the last StatusChanged event reported, Stopped before any. */
  ghost function Reported(log: seq<PollEvent>): Status
  {
    if log == [] then Stopped
    else if log[|log| - 1].StatusChanged? then log[|log| - 1].status
    else Reported(log[..|log| - 1])
  }

  /** Every StatusChanged event reports a status other than the one before. */
  ghost predicate ChangesOnly(log: seq<PollEvent>)
  {
    forall i :: 0 <= i < |log| && log[i].StatusChanged? ==> log[i].status != Reported(log[..i])
  }

  lemma {:induction false} QuietKeepsReported(log: seq<PollEvent>, es: seq<PollEvent>)
    requires Quiet(es)
    ensures Reported(log + es) == Reported(log)
    ensures ChangesOnly(log) ==> ChangesOnly(log + es)
    decreases |es|
  {
    var l := log + es;
    if es == [] {
      assert l == log;
    } else {
      var init := es[..|es| - 1];
      assert l[..|l| - 1] == log + init;
      assert l[|l| - 1] == es[|es| - 1];
      assert !es[|es| - 1].StatusChanged?;
      assert forall i :: 0 <= i < |init| ==> init[i] == es[i];
      QuietKeepsReported(log, init);
      assert Reported(l) == Reported(log + init);
    }
    if ChangesOnly(log) {
      forall i | 0 <= i < |log + es| && (log + es)[i].StatusChanged?
        ensures (log + es)[i].status != Reported((log + es)[..i])
      {
        assert (log + es)[i] == log[i];
        assert (log + es)[..i] == log[..i];
      }
    }
  }

  lemma ChangeExtendsHistory(log: seq<PollEvent>, e: PollEvent)
    requires ChangesOnly(log)
    requires e.StatusChanged? && e.status != Reported(log)
    ensures ChangesOnly(log + [e]) && Reported(log + [e]) == e.status
  {
    var l := log + [e];
    assert l[..|log|] == log;
    forall i | 0 <= i < |l| && l[i].StatusChanged? ensures l[i].status != Reported(l[..i]) {
      if i < |log| {
        assert l[i] == log[i] && l[..i] == log[..i];
      }
    }
  }

  class PollingService {
    const config: Config
    var status: Status
    var retryCount: int
    /** A cancellation token source exists (between start and stop). */
    var hasTokenSource: bool
    /** The first round of a RunImmediately loop has begun inside Start
        (its first TaskStarted is raised) and has not finished yet. */
    var immediatePending: bool
    var lastExecutionTime: int
    ghost var log: seq<PollEvent>

    ghost predicate Valid()
      reads this
    {
      && Reported(log) == status
      && ChangesOnly(log)
      && status != Faulted
      && (status == Stopped <==> !hasTokenSource)
    }

    constructor (config: Config)
      ensures Valid()
      ensures this.config == config && status == Stopped && retryCount == 0
      ensures !hasTokenSource && !immediatePending && log == []
    {
      this.config := config;
      status := Stopped;
      retryCount := 0;
      hasTokenSource := false;
      immediatePending := false;
      lastExecutionTime := 0;
      log := [];
    }

    /** The Status setter: the event fires only on an actual change. */
    method SetStatus(v: Status)
      requires Reported(log) == status && ChangesOnly(log)
      modifies this`status, this`log
      ensures status == v
      ensures log == old(log) + if old(status) != v then [StatusChanged(v, retryCount)] else []
      ensures Reported(log) == status && ChangesOnly(log)
    {
      if status != v {
        ChangeExtendsHistory(log, StatusChanged(v, retryCount));
        status := v;
        log := log + [StatusChanged(v, retryCount)];
      }
    }

    /** What the loop does before its first await when RunImmediately is
        set: the retry round resets the counter and the first call raises
        TaskStarted with the current status. */
    method BeginImmediateRound()
      requires Valid()
      modifies this`retryCount, this`log
      ensures Valid()
      ensures retryCount == 0 && log == old(log) + [TaskStarted(status, 0)]
    {
      retryCount := 0;
      QuietKeepsReported(log, [TaskStarted(status, retryCount)]);
      log := log + [TaskStarted(status, retryCount)];
    }

    /** Starts the service; only a stopped service can be started. The
        loop is launched before the status becomes Running, so with
        RunImmediately the first retry round has already reset the counter
        and announced its first call, under the status Stopped, by the time
        StatusChanged and ServiceStarted are raised. */
    method Start() returns (r: Result<(), PollError>)
      requires Valid()
      modifies this`status, this`log, this`hasTokenSource, this`immediatePending, this`retryCount
      ensures Valid()
      ensures old(status) != Stopped ==>
        r == Err(InvalidOperation) && status == old(status) && log == old(log) && retryCount == old(retryCount)
        && hasTokenSource == old(hasTokenSource) && immediatePending == old(immediatePending)
      ensures old(status) == Stopped ==>
        r == Ok(()) && status == Running && hasTokenSource && immediatePending == config.runImmediately
      ensures old(status) == Stopped && config.runImmediately ==>
        retryCount == 0 && log == old(log) + [TaskStarted(Stopped, 0), StatusChanged(Running, 0), ServiceStarted]
      ensures old(status) == Stopped && !config.runImmediately ==>
        retryCount == old(retryCount) && log == old(log) + [StatusChanged(Running, retryCount), ServiceStarted]
    {
      if status != Stopped {
        return Err(InvalidOperation);
      }
      ghost var log0 := log;
      if config.runImmediately {
        BeginImmediateRound();
      }
      ghost var log1 := log;
      Announce();
      if config.runImmediately {
        AppendTwice(log0, [TaskStarted(Stopped, 0)], [StatusChanged(Running, 0), ServiceStarted]);
      }
      r := Ok(());
    }

    /** The part of Start after the token source exists: the status becomes
        Running and ServiceStarted is raised. */
    method Announce()
      requires Valid() && status == Stopped
      modifies this`status, this`log, this`hasTokenSource, this`immediatePending
      ensures Valid()
      ensures status == Running && hasTokenSource && immediatePending == config.runImmediately
      ensures log == old(log) + [StatusChanged(Running, retryCount), ServiceStarted]
    {
      hasTokenSource := true;
      immediatePending := config.runImmediately;
      SetStatus(Running);
      QuietKeepsReported(log, [ServiceStarted]);
      log := log + [ServiceStarted];
    }

    /** Stops the service: cancels and awaits the loop, drops the token
        source and ends Stopped. Stopping a stopped service does nothing. */
    method Stop()
      requires Valid()
      modifies this`status, this`log, this`hasTokenSource, this`immediatePending
      ensures Valid()
      ensures old(status) == Stopped ==> status == Stopped && log == old(log)
      ensures old(status) != Stopped ==>
        status == Stopped && !hasTokenSource && !immediatePending
        && log == old(log) + [StatusChanged(Stopped, retryCount), ServiceStopped]
    {
      if status == Stopped {
        return;
      }
      hasTokenSource := false;
      immediatePending := false;
      SetStatus(Stopped);
      QuietKeepsReported(log, [ServiceStopped]);
      log := log + [ServiceStopped];
    }

    /** Pauses a running service; any other status is refused. */
    method Pause() returns (r: Result<(), PollError>)
      requires Valid()
      modifies this`status, this`log
      ensures Valid()
      ensures old(status) == Running ==> r == Ok(()) && status == Paused && log == old(log) + [StatusChanged(Paused, retryCount)]
      ensures old(status) != Running ==> r == Err(InvalidOperation) && status == old(status) && log == old(log)
    {
      if status != Running {
        return Err(InvalidOperation);
      }
      SetStatus(Paused);
      r := Ok(());
    }

    /** Resumes a paused service; any other status is refused. */
    method Resume() returns (r: Result<(), PollError>)
      requires Valid()
      modifies this`status, this`log
      ensures Valid()
      ensures old(status) == Paused ==> r == Ok(()) && status == Running && log == old(log) + [StatusChanged(Running, retryCount)]
      ensures old(status) != Paused ==> r == Err(InvalidOperation) && status == old(status) && log == old(log)
    {
      if status != Paused {
        return Err(InvalidOperation);
      }
      SetStatus(Running);
      r := Ok(());
    }

    /** One call of the task at time now. The answer is the task's success,
        or the exception that escaped. */
    method ExecuteTask(o: Outcome, now: int) returns (r: Result<bool, PollError>)
      requires Valid()
      modifies this`log, this`lastExecutionTime
      ensures Valid()
      ensures log == old(log) + CallEvents(status, retryCount, o)
      ensures o == Escaped ==> r == Err(TaskException) && lastExecutionTime == old(lastExecutionTime)
      ensures o != Escaped ==> r == Ok(o == Succeeded) && lastExecutionTime == now
    {
      var events := [TaskStarted(status, retryCount)];
      if o == Escaped {
        QuietKeepsReported(log, events);
        log := log + events;
        return Err(TaskException);
      }
      events := events + [TaskCompleted(o == Succeeded, retryCount)];
      QuietKeepsReported(log, events);
      log := log + events;
      lastExecutionTime := now;
      r := Ok(o == Succeeded);
    }

    /** The rest of a call whose TaskStarted was raised already: the
        result is reported with TaskCompleted unless an exception escaped. */
    method CompleteTask(o: Outcome, now: int) returns (r: Result<bool, PollError>)
      requires Valid()
      modifies this`log, this`lastExecutionTime
      ensures Valid()
      ensures log == old(log) + CallEvents(status, retryCount, o)[1..]
      ensures o == Escaped ==> r == Err(TaskException) && lastExecutionTime == old(lastExecutionTime)
      ensures o != Escaped ==> r == Ok(o == Succeeded) && lastExecutionTime == now
    {
      if o == Escaped {
        return Err(TaskException);
      }
      var events := [TaskCompleted(o == Succeeded, retryCount)];
      QuietKeepsReported(log, events);
      log := log + events;
      lastExecutionTime := now;
      r := Ok(o == Succeeded);
    }

    /** Runs the task once on demand; refused unless the service was started.
        A paused service still runs it. */
    method TriggerManualExecution(o: Outcome, now: int) returns (r: Result<bool, PollError>)
      requires Valid()
      modifies this`log, this`lastExecutionTime
      ensures Valid()
      ensures !old(hasTokenSource) ==> r == Err(InvalidOperation) && log == old(log)
      ensures old(hasTokenSource) ==>
        (o == Escaped ==> r == Err(TaskException)) && (o != Escaped ==> r == Ok(o == Succeeded))
        && log == old(log) + CallEvents(status, retryCount, o)
    {
      if !hasTokenSource {
        return Err(InvalidOperation);
      }
      r := ExecuteTask(o, now);
    }

    /** The retry rule's bookkeeping after an attempt that did not succeed. */
    method CountFailure(o: Outcome)
      requires Valid()
      modifies this`retryCount, this`log
      ensures Valid()
      ensures log == old(log) + FailureEvents(old(retryCount), o, config)
      ensures retryCount == NextCount(old(retryCount), o, config.maxRetryCount)
    {
      var after := FailureEvents(retryCount, o, config);
      QuietKeepsReported(log, after);
      log := log + after;
      retryCount := NextCount(retryCount, o, config.maxRetryCount);
    }

    /** One attempt of a retry round: the task is called, and unless it
        succeeded the failure is counted. */
    method Attempt(o: Outcome, now: int) returns (succeeded: bool)
      requires Valid()
      modifies this`retryCount, this`log, this`lastExecutionTime
      ensures Valid()
      ensures succeeded <==> o == Succeeded
      ensures succeeded ==> log == old(log) + CallEvents(status, old(retryCount), o) && retryCount == old(retryCount)
      ensures !succeeded ==>
        && log == old(log) + CallEvents(status, old(retryCount), o) + FailureEvents(old(retryCount), o, config)
        && retryCount == NextCount(old(retryCount), o, config.maxRetryCount)
    {
      var result := ExecuteTask(o, now);
      succeeded := result == Ok(true);
      if !succeeded {
        CountFailure(o);
      }
    }

    /** The rest of an attempt whose TaskStarted was raised already. */
    method FinishCall(o: Outcome, now: int) returns (succeeded: bool)
      requires Valid()
      modifies this`retryCount, this`log, this`lastExecutionTime
      ensures Valid()
      ensures succeeded <==> o == Succeeded
      ensures succeeded ==> log == old(log) + CallEvents(status, old(retryCount), o)[1..] && retryCount == old(retryCount)
      ensures !succeeded ==>
        && log == old(log) + CallEvents(status, old(retryCount), o)[1..] + FailureEvents(old(retryCount), o, config)
        && retryCount == NextCount(old(retryCount), o, config.maxRetryCount)
    {
      var result := CompleteTask(o, now);
      succeeded := result == Ok(true);
      if !succeeded {
        CountFailure(o);
      }
    }

    /** The attempts of a retry round from the current counter on: each
        failure counts, reaching the bound raises TaskFailed, waits twice
        the retry interval and resets the counter, and the round ends at
        the first success or when cancelled. Returns how many attempts it
        made. */
    method RetryRound(os: seq<Outcome>, now: int) returns (attempts: nat)
      requires Valid()
      modifies this`retryCount, this`log, this`lastExecutionTime
      ensures Valid()
      ensures attempts == Attempts(os)
      ensures retryCount == RetryCountAfter(old(retryCount), os, config.maxRetryCount)
      ensures log == old(log) + RetryTrace(status, old(retryCount), os, config)
    {
      ghost var target := log + RetryTrace(status, retryCount, os, config);
      ghost var finalCount := RetryCountAfter(retryCount, os, config.maxRetryCount);
      var i := 0;
      while i < |os|
        invariant 0 <= i <= |os|
        invariant Valid()
        invariant i + Attempts(os[i..]) == Attempts(os)
        invariant RetryCountAfter(retryCount, os[i..], config.maxRetryCount) == finalCount
        invariant log + RetryTrace(status, retryCount, os[i..], config) == target
        decreases |os| - i
      {
        var o := os[i];
        ghost var before := log;
        ghost var count := retryCount;
        var succeeded := Attempt(o, now);
        if succeeded {
          RetryRoundEnds(before, target, status, count, os, i, config);
          retryCount := 0;
          return i + 1;
        }
        RetryRoundGoesOn(before, target, status, count, os, i, config);
        i := i + 1;
      }
      assert os[i..] == [];
      attempts := i;
    }

    /** One retry round: the counter starts at zero. */
    method ExecuteWithRetry(os: seq<Outcome>, now: int) returns (attempts: nat)
      requires Valid()
      modifies this`retryCount, this`log, this`lastExecutionTime
      ensures Valid()
      ensures attempts == Attempts(os)
      ensures retryCount == RetryCountAfter(0, os, config.maxRetryCount)
      ensures log == old(log) + RetryTrace(status, 0, os, config)
    {
      retryCount := 0;
      attempts := RetryRound(os, now);
    }

    /** The rest of the RunImmediately round Start began: the announced
        first call completes and the round goes on as any other, from the
        counter Start reset. A round cancelled during that call raises
        nothing more. */
    method FinishImmediateRound(os: seq<Outcome>, now: int) returns (attempts: nat)
      requires Valid()
      modifies this`retryCount, this`log, this`lastExecutionTime
      ensures Valid()
      ensures attempts == Attempts(os)
      ensures retryCount == RetryCountAfter(old(retryCount), os, config.maxRetryCount)
      ensures os == [] ==> log == old(log)
      ensures os != [] ==> log == old(log) + RetryTrace(status, old(retryCount), os, config)[1..]
    {
      if os == [] {
        return 0;
      }
      ghost var count := retryCount;
      ghost var log0 := log;
      var succeeded := FinishCall(os[0], now);
      if succeeded {
        AnnouncedRoundRest(status, count, os, config);
        retryCount := 0;
        return 1;
      }
      ghost var log1 := log;
      var rest := RetryRound(os[1..], now);
      ImmediateRoundGoesOn(log0, log1, log, status, count, os, config);
      attempts := 1 + rest;
    }

    /** One iteration of the polling loop. A RunImmediately service first
        finishes the retry round Start began, with no wait; every later iteration waits the
        interval, then either waits out a pause (running nothing) or runs a
        retry round. The answer is false once the loop was cancelled. */
    method LoopStep(os: seq<Outcome>, now: int) returns (continues: bool)
      requires Valid() && hasTokenSource
      modifies this`retryCount, this`log, this`lastExecutionTime, this`immediatePending
      ensures Valid()
      ensures !immediatePending
      ensures old(immediatePending) && os == [] ==> log == old(log)
      ensures old(immediatePending) && os != [] ==>
        log == old(log) + RetryTrace(status, old(retryCount), os, config)[1..]
      ensures old(immediatePending) ==>
        continues == (Succeeded in os) && retryCount == RetryCountAfter(old(retryCount), os, config.maxRetryCount)
      ensures !old(immediatePending) && status == Paused ==>
        log == old(log) + [Waited(config.interval), WaitedWhilePaused] && retryCount == old(retryCount) && continues
      ensures !old(immediatePending) && status != Paused ==>
        log == old(log) + [Waited(config.interval)] + RetryTrace(status, 0, os, config)
      ensures !old(immediatePending) && status != Paused ==>
        continues == (Succeeded in os) && retryCount == RetryCountAfter(0, os, config.maxRetryCount)
    {
      if immediatePending {
        immediatePending := false;
        var _ := FinishImmediateRound(os, now);
        return Succeeded in os;
      }
      QuietKeepsReported(log, [Waited(config.interval)]);
      log := log + [Waited(config.interval)];
      if status == Paused {
        QuietKeepsReported(log, [WaitedWhilePaused]);
        log := log + [WaitedWhilePaused];
        return true;
      }
      var attempts := ExecuteWithRetry(os, now);
      continues := Succeeded in os;
    }
  }

  /** A paused service runs nothing in a later loop iteration: no
      TaskStarted is raised until it is resumed. */
  method PausedRunsNothing(service: PollingService, os: seq<Outcome>, now: int)
    requires service.Valid() && service.status == Running && !service.immediatePending
    modifies service
    ensures |service.log| >= |old(service.log)|
    ensures forall i :: |old(service.log)| <= i < |service.log| ==> !service.log[i].TaskStarted?
  {
    var paused := service.Pause();
    var continues := service.LoopStep(os, now);
  }

  /** Starting a RunImmediately service and running its first loop
      iteration: the first call is announced with the status Start found,
      before the service reports Running, and its counter starts at zero. */
  method ImmediateRoundOrder(service: PollingService, os: seq<Outcome>, now: int)
    requires service.Valid() && service.status == Stopped && service.config.runImmediately
    modifies service
    ensures os == [] ==>
      service.log == old(service.log) + [TaskStarted(Stopped, 0), StatusChanged(Running, 0), ServiceStarted]
    ensures os != [] ==>
      service.log == old(service.log) + [TaskStarted(Stopped, 0), StatusChanged(Running, 0), ServiceStarted]
        + RetryTrace(Running, 0, os, service.config)[1..]
  {
    var r := service.Start();
    var continues := service.LoopStep(os, now);
  }
}
