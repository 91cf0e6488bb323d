/** The stake-prelaunch-minipools task: one cycle finds the node's Prelaunch
    minipools and tries to stake each of them in turn; the task checks its
    services once and then repeats the cycle, logging any error and sleeping
    between cycles, for as long as the process lives. */
module StakeTask {
  import opened Minipools
  import opened PrelaunchMinipools

  /** What the services answer during one cycle: whether the Ethereum client
      is synced, the node account, and the ledger's answers for that node. */
  datatype CycleEnv = CycleEnv(synced: Outcome, nodeAccount: Result<Addr>, ledger: Ledger)

  /** What the task's services answer at start-up: the wait for the node to
      be registered, the account manager and the Rocket Pool binding. */
  datatype Services = Services(registered: Outcome, accountManager: Outcome, rocketPool: Outcome)

  /** One attempt to stake a minipool: what it logs and the error it returns. */
  datatype StakeAttempt = StakeAttempt(log: seq<Event>, outcome: Outcome)

  /** One cycle's error, its log, and the minipools a stake was attempted on,
      in the order of the attempts. */
  datatype CycleResult = CycleResult(err: Outcome, log: seq<Event>, attempted: seq<Minipool>)

  /** Staking a minipool as the task currently does it: it logs the start,
      that staking is not implemented, and success, and never fails. */
  function StakeMinipool(mp: Minipool): (a: StakeAttempt)
    ensures a.outcome == Pass
    ensures |a.log| == 3 && a.log[0] == StakeStarted(mp.address) && a.log[2] == StakeSucceeded(mp.address)
    ensures a.log[1] == StakeNotImplemented
    ensures forall e | e in a.log :: !e.StakeFailed? && !e.Slept? && !e.CycleFailed?
  {
    StakeAttempt([StakeStarted(mp.address), StakeNotImplemented, StakeSucceeded(mp.address)], Pass)
  }

  /** The log of one stake attempt: its own lines, then the failure line
      naming the minipool when it failed. */
  function AttemptLog(mp: Minipool, stake: Minipool -> StakeAttempt): seq<Event>
  {
    stake(mp).log + if stake(mp).outcome.Fail? then [StakeFailed(mp.address, stake(mp).outcome.error)] else []
  }

  /** The log of attempting a stake on each minipool in turn. */
  function DispatchLog(mps: seq<Minipool>, stake: Minipool -> StakeAttempt): seq<Event>
  {
    if mps == [] then []
    else DispatchLog(mps[..|mps| - 1], stake) + AttemptLog(mps[|mps| - 1], stake)
  }

  /** What one cycle does: the first of the sync wait, the account lookup and
      the aggregation to fail ends it with that error; nothing in Prelaunch
      ends it quietly; otherwise it logs the count, attempts every Prelaunch
      minipool in order, and succeeds whatever the attempts returned. */
  function Cycle(env: CycleEnv, stake: Minipool -> StakeAttempt): CycleResult
    requires WellFormed(env.ledger)
  {
    if env.synced.Fail? then CycleResult(env.synced, [], [])
    else if env.nodeAccount.Err? then CycleResult(Fail(env.nodeAccount.error), [], [])
    else match Aggregate(env.ledger)
      case Err(e) => CycleResult(Fail(e), [], [])
      case Ok(mps) =>
        if mps == [] then CycleResult(Pass, [], [])
        else CycleResult(Pass, [ReadyForStaking(|mps|)] + DispatchLog(mps, stake), mps)
  }

  /** One cycle, step by step; the stakes are attempted one at a time. */
  method StakePrelaunchMinipools(env: CycleEnv, stake: Minipool -> StakeAttempt)
    returns (err: Outcome, log: seq<Event>, attempted: seq<Minipool>)
    requires WellFormed(env.ledger)
    ensures CycleResult(err, log, attempted) == Cycle(env, stake)
  {
    if env.synced.Fail? {
      return env.synced, [], [];
    }
    if env.nodeAccount.Err? {
      return Fail(env.nodeAccount.error), [], [];
    }
    var minipools := GetPrelaunchMinipools(env.ledger);
    if minipools.Err? {
      return Fail(minipools.error), [], [];
    }
    var mps := minipools.value;
    if |mps| == 0 {
      return Pass, [], [];
    }
    var stakeLog;
    stakeLog, attempted := StakeMinipools(mps, stake);
    return Pass, [ReadyForStaking(|mps|)] + stakeLog, attempted;
  }

  /** The stake loop of a cycle: each minipool in turn, a failure logged with
      its address and the loop going on to the next one. */
  method StakeMinipools(mps: seq<Minipool>, stake: Minipool -> StakeAttempt)
    returns (log: seq<Event>, attempted: seq<Minipool>)
    ensures log == DispatchLog(mps, stake)
    ensures attempted == mps
  {
    log, attempted := [], [];
    var i := 0;
    while i < |mps|
      invariant 0 <= i <= |mps|
      invariant attempted == mps[..i]
      invariant log == DispatchLog(mps[..i], stake)
    {
      var mp := mps[i];
      var attempt := stake(mp);
      attempted := attempted + [mp];
      log := log + attempt.log;
      if attempt.outcome.Fail? {
        log := log + [StakeFailed(mp.address, attempt.outcome.error)];
      }
      assert mps[..i + 1][..i] == mps[..i];
      i := i + 1;
    }
    assert mps[..i] == mps;
  }

  /** One iteration of the task loop: a cycle, its error logged if it had
      one, then the sleep. */
  function IterationLog(env: CycleEnv, stake: Minipool -> StakeAttempt): seq<Event>
    requires WellFormed(env.ledger)
  {
    var c := Cycle(env, stake);
    c.log + (if c.err.Fail? then [CycleFailed(c.err.error)] else []) + [Slept]
  }

  /** The logs of the task loop's first |cycles| iterations, one per iteration. */
  function IterationLogs(cycles: seq<CycleEnv>, stake: Minipool -> StakeAttempt): seq<seq<Event>>
    requires forall k | 0 <= k < |cycles| :: WellFormed(cycles[k].ledger)
  {
    seq(|cycles|, k requires 0 <= k < |cycles| => IterationLog(cycles[k], stake))
  }

  /** Logs written one after the other. */
  function Flatten(logs: seq<seq<Event>>): seq<Event>
  {
    if logs == [] then [] else Flatten(logs[..|logs| - 1]) + logs[|logs| - 1]
  }

  /** The log of the task loop's first |cycles| iterations. */
  function LoopLog(cycles: seq<CycleEnv>, stake: Minipool -> StakeAttempt): seq<Event>
    requires forall k | 0 <= k < |cycles| :: WellFormed(cycles[k].ledger)
  {
    Flatten(IterationLogs(cycles, stake))
  }

  /** The task's start: the first service check to fail is returned and no
      loop runs; otherwise the loop starts (its first |cycles| iterations are
      returned as `trace`, one environment per iteration) and nil is returned. */
  method StartStakePrelaunchMinipools(services: Services, cycles: seq<CycleEnv>, stake: Minipool -> StakeAttempt)
    returns (err: Outcome, trace: seq<Event>)
    requires forall k | 0 <= k < |cycles| :: WellFormed(cycles[k].ledger)
    ensures err == FirstFail([services.registered, services.accountManager, services.rocketPool])
    ensures err.Fail? ==> trace == []
    ensures err.Pass? ==> trace == LoopLog(cycles, stake)
  {
    ghost var checks := [services.registered, services.accountManager, services.rocketPool];
    if services.registered.Fail? {
      FirstFailIsEarliest(checks, 0);
      return services.registered, [];
    }
    if services.accountManager.Fail? {
      FirstFailIsEarliest(checks, 1);
      return services.accountManager, [];
    }
    if services.rocketPool.Fail? {
      FirstFailIsEarliest(checks, 2);
      return services.rocketPool, [];
    }
    trace := [];
    var k := 0;
    while k < |cycles|
      invariant 0 <= k <= |cycles|
      invariant trace == LoopLog(cycles[..k], stake)
    {
      var cycleErr, log, _ := StakePrelaunchMinipools(cycles[k], stake);
      trace := trace + log;
      if cycleErr.Fail? {
        trace := trace + [CycleFailed(cycleErr.error)];
      }
      trace := trace + [Slept];
      LoopLogStep(cycles, k, stake);
      k := k + 1;
    }
    assert cycles[..k] == cycles;
    err := Pass;
  }

  /** One more iteration of the loop appends its log to the trace so far. */
  lemma LoopLogStep(cycles: seq<CycleEnv>, k: nat, stake: Minipool -> StakeAttempt)
    requires k < |cycles|
    requires forall j | 0 <= j < |cycles| :: WellFormed(cycles[j].ledger)
    ensures LoopLog(cycles[..k + 1], stake) == LoopLog(cycles[..k], stake) + IterationLog(cycles[k], stake)
  {
    ghost var done := IterationLogs(cycles[..k], stake);
    assert IterationLogs(cycles[..k + 1], stake) == done + [IterationLog(cycles[k], stake)];
    assert (done + [IterationLog(cycles[k], stake)])[..k] == done;
  }

  /** A cycle ends at the first failing step, with that step's error, having
      logged nothing and attempted no stake. */
  lemma CycleStopsAtFirstError(env: CycleEnv, stake: Minipool -> StakeAttempt)
    requires WellFormed(env.ledger)
    ensures env.synced.Fail? ==> Cycle(env, stake) == CycleResult(env.synced, [], [])
    ensures env.synced.Pass? && env.nodeAccount.Err? ==>
      Cycle(env, stake) == CycleResult(Fail(env.nodeAccount.error), [], [])
    ensures env.synced.Pass? && env.nodeAccount.Ok? && Aggregate(env.ledger).Err? ==>
      Cycle(env, stake) == CycleResult(Fail(Aggregate(env.ledger).error), [], [])
  {
  }

  /** A cycle is silent and successful exactly when every step succeeded and
      no minipool is in Prelaunch. */
  lemma CycleQuietIffNothingToStake(env: CycleEnv, stake: Minipool -> StakeAttempt)
    requires WellFormed(env.ledger)
    ensures (Cycle(env, stake).err == Pass && Cycle(env, stake).log == []) <==>
      (env.synced.Pass? && env.nodeAccount.Ok? && Aggregate(env.ledger) == Ok([]))
    ensures Cycle(env, stake).attempted == [] <==>
      !(env.synced.Pass? && env.nodeAccount.Ok? && Aggregate(env.ledger).Ok? && Aggregate(env.ledger).value != [])
  {
  }

  /** Once the Prelaunch minipools are known, the cycle logs their count once,
      attempts each exactly once in order, and returns nil whatever the
      attempts returned. */
  lemma CycleAttemptsEveryPrelaunch(env: CycleEnv, stake: Minipool -> StakeAttempt)
    requires WellFormed(env.ledger)
    requires env.synced.Pass? && env.nodeAccount.Ok? && Aggregate(env.ledger).Ok?
    requires Aggregate(env.ledger).value != []
    ensures var mps := Aggregate(env.ledger).value;
      && Cycle(env, stake).err == Pass
      && Cycle(env, stake).attempted == mps
      && Cycle(env, stake).log == [ReadyForStaking(|mps|)] + DispatchLog(mps, stake)
  {
  }

  /** Attempting a list of minipools logs the first part's attempts and then
      the rest's. */
  lemma {:induction false} DispatchLogAppend(a: seq<Minipool>, b: seq<Minipool>, stake: Minipool -> StakeAttempt)
    ensures DispatchLog(a + b, stake) == DispatchLog(a, stake) + DispatchLog(b, stake)
  {
    if b == [] {
      assert a + b == a;
    } else {
      var b' := b[..|b| - 1];
      assert (a + b)[..|a + b| - 1] == a + b';
      assert (a + b)[|a + b| - 1] == b[|b| - 1];
      DispatchLogAppend(a, b', stake);
    }
  }

  /** Every Prelaunch minipool's attempt shows in the cycle's log in its place,
      and a failed attempt is logged with that minipool's address. */
  lemma DispatchLogAt(mps: seq<Minipool>, stake: Minipool -> StakeAttempt, i: nat)
    requires i < |mps|
    ensures DispatchLog(mps, stake)
      == DispatchLog(mps[..i], stake) + AttemptLog(mps[i], stake) + DispatchLog(mps[i + 1..], stake)
    ensures stake(mps[i]).outcome.Fail? ==>
      StakeFailed(mps[i].address, stake(mps[i]).outcome.error) in DispatchLog(mps, stake)
  {
    DispatchLogPrefix(mps, i, stake);
    var upto, post := mps[..i + 1], mps[i + 1..];
    assert mps == upto + post;
    DispatchLogAppend(upto, post, stake);
  }

  /** The attempts up to and including minipool i log those before it, then its own. */
  lemma DispatchLogPrefix(mps: seq<Minipool>, i: nat, stake: Minipool -> StakeAttempt)
    requires i < |mps|
    ensures DispatchLog(mps[..i + 1], stake) == DispatchLog(mps[..i], stake) + AttemptLog(mps[i], stake)
  {
    assert mps[..i + 1][..i] == mps[..i];
  }

  /** Isolation: what the attempts on the minipools after position i log does
      not depend on how the earlier attempts went. */
  lemma DispatchIsolation(mps: seq<Minipool>, stake1: Minipool -> StakeAttempt, stake2: Minipool -> StakeAttempt, i: nat)
    requires i <= |mps|
    requires forall j | i <= j < |mps| :: stake1(mps[j]) == stake2(mps[j])
    ensures DispatchLog(mps, stake1) == DispatchLog(mps[..i], stake1) + DispatchLog(mps[i..], stake1)
    ensures DispatchLog(mps, stake2) == DispatchLog(mps[..i], stake2) + DispatchLog(mps[i..], stake1)
  {
    assert mps == mps[..i] + mps[i..];
    DispatchLogAppend(mps[..i], mps[i..], stake1);
    DispatchLogAppend(mps[..i], mps[i..], stake2);
    DispatchLogSameActions(mps[i..], stake1, stake2);
  }

  /** Two ways of staking that agree on some minipools log the same for them. */
  lemma {:induction false} DispatchLogSameActions(mps: seq<Minipool>, stake1: Minipool -> StakeAttempt, stake2: Minipool -> StakeAttempt)
    requires forall j | 0 <= j < |mps| :: stake1(mps[j]) == stake2(mps[j])
    ensures DispatchLog(mps, stake1) == DispatchLog(mps, stake2)
  {
    if mps != [] {
      DispatchLogSameActions(mps[..|mps| - 1], stake1, stake2);
    }
  }

  /** With the current stake, which never fails, every attempt logs its start,
      "not implemented" and success, three lines per minipool, and no stake
      failure is ever logged. */
  lemma {:induction false} StubDispatchLog(mps: seq<Minipool>)
    ensures |DispatchLog(mps, StakeMinipool)| == 3 * |mps|
    ensures forall k | 0 <= k < |mps| ::
      DispatchLog(mps, StakeMinipool)[3 * k..3 * k + 3]
        == [StakeStarted(mps[k].address), StakeNotImplemented, StakeSucceeded(mps[k].address)]
    ensures forall e | e in DispatchLog(mps, StakeMinipool) :: !e.StakeFailed?
  {
    if mps != [] {
      var init := mps[..|mps| - 1];
      StubDispatchLog(init);
      var d := DispatchLog(mps, StakeMinipool);
      assert d == DispatchLog(init, StakeMinipool) + AttemptLog(mps[|mps| - 1], StakeMinipool);
      forall k | 0 <= k < |mps|
        ensures d[3 * k..3 * k + 3] == [StakeStarted(mps[k].address), StakeNotImplemented, StakeSucceeded(mps[k].address)]
      {
        if k < |init| {
          assert d[3 * k..3 * k + 3] == DispatchLog(init, StakeMinipool)[3 * k..3 * k + 3];
          assert init[k] == mps[k];
        }
      }
    }
  }

  /** The loop keeps going: iterations after a failing cycle run exactly as
      they would have anyway. */
  lemma LoopLogAppend(a: seq<CycleEnv>, b: seq<CycleEnv>, stake: Minipool -> StakeAttempt)
    requires forall k | 0 <= k < |a| :: WellFormed(a[k].ledger)
    requires forall k | 0 <= k < |b| :: WellFormed(b[k].ledger)
    ensures forall k | 0 <= k < |a + b| :: WellFormed((a + b)[k].ledger)
    ensures LoopLog(a + b, stake) == LoopLog(a, stake) + LoopLog(b, stake)
  {
    assert IterationLogs(a + b, stake) == IterationLogs(a, stake) + IterationLogs(b, stake);
    FlattenAppend(IterationLogs(a, stake), IterationLogs(b, stake));
  }

  /** Flattening a concatenation of logs concatenates the flattened parts. */
  lemma {:induction false} FlattenAppend(a: seq<seq<Event>>, b: seq<seq<Event>>)
    ensures Flatten(a + b) == Flatten(a) + Flatten(b)
  {
    if b == [] {
      assert a + b == a;
    } else {
      var b' := b[..|b| - 1];
      assert (a + b)[..|a + b| - 1] == a + b';
      FlattenAppend(a, b');
    }
  }

  /** Each iteration of the loop runs exactly one cycle, logs its error if it
      had one, and sleeps once, so n iterations sleep exactly n times when the
      stake attempts themselves never sleep. */
  lemma LoopSleepsOncePerCycle(cycles: seq<CycleEnv>, stake: Minipool -> StakeAttempt)
    requires forall k | 0 <= k < |cycles| :: WellFormed(cycles[k].ledger)
    requires forall mp :: Slept !in stake(mp).log
    ensures multiset(LoopLog(cycles, stake))[Slept] == |cycles|
  {
    var logs := IterationLogs(cycles, stake);
    forall k | 0 <= k < |logs|
      ensures multiset(logs[k])[Slept] == 1
    {
      IterationSleepsOnce(cycles[k], stake);
    }
    FlattenCount(logs, Slept);
  }

  /** Logs that each hold an event once hold it, together, once per log. */
  lemma {:induction false} FlattenCount(logs: seq<seq<Event>>, e: Event)
    requires forall k | 0 <= k < |logs| :: multiset(logs[k])[e] == 1
    ensures multiset(Flatten(logs))[e] == |logs|
  {
    if logs != [] {
      var init := logs[..|logs| - 1];
      assert forall k | 0 <= k < |init| :: init[k] == logs[k];
      FlattenCount(init, e);
    }
  }

  /** One iteration sleeps exactly once when its stake attempts never sleep. */
  lemma IterationSleepsOnce(env: CycleEnv, stake: Minipool -> StakeAttempt)
    requires WellFormed(env.ledger)
    requires forall mp :: Slept !in stake(mp).log
    ensures multiset(IterationLog(env, stake))[Slept] == 1
  {
    var c := Cycle(env, stake);
    if Aggregate(env.ledger).Ok? {
      DispatchNeverSleeps(Aggregate(env.ledger).value, stake);
    }
    assert Slept !in c.log;
  }

  /** Stake attempts that never sleep make a dispatch that never sleeps. */
  lemma {:induction false} DispatchNeverSleeps(mps: seq<Minipool>, stake: Minipool -> StakeAttempt)
    requires forall mp :: Slept !in stake(mp).log
    ensures Slept !in DispatchLog(mps, stake)
  {
    if mps != [] {
      DispatchNeverSleeps(mps[..|mps| - 1], stake);
      assert Slept !in stake(mps[|mps| - 1]).log;
    }
  }
}
