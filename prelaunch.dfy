/** Finding the node's minipools that are in Prelaunch: list the node's
    minipool addresses, make one handle per address, query every status
    (concurrently, one result slot per minipool), and keep the minipools
    whose status is Prelaunch, in the order their addresses were listed. */
module PrelaunchMinipools {
  import opened Minipools

  /** What the ledger answers during one aggregation, for the node account.
      `addresses` is the answer to the address listing; `created[i]` the
      outcome of making a handle for address i; `statuses[i]` the answer to
      minipool i's status query; `finish` the order in which the concurrent
      status queries complete (`finish[k]` is the k-th query to finish). */
  datatype Ledger = Ledger(
    addresses: Result<seq<Addr>>,
    created: seq<Outcome>,
    statuses: seq<Result<MinipoolStatus>>,
    finish: seq<nat>)

  /** `finish` orders the n queries: it lists n query indices and names
      every one of them, so it is a permutation of 0 .. n-1. */
  predicate IsSchedule(finish: seq<nat>, n: nat)
  {
    && |finish| == n
    && (forall k | 0 <= k < n :: finish[k] < n)
    && (forall i: nat | i < n :: i in finish)
  }

  /** Every address listed has one handle outcome and one status answer, and
      every status query finishes once. */
  predicate WellFormed(l: Ledger)
  {
    l.addresses.Ok? ==>
      var n := |l.addresses.value|;
      |l.created| == n && |l.statuses| == n && IsSchedule(l.finish, n)
  }

  /** The handles made for the listed addresses, in listing order. */
  function Handles(addrs: seq<Addr>): seq<Minipool>
  {
    seq(|addrs|, i requires 0 <= i < |addrs| => Minipool(addrs[i]))
  }

  /** The status slots once every query has run: slot i holds query i's
      answer when it succeeded and the zero status otherwise. */
  function Slots(sts: seq<Result<MinipoolStatus>>): seq<MinipoolStatus>
  {
    seq(|sts|, i requires 0 <= i < |sts| => if sts[i].Ok? then sts[i].value else Initialized)
  }

  /** The status queries' outcomes, in the order they finished. */
  function QueryOutcomes(sts: seq<Result<MinipoolStatus>>, order: seq<nat>): seq<Outcome>
    requires forall k | 0 <= k < |order| :: order[k] < |sts|
  {
    seq(|order|, k requires 0 <= k < |order| =>
      if sts[order[k]].Ok? then Pass else Fail(sts[order[k]].error))
  }

  /** The minipools whose status slot is Prelaunch, in their original order. */
  function KeepPrelaunch(mps: seq<Minipool>, sts: seq<MinipoolStatus>): (r: seq<Minipool>)
    requires |mps| == |sts|
    ensures |r| <= |mps|
  {
    if mps == [] then []
    else
      KeepPrelaunch(mps[..|mps| - 1], sts[..|sts| - 1])
        + (if sts[|sts| - 1] == Prelaunch then [mps[|mps| - 1]] else [])
  }

  /** The positions whose status is Prelaunch, in increasing order. */
  function PrelaunchPositions(sts: seq<MinipoolStatus>): (idx: seq<nat>)
    ensures forall k | 0 <= k < |idx| :: idx[k] < |sts|
  {
    if sts == [] then []
    else
      PrelaunchPositions(sts[..|sts| - 1])
        + (if sts[|sts| - 1] == Prelaunch then [|sts| - 1] else [])
  }

  /** PrelaunchPositions names exactly the Prelaunch positions, each once,
      in increasing order. */
  lemma {:induction false} PrelaunchPositionsExact(sts: seq<MinipoolStatus>)
    ensures forall j, k | 0 <= j < k < |PrelaunchPositions(sts)| ::
      PrelaunchPositions(sts)[j] < PrelaunchPositions(sts)[k]
    ensures forall i: nat | i < |sts| :: i in PrelaunchPositions(sts) <==> sts[i] == Prelaunch
  {
    if sts != [] {
      var init := sts[..|sts| - 1];
      PrelaunchPositionsExact(init);
      forall i: nat | i < |init|
        ensures sts[i] == init[i]
      {
      }
    }
  }

  /** KeepPrelaunch picks out the minipools at the Prelaunch positions. */
  lemma {:induction false} KeepPrelaunchSelects(mps: seq<Minipool>, sts: seq<MinipoolStatus>)
    requires |mps| == |sts|
    ensures |KeepPrelaunch(mps, sts)| == |PrelaunchPositions(sts)|
    ensures forall k | 0 <= k < |PrelaunchPositions(sts)| ::
      KeepPrelaunch(mps, sts)[k] == mps[PrelaunchPositions(sts)[k]]
  {
    if mps != [] {
      KeepPrelaunchSelects(mps[..|mps| - 1], sts[..|sts| - 1]);
    }
  }

  /** What getPrelaunchMinipools returns: the listing error; else the first
      handle error in listing order; else the error of the first status query
      to finish with one; else the Prelaunch minipools. */
  function Aggregate(l: Ledger): Result<seq<Minipool>>
    requires WellFormed(l)
  {
    match l.addresses
    case Err(e) => Err(e)
    case Ok(addrs) =>
      match FirstFail(l.created)
      case Fail(e) => Err(e)
      case Pass =>
        match FirstFail(QueryOutcomes(l.statuses, l.finish))
        case Fail(e) => Err(e)
        case Pass => Ok(KeepPrelaunch(Handles(addrs), Slots(l.statuses)))
  }

  /** The aggregation, step by step: the handle loop, the status fan-out
      and the filter, each below. */
  method GetPrelaunchMinipools(l: Ledger) returns (r: Result<seq<Minipool>>)
    requires WellFormed(l)
    ensures r == Aggregate(l)
  {
    if l.addresses.Err? {
      return Err(l.addresses.error);
    }
    var addresses := l.addresses.value;
    var minipools, err := CreateMinipools(addresses, l.created);
    if err.Fail? {
      return Err(err.error);
    }
    var statuses, statusErr := LoadStatuses(l.statuses, l.finish);
    if statusErr.Fail? {
      return Err(statusErr.error);
    }
    var prelaunchMinipools := FilterPrelaunch(addresses, minipools, statuses);
    return Ok(prelaunchMinipools);
  }

  /** Makes one handle per address, in listing order, into a fresh array,
      stopping at the first handle that cannot be made. */
  method CreateMinipools(addresses: seq<Addr>, created: seq<Outcome>)
    returns (minipools: array<Option<Minipool>>, err: Outcome)
    requires |created| == |addresses|
    ensures fresh(minipools) && minipools.Length == |addresses|
    ensures err == FirstFail(created)
    ensures err.Pass? ==> forall j | 0 <= j < |addresses| :: minipools[j] == Some(Minipool(addresses[j]))
  {
    var n := |addresses|;
    minipools := new Option<Minipool>[n](_ => None);
    var mi := 0;
    while mi < n
      invariant 0 <= mi <= n
      invariant forall j | 0 <= j < mi :: created[j].Pass?
      invariant forall j | 0 <= j < mi :: minipools[j] == Some(Minipool(addresses[j]))
    {
      if created[mi].Fail? {
        FirstFailIsEarliest(created, mi);
        return minipools, created[mi];
      }
      minipools[mi] := Some(Minipool(addresses[mi]));
      mi := mi + 1;
    }
    err := Pass;
  }

  /** The status fan-out, run in the order the queries finish: each query
      writes only its own slot and only when it succeeded, and the first
      error to arrive is the one kept. */
  method LoadStatuses(sts: seq<Result<MinipoolStatus>>, finish: seq<nat>)
    returns (statuses: array<MinipoolStatus>, err: Outcome)
    requires IsSchedule(finish, |sts|)
    ensures fresh(statuses)
    ensures statuses[..] == Slots(sts)
    ensures err == FirstFail(QueryOutcomes(sts, finish))
  {
    var n := |sts|;
    statuses := new MinipoolStatus[n](_ => Initialized);
    err := Pass;
    var k := 0;
    while k < n
      invariant 0 <= k <= n
      invariant err == FirstFail(QueryOutcomes(sts, finish[..k]))
      invariant forall i | 0 <= i < n ::
        statuses[i] == if i in finish[..k] && sts[i].Ok? then sts[i].value else Initialized
    {
      var i := finish[k];
      var status := sts[i];
      if status.Ok? {
        statuses[i] := status.value;
      } else if err.Pass? {
        err := Fail(status.error);
      }
      var o := if status.Ok? then Pass else Fail(status.error);
      assert finish[..k + 1] == finish[..k] + [i];
      assert QueryOutcomes(sts, finish[..k + 1]) == QueryOutcomes(sts, finish[..k]) + [o];
      FirstFailAppend(QueryOutcomes(sts, finish[..k]), o);
      k := k + 1;
    }
    assert finish[..n] == finish;
  }

  /** Keeps, in order, the handles whose status slot is Prelaunch. */
  method FilterPrelaunch(ghost addresses: seq<Addr>, minipools: array<Option<Minipool>>, statuses: array<MinipoolStatus>)
    returns (prelaunchMinipools: seq<Minipool>)
    requires minipools.Length == statuses.Length == |addresses|
    requires forall j | 0 <= j < |addresses| :: minipools[j] == Some(Minipool(addresses[j]))
    ensures prelaunchMinipools == KeepPrelaunch(Handles(addresses), statuses[..])
  {
    ghost var mps, slots := Handles(addresses), statuses[..];
    prelaunchMinipools := [];
    var mi := 0;
    while mi < statuses.Length
      invariant 0 <= mi <= statuses.Length
      invariant prelaunchMinipools == KeepPrelaunch(mps[..mi], slots[..mi])
    {
      assert mps[..mi + 1][..mi] == mps[..mi] && slots[..mi + 1][..mi] == slots[..mi];
      if statuses[mi] == Prelaunch {
        prelaunchMinipools := prelaunchMinipools + [minipools[mi].value];
      }
      mi := mi + 1;
    }
    assert mps[..mi] == mps && slots[..mi] == slots;
  }

  /** With no minipools the aggregation succeeds with nothing in it. */
  lemma NoMinipoolsNoneInPrelaunch(l: Ledger)
    requires WellFormed(l) && l.addresses == Ok([])
    ensures Aggregate(l) == Ok([])
  {
  }

  /** All or nothing: the aggregation succeeds exactly when the listing, every
      handle and every status query succeed. */
  lemma {:induction false} AggregateOkIffAllSucceed(l: Ledger)
    requires WellFormed(l)
    ensures Aggregate(l).Ok? <==>
      && l.addresses.Ok?
      && (forall i | 0 <= i < |l.created| :: l.created[i].Pass?)
      && (forall i | 0 <= i < |l.statuses| :: l.statuses[i].Ok?)
  {
    if l.addresses.Ok? && FirstFail(l.created).Pass? {
      var outs := QueryOutcomes(l.statuses, l.finish);
      if FirstFail(outs).Pass? {
        forall i | 0 <= i < |l.statuses|
          ensures l.statuses[i].Ok?
        {
          assert i in l.finish;
          var k :| 0 <= k < |l.finish| && l.finish[k] == i;
          assert outs[k].Pass?;
        }
      } else {
        FirstFailHasPosition(outs);
      }
    }
  }

  /** A failed status query fails the whole aggregation, with the error of a
      query that failed: the first failure to finish. */
  lemma {:induction false} StatusFailureFailsAggregate(l: Ledger, i: nat)
    requires WellFormed(l) && l.addresses.Ok?
    requires forall j | 0 <= j < |l.created| :: l.created[j].Pass?
    requires i < |l.statuses| && l.statuses[i].Err?
    ensures Aggregate(l).Err?
    ensures exists k ::
      && 0 <= k < |l.finish|
      && l.statuses[l.finish[k]] == Err(Aggregate(l).error)
      && forall j | 0 <= j < k :: l.statuses[l.finish[j]].Ok?
  {
    AggregateOkIffAllSucceed(l);
    var outs := QueryOutcomes(l.statuses, l.finish);
    FirstFailHasPosition(outs);
    var k :| 0 <= k < |outs| && outs[k] == FirstFail(outs) && forall j | 0 <= j < k :: outs[j].Pass?;
    assert l.statuses[l.finish[k]] == Err(Aggregate(l).error);
    forall j | 0 <= j < k
      ensures l.statuses[l.finish[j]].Ok?
    {
      assert outs[j].Pass?;
    }
  }

  /** A handle that cannot be made fails the aggregation with its error when
      every earlier handle was made; no status is consulted. */
  lemma CreateFailureFailsAggregate(l: Ledger, i: nat)
    requires WellFormed(l) && l.addresses.Ok?
    requires i < |l.created| && l.created[i].Fail?
    requires forall j | 0 <= j < i :: l.created[j].Pass?
    ensures Aggregate(l) == Err(l.created[i].error)
  {
    FirstFailIsEarliest(l.created, i);
  }

  /** On success the result is exactly the Prelaunch minipools, in listing
      order: it lists the handle of address p for each Prelaunch position p,
      the positions increasing, and a minipool appears iff its answer was
      Prelaunch. */
  lemma {:induction false} AggregateSelectsPrelaunch(l: Ledger)
    requires WellFormed(l) && Aggregate(l).Ok?
    ensures var idx := PrelaunchPositions(Slots(l.statuses));
      && |Aggregate(l).value| == |idx|
      && (forall k | 0 <= k < |idx| :: Aggregate(l).value[k] == Minipool(l.addresses.value[idx[k]]))
      && (forall j, k | 0 <= j < k < |idx| :: idx[j] < idx[k])
      && (forall i: nat | i < |l.statuses| :: i in idx <==> l.statuses[i] == Ok(Prelaunch))
  {
    AggregateOkIffAllSucceed(l);
    var slots := Slots(l.statuses);
    KeepPrelaunchSelects(Handles(l.addresses.value), slots);
    PrelaunchPositionsExact(slots);
  }

  /** The order in which the concurrent status queries finish does not change
      whether the aggregation succeeds, nor what it returns when it does. */
  lemma AggregateIgnoresCompletionOrder(l: Ledger, finish: seq<nat>)
    requires WellFormed(l) && l.addresses.Ok?
    requires IsSchedule(finish, |l.addresses.value|)
    ensures Aggregate(l.(finish := finish)).Ok? == Aggregate(l).Ok?
    ensures Aggregate(l).Ok? ==> Aggregate(l.(finish := finish)) == Aggregate(l)
  {
    AggregateOkIffAllSucceed(l);
    AggregateOkIffAllSucceed(l.(finish := finish));
  }
}
