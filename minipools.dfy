/** Values shared by the minipool staking task: addresses, errors, minipool
    handles and statuses, and the log lines the task writes. */
module Minipools {

  /** A Go `error`, kept only for its message. */
  type Error = string

  /** A 20-byte account or contract address (go-ethereum's common.Address). */
  type Addr = a: seq<bv8> | |a| == 20 witness seq(20, i => 0 as bv8)

  datatype Option<T> = None | Some(value: T)

  /** A Go `(value, error)` pair where exactly one side is meaningful. */
  datatype Result<T> = Ok(value: T) | Err(error: Error)

  /** A Go `error` return: nil (Pass) or an error. */
  datatype Outcome = Pass | Fail(error: Error)

  /** rocketpool-go's types.MinipoolStatus; Initialized is the zero value a
      freshly made slice of statuses holds. */
  datatype MinipoolStatus = Initialized | Prelaunch | Staking | Withdrawable | Dissolved

  /** A minipool contract handle; the task only ever uses its address. */
  datatype Minipool = Minipool(address: Addr)

  /** The kinds of line the task logs, in the order it logs them. The sleep
      between cycles is recorded as an event too. */
  datatype Event =
    | CycleFailed(error: Error)                 // the loop logs a cycle's error
    | ReadyForStaking(count: nat)               // "%d minipools are ready for staking..."
    | StakeFailed(address: Addr, error: Error)  // "Could not stake minipool %s: %w"
    | StakeStarted(address: Addr)               // "Staking minipool %s..."
    | StakeNotImplemented                       // "Minipool staking not implemented..."
    | StakeSucceeded(address: Addr)             // "Successfully staked minipool %s."
    | Slept                                     // the pause between two cycles

  /** The error of a sequence of steps that each may fail and that stops at
      the first failure: nil when every step passed. */
  function FirstFail(os: seq<Outcome>): (r: Outcome)
    ensures r.Pass? <==> forall i | 0 <= i < |os| :: os[i].Pass?
    ensures r.Fail? ==> r in os
  {
    if os == [] then Pass
    else if os[0].Fail? then os[0]
    else FirstFail(os[1..])
  }

  /** The failure FirstFail reports is the earliest one. */
  lemma {:induction false} FirstFailIsEarliest(os: seq<Outcome>, i: nat)
    requires i < |os| && os[i].Fail?
    requires forall j | 0 <= j < i :: os[j].Pass?
    ensures FirstFail(os) == os[i]
  {
    if i > 0 {
      FirstFailIsEarliest(os[1..], i - 1);
    }
  }

  /** FirstFail reports a failure at some position all of whose predecessors passed. */
  lemma {:induction false} FirstFailHasPosition(os: seq<Outcome>)
    requires FirstFail(os).Fail?
    ensures exists i :: 0 <= i < |os| && os[i] == FirstFail(os) && forall j | 0 <= j < i :: os[j].Pass?
  {
    if os[0].Pass? {
      FirstFailHasPosition(os[1..]);
      var i :| 0 <= i < |os[1..]| && os[1..][i] == FirstFail(os[1..]) && forall j | 0 <= j < i :: os[1..][j].Pass?;
      assert os[i + 1] == FirstFail(os) && forall j | 0 <= j < i + 1 :: os[j].Pass?;
    } else {
      assert os[0] == FirstFail(os);
    }
  }

  /** Observing one more step keeps an earlier failure, and otherwise reports
      that step's outcome. */
  lemma {:induction false} FirstFailAppend(os: seq<Outcome>, o: Outcome)
    ensures FirstFail(os + [o]) == if FirstFail(os).Fail? then FirstFail(os) else o
  {
    if os != [] {
      assert (os + [o])[1..] == os[1..] + [o];
      FirstFailAppend(os[1..], o);
    }
  }
}
