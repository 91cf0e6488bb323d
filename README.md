# Staking prelaunch minipools — a Dafny model

This project models the Rocket Pool smart node's task that stakes prelaunch
minipools (`rocketpool/node/stake-minipools.go`). The task works for one node
account. At start-up it waits for the node to be registered and gets the
account manager and the Rocket Pool binding. Then it starts a background loop
that runs one cycle, logs the cycle's error if there is one, and sleeps a
minute before the next cycle.
A cycle waits for the Ethereum client to sync and looks up the node account.
It then lists the node's minipools: it makes one contract handle per address
and queries every minipool's status concurrently, one result slot per
minipool. If any of those steps fails, the whole listing fails. Otherwise the
cycle keeps the minipools whose status is `Prelaunch`. When there are any, it
logs how many there are and tries to stake each one in turn. A failed stake is
logged with the minipool's address and the cycle goes on to the next minipool.
Staking itself is still a stub: it logs that it started, that staking is not
implemented, and that it succeeded.

Layout:

- `minipools.dfy` (module `Minipools`): addresses, errors, `Result`/`Outcome`
  (a Go `error` that is nil or not), minipool statuses and handles, the log
  events, and `FirstFail`, the error of a run of steps that stops at the first
  failure.
- `prelaunch.dfy` (module `PrelaunchMinipools`): `getPrelaunchMinipools`. The
  ledger's answers are an input (`Ledger`). `Aggregate` is the specification
  function. `GetPrelaunchMinipools` follows the code's three loops:
  `CreateMinipools` fills the handle array, `LoadStatuses` fills the status
  array, and `FilterPrelaunch` builds the result by appending.
- `stake_task.dfy` (module `StakeTask`): one cycle
  (`StakePrelaunchMinipools` against the function `Cycle`), the stake loop
  (`StakeMinipools`), the stub `StakeMinipool`, and the start-up and task
  loop (`StartStakePrelaunchMinipools` against `LoopLog`). The stake
  operation is a parameter `stake: Minipool -> StakeAttempt`, so failing
  stakes can be modelled. `StakeMinipool` is the one the code uses today.

Concurrency: the status queries run as goroutines in an `errgroup`. Each
goroutine writes only its own slot, and `Wait` returns the first error that
any goroutine returned. The model runs the queries one after another in an
input order `finish`, a permutation of the minipool indices that stands for
the order in which the goroutines finish. The first error in that order is
the one returned. `AggregateIgnoresCompletionOrder` shows that this order
decides only which error is returned. It does not affect whether the call
succeeds, nor what it returns when it does.

The node-registration wait, the account manager and the Rocket Pool binding
(`stake-minipools.go:28-32`) are checked once, before the loop starts. An
error there is returned to the caller and no loop starts. Each cycle waits for
the client to sync and looks up the node account (lines 54-62) before it lists
the minipools.

## Model

| member | source | states |
|---|---|---|
| `PrelaunchMinipools.GetPrelaunchMinipools` | rocketpool/node/stake-minipools.go:90-138 | the result is `Aggregate(l)`: the listing error, else the first handle error, else the first status error to finish, else the Prelaunch minipools in listing order |
| `PrelaunchMinipools.CreateMinipools` | rocketpool/node/stake-minipools.go:99-106 | returns the first failing handle's error in listing order, and otherwise slot j holds the handle for address j |
| `PrelaunchMinipools.LoadStatuses` | rocketpool/node/stake-minipools.go:108-125 | slot i ends up holding query i's status if that query succeeded and the zero status otherwise, whatever the completion order; the error is that of the first failing query to finish |
| `PrelaunchMinipools.FilterPrelaunch` | rocketpool/node/stake-minipools.go:127-136 | the appended list is `KeepPrelaunch` of the handles and the slots |
| `PrelaunchMinipools.NoMinipoolsNoneInPrelaunch` | rocketpool/node/stake-minipools.go:93-136 | a node with no minipools gets an empty list and no error |
| `PrelaunchMinipools.AggregateOkIffAllSucceed` | rocketpool/node/stake-minipools.go:93-125 | all or nothing: the aggregation succeeds exactly when the listing, every handle and every status query succeed, so no partial list is ever returned |
| `PrelaunchMinipools.StatusFailureFailsAggregate` | rocketpool/node/stake-minipools.go:113-125 | if any status query fails, the aggregation fails with the error of a failing query: the first to finish among the failures |
| `PrelaunchMinipools.CreateFailureFailsAggregate` | rocketpool/node/stake-minipools.go:100-104 | a handle that cannot be made, after all earlier ones were made, fails the aggregation with its own error |
| `PrelaunchMinipools.AggregateSelectsPrelaunch` | rocketpool/node/stake-minipools.go:127-136 | on success the list holds the handle of every address whose status is Prelaunch and of no other, in increasing listing position |
| `PrelaunchMinipools.AggregateIgnoresCompletionOrder` | rocketpool/node/stake-minipools.go:109-125 | the order in which the concurrent queries finish changes neither success nor the returned list |
| `PrelaunchMinipools.PrelaunchPositionsExact` | rocketpool/node/stake-minipools.go:129-133 | the filter's positions are strictly increasing and contain a position iff its status is Prelaunch |
| `PrelaunchMinipools.KeepPrelaunchSelects` | rocketpool/node/stake-minipools.go:128-133 | the append loop's result is the handles at exactly those positions, in that order |
| `StakeTask.StakePrelaunchMinipools` | rocketpool/node/stake-minipools.go:51-86 | one cycle's error, log and stake attempts are those of `Cycle` |
| `StakeTask.StakeMinipools` | rocketpool/node/stake-minipools.go:76-81 | every minipool is attempted once, in order; each attempt's lines are followed by a failure line carrying its address when it failed |
| `StakeTask.StartStakePrelaunchMinipools` | rocketpool/node/stake-minipools.go:25-47 | returns the first failing start-up check's error, in order registration, account manager, Rocket Pool, and then runs no loop; otherwise returns nil and the loop's trace is `LoopLog` |
| `StakeTask.CycleStopsAtFirstError` | rocketpool/node/stake-minipools.go:54-68 | a sync, account or aggregation failure ends the cycle with that error, in that order of precedence, with nothing logged and no stake attempted |
| `StakeTask.CycleQuietIffNothingToStake` | rocketpool/node/stake-minipools.go:69-71 | a cycle returns nil with an empty log exactly when every step succeeded and nothing is in Prelaunch; no stake is attempted exactly when it does not reach a non-empty list |
| `StakeTask.CycleAttemptsEveryPrelaunch` | rocketpool/node/stake-minipools.go:73-85 | with a non-empty list, the cycle logs the count first, attempts exactly the listed minipools in order and returns nil whatever the attempts returned |
| `StakeTask.DispatchLogAt` | rocketpool/node/stake-minipools.go:77-81 | minipool i's attempt sits in the log between the earlier and the later ones, and its failure is logged with its address |
| `StakeTask.DispatchIsolation` | rocketpool/node/stake-minipools.go:77-81 | what the later minipools' attempts log does not depend on how the earlier attempts went |
| `StakeTask.StakeMinipool` | rocketpool/node/stake-minipools.go:142-155 | logs the start and the success for the minipool's own address, three lines in all with "not implemented" between them, logs no failure, and returns nil |
| `StakeTask.StubDispatchLog` | rocketpool/node/stake-minipools.go:142-155 | with the current stub, each minipool logs start, "not implemented" and success, three lines each, and no stake failure is ever logged |
| `StakeTask.LoopLogAppend` | rocketpool/node/stake-minipools.go:35-42 | the loop never stops after a failing cycle: the log of iterations a then b is a's log followed by b's |
| `StakeTask.LoopSleepsOncePerCycle` | rocketpool/node/stake-minipools.go:36-41 | each iteration sleeps exactly once, so n iterations sleep n times, failing cycles included |

## Left out

- Concurrency: the errgroup goroutines become a sequential loop over an input completion order. Real interleavings finer than one query at a time are not modelled. No slot is shared, so they cannot change any slot's value.
- StartStakePrelaunchMinipools: the detached goroutine (`go` at `stake-minipools.go:35`) is not modelled. The code returns nil at once after start-up while the loop keeps running in the background; the model instead runs the `|cycles|` iterations before returning and hands back their log as `trace`.
- Time: the one-minute interval and the sleep become a `Slept` event. No clock is modelled.
- The endless task loop is bounded by its input: `StartStakePrelaunchMinipools` runs one iteration per element of `cycles`.
- The services and the ledger are inputs, not calls: `WaitNodeRegistered`, `GetAccountManager`, `GetRocketPool`, `WaitClientSynced`, `GetNodeAccount`, `GetNodeMinipoolAddresses`, `NewMinipool` and `GetStatus`. The ledger's answers are taken to be those for the node account. The account's address is not itself matched against them.
- The account manager and the Rocket Pool binding are opaque values, so only whether getting them failed is modelled.
- Log text and hex rendering of addresses are not modelled. Only the kind of each line, its count, address and error, and the lines' order are kept.
- rocketpool-go's `types.MinipoolStatus` package is not part of this model. Its values are taken as Initialized (the zero value), Prelaunch, Staking, Withdrawable and Dissolved.
- shared/services/rocketpool/client.go (SSH and shell plumbing, docker-compose, config load and save) and rocketpool-cli/node/set-timezone.go (a prompt plus a remote call) are not part of this model. Neither holds logic of the staking task.
