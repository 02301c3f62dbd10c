# Verification model of the ERC-4337 entry point

This project models, in Dafny, the account-abstraction contracts of the repository and proves what they promise:

* the **EntryPoint** with its StakeManager: an escrow protocol that validates a batch of user operations, takes a
  prefund for each, executes them in revertible self-calls, charges gas, refunds the rest and pays the beneficiary,
  while accounts, paymasters, factories and beneficiaries may call back into it;
* the **BLSHelper** library: Jacobian point addition and doubling, conversion to affine coordinates and the modular
  inverse by Euclid's loop, against the chord and tangent law;
* the **validation words** of Helpers.sol and the two implementations of the **signing pack** of a user operation;
* the nonce and creation rules of **SimpleAccount**, and replay protection over whole runs;
* the token ledger of **DepositPaymaster** and the dispute ledger of **BatcherAccountable**.

`dafny verify dfyconfig.toml` checks everything.

## How the entry point is modelled

*Outside world.* Every external call comes with a finite tree of actions (`Protocol.Action`) that says what the callee
does: deposit, stake, unlock, withdraw, deploy code, open frames that may revert, or call `handleOps` and
`handleAggregatedOps` again with operations and trees of their own. Every proof about the protocol is an induction on
these trees, so it covers any nesting, any order and any sender.

*Reverts and gas.* The chain state (`Ledger.State`) is restored when a frame reverts. The meter (`Protocol.Meter`) is
not: it holds the gas counter, which only goes down, and a history of paymaster approvals, validations, account calls,
`postOp` calls with the cost they are told, and observed states, which is never rolled back. A call with a gas limit
starts with that limit or all but one 64th of the gas at hand, whichever is less (`Protocol.Enter`), so nothing it
re-enters can have more; what it used is charged to the caller (`Protocol.Leave`). An inner failure with fewer than 32
bytes of return data, as when the self-call runs out of gas, aborts the batch, as copying the return data does in the
contract.

*The ledger.* Every change of the chain state is an event. A state is *genuine* when its log replays to it and each
event was enabled when it happened; `Frames` proves that every function of the protocol, under every tree of calls,
only leads to genuine states. Properties of all reachable states are then inductions on the log (`Conservation`,
`ReplayProtection`, `StakeLock`). `escrow` and `stack` are bookkeeping the contract does not store: prefunds taken and
not settled, plus fees collected and not paid; and the batches being handled and senders being created, innermost last.

*Batches.* `Batches` proves what one batch adds to the log and to the history, whatever happens in between. `Weaving`
proves by a second induction on the trees that the log and the history of every run are interleavings of such batches;
`Settlement`, `TwoPhase` and `Sponsors` read their results off that.

*Each step.* `Effects` and `TokenEffects` say of every action and every stage, from what it is given, exactly when it
succeeds, whose record it changes and by how much, what it reports when it fails, and in which world the outside is
called; the laws about batches and runs rest on these.

*The contract itself.* `EntryPoints.EntryPoint` is the imperative form: deposits updated in place, the loops over an
array of infos, snapshots where the chain would undo a frame. Every method, from `IncrementDeposit` and the stake and
withdrawal methods over the stages of validation and execution to `HandleOps`, is proved to do exactly what the function
of Protocol it names says, error by error, so all the results about those functions are results about the class. The
table names only its loops, the undoing of a frame, and the invariant every transaction keeps.

## What turned out not to hold

Eight rules that look universal fail in the code as it stands. Each is stated with the exact condition, or with the
exact outcome when it fails.

* *A sender is created at most once.* The entry point has no re-entrancy guard, and the nonce of a creating operation is
  not checked. While a factory is at work it can hand another creating operation of the same sender to `handleOps`, and
  both commit (`Scenarios.SenderCreatedTwice`). A run validates at most one creation of a sender exactly when no creation
  of it starts while another is open (`NestedCreation.CreatesOnceIff`). It is never the same operation: an inner creation
  has a gas limit smaller by at least 5000 (`NestedCreation.NestedCreationsShrink`), because its execution, in the same
  batch, is checked to have its whole limit left, out of the gas the outer limit allows. So no operation of a
  SimpleAccount commits twice, creating or not, in any run (`NestedCreation.NoOperationCommitsTwice`).
* *The entry point's validations use the nonces 0, 1, 2, ...* An operation whose callData selects `validateUserOp` of its
  SimpleAccount makes the account use up a nonce when it is executed (`Scenarios.ValidatedNoncesSkipOne`). There is no
  gap exactly while no such operation has done so (`ReplayProtection.ValidationsHaveNoGapIff`,
  `ReplayProtection.BurnsBySelector`). Nonces are never repeated.
* *A stake stays locked for its delay.* `unlockStake` casts the timestamp to 48 bits; the lock holds exactly for
  timestamps below 2^48 (`StakeLock.LockHoldsIff`), and in a run at that timestamp a stake with a delay of a day is
  unlocked and withdrawn in one block (`Scenarios.StakeWithdrawnAtOnce`). The same bound separates on-chain acceptance
  from what simulation reports (`Validation.AcceptanceBeyondUint48`).
* *A `postOp` that fails is called again.* When it fails in the self-call with less than 32 bytes of data, as with a bare
  revert or an error without arguments, reading the data fails, and the whole batch with it, without a reason. It is
  called again exactly when there are 32 bytes that are not the marker (`Effects.PostOpRetriedIff`); a run shows the
  other case (`Scenarios.SilentPostOpAborts`).
* *(0, 0) is neutral for `BLSHelper.ecAdd`.* It is, next to another point, exactly when the x of that point is not 0;
  otherwise `ecAdd` reverts or doubles the point (`PointAddition.InfinityIsNeutralIff`).
* *`BLSHelper.sum` is the sum of the points.* It is, on a list and all its prefixes, exactly when the running sum never
  meets a point with its own x (`PointAddition.SumsAreFoldsIff`). Where it does, at any place, the call reverts or the
  sum forgets everything up to that point and the point after it (`PointAddition.MeetingSameX`); four points of a curve
  modulo 7 show it (`PointAddition.SumForgetsPoints`).
* *A `FailedOp` names the failing operation.* Those of `handleOps` do (`Aggregated.PlainFailureNames`). Those of
  `handleAggregatedOps` do in execution, and in validation exactly when the failure comes before the check of the
  validation data or no operation precedes the group; otherwise the index is that inside the group
  (`Aggregated.FailedValidationNamesOperationIff`, `Aggregated.AggregatedFailureNames`,
  `Scenarios.WrongOperationNamed`).
* *An honest batch can be defended in a dispute.* `openDispute` does not store `batchId`, and `resolveDispute` looks the
  batch up under the position of the transaction (`Batcher.ResolvableIff`); a run ends with a transaction executed,
  recorded, disputed and not resolvable (`Batcher.ExecutedButUnresolvable`). A due claim is refused exactly when the
  claims have used up the funds, although the bonds, which are never returned, remain (`Batcher.ClaimSucceedsIff`,
  `Batcher.DueClaimIsRefused`).

## Model

| member | source | states |
|---|---|---|
| Conservation.GenuineConserved | contracts/core/StakeManager.sol:35-123 | for every log the contract can produce, the ETH balance is the sum of all deposits, all stakes and the escrow |
| Conservation.Solvent | contracts/core/StakeManager.sol:97-123 | what any account is owed, together with the escrow, never exceeds the balance |
| Frames.FrameAction | contracts/core/EntryPoint.sol:45-176 | any call, with any tree of re-entrant calls, only appends events that were enabled, keeps code in place, burns gas and leaves the escrow as it was |
| Frames.FrameHandleOps | contracts/core/EntryPoint.sol:90-110 | `handleOps` settles all the escrow it takes, and everything it adds belongs to its own batch, to none, or to batches opened inside it |
| Frames.FrameExecuteOps | contracts/core/EntryPoint.sol:102-106 | the second loop turns the prefunds it settles into refunds and fees collected, and nothing else leaves or enters the escrow |
| Batches.ExecuteOpsAdd | contracts/core/EntryPoint.sol:102-106 | the second loop adds one settlement for each operation and makes its calls in order; `collected` is the ideal sum of the costs, so neither the unchecked nor the checked addition overflows |
| Frames.CodeStays | contracts/samples/SimpleAccount.sol:89-96 | code once deployed stays; a SimpleAccount keeps its owner (no event removes code or sets an owner, see below) |
| Effects.DepositToEffect | contracts/core/StakeManager.sol:48-53 | `depositTo` succeeds exactly if the deposit of the account named and the balance can hold the value; that deposit and the balance rise by it, whoever called, and no other record changes |
| Effects.AddStakeEffect | contracts/core/StakeManager.sol:60-75 | when a stake is added and what becomes of the caller's record: stake up, delay replaced by one no shorter, lock closed |
| Effects.UnlockStakeEffect | contracts/core/StakeManager.sol:81-89 | when a stake is unlocked, and the time from which it can leave, modulo 2^48 |
| Effects.WithdrawStakeEffect | contracts/core/StakeManager.sol:97-109 | when a stake leaves; the recipient is called when record and balance are already lower by the whole stake |
| Effects.WithdrawToEffect | contracts/core/StakeManager.sol:116-123 | when a deposit is withdrawn; the recipient is called when the caller's deposit and the balance are already lower by exactly the amount |
| Effects.StakeFailure | contracts/core/StakeManager.sol:60-89 | the reason given for each refused staking and unlocking |
| Effects.WithdrawalFailure | contracts/core/StakeManager.sol:97-123 | the reason given for each refused withdrawal and top-up |
| Effects.DeployEffect | contracts/core/EntryPoint.sol:332-343 | code appears only where there was none and changes nothing else |
| Effects.ActionsInOrder | contracts/core/EntryPoint.sol:20-24 | the outside world acts in order and sees the state before each action and after the last |
| Effects.FailureIsUndone | contracts/core/EntryPoint.sol:58-80 | a failed call or frame leaves gas and history, but no state; `innerHandleOp` cannot be called from outside |
| Effects.CallGas | contracts/core/EntryPoint.sol:336-336 | a call gets its limit or all but one 64th of the gas, pays what its actions used, and cannot pay more than it got |
| Effects.CreationIff | contracts/core/EntryPoint.sol:332-343 | exactly when a sender is created, by what its factory does and returns, within the verification gas limit |
| Effects.CreationFailure | contracts/core/EntryPoint.sol:332-340 | which of the four reasons is given, exactly |
| Effects.AskedFor | contracts/core/EntryPoint.sol:398-402 | an account is asked for what its deposit lacks of the prefund, and for nothing with a paymaster |
| Effects.AccountPaysShortfall | contracts/core/EntryPoint.sol:390-422 | a SimpleAccount without a paymaster makes exactly one deposit, of the shortfall, if there is one, and none otherwise; its deposit ends at the old one less the prefund, or at 0; if it cannot pay, AA21 |
| Effects.SponsoredAccountPaysNothing | contracts/core/EntryPoint.sol:396-422 | with a paymaster the account makes no deposit and no record changes |
| Effects.OtherAccountPays | contracts/core/EntryPoint.sol:404-420 | any other account must leave a deposit that covers the prefund, which is taken from it |
| Effects.SimpleValidation | contracts/core/BaseAccount.sol:41-49 | exactly when a SimpleAccount validates: the word tells whether the owner signed, the nonce rises unless the operation creates |
| Effects.SimpleFailure | contracts/core/EntryPoint.sol:404-411 | what a failed validation of a SimpleAccount is reported as |
| Effects.OtherFailure | contracts/core/EntryPoint.sol:404-411 | the same for other accounts, with their own reason |
| Effects.NobodyToAsk | contracts/core/EntryPoint.sol:404-404 | an address without code fails the batch without a reason |
| Effects.PaymasterIff | contracts/core/EntryPoint.sol:431-455 | exactly when a paymaster validates; it is asked when its deposit is already lower by the prefund, with the gas the account left |
| Effects.PaymasterFailure | contracts/core/EntryPoint.sol:431-452 | the reason of each failure |
| Effects.PaymasterIsNamed | contracts/core/EntryPoint.sol:269-285 | the paymaster is the address in the first 20 bytes, all other fields are copied, and only 1 to 19 bytes are refused |
| Effects.PrepaymentIff | contracts/core/EntryPoint.sol:497-532 | exactly when an operation validates: account, paymaster and the gas limit; words and context are handed on unchanged |
| Effects.PrepaymentFailure | contracts/core/EntryPoint.sol:497-532 | what is reported otherwise |
| Effects.AccountGasIsMeasured | contracts/core/EntryPoint.sol:394-421 | the account's gas is measured from before its creation |
| Effects.SelectorIs | contracts/interfaces/IAccount.sol:32-33 | the four bytes that select `validateUserOp` |
| Effects.CallIff | contracts/core/EntryPoint.sol:240-249 | the account's call succeeds exactly when the callee does, or the account accepts the decoded call; it costs at most `callGasLimit`, and a failed one leaves no state |
| Effects.SelfCallEffect | contracts/core/EntryPoint.sol:240-241 | a call of the account's own `validateUserOp` uses up the nonce given and pays what it is told to |
| Effects.RevertCodeIs | contracts/core/EntryPoint.sol:64-71 | how the return data of a failed self-call is read |
| Effects.ExecutionOutcome | contracts/core/EntryPoint.sol:58-80 | how executing an operation ends: AA95 without the gas for both limits and the margin, no reason with less than 32 bytes, and otherwise settled inside or outside |
| Effects.OverspentAborts | contracts/core/EntryPoint.sol:62-71 | a self-call out of gas fails the batch without a reason |
| Effects.PostOpIsCalledIff | contracts/core/EntryPoint.sol:553-571 | `postOp` is called exactly on a paymaster that returned a context, with the cost so far, within the verification gas limit |
| Effects.PostOpRetriedIff | eip/EIPS/eip-4337.md:203-203 | a failed `postOp` is called again exactly when it left at least 32 bytes that are not the marker |
| Effects.SettlementIff | contracts/core/EntryPoint.sol:573-579 | exactly when an operation is settled; its payer's deposit rises by the prefund less the cost, and no other record changes |
| Effects.SettlementFailure | contracts/core/EntryPoint.sol:559-576 | why not |
| Effects.CompensateEffect | contracts/core/EntryPoint.sol:45-49 | the beneficiary is called when the fees have left the balance; no record changes |
| Effects.CompensateFailure | contracts/core/EntryPoint.sol:45-49 | the two reasons |
| Effects.BeneficiaryActsLast | contracts/core/EntryPoint.sol:90-110 | a committed batch had a non-zero beneficiary that accepted, and its actions come last |
| Runs.RunKeeps | contracts/core/EntryPoint.sol:90-176 | after any sequence of transactions the state is genuine, the escrow is zero, no batch or creation is open and the log is woven from whole batches |
| Runs.EveryRunConserves | contracts/core/StakeManager.sol:35-123 | over every run the balance equals deposits plus stakes between transactions, and that plus a non-negative escrow at every moment control is outside, even in frames rolled back later |
| Runs.EveryBatchIsWhole | contracts/core/EntryPoint.sol:90-110 | every batch of a run left all of its events with its whole trace, or no event and a prefix of its trace |
| Runs.WithdrawToSucceedsIff | contracts/core/StakeManager.sol:116-123 | at any moment of any run, `withdrawTo` succeeds exactly when the amount is within the deposit and the recipient accepts: there is always enough ETH |
| Runs.WithdrawStakeSucceedsIff | contracts/core/StakeManager.sol:97-109 | the same for an unlocked, due stake |
| Runs.CompensateSucceedsIff | contracts/core/EntryPoint.sol:45-49 | collected fees can be paid to every beneficiary that is not zero and accepts |
| Weaving.WeaveHandleOps | contracts/core/EntryPoint.sol:90-110 | of all batches opened during a `handleOps`, itself included, each is whole if the call commits and a partial trace otherwise |
| Weaving.WeaveHandleAggregatedOps | contracts/core/EntryPoint.sol:117-176 | the same for `handleAggregatedOps` |
| Batches.ValidateOpAdds | contracts/core/EntryPoint.sol:96-100 | a validated operation adds to its batch, in order: the start of its creation if it creates, its account's validation, its prefund taken from its payer, its acceptance for the expected aggregator; its trace is its paymaster's approval, if it has one, and its validation |
| Batches.ExecuteAdds | contracts/core/EntryPoint.sol:58-80 | an executed operation makes its call at most once, and adds one settlement whose cost is within its prefund. Settled inside the self-call, it has mode `opSucceeded` exactly if it makes no call or its call succeeded, and else `opReverted`, and that is what its paymaster is told; it has mode `postOpReverted` exactly when the self-call failed. Its paymaster is called exactly if it asked to be |
| Batches.HandleOpsContributes | contracts/core/EntryPoint.sol:90-110 | a committed batch adds exactly all its validations, then all its settlements, then one payment of the sum of the costs; a failed one leaves a prefix of its trace |
| Batches.HandleAggregatedOpsContributes | contracts/core/EntryPoint.sol:117-176 | the same for operations in groups, each executed with the info filled in for it; in a committed batch each account named the aggregator of its group |
| Settlement.DepositLaw | contracts/core/EntryPoint.sol:404-446 | between two points outside a batch a deposit changes by top-ups and withdrawals less the costs charged to it, and all costs charged were paid out |
| Settlement.HandleOpsSettles | contracts/core/EntryPoint.sol:95-109 | exact settlement: each payer is charged the costs of its operations, each cost plus refund is the prefund, the beneficiary receives the sum of the costs, and nothing else moves but top-ups, withdrawals and nested batches |
| Settlement.HandleAggregatedOpsSettles | contracts/core/EntryPoint.sol:145-176 | the same for operations in groups |
| Settlement.RunDeposits | contracts/core/EntryPoint.sol:573-579 | after any run a deposit is all top-ups less withdrawals less all gas it paid for; fees charged equal fees paid out |
| TwoPhase.CallsFollowValidation | eip/EIPS/eip-4337.md:912-915 | safety against hijacking: an account is called only with callData of an operation validated for it earlier at the same place of the same batch, and after every validation of that batch; aborted batches included |
| TwoPhase.ValidatedInOrder | contracts/core/EntryPoint.sol:96-100 | validations of a batch happen in the order of the operations |
| TwoPhase.CalledAtMostOnce | contracts/core/EntryPoint.sol:104-106 | no operation's call is made twice, in any batch, committed or not |
| TwoPhase.CommittedIsCalled | eip/EIPS/eip-4337.md:912-916 | safety against fee draining: every committed operation with callData had exactly that call made |
| Sponsors.ChargedIsApproved | contracts/core/EntryPoint.sol:431-455 | over every run, whoever is charged pays for an operation accepted at that place; a paymaster, only for one that its own `validatePaymasterUserOp` approved there |
| Sponsors.PostOpsFollowApproval | contracts/core/EntryPoint.sol:553-571 | `postOp` is only called on the paymaster that approved the operation at the same place before, and after every approval and validation of the batch, in aborted batches and undone calls too |
| Sponsors.PostOpAtMostTwice | contracts/core/EntryPoint.sol:58-80 | at most two `postOp` calls for an operation, and the second only in mode `postOpReverted` after a first in another mode |
| Sponsors.CommittedPostOps | contracts/core/EntryPoint.sol:58-80 | a `postOp` call of a committed operation had the mode in which it was settled, or was made in a self-call that was undone and followed by one in mode `postOpReverted` |
| Aggregated.AggregatedRefinesPlain | contracts/core/EntryPoint.sol:117-176 | with every aggregator zero, `handleAggregatedOps` and `handleOps` on the concatenation succeed on the same inputs with the same world, and fail with the same meter and reason, up to the index in a `FailedOp` |
| Aggregated.FailedValidationNamesOperationIff | contracts/core/EntryPoint.sol:145-158 | for any groups and aggregators, wherever the second loop fails: with a `FailedOp` if the check of the validation data fails; the index is the position in the batch exactly when that check is not what failed or no operation precedes the group, and otherwise the position in the group |
| Aggregated.GroupLocalIndexReported | contracts/core/EntryPoint.sol:152-157 | an operation that fails that check is reported by its place in its group, which is its place in the batch exactly when no operation precedes the group |
| Aggregated.AggregatedFailureNames | contracts/core/EntryPoint.sol:117-176 | every `FailedOp` of `handleAggregatedOps` comes from one operation of the batch: in execution it names it, in validation under the condition above |
| Aggregated.PlainFailureNames | contracts/core/EntryPoint.sol:90-110 | every `FailedOp` of `handleOps` names the operation at which the loop stopped |
| Aggregated.ExecuteGroupsFlat | contracts/core/EntryPoint.sol:160-172 | executing the groups is executing the concatenated operations with the concatenated infos |
| Aggregated.CommittedIsSigned | contracts/core/EntryPoint.sol:122-141 | a committed `handleAggregatedOps` had every aggregator's consent to its group; without it nothing happens |
| ReplayProtection.NoncesAreConsecutive | contracts/samples/SimpleAccount.sol:104-106 | the nonces a SimpleAccount uses up, over any run, are 0, 1, 2, ... without gap or repeat |
| ReplayProtection.NonceCountsUses | contracts/samples/SimpleAccount.sol:104-106 | the stored nonce is the number of uses |
| ReplayProtection.ValidationsHaveNoGapIff | contracts/core/BaseAccount.sol:41-49 | the entry point's own validations have consecutive nonces exactly while no executed operation made the account validate from its callData |
| ReplayProtection.BurnsBySelector | contracts/core/EntryPoint.sol:240-241 | only an operation of the account whose callData selects `validateUserOp` can do so |
| ReplayProtection.CommitsTwiceOnlyByOverlap | contracts/core/BaseAccount.sol:41-49 | over every log the ledger allows, with any gas: no operation of a SimpleAccount commits twice unless it creates the account and its creations overlap |
| ReplayProtection.AcceptedIsSignedByOwner | contracts/samples/SimpleAccount.sol:109-115 | every accepted operation of a SimpleAccount was validated with a signature of its owner |
| NestedCreation.OverlapCrossesBatches | contracts/core/EntryPoint.sol:332-343 | in every run, overlapping creations of one sender are in different batches |
| NestedCreation.NestedCreationsShrink | contracts/core/EntryPoint.sol:229-238 | in every run, a creation that starts while another is open, of whatever sender, has a gas limit at least 5000 below |
| NestedCreation.TwoCreationsNest | contracts/core/EntryPoint.sol:332-343 | in every run, of two validated creations of a sender one started while the other was open, with the smaller gas limit |
| NestedCreation.CreatesOnceIff | contracts/core/EntryPoint.sol:332-343 | in every run, at most one creation of a sender is validated exactly when none of its creations starts while an earlier one has not been validated yet |
| NestedCreation.NoOperationCommitsTwice | contracts/core/BaseAccount.sol:41-49 | in every run, no operation of a SimpleAccount is accepted at two places: in one batch, in two, or in nested ones |
| Scenarios.SenderCreatedTwice | contracts/core/EntryPoint.sol:332-343 | one transaction in which two creating operations of one sender are accepted, by a factory that calls `handleOps`; with the gas limits, the gas use and the checks of the contract |
| Scenarios.ValidatedNoncesSkipOne | contracts/core/EntryPoint.sol:240-249 | a run in which the entry point validates nonce 0 and then nonce 2 of an account |
| Scenarios.WrongOperationNamed | contracts/core/EntryPoint.sol:152-157 | after a run, two groups of which the second operation has a bad signature and the failure names operation 0 |
| Scenarios.SilentPostOpAborts | contracts/core/EntryPoint.sol:62-71 | after a run, a batch of one valid operation without a call whose paymaster fails in `postOp` without data: all of it fails, without a reason |
| Scenarios.StakeWithdrawnAtOnce | contracts/core/StakeManager.sol:81-109 | a run at timestamp 2^48 that stakes with a delay of a day, unlocks and withdraws in one block |
| StakeLock.RecordsAreShaped | contracts/core/StakeManager.sol:60-109 | every reachable record is exactly one of empty, locked and unlocking |
| StakeLock.StakeTimeLock | contracts/core/StakeManager.sol:81-109 | a stake leaves only after an unlocking with no later stake event, and not before every delay given since the last withdrawal has passed, counted from the unlocking time modulo 2^48 |
| StakeLock.LockHoldsIff | contracts/core/StakeManager.sol:81-89 | right after unlocking the stake is still locked exactly when the timestamp is below 2^48 |
| StakeLock.StakeIsSum | contracts/core/StakeManager.sol:60-75 | the stake is all that was added since the last withdrawal |
| StakeLock.WithdrawalPaysWholeStake | contracts/core/StakeManager.sol:97-109 | a withdrawal pays all of it |
| Arithmetic.GasCheckIff | contracts/core/EntryPoint.sol:505-509 | the check on the bitwise or passes exactly when all five fields are below 2^120 |
| Arithmetic.PrefundIsIdeal | contracts/core/EntryPoint.sol:320-329 | the prefund is the ideal product and below 2^243 |
| Arithmetic.GasPriceIsIdeal | contracts/core/EntryPoint.sol:589-599 | the gas price never exceeds `maxFeePerGas` and is the ideal minimum |
| Arithmetic.ValidationIsIdeal | contracts/core/EntryPoint.sol:497-532 | validation records the ideal prefund and exactly the gas it used plus `preVerificationGas` |
| Arithmetic.ExecutionIsIdeal | contracts/core/EntryPoint.sol:545-583 | the charge is exactly the measured gas times the gas price, with no wrap-around, and within the prefund |
| EntryPoints.EntryPoint.Transact | contracts/core/EntryPoint.sol:20-24 | every transaction keeps the class invariant: a genuine state, no escrow, nothing open, balance equal to deposits plus stakes |
| EntryPoints.EntryPoint.ExecuteUserOp | contracts/core/EntryPoint.sol:58-80 | refines the function of the same name: undo, read 32 bytes of return data, settle outside |
| EntryPoints.EntryPoint.HandleOps | contracts/core/EntryPoint.sol:90-110 | the two loops over the array of infos compute `Protocol.PerformHandleOps` |
| EntryPoints.EntryPoint.CheckSignatures | contracts/core/EntryPoint.sol:122-141 | the first loop over the groups asks every aggregator in order and counts the operations |
| EntryPoints.EntryPoint.HandleAggregatedOps | contracts/core/EntryPoint.sol:117-176 | the nested loops compute `Protocol.PerformHandleAggregatedOps` |
| SimpleAccounts.SimpleAccount.Validate | contracts/core/BaseAccount.sol:41-49 | only the entry point is served; the account changes exactly as the nonce and signature rules say |
| SimpleAccounts.SimpleAccount.ValidateAndUpdateNonce | contracts/samples/SimpleAccount.sol:104-106 | succeeds exactly on the current nonce, which it increments, and otherwise changes nothing |
| Validation.PackIsSum | contracts/core/Helpers.sol:53-55 | the bitwise or of the shifted fields is their arithmetic sum and fits a word |
| Validation.PackFlagIsPack | contracts/core/Helpers.sol:63-65 | the overload with a flag agrees with the struct overload |
| Validation.ParseOfPack | contracts/core/Helpers.sol:21-29 | parsing a packed struct gives it back, with a zero `validUntil` read as the latest time |
| Validation.PackOfParse | contracts/core/Helpers.sol:21-29 | packing a parsed word gives it back exactly when its `validUntil` bits are not zero |
| Validation.AcceptanceIsIntersection | contracts/core/EntryPoint.sol:460-488 | below 2^48, a pair of words is accepted exactly when the account names the expected aggregator, the paymaster none, and the intersected window contains the time |
| Validation.RefusalReason | contracts/core/EntryPoint.sol:460-476 | which of the four reasons is given, exactly |
| Validation.AcceptanceMatchesSimulation | contracts/core/Helpers.sol:32-47 | what `handleOps` accepts is exactly what simulation reports as usable without an aggregator; acceptance for another aggregator implies that simulation reports it |
| Validation.AcceptanceBeyondUint48 | contracts/core/EntryPoint.sol:480-488 | from 2^48 on only the pair of zero words is accepted, although no window contains the time |
| Packing.PackOfCanonical | contracts/interfaces/UserOperation.sol:61-75 | on canonical calldata, wherever it lies, the Solidity pack yields the signing bytes |
| Packing.PackUserOpIsSigningBytes | test/UserOp.ts:35-59 | the TypeScript pack yields the same bytes in hex |
| Packing.ImplementationsAgree | test/UserOp.ts:35-59 | both packs agree and do not depend on the signature |
| Packing.DecodeOfSigningBytes | contracts/interfaces/UserOperation.sol:61-75 | the signing bytes determine every field but the signature |
| Packing.FieldLayout | contracts/interfaces/UserOperation.sol:19-34 | each field is at its word, or where its word points |
| Packing.HashBindsOperation | contracts/core/EntryPoint.sol:262-264 | two operations have equal hashes exactly when they agree up to the signature, on the entry point and on the chain, or the messages hashed for just these two, named in the contract, differ and hash equally |
| Packing.MessageLayout | contracts/core/EntryPoint.sol:262-264 | the last message hashed is the operation's hash, the entry point and the chain, a word each |
| JacobianLaw.EuclidKeepsBezout | contracts/samples/bls/BLSHelper.sol:128-132 | from any loop state that meets its invariant, the loop of `invMod` ends with a multiple of x congruent to the greatest common divisor |
| JacobianLaw.InverseIsBezout | contracts/samples/bls/BLSHelper.sol:122-135 | for every modulus above 1, `invMod` answers exactly when x is neither 0 nor the modulus, with q below the modulus and q times x congruent to the greatest common divisor |
| JacobianLaw.InverseOfCoprime | contracts/samples/bls/BLSHelper.sol:122-135 | hence the inverse, also for x above the modulus |
| BLSHelper.InvMod | contracts/samples/bls/BLSHelper.sol:122-135 | the loop terminates, its subtraction never underflows, and it computes `BLSHelper.Inverse` |
| BLSHelper.Sum | contracts/samples/bls/BLSHelper.sol:19-30 | the loop over the array computes `BLSHelper.SumOf` |
| JacobianLaw.JacAddIsChord | contracts/samples/bls/BLSHelper.sol:41-93 | for points given projectively and any chord slope, the result represents the third point of the chord law |
| JacobianLaw.JacDoubleIsTangent | contracts/samples/bls/BLSHelper.sol:144-177 | the same for doubling and the tangent |
| PointAddition.ToAffineOfRepresented | contracts/samples/bls/BLSHelper.sol:102-115 | `toAffine` returns the affine point that is represented |
| PointAddition.AddFailsOnEqual | contracts/samples/bls/BLSHelper.sol:73-73 | `jacAdd` reverts on two finite points exactly when they are equal |
| PointAddition.EcAddIsGroupLaw | contracts/samples/bls/BLSHelper.sol:187-230 | on finite curve points `ecAdd` never reverts, gives (0, 0) exactly on opposite points, and otherwise the chord or tangent point, which is on the curve |
| PointAddition.EcAddCommutes | contracts/samples/bls/BLSHelper.sol:187-230 | `ecAdd` is commutative |
| PointAddition.InfinityIsNeutralIff | contracts/samples/bls/BLSHelper.sol:187-230 | (0, 0) is neutral next to a finite point exactly when its x is not 0, and what `ecAdd` answers otherwise |
| PointAddition.SumsAreFoldsIff | contracts/samples/bls/BLSHelper.sol:19-30 | the running sum never shares an x with the next point exactly when `sum` answers on every prefix of the points, and then each answer is the fold of the chord law |
| PointAddition.SumRefinesFold | contracts/samples/bls/BLSHelper.sol:19-30 | when the running sum never shares an x with the next point, `sum` is the fold of the chord law with (0, 0) as identity |
| PointAddition.SumOutcome | contracts/samples/bls/BLSHelper.sol:19-30 | for every list of reduced points, what `sum` answers, or that it reverts |
| PointAddition.MeetingSameX | contracts/samples/bls/BLSHelper.sol:41-93 | where the running sum first meets a point with its own x, at any place: `sum` reverts if they are equal, and otherwise answers for the points after the next one alone |
| PointAddition.SumForgetsPoints | contracts/samples/bls/BLSHelper.sol:19-30 | four points of a curve modulo 7 whose `sum` is the last of them |
| CurveLaw.ChordCommutes | contracts/samples/bls/BLSHelper.sol:187-230 | the chord law does not depend on the order of the points |
| CurveLaw.ChordOnCurve | contracts/samples/bls/BLSHelper.sol:214-223 | the third point of a chord of the curve is on the curve |
| CurveLaw.TangentOnCurve | contracts/samples/bls/BLSHelper.sol:207-212 | the third point of a tangent of the curve is on the curve |
| DepositPaymasters.EveryRunSolvent | contracts/samples/DepositPaymaster.sol:62-108 | over every run the recorded deposits of a token never exceed what the paymaster holds; the difference is exactly what was there before and what was given |
| DepositPaymasters.BlockKeepsDeposit | contracts/samples/DepositPaymaster.sol:85-108 | within a block no calls, the account's own included, lower a deposit that was locked, but a fallback charge |
| DepositPaymasters.FallbackSucceedsIff | contracts/samples/DepositPaymaster.sol:153-166 | the second `postOp` succeeds exactly when its arithmetic fits and the deposit covers the cost |
| DepositPaymasters.FallbackIsCovered | contracts/samples/DepositPaymaster.sol:128-166 | an operation validated in a block can be charged in that block, whatever is called in between, if gas and post cost stay within `maxCost` |
| DepositSponsors.SponsoredFallbackPays | contracts/core/EntryPoint.sol:73-79 | behind the entry point: when the self-call of an operation that the paymaster approved fails, `postOp` is called again with the cost of the gas measured, and succeeds in that block, if a fee is paid, the execution used no more than the gas limits and the amounts fit a word |
| DepositSponsors.SponsoredFallbackIff | contracts/core/EntryPoint.sol:553-571 | exactly when it succeeds, in terms of the gas measured, the prefund and the deposit |
| DepositPaymasters.DepositPaymaster.constructor | contracts/samples/DepositPaymaster.sol:39-42 | deployment unlocks the owner and is solvent |
| DepositPaymasters.DepositPaymaster.AddDepositFor | contracts/samples/DepositPaymaster.sol:62-70 | refines `DepositPaymasters.AddDeposit`, or changes nothing; stays solvent |
| DepositPaymasters.DepositPaymaster.WithdrawTokensTo | contracts/samples/DepositPaymaster.sol:104-108 | refines `DepositPaymasters.Withdraw`, or changes nothing; stays solvent |
| DepositPaymasters.DepositPaymaster.PostOp | contracts/samples/DepositPaymaster.sol:153-166 | refines `DepositPaymasters.Charge`, or changes nothing; stays solvent |
| TokenEffects.FallbackChargeEffect | contracts/samples/DepositPaymaster.sol:153-166 | a charge from the deposit: exactly when it succeeds; the account's recorded deposit falls and the owner's rises by the token cost, stays if they are the same, and nothing else changes |
| TokenEffects.ChargeEffect | contracts/samples/DepositPaymaster.sol:153-166 | a charge in the self-call: the account's tokens and allowance pay, and only the owner's recorded deposit rises, by the cost |
| TokenEffects.TokenCostIs | contracts/samples/DepositPaymaster.sol:157-157 | the cost is the rounded-down share of `maxTokenCost`, and when it can be computed |
| TokenEffects.OnlyEntryPointCharges | contracts/core/BasePaymaster.sol:37-42 | nobody but the entry point charges |
| TokenEffects.CollectEffect | contracts/samples/DepositPaymaster.sol:62-64 | what collecting tokens moves, and what it leaves of the allowance |
| TokenEffects.AddDepositEffect | contracts/samples/DepositPaymaster.sol:62-70 | the caller's tokens are recorded for the account named; only a deposit for oneself locks, and only oneself |
| TokenEffects.WithdrawEffect | contracts/samples/DepositPaymaster.sol:104-108 | exactly when a withdrawal succeeds: an unlocking in an earlier block and enough deposit; the caller's deposit falls and the target is paid |
| TokenEffects.LockEffect | contracts/samples/DepositPaymaster.sol:85-95 | locking and unlocking concern the caller alone |
| TokenEffects.OwnerEffect | contracts/samples/DepositPaymaster.sol:47-50 | only the owner adds a token, once, or passes on the ownership |
| TokenEffects.SponsorsIff | contracts/samples/DepositPaymaster.sol:128-147 | exactly when an operation is sponsored, and the context |
| Batcher.EveryRunBalances | contracts/ICSOC/BatcherAccountable.sol:15-30 | over every run the funds are 1 ether for the deployment and each funding less each claim, and the balance is that plus half an ether for each dispute opened |
| Batcher.OpenDisputeIff | contracts/ICSOC/BatcherAccountable.sol:132-161 | a dispute is opened exactly with half an ether, from the commit time on, with a well-formed signature of the owner; it is the caller's |
| Batcher.EveryRunIsSigned | contracts/ICSOC/BatcherAccountable.sol:147-158 | over every run, with any nested calls, no dispute is opened without the owner's signature |
| Batcher.FundIff | contracts/ICSOC/BatcherAccountable.sol:15-30 | funding takes exactly one ether, all of it funds |
| Batcher.ResolveIff | contracts/ICSOC/BatcherAccountable.sol:172-189 | exactly when a dispute is resolved; it is gone, and no ether moves |
| Batcher.ClaimIff | contracts/ICSOC/BatcherAccountable.sol:191-201 | exactly when a claim is paid; it ends the claimant's dispute alone |
| Batcher.ExecuteIff | contracts/ICSOC/BatcherAccountable.sol:88-110 | exactly when a batch is executed; this array is recorded under its nonce |
| Batcher.ClaimFollowsOpening | contracts/ICSOC/BatcherAccountable.sol:191-201 | a paid claim is preceded by the claimant's own opening, signed by the owner, a day earlier, with no opening, resolution or claim for it in between |
| Batcher.ClaimSucceedsIff | contracts/ICSOC/BatcherAccountable.sol:191-201 | a due claim is paid exactly when there were at least as many fundings as claims |
| Batcher.DueClaimIsRefused | contracts/ICSOC/BatcherAccountable.sol:191-201 | a run of two openings and one paid claim, after which the other claim is due and refused |
| Batcher.EveryRunIsValid | contracts/ICSOC/BatcherAccountable.sol:132-201 | over every run, with re-entrant calls from the batched contract, the ledger balances, each stored dispute is its account's last opening, and each claim was justified |
| Batcher.ResolvableIff | contracts/ICSOC/BatcherAccountable.sol:172-189 | a dispute can be resolved exactly when the batch recorded under its `nonceId` has its data at that same position |
| Batcher.ExecutedButUnresolvable | contracts/ICSOC/BatcherAccountable.sol:186-187 | a run that executes and records two transactions and opens a dispute about the second, which no array resolves |
| Batcher.BatcherAccountable.Transact | contracts/ICSOC/BatcherAccountable.sol:7-30 | every call, with any re-entrant calls, keeps the class invariant |
| Batcher.BatcherAccountable.OpenDispute | contracts/ICSOC/BatcherAccountable.sol:132-161 | refines `Batcher.PerformOpen` |
| Batcher.BatcherAccountable.ResolveDispute | contracts/ICSOC/BatcherAccountable.sol:172-189 | refines `Batcher.PerformResolve` |
| Batcher.BatcherAccountable.ClaimDisputeCompensation | contracts/ICSOC/BatcherAccountable.sol:191-201 | refines `Batcher.PerformClaim` |
| Batcher.BatcherAccountable.ExecuteTransactions | contracts/ICSOC/BatcherAccountable.sol:88-110 | the loop makes the calls in order, stops at the first failure, and records the array of exactly these transactions |

## Left out

- Gas: gas limits of calls, the 63/64 rule and the entry point's own checks are modelled, and the self-call fails without return data when it uses more than it is given before its post-operation. What each step uses is supplied. Elsewhere a frame does not fail for want of gas by itself; the outside world may make any call fail, which covers the effect on callees.
- Forced ETH: ETH that reaches the contracts without a call (block rewards, self-destruction) is not part of this model; the conservation laws are about all other ETH.
- Cryptography: a signature comes with the address it recovers to, and hashes are arbitrary functions (for the user operation hash) or stand for what was hashed (for the batch hashes); the aggregator's answer is supplied, since it is asked in a call that cannot change state.
- Simulation: `simulateValidation`, `simulateHandleOp` and `getSenderAddress` always revert; only the intersection they report is modelled.
- Emitted events, the `userOpHash` inside an info, memory offsets and the number marker.
- Calldata that is not in canonical ABI form.
- SimpleAccount: `execute`, `executeBatch` and the deposit helpers only forward calls, which are actions of the outside world here; upgrades, initialisation and the self-destruction of deployed contracts are not modelled, so code and owner stay. The arguments of a `validateUserOp` call made by callData are supplied, not decoded. Inside the chain state an account is a value; the class of that name is the storage form.
- The outside world may act with any sender and bring any code except a SimpleAccount with a used nonce; this allows more than the chain does. An account's own ETH is only present as whether it can send what is missing.
- BLSHelper: coordinates and moduli are natural numbers of any size, of which 256-bit words are a special case; no step of the library can overflow, since all it computes is below the modulus or at most one of its arguments. The pairing check and hashing to the curve are elsewhere.
- DepositPaymaster: the oracle's answer is supplied; its ledger is a model of its own, which `DepositSponsors` joins to the entry point by the context, the cost and the block, not by the calls made; tokens are exact ERC-20 tokens with allowances, and the paymaster makes no calls but those in its code. The encoding of the context is left out. `renounceOwnership` is a transfer to the zero address.
- BatcherAccountable: `enroll`, `encodeTransactions`, `dismissDispute` and the console output; the called contract is part of the outside world. A call for which no reply is supplied fails.
- The other batchers, ThrowawayAccount, the token and verifying paymasters, the account factories and proxies, and the network scripts would add only easy members.
