/**
 * The chain state the entry point can see, as a ledger: every change is an event, and the log of committed
 * events determines the state.
 */
module Ledger {
  import opened Evm
  import opened UserOperations
  import opened SimpleAccounts

  /** deposits[account] of StakeManager. */
  datatype DepositInfo = DepositInfo(
    deposit: uint112,
    staked: bool,
    stake: uint112,
    unstakeDelaySec: uint32,
    withdrawTime: uint48)

  const NO_DEPOSIT := DepositInfo(0, false, 0, 0, 0)

  /** The code at an address: a SimpleAccount, or anything else. */
  datatype Code = Simple(account: Account) | Other

  /** What the entry point is in the middle of: handling a batch, or creating a sender. */
  datatype Scope =
    | Handling(batch: nat)
    | Creating(batch: nat, index: nat, op: UserOperation)

  /** How the execution of an operation ended, as `postOp` is told. */
  datatype PostOpMode = OpSucceeded | OpReverted | PostOpReverted

  datatype Event =
    | Deposited(account: Address, amount: uint256)
    | Withdrawn(account: Address, amount: uint256)
    | StakeAdded(account: Address, delay: uint32, amount: uint256)
    | StakeUnlocked(account: Address, now: uint256)
    | StakeWithdrawn(account: Address, amount: uint256, now: uint256)
    | Deployed(address: Address, code: Code)
    | HandlingStarted(batch: nat)
    | CreationStarted(batch: nat, index: nat, op: UserOperation)
    | AccountValidated(batch: nat, index: nat, op: UserOperation, signer: Option<Address>, word: uint256)
    | Revalidated(op: UserOperation, nonce: uint256, creating: bool)
    | PrefundTaken(batch: nat, index: nat, payer: Address, prefund: uint256)
    | Accepted(batch: nat, index: nat, op: UserOperation, word: uint256, aggregator: Address)
    | Settled(batch: nat, index: nat, gasLimit: uint256, payer: Address, refund: uint256, cost: uint256,
              mode: PostOpMode)
    | Paid(batch: nat, beneficiary: Address, amount: uint256)

  /**
   * `escrow` and `stack` are bookkeeping that the contract does not store: the prefunds taken and not yet settled
   * plus the fees collected and not yet paid out, and the scopes that are open, innermost last.
   */
  datatype State = State(
    deposits: map<Address, DepositInfo>,
    balance: uint256,
    escrow: int,
    code: map<Address, Code>,
    stack: seq<Scope>,
    log: seq<Event>)

  const GENESIS := State(map[], 0, 0, map[], [], [])

  function Info(st: State, a: Address): DepositInfo {
    if a in st.deposits then st.deposits[a] else NO_DEPOSIT
  }

  predicate IsCreating(op: UserOperation) {
    |op.initCode| != 0
  }

  function Owed(info: DepositInfo): nat {
    info.deposit + info.stake
  }

  // ---------- effects ----------

  /** The account whose deposit record an event changes. */
  function AccountOf(e: Event): Option<Address> {
    match e
    case Deposited(a, _) => Some(a)
    case Withdrawn(a, _) => Some(a)
    case StakeAdded(a, _, _) => Some(a)
    case StakeUnlocked(a, _) => Some(a)
    case StakeWithdrawn(a, _, _) => Some(a)
    case PrefundTaken(_, _, a, _) => Some(a)
    case Settled(_, _, _, a, _, _, _) => Some(a)
    case _ => None
  }

  /** The effect of an event on the record of its account. */
  function NewInfo(info: DepositInfo, e: Event): DepositInfo {
    match e
    case Deposited(_, amount) => info.(deposit := ToUint112(info.deposit + amount))
    case Withdrawn(_, amount) => info.(deposit := ToUint112(info.deposit - amount))
    case StakeAdded(_, delay, amount) => DepositInfo(info.deposit, true, ToUint112(info.stake + amount), delay, 0)
    case StakeUnlocked(_, now) =>
      info.(withdrawTime := ToUint48(ToUint48(now) + info.unstakeDelaySec), staked := false)
    case StakeWithdrawn(_, _, _) => info.(unstakeDelaySec := 0, withdrawTime := 0, stake := 0)
    case PrefundTaken(_, _, _, prefund) => info.(deposit := ToUint112(info.deposit - prefund))
    case Settled(_, _, _, _, refund, _, _) => info.(deposit := ToUint112(info.deposit + refund))
    case _ => info
  }

  /** ETH entering (or, negative, leaving) the contract. */
  function BalanceDelta(e: Event): int {
    match e
    case Deposited(_, amount) => amount
    case Withdrawn(_, amount) => -(amount as int)
    case StakeAdded(_, _, amount) => amount
    case StakeWithdrawn(_, amount, _) => -(amount as int)
    case Paid(_, _, amount) => -(amount as int)
    case _ => 0
  }

  function EscrowDelta(e: Event): int {
    match e
    case PrefundTaken(_, _, _, prefund) => prefund
    case Settled(_, _, _, _, refund, _, _) => -(refund as int)
    case Paid(_, _, amount) => -(amount as int)
    case _ => 0
  }

  function BumpNonce(code: map<Address, Code>, a: Address): map<Address, Code> {
    if a in code && code[a].Simple? && code[a].account.nonce < MAX_NONCE then
      code[a := Simple(code[a].account.(nonce := code[a].account.nonce + 1))]
    else code
  }

  function NewCode(code: map<Address, Code>, e: Event): map<Address, Code> {
    match e
    case Deployed(a, c) => code[a := c]
    case AccountValidated(_, _, op, _, _) => if IsCreating(op) then code else BumpNonce(code, op.sender)
    case Revalidated(op, _, creating) => if creating then code else BumpNonce(code, op.sender)
    case _ => code
  }

  function Pop(stack: seq<Scope>): seq<Scope> {
    if |stack| == 0 then [] else stack[..|stack| - 1]
  }

  /** A batch is open from its start to its payment, a creation from its start to the account's validation. */
  function NewStack(stack: seq<Scope>, e: Event): seq<Scope> {
    match e
    case HandlingStarted(batch) => stack + [Handling(batch)]
    case CreationStarted(batch, index, op) => stack + [Creating(batch, index, op)]
    case AccountValidated(_, _, op, _, _) => if IsCreating(op) then Pop(stack) else stack
    case Paid(_, _, _) => Pop(stack)
    case _ => stack
  }

  function SetInfo(deposits: map<Address, DepositInfo>, a: Option<Address>, info: DepositInfo)
    : map<Address, DepositInfo>
  {
    if a == None then deposits else deposits[a.value := info]
  }

  /** The record an event reads. */
  function InfoFor(st: State, e: Event): DepositInfo {
    if AccountOf(e) == None then NO_DEPOSIT else Info(st, AccountOf(e).value)
  }

  function Apply(st: State, e: Event): State {
    State(SetInfo(st.deposits, AccountOf(e), NewInfo(InfoFor(st, e), e)),
          Wrap(st.balance + BalanceDelta(e)),
          st.escrow + EscrowDelta(e),
          NewCode(st.code, e),
          NewStack(st.stack, e),
          st.log + [e])
  }

  /** An event changes the record of its account and no other. */
  lemma AppliedInfo(st: State, e: Event, a: Address)
    ensures Info(Apply(st, e), a) == if AccountOf(e) == Some(a) then NewInfo(Info(st, a), e) else Info(st, a)
  {
    hide NewInfo, NewCode, NewStack;
  }

  /** When StakeManager and the entry point let an event happen to a record. */
  predicate RecordEnabled(info: DepositInfo, e: Event) {
    match e
    case Deposited(_, amount) => info.deposit + amount < TWO_112
    case Withdrawn(_, amount) => amount <= info.deposit
    case StakeAdded(_, delay, amount) => 0 < delay && info.unstakeDelaySec <= delay && 0 < info.stake + amount < TWO_112
    case StakeUnlocked(_, now) => info.unstakeDelaySec != 0 && info.staked
        && ToUint48(now) + info.unstakeDelaySec < TWO_48
    case StakeWithdrawn(_, amount, now) => 0 < amount == info.stake && 0 < info.withdrawTime <= now
    case PrefundTaken(_, _, _, prefund) => prefund <= info.deposit
    case Settled(_, _, _, _, refund, _, _) => info.deposit + refund < TWO_112
    case _ => true
  }

  /** When the code and the log let an event happen. */
  ghost predicate CodeEnabled(code: map<Address, Code>, log: seq<Event>, e: Event) {
    match e
    case Deployed(a, c) => a !in code && (c.Simple? ==> c.account.nonce == 0)
    case CreationStarted(_, _, op) => op.sender !in code
    case AccountValidated(batch, index, op, signer, word) =>
      && op.sender in code
      && (IsCreating(op) ==> CreationStarted(batch, index, op) in log)
      && (code[op.sender].Simple? ==>
            var r := ValidateUserOp(code[op.sender].account, op.nonce, IsCreating(op), signer);
            r.Ok? && r.value.1 == word)
    case Revalidated(op, nonce, creating) =>
      && SelectsValidateUserOp(op.callData)
      && op.sender in code && code[op.sender].Simple?
      && (!creating ==> code[op.sender].account.nonce == nonce < MAX_NONCE)
    case Accepted(batch, index, op, word, aggregator) =>
      word % TWO_160 == aggregator != 1
      && exists signer :: AccountValidated(batch, index, op, signer, word) in log
    case Paid(_, beneficiary, _) => beneficiary != ZERO_ADDRESS
    case _ => true
  }

  /** The gas that `innerHandleOp` wants on top of the limits of the operation. */
  const GAS_MARGIN := 5000

  predicate Innermost(stack: seq<Scope>, scope: Scope) {
    |stack| > 0 && stack[|stack| - 1] == scope
  }

  /**
   * An operation can only be executed with all of its gas limit at hand, and inside a creation there is never more
   * gas than the limit of the operation that creates.
   */
  predicate LimitFits(stack: seq<Scope>, gasLimit: nat) {
    forall k :: 0 <= k < |stack| && stack[k].Creating? ==> gasLimit + GAS_MARGIN <= stack[k].op.verificationGasLimit
  }

  /** When the open scopes let an event happen. */
  predicate StackEnabled(stack: seq<Scope>, e: Event) {
    match e
    case CreationStarted(batch, _, _) => Innermost(stack, Handling(batch))
    case AccountValidated(batch, index, op, _, _) => IsCreating(op) ==> Innermost(stack, Creating(batch, index, op))
    case Settled(batch, _, gasLimit, _, _, _, _) => Innermost(stack, Handling(batch)) && LimitFits(stack, gasLimit)
    case Paid(batch, _, _) => Innermost(stack, Handling(batch))
    case _ => true
  }

  ghost predicate Enabled(st: State, e: Event) {
    && RecordEnabled(InfoFor(st, e), e)
    && StackEnabled(st.stack, e)
    && 0 <= st.balance + BalanceDelta(e) < TWO_256
    && CodeEnabled(st.code, st.log, e)
  }

  // ---------- logs ----------

  /** The state a log leads to, if every event was enabled when it happened. */
  ghost function Replay(log: seq<Event>): Option<State>
    decreases |log|
  {
    if |log| == 0 then Some(GENESIS)
    else
      match Replay(log[..|log| - 1])
      case None => None
      case Some(st) => if Enabled(st, log[|log| - 1]) then Some(Apply(st, log[|log| - 1])) else None
  }

  ghost predicate Genuine(st: State) {
    Replay(st.log) == Some(st)
  }

  lemma GenuineApply(st: State, e: Event)
    requires Genuine(st) && Enabled(st, e)
    ensures Genuine(Apply(st, e))
  {
    assert Apply(st, e).log[..|st.log|] == st.log;
  }

  /** The state before the last event of a genuine log. */
  ghost function Before(st: State): (before: State)
    requires Genuine(st) && |st.log| > 0
    ensures Genuine(before) && before.log == st.log[..|st.log| - 1]
    ensures Enabled(before, st.log[|st.log| - 1]) && st == Apply(before, st.log[|st.log| - 1])
  {
    ReplayLog(st.log[..|st.log| - 1]);
    Replay(st.log[..|st.log| - 1]).value
  }

  lemma {:induction false} ReplayLog(log: seq<Event>)
    ensures Replay(log).Some? ==> Replay(log).value.log == log
    decreases |log|
  {
    if |log| > 0 {
      ReplayLog(log[..|log| - 1]);
      assert log == log[..|log| - 1] + [log[|log| - 1]];
    }
  }

  /** The state at an earlier point of a genuine log. */
  ghost function At(st: State, k: nat): (before: State)
    requires Genuine(st) && k <= |st.log|
    ensures Genuine(before) && before.log == st.log[..k]
    decreases |st.log|
  {
    hide Enabled, Apply, Replay;
    if k == |st.log| then st else At(Before(st), k)
  }

  lemma {:induction false} EnabledAt(st: State, k: nat)
    requires Genuine(st) && k < |st.log|
    ensures Enabled(At(st, k), st.log[k])
    ensures At(st, k + 1) == Apply(At(st, k), st.log[k])
    decreases |st.log|
  {
    if k + 1 < |st.log| {
      EnabledAt(Before(st), k);
    }
  }
}
