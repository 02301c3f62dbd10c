/**
 * The entry point as a function of the chain state and of what the outside world does.
 *
 * Every external call is a finite tree of actions, supplied with the call; actions may re-enter any public
 * method. A revert restores the state but not the meter.
 */
module Protocol {
  import opened Evm
  import opened Bits
  import opened UserOperations
  import opened Validation
  import opened SimpleAccounts
  import opened Ledger

  datatype Block = Block(timestamp: uint256, basefee: uint256)

  // ---------- what the outside world does ----------

  /** The data a frame reverts with. `Raw` is any data that is not one of the known encodings. */
  datatype Error =
    | FailedOp(opIndex: nat, reason: string)
    | SignatureValidationFailed(aggregator: Address)
    | ErrorString(reason: string)
    | Panic
    | Raw(data: bytes)

  /** A call without a result: the actions taken, and whether the frame commits. */
  datatype Reply = Reply(actions: seq<Action>, ok: bool)

  /** The factory call made through SenderCreator, and the address it returns. */
  datatype FactoryReply = FactoryReply(reply: Reply, returned: Address)

  /** `validateUserOp` of an account that is not a SimpleAccount. */
  datatype AccountReply = AccountReply(actions: seq<Action>, result: Result<uint256, Error>)

  datatype Approval = Approval(context: bytes, word: uint256)
  datatype PaymasterReply = PaymasterReply(actions: seq<Action>, result: Result<Approval, Error>)

  datatype PostReply = PostReply(actions: seq<Action>, error: Option<Error>)

  /** The arguments of a call of `validateUserOp`; `pays` says whether the account can send what is missing. */
  datatype SelfCall = SelfCall(nonce: uint256, creating: bool, signer: Option<Address>, missing: uint256, pays: bool)

  /**
   * The call with `callData`: what it does, and the arguments it decodes to in case it selects `validateUserOp` of
   * a SimpleAccount; None when they do not decode.
   */
  datatype ExecReply = ExecReply(reply: Reply, selfCall: Option<SelfCall>)

  /** Gas consumed between consecutive readings of the gas counter. */
  datatype GasUse = GasUse(entry: nat, account: nat, paymaster: nat, tail: nat, seal: nat,
                           call: nat, inner: nat, post: nat, outer: nat, postAgain: nat)

  /** A user operation with everything the outside world contributes to handling it. */
  datatype OpScript = OpScript(
    op: UserOperation,
    gas: GasUse,
    signer: Option<Address>,
    pays: bool,
    factory: FactoryReply,
    account: AccountReply,
    paymaster: PaymasterReply,
    exec: ExecReply,
    post: PostReply,
    postAgain: PostReply)

  datatype Group = Group(ops: seq<OpScript>, aggregator: Address, signaturesValid: bool)

  datatype Action =
    | DepositTo(sender: Address, account: Address, value: uint256)
    | AddStake(sender: Address, delay: uint32, value: uint256)
    | UnlockStake(sender: Address)
    | WithdrawStake(sender: Address, recipient: Reply)
    | WithdrawTo(sender: Address, amount: uint256, recipient: Reply)
    | HandleOps(ops: seq<OpScript>, beneficiary: Address, payee: Reply)
    | HandleAggregatedOps(groups: seq<Group>, beneficiary: Address, payee: Reply)
    | InnerHandleOp
    | Deploy(address: Address, code: Code)
    | Frame(body: Reply)
    | UseGas(units: nat)

  // ---------- the machine ----------

  /** What is never rolled back within a transaction. */
  datatype Trace =
    | Validated(batch: nat, index: nat, op: UserOperation)
    | Approved(batch: nat, index: nat, op: UserOperation)
    | Called(batch: nat, index: nat, target: Address, callData: bytes)
    | PostOpCalled(batch: nat, index: nat, paymaster: Address, mode: PostOpMode, cost: uint256)
    | Observed(st: State)

  datatype Meter = Meter(gas: Gas, history: seq<Trace>, nextBatch: nat)

  datatype World = World(st: State, m: Meter)

  datatype Outcome<+T> = Done(world: World, value: T) | Reverted(m: Meter, error: Error) {
    predicate IsFailure() {
      Reverted?
    }

    function PropagateFailure<U>(): Outcome<U>
      requires Reverted?
    {
      Reverted(m, error)
    }

    function Extract(): (World, T)
      requires Done?
    {
      (world, value)
    }
  }

  function Burn(w: World, amount: nat): World {
    w.(m := w.m.(gas := w.m.gas - Min(amount, w.m.gas)))
  }

  function Note(w: World, t: Trace): World {
    w.(m := w.m.(history := w.m.history + [t]))
  }

  function Commit(w: World, e: Event): World {
    w.(st := Apply(w.st, e))
  }

  function Rollback(w: World, later: World): World {
    World(w.st, later.m)
  }

  // ---------- pure parts of the entry point ----------

  datatype MemoryUserOp = MemoryUserOp(
    sender: Address,
    nonce: uint256,
    callGasLimit: uint256,
    verificationGasLimit: uint256,
    preVerificationGas: uint256,
    paymaster: Address,
    maxFeePerGas: uint256,
    maxPriorityFeePerGas: uint256)

  datatype UserOpInfo = UserOpInfo(mUserOp: MemoryUserOp, prefund: uint256, context: bytes, preOpGas: uint256)

  function CopyUserOpToMemory(op: UserOperation): Result<MemoryUserOp, string> {
    if 0 < |op.paymasterAndData| < 20 then Err("AA93 invalid paymasterAndData")
    else
      var paymaster := if |op.paymasterAndData| == 0 then ZERO_ADDRESS else AddressOf(op.paymasterAndData);
      Ok(MemoryUserOp(op.sender, op.nonce, op.callGasLimit, op.verificationGasLimit, op.preVerificationGas,
                      paymaster, op.maxFeePerGas, op.maxPriorityFeePerGas))
  }

  function GasValues(op: UserOperation): nat {
    BitOr(BitOr(BitOr(BitOr(op.preVerificationGas, op.verificationGasLimit), op.callGasLimit), op.maxFeePerGas),
          op.maxPriorityFeePerGas)
  }

  function RequiredPrefund(mop: MemoryUserOp): uint256 {
    var mul := if mop.paymaster != ZERO_ADDRESS then 3 else 1;
    var requiredGas := Wrap(Wrap(mop.callGasLimit + Wrap(mop.verificationGasLimit * mul)) + mop.preVerificationGas);
    Wrap(requiredGas * mop.maxFeePerGas)
  }

  function UserOpGasPrice(mop: MemoryUserOp, basefee: uint256): uint256 {
    GasPrice(mop.maxFeePerGas, mop.maxPriorityFeePerGas, basefee)
  }

  function Payer(mop: MemoryUserOp): Address {
    if mop.paymaster == ZERO_ADDRESS then mop.sender else mop.paymaster
  }

  /** The marker word `innerHandleOp` reverts with when it is given too little gas. */
  const INNER_OUT_OF_GAS: uint256 := 0xdead_dead * (TWO_256 / 0x1_0000_0000)

  datatype InnerCode = TooShort | OutOfGasMarker | AnythingElse

  /** What the first 32 bytes of the return data say; copying them fails when there are fewer. */
  function InnerRevertCode(e: Error): InnerCode {
    match e
    case Raw(data) =>
      if |data| < 32 then TooShort
      else if data[..32] == Word(INNER_OUT_OF_GAS) then OutOfGasMarker
      else AnythingElse
    case _ => AnythingElse
  }

  /** The gas available to a self-call: all but one 64th. */
  function Forwarded(gas: Gas): Gas {
    gas - gas / 64
  }

  // ---------- StakeManager ----------

  function IncrementDepositError(st: State, account: Address, amount: uint256): Option<Error> {
    if Info(st, account).deposit + amount >= TWO_112 then Some(ErrorString("deposit overflow")) else None
  }

  function PerformDepositTo(w: World, account: Address, value: uint256): Outcome<()> {
    if w.st.balance + value >= TWO_256 then Reverted(w.m, Raw([]))
    else
      match IncrementDepositError(w.st, account, value)
      case Some(e) => Reverted(w.m, e)
      case None => Done(Commit(w, Deposited(account, value)), ())
  }

  /** `receive`, called with the account's own funds; a failure is ignored. */
  function TryDeposit(w: World, account: Address, value: uint256): World {
    match PerformDepositTo(w, account, value)
    case Done(w', _) => w'
    case Reverted(_, _) => w
  }

  function PerformAddStake(w: World, sender: Address, delay: uint32, value: uint256): Outcome<()> {
    var info := Info(w.st, sender);
    if w.st.balance + value >= TWO_256 then Reverted(w.m, Raw([]))
    else if delay == 0 then Reverted(w.m, ErrorString("must specify unstake delay"))
    else if delay < info.unstakeDelaySec then Reverted(w.m, ErrorString("cannot decrease unstake time"))
    else if info.stake + value == 0 then Reverted(w.m, ErrorString("no stake specified"))
    else if info.stake + value >= TWO_112 then Reverted(w.m, ErrorString("stake overflow"))
    else Done(Commit(w, StakeAdded(sender, delay, value)), ())
  }

  function PerformUnlockStake(blk: Block, w: World, sender: Address): Outcome<()> {
    var info := Info(w.st, sender);
    if info.unstakeDelaySec == 0 then Reverted(w.m, ErrorString("not staked"))
    else if !info.staked then Reverted(w.m, ErrorString("already unstaking"))
    else if ToUint48(blk.timestamp) + info.unstakeDelaySec >= TWO_48 then Reverted(w.m, Panic)
    else Done(Commit(w, StakeUnlocked(sender, blk.timestamp)), ())
  }

  function WithdrawStakeError(blk: Block, info: DepositInfo): Option<string> {
    if info.stake == 0 then Some("No stake to withdraw")
    else if info.withdrawTime == 0 then Some("must call unlockStake() first")
    else if info.withdrawTime > blk.timestamp then Some("Stake withdrawal is not due")
    else None
  }

  // ---------- gas of calls ----------

  /** The start of a call: it gets what it is given, and at most all but one 64th of the gas at hand. */
  function Enter(w: World, limit: nat): World {
    w.(m := w.m.(gas := Min(limit, Forwarded(w.m.gas))))
  }

  /** The meter after the call: the gas it used is gone. */
  function Leave(w: World, limit: nat, after: Meter): Meter {
    var given := Enter(w, limit).m.gas;
    after.(gas := w.m.gas - if after.gas <= given then given - after.gas else 0)
  }

  // ---------- environment ----------

  function RunActions(blk: Block, w: World, actions: seq<Action>): World
    decreases actions, 0
  {
    var w0 := Note(w, Observed(w.st));
    if |actions| == 0 then w0
    else RunActions(blk, RunAction(blk, w0, actions[0]), actions[1..])
  }

  function RunReply(blk: Block, w: World, r: Reply): (World, bool)
    decreases r, 0
  {
    var w' := RunActions(blk, w, r.actions);
    if r.ok then (w', true) else (Rollback(w, w'), false)
  }

  /** The actions of a callee that is given this much gas. */
  function RunWithin(blk: Block, w: World, limit: nat, actions: seq<Action>): World
    decreases actions, 1
  {
    var after := RunActions(blk, Enter(w, limit), actions);
    World(after.st, Leave(w, limit, after.m))
  }

  function RunReplyWithin(blk: Block, w: World, limit: nat, r: Reply): (World, bool)
    decreases r, 1
  {
    var (after, ok) := RunReply(blk, Enter(w, limit), r);
    (World(after.st, Leave(w, limit, after.m)), ok)
  }

  /** Each action is a frame of its own: a revert undoes exactly that action. */
  function RunAction(blk: Block, w: World, a: Action): World
    decreases a, 2
  {
    match Perform(blk, w, a)
    case Done(w', _) => w'
    case Reverted(m, _) => World(w.st, m)
  }

  function Perform(blk: Block, w: World, a: Action): Outcome<()>
    decreases a, 1
  {
    match a
    case DepositTo(_, account, value) => PerformDepositTo(w, account, value)
    case AddStake(sender, delay, value) => PerformAddStake(w, sender, delay, value)
    case UnlockStake(sender) => PerformUnlockStake(blk, w, sender)
    case WithdrawStake(_, _) => PerformWithdrawStake(blk, w, a)
    case WithdrawTo(_, _, _) => PerformWithdrawTo(blk, w, a)
    case HandleOps(_, _, _) => PerformHandleOps(blk, w, a)
    case HandleAggregatedOps(_, _, _) => PerformHandleAggregatedOps(blk, w, a)
    case InnerHandleOp => Reverted(w.m, ErrorString("AA92 internal call only"))
    case Deploy(address, code) =>
      if address in w.st.code || (code.Simple? && code.account.nonce != 0) then Reverted(w.m, Raw([]))
      else Done(Commit(w, Deployed(address, code)), ())
    case Frame(body) => Done(RunReply(blk, w, body).0, ())
    case UseGas(units) => Done(Burn(w, units), ())
  }

  function PerformWithdrawStake(blk: Block, w: World, a: Action): Outcome<()>
    requires a.WithdrawStake?
    decreases a, 0
  {
    var info := Info(w.st, a.sender);
    match WithdrawStakeError(blk, info)
    case Some(reason) => Reverted(w.m, ErrorString(reason))
    case None =>
      if info.stake > w.st.balance then Reverted(w.m, ErrorString("failed to withdraw stake"))
      else
        var (w', ok) := RunReply(blk, Commit(w, StakeWithdrawn(a.sender, info.stake, blk.timestamp)), a.recipient);
        if ok then Done(w', ()) else Reverted(w'.m, ErrorString("failed to withdraw stake"))
  }

  function PerformWithdrawTo(blk: Block, w: World, a: Action): Outcome<()>
    requires a.WithdrawTo?
    decreases a, 0
  {
    if a.amount > Info(w.st, a.sender).deposit then Reverted(w.m, ErrorString("Withdraw amount too large"))
    else if a.amount > w.st.balance then Reverted(w.m, ErrorString("failed to withdraw"))
    else
      var (w', ok) := RunReply(blk, Commit(w, Withdrawn(a.sender, a.amount)), a.recipient);
      if ok then Done(w', ()) else Reverted(w'.m, ErrorString("failed to withdraw"))
  }

  // ---------- validation ----------

  function CreateSenderIfNeeded(blk: Block, w: World, batch: nat, index: nat, s: OpScript): Outcome<()>
    decreases s, 1
  {
    var sender := s.op.sender;
    if !IsCreating(s.op) then Done(w, ())
    else if sender in w.st.code then Reverted(w.m, FailedOp(index, "AA10 sender already constructed"))
    else if |s.op.initCode| < 20 then Reverted(w.m, Raw([]))
    else
      var (w', ok) :=
        RunReplyWithin(blk, Commit(w, CreationStarted(batch, index, s.op)), s.op.verificationGasLimit, s.factory.reply);
      var sender1 := if ok then s.factory.returned else ZERO_ADDRESS;
      if sender1 == ZERO_ADDRESS then Reverted(w'.m, FailedOp(index, "AA13 initCode failed or OOG"))
      else if sender1 != sender then Reverted(w'.m, FailedOp(index, "AA14 initCode must return sender"))
      else if sender1 !in w'.st.code then Reverted(w'.m, FailedOp(index, "AA15 initCode must create sender"))
      else Done(w', ())
  }

  function CaughtAs(index: nat, code: string, e: Error): Error {
    if e.ErrorString? then FailedOp(index, code + " reverted: " + e.reason)
    else FailedOp(index, code + " reverted (or OOG)")
  }

  function CallValidateUserOp(blk: Block, w: World, batch: nat, index: nat, s: OpScript, missing: uint256)
    : Outcome<uint256>
    decreases s, 1
  {
    var sender := s.op.sender;
    if sender !in w.st.code then Reverted(w.m, Raw([]))
    else if w.st.code[sender].Simple? then
      match ValidateUserOp(w.st.code[sender].account, s.op.nonce, IsCreating(s.op), s.signer)
      case Err(reason) =>
        Reverted(w.m, CaughtAs(index, "AA23", if reason.Some? then ErrorString(reason.value) else Raw([])))
      case Ok((_, word)) =>
        var w1 := Commit(w, AccountValidated(batch, index, s.op, s.signer, word));
        Done(if missing != 0 && s.pays then TryDeposit(w1, sender, missing) else w1, word)
    else
      var w1 := RunWithin(blk, w, s.op.verificationGasLimit, s.account.actions);
      match s.account.result
      case Err(e) => Reverted(w1.m, CaughtAs(index, "AA23", e))
      case Ok(word) => Done(Commit(w1, AccountValidated(batch, index, s.op, s.signer, word)), word)
  }

  const NO_PAYMASTER := Approval([], 0)

  function MissingFunds(w: World, mop: MemoryUserOp, required: uint256): uint256 {
    if mop.paymaster != ZERO_ADDRESS then 0
    else
      var balance := Info(w.st, mop.sender).deposit;
      if balance > required then 0 else required - balance
  }

  function ValidateAccountPrepayment(blk: Block, w: World, batch: nat, index: nat, s: OpScript,
                                     mop: MemoryUserOp, required: uint256): Outcome<(int, uint256)>
    decreases s, 2
  {
    var (w1, _) :- CreateSenderIfNeeded(blk, w, batch, index, s);
    var (w2, word) :- CallValidateUserOp(blk, w1, batch, index, s, MissingFunds(w1, mop, required));
    if mop.paymaster == ZERO_ADDRESS && required > Info(w2.st, mop.sender).deposit then
      Reverted(w2.m, FailedOp(index, "AA21 didn't pay prefund"))
    else
      var w3 := if mop.paymaster == ZERO_ADDRESS then Commit(w2, PrefundTaken(batch, index, mop.sender, required))
                else w2;
      var w4 := Burn(w3, s.gas.account);
      Done(w4, (w.m.gas - w4.m.gas, word))
  }

  function ValidatePaymasterPrepayment(blk: Block, w: World, batch: nat, index: nat, s: OpScript,
                                       mop: MemoryUserOp, required: uint256, gasUsed: int): Outcome<Approval>
    decreases s, 2
  {
    if mop.paymaster == ZERO_ADDRESS then Done(w, NO_PAYMASTER)
    else if mop.verificationGasLimit <= gasUsed then Reverted(w.m, ErrorString("AA41 too little verificationGas"))
    else if Info(w.st, mop.paymaster).deposit < required then
      Reverted(w.m, FailedOp(index, "AA31 paymaster deposit too low"))
    else if mop.paymaster !in w.st.code then Reverted(w.m, Raw([]))
    else
      var limit: nat := mop.verificationGasLimit - gasUsed;
      var w1 := RunWithin(blk, Commit(w, PrefundTaken(batch, index, mop.paymaster, required)), limit,
                          s.paymaster.actions);
      match s.paymaster.result
      case Err(e) => Reverted(w1.m, CaughtAs(index, "AA33", e))
      case Ok(approval) => Done(Burn(Note(w1, Approved(batch, index, s.op)), s.gas.paymaster), approval)
  }

  datatype Prepayment = Prepayment(info: UserOpInfo, word: uint256, pmWord: uint256)

  function ValidatePrepayment(blk: Block, w: World, batch: nat, index: nat, s: OpScript): Outcome<Prepayment>
    decreases s, 3
  {
    match CopyUserOpToMemory(s.op)
    case Err(reason) => Reverted(w.m, ErrorString(reason))
    case Ok(mop) =>
      if GasValues(s.op) >= TWO_120 then Reverted(w.m, ErrorString("AA94 gas values overflow"))
      else
        var required := RequiredPrefund(mop);
        var (w1, account) :- ValidateAccountPrepayment(blk, Burn(w, s.gas.entry), batch, index, s, mop, required);
        var (w2, approval) :- ValidatePaymasterPrepayment(blk, w1, batch, index, s, mop, required, account.0);
        var w3 := Burn(w2, s.gas.tail);
        if mop.verificationGasLimit < w.m.gas - w3.m.gas then
          Reverted(w3.m, FailedOp(index, "AA40 over verificationGasLimit"))
        else
          var w4 := Burn(w3, s.gas.seal);
          var preOpGas := Wrap(w.m.gas - w4.m.gas + mop.preVerificationGas);
          Done(w4, Prepayment(UserOpInfo(mop, required, approval.context, preOpGas), account.1, approval.word))
  }

  /** One iteration of the first loop; `reported` is the index put into a failure of the last check. */
  function ValidateOp(blk: Block, w: World, batch: nat, index: nat, reported: nat, aggregator: Address, s: OpScript)
    : Outcome<UserOpInfo>
    decreases s, 4
  {
    var (w1, r) :- ValidatePrepayment(blk, w, batch, index, s);
    match CheckValidationData(blk.timestamp, r.word, r.pmWord, aggregator)
    case Some(reason) => Reverted(w1.m, FailedOp(reported, reason))
    case None =>
      Done(Note(Commit(w1, Accepted(batch, index, s.op, r.word, aggregator)), Validated(batch, index, s.op)), r.info)
  }

  function ValidateOps(blk: Block, w: World, batch: nat, index: nat, reported: nat, aggregator: Address,
                       ops: seq<OpScript>): (r: Outcome<seq<UserOpInfo>>)
    ensures r.Done? ==> |r.value| == |ops|
    decreases ops, 0
  {
    if |ops| == 0 then Done(w, [])
    else
      var (w1, info) :- ValidateOp(blk, w, batch, index, reported, aggregator, ops[0]);
      var (w2, infos) :- ValidateOps(blk, w1, batch, index + 1, reported + 1, aggregator, ops[1..]);
      Done(w2, [info] + infos)
  }

  // ---------- execution ----------

  function CallAccount(blk: Block, w: World, s: OpScript): (World, bool)
    decreases s, 1
  {
    var sender := s.op.sender;
    if sender in w.st.code && w.st.code[sender].Simple? && SelectsValidateUserOp(s.op.callData) then
      match s.exec.selfCall
      case None => (w, false)
      case Some(c) =>
        match ValidateUserOp(w.st.code[sender].account, c.nonce, c.creating, c.signer)
        case Err(_) => (w, false)
        case Ok(_) =>
          var w1 := Commit(w, Revalidated(s.op, c.nonce, c.creating));
          (if c.missing != 0 && c.pays then TryDeposit(w1, sender, c.missing) else w1, true)
    else
      RunReplyWithin(blk, w, s.op.callGasLimit, s.exec.reply)
  }

  /** Whether the paymaster wants `postOp` to be called. */
  predicate AsksPostOp(info: UserOpInfo) {
    info.mUserOp.paymaster != ZERO_ADDRESS && |info.context| != 0
  }

  /** The cost that `postOp` is told, which is without its own. */
  function PostOpCost(blk: Block, info: UserOpInfo, actualGas: uint256): uint256 {
    Wrap(actualGas * UserOpGasPrice(info.mUserOp, blk.basefee))
  }

  /** The call to `postOp`, when there is one to make. */
  function CallPostOp(blk: Block, w: World, batch: nat, index: nat, reported: nat, mode: PostOpMode, info: UserOpInfo,
                      actualGas: uint256, post: PostReply): Outcome<()>
    decreases post, 0
  {
    if !AsksPostOp(info) then Done(w, ())
    else
      var t := PostOpCalled(batch, index, info.mUserOp.paymaster, mode, PostOpCost(blk, info, actualGas));
      var w' := RunWithin(blk, Note(w, t), info.mUserOp.verificationGasLimit, post.actions);
      match post.error
      case None => Done(w', ())
      case Some(e) =>
        Reverted(w'.m,
                 if mode != PostOpReverted then e
                 else if e.ErrorString? then FailedOp(reported, "AA50 postOp reverted: " + e.reason)
                 else FailedOp(reported, "AA50 postOp revert"))
  }

  /** What ends an operation: its payer gets back what it did not cost. */
  function SettlementOf(batch: nat, index: nat, info: UserOpInfo, cost: uint256, mode: PostOpMode): Event
    requires cost <= info.prefund
  {
    Settled(batch, index, info.mUserOp.verificationGasLimit, Payer(info.mUserOp), info.prefund - cost, cost, mode)
  }

  function HandlePostOp(blk: Block, w: World, batch: nat, index: nat, reported: nat, mode: PostOpMode,
                        info: UserOpInfo, actualGas: uint256, post: PostReply, use: nat): Outcome<uint256>
    decreases post, 1
  {
    var (w1, _) :- CallPostOp(blk, w, batch, index, reported, mode, info, actualGas, post);
    var w2 := Burn(w1, use);
    var cost := Wrap(Wrap(actualGas + (w.m.gas - w2.m.gas)) * UserOpGasPrice(info.mUserOp, blk.basefee));
    if info.prefund < cost then Reverted(w2.m, FailedOp(reported, "AA51 prefund below actualGasCost"))
    else
      match IncrementDepositError(w2.st, Payer(info.mUserOp), info.prefund - cost)
      case Some(e) => Reverted(w2.m, e)
      case None => Done(Commit(w2, SettlementOf(batch, index, info, cost, mode)), cost)
  }

  /**
   * `innerHandleOp`: the frame that is rolled back when it fails. When the frame runs out of its gas it fails
   * without return data.
   */
  function HandleInner(blk: Block, w: World, batch: nat, index: nat, s: OpScript, info: UserOpInfo): Outcome<uint256>
    decreases s, 2
  {
    if Forwarded(w.m.gas) < Wrap(Wrap(info.mUserOp.callGasLimit + info.mUserOp.verificationGasLimit) + GAS_MARGIN) then
      Reverted(w.m, Raw(Word(INNER_OUT_OF_GAS)))
    else
      var (w1, ok) :=
        if |s.op.callData| == 0 then (w, true)
        else CallAccount(blk, Note(w, Called(batch, index, s.op.sender, s.op.callData)), s);
      var w2 := Burn(w1, s.gas.inner);
      if w.m.gas - w1.m.gas + s.gas.inner > Forwarded(w.m.gas) then Reverted(w2.m, Raw([]))
      else
        var actualGas := Wrap(w.m.gas - w2.m.gas + info.preOpGas);
        HandlePostOp(blk, w2, batch, index, 0, if ok then OpSucceeded else OpReverted, info, actualGas, s.post,
                     s.gas.post)
  }

  function ExecuteUserOp(blk: Block, w: World, batch: nat, index: nat, s: OpScript, info: UserOpInfo): Outcome<uint256>
    decreases s, 3
  {
    match HandleInner(blk, Burn(w, s.gas.call), batch, index, s, info)
    case Done(w1, cost) => Done(w1, cost)
    case Reverted(m, e) =>
      match InnerRevertCode(e)
      case TooShort => Reverted(m, Raw([]))
      case OutOfGasMarker => Reverted(m, FailedOp(index, "AA95 out of gas"))
      case AnythingElse =>
        var w2 := Burn(World(w.st, m), s.gas.outer);
        var actualGas := Wrap(w.m.gas - w2.m.gas + info.preOpGas);
        HandlePostOp(blk, w2, batch, index, index, PostOpReverted, info, actualGas, s.postAgain, s.gas.postAgain)
  }

  function ExecuteOps(blk: Block, w: World, batch: nat, index: nat, ops: seq<OpScript>, infos: seq<UserOpInfo>,
                      collected: uint256): Outcome<uint256>
    requires |infos| == |ops|
    decreases ops, 0
  {
    if |ops| == 0 then Done(w, collected)
    else
      var (w1, cost) :- ExecuteUserOp(blk, w, batch, index, ops[0], infos[0]);
      ExecuteOps(blk, w1, batch, index + 1, ops[1..], infos[1..], Wrap(collected + cost))
  }

  function Compensate(blk: Block, w: World, batch: nat, beneficiary: Address, amount: uint256,
                      payee: Reply): Outcome<()>
    decreases payee, 1
  {
    if beneficiary == ZERO_ADDRESS then Reverted(w.m, ErrorString("AA90 invalid beneficiary"))
    else if amount > w.st.balance then Reverted(w.m, ErrorString("AA91 failed send to beneficiary"))
    else
      var (w', ok) := RunReply(blk, Commit(w, Paid(batch, beneficiary, amount)), payee);
      if ok then Done(w', ()) else Reverted(w'.m, ErrorString("AA91 failed send to beneficiary"))
  }

  function OpenBatch(w: World): World {
    Commit(w.(m := w.m.(nextBatch := w.m.nextBatch + 1)), HandlingStarted(w.m.nextBatch))
  }

  function PerformHandleOps(blk: Block, w: World, a: Action): Outcome<()>
    requires a.HandleOps?
    decreases a, 0
  {
    var batch := w.m.nextBatch;
    var (w1, infos) :- ValidateOps(blk, OpenBatch(w), batch, 0, 0, ZERO_ADDRESS, a.ops);
    var (w2, collected) :- ExecuteOps(blk, w1, batch, 0, a.ops, infos, 0);
    Compensate(blk, w2, batch, a.beneficiary, collected, a.payee)
  }

  // ---------- aggregated operations ----------

  /** The first loop of `handleAggregatedOps`: the aggregators are asked without changing any state. */
  function CheckAggregators(st: State, groups: seq<Group>): Option<Error> {
    if |groups| == 0 then None
    else
      var g := groups[0];
      if g.aggregator == 1 then Some(ErrorString("AA96 invalid aggregator"))
      else if g.aggregator != ZERO_ADDRESS && g.aggregator !in st.code then Some(Raw([]))
      else if g.aggregator != ZERO_ADDRESS && !g.signaturesValid then Some(SignatureValidationFailed(g.aggregator))
      else CheckAggregators(st, groups[1..])
  }

  function Flatten(groups: seq<Group>): seq<OpScript> {
    if |groups| == 0 then [] else groups[0].ops + Flatten(groups[1..])
  }

  function ValidateGroups(blk: Block, w: World, batch: nat, opIndex: nat, groups: seq<Group>)
    : (r: Outcome<seq<UserOpInfo>>)
    ensures r.Done? ==> |r.value| == |Flatten(groups)|
    decreases groups, 1
  {
    if |groups| == 0 then Done(w, [])
    else
      var g := groups[0];
      var (w1, infos) :- ValidateOps(blk, w, batch, opIndex, 0, g.aggregator, g.ops);
      var (w2, rest) :- ValidateGroups(blk, w1, batch, opIndex + |g.ops|, groups[1..]);
      Done(w2, infos + rest)
  }

  function ExecuteGroups(blk: Block, w: World, batch: nat, opIndex: nat, groups: seq<Group>, infos: seq<UserOpInfo>,
                         collected: uint256): Outcome<uint256>
    requires |infos| == |Flatten(groups)|
    decreases groups, 1
  {
    if |groups| == 0 then Done(w, collected)
    else
      var g := groups[0];
      var (w1, collected1) :- ExecuteOps(blk, w, batch, opIndex, g.ops, infos[..|g.ops|], collected);
      ExecuteGroups(blk, w1, batch, opIndex + |g.ops|, groups[1..], infos[|g.ops|..], collected1)
  }

  function PerformHandleAggregatedOps(blk: Block, w: World, a: Action): Outcome<()>
    requires a.HandleAggregatedOps?
    decreases a, 0
  {
    match CheckAggregators(w.st, a.groups)
    case Some(e) => Reverted(w.m, e)
    case None =>
      var batch := w.m.nextBatch;
      var (w1, infos) :- ValidateGroups(blk, OpenBatch(w), batch, 0, a.groups);
      var (w2, collected) :- ExecuteGroups(blk, w1, batch, 0, a.groups, infos, 0);
      Compensate(blk, w2, batch, a.beneficiary, collected, a.payee)
  }

  // ---------- transactions ----------

  /** A transaction sent to the entry point: its block, its gas, and the action it performs. */
  datatype Transaction = Transaction(blk: Block, gas: Gas, action: Action)

  function RunTransaction(w: World, t: Transaction): World {
    RunAction(t.blk, w.(m := w.m.(gas := t.gas)), t.action)
  }

  function Run(w: World, ts: seq<Transaction>): World
    decreases |ts|
  {
    if |ts| == 0 then w else RunTransaction(Run(w, ts[..|ts| - 1]), ts[|ts| - 1])
  }

  /** Before the first transaction; each transaction brings its own gas. */
  const START := World(GENESIS, Meter(TWO_64 - 1, [], 0))
}
