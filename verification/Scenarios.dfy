/** Runs in which a rule that looks universal fails. */
module Scenarios {
  import opened Evm
  import opened Bits
  import opened UserOperations
  import opened Packing
  import opened Validation
  import opened SimpleAccounts
  import opened Ledger
  import opened Protocol
  import opened Aggregated
  import opened Arithmetic
  import Effects
  import opened ReplayProtection
  import opened NestedCreation

  const ACCOUNT: Address := 0x1000
  const OWNER: Address := 0x2000
  const STRANGER: Address := 0x2001
  const PAYEE: Address := 0x3000
  const FACTORY: Address := 0x4000
  const PAYMASTER: Address := 0x6000

  const BLOCK := Block(1_700_000_000, 7)
  const SIGNATURE: bytes := Word(1) + Word(1) + [27]

  /** What the entry point and the account use of the gas. */
  const USAGE := GasUse(20_000, 30_000, 1_000, 1_000, 500, 3_000, 30_000, 1_000, 1_000, 1_000)

  /** What a factory uses besides its calls. */
  const DEPLOYMENT := 60_000

  /** An operation that pays no fee. */
  function Op(nonce: uint256, initCode: bytes, callData: bytes, limit: uint256): UserOperation {
    UserOperation(ACCOUNT, nonce, initCode, callData, 50_000, limit, 21_000, 0, 0, [], SIGNATURE)
  }

  predicate FreeOp(op: UserOperation) {
    op == Op(op.nonce, op.initCode, op.callData, op.verificationGasLimit)
    && 200_000 <= op.verificationGasLimit <= 2_000_000
  }

  function Script(op: UserOperation, signer: Address, factory: FactoryReply, exec: ExecReply): OpScript {
    OpScript(op, USAGE, Some(signer), false, factory, AccountReply([], Ok(0)), PaymasterReply([], Ok(NO_PAYMASTER)),
             exec, PostReply([], None), PostReply([], None))
  }

  const NO_FACTORY := FactoryReply(Reply([], false), ZERO_ADDRESS)
  const NO_CALL := ExecReply(Reply([], true), None)

  function MemoryOp(op: UserOperation): MemoryUserOp {
    MemoryUserOp(ACCOUNT, op.nonce, 50_000, op.verificationGasLimit, 21_000, ZERO_ADDRESS, 0, 0)
  }

  function InfoFrom(op: UserOperation, preOpGas: uint256): UserOpInfo {
    UserOpInfo(MemoryOp(op), 0, [], preOpGas)
  }

  lemma CostsNothing(op: UserOperation, basefee: uint256)
    requires FreeOp(op)
    ensures CopyUserOpToMemory(op) == Ok(MemoryOp(op)) && GasValues(op) < TWO_120
    ensures RequiredPrefund(MemoryOp(op)) == 0 && UserOpGasPrice(MemoryOp(op), basefee) == 0
  {
    hide GasValues;
    GasCheckIff(op);
    RequiredGasIsIdeal(MemoryOp(op));
    assert IdealGas(MemoryOp(op)) * 0 == 0;
  }

  lemma OpeningIs(w: World)
    ensures var w' := OpenBatch(w);
            && w'.m.gas == w.m.gas && w'.m.nextBatch == w.m.nextBatch + 1 && w'.st.code == w.st.code
            && w'.st.log == w.st.log + [HandlingStarted(w.m.nextBatch)]
  {
  }

  // ---------- validation ----------

  /** The account as the entry point finds it after creating it, if it had to. */
  predicate HasAccount(w: World, op: UserOperation) {
    && ACCOUNT in w.st.code && w.st.code[ACCOUNT].Simple? && w.st.code[ACCOUNT].account.owner == OWNER
    && (IsCreating(op) || w.st.code[ACCOUNT].account.nonce == op.nonce < MAX_NONCE)
  }

  function WordFor(signer: Address): uint256 {
    if signer == OWNER then 0 else SIG_VALIDATION_FAILED
  }

  function Prepaid(w: World, batch: nat, index: nat, op: UserOperation, signer: Address): World {
    var validated := Commit(w, AccountValidated(batch, index, op, Some(signer), WordFor(signer)));
    var taken := Commit(validated, PrefundTaken(batch, index, ACCOUNT, 0));
    Burn(Burn(Burn(taken, USAGE.account), USAGE.tail), USAGE.seal)
  }

  /** The sender can be validated with the gas that is left. */
  predicate Affords(w: World, w1: World, op: UserOperation) {
    40_000 <= w1.m.gas <= w.m.gas && w.m.gas - w1.m.gas + 31_000 <= op.verificationGasLimit
  }

  lemma AccountPays(blk: Block, w: World, w1: World, batch: nat, index: nat, s: OpScript, signer: Address)
    requires FreeOp(s.op) && s == Script(s.op, signer, s.factory, s.exec)
    requires CreateSenderIfNeeded(blk, w, batch, index, s) == Done(w1, ()) && HasAccount(w1, s.op)
    requires 40_000 <= w1.m.gas <= w.m.gas
    ensures var validated := Commit(w1, AccountValidated(batch, index, s.op, Some(signer), WordFor(signer)));
            var w2 := Burn(Commit(validated, PrefundTaken(batch, index, ACCOUNT, 0)), USAGE.account);
            ValidateAccountPrepayment(blk, w, batch, index, s, MemoryOp(s.op), 0)
            == Done(w2, (w.m.gas - w2.m.gas, WordFor(signer)))
  {
    hide CreateSenderIfNeeded, Apply;
    var e := AccountValidated(batch, index, s.op, Some(signer), WordFor(signer));
    assert MissingFunds(w1, MemoryOp(s.op), 0) == 0;
    assert CallValidateUserOp(blk, w1, batch, index, s, 0) == Done(Commit(w1, e), WordFor(signer));
  }

  lemma Prepays(blk: Block, w: World, w1: World, batch: nat, index: nat, s: OpScript, signer: Address)
    returns (preOpGas: uint256)
    requires FreeOp(s.op) && s == Script(s.op, signer, s.factory, s.exec)
    requires CreateSenderIfNeeded(blk, Burn(w, USAGE.entry), batch, index, s) == Done(w1, ()) && HasAccount(w1, s.op)
    requires Affords(w, w1, s.op) && w1.m.gas <= Burn(w, USAGE.entry).m.gas
    ensures ValidatePrepayment(blk, w, batch, index, s)
         == Done(Prepaid(w1, batch, index, s.op, signer), Prepayment(InfoFrom(s.op, preOpGas), WordFor(signer), 0))
  {
    hide CreateSenderIfNeeded, ValidateAccountPrepayment, GasValues, RequiredPrefund, Apply;
    CostsNothing(s.op, blk.basefee);
    AccountPays(blk, Burn(w, USAGE.entry), w1, batch, index, s, signer);
    preOpGas := Wrap(w.m.gas - Prepaid(w1, batch, index, s.op, signer).m.gas + 21_000);
  }

  function AfterValidation(w: World, batch: nat, op: UserOperation): World {
    Note(Commit(Prepaid(w, batch, 0, op, OWNER), Accepted(batch, 0, op, 0, ZERO_ADDRESS)), Validated(batch, 0, op))
  }

  lemma Validates(blk: Block, w: World, w1: World, batch: nat, s: OpScript) returns (preOpGas: uint256)
    requires FreeOp(s.op) && s == Script(s.op, OWNER, s.factory, s.exec)
    requires CreateSenderIfNeeded(blk, Burn(w, USAGE.entry), batch, 0, s) == Done(w1, ()) && HasAccount(w1, s.op)
    requires Affords(w, w1, s.op) && w1.m.gas <= Burn(w, USAGE.entry).m.gas
    ensures ValidateOps(blk, w, batch, 0, 0, ZERO_ADDRESS, [s])
         == Done(AfterValidation(w1, batch, s.op), [InfoFrom(s.op, preOpGas)])
  {
    hide CreateSenderIfNeeded, ValidatePrepayment, Prepaid, Apply;
    preOpGas := Prepays(blk, w, w1, batch, 0, s, OWNER);
    assert [s][1..] == [] && [InfoFrom(s.op, preOpGas)] + [] == [InfoFrom(s.op, preOpGas)];
  }

  lemma AfterValidationIs(w: World, batch: nat, op: UserOperation)
    requires HasAccount(w, op) && op.sender == ACCOUNT && w.m.gas >= 40_000
    ensures var w' := AfterValidation(w, batch, op);
            && w'.m.gas == w.m.gas - 31_500 && w'.m.nextBatch == w.m.nextBatch
            && w'.st.code == (if IsCreating(op) then w.st.code else BumpNonce(w.st.code, ACCOUNT))
            && w'.st.log == w.st.log + [AccountValidated(batch, 0, op, Some(OWNER), 0),
                                        PrefundTaken(batch, 0, ACCOUNT, 0), Accepted(batch, 0, op, 0, ZERO_ADDRESS)]
  {
  }

  // ---------- execution ----------

  /** The gas that `innerHandleOp` checks for. */
  predicate CanExecute(w: World, op: UserOperation) {
    33_000 <= w.m.gas && 55_000 + op.verificationGasLimit <= Forwarded(w.m.gas - 3_000)
  }

  function AfterExecution(w: World, batch: nat, op: UserOperation): World {
    Commit(Burn(Burn(w, USAGE.inner), USAGE.post),
           Settled(batch, 0, op.verificationGasLimit, ACCOUNT, 0, 0, OpSucceeded))
  }

  lemma SettlesNothing(blk: Block, w: World, batch: nat, mode: PostOpMode, op: UserOperation, preOpGas: uint256,
                       actualGas: uint256)
    requires FreeOp(op)
    ensures HandlePostOp(blk, w, batch, 0, 0, mode, InfoFrom(op, preOpGas), actualGas, PostReply([], None), USAGE.post)
         == Done(Commit(Burn(w, USAGE.post), Settled(batch, 0, op.verificationGasLimit, ACCOUNT, 0, 0, mode)), 0)
  {
    hide Apply, UserOpGasPrice, Wrap, IncrementDepositError;
    CostsNothing(op, blk.basefee);
    var used := w.m.gas - Burn(w, USAGE.post).m.gas;
    TimesNothing(Wrap(actualGas + used));
    ZeroFits(Burn(w, USAGE.post).st, ACCOUNT);
  }

  lemma TimesNothing(x: uint256)
    ensures Wrap(x * 0) == 0
  {
  }

  lemma ZeroFits(st: State, a: Address)
    ensures IncrementDepositError(st, a, 0) == None
  {
  }

  /** The account's call, when there is one, used no gas but what is counted for the self-call. */
  predicate Calls(blk: Block, w0: World, w1: World, batch: nat, s: OpScript) {
    && w1.m.gas == w0.m.gas
    && if s.op.callData == [] then w1 == w0
       else CallAccount(blk, Note(w0, Called(batch, 0, ACCOUNT, s.op.callData)), s) == (w1, true)
  }

  lemma ExecutesInside(blk: Block, w0: World, w1: World, batch: nat, s: OpScript, preOpGas: uint256)
    requires FreeOp(s.op) && s == Script(s.op, OWNER, s.factory, s.exec)
    requires 30_000 <= w0.m.gas && 55_000 + s.op.verificationGasLimit <= Forwarded(w0.m.gas)
    requires Calls(blk, w0, w1, batch, s)
    ensures HandleInner(blk, w0, batch, 0, s, InfoFrom(s.op, preOpGas)) == Done(AfterExecution(w1, batch, s.op), 0)
  {
    hide CallAccount, Apply, HandlePostOp;
    var w2 := Burn(w1, USAGE.inner);
    SettlesNothing(blk, w2, batch, OpSucceeded, s.op, preOpGas, Wrap(w0.m.gas - w2.m.gas + preOpGas));
  }

  lemma Executes(blk: Block, w: World, w1: World, batch: nat, s: OpScript, preOpGas: uint256)
    requires FreeOp(s.op) && s == Script(s.op, OWNER, s.factory, s.exec) && CanExecute(w, s.op)
    requires Calls(blk, Burn(w, USAGE.call), w1, batch, s)
    ensures ExecuteUserOp(blk, w, batch, 0, s, InfoFrom(s.op, preOpGas)) == Done(AfterExecution(w1, batch, s.op), 0)
  {
    hide HandleInner, HandlePostOp, AfterExecution, Calls, FreeOp;
    ExecutesInside(blk, Burn(w, USAGE.call), w1, batch, s, preOpGas);
  }

  // ---------- a batch of one operation ----------

  function Single(s: OpScript): Action {
    HandleOps([s], PAYEE, Reply([], true))
  }

  function AfterBatch(w: World, batch: nat, op: UserOperation): World {
    var paid := Commit(AfterExecution(w, batch, op), Paid(batch, PAYEE, 0));
    Note(paid, Observed(paid.st))
  }

  lemma AfterBatchIs(w: World, batch: nat, op: UserOperation)
    requires w.m.gas >= 31_000
    ensures var w' := AfterBatch(w, batch, op);
            && w'.m.gas == w.m.gas - 31_000 && w'.m.nextBatch == w.m.nextBatch && w'.st.code == w.st.code
            && w'.st.log == w.st.log + [Settled(batch, 0, op.verificationGasLimit, ACCOUNT, 0, 0, OpSucceeded),
                                        Paid(batch, PAYEE, 0)]
  {
  }

  function CommittedEvents(batch: nat, op: UserOperation): seq<Event> {
    [AccountValidated(batch, 0, op, Some(OWNER), 0), PrefundTaken(batch, 0, ACCOUNT, 0),
     Accepted(batch, 0, op, 0, ZERO_ADDRESS),
     Settled(batch, 0, op.verificationGasLimit, ACCOUNT, 0, 0, OpSucceeded), Paid(batch, PAYEE, 0)]
  }

  /** One operation, from the opening of its batch to the payment of nothing. */
  lemma HandlesOne(blk: Block, w: World, w1: World, w2: World, s: OpScript)
    requires FreeOp(s.op) && s == Script(s.op, OWNER, s.factory, s.exec)
    requires var batch, w0 := w.m.nextBatch, OpenBatch(w);
             && CreateSenderIfNeeded(blk, Burn(w0, USAGE.entry), batch, 0, s) == Done(w1, ()) && HasAccount(w1, s.op)
             && Affords(w, w1, s.op) && w1.m.gas <= Burn(w0, USAGE.entry).m.gas
    requires var batch, v := w.m.nextBatch, AfterValidation(w1, w.m.nextBatch, s.op);
             && CanExecute(v, s.op) && w2.m.gas == Burn(v, USAGE.call).m.gas
             && if s.op.callData == [] then w2 == Burn(v, USAGE.call)
                else
                  CallAccount(blk, Note(Burn(v, USAGE.call), Called(batch, 0, ACCOUNT, s.op.callData)), s) == (w2, true)
    ensures Perform(blk, w, Single(s)) == Done(AfterBatch(w2, w.m.nextBatch, s.op), ())
  {
    hide CreateSenderIfNeeded, CallAccount, Apply, ValidateOps, ExecuteUserOp, AfterValidation, AfterExecution,
         CanExecute;
    var batch, w0 := w.m.nextBatch, OpenBatch(w);
    var v := AfterValidation(w1, batch, s.op);
    var preOpGas := Validates(blk, w0, w1, batch, s);
    var info := InfoFrom(s.op, preOpGas);
    Executes(blk, v, w2, batch, s, preOpGas);
    var settled := AfterExecution(w2, batch, s.op);
    assert [s][1..] == [] && [info][1..] == [];
    assert ExecuteOps(blk, v, batch, 0, [s], [info], 0) == Done(settled, 0);
    assert Compensate(blk, settled, batch, PAYEE, 0, Reply([], true)) == Done(AfterBatch(w2, batch, s.op), ());
  }

  lemma NoCreation(blk: Block, w: World, batch: nat, index: nat, s: OpScript)
    requires !IsCreating(s.op)
    ensures CreateSenderIfNeeded(blk, w, batch, index, s) == Done(w, ())
  {
  }

  // ---------- a sender is created twice ----------

  /** The factory's address, and nothing more. */
  const INIT_CODE: bytes := BigEndian(FACTORY, 20)

  /** The factory takes an action, and some gas; afterwards the account is there. */
  function Creating(limit: uint256, a: Action): OpScript {
    Script(Op(0, INIT_CODE, [], limit), OWNER, FactoryReply(Reply([a, UseGas(DEPLOYMENT)], true), ACCOUNT), NO_CALL)
  }

  const DEPLOY := Deploy(ACCOUNT, Simple(Account(0, OWNER)))

  /** The factory deploys the account. */
  function Deploying(): OpScript {
    Creating(200_000, DEPLOY)
  }

  /** The factory first hands another creating operation of the same account to the entry point. */
  function Reentering(): OpScript {
    Creating(2_000_000, Single(Deploying()))
  }

  /** Where the factory is called. */
  function Started(w: World, op: UserOperation): World {
    Commit(Burn(OpenBatch(w), USAGE.entry), CreationStarted(w.m.nextBatch, 0, op))
  }

  /** Where the factory acts first. */
  function Entered(w: World, op: UserOperation): World {
    var w1 := Enter(Started(w, op), op.verificationGasLimit);
    Note(w1, Observed(w1.st))
  }

  /** Where it returns, after an action that led to `done`. */
  function Returned(w: World, op: UserOperation, done: World): World {
    var used := Burn(Note(done, Observed(done.st)), DEPLOYMENT);
    World(done.st, Leave(Started(w, op), op.verificationGasLimit, Note(used, Observed(done.st)).m))
  }

  lemma EnteredIs(w: World, op: UserOperation)
    requires 20_000 <= w.m.gas && op.verificationGasLimit <= Forwarded(w.m.gas - 20_000)
    ensures var w' := Entered(w, op);
            && w'.m.gas == op.verificationGasLimit && w'.m.nextBatch == w.m.nextBatch + 1 && w'.st.code == w.st.code
            && w'.st.log == w.st.log + [HandlingStarted(w.m.nextBatch), CreationStarted(w.m.nextBatch, 0, op)]
  {
  }

  lemma ReturnedIs(w: World, op: UserOperation, done: World)
    requires 20_000 <= w.m.gas && op.verificationGasLimit <= Forwarded(w.m.gas - 20_000)
    requires DEPLOYMENT <= done.m.gas <= op.verificationGasLimit
    ensures var w' := Returned(w, op, done);
            && w'.m.gas == w.m.gas - 20_000 - (op.verificationGasLimit - (done.m.gas - DEPLOYMENT))
            && w'.m.nextBatch == done.m.nextBatch && w'.st == done.st
  {
  }

  lemma FactoryActs(blk: Block, w: World, a: Action, done: World)
    requires var o := Perform(blk, Note(w, Observed(w.st)), a); o.Done? && o.world == done
    ensures RunActions(blk, w, [a, UseGas(DEPLOYMENT)])
         == Note(Burn(Note(done, Observed(done.st)), DEPLOYMENT), Observed(done.st))
  {
    hide Perform;
    var w0, w1 := Note(w, Observed(w.st)), Note(done, Observed(done.st));
    assert [a, UseGas(DEPLOYMENT)][1..] == [UseGas(DEPLOYMENT)] && [UseGas(DEPLOYMENT)][1..] == [];
    assert RunAction(blk, w0, a) == done;
    UsesGas(blk, w1);
    assert RunActions(blk, Burn(w1, DEPLOYMENT), []) == Note(Burn(w1, DEPLOYMENT), Observed(done.st));
    assert RunActions(blk, done, [UseGas(DEPLOYMENT)]) == Note(Burn(w1, DEPLOYMENT), Observed(done.st));
  }

  lemma UsesGas(blk: Block, w: World)
    ensures RunAction(blk, w, UseGas(DEPLOYMENT)) == Burn(w, DEPLOYMENT)
  {
  }

  lemma FactoryRuns(blk: Block, w: World, s: OpScript, a: Action, done: World)
    requires s == Creating(s.op.verificationGasLimit, a) && ACCOUNT !in w.st.code
    requires var o := Perform(blk, Entered(w, s.op), a); o.Done? && o.world == done && ACCOUNT in done.st.code
    ensures CreateSenderIfNeeded(blk, Burn(OpenBatch(w), USAGE.entry), w.m.nextBatch, 0, s)
         == Done(Returned(w, s.op, done), ())
  {
    hide Perform, Apply, RunActions, Leave;
    var limit := s.op.verificationGasLimit;
    OpeningIs(w);
    FactoryActs(blk, Enter(Started(w, s.op), limit), a, done);
    assert RunReplyWithin(blk, Started(w, s.op), limit, s.factory.reply) == (Returned(w, s.op, done), true);
  }

  /** A creation after which the account is there, and the operation is handled. */
  lemma CreatedAndHandled(blk: Block, w: World, s: OpScript, a: Action, done: World)
    requires FreeOp(s.op) && s == Creating(s.op.verificationGasLimit, a) && ACCOUNT !in w.st.code
    requires var o := Perform(blk, Entered(w, s.op), a); o.Done? && o.world == done
    requires ACCOUNT in done.st.code && done.st.code[ACCOUNT] == Simple(Account(0, OWNER))
    requires 500_000 <= w.m.gas && s.op.verificationGasLimit <= Forwarded(w.m.gas - 20_000)
    requires 111_000 + (s.op.verificationGasLimit - done.m.gas) <= s.op.verificationGasLimit
    requires DEPLOYMENT <= done.m.gas <= s.op.verificationGasLimit
    requires var left := w.m.gas - 111_500 - (s.op.verificationGasLimit - done.m.gas);
             33_000 <= left && 55_000 + s.op.verificationGasLimit <= Forwarded(left - 3_000)
    ensures var o := Perform(blk, w, Single(s));
            && o.Done? && o.world.m.gas == w.m.gas - 145_500 - (s.op.verificationGasLimit - done.m.gas)
            && o.world.m.nextBatch == done.m.nextBatch && o.world.st.code == done.st.code
            && o.world.st.log == done.st.log + CommittedEvents(w.m.nextBatch, s.op)
  {
    hide Perform, AfterValidation, AfterBatch, Entered, Returned, Creating;
    CreatingIs(s.op.verificationGasLimit, a);
    FactoryRuns(blk, w, s, a, done);
    ReturnedIs(w, s.op, done);
    var w1 := Returned(w, s.op, done);
    AfterValidationIs(w1, w.m.nextBatch, s.op);
    var v := AfterValidation(w1, w.m.nextBatch, s.op);
    var w2 := Burn(v, USAGE.call);
    HandlesOne(blk, w, w1, w2, s);
    AfterBatchIs(w2, w.m.nextBatch, s.op);
  }

  lemma CreatingIs(limit: uint256, a: Action)
    ensures var s := Creating(limit, a);
            && s == Script(s.op, OWNER, s.factory, s.exec) && s.op == Op(0, INIT_CODE, [], limit) && IsCreating(s.op)
  {
  }

  lemma Deploys(blk: Block, w: World)
    requires ACCOUNT !in w.st.code
    ensures var o := Perform(blk, w, DEPLOY);
            && o.Done? && o.world.m == w.m && o.world.st.code == w.st.code[ACCOUNT := Simple(Account(0, OWNER))]
            && o.world.st.log == w.st.log + [Deployed(ACCOUNT, Simple(Account(0, OWNER)))]
  {
  }

  function Send(a: Action): Transaction {
    Transaction(BLOCK, 10_000_000, a)
  }

  function Funded(w: World): World {
    w.(m := w.m.(gas := 10_000_000))
  }

  /**
   * In one transaction two creating operations of one account are accepted: the factory of the first lets the entry
   * point create the account with the second.
   */
  lemma SenderCreatedTwice()
    ensures var log := Run(START, [Send(Single(Reentering()))]).st.log;
            && |log| == 15 && StartsWhileOpen(log, ACCOUNT, 1, 3)
            && Creates(log[5], ACCOUNT) && log[7].Accepted? && log[7].op == Deploying().op
            && Creates(log[10], ACCOUNT) && log[12].Accepted? && log[12].op == Reentering().op
  {
    hide Perform, Entered, Run;
    var w, outer, inner := Funded(START), Reentering(), Deploying();
    EnteredIs(w, outer.op);
    var w1 := Entered(w, outer.op);
    EnteredIs(w1, inner.op);
    Deploys(BLOCK, Entered(w1, inner.op));
    CreatedAndHandled(BLOCK, w1, inner, DEPLOY, Perform(BLOCK, Entered(w1, inner.op), DEPLOY).world);
    var done := Perform(BLOCK, w1, Single(inner)).world;
    CreatedAndHandled(BLOCK, w, outer, Single(inner), done);
    OneTransaction(START, Send(Single(outer)));
  }

  lemma OneTransaction(w: World, t: Transaction)
    ensures Run(w, [t]) == RunTransaction(w, t)
  {
    hide RunTransaction;
    assert [t][..0] == [];
    assert Run(w, []) == w;
  }

  // ---------- a nonce is burned ----------

  /** Calldata of `validateUserOp`: selector, place of the operation, a hash, no missing funds, the operation. */
  function ValidationCall(op: UserOperation): bytes
    requires op == Op(op.nonce, [], [], op.verificationGasLimit)
  {
    VALIDATE_USER_OP + Word(0x60) + Word(0) + Word(0) + EncodeTuple(op)
  }

  function Plain(nonce: uint256): OpScript {
    Script(Op(nonce, [], [], 200_000), OWNER, NO_FACTORY, NO_CALL)
  }

  /** An operation whose callData makes the account run its own `validateUserOp`, for nonce 1. */
  function Burning(): OpScript {
    Script(Op(0, [], ValidationCall(Plain(1).op), 200_000), OWNER, NO_FACTORY,
           ExecReply(Reply([], true), Some(SelfCall(1, false, Some(OWNER), 0, false))))
  }

  lemma BurningIs()
    ensures var s := Burning();
            && s == Script(s.op, OWNER, s.factory, s.exec) && FreeOp(s.op) && !IsCreating(s.op)
            && s.op.callData != [] && s.op.nonce == 0 && s.op.sender == ACCOUNT
  {
    hide ValidationCall;
    BurningSelects();
  }

  lemma BurningSelects()
    ensures SelectsValidateUserOp(Burning().op.callData) && Burning().op.callData != []
  {
    hide EncodeTuple, Word;
  }

  /** The call makes the account validate itself. */
  lemma BurningCalls(w: World)
    requires ACCOUNT in w.st.code && w.st.code[ACCOUNT] == Simple(Account(1, OWNER))
    ensures var w' := Commit(w, Revalidated(Burning().op, 1, false));
            && CallAccount(BLOCK, w, Burning()) == (w', true)
            && ACCOUNT in w'.st.code && w'.st.code[ACCOUNT] == Simple(Account(2, OWNER)) && w'.m == w.m
            && w'.st.log == w.st.log + [Revalidated(Burning().op, 1, false)]
  {
    hide ValidationCall, RunReplyWithin;
    BurningSelects();
  }

  lemma BurningHandled(w: World)
    requires ACCOUNT in w.st.code && w.st.code[ACCOUNT] == Simple(Account(0, OWNER)) && w.m.gas == 10_000_000
    ensures var o := Perform(BLOCK, w, Single(Burning()));
            var b, op := w.m.nextBatch, Burning().op;
            && o.Done? && o.world.m.nextBatch == w.m.nextBatch + 1
            && ACCOUNT in o.world.st.code && o.world.st.code[ACCOUNT] == Simple(Account(2, OWNER))
            && o.world.st.log == w.st.log + [HandlingStarted(b)] + CommittedEvents(b, op)[..3]
               + [Revalidated(op, 1, false)]
                                 + CommittedEvents(b, op)[3..]
  {
    hide Perform, AfterValidation, AfterBatch, Burning, CallAccount, Apply;
    BurningIs();
    OpeningIs(w);
    var s, batch, w0 := Burning(), w.m.nextBatch, OpenBatch(w);
    var w1 := Burn(w0, USAGE.entry);
    NoCreation(BLOCK, w1, batch, 0, s);
    var v := AfterValidation(w1, batch, s.op);
    AfterValidationIs(w1, batch, s.op);
    var called := Note(Burn(v, USAGE.call), Called(batch, 0, ACCOUNT, s.op.callData));
    var burned := Commit(called, Revalidated(s.op, 1, false));
    BurningCalls(called);
    HandlesOne(BLOCK, w, w1, burned, s);
    AfterBatchIs(burned, batch, s.op);
  }

  lemma PlainHandled(w: World, nonce: uint256)
    requires nonce < MAX_NONCE && ACCOUNT in w.st.code && w.st.code[ACCOUNT] == Simple(Account(nonce, OWNER))
    requires w.m.gas == 10_000_000
    ensures var o := Perform(BLOCK, w, Single(Plain(nonce)));
            o.Done? && o.world.st.log
                       == w.st.log + [HandlingStarted(w.m.nextBatch)] + CommittedEvents(w.m.nextBatch, Plain(nonce).op)
  {
    hide Perform, AfterValidation, AfterBatch;
    var s, batch, w0 := Plain(nonce), w.m.nextBatch, OpenBatch(w);
    var w1 := Burn(w0, USAGE.entry);
    NoCreation(BLOCK, w1, batch, 0, s);
    var v := AfterValidation(w1, batch, s.op);
    AfterValidationIs(w1, batch, s.op);
    HandlesOne(BLOCK, w, w1, Burn(v, USAGE.call), s);
    AfterBatchIs(Burn(v, USAGE.call), batch, s.op);
  }

  lemma LastTransaction(w: World, ts: seq<Transaction>, t: Transaction)
    ensures Run(w, ts + [t]) == RunTransaction(Run(w, ts), t)
  {
    hide RunTransaction;
    assert (ts + [t])[..|ts|] == ts;
  }

  /** The account is deployed by its owner, in a transaction of its own. */
  lemma AccountDeployed()
    ensures var w := Run(START, [Send(DEPLOY)]);
            && w.st.log == [Deployed(ACCOUNT, Simple(Account(0, OWNER)))]
            && w.st.code == map[ACCOUNT := Simple(Account(0, OWNER))]
  {
    hide Perform, Run;
    OneTransaction(START, Send(DEPLOY));
    Deploys(BLOCK, Funded(START));
  }

  /**
   * The entry point validates nonce 0 and then nonce 2: the first operation made the account validate nonce 1
   * in between.
   */
  lemma ValidatedNoncesSkipOne()
    ensures var log := Run(START, [Send(DEPLOY), Send(Single(Burning())), Send(Single(Plain(2)))]).st.log;
            && |log| == 14 && ValidatesNonce(log[2], ACCOUNT) && log[2].op.nonce == 0
            && BurnsNonce(log[5], ACCOUNT)
            && ValidatesNonce(log[9], ACCOUNT) && log[9].op.nonce == 2
  {
    hide Perform, Run, ValidationCall;
    var t1, t2, t3 := Send(DEPLOY), Send(Single(Burning())), Send(Single(Plain(2)));
    AccountDeployed();
    var w1 := Run(START, [t1]);
    LastTransaction(START, [t1], t2);
    BurningHandled(Funded(w1));
    var w2 := Run(START, [t1] + [t2]);
    LastTransaction(START, [t1] + [t2], t3);
    PlainHandled(Funded(w2), 2);
    assert [t1] + [t2] + [t3] == [t1, t2, t3];
  }

  // ---------- a failure names the wrong operation ----------

  /** An operation with nonce 1 that a stranger signed. */
  function Forged(): OpScript {
    Script(Op(1, [], [], 200_000), STRANGER, NO_FACTORY, NO_CALL)
  }

  function TwoGroups(): seq<Group> {
    [Group([Plain(0)], ZERO_ADDRESS, true), Group([Forged()], ZERO_ADDRESS, true)]
  }

  const BAD_SIGNATURE := "AA24 signature error"

  lemma ForgedStops(w: World, batch: nat)
    requires ACCOUNT in w.st.code && w.st.code[ACCOUNT] == Simple(Account(0, OWNER)) && w.m.gas == 10_000_000
    ensures GroupsStopAt(BLOCK, w, batch, TwoGroups(), 1, 0) && FlatPosition(TwoGroups(), 1, 0) == 1
    ensures CheckFails(BLOCK, StopWorld(BLOCK, w, batch, TwoGroups(), 1, 0), batch, 1, ZERO_ADDRESS, Forged(),
                       BAD_SIGNATURE)
  {
    hide ValidatePrepayment, AfterValidation, Prepaid, ValidateOps;
    var groups, s := TwoGroups(), Plain(0);
    var w1 := Burn(w, USAGE.entry);
    NoCreation(BLOCK, w1, batch, 0, s);
    var preOpGas := Validates(BLOCK, w, w1, batch, s);
    var v := AfterValidation(w1, batch, s.op);
    AfterValidationIs(w1, batch, s.op);
    FirstGroup(w, batch, v, [InfoFrom(s.op, preOpGas)]);
    var w2 := Burn(v, USAGE.entry);
    NoCreation(BLOCK, w2, batch, 1, Forged());
    var more := Prepays(BLOCK, v, w2, batch, 1, Forged(), STRANGER);
    NothingValidated(v, batch, 1);
    assert groups[1].ops[..0] == [];
    assert CheckValidationData(BLOCK.timestamp, SIG_VALIDATION_FAILED, 0, ZERO_ADDRESS) == Some(BAD_SIGNATURE);
  }

  lemma FirstGroup(w: World, batch: nat, v: World, infos: seq<UserOpInfo>)
    requires ValidateOps(BLOCK, w, batch, 0, 0, ZERO_ADDRESS, [Plain(0)]) == Done(v, infos)
    ensures ValidateGroups(BLOCK, w, batch, 0, TwoGroups()[..1]) == Done(v, infos)
            && Flatten(TwoGroups()[..1]) == [Plain(0)]
  {
    hide ValidateOps;
    var g := TwoGroups()[0];
    assert TwoGroups()[..1] == [g] && [g][1..] == [];
    assert g.ops + [] == g.ops && infos + [] == infos;
    assert ValidateGroups(BLOCK, v, batch, 1, []) == Done(v, []);
  }

  lemma NothingValidated(w: World, batch: nat, index: nat)
    ensures ValidateOps(BLOCK, w, batch, index, 0, ZERO_ADDRESS, []) == Done(w, [])
  {
  }

  /** The second operation of a batch of two groups is refused, and the failure names the first. */
  lemma WrongOperationNamed()
    ensures var w := Funded(Run(START, [Send(DEPLOY)]));
            var o := PerformHandleAggregatedOps(BLOCK, w, HandleAggregatedOps(TwoGroups(), PAYEE, Reply([], true)));
            && GroupsStopAt(BLOCK, OpenBatch(w), w.m.nextBatch, TwoGroups(), 1, 0)
            && FlatPosition(TwoGroups(), 1, 0) == 1
            && o.Reverted? && o.error == FailedOp(0, BAD_SIGNATURE)
  {
    hide Run, Forged, Plain, ValidateGroups, ExecuteGroups, Compensate, CheckAggregators, OpenBatch, CheckFails,
         StopsIn;
    AccountDeployed();
    var w := Funded(Run(START, [Send(DEPLOY)]));
    var batch, w0 := w.m.nextBatch, OpenBatch(w);
    OpeningIs(w);
    ForgedStops(w0, batch);
    GroupLocalIndexReported(BLOCK, w0, batch, TwoGroups(), 1, 0, BAD_SIGNATURE);
    assert NoAggregator(TwoGroups());
    NothingToCheck(w.st, TwoGroups());
  }

  // ---------- a paymaster that fails silently ----------

  /** An operation without a call, whose paymaster fails in `postOp` without any data. */
  function Unpaid(): OpScript {
    Script(Op(0, [], [], 200_000).(paymasterAndData := BigEndian(PAYMASTER, 20)), OWNER, NO_FACTORY, NO_CALL)
      .(paymaster := PaymasterReply([], Ok(Approval([1], 0))), post := PostReply([], Some(Raw([]))))
  }

  const MEMORY_OP := MemoryUserOp(ACCOUNT, 0, 50_000, 200_000, 21_000, PAYMASTER, 0, 0)

  lemma UnpaidIs()
    ensures CopyUserOpToMemory(Unpaid().op) == Ok(MEMORY_OP) && GasValues(Unpaid().op) < TWO_120
    ensures RequiredPrefund(MEMORY_OP) == 0
  {
    hide GasValues, BigEndian;
    Pow2Values(160);
    NatOfBigEndian(PAYMASTER, 20);
    var data := BigEndian(PAYMASTER, 20);
    assert data[..20] == data;
    GasCheckIff(Unpaid().op);
    RequiredGasIsIdeal(MEMORY_OP);
    assert IdealGas(MEMORY_OP) * 0 == 0;
  }

  lemma IdleCall(blk: Block, w: World, limit: nat)
    ensures RunWithin(blk, w, limit, []) == Note(w, Observed(w.st))
  {
  }

  predicate BothDeployed(w: World) {
    && ACCOUNT in w.st.code && w.st.code[ACCOUNT] == Simple(Account(0, OWNER))
    && PAYMASTER in w.st.code && w.m.gas == 10_000_000
  }

  lemma UnpaidAccount(w: World, batch: nat)
    requires ACCOUNT in w.st.code && w.st.code[ACCOUNT] == Simple(Account(0, OWNER)) && w.m.gas >= 40_000
    ensures var o := ValidateAccountPrepayment(BLOCK, w, batch, 0, Unpaid(), MEMORY_OP, 0);
            && o.Done? && o.value == (30_000, 0) && o.world.m.gas == w.m.gas - 30_000
            && (PAYMASTER in w.st.code ==> PAYMASTER in o.world.st.code)
  {
    hide BigEndian;
    NoCreation(BLOCK, w, batch, 0, Unpaid());
  }

  /** The account and the paymaster agree. */
  lemma UnpaidValidates(w: World, batch: nat) returns (v: World, info: UserOpInfo)
    requires BothDeployed(w)
    ensures ValidateOps(BLOCK, w, batch, 0, 0, ZERO_ADDRESS, [Unpaid()]) == Done(v, [info])
    ensures info.mUserOp == MEMORY_OP && info.context == [1] && v.m.gas >= 9_000_000
  {
    hide GasValues, RequiredPrefund, ValidateAccountPrepayment, RunWithin, BigEndian, Apply;
    var s := Unpaid();
    UnpaidIs();
    var w0 := Burn(w, USAGE.entry);
    UnpaidAccount(w0, batch);
    var w1 := ValidateAccountPrepayment(BLOCK, w0, batch, 0, s, MEMORY_OP, 0).world;
    var asked := Commit(w1, PrefundTaken(batch, 0, PAYMASTER, 0));
    IdleCall(BLOCK, asked, 170_000);
    var o2 := ValidatePaymasterPrepayment(BLOCK, w1, batch, 0, s, MEMORY_OP, 0, 30_000);
    assert o2.Done? && o2.value == Approval([1], 0) && o2.world.m.gas == w1.m.gas - 1_000;
    hide ValidatePaymasterPrepayment;
    var o := ValidatePrepayment(BLOCK, w, batch, 0, s);
    assert o.Done? && o.value.word == 0 && o.value.pmWord == 0;
    info := o.value.info;
    v := Note(Commit(o.world, Accepted(batch, 0, s.op, 0, ZERO_ADDRESS)), Validated(batch, 0, s.op));
    assert ValidateOp(BLOCK, w, batch, 0, 0, ZERO_ADDRESS, s) == Done(v, info);
    assert [s][1..] == [] && [info] + [] == [info];
  }

  /** No second `postOp`: the batch fails without a reason. */
  lemma UnpaidAborts(v: World, batch: nat, info: UserOpInfo)
    requires info.mUserOp == MEMORY_OP && info.context == [1] && v.m.gas >= 9_000_000
    ensures var o := ExecuteOps(BLOCK, v, batch, 0, [Unpaid()], [info], 0); o.Reverted? && o.error == Raw([])
  {
    hide ExecuteUserOp, BigEndian;
    Effects.PostOpRetriedIff(BLOCK, v, batch, 0, Unpaid(), info);
  }

  /**
   * The only operation of a batch passes validation and makes no call, and its paymaster fails in `postOp` without
   * data: the whole batch fails, and `postOp` is not called again.
   */
  lemma SilentPostOpAborts()
    ensures var w := Funded(Run(START, [Send(DEPLOY), Send(Deploy(PAYMASTER, Other))]));
            var o := Perform(BLOCK, w, Single(Unpaid()));
            && ValidateOps(BLOCK, OpenBatch(w), w.m.nextBatch, 0, 0, ZERO_ADDRESS, [Unpaid()]).Done?
            && o.Reverted? && o.error == Raw([])
  {
    hide Run, ValidateOps, ExecuteOps, Unpaid, OpenBatch;
    AccountDeployed();
    PaymasterDeployed();
    var w := Funded(Run(START, [Send(DEPLOY), Send(Deploy(PAYMASTER, Other))]));
    OpeningIs(w);
    var v, info := UnpaidValidates(OpenBatch(w), w.m.nextBatch);
    UnpaidAborts(v, w.m.nextBatch, info);
    assert Perform(BLOCK, w, Single(Unpaid())) == PerformHandleOps(BLOCK, w, Single(Unpaid()));
  }

  lemma PaymasterDeployed()
    ensures BothDeployed(Funded(Run(START, [Send(DEPLOY), Send(Deploy(PAYMASTER, Other))])))
  {
    hide Run, Perform;
    AccountDeployed();
    var w := Run(START, [Send(DEPLOY)]);
    LastTransaction(START, [Send(DEPLOY)], Send(Deploy(PAYMASTER, Other)));
    DeploysPaymaster(Funded(w));
    assert [Send(DEPLOY)] + [Send(Deploy(PAYMASTER, Other))] == [Send(DEPLOY), Send(Deploy(PAYMASTER, Other))];
  }

  lemma DeploysPaymaster(w: World)
    requires PAYMASTER !in w.st.code
    ensures var o := Perform(BLOCK, w, Deploy(PAYMASTER, Other));
            o.Done? && o.world.m == w.m && o.world.st.code == w.st.code[PAYMASTER := Other]
  {
  }

  // ---------- a stake is withdrawn at once ----------

  /** When timestamps do not fit 48 bits any more. */
  const LATE := Block(TWO_48, 7)

  const DAY_OF_SECONDS: uint32 := 86_400

  function SendLate(a: Action): Transaction {
    Transaction(LATE, 10_000_000, a)
  }

  function StakeInfo(stake: uint112, staked: bool, delay: uint32, withdrawTime: uint48): DepositInfo {
    DepositInfo(0, staked, stake, delay, withdrawTime)
  }

  lemma Stakes(w: World)
    requires Info(w.st, ACCOUNT) == NO_DEPOSIT && w.st.balance == 0
    ensures var w' := RunAction(LATE, w, AddStake(ACCOUNT, DAY_OF_SECONDS, 1));
            && w'.st.log == w.st.log + [StakeAdded(ACCOUNT, DAY_OF_SECONDS, 1)] && w'.st.balance == 1
            && Info(w'.st, ACCOUNT) == StakeInfo(1, true, DAY_OF_SECONDS, 0)
  {
  }

  lemma Unlocks(w: World)
    requires Info(w.st, ACCOUNT) == StakeInfo(1, true, DAY_OF_SECONDS, 0) && w.st.balance == 1
    ensures var w' := RunAction(LATE, w, UnlockStake(ACCOUNT));
            && w'.st.log == w.st.log + [StakeUnlocked(ACCOUNT, TWO_48)] && w'.st.balance == 1
            && Info(w'.st, ACCOUNT) == StakeInfo(1, false, DAY_OF_SECONDS, DAY_OF_SECONDS)
  {
  }

  lemma Withdraws(w: World)
    requires Info(w.st, ACCOUNT) == StakeInfo(1, false, DAY_OF_SECONDS, DAY_OF_SECONDS) && w.st.balance == 1
    ensures WithdrawStakeError(LATE, Info(w.st, ACCOUNT)) == None
    ensures RunAction(LATE, w, WithdrawStake(ACCOUNT, Reply([], true))).st.log
         == w.st.log + [StakeWithdrawn(ACCOUNT, 1, TWO_48)]
  {
    assert RunActions(LATE, w, []) == Note(w, Observed(w.st));
  }

  /** At timestamp 2^48 a stake with a delay of a day is unlocked and withdrawn in the same block. */
  lemma StakeWithdrawnAtOnce()
    ensures var st := Run(START, [SendLate(AddStake(ACCOUNT, DAY_OF_SECONDS, 1)), SendLate(UnlockStake(ACCOUNT))]).st;
            && Info(st, ACCOUNT).stake == 1 && Info(st, ACCOUNT).unstakeDelaySec == DAY_OF_SECONDS
            && WithdrawStakeError(LATE, Info(st, ACCOUNT)) == None
    ensures Run(START, [SendLate(AddStake(ACCOUNT, DAY_OF_SECONDS, 1)), SendLate(UnlockStake(ACCOUNT)),
                        SendLate(WithdrawStake(ACCOUNT, Reply([], true)))]).st.log
         == [StakeAdded(ACCOUNT, DAY_OF_SECONDS, 1), StakeUnlocked(ACCOUNT, TWO_48), StakeWithdrawn(ACCOUNT, 1, TWO_48)]
  {
    hide RunAction, Run;
    var t1, t2 := SendLate(AddStake(ACCOUNT, DAY_OF_SECONDS, 1)), SendLate(UnlockStake(ACCOUNT));
    var t3 := SendLate(WithdrawStake(ACCOUNT, Reply([], true)));
    OneTransaction(START, t1);
    Stakes(Funded(START));
    LastTransaction(START, [t1], t2);
    Unlocks(Funded(Run(START, [t1])));
    LastTransaction(START, [t1] + [t2], t3);
    Withdraws(Funded(Run(START, [t1] + [t2])));
    assert [t1] + [t2] == [t1, t2] && [t1] + [t2] + [t3] == [t1, t2, t3];
  }
}
