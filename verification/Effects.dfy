/**
 * What each step of the entry point does, read off its inputs: when it succeeds, whose record it changes and by how
 * much, and what the outside world is given.
 */
module Effects {
  import opened Evm
  import opened UserOperations
  import opened Validation
  import opened SimpleAccounts
  import opened Ledger
  import opened Protocol

  /** No record but that of `a` changes, and no code. */
  ghost predicate OnlyRecordOf(a: Address, st: State, st': State) {
    (forall b :: b != a ==> Info(st', b) == Info(st, b)) && st'.code == st.code
  }

  ghost predicate SameRecords(st: State, st': State) {
    forall b :: Info(st', b) == Info(st, b)
  }

  /** The deposit of `a` moves by `change`, and nothing else of any record does. */
  ghost predicate DepositMoves(a: Address, change: int, st: State, st': State) {
    && OnlyRecordOf(a, st, st')
    && Info(st', a).deposit == Info(st, a).deposit + change
    && Info(st', a) == Info(st, a).(deposit := Info(st', a).deposit)
  }

  ghost predicate Adds(w: World, w': World, events: seq<Event>) {
    w'.st.log == w.st.log + events
  }

  /** The prefund leaves a deposit, and nothing else. */
  lemma PrefundEffect(w: World, batch: nat, index: nat, payer: Address, amount: uint256)
    requires amount <= Info(w.st, payer).deposit
    ensures var w' := Commit(w, PrefundTaken(batch, index, payer, amount));
            && DepositMoves(payer, -(amount as int), w.st, w'.st)
            && w'.st.balance == w.st.balance && w'.m == w.m && Adds(w, w', [PrefundTaken(batch, index, payer, amount)])
  {
  }

  lemma RefundEffect(w: World, batch: nat, index: nat, info: UserOpInfo, cost: uint256, mode: PostOpMode)
    requires cost <= info.prefund && Info(w.st, Payer(info.mUserOp)).deposit + (info.prefund - cost) < TWO_112
    ensures var w' := Commit(w, SettlementOf(batch, index, info, cost, mode));
            && DepositMoves(Payer(info.mUserOp), info.prefund - cost, w.st, w'.st)
            && w'.st.balance == w.st.balance && w'.m == w.m
            && Adds(w, w', [SettlementOf(batch, index, info, cost, mode)])
  {
  }

  // ---------- StakeManager ----------

  /** `depositTo` credits the account it names, whoever calls, exactly if the deposit and the balance can hold it. */
  lemma DepositToEffect(blk: Block, w: World, sender: Address, account: Address, value: uint256)
    ensures var o := Perform(blk, w, DepositTo(sender, account, value));
            && (o.Done? <==> Info(w.st, account).deposit + value < TWO_112 && w.st.balance + value < TWO_256)
            && (o.Done? ==>
                  && DepositMoves(account, value, w.st, o.world.st)
                  && o.world.st.balance == w.st.balance + value && o.world.m == w.m
                  && Adds(w, o.world, [Deposited(account, value)]))
  {
  }

  /** The stake that is added belongs to the caller; the delay never shrinks and the stake is locked again. */
  lemma AddStakeEffect(blk: Block, w: World, sender: Address, delay: uint32, value: uint256)
    ensures var o, info := Perform(blk, w, AddStake(sender, delay, value)), Info(w.st, sender);
            && (o.Done? <==>
                  && 0 < delay && info.unstakeDelaySec <= delay && 0 < info.stake + value < TWO_112
                  && w.st.balance + value < TWO_256)
            && (o.Done? ==>
                  && OnlyRecordOf(sender, w.st, o.world.st)
                  && (var info' := Info(o.world.st, sender);
                      && info'.stake == info.stake + value && info'.deposit == info.deposit
                      && info'.staked && info'.unstakeDelaySec == delay && info'.withdrawTime == 0)
                  && o.world.st.balance == w.st.balance + value && o.world.m == w.m)
  {
  }

  lemma UnlockStakeEffect(blk: Block, w: World, sender: Address)
    ensures var o, info := Perform(blk, w, UnlockStake(sender)), Info(w.st, sender);
            && (o.Done? <==>
                  0 < info.unstakeDelaySec && info.staked && blk.timestamp % TWO_48 + info.unstakeDelaySec < TWO_48)
            && (o.Done? ==>
                  && OnlyRecordOf(sender, w.st, o.world.st)
                  && (var info' := Info(o.world.st, sender);
                      && info'.stake == info.stake && info'.deposit == info.deposit
                      && !info'.staked && info'.unstakeDelaySec == info.unstakeDelaySec
                      && info'.withdrawTime == blk.timestamp % TWO_48 + info.unstakeDelaySec)
                  && o.world.st.balance == w.st.balance && o.world.m == w.m)
  {
  }

  /** The recipient is called when the stake is gone from the record and from the balance. */
  lemma WithdrawStakeEffect(blk: Block, w: World, sender: Address, recipient: Reply) returns (paid: World)
    ensures var o, info := Perform(blk, w, WithdrawStake(sender, recipient)), Info(w.st, sender);
            && (o.Done? <==>
                  0 < info.stake <= w.st.balance && 0 < info.withdrawTime <= blk.timestamp && recipient.ok)
            && (o.Done? ==>
                  && OnlyRecordOf(sender, w.st, paid.st)
                  && (var info' := Info(paid.st, sender);
                      && info'.stake == 0 && info'.unstakeDelaySec == 0 && info'.withdrawTime == 0
                      && info'.deposit == info.deposit && info'.staked == info.staked)
                  && paid.st.balance == w.st.balance - info.stake && paid.m == w.m
                  && o.world == RunActions(blk, paid, recipient.actions))
  {
    hide RunActions;
    var info := Info(w.st, sender);
    ReplyIs(blk, Commit(w, StakeWithdrawn(sender, info.stake, blk.timestamp)), recipient);
    assert Perform(blk, w, WithdrawStake(sender, recipient))
           == PerformWithdrawStake(blk, w, WithdrawStake(sender, recipient));
    paid := if info.stake <= w.st.balance then Commit(w, StakeWithdrawn(sender, info.stake, blk.timestamp)) else w;
  }

  /** The recipient is called when the amount is gone from the caller's deposit and from the balance. */
  lemma WithdrawToEffect(blk: Block, w: World, sender: Address, amount: uint256, recipient: Reply)
    returns (paid: World)
    ensures var o := Perform(blk, w, WithdrawTo(sender, amount, recipient));
            && (o.Done? <==> amount <= Info(w.st, sender).deposit && amount <= w.st.balance && recipient.ok)
            && (o.Done? ==>
                  && DepositMoves(sender, -(amount as int), w.st, paid.st)
                  && paid.st.balance == w.st.balance - amount && paid.m == w.m
                  && o.world == RunActions(blk, paid, recipient.actions))
  {
    hide RunActions;
    paid := if amount <= w.st.balance then Commit(w, Withdrawn(sender, amount)) else w;
    ReplyIs(blk, paid, recipient);
    assert Perform(blk, w, WithdrawTo(sender, amount, recipient))
           == PerformWithdrawTo(blk, w, WithdrawTo(sender, amount, recipient));
  }

  /** The reasons StakeManager gives, in the order it checks. */
  lemma StakeFailure(blk: Block, w: World, sender: Address, delay: uint32, value: uint256)
    requires w.st.balance + value < TWO_256
    ensures var o, info := Perform(blk, w, AddStake(sender, delay, value)), Info(w.st, sender);
            o.Reverted? ==>
              && o.m == w.m
              && (o.error == ErrorString("must specify unstake delay") <==> delay == 0)
              && (o.error == ErrorString("cannot decrease unstake time") <==> 0 < delay < info.unstakeDelaySec)
              && (o.error == ErrorString("no stake specified") <==>
                    0 < delay && info.unstakeDelaySec <= delay && info.stake + value == 0)
              && (o.error == ErrorString("stake overflow") <==>
                    0 < delay && info.unstakeDelaySec <= delay && info.stake + value >= TWO_112)
    ensures var o, info := Perform(blk, w, UnlockStake(sender)), Info(w.st, sender);
            o.Reverted? ==>
              && o.m == w.m
              && (o.error == ErrorString("not staked") <==> info.unstakeDelaySec == 0)
              && (o.error == ErrorString("already unstaking") <==> info.unstakeDelaySec != 0 && !info.staked)
  {
  }

  lemma WithdrawalFailure(blk: Block, w: World, sender: Address, amount: uint256, recipient: Reply)
    ensures var o, info := Perform(blk, w, WithdrawStake(sender, recipient)), Info(w.st, sender);
            o.Reverted? ==>
              && (o.error == ErrorString("No stake to withdraw") <==> info.stake == 0)
              && (o.error == ErrorString("must call unlockStake() first")
                  <==> info.stake != 0 && info.withdrawTime == 0)
              && (o.error == ErrorString("Stake withdrawal is not due") <==>
                    info.stake != 0 && info.withdrawTime > blk.timestamp)
    ensures var o, info := Perform(blk, w, WithdrawTo(sender, amount, recipient)), Info(w.st, sender);
            o.Reverted? ==>
              && (o.error == ErrorString("Withdraw amount too large") <==> amount > info.deposit)
              && (o.error == ErrorString("failed to withdraw") <==> amount <= info.deposit)
    ensures var o := Perform(blk, w, DepositTo(sender, sender, amount));
            o.Reverted? ==>
              o.m == w.m && (o.error == ErrorString("deposit overflow") <==> w.st.balance + amount < TWO_256)
  {
    hide RunActions, Apply;
    assert Perform(blk, w, WithdrawTo(sender, amount, recipient))
        == PerformWithdrawTo(blk, w, WithdrawTo(sender, amount, recipient));
    assert Perform(blk, w, WithdrawStake(sender, recipient))
        == PerformWithdrawStake(blk, w, WithdrawStake(sender, recipient));
  }

  /** New code appears only where there is none; a SimpleAccount starts with nonce 0. */
  lemma DeployEffect(blk: Block, w: World, address: Address, code: Code)
    ensures var o := Perform(blk, w, Deploy(address, code));
            && (o.Done? <==> address !in w.st.code && (code.Simple? ==> code.account.nonce == 0))
            && (o.Done? ==>
                  && SameRecords(w.st, o.world.st) && o.world.st.balance == w.st.balance && o.world.m == w.m
                  && address in o.world.st.code && o.world.st.code[address] == code
                  && forall b :: b != address ==>
                       && (b in o.world.st.code <==> b in w.st.code)
                       && (b in w.st.code ==> o.world.st.code[b] == w.st.code[b]))
  {
  }

  // ---------- calls ----------

  /** The outside world acts in order, and what it sees before each action and after the last is on record. */
  lemma ActionsInOrder(blk: Block, w: World, a: Action, rest: seq<Action>)
    ensures var seen := Note(w, Observed(w.st));
            && RunActions(blk, w, []) == seen
            && RunActions(blk, w, [a] + rest) == RunActions(blk, RunAction(blk, seen, a), rest)
  {
    hide RunAction;
    assert ([a] + rest)[1..] == rest;
  }

  /** A call that fails leaves no state; a frame that fails undoes its actions, and only those. */
  lemma FailureIsUndone(blk: Block, w: World, a: Action, body: Reply)
    ensures Perform(blk, w, a).Reverted? ==> RunAction(blk, w, a) == World(w.st, Perform(blk, w, a).m)
    ensures var done := RunActions(blk, w, body.actions);
            RunAction(blk, w, Frame(body)) == World(if body.ok then done.st else w.st, done.m)
    ensures Perform(blk, w, InnerHandleOp).Reverted?
  {
    hide RunActions;
    ReplyIs(blk, w, body);
    assert Perform(blk, w, Frame(body)) == Done(RunReply(blk, w, body).0, ());
  }

  lemma ReplyIs(blk: Block, w: World, r: Reply)
    ensures var done := RunActions(blk, w, r.actions);
            RunReply(blk, w, r) == (World(if r.ok then done.st else w.st, done.m), r.ok)
  {
    hide RunActions;
  }

  lemma ReplyWithinIs(blk: Block, w: World, limit: nat, r: Reply)
    ensures var (w', ok) := RunReplyWithin(blk, w, limit, r);
            && ok == r.ok && (ok ==> w' == RunWithin(blk, w, limit, r.actions)) && (!ok ==> w'.st == w.st)
            && w.m.gas - limit <= w'.m.gas <= w.m.gas
  {
    hide RunActions;
    ReplyIs(blk, Enter(w, limit), r);
  }

  /**
   * Of the gas at hand a call gets all but one 64th, and at most its limit. It pays what its actions used, and cannot
   * pay more than it got.
   */
  lemma CallGas(blk: Block, w: World, limit: nat, actions: seq<Action>)
    ensures var given, after := Enter(w, limit).m.gas, RunActions(blk, Enter(w, limit), actions);
            && given <= limit && 64 * (w.m.gas - given) >= w.m.gas - 63
            && (given == limit || 64 * (w.m.gas - given) <= w.m.gas)
            && w.m.gas - given <= RunWithin(blk, w, limit, actions).m.gas <= w.m.gas
            && (after.m.gas <= given ==>
                  w.m.gas - RunWithin(blk, w, limit, actions).m.gas == given - after.m.gas)
            && RunWithin(blk, w, limit, actions).st == after.st
  {
    hide RunActions;
  }

  // ---------- creation of the sender ----------

  /** The world the factory leaves, when it is called. */
  function FactoryWorld(blk: Block, w: World, batch: nat, index: nat, s: OpScript): World {
    RunReplyWithin(blk, Commit(w, CreationStarted(batch, index, s.op)), s.op.verificationGasLimit, s.factory.reply).0
  }

  /**
   * The sender is created exactly when it is not there yet and the factory, named by 20 bytes, does not fail, leaves
   * code at the sender's address and returns that address.
   */
  lemma CreationIff(blk: Block, w: World, batch: nat, index: nat, s: OpScript)
    ensures var o, sender := CreateSenderIfNeeded(blk, w, batch, index, s), s.op.sender;
            && (!IsCreating(s.op) ==> o.Done? && o.world == w)
            && (IsCreating(s.op) ==>
                  && (o.Done? <==>
                        && sender !in w.st.code && |s.op.initCode| >= 20 && s.factory.reply.ok
                        && s.factory.returned == sender != ZERO_ADDRESS
                        && sender in FactoryWorld(blk, w, batch, index, s).st.code)
                  && (o.Done? ==> o.world == FactoryWorld(blk, w, batch, index, s)
                                  && w.m.gas - o.world.m.gas <= s.op.verificationGasLimit))
  {
    hide RunReplyWithin, Apply;
    ReplyWithinIs(blk, Commit(w, CreationStarted(batch, index, s.op)), s.op.verificationGasLimit, s.factory.reply);
  }

  /** Why a creation failed. */
  lemma CreationFailure(blk: Block, w: World, batch: nat, index: nat, s: OpScript)
    requires IsCreating(s.op) && |s.op.initCode| >= 20 && CreateSenderIfNeeded(blk, w, batch, index, s).Reverted?
    ensures var e, sender := CreateSenderIfNeeded(blk, w, batch, index, s).error, s.op.sender;
            && (e == FailedOp(index, "AA10 sender already constructed") <==> sender in w.st.code)
            && (e == FailedOp(index, "AA13 initCode failed or OOG") <==>
                  sender !in w.st.code && (!s.factory.reply.ok || s.factory.returned == ZERO_ADDRESS))
            && (e == FailedOp(index, "AA14 initCode must return sender") <==>
                  sender !in w.st.code && s.factory.reply.ok && s.factory.returned != ZERO_ADDRESS
                  && s.factory.returned != sender)
            && (e == FailedOp(index, "AA15 initCode must create sender") <==>
                  && sender !in w.st.code && s.factory.reply.ok && s.factory.returned == sender != ZERO_ADDRESS
                  && sender !in FactoryWorld(blk, w, batch, index, s).st.code)
  {
    hide RunReplyWithin, Apply;
    ReplyWithinIs(blk, Commit(w, CreationStarted(batch, index, s.op)), s.op.verificationGasLimit, s.factory.reply);
  }

  // ---------- validation of the account ----------

  /** The operation passes the checks that make a SimpleAccount revert. */
  predicate Passes(account: Account, op: UserOperation, signer: Option<Address>) {
    signer.Some? && (IsCreating(op) || account.nonce == op.nonce < MAX_NONCE)
  }

  /** What the account is asked to pay brings its deposit to the prefund, if it is not there; never with a paymaster. */
  lemma AskedFor(w: World, mop: MemoryUserOp, required: uint256)
    ensures var deposit, asked := Info(w.st, mop.sender).deposit, MissingFunds(w, mop, required);
            && (mop.paymaster != ZERO_ADDRESS ==> asked == 0)
            && (mop.paymaster == ZERO_ADDRESS && deposit <= required ==> deposit + asked == required)
            && (deposit >= required ==> asked == 0)
  {
  }

  /** A SimpleAccount, and where validation goes on after it. */
  ghost predicate SimpleSender(blk: Block, w: World, batch: nat, index: nat, s: OpScript, mop: MemoryUserOp,
                               w1: World) {
    && CreateSenderIfNeeded(blk, w, batch, index, s).Done?
    && CreateSenderIfNeeded(blk, w, batch, index, s).world == w1
    && mop.sender == s.op.sender
    && s.op.sender in w1.st.code && w1.st.code[s.op.sender].Simple?
  }

  /** An address without code cannot be asked; the batch fails without a reason. */
  lemma NobodyToAsk(blk: Block, w: World, batch: nat, index: nat, s: OpScript, missing: uint256)
    requires s.op.sender !in w.st.code
    ensures CallValidateUserOp(blk, w, batch, index, s, missing) == Reverted(w.m, Raw([]))
  {
  }

  /** The validation of a SimpleAccount: its word, its event, and its nonce. */
  lemma SimpleValidation(blk: Block, w: World, batch: nat, index: nat, s: OpScript, missing: uint256)
    requires s.op.sender in w.st.code && w.st.code[s.op.sender].Simple?
    ensures var o, account := CallValidateUserOp(blk, w, batch, index, s, missing), w.st.code[s.op.sender].account;
            && (o.Done? <==> Passes(account, s.op, s.signer))
            && (o.Done? ==>
                  && (o.value == 0 <==> s.signer == Some(account.owner))
                  && (o.value != 0 ==> o.value == SIG_VALIDATION_FAILED)
                  && var e := AccountValidated(batch, index, s.op, s.signer, o.value);
                     if missing == 0 || !s.pays then o.world == Commit(w, e)
                     else o.world == RunAction(blk, Commit(w, e), DepositTo(s.op.sender, s.op.sender, missing)))
            && (o.Done? ==>
                  && s.op.sender in o.world.st.code && o.world.st.code[s.op.sender].Simple?
                  && o.world.st.code[s.op.sender].account.owner == account.owner
                  && o.world.st.code[s.op.sender].account.nonce == account.nonce + (if IsCreating(s.op) then 0 else 1))
  {
  }

  /**
   * A SimpleAccount without a paymaster pays exactly what its deposit lacks of the prefund, if it can, in one deposit,
   * and the prefund is taken from its deposit. If it cannot pay, validation fails.
   */
  lemma AccountPaysShortfall(blk: Block, w: World, batch: nat, index: nat, s: OpScript, mop: MemoryUserOp,
                             required: uint256, w1: World)
    requires SimpleSender(blk, w, batch, index, s, mop, w1) && mop.paymaster == ZERO_ADDRESS
    requires Passes(w1.st.code[s.op.sender].account, s.op, s.signer)
    ensures var o := ValidateAccountPrepayment(blk, w, batch, index, s, mop, required);
            var deposit, sender := Info(w1.st, s.op.sender).deposit, s.op.sender;
            && (deposit >= required ==>
                  && o.Done? && DepositOf(o.world, sender) == deposit - required && o.world.st.balance == w1.st.balance
                  && Adds(w1, o.world, [AccountValidated(batch, index, s.op, s.signer, o.value.1),
                                        PrefundTaken(batch, index, sender, required)]))
            && (deposit < required ==>
                  && (o.Done? <==> s.pays && required < TWO_112 && w1.st.balance + (required - deposit) < TWO_256)
                  && (o.Reverted? ==> o.error == FailedOp(index, "AA21 didn't pay prefund"))
                  && (o.Done? ==>
                        && DepositOf(o.world, sender) == 0
                        && o.world.st.balance == w1.st.balance + (required - deposit)
                        && Adds(w1, o.world, [AccountValidated(batch, index, s.op, s.signer, o.value.1),
                                              Deposited(sender, required - deposit),
                                              PrefundTaken(batch, index, sender, required)])))
            && (o.Done? ==> forall b :: b != sender ==> Info(o.world.st, b) == Info(w1.st, b))
  {
    hide CreateSenderIfNeeded, CallValidateUserOp, Apply, ValidateUserOp, Passes, MissingFunds, TryDeposit, Perform;
    var sender, missing := s.op.sender, MissingFunds(w1, mop, required);
    AskedFor(w1, mop, required);
    SimpleValidation(blk, w1, batch, index, s, missing);
    var validated := CallValidateUserOp(blk, w1, batch, index, s, missing);
    var e := AccountValidated(batch, index, s.op, s.signer, validated.value);
    var w2 := Commit(w1, e);
    ValidationMovesNothing(w1, batch, index, s, validated.value);
    DepositToEffect(blk, w2, sender, sender, missing);
    var w3 := validated.world;
    if required <= Info(w3.st, sender).deposit {
      PrefundEffect(w3, batch, index, sender, required);
    }
  }

  lemma ValidationMovesNothing(w: World, batch: nat, index: nat, s: OpScript, word: uint256)
    ensures var e := AccountValidated(batch, index, s.op, s.signer, word);
            && SameRecords(w.st, Commit(w, e).st) && Commit(w, e).st.balance == w.st.balance && Commit(w, e).m == w.m
            && Adds(w, Commit(w, e), [e])
  {
  }

  function DepositOf(w: World, a: Address): nat {
    Info(w.st, a).deposit
  }

  /** With a paymaster the account is asked for nothing, and no record changes. */
  lemma SponsoredAccountPaysNothing(blk: Block, w: World, batch: nat, index: nat, s: OpScript, mop: MemoryUserOp,
                                    required: uint256, w1: World)
    requires SimpleSender(blk, w, batch, index, s, mop, w1) && mop.paymaster != ZERO_ADDRESS
    requires Passes(w1.st.code[s.op.sender].account, s.op, s.signer)
    ensures var o := ValidateAccountPrepayment(blk, w, batch, index, s, mop, required);
            && o.Done? && SameRecords(w1.st, o.world.st) && o.world.st.balance == w1.st.balance
            && Adds(w1, o.world, [AccountValidated(batch, index, s.op, s.signer, o.value.1)])
  {
    hide CreateSenderIfNeeded;
  }

  /** Any other account answers for itself; without a paymaster its deposit must then cover the prefund. */
  lemma OtherAccountPays(blk: Block, w: World, batch: nat, index: nat, s: OpScript, mop: MemoryUserOp,
                         required: uint256, w1: World)
    requires var o := CreateSenderIfNeeded(blk, w, batch, index, s); o.Done? && o.world == w1
    requires mop.sender == s.op.sender && s.op.sender in w1.st.code && w1.st.code[s.op.sender].Other?
    ensures var o := ValidateAccountPrepayment(blk, w, batch, index, s, mop, required);
            var w2 := RunWithin(blk, w1, s.op.verificationGasLimit, s.account.actions);
            var own := mop.paymaster == ZERO_ADDRESS;
            && (o.Done? <==> s.account.result.Ok? && (own ==> required <= DepositOf(w2, s.op.sender)))
            && (o.Done? ==>
                  && o.value.1 == s.account.result.value
                  && DepositOf(o.world, s.op.sender) == DepositOf(w2, s.op.sender) - (if own then required else 0)
                  && Adds(w2, o.world, [AccountValidated(batch, index, s.op, s.signer, o.value.1)]
                                       + if own then [PrefundTaken(batch, index, s.op.sender, required)] else [])
                  && forall b :: b != s.op.sender ==> Info(o.world.st, b) == Info(w2.st, b))
  {
    hide CreateSenderIfNeeded, RunWithin;
  }

  /** Why a SimpleAccount's validation fails. */
  lemma SimpleFailure(blk: Block, w: World, batch: nat, index: nat, s: OpScript, missing: uint256)
    requires s.op.sender in w.st.code && w.st.code[s.op.sender].Simple?
    requires CallValidateUserOp(blk, w, batch, index, s, missing).Reverted?
    ensures var o, account := CallValidateUserOp(blk, w, batch, index, s, missing), w.st.code[s.op.sender].account;
            && o.m == w.m
            && (s.signer == None ==> o.error == FailedOp(index, "AA23" + " reverted: " + "ECDSA: invalid signature"))
            && (s.signer != None && account.nonce == MAX_NONCE ==>
                o.error == FailedOp(index, "AA23" + " reverted (or OOG)"))
            && (s.signer != None && account.nonce != MAX_NONCE ==>
                  account.nonce != s.op.nonce
                  && o.error == FailedOp(index, "AA23" + " reverted: " + "account: invalid nonce"))
  {
    hide Apply, TryDeposit;
  }

  /** What another account's failure is reported as. */
  lemma OtherFailure(blk: Block, w: World, batch: nat, index: nat, s: OpScript, missing: uint256)
    requires s.op.sender in w.st.code && w.st.code[s.op.sender].Other?
    ensures var o := CallValidateUserOp(blk, w, batch, index, s, missing);
            match s.account.result
            case Ok(word) => o.Done? && o.value == word
            case Err(ErrorString(reason)) => o.Reverted? && o.error == FailedOp(index, "AA23" + " reverted: " + reason)
            case Err(_) => o.Reverted? && o.error == FailedOp(index, "AA23" + " reverted (or OOG)")
  {
    hide RunWithin, Apply;
  }

  // ---------- validation of the paymaster ----------

  /**
   * A paymaster is asked once its deposit is lowered by the prefund, with the gas that the account has left of the
   * limit. Nothing happens without one.
   */
  lemma PaymasterIff(blk: Block, w: World, batch: nat, index: nat, s: OpScript, mop: MemoryUserOp,
                     required: uint256, gasUsed: nat) returns (asked: World)
    ensures var o := ValidatePaymasterPrepayment(blk, w, batch, index, s, mop, required, gasUsed);
            && (mop.paymaster == ZERO_ADDRESS ==> o.Done? && o.world == w && o.value == NO_PAYMASTER)
            && (mop.paymaster != ZERO_ADDRESS ==>
                  && (o.Done? <==>
                        && gasUsed < mop.verificationGasLimit && required <= DepositOf(w, mop.paymaster)
                        && mop.paymaster in w.st.code && s.paymaster.result.Ok?)
                  && (o.Done? ==>
                        && DepositMoves(mop.paymaster, -(required as int), w.st, asked.st)
                        && asked.m == w.m && asked.st.balance == w.st.balance
                        && (var w2 := RunWithin(blk, asked, mop.verificationGasLimit - gasUsed, s.paymaster.actions);
                            && o.world.st == w2.st
                            && o.world.m.history == w2.m.history + [Approved(batch, index, s.op)])
                        && o.value == s.paymaster.result.value
                        && w.m.gas - o.world.m.gas <= mop.verificationGasLimit - gasUsed + s.gas.paymaster))
  {
    hide RunActions;
    asked := if required <= DepositOf(w, mop.paymaster)
             then Commit(w, PrefundTaken(batch, index, mop.paymaster, required)) else w;
  }

  /** Why a paymaster's validation fails. */
  lemma PaymasterFailure(blk: Block, w: World, batch: nat, index: nat, s: OpScript, mop: MemoryUserOp,
                         required: uint256, gasUsed: nat)
    requires mop.paymaster != ZERO_ADDRESS
    requires ValidatePaymasterPrepayment(blk, w, batch, index, s, mop, required, gasUsed).Reverted?
    ensures var e := ValidatePaymasterPrepayment(blk, w, batch, index, s, mop, required, gasUsed).error;
            var low := mop.verificationGasLimit <= gasUsed;
            var poor := DepositOf(w, mop.paymaster) < required;
            && (low ==> e == ErrorString("AA41 too little verificationGas"))
            && (!low && poor ==> e == FailedOp(index, "AA31 paymaster deposit too low"))
            && (!low && !poor && mop.paymaster !in w.st.code ==> e == Raw([]))
            && (!low && !poor && mop.paymaster in w.st.code ==>
                  match s.paymaster.result
                  case Err(ErrorString(reason)) => e == FailedOp(index, "AA33" + " reverted: " + reason)
                  case _ => e == FailedOp(index, "AA33" + " reverted (or OOG)"))
  {
    hide RunWithin, Apply;
  }

  // ---------- validation of an operation ----------

  /** The paymaster of an operation is the address in the first 20 bytes of `paymasterAndData`. */
  lemma PaymasterIsNamed(op: UserOperation)
    ensures CopyUserOpToMemory(op).Ok? <==> |op.paymasterAndData| == 0 || |op.paymasterAndData| >= 20
    ensures var r := CopyUserOpToMemory(op);
            r.Ok? ==>
              && (|op.paymasterAndData| == 0 ==> r.value.paymaster == ZERO_ADDRESS)
              && (|op.paymasterAndData| >= 20 ==> NatOf(op.paymasterAndData[..20]) == r.value.paymaster)
              && r.value.sender == op.sender && r.value.nonce == op.nonce
              && r.value.callGasLimit == op.callGasLimit && r.value.verificationGasLimit == op.verificationGasLimit
              && r.value.preVerificationGas == op.preVerificationGas
              && r.value.maxFeePerGas == op.maxFeePerGas && r.value.maxPriorityFeePerGas == op.maxPriorityFeePerGas
  {
    hide NatOf;
  }

  /**
   * An operation validates exactly when it is well formed, its account and its paymaster validate, and all of that
   * used no more gas than its limit. Both answers and the paymaster's context are handed on.
   */
  lemma PrepaymentIff(blk: Block, w: World, batch: nat, index: nat, s: OpScript)
    requires CopyUserOpToMemory(s.op).Ok?
    ensures var o, mop := ValidatePrepayment(blk, w, batch, index, s), CopyUserOpToMemory(s.op).value;
            var required := RequiredPrefund(mop);
            var o1 := ValidateAccountPrepayment(blk, Burn(w, s.gas.entry), batch, index, s, mop, required);
            && (o.Done? ==> GasValues(s.op) < TWO_120 && o1.Done?)
            && (GasValues(s.op) < TWO_120 && o1.Done? ==>
                  var o2 := ValidatePaymasterPrepayment(blk, o1.world, batch, index, s, mop, required, o1.value.0);
                  && (o.Done? <==>
                        o2.Done? && w.m.gas - Burn(o2.world, s.gas.tail).m.gas <= s.op.verificationGasLimit)
                  && (o.Done? ==>
                        && o.world.st == o2.world.st && o.world.m.history == o2.world.m.history
                        && o.value.word == o1.value.1 && o.value.pmWord == o2.value.word
                        && o.value.info.context == o2.value.context && o.value.info.mUserOp == mop
                        && o.value.info.prefund == required))
  {
    hide ValidateAccountPrepayment, ValidatePaymasterPrepayment, RequiredPrefund, GasValues, Wrap;
  }

  /** Why an operation fails before or after its account and paymaster are asked. */
  lemma PrepaymentFailure(blk: Block, w: World, batch: nat, index: nat, s: OpScript)
    ensures var o := ValidatePrepayment(blk, w, batch, index, s);
            && (0 < |s.op.paymasterAndData| < 20 ==>
                  o == Reverted(w.m, ErrorString("AA93 invalid paymasterAndData")))
            && (!(0 < |s.op.paymasterAndData| < 20) && GasValues(s.op) >= TWO_120 ==>
                  o == Reverted(w.m, ErrorString("AA94 gas values overflow")))
    ensures CopyUserOpToMemory(s.op).Ok? && GasValues(s.op) < TWO_120 ==>
              var o, mop := ValidatePrepayment(blk, w, batch, index, s), CopyUserOpToMemory(s.op).value;
              var required := RequiredPrefund(mop);
              var o1 := ValidateAccountPrepayment(blk, Burn(w, s.gas.entry), batch, index, s, mop, required);
              && (o1.Reverted? ==> o.Reverted? && o.m == o1.m && o.error == o1.error)
              && (o1.Done? ==>
                    var o2 := ValidatePaymasterPrepayment(blk, o1.world, batch, index, s, mop, required, o1.value.0);
                    && (o2.Reverted? ==> o.Reverted? && o.m == o2.m && o.error == o2.error)
                    && (o2.Done? && o.Reverted? ==> o.error == FailedOp(index, "AA40 over verificationGasLimit")))
  {
    hide ValidateAccountPrepayment, ValidatePaymasterPrepayment, RequiredPrefund, GasValues, Wrap;
  }

  /** What the account used is measured from before its creation to after its prefund. */
  lemma AccountGasIsMeasured(blk: Block, w: World, batch: nat, index: nat, s: OpScript, mop: MemoryUserOp,
                             required: uint256)
    ensures var o := ValidateAccountPrepayment(blk, w, batch, index, s, mop, required);
            o.Done? ==> o.value.0 == w.m.gas - o.world.m.gas
  {
    hide CreateSenderIfNeeded, CallValidateUserOp, MissingFunds, Apply;
  }

  // ---------- execution ----------

  /** The call reaches the `validateUserOp` of a SimpleAccount. */
  predicate ReachesValidation(st: State, s: OpScript) {
    s.op.sender in st.code && st.code[s.op.sender].Simple? && SelectsValidateUserOp(s.op.callData)
  }

  /** The selector of `validateUserOp`, byte by byte. */
  lemma SelectorIs(callData: bytes)
    ensures SelectsValidateUserOp(callData) <==>
              && |callData| >= 4 && callData[0] == 0x3a && callData[1] == 0x87 && callData[2] == 0x1c
              && callData[3] == 0xdd
  {
    if |callData| >= 4 {
      assert callData[..4] == [callData[0], callData[1], callData[2], callData[3]];
    }
  }

  /** Whether the account's call succeeds, by what its operation says and the outside world answers. */
  predicate CallSucceeds(st: State, s: OpScript) {
    if ReachesValidation(st, s) then
      && s.exec.selfCall.Some?
      && var c := s.exec.selfCall.value;
         c.signer.Some? && (c.creating || st.code[s.op.sender].account.nonce == c.nonce < MAX_NONCE)
    else s.exec.reply.ok
  }

  /** What the paymaster is told of the account's call, and the settlement records: whether it succeeded. */
  predicate TellsOutcome(st: State, s: OpScript, mode: PostOpMode) {
    && (mode == OpSucceeded <==> |s.op.callData| == 0 || CallSucceeds(st, s))
    && (mode == OpReverted <==> |s.op.callData| != 0 && !CallSucceeds(st, s))
  }

  /** The account's call succeeds exactly when it should, within its gas limit; a failed one is undone. */
  lemma CallIff(blk: Block, w: World, s: OpScript)
    ensures var (w', ok) := CallAccount(blk, w, s);
            && (ok <==> CallSucceeds(w.st, s))
            && (!ok ==> w'.st == w.st)
            && w.m.gas - w'.m.gas <= s.op.callGasLimit
            && (ok && !ReachesValidation(w.st, s) ==>
                  w' == RunWithin(blk, w, s.op.callGasLimit, s.exec.reply.actions))
  {
    hide RunReplyWithin, RunWithin, Apply, TryDeposit;
    ReplyWithinIs(blk, w, s.op.callGasLimit, s.exec.reply);
    if ReachesValidation(w.st, s) && s.exec.selfCall.Some? {
      var c := s.exec.selfCall.value;
      DepositUsesNoGas(Commit(w, Revalidated(s.op, c.nonce, c.creating)), s.op.sender, c.missing);
    }
  }

  lemma DepositUsesNoGas(w: World, account: Address, value: uint256)
    ensures TryDeposit(w, account, value).m == w.m
  {
    hide Apply;
  }

  /** A call that reaches the account's own `validateUserOp` uses up the nonce given, and pays what it is told to. */
  lemma SelfCallEffect(blk: Block, w: World, s: OpScript)
    requires ReachesValidation(w.st, s) && CallSucceeds(w.st, s)
    ensures var c, w' := s.exec.selfCall.value, CallAccount(blk, w, s).0;
            var w1 := Commit(w, Revalidated(s.op, c.nonce, c.creating));
            w' == if c.missing == 0 || !c.pays then w1
                  else RunAction(blk, w1, DepositTo(s.op.sender, s.op.sender, c.missing))
  {
  }

  /** Data of 32 bytes or more is what the entry point can read of a failed self-call. */
  lemma RevertCodeIs(e: Error)
    ensures InnerRevertCode(e) == TooShort <==> e.Raw? && |e.data| < 32
    ensures InnerRevertCode(e) == OutOfGasMarker <==> e.Raw? && |e.data| >= 32 && e.data[..32] == Word(INNER_OUT_OF_GAS)
  {
  }

  /** The self-call wants the two gas limits and a margin out of all but one 64th of the gas. */
  predicate EnoughGas(w: World, s: OpScript, info: UserOpInfo) {
    info.mUserOp.callGasLimit + info.mUserOp.verificationGasLimit + GAS_MARGIN
    <= Forwarded(Burn(w, s.gas.call).m.gas)
  }

  /**
   * How executing an operation ends. Without enough gas, and whenever the self-call fails with the marker, the whole
   * batch fails, naming the operation; when it fails with less than 32 bytes, the batch fails without a reason;
   * otherwise the operation is settled, inside the self-call or outside.
   */
  lemma ExecutionOutcome(blk: Block, w: World, batch: nat, index: nat, s: OpScript, info: UserOpInfo)
    requires info.mUserOp.callGasLimit < TWO_120 && info.mUserOp.verificationGasLimit < TWO_120
    ensures var o, inner := ExecuteUserOp(blk, w, batch, index, s, info),
                            HandleInner(blk, Burn(w, s.gas.call), batch, index, s, info);
            && (!EnoughGas(w, s, info) ==> o.Reverted? && o.error == FailedOp(index, "AA95 out of gas"))
            && (inner.Done? ==> o == inner)
            && (inner.Reverted? && inner.error.Raw? && |inner.error.data| < 32 ==>
                  o.Reverted? && o.error == Raw([]) && o.m == inner.m)
            && (inner.Reverted? && InnerRevertCode(inner.error) == AnythingElse ==>
                  var w2 := Burn(World(w.st, inner.m), s.gas.outer);
                  o == HandlePostOp(blk, w2, batch, index, index, PostOpReverted, info,
                                    Wrap(w.m.gas - w2.m.gas + info.preOpGas), s.postAgain, s.gas.postAgain))
  {
    hide CallAccount, HandlePostOp, Word;
    NoSumWraps(info.mUserOp);
    MarkerIsRead();
    hide Wrap;
  }

  lemma NoSumWraps(mop: MemoryUserOp)
    requires mop.callGasLimit < TWO_120 && mop.verificationGasLimit < TWO_120
    ensures Wrap(Wrap(mop.callGasLimit + mop.verificationGasLimit) + GAS_MARGIN)
         == mop.callGasLimit + mop.verificationGasLimit + GAS_MARGIN
  {
  }

  lemma MarkerIsRead()
    ensures InnerRevertCode(Raw(Word(INNER_OUT_OF_GAS))) == OutOfGasMarker
  {
    assert Word(INNER_OUT_OF_GAS)[..32] == Word(INNER_OUT_OF_GAS);
  }

  /** A self-call that spends more than it was given fails without data, so the whole batch does. */
  lemma OverspentAborts(blk: Block, w: World, batch: nat, index: nat, s: OpScript, info: UserOpInfo)
    requires info.mUserOp.callGasLimit < TWO_120 && info.mUserOp.verificationGasLimit < TWO_120
    requires EnoughGas(w, s, info)
    requires var w0 := Burn(w, s.gas.call);
             var called := Note(w0, Called(batch, index, s.op.sender, s.op.callData));
             var w1 := if |s.op.callData| == 0 then w0 else CallAccount(blk, called, s).0;
             w0.m.gas - w1.m.gas + s.gas.inner > Forwarded(w0.m.gas)
    ensures var o := ExecuteUserOp(blk, w, batch, index, s, info); o.Reverted? && o.error == Raw([])
  {
    hide CallAccount, HandlePostOp, Word, Forwarded;
    NoSumWraps(info.mUserOp);
    hide Wrap;
  }

  /**
   * `postOp` is called exactly on a paymaster that returned a context, with the cost of the gas so far at the price of
   * the operation, and it uses no more gas than the verification limit.
   */
  lemma PostOpIsCalledIff(blk: Block, w: World, batch: nat, index: nat, reported: nat, mode: PostOpMode,
                          info: UserOpInfo, actualGas: uint256, post: PostReply)
    ensures var o := CallPostOp(blk, w, batch, index, reported, mode, info, actualGas, post);
            && (info.mUserOp.paymaster == ZERO_ADDRESS || info.context == [] ==> o.Done? && o.world == w)
            && (info.mUserOp.paymaster != ZERO_ADDRESS && info.context != [] ==>
                  var cost := Wrap(actualGas * UserOpGasPrice(info.mUserOp, blk.basefee));
                  var told := Note(w, PostOpCalled(batch, index, info.mUserOp.paymaster, mode, cost));
                  var w' := RunWithin(blk, told, info.mUserOp.verificationGasLimit, post.actions);
                  && (o.Done? <==> post.error == None)
                  && (o.Done? ==> o.world == w') && (o.Reverted? ==> o.m == w'.m)
                  && w.m.gas - w'.m.gas <= info.mUserOp.verificationGasLimit)
  {
    hide RunActions, UserOpGasPrice, Wrap;
  }

  /** Where the self-call asks its paymaster: the account was called, and the gas given was enough for it. */
  ghost predicate ReachesPostOp(blk: Block, w: World, batch: nat, index: nat, s: OpScript, info: UserOpInfo) {
    var w0 := Burn(w, s.gas.call);
    var called := Note(w0, Called(batch, index, s.op.sender, s.op.callData));
    var w1 := if |s.op.callData| == 0 then w0 else CallAccount(blk, called, s).0;
    EnoughGas(w, s, info) && AsksPostOp(info) && w0.m.gas - w1.m.gas + s.gas.inner <= Forwarded(w0.m.gas)
  }

  /**
   * A `postOp` that fails in the self-call is called again exactly when what it reverted with has at least 32 bytes,
   * and is not the marker. Otherwise the whole batch fails.
   */
  lemma PostOpRetriedIff(blk: Block, w: World, batch: nat, index: nat, s: OpScript, info: UserOpInfo)
    requires info.mUserOp.callGasLimit < TWO_120 && info.mUserOp.verificationGasLimit < TWO_120
    requires ReachesPostOp(blk, w, batch, index, s, info) && s.post.error.Some?
    ensures HandleInner(blk, Burn(w, s.gas.call), batch, index, s, info).Reverted?
    ensures var o, e := ExecuteUserOp(blk, w, batch, index, s, info), s.post.error.value;
            var m := HandleInner(blk, Burn(w, s.gas.call), batch, index, s, info).m;
            var w2 := Burn(World(w.st, m), s.gas.outer);
            var again := HandlePostOp(blk, w2, batch, index, index, PostOpReverted, info,
                                      Wrap(w.m.gas - w2.m.gas + info.preOpGas), s.postAgain, s.gas.postAgain);
            && (e.Raw? && |e.data| < 32 ==> o == Reverted(m, Raw([])))
            && (e.Raw? && |e.data| >= 32 && e.data[..32] == Word(INNER_OUT_OF_GAS) ==>
                  o == Reverted(m, FailedOp(index, "AA95 out of gas")))
            && (!e.Raw? || (|e.data| >= 32 && e.data[..32] != Word(INNER_OUT_OF_GAS)) ==> o == again)
  {
    hide CallAccount, RunWithin, Word, Wrap, PostOpCost, Apply, Forwarded;
    NoSumWraps(info.mUserOp);
    InnerFailsAs(blk, Burn(w, s.gas.call), batch, index, s, info);
    hide HandleInner, HandlePostOp;
  }

  lemma InnerFailsAs(blk: Block, w0: World, batch: nat, index: nat, s: OpScript, info: UserOpInfo)
    requires Wrap(Wrap(info.mUserOp.callGasLimit + info.mUserOp.verificationGasLimit) + GAS_MARGIN)
             <= Forwarded(w0.m.gas)
    requires AsksPostOp(info) && s.post.error.Some?
    requires var called := Note(w0, Called(batch, index, s.op.sender, s.op.callData));
             var w1 := if |s.op.callData| == 0 then w0 else CallAccount(blk, called, s).0;
             w0.m.gas - w1.m.gas + s.gas.inner <= Forwarded(w0.m.gas)
    ensures var inner := HandleInner(blk, w0, batch, index, s, info);
            inner.Reverted? && inner.error == s.post.error.value
  {
    hide CallAccount, RunWithin, Wrap, PostOpCost, Forwarded;
    var called := Note(w0, Called(batch, index, s.op.sender, s.op.callData));
    var (w1, ok) := if |s.op.callData| == 0 then (w0, true) else CallAccount(blk, called, s);
    var w2 := Burn(w1, s.gas.inner);
    var mode := if ok then OpSucceeded else OpReverted;
    PostOpFails(blk, w2, batch, index, 0, mode, info, Wrap(w0.m.gas - w2.m.gas + info.preOpGas), s.post, s.gas.post);
    hide HandlePostOp;
  }

  lemma PostOpFails(blk: Block, w: World, batch: nat, index: nat, reported: nat, mode: PostOpMode, info: UserOpInfo,
                    actualGas: uint256, post: PostReply, use: nat)
    requires AsksPostOp(info) && post.error.Some? && mode != PostOpReverted
    ensures var o := HandlePostOp(blk, w, batch, index, reported, mode, info, actualGas, post, use);
            o.Reverted? && o.error == post.error.value
  {
    hide RunWithin, PostOpCost;
  }

  /**
   * An operation is settled exactly when `postOp`, if asked for, succeeds, the cost is within the prefund and the
   * payer's deposit can hold the rest of it. Then that deposit rises by the rest, and no other record changes.
   */
  lemma SettlementIff(blk: Block, w: World, batch: nat, index: nat, reported: nat, mode: PostOpMode, info: UserOpInfo,
                      actualGas: uint256, post: PostReply, use: nat) returns (cost: uint256, w1: World)
    ensures var o := HandlePostOp(blk, w, batch, index, reported, mode, info, actualGas, post, use);
            && (o.Done? <==>
                  && (AsksPostOp(info) ==> post.error == None) && cost <= info.prefund
                  && DepositOf(w1, Payer(info.mUserOp)) + (info.prefund - cost) < TWO_112)
            && (o.Done? ==>
                  && o.value == cost && DepositMoves(Payer(info.mUserOp), info.prefund - cost, w1.st, o.world.st)
                  && o.world.st.balance == w1.st.balance
                  && Adds(w1, o.world, [SettlementOf(batch, index, info, cost, mode)]))
            && (!AsksPostOp(info) ==> w1.st == w.st)
            && (AsksPostOp(info) ==>
                  var t := PostOpCalled(batch, index, info.mUserOp.paymaster, mode, PostOpCost(blk, info, actualGas));
                  && w1.st == RunWithin(blk, Note(w, t), info.mUserOp.verificationGasLimit, post.actions).st)
  {
    hide RunWithin, UserOpGasPrice, PostOpCost, Wrap, Apply, SettlementOf;
    var t := PostOpCalled(batch, index, info.mUserOp.paymaster, mode, PostOpCost(blk, info, actualGas));
    w1 := if AsksPostOp(info) then RunWithin(blk, Note(w, t), info.mUserOp.verificationGasLimit, post.actions) else w;
    var used := w.m.gas - Burn(w1, use).m.gas;
    cost := Wrap(Wrap(actualGas + used) * UserOpGasPrice(info.mUserOp, blk.basefee));
    if cost <= info.prefund && DepositOf(w1, Payer(info.mUserOp)) + (info.prefund - cost) < TWO_112 {
      RefundEffect(Burn(w1, use), batch, index, info, cost, mode);
    }
  }

  /** Why an operation is not settled: its `postOp` failed, or it cost more than was set aside, or does not fit. */
  lemma SettlementFailure(blk: Block, w: World, batch: nat, index: nat, reported: nat, mode: PostOpMode,
                          info: UserOpInfo, actualGas: uint256, post: PostReply, use: nat)
    requires HandlePostOp(blk, w, batch, index, reported, mode, info, actualGas, post, use).Reverted?
    ensures var e := HandlePostOp(blk, w, batch, index, reported, mode, info, actualGas, post, use).error;
            if AsksPostOp(info) && post.error.Some? then
              && (mode != PostOpReverted ==> e == post.error.value)
              && (mode == PostOpReverted ==>
                    if post.error.value.ErrorString? then
                      e == FailedOp(reported, "AA50 postOp reverted: " + post.error.value.reason)
                    else e == FailedOp(reported, "AA50 postOp revert"))
            else e == FailedOp(reported, "AA51 prefund below actualGasCost") || e == ErrorString("deposit overflow")
  {
    hide RunWithin, UserOpGasPrice, PostOpCost, Wrap, Apply;
  }

  // ---------- payment ----------

  lemma CompensateFailure(blk: Block, w: World, batch: nat, beneficiary: Address, amount: uint256, payee: Reply)
    requires Compensate(blk, w, batch, beneficiary, amount, payee).Reverted?
    ensures var e := Compensate(blk, w, batch, beneficiary, amount, payee).error;
            && (e == ErrorString("AA90 invalid beneficiary") <==> beneficiary == ZERO_ADDRESS)
            && (e == ErrorString("AA91 failed send to beneficiary") <==> beneficiary != ZERO_ADDRESS)
  {
    hide RunReply, Apply;
  }

  /** The beneficiary is called when the fees are gone from the balance; no record changes. */
  lemma CompensateEffect(blk: Block, w: World, batch: nat, beneficiary: Address, amount: uint256, payee: Reply)
    returns (paid: World)
    ensures var o := Compensate(blk, w, batch, beneficiary, amount, payee);
            && (o.Done? <==> beneficiary != ZERO_ADDRESS && amount <= w.st.balance && payee.ok)
            && (o.Done? ==>
                  && SameRecords(w.st, paid.st) && paid.st.code == w.st.code && paid.m == w.m
                  && paid.st.balance == w.st.balance - amount
                  && o.world == RunActions(blk, paid, payee.actions))
  {
    hide RunActions;
    paid := if amount <= w.st.balance then Commit(w, Paid(batch, beneficiary, amount)) else w;
    ReplyIs(blk, paid, payee);
  }

  /** A committed batch ends with its beneficiary, who accepts and acts last, when the fees have left the balance. */
  lemma BeneficiaryActsLast(blk: Block, w: World, a: Action) returns (paid: World)
    requires (a.HandleOps? || a.HandleAggregatedOps?) && Perform(blk, w, a).Done?
    ensures a.beneficiary != ZERO_ADDRESS && a.payee.ok
    ensures Perform(blk, w, a).world == RunActions(blk, paid, a.payee.actions)
    ensures |paid.st.log| > 0 && paid.st.log[|paid.st.log| - 1].Paid?
            && paid.st.log[|paid.st.log| - 1].beneficiary == a.beneficiary
            && paid.st.log[|paid.st.log| - 1].batch == w.m.nextBatch
  {
    hide RunActions, ValidateOps, ExecuteOps, ValidateGroups, ExecuteGroups, CheckAggregators, OpenBatch;
    var batch, w0 := w.m.nextBatch, OpenBatch(w);
    if a.HandleOps? {
      assert Perform(blk, w, a) == PerformHandleOps(blk, w, a);
      var o := ValidateOps(blk, w0, batch, 0, 0, ZERO_ADDRESS, a.ops);
      var done := ExecuteOps(blk, o.world, batch, 0, a.ops, o.value, 0);
      paid := LastIsPaid(blk, done.world, batch, a.beneficiary, done.value, a.payee);
    } else {
      assert Perform(blk, w, a) == PerformHandleAggregatedOps(blk, w, a);
      var o := ValidateGroups(blk, w0, batch, 0, a.groups);
      var done := ExecuteGroups(blk, o.world, batch, 0, a.groups, o.value, 0);
      paid := LastIsPaid(blk, done.world, batch, a.beneficiary, done.value, a.payee);
    }
  }

  lemma LastIsPaid(blk: Block, w: World, batch: nat, beneficiary: Address, amount: uint256, payee: Reply)
    returns (paid: World)
    requires Compensate(blk, w, batch, beneficiary, amount, payee).Done?
    ensures beneficiary != ZERO_ADDRESS && payee.ok
    ensures Compensate(blk, w, batch, beneficiary, amount, payee).world == RunActions(blk, paid, payee.actions)
    ensures paid.st.log == w.st.log + [Paid(batch, beneficiary, amount)]
  {
    hide RunActions;
    paid := Commit(w, Paid(batch, beneficiary, amount));
    ReplyIs(blk, paid, payee);
  }
}
