/**
 * What every function of the protocol keeps, for any tree of re-entrant calls: the log grows by events that
 * were enabled when they happened, batches opened inside have fresh numbers, and escrow is settled.
 */
module Frames {
  import opened Evm
  import opened Bits
  import opened UserOperations
  import opened Validation
  import opened SimpleAccounts
  import opened Ledger
  import opened Conservation
  import opened Protocol

  /** The batch an event belongs to, or -1. */
  function BatchOf(e: Event): int {
    match e
    case HandlingStarted(batch) => batch
    case CreationStarted(batch, _, _) => batch
    case AccountValidated(batch, _, _, _, _) => batch
    case PrefundTaken(batch, _, _, _) => batch
    case Accepted(batch, _, _, _, _) => batch
    case Settled(batch, _, _, _, _, _, _) => batch
    case Paid(batch, _, _) => batch
    case _ => -1
  }

  function BatchOfTrace(t: Trace): int {
    match t
    case Validated(batch, _, _) => batch
    case Approved(batch, _, _) => batch
    case Called(batch, _, _, _) => batch
    case PostOpCalled(batch, _, _, _, _) => batch
    case Observed(_) => -1
  }

  ghost predicate Sound(st: State) {
    Genuine(st) && st.escrow >= 0
  }

  /** A batch number seen between two points: none, the enclosing batch, or one opened in between. */
  predicate Allowed(batch: int, own: int, next: nat) {
    batch == -1 || batch == own || batch >= next
  }

  ghost predicate AllowedTrace(t: Trace, own: int, next: nat) {
    Allowed(BatchOfTrace(t), own, next) && (t.Observed? ==> Sound(t.st))
  }

  ghost predicate MeterExtends(m: Meter, m': Meter, own: int) {
    && m.history <= m'.history
    && m.nextBatch <= m'.nextBatch
    && m'.gas <= m.gas
    && forall k :: |m.history| <= k < |m'.history| ==> AllowedTrace(m'.history[k], own, m.nextBatch)
  }

  ghost predicate StateExtends(st: State, st': State, own: int, next: nat) {
    && st.log <= st'.log
    && (forall a :: a in st.code ==> a in st'.code)
    && forall k :: |st.log| <= k < |st'.log| ==> Allowed(BatchOf(st'.log[k]), own, next)
  }

  /** Growth, whatever it does to the open scopes. */
  ghost predicate Grows(w: World, w': World, own: int, escrow: int) {
    && MeterExtends(w.m, w'.m, own)
    && StateExtends(w.st, w'.st, own, w.m.nextBatch)
    && Genuine(w'.st)
    && w'.st.escrow == w.st.escrow + escrow
  }

  /** Growth that closes every scope it opens, and no other. */
  ghost predicate Extends(w: World, w': World, own: int, escrow: int) {
    Grows(w, w', own, escrow) && w'.st.stack == w.st.stack
  }

  /** `escrow` is only meaningful when the outcome is Done. */
  ghost predicate Framed<T>(w: World, o: Outcome<T>, own: int, escrow: int) {
    match o
    case Done(w', _) => Extends(w, w', own, escrow)
    case Reverted(m, _) => MeterExtends(w.m, m, own)
  }

  /** Inside a creation there is at most the gas its operation grants. */
  predicate Bounded(stack: seq<Scope>, gas: int) {
    forall k :: 0 <= k < |stack| && stack[k].Creating? ==> gas <= stack[k].op.verificationGasLimit
  }

  /** Where the outside world may act. */
  ghost predicate Ready(w: World) {
    Sound(w.st) && Bounded(w.st.stack, w.m.gas)
  }

  /** Where a batch may go on. */
  ghost predicate ReadyFor(w: World, batch: nat) {
    Ready(w) && Innermost(w.st.stack, Handling(batch))
  }

  // ---------- composition ----------

  lemma MeterTrans(m: Meter, m1: Meter, m2: Meter, own: int)
    requires MeterExtends(m, m1, own) && MeterExtends(m1, m2, own)
    ensures MeterExtends(m, m2, own)
  {
    forall k | |m.history| <= k < |m2.history|
      ensures AllowedTrace(m2.history[k], own, m.nextBatch)
    {
      if k < |m1.history| {
        assert m2.history[k] == m1.history[k];
      }
    }
  }

  lemma GrowTrans(w: World, w1: World, w2: World, own: int, e1: int, e2: int)
    requires Grows(w, w1, own, e1) && Grows(w1, w2, own, e2)
    ensures Grows(w, w2, own, e1 + e2)
  {
    MeterTrans(w.m, w1.m, w2.m, own);
    forall k | |w.st.log| <= k < |w2.st.log|
      ensures Allowed(BatchOf(w2.st.log[k]), own, w.m.nextBatch)
    {
      if k < |w1.st.log| {
        assert w2.st.log[k] == w1.st.log[k];
      }
    }
  }

  lemma Trans(w: World, w1: World, w2: World, own: int, e1: int, e2: int)
    requires Extends(w, w1, own, e1) && Extends(w1, w2, own, e2)
    ensures Extends(w, w2, own, e1 + e2)
  {
    hide Grows;
    GrowTrans(w, w1, w2, own, e1, e2);
  }

  /** A frame after a committed prefix, whatever its outcome. */
  lemma Then<T>(w: World, w1: World, o: Outcome<T>, own: int, e1: int, e2: int)
    requires Extends(w, w1, own, e1) && Framed(w1, o, own, e2)
    ensures Framed(w, o, own, e1 + e2)
  {
    match o
    case Done(w2, _) => Trans(w, w1, w2, own, e1, e2);
    case Reverted(m, _) => MeterTrans(w.m, w1.m, m, own);
  }

  lemma MeterStays(m: Meter, own: int)
    ensures MeterExtends(m, m, own)
  {
  }

  lemma Stays(w: World, own: int)
    requires Genuine(w.st)
    ensures Extends(w, w, own, 0)
  {
  }

  lemma BurnExtends(w: World, amount: nat, own: int)
    requires Genuine(w.st)
    ensures Extends(w, Burn(w, amount), own, 0)
  {
  }

  lemma NoteExtends(w: World, t: Trace, own: int)
    requires Genuine(w.st) && AllowedTrace(t, own, w.m.nextBatch)
    ensures Extends(w, Note(w, t), own, 0)
  {
  }

  lemma CommitGrows(w: World, e: Event, own: int)
    requires Genuine(w.st) && Enabled(w.st, e) && Allowed(BatchOf(e), own, w.m.nextBatch)
    ensures Grows(w, Commit(w, e), own, EscrowDelta(e))
  {
    GenuineApply(w.st, e);
  }

  lemma CommitExtends(w: World, e: Event, own: int)
    requires Genuine(w.st) && Enabled(w.st, e) && Allowed(BatchOf(e), own, w.m.nextBatch)
    requires NewStack(w.st.stack, e) == w.st.stack
    ensures Extends(w, Commit(w, e), own, EscrowDelta(e))
  {
    CommitGrows(w, e, own);
  }

  /** A call that is given part of the gas. */
  lemma WithinExtends(w: World, limit: nat, after: World, own: int, escrow: int)
    requires Extends(Enter(w, limit), after, own, escrow)
    ensures Extends(w, World(after.st, Leave(w, limit, after.m)), own, escrow)
    ensures MeterExtends(w.m, Leave(w, limit, after.m), own)
  {
  }

  /** Less gas and the same scopes. */
  lemma ReadyAfter(w: World, w': World, own: int, escrow: int)
    requires Ready(w) && Extends(w, w', own, escrow) && w.st.escrow + escrow >= 0
    ensures Ready(w') && w'.st.stack == w.st.stack && w'.m.nextBatch >= w.m.nextBatch
    ensures w'.st.escrow == w.st.escrow + escrow
  {
  }

  lemma EnterReady(w: World, limit: nat)
    requires Ready(w)
    ensures Ready(Enter(w, limit))
  {
  }

  /** A frame that failed: the state is as before, the meter is not. */
  lemma RollbackExtends(w: World, m: Meter, own: int)
    requires Genuine(w.st) && MeterExtends(w.m, m, own)
    ensures Extends(w, World(w.st, m), own, 0)
  {
  }

  /** Everything done inside a new batch is foreign to the batches outside it. */
  lemma InsideBatch(w: World, w': World, own: int, escrow: int)
    requires Grows(OpenBatch(w), w', w.m.nextBatch, escrow) && w'.st.stack == w.st.stack
    ensures Extends(w, w', own, escrow)
  {
    forall k | |w.st.log| <= k < |w'.st.log|
      ensures Allowed(BatchOf(w'.st.log[k]), own, w.m.nextBatch)
    {
      if k == |w.st.log| {
        assert OpenBatch(w).st.log[k] == HandlingStarted(w.m.nextBatch);
      }
    }
  }

  lemma MeterInsideBatch(w: World, m: Meter, own: int)
    requires MeterExtends(OpenBatch(w).m, m, w.m.nextBatch)
    ensures MeterExtends(w.m, m, own)
  {
  }

  lemma OpensBatch(w: World)
    requires Ready(w)
    ensures ReadyFor(OpenBatch(w), w.m.nextBatch) && OpenBatch(w).st.escrow == w.st.escrow
    ensures Pop(OpenBatch(w).st.stack) == w.st.stack && OpenBatch(w).m.nextBatch == w.m.nextBatch + 1
  {
    GenuineApply(w.st, HandlingStarted(w.m.nextBatch));
  }

  // ---------- environment ----------

  lemma {:induction false} FrameActions(blk: Block, w: World, actions: seq<Action>, own: int)
    requires Ready(w)
    ensures Extends(w, RunActions(blk, w, actions), own, 0)
    decreases actions, 0
  {
    hide Extends, Bounded, Genuine;
    var w0 := Note(w, Observed(w.st));
    ObservedExtends(w, own);
    if |actions| > 0 {
      var w1 := RunAction(blk, w0, actions[0]);
      ReadyAfter(w, w0, own, 0);
      FrameAction(blk, w0, actions[0], own);
      Trans(w, w0, w1, own, 0, 0);
      ReadyAfter(w0, w1, own, 0);
      FrameActions(blk, w1, actions[1..], own);
      Trans(w, w1, RunActions(blk, w1, actions[1..]), own, 0, 0);
    }
  }

  lemma ObservedExtends(w: World, own: int)
    requires Ready(w)
    ensures Extends(w, Note(w, Observed(w.st)), own, 0)
  {
    NoteExtends(w, Observed(w.st), own);
  }

  lemma {:induction false} FrameActionsWithin(blk: Block, w: World, limit: nat, actions: seq<Action>, own: int)
    requires Ready(Enter(w, limit))
    ensures Extends(w, RunWithin(blk, w, limit, actions), own, 0)
    decreases actions, 1
  {
    hide Extends, Ready, RunActions;
    FrameActions(blk, Enter(w, limit), actions, own);
    WithinExtends(w, limit, RunActions(blk, Enter(w, limit), actions), own, 0);
  }

  lemma {:induction false} FrameReply(blk: Block, w: World, r: Reply, own: int)
    requires Ready(w)
    ensures Extends(w, RunReply(blk, w, r).0, own, 0)
    decreases r, 0
  {
    FrameActions(blk, w, r.actions, own);
  }

  lemma {:induction false} FrameReplyWithin(blk: Block, w: World, limit: nat, r: Reply, own: int)
    requires Ready(Enter(w, limit))
    ensures Extends(w, RunReplyWithin(blk, w, limit, r).0, own, 0)
    decreases r, 1
  {
    hide Extends, Ready, RunReply;
    FrameReply(blk, Enter(w, limit), r, own);
    WithinExtends(w, limit, RunReply(blk, Enter(w, limit), r).0, own, 0);
  }

  lemma {:induction false} FrameAction(blk: Block, w: World, a: Action, own: int)
    requires Ready(w)
    ensures Extends(w, RunAction(blk, w, a), own, 0)
    decreases a, 2
  {
    hide Perform, Grows, MeterExtends;
    FramePerform(blk, w, a, own);
    var o := Perform(blk, w, a);
    if o.Reverted? {
      RollbackExtends(w, o.m, own);
    }
  }

  lemma FrameDeposit(w: World, account: Address, value: uint256, own: int)
    requires Ready(w)
    ensures Framed(w, PerformDepositTo(w, account, value), own, 0)
    ensures Extends(w, TryDeposit(w, account, value), own, 0)
  {
    hide Grows, MeterExtends;
    Stays(w, own);
    MeterStays(w.m, own);
    if PerformDepositTo(w, account, value).Done? {
      CommitExtends(w, Deposited(account, value), own);
    }
  }

  lemma {:induction false} FramePerform(blk: Block, w: World, a: Action, own: int)
    requires Ready(w)
    ensures Framed(w, Perform(blk, w, a), own, 0)
    decreases a, 1
  {
    hide MeterExtends, Grows, Genuine, RunReply, PerformWithdrawStake, PerformWithdrawTo, PerformHandleOps,
         PerformHandleAggregatedOps;
    MeterStays(w.m, own);
    match a
    case DepositTo(_, account, value) => FrameDeposit(w, account, value, own);
    case AddStake(sender, delay, value) =>
      if Perform(blk, w, a).Done? {
        CommitExtends(w, StakeAdded(sender, delay, value), own);
      }
    case UnlockStake(sender) =>
      if Perform(blk, w, a).Done? {
        CommitExtends(w, StakeUnlocked(sender, blk.timestamp), own);
      }
    case WithdrawStake(_, _) => FrameWithdrawStake(blk, w, a, own);
    case WithdrawTo(_, _, _) => FrameWithdrawTo(blk, w, a, own);
    case HandleOps(_, _, _) => FrameHandleOps(blk, w, a, own);
    case HandleAggregatedOps(_, _, _) => FrameHandleAggregatedOps(blk, w, a, own);
    case InnerHandleOp =>
    case Deploy(address, code) =>
      if Perform(blk, w, a).Done? {
        CommitExtends(w, Deployed(address, code), own);
      }
    case Frame(body) => FrameReply(blk, w, body, own);
    case UseGas(units) => BurnExtends(w, units, own);
  }

  /** A commit, and a call after it. */
  lemma {:induction false} FrameCommitReply(blk: Block, w: World, e: Event, r: Reply, own: int)
    requires Ready(w) && Enabled(w.st, e) && Allowed(BatchOf(e), own, w.m.nextBatch)
    requires NewStack(w.st.stack, e) == w.st.stack && w.st.escrow + EscrowDelta(e) >= 0
    ensures Extends(w, RunReply(blk, Commit(w, e), r).0, own, EscrowDelta(e))
    decreases r, 1
  {
    hide Extends, RunReply, Enabled, Apply;
    CommitExtends(w, e, own);
    ReadyAfter(w, Commit(w, e), own, EscrowDelta(e));
    FrameReply(blk, Commit(w, e), r, own);
    Trans(w, Commit(w, e), RunReply(blk, Commit(w, e), r).0, own, EscrowDelta(e), 0);
  }

  lemma {:induction false} FrameWithdrawStake(blk: Block, w: World, a: Action, own: int)
    requires Ready(w) && a.WithdrawStake?
    ensures Framed(w, PerformWithdrawStake(blk, w, a), own, 0)
    decreases a, 0
  {
    hide MeterExtends, Genuine, RunReply;
    MeterStays(w.m, own);
    var info := Info(w.st, a.sender);
    if WithdrawStakeError(blk, info) == None && info.stake <= w.st.balance {
      FrameCommitReply(blk, w, StakeWithdrawn(a.sender, info.stake, blk.timestamp), a.recipient, own);
    }
  }

  lemma {:induction false} FrameWithdrawTo(blk: Block, w: World, a: Action, own: int)
    requires Ready(w) && a.WithdrawTo?
    ensures Framed(w, PerformWithdrawTo(blk, w, a), own, 0)
    decreases a, 0
  {
    hide MeterExtends, Genuine, RunReply;
    MeterStays(w.m, own);
    if a.amount <= Info(w.st, a.sender).deposit && a.amount <= w.st.balance {
      FrameCommitReply(blk, w, Withdrawn(a.sender, a.amount), a.recipient, own);
    }
  }

  // ---------- validation ----------

  /** The scopes while the account of an operation is being validated. */
  function WithCreation(stack: seq<Scope>, batch: nat, index: nat, op: UserOperation): seq<Scope> {
    if IsCreating(op) then stack + [Creating(batch, index, op)] else stack
  }

  /** With the gas limit of the operation, its creation is a place where the outside world may act. */
  lemma CreationReady(w: World, base: seq<Scope>, batch: nat, index: nat, op: UserOperation)
    requires Sound(w.st) && w.st.stack == WithCreation(base, batch, index, op) && Bounded(base, w.m.gas)
    ensures Ready(Enter(w, op.verificationGasLimit))
  {
  }

  lemma {:induction false} FrameCreateSender(blk: Block, w: World, batch: nat, index: nat, s: OpScript)
    requires ReadyFor(w, batch)
    ensures var o := CreateSenderIfNeeded(blk, w, batch, index, s);
            match o
            case Done(w1, _) =>
              && Grows(w, w1, batch, 0)
              && w1.st.stack == WithCreation(w.st.stack, batch, index, s.op)
              && (IsCreating(s.op) ==> CreationStarted(batch, index, s.op) in w1.st.log)
            case Reverted(m, _) => MeterExtends(w.m, m, batch)
    decreases s, 1
  {
    hide MeterExtends, Genuine, RunReplyWithin, StateExtends;
    MeterStays(w.m, batch);
    Stays(w, batch);
    if IsCreating(s.op) && s.op.sender !in w.st.code && |s.op.initCode| >= 20 {
      var e := CreationStarted(batch, index, s.op);
      var w1 := Commit(w, e);
      CommitGrows(w, e, batch);
      CreationReady(w1, w.st.stack, batch, index, s.op);
      FrameReplyWithin(blk, w1, s.op.verificationGasLimit, s.factory.reply, batch);
      var w2 := RunReplyWithin(blk, w1, s.op.verificationGasLimit, s.factory.reply).0;
      GrowTrans(w, w1, w2, batch, 0, 0);
      LogKeeps(w1, w2, batch, 0, e);
    }
  }

  lemma LogKeeps(w: World, w': World, own: int, escrow: int, e: Event)
    requires Grows(w, w', own, escrow) && e in w.st.log
    ensures e in w'.st.log
  {
    var k :| 0 <= k < |w.st.log| && w.st.log[k] == e;
    assert w'.st.log[k] == e;
  }

  lemma PopLast(stack: seq<Scope>, scope: Scope)
    ensures Pop(stack + [scope]) == stack && Innermost(stack + [scope], scope)
  {
  }

  lemma {:induction false} FrameCallValidate(blk: Block, w: World, base: seq<Scope>, batch: nat, index: nat,
                                             s: OpScript, missing: uint256)
    requires Sound(w.st) && Bounded(base, w.m.gas) && w.st.stack == WithCreation(base, batch, index, s.op)
    requires IsCreating(s.op) ==> CreationStarted(batch, index, s.op) in w.st.log
    ensures var o := CallValidateUserOp(blk, w, batch, index, s, missing);
            match o
            case Done(w1, word) =>
              && Grows(w, w1, batch, 0)
              && w1.st.stack == base
              && AccountValidated(batch, index, s.op, s.signer, word) in w1.st.log
            case Reverted(m, _) => MeterExtends(w.m, m, batch)
    decreases s, 1
  {
    hide MeterExtends, StateExtends, Genuine, RunWithin, TryDeposit, ValidateUserOp;
    MeterStays(w.m, batch);
    PopLast(base, Creating(batch, index, s.op));
    if s.op.sender in w.st.code {
      if w.st.code[s.op.sender].Simple? {
        FrameSimpleValidate(blk, w, base, batch, index, s, missing);
      } else {
        CreationReady(w, base, batch, index, s.op);
        FrameActionsWithin(blk, w, s.op.verificationGasLimit, s.account.actions, batch);
        FrameOtherValidate(blk, w, base, batch, index, s, missing);
      }
    }
  }

  lemma FrameSimpleValidate(blk: Block, w: World, base: seq<Scope>, batch: nat, index: nat, s: OpScript,
                            missing: uint256)
    requires Sound(w.st) && Bounded(base, w.m.gas) && w.st.stack == WithCreation(base, batch, index, s.op)
    requires IsCreating(s.op) ==> CreationStarted(batch, index, s.op) in w.st.log
    requires s.op.sender in w.st.code && w.st.code[s.op.sender].Simple?
    ensures var o := CallValidateUserOp(blk, w, batch, index, s, missing);
            match o
            case Done(w1, word) =>
              && Grows(w, w1, batch, 0)
              && w1.st.stack == base
              && AccountValidated(batch, index, s.op, s.signer, word) in w1.st.log
            case Reverted(m, _) => MeterExtends(w.m, m, batch)
  {
    hide MeterExtends, StateExtends, Genuine, TryDeposit;
    MeterStays(w.m, batch);
    PopLast(base, Creating(batch, index, s.op));
    var o := CallValidateUserOp(blk, w, batch, index, s, missing);
    if o.Done? {
      var e := AccountValidated(batch, index, s.op, s.signer, o.value);
      var w1 := Commit(w, e);
      CommitGrows(w, e, batch);
      FrameDeposit(w1, s.op.sender, missing, batch);
      GrowTrans(w, w1, TryDeposit(w1, s.op.sender, missing), batch, 0, 0);
      LogKeeps(w1, TryDeposit(w1, s.op.sender, missing), batch, 0, e);
    }
  }

  lemma FrameOtherValidate(blk: Block, w: World, base: seq<Scope>, batch: nat, index: nat, s: OpScript,
                           missing: uint256)
    requires Sound(w.st) && w.st.stack == WithCreation(base, batch, index, s.op)
    requires IsCreating(s.op) ==> CreationStarted(batch, index, s.op) in w.st.log
    requires s.op.sender in w.st.code && !w.st.code[s.op.sender].Simple?
    requires Extends(w, RunWithin(blk, w, s.op.verificationGasLimit, s.account.actions), batch, 0)
    ensures var o := CallValidateUserOp(blk, w, batch, index, s, missing);
            match o
            case Done(w1, word) =>
              && Grows(w, w1, batch, 0)
              && w1.st.stack == base
              && AccountValidated(batch, index, s.op, s.signer, word) in w1.st.log
            case Reverted(m, _) => MeterExtends(w.m, m, batch)
  {
    hide MeterExtends, Genuine, RunWithin;
    PopLast(base, Creating(batch, index, s.op));
    var w1 := RunWithin(blk, w, s.op.verificationGasLimit, s.account.actions);
    if s.account.result.Ok? {
      var e := AccountValidated(batch, index, s.op, s.signer, s.account.result.value);
      CodeStays(w.st, w1.st, s.op.sender);
      if IsCreating(s.op) {
        LogKeeps(w, w1, batch, 0, CreationStarted(batch, index, s.op));
      }
      CommitGrows(w1, e, batch);
      GrowTrans(w, w1, Commit(w1, e), batch, 0, 0);
      assert Commit(w1, e).st.log[|w1.st.log|] == e;
    }
  }

  /** Code stays where it is: a SimpleAccount keeps its owner, other code stays other code. */
  predicate SameKind(c: Code, c': Code) {
    if c.Simple? then c'.Simple? && c'.account.owner == c.account.owner else c'.Other?
  }

  lemma EventKeepsCode(st: State, e: Event, a: Address)
    requires Enabled(st, e) && a in st.code
    ensures a in Apply(st, e).code && SameKind(st.code[a], Apply(st, e).code[a])
  {
  }

  lemma {:induction false} CodeStays(st: State, st': State, a: Address)
    requires Genuine(st) && Genuine(st') && st.log <= st'.log && a in st.code
    ensures a in st'.code && SameKind(st.code[a], st'.code[a])
    decreases |st'.log|
  {
    if |st'.log| > |st.log| {
      hide Enabled, Apply, Replay;
      var before := Before(st');
      CodeStays(st, before, a);
      EventKeepsCode(before, st'.log[|st'.log| - 1], a);
    } else {
      assert st.log == st'.log;
    }
  }

  /** Escrow taken by the validation of one operation. */
  function TakenBy(paymaster: Address, byAccount: bool, required: uint256): int {
    if (paymaster == ZERO_ADDRESS) == byAccount then required else 0
  }

  /** The sender created and validated: every scope that was opened is closed again. */
  lemma {:induction false} FrameSenderValidated(blk: Block, w: World, batch: nat, index: nat, s: OpScript,
                                                mop: MemoryUserOp, required: uint256)
    requires ReadyFor(w, batch) && mop.sender == s.op.sender
    ensures var o1 := CreateSenderIfNeeded(blk, w, batch, index, s);
            match o1
            case Reverted(m, _) => MeterExtends(w.m, m, batch)
            case Done(w1, _) =>
              match CallValidateUserOp(blk, w1, batch, index, s, MissingFunds(w1, mop, required))
              case Reverted(m, _) => MeterExtends(w.m, m, batch)
              case Done(w2, word) =>
                && Extends(w, w2, batch, 0)
                && AccountValidated(batch, index, s.op, s.signer, word) in w2.st.log
    decreases s, 2
  {
    hide CreateSenderIfNeeded, CallValidateUserOp, StateExtends, Genuine;
    var o1 := CreateSenderIfNeeded(blk, w, batch, index, s);
    FrameCreateSender(blk, w, batch, index, s);
    if o1.Done? {
      var w1 := o1.world;
      var missing := MissingFunds(w1, mop, required);
      FrameCallValidate(blk, w1, w.st.stack, batch, index, s, missing);
      match CallValidateUserOp(blk, w1, batch, index, s, missing)
      case Done(w2, _) => GrowTrans(w, w1, w2, batch, 0, 0);
      case Reverted(m, _) => MeterTrans(w.m, w1.m, m, batch);
    }
  }

  lemma {:induction false} FrameAccountPrepayment(blk: Block, w: World, batch: nat, index: nat, s: OpScript,
                                                  mop: MemoryUserOp, required: uint256)
    requires ReadyFor(w, batch) && mop.sender == s.op.sender
    ensures var o := ValidateAccountPrepayment(blk, w, batch, index, s, mop, required);
            Framed(w, o, batch, TakenBy(mop.paymaster, true, required))
            && (o.Done? ==> AccountValidated(batch, index, s.op, s.signer, o.value.1) in o.world.st.log)
    decreases s, 3
  {
    hide Grows, MeterExtends, Genuine, CreateSenderIfNeeded, CallValidateUserOp, MissingFunds;
    FrameSenderValidated(blk, w, batch, index, s, mop, required);
    var o1 := CreateSenderIfNeeded(blk, w, batch, index, s);
    if o1.Done? {
      var o2 := CallValidateUserOp(blk, o1.world, batch, index, s, MissingFunds(o1.world, mop, required));
      if o2.Done? {
        var w2 := o2.world;
        GrownIsGenuine(w, w2, batch, 0);
        ExtendsMeter(w, w2, batch, 0);
        if mop.paymaster != ZERO_ADDRESS {
          BurnExtends(w2, s.gas.account, batch);
          Trans(w, w2, Burn(w2, s.gas.account), batch, 0, 0);
        } else if required <= Info(w2.st, mop.sender).deposit {
          var e := PrefundTaken(batch, index, mop.sender, required);
          CommitExtends(w2, e, batch);
          Trans(w, w2, Commit(w2, e), batch, 0, required);
          GrownIsGenuine(w2, Commit(w2, e), batch, required);
          BurnExtends(Commit(w2, e), s.gas.account, batch);
          Trans(w, Commit(w2, e), Burn(Commit(w2, e), s.gas.account), batch, required, 0);
        }
      }
    }
  }

  lemma GrownIsGenuine(w: World, w': World, own: int, escrow: int)
    requires Grows(w, w', own, escrow)
    ensures Genuine(w'.st)
  {
  }

  lemma ExtendsMeter(w: World, w': World, own: int, escrow: int)
    requires Grows(w, w', own, escrow)
    ensures MeterExtends(w.m, w'.m, own)
  {
  }

  lemma {:induction false} FramePaymasterPrepayment(blk: Block, w: World, batch: nat, index: nat, s: OpScript,
                                                    mop: MemoryUserOp, required: uint256, gasUsed: int)
    requires Ready(w)
    ensures Framed(w, ValidatePaymasterPrepayment(blk, w, batch, index, s, mop, required, gasUsed), batch,
                   TakenBy(mop.paymaster, false, required))
    decreases s, 2
  {
    hide MeterExtends, Grows, Genuine, RunWithin;
    MeterStays(w.m, batch);
    Stays(w, batch);
    if mop.paymaster != ZERO_ADDRESS && gasUsed < mop.verificationGasLimit
       && required <= Info(w.st, mop.paymaster).deposit && mop.paymaster in w.st.code {
      var e := PrefundTaken(batch, index, mop.paymaster, required);
      var w1 := Commit(w, e);
      CommitExtends(w, e, batch);
      ReadyAfter(w, w1, batch, required);
      var limit: nat := mop.verificationGasLimit - gasUsed;
      EnterReady(w1, limit);
      FrameActionsWithin(blk, w1, limit, s.paymaster.actions, batch);
      var w2 := RunWithin(blk, w1, limit, s.paymaster.actions);
      Trans(w, w1, w2, batch, required, 0);
      ExtendsMeter(w, w2, batch, required);
      GrownIsGenuine(w, w2, batch, required);
      var w3 := Note(w2, Approved(batch, index, s.op));
      NoteExtends(w2, Approved(batch, index, s.op), batch);
      Trans(w, w2, w3, batch, required, 0);
      BurnExtends(w3, s.gas.paymaster, batch);
      Trans(w, w3, Burn(w3, s.gas.paymaster), batch, required, 0);
    }
  }

  /** Limits that cannot wrap when they are added. */
  predicate SmallLimits(mop: MemoryUserOp) {
    mop.callGasLimit < TWO_120 && mop.verificationGasLimit < TWO_120
  }

  predicate AllSmall(infos: seq<UserOpInfo>) {
    forall i :: 0 <= i < |infos| ==> SmallLimits(infos[i].mUserOp)
  }

  lemma CheckedLimits(op: UserOperation)
    requires GasValues(op) < TWO_120
    ensures op.callGasLimit < TWO_120 && op.verificationGasLimit < TWO_120
  {
    hide BitOr;
  }

  lemma {:induction false} FramePrepayment(blk: Block, w: World, batch: nat, index: nat, s: OpScript)
    requires ReadyFor(w, batch)
    ensures var o := ValidatePrepayment(blk, w, batch, index, s);
            Framed(w, o, batch, if o.Done? then o.value.info.prefund else 0)
            && (o.Done? ==> AccountValidated(batch, index, s.op, s.signer, o.value.word) in o.world.st.log
                            && SmallLimits(o.value.info.mUserOp))
    decreases s, 4
  {
    hide MeterExtends, Grows, Genuine, ValidateAccountPrepayment, ValidatePaymasterPrepayment, RequiredPrefund,
         GasValues;
    MeterStays(w.m, batch);
    if CopyUserOpToMemory(s.op).Ok? && GasValues(s.op) < TWO_120 {
      CheckedLimits(s.op);
      var mop := CopyUserOpToMemory(s.op).value;
      var required := RequiredPrefund(mop);
      var w0 := Burn(w, s.gas.entry);
      BurnExtends(w, s.gas.entry, batch);
      ReadyAfter(w, w0, batch, 0);
      var o1 := ValidateAccountPrepayment(blk, w0, batch, index, s, mop, required);
      FrameAccountPrepayment(blk, w0, batch, index, s, mop, required);
      var t1, t2 := TakenBy(mop.paymaster, true, required), TakenBy(mop.paymaster, false, required);
      Then(w, w0, o1, batch, 0, t1);
      if o1.Done? {
        var w1 := o1.world;
        ReadyAfter(w0, w1, batch, t1);
        var o2 := ValidatePaymasterPrepayment(blk, w1, batch, index, s, mop, required, o1.value.0);
        FramePaymasterPrepayment(blk, w1, batch, index, s, mop, required, o1.value.0);
        Then(w, w1, o2, batch, t1, t2);
        if o2.Done? {
          var w2 := o2.world;
          LogKeeps(w1, w2, batch, t2, AccountValidated(batch, index, s.op, s.signer, o1.value.1));
          GrownIsGenuine(w, w2, batch, t1 + t2);
          var w3 := Burn(w2, s.gas.tail);
          BurnExtends(w2, s.gas.tail, batch);
          Trans(w, w2, w3, batch, required, 0);
          ExtendsMeter(w, w3, batch, required);
          BurnExtends(w3, s.gas.seal, batch);
          Trans(w, w3, Burn(w3, s.gas.seal), batch, required, 0);
        }
      }
    }
  }

  function SumPrefunds(infos: seq<UserOpInfo>): nat {
    if |infos| == 0 then 0 else infos[0].prefund + SumPrefunds(infos[1..])
  }

  lemma {:induction false} SumPrefundsAppend(a: seq<UserOpInfo>, b: seq<UserOpInfo>)
    ensures SumPrefunds(a + b) == SumPrefunds(a) + SumPrefunds(b)
  {
    if |a| == 0 {
      assert a + b == b;
    } else {
      SumPrefundsAppend(a[1..], b);
      assert (a + b)[1..] == a[1..] + b;
    }
  }

  lemma {:induction false} FrameValidateOp(blk: Block, w: World, batch: nat, index: nat, reported: nat,
                                           aggregator: Address, s: OpScript)
    requires ReadyFor(w, batch) && aggregator != 1
    ensures var o := ValidateOp(blk, w, batch, index, reported, aggregator, s);
            Framed(w, o, batch, if o.Done? then o.value.prefund else 0) && (o.Done? ==> SmallLimits(o.value.mUserOp))
    decreases s, 5
  {
    hide MeterExtends, Grows, ValidatePrepayment, Genuine, CheckValidationData;
    var o1 := ValidatePrepayment(blk, w, batch, index, s);
    FramePrepayment(blk, w, batch, index, s);
    if o1.Done? {
      var w1, r := o1.world, o1.value;
      GrownIsGenuine(w, w1, batch, r.info.prefund);
      ExtendsMeter(w, w1, batch, r.info.prefund);
      if CheckValidationData(blk.timestamp, r.word, r.pmWord, aggregator) == None {
        var e := Accepted(batch, index, s.op, r.word, aggregator);
        WordNamesAggregator(blk.timestamp, r.word, r.pmWord, aggregator);
        CommitExtends(w1, e, batch);
        Trans(w, w1, Commit(w1, e), batch, r.info.prefund, 0);
        GrownIsGenuine(w1, Commit(w1, e), batch, 0);
        var t := Validated(batch, index, s.op);
        NoteExtends(Commit(w1, e), t, batch);
        Trans(w, Commit(w1, e), Note(Commit(w1, e), t), batch, r.info.prefund, 0);
      }
    }
  }

  lemma WordNamesAggregator(now: nat, word: uint256, pmWord: uint256, aggregator: Address)
    requires CheckValidationData(now, word, pmWord, aggregator) == None
    ensures word % TWO_160 == aggregator
  {
  }

  lemma {:induction false} FrameValidateOps(blk: Block, w: World, batch: nat, index: nat, reported: nat,
                                            aggregator: Address, ops: seq<OpScript>)
    requires ReadyFor(w, batch) && aggregator != 1
    ensures var o := ValidateOps(blk, w, batch, index, reported, aggregator, ops);
            Framed(w, o, batch, if o.Done? then SumPrefunds(o.value) else 0) && (o.Done? ==> AllSmall(o.value))
    decreases ops, 0
  {
    hide MeterExtends, Grows, StateExtends, Genuine, ValidateOp;
    if |ops| == 0 {
      Stays(w, batch);
    } else {
      var o1 := ValidateOp(blk, w, batch, index, reported, aggregator, ops[0]);
      FrameValidateOp(blk, w, batch, index, reported, aggregator, ops[0]);
      if o1.Done? {
        ReadyAfter(w, o1.world, batch, o1.value.prefund);
        var o2 := ValidateOps(blk, o1.world, batch, index + 1, reported + 1, aggregator, ops[1..]);
        FrameValidateOps(blk, o1.world, batch, index + 1, reported + 1, aggregator, ops[1..]);
        Then(w, o1.world, o2, batch, o1.value.prefund, if o2.Done? then SumPrefunds(o2.value) else 0);
        if o2.Done? {
          assert ([o1.value] + o2.value)[1..] == o2.value;
        }
      }
    }
  }

  // ---------- execution ----------

  lemma {:induction false} FrameCallAccount(blk: Block, w: World, s: OpScript, own: int)
    requires Ready(w)
    ensures Extends(w, CallAccount(blk, w, s).0, own, 0)
    decreases s, 1
  {
    hide Grows, Genuine, RunReplyWithin, TryDeposit, Bounded;
    Stays(w, own);
    var sender := s.op.sender;
    if sender in w.st.code && w.st.code[sender].Simple? && SelectsValidateUserOp(s.op.callData) {
      if s.exec.selfCall.Some? {
        var c := s.exec.selfCall.value;
        if ValidateUserOp(w.st.code[sender].account, c.nonce, c.creating, c.signer).Ok? {
          var e := Revalidated(s.op, c.nonce, c.creating);
          CommitExtends(w, e, own);
          ReadyAfter(w, Commit(w, e), own, 0);
          FrameDeposit(Commit(w, e), sender, c.missing, own);
          Trans(w, Commit(w, e), TryDeposit(Commit(w, e), sender, c.missing), own, 0, 0);
        }
      }
    } else {
      EnterReady(w, s.op.callGasLimit);
      FrameReplyWithin(blk, w, s.op.callGasLimit, s.exec.reply, own);
    }
  }

  lemma {:induction false} FrameCallPostOp(blk: Block, w: World, batch: nat, index: nat, reported: nat,
                                           mode: PostOpMode, info: UserOpInfo, actualGas: uint256, post: PostReply)
    requires Ready(w)
    ensures Framed(w, CallPostOp(blk, w, batch, index, reported, mode, info, actualGas, post), batch, 0)
    decreases post, 0
  {
    hide Grows, MeterExtends, RunWithin, Bounded, Genuine, PostOpCost;
    Stays(w, batch);
    var limit := info.mUserOp.verificationGasLimit;
    var t := PostOpCalled(batch, index, info.mUserOp.paymaster, mode, PostOpCost(blk, info, actualGas));
    var w1 := Note(w, t);
    NoteExtends(w, t, batch);
    ReadyAfter(w, w1, batch, 0);
    EnterReady(w1, limit);
    FrameActionsWithin(blk, w1, limit, post.actions, batch);
    Trans(w, w1, RunWithin(blk, w1, limit, post.actions), batch, 0, 0);
    ExtendsMeter(w, RunWithin(blk, w1, limit, post.actions), batch, 0);
  }

  lemma {:induction false} FrameHandlePostOp(blk: Block, w: World, batch: nat, index: nat, reported: nat,
                                             mode: PostOpMode, info: UserOpInfo, actualGas: uint256, post: PostReply,
                                             use: nat)
    requires ReadyFor(w, batch) && LimitFits(w.st.stack, info.mUserOp.verificationGasLimit)
    ensures var o := HandlePostOp(blk, w, batch, index, reported, mode, info, actualGas, post, use);
            Framed(w, o, batch, if o.Done? then o.value - info.prefund else 0)
            && (o.Done? ==> o.value <= info.prefund)
    decreases post, 1
  {
    hide MeterExtends, Grows, Genuine, CallPostOp, UserOpGasPrice, Wrap, LimitFits, Bounded;
    var o1 := CallPostOp(blk, w, batch, index, reported, mode, info, actualGas, post);
    FrameCallPostOp(blk, w, batch, index, reported, mode, info, actualGas, post);
    if o1.Done? {
      GrownIsGenuine(w, o1.world, batch, 0);
      var w2 := Burn(o1.world, use);
      BurnExtends(o1.world, use, batch);
      Trans(w, o1.world, w2, batch, 0, 0);
      ExtendsMeter(w, w2, batch, 0);
      var o := HandlePostOp(blk, w, batch, index, reported, mode, info, actualGas, post, use);
      if o.Done? {
        FrameSettle(w, w2, batch, index, info, o.value, mode);
      }
    }
  }

  lemma FrameSettle(w: World, w2: World, batch: nat, index: nat, info: UserOpInfo, cost: uint256, mode: PostOpMode)
    requires ReadyFor(w, batch) && LimitFits(w.st.stack, info.mUserOp.verificationGasLimit) && Extends(w, w2, batch, 0)
    requires cost <= info.prefund && IncrementDepositError(w2.st, Payer(info.mUserOp), info.prefund - cost) == None
    ensures Extends(w, Commit(w2, SettlementOf(batch, index, info, cost, mode)), batch, cost - info.prefund)
  {
    hide MeterExtends, StateExtends, Genuine, LimitFits, Bounded;
    var e := SettlementOf(batch, index, info, cost, mode);
    CommitExtends(w2, e, batch);
    Trans(w, w2, Commit(w2, e), batch, 0, cost - info.prefund);
  }

  /** With the gas that was checked at hand, the operation is not executed inside a creation with a smaller limit. */
  lemma LimitChecked(w: World, mop: MemoryUserOp)
    requires Ready(w) && SmallLimits(mop)
    requires Wrap(Wrap(mop.callGasLimit + mop.verificationGasLimit) + GAS_MARGIN) <= Forwarded(w.m.gas)
    ensures LimitFits(w.st.stack, mop.verificationGasLimit)
  {
    hide Genuine, Wrap;
    NoLimitWraps(mop);
  }

  lemma NoLimitWraps(mop: MemoryUserOp)
    requires SmallLimits(mop)
    ensures Wrap(Wrap(mop.callGasLimit + mop.verificationGasLimit) + GAS_MARGIN)
            == mop.callGasLimit + mop.verificationGasLimit + GAS_MARGIN
  {
  }

  lemma MarkerIsRecognised()
    ensures InnerRevertCode(Raw(Word(INNER_OUT_OF_GAS))) == OutOfGasMarker
  {
    assert Word(INNER_OUT_OF_GAS)[..32] == Word(INNER_OUT_OF_GAS);
  }

  lemma {:induction false} FrameHandleInner(blk: Block, w: World, batch: nat, index: nat, s: OpScript, info: UserOpInfo)
    requires ReadyFor(w, batch) && SmallLimits(info.mUserOp)
    ensures var o := HandleInner(blk, w, batch, index, s, info);
            Framed(w, o, batch, if o.Done? then o.value - info.prefund else 0)
            && (o.Done? ==> o.value <= info.prefund)
            && (o.Done? || InnerRevertCode(o.error) == AnythingElse ==>
                LimitFits(w.st.stack, info.mUserOp.verificationGasLimit))
    decreases s, 2
  {
    hide MeterExtends, Grows, CallAccount, HandlePostOp, Genuine, LimitFits, Bounded, Wrap;
    MarkerIsRecognised();
    MeterStays(w.m, batch);
    if Wrap(Wrap(info.mUserOp.callGasLimit + info.mUserOp.verificationGasLimit) + GAS_MARGIN) <= Forwarded(w.m.gas) {
      LimitChecked(w, info.mUserOp);
      var t := Called(batch, index, s.op.sender, s.op.callData);
      Stays(w, batch);
      NoteExtends(w, t, batch);
      ReadyAfter(w, Note(w, t), batch, 0);
      FrameCallAccount(blk, Note(w, t), s, batch);
      var called := CallAccount(blk, Note(w, t), s);
      Trans(w, Note(w, t), called.0, batch, 0, 0);
      var (w1, ok) := if |s.op.callData| == 0 then (w, true) else called;
      GrownIsGenuine(w, w1, batch, 0);
      var w2 := Burn(w1, s.gas.inner);
      BurnExtends(w1, s.gas.inner, batch);
      Trans(w, w1, w2, batch, 0, 0);
      ExtendsMeter(w, w2, batch, 0);
      ReadyAfter(w, w2, batch, 0);
      var actualGas := Wrap(w.m.gas - w2.m.gas + info.preOpGas);
      var mode := if ok then OpSucceeded else OpReverted;
      var o := HandlePostOp(blk, w2, batch, index, 0, mode, info, actualGas, s.post, s.gas.post);
      FrameHandlePostOp(blk, w2, batch, index, 0, mode, info, actualGas, s.post, s.gas.post);
      Then(w, w2, o, batch, 0, if o.Done? then o.value - info.prefund else 0);
    }
  }

  lemma {:induction false} FrameExecuteUserOp(blk: Block, w: World, batch: nat, index: nat, s: OpScript,
                                              info: UserOpInfo)
    requires ReadyFor(w, batch) && SmallLimits(info.mUserOp)
    ensures var o := ExecuteUserOp(blk, w, batch, index, s, info);
            Framed(w, o, batch, if o.Done? then o.value - info.prefund else 0)
            && (o.Done? ==> o.value <= info.prefund)
    decreases s, 3
  {
    hide MeterExtends, Grows, HandleInner, HandlePostOp, Genuine, InnerRevertCode, LimitFits, Bounded, Wrap;
    var w0 := Burn(w, s.gas.call);
    BurnExtends(w, s.gas.call, batch);
    ReadyAfter(w, w0, batch, 0);
    var o1 := HandleInner(blk, w0, batch, index, s, info);
    FrameHandleInner(blk, w0, batch, index, s, info);
    Then(w, w0, o1, batch, 0, if o1.Done? then o1.value - info.prefund else 0);
    if o1.Reverted? && InnerRevertCode(o1.error) == AnythingElse {
      var w1 := World(w.st, o1.m);
      RollbackExtends(w, o1.m, batch);
      var w2 := Burn(w1, s.gas.outer);
      BurnExtends(w1, s.gas.outer, batch);
      Trans(w, w1, w2, batch, 0, 0);
      ReadyAfter(w, w2, batch, 0);
      var actualGas := Wrap(w.m.gas - w2.m.gas + info.preOpGas);
      var o2 := HandlePostOp(blk, w2, batch, index, index, PostOpReverted, info, actualGas, s.postAgain,
                             s.gas.postAgain);
      FrameHandlePostOp(blk, w2, batch, index, index, PostOpReverted, info, actualGas, s.postAgain, s.gas.postAgain);
      Then(w, w2, o2, batch, 0, if o2.Done? then o2.value - info.prefund else 0);
    }
  }

  lemma EscrowFits(st: State, amount: nat)
    requires Sound(st) && amount <= st.escrow
    ensures Wrap(amount) == amount <= st.balance
  {
    hide Genuine, Info, Owed;
    Solvent(st, ZERO_ADDRESS);
  }

  /** What was collected and what is still held stay within the escrow. */
  lemma {:induction false} FrameExecuteOps(blk: Block, w: World, batch: nat, index: nat, ops: seq<OpScript>,
                                           infos: seq<UserOpInfo>, collected: uint256)
    requires ReadyFor(w, batch) && AllSmall(infos) && |infos| == |ops| && SumPrefunds(infos) + collected <= w.st.escrow
    ensures var o := ExecuteOps(blk, w, batch, index, ops, infos, collected);
            Framed(w, o, batch, if o.Done? then o.value - collected - SumPrefunds(infos) else 0)
            && (o.Done? ==> collected <= o.value)
    decreases ops, 0
  {
    hide MeterExtends, Grows, ExecuteUserOp, Genuine, Wrap, Bounded;
    if |ops| == 0 {
      Stays(w, batch);
    } else {
      var o1 := ExecuteUserOp(blk, w, batch, index, ops[0], infos[0]);
      FrameExecuteUserOp(blk, w, batch, index, ops[0], infos[0]);
      if o1.Done? {
        ReadyAfter(w, o1.world, batch, o1.value - infos[0].prefund);
        EscrowFits(o1.world.st, collected + o1.value);
        SmallTail(infos);
        var o2 := ExecuteOps(blk, o1.world, batch, index + 1, ops[1..], infos[1..], collected + o1.value);
        FrameExecuteOps(blk, o1.world, batch, index + 1, ops[1..], infos[1..], collected + o1.value);
        Then(w, o1.world, o2, batch, o1.value - infos[0].prefund,
             if o2.Done? then o2.value - (collected + o1.value) - SumPrefunds(infos[1..]) else 0);
      }
    }
  }

  lemma SmallTail(infos: seq<UserOpInfo>)
    requires AllSmall(infos) && |infos| > 0
    ensures AllSmall(infos[1..])
  {
    assert forall i :: 0 <= i < |infos[1..]| ==> infos[1..][i] == infos[i + 1];
  }

  lemma {:induction false} FrameCompensate(blk: Block, w: World, batch: nat, beneficiary: Address, amount: uint256,
                                           payee: Reply)
    requires ReadyFor(w, batch) && amount <= w.st.escrow
    ensures match Compensate(blk, w, batch, beneficiary, amount, payee)
            case Done(w', _) => Grows(w, w', batch, 0 - amount) && w'.st.stack == Pop(w.st.stack)
            case Reverted(m, _) => MeterExtends(w.m, m, batch)
    decreases payee, 1
  {
    hide MeterExtends, Genuine, RunReply, StateExtends;
    MeterStays(w.m, batch);
    if beneficiary != ZERO_ADDRESS && amount <= w.st.balance {
      var e := Paid(batch, beneficiary, amount);
      CommitGrows(w, e, batch);
      FrameReply(blk, Commit(w, e), payee, batch);
      GrowTrans(w, Commit(w, e), RunReply(blk, Commit(w, e), payee).0, batch, 0 - amount, 0);
    }
  }

  /** From the first operation to the payment: the batch closes, and its escrow is used up. */
  lemma {:induction false} FrameClosing(blk: Block, w: World, w1: World, w2: World, batch: nat, taken: nat,
                                        collected: uint256, beneficiary: Address, payee: Reply)
    requires ReadyFor(w, batch) && w.st.escrow >= 0
    requires Extends(w, w1, batch, taken) && Extends(w1, w2, batch, collected - taken)
    ensures match Compensate(blk, w2, batch, beneficiary, collected, payee)
            case Done(w3, _) => Grows(w, w3, batch, 0) && w3.st.stack == Pop(w.st.stack)
            case Reverted(m, _) => MeterExtends(w.m, m, batch)
    decreases payee, 2
  {
    hide Grows, MeterExtends, Compensate;
    Trans(w, w1, w2, batch, taken, collected - taken);
    ReadyAfter(w, w2, batch, collected);
    FrameCompensate(blk, w2, batch, beneficiary, collected, payee);
    match Compensate(blk, w2, batch, beneficiary, collected, payee)
    case Done(w3, _) => GrowTrans(w, w2, w3, batch, collected, 0 - collected);
    case Reverted(m, _) =>
      ExtendsMeter(w, w2, batch, collected);
      MeterTrans(w.m, w2.m, m, batch);
  }

  lemma {:induction false} FrameHandleOps(blk: Block, w: World, a: Action, own: int)
    requires Ready(w) && a.HandleOps?
    ensures Framed(w, PerformHandleOps(blk, w, a), own, 0)
    decreases a, 0
  {
    hide MeterExtends, Grows, Genuine, ValidateOps, ExecuteOps, Compensate, OpenBatch, Bounded;
    var batch, w0 := w.m.nextBatch, OpenBatch(w);
    OpensBatch(w);
    var o1 := ValidateOps(blk, w0, batch, 0, 0, ZERO_ADDRESS, a.ops);
    FrameValidateOps(blk, w0, batch, 0, 0, ZERO_ADDRESS, a.ops);
    if o1.Reverted? {
      MeterInsideBatch(w, o1.m, own);
    } else {
      var taken := SumPrefunds(o1.value);
      ReadyAfter(w0, o1.world, batch, taken);
      var o2 := ExecuteOps(blk, o1.world, batch, 0, a.ops, o1.value, 0);
      FrameExecuteOps(blk, o1.world, batch, 0, a.ops, o1.value, 0);
      Then(w0, o1.world, o2, batch, taken, if o2.Done? then o2.value - taken else 0);
      if o2.Reverted? {
        MeterInsideBatch(w, o2.m, own);
      } else {
        FrameClosing(blk, w0, o1.world, o2.world, batch, taken, o2.value, a.beneficiary, a.payee);
        match Compensate(blk, o2.world, batch, a.beneficiary, o2.value, a.payee)
        case Done(w3, _) => InsideBatch(w, w3, own, 0);
        case Reverted(m, _) => MeterInsideBatch(w, m, own);
      }
    }
  }

  // ---------- aggregated operations ----------

  predicate NoSignatureMarker(groups: seq<Group>) {
    forall i :: 0 <= i < |groups| ==> groups[i].aggregator != 1
  }

  lemma {:induction false} AggregatorsChecked(st: State, groups: seq<Group>)
    requires CheckAggregators(st, groups) == None
    ensures NoSignatureMarker(groups)
  {
    if |groups| > 0 {
      AggregatorsChecked(st, groups[1..]);
      forall i | 0 <= i < |groups|
        ensures groups[i].aggregator != 1
      {
        if i > 0 {
          assert groups[1..][i - 1] == groups[i];
        }
      }
    }
  }

  lemma {:induction false} FrameValidateGroups(blk: Block, w: World, batch: nat, opIndex: nat, groups: seq<Group>)
    requires ReadyFor(w, batch) && NoSignatureMarker(groups)
    ensures var o := ValidateGroups(blk, w, batch, opIndex, groups);
            Framed(w, o, batch, if o.Done? then SumPrefunds(o.value) else 0) && (o.Done? ==> AllSmall(o.value))
    decreases groups, 1
  {
    hide MeterExtends, Grows, Genuine, ValidateOps, Bounded, SumPrefunds, SmallLimits, AllSmall;
    if |groups| == 0 {
      Stays(w, batch);
      NothingSmall();
    } else {
      var g := groups[0];
      var o1 := ValidateOps(blk, w, batch, opIndex, 0, g.aggregator, g.ops);
      FrameValidateOps(blk, w, batch, opIndex, 0, g.aggregator, g.ops);
      if o1.Done? {
        ReadyAfter(w, o1.world, batch, SumPrefunds(o1.value));
        var o2 := ValidateGroups(blk, o1.world, batch, opIndex + |g.ops|, groups[1..]);
        FrameValidateGroups(blk, o1.world, batch, opIndex + |g.ops|, groups[1..]);
        Then(w, o1.world, o2, batch, SumPrefunds(o1.value), if o2.Done? then SumPrefunds(o2.value) else 0);
        if o2.Done? {
          SumPrefundsAppend(o1.value, o2.value);
          SmallAppend(o1.value, o2.value);
        }
      }
    }
  }

  lemma NothingSmall()
    ensures SumPrefunds([]) == 0 && AllSmall([])
  {
  }

  lemma SmallAppend(a: seq<UserOpInfo>, b: seq<UserOpInfo>)
    requires AllSmall(a) && AllSmall(b)
    ensures AllSmall(a + b)
  {
    hide SmallLimits;
  }

  lemma {:induction false} FrameExecuteGroups(blk: Block, w: World, batch: nat, opIndex: nat, groups: seq<Group>,
                                              infos: seq<UserOpInfo>, collected: uint256)
    requires ReadyFor(w, batch) && AllSmall(infos)
    requires |infos| == |Flatten(groups)| && SumPrefunds(infos) + collected <= w.st.escrow
    ensures var o := ExecuteGroups(blk, w, batch, opIndex, groups, infos, collected);
            Framed(w, o, batch, if o.Done? then o.value - collected - SumPrefunds(infos) else 0)
            && (o.Done? ==> collected <= o.value)
    decreases groups, 1
  {
    hide MeterExtends, Grows, Genuine, ExecuteOps, Bounded;
    if |groups| == 0 {
      Stays(w, batch);
    } else {
      var g := groups[0];
      var mine, rest := infos[..|g.ops|], infos[|g.ops|..];
      SumPrefundsAppend(mine, rest);
      assert mine + rest == infos;
      var o1 := ExecuteOps(blk, w, batch, opIndex, g.ops, mine, collected);
      FrameExecuteOps(blk, w, batch, opIndex, g.ops, mine, collected);
      if o1.Done? {
        ReadyAfter(w, o1.world, batch, o1.value - collected - SumPrefunds(mine));
        var o2 := ExecuteGroups(blk, o1.world, batch, opIndex + |g.ops|, groups[1..], rest, o1.value);
        FrameExecuteGroups(blk, o1.world, batch, opIndex + |g.ops|, groups[1..], rest, o1.value);
        Then(w, o1.world, o2, batch, o1.value - collected - SumPrefunds(mine),
             if o2.Done? then o2.value - o1.value - SumPrefunds(rest) else 0);
      }
    }
  }

  lemma {:induction false} FrameHandleAggregatedOps(blk: Block, w: World, a: Action, own: int)
    requires Ready(w) && a.HandleAggregatedOps?
    ensures Framed(w, PerformHandleAggregatedOps(blk, w, a), own, 0)
    decreases a, 0
  {
    hide MeterExtends, Grows, Genuine, ValidateGroups, ExecuteGroups, Compensate, CheckAggregators, OpenBatch, Bounded;
    MeterStays(w.m, own);
    if CheckAggregators(w.st, a.groups) == None {
      AggregatorsChecked(w.st, a.groups);
      var batch, w0 := w.m.nextBatch, OpenBatch(w);
      OpensBatch(w);
      var o1 := ValidateGroups(blk, w0, batch, 0, a.groups);
      FrameValidateGroups(blk, w0, batch, 0, a.groups);
      if o1.Reverted? {
        MeterInsideBatch(w, o1.m, own);
      } else {
        var taken := SumPrefunds(o1.value);
        ReadyAfter(w0, o1.world, batch, taken);
        var o2 := ExecuteGroups(blk, o1.world, batch, 0, a.groups, o1.value, 0);
        FrameExecuteGroups(blk, o1.world, batch, 0, a.groups, o1.value, 0);
        Then(w0, o1.world, o2, batch, taken, if o2.Done? then o2.value - taken else 0);
        if o2.Reverted? {
          MeterInsideBatch(w, o2.m, own);
        } else {
          FrameClosing(blk, w0, o1.world, o2.world, batch, taken, o2.value, a.beneficiary, a.payee);
          match Compensate(blk, o2.world, batch, a.beneficiary, o2.value, a.payee)
          case Done(w3, _) => InsideBatch(w, w3, own, 0);
          case Reverted(m, _) => MeterInsideBatch(w, m, own);
        }
      }
    }
  }
}
