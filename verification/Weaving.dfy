/**
 * Whole runs: whatever is nested, rolled back or interleaved, the log and the trace are woven from batches.
 * Each batch left all of its events or none, and a prefix of its trace.
 */
module Weaving {
  import opened Evm
  import opened Validation
  import opened SimpleAccounts
  import opened Ledger
  import opened Protocol
  import opened Frames
  import opened Aggregated
  import opened Batches

  /** What one committed batch is made of. */
  datatype Batch = Batch(ops: seq<OpScript>, words: seq<uint256>, endings: seq<Ending>, beneficiary: Address)

  ghost predicate WellFormed(p: Batch) {
    |p.words| == |p.ops| && Affordable(p.ops, p.endings) && Sum(p.endings) < TWO_256
  }

  function EventsOf(batch: nat, p: Batch): seq<Event>
    requires |p.words| == |p.ops| == |p.endings| && Sum(p.endings) < TWO_256
  {
    BatchEvents(batch, p.ops, p.words, p.endings, p.beneficiary)
  }

  /** All the events of the batch with its whole trace, or no event with a part of its trace. */
  ghost predicate Explains(p: Batch, events: seq<Event>, traces: seq<Trace>, batch: nat) {
    && WellFormed(p)
    && traces <= BatchTraces(batch, p.ops, p.endings)
    && (events == [] || (events == EventsOf(batch, p) && traces == BatchTraces(batch, p.ops, p.endings)))
  }

  ghost predicate Whole(events: seq<Event>, traces: seq<Trace>, batch: nat) {
    exists p :: Explains(p, events, traces, batch)
  }

  ghost predicate WholeBatch(w: World, w': World, batch: nat)
    requires w.st.log <= w'.st.log && w.m.history <= w'.m.history
  {
    && Whole(Own(w, w', batch), OwnTrace(w.m, w'.m, batch), batch)
    && (w'.m.nextBatch <= batch ==> Own(w, w', batch) == [] && OwnTrace(w.m, w'.m, batch) == [])
  }

  ghost predicate PartialBatch(m: Meter, m': Meter, batch: nat)
    requires m.history <= m'.history
  {
    && Whole([], OwnTrace(m, m', batch), batch)
    && (m'.nextBatch <= batch ==> OwnTrace(m, m', batch) == [])
  }

  /** Of the batches opened between two points, each is whole. */
  ghost predicate Woven(w: World, w': World, own: int) {
    && MeterExtends(w.m, w'.m, own)
    && StateExtends(w.st, w'.st, own, w.m.nextBatch)
    && forall b: nat :: w.m.nextBatch <= b ==> WholeBatch(w, w', b)
  }

  ghost predicate MeterWoven(m: Meter, m': Meter, own: int) {
    && MeterExtends(m, m', own)
    && forall b: nat :: m.nextBatch <= b ==> PartialBatch(m, m', b)
  }

  ghost predicate Stage<T>(w: World, o: Outcome<T>, own: int) {
    match o
    case Done(w', _) => Woven(w, w', own)
    case Reverted(m, _) => MeterWoven(w.m, m, own)
  }

  // ---------- composition ----------

  const NOTHING := Batch([], [], [], 0)

  lemma NothingIsWhole(batch: nat)
    ensures Whole([], [], batch)
  {
    assert Explains(NOTHING, [], [], batch);
  }

  lemma WithoutEvents(events: seq<Event>, traces: seq<Trace>, batch: nat)
    requires Whole(events, traces, batch)
    ensures Whole([], traces, batch)
  {
    var p :| Explains(p, events, traces, batch);
    assert Explains(p, [], traces, batch);
  }

  lemma NothingOwn(w: World, w': World, own: int, batch: nat)
    requires MeterExtends(w.m, w'.m, own) && StateExtends(w.st, w'.st, own, w.m.nextBatch)
    requires own < batch < w.m.nextBatch
    ensures Own(w, w', batch) == [] && OwnTrace(w.m, w'.m, batch) == []
  {
    NoTraceOwn(w.m, w'.m, own, batch);
    var added := Since(w.st, w'.st);
    forall k | 0 <= k < |added|
      ensures BatchOf(added[k]) != batch
    {
      assert added[k] == w'.st.log[|w.st.log| + k];
      assert Allowed(BatchOf(w'.st.log[|w.st.log| + k]), own, w.m.nextBatch);
    }
    FilterNone(added, InBatch(batch));
  }

  lemma NoTraceOwn(m: Meter, m': Meter, own: int, batch: nat)
    requires MeterExtends(m, m', own) && own < batch < m.nextBatch
    ensures OwnTrace(m, m', batch) == []
  {
    var added := m'.history[|m.history|..];
    forall k | 0 <= k < |added|
      ensures BatchOfTrace(added[k]) != batch
    {
      assert added[k] == m'.history[|m.history| + k];
      assert AllowedTrace(m'.history[|m.history| + k], own, m.nextBatch);
    }
    FilterNone(added, TraceInBatch(batch));
  }

  lemma JoinBatch(w: World, w1: World, w2: World, own: int, batch: nat)
    requires Woven(w, w1, own) && Woven(w1, w2, own) && own < w.m.nextBatch <= batch
    ensures w.st.log <= w2.st.log && w.m.history <= w2.m.history && WholeBatch(w, w2, batch)
  {
    hide Whole, Own, OwnTrace, AllowedTrace, Allowed;
    OwnTrans(w, w1, w2, batch);
    OwnTraceTrans(w.m, w1.m, w2.m, batch);
    assert WholeBatch(w, w1, batch);
    if batch < w1.m.nextBatch {
      NothingOwn(w1, w2, own, batch);
      assert Own(w, w1, batch) + [] == Own(w, w1, batch);
      assert OwnTrace(w.m, w1.m, batch) + [] == OwnTrace(w.m, w1.m, batch);
    } else {
      assert WholeBatch(w1, w2, batch);
      assert [] + Own(w1, w2, batch) == Own(w1, w2, batch);
      assert [] + OwnTrace(w1.m, w2.m, batch) == OwnTrace(w1.m, w2.m, batch);
    }
  }

  lemma JoinPartial(m: Meter, m1: Meter, m2: Meter, own: int, batch: nat)
    requires MeterWoven(m, m1, own) && MeterWoven(m1, m2, own) && own < m.nextBatch <= batch
    ensures m.history <= m2.history && PartialBatch(m, m2, batch)
  {
    hide Whole, OwnTrace, AllowedTrace;
    OwnTraceTrans(m, m1, m2, batch);
    assert PartialBatch(m, m1, batch);
    if batch < m1.nextBatch {
      NoTraceOwn(m1, m2, own, batch);
      assert OwnTrace(m, m1, batch) + [] == OwnTrace(m, m1, batch);
    } else {
      assert PartialBatch(m1, m2, batch);
      assert [] + OwnTrace(m1, m2, batch) == OwnTrace(m1, m2, batch);
    }
  }

  lemma StateTrans(st: State, st1: State, st2: State, own: int, next: nat, next1: nat)
    requires StateExtends(st, st1, own, next) && StateExtends(st1, st2, own, next1) && next <= next1
    ensures StateExtends(st, st2, own, next)
  {
    forall k | |st.log| <= k < |st2.log|
      ensures Allowed(BatchOf(st2.log[k]), own, next)
    {
      if k < |st1.log| {
        assert st2.log[k] == st1.log[k];
      }
    }
  }

  lemma Join(w: World, w1: World, w2: World, own: int)
    requires Woven(w, w1, own) && Woven(w1, w2, own) && own < w.m.nextBatch
    ensures Woven(w, w2, own)
  {
    hide WholeBatch, AllowedTrace, Allowed;
    MeterTrans(w.m, w1.m, w2.m, own);
    StateTrans(w.st, w1.st, w2.st, own, w.m.nextBatch, w1.m.nextBatch);
    forall b: nat | w.m.nextBatch <= b
      ensures WholeBatch(w, w2, b)
    {
      JoinBatch(w, w1, w2, own, b);
    }
  }

  lemma JoinMeters(m: Meter, m1: Meter, m2: Meter, own: int)
    requires MeterWoven(m, m1, own) && MeterWoven(m1, m2, own) && own < m.nextBatch
    ensures MeterWoven(m, m2, own)
  {
    hide PartialBatch, AllowedTrace;
    MeterTrans(m, m1, m2, own);
    forall b: nat | m.nextBatch <= b
      ensures PartialBatch(m, m2, b)
    {
      JoinPartial(m, m1, m2, own, b);
    }
  }

  lemma Forget(w: World, w': World, own: int)
    requires Woven(w, w', own)
    ensures MeterWoven(w.m, w'.m, own)
  {
    hide Whole, Own, OwnTrace, AllowedTrace;
    forall b: nat | w.m.nextBatch <= b
      ensures PartialBatch(w.m, w'.m, b)
    {
      assert WholeBatch(w, w', b);
      WithoutEvents(Own(w, w', b), OwnTrace(w.m, w'.m, b), b);
    }
  }

  lemma JoinStage<T>(w: World, w1: World, o: Outcome<T>, own: int)
    requires Woven(w, w1, own) && Stage(w1, o, own) && own < w.m.nextBatch
    ensures Stage(w, o, own)
  {
    match o
    case Done(w2, _) => Join(w, w1, w2, own);
    case Reverted(m, _) =>
      Forget(w, w1, own);
      JoinMeters(w.m, w1.m, m, own);
  }

  /** A step that adds nothing to later batches. */
  lemma Steady(w: World, w': World, own: int)
    requires MeterExtends(w.m, w'.m, own) && StateExtends(w.st, w'.st, own, w.m.nextBatch)
    requires forall b: nat :: w.m.nextBatch <= b ==> Own(w, w', b) == [] && OwnTrace(w.m, w'.m, b) == []
    ensures Woven(w, w', own)
  {
    hide Whole, Own, OwnTrace, AllowedTrace, Allowed;
    forall b: nat | w.m.nextBatch <= b
      ensures WholeBatch(w, w', b)
    {
      NothingIsWhole(b);
    }
  }

  lemma WeaveNothing(w: World, own: int)
    requires Genuine(w.st)
    ensures Woven(w, w, own) && MeterWoven(w.m, w.m, own)
  {
    Stays(w, own);
    forall b: nat | w.m.nextBatch <= b
      ensures Own(w, w, b) == [] && OwnTrace(w.m, w.m, b) == []
    {
      AddsNothing(w, b);
    }
    Steady(w, w, own);
    Forget(w, w, own);
  }

  lemma WeaveBurn(w: World, amount: nat, own: int)
    requires Genuine(w.st)
    ensures Woven(w, Burn(w, amount), own)
  {
    BurnExtends(w, amount, own);
    forall b: nat | w.m.nextBatch <= b
      ensures Own(w, Burn(w, amount), b) == [] && OwnTrace(w.m, Burn(w, amount).m, b) == []
    {
      AddsBurn(w, amount, b);
    }
    Steady(w, Burn(w, amount), own);
  }

  lemma WeaveNote(w: World, t: Trace, own: int)
    requires Genuine(w.st) && AllowedTrace(t, own, w.m.nextBatch) && BatchOfTrace(t) < w.m.nextBatch
    ensures Woven(w, Note(w, t), own)
  {
    NoteExtends(w, t, own);
    forall b: nat | w.m.nextBatch <= b
      ensures Own(w, Note(w, t), b) == [] && OwnTrace(w.m, Note(w, t).m, b) == []
    {
      AddsNote(w, t, b);
    }
    Steady(w, Note(w, t), own);
  }

  lemma WeaveCommit(w: World, e: Event, own: int)
    requires Genuine(w.st) && Enabled(w.st, e) && Allowed(BatchOf(e), own, w.m.nextBatch) && BatchOf(e) < w.m.nextBatch
    ensures Woven(w, Commit(w, e), own)
  {
    CommitGrows(w, e, own);
    forall b: nat | w.m.nextBatch <= b
      ensures Own(w, Commit(w, e), b) == [] && OwnTrace(w.m, Commit(w, e).m, b) == []
    {
      AddsCommit(w, e, b);
    }
    Steady(w, Commit(w, e), own);
  }

  /** A frame that failed leaves its trace but no event. */
  lemma WeaveRollback(w: World, m: Meter, own: int)
    requires Genuine(w.st) && MeterWoven(w.m, m, own)
    ensures Woven(w, World(w.st, m), own)
  {
    hide Whole, OwnTrace, AllowedTrace;
    RollbackExtends(w, m, own);
    assert Since(w.st, w.st) == [];
    forall b: nat | w.m.nextBatch <= b
      ensures WholeBatch(w, World(w.st, m), b)
    {
      assert PartialBatch(w.m, m, b);
    }
  }

  // ---------- environment ----------

  lemma {:induction false} WeaveActions(blk: Block, w: World, actions: seq<Action>, own: int)
    requires Ready(w) && own < w.m.nextBatch
    ensures Woven(w, RunActions(blk, w, actions), own)
    decreases actions, 0
  {
    hide Woven, Extends, MeterExtends, StateExtends, Genuine, RunAction, Bounded;
    var t := Observed(w.st);
    var w0 := Note(w, t);
    WeaveNote(w, t, own);
    ObservedExtends(w, own);
    ReadyAfter(w, w0, own, 0);
    if |actions| > 0 {
      var w1 := RunAction(blk, w0, actions[0]);
      WeaveAction(blk, w0, actions[0], own);
      FrameAction(blk, w0, actions[0], own);
      ReadyAfter(w0, w1, own, 0);
      WeaveActions(blk, w1, actions[1..], own);
      Join(w, w0, w1, own);
      Join(w, w1, RunActions(blk, w1, actions[1..]), own);
    }
  }

  lemma {:induction false} WeaveReply(blk: Block, w: World, r: Reply, own: int)
    requires Ready(w) && own < w.m.nextBatch
    ensures Woven(w, RunReply(blk, w, r).0, own)
    decreases r, 0
  {
    hide Woven, RunActions;
    var w' := RunActions(blk, w, r.actions);
    WeaveActions(blk, w, r.actions, own);
    Forget(w, w', own);
    WeaveRollback(w, w'.m, own);
  }

  /** A call that is given part of the gas. */
  lemma WeaveWithin(w: World, limit: nat, after: World, own: int)
    requires Woven(Enter(w, limit), after, own)
    ensures Woven(w, World(after.st, Leave(w, limit, after.m)), own)
  {
    hide Whole, AllowedTrace, Allowed;
    var w0, w' := Enter(w, limit), World(after.st, Leave(w, limit, after.m));
    forall b: nat | w.m.nextBatch <= b
      ensures WholeBatch(w, w', b)
    {
      assert WholeBatch(w0, after, b);
    }
  }

  lemma {:induction false} WeaveActionsWithin(blk: Block, w: World, limit: nat, actions: seq<Action>, own: int)
    requires Ready(Enter(w, limit)) && own < w.m.nextBatch
    ensures Woven(w, RunWithin(blk, w, limit, actions), own)
    decreases actions, 1
  {
    hide Woven, Ready, RunActions;
    WeaveActions(blk, Enter(w, limit), actions, own);
    WeaveWithin(w, limit, RunActions(blk, Enter(w, limit), actions), own);
  }

  lemma {:induction false} WeaveReplyWithin(blk: Block, w: World, limit: nat, r: Reply, own: int)
    requires Ready(Enter(w, limit)) && own < w.m.nextBatch
    ensures Woven(w, RunReplyWithin(blk, w, limit, r).0, own)
    decreases r, 1
  {
    hide Woven, Ready, RunReply;
    WeaveReply(blk, Enter(w, limit), r, own);
    WeaveWithin(w, limit, RunReply(blk, Enter(w, limit), r).0, own);
  }

  lemma {:induction false} WeaveAction(blk: Block, w: World, a: Action, own: int)
    requires Ready(w) && own < w.m.nextBatch
    ensures Woven(w, RunAction(blk, w, a), own)
    decreases a, 2
  {
    hide Woven, MeterWoven, Perform;
    WeavePerform(blk, w, a, own);
    match Perform(blk, w, a)
    case Done(_, _) =>
    case Reverted(m, _) => WeaveRollback(w, m, own);
  }

  lemma WeaveDeposit(w: World, account: Address, value: uint256, own: int)
    requires Ready(w) && own < w.m.nextBatch
    ensures Stage(w, PerformDepositTo(w, account, value), own)
    ensures Woven(w, TryDeposit(w, account, value), own)
  {
    hide Woven, MeterWoven;
    WeaveNothing(w, own);
    if PerformDepositTo(w, account, value).Done? {
      WeaveCommit(w, Deposited(account, value), own);
    }
  }

  lemma {:induction false} WeavePerform(blk: Block, w: World, a: Action, own: int)
    requires Ready(w) && own < w.m.nextBatch
    ensures Stage(w, Perform(blk, w, a), own)
    decreases a, 1
  {
    hide Woven, MeterWoven, RunReply, PerformWithdrawStake, PerformWithdrawTo, PerformHandleOps,
         PerformHandleAggregatedOps, Genuine;
    WeaveNothing(w, own);
    match a
    case DepositTo(_, account, value) => WeaveDeposit(w, account, value, own);
    case AddStake(sender, delay, value) =>
      if Perform(blk, w, a).Done? {
        WeaveCommit(w, StakeAdded(sender, delay, value), own);
      }
    case UnlockStake(sender) =>
      if Perform(blk, w, a).Done? {
        WeaveCommit(w, StakeUnlocked(sender, blk.timestamp), own);
      }
    case WithdrawStake(_, _) => WeaveWithdrawStake(blk, w, a, own);
    case WithdrawTo(_, _, _) => WeaveWithdrawTo(blk, w, a, own);
    case HandleOps(_, _, _) => WeaveHandleOps(blk, w, a, own);
    case HandleAggregatedOps(_, _, _) => WeaveHandleAggregatedOps(blk, w, a, own);
    case InnerHandleOp =>
    case Deploy(address, code) =>
      if Perform(blk, w, a).Done? {
        WeaveCommit(w, Deployed(address, code), own);
      }
    case Frame(body) => WeaveReply(blk, w, body, own);
    case UseGas(units) => WeaveBurn(w, units, own);
  }

  /** A commit, and a call after it that may fail. */
  lemma {:induction false} WeaveCommitReply(blk: Block, w: World, e: Event, r: Reply, own: int)
    requires Ready(w) && Enabled(w.st, e) && own < w.m.nextBatch && w.st.escrow + EscrowDelta(e) >= 0
    requires NewStack(w.st.stack, e) == w.st.stack || NewStack(w.st.stack, e) == Pop(w.st.stack)
    requires Allowed(BatchOf(e), own, w.m.nextBatch) && BatchOf(e) < w.m.nextBatch
    ensures Woven(w, RunReply(blk, Commit(w, e), r).0, own)
    ensures MeterWoven(w.m, RunReply(blk, Commit(w, e), r).0.m, own)
    decreases r, 1
  {
    hide Woven, MeterWoven, RunReply, Genuine, Enabled;
    var w1 := Commit(w, e);
    WeaveCommit(w, e, own);
    CommitReady(w, e);
    WeaveReply(blk, w1, r, own);
    Join(w, w1, RunReply(blk, w1, r).0, own);
    Forget(w, RunReply(blk, w1, r).0, own);
  }

  lemma {:induction false} WeaveWithdrawStake(blk: Block, w: World, a: Action, own: int)
    requires Ready(w) && a.WithdrawStake? && own < w.m.nextBatch
    ensures Stage(w, PerformWithdrawStake(blk, w, a), own)
    decreases a, 0
  {
    hide Woven, MeterWoven, RunReply, Genuine;
    WeaveNothing(w, own);
    var info := Info(w.st, a.sender);
    if WithdrawStakeError(blk, info) == None && info.stake <= w.st.balance {
      WeaveCommitReply(blk, w, StakeWithdrawn(a.sender, info.stake, blk.timestamp), a.recipient, own);
    }
  }

  lemma {:induction false} WeaveWithdrawTo(blk: Block, w: World, a: Action, own: int)
    requires Ready(w) && a.WithdrawTo? && own < w.m.nextBatch
    ensures Stage(w, PerformWithdrawTo(blk, w, a), own)
    decreases a, 0
  {
    hide Woven, MeterWoven, RunReply, Genuine;
    WeaveNothing(w, own);
    if a.amount <= Info(w.st, a.sender).deposit && a.amount <= w.st.balance {
      WeaveCommitReply(blk, w, Withdrawn(a.sender, a.amount), a.recipient, own);
    }
  }

  // ---------- validation ----------

  lemma {:induction false} WeaveCreateSender(blk: Block, w: World, batch: nat, index: nat, s: OpScript)
    requires ReadyFor(w, batch) && batch < w.m.nextBatch
    ensures Stage(w, CreateSenderIfNeeded(blk, w, batch, index, s), batch)
    decreases s, 1
  {
    hide Woven, MeterWoven, RunReplyWithin, Genuine;
    WeaveNothing(w, batch);
    if IsCreating(s.op) && s.op.sender !in w.st.code {
      var e := CreationStarted(batch, index, s.op);
      var w1 := Commit(w, e);
      var limit := s.op.verificationGasLimit;
      WeaveCommit(w, e, batch);
      GenuineApply(w.st, e);
      CreationReady(w1, w.st.stack, batch, index, s.op);
      WeaveReplyWithin(blk, w1, limit, s.factory.reply, batch);
      var w2 := RunReplyWithin(blk, w1, limit, s.factory.reply).0;
      Join(w, w1, w2, batch);
      Forget(w, w2, batch);
    }
  }

  lemma {:induction false} WeaveCallValidate(blk: Block, w: World, base: seq<Scope>, batch: nat, index: nat,
                                             s: OpScript, missing: uint256)
    requires batch < w.m.nextBatch
    requires Sound(w.st) && Bounded(base, w.m.gas) && w.st.stack == WithCreation(base, batch, index, s.op)
    requires IsCreating(s.op) ==> CreationStarted(batch, index, s.op) in w.st.log
    ensures Stage(w, CallValidateUserOp(blk, w, batch, index, s, missing), batch)
    decreases s, 1
  {
    hide Woven, MeterWoven, RunWithin, Genuine, TryDeposit, Extends;
    WeaveNothing(w, batch);
    PopLast(base, Creating(batch, index, s.op));
    var o := CallValidateUserOp(blk, w, batch, index, s, missing);
    if s.op.sender in w.st.code {
      if w.st.code[s.op.sender].Simple? {
        if o.Done? {
          var e := AccountValidated(batch, index, s.op, s.signer, o.value);
          var w1 := Commit(w, e);
          WeaveCommit(w, e, batch);
          GenuineApply(w.st, e);
          WeaveDeposit(w1, s.op.sender, missing, batch);
          Join(w, w1, TryDeposit(w1, s.op.sender, missing), batch);
        }
      } else {
        var limit := s.op.verificationGasLimit;
        var w1 := RunWithin(blk, w, limit, s.account.actions);
        CreationReady(w, base, batch, index, s.op);
        WeaveActionsWithin(blk, w, limit, s.account.actions, batch);
        Forget(w, w1, batch);
        FrameActionsWithin(blk, w, limit, s.account.actions, batch);
        if s.account.result.Ok? {
          var e := AccountValidated(batch, index, s.op, s.signer, s.account.result.value);
          CodeGrows(w, w1, batch, s.op.sender);
          if IsCreating(s.op) {
            LogKeeps(w, w1, batch, 0, CreationStarted(batch, index, s.op));
          }
          WeaveCommit(w1, e, batch);
          Join(w, w1, Commit(w1, e), batch);
        }
      }
    }
  }

  lemma CodeGrows(w: World, w': World, own: int, a: Address)
    requires Sound(w.st) && Extends(w, w', own, 0) && a in w.st.code
    ensures a in w'.st.code && SameKind(w.st.code[a], w'.st.code[a])
    ensures Grows(w, w', own, 0) && Sound(w'.st) && w'.st.stack == w.st.stack && w.m.nextBatch <= w'.m.nextBatch
  {
    CodeStays(w.st, w'.st, a);
  }

  lemma {:induction false} WeaveAccountPrepayment(blk: Block, w: World, batch: nat, index: nat, s: OpScript,
                                                  mop: MemoryUserOp, required: uint256)
    requires ReadyFor(w, batch) && batch < w.m.nextBatch && mop.sender == s.op.sender
    ensures Stage(w, ValidateAccountPrepayment(blk, w, batch, index, s, mop, required), batch)
    decreases s, 3
  {
    hide Woven, MeterWoven, CreateSenderIfNeeded, CallValidateUserOp, Genuine, Grows, Bounded, MissingFunds;
    FrameSenderValidated(blk, w, batch, index, s, mop, required);
    var o1 := CreateSenderIfNeeded(blk, w, batch, index, s);
    WeaveCreateSender(blk, w, batch, index, s);
    FrameCreateSender(blk, w, batch, index, s);
    if o1.Done? {
      var w1 := o1.world;
      StillBounded(w, w1, batch);
      var missing := MissingFunds(w1, mop, required);
      var o2 := CallValidateUserOp(blk, w1, batch, index, s, missing);
      WeaveCallValidate(blk, w1, w.st.stack, batch, index, s, missing);
      JoinStage(w, w1, o2, batch);
      if o2.Done? {
        var w2 := o2.world;
        ReadyAfter(w, w2, batch, 0);
        Forget(w, w2, batch);
        if mop.paymaster != ZERO_ADDRESS {
          WeaveBurn(w2, s.gas.account, batch);
          Join(w, w2, Burn(w2, s.gas.account), batch);
        } else if required <= Info(w2.st, mop.sender).deposit {
          var e := PrefundTaken(batch, index, mop.sender, required);
          WeaveCommit(w2, e, batch);
          CommitReady(w2, e);
          Join(w, w2, Commit(w2, e), batch);
          WeaveBurn(Commit(w2, e), s.gas.account, batch);
          Join(w, Commit(w2, e), Burn(Commit(w2, e), s.gas.account), batch);
        }
      }
    }
  }

  lemma {:induction false} WeavePaymasterPrepayment(blk: Block, w: World, batch: nat, index: nat, s: OpScript,
                                                    mop: MemoryUserOp, required: uint256, gasUsed: int)
    requires Ready(w) && batch < w.m.nextBatch
    ensures Stage(w, ValidatePaymasterPrepayment(blk, w, batch, index, s, mop, required, gasUsed), batch)
    decreases s, 2
  {
    hide Woven, MeterWoven, RunWithin, Genuine, Bounded, Extends;
    WeaveNothing(w, batch);
    if mop.paymaster != ZERO_ADDRESS && gasUsed < mop.verificationGasLimit
       && required <= Info(w.st, mop.paymaster).deposit && mop.paymaster in w.st.code {
      var e := PrefundTaken(batch, index, mop.paymaster, required);
      var w1 := Commit(w, e);
      WeaveCommit(w, e, batch);
      CommitReady(w, e);
      var limit: nat := mop.verificationGasLimit - gasUsed;
      EnterReady(w1, limit);
      var w2 := RunWithin(blk, w1, limit, s.paymaster.actions);
      WeaveActionsWithin(blk, w1, limit, s.paymaster.actions, batch);
      FrameActionsWithin(blk, w1, limit, s.paymaster.actions, batch);
      ReadyAfter(w1, w2, batch, 0);
      Join(w, w1, w2, batch);
      Forget(w, w2, batch);
      var t, w3 := Approved(batch, index, s.op), Note(w2, Approved(batch, index, s.op));
      WeaveNote(w2, t, batch);
      Join(w, w2, w3, batch);
      WeaveBurn(w3, s.gas.paymaster, batch);
      Join(w, w3, Burn(w3, s.gas.paymaster), batch);
    }
  }

  lemma {:induction false} WeavePrepayment(blk: Block, w: World, batch: nat, index: nat, s: OpScript)
    requires ReadyFor(w, batch) && batch < w.m.nextBatch
    ensures Stage(w, ValidatePrepayment(blk, w, batch, index, s), batch)
    decreases s, 4
  {
    hide Woven, MeterWoven, ValidateAccountPrepayment, ValidatePaymasterPrepayment, RequiredPrefund, GasValues, Genuine,
         Extends, Bounded;
    WeaveNothing(w, batch);
    if CopyUserOpToMemory(s.op).Ok? && GasValues(s.op) < TWO_120 {
      var mop := CopyUserOpToMemory(s.op).value;
      var required := RequiredPrefund(mop);
      var w0 := Burn(w, s.gas.entry);
      WeaveBurn(w, s.gas.entry, batch);
      BurnReady(w, s.gas.entry);
      var o1 := ValidateAccountPrepayment(blk, w0, batch, index, s, mop, required);
      WeaveAccountPrepayment(blk, w0, batch, index, s, mop, required);
      FrameAccountPrepayment(blk, w0, batch, index, s, mop, required);
      JoinStage(w, w0, o1, batch);
      if o1.Done? {
        var w1 := o1.world;
        ReadyAfter(w0, w1, batch, TakenBy(mop.paymaster, true, required));
        var o2 := ValidatePaymasterPrepayment(blk, w1, batch, index, s, mop, required, o1.value.0);
        WeavePaymasterPrepayment(blk, w1, batch, index, s, mop, required, o1.value.0);
        FramePaymasterPrepayment(blk, w1, batch, index, s, mop, required, o1.value.0);
        JoinStage(w, w1, o2, batch);
        if o2.Done? {
          var w2 := o2.world;
          ReadyAfter(w1, w2, batch, TakenBy(mop.paymaster, false, required));
          var w3 := Burn(w2, s.gas.tail);
          WeaveBurn(w2, s.gas.tail, batch);
          Join(w, w2, w3, batch);
          Forget(w, w3, batch);
          WeaveBurn(w3, s.gas.seal, batch);
          Join(w, w3, Burn(w3, s.gas.seal), batch);
        }
      }
    }
  }

  lemma {:induction false} WeaveValidateOp(blk: Block, w: World, batch: nat, index: nat, reported: nat,
                                           aggregator: Address, s: OpScript)
    requires ReadyFor(w, batch) && batch < w.m.nextBatch && aggregator != 1
    ensures Stage(w, ValidateOp(blk, w, batch, index, reported, aggregator, s), batch)
    decreases s, 5
  {
    hide Woven, MeterWoven, ValidatePrepayment, Genuine, Grows, CheckValidationData, Bounded;
    var o1 := ValidatePrepayment(blk, w, batch, index, s);
    WeavePrepayment(blk, w, batch, index, s);
    FramePrepayment(blk, w, batch, index, s);
    if o1.Done? {
      var w1, r := o1.world, o1.value;
      ReadyAfter(w, w1, batch, r.info.prefund);
      Forget(w, w1, batch);
      if CheckValidationData(blk.timestamp, r.word, r.pmWord, aggregator) == None {
        WordNamesAggregator(blk.timestamp, r.word, r.pmWord, aggregator);
        var e, t := Accepted(batch, index, s.op, r.word, aggregator), Validated(batch, index, s.op);
        WeaveCommit(w1, e, batch);
        CommitReady(w1, e);
        Join(w, w1, Commit(w1, e), batch);
        WeaveNote(Commit(w1, e), t, batch);
        Join(w, Commit(w1, e), Note(Commit(w1, e), t), batch);
      }
    }
  }

  lemma {:induction false} WeaveValidateOps(blk: Block, w: World, batch: nat, index: nat, reported: nat,
                                            aggregator: Address, ops: seq<OpScript>)
    requires ReadyFor(w, batch) && batch < w.m.nextBatch && aggregator != 1
    ensures Stage(w, ValidateOps(blk, w, batch, index, reported, aggregator, ops), batch)
    decreases ops, 0
  {
    hide Woven, MeterWoven, ValidateOp, Genuine, Grows, Bounded;
    if |ops| == 0 {
      WeaveNothing(w, batch);
    } else {
      var o1 := ValidateOp(blk, w, batch, index, reported, aggregator, ops[0]);
      WeaveValidateOp(blk, w, batch, index, reported, aggregator, ops[0]);
      FrameValidateOp(blk, w, batch, index, reported, aggregator, ops[0]);
      if o1.Done? {
        ReadyAfter(w, o1.world, batch, o1.value.prefund);
        WeaveValidateOps(blk, o1.world, batch, index + 1, reported + 1, aggregator, ops[1..]);
        JoinStage(w, o1.world, ValidateOps(blk, o1.world, batch, index + 1, reported + 1, aggregator, ops[1..]), batch);
      }
    }
  }

  // ---------- execution ----------

  lemma {:induction false} WeaveCallAccount(blk: Block, w: World, s: OpScript, own: int)
    requires Ready(w) && own < w.m.nextBatch
    ensures Woven(w, CallAccount(blk, w, s).0, own)
    decreases s, 1
  {
    hide Woven, MeterWoven, RunReplyWithin, TryDeposit, Genuine, Bounded;
    WeaveNothing(w, own);
    var sender := s.op.sender;
    if sender in w.st.code && w.st.code[sender].Simple? && SelectsValidateUserOp(s.op.callData) {
      if s.exec.selfCall.Some? {
        var c := s.exec.selfCall.value;
        if ValidateUserOp(w.st.code[sender].account, c.nonce, c.creating, c.signer).Ok? {
          var e := Revalidated(s.op, c.nonce, c.creating);
          var w1 := Commit(w, e);
          WeaveCommit(w, e, own);
          CommitReady(w, e);
          WeaveDeposit(w1, sender, c.missing, own);
          Join(w, w1, TryDeposit(w1, sender, c.missing), own);
        }
      }
    } else {
      EnterReady(w, s.op.callGasLimit);
      WeaveReplyWithin(blk, w, s.op.callGasLimit, s.exec.reply, own);
    }
  }

  lemma {:induction false} WeaveCallPostOp(blk: Block, w: World, batch: nat, index: nat, reported: nat,
                                           mode: PostOpMode, info: UserOpInfo, actualGas: uint256, post: PostReply)
    requires Ready(w) && batch < w.m.nextBatch
    ensures Stage(w, CallPostOp(blk, w, batch, index, reported, mode, info, actualGas, post), batch)
    decreases post, 0
  {
    hide Woven, MeterWoven, RunWithin, Genuine, Bounded, PostOpCost;
    WeaveNothing(w, batch);
    if AsksPostOp(info) {
      var limit := info.mUserOp.verificationGasLimit;
      var t := PostOpCalled(batch, index, info.mUserOp.paymaster, mode, PostOpCost(blk, info, actualGas));
      var w1 := Note(w, t);
      WeaveNote(w, t, batch);
      NoteReady(w, t);
      EnterReady(w1, limit);
      WeaveActionsWithin(blk, w1, limit, post.actions, batch);
      Join(w, w1, RunWithin(blk, w1, limit, post.actions), batch);
      Forget(w, RunWithin(blk, w1, limit, post.actions), batch);
    }
  }

  lemma {:induction false} WeaveHandlePostOp(blk: Block, w: World, batch: nat, index: nat, reported: nat,
                                             mode: PostOpMode, info: UserOpInfo, actualGas: uint256, post: PostReply,
                                             use: nat)
    requires ReadyFor(w, batch) && batch < w.m.nextBatch && LimitFits(w.st.stack, info.mUserOp.verificationGasLimit)
    ensures Stage(w, HandlePostOp(blk, w, batch, index, reported, mode, info, actualGas, post, use), batch)
    decreases post, 1
  {
    hide Woven, MeterWoven, CallPostOp, UserOpGasPrice, Genuine, Grows, LimitFits, Bounded;
    var o1 := CallPostOp(blk, w, batch, index, reported, mode, info, actualGas, post);
    WeaveCallPostOp(blk, w, batch, index, reported, mode, info, actualGas, post);
    FrameCallPostOp(blk, w, batch, index, reported, mode, info, actualGas, post);
    if o1.Done? {
      ReadyAfter(w, o1.world, batch, 0);
      var w2 := Burn(o1.world, use);
      WeaveBurn(o1.world, use, batch);
      Join(w, o1.world, w2, batch);
      Forget(w, w2, batch);
      var o := HandlePostOp(blk, w, batch, index, reported, mode, info, actualGas, post, use);
      if o.Done? {
        var e := SettlementOf(batch, index, info, o.value, mode);
        WeaveCommit(w2, e, batch);
        Join(w, w2, Commit(w2, e), batch);
      }
    }
  }

  lemma {:induction false} WeaveHandleInner(blk: Block, w: World, batch: nat, index: nat, s: OpScript, info: UserOpInfo)
    requires ReadyFor(w, batch) && batch < w.m.nextBatch && SmallLimits(info.mUserOp)
    ensures Stage(w, HandleInner(blk, w, batch, index, s, info), batch)
    decreases s, 2
  {
    hide Woven, MeterWoven, CallAccount, HandlePostOp, Genuine, Extends, LimitFits, Bounded, Wrap;
    WeaveNothing(w, batch);
    if Wrap(Wrap(info.mUserOp.callGasLimit + info.mUserOp.verificationGasLimit) + GAS_MARGIN) <= Forwarded(w.m.gas) {
      LimitChecked(w, info.mUserOp);
      var t := Called(batch, index, s.op.sender, s.op.callData);
      WeaveNote(w, t, batch);
      NoteReady(w, t);
      var called := CallAccount(blk, Note(w, t), s);
      WeaveCallAccount(blk, Note(w, t), s, batch);
      FrameCallAccount(blk, Note(w, t), s, batch);
      ReadyAfter(Note(w, t), called.0, batch, 0);
      Join(w, Note(w, t), called.0, batch);
      var (w1, ok) := if |s.op.callData| == 0 then (w, true) else called;
      var w2 := Burn(w1, s.gas.inner);
      WeaveBurn(w1, s.gas.inner, batch);
      BurnReady(w1, s.gas.inner);
      Join(w, w1, w2, batch);
      Forget(w, w2, batch);
      var actualGas := Wrap(w.m.gas - w2.m.gas + info.preOpGas);
      var mode := if ok then OpSucceeded else OpReverted;
      WeaveHandlePostOp(blk, w2, batch, index, 0, mode, info, actualGas, s.post, s.gas.post);
      JoinStage(w, w2, HandlePostOp(blk, w2, batch, index, 0, mode, info, actualGas, s.post, s.gas.post), batch);
    }
  }

  lemma {:induction false} WeaveExecuteUserOp(blk: Block, w: World, batch: nat, index: nat, s: OpScript,
                                              info: UserOpInfo)
    requires ReadyFor(w, batch) && batch < w.m.nextBatch && SmallLimits(info.mUserOp)
    ensures Stage(w, ExecuteUserOp(blk, w, batch, index, s, info), batch)
    decreases s, 3
  {
    hide Woven, HandleInner, HandlePostOp, Genuine, Grows, MeterExtends, InnerRevertCode, PartialBatch,
         AllowedTrace, LimitFits, Bounded;
    var w0 := Burn(w, s.gas.call);
    WeaveBurn(w, s.gas.call, batch);
    BurnReady(w, s.gas.call);
    var o1 := HandleInner(blk, w0, batch, index, s, info);
    WeaveHandleInner(blk, w0, batch, index, s, info);
    FrameHandleInner(blk, w0, batch, index, s, info);
    JoinStage(w, w0, o1, batch);
    if o1.Reverted? && InnerRevertCode(o1.error) == AnythingElse {
      var w1 := World(w.st, o1.m);
      BatchStaysOpen(w0, o1, batch);
      WeaveRollback(w, o1.m, batch);
      var w2 := Burn(w1, s.gas.outer);
      WeaveBurn(w1, s.gas.outer, batch);
      BurnReady(w1, s.gas.outer);
      Join(w, w1, w2, batch);
      var actualGas := Wrap(w.m.gas - w2.m.gas + info.preOpGas);
      WeaveHandlePostOp(blk, w2, batch, index, index, PostOpReverted, info, actualGas, s.postAgain, s.gas.postAgain);
      JoinStage(w, w2, HandlePostOp(blk, w2, batch, index, index, PostOpReverted, info, actualGas, s.postAgain,
                                    s.gas.postAgain),
                batch);
    }
  }

  lemma {:induction false} WeaveExecuteOps(blk: Block, w: World, batch: nat, index: nat, ops: seq<OpScript>,
                                           infos: seq<UserOpInfo>, collected: uint256)
    requires ReadyFor(w, batch) && batch < w.m.nextBatch && AllSmall(infos)
    requires |infos| == |ops| && SumPrefunds(infos) + collected <= w.st.escrow
    ensures Stage(w, ExecuteOps(blk, w, batch, index, ops, infos, collected), batch)
    decreases ops, 0
  {
    hide Woven, MeterWoven, ExecuteUserOp, Genuine, Wrap, Grows, Bounded;
    if |ops| == 0 {
      WeaveNothing(w, batch);
    } else {
      var o1 := ExecuteUserOp(blk, w, batch, index, ops[0], infos[0]);
      WeaveExecuteUserOp(blk, w, batch, index, ops[0], infos[0]);
      FrameExecuteUserOp(blk, w, batch, index, ops[0], infos[0]);
      if o1.Done? {
        ReadyAfter(w, o1.world, batch, o1.value - infos[0].prefund);
        EscrowFits(o1.world.st, collected + o1.value);
        SmallTail(infos);
        WeaveExecuteOps(blk, o1.world, batch, index + 1, ops[1..], infos[1..], collected + o1.value);
        JoinStage(w, o1.world, ExecuteOps(blk, o1.world, batch, index + 1, ops[1..], infos[1..], collected + o1.value),
                  batch);
      }
    }
  }

  lemma {:induction false} WeaveCompensate(blk: Block, w: World, batch: nat, beneficiary: Address, amount: uint256,
                                           payee: Reply)
    requires ReadyFor(w, batch) && batch < w.m.nextBatch && amount <= w.st.escrow
    ensures Stage(w, Compensate(blk, w, batch, beneficiary, amount, payee), batch)
    decreases payee, 2
  {
    hide Woven, MeterWoven, RunReply, Genuine;
    WeaveNothing(w, batch);
    if beneficiary != ZERO_ADDRESS && amount <= w.st.balance {
      WeaveCommitReply(blk, w, Paid(batch, beneficiary, amount), payee, batch);
    }
  }

  // ---------- whole batches ----------

  /** With its own batch explained, everything opened since is. */
  lemma CloseWeave<T>(w: World, o: Outcome<T>, own: int, p: Batch)
    requires own < w.m.nextBatch && Framed(w, o, own, 0) && Stage(OpenBatch(w), o, w.m.nextBatch)
    requires WellFormed(p) && |p.endings| == |p.ops|
    requires Contributes(w, o, w.m.nextBatch, EventsOf(w.m.nextBatch, p), BatchTraces(w.m.nextBatch, p.ops, p.endings))
    ensures Stage(w, o, own)
  {
    hide Own, OwnTrace, Affordable, BatchTraces, BatchEvents, AllowedTrace, Allowed;
    var batch, w0 := w.m.nextBatch, OpenBatch(w);
    match o
    case Done(w', _) =>
      assert Explains(p, Own(w, w', batch), OwnTrace(w.m, w'.m, batch), batch);
      forall b: nat | batch <= b
        ensures WholeBatch(w, w', b)
      {
        if b > batch {
          assert WholeBatch(w0, w', b);
          SameProjections(w, w', b);
        }
      }
    case Reverted(m, _) =>
      PartOfBatch(p, OwnTrace(w.m, m, batch), batch);
      forall b: nat | batch <= b
        ensures PartialBatch(w.m, m, b)
      {
        if b > batch {
          assert PartialBatch(w0.m, m, b);
          assert OwnTrace(w.m, m, b) == OwnTrace(w0.m, m, b) by {
            SameTraces(w.m, w0.m, m, b);
          }
        }
      }
  }

  /** The opening of a batch is no part of a later one. */
  lemma SameProjections(w: World, w': World, batch: nat)
    requires OpenBatch(w).st.log <= w'.st.log && w.m.history <= w'.m.history && w.m.nextBatch < batch
    ensures Own(w, w', batch) == Own(OpenBatch(w), w', batch)
    ensures OwnTrace(w.m, w'.m, batch) == OwnTrace(OpenBatch(w).m, w'.m, batch)
  {
    var w0 := OpenBatch(w);
    var e := HandlingStarted(w.m.nextBatch);
    assert Since(w.st, w'.st) == [e] + Since(w0.st, w'.st);
    FilterCons(e, Since(w0.st, w'.st), InBatch(batch));
    assert [] + Own(w0, w', batch) == Own(w0, w', batch);
  }

  lemma SameTraces(m: Meter, m0: Meter, m': Meter, batch: nat)
    requires m.history == m0.history <= m'.history
    ensures OwnTrace(m, m', batch) == OwnTrace(m0, m', batch)
  {
  }

  lemma PartOfBatch(p: Batch, traces: seq<Trace>, batch: nat)
    requires WellFormed(p) && |p.endings| == |p.ops| && traces <= BatchTraces(batch, p.ops, p.endings)
    ensures Whole([], traces, batch)
  {
    hide BatchTraces, WellFormed;
    assert Explains(p, [], traces, batch);
  }

  /** The rest of a batch, once it is validated. */
  lemma {:induction false} WeaveFinish(blk: Block, w: World, batch: nat, ops: seq<OpScript>, infos: seq<UserOpInfo>,
                                       beneficiary: Address, payee: Reply)
    requires ReadyFor(w, batch) && batch < w.m.nextBatch && AllSmall(infos)
    requires |infos| == |ops| && SumPrefunds(infos) <= w.st.escrow
    requires Stage(w, ExecuteOps(blk, w, batch, 0, ops, infos, 0), batch)
    ensures Stage(w, Finish(blk, w, batch, ops, infos, beneficiary, payee), batch)
    decreases payee, 3
  {
    hide Woven, MeterWoven, ExecuteOps, Compensate, Genuine, Grows, Bounded, AllSmall, SumPrefunds;
    var o := ExecuteOps(blk, w, batch, 0, ops, infos, 0);
    if o.Done? {
      FrameExecuteOps(blk, w, batch, 0, ops, infos, 0);
      ReadyAfter(w, o.world, batch, o.value - SumPrefunds(infos));
      WeaveCompensate(blk, o.world, batch, beneficiary, o.value, payee);
      JoinStage(w, o.world, Compensate(blk, o.world, batch, beneficiary, o.value, payee), batch);
    }
  }

  lemma {:induction false} WeaveHandleOps(blk: Block, w: World, a: Action, own: int)
    requires Ready(w) && a.HandleOps? && own < w.m.nextBatch
    ensures Stage(w, PerformHandleOps(blk, w, a), own)
    decreases a, 0
  {
    hide Woven, MeterWoven, ValidateOps, ExecuteOps, Compensate, Genuine, Grows, Contributes, OpenBatch, Bounded,
         AllSmall, SumPrefunds, WellFormed, EventsOf, BatchTraces;
    OpensBatch(w);
    var batch, w0 := w.m.nextBatch, OpenBatch(w);
    var o, o1 := PerformHandleOps(blk, w, a), ValidateOps(blk, w0, batch, 0, 0, ZERO_ADDRESS, a.ops);
    WeaveValidateOps(blk, w0, batch, 0, 0, ZERO_ADDRESS, a.ops);
    if o1.Done? {
      FrameValidateOps(blk, w0, batch, 0, 0, ZERO_ADDRESS, a.ops);
      ReadyAfter(w0, o1.world, batch, SumPrefunds(o1.value));
      WeaveExecuteOps(blk, o1.world, batch, 0, a.ops, o1.value, 0);
      WeaveFinish(blk, o1.world, batch, a.ops, o1.value, a.beneficiary, a.payee);
      JoinStage(w0, o1.world, Finish(blk, o1.world, batch, a.ops, o1.value, a.beneficiary, a.payee), batch);
    }
    FrameHandleOps(blk, w, a, own);
    var p := BatchOfOps(blk, w, a);
    CloseWeave(w, o, own, p);
  }

  lemma BatchOfOps(blk: Block, w: World, a: Action) returns (p: Batch)
    requires Ready(w) && a.HandleOps?
    ensures WellFormed(p) && |p.endings| == |p.ops|
    ensures Contributes(w, PerformHandleOps(blk, w, a), w.m.nextBatch, EventsOf(w.m.nextBatch, p),
                        BatchTraces(w.m.nextBatch, p.ops, p.endings))
  {
    hide PerformHandleOps, Contributes, BatchEvents, BatchTraces, Ready, Affords;
    var words, endings := HandleOpsContributes(blk, w, a);
    p := Batch(a.ops, words, endings, a.beneficiary);
  }

  lemma BatchOfGroups(blk: Block, w: World, a: Action) returns (p: Batch)
    requires Ready(w) && a.HandleAggregatedOps? && CheckAggregators(w.st, a.groups) == None
    ensures WellFormed(p) && |p.endings| == |p.ops|
    ensures Contributes(w, PerformHandleAggregatedOps(blk, w, a), w.m.nextBatch, EventsOf(w.m.nextBatch, p),
                        BatchTraces(w.m.nextBatch, p.ops, p.endings))
  {
    hide PerformHandleAggregatedOps, Contributes, BatchEvents, BatchTraces, Ready, Affords, Flatten, CheckAggregators;
    var words, endings := HandleAggregatedOpsContributes(blk, w, a);
    p := Batch(Flatten(a.groups), words, endings, a.beneficiary);
  }

  lemma {:induction false} WeaveValidateGroups(blk: Block, w: World, batch: nat, index: nat, groups: seq<Group>)
    requires ReadyFor(w, batch) && batch < w.m.nextBatch && NoSignatureMarker(groups)
    ensures Stage(w, ValidateGroups(blk, w, batch, index, groups), batch)
    decreases groups, 1
  {
    hide Woven, MeterWoven, ValidateOps, Genuine, Grows, Bounded;
    if |groups| == 0 {
      WeaveNothing(w, batch);
    } else {
      var g := groups[0];
      var o1 := ValidateOps(blk, w, batch, index, 0, g.aggregator, g.ops);
      WeaveValidateOps(blk, w, batch, index, 0, g.aggregator, g.ops);
      FrameValidateOps(blk, w, batch, index, 0, g.aggregator, g.ops);
      if o1.Done? {
        ReadyAfter(w, o1.world, batch, SumPrefunds(o1.value));
        WeaveValidateGroups(blk, o1.world, batch, index + |g.ops|, groups[1..]);
        JoinStage(w, o1.world, ValidateGroups(blk, o1.world, batch, index + |g.ops|, groups[1..]), batch);
      }
    }
  }

  lemma {:induction false} WeaveExecuteGroups(blk: Block, w: World, batch: nat, index: nat, groups: seq<Group>,
                                              infos: seq<UserOpInfo>, collected: uint256)
    requires ReadyFor(w, batch) && batch < w.m.nextBatch
    requires AllSmall(infos) && |infos| == |Flatten(groups)| && SumPrefunds(infos) + collected <= w.st.escrow
    ensures Stage(w, ExecuteGroups(blk, w, batch, index, groups, infos, collected), batch)
    decreases groups, 1
  {
    hide Woven, MeterWoven, ExecuteOps, Genuine, Grows, Bounded;
    if |groups| == 0 {
      WeaveNothing(w, batch);
    } else {
      var g := groups[0];
      var mine, rest := infos[..|g.ops|], infos[|g.ops|..];
      SumPrefundsAppend(mine, rest);
      assert mine + rest == infos;
      var o1 := ExecuteOps(blk, w, batch, index, g.ops, mine, collected);
      WeaveExecuteOps(blk, w, batch, index, g.ops, mine, collected);
      FrameExecuteOps(blk, w, batch, index, g.ops, mine, collected);
      if o1.Done? {
        ReadyAfter(w, o1.world, batch, o1.value - collected - SumPrefunds(mine));
        WeaveExecuteGroups(blk, o1.world, batch, index + |g.ops|, groups[1..], rest, o1.value);
        JoinStage(w, o1.world, ExecuteGroups(blk, o1.world, batch, index + |g.ops|, groups[1..], rest, o1.value),
                  batch);
      }
    }
  }

  lemma {:induction false} WeaveHandleAggregatedOps(blk: Block, w: World, a: Action, own: int)
    requires Ready(w) && a.HandleAggregatedOps? && own < w.m.nextBatch
    ensures Stage(w, PerformHandleAggregatedOps(blk, w, a), own)
    decreases a, 0
  {
    hide Woven, MeterWoven, ValidateGroups, ExecuteGroups, ExecuteOps, Compensate, Genuine, Grows, Contributes,
         CheckAggregators, OpenBatch, Bounded, AllSmall, SumPrefunds, WellFormed, EventsOf, BatchTraces, Flatten;
    WeaveNothing(w, own);
    if CheckAggregators(w.st, a.groups) == None {
      AggregatorsChecked(w.st, a.groups);
      OpensBatch(w);
      var batch, w0 := w.m.nextBatch, OpenBatch(w);
      var o, o1 := PerformHandleAggregatedOps(blk, w, a), ValidateGroups(blk, w0, batch, 0, a.groups);
      WeaveValidateGroups(blk, w0, batch, 0, a.groups);
      if o1.Done? {
        FrameValidateGroups(blk, w0, batch, 0, a.groups);
        ReadyAfter(w0, o1.world, batch, SumPrefunds(o1.value));
        WeaveExecuteGroups(blk, o1.world, batch, 0, a.groups, o1.value, 0);
        ExecuteGroupsFlat(blk, o1.world, batch, 0, a.groups, o1.value, 0);
        WeaveFinish(blk, o1.world, batch, Flatten(a.groups), o1.value, a.beneficiary, a.payee);
        JoinStage(w0, o1.world, Finish(blk, o1.world, batch, Flatten(a.groups), o1.value, a.beneficiary, a.payee),
                  batch);
      }
      FrameHandleAggregatedOps(blk, w, a, own);
      var p := BatchOfGroups(blk, w, a);
      CloseWeave(w, o, own, p);
    }
  }
}
