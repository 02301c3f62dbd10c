/** What one batch contributes to the log and to the trace, whatever happens in between. */
module Batches {
  import opened Evm
  import opened UserOperations
  import opened Validation
  import opened Ledger
  import opened Protocol
  import opened Frames
  import opened Aggregated
  import Effects

  // ---------- projections ----------

  function Filter<T>(s: seq<T>, keep: T -> bool): seq<T> {
    if |s| == 0 then [] else (if keep(s[0]) then [s[0]] else []) + Filter(s[1..], keep)
  }

  lemma FilterCons<T>(x: T, s: seq<T>, keep: T -> bool)
    ensures Filter([x] + s, keep) == (if keep(x) then [x] else []) + Filter(s, keep)
  {
    assert ([x] + s)[1..] == s;
  }

  lemma {:induction false} FilterAppend<T>(a: seq<T>, b: seq<T>, keep: T -> bool)
    ensures Filter(a + b, keep) == Filter(a, keep) + Filter(b, keep)
  {
    if |a| == 0 {
      assert a + b == b;
      assert Filter(a, keep) == [];
    } else {
      hide Filter;
      FilterAppend(a[1..], b, keep);
      FilterCons(a[0], a[1..], keep);
      FilterCons(a[0], a[1..] + b, keep);
      assert a == [a[0]] + a[1..] && a + b == [a[0]] + (a[1..] + b);
    }
  }

  lemma {:induction false} FilterNone<T>(s: seq<T>, keep: T -> bool)
    requires forall k :: 0 <= k < |s| ==> !keep(s[k])
    ensures Filter(s, keep) == []
  {
    if |s| > 0 {
      assert forall k :: 0 <= k < |s[1..]| ==> s[1..][k] == s[k + 1];
      FilterNone(s[1..], keep);
    }
  }

  lemma {:induction false} FilterHas<T>(s: seq<T>, keep: T -> bool, k: nat)
    requires k < |s| && keep(s[k])
    ensures s[k] in Filter(s, keep)
  {
    if k > 0 {
      FilterHas(s[1..], keep, k - 1);
    }
  }

  lemma FilterOne<T>(x: T, keep: T -> bool)
    ensures Filter([x], keep) == if keep(x) then [x] else []
  {
    assert [x][1..] == [];
  }

  function InBatch(batch: int): Event -> bool {
    e => BatchOf(e) == batch
  }

  function TraceInBatch(batch: int): Trace -> bool {
    t => BatchOfTrace(t) == batch
  }

  /** The events of one batch, in order. */
  function Project(log: seq<Event>, batch: int): seq<Event> {
    Filter(log, InBatch(batch))
  }

  function ProjectTrace(history: seq<Trace>, batch: int): seq<Trace> {
    Filter(history, TraceInBatch(batch))
  }

  function Since(st: State, st': State): seq<Event>
    requires st.log <= st'.log
  {
    st'.log[|st.log|..]
  }

  ghost function Own(w: World, w': World, batch: int): seq<Event>
    requires w.st.log <= w'.st.log
  {
    Project(Since(w.st, w'.st), batch)
  }

  ghost function OwnTrace(m: Meter, m': Meter, batch: int): seq<Trace>
    requires m.history <= m'.history
  {
    ProjectTrace(m'.history[|m.history|..], batch)
  }

  lemma OwnTrans(w: World, w1: World, w2: World, batch: int)
    requires w.st.log <= w1.st.log <= w2.st.log
    ensures Own(w, w2, batch) == Own(w, w1, batch) + Own(w1, w2, batch)
  {
    assert Since(w.st, w2.st) == Since(w.st, w1.st) + Since(w1.st, w2.st);
    FilterAppend(Since(w.st, w1.st), Since(w1.st, w2.st), InBatch(batch));
  }

  lemma OwnTraceTrans(m: Meter, m1: Meter, m2: Meter, batch: int)
    requires m.history <= m1.history <= m2.history
    ensures OwnTrace(m, m2, batch) == OwnTrace(m, m1, batch) + OwnTrace(m1, m2, batch)
  {
    assert m2.history[|m.history|..] == m1.history[|m.history|..] + m2.history[|m1.history|..];
    FilterAppend(m1.history[|m.history|..], m2.history[|m1.history|..], TraceInBatch(batch));
  }

  /** Nothing of a batch comes from what was not part of it. */
  lemma OwnForeign(w: World, w': World, batch: nat, escrow: int)
    requires Extends(w, w', -1, escrow) && batch < w.m.nextBatch
    ensures Own(w, w', batch) == [] && OwnTrace(w.m, w'.m, batch) == []
  {
    MeterForeign(w.m, w'.m, batch);
    var added := Since(w.st, w'.st);
    forall k | 0 <= k < |added|
      ensures BatchOf(added[k]) != batch
    {
      assert added[k] == w'.st.log[|w.st.log| + k];
      assert Allowed(BatchOf(w'.st.log[|w.st.log| + k]), -1, w.m.nextBatch);
    }
    FilterNone(added, InBatch(batch));
  }

  lemma MeterForeign(m: Meter, m': Meter, batch: nat)
    requires MeterExtends(m, m', -1) && batch < m.nextBatch
    ensures OwnTrace(m, m', batch) == []
  {
    var added := m'.history[|m.history|..];
    forall k | 0 <= k < |added|
      ensures BatchOfTrace(added[k]) != batch
    {
      assert added[k] == m'.history[|m.history| + k];
      assert AllowedTrace(m'.history[|m.history| + k], -1, m.nextBatch);
    }
    FilterNone(added, TraceInBatch(batch));
  }

  /** A step that only adds the given events and traces of the batch. */
  ghost predicate Adds(w: World, w': World, batch: nat, events: seq<Event>, traces: seq<Trace>) {
    && w.st.log <= w'.st.log && w.m.history <= w'.m.history && w.m.nextBatch <= w'.m.nextBatch
    && Own(w, w', batch) == events
    && OwnTrace(w.m, w'.m, batch) == traces
  }

  lemma AddsNothing(w: World, batch: nat)
    ensures Adds(w, w, batch, [], [])
  {
    assert Since(w.st, w.st) == [] && w.m.history[|w.m.history|..] == [];
  }

  lemma AddsForeign(w: World, w': World, batch: nat, escrow: int)
    requires Extends(w, w', -1, escrow) && batch < w.m.nextBatch
    ensures Adds(w, w', batch, [], [])
  {
    OwnForeign(w, w', batch, escrow);
  }

  lemma AddsCommit(w: World, e: Event, batch: nat)
    ensures Adds(w, Commit(w, e), batch, if BatchOf(e) == batch then [e] else [], [])
  {
    assert Since(w.st, Commit(w, e).st) == [e];
    FilterOne(e, InBatch(batch));
    assert w.m.history[|w.m.history|..] == [];
  }

  lemma AddsNote(w: World, t: Trace, batch: nat)
    ensures Adds(w, Note(w, t), batch, [], if BatchOfTrace(t) == batch then [t] else [])
  {
    assert Since(w.st, w.st) == [];
    assert Note(w, t).m.history[|w.m.history|..] == [t];
    FilterOne(t, TraceInBatch(batch));
  }

  lemma AddsBurn(w: World, amount: nat, batch: nat)
    ensures Adds(w, Burn(w, amount), batch, [], [])
  {
    AddsNothing(w, batch);
  }

  lemma AddsTrans(w: World, w1: World, w2: World, batch: nat,
                  e1: seq<Event>, t1: seq<Trace>, e2: seq<Event>, t2: seq<Trace>)
    requires Adds(w, w1, batch, e1, t1) && Adds(w1, w2, batch, e2, t2)
    ensures Adds(w, w2, batch, e1 + e2, t1 + t2)
  {
    OwnTrans(w, w1, w2, batch);
    OwnTraceTrans(w.m, w1.m, w2.m, batch);
  }

  ghost predicate Attempts(m: Meter, m': Meter, batch: nat, traces: seq<Trace>) {
    m.history <= m'.history && m.nextBatch <= m'.nextBatch && OwnTrace(m, m', batch) <= traces
  }

  /** A stage of a batch: when it succeeds it adds exactly this, when it fails its trace is a prefix. */
  ghost predicate Contributes<T>(w: World, o: Outcome<T>, batch: nat, events: seq<Event>, traces: seq<Trace>) {
    match o
    case Done(w', _) => Adds(w, w', batch, events, traces)
    case Reverted(m, _) => Attempts(w.m, m, batch, traces)
  }

  lemma StageThen<T>(w: World, w1: World, o: Outcome<T>, batch: nat,
                     e1: seq<Event>, t1: seq<Trace>, e2: seq<Event>, t2: seq<Trace>)
    requires Adds(w, w1, batch, e1, t1) && Contributes(w1, o, batch, e2, t2)
    ensures Contributes(w, o, batch, e1 + e2, t1 + t2)
  {
    match o
    case Done(w2, _) => AddsTrans(w, w1, w2, batch, e1, t1, e2, t2);
    case Reverted(m, _) => OwnTraceTrans(w.m, w1.m, m, batch);
  }

  lemma QuietTrans(w: World, w1: World, w2: World, batch: nat, e1: seq<Event>, e2: seq<Event>)
    requires Adds(w, w1, batch, e1, []) && Adds(w1, w2, batch, e2, [])
    ensures Adds(w, w2, batch, e1 + e2, [])
    ensures e1 == [] ==> Adds(w, w2, batch, e2, [])
    ensures e2 == [] ==> Adds(w, w2, batch, e1, [])
  {
    AddsTrans(w, w1, w2, batch, e1, [], e2, []);
    var none: seq<Trace> := [];
    assert none + none == none;
    assert e1 + [] == e1 && [] + e2 == e2;
  }

  lemma QuietThen<T>(w: World, w1: World, o: Outcome<T>, batch: nat, e1: seq<Event>, e2: seq<Event>)
    requires Adds(w, w1, batch, e1, []) && Contributes(w1, o, batch, e2, [])
    ensures Contributes(w, o, batch, e1 + e2, [])
  {
    StageThen(w, w1, o, batch, e1, [], e2, []);
    var none: seq<Trace> := [];
    assert none + none == none;
  }

  lemma StageFails<T, U>(w: World, o: Outcome<T>, o': Outcome<U>, batch: nat,
                         e: seq<Event>, t: seq<Trace>, e': seq<Event>, t': seq<Trace>)
    requires o.Reverted? && o'.Reverted? && o'.m == o.m && Contributes(w, o, batch, e, t) && t <= t'
    ensures Contributes(w, o', batch, e', t')
  {
  }

  /** A stage that failed without leaving a trace of its own. */
  lemma FailsQuietly(m: Meter, m': Meter, batch: nat, traces: seq<Trace>)
    requires MeterExtends(m, m', -1) && batch < m.nextBatch
    ensures Attempts(m, m', batch, traces)
  {
    MeterForeign(m, m', batch);
  }

  // ---------- validation ----------

  function CreationEvents(batch: nat, index: nat, op: UserOperation): seq<Event> {
    if IsCreating(op) then [CreationStarted(batch, index, op)] else []
  }

  /** Who pays for an operation, and how much is set aside for it. */
  function PayerOf(op: UserOperation): Address {
    match CopyUserOpToMemory(op)
    case Ok(mop) => Payer(mop)
    case Err(_) => ZERO_ADDRESS
  }

  /** The paymaster of an operation, or zero. */
  function SponsorOf(op: UserOperation): Address {
    match CopyUserOpToMemory(op)
    case Ok(mop) => mop.paymaster
    case Err(_) => ZERO_ADDRESS
  }

  function PrefundOf(op: UserOperation): uint256 {
    match CopyUserOpToMemory(op)
    case Ok(mop) => RequiredPrefund(mop)
    case Err(_) => 0
  }

  function ApprovalTrace(batch: nat, index: nat, op: UserOperation): seq<Trace> {
    if SponsorOf(op) == ZERO_ADDRESS then [] else [Approved(batch, index, op)]
  }

  /** What a validated operation leaves: its paymaster's approval, if it has one, and its validation. */
  function ValidationTrace(batch: nat, index: nat, op: UserOperation): seq<Trace> {
    ApprovalTrace(batch, index, op) + [Validated(batch, index, op)]
  }

  /** The events of one validated operation; `word` is what its account returned. */
  function ValidationEvents(batch: nat, index: nat, s: OpScript, word: uint256): seq<Event> {
    CreationEvents(batch, index, s.op)
    + [ AccountValidated(batch, index, s.op, s.signer, word),
        PrefundTaken(batch, index, PayerOf(s.op), PrefundOf(s.op)),
        Accepted(batch, index, s.op, word, word % TWO_160) ]
  }

  lemma CommitReady(w: World, e: Event)
    requires Ready(w) && Enabled(w.st, e) && w.st.escrow + EscrowDelta(e) >= 0
    requires NewStack(w.st.stack, e) == w.st.stack || NewStack(w.st.stack, e) == Pop(w.st.stack)
    ensures Ready(Commit(w, e))
  {
    GenuineApply(w.st, e);
  }

  lemma CreateSenderAdds(blk: Block, w: World, batch: nat, index: nat, s: OpScript)
    requires ReadyFor(w, batch) && batch < w.m.nextBatch
    ensures Contributes(w, CreateSenderIfNeeded(blk, w, batch, index, s), batch, CreationEvents(batch, index, s.op), [])
  {
    hide Adds, Extends, MeterExtends, RunReplyWithin, OwnTrace, Genuine, Own;
    MeterStays(w.m, -1);
    FailsQuietly(w.m, w.m, batch, []);
    AddsNothing(w, batch);
    if IsCreating(s.op) && s.op.sender !in w.st.code {
      var e := CreationStarted(batch, index, s.op);
      var w1 := Commit(w, e);
      var limit := s.op.verificationGasLimit;
      AddsCommit(w, e, batch);
      GenuineApply(w.st, e);
      CreationReady(w1, w.st.stack, batch, index, s.op);
      ReplyWithinAddsNothing(blk, w1, limit, s.factory.reply, batch);
      var w2 := RunReplyWithin(blk, w1, limit, s.factory.reply).0;
      QuietTrans(w, w1, w2, batch, [e], []);
    }
  }

  lemma ReplyAddsNothing(blk: Block, w: World, r: Reply, batch: nat)
    requires Ready(w) && batch < w.m.nextBatch
    ensures Adds(w, RunReply(blk, w, r).0, batch, [], [])
  {
    FrameReply(blk, w, r, -1);
    AddsForeign(w, RunReply(blk, w, r).0, batch, 0);
  }

  lemma ReplyWithinAddsNothing(blk: Block, w: World, limit: nat, r: Reply, batch: nat)
    requires Ready(Enter(w, limit)) && batch < w.m.nextBatch
    ensures Adds(w, RunReplyWithin(blk, w, limit, r).0, batch, [], [])
    ensures Attempts(w.m, RunReplyWithin(blk, w, limit, r).0.m, batch, [])
  {
    FrameReplyWithin(blk, w, limit, r, -1);
    AddsForeign(w, RunReplyWithin(blk, w, limit, r).0, batch, 0);
  }

  lemma ActionsWithinAddNothing(blk: Block, w: World, limit: nat, actions: seq<Action>, batch: nat)
    requires Ready(Enter(w, limit)) && batch < w.m.nextBatch
    ensures Adds(w, RunWithin(blk, w, limit, actions), batch, [], [])
    ensures Attempts(w.m, RunWithin(blk, w, limit, actions).m, batch, [])
  {
    FrameActionsWithin(blk, w, limit, actions, -1);
    AddsForeign(w, RunWithin(blk, w, limit, actions), batch, 0);
  }

  lemma DepositAddsNothing(w: World, account: Address, value: uint256, batch: nat)
    requires Ready(w) && batch < w.m.nextBatch
    ensures Adds(w, TryDeposit(w, account, value), batch, [], [])
  {
    FrameDeposit(w, account, value, -1);
    AddsForeign(w, TryDeposit(w, account, value), batch, 0);
  }

  lemma CallValidateAdds(blk: Block, w: World, base: seq<Scope>, batch: nat, index: nat, s: OpScript, missing: uint256)
    requires batch < w.m.nextBatch
    requires Sound(w.st) && Bounded(base, w.m.gas) && w.st.stack == WithCreation(base, batch, index, s.op)
    requires IsCreating(s.op) ==> CreationStarted(batch, index, s.op) in w.st.log
    ensures var o := CallValidateUserOp(blk, w, batch, index, s, missing);
            var word := if o.Done? then o.value else 0;
            Contributes(w, o, batch, [AccountValidated(batch, index, s.op, s.signer, word)], [])
  {
    hide Adds, Extends, MeterExtends, RunWithin, OwnTrace, Genuine, Own;
    MeterStays(w.m, -1);
    FailsQuietly(w.m, w.m, batch, []);
    PopLast(base, Creating(batch, index, s.op));
    var o := CallValidateUserOp(blk, w, batch, index, s, missing);
    var e := AccountValidated(batch, index, s.op, s.signer, if o.Done? then o.value else 0);
    if s.op.sender in w.st.code {
      if w.st.code[s.op.sender].Simple? {
        if o.Done? {
          var w1 := Commit(w, e);
          AddsCommit(w, e, batch);
          GenuineApply(w.st, e);
          AddsNothing(w1, batch);
          DepositAddsNothing(w1, s.op.sender, missing, batch);
          QuietTrans(w, w1, o.world, batch, [e], []);
        }
      } else {
        var limit := s.op.verificationGasLimit;
        var w1 := RunWithin(blk, w, limit, s.account.actions);
        CreationReady(w, base, batch, index, s.op);
        ActionsWithinAddNothing(blk, w, limit, s.account.actions, batch);
        if o.Done? {
          AddsCommit(w1, e, batch);
          QuietTrans(w, w1, Commit(w1, e), batch, [], [e]);
        }
      }
    }
  }

  /** What a batch knows again after its sender was created. */
  lemma StillBounded(w: World, w': World, own: int)
    requires Ready(w) && Grows(w, w', own, 0)
    ensures Sound(w'.st) && Bounded(w.st.stack, w'.m.gas) && w.m.nextBatch <= w'.m.nextBatch
  {
  }

  lemma AccountPrepaymentAdds(blk: Block, w: World, batch: nat, index: nat, s: OpScript, mop: MemoryUserOp,
                              required: uint256)
    requires ReadyFor(w, batch) && batch < w.m.nextBatch && mop.sender == s.op.sender
    ensures var o := ValidateAccountPrepayment(blk, w, batch, index, s, mop, required);
            Contributes(w, o, batch,
                        CreationEvents(batch, index, s.op)
                        + [AccountValidated(batch, index, s.op, s.signer, if o.Done? then o.value.1 else 0)]
                        + (if mop.paymaster == ZERO_ADDRESS then [PrefundTaken(batch, index, mop.sender, required)]
                           else []),
                        [])
  {
    hide Adds, Grows, OwnTrace, Genuine, Own, CreateSenderIfNeeded, CallValidateUserOp, Attempts, CreationEvents,
         Bounded;
    var o1 := CreateSenderIfNeeded(blk, w, batch, index, s);
    var created := CreationEvents(batch, index, s.op);
    CreateSenderAdds(blk, w, batch, index, s);
    FrameCreateSender(blk, w, batch, index, s);
    var o := ValidateAccountPrepayment(blk, w, batch, index, s, mop, required);
    if o1.Done? {
      var w1 := o1.world;
      StillBounded(w, w1, batch);
      var missing := MissingFunds(w1, mop, required);
      var o2 := CallValidateUserOp(blk, w1, batch, index, s, missing);
      CallValidateAdds(blk, w1, w.st.stack, batch, index, s, missing);
      var e := AccountValidated(batch, index, s.op, s.signer, if o2.Done? then o2.value else 0);
      QuietThen(w, w1, o2, batch, created, [e]);
      if o2.Done? {
        var w2 := o2.world;
        var p := PrefundTaken(batch, index, mop.sender, required);
        AddsCommit(w2, p, batch);
        QuietTrans(w, w2, Commit(w2, p), batch, created + [e], [p]);
        AddsBurn(w2, s.gas.account, batch);
        AddsBurn(Commit(w2, p), s.gas.account, batch);
        QuietTrans(w, w2, Burn(w2, s.gas.account), batch, created + [e], []);
        QuietTrans(w, Commit(w2, p), Burn(Commit(w2, p), s.gas.account), batch, created + [e] + [p], []);
        assert created + [e] + [] == created + [e];
        AddsAttempts(w, w2, batch, created + [e], []);
      }
    }
  }

  /** A step that succeeded has left its whole trace, even if the stage fails afterwards. */
  lemma AddsAttempts(w: World, w': World, batch: nat, events: seq<Event>, traces: seq<Trace>)
    requires Adds(w, w', batch, events, traces)
    ensures Attempts(w.m, w'.m, batch, traces)
  {
  }

  lemma PaymasterPrepaymentAdds(blk: Block, w: World, batch: nat, index: nat, s: OpScript, mop: MemoryUserOp,
                                required: uint256, gasUsed: int)
    requires Ready(w) && batch < w.m.nextBatch && SponsorOf(s.op) == mop.paymaster
    ensures Contributes(w, ValidatePaymasterPrepayment(blk, w, batch, index, s, mop, required, gasUsed), batch,
                        if mop.paymaster == ZERO_ADDRESS then []
                        else [PrefundTaken(batch, index, mop.paymaster, required)],
                        ApprovalTrace(batch, index, s.op))
  {
    hide Adds, Extends, MeterExtends, RunWithin, OwnTrace, Genuine, Own, Attempts, Bounded, SponsorOf;
    MeterStays(w.m, -1);
    var t := Approved(batch, index, s.op);
    FailsQuietly(w.m, w.m, batch, [t]);
    AddsNothing(w, batch);
    if mop.paymaster != ZERO_ADDRESS && gasUsed < mop.verificationGasLimit
       && required <= Info(w.st, mop.paymaster).deposit && mop.paymaster in w.st.code {
      var e := PrefundTaken(batch, index, mop.paymaster, required);
      var w1 := Commit(w, e);
      AddsCommit(w, e, batch);
      CommitReady(w, e);
      var limit: nat := mop.verificationGasLimit - gasUsed;
      EnterReady(w1, limit);
      ActionsWithinAddNothing(blk, w1, limit, s.paymaster.actions, batch);
      var w2 := RunWithin(blk, w1, limit, s.paymaster.actions);
      QuietTrans(w, w1, w2, batch, [e], []);
      AddsAttempts(w, w2, batch, [e], []);
      AttemptsFewer(w.m, w2.m, batch, [t]);
      ApprovalAdds(w, w2, batch, [e], t, s.gas.paymaster);
    }
  }

  lemma ApprovalAdds(w: World, w2: World, batch: nat, events: seq<Event>, t: Trace, use: nat)
    requires Adds(w, w2, batch, events, []) && BatchOfTrace(t) == batch
    ensures Adds(w, Burn(Note(w2, t), use), batch, events, [t])
  {
    hide Adds;
    var w3 := Note(w2, t);
    AddsNote(w2, t, batch);
    AddsTrans(w, w2, w3, batch, events, [], [], [t]);
    AddsBurn(w3, use, batch);
    AddsTrans(w, w3, Burn(w3, use), batch, events + [], [] + [t], [], []);
    assert events + [] + [] == events && [] + [t] + [] == [t];
  }

  lemma PrepaymentAdds(blk: Block, w: World, batch: nat, index: nat, s: OpScript)
    requires ReadyFor(w, batch) && batch < w.m.nextBatch
    ensures var o := ValidatePrepayment(blk, w, batch, index, s);
            && Contributes(w, o, batch,
                           CreationEvents(batch, index, s.op)
                           + [ AccountValidated(batch, index, s.op, s.signer, if o.Done? then o.value.word else 0),
                               PrefundTaken(batch, index, PayerOf(s.op), PrefundOf(s.op)) ],
                           ApprovalTrace(batch, index, s.op))
            && (o.Done? ==>
                  && CopyUserOpToMemory(s.op) == Ok(o.value.info.mUserOp)
                  && o.value.info.prefund == PrefundOf(s.op))
  {
    hide Adds, Extends, MeterExtends, OwnTrace, Genuine, Own, ValidateAccountPrepayment, ValidatePaymasterPrepayment,
         RequiredPrefund, GasValues, CreationEvents, Attempts, Bounded, ApprovalTrace;
    MeterStays(w.m, -1);
    var approval := ApprovalTrace(batch, index, s.op);
    FailsQuietly(w.m, w.m, batch, approval);
    if CopyUserOpToMemory(s.op).Ok? && GasValues(s.op) < TWO_120 {
      var mop := CopyUserOpToMemory(s.op).value;
      var required := RequiredPrefund(mop);
      var w0 := Burn(w, s.gas.entry);
      AddsBurn(w, s.gas.entry, batch);
      BurnExtends(w, s.gas.entry, batch);
      ReadyAfter(w, w0, batch, 0);
      var o1 := ValidateAccountPrepayment(blk, w0, batch, index, s, mop, required);
      AccountPrepaymentAdds(blk, w0, batch, index, s, mop, required);
      FrameAccountPrepayment(blk, w0, batch, index, s, mop, required);
      var created := CreationEvents(batch, index, s.op);
      var e := AccountValidated(batch, index, s.op, s.signer, if o1.Done? then o1.value.1 else 0);
      var p := PrefundTaken(batch, index, PayerOf(s.op), required);
      var byAccount := if mop.paymaster == ZERO_ADDRESS then [p] else [];
      var byPaymaster := if mop.paymaster == ZERO_ADDRESS then [] else [p];
      QuietThen(w, w0, o1, batch, [], created + [e] + byAccount);
      if o1.Reverted? {
        AttemptsFewer(w.m, o1.m, batch, approval);
      } else {
        var w1 := o1.world;
        ReadyAfter(w0, w1, batch, TakenBy(mop.paymaster, true, required));
        var o2 := ValidatePaymasterPrepayment(blk, w1, batch, index, s, mop, required, o1.value.0);
        PaymasterPrepaymentAdds(blk, w1, batch, index, s, mop, required, o1.value.0);
        QuietTrans(w, w0, w1, batch, [], created + [e] + byAccount);
        StageThen(w, w1, o2, batch, created + [e] + byAccount, [], byPaymaster, approval);
        assert created + [e] + byAccount + byPaymaster == created + [e, p] && [] + approval == approval;
        if o2.Done? {
          var w2 := o2.world;
          var w3 := Burn(w2, s.gas.tail);
          BurnAfter(w, w2, s.gas.tail, batch, created + [e, p], approval);
          BurnAfter(w, w3, s.gas.seal, batch, created + [e, p], approval);
          AddsAttempts(w, w3, batch, created + [e, p], approval);
        }
      }
    }
  }

  lemma BurnAfter(w: World, w1: World, use: nat, batch: nat, events: seq<Event>, traces: seq<Trace>)
    requires Adds(w, w1, batch, events, traces)
    ensures Adds(w, Burn(w1, use), batch, events, traces)
  {
    hide Adds;
    AddsBurn(w1, use, batch);
    AddsTrans(w, w1, Burn(w1, use), batch, events, traces, [], []);
    assert events + [] == events && traces + [] == traces;
  }

  lemma AcceptAdds(w: World, w1: World, batch: nat, before: seq<Event>, approval: seq<Trace>, e: Event, t: Trace)
    requires Adds(w, w1, batch, before, approval) && BatchOf(e) == batch && BatchOfTrace(t) == batch
    ensures Adds(w, Note(Commit(w1, e), t), batch, before + [e], approval + [t])
  {
    hide Adds;
    var w2 := Commit(w1, e);
    AddsCommit(w1, e, batch);
    AddsTrans(w, w1, w2, batch, before, approval, [e], []);
    AddsNote(w2, t, batch);
    AddsTrans(w, w2, Note(w2, t), batch, before + [e], approval + [], [], [t]);
    assert before + [e] + [] == before + [e] && approval + [] + [t] == approval + [t];
  }

  lemma ValidateOpAdds(blk: Block, w: World, batch: nat, index: nat, reported: nat, aggregator: Address, s: OpScript)
    returns (word: uint256)
    requires ReadyFor(w, batch) && batch < w.m.nextBatch && aggregator != 1
    ensures var o := ValidateOp(blk, w, batch, index, reported, aggregator, s);
            && Contributes(w, o, batch, ValidationEvents(batch, index, s, word), ValidationTrace(batch, index, s.op))
            && (o.Done? ==> CopyUserOpToMemory(s.op) == Ok(o.value.mUserOp) && o.value.prefund == PrefundOf(s.op)
                            && word % TWO_160 == aggregator)
  {
    hide Adds, Attempts, ValidatePrepayment, CreationEvents, Parse, OwnTrace, Own, CheckValidationData,
         CopyUserOpToMemory, PrefundOf, PayerOf, ReadyFor, ApprovalTrace;
    var o1 := ValidatePrepayment(blk, w, batch, index, s);
    word := if o1.Done? then o1.value.word else 0;
    PrepaymentAdds(blk, w, batch, index, s);
    var before := CreationEvents(batch, index, s.op)
                  + [ AccountValidated(batch, index, s.op, s.signer, word),
                      PrefundTaken(batch, index, PayerOf(s.op), PrefundOf(s.op)) ];
    var approval, t := ApprovalTrace(batch, index, s.op), Validated(batch, index, s.op);
    assert approval <= approval + [t];
    if o1.Done? {
      var w1, r := o1.world, o1.value;
      AddsAttempts(w, w1, batch, before, approval);
      AttemptsLess(w.m, w1.m, batch, approval, approval + [t]);
      if CheckValidationData(blk.timestamp, r.word, r.pmWord, aggregator) == None {
        WordNamesAggregator(blk.timestamp, r.word, r.pmWord, aggregator);
        var e := Accepted(batch, index, s.op, word, aggregator);
        AcceptAdds(w, w1, batch, before, approval, e, t);
        assert before + [e] == ValidationEvents(batch, index, s, word);
      }
    } else {
      AttemptsLess(w.m, o1.m, batch, approval, approval + [t]);
    }
  }

  lemma AttemptsLess(m: Meter, m': Meter, batch: nat, traces: seq<Trace>, more: seq<Trace>)
    requires Attempts(m, m', batch, traces) && traces <= more
    ensures Attempts(m, m', batch, more)
  {
  }

  lemma PositiveReady(w: World, w': World, batch: nat, escrow: nat)
    requires ReadyFor(w, batch) && Extends(w, w', batch, escrow)
    ensures ReadyFor(w', batch) && w.m.nextBatch <= w'.m.nextBatch
  {
  }

  lemma AttemptsFewer(m: Meter, m': Meter, batch: nat, traces: seq<Trace>)
    requires Attempts(m, m', batch, [])
    ensures Attempts(m, m', batch, traces)
  {
  }

  function AllValidations(batch: nat, index: nat, ops: seq<OpScript>, words: seq<uint256>): seq<Event>
    requires |words| == |ops|
    decreases |ops|
  {
    if |ops| == 0 then []
    else ValidationEvents(batch, index, ops[0], words[0]) + AllValidations(batch, index + 1, ops[1..], words[1..])
  }

  function ValidatedTraces(batch: nat, index: nat, ops: seq<OpScript>): seq<Trace>
    decreases |ops|
  {
    if |ops| == 0 then [] else ValidationTrace(batch, index, ops[0].op) + ValidatedTraces(batch, index + 1, ops[1..])
  }

  /** One call of `postOp`: how the operation had ended, and the cost the paymaster was told. */
  datatype Try = Try(mode: PostOpMode, cost: uint256)

  /** How the execution of an operation ended: what it cost, in which mode it was settled, and its `postOp` calls. */
  datatype Ending = Ending(cost: uint256, mode: PostOpMode, tries: seq<Try>)

  /**
   * The paymaster is called only if there is one. The last call has the mode of the settlement; one before it was
   * made in the self-call, which was then undone.
   */
  ghost predicate Proper(op: UserOperation, e: Ending) {
    && (SponsorOf(op) == ZERO_ADDRESS ==> e.tries == [])
    && match |e.tries|
       case 0 => true
       case 1 => e.tries[0].mode == e.mode
       case 2 => e.tries[0].mode != PostOpReverted && e.tries[1].mode == e.mode == PostOpReverted
       case _ => false
  }

  /** The call an operation asks for: none when its callData is empty. */
  function CalledTrace(batch: nat, index: nat, op: UserOperation): seq<Trace> {
    if |op.callData| == 0 then [] else [Called(batch, index, op.sender, op.callData)]
  }

  function TriesTrace(batch: nat, index: nat, op: UserOperation, tries: seq<Try>): seq<Trace> {
    if |tries| == 0 then []
    else [PostOpCalled(batch, index, SponsorOf(op), tries[0].mode, tries[0].cost)]
         + TriesTrace(batch, index, op, tries[1..])
  }

  /** What an executed operation leaves: its call, and the calls of its paymaster. */
  function ExecutionTrace(batch: nat, index: nat, op: UserOperation, tries: seq<Try>): seq<Trace> {
    CalledTrace(batch, index, op) + TriesTrace(batch, index, op, tries)
  }

  function ExecutedTraces(batch: nat, index: nat, ops: seq<OpScript>, endings: seq<Ending>): seq<Trace>
    requires |endings| == |ops|
    decreases |ops|
  {
    if |ops| == 0 then []
    else ExecutionTrace(batch, index, ops[0].op, endings[0].tries)
         + ExecutedTraces(batch, index + 1, ops[1..], endings[1..])
  }

  /** The infos are those of these operations. */
  ghost predicate InfosOf(ops: seq<OpScript>, infos: seq<UserOpInfo>) {
    |infos| == |ops| && forall i :: 0 <= i < |ops| ==> InfoOf(ops[i].op, infos[i])
  }

  ghost predicate InfoOf(op: UserOperation, info: UserOpInfo) {
    CopyUserOpToMemory(op) == Ok(info.mUserOp) && info.prefund == PrefundOf(op)
  }

  /** Every word names this aggregator. */
  ghost predicate AllName(words: seq<uint256>, aggregator: Address) {
    forall i :: 0 <= i < |words| ==> words[i] % TWO_160 == aggregator
  }

  lemma NothingNames(aggregator: Address)
    ensures AllName([], aggregator)
  {
  }

  lemma ConsNames(word: uint256, rest: seq<uint256>, aggregator: Address)
    requires word % TWO_160 == aggregator && AllName(rest, aggregator)
    ensures AllName([word] + rest, aggregator)
  {
  }

  lemma {:induction false} ValidateOpsAdd(blk: Block, w: World, batch: nat, index: nat, reported: nat,
                                          aggregator: Address, ops: seq<OpScript>) returns (words: seq<uint256>)
    requires ReadyFor(w, batch) && batch < w.m.nextBatch && aggregator != 1
    ensures |words| == |ops|
    ensures var o := ValidateOps(blk, w, batch, index, reported, aggregator, ops);
            && Contributes(w, o, batch, AllValidations(batch, index, ops, words), ValidatedTraces(batch, index, ops))
            && (o.Done? ==> InfosOf(ops, o.value) && AllName(words, aggregator))
    decreases |ops|
  {
    hide AllName, Adds, Attempts, ValidateOp, ValidationEvents, ValidationTrace, CopyUserOpToMemory, PrefundOf, Ready,
         Grows;
    words := seq(|ops|, _ => 0);
    if |ops| == 0 {
      NothingNames(aggregator);
      AddsNothing(w, batch);
    } else {
      var o1 := ValidateOp(blk, w, batch, index, reported, aggregator, ops[0]);
      var word := ValidateOpAdds(blk, w, batch, index, reported, aggregator, ops[0]);
      FrameValidateOp(blk, w, batch, index, reported, aggregator, ops[0]);
      var e, t := ValidationEvents(batch, index, ops[0], word), ValidationTrace(batch, index, ops[0].op);
      if o1.Done? {
        PositiveReady(w, o1.world, batch, o1.value.prefund);
        var o2 := ValidateOps(blk, o1.world, batch, index + 1, reported + 1, aggregator, ops[1..]);
        var rest := ValidateOpsAdd(blk, o1.world, batch, index + 1, reported + 1, aggregator, ops[1..]);
        words := [word] + rest;
        assert words[1..] == rest;
        StageThen(w, o1.world, o2, batch, e, t, AllValidations(batch, index + 1, ops[1..], rest),
                  ValidatedTraces(batch, index + 1, ops[1..]));
        if o2.Done? {
          ConsInfos(ops, o1.value, o2.value);
          ConsNames(word, rest, aggregator);
        }
      } else {
        StageFails(w, o1, ValidateOps(blk, w, batch, index, reported, aggregator, ops), batch, e, t,
                   AllValidations(batch, index, ops, words), ValidatedTraces(batch, index, ops));
      }
    }
  }

  lemma ConsInfos(ops: seq<OpScript>, info: UserOpInfo, infos: seq<UserOpInfo>)
    requires |ops| > 0 && InfoOf(ops[0].op, info) && InfosOf(ops[1..], infos)
    ensures InfosOf(ops, [info] + infos)
  {
    hide InfoOf;
    forall i | 0 <= i < |ops|
      ensures InfoOf(ops[i].op, ([info] + infos)[i])
    {
      if i > 0 {
        assert ops[1..][i - 1] == ops[i];
      }
    }
  }

  // ---------- execution ----------

  function SettledEvent(batch: nat, index: nat, op: UserOperation, cost: uint256, mode: PostOpMode): Event {
    Settled(batch, index, op.verificationGasLimit, PayerOf(op), Wrap(PrefundOf(op) - cost), cost, mode)
  }

  function Settlements(batch: nat, index: nat, ops: seq<OpScript>, endings: seq<Ending>): seq<Event>
    requires |endings| == |ops|
    decreases |ops|
  {
    if |ops| == 0 then []
    else [SettledEvent(batch, index, ops[0].op, endings[0].cost, endings[0].mode)]
         + Settlements(batch, index + 1, ops[1..], endings[1..])
  }

  lemma CallAccountAdds(blk: Block, w: World, s: OpScript, batch: nat)
    requires Ready(w) && batch < w.m.nextBatch
    ensures Adds(w, CallAccount(blk, w, s).0, batch, [], [])
  {
    FrameCallAccount(blk, w, s, -1);
    AddsForeign(w, CallAccount(blk, w, s).0, batch, 0);
  }

  lemma SettledOfInfo(batch: nat, index: nat, op: UserOperation, info: UserOpInfo, cost: uint256, mode: PostOpMode)
    requires InfoOf(op, info) && cost <= info.prefund
    ensures SettledEvent(batch, index, op, cost, mode) == SettlementOf(batch, index, info, cost, mode)
  {
  }

  /** The call of `postOp` that an ending in this mode leads to. */
  function TriesOf(blk: Block, info: UserOpInfo, mode: PostOpMode, actualGas: uint256): seq<Try> {
    if AsksPostOp(info) then [Try(mode, PostOpCost(blk, info, actualGas))] else []
  }

  lemma CallPostOpAdds(blk: Block, w: World, batch: nat, index: nat, reported: nat, mode: PostOpMode, op: UserOperation,
                       info: UserOpInfo, actualGas: uint256, post: PostReply)
    requires Ready(w) && batch < w.m.nextBatch && InfoOf(op, info)
    ensures var o := CallPostOp(blk, w, batch, index, reported, mode, info, actualGas, post);
            var m := if o.Done? then o.world.m else o.m;
            var traces := TriesTrace(batch, index, op, TriesOf(blk, info, mode, actualGas));
            && (o.Done? ==> Adds(w, o.world, batch, [], traces))
            && w.m.history <= m.history && OwnTrace(w.m, m, batch) == traces && w.m.nextBatch <= m.nextBatch
  {
    hide RunWithin, Extends, MeterExtends, Genuine, Bounded, PostOpCost, OwnTrace, Own;
    AddsNothing(w, batch);
    if AsksPostOp(info) {
      var limit, tries := info.mUserOp.verificationGasLimit, TriesOf(blk, info, mode, actualGas);
      var t := PostOpCalled(batch, index, info.mUserOp.paymaster, mode, PostOpCost(blk, info, actualGas));
      assert tries[1..] == [] && TriesTrace(batch, index, op, tries) == [t];
      var w1 := Note(w, t);
      NoteReady(w, t);
      AddsNote(w, t, batch);
      EnterReady(w1, limit);
      ActionsWithinAddNothing(blk, w1, limit, post.actions, batch);
      var w2 := RunWithin(blk, w1, limit, post.actions);
      AddsTrans(w, w1, w2, batch, [], [t], [], []);
      assert [t] + [] == [t];
    }
  }

  lemma NoteReady(w: World, t: Trace)
    requires Ready(w)
    ensures Ready(Note(w, t))
  {
  }

  lemma PostOpAdds(blk: Block, w: World, batch: nat, index: nat, reported: nat, mode: PostOpMode, op: UserOperation,
                   info: UserOpInfo, actualGas: uint256, post: PostReply, use: nat)
    requires Ready(w) && batch < w.m.nextBatch && InfoOf(op, info)
    ensures var o := HandlePostOp(blk, w, batch, index, reported, mode, info, actualGas, post, use);
            var traces := TriesTrace(batch, index, op, TriesOf(blk, info, mode, actualGas));
            && Contributes(w, o, batch, [SettledEvent(batch, index, op, if o.Done? then o.value else 0, mode)], traces)
            && (o.Done? ==> o.value <= info.prefund)
            && (o.Reverted? ==> w.m.history <= o.m.history && OwnTrace(w.m, o.m, batch) == traces)
  {
    hide Adds, CallPostOp, Extends, MeterExtends, UserOpGasPrice, OwnTrace, Own, Ready, SettledEvent, InfoOf, Wrap,
         Enabled, Apply, TriesOf, TriesTrace, SettlementOf;
    CallPostOpAdds(blk, w, batch, index, reported, mode, op, info, actualGas, post);
    var o1 := CallPostOp(blk, w, batch, index, reported, mode, info, actualGas, post);
    if o1.Done? {
      var traces := TriesTrace(batch, index, op, TriesOf(blk, info, mode, actualGas));
      var w2 := Burn(o1.world, use);
      BurnAfter(w, o1.world, use, batch, [], traces);
      AddedTrace(w, w2, batch, [], traces);
      var o := HandlePostOp(blk, w, batch, index, reported, mode, info, actualGas, post, use);
      if o.Done? {
        var e := SettlementOf(batch, index, info, o.value, mode);
        SettledOfInfo(batch, index, op, info, o.value, mode);
        SettlementIsOfBatch(batch, index, info, o.value, mode);
        AddsCommit(w2, e, batch);
        AddsTrans(w, w2, Commit(w2, e), batch, [], traces, [e], []);
        assert [] + [e] == [e] && traces + [] == traces;
      }
    }
  }

  lemma AddedTrace(w: World, w': World, batch: nat, events: seq<Event>, traces: seq<Trace>)
    requires Adds(w, w', batch, events, traces)
    ensures w.m.history <= w'.m.history && OwnTrace(w.m, w'.m, batch) == traces && Attempts(w.m, w'.m, batch, traces)
  {
  }

  lemma SettlementIsOfBatch(batch: nat, index: nat, info: UserOpInfo, cost: uint256, mode: PostOpMode)
    requires cost <= info.prefund
    ensures BatchOf(SettlementOf(batch, index, info, cost, mode)) == batch
  {
  }

  /** The self-call: its own call of `postOp` is told how the account's call ended. */
  lemma InnerAdds(blk: Block, w: World, batch: nat, index: nat, s: OpScript, info: UserOpInfo) returns (ending: Ending)
    requires Ready(w) && batch < w.m.nextBatch && InfoOf(s.op, info)
    ensures Proper(s.op, ending) && ending.mode != PostOpReverted && |ending.tries| <= 1
    ensures !AsksPostOp(info) ==> ending.tries == []
    ensures ending.cost <= info.prefund
    ensures Effects.TellsOutcome(w.st, s, ending.mode)
    ensures var o := HandleInner(blk, w, batch, index, s, info);
            var traces := ExecutionTrace(batch, index, s.op, ending.tries);
            && Contributes(w, o, batch, [SettledEvent(batch, index, s.op, ending.cost, ending.mode)], traces)
            && (o.Done? ==> o.value == ending.cost && (AsksPostOp(info) ==> ending.tries != []))
            && (o.Reverted? && InnerRevertCode(o.error) == AnythingElse ==>
                  w.m.history <= o.m.history && OwnTrace(w.m, o.m, batch) == traces)
  {
    hide Adds, Extends, MeterExtends, CallAccount, HandlePostOp, Ready, Own, InfoOf, SettledEvent, OwnTrace,
         CalledTrace, SponsorOf;
    var o := HandleInner(blk, w, batch, index, s, info);
    var t := CalledTrace(batch, index, s.op);
    ending := Ending(0, if |s.op.callData| == 0 || Effects.CallSucceeds(w.st, s) then OpSucceeded else OpReverted, []);
    assert t + [] == t;
    if Forwarded(w.m.gas) < Wrap(Wrap(info.mUserOp.callGasLimit + info.mUserOp.verificationGasLimit) + GAS_MARGIN) {
      MarkerIsRecognised();
      MeterStays(w.m, -1);
      FailsQuietly(w.m, w.m, batch, t);
    } else {
      var w1, ok := InnerCallAdds(blk, w, batch, index, s);
      var w2 := Burn(w1, s.gas.inner);
      BurnAfter(w, w1, s.gas.inner, batch, [], t);
      BurnReady(w1, s.gas.inner);
      AddsAttempts(w, w2, batch, [], t);
      if w.m.gas - w1.m.gas + s.gas.inner > Forwarded(w.m.gas) {
        return;
      }
      var actualGas := Wrap(w.m.gas - w2.m.gas + info.preOpGas);
      var mode := if ok then OpSucceeded else OpReverted;
      PostOpAdds(blk, w2, batch, index, 0, mode, s.op, info, actualGas, s.post, s.gas.post);
      ending := Ending(if o.Done? then o.value else 0, mode, TriesOf(blk, info, mode, actualGas));
      SponsorOfInfo(s.op, info);
      var e, more := SettledEvent(batch, index, s.op, ending.cost, mode), TriesTrace(batch, index, s.op, ending.tries);
      StageThen(w, w2, o, batch, [], t, [e], more);
      assert [] + [e] == [e];
      if o.Reverted? {
        LeavesWholeTrace(w, w2, o.m, batch, t, more);
      }
    }
  }

  lemma SponsorOfInfo(op: UserOperation, info: UserOpInfo)
    requires InfoOf(op, info)
    ensures SponsorOf(op) == info.mUserOp.paymaster
  {
  }

  lemma BurnReady(w: World, amount: nat)
    requires Ready(w)
    ensures Ready(Burn(w, amount))
  {
  }

  lemma LeavesWholeTrace(w: World, w2: World, m: Meter, batch: nat, t: seq<Trace>, more: seq<Trace>)
    requires Adds(w, w2, batch, [], t) && w2.m.history <= m.history && OwnTrace(w2.m, m, batch) == more
    ensures w.m.history <= m.history && OwnTrace(w.m, m, batch) == t + more
  {
    OwnTraceTrans(w.m, w2.m, m, batch);
  }

  /** The call of the account inside the inner frame. */
  lemma InnerCallAdds(blk: Block, w: World, batch: nat, index: nat, s: OpScript) returns (w1: World, ok: bool)
    requires Ready(w) && batch < w.m.nextBatch
    ensures (w1, ok) == if |s.op.callData| == 0 then (w, true)
                        else CallAccount(blk, Note(w, Called(batch, index, s.op.sender, s.op.callData)), s)
    ensures ok <==> |s.op.callData| == 0 || Effects.CallSucceeds(w.st, s)
    ensures Adds(w, w1, batch, [], CalledTrace(batch, index, s.op)) && Ready(w1) && w1.m.nextBatch >= w.m.nextBatch
  {
    hide Adds, Extends, CallAccount, Genuine, Bounded;
    if |s.op.callData| == 0 {
      w1, ok := w, true;
      AddsNothing(w, batch);
    } else {
      var t := Called(batch, index, s.op.sender, s.op.callData);
      var r := CallAccount(blk, Note(w, t), s);
      w1, ok := r.0, r.1;
      AddsNote(w, t, batch);
      CallAccountAdds(blk, Note(w, t), s, batch);
      Effects.CallIff(blk, Note(w, t), s);
      AddsTrans(w, Note(w, t), w1, batch, [], [t], [], []);
      assert [t] + [] == [t];
      FrameCallAccount(blk, Note(w, t), s, batch);
      ReadyAfter(Note(w, t), w1, batch, 0);
    }
  }

  /**
   * An executed operation makes its call at most once and is settled once, within its prefund. When the self-call
   * fails, what is left of it is its trace: `postOp` is then called again, in mode PostOpReverted.
   */
  lemma ExecuteAdds(blk: Block, w: World, batch: nat, index: nat, s: OpScript, info: UserOpInfo)
    returns (ending: Ending)
    requires ReadyFor(w, batch) && batch < w.m.nextBatch && InfoOf(s.op, info) && SmallLimits(info.mUserOp)
    ensures Proper(s.op, ending) && ending.cost <= info.prefund
    ensures ending.mode != PostOpReverted ==> Effects.TellsOutcome(w.st, s, ending.mode)
    ensures |ending.tries| == 2 ==> Effects.TellsOutcome(w.st, s, ending.tries[0].mode)
    ensures var o := ExecuteUserOp(blk, w, batch, index, s, info);
            && Contributes(w, o, batch, [SettledEvent(batch, index, s.op, ending.cost, ending.mode)],
                           ExecutionTrace(batch, index, s.op, ending.tries))
            && (o.Done? ==>
                  && o.value == ending.cost
                  && (ending.mode == PostOpReverted <==>
                        HandleInner(blk, Burn(w, s.gas.call), batch, index, s, info).Reverted?)
                  && (ending.tries != [] <==> AsksPostOp(info)))
  {
    hide Adds, Grows, MeterExtends, HandleInner, HandlePostOp, Genuine, InfoOf, SettledEvent, InnerRevertCode,
         ExecutionTrace, Bounded, SponsorOf, OwnTrace;
    var w0 := Burn(w, s.gas.call);
    AddsBurn(w, s.gas.call, batch);
    BurnReady(w, s.gas.call);
    var o1 := HandleInner(blk, w0, batch, index, s, info);
    ending := InnerAdds(blk, w0, batch, index, s, info);
    var t := ExecutionTrace(batch, index, s.op, ending.tries);
    var e1 := SettledEvent(batch, index, s.op, ending.cost, ending.mode);
    StageThen(w, w0, o1, batch, [], [], [e1], t);
    assert [] + [e1] == [e1] && [] + t == t;
    if o1.Reverted? && InnerRevertCode(o1.error) == AnythingElse {
      FrameHandleInner(blk, w0, batch, index, s, info);
      BatchStaysOpen(w0, o1, batch);
      RolledBackAdds(w, w0, o1.m, batch, t);
      ending := SettlesOutside(blk, w, o1.m, batch, index, s, info, ending.tries);
    }
  }

  /** After the self-call was undone, with the trace it left. */
  lemma SettlesOutside(blk: Block, w: World, m: Meter, batch: nat, index: nat, s: OpScript, info: UserOpInfo,
                       tries: seq<Try>) returns (ending: Ending)
    requires Ready(World(w.st, m)) && batch < m.nextBatch && InfoOf(s.op, info)
    requires Proper(s.op, Ending(0, OpSucceeded, tries)) || Proper(s.op, Ending(0, OpReverted, tries))
    requires |tries| <= 1 && (!AsksPostOp(info) ==> tries == [])
    requires |tries| == 1 ==> Effects.TellsOutcome(w.st, s, tries[0].mode)
    requires Adds(w, World(w.st, m), batch, [], ExecutionTrace(batch, index, s.op, tries))
    ensures Proper(s.op, ending) && ending.mode == PostOpReverted && ending.cost <= info.prefund
    ensures ending.tries != [] <==> AsksPostOp(info)
    ensures |ending.tries| == 2 ==> Effects.TellsOutcome(w.st, s, ending.tries[0].mode)
    ensures var w2 := Burn(World(w.st, m), s.gas.outer);
            var actualGas := Wrap(w.m.gas - w2.m.gas + info.preOpGas);
            var o := HandlePostOp(blk, w2, batch, index, index, PostOpReverted, info, actualGas, s.postAgain,
                                  s.gas.postAgain);
            && Contributes(w, o, batch, [SettledEvent(batch, index, s.op, ending.cost, ending.mode)],
                           ExecutionTrace(batch, index, s.op, ending.tries))
            && (o.Done? ==> o.value == ending.cost)
  {
    hide Adds, HandlePostOp, Ready, InfoOf, SettledEvent, SponsorOf, OwnTrace, CalledTrace, TriesTrace, Wrap;
    var t := ExecutionTrace(batch, index, s.op, tries);
    var w1 := World(w.st, m);
    var w2 := Burn(w1, s.gas.outer);
    BurnAfter(w, w1, s.gas.outer, batch, [], t);
    BurnReady(w1, s.gas.outer);
    var actualGas := Wrap(w.m.gas - w2.m.gas + info.preOpGas);
    var again := TriesOf(blk, info, PostOpReverted, actualGas);
    PostOpAdds(blk, w2, batch, index, index, PostOpReverted, s.op, info, actualGas, s.postAgain, s.gas.postAgain);
    var o := HandlePostOp(blk, w2, batch, index, index, PostOpReverted, info, actualGas, s.postAgain, s.gas.postAgain);
    ending := Ending(if o.Done? then o.value else 0, PostOpReverted, tries + again);
    SponsorOfInfo(s.op, info);
    var e := SettledEvent(batch, index, s.op, ending.cost, PostOpReverted);
    StageThen(w, w2, o, batch, [], t, [e], TriesTrace(batch, index, s.op, again));
    ExecutionAppend(batch, index, s.op, tries, again);
    assert [] + [e] == [e];
  }

  lemma {:induction false} TriesAppend(batch: nat, index: nat, op: UserOperation, a: seq<Try>, b: seq<Try>)
    ensures TriesTrace(batch, index, op, a + b) == TriesTrace(batch, index, op, a) + TriesTrace(batch, index, op, b)
  {
    hide SponsorOf;
    if |a| == 0 {
      assert a + b == b;
    } else {
      TriesAppend(batch, index, op, a[1..], b);
      assert (a + b)[1..] == a[1..] + b;
    }
  }

  lemma ExecutionAppend(batch: nat, index: nat, op: UserOperation, a: seq<Try>, b: seq<Try>)
    ensures ExecutionTrace(batch, index, op, a + b)
         == ExecutionTrace(batch, index, op, a) + TriesTrace(batch, index, op, b)
  {
    hide TriesTrace, CalledTrace;
    TriesAppend(batch, index, op, a, b);
  }

  lemma BatchStaysOpen<T>(w: World, o: Outcome<T>, batch: nat)
    requires Ready(w) && Framed(w, o, batch, 0) && o.Reverted? && batch < w.m.nextBatch
    ensures w.m.nextBatch <= o.m.nextBatch && w.m.history <= o.m.history && Ready(World(w.st, o.m))
  {
  }

  lemma RolledBackAdds(w: World, w0: World, m: Meter, batch: nat, t: seq<Trace>)
    requires w0.m.history == w.m.history && w0.m.history <= m.history && w.m.nextBatch <= m.nextBatch
    requires OwnTrace(w0.m, m, batch) == t
    ensures Adds(w, World(w.st, m), batch, [], t)
  {
    assert Since(w.st, w.st) == [];
  }

  function Sum(endings: seq<Ending>): nat {
    if |endings| == 0 then 0 else endings[0].cost + Sum(endings[1..])
  }

  /** Endings that operations can have, each within its prefund. */
  ghost predicate Affordable(ops: seq<OpScript>, endings: seq<Ending>) {
    |endings| == |ops| && forall i :: 0 <= i < |ops| ==> Affords(ops[i].op, endings[i])
  }

  ghost predicate Affords(op: UserOperation, e: Ending) {
    e.cost <= PrefundOf(op) && Proper(op, e)
  }

  const NO_ENDING := Ending(0, OpSucceeded, [])

  lemma NothingAffordable(ops: seq<OpScript>) returns (endings: seq<Ending>)
    ensures Affordable(ops, endings) && Sum(endings) == 0
  {
    endings := seq(|ops|, _ => NO_ENDING);
    SumOfZeros(endings);
  }

  lemma {:induction false} SumOfZeros(endings: seq<Ending>)
    requires forall i :: 0 <= i < |endings| ==> endings[i].cost == 0
    ensures Sum(endings) == 0
  {
    if |endings| > 0 {
      assert forall i :: 0 <= i < |endings[1..]| ==> endings[1..][i] == endings[i + 1];
      SumOfZeros(endings[1..]);
    }
  }

  lemma {:induction false} AffordableSum(ops: seq<OpScript>, infos: seq<UserOpInfo>, endings: seq<Ending>)
    requires InfosOf(ops, infos) && Affordable(ops, endings)
    ensures Sum(endings) <= SumPrefunds(infos)
  {
    if |ops| > 0 {
      AffordableTail(ops, endings);
      TailInfos(ops, infos);
      assert InfoOf(ops[0].op, infos[0]);
      AffordableSum(ops[1..], infos[1..], endings[1..]);
    }
  }

  lemma AffordableTail(ops: seq<OpScript>, endings: seq<Ending>)
    requires Affordable(ops, endings) && |ops| > 0
    ensures Affordable(ops[1..], endings[1..]) && Affords(ops[0].op, endings[0])
  {
    hide Affords;
    assert forall i :: 0 <= i < |ops[1..]| ==> ops[1..][i] == ops[i + 1] && endings[1..][i] == endings[i + 1];
  }

  lemma ExecutedCons(batch: nat, index: nat, ops: seq<OpScript>, e: Ending, rest: seq<Ending>)
    requires |ops| > 0 && |rest| == |ops| - 1
    ensures Settlements(batch, index, ops, [e] + rest)
         == [SettledEvent(batch, index, ops[0].op, e.cost, e.mode)] + Settlements(batch, index + 1, ops[1..], rest)
    ensures ExecutedTraces(batch, index, ops, [e] + rest)
         == ExecutionTrace(batch, index, ops[0].op, e.tries) + ExecutedTraces(batch, index + 1, ops[1..], rest)
    ensures Sum([e] + rest) == e.cost + Sum(rest)
  {
    hide SettledEvent, ExecutionTrace;
    assert ([e] + rest)[1..] == rest;
  }

  lemma {:induction false} ExecuteOpsAdd(blk: Block, w: World, batch: nat, index: nat, ops: seq<OpScript>,
                                         infos: seq<UserOpInfo>, collected: uint256) returns (endings: seq<Ending>)
    requires ReadyFor(w, batch) && batch < w.m.nextBatch && InfosOf(ops, infos) && AllSmall(infos)
    requires SumPrefunds(infos) + collected <= w.st.escrow
    ensures Affordable(ops, endings) && |endings| == |ops|
    ensures var o := ExecuteOps(blk, w, batch, index, ops, infos, collected);
            && Contributes(w, o, batch, Settlements(batch, index, ops, endings),
                           ExecutedTraces(batch, index, ops, endings))
            && (o.Done? ==> o.value == collected + Sum(endings))
    decreases |ops|
  {
    hide Adds, Attempts, ExecuteUserOp, SettledEvent, ExecutionTrace, Grows, InfoOf, Genuine, PrefundOf, Wrap, Bounded,
         Affords, Proper, Settlements, ExecutedTraces, Affordable, AllSmall, SmallLimits, InfosOf;
    AlikeInfos(ops, infos);
    var o := ExecuteOps(blk, w, batch, index, ops, infos, collected);
    if |ops| == 0 {
      endings := [];
      NothingExecuted(batch, index);
      assert ops == [];
      AddsNothing(w, batch);
    } else {
      var o1 := ExecuteUserOp(blk, w, batch, index, ops[0], infos[0]);
      var ending := ExecuteAdds(blk, w, batch, index, ops[0], infos[0]);
      AffordsEnding(ops[0].op, infos[0], ending);
      var e, t := [SettledEvent(batch, index, ops[0].op, ending.cost, ending.mode)],
                  ExecutionTrace(batch, index, ops[0].op, ending.tries);
      if o1.Done? {
        FrameExecuteUserOp(blk, w, batch, index, ops[0], infos[0]);
        var w1, collected1 := o1.world, collected + o1.value;
        ReadyAfter(w, w1, batch, o1.value - infos[0].prefund);
        EscrowFits(w1.st, collected1);
        TailInfos(ops, infos);
        SmallTail(infos);
        var o2 := ExecuteOps(blk, w1, batch, index + 1, ops[1..], infos[1..], collected1);
        var rest := ExecuteOpsAdd(blk, w1, batch, index + 1, ops[1..], infos[1..], collected1);
        endings := [ending] + rest;
        ConsAffordable(ops, ending, rest);
        AffordableLength(ops[1..], rest);
        ExecutedCons(batch, index, ops, ending, rest);
        StageThen(w, w1, o2, batch, e, t, Settlements(batch, index + 1, ops[1..], rest),
                  ExecutedTraces(batch, index + 1, ops[1..], rest));
      } else {
        var rest := NothingAffordable(ops[1..]);
        endings := [ending] + rest;
        ConsAffordable(ops, ending, rest);
        AffordableLength(ops[1..], rest);
        ExecutedCons(batch, index, ops, ending, rest);
        StageFails(w, o1, o, batch, e, t, Settlements(batch, index, ops, endings),
                   ExecutedTraces(batch, index, ops, endings));
      }
    }
  }

  lemma AlikeInfos(ops: seq<OpScript>, infos: seq<UserOpInfo>)
    requires InfosOf(ops, infos) && AllSmall(infos)
    ensures |infos| == |ops|
    ensures |ops| > 0 ==> InfoOf(ops[0].op, infos[0]) && SmallLimits(infos[0].mUserOp)
  {
    hide InfoOf, SmallLimits;
  }

  lemma NothingExecuted(batch: nat, index: nat)
    ensures Settlements(batch, index, [], []) == [] && ExecutedTraces(batch, index, [], []) == [] && Sum([]) == 0
    ensures Affordable([], [])
  {
  }

  lemma AffordsEnding(op: UserOperation, info: UserOpInfo, e: Ending)
    requires InfoOf(op, info) && e.cost <= info.prefund && Proper(op, e)
    ensures Affords(op, e)
  {
  }

  lemma TailInfos(ops: seq<OpScript>, infos: seq<UserOpInfo>)
    requires InfosOf(ops, infos) && |ops| > 0
    ensures InfosOf(ops[1..], infos[1..])
  {
    hide InfoOf;
    forall i | 0 <= i < |ops[1..]|
      ensures InfoOf(ops[1..][i].op, infos[1..][i])
    {
      assert InfoOf(ops[i + 1].op, infos[i + 1]);
    }
  }

  lemma ConsAffordable(ops: seq<OpScript>, e: Ending, rest: seq<Ending>)
    requires |ops| > 0 && Affords(ops[0].op, e) && Affordable(ops[1..], rest)
    ensures Affordable(ops, [e] + rest)
  {
    hide Affords;
    forall i | 0 <= i < |ops|
      ensures Affords(ops[i].op, ([e] + rest)[i])
    {
      if i > 0 {
        assert ops[1..][i - 1] == ops[i];
      }
    }
  }

  lemma CompensateAdds(blk: Block, w: World, batch: nat, beneficiary: Address, amount: uint256, payee: Reply)
    requires ReadyFor(w, batch) && batch < w.m.nextBatch && amount <= w.st.escrow
    ensures Contributes(w, Compensate(blk, w, batch, beneficiary, amount, payee), batch,
                        [Paid(batch, beneficiary, amount)], [])
  {
    hide Adds, MeterExtends, RunReply, Genuine, Bounded;
    MeterStays(w.m, -1);
    FailsQuietly(w.m, w.m, batch, []);
    if beneficiary != ZERO_ADDRESS && amount <= w.st.balance {
      var e := Paid(batch, beneficiary, amount);
      var w1 := Commit(w, e);
      AddsCommit(w, e, batch);
      CommitReady(w, e);
      ReplyAddsNothing(blk, w1, payee, batch);
      var w2 := RunReply(blk, w1, payee).0;
      QuietTrans(w, w1, w2, batch, [e], []);
      AddsAttempts(w, w2, batch, [e], []);
    }
  }

  // ---------- whole batches ----------

  /** What a committed batch does between its start and its payment. */
  function BatchWork(batch: nat, ops: seq<OpScript>, words: seq<uint256>, endings: seq<Ending>): seq<Event>
    requires |words| == |ops| && |endings| == |ops|
  {
    AllValidations(batch, 0, ops, words) + Settlements(batch, 0, ops, endings)
  }

  /** All events of a committed batch: every validation, every settlement, one payment of the sum of the costs. */
  function BatchEvents(batch: nat, ops: seq<OpScript>, words: seq<uint256>, endings: seq<Ending>,
                       beneficiary: Address): seq<Event>
    requires |words| == |ops| && |endings| == |ops| && Sum(endings) < TWO_256
  {
    [HandlingStarted(batch)] + (BatchWork(batch, ops, words, endings) + [Paid(batch, beneficiary, Sum(endings))])
  }

  /** All approvals, validations and calls of a batch, in order. */
  function BatchTraces(batch: nat, ops: seq<OpScript>, endings: seq<Ending>): seq<Trace>
    requires |endings| == |ops|
  {
    ValidatedTraces(batch, 0, ops) + ExecutedTraces(batch, 0, ops, endings)
  }

  lemma BatchCloses<T>(w: World, w0: World, w1: World, w2: World, o: Outcome<T>, batch: nat, ops: seq<OpScript>,
                       words: seq<uint256>, endings: seq<Ending>, beneficiary: Address)
    requires w0 == OpenBatch(w) && batch == w.m.nextBatch && |words| == |ops| == |endings| && Sum(endings) < TWO_256
    requires Adds(w0, w1, batch, AllValidations(batch, 0, ops, words), ValidatedTraces(batch, 0, ops))
    requires Adds(w1, w2, batch, Settlements(batch, 0, ops, endings), ExecutedTraces(batch, 0, ops, endings))
    requires Contributes(w2, o, batch, [Paid(batch, beneficiary, Sum(endings))], [])
    ensures Contributes(w, o, batch, BatchEvents(batch, ops, words, endings, beneficiary),
                        BatchTraces(batch, ops, endings))
  {
    hide Adds, AllValidations, Settlements, Attempts;
    AddsTrans(w0, w1, w2, batch, AllValidations(batch, 0, ops, words), ValidatedTraces(batch, 0, ops),
              Settlements(batch, 0, ops, endings), ExecutedTraces(batch, 0, ops, endings));
    var paid := [Paid(batch, beneficiary, Sum(endings))];
    StageThen(w0, w2, o, batch, BatchWork(batch, ops, words, endings), BatchTraces(batch, ops, endings), paid, []);
    assert BatchTraces(batch, ops, endings) + [] == BatchTraces(batch, ops, endings);
    AddsOpening(w);
    StageThen(w, w0, o, batch, [HandlingStarted(batch)], [], BatchWork(batch, ops, words, endings) + paid,
              BatchTraces(batch, ops, endings));
    assert [] + BatchTraces(batch, ops, endings) == BatchTraces(batch, ops, endings);
  }

  lemma AddsOpening(w: World)
    ensures Adds(w, OpenBatch(w), w.m.nextBatch, [HandlingStarted(w.m.nextBatch)], [])
  {
    AddsCommit(w, HandlingStarted(w.m.nextBatch), w.m.nextBatch);
  }

  /** A batch that stops early has only a prefix of its trace. */
  lemma BatchStops<T>(w: World, w0: World, m: Meter, o: Outcome<T>, batch: nat, ops: seq<OpScript>,
                      endings: seq<Ending>, traces: seq<Trace>, events: seq<Event>)
    requires |endings| == |ops|
    requires w0 == OpenBatch(w) && o.Reverted? && o.m == m && Attempts(w0.m, m, batch, traces)
             && traces <= BatchTraces(batch, ops, endings)
    ensures Contributes(w, o, batch, events, BatchTraces(batch, ops, endings))
  {
  }

  /** The rest of a batch, once it is validated. */
  function Finish(blk: Block, w: World, batch: nat, ops: seq<OpScript>, infos: seq<UserOpInfo>, beneficiary: Address,
                  payee: Reply): Outcome<()>
    requires |infos| == |ops|
  {
    var (w1, collected) :- ExecuteOps(blk, w, batch, 0, ops, infos, 0);
    Compensate(blk, w1, batch, beneficiary, collected, payee)
  }

  lemma FinishContributes(blk: Block, w: World, w1: World, ops: seq<OpScript>, infos: seq<UserOpInfo>,
                          words: seq<uint256>, beneficiary: Address, payee: Reply) returns (endings: seq<Ending>)
    requires Ready(w) && |words| == |infos| == |ops| && InfosOf(ops, infos) && AllSmall(infos)
    requires Extends(OpenBatch(w), w1, w.m.nextBatch, SumPrefunds(infos))
    requires Adds(OpenBatch(w), w1, w.m.nextBatch, AllValidations(w.m.nextBatch, 0, ops, words),
                  ValidatedTraces(w.m.nextBatch, 0, ops))
    ensures Affordable(ops, endings) && Sum(endings) < TWO_256
    ensures Contributes(w, Finish(blk, w1, w.m.nextBatch, ops, infos, beneficiary, payee), w.m.nextBatch,
                        BatchEvents(w.m.nextBatch, ops, words, endings, beneficiary),
                        BatchTraces(w.m.nextBatch, ops, endings))
  {
    hide Adds, Attempts, ExecuteOps, Compensate, AllValidations, Settlements, ValidatedTraces, ExecutedTraces, Grows,
         Genuine, Affordable, InfosOf, OpenBatch, Bounded, AllSmall, BatchWork;
    var batch, w0 := w.m.nextBatch, OpenBatch(w);
    OpensBatch(w);
    ReadyAfter(w0, w1, batch, SumPrefunds(infos));
    AddsLater(w0, w1, batch, AllValidations(batch, 0, ops, words), ValidatedTraces(batch, 0, ops));
    var o := ExecuteOps(blk, w1, batch, 0, ops, infos, 0);
    endings := ExecuteOpsAdd(blk, w1, batch, 0, ops, infos, 0);
    AffordableSum(ops, infos, endings);
    AffordableLength(ops, endings);
    EscrowFits(w1.st, Sum(endings));
    FrameExecuteOps(blk, w1, batch, 0, ops, infos, 0);
    if o.Reverted? {
      StageThen(w0, w1, o, batch, AllValidations(batch, 0, ops, words), ValidatedTraces(batch, 0, ops),
                Settlements(batch, 0, ops, endings), ExecutedTraces(batch, 0, ops, endings));
      var o' := Finish(blk, w1, batch, ops, infos, beneficiary, payee);
      BatchStops(w, w0, o.m, o', batch, ops, endings, BatchTraces(batch, ops, endings),
                 BatchEvents(batch, ops, words, endings, beneficiary));
    } else {
      ReadyAfter(w1, o.world, batch, o.value - SumPrefunds(infos));
      CompensateAdds(blk, o.world, batch, beneficiary, o.value, payee);
      BatchCloses(w, w0, w1, o.world, Compensate(blk, o.world, batch, beneficiary, o.value, payee), batch, ops, words,
                  endings, beneficiary);
    }
  }

  lemma AddsLater(w: World, w': World, batch: nat, events: seq<Event>, traces: seq<Trace>)
    requires Adds(w, w', batch, events, traces)
    ensures w.m.nextBatch <= w'.m.nextBatch
  {
  }

  lemma AffordableLength(ops: seq<OpScript>, endings: seq<Ending>)
    requires Affordable(ops, endings)
    ensures |endings| == |ops|
  {
  }

  /**
   * What a batch contributes, for every tree of calls made meanwhile: on success exactly its own validations,
   * settlements and payment; on failure, and before it, a prefix of its trace.
   */
  lemma HandleOpsContributes(blk: Block, w: World, a: Action) returns (words: seq<uint256>, endings: seq<Ending>)
    requires Ready(w) && a.HandleOps?
    ensures |words| == |a.ops| && Affordable(a.ops, endings) && Sum(endings) < TWO_256
    ensures PerformHandleOps(blk, w, a).Done? ==> AllName(words, ZERO_ADDRESS)
    ensures Contributes(w, PerformHandleOps(blk, w, a), w.m.nextBatch,
                        BatchEvents(w.m.nextBatch, a.ops, words, endings, a.beneficiary),
                        BatchTraces(w.m.nextBatch, a.ops, endings))
  {
    hide Adds, Attempts, ValidateOps, ExecuteOps, Compensate, AllValidations, ValidatedTraces, ExecutedTraces, Grows,
         Genuine, Affordable, InfosOf, OpenBatch, Bounded, AllSmall, BatchEvents, AllName;
    var batch, w0 := w.m.nextBatch, OpenBatch(w);
    OpensBatch(w);
    var o1 := ValidateOps(blk, w0, batch, 0, 0, ZERO_ADDRESS, a.ops);
    words := ValidateOpsAdd(blk, w0, batch, 0, 0, ZERO_ADDRESS, a.ops);
    if o1.Reverted? {
      endings := NothingAffordable(a.ops);
      AffordableLength(a.ops, endings);
      BatchStops(w, w0, o1.m, PerformHandleOps(blk, w, a), batch, a.ops, endings, ValidatedTraces(batch, 0, a.ops),
                 BatchEvents(batch, a.ops, words, endings, a.beneficiary));
    } else {
      FrameValidateOps(blk, w0, batch, 0, 0, ZERO_ADDRESS, a.ops);
      endings := FinishContributes(blk, w, o1.world, a.ops, o1.value, words, a.beneficiary, a.payee);
      AffordableLength(a.ops, endings);
    }
  }

  // ---------- batches in groups ----------

  lemma ValidationsCons(batch: nat, index: nat, s: OpScript, ops: seq<OpScript>, word: uint256, words: seq<uint256>)
    requires |words| == |ops|
    ensures AllValidations(batch, index, [s] + ops, [word] + words)
         == ValidationEvents(batch, index, s, word) + AllValidations(batch, index + 1, ops, words)
    ensures ValidatedTraces(batch, index, [s] + ops)
            == ValidationTrace(batch, index, s.op) + ValidatedTraces(batch, index + 1, ops)
  {
    hide ValidationEvents, ValidationTrace;
    assert ([s] + ops)[1..] == ops && ([word] + words)[1..] == words;
  }

  lemma NoValidations(batch: nat, index: nat)
    ensures AllValidations(batch, index, [], []) == [] && ValidatedTraces(batch, index, []) == []
  {
  }

  lemma {:induction false} ValidationsAppend(batch: nat, index: nat, a: seq<OpScript>, b: seq<OpScript>,
                                             x: seq<uint256>, y: seq<uint256>)
    requires |x| == |a| && |y| == |b|
    ensures AllValidations(batch, index, a + b, x + y)
         == AllValidations(batch, index, a, x) + AllValidations(batch, index + |a|, b, y)
    ensures ValidatedTraces(batch, index, a + b)
            == ValidatedTraces(batch, index, a) + ValidatedTraces(batch, index + |a|, b)
    decreases |a|
  {
    hide ValidationEvents, AllValidations, ValidatedTraces;
    if |a| == 0 {
      assert a == [] && x == [] && a + b == b && x + y == y;
      NoValidations(batch, index);
    } else {
      ValidationsAppend(batch, index + 1, a[1..], b, x[1..], y);
      ValidationsCons(batch, index, a[0], a[1..], x[0], x[1..]);
      ValidationsCons(batch, index, a[0], a[1..] + b, x[0], x[1..] + y);
      assert a == [a[0]] + a[1..] && a + b == [a[0]] + (a[1..] + b);
      assert x == [x[0]] + x[1..] && x + y == [x[0]] + (x[1..] + y);
    }
  }

  lemma AppendInfos(a: seq<OpScript>, b: seq<OpScript>, x: seq<UserOpInfo>, y: seq<UserOpInfo>)
    requires InfosOf(a, x) && InfosOf(b, y)
    ensures InfosOf(a + b, x + y)
  {
    hide InfoOf;
  }

  /** The words of each group name its aggregator. */
  ghost predicate NamedInGroups(groups: seq<Group>, words: seq<uint256>)
    requires |words| == |Flatten(groups)|
    decreases |groups|
  {
    |groups| == 0
    || (var n := |groups[0].ops|;
        AllName(words[..n], groups[0].aggregator) && NamedInGroups(groups[1..], words[n..]))
  }

  lemma {:induction false} ValidateGroupsAdd(blk: Block, w: World, batch: nat, index: nat, groups: seq<Group>)
    returns (words: seq<uint256>)
    requires ReadyFor(w, batch) && batch < w.m.nextBatch && NoSignatureMarker(groups)
    ensures |words| == |Flatten(groups)|
    ensures var o := ValidateGroups(blk, w, batch, index, groups);
            && Contributes(w, o, batch, AllValidations(batch, index, Flatten(groups), words),
                           ValidatedTraces(batch, index, Flatten(groups)))
            && (o.Done? ==> InfosOf(Flatten(groups), o.value) && NamedInGroups(groups, words))
    decreases |groups|
  {
    hide AllName, Adds, Attempts, ValidateOps, AllValidations, ValidatedTraces, Ready, Grows, InfosOf, SumPrefunds,
         AllSmall;
    words := seq(|Flatten(groups)|, _ => 0);
    if |groups| == 0 {
      NoInfos();
      NoValidations(batch, index);
      AddsNothing(w, batch);
    } else {
      var a, b := groups[0].ops, Flatten(groups[1..]);
      var o1 := ValidateOps(blk, w, batch, index, 0, groups[0].aggregator, a);
      var x := ValidateOpsAdd(blk, w, batch, index, 0, groups[0].aggregator, a);
      FrameValidateOps(blk, w, batch, index, 0, groups[0].aggregator, a);
      if o1.Done? {
        PositiveReady(w, o1.world, batch, SumPrefunds(o1.value));
        var o2 := ValidateGroups(blk, o1.world, batch, index + |a|, groups[1..]);
        var y := ValidateGroupsAdd(blk, o1.world, batch, index + |a|, groups[1..]);
        words := x + y;
        ValidationsAppend(batch, index, a, b, x, y);
        StageThen(w, o1.world, o2, batch, AllValidations(batch, index, a, x), ValidatedTraces(batch, index, a),
                  AllValidations(batch, index + |a|, b, y), ValidatedTraces(batch, index + |a|, b));
        if o2.Done? {
          AppendInfos(a, b, o1.value, o2.value);
          assert words[..|a|] == x && words[|a|..] == y;
        }
      } else {
        ValidationsAppend(batch, index, a, b, x, seq(|b|, _ => 0));
        StageFails(w, o1, ValidateGroups(blk, w, batch, index, groups), batch,
                   AllValidations(batch, index, a, x), ValidatedTraces(batch, index, a),
                   AllValidations(batch, index, Flatten(groups), words),
                   ValidatedTraces(batch, index, Flatten(groups)));
      }
    }
  }

  lemma NoInfos()
    ensures InfosOf([], [])
  {
  }

  /** The same for operations in groups: they contribute what the concatenated list contributes. */
  lemma HandleAggregatedOpsContributes(blk: Block, w: World, a: Action)
    returns (words: seq<uint256>, endings: seq<Ending>)
    requires Ready(w) && a.HandleAggregatedOps? && CheckAggregators(w.st, a.groups) == None
    ensures |words| == |Flatten(a.groups)| && Affordable(Flatten(a.groups), endings) && Sum(endings) < TWO_256
    ensures PerformHandleAggregatedOps(blk, w, a).Done? ==> NamedInGroups(a.groups, words)
    ensures Contributes(w, PerformHandleAggregatedOps(blk, w, a), w.m.nextBatch,
                        BatchEvents(w.m.nextBatch, Flatten(a.groups), words, endings, a.beneficiary),
                        BatchTraces(w.m.nextBatch, Flatten(a.groups), endings))
  {
    hide Adds, Attempts, ValidateGroups, ExecuteOps, ExecuteGroups, Compensate, AllValidations, ValidatedTraces,
         ExecutedTraces, Grows, Genuine, Affordable, InfosOf, CheckAggregators, OpenBatch, Bounded, AllSmall,
         BatchEvents, Flatten, NamedInGroups;
    AggregatorsChecked(w.st, a.groups);
    var ops := Flatten(a.groups);
    var batch, w0 := w.m.nextBatch, OpenBatch(w);
    OpensBatch(w);
    var o1 := ValidateGroups(blk, w0, batch, 0, a.groups);
    words := ValidateGroupsAdd(blk, w0, batch, 0, a.groups);
    if o1.Reverted? {
      endings := NothingAffordable(ops);
      AffordableLength(ops, endings);
      BatchStops(w, w0, o1.m, PerformHandleAggregatedOps(blk, w, a), batch, ops, endings,
                 ValidatedTraces(batch, 0, ops), BatchEvents(batch, ops, words, endings, a.beneficiary));
    } else {
      FrameValidateGroups(blk, w0, batch, 0, a.groups);
      ExecuteGroupsFlat(blk, o1.world, batch, 0, a.groups, o1.value, 0);
      endings := FinishContributes(blk, w, o1.world, ops, o1.value, words, a.beneficiary, a.payee);
      AffordableLength(ops, endings);
    }
  }
}
