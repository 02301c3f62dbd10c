/** Who pays what: the deposits after a committed batch, and after any run. */
module Settlement {
  import opened Evm
  import opened UserOperations
  import opened Ledger
  import opened Protocol
  import opened Frames
  import opened Batches
  import opened Weaving
  import opened Runs

  // ---------- what an event means ----------

  datatype Measure =
    | DepositChange(account: Address)   // what it does to a deposit
    | TopUp(account: Address)           // what it tops up or, negative, withdraws
    | GasCost(account: Address)         // what it charges to an account
    | AnyCost                           // what it charges to anyone
    | PaidTo(account: Address)          // what it pays to a beneficiary
    | AnyPaid                           // what it pays to anyone
    | Held(account: Address)            // what it takes as prefund less what it refunds or charges
    | Unpaid                            // what it charges less what it pays

  function StakeChange(e: Event): int {
    match e
    case StakeAdded(_, _, amount) => amount
    case StakeWithdrawn(_, amount, _) => -(amount as int)
    case _ => 0
  }

  function Value(m: Measure, e: Event): int {
    match m
    case DepositChange(a) => if AccountOf(e) != Some(a) then 0 else BalanceDelta(e) - EscrowDelta(e) - StakeChange(e)
    case TopUp(a) => if (e.Deposited? || e.Withdrawn?) && e.account == a then BalanceDelta(e) else 0
    case GasCost(a) => if e.Settled? && e.payer == a then e.cost else 0
    case AnyCost => if e.Settled? then e.cost else 0
    case PaidTo(a) => if e.Paid? && e.beneficiary == a then e.amount else 0
    case AnyPaid => if e.Paid? then e.amount else 0
    case Held(a) =>
      if AccountOf(e) != Some(a) then 0
      else if e.PrefundTaken? then e.prefund
      else if e.Settled? then -(e.refund + e.cost)
      else 0
    case Unpaid => if e.Settled? then e.cost else if e.Paid? then -(e.amount as int) else 0
  }

  // ---------- sums over a log ----------

  function Tally(log: seq<Event>, m: Measure): int {
    if |log| == 0 then 0 else Value(m, log[0]) + Tally(log[1..], m)
  }

  lemma TallyCons(e: Event, log: seq<Event>, m: Measure)
    ensures Tally([e] + log, m) == Value(m, e) + Tally(log, m)
  {
    assert ([e] + log)[1..] == log;
  }

  lemma {:induction false} TallyAppend(a: seq<Event>, b: seq<Event>, m: Measure)
    ensures Tally(a + b, m) == Tally(a, m) + Tally(b, m)
  {
    if |a| == 0 {
      assert a + b == b;
      assert Tally(a, m) == 0;
    } else {
      hide Tally;
      TallyAppend(a[1..], b, m);
      TallyCons(a[0], a[1..], m);
      TallyCons(a[0], a[1..] + b, m);
      assert a == [a[0]] + a[1..] && a + b == [a[0]] + (a[1..] + b);
    }
  }

  function OutsideBatch(batch: int): Event -> bool {
    (e: Event) => BatchOf(e) != batch
  }

  /** The events of everything but one batch. */
  function Others(log: seq<Event>, batch: int): seq<Event> {
    Filter(log, OutsideBatch(batch))
  }

  lemma {:induction false} TallySplits(log: seq<Event>, batch: int, m: Measure)
    ensures Tally(log, m) == Tally(Project(log, batch), m) + Tally(Others(log, batch), m)
  {
    if |log| > 0 {
      var e, rest := log[0], log[1..];
      assert log == [e] + rest;
      FilterCons(e, rest, InBatch(batch));
      FilterCons(e, rest, OutsideBatch(batch));
      hide Filter, Tally;
      TallySplits(rest, batch, m);
      TallyCons(e, rest, m);
      TallyCons(e, Project(rest, batch), m);
      TallyCons(e, Others(rest, batch), m);
      assert [] + Project(rest, batch) == Project(rest, batch) && [] + Others(rest, batch) == Others(rest, batch);
    }
  }

  function LaterBatch(n: int): Event -> bool {
    (e: Event) => BatchOf(e) >= n
  }

  /** The events of the batches from `n` on. */
  function From(log: seq<Event>, n: int): seq<Event> {
    Filter(log, LaterBatch(n))
  }

  lemma {:induction false} FromSplits(log: seq<Event>, n: int, m: Measure)
    ensures Tally(From(log, n), m) == Tally(Project(log, n), m) + Tally(From(log, n + 1), m)
  {
    if |log| > 0 {
      var e, rest := log[0], log[1..];
      assert log == [e] + rest;
      FilterCons(e, rest, InBatch(n));
      FilterCons(e, rest, LaterBatch(n));
      FilterCons(e, rest, LaterBatch(n + 1));
      hide Filter, Tally;
      FromSplits(rest, n, m);
      TallyCons(e, From(rest, n), m);
      TallyCons(e, Project(rest, n), m);
      TallyCons(e, From(rest, n + 1), m);
      assert [] + Project(rest, n) == Project(rest, n) && [] + From(rest, n) == From(rest, n)
             && [] + From(rest, n + 1) == From(rest, n + 1);
    }
  }

  /** What is nothing outside batches and nothing in every batch, is nothing altogether. */
  lemma {:induction false} NothingByBatches(log: seq<Event>, n: nat, next: nat, m: Measure)
    requires n <= next
    requires forall k :: 0 <= k < |log| ==> BatchOf(log[k]) < next
    requires forall b: nat :: n <= b ==> Tally(Project(log, b), m) == 0
    ensures Tally(From(log, n), m) == 0
    decreases next - n
  {
    hide Tally;
    if n == next {
      FilterNone(log, LaterBatch(n));
      assert Tally(From(log, n), m) == 0 by {
        TallyNothing(From(log, n), m);
      }
    } else {
      NothingByBatches(log, n + 1, next, m);
      FromSplits(log, n, m);
    }
  }

  lemma TallyNothing(log: seq<Event>, m: Measure)
    requires log == []
    ensures Tally(log, m) == 0
  {
  }

  lemma {:induction false} OutsideIsNothing(log: seq<Event>, n: nat, m: Measure)
    requires forall k :: 0 <= k < |log| && BatchOf(log[k]) < n ==> Value(m, log[k]) == 0
    ensures Tally(log, m) == Tally(From(log, n), m)
  {
    if |log| > 0 {
      var e, rest := log[0], log[1..];
      assert log == [e] + rest;
      assert forall k :: 0 <= k < |rest| ==> rest[k] == log[k + 1];
      FilterCons(e, rest, LaterBatch(n));
      hide Filter, Tally;
      OutsideIsNothing(rest, n, m);
      TallyCons(e, rest, m);
      TallyCons(e, From(rest, n), m);
      assert [] + From(rest, n) == From(rest, n);
    }
  }

  lemma {:induction false} TallyHeld(log: seq<Event>, a: Address)
    ensures Tally(log, Held(a)) == Tally(log, TopUp(a)) - Tally(log, GasCost(a)) - Tally(log, DepositChange(a))
  {
    if |log| > 0 {
      TallyHeld(log[1..], a);
    }
  }

  lemma {:induction false} TallyUnpaid(log: seq<Event>)
    ensures Tally(log, Unpaid) == Tally(log, AnyCost) - Tally(log, AnyPaid)
  {
    if |log| > 0 {
      TallyUnpaid(log[1..]);
    }
  }

  // ---------- deposits follow the log ----------

  lemma RecordMovesDeposit(info: DepositInfo, e: Event)
    requires RecordEnabled(info, e)
    ensures NewInfo(info, e).deposit == info.deposit + BalanceDelta(e) - EscrowDelta(e) - StakeChange(e)
            || AccountOf(e) == None
  {
  }

  lemma EventMovesDeposit(st: State, e: Event, a: Address)
    requires Enabled(st, e)
    ensures Info(Apply(st, e), a).deposit == Info(st, a).deposit + Value(DepositChange(a), e)
  {
    RecordMovesDeposit(InfoFor(st, e), e);
    AppliedInfo(st, e, a);
    hide Apply, NewInfo, RecordEnabled, CodeEnabled, BalanceDelta, EscrowDelta, StakeChange;
  }

  lemma {:induction false} DepositFollowsLog(st: State, st': State, a: Address)
    requires Genuine(st) && Genuine(st') && st.log <= st'.log
    ensures Info(st', a).deposit == Info(st, a).deposit + Tally(Since(st, st'), DepositChange(a))
    decreases |st'.log|
  {
    hide Enabled, Apply, Replay, Value, Tally, Info;
    if |st'.log| == |st.log| {
      assert st.log == st'.log;
      TallyNothing(Since(st, st'), DepositChange(a));
    } else {
      var before, e := Before(st'), st'.log[|st'.log| - 1];
      DepositFollowsLog(st, before, a);
      EventMovesDeposit(before, e, a);
      assert Since(st, st') == Since(st, before) + [e];
      TallyAppend(Since(st, before), [e], DepositChange(a));
      TallySingle(e, DepositChange(a));
    }
  }

  lemma TallySingle(e: Event, m: Measure)
    ensures Tally([e], m) == Value(m, e)
  {
    assert [e][1..] == [];
  }

  // ---------- what a committed batch adds up to ----------

  /** The costs of the operations an account pays for. */
  function Charged(ops: seq<OpScript>, endings: seq<Ending>, a: Address): nat
    requires |endings| == |ops|
    decreases |ops|
  {
    if |ops| == 0 then 0
    else (if PayerOf(ops[0].op) == a then endings[0].cost else 0) + Charged(ops[1..], endings[1..], a)
  }

  /** The prefunds of the operations an account pays for. */
  function Reserved(ops: seq<OpScript>, a: Address): nat {
    if |ops| == 0 then 0 else (if PayerOf(ops[0].op) == a then PrefundOf(ops[0].op) else 0) + Reserved(ops[1..], a)
  }

  lemma OneValidation(batch: nat, index: nat, s: OpScript, word: uint256, m: Measure)
    ensures Tally(ValidationEvents(batch, index, s, word), m)
         == Value(m, PrefundTaken(batch, index, PayerOf(s.op), PrefundOf(s.op)))
  {
    hide PayerOf, PrefundOf, Tally;
    var created := CreationEvents(batch, index, s.op);
    var e1 := AccountValidated(batch, index, s.op, s.signer, word);
    var e2 := PrefundTaken(batch, index, PayerOf(s.op), PrefundOf(s.op));
    var e3 := Accepted(batch, index, s.op, word, word % TWO_160);
    assert ValidationEvents(batch, index, s, word) == created + [e1] + [e2] + [e3];
    TallyAppend(created + [e1] + [e2], [e3], m);
    TallyAppend(created + [e1], [e2], m);
    TallyAppend(created, [e1], m);
    TallySingle(e1, m);
    TallySingle(e2, m);
    TallySingle(e3, m);
    if IsCreating(s.op) {
      TallySingle(CreationStarted(batch, index, s.op), m);
    } else {
      TallyNothing(created, m);
    }
  }

  lemma {:induction false} ValidationsTally(batch: nat, index: nat, ops: seq<OpScript>, words: seq<uint256>, a: Address)
    requires |words| == |ops|
    ensures Tally(AllValidations(batch, index, ops, words), Held(a)) == Reserved(ops, a)
    ensures Tally(AllValidations(batch, index, ops, words), GasCost(a)) == 0
    ensures Tally(AllValidations(batch, index, ops, words), TopUp(a)) == 0
    ensures Tally(AllValidations(batch, index, ops, words), PaidTo(a)) == 0
    ensures Tally(AllValidations(batch, index, ops, words), AnyCost) == 0
    ensures Tally(AllValidations(batch, index, ops, words), AnyPaid) == 0
    decreases |ops|
  {
    hide PayerOf, PrefundOf, ValidationEvents;
    if |ops| > 0 {
      var first, rest := ValidationEvents(batch, index, ops[0], words[0]),
          AllValidations(batch, index + 1, ops[1..], words[1..]);
      ValidationsTally(batch, index + 1, ops[1..], words[1..], a);
      hide Tally;
      OneValidation(batch, index, ops[0], words[0], Held(a));
      TallyAppend(first, rest, Held(a));
      OneValidation(batch, index, ops[0], words[0], GasCost(a));
      TallyAppend(first, rest, GasCost(a));
      OneValidation(batch, index, ops[0], words[0], TopUp(a));
      TallyAppend(first, rest, TopUp(a));
      OneValidation(batch, index, ops[0], words[0], PaidTo(a));
      TallyAppend(first, rest, PaidTo(a));
      OneValidation(batch, index, ops[0], words[0], AnyCost);
      TallyAppend(first, rest, AnyCost);
      OneValidation(batch, index, ops[0], words[0], AnyPaid);
      TallyAppend(first, rest, AnyPaid);
    }
  }

  lemma OneSettlement(batch: nat, index: nat, op: UserOperation, e: Ending)
    requires Affords(op, e)
    ensures SettledEvent(batch, index, op, e.cost, e.mode)
         == Settled(batch, index, op.verificationGasLimit, PayerOf(op), PrefundOf(op) - e.cost, e.cost, e.mode)
  {
    hide PrefundOf, PayerOf, Proper;
  }

  lemma {:induction false} SettlementsTally(batch: nat, index: nat, ops: seq<OpScript>, endings: seq<Ending>,
                                            a: Address)
    requires Affordable(ops, endings)
    ensures Tally(Settlements(batch, index, ops, endings), Held(a)) == 0 - Reserved(ops, a)
    ensures Tally(Settlements(batch, index, ops, endings), GasCost(a)) == Charged(ops, endings, a)
    ensures Tally(Settlements(batch, index, ops, endings), TopUp(a)) == 0
    ensures Tally(Settlements(batch, index, ops, endings), PaidTo(a)) == 0
    ensures Tally(Settlements(batch, index, ops, endings), AnyCost) == Sum(endings)
    ensures Tally(Settlements(batch, index, ops, endings), AnyPaid) == 0
    decreases |ops|
  {
    hide PayerOf, PrefundOf, SettledEvent;
    if |ops| > 0 {
      hide Affordable;
      var first := SettledEvent(batch, index, ops[0].op, endings[0].cost, endings[0].mode);
      var rest := Settlements(batch, index + 1, ops[1..], endings[1..]);
      AffordableTail(ops, endings);
      OneSettlement(batch, index, ops[0].op, endings[0]);
      SettlementsTally(batch, index + 1, ops[1..], endings[1..], a);
      hide Tally;
      TallyCons(first, rest, Held(a));
      TallyCons(first, rest, GasCost(a));
      TallyCons(first, rest, TopUp(a));
      TallyCons(first, rest, PaidTo(a));
      TallyCons(first, rest, AnyCost);
      TallyCons(first, rest, AnyPaid);
    }
  }

  /** A committed batch gives back or charges all it held, and pays out all it charges. */
  lemma BatchTally(batch: nat, p: Batch, a: Address)
    requires WellFormed(p)
    ensures var events := EventsOf(batch, p);
            && Tally(events, Held(a)) == 0
            && Tally(events, Unpaid) == 0
            && Tally(events, TopUp(a)) == 0
            && Tally(events, GasCost(a)) == Charged(p.ops, p.endings, a)
            && Tally(events, PaidTo(a)) == if p.beneficiary == a then Sum(p.endings) else 0
  {
    hide Tally, AllValidations, Settlements;
    var v, s := AllValidations(batch, 0, p.ops, p.words), Settlements(batch, 0, p.ops, p.endings);
    var h, e := HandlingStarted(batch), Paid(batch, p.beneficiary, Sum(p.endings));
    ValidationsTally(batch, 0, p.ops, p.words, a);
    SettlementsTally(batch, 0, p.ops, p.endings, a);
    var events := EventsOf(batch, p);
    assert events == [h] + (v + s + [e]);
    forall m: Measure
      ensures Tally(events, m) == Value(m, h) + Tally(v, m) + Tally(s, m) + Value(m, e)
    {
      TallyCons(h, v + s + [e], m);
      TallyAppend(v + s, [e], m);
      TallyAppend(v, s, m);
      TallySingle(e, m);
    }
    TallyUnpaid(events);
  }

  // ---------- main results ----------

  /** The batches opened between two points hold nothing and owe nothing. */
  lemma WovenHoldsNothing(w: World, w': World, a: Address, m: Measure)
    requires Woven(w, w', -1) && (m == Held(a) || m == Unpaid)
    ensures Tally(Since(w.st, w'.st), m) == 0
  {
    hide Tally, Filter, EventsOf, AllowedTrace;
    var events := Since(w.st, w'.st);
    forall b: nat
      ensures Tally(Project(events, b), m) == 0
    {
      assert Own(w, w', b) == Project(events, b);
      if b < w.m.nextBatch {
        NothingOwn(w, w', -1, b);
        TallyNothing(Project(events, b), m);
      } else {
        assert WholeBatch(w, w', b);
        WholeHoldsNothing(Own(w, w', b), OwnTrace(w.m, w'.m, b), b, a, m);
      }
    }
    forall k | 0 <= k < |events|
      ensures BatchOf(events[k]) < w'.m.nextBatch
    {
      EventOfOpenBatch(w, w', k);
    }
    OutsideIsNothing(events, 0, m);
    NothingByBatches(events, 0, w'.m.nextBatch, m);
  }

  lemma WholeHoldsNothing(events: seq<Event>, traces: seq<Trace>, batch: nat, a: Address, m: Measure)
    requires Whole(events, traces, batch) && (m == Held(a) || m == Unpaid)
    ensures Tally(events, m) == 0
  {
    hide WellFormed, EventsOf;
    var p :| Explains(p, events, traces, batch);
    if events == [] {
      TallyNothing(events, m);
    } else {
      hide Tally;
      BatchTally(batch, p, a);
    }
  }

  lemma EventOfOpenBatch(w: World, w': World, k: nat)
    requires Woven(w, w', -1) && k < |Since(w.st, w'.st)|
    ensures BatchOf(Since(w.st, w'.st)[k]) < w'.m.nextBatch
  {
    hide Filter, WholeBatch, AllowedTrace;
    var events := Since(w.st, w'.st);
    var b := BatchOf(events[k]);
    if w'.m.nextBatch <= b {
      FilterHas(events, InBatch(b), k);
      NothingLater(w, w', b);
      assert false;
    }
  }

  lemma NothingLater(w: World, w': World, batch: nat)
    requires Woven(w, w', -1) && w'.m.nextBatch <= batch
    ensures Own(w, w', batch) == []
  {
    hide Filter, Whole, AllowedTrace;
    assert WholeBatch(w, w', batch);
  }

  /**
   * Between any two points outside a batch, a deposit moves by top-ups and withdrawals, less the costs of the
   * operations it paid for; and what was charged was paid out.
   */
  lemma DepositLaw(w: World, w': World, a: Address)
    requires Genuine(w.st) && Genuine(w'.st) && Woven(w, w', -1)
    ensures var events := Since(w.st, w'.st);
            && Info(w'.st, a).deposit == Info(w.st, a).deposit + Tally(events, TopUp(a)) - Tally(events, GasCost(a))
            && Tally(events, AnyCost) == Tally(events, AnyPaid)
  {
    hide Tally, Replay, WholeBatch, AllowedTrace, Allowed;
    var events := Since(w.st, w'.st);
    WovenHoldsNothing(w, w', a, Held(a));
    WovenHoldsNothing(w, w', a, Unpaid);
    DepositFollowsLog(w.st, w'.st, a);
    TallyHeld(events, a);
    TallyUnpaid(events);
  }

  /** After any run a deposit is what was topped up and not withdrawn, less all the gas it paid for. */
  lemma RunDeposits(ts: seq<Transaction>, a: Address)
    ensures var st := Run(START, ts).st;
            && Info(st, a).deposit == Tally(st.log, TopUp(a)) - Tally(st.log, GasCost(a))
            && Tally(st.log, AnyCost) == Tally(st.log, AnyPaid)
  {
    hide Tally, Woven, Genuine;
    var w := Run(START, ts);
    RunKeeps(ts);
    StartIsGenuine();
    DepositLaw(START, w, a);
    assert w.st.log[0..] == w.st.log;
  }

  /**
   * Exact settlement of a committed batch. Its own events are the validations, the settlements and one payment
   * of the sum of the costs. Each payer is charged the costs of its operations; everything else that happens to
   * a deposit meanwhile is a top-up, a withdrawal, or a cost in a batch nested in this one.
   */
  lemma HandleOpsSettles(blk: Block, w: World, a: Action) returns (p: Batch)
    requires Ready(w) && a.HandleOps? && PerformHandleOps(blk, w, a).Done?
    ensures var w' := PerformHandleOps(blk, w, a).world;
            && w.st.log <= w'.st.log
            && p.ops == a.ops && p.beneficiary == a.beneficiary && WellFormed(p)
            && Project(Since(w.st, w'.st), w.m.nextBatch) == EventsOf(w.m.nextBatch, p)
            && SettledFor(w, w', w.m.nextBatch, p)
  {
    hide Adds, Woven, Extends, Genuine, Affordable;
    var w' := PerformHandleOps(blk, w, a).world;
    var words, endings := HandleOpsContributes(blk, w, a);
    p := Batch(a.ops, words, endings, a.beneficiary);
    AffordableLength(a.ops, endings);
    OwnOf(w, w', w.m.nextBatch, EventsOf(w.m.nextBatch, p), BatchTraces(w.m.nextBatch, a.ops, endings));
    WeaveHandleOps(blk, w, a, -1);
    FrameHandleOps(blk, w, a, -1);
    GenuineAfter(w, w', -1, 0);
    BatchSettles(w, w', w.m.nextBatch, p);
  }

  lemma HandleAggregatedOpsSettles(blk: Block, w: World, a: Action) returns (p: Batch)
    requires Ready(w) && a.HandleAggregatedOps? && PerformHandleAggregatedOps(blk, w, a).Done?
    ensures var w' := PerformHandleAggregatedOps(blk, w, a).world;
            && w.st.log <= w'.st.log
            && p.ops == Flatten(a.groups) && p.beneficiary == a.beneficiary && WellFormed(p)
            && Project(Since(w.st, w'.st), w.m.nextBatch) == EventsOf(w.m.nextBatch, p)
            && SettledFor(w, w', w.m.nextBatch, p)
  {
    hide Adds, Woven, Extends, Genuine, Affordable;
    var w' := PerformHandleAggregatedOps(blk, w, a).world;
    var words, endings := HandleAggregatedOpsContributes(blk, w, a);
    p := Batch(Flatten(a.groups), words, endings, a.beneficiary);
    AffordableLength(p.ops, endings);
    OwnOf(w, w', w.m.nextBatch, EventsOf(w.m.nextBatch, p), BatchTraces(w.m.nextBatch, p.ops, endings));
    WeaveHandleAggregatedOps(blk, w, a, -1);
    FrameHandleAggregatedOps(blk, w, a, -1);
    GenuineAfter(w, w', -1, 0);
    BatchSettles(w, w', w.m.nextBatch, p);
  }

  /** Every deposit and every beneficiary after a batch, against before it. */
  ghost predicate SettledFor(w: World, w': World, batch: nat, p: Batch)
    requires w.st.log <= w'.st.log && |p.endings| == |p.ops|
  {
    var events := Since(w.st, w'.st);
    var others := Others(events, batch);
    forall x: Address ::
      && Info(w'.st, x).deposit
         == Info(w.st, x).deposit + Tally(others, TopUp(x)) - Tally(others, GasCost(x)) - Charged(p.ops, p.endings, x)
      && Tally(events, PaidTo(x)) == Tally(others, PaidTo(x)) + (if x == p.beneficiary then Sum(p.endings) else 0)
  }

  lemma OwnOf(w: World, w': World, batch: nat, events: seq<Event>, traces: seq<Trace>)
    requires Adds(w, w', batch, events, traces)
    ensures w.st.log <= w'.st.log && Project(Since(w.st, w'.st), batch) == events
  {
  }

  lemma GenuineAfter(w: World, w': World, own: int, escrow: int)
    requires Extends(w, w', own, escrow)
    ensures Genuine(w'.st)
  {
  }

  lemma BatchSettles(w: World, w': World, batch: nat, p: Batch)
    requires Genuine(w.st) && Genuine(w'.st) && Woven(w, w', -1) && WellFormed(p)
    requires w.st.log <= w'.st.log && Project(Since(w.st, w'.st), batch) == EventsOf(batch, p)
    ensures SettledFor(w, w', batch, p)
  {
    hide Tally, Genuine, Woven, Filter, EventsOf, Charged, Info;
    var events := Since(w.st, w'.st);
    forall x: Address
      ensures Info(w'.st, x).deposit
           == Info(w.st, x).deposit + Tally(Others(events, batch), TopUp(x)) - Tally(Others(events, batch), GasCost(x))
              - Charged(p.ops, p.endings, x)
      ensures Tally(events, PaidTo(x))
              == Tally(Others(events, batch), PaidTo(x)) + (if x == p.beneficiary then Sum(p.endings) else 0)
    {
      DepositLaw(w, w', x);
      BatchTally(batch, p, x);
      TallySplits(events, batch, TopUp(x));
      TallySplits(events, batch, GasCost(x));
      TallySplits(events, batch, PaidTo(x));
    }
  }
}
