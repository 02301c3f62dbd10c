/** What a paymaster can rely on: for every run, rolled-back batches and calls included. */
module Sponsors {
  import opened Evm
  import opened UserOperations
  import opened Ledger
  import opened Protocol
  import opened Frames
  import opened Batches
  import opened Weaving
  import opened TwoPhase

  lemma {:induction false} SettledIsOfBatch(batch: nat, index: nat, ops: seq<OpScript>, endings: seq<Ending>, e: Event)
    requires |endings| == |ops| && e in Settlements(batch, index, ops, endings)
    ensures e.Settled? && index <= e.index < index + |ops|
    ensures var i := e.index - index; e == SettledEvent(batch, e.index, ops[i].op, endings[i].cost, endings[i].mode)
    decreases |ops|
  {
    hide SettledEvent;
    var first := SettledEvent(batch, index, ops[0].op, endings[0].cost, endings[0].mode);
    if e != first {
      SettledIsOfBatch(batch, index + 1, ops[1..], endings[1..], e);
    } else {
      SettledIs(batch, index, ops[0].op, endings[0]);
    }
  }

  lemma SettledIs(batch: nat, index: nat, op: UserOperation, e: Ending)
    ensures var s := SettledEvent(batch, index, op, e.cost, e.mode);
            s.Settled? && s.batch == batch && s.index == index && s.payer == PayerOf(op) && s.mode == e.mode
  {
    hide PrefundOf, PayerOf;
  }

  lemma {:induction false} ValidationsAreNotSettled(batch: nat, index: nat, ops: seq<OpScript>, words: seq<uint256>,
                                                    e: Event)
    requires |words| == |ops| && e in AllValidations(batch, index, ops, words)
    ensures !e.Settled?
    decreases |ops|
  {
    hide PayerOf, PrefundOf;
    if e !in ValidationEvents(batch, index, ops[0], words[0]) {
      ValidationsAreNotSettled(batch, index + 1, ops[1..], words[1..], e);
    }
  }

  lemma {:induction false} AcceptanceOf(batch: nat, index: nat, ops: seq<OpScript>, words: seq<uint256>, i: nat)
    returns (e: Event)
    requires |words| == |ops| && i < |ops|
    ensures e in AllValidations(batch, index, ops, words)
    ensures e.Accepted? && e.batch == batch && e.index == index + i && e.op == ops[i].op
    decreases |ops|
  {
    hide PayerOf, PrefundOf, CreationEvents;
    var first := ValidationEvents(batch, index, ops[0], words[0]);
    if i == 0 {
      e := Accepted(batch, index, ops[0].op, words[0], words[0] % TWO_160);
      assert first[|first| - 1] == e;
    } else {
      e := AcceptanceOf(batch, index + 1, ops[1..], words[1..], i - 1);
    }
  }

  /** The operation that a committed settlement belongs to. */
  lemma SettledOp(batch: nat, p: Batch, e: Event) returns (accepted: Event)
    requires WellFormed(p) && |p.endings| == |p.ops| && e.Settled? && e in EventsOf(batch, p)
    ensures e.index < |p.ops| && e.payer == PayerOf(p.ops[e.index].op) && e.mode == p.endings[e.index].mode
    ensures accepted.Accepted? && accepted.batch == batch && accepted.index == e.index
    ensures accepted.op == p.ops[e.index].op && accepted in EventsOf(batch, p)
  {
    hide AllValidations, Settlements, Affordable, SettledEvent;
    if e in AllValidations(batch, 0, p.ops, p.words) {
      ValidationsAreNotSettled(batch, 0, p.ops, p.words, e);
    }
    SettledIsOfBatch(batch, 0, p.ops, p.endings, e);
    SettledIs(batch, e.index, p.ops[e.index].op, p.endings[e.index]);
    accepted := AcceptanceOf(batch, 0, p.ops, p.words, e.index);
  }

  lemma PayerIsSponsor(op: UserOperation)
    requires SponsorOf(op) != ZERO_ADDRESS
    ensures PayerOf(op) == SponsorOf(op)
  {
  }

  /** Membership in the log, by projection. */
  lemma {:induction false} FilterOf<T>(s: seq<T>, keep: T -> bool, x: T)
    requires x in Filter(s, keep)
    ensures x in s && keep(x)
  {
    if |s| > 0 && x != s[0] {
      FilterOf(s[1..], keep, x);
    } else if |s| > 0 && !keep(s[0]) {
      FilterOf(s[1..], keep, x);
    }
  }

  /**
   * A payer is charged only for an operation that was accepted at the same place and that names it; a paymaster,
   * only for one that its own `validatePaymasterUserOp` approved.
   */
  lemma ChargedIsApproved(ts: seq<Transaction>, e: Event) returns (op: UserOperation)
    requires e in Log(ts) && e.Settled?
    ensures exists word, aggregator :: Accepted(e.batch, e.index, op, word, aggregator) in Log(ts)
    ensures e.payer == PayerOf(op)
    ensures SponsorOf(op) != ZERO_ADDRESS ==>
              e.payer == SponsorOf(op) && Approved(e.batch, e.index, op) in History(ts)
  {
    hide History, Log, Filter, BatchTraces, EventsOf, WellFormed, Explains, PayerOf, SponsorOf, ExecutionTrace;
    var n :| 0 <= n < |Log(ts)| && Log(ts)[n] == e;
    var p := BatchOfEvent(ts, n);
    var accepted := SettledOp(e.batch, p, e);
    op := accepted.op;
    FilterOf(Log(ts), InBatch(e.batch), accepted);
    assert accepted == Accepted(e.batch, e.index, op, accepted.word, accepted.aggregator);
    if SponsorOf(op) != ZERO_ADDRESS {
      PayerIsSponsor(op);
      var k := CommittedIsLeft(ts, n, p, e.index, Approved(e.batch, e.index, op));
    }
  }

  /**
   * `postOp` is called only on the paymaster that approved the operation at the same place of the same batch, and only
   * when every approval and validation of that batch is over.
   */
  lemma PostOpsFollowApproval(ts: seq<Transaction>, k: nat) returns (j: nat)
    requires k < |History(ts)| && History(ts)[k].PostOpCalled?
    ensures var call := History(ts)[k];
            && j < k && History(ts)[j].Approved?
            && History(ts)[j].batch == call.batch && History(ts)[j].index == call.index
            && SponsorOf(History(ts)[j].op) == call.paymaster != ZERO_ADDRESS
            && forall i :: k < i < |History(ts)| && (History(ts)[i].Approved? || History(ts)[i].Validated?) ==>
                 History(ts)[i].batch != call.batch
  {
    hide History, Log, Explains, BatchTraces, Affordable, Proper, SponsorOf, ExecutionTrace;
    var h, b := History(ts), History(ts)[k].batch;
    var p, i := OperationOf(ts, k);
    var op := p.ops[i].op;
    LeftIs(op, p.endings[i], b, i, h[k]);
    OneSponsored(p, i, Try(h[k].mode, h[k].cost));
    var t := Approved(b, i, op);
    OperationLeaves(b, p.ops, p.endings, i, t);
    j := EarlierInRun(ts, k, p, t);
    NothingValidatedAfter(ts, k);
  }

  lemma OneSponsored(p: Batch, i: nat, attempt: Try)
    requires Affordable(p.ops, p.endings) && i < |p.ops| == |p.endings| && attempt in p.endings[i].tries
    ensures Proper(p.ops[i].op, p.endings[i]) && SponsorOf(p.ops[i].op) != ZERO_ADDRESS
  {
    hide PrefundOf, SponsorOf;
    assert Affords(p.ops[i].op, p.endings[i]);
  }

  /**
   * For one operation `postOp` is called at most twice, and a second time only in mode PostOpReverted after a first
   * call in another mode.
   */
  lemma PostOpAtMostTwice(ts: seq<Transaction>, j: nat, k: nat)
    requires j < k < |History(ts)| && History(ts)[j].PostOpCalled? && History(ts)[k].PostOpCalled?
    requires History(ts)[j].batch == History(ts)[k].batch && History(ts)[j].index == History(ts)[k].index
    ensures History(ts)[j].mode != PostOpReverted && History(ts)[k].mode == PostOpReverted
  {
    hide History;
    OrderInRun(ts, j, k);
  }

  /**
   * Of a committed operation, each call of `postOp` went to its payer, in the mode in which the operation was settled;
   * or it was made in a self-call that failed, after which the operation was settled outside and `postOp` called again.
   */
  lemma CommittedPostOps(ts: seq<Transaction>, e: Event, k: nat)
    requires e in Log(ts) && e.Settled? && k < |History(ts)| && History(ts)[k].PostOpCalled?
    requires History(ts)[k].batch == e.batch && History(ts)[k].index == e.index
    ensures History(ts)[k].paymaster == e.payer
    ensures || History(ts)[k].mode == e.mode
            || (e.mode == PostOpReverted
                && exists l, cost :: k < l < |History(ts)|
                     && History(ts)[l] == PostOpCalled(e.batch, e.index, e.payer, PostOpReverted, cost))
  {
    hide History, Log, Filter, BatchTraces, EventsOf, WellFormed, Explains, PayerOf, SponsorOf, Affordable, LeftBy,
         Proper;
    var h, b := History(ts), e.batch;
    var n :| 0 <= n < |Log(ts)| && Log(ts)[n] == e;
    var p := BatchOfEvent(ts, n);
    var accepted := SettledOp(b, p, e);
    var op, ending := p.ops[e.index].op, p.endings[e.index];
    LeftInBatch(ts, p, k);
    LeftIs(op, ending, b, e.index, h[k]);
    OneSponsored(p, e.index, Try(h[k].mode, h[k].cost));
    PayerIsSponsor(op);
    if h[k].mode != e.mode {
      SecondTry(op, ending, Try(h[k].mode, h[k].cost));
      var t := PostOpCalled(b, e.index, e.payer, PostOpReverted, ending.tries[1].cost);
      LeavesTry(op, ending, b, e.index, 1);
      var l := CommittedIsLeft(ts, n, p, e.index, t);
      if l < k {
        OrderInRun(ts, l, k);
        assert false;
      }
      assert h[l] == PostOpCalled(b, e.index, e.payer, PostOpReverted, ending.tries[1].cost);
    }
  }

  lemma LeftInBatch(ts: seq<Transaction>, p: Batch, k: nat)
    requires k < |History(ts)| && !History(ts)[k].Observed? && |p.endings| == |p.ops|
    requires var b: nat := BatchOfTrace(History(ts)[k]);
             ProjectTrace(History(ts), b) == BatchTraces(b, p.ops, p.endings)
    ensures var i := PlaceOf(History(ts)[k]);
            i < |p.ops| && LeftBy(p.ops[i].op, p.endings[i], BatchOfTrace(History(ts)[k]), i, History(ts)[k])
  {
    hide History, Filter, BatchTraces, LeftBy;
    var b: nat := BatchOfTrace(History(ts)[k]);
    RankIsPosition(History(ts), TraceInBatch(b), k);
    var i := LeftByOperation(b, p.ops, p.endings, History(ts)[k]);
  }

  lemma SecondTry(op: UserOperation, e: Ending, attempt: Try)
    requires Proper(op, e) && attempt in e.tries && attempt.mode != e.mode
    ensures |e.tries| == 2 && e.tries[1].mode == e.mode == PostOpReverted
  {
    hide SponsorOf;
  }

  lemma LeavesTry(op: UserOperation, e: Ending, batch: nat, index: nat, k: nat)
    requires Proper(op, e) && k < |e.tries|
    ensures LeftBy(op, e, batch, index, PostOpCalled(batch, index, SponsorOf(op), e.tries[k].mode, e.tries[k].cost))
  {
    hide SponsorOf, TriesTrace;
    TriesLeft(batch, index, op, e.tries,
              PostOpCalled(batch, index, SponsorOf(op), e.tries[k].mode, e.tries[k].cost));
  }
}
