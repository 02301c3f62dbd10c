/** First every operation of a batch is validated, then each is called: for every batch of every run. */
module TwoPhase {
  import opened Evm
  import opened UserOperations
  import opened Ledger
  import opened Protocol
  import opened Frames
  import opened Batches
  import opened Weaving
  import opened Runs

  // ---------- positions in a projection ----------

  /** The position of an element after filtering. */
  function Rank<T>(s: seq<T>, keep: T -> bool, k: nat): nat
    requires k <= |s|
  {
    |Filter(s[..k], keep)|
  }

  lemma RankIsPosition<T>(s: seq<T>, keep: T -> bool, k: nat)
    requires k < |s| && keep(s[k])
    ensures Rank(s, keep, k) < |Filter(s, keep)| && Filter(s, keep)[Rank(s, keep, k)] == s[k]
    ensures Filter(s[..k], keep) <= Filter(s, keep)
  {
    hide Filter;
    assert s == s[..k] + ([s[k]] + s[k + 1..]);
    FilterAppend(s[..k], [s[k]] + s[k + 1..], keep);
    FilterCons(s[k], s[k + 1..], keep);
  }

  lemma RankGrows<T>(s: seq<T>, keep: T -> bool, j: nat, k: nat)
    requires j < k <= |s| && keep(s[j])
    ensures Rank(s, keep, j) < Rank(s, keep, k)
  {
    hide Filter;
    assert s[..k][..j] == s[..j];
    RankIsPosition(s[..k], keep, j);
  }

  /** Every element of the projection stands somewhere. */
  lemma {:induction false} Unrank<T>(s: seq<T>, keep: T -> bool, q: nat) returns (k: nat)
    requires q < |Filter(s, keep)|
    ensures k < |s| && keep(s[k]) && Filter(s, keep)[q] == s[k] && Rank(s, keep, k) == q
    decreases |s|
  {
    var n := |s| - 1;
    assert s == s[..n] + [s[n]] by {
      assert |s| > 0;
    }
    FilterAppend(s[..n], [s[n]], keep);
    FilterOne(s[n], keep);
    hide Filter;
    if q < |Filter(s[..n], keep)| {
      k := Unrank(s[..n], keep, q);
      assert s[..n][..k] == s[..k];
    } else {
      k := n;
    }
  }

  // ---------- the order within one batch ----------

  /** Approvals and validations come first. */
  function PhaseOf(t: Trace): nat {
    if t.Approved? || t.Validated? then 0 else if t.Called? || t.PostOpCalled? then 1 else 2
  }

  function PlaceOf(t: Trace): nat {
    match t
    case Validated(_, index, _) => index
    case Approved(_, index, _) => index
    case Called(_, index, _, _) => index
    case PostOpCalled(_, index, _, _, _) => index
    case Observed(_) => 0
  }

  /** The order of the traces of one operation within a phase. */
  function StepOf(t: Trace): nat {
    match t
    case Approved(_, _, _) => 0
    case Validated(_, _, _) => 1
    case Called(_, _, _, _) => 2
    case PostOpCalled(_, _, _, mode, _) => if mode == PostOpReverted then 4 else 3
    case Observed(_) => 5
  }

  predicate Earlier(t: Trace, u: Trace) {
    || PhaseOf(t) < PhaseOf(u)
    || (PhaseOf(t) == PhaseOf(u) && PlaceOf(t) < PlaceOf(u))
    || (PhaseOf(t) == PhaseOf(u) && PlaceOf(t) == PlaceOf(u) && StepOf(t) < StepOf(u))
  }

  ghost predicate Ordered(s: seq<Trace>) {
    forall q, r :: 0 <= q < r < |s| ==> Earlier(s[q], s[r])
  }

  ghost predicate Within(s: seq<Trace>, phase: nat, low: nat, high: nat) {
    forall q :: 0 <= q < |s| ==> PhaseOf(s[q]) == phase && low <= PlaceOf(s[q]) < high
  }

  lemma OrderedAppend(a: seq<Trace>, b: seq<Trace>, phase: nat, low: nat, middle: nat, high: nat)
    requires Ordered(a) && Within(a, phase, low, middle) && Ordered(b) && Within(b, phase, middle, high)
    requires low <= middle <= high
    ensures Ordered(a + b) && Within(a + b, phase, low, high)
  {
    hide PhaseOf, PlaceOf, StepOf;
  }

  lemma PhasesAppend(a: seq<Trace>, b: seq<Trace>, n: nat)
    requires Ordered(a) && Within(a, 0, 0, n) && Ordered(b) && Within(b, 1, 0, n)
    ensures Ordered(a + b)
  {
    hide PhaseOf, PlaceOf, StepOf;
  }

  lemma {:induction false} ValidatedOrdered(batch: nat, index: nat, ops: seq<OpScript>)
    ensures Ordered(ValidatedTraces(batch, index, ops))
            && Within(ValidatedTraces(batch, index, ops), 0, index, index + |ops|)
    decreases |ops|
  {
    if |ops| > 0 {
      hide SponsorOf;
      ValidatedOrdered(batch, index + 1, ops[1..]);
      OneValidationOrdered(batch, index, ops[0].op);
      hide Ordered, Within, ValidationTrace;
      OrderedAppend(ValidationTrace(batch, index, ops[0].op), ValidatedTraces(batch, index + 1, ops[1..]), 0, index,
                    index + 1, index + |ops|);
    }
  }

  lemma OneValidationOrdered(batch: nat, index: nat, op: UserOperation)
    ensures Ordered(ValidationTrace(batch, index, op)) && Within(ValidationTrace(batch, index, op), 0, index, index + 1)
  {
    hide SponsorOf;
  }

  lemma TriesAre(batch: nat, index: nat, op: UserOperation, tries: seq<Try>)
    requires |tries| <= 2
    ensures var t := TriesTrace(batch, index, op, tries);
            && |t| == |tries|
            && forall k :: 0 <= k < |t| ==>
                 t[k] == PostOpCalled(batch, index, SponsorOf(op), tries[k].mode, tries[k].cost)
  {
    hide SponsorOf;
    if |tries| > 0 {
      assert |tries[1..]| > 0 ==> tries[1..][1..] == [];
    }
  }

  lemma OneExecutionOrdered(batch: nat, index: nat, op: UserOperation, e: Ending)
    requires Proper(op, e)
    ensures Ordered(ExecutionTrace(batch, index, op, e.tries))
    ensures Within(ExecutionTrace(batch, index, op, e.tries), 1, index, index + 1)
  {
    hide SponsorOf, TriesTrace;
    TriesAre(batch, index, op, e.tries);
  }

  lemma {:induction false} ExecutedOrdered(batch: nat, index: nat, ops: seq<OpScript>, endings: seq<Ending>)
    requires Affordable(ops, endings)
    ensures Ordered(ExecutedTraces(batch, index, ops, endings))
    ensures Within(ExecutedTraces(batch, index, ops, endings), 1, index, index + |ops|)
    decreases |ops|
  {
    if |ops| > 0 {
      hide Proper, PrefundOf, ExecutionTrace;
      AffordableTail(ops, endings);
      ExecutedOrdered(batch, index + 1, ops[1..], endings[1..]);
      OneExecutionOrdered(batch, index, ops[0].op, endings[0]);
      hide Ordered, Within, Affords, Affordable;
      OrderedAppend(ExecutionTrace(batch, index, ops[0].op, endings[0].tries),
                    ExecutedTraces(batch, index + 1, ops[1..], endings[1..]), 1, index, index + 1, index + |ops|);
    }
  }

  lemma BatchOrdered(batch: nat, ops: seq<OpScript>, endings: seq<Ending>)
    requires Affordable(ops, endings) && |endings| == |ops|
    ensures Ordered(BatchTraces(batch, ops, endings))
  {
    hide Ordered, Within, ValidatedTraces, ExecutedTraces, Affordable;
    ValidatedOrdered(batch, 0, ops);
    ExecutedOrdered(batch, 0, ops, endings);
    PhasesAppend(ValidatedTraces(batch, 0, ops), ExecutedTraces(batch, 0, ops, endings), |ops|);
  }

  // ---------- what a batch leaves for each operation ----------

  /** A trace that the operation at its place leaves. */
  ghost predicate LeftBy(op: UserOperation, e: Ending, batch: nat, index: nat, t: Trace) {
    t in ValidationTrace(batch, index, op) || t in ExecutionTrace(batch, index, op, e.tries)
  }

  lemma {:induction false} ValidatedLeft(batch: nat, index: nat, ops: seq<OpScript>, t: Trace)
    ensures t in ValidatedTraces(batch, index, ops) <==>
            exists i :: 0 <= i < |ops| && t in ValidationTrace(batch, index + i, ops[i].op)
    decreases |ops|
  {
    hide ValidationTrace;
    if |ops| > 0 {
      var rest := ops[1..];
      ValidatedLeft(batch, index + 1, rest, t);
      assert forall i :: 0 <= i < |rest| ==> rest[i] == ops[i + 1];
      if t in ValidatedTraces(batch, index + 1, rest) {
        var i :| 0 <= i < |rest| && t in ValidationTrace(batch, index + 1 + i, rest[i].op);
        assert t in ValidationTrace(batch, index + (i + 1), ops[i + 1].op);
      }
      if i :| 0 < i < |ops| && t in ValidationTrace(batch, index + i, ops[i].op) {
        assert t in ValidationTrace(batch, index + 1 + (i - 1), rest[i - 1].op);
      }
    }
  }

  lemma {:induction false} ExecutedLeft(batch: nat, index: nat, ops: seq<OpScript>, endings: seq<Ending>, t: Trace)
    requires |endings| == |ops|
    ensures t in ExecutedTraces(batch, index, ops, endings) <==>
            exists i :: 0 <= i < |ops| && t in ExecutionTrace(batch, index + i, ops[i].op, endings[i].tries)
    decreases |ops|
  {
    hide ExecutionTrace;
    if |ops| > 0 {
      var rest, later := ops[1..], endings[1..];
      ExecutedLeft(batch, index + 1, rest, later, t);
      assert forall i :: 0 <= i < |rest| ==> rest[i] == ops[i + 1] && later[i] == endings[i + 1];
      if t in ExecutedTraces(batch, index + 1, rest, later) {
        var i :| 0 <= i < |rest| && t in ExecutionTrace(batch, index + 1 + i, rest[i].op, later[i].tries);
        assert t in ExecutionTrace(batch, index + (i + 1), ops[i + 1].op, endings[i + 1].tries);
      }
      if i :| 0 < i < |ops| && t in ExecutionTrace(batch, index + i, ops[i].op, endings[i].tries) {
        assert t in ExecutionTrace(batch, index + 1 + (i - 1), rest[i - 1].op, later[i - 1].tries);
      }
    }
  }

  /** The traces of a batch are those its operations leave. */
  lemma LeftByOperation(batch: nat, ops: seq<OpScript>, endings: seq<Ending>, t: Trace) returns (i: nat)
    requires |endings| == |ops| && t in BatchTraces(batch, ops, endings)
    ensures i < |ops| && LeftBy(ops[i].op, endings[i], batch, i, t) && PlaceOf(t) == i
  {
    hide ValidatedTraces, ExecutedTraces, ValidationTrace, ExecutionTrace;
    ValidatedLeft(batch, 0, ops, t);
    ExecutedLeft(batch, 0, ops, endings, t);
    if t in ValidatedTraces(batch, 0, ops) {
      i :| 0 <= i < |ops| && t in ValidationTrace(batch, 0 + i, ops[i].op);
    } else {
      i :| 0 <= i < |ops| && t in ExecutionTrace(batch, 0 + i, ops[i].op, endings[i].tries);
    }
    LeftIs(ops[i].op, endings[i], batch, i, t);
  }

  lemma OperationLeaves(batch: nat, ops: seq<OpScript>, endings: seq<Ending>, i: nat, t: Trace)
    requires |endings| == |ops| && i < |ops| && LeftBy(ops[i].op, endings[i], batch, i, t)
    ensures t in BatchTraces(batch, ops, endings)
  {
    hide ValidatedTraces, ExecutedTraces, ValidationTrace, ExecutionTrace;
    ValidatedLeft(batch, 0, ops, t);
    ExecutedLeft(batch, 0, ops, endings, t);
    assert t in ValidationTrace(batch, 0 + i, ops[i].op)
           || t in ExecutionTrace(batch, 0 + i, ops[i].op, endings[i].tries);
  }

  /** What the traces of an operation say. */
  lemma {:induction false} LeftIs(op: UserOperation, e: Ending, batch: nat, index: nat, t: Trace)
    requires LeftBy(op, e, batch, index, t)
    ensures PlaceOf(t) == index
    ensures match t
            case Approved(_, _, op') => op' == op && SponsorOf(op) != ZERO_ADDRESS
            case Validated(_, _, op') => op' == op
            case Called(_, _, target, callData) => target == op.sender && callData == op.callData != []
            case PostOpCalled(_, _, paymaster, mode, cost) => paymaster == SponsorOf(op) && Try(mode, cost) in e.tries
            case Observed(_) => false
  {
    hide SponsorOf, TriesTrace;
    TriesLeft(batch, index, op, e.tries, t);
  }

  lemma {:induction false} TriesLeft(batch: nat, index: nat, op: UserOperation, tries: seq<Try>, t: Trace)
    ensures t in TriesTrace(batch, index, op, tries) <==>
            && t.PostOpCalled? && t == PostOpCalled(batch, index, SponsorOf(op), t.mode, t.cost)
            && Try(t.mode, t.cost) in tries
  {
    hide SponsorOf;
    if |tries| > 0 {
      TriesLeft(batch, index, op, tries[1..], t);
      assert tries == [tries[0]] + tries[1..];
    }
  }

  // ---------- every run ----------

  /** What the run recorded. */
  function History(ts: seq<Transaction>): seq<Trace> {
    Run(START, ts).m.history
  }

  function Log(ts: seq<Transaction>): seq<Event> {
    Run(START, ts).st.log
  }

  /** The place of an entry in its own batch. */
  lemma PlaceInBatch(ts: seq<Transaction>, k: nat) returns (p: Batch, q: nat)
    requires k < |History(ts)| && !History(ts)[k].Observed?
    ensures var b: nat := BatchOfTrace(History(ts)[k]);
            && q == Rank(History(ts), TraceInBatch(b), k)
            && Explains(p, Project(Log(ts), b), ProjectTrace(History(ts), b), b) && Affordable(p.ops, p.endings)
            && |p.endings| == |p.ops| && q < |ProjectTrace(History(ts), b)| <= |BatchTraces(b, p.ops, p.endings)|
            && BatchTraces(b, p.ops, p.endings)[q] == History(ts)[k]
  {
    hide Run, Filter, BatchTraces, Affordable, EventsOf;
    var b: nat := BatchOfTrace(History(ts)[k]);
    p := EveryBatchIsWhole(ts, b);
    AffordableLength(p.ops, p.endings);
    q := Rank(History(ts), TraceInBatch(b), k);
    RankIsPosition(History(ts), TraceInBatch(b), k);
  }

  /** Who left an entry of the history. */
  lemma OperationOf(ts: seq<Transaction>, k: nat) returns (p: Batch, i: nat)
    requires k < |History(ts)| && !History(ts)[k].Observed?
    ensures var b: nat := BatchOfTrace(History(ts)[k]);
            && Explains(p, Project(Log(ts), b), ProjectTrace(History(ts), b), b) && Affordable(p.ops, p.endings)
            && i < |p.ops| == |p.endings| && i == PlaceOf(History(ts)[k])
            && LeftBy(p.ops[i].op, p.endings[i], b, i, History(ts)[k])
  {
    hide History, Log, Explains, BatchTraces, Affords, LeftBy;
    var q: nat;
    p, q := PlaceInBatch(ts, k);
    i := LeftByOperation(BatchOfTrace(History(ts)[k]), p.ops, p.endings, History(ts)[k]);
  }

  /** The history of a batch is in its order. */
  lemma OrderInRun(ts: seq<Transaction>, j: nat, k: nat)
    requires j < k < |History(ts)| && !History(ts)[j].Observed? && !History(ts)[k].Observed?
    requires BatchOfTrace(History(ts)[j]) == BatchOfTrace(History(ts)[k])
    ensures Earlier(History(ts)[j], History(ts)[k])
  {
    hide History, Log, Filter, BatchTraces, Affordable, Earlier;
    var h, b := History(ts), BatchOfTrace(History(ts)[k]);
    var p, q := PlaceInBatch(ts, k);
    RankIsPosition(h, TraceInBatch(b), j);
    RankGrows(h, TraceInBatch(b), j, k);
    BatchOrdered(b, p.ops, p.endings);
    hide Explains;
    PrefixAt(ProjectTrace(h, b), BatchTraces(b, p.ops, p.endings), Rank(h, TraceInBatch(b), j));
  }

  lemma PrefixAt<T>(s: seq<T>, s': seq<T>, q: nat)
    requires s <= s' && q < |s|
    ensures q < |s'| && s[q] == s'[q]
  {
  }

  /** What comes earlier in a batch has happened when something later in it has. */
  lemma EarlierInRun(ts: seq<Transaction>, k: nat, p: Batch, t: Trace) returns (j: nat)
    requires k < |History(ts)| && !History(ts)[k].Observed?
    requires var b: nat := BatchOfTrace(History(ts)[k]);
             && Explains(p, Project(Log(ts), b), ProjectTrace(History(ts), b), b) && |p.endings| == |p.ops|
             && Affordable(p.ops, p.endings) && t in BatchTraces(b, p.ops, p.endings)
    requires Earlier(t, History(ts)[k])
    ensures j < k && History(ts)[j] == t
  {
    hide History, Log, Filter, BatchTraces, Affordable, WellFormed, EventsOf;
    var h, b: nat := History(ts), BatchOfTrace(History(ts)[k]);
    var whole, keep := BatchTraces(b, p.ops, p.endings), TraceInBatch(b);
    var q := Rank(h, keep, k);
    RankIsPosition(h, keep, k);
    PrefixAt(ProjectTrace(h, b), whole, q);
    BatchOrdered(b, p.ops, p.endings);
    var r :| 0 <= r < |whole| && whole[r] == t;
    assert r < q by {
      NotBoth(t, h[k]);
    }
    PrefixAt(ProjectTrace(h, b), whole, r);
    j := Unrank(h, keep, r);
    if j >= k {
      RankMonotone(h, keep, k, j);
      assert false;
    }
  }

  lemma NotBoth(t: Trace, u: Trace)
    ensures !(Earlier(t, u) && Earlier(u, t)) && !Earlier(t, t)
  {
  }

  lemma RankMonotone<T>(s: seq<T>, keep: T -> bool, j: nat, k: nat)
    requires j <= k <= |s|
    ensures Rank(s, keep, j) <= Rank(s, keep, k)
  {
    hide Filter;
    assert s[..k] == s[..j] + s[j..k];
    FilterAppend(s[..j], s[j..k], keep);
  }

  /**
   * An account is called only with the callData of an operation that was validated for it before, in the same
   * batch and at the same place, and only when every validation of that batch is over. This includes batches
   * and calls that were rolled back.
   */
  lemma CallsFollowValidation(ts: seq<Transaction>, k: nat) returns (j: nat)
    requires k < |History(ts)| && History(ts)[k].Called?
    ensures var call := History(ts)[k];
            && j < k && History(ts)[j].Validated?
            && History(ts)[j].batch == call.batch && History(ts)[j].index == call.index
            && History(ts)[j].op.sender == call.target && History(ts)[j].op.callData == call.callData != []
            && forall i :: k < i < |History(ts)| && History(ts)[i].Validated? ==> History(ts)[i].batch != call.batch
  {
    hide History, Log, Explains, BatchTraces, Affordable;
    var h, b := History(ts), History(ts)[k].batch;
    var p, i := OperationOf(ts, k);
    LeftIs(p.ops[i].op, p.endings[i], b, i, h[k]);
    j := ValidatedBefore(ts, k, p, i);
    NothingValidatedAfter(ts, k);
  }

  /** Once a batch calls an account or asks a paymaster again, its operation here has been validated. */
  lemma ValidatedBefore(ts: seq<Transaction>, k: nat, p: Batch, i: nat) returns (j: nat)
    requires k < |History(ts)| && PhaseOf(History(ts)[k]) == 1 && i < |p.ops| == |p.endings|
    requires var b: nat := BatchOfTrace(History(ts)[k]);
             Explains(p, Project(Log(ts), b), ProjectTrace(History(ts), b), b) && Affordable(p.ops, p.endings)
    ensures j < k && History(ts)[j] == Validated(BatchOfTrace(History(ts)[k]), i, p.ops[i].op)
  {
    hide History, Log, Explains, BatchTraces, Affordable, SponsorOf, ExecutionTrace;
    var b: nat := BatchOfTrace(History(ts)[k]);
    var t := Validated(b, i, p.ops[i].op);
    OperationLeaves(b, p.ops, p.endings, i, t);
    j := EarlierInRun(ts, k, p, t);
  }

  lemma NothingValidatedAfter(ts: seq<Transaction>, k: nat)
    requires k < |History(ts)| && PhaseOf(History(ts)[k]) == 1
    ensures var b := BatchOfTrace(History(ts)[k]);
            forall l :: k < l < |History(ts)| && PhaseOf(History(ts)[l]) == 0 ==> BatchOfTrace(History(ts)[l]) != b
  {
    hide History;
    var h := History(ts);
    forall l | k < l < |h| && PhaseOf(h[l]) == 0
      ensures BatchOfTrace(h[l]) != BatchOfTrace(h[k])
    {
      if BatchOfTrace(h[l]) == BatchOfTrace(h[k]) {
        OrderInRun(ts, k, l);
        assert false;
      }
    }
  }

  /** Validations come in order: when an operation is validated, all before it in its batch have been. */
  lemma ValidatedInOrder(ts: seq<Transaction>, k: nat, i: nat) returns (j: nat)
    requires k < |History(ts)| && History(ts)[k].Validated? && i < History(ts)[k].index
    ensures j < k && History(ts)[j].Validated? && History(ts)[j].batch == History(ts)[k].batch
            && History(ts)[j].index == i
  {
    hide History, Log, Explains, BatchTraces, Affordable, SponsorOf, ExecutionTrace;
    var b := History(ts)[k].batch;
    var p, n := OperationOf(ts, k);
    var t := Validated(b, i, p.ops[i].op);
    OperationLeaves(b, p.ops, p.endings, i, t);
    j := EarlierInRun(ts, k, p, t);
  }

  /** No operation is called twice. */
  lemma CalledAtMostOnce(ts: seq<Transaction>, j: nat, k: nat)
    requires j < k < |History(ts)| && History(ts)[j].Called? && History(ts)[k].Called?
    ensures History(ts)[j].batch != History(ts)[k].batch || History(ts)[j].index != History(ts)[k].index
  {
    hide History;
    if History(ts)[j].batch == History(ts)[k].batch {
      OrderInRun(ts, j, k);
    }
  }

  // ---------- committed batches ----------

  lemma {:induction false} AcceptedIsOfBatch(batch: nat, index: nat, ops: seq<OpScript>, words: seq<uint256>, e: Event)
    requires |words| == |ops| && e.Accepted? && e in AllValidations(batch, index, ops, words)
    ensures index <= e.index < index + |ops| && e.op == ops[e.index - index].op
    decreases |ops|
  {
    if e !in ValidationEvents(batch, index, ops[0], words[0]) {
      AcceptedIsOfBatch(batch, index + 1, ops[1..], words[1..], e);
    }
  }

  lemma {:induction false} NoAcceptance(batch: nat, index: nat, ops: seq<OpScript>, endings: seq<Ending>, e: Event)
    requires |endings| == |ops| && e in Settlements(batch, index, ops, endings)
    ensures e.Settled?
    decreases |ops|
  {
    if e != Settlements(batch, index, ops, endings)[0] {
      NoAcceptance(batch, index + 1, ops[1..], endings[1..], e);
    }
  }

  lemma AcceptedOp(batch: nat, p: Batch, e: Event)
    requires WellFormed(p) && |p.endings| == |p.ops| && e.Accepted? && e in EventsOf(batch, p)
    ensures e.index < |p.ops| && p.ops[e.index].op == e.op
  {
    hide AllValidations, Settlements, Affordable;
    if e in AllValidations(batch, 0, p.ops, p.words) {
      AcceptedIsOfBatch(batch, 0, p.ops, p.words, e);
    } else if e in Settlements(batch, 0, p.ops, p.endings) {
      NoAcceptance(batch, 0, p.ops, p.endings, e);
    }
  }

  /** The batch of a committed event: all of its events are in the log, and all its traces in the history. */
  lemma BatchOfEvent(ts: seq<Transaction>, n: nat) returns (p: Batch)
    requires n < |Log(ts)| && BatchOf(Log(ts)[n]) >= 0
    ensures var b: nat := BatchOf(Log(ts)[n]);
            && WellFormed(p) && |p.endings| == |p.ops| && Affordable(p.ops, p.endings)
            && Project(Log(ts), b) == EventsOf(b, p) && Log(ts)[n] in EventsOf(b, p)
            && ProjectTrace(History(ts), b) == BatchTraces(b, p.ops, p.endings)
            && Explains(p, Project(Log(ts), b), ProjectTrace(History(ts), b), b)
  {
    hide Run, Filter, BatchTraces, EventsOf, Affords;
    var b: nat := BatchOf(Log(ts)[n]);
    FilterHas(Log(ts), InBatch(b), n);
    p := EveryBatchIsWhole(ts, b);
  }

  /** What an operation of a committed batch leaves is in the history. */
  lemma CommittedIsLeft(ts: seq<Transaction>, n: nat, p: Batch, i: nat, t: Trace) returns (k: nat)
    requires n < |Log(ts)| && BatchOf(Log(ts)[n]) >= 0 && i < |p.ops| == |p.endings|
    requires var b: nat := BatchOf(Log(ts)[n]);
             && ProjectTrace(History(ts), b) == BatchTraces(b, p.ops, p.endings)
             && LeftBy(p.ops[i].op, p.endings[i], b, i, t)
    ensures k < |History(ts)| && History(ts)[k] == t
  {
    hide History, Log, Filter, BatchTraces, LeftBy;
    var b: nat := BatchOf(Log(ts)[n]);
    OperationLeaves(b, p.ops, p.endings, i, t);
    var traces := ProjectTrace(History(ts), b);
    var q :| 0 <= q < |traces| && traces[q] == t;
    k := Unrank(History(ts), TraceInBatch(b), q);
  }

  /** Every committed operation with callData had its call made; together with CalledAtMostOnce, exactly once. */
  lemma CommittedIsCalled(ts: seq<Transaction>, e: Event) returns (k: nat)
    requires e in Log(ts) && e.Accepted? && |e.op.callData| != 0
    ensures k < |History(ts)| && History(ts)[k] == Called(e.batch, e.index, e.op.sender, e.op.callData)
  {
    hide History, Log, Filter, BatchTraces, EventsOf, WellFormed, Explains, ValidationTrace, TriesTrace;
    var n :| 0 <= n < |Log(ts)| && Log(ts)[n] == e;
    var p := BatchOfEvent(ts, n);
    AcceptedOp(e.batch, p, e);
    k := CommittedIsLeft(ts, n, p, e.index, Called(e.batch, e.index, e.op.sender, e.op.callData));
  }

  lemma BatchOfRun(ts: seq<Transaction>, batch: nat) returns (p: Batch)
    ensures Explains(p, Project(Log(ts), batch), ProjectTrace(History(ts), batch), batch)
  {
    hide Run, Filter, Explains;
    p := EveryBatchIsWhole(ts, batch);
  }
}
