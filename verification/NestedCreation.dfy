/**
 * More than one creation of a sender in a run: one operation creates while the factory of another is at work, with
 * a smaller gas limit. So no operation commits twice.
 */
module NestedCreation {
  import opened Evm
  import opened UserOperations
  import opened Ledger
  import opened Protocol
  import opened Frames
  import opened Batches
  import opened Weaving
  import opened Runs
  import opened TwoPhase
  import opened ReplayProtection

  function IndexOf(e: Event): nat {
    match e
    case CreationStarted(_, index, _) => index
    case AccountValidated(_, index, _, _, _) => index
    case PrefundTaken(_, index, _, _) => index
    case Accepted(_, index, _, _, _) => index
    case Settled(_, index, _, _, _, _, _) => index
    case _ => 0
  }

  function KindOf(e: Event): nat {
    match e
    case HandlingStarted(_) => 0
    case CreationStarted(_, _, _) => 1
    case AccountValidated(_, _, _, _, _) => 2
    case PrefundTaken(_, _, _, _) => 3
    case Accepted(_, _, _, _, _) => 4
    case Settled(_, _, _, _, _, _, _) => 5
    case _ => 6
  }

  /** In a batch, by operation, and for each operation by kind. */
  predicate Before(e: Event, f: Event) {
    IndexOf(e) < IndexOf(f) || (IndexOf(e) == IndexOf(f) && KindOf(e) < KindOf(f))
  }

  ghost predicate Ascending(s: seq<Event>) {
    forall q, r :: 0 <= q < r < |s| ==> Before(s[q], s[r])
  }

  ghost predicate Ranged(s: seq<Event>, low: nat, high: nat) {
    forall q :: 0 <= q < |s| ==> low <= IndexOf(s[q]) < high && 1 <= KindOf(s[q]) <= 4
  }

  lemma AscendingAppend(a: seq<Event>, b: seq<Event>, low: nat, middle: nat, high: nat)
    requires Ascending(a) && Ranged(a, low, middle) && Ascending(b) && Ranged(b, middle, high) && low <= middle <= high
    ensures Ascending(a + b) && Ranged(a + b, low, high)
  {
    hide IndexOf, KindOf;
  }

  lemma OneAscends(batch: nat, index: nat, s: OpScript, word: uint256)
    ensures Ascending(ValidationEvents(batch, index, s, word))
    ensures Ranged(ValidationEvents(batch, index, s, word), index, index + 1)
  {
    hide PayerOf, PrefundOf;
  }

  lemma {:induction false} ValidationsAscend(batch: nat, index: nat, ops: seq<OpScript>, words: seq<uint256>)
    requires |words| == |ops|
    ensures Ascending(AllValidations(batch, index, ops, words))
    ensures Ranged(AllValidations(batch, index, ops, words), index, index + |ops|)
    decreases |ops|
  {
    if |ops| > 0 {
      hide ValidationEvents;
      ValidationsAscend(batch, index + 1, ops[1..], words[1..]);
      OneAscends(batch, index, ops[0], words[0]);
      hide Ascending, Ranged;
      AscendingAppend(ValidationEvents(batch, index, ops[0], words[0]),
                      AllValidations(batch, index + 1, ops[1..], words[1..]), index, index + 1, index + |ops|);
    }
  }

  lemma NothingBetween(s: seq<Event>, q: nat, r: nat)
    requires Ascending(s) && q + 1 < r < |s| && IndexOf(s[q]) == IndexOf(s[r])
    ensures KindOf(s[q]) + 1 < KindOf(s[r])
  {
    hide IndexOf, KindOf;
    assert Before(s[q], s[q + 1]) && Before(s[q + 1], s[r]);
  }

  /** A creation is followed at once, in its own batch, by the validation of the same operation. */
  lemma OpeningThenValidation(batch: nat, ops: seq<OpScript>, words: seq<uint256>, q: nat, r: nat)
    requires |words| == |ops| && q < r < |AllValidations(batch, 0, ops, words)|
    requires AllValidations(batch, 0, ops, words)[q].CreationStarted?
    requires AllValidations(batch, 0, ops, words)[r].AccountValidated?
    requires AllValidations(batch, 0, ops, words)[r].index == AllValidations(batch, 0, ops, words)[q].index
    ensures r == q + 1
  {
    hide AllValidations;
    ValidationsAscend(batch, 0, ops, words);
    var v := AllValidations(batch, 0, ops, words);
    if q + 1 < r {
      NothingBetween(v, q, r);
      assert false;
    }
  }

  lemma BeforeExecution(batch: nat, p: Batch, q: nat)
    requires WellFormed(p) && |p.endings| == |p.ops| && q < |EventsOf(batch, p)|
    requires EventsOf(batch, p)[q].CreationStarted? || EventsOf(batch, p)[q].AccountValidated?
    ensures 0 < q <= |AllValidations(batch, 0, p.ops, p.words)|
    ensures EventsOf(batch, p)[q] == AllValidations(batch, 0, p.ops, p.words)[q - 1]
  {
    hide AllValidations, Settlements, Affordable;
    var v, s := AllValidations(batch, 0, p.ops, p.words), Settlements(batch, 0, p.ops, p.endings);
    if |v| < q <= |v| + |s| {
      assert EventsOf(batch, p)[q] == s[q - 1 - |v|];
      NoAcceptance(batch, 0, p.ops, p.endings, s[q - 1 - |v|]);
    }
  }

  lemma EndingPerOp(p: Batch)
    requires WellFormed(p)
    ensures |p.endings| == |p.ops| == |p.words|
  {
  }

  /** The place of an event of a run in its own batch. */
  lemma PlaceOfEvent(ts: seq<Transaction>, batch: nat, k: nat) returns (p: Batch, q: nat)
    requires k < |Log(ts)| && BatchOf(Log(ts)[k]) == batch
    ensures q == Rank(Log(ts), InBatch(batch), k)
    ensures WellFormed(p) && |p.words| == |p.endings| == |p.ops| && Project(Log(ts), batch) == EventsOf(batch, p)
    ensures q < |EventsOf(batch, p)| && EventsOf(batch, p)[q] == Log(ts)[k]
  {
    hide Log, History, Filter, EventsOf, BatchTraces, WellFormed;
    p := BatchOfRun(ts, batch);
    q := Rank(Log(ts), InBatch(batch), k);
    RankIsPosition(Log(ts), InBatch(batch), k);
    EndingPerOp(p);
  }

  /** In every run, two overlapping creations of one sender are in different batches. */
  lemma OverlapCrossesBatches(ts: seq<Transaction>, a: Address, j: nat, k: nat)
    requires Overlapping(Log(ts), a, j, k)
    ensures Log(ts)[j].batch != Log(ts)[k].batch
  {
    hide Log, Filter, EventsOf, Project, WellFormed;
    var log, b := Log(ts), Log(ts)[k].batch;
    if log[j].batch == b {
      var c :| 0 <= c < j && log[..j][c] == OpeningOf(log[k]);
      var p, x := PlaceOfEvent(ts, b, c);
      var p', z := PlaceOfEvent(ts, b, k);
      RankIsPosition(log, InBatch(b), k);
      RankIsPosition(log, InBatch(b), j);
      RankGrows(log, InBatch(b), c, j);
      RankGrows(log, InBatch(b), j, k);
      BeforeExecution(b, p, x);
      BeforeExecution(b, p, z);
      OpeningThenValidation(b, p.ops, p.words, x - 1, z - 1);
    }
  }

  // ---------- what a batch does once ----------

  /** The opening of a batch, and the creation and validation at each place, happen once. */
  predicate HappensOnce(e: Event) {
    e.HandlingStarted? || e.CreationStarted? || e.AccountValidated?
  }

  lemma NoTwoAlike(s: seq<Event>, q: nat, r: nat)
    requires Ascending(s) && q < |s| && r < |s| && IndexOf(s[q]) == IndexOf(s[r]) && KindOf(s[q]) == KindOf(s[r])
    ensures q == r
  {
    hide IndexOf, KindOf;
  }

  lemma OnceInBatch(batch: nat, p: Batch, q: nat, r: nat)
    requires WellFormed(p) && |p.endings| == |p.ops| && q < |EventsOf(batch, p)| && r < |EventsOf(batch, p)|
    requires var e, e' := EventsOf(batch, p)[q], EventsOf(batch, p)[r];
             HappensOnce(e) && HappensOnce(e') && KindOf(e) == KindOf(e') && IndexOf(e) == IndexOf(e')
    ensures q == r
  {
    hide AllValidations, Settlements, Affordable;
    if q > 0 && r > 0 {
      OpenedFirst(batch, p, q);
      OpenedFirst(batch, p, r);
      BeforeExecution(batch, p, q);
      BeforeExecution(batch, p, r);
      ValidationsAscend(batch, 0, p.ops, p.words);
      var v := AllValidations(batch, 0, p.ops, p.words);
      NoTwoAlike(v, q - 1, r - 1);
    } else if q > 0 {
      OpenedFirst(batch, p, q);
    } else if r > 0 {
      OpenedFirst(batch, p, r);
    }
  }

  lemma OpenedFirst(batch: nat, p: Batch, q: nat)
    requires WellFormed(p) && |p.endings| == |p.ops| && 0 < q < |EventsOf(batch, p)|
    ensures EventsOf(batch, p)[0] == HandlingStarted(batch)
    ensures !EventsOf(batch, p)[q].HandlingStarted?
  {
    hide AllValidations, Settlements, Affordable;
    var v, s := AllValidations(batch, 0, p.ops, p.words), Settlements(batch, 0, p.ops, p.endings);
    if q <= |v| {
      assert EventsOf(batch, p)[q] == v[q - 1];
      ValidationsAscend(batch, 0, p.ops, p.words);
      assert KindOf(v[q - 1]) >= 1;
    } else if q <= |v| + |s| {
      assert EventsOf(batch, p)[q] == s[q - 1 - |v|];
      NoAcceptance(batch, 0, p.ops, p.endings, s[q - 1 - |v|]);
    }
  }

  lemma HappensOncePerRun(ts: seq<Transaction>, j: nat, k: nat)
    requires j < |Log(ts)| && k < |Log(ts)|
    requires var e, e' := Log(ts)[j], Log(ts)[k];
             && HappensOnce(e) && HappensOnce(e') && KindOf(e) == KindOf(e')
             && BatchOf(e) == BatchOf(e') && IndexOf(e) == IndexOf(e')
    ensures j == k
  {
    hide Log, Filter, EventsOf, Project, WellFormed, KindOf;
    var log, b := Log(ts), BatchOf(Log(ts)[k]);
    var p, x := PlaceOfEvent(ts, b, j);
    var p', y := PlaceOfEvent(ts, b, k);
    OnceInBatch(b, p, x, y);
    if j < k {
      RankGrows(log, InBatch(b), j, k);
    } else if k < j {
      RankGrows(log, InBatch(b), k, j);
    }
  }

  // ---------- a creation and what follows it in its batch ----------

  lemma {:induction false} ValidationFollows(batch: nat, index: nat, ops: seq<OpScript>, words: seq<uint256>, q: nat)
    returns (i: nat)
    requires |words| == |ops| && q < |AllValidations(batch, index, ops, words)|
    requires AllValidations(batch, index, ops, words)[q].CreationStarted?
    ensures i < |ops| && q + 1 < |AllValidations(batch, index, ops, words)|
    ensures var op := ops[i].op;
            && IsCreating(op) && AllValidations(batch, index, ops, words)[q] == CreationStarted(batch, index + i, op)
            && AllValidations(batch, index, ops, words)[q + 1]
               == AccountValidated(batch, index + i, op, ops[i].signer, words[i])
    decreases |ops|
  {
    hide PayerOf, PrefundOf;
    var first := ValidationEvents(batch, index, ops[0], words[0]);
    var n := |first|;
    if q >= n {
      var j := ValidationFollows(batch, index + 1, ops[1..], words[1..], q - n);
      i := j + 1;
    } else {
      i := 0;
    }
  }

  lemma {:induction false} SettlementAt(batch: nat, index: nat, ops: seq<OpScript>, endings: seq<Ending>, i: nat)
    requires |endings| == |ops| && i < |ops|
    ensures i < |Settlements(batch, index, ops, endings)|
    ensures Settlements(batch, index, ops, endings)[i]
            == SettledEvent(batch, index + i, ops[i].op, endings[i].cost, endings[i].mode)
    decreases |ops|
  {
    hide SettledEvent;
    if i > 0 {
      SettlementAt(batch, index + 1, ops[1..], endings[1..], i - 1);
    }
  }

  /** The places of the validation and of the settlement that belong to a creation. */
  lemma CreationInBatch(batch: nat, p: Batch, x: nat) returns (y: nat)
    requires WellFormed(p) && |p.endings| == |p.ops| && x < |EventsOf(batch, p)|
             && EventsOf(batch, p)[x].CreationStarted?
    ensures x + 1 < |EventsOf(batch, p)| && y < |EventsOf(batch, p)|
    ensures var c, v, s := EventsOf(batch, p)[x], EventsOf(batch, p)[x + 1], EventsOf(batch, p)[y];
            && v.AccountValidated? && IsCreating(v.op) && OpeningOf(v) == c
            && s.Settled? && s.batch == batch && s.gasLimit == c.op.verificationGasLimit
  {
    hide AllValidations, Settlements, Affordable;
    BeforeExecution(batch, p, x);
    var v, s := AllValidations(batch, 0, p.ops, p.words), Settlements(batch, 0, p.ops, p.endings);
    var i := ValidationFollows(batch, 0, p.ops, p.words, x - 1);
    SettlementAt(batch, 0, p.ops, p.endings, i);
    y := 1 + |v| + i;
    assert EventsOf(batch, p)[x + 1] == v[x];
    assert EventsOf(batch, p)[y] == s[i];
  }

  /** Of a creation of a run: the validation of its sender, and the settlement of its operation. */
  lemma CreationCompletes(ts: seq<Transaction>, c: nat) returns (v: nat, s: nat)
    requires c < |Log(ts)| && Log(ts)[c].CreationStarted?
    ensures v < |Log(ts)| && Log(ts)[v].AccountValidated? && IsCreating(Log(ts)[v].op)
    ensures OpeningOf(Log(ts)[v]) == Log(ts)[c]
    ensures s < |Log(ts)| && Log(ts)[s].Settled? && Log(ts)[s].batch == Log(ts)[c].batch
    ensures Log(ts)[s].gasLimit == Log(ts)[c].op.verificationGasLimit
  {
    hide Log, Filter, EventsOf, Affordable;
    var b := Log(ts)[c].batch;
    var p, x := PlaceOfEvent(ts, b, c);
    var y := CreationInBatch(b, p, x);
    v := Unrank(Log(ts), InBatch(b), x + 1);
    s := Unrank(Log(ts), InBatch(b), y);
  }

  // ---------- nested creations ----------

  /** Inside an open creation, a creation has a smaller gas limit. */
  lemma ScopesShrink(ts: seq<Transaction>, c: nat, batch: nat, index: nat, op: UserOperation)
    requires var st := Run(START, ts).st;
             Genuine(st) && c < |st.log| && st.log[c].CreationStarted? && Creating(batch, index, op) in At(st, c).stack
    ensures Run(START, ts).st.log[c].op.verificationGasLimit + GAS_MARGIN <= op.verificationGasLimit
  {
    hide Run, Genuine, LimitFits;
    var st := Run(START, ts).st;
    var v, s := CreationCompletes(ts, c);
    var h := ScopesOfBatch(st, c);
    var h' := ScopesOfBatch(st, s);
    HappensOncePerRun(ts, h, h');
    SettledFits(st, s);
    FitsInside(At(st, s).stack, st.log[s].gasLimit, batch, index, op);
  }

  lemma FitsInside(stack: seq<Scope>, gasLimit: nat, batch: nat, index: nat, op: UserOperation)
    requires LimitFits(stack, gasLimit) && Creating(batch, index, op) in stack
    ensures gasLimit + GAS_MARGIN <= op.verificationGasLimit
  {
    var p :| 0 <= p < |stack| && stack[p] == Creating(batch, index, op);
  }

  lemma SettledFits(st: State, s: nat)
    requires Genuine(st) && s < |st.log| && st.log[s].Settled?
    ensures LimitFits(At(st, s).stack, st.log[s].gasLimit)
  {
    EnabledAt(st, s);
  }

  /** A creation that starts while the sender of an earlier one is not validated yet. */
  ghost predicate Nested(log: seq<Event>, c: nat, d: nat) {
    && c < d < |log| && log[c].CreationStarted? && log[d].CreationStarted?
    && forall v :: c < v < d && log[v].AccountValidated? ==> OpeningOf(log[v]) != log[c]
  }

  /**
   * Of two nested creations, of whatever senders, the inner one has the smaller gas limit: its operation is executed
   * later in its batch, which the gas of the outer creation must still pay for.
   */
  lemma NestedCreationsShrink(ts: seq<Transaction>, c: nat, d: nat)
    requires Nested(Log(ts), c, d)
    ensures Log(ts)[d].op.verificationGasLimit + GAS_MARGIN <= Log(ts)[c].op.verificationGasLimit
  {
    hide Run, Genuine;
    var log := Log(ts);
    RunIsGenuine(ts);
    StaysOpen(Run(START, ts).st, c, d);
    ScopesShrink(ts, d, log[c].batch, log[c].index, log[c].op);
  }

  /** Two creations of `a`, one nested in the other. */
  ghost predicate StartsWhileOpen(log: seq<Event>, a: Address, c: nat, d: nat) {
    Nested(log, c, d) && log[c].op.sender == a && log[d].op.sender == a
  }

  /** The creation that opened the scope of a validated creating operation. */
  lemma OpeningPlace(st: State, k: nat) returns (c: nat)
    requires Genuine(st) && k < |st.log| && st.log[k].AccountValidated? && IsCreating(st.log[k].op)
    ensures c < k && st.log[c] == OpeningOf(st.log[k])
  {
    hide Genuine;
    CodeWhenValidated(st, k);
    c :| 0 <= c < k && st.log[..k][c] == OpeningOf(st.log[k]);
  }

  /** A creation that starts before the validation of another, after its opening, starts while it is open. */
  lemma StartsBeforeValidation(ts: seq<Transaction>, a: Address, c: nat, d: nat, k: nat)
    requires c < d < k < |Log(ts)| && Creates(Log(ts)[k], a) && Log(ts)[c] == OpeningOf(Log(ts)[k])
    requires Log(ts)[d].CreationStarted? && Log(ts)[d].op.sender == a
    ensures StartsWhileOpen(Log(ts), a, c, d)
  {
    hide Log;
    var log := Log(ts);
    forall v | c < v < d && log[v].AccountValidated?
      ensures OpeningOf(log[v]) != log[c]
    {
      if OpeningOf(log[v]) == log[c] {
        HappensOncePerRun(ts, v, k);
        assert false;
      }
    }
  }

  /** Of two creations of a sender, one starts while the other is open, and has the smaller gas limit. */
  lemma TwoCreationsNest(ts: seq<Transaction>, a: Address, j: nat, k: nat) returns (c: nat, d: nat)
    requires j < k < |Log(ts)| && Creates(Log(ts)[j], a) && Creates(Log(ts)[k], a)
    ensures StartsWhileOpen(Log(ts), a, c, d)
    ensures {Log(ts)[c], Log(ts)[d]} == {OpeningOf(Log(ts)[j]), OpeningOf(Log(ts)[k])}
    ensures Log(ts)[d].op.verificationGasLimit + GAS_MARGIN <= Log(ts)[c].op.verificationGasLimit
  {
    hide Run, Genuine, StartsWhileOpen;
    var st, log := Run(START, ts).st, Log(ts);
    RunIsGenuine(ts);
    SecondCreationOverlaps(st, a, j, k);
    OverlapCrossesBatches(ts, a, j, k);
    c :| 0 <= c < j && log[..j][c] == OpeningOf(log[k]);
    d := OpeningPlace(st, j);
    if c < d {
      StartsBeforeValidation(ts, a, c, d, k);
    } else {
      c, d := d, c;
      StartsBeforeValidation(ts, a, c, d, j);
    }
    NestedOf(log, a, c, d);
    NestedCreationsShrink(ts, c, d);
  }

  lemma NestedOf(log: seq<Event>, a: Address, c: nat, d: nat)
    requires StartsWhileOpen(log, a, c, d)
    ensures Nested(log, c, d)
  {
  }

  lemma RunIsGenuine(ts: seq<Transaction>)
    ensures Genuine(Run(START, ts).st) && Log(ts) == Run(START, ts).st.log
  {
    hide Run, Woven;
    RunKeeps(ts);
  }

  /**
   * At most one creating operation of a sender is validated in a run, exactly as long as no creation of that sender
   * starts while another is open: as long as no factory makes the entry point create the sender it is asked for.
   */
  lemma CreatesOnceIff(ts: seq<Transaction>, a: Address)
    ensures (forall j, k :: 0 <= j < |Log(ts)| && 0 <= k < |Log(ts)| && Creates(Log(ts)[j], a) && Creates(Log(ts)[k], a)
               ==> j == k)
       <==> (forall c: nat, d: nat :: !StartsWhileOpen(Log(ts), a, c, d))
  {
    hide Log;
    var log := Log(ts);
    forall j: nat, k: nat | j < k < |log| && Creates(log[j], a) && Creates(log[k], a)
      ensures exists c, d :: StartsWhileOpen(log, a, c, d)
    {
      var c, d := TwoCreationsNest(ts, a, j, k);
    }
    forall c: nat, d: nat | StartsWhileOpen(log, a, c, d)
      ensures exists j, k :: 0 <= j < |log| && 0 <= k < |log| && Creates(log[j], a) && Creates(log[k], a) && j != k
    {
      var j, s := CreationCompletes(ts, c);
      var k, s' := CreationCompletes(ts, d);
      if j == k {
        HappensOncePerRun(ts, c, d);
        assert false;
      }
      assert Creates(log[j], a) && Creates(log[k], a) && j != k;
    }
  }

  /** Over every run, no operation of a SimpleAccount commits twice: not in one batch, in two, or in nested ones. */
  lemma NoOperationCommitsTwice(ts: seq<Transaction>, j: nat, k: nat)
    requires j < |Log(ts)| && k < |Log(ts)| && Log(ts)[j].Accepted?
    requires var st, a := Run(START, ts).st, Log(ts)[j].op.sender; a in st.code && st.code[a].Simple?
    ensures !AcceptedTwice(Log(ts), j, k)
  {
    hide Run, Genuine, Overlapping;
    RunIsGenuine(ts);
    if AcceptedTwice(Log(ts), j, k) {
      var x, y := CommitsTwiceOnlyByOverlap(Run(START, ts).st, j, k);
      OverlapIsTwoCreations(Log(ts), Log(ts)[j].op.sender, x, y);
      var c, d := TwoCreationsNest(ts, Log(ts)[j].op.sender, x, y);
      assert false;
    }
  }

  lemma OverlapIsTwoCreations(log: seq<Event>, a: Address, j: nat, k: nat)
    requires Overlapping(log, a, j, k)
    ensures j < k < |log| && Creates(log[j], a) && Creates(log[k], a)
  {
  }
}
