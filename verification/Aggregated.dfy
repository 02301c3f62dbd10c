/** `handleAggregatedOps` against `handleOps` on the concatenated operations. */
module Aggregated {
  import opened Evm
  import opened Validation
  import opened Ledger
  import opened Protocol

  /** The same failure, up to the index inside a `FailedOp`. */
  predicate SameReason(e: Error, e': Error) {
    e == e' || (e.FailedOp? && e'.FailedOp? && e.reason == e'.reason)
  }

  ghost predicate Agree<T>(o: Outcome<T>, o': Outcome<T>) {
    match (o, o')
    case (Done(w, x), Done(w', x')) => w == w' && x == x'
    case (Reverted(m, e), Reverted(m', e')) => m == m' && SameReason(e, e')
    case _ => false
  }

  lemma {:induction false} ReportedIndexOnly(blk: Block, w: World, batch: nat, index: nat, r: nat, r': nat,
                                             aggregator: Address, ops: seq<OpScript>)
    ensures Agree(ValidateOps(blk, w, batch, index, r, aggregator, ops),
                  ValidateOps(blk, w, batch, index, r', aggregator, ops))
    decreases |ops|
  {
    hide ValidatePrepayment, CheckValidationData;
    if |ops| > 0 {
      var o := ValidateOp(blk, w, batch, index, r, aggregator, ops[0]);
      assert Agree(o, ValidateOp(blk, w, batch, index, r', aggregator, ops[0]));
      if o.Done? {
        hide ValidateOp;
        ReportedIndexOnly(blk, o.world, batch, index + 1, r + 1, r' + 1, aggregator, ops[1..]);
      }
    }
  }

  /** Validating two lists one after the other. */
  function ValidateBoth(blk: Block, w: World, batch: nat, index: nat, r: nat, aggregator: Address,
                        a: seq<OpScript>, b: seq<OpScript>): Outcome<seq<UserOpInfo>>
  {
    var (w1, infos) :- ValidateOps(blk, w, batch, index, r, aggregator, a);
    var (w2, rest) :- ValidateOps(blk, w1, batch, index + |a|, r + |a|, aggregator, b);
    Done(w2, infos + rest)
  }

  lemma {:induction false} ValidateSplit(blk: Block, w: World, batch: nat, index: nat, r: nat, aggregator: Address,
                                         a: seq<OpScript>, b: seq<OpScript>)
    ensures ValidateOps(blk, w, batch, index, r, aggregator, a + b)
            == ValidateBoth(blk, w, batch, index, r, aggregator, a, b)
    decreases |a|
  {
    hide ValidateOp;
    if |a| == 0 {
      assert a + b == b;
      var o := ValidateOps(blk, w, batch, index, r, aggregator, b);
      if o.Done? {
        assert [] + o.value == o.value;
      }
    } else {
      var o := ValidateOp(blk, w, batch, index, r, aggregator, a[0]);
      assert (a + b)[0] == a[0] && (a + b)[1..] == a[1..] + b;
      if o.Done? {
        ValidateSplit(blk, o.world, batch, index + 1, r + 1, aggregator, a[1..], b);
        var o1 := ValidateOps(blk, o.world, batch, index + 1, r + 1, aggregator, a[1..]);
        if o1.Done? {
          var o2 := ValidateOps(blk, o1.world, batch, index + |a|, r + |a|, aggregator, b);
          if o2.Done? {
            assert [o.value] + (o1.value + o2.value) == ([o.value] + o1.value) + o2.value;
          }
        }
      }
    }
  }

  lemma {:induction false} ExecuteSplit(blk: Block, w: World, batch: nat, index: nat, a: seq<OpScript>,
                                        b: seq<OpScript>, x: seq<UserOpInfo>, y: seq<UserOpInfo>, collected: uint256)
    requires |x| == |a| && |y| == |b|
    ensures ExecuteOps(blk, w, batch, index, a + b, x + y, collected)
         == match ExecuteOps(blk, w, batch, index, a, x, collected)
            case Done(w1, c) => ExecuteOps(blk, w1, batch, index + |a|, b, y, c)
            case Reverted(m, e) => Reverted(m, e)
    decreases |a|
  {
    hide ExecuteUserOp, Wrap;
    if |a| == 0 {
      assert a + b == b && x + y == y;
    } else {
      assert (a + b)[0] == a[0] && (a + b)[1..] == a[1..] + b;
      assert (x + y)[0] == x[0] && (x + y)[1..] == x[1..] + y;
      var o := ExecuteUserOp(blk, w, batch, index, a[0], x[0]);
      if o.Done? {
        ExecuteSplit(blk, o.world, batch, index + 1, a[1..], b, x[1..], y, Wrap(collected + o.value));
      }
    }
  }

  /** Every aggregator that is named is there and accepts the signatures of its group; the marker 1 names none. */
  predicate Signed(st: State, groups: seq<Group>) {
    forall i :: 0 <= i < |groups| ==>
      && groups[i].aggregator != SIG_VALIDATION_FAILED
      && (groups[i].aggregator != ZERO_ADDRESS ==> groups[i].aggregator in st.code && groups[i].signaturesValid)
  }

  /** The first loop lets exactly the groups through whose signatures are in order. */
  lemma {:induction false} SignedIff(st: State, groups: seq<Group>)
    ensures CheckAggregators(st, groups) == None <==> Signed(st, groups)
    decreases |groups|
  {
    if |groups| > 0 {
      SignedIff(st, groups[1..]);
      assert forall i :: 0 <= i < |groups[1..]| ==> groups[1..][i] == groups[i + 1];
      assert Signed(st, groups) ==> Signed(st, groups[1..]);
      if Signed(st, groups[1..]) && CheckAggregators(st, [groups[0]]) == None {
        SignedCons(st, groups);
      }
    }
  }

  lemma SignedCons(st: State, groups: seq<Group>)
    requires |groups| > 0 && Signed(st, groups[1..]) && CheckAggregators(st, [groups[0]]) == None
    ensures Signed(st, groups)
  {
    forall i | 0 <= i < |groups|
      ensures groups[i].aggregator != SIG_VALIDATION_FAILED
      ensures groups[i].aggregator != ZERO_ADDRESS ==> groups[i].aggregator in st.code && groups[i].signaturesValid
    {
      if i > 0 {
        assert groups[1..][i - 1] == groups[i];
      }
    }
  }

  /** A committed `handleAggregatedOps` had all its signatures in order; without that it changes nothing. */
  lemma CommittedIsSigned(blk: Block, w: World, a: Action)
    requires a.HandleAggregatedOps?
    ensures PerformHandleAggregatedOps(blk, w, a).Done? ==> Signed(w.st, a.groups)
    ensures !Signed(w.st, a.groups) ==> PerformHandleAggregatedOps(blk, w, a).Reverted?
                                        && PerformHandleAggregatedOps(blk, w, a).m == w.m
  {
    hide ValidateGroups, ExecuteGroups, Compensate, CheckAggregators, Signed;
    SignedIff(w.st, a.groups);
  }

  predicate NoAggregator(groups: seq<Group>) {
    forall i :: 0 <= i < |groups| ==> groups[i].aggregator == ZERO_ADDRESS
  }

  lemma NoAggregatorTail(groups: seq<Group>)
    requires NoAggregator(groups) && |groups| > 0
    ensures NoAggregator(groups[1..])
  {
    assert forall i :: 0 <= i < |groups[1..]| ==> groups[1..][i] == groups[i + 1];
  }

  lemma {:induction false} NothingToCheck(st: State, groups: seq<Group>)
    requires NoAggregator(groups)
    ensures CheckAggregators(st, groups) == None
    decreases |groups|
  {
    if |groups| > 0 {
      NoAggregatorTail(groups);
      NothingToCheck(st, groups[1..]);
    }
  }

  lemma AgreeBoth(blk: Block, w: World, batch: nat, index: nat, r: nat, a: seq<OpScript>, b: seq<OpScript>,
                  rest: Outcome<seq<UserOpInfo>>)
    requires ValidateOps(blk, w, batch, index, 0, ZERO_ADDRESS, a).Done? ==>
               Agree(rest, ValidateOps(blk, ValidateOps(blk, w, batch, index, 0, ZERO_ADDRESS, a).world, batch,
                                       index + |a|, r + |a|, ZERO_ADDRESS, b))
    ensures Agree(Together(ValidateOps(blk, w, batch, index, 0, ZERO_ADDRESS, a), rest),
                  ValidateOps(blk, w, batch, index, r, ZERO_ADDRESS, a + b))
  {
    hide ValidateOps;
    ValidateSplit(blk, w, batch, index, r, ZERO_ADDRESS, a, b);
    ReportedIndexOnly(blk, w, batch, index, 0, r, ZERO_ADDRESS, a);
  }

  /** The outcome of a first part, with that of the rest if it succeeds. */
  function Together(first: Outcome<seq<UserOpInfo>>, rest: Outcome<seq<UserOpInfo>>): Outcome<seq<UserOpInfo>> {
    var (_, infos) :- first;
    var (w, more) :- rest;
    Done(w, infos + more)
  }

  lemma GroupsTogether(blk: Block, w: World, batch: nat, index: nat, groups: seq<Group>)
    requires |groups| > 0
    ensures var o := ValidateOps(blk, w, batch, index, 0, groups[0].aggregator, groups[0].ops);
            ValidateGroups(blk, w, batch, index, groups)
            == Together(o, if o.Done? then ValidateGroups(blk, o.world, batch, index + |groups[0].ops|, groups[1..])
                        else o)
  {
    hide ValidateOps;
  }

  lemma NoGroupsAgree(blk: Block, w: World, batch: nat, index: nat, r: nat)
    ensures Agree(ValidateGroups(blk, w, batch, index, []),
                  ValidateOps(blk, w, batch, index, r, ZERO_ADDRESS, Flatten([])))
  {
  }

  lemma {:induction false} ValidateGroupsAgree(blk: Block, w: World, batch: nat, index: nat, r: nat, groups: seq<Group>)
    requires NoAggregator(groups)
    ensures Agree(ValidateGroups(blk, w, batch, index, groups),
                  ValidateOps(blk, w, batch, index, r, ZERO_ADDRESS, Flatten(groups)))
    decreases |groups|
  {
    hide ValidateOps, ValidateGroups, Agree, Together;
    if |groups| == 0 {
      assert groups == [];
      NoGroupsAgree(blk, w, batch, index, r);
    } else {
      NoAggregatorTail(groups);
      GroupsTogether(blk, w, batch, index, groups);
      var a, b := groups[0].ops, Flatten(groups[1..]);
      var o := ValidateOps(blk, w, batch, index, 0, ZERO_ADDRESS, a);
      if o.Done? {
        ValidateGroupsAgree(blk, o.world, batch, index + |a|, r + |a|, groups[1..]);
        AgreeBoth(blk, w, batch, index, r, a, b, ValidateGroups(blk, o.world, batch, index + |a|, groups[1..]));
      } else {
        AgreeBoth(blk, w, batch, index, r, a, b, o);
      }
    }
  }

  lemma {:induction false} ExecuteGroupsFlat(blk: Block, w: World, batch: nat, index: nat, groups: seq<Group>,
                                             infos: seq<UserOpInfo>, collected: uint256)
    requires |infos| == |Flatten(groups)|
    ensures ExecuteGroups(blk, w, batch, index, groups, infos, collected)
         == ExecuteOps(blk, w, batch, index, Flatten(groups), infos, collected)
    decreases |groups|
  {
    if |groups| > 0 {
      var a, b := groups[0].ops, Flatten(groups[1..]);
      var x, y := infos[..|a|], infos[|a|..];
      assert x + y == infos;
      ExecuteSplit(blk, w, batch, index, a, b, x, y, collected);
      hide ExecuteOps;
      var o := ExecuteOps(blk, w, batch, index, a, x, collected);
      if o.Done? {
        ExecuteGroupsFlat(blk, o.world, batch, index + |a|, groups[1..], y, o.value);
      }
    }
  }

  /**
   * Without aggregators the two entry points agree: they succeed on the same inputs with the same world, and
   * fail on the same inputs with the same meter and the same reason.
   */
  lemma AggregatedRefinesPlain(blk: Block, w: World, groups: seq<Group>, beneficiary: Address, payee: Reply)
    requires NoAggregator(groups)
    ensures Agree(PerformHandleAggregatedOps(blk, w, HandleAggregatedOps(groups, beneficiary, payee)),
                  PerformHandleOps(blk, w, HandleOps(Flatten(groups), beneficiary, payee)))
  {
    hide ValidateOps, ValidateGroups, ExecuteOps, ExecuteGroups, Compensate, CheckAggregators;
    NothingToCheck(w.st, groups);
    var batch, w0 := w.m.nextBatch, OpenBatch(w);
    ValidateGroupsAgree(blk, w0, batch, 0, 0, groups);
    var o := ValidateGroups(blk, w0, batch, 0, groups);
    if o.Done? {
      ExecuteGroupsFlat(blk, o.world, batch, 0, groups, o.value, 0);
    }
  }

  // ---------- which operation a failure names ----------

  /** How the validation of one operation fails: before its validation data is checked, or at that check. */
  ghost predicate PrepaymentFails(blk: Block, w: World, batch: nat, index: nat, s: OpScript) {
    ValidatePrepayment(blk, w, batch, index, s).Reverted?
  }

  ghost predicate CheckFails(blk: Block, w: World, batch: nat, index: nat, aggregator: Address, s: OpScript,
                             reason: string) {
    var o := ValidatePrepayment(blk, w, batch, index, s);
    o.Done? && CheckValidationData(blk.timestamp, o.value.word, o.value.pmWord, aggregator) == Some(reason)
  }

  lemma SenderNamesIndex(blk: Block, w: World, batch: nat, index: nat, s: OpScript, mop: MemoryUserOp,
                         required: uint256)
    ensures var o := ValidateAccountPrepayment(blk, w, batch, index, s, mop, required);
            o.Reverted? && o.error.FailedOp? ==> o.error.opIndex == index
  {
    hide RunReplyWithin, RunWithin, Commit, TryDeposit, MissingFunds, Wrap;
  }

  lemma PaymasterNamesIndex(blk: Block, w: World, batch: nat, index: nat, s: OpScript, mop: MemoryUserOp,
                            required: uint256, gasUsed: int)
    ensures var o := ValidatePaymasterPrepayment(blk, w, batch, index, s, mop, required, gasUsed);
            o.Reverted? && o.error.FailedOp? ==> o.error.opIndex == index
  {
    hide RunWithin, Commit;
  }

  /** A failure before the check of the validation data names the operation by the given index. */
  lemma PrepaymentNamesIndex(blk: Block, w: World, batch: nat, index: nat, s: OpScript)
    ensures var o := ValidatePrepayment(blk, w, batch, index, s);
            o.Reverted? && o.error.FailedOp? ==> o.error.opIndex == index
  {
    hide ValidateAccountPrepayment, ValidatePaymasterPrepayment, GasValues, RequiredPrefund, Wrap;
    if CopyUserOpToMemory(s.op).Ok? {
      var mop := CopyUserOpToMemory(s.op).value;
      var required := RequiredPrefund(mop);
      var w0 := Burn(w, s.gas.entry);
      SenderNamesIndex(blk, w0, batch, index, s, mop, required);
      var o := ValidateAccountPrepayment(blk, w0, batch, index, s, mop, required);
      if o.Done? {
        PaymasterNamesIndex(blk, o.world, batch, index, s, mop, required, o.value.0);
      }
    }
  }

  lemma PostOpNamesIndex(blk: Block, w: World, batch: nat, index: nat, reported: nat, info: UserOpInfo,
                         actualGas: uint256, post: PostReply, use: nat)
    ensures var o := HandlePostOp(blk, w, batch, index, reported, PostOpReverted, info, actualGas, post, use);
            o.Reverted? && o.error.FailedOp? ==> o.error.opIndex == reported
  {
    hide RunWithin, Commit, UserOpGasPrice, Wrap;
  }

  /** Whatever happens inside the inner frame, execution names the operation by the given index. */
  lemma ExecutionNamesIndex(blk: Block, w: World, batch: nat, index: nat, s: OpScript, info: UserOpInfo)
    ensures var o := ExecuteUserOp(blk, w, batch, index, s, info);
            o.Reverted? && o.error.FailedOp? ==> o.error.opIndex == index
  {
    hide HandleInner, HandlePostOp, InnerRevertCode, Wrap;
    var o := HandleInner(blk, Burn(w, s.gas.call), batch, index, s, info);
    if o.Reverted? {
      var w2 := Burn(World(w.st, o.m), s.gas.outer);
      PostOpNamesIndex(blk, w2, batch, index, index, info, Wrap(w.m.gas - w2.m.gas + info.preOpGas),
                       s.postAgain, s.gas.postAgain);
    }
  }

  /** The operations before `i` validate, and `ops[i]` does not. */
  ghost predicate StopsIn(blk: Block, w: World, batch: nat, index: nat, r: nat, aggregator: Address, ops: seq<OpScript>,
                          i: nat) {
    && i < |ops|
    && var o := ValidateOps(blk, w, batch, index, r, aggregator, ops[..i]);
       o.Done? && ValidateOp(blk, o.world, batch, index + i, r + i, aggregator, ops[i]).Reverted?
  }

  /** The failure with which validation stops there. */
  ghost function StopOf(blk: Block, w: World, batch: nat, index: nat, r: nat, aggregator: Address, ops: seq<OpScript>,
                        i: nat)
    : (o: Outcome<UserOpInfo>)
    requires StopsIn(blk, w, batch, index, r, aggregator, ops, i)
    ensures o.Reverted?
  {
    ValidateOp(blk, ValidateOps(blk, w, batch, index, r, aggregator, ops[..i]).world, batch, index + i, r + i,
               aggregator, ops[i])
  }

  lemma StopIsOutcome(blk: Block, w: World, batch: nat, index: nat, r: nat, aggregator: Address, ops: seq<OpScript>,
                      i: nat)
    requires StopsIn(blk, w, batch, index, r, aggregator, ops, i)
    ensures var f := StopOf(blk, w, batch, index, r, aggregator, ops, i);
            ValidateOps(blk, w, batch, index, r, aggregator, ops) == Reverted(f.m, f.error)
  {
    hide ValidateOp;
    assert ops == ops[..i] + ops[i..];
    ValidateSplit(blk, w, batch, index, r, aggregator, ops[..i], ops[i..]);
  }

  lemma {:induction false} StopOfOutcome(blk: Block, w: World, batch: nat, index: nat, r: nat, aggregator: Address,
                                         ops: seq<OpScript>) returns (i: nat)
    requires ValidateOps(blk, w, batch, index, r, aggregator, ops).Reverted?
    ensures StopsIn(blk, w, batch, index, r, aggregator, ops, i)
    decreases |ops|
  {
    hide ValidateOp;
    var o := ValidateOp(blk, w, batch, index, r, aggregator, ops[0]);
    i := 0;
    if o.Done? {
      var j := StopOfOutcome(blk, o.world, batch, index + 1, r + 1, aggregator, ops[1..]);
      i := j + 1;
      assert ops[..i] == [ops[0]] + ops[1..][..j] && ops[..i][1..] == ops[1..][..j];
    }
  }

  lemma {:induction false} ValidateGroupsSplit(blk: Block, w: World, batch: nat, index: nat, a: seq<Group>,
                                               b: seq<Group>)
    ensures ValidateGroups(blk, w, batch, index, a + b)
         == var o := ValidateGroups(blk, w, batch, index, a);
            Together(o, if o.Done? then ValidateGroups(blk, o.world, batch, index + |Flatten(a)|, b) else o)
    decreases |a|
  {
    hide ValidateOps, ValidateGroups;
    if |a| == 0 {
      NoGroupsBefore(blk, w, batch, index, b);
      assert a == [] && a + b == b;
    } else {
      assert (a + b)[0] == a[0] && (a + b)[1..] == a[1..] + b;
      GroupsTogether(blk, w, batch, index, a);
      GroupsTogether(blk, w, batch, index, a + b);
      var o := ValidateOps(blk, w, batch, index, 0, a[0].aggregator, a[0].ops);
      if o.Done? {
        var next := index + |a[0].ops|;
        ValidateGroupsSplit(blk, o.world, batch, next, a[1..], b);
        var o1 := ValidateGroups(blk, o.world, batch, next, a[1..]);
        if o1.Done? {
          assert next + |Flatten(a[1..])| == index + |Flatten(a)|;
          var o2 := ValidateGroups(blk, o1.world, batch, index + |Flatten(a)|, b);
          if o2.Done? {
            assert o.value + (o1.value + o2.value) == (o.value + o1.value) + o2.value;
          }
        }
      }
    }
  }

  lemma NoGroupsBefore(blk: Block, w: World, batch: nat, index: nat, b: seq<Group>)
    ensures ValidateGroups(blk, w, batch, index, []) == Done(w, []) && |Flatten([])| == 0
    ensures Together(Done(w, []), ValidateGroups(blk, w, batch, index, b)) == ValidateGroups(blk, w, batch, index, b)
  {
    var o := ValidateGroups(blk, w, batch, index, b);
    if o.Done? {
      assert [] + o.value == o.value;
    }
  }

  lemma {:induction false} FlattenAppend(a: seq<Group>, b: seq<Group>)
    ensures Flatten(a + b) == Flatten(a) + Flatten(b)
    decreases |a|
  {
    if |a| == 0 {
      assert a + b == b;
    } else {
      assert (a + b)[0] == a[0] && (a + b)[1..] == a[1..] + b;
      FlattenAppend(a[1..], b);
    }
  }

  /** The groups before `g` validate, and in group `g` the operations before `i`, but not `i`. */
  ghost predicate GroupsStopAt(blk: Block, w: World, batch: nat, groups: seq<Group>, g: nat, i: nat) {
    && g < |groups|
    && var o := ValidateGroups(blk, w, batch, 0, groups[..g]);
       o.Done? && StopsIn(blk, o.world, batch, |Flatten(groups[..g])|, 0, groups[g].aggregator, groups[g].ops, i)
  }

  /** The world in which validation stops there. */
  ghost function StopWorld(blk: Block, w: World, batch: nat, groups: seq<Group>, g: nat, i: nat): World
    requires GroupsStopAt(blk, w, batch, groups, g, i)
  {
    ValidateOps(blk, ValidateGroups(blk, w, batch, 0, groups[..g]).world, batch, |Flatten(groups[..g])|, 0,
                groups[g].aggregator, groups[g].ops[..i]).world
  }

  /** The place of an operation in the whole batch. */
  function FlatPosition(groups: seq<Group>, g: nat, i: nat): nat
    requires g < |groups|
  {
    |Flatten(groups[..g])| + i
  }

  lemma FlatPositionNames(groups: seq<Group>, g: nat, i: nat)
    requires g < |groups| && i < |groups[g].ops|
    ensures FlatPosition(groups, g, i) < |Flatten(groups)|
    ensures Flatten(groups)[FlatPosition(groups, g, i)] == groups[g].ops[i]
  {
    assert groups == groups[..g] + groups[g..];
    FlattenAppend(groups[..g], groups[g..]);
    assert Flatten(groups[g..]) == groups[g].ops + Flatten(groups[g..][1..]);
  }

  /**
   * The index of a failed validation, for any groups and aggregators. A failure before the check of the validation
   * data is reported by the position in the batch, a failure of the check by the position in the group: so the
   * failing operation is named exactly when no operation precedes its group or the check is not what failed.
   */
  lemma FailedValidationNamesOperationIff(blk: Block, w: World, batch: nat, groups: seq<Group>, g: nat, i: nat)
    requires GroupsStopAt(blk, w, batch, groups, g, i)
    ensures var o := ValidateGroups(blk, w, batch, 0, groups);
            var n := FlatPosition(groups, g, i);
            var w' := StopWorld(blk, w, batch, groups, g, i);
            && o.Reverted?
            && (PrepaymentFails(blk, w', batch, n, groups[g].ops[i]) || o.error.FailedOp?)
            && (o.error.FailedOp? ==>
                  && o.error.opIndex == (if PrepaymentFails(blk, w', batch, n, groups[g].ops[i]) then n else i)
                  && (o.error.opIndex == n <==>
                        PrepaymentFails(blk, w', batch, n, groups[g].ops[i]) || Flatten(groups[..g]) == []))
  {
    hide ValidatePrepayment, CheckValidationData, ValidateOps, ValidateGroups, Flatten;
    var o1 := ValidateGroups(blk, w, batch, 0, groups[..g]);
    var before := |Flatten(groups[..g])|;
    var s := groups[g].ops[i];
    assert groups == groups[..g] + groups[g..];
    ValidateGroupsSplit(blk, w, batch, 0, groups[..g], groups[g..]);
    GroupsTogether(blk, o1.world, batch, before, groups[g..]);
    StopIsOutcome(blk, o1.world, batch, before, 0, groups[g].aggregator, groups[g].ops, i);
    PrepaymentNamesIndex(blk, StopWorld(blk, w, batch, groups, g, i), batch, before + i, s);
  }

  /** A later group's operation that fails the check is reported by its place in the group. */
  lemma GroupLocalIndexReported(blk: Block, w: World, batch: nat, groups: seq<Group>, g: nat, i: nat, reason: string)
    requires GroupsStopAt(blk, w, batch, groups, g, i)
    requires CheckFails(blk, StopWorld(blk, w, batch, groups, g, i), batch, FlatPosition(groups, g, i),
                        groups[g].aggregator, groups[g].ops[i], reason)
    ensures var o := ValidateGroups(blk, w, batch, 0, groups);
            && o.Reverted? && o.error == FailedOp(i, reason)
            && (i == FlatPosition(groups, g, i) <==> Flatten(groups[..g]) == [])
  {
    hide ValidatePrepayment, CheckValidationData, ValidateOps, ValidateGroups, Flatten;
    var o1 := ValidateGroups(blk, w, batch, 0, groups[..g]);
    assert groups == groups[..g] + groups[g..];
    ValidateGroupsSplit(blk, w, batch, 0, groups[..g], groups[g..]);
    GroupsTogether(blk, o1.world, batch, |Flatten(groups[..g])|, groups[g..]);
    StopIsOutcome(blk, o1.world, batch, |Flatten(groups[..g])|, 0, groups[g].aggregator, groups[g].ops, i);
  }

  /** Every failed validation stops somewhere. */
  lemma {:induction false} StopOfGroups(blk: Block, w: World, batch: nat, index: nat, groups: seq<Group>)
    returns (g: nat, i: nat)
    requires ValidateGroups(blk, w, batch, index, groups).Reverted?
    ensures g < |groups|
    ensures var o := ValidateGroups(blk, w, batch, index, groups[..g]);
            o.Done? && StopsIn(blk, o.world, batch, index + |Flatten(groups[..g])|, 0, groups[g].aggregator,
                               groups[g].ops, i)
    decreases |groups|
  {
    hide ValidateOps, StopsIn;
    var o := ValidateOps(blk, w, batch, index, 0, groups[0].aggregator, groups[0].ops);
    if o.Reverted? {
      g := 0;
      i := StopOfOutcome(blk, w, batch, index, 0, groups[0].aggregator, groups[0].ops);
      assert groups[..0] == [] && Flatten([]) == [];
    } else {
      var h: nat;
      h, i := StopOfGroups(blk, o.world, batch, index + |groups[0].ops|, groups[1..]);
      g := h + 1;
      assert groups[..g] == [groups[0]] + groups[1..][..h] && groups[..g][1..] == groups[1..][..h];
    }
  }

  /** The operations before `n` execute, and `ops[n]` does not. */
  ghost predicate ExecutionStopsAt(blk: Block, w: World, batch: nat, index: nat, ops: seq<OpScript>,
                                   infos: seq<UserOpInfo>, collected: uint256, n: nat)
    requires |infos| == |ops|
  {
    && n < |ops|
    && var o := ExecuteOps(blk, w, batch, index, ops[..n], infos[..n], collected);
       o.Done? && ExecuteUserOp(blk, o.world, batch, index + n, ops[n], infos[n]).Reverted?
  }

  lemma {:induction false} StopOfExecution(blk: Block, w: World, batch: nat, index: nat, ops: seq<OpScript>,
                                           infos: seq<UserOpInfo>, collected: uint256) returns (n: nat)
    requires |infos| == |ops| && ExecuteOps(blk, w, batch, index, ops, infos, collected).Reverted?
    ensures ExecutionStopsAt(blk, w, batch, index, ops, infos, collected, n)
    ensures var e := ExecuteOps(blk, w, batch, index, ops, infos, collected).error;
            e.FailedOp? ==> e.opIndex == index + n
    decreases |ops|
  {
    hide ExecuteUserOp, Wrap;
    var o := ExecuteUserOp(blk, w, batch, index, ops[0], infos[0]);
    ExecutionNamesIndex(blk, w, batch, index, ops[0], infos[0]);
    n := 0;
    if o.Done? {
      var m := StopOfExecution(blk, o.world, batch, index + 1, ops[1..], infos[1..], Wrap(collected + o.value));
      n := m + 1;
      assert ops[..n][1..] == ops[1..][..m] && infos[..n][1..] == infos[1..][..m];
    }
  }

  /** What a failed `handleAggregatedOps` says of the operation that failed, at its place `n` in the batch. */
  ghost predicate NamesFailure(blk: Block, w: World, groups: seq<Group>, g: nat, i: nat, n: nat, k: nat) {
    var batch, w0 := w.m.nextBatch, OpenBatch(w);
    if ValidateGroups(blk, w0, batch, 0, groups).Reverted? then
      && GroupsStopAt(blk, w0, batch, groups, g, i)
      && n == FlatPosition(groups, g, i) < |Flatten(groups)| && Flatten(groups)[n] == groups[g].ops[i]
      && (k == n <==> PrepaymentFails(blk, StopWorld(blk, w0, batch, groups, g, i), batch, n, groups[g].ops[i])
                      || Flatten(groups[..g]) == [])
      && (k != n ==> k == i)
    else
      var o := ValidateGroups(blk, w0, batch, 0, groups);
      k == n && ExecutionStopsAt(blk, o.world, batch, 0, Flatten(groups), o.value, 0, n)
  }

  /**
   * Every `FailedOp` of `handleAggregatedOps`: in execution it names the operation at which the loop stopped, in
   * validation exactly under the condition above, and otherwise it gives the place in the group.
   */
  lemma AggregatedFailureNames(blk: Block, w: World, a: Action) returns (g: nat, i: nat, n: nat)
    requires a.HandleAggregatedOps? && PerformHandleAggregatedOps(blk, w, a).Reverted?
    requires PerformHandleAggregatedOps(blk, w, a).error.FailedOp?
    ensures NamesFailure(blk, w, a.groups, g, i, n, PerformHandleAggregatedOps(blk, w, a).error.opIndex)
  {
    hide ValidateGroups, ExecuteGroups, ExecuteOps, GroupsStopAt, FlatPosition, PrepaymentFails, RunReply, Flatten,
         OpenBatch;
    AggregatorsAreNotOperations(w.st, a.groups);
    var batch, w0 := w.m.nextBatch, OpenBatch(w);
    var o := ValidateGroups(blk, w0, batch, 0, a.groups);
    g, i, n := 0, 0, 0;
    if o.Reverted? {
      g, i := StopOfGroups(blk, w0, batch, 0, a.groups);
      StopAtStart(blk, w0, batch, a.groups, g, i);
      n := FlatPosition(a.groups, g, i);
      FlatPositionNames(a.groups, g, i);
      FailedValidationNamesOperationIff(blk, w0, batch, a.groups, g, i);
    } else {
      ExecuteGroupsFlat(blk, o.world, batch, 0, a.groups, o.value, 0);
      var o2 := ExecuteOps(blk, o.world, batch, 0, Flatten(a.groups), o.value, 0);
      if o2.Reverted? {
        n := StopOfExecution(blk, o.world, batch, 0, Flatten(a.groups), o.value, 0);
      }
    }
  }

  lemma StopAtStart(blk: Block, w: World, batch: nat, groups: seq<Group>, g: nat, i: nat)
    requires g < |groups|
    requires var o := ValidateGroups(blk, w, batch, 0, groups[..g]);
             o.Done? && StopsIn(blk, o.world, batch, 0 + |Flatten(groups[..g])|, 0, groups[g].aggregator, groups[g].ops,
                                i)
    ensures GroupsStopAt(blk, w, batch, groups, g, i)
  {
  }

  lemma {:induction false} AggregatorsAreNotOperations(st: State, groups: seq<Group>)
    ensures CheckAggregators(st, groups).Some? ==> !CheckAggregators(st, groups).value.FailedOp?
    decreases |groups|
  {
    if |groups| > 0 {
      AggregatorsAreNotOperations(st, groups[1..]);
    }
  }

  /** Every `FailedOp` of `handleOps` names the operation that failed. */
  lemma PlainFailureNames(blk: Block, w: World, a: Action) returns (n: nat)
    requires a.HandleOps? && PerformHandleOps(blk, w, a).Reverted? && PerformHandleOps(blk, w, a).error.FailedOp?
    ensures n == PerformHandleOps(blk, w, a).error.opIndex
    ensures var batch, w0 := w.m.nextBatch, OpenBatch(w);
            var o := ValidateOps(blk, w0, batch, 0, 0, ZERO_ADDRESS, a.ops);
            if o.Reverted? then StopsIn(blk, w0, batch, 0, 0, ZERO_ADDRESS, a.ops, n)
            else ExecutionStopsAt(blk, o.world, batch, 0, a.ops, o.value, 0, n)
  {
    hide ValidateOps, ExecuteOps, ValidatePrepayment, RunReply, OpenBatch, CheckValidationData;
    var batch, w0 := w.m.nextBatch, OpenBatch(w);
    var o := ValidateOps(blk, w0, batch, 0, 0, ZERO_ADDRESS, a.ops);
    if o.Reverted? {
      n := StopOfOutcome(blk, w0, batch, 0, 0, ZERO_ADDRESS, a.ops);
      StopIsOutcome(blk, w0, batch, 0, 0, ZERO_ADDRESS, a.ops, n);
      PrepaymentNamesIndex(blk, ValidateOps(blk, w0, batch, 0, 0, ZERO_ADDRESS, a.ops[..n]).world, batch, n, a.ops[n]);
    } else {
      n := StopOfExecution(blk, o.world, batch, 0, a.ops, o.value, 0);
    }
  }
}
