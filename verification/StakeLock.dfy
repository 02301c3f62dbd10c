/** The stake time lock, for every log the ledger can produce. */
module StakeLock {
  import opened Evm
  import opened Ledger
  import opened Protocol

  // ---------- shapes of a record ----------

  predicate Empty(info: DepositInfo) {
    !info.staked && info.stake == 0 && info.unstakeDelaySec == 0 && info.withdrawTime == 0
  }

  predicate Locked(info: DepositInfo) {
    info.staked && info.stake > 0 && info.unstakeDelaySec > 0 && info.withdrawTime == 0
  }

  predicate Unlocking(info: DepositInfo) {
    !info.staked && info.stake > 0 && info.unstakeDelaySec > 0 && info.withdrawTime >= info.unstakeDelaySec
  }

  predicate Shaped(info: DepositInfo) {
    Empty(info) || Locked(info) || Unlocking(info)
  }

  lemma EventKeepsShape(info: DepositInfo, e: Event)
    requires Shaped(info) && RecordEnabled(info, e)
    ensures Shaped(NewInfo(info, e))
  {
  }

  /** Every reachable record is exactly one of empty, locked and unlocking. */
  lemma {:induction false} RecordsAreShaped(st: State, a: Address)
    requires Genuine(st)
    ensures var info := Info(st, a);
            && Shaped(info)
            && !(Empty(info) && Locked(info)) && !(Empty(info) && Unlocking(info)) && !(Locked(info) && Unlocking(info))
    decreases |st.log|
  {
    hide Replay, NewInfo, CodeEnabled;
    if |st.log| == 0 {
      GenesisIsEmpty(st, a);
    } else {
      var before, e := Before(st), st.log[|st.log| - 1];
      RecordsAreShaped(before, a);
      AppliedInfo(before, e, a);
      if AccountOf(e) == Some(a) {
        EventKeepsShape(Info(before, a), e);
      }
    }
  }

  lemma GenesisIsEmpty(st: State, a: Address)
    requires Genuine(st) && st.log == []
    ensures Info(st, a) == NO_DEPOSIT
  {
  }

  // ---------- the lock over time ----------

  /** An event on the stake of an account. */
  predicate OnStake(e: Event, a: Address) {
    (e.StakeAdded? || e.StakeUnlocked? || e.StakeWithdrawn?) && AccountOf(e) == Some(a)
  }

  /** No stake of the account was withdrawn from `i` on. */
  ghost predicate KeptSince(log: seq<Event>, a: Address, i: nat) {
    forall k :: i <= k < |log| ==> !(log[k].StakeWithdrawn? && log[k].account == a)
  }

  /** The unlocking that is in force: the last event on the stake. */
  ghost predicate UnlockedAt(log: seq<Event>, a: Address, j: nat) {
    && j < |log| && log[j].StakeUnlocked? && log[j].account == a
    && forall k :: j < k < |log| ==> !OnStake(log[k], a)
  }

  lemma DelayOfEvent(info: DepositInfo, e: Event)
    requires RecordEnabled(info, e)
    ensures !e.StakeWithdrawn? ==> NewInfo(info, e).unstakeDelaySec >= info.unstakeDelaySec
    ensures e.StakeAdded? ==> NewInfo(info, e).unstakeDelaySec == e.delay
  {
  }

  /** The delay in force is at least every delay given since the last withdrawal. */
  lemma {:induction false} DelaysNeverShrink(st: State, a: Address, i: nat)
    requires Genuine(st) && i < |st.log| && st.log[i].StakeAdded? && st.log[i].account == a && KeptSince(st.log, a, i)
    ensures Info(st, a).unstakeDelaySec >= st.log[i].delay
    decreases |st.log|
  {
    hide Replay, NewInfo, CodeEnabled;
    var before, e := Before(st), st.log[|st.log| - 1];
    AppliedInfo(before, e, a);
    DelayOfEvent(InfoFor(before, e), e);
    if i < |st.log| - 1 {
      assert forall k :: 0 <= k < |before.log| ==> before.log[k] == st.log[k];
      DelaysNeverShrink(before, a, i);
    }
  }

  lemma LockOfEvent(info: DepositInfo, e: Event, a: Address)
    requires RecordEnabled(info, e) && AccountOf(e) == Some(a)
    ensures !OnStake(e, a) ==> NewInfo(info, e).withdrawTime == info.withdrawTime
                               && NewInfo(info, e).unstakeDelaySec == info.unstakeDelaySec
    ensures OnStake(e, a) && NewInfo(info, e).withdrawTime > 0 ==>
              e.StakeUnlocked? && NewInfo(info, e).withdrawTime == ToUint48(e.now) + info.unstakeDelaySec
              && NewInfo(info, e).unstakeDelaySec == info.unstakeDelaySec
  {
  }

  /** A withdrawal time was set by the last event on the stake, an unlocking. */
  lemma {:induction false} WithdrawTimeIsSetByUnlocking(st: State, a: Address) returns (j: nat)
    requires Genuine(st) && Info(st, a).withdrawTime > 0
    ensures UnlockedAt(st.log, a, j)
    ensures Info(st, a).withdrawTime == ToUint48(st.log[j].now) + Info(st, a).unstakeDelaySec
    decreases |st.log|
  {
    hide Replay, NewInfo, CodeEnabled;
    if |st.log| == 0 {
      GenesisIsEmpty(st, a);
      assert false;
    } else {
      var before, e := Before(st), st.log[|st.log| - 1];
      AppliedInfo(before, e, a);
      if AccountOf(e) == Some(a) {
        LockOfEvent(Info(before, a), e, a);
      }
      if OnStake(e, a) {
        j := |st.log| - 1;
      } else {
        j := WithdrawTimeIsSetByUnlocking(before, a);
        assert forall k :: 0 <= k < |before.log| ==> before.log[k] == st.log[k];
      }
    }
  }

  lemma WithdrawalNeedsTime(st: State, e: Event)
    requires Enabled(st, e) && e.StakeWithdrawn?
    ensures 0 < Info(st, e.account).withdrawTime <= e.now && Info(st, e.account).stake == e.amount > 0
  {
  }

  /**
   * A stake leaves only after its owner unlocked it, with no event on the stake since, and only when the delay has
   * passed: at least every delay given since the last withdrawal, counted from the unlocking time modulo 2^48.
   */
  lemma StakeTimeLock(st: State, k: nat) returns (j: nat)
    requires Genuine(st) && k < |st.log| && st.log[k].StakeWithdrawn?
    ensures j < k && UnlockedAt(st.log[..k], st.log[k].account, j)
    ensures forall i :: 0 <= i < k && st.log[i].StakeAdded? && st.log[i].account == st.log[k].account
                        && KeptSince(st.log[..k], st.log[k].account, i) ==>
              && st.log[k].now >= ToUint48(st.log[j].now) + st.log[i].delay
              && (st.log[j].now < TWO_48 ==> st.log[k].now >= st.log[j].now + st.log[i].delay)
  {
    hide Enabled, Replay, Apply, Info;
    var a, before := st.log[k].account, At(st, k);
    EnabledAt(st, k);
    WithdrawalNeedsTime(before, st.log[k]);
    j := WithdrawTimeIsSetByUnlocking(before, a);
    forall i | 0 <= i < k && st.log[i].StakeAdded? && st.log[i].account == a && KeptSince(st.log[..k], a, i)
      ensures st.log[k].now >= ToUint48(st.log[j].now) + st.log[i].delay
    {
      DelaysNeverShrink(before, a, i);
    }
  }

  /**
   * The cast to 48 bits decides whether the lock holds at all: right after unlocking, the stake is still locked
   * exactly when the timestamp is below 2^48.
   */
  lemma LockHoldsIff(blk: Block, w: World, sender: Address)
    requires Genuine(w.st) && PerformUnlockStake(blk, w, sender).Done?
    ensures var info := Info(PerformUnlockStake(blk, w, sender).world.st, sender);
            WithdrawStakeError(blk, info) == Some("Stake withdrawal is not due") <==> blk.timestamp < TWO_48
    ensures var info := Info(PerformUnlockStake(blk, w, sender).world.st, sender);
            WithdrawStakeError(blk, info) == None <==> blk.timestamp >= TWO_48
  {
    RecordsAreShaped(w.st, sender);
    AppliedInfo(w.st, StakeUnlocked(sender, blk.timestamp), sender);
    hide Genuine, Apply;
  }

  // ---------- the amount ----------

  /** What was staked since the last withdrawal. */
  function StakedSince(log: seq<Event>, a: Address): nat
    decreases |log|
  {
    if |log| == 0 then 0
    else
      var e := log[|log| - 1];
      if e.StakeWithdrawn? && e.account == a then 0
      else StakedSince(log[..|log| - 1], a) + if e.StakeAdded? && e.account == a then e.amount else 0
  }

  lemma StakeOfEvent(info: DepositInfo, e: Event)
    requires RecordEnabled(info, e)
    ensures NewInfo(info, e).stake
         == if e.StakeWithdrawn? then 0 else info.stake + if e.StakeAdded? then e.amount else 0
  {
  }

  /** A withdrawal pays back all that was staked since the one before, whatever happened to the deposit. */
  lemma {:induction false} StakeIsSum(st: State, a: Address)
    requires Genuine(st)
    ensures Info(st, a).stake == StakedSince(st.log, a)
    decreases |st.log|
  {
    hide Replay, NewInfo, CodeEnabled;
    if |st.log| == 0 {
      GenesisIsEmpty(st, a);
    } else {
      var before, e := Before(st), st.log[|st.log| - 1];
      StakeIsSum(before, a);
      AppliedInfo(before, e, a);
      if AccountOf(e) == Some(a) {
        StakeOfEvent(Info(before, a), e);
      }
    }
  }

  lemma WithdrawalPaysWholeStake(st: State, k: nat)
    requires Genuine(st) && k < |st.log| && st.log[k].StakeWithdrawn?
    ensures st.log[k].amount == StakedSince(st.log[..k], st.log[k].account)
  {
    hide Enabled, Replay, Apply, Info;
    EnabledAt(st, k);
    WithdrawalNeedsTime(At(st, k), st.log[k]);
    StakeIsSum(At(st, k), st.log[k].account);
  }
}
