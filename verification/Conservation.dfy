/** ETH conservation, for every log the ledger can produce. */
module Conservation {
  import opened Evm
  import opened Ledger
  import Sums

  /** All deposits and stakes together. */
  ghost function Total(deposits: map<Address, DepositInfo>): nat {
    Sums.Total(deposits, Owed)
  }

  ghost predicate Conserved(st: State) {
    st.balance == Total(st.deposits) + st.escrow
  }

  /** The casts to 112 bits lose nothing when the amount fits. */
  lemma CastFits(x: int)
    requires 0 <= x < TWO_112
    ensures ToUint112(x) == x
  {
  }

  lemma DepositGrowth(info: DepositInfo, e: Event)
    requires RecordEnabled(info, e) && (e.Deposited? || e.Withdrawn? || e.PrefundTaken? || e.Settled?)
    ensures Growth(info, e) == BalanceDelta(e) - EscrowDelta(e)
  {
    CastFits(info.deposit + BalanceDelta(e) - EscrowDelta(e));
    hide ToUint112;
  }

  lemma StakeGrowth(info: DepositInfo, e: Event)
    requires RecordEnabled(info, e) && !(e.Deposited? || e.Withdrawn? || e.PrefundTaken? || e.Settled?)
    ensures Growth(info, e) == BalanceDelta(e) - EscrowDelta(e)
  {
    if e.StakeAdded? {
      CastFits(info.stake + e.amount);
    }
    hide ToUint112;
  }

  /** A record is owed more by exactly what comes in and is not put into escrow; other events balance on their own. */
  lemma RecordBalanced(info: DepositInfo, e: Event)
    requires RecordEnabled(info, e)
    ensures Growth(info, e) == BalanceDelta(e) - EscrowDelta(e)
  {
    hide NewInfo, RecordEnabled;
    if e.Deposited? || e.Withdrawn? || e.PrefundTaken? || e.Settled? {
      DepositGrowth(info, e);
    } else {
      StakeGrowth(info, e);
    }
  }

  function Growth(info: DepositInfo, e: Event): int {
    if AccountOf(e).Some? then Owed(NewInfo(info, e)) - Owed(info) else 0
  }

  lemma SetInfoTotal(st: State, e: Event, info: DepositInfo)
    ensures Total(SetInfo(st.deposits, AccountOf(e), info))
         == Total(st.deposits) + (if AccountOf(e).Some? then Owed(info) - Owed(InfoFor(st, e)) else 0)
  {
    if AccountOf(e).Some? {
      Sums.TotalReplaced(st.deposits, Owed, AccountOf(e).value, info);
    }
  }

  lemma ApplyTotal(st: State, e: Event)
    ensures Total(Apply(st, e).deposits) == Total(st.deposits) + Growth(InfoFor(st, e), e)
  {
    SetInfoTotal(st, e, NewInfo(InfoFor(st, e), e));
  }

  /** Each event moves as much ETH as it moves claims. */
  lemma EventConserves(st: State, e: Event)
    requires Conserved(st) && Enabled(st, e)
    ensures Conserved(Apply(st, e))
  {
    hide Total, Growth, NewInfo, NewCode, SetInfo, InfoFor, RecordEnabled, CodeEnabled;
    RecordBalanced(InfoFor(st, e), e);
    ApplyTotal(st, e);
  }

  /** The balance is always the sum of all deposits, all stakes and the escrow. */
  lemma {:induction false} GenuineConserved(st: State)
    requires Genuine(st)
    ensures Conserved(st)
    decreases |st.log|
  {
    if |st.log| > 0 {
      GenuineConserved(Before(st));
      EventConserves(Before(st), st.log[|st.log| - 1]);
    }
  }

  /** With the escrow covered, what anyone is owed can be paid out on top of it. */
  lemma Solvent(st: State, a: Address)
    requires Genuine(st) && st.escrow >= 0
    ensures Owed(Info(st, a)) + st.escrow <= st.balance
  {
    GenuineConserved(st);
    if a in st.deposits {
      Sums.TotalWithout(st.deposits, Owed, a);
    }
  }
}
