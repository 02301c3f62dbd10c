/** Safety over every run: any sequence of transactions, each with any tree of calls. */
module Runs {
  import opened Evm
  import opened Ledger
  import opened Conservation
  import opened Protocol
  import opened Frames
  import opened Batches
  import opened Weaving

  /** A state that can be reached, seen from outside: between two transactions. */
  lemma {:induction false} RunKeeps(ts: seq<Transaction>)
    ensures var w := Run(START, ts); Woven(START, w, -1) && Sound(w.st) && w.st.escrow == 0 && w.st.stack == []
    decreases |ts|
  {
    hide Woven, Extends, Genuine, RunAction;
    if |ts| == 0 {
      StartIsGenuine();
      WeaveNothing(START, -1);
    } else {
      var w := Run(START, ts[..|ts| - 1]);
      var t := ts[|ts| - 1];
      RunKeeps(ts[..|ts| - 1]);
      var w0 := w.(m := w.m.(gas := t.gas));
      Refilled(START, w, t.gas);
      WeaveAction(t.blk, w0, t.action, -1);
      FrameAction(t.blk, w0, t.action, -1);
      Join(START, w0, RunAction(t.blk, w0, t.action), -1);
      ReadyAfter(w0, RunAction(t.blk, w0, t.action), -1, 0);
    }
  }

  lemma StartIsGenuine()
    ensures Sound(START.st)
  {
  }

  lemma Refilled(start: World, w: World, gas: Gas)
    requires Woven(start, w, -1) && start.m.gas == TWO_64 - 1
    ensures Woven(start, w.(m := w.m.(gas := gas)), -1)
  {
    hide WholeBatch, AllowedTrace, Allowed;
    var w' := w.(m := w.m.(gas := gas));
    forall b: nat | start.m.nextBatch <= b
      ensures WholeBatch(start, w', b)
    {
      assert WholeBatch(start, w, b);
      SameWhole(start, w, w', b);
    }
  }

  lemma SameWhole(start: World, w: World, w': World, b: nat)
    requires start.st.log <= w.st.log && start.m.history <= w.m.history && WholeBatch(start, w, b)
    requires w'.st == w.st && w'.m.history == w.m.history && w'.m.nextBatch == w.m.nextBatch
    ensures WholeBatch(start, w', b)
  {
  }

  /**
   * Conservation over every run. Between transactions the balance is all deposits and stakes; at every moment
   * control is outside the entry point, even in frames rolled back later, it is that plus the escrow.
   */
  lemma EveryRunConserves(ts: seq<Transaction>)
    ensures var w := Run(START, ts);
            && w.st.balance == Total(w.st.deposits)
            && forall k :: 0 <= k < |w.m.history| && w.m.history[k].Observed? ==>
                 var st := w.m.history[k].st; st.balance == Total(st.deposits) + st.escrow && st.escrow >= 0
  {
    hide Run, Woven, Total, Genuine;
    var w := Run(START, ts);
    RunKeeps(ts);
    GenuineConserved(w.st);
    forall k | 0 <= k < |w.m.history| && w.m.history[k].Observed?
      ensures var st := w.m.history[k].st; st.balance == Total(st.deposits) + st.escrow && st.escrow >= 0
    {
      ObservedConserved(w, k);
    }
  }

  lemma ObservedConserved(w: World, k: nat)
    requires Woven(START, w, -1) && k < |w.m.history| && w.m.history[k].Observed?
    ensures Conserved(w.m.history[k].st) && w.m.history[k].st.escrow >= 0
  {
    hide Total, WholeBatch, Genuine;
    assert AllowedTrace(w.m.history[k], -1, 0);
    GenuineConserved(w.m.history[k].st);
  }

  /** Every batch of a run is whole. */
  lemma EveryBatchIsWhole(ts: seq<Transaction>, batch: nat) returns (p: Batch)
    ensures var w := Run(START, ts); Explains(p, Project(w.st.log, batch), ProjectTrace(w.m.history, batch), batch)
  {
    hide Explains, Genuine, Filter;
    var w := Run(START, ts);
    RunKeeps(ts);
    assert WholeBatch(START, w, batch);
    assert w.st.log[0..] == w.st.log && w.m.history[0..] == w.m.history;
    p :| Explains(p, Project(w.st.log, batch), ProjectTrace(w.m.history, batch), batch);
  }

  // ---------- solvency ----------

  /**
   * Whatever happens inside a batch, a withdrawal fails only for its amount or its recipient, never for want of ETH.
   */
  lemma WithdrawToSucceedsIff(blk: Block, w: World, a: Action)
    requires Sound(w.st) && a.WithdrawTo?
    ensures PerformWithdrawTo(blk, w, a).Done? <==> a.amount <= Info(w.st, a.sender).deposit && a.recipient.ok
  {
    hide RunActions, Genuine, Apply;
    Solvent(w.st, a.sender);
  }

  lemma WithdrawStakeSucceedsIff(blk: Block, w: World, a: Action)
    requires Sound(w.st) && a.WithdrawStake?
    ensures PerformWithdrawStake(blk, w, a).Done?
            <==> WithdrawStakeError(blk, Info(w.st, a.sender)) == None && a.recipient.ok
  {
    hide RunActions, Genuine, Apply;
    Solvent(w.st, a.sender);
  }

  /** The fees collected can always be paid. */
  lemma CompensateSucceedsIff(blk: Block, w: World, batch: nat, beneficiary: Address, amount: uint256, payee: Reply)
    requires Sound(w.st) && amount <= w.st.escrow
    ensures Compensate(blk, w, batch, beneficiary, amount, payee).Done? <==> beneficiary != ZERO_ADDRESS && payee.ok
  {
    hide RunActions, Genuine, Apply;
    Solvent(w.st, beneficiary);
  }
}
