/** A DepositPaymaster behind the entry point: what `postOp` is told, and whether the deposit covers it. */
module DepositSponsors {
  import opened Evm
  import opened UserOperations
  import opened Ledger
  import opened Protocol
  import opened Frames
  import opened Batches
  import opened TwoPhase
  import opened Sponsors
  import opened Arithmetic
  import DepositPaymasters

  /** Up to the last reading of its gas, validation used no more than its limit. */
  lemma PreOpGasBound(blk: Block, w: World, batch: nat, index: nat, s: OpScript)
    requires ReadyFor(w, batch) && ValidatePrepayment(blk, w, batch, index, s).Done?
    ensures var info := ValidatePrepayment(blk, w, batch, index, s).value.info;
            && SmallInfo(info) && SmallFields(s.op) && InfoOf(s.op, info)
            && info.prefund == IdealGas(info.mUserOp) * s.op.maxFeePerGas
            && info.preOpGas <= s.op.verificationGasLimit + s.gas.seal + s.op.preVerificationGas
  {
    hide ValidateAccountPrepayment, ValidatePaymasterPrepayment, RequiredPrefund, GasValues, IdealGas, SmallInfo, Wrap,
         ReadyFor;
    ValidationIsIdeal(blk, w, batch, index, s);
    MeasuredWithinLimit(blk, w, batch, index, s);
  }

  lemma MeasuredWithinLimit(blk: Block, w: World, batch: nat, index: nat, s: OpScript)
    requires ValidatePrepayment(blk, w, batch, index, s).Done?
    ensures var o := ValidatePrepayment(blk, w, batch, index, s);
            && w.m.gas - o.world.m.gas <= s.op.verificationGasLimit + s.gas.seal
            && InfoOf(s.op, o.value.info)
  {
    hide ValidateAccountPrepayment, ValidatePaymasterPrepayment, RequiredPrefund, GasValues, Wrap;
  }

  /** The cost `postOp` is told, as integers. */
  lemma ToldCost(blk: Block, info: UserOpInfo, used: nat)
    requires SmallInfo(info) && used < TWO_64
    ensures PostOpCost(blk, info, Wrap(used + info.preOpGas))
         == (used + info.preOpGas) * UserOpGasPrice(info.mUserOp, blk.basefee)
  {
    hide Wrap, UserOpGasPrice;
    GasPriceIsIdeal(info.mUserOp, blk.basefee);
    WrapSmall(used + info.preOpGas);
    ChargeIsIdeal(used + info.preOpGas, UserOpGasPrice(info.mUserOp, blk.basefee));
  }

  /** The operation as the paymaster sees it while the entry point takes its prefund. */
  function Asked(st: DepositPaymasters.State, blk: Block, s: OpScript, prefund: uint256, price: Result<uint256, string>)
    : Result<DepositPaymasters.Context, string>
  {
    DepositPaymasters.ValidatePaymasterUserOp(st, s.op, blk.basefee, prefund, price)
  }

  lemma AskedIs(st: DepositPaymasters.State, blk: Block, s: OpScript, prefund: uint256, price: Result<uint256, string>)
    requires Asked(st, blk, s, prefund, price).Ok?
    ensures var c := Asked(st, blk, s, prefund, price).value;
            && c.gasPrice == GasPrice(s.op.maxFeePerGas, s.op.maxPriorityFeePerGas, blk.basefee)
            && c.maxCost == prefund && DepositPaymasters.COST_OF_POST < s.op.verificationGasLimit
  {
    hide GasPrice;
  }

  /** Gas within the limits, with the paymaster's allowance for its own `postOp`, costs no more than the prefund. */
  lemma CostWithinPrefund(gas: nat, limit: nat, price: nat, most: nat)
    requires gas <= limit && price <= most
    ensures gas * price <= limit * most
  {
    ProductBound(gas, price, limit, most);
  }

  lemma Distributes(a: nat, b: nat, price: nat)
    ensures (a + b) * price == a * price + b * price
  {
  }

  lemma PositiveProduct(a: nat, b: nat)
    requires 0 < a && 0 < b
    ensures 0 < a * b
  {
  }

  /** What is told, with the allowance for `postOp`, stays within the prefund. */
  lemma ToldWithinPrefund(blk: Block, w: World, batch: nat, index: nat, s: OpScript, used: nat)
    requires ReadyFor(w, batch) && ValidatePrepayment(blk, w, batch, index, s).Done?
    requires ValidatePrepayment(blk, w, batch, index, s).value.info.mUserOp.paymaster != ZERO_ADDRESS
    requires DepositPaymasters.COST_OF_POST < s.op.verificationGasLimit && used < TWO_64 && 0 < s.op.maxFeePerGas
    requires used + s.gas.seal <= s.op.callGasLimit + s.op.verificationGasLimit
    ensures var info := ValidatePrepayment(blk, w, batch, index, s).value.info;
            var price := GasPrice(s.op.maxFeePerGas, s.op.maxPriorityFeePerGas, blk.basefee);
            0 < info.prefund
            && PostOpCost(blk, info, Wrap(used + info.preOpGas)) + DepositPaymasters.COST_OF_POST * price
               <= info.prefund
  {
    hide ValidatePrepayment, ReadyFor, GasPrice, Wrap, PostOpCost, SmallInfo;
    PreOpGasBound(blk, w, batch, index, s);
    var info := ValidatePrepayment(blk, w, batch, index, s).value.info;
    var price := GasPrice(s.op.maxFeePerGas, s.op.maxPriorityFeePerGas, blk.basefee);
    ToldCost(blk, info, used);
    PriceWithinMaximum(blk, info);
    var gas, post := used + info.preOpGas, DepositPaymasters.COST_OF_POST;
    Distributes(gas, post, price);
    CostWithinPrefund(gas + post, IdealGas(info.mUserOp), price, s.op.maxFeePerGas);
    PositiveProduct(IdealGas(info.mUserOp), s.op.maxFeePerGas);
  }

  lemma PriceWithinMaximum(blk: Block, info: UserOpInfo)
    requires SmallInfo(info)
    ensures UserOpGasPrice(info.mUserOp, blk.basefee) <= info.mUserOp.maxFeePerGas
  {
    GasPriceIsIdeal(info.mUserOp, blk.basefee);
  }

  // ---------- the second call of postOp ----------

  /** The self-call fails in a way that lets the operation be settled outside. */
  ghost predicate SelfCallFails(blk: Block, w: World, batch: nat, index: nat, s: OpScript, info: UserOpInfo) {
    var o := HandleInner(blk, Burn(w, s.gas.call), batch, index, s, info);
    o.Reverted? && InnerRevertCode(o.error) == AnythingElse
  }

  /** Where it is settled: the state from before, the gas of after. */
  ghost function Outside(blk: Block, w: World, batch: nat, index: nat, s: OpScript, info: UserOpInfo): World
    requires SelfCallFails(blk, w, batch, index, s, info)
  {
    Burn(World(w.st, HandleInner(blk, Burn(w, s.gas.call), batch, index, s, info).m), s.gas.outer)
  }

  /** The gas measured for the execution. */
  ghost function GasUsed(blk: Block, w: World, batch: nat, index: nat, s: OpScript, info: UserOpInfo): int
    requires SelfCallFails(blk, w, batch, index, s, info)
  {
    w.m.gas - Outside(blk, w, batch, index, s, info).m.gas
  }

  function MeterOf<T>(o: Outcome<T>): Meter {
    match o
    case Done(w, _) => w.m
    case Reverted(m, _) => m
  }

  lemma InHistory(m: Meter, m': Meter, batch: nat, t: Trace)
    requires m.history <= m'.history && t in OwnTrace(m, m', batch)
    ensures t in m'.history
  {
    hide Filter;
    FilterOf(m'.history[|m.history|..], TraceInBatch(batch), t);
  }

  /** The paymaster is called again, with the cost of the gas measured so far. */
  lemma CalledWithCost(blk: Block, w: World, batch: nat, index: nat, s: OpScript, info: UserOpInfo)
    requires ReadyFor(w, batch) && batch < w.m.nextBatch && InfoOf(s.op, info) && SmallLimits(info.mUserOp)
    requires AsksPostOp(info) && SelfCallFails(blk, w, batch, index, s, info)
    ensures 0 <= GasUsed(blk, w, batch, index, s, info) < TWO_64
    ensures var cost := PostOpCost(blk, info, Wrap(GasUsed(blk, w, batch, index, s, info) + info.preOpGas));
            PostOpCalled(batch, index, info.mUserOp.paymaster, PostOpReverted, cost)
            in MeterOf(ExecuteUserOp(blk, w, batch, index, s, info)).history
  {
    hide HandleInner, HandlePostOp, Genuine, InfoOf, InnerRevertCode, Bounded, OwnTrace, Adds, PostOpCost, Wrap, Grows,
         SettledEvent, Attempts, StateExtends, AllowedTrace;
    var w0 := Burn(w, s.gas.call);
    BurnReady(w, s.gas.call);
    var o1 := HandleInner(blk, w0, batch, index, s, info);
    FrameHandleInner(blk, w0, batch, index, s, info);
    BatchStaysOpen(w0, o1, batch);
    BurnReady(World(w.st, o1.m), s.gas.outer);
    var w2 := Outside(blk, w, batch, index, s, info);
    var actualGas := Wrap(GasUsed(blk, w, batch, index, s, info) + info.preOpGas);
    var o := HandlePostOp(blk, w2, batch, index, index, PostOpReverted, info, actualGas, s.postAgain, s.gas.postAgain);
    PostOpAdds(blk, w2, batch, index, index, PostOpReverted, s.op, info, actualGas, s.postAgain, s.gas.postAgain);
    var tries := TriesOf(blk, info, PostOpReverted, actualGas);
    var t := PostOpCalled(batch, index, info.mUserOp.paymaster, PostOpReverted, PostOpCost(blk, info, actualGas));
    OnlyTry(batch, index, s.op, info, tries, t);
    if o.Done? {
      AddedTrace(w2, o.world, batch, [SettledEvent(batch, index, s.op, o.value, PostOpReverted)],
                 TriesTrace(batch, index, s.op, tries));
    }
    InHistory(w2.m, MeterOf(o), batch, t);
  }

  lemma OnlyTry(batch: nat, index: nat, op: UserOperation, info: UserOpInfo, tries: seq<Try>, t: Trace)
    requires InfoOf(op, info) && |tries| == 1
    requires t == PostOpCalled(batch, index, info.mUserOp.paymaster, tries[0].mode, tries[0].cost)
    ensures t in TriesTrace(batch, index, op, tries)
  {
    SponsorOfInfo(op, info);
    TriesLeft(batch, index, op, tries, t);
  }

  lemma Covers(blk: Block, s: OpScript, prefund: uint256, env: DepositPaymasters.Setting, st: DepositPaymasters.State,
               price: Result<uint256, string>, calls: seq<DepositPaymasters.Call>, blockNumber: uint256, cost: uint256)
    requires DepositPaymasters.Solvent(env, st) && DepositPaymasters.AllFromOutside(env, calls)
    requires Asked(st, blk, s, prefund, price).Ok?
    requires var c := Asked(st, blk, s, prefund, price).value;
             && DepositPaymasters.SameBlock(calls, blockNumber, c.token, c.account)
             && 0 < prefund && cost + DepositPaymasters.COST_OF_POST * c.gasPrice <= prefund
             && (cost + DepositPaymasters.COST_OF_POST * c.gasPrice) * c.maxTokenCost < TWO_256
    ensures var c := Asked(st, blk, s, prefund, price).value;
            DepositPaymasters.Charge(env, DepositPaymasters.Run(env, st, calls),
                                     DepositPaymasters.PostOp(env.entryPoint, true, c, cost)).Ok?
  {
    DepositPaymasters.FallbackIsCovered(env, st, s.op, blk.basefee, prefund, price, calls, blockNumber, cost);
  }

  /**
   * An operation that a DepositPaymaster approved can be charged from the deposit: when its self-call fails, `postOp`
   * is called again with the cost so far, and succeeds, whatever is called in the same block in between, if the
   * operation pays a fee, its execution kept to its gas limits and the amounts fit a word.
   */
  lemma SponsoredFallbackPays(blk: Block, w: World, batch: nat, index: nat, s: OpScript, w1: World,
                              env: DepositPaymasters.Setting, st: DepositPaymasters.State,
                              price: Result<uint256, string>, calls: seq<DepositPaymasters.Call>,
                              blockNumber: uint256)
    requires ReadyFor(w, batch) && ValidatePrepayment(blk, w, batch, index, s).Done?
    requires var info := ValidatePrepayment(blk, w, batch, index, s).value.info;
             && AsksPostOp(info) && info.mUserOp.paymaster == env.paymaster
             && Asked(st, blk, s, info.prefund, price).Ok?
             && var c := Asked(st, blk, s, info.prefund, price).value;
                && DepositPaymasters.SameBlock(calls, blockNumber, c.token, c.account)
                && info.prefund * c.maxTokenCost < TWO_256
    requires DepositPaymasters.Solvent(env, st) && DepositPaymasters.AllFromOutside(env, calls)
    requires 0 < s.op.maxFeePerGas
    requires ReadyFor(w1, batch) && batch < w1.m.nextBatch
    requires var info := ValidatePrepayment(blk, w, batch, index, s).value.info;
             SelfCallFails(blk, w1, batch, index, s, info)
    requires var info := ValidatePrepayment(blk, w, batch, index, s).value.info;
             GasUsed(blk, w1, batch, index, s, info) + s.gas.seal <= s.op.callGasLimit + s.op.verificationGasLimit
    ensures var info := ValidatePrepayment(blk, w, batch, index, s).value.info;
            var c := Asked(st, blk, s, info.prefund, price).value;
            var cost := PostOpCost(blk, info, Wrap(GasUsed(blk, w1, batch, index, s, info) + info.preOpGas));
            && PostOpCalled(batch, index, env.paymaster, PostOpReverted, cost)
               in MeterOf(ExecuteUserOp(blk, w1, batch, index, s, info)).history
            && DepositPaymasters.Charge(env, DepositPaymasters.Run(env, st, calls),
                                        DepositPaymasters.PostOp(env.entryPoint, true, c, cost)).Ok?
  {
    hide ValidatePrepayment, ReadyFor, GasPrice, Wrap, PostOpCost, Asked, SelfCallFails, GasUsed, ExecuteUserOp;
    hide DepositPaymasters.Solvent, DepositPaymasters.Charge, DepositPaymasters.Run, DepositPaymasters.SameBlock,
         DepositPaymasters.AllFromOutside;
    var info := ValidatePrepayment(blk, w, batch, index, s).value.info;
    var used := GasUsed(blk, w1, batch, index, s, info);
    var c := Asked(st, blk, s, info.prefund, price).value;
    var cost := PostOpCost(blk, info, Wrap(used + info.preOpGas));
    AskedIs(st, blk, s, info.prefund, price);
    PreOpGasBound(blk, w, batch, index, s);
    CalledWithCost(blk, w1, batch, index, s, info);
    ToldWithinPrefund(blk, w, batch, index, s, used);
    CostWithinPrefund(cost + DepositPaymasters.COST_OF_POST * c.gasPrice, info.prefund, c.maxTokenCost, c.maxTokenCost);
    Covers(blk, s, info.prefund, env, st, price, calls, blockNumber, cost);
  }

  /**
   * In any state of the paymaster, exactly when the second `postOp` succeeds, in terms of the gas: the operation has a
   * prefund, the product fits a word, and the deposit covers its share of what was asked for the prefund.
   */
  lemma SponsoredFallbackIff(blk: Block, info: UserOpInfo, used: nat, env: DepositPaymasters.Setting,
                             st: DepositPaymasters.State, c: DepositPaymasters.Context)
    requires DepositPaymasters.Solvent(env, st) && SmallInfo(info) && used < TWO_64
    requires c.gasPrice == UserOpGasPrice(info.mUserOp, blk.basefee) && c.maxCost == info.prefund
    ensures var cost := PostOpCost(blk, info, Wrap(used + info.preOpGas));
            var eth := (used + info.preOpGas + DepositPaymasters.COST_OF_POST) * c.gasPrice;
            (DepositPaymasters.Charge(env, st, DepositPaymasters.PostOp(env.entryPoint, true, c, cost)).Ok?
            <==>
            && 0 < info.prefund && 0 <= eth * c.maxTokenCost < TWO_256
            && DepositPaymasters.Quotient(eth * c.maxTokenCost, info.prefund)
               <= DepositPaymasters.Get(st.balances, c.token, c.account))
  {
    hide DepositPaymasters.Solvent, DepositPaymasters.Charge, DepositPaymasters.Get, UserOpGasPrice, PostOpCost, Wrap;
    var gas := used + info.preOpGas;
    ToldCost(blk, info, used);
    PriceWithinMaximum(blk, info);
    Distributes(gas, DepositPaymasters.COST_OF_POST, c.gasPrice);
    EthFits(gas + DepositPaymasters.COST_OF_POST, c.gasPrice);
    DepositPaymasters.FallbackSucceedsIff(env, st, c, PostOpCost(blk, info, Wrap(gas)));
  }

  lemma EthFits(gas: nat, price: nat)
    requires gas < 4 * TWO_120 && price < TWO_120
    ensures 0 <= gas * price < TWO_256
  {
    SmallProduct(gas, price);
  }
}
