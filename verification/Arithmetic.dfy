/** No unchecked step of the entry point wraps: amounts equal their ideal integer values. */
module Arithmetic {
  import opened Evm
  import opened Bits
  import opened UserOperations
  import opened Ledger
  import opened Protocol
  import opened Frames

  const TWO_240 := TWO_120 * TWO_120
  const TWO_243 := 8 * TWO_240

  predicate SmallFields(op: UserOperation) {
    && op.preVerificationGas < TWO_120 && op.verificationGasLimit < TWO_120 && op.callGasLimit < TWO_120
    && op.maxFeePerGas < TWO_120 && op.maxPriorityFeePerGas < TWO_120
  }

  /** The check on the bitwise or passes exactly when all five fields are below 2^120. */
  lemma GasCheckIff(op: UserOperation)
    ensures GasValues(op) < TWO_120 <==> SmallFields(op)
  {
    if SmallFields(op) {
      Pow2Values(120);
      var v1 := BitOr(op.preVerificationGas, op.verificationGasLimit);
      BitOrBound(op.preVerificationGas, op.verificationGasLimit, 120);
      var v2 := BitOr(v1, op.callGasLimit);
      BitOrBound(v1, op.callGasLimit, 120);
      var v3 := BitOr(v2, op.maxFeePerGas);
      BitOrBound(v2, op.maxFeePerGas, 120);
      BitOrBound(v3, op.maxPriorityFeePerGas, 120);
    }
  }

  predicate SmallMemory(mop: MemoryUserOp) {
    && mop.preVerificationGas < TWO_120 && mop.verificationGasLimit < TWO_120 && mop.callGasLimit < TWO_120
    && mop.maxFeePerGas < TWO_120 && mop.maxPriorityFeePerGas < TWO_120
  }

  lemma ProductBound(a: nat, b: nat, x: nat, y: nat)
    requires a <= x && b <= y
    ensures a * b <= x * y
  {
    assert x * y == a * y + (x - a) * y && a * y == a * b + a * (y - b);
  }

  lemma WrapSmall(x: int)
    requires 0 <= x < TWO_256
    ensures Wrap(x) == x
  {
  }

  /** The gas an operation may use at most. */
  function IdealGas(mop: MemoryUserOp): nat {
    mop.callGasLimit + mop.verificationGasLimit * (if mop.paymaster != ZERO_ADDRESS then 3 else 1)
        + mop.preVerificationGas
  }

  lemma GasSumIsIdeal(call: nat, ver: nat, mul: nat, pre: nat)
    requires call < TWO_120 && ver < TWO_120 && pre < TWO_120 && (mul == 1 || mul == 3)
    ensures 0 <= call + ver * mul + pre < 5 * TWO_120
    ensures Wrap(Wrap(call + Wrap(ver * mul)) + pre) == call + ver * mul + pre
  {
    hide Wrap;
    var product := ver * mul;
    assert product == if mul == 1 then ver else ver + ver + ver;
    WrapSmall(product);
    WrapSmall(call + product);
    WrapSmall(call + product + pre);
  }

  lemma RequiredGasIsIdeal(mop: MemoryUserOp)
    requires SmallMemory(mop)
    ensures IdealGas(mop) < 5 * TWO_120
    ensures RequiredPrefund(mop) == Wrap(IdealGas(mop) * mop.maxFeePerGas)
  {
    hide Wrap;
    GasSumIsIdeal(mop.callGasLimit, mop.verificationGasLimit, if mop.paymaster != ZERO_ADDRESS then 3 else 1,
                  mop.preVerificationGas);
  }

  /** The prefund is the ideal product, below 2^243. */
  lemma PrefundIsIdeal(mop: MemoryUserOp)
    requires SmallMemory(mop)
    ensures RequiredPrefund(mop) == IdealGas(mop) * mop.maxFeePerGas < TWO_243
  {
    hide RequiredPrefund, IdealGas, Wrap;
    RequiredGasIsIdeal(mop);
    var gas, price: nat := IdealGas(mop), mop.maxFeePerGas;
    SmallProduct(gas, price);
    WrapSmall(gas * price);
  }

  lemma SmallProduct(gas: nat, price: nat)
    requires gas < 5 * TWO_120 && price < TWO_120
    ensures 0 <= gas * price < TWO_243
  {
    Below(gas, price, TWO_120);
  }

  lemma Below(gas: nat, price: nat, k: nat)
    requires gas < 5 * k && price < k
    ensures 0 <= gas * price < 8 * (k * k)
  {
    ProductBound(gas, price, 5 * k, k);
    assert (5 * k) * k == 5 * (k * k);
  }

  /** The gas price never exceeds the maximum the operation agreed to, and is the ideal minimum. */
  lemma GasPriceIsIdeal(mop: MemoryUserOp, basefee: uint256)
    requires SmallMemory(mop)
    ensures UserOpGasPrice(mop, basefee) <= mop.maxFeePerGas
    ensures mop.maxFeePerGas == mop.maxPriorityFeePerGas ==> UserOpGasPrice(mop, basefee) == mop.maxFeePerGas
    ensures basefee < TWO_256 - TWO_120 ==>
              UserOpGasPrice(mop, basefee)
              == if mop.maxFeePerGas == mop.maxPriorityFeePerGas then mop.maxFeePerGas
                 else Min(mop.maxFeePerGas, mop.maxPriorityFeePerGas + basefee)
  {
  }

  /** What validation hands to execution. */
  predicate SmallInfo(info: UserOpInfo) {
    SmallMemory(info.mUserOp) && info.prefund < TWO_243 && info.preOpGas < TWO_64 + TWO_120
  }

  /** Validation charges the gas it used and the preVerificationGas, as integers. */
  lemma ValidationIsIdeal(blk: Block, w: World, batch: nat, index: nat, s: OpScript)
    requires ReadyFor(w, batch) && ValidatePrepayment(blk, w, batch, index, s).Done?
    ensures var o := ValidatePrepayment(blk, w, batch, index, s);
            && SmallFields(s.op) && SmallInfo(o.value.info)
            && o.value.info.prefund == IdealGas(o.value.info.mUserOp) * s.op.maxFeePerGas
            && o.value.info.preOpGas == w.m.gas - o.world.m.gas + s.op.preVerificationGas
  {
    hide ValidateAccountPrepayment, ValidatePaymasterPrepayment, RequiredPrefund, GasValues, IdealGas, Genuine, Extends,
         Wrap;
    GasCheckIff(s.op);
    FramePrepayment(blk, w, batch, index, s);
    var o := ValidatePrepayment(blk, w, batch, index, s);
    GasFalls(w, o, batch, o.value.info.prefund);
    PrefundIsIdeal(CopyUserOpToMemory(s.op).value);
    WrapSmall(w.m.gas - o.world.m.gas + s.op.preVerificationGas);
  }

  lemma GasFalls<T>(w: World, o: Outcome<T>, own: int, escrow: int)
    requires Framed(w, o, own, escrow) && o.Done?
    ensures o.world.m.gas <= w.m.gas
  {
  }

  /** The charge for an amount of gas. */
  lemma ChargeIsIdeal(gas: nat, price: nat)
    requires gas < 4 * TWO_120 && price < TWO_120
    ensures Wrap(Wrap(gas) * price) == gas * price
  {
    WrapSmall(gas);
    hide Wrap;
    ProductBound(gas, price, 4 * TWO_120, TWO_120);
    WrapSmall(gas * price);
  }

  lemma PostOpIsIdeal(blk: Block, w: World, batch: nat, index: nat, reported: nat, mode: PostOpMode, info: UserOpInfo,
                      actualGas: uint256, post: PostReply, use: nat)
    requires Ready(w) && SmallInfo(info) && actualGas < 2 * TWO_120
    ensures var o := HandlePostOp(blk, w, batch, index, reported, mode, info, actualGas, post, use);
            o.Done? ==>
              && o.world.m.gas <= w.m.gas
              && o.value == (actualGas + (w.m.gas - o.world.m.gas)) * UserOpGasPrice(info.mUserOp, blk.basefee)
              && o.value <= info.prefund
  {
    hide CallPostOp, UserOpGasPrice, Genuine, StateExtends, Wrap, Apply;
    var o1 := CallPostOp(blk, w, batch, index, reported, mode, info, actualGas, post);
    FrameCallPostOp(blk, w, batch, index, reported, mode, info, actualGas, post);
    if o1.Done? {
      GasPriceIsIdeal(info.mUserOp, blk.basefee);
      var used := w.m.gas - Burn(o1.world, use).m.gas;
      ChargeIsIdeal(actualGas + used, UserOpGasPrice(info.mUserOp, blk.basefee));
    }
  }

  lemma InnerIsIdeal(blk: Block, w: World, batch: nat, index: nat, s: OpScript, info: UserOpInfo)
    requires Ready(w) && SmallInfo(info)
    ensures var o := HandleInner(blk, w, batch, index, s, info);
            o.Done? ==>
              && o.world.m.gas <= w.m.gas
              && o.value == (w.m.gas - o.world.m.gas + info.preOpGas) * UserOpGasPrice(info.mUserOp, blk.basefee)
  {
    hide CallAccount, HandlePostOp, UserOpGasPrice, Genuine, StateExtends, Wrap;
    var t := Called(batch, index, s.op.sender, s.op.callData);
    Stays(w, batch);
    NoteExtends(w, t, batch);
    FrameCallAccount(blk, Note(w, t), s, batch);
    var (w1, ok) := if |s.op.callData| == 0 then (w, true) else CallAccount(blk, Note(w, t), s);
    var w2 := Burn(w1, s.gas.inner);
    WrapSmall(w.m.gas - w2.m.gas + info.preOpGas);
    PostOpIsIdeal(blk, w2, batch, index, 0, if ok then OpSucceeded else OpReverted, info,
                  w.m.gas - w2.m.gas + info.preOpGas, s.post, s.gas.post);
  }

  /**
   * An executed operation is charged exactly the gas measured for it times its gas price, with no wrap-around: from
   * the start of the self-call when it succeeds, from before it when it fails.
   */
  lemma ExecutionIsIdeal(blk: Block, w: World, batch: nat, index: nat, s: OpScript, info: UserOpInfo)
    requires ReadyFor(w, batch) && SmallInfo(info)
    ensures var o := ExecuteUserOp(blk, w, batch, index, s, info);
            var w0 := Burn(w, s.gas.call);
            var start := if HandleInner(blk, w0, batch, index, s, info).Done? then w0.m.gas else w.m.gas;
            o.Done? ==>
              && o.world.m.gas <= start
              && o.value == (start - o.world.m.gas + info.preOpGas) * UserOpGasPrice(info.mUserOp, blk.basefee)
              && o.value <= info.prefund
  {
    hide HandleInner, HandlePostOp, UserOpGasPrice, Genuine, StateExtends, Wrap, InnerRevertCode;
    var w0 := Burn(w, s.gas.call);
    BurnExtends(w, s.gas.call, batch);
    InnerIsIdeal(blk, w0, batch, index, s, info);
    FrameHandleInner(blk, w0, batch, index, s, info);
    var o1 := HandleInner(blk, w0, batch, index, s, info);
    if o1.Reverted? && InnerRevertCode(o1.error) == AnythingElse {
      var w2 := Burn(World(w.st, o1.m), s.gas.outer);
      WrapSmall(w.m.gas - w2.m.gas + info.preOpGas);
      PostOpIsIdeal(blk, w2, batch, index, index, PostOpReverted, info, w.m.gas - w2.m.gas + info.preOpGas,
                    s.postAgain, s.gas.postAgain);
    }
  }
}
