/** What each call of the DepositPaymaster does: who can make it, whose tokens move, and what is recorded for whom. */
module TokenEffects {
  import opened Evm
  import opened UserOperations
  import opened DepositPaymasters

  /** Nothing is recorded or held otherwise for any other token or account. */
  ghost predicate SameBut(t: Table, t': Table, token: Address, a: Address, b: Address) {
    forall x: Address, y: Address :: (x != token || (y != a && y != b)) ==> Get(t', x, y) == Get(t, x, y)
  }

  /** The amount of one entry changes, and no other. */
  ghost predicate Moves(t: Table, t': Table, token: Address, a: Address, change: int) {
    && Get(t', token, a) == Get(t, token, a) + change
    && SameBut(t, t', token, a, a)
  }

  lemma PutMoves(t: Table, token: Address, a: Address, amount: uint256)
    ensures Get(Put(t, token, a, amount), token, a) == amount
    ensures SameBut(t, Put(t, token, a, amount), token, a, a)
  {
  }

  /** A transfer takes the amount from the one and gives it to the other; to oneself it changes nothing. */
  lemma TransferEffect(st: State, token: Address, from: Address, to: Address, amount: uint256)
    ensures var r := MoveTokens(st, token, from, to, amount);
            && (from != to ==>
                  (r.Ok? <==> amount <= Get(st.held, token, from) && Get(st.held, token, to) + amount < TWO_256))
            && (from == to ==> (r.Ok? <==> amount <= Get(st.held, token, from)))
            && (r.Ok? ==>
                  && r.value == st.(held := r.value.held) && SameBut(st.held, r.value.held, token, from, to)
                  && (from != to ==>
                        && Get(r.value.held, token, from) == Get(st.held, token, from) - amount
                        && Get(r.value.held, token, to) == Get(st.held, token, to) + amount)
                  && (from == to ==> Get(r.value.held, token, from) == Get(st.held, token, from)))
  {
    hide Get, Put;
    if amount <= Get(st.held, token, from) {
      var less := Get(st.held, token, from) - amount;
      var taken := Put(st.held, token, from, less);
      PutMoves(st.held, token, from, less);
      if Get(taken, token, to) + amount < TWO_256 {
        PutMoves(taken, token, to, Get(taken, token, to) + amount);
      }
    }
  }

  /** What the paymaster may take of a holder's tokens; the greatest allowance is never used up. */
  lemma CollectEffect(env: Setting, st: State, token: Address, from: Address, amount: uint256)
    requires from != env.paymaster
    ensures var r, allowed := Collect(env, st, token, from, amount), Get(st.allowance, token, from);
            && (r.Ok? <==>
                  && amount <= allowed && amount <= Get(st.held, token, from)
                  && Get(st.held, token, env.paymaster) + amount < TWO_256)
            && (r.Ok? ==>
                  && r.value == st.(held := r.value.held, allowance := r.value.allowance)
                  && SameBut(st.held, r.value.held, token, from, env.paymaster)
                  && Get(r.value.held, token, from) == Get(st.held, token, from) - amount
                  && Get(r.value.held, token, env.paymaster) == Get(st.held, token, env.paymaster) + amount
                  && Moves(st.allowance, r.value.allowance, token, from,
                           if allowed == TWO_256 - 1 then 0 else -(amount as int)))
  {
    hide Get, Put, MoveTokens;
    var allowed := Get(st.allowance, token, from);
    if amount <= allowed {
      PutMoves(st.allowance, token, from, allowed - amount);
      var spent := if allowed == TWO_256 - 1 then st
                   else st.(allowance := Put(st.allowance, token, from, allowed - amount));
      TransferEffect(spent, token, from, env.paymaster, amount);
    }
  }

  // ---------- charges ----------

  /** The cost in tokens is the share of `maxTokenCost` that the cost in ETH is of `maxCost`, rounded down. */
  lemma TokenCostIs(c: Context, actualGasCost: uint256)
    ensures var eth, cost := actualGasCost + COST_OF_POST * c.gasPrice, TokenCost(c, actualGasCost);
            && (cost.Some? <==> 0 < c.maxCost && 0 <= eth < TWO_256 && 0 <= eth * c.maxTokenCost < TWO_256)
            && (cost.Some? ==> cost.value * c.maxCost <= eth * c.maxTokenCost < (cost.value + 1) * c.maxCost)
  {
    var eth := actualGasCost + COST_OF_POST * c.gasPrice;
    NotNegative(eth, c.maxTokenCost);
    var cost := TokenCost(c, actualGasCost);
    if cost.Some? {
      OneMore(cost.value, c.maxCost);
    }
  }

  lemma NotNegative(a: nat, b: nat)
    ensures a * b >= 0
  {
  }

  lemma OneMore(a: nat, b: nat)
    ensures (a + 1) * b == a * b + b && a * b == b * a
  {
  }

  /**
   * A charge from the deposit: what the account's deposit loses, the owner's gains, and nothing else of any record,
   * holding or allowance changes. If the owner is the account, its deposit must cover the cost and stays as it is.
   */
  lemma FallbackChargeEffect(env: Setting, st: State, c: Context, actualGasCost: uint256)
    ensures var r := Charge(env, st, PostOp(env.entryPoint, true, c, actualGasCost));
            var cost := TokenCost(c, actualGasCost);
            && (r.Ok? <==>
                  && cost.Some? && cost.value <= Get(st.balances, c.token, c.account)
                  && (c.account != st.owner ==> Get(st.balances, c.token, st.owner) + cost.value < TWO_256))
            && (r.Ok? ==>
                  && r.value == st.(balances := r.value.balances)
                  && SameBut(st.balances, r.value.balances, c.token, c.account, st.owner)
                  && (c.account != st.owner ==>
                        && Get(r.value.balances, c.token, c.account)
                           == Get(st.balances, c.token, c.account) - cost.value
                        && Get(r.value.balances, c.token, st.owner) == Get(st.balances, c.token, st.owner) + cost.value)
                  && (c.account == st.owner ==>
                        Get(r.value.balances, c.token, st.owner) == Get(st.balances, c.token, st.owner)))
  {
    hide Get, Put, TokenCost;
    var cost := TokenCost(c, actualGasCost);
    if cost.Some? && cost.value <= Get(st.balances, c.token, c.account) {
      var less := Get(st.balances, c.token, c.account) - cost.value;
      PutMoves(st.balances, c.token, c.account, less);
      var paid := Put(st.balances, c.token, c.account, less);
      if Get(paid, c.token, st.owner) + cost.value < TWO_256 {
        PutMoves(paid, c.token, st.owner, Get(paid, c.token, st.owner) + cost.value);
      }
    }
  }

  /**
   * A charge in the self-call: the account's tokens and allowance pay, the paymaster holds the tokens, and only the
   * owner's recorded deposit rises, by the cost.
   */
  lemma ChargeEffect(env: Setting, st: State, c: Context, actualGasCost: uint256)
    requires c.account != env.paymaster
    ensures var r := Charge(env, st, PostOp(env.entryPoint, false, c, actualGasCost));
            var cost := TokenCost(c, actualGasCost);
            && (r.Ok? <==>
                  && cost.Some? && Collect(env, st, c.token, c.account, cost.value).Ok?
                  && Get(st.balances, c.token, st.owner) + cost.value < TWO_256)
            && (r.Ok? ==>
                  var paid := Collect(env, st, c.token, c.account, cost.value).value;
                  && r.value == paid.(balances := r.value.balances)
                  && Moves(st.balances, r.value.balances, c.token, st.owner, cost.value))
  {
    hide Get, Put, TokenCost, Collect;
    var cost := TokenCost(c, actualGasCost);
    if cost.Some? && Get(st.balances, c.token, st.owner) + cost.value < TWO_256 {
      PutMoves(st.balances, c.token, st.owner, Get(st.balances, c.token, st.owner) + cost.value);
      if Collect(env, st, c.token, c.account, cost.value).Ok? {
        CollectEffect(env, st, c.token, c.account, cost.value);
      }
    } else if cost.Some? && Collect(env, st, c.token, c.account, cost.value).Ok? {
      CollectEffect(env, st, c.token, c.account, cost.value);
    }
  }

  lemma OnlyEntryPointCharges(env: Setting, st: State, sender: Address, reverted: bool, c: Context,
                              actualGasCost: uint256)
    requires sender != env.entryPoint
    ensures Charge(env, st, PostOp(sender, reverted, c, actualGasCost)).Err?
  {
  }

  // ---------- deposits ----------

  /**
   * A deposit takes the caller's tokens and is recorded for the account it names, in a supported token; the caller's
   * own deposit is locked by it, nobody else's.
   */
  lemma AddDepositEffect(env: Setting, st: State, blockNumber: uint256, sender: Address, token: Address,
                         account: Address, amount: uint256)
    requires sender != env.paymaster
    ensures var r := Perform(env, st, blockNumber, AddDepositFor(sender, token, account, amount));
            && (r.Ok? <==>
                  && Collect(env, st, token, sender, amount).Ok? && Oracle(st, token) != ZERO_ADDRESS
                  && Get(st.balances, token, account) + amount < TWO_256)
            && (r.Ok? ==>
                  var paid := Collect(env, st, token, sender, amount).value;
                  && r.value == paid.(balances := r.value.balances, unlockBlock := r.value.unlockBlock)
                  && Moves(st.balances, r.value.balances, token, account, amount)
                  && (sender == account ==> UnlockBlock(r.value, sender) == 0)
                  && forall x :: x != sender || sender != account ==> UnlockBlock(r.value, x) == UnlockBlock(st, x))
  {
    hide Get, Put, Collect;
    if Collect(env, st, token, sender, amount).Ok? {
      CollectEffect(env, st, token, sender, amount);
      if Get(st.balances, token, account) + amount < TWO_256 {
        PutMoves(st.balances, token, account, Get(st.balances, token, account) + amount);
      }
    }
  }

  /** A withdrawal needs an unlocking in an earlier block; it lowers the caller's deposit and pays the target. */
  lemma WithdrawEffect(env: Setting, st: State, blockNumber: uint256, sender: Address, token: Address, target: Address,
                       amount: uint256)
    requires target != env.paymaster
    ensures var r := Perform(env, st, blockNumber, WithdrawTokensTo(sender, token, target, amount));
            && (r.Ok? <==>
                  && 0 != UnlockBlock(st, sender) < blockNumber && amount <= Get(st.balances, token, sender)
                  && amount <= Get(st.held, token, env.paymaster) && Get(st.held, token, target) + amount < TWO_256)
            && (r.Ok? ==>
                  && r.value == st.(balances := r.value.balances, held := r.value.held)
                  && Moves(st.balances, r.value.balances, token, sender, -(amount as int))
                  && SameBut(st.held, r.value.held, token, env.paymaster, target)
                  && Get(r.value.held, token, env.paymaster) == Get(st.held, token, env.paymaster) - amount
                  && Get(r.value.held, token, target) == Get(st.held, token, target) + amount)
  {
    hide Get, Put, MoveTokens;
    if amount <= Get(st.balances, token, sender) {
      var left := Get(st.balances, token, sender) - amount;
      PutMoves(st.balances, token, sender, left);
      TransferEffect(st.(balances := Put(st.balances, token, sender, left)), token, env.paymaster, target, amount);
    }
  }

  /** Locking and unlocking concern the caller alone. */
  lemma LockEffect(env: Setting, st: State, blockNumber: uint256, sender: Address)
    ensures var r := Perform(env, st, blockNumber, UnlockTokenDeposit(sender));
            && r.Ok? && r.value == st.(unlockBlock := r.value.unlockBlock)
            && UnlockBlock(r.value, sender) == blockNumber
            && forall x :: x != sender ==> UnlockBlock(r.value, x) == UnlockBlock(st, x)
    ensures var r := Perform(env, st, blockNumber, LockTokenDeposit(sender));
            && r.Ok? && r.value == st.(unlockBlock := r.value.unlockBlock) && UnlockBlock(r.value, sender) == 0
            && forall x :: x != sender ==> UnlockBlock(r.value, x) == UnlockBlock(st, x)
  {
  }

  // ---------- administration ----------

  /** Only the owner adds a token, once, or passes the ownership on. */
  lemma OwnerEffect(env: Setting, st: State, blockNumber: uint256, sender: Address, token: Address, oracle: Address,
                    newOwner: Address)
    ensures var r := Perform(env, st, blockNumber, AddToken(sender, token, oracle));
            && (r.Ok? <==> sender == st.owner && Oracle(st, token) == ZERO_ADDRESS)
            && (r.Ok? ==>
                  && r.value == st.(oracles := r.value.oracles) && Oracle(r.value, token) == oracle
                  && forall x :: x != token ==> Oracle(r.value, x) == Oracle(st, x))
    ensures var r := Perform(env, st, blockNumber, TransferOwnership(sender, newOwner));
            && (r.Ok? <==> sender == st.owner)
            && (r.Ok? ==> r.value.owner == newOwner && r.value == st.(owner := newOwner))
  {
  }

  // ---------- validation ----------

  /**
   * An operation is sponsored exactly when it leaves gas for `postOp`, names a supported token, and its sender has a
   * locked deposit that covers the price of the prefund in that token.
   */
  lemma SponsorsIff(st: State, op: UserOperation, basefee: uint256, maxCost: uint256, price: Result<uint256, string>)
    ensures var r := ValidatePaymasterUserOp(st, op, basefee, maxCost, price);
            && (r.Ok? <==>
                  && COST_OF_POST < op.verificationGasLimit && |op.paymasterAndData| == 40
                  && Oracle(st, AddressOf(op.paymasterAndData[20..])) != ZERO_ADDRESS && price.Ok?
                  && UnlockBlock(st, op.sender) == 0
                  && price.value <= Get(st.balances, AddressOf(op.paymasterAndData[20..]), op.sender))
            && (r.Ok? ==>
                  && r.value.account == op.sender && r.value.token == NatOf(op.paymasterAndData[20..])
                  && r.value.maxTokenCost == price.value && r.value.maxCost == maxCost
                  && r.value.gasPrice == GasPrice(op.maxFeePerGas, op.maxPriorityFeePerGas, basefee))
  {
    hide NatOf, GasPrice;
    if |op.paymasterAndData| == 40 {
      assert op.paymasterAndData[20..][..20] == op.paymasterAndData[20..];
    }
  }
}
