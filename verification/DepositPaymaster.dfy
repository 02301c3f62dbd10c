/** The token ledger of DepositPaymaster, with exact ERC-20 tokens (DepositPaymaster.sol). */
module DepositPaymasters {
  import opened Evm
  import opened UserOperations
  import Sums

  const COST_OF_POST := 35000

  /** The amounts an account holds, by token and account. */
  type Table = map<Address, map<Address, uint256>>

  function Get(t: Table, token: Address, account: Address): uint256 {
    if token in t && account in t[token] then t[token][account] else 0
  }

  function Row(t: Table, token: Address): map<Address, uint256> {
    if token in t then t[token] else map[]
  }

  function Put(t: Table, token: Address, account: Address, amount: uint256): Table {
    t[token := Row(t, token)[account := amount]]
  }

  /**
   * The paymaster's storage, and the tokens' own: what each holder has, and what it lets the paymaster take.
   */
  datatype State = State(
    owner: Address,
    oracles: map<Address, Address>,
    balances: Table,
    unlockBlock: map<Address, uint256>,
    held: Table,
    allowance: Table)

  /** The context handed from validation to postOp. */
  datatype Context = Context(account: Address, token: Address, gasPrice: uint256, maxTokenCost: uint256,
                             maxCost: uint256)

  datatype Action =
    | AddToken(sender: Address, token: Address, oracle: Address)
    | TransferOwnership(sender: Address, newOwner: Address)
    | AddDepositFor(sender: Address, token: Address, account: Address, amount: uint256)
    | UnlockTokenDeposit(sender: Address)
    | LockTokenDeposit(sender: Address)
    | WithdrawTokensTo(sender: Address, token: Address, target: Address, amount: uint256)
    | PostOp(sender: Address, reverted: bool, context: Context, actualGasCost: uint256)
    // calls of the token contracts
    | Approve(sender: Address, token: Address, amount: uint256)
    | TransferTokens(sender: Address, token: Address, to: Address, amount: uint256)
    | Mint(sender: Address, token: Address, to: Address, amount: uint256)

  /** The addresses of the paymaster and of its entry point. */
  datatype Setting = Setting(paymaster: Address, entryPoint: Address)

  function UnlockBlock(st: State, account: Address): uint256 {
    if account in st.unlockBlock then st.unlockBlock[account] else 0
  }

  function Oracle(st: State, token: Address): Address {
    if token in st.oracles then st.oracles[token] else ZERO_ADDRESS
  }

  // ---------- exact tokens ----------

  /** Move tokens between two holders; a token moves exactly the amount or reverts. */
  function MoveTokens(st: State, token: Address, from: Address, to: Address, amount: uint256): Result<State, string> {
    if Get(st.held, token, from) < amount then Err("ERC20: transfer amount exceeds balance")
    else
      var taken := Put(st.held, token, from, Get(st.held, token, from) - amount);
      if Get(taken, token, to) + amount >= TWO_256 then Err("ERC20: overflow")
      else Ok(st.(held := Put(taken, token, to, Get(taken, token, to) + amount)))
  }

  /** `transferFrom(from, paymaster, amount)`, called by the paymaster. */
  function Collect(env: Setting, st: State, token: Address, from: Address, amount: uint256): Result<State, string> {
    var allowed := Get(st.allowance, token, from);
    if allowed < amount then Err("ERC20: insufficient allowance")
    else
      var spent := if allowed == TWO_256 - 1 then st
                   else st.(allowance := Put(st.allowance, token, from, allowed - amount));
      MoveTokens(spent, token, from, env.paymaster, amount)
  }

  // ---------- the paymaster ----------

  /** What the operation costs in tokens: None when a checked step overflows or divides by zero. */
  function TokenCost(context: Context, actualGasCost: uint256): Option<uint256> {
    if COST_OF_POST * context.gasPrice >= TWO_256 then None
    else if actualGasCost + COST_OF_POST * context.gasPrice >= TWO_256 then None
    else if (actualGasCost + COST_OF_POST * context.gasPrice) * context.maxTokenCost >= TWO_256 then None
    else if context.maxCost == 0 then None
    else Some(Quotient((actualGasCost + COST_OF_POST * context.gasPrice) * context.maxTokenCost, context.maxCost))
  }

  function Quotient(a: nat, b: nat): (q: nat)
    requires b > 0
    ensures b * q <= a < b * q + b
    ensures q <= a
  {
    var q := a / b;
    QuotientFits(a, b, q, a % b);
    q
  }

  lemma QuotientFits(a: nat, b: nat, q: int, r: int)
    requires b > 0 && a == b * q + r && 0 <= r < b
    ensures 0 <= q <= a
  {
    if q >= 0 {
      assert b * q >= q;
    }
  }

  function Charge(env: Setting, st: State, a: Action): Result<State, string>
    requires a.PostOp?
  {
    if a.sender != env.entryPoint then Err("Sender not EntryPoint")
    else
      var c := a.context;
      match TokenCost(c, a.actualGasCost)
      case None => Err("Panic")
      case Some(cost) =>
        var paid: Result<State, string> :=
          if !a.reverted then Collect(env, st, c.token, c.account, cost)
          else if Get(st.balances, c.token, c.account) < cost then Err("Panic")
          else Ok(st.(balances := Put(st.balances, c.token, c.account, Get(st.balances, c.token, c.account) - cost)));
        if paid.Err? then paid
        else if Get(paid.value.balances, c.token, st.owner) + cost >= TWO_256 then Err("Panic")
        else
          var st1 := paid.value;
          Ok(st1.(balances := Put(st1.balances, c.token, st.owner, Get(st1.balances, c.token, st.owner) + cost)))
  }

  function AddDeposit(env: Setting, st: State, a: Action): Result<State, string>
    requires a.AddDepositFor?
  {
    var st1 :- Collect(env, st, a.token, a.sender, a.amount);
    if Oracle(st1, a.token) == ZERO_ADDRESS then Err("unsupported token")
    else if Get(st1.balances, a.token, a.account) + a.amount >= TWO_256 then Err("Panic")
    else
      var st2 := st1.(balances := Put(st1.balances, a.token, a.account,
                                      Get(st1.balances, a.token, a.account) + a.amount));
      Ok(if a.sender == a.account then st2.(unlockBlock := st2.unlockBlock[a.sender := 0]) else st2)
  }

  function Withdraw(env: Setting, st: State, blockNumber: uint256, a: Action): Result<State, string>
    requires a.WithdrawTokensTo?
  {
    if UnlockBlock(st, a.sender) == 0 || blockNumber <= UnlockBlock(st, a.sender) then
      Err("DepositPaymaster: must unlockTokenDeposit")
    else if Get(st.balances, a.token, a.sender) < a.amount then Err("Panic")
    else
      MoveTokens(st.(balances := Put(st.balances, a.token, a.sender, Get(st.balances, a.token, a.sender) - a.amount)),
                 a.token, env.paymaster, a.target, a.amount)
  }

  function Perform(env: Setting, st: State, blockNumber: uint256, a: Action): Result<State, string> {
    match a
    case AddToken(sender, token, oracle) =>
      if sender != st.owner then Err("Ownable: caller is not the owner")
      else if Oracle(st, token) != ZERO_ADDRESS then Err("Token already set")
      else Ok(st.(oracles := st.oracles[token := oracle]))
    case TransferOwnership(sender, newOwner) =>
      if sender != st.owner then Err("Ownable: caller is not the owner") else Ok(st.(owner := newOwner))
    case AddDepositFor(_, _, _, _) => AddDeposit(env, st, a)
    case UnlockTokenDeposit(sender) => Ok(st.(unlockBlock := st.unlockBlock[sender := blockNumber]))
    case LockTokenDeposit(sender) => Ok(st.(unlockBlock := st.unlockBlock[sender := 0]))
    case WithdrawTokensTo(_, _, _, _) => Withdraw(env, st, blockNumber, a)
    case PostOp(_, _, _, _) => Charge(env, st, a)
    case Approve(sender, token, amount) => Ok(st.(allowance := Put(st.allowance, token, sender, amount)))
    case TransferTokens(sender, token, to, amount) => MoveTokens(st, token, sender, to, amount)
    case Mint(_, token, to, amount) =>
      if Get(st.held, token, to) + amount >= TWO_256 then Err("ERC20: overflow")
      else Ok(st.(held := Put(st.held, token, to, Get(st.held, token, to) + amount)))
  }

  function Step(env: Setting, st: State, blockNumber: uint256, a: Action): State {
    match Perform(env, st, blockNumber, a)
    case Ok(st') => st'
    case Err(_) => st
  }

  /** What the paymaster checks before it sponsors an operation; `price` is the answer of the token's oracle. */
  function ValidatePaymasterUserOp(st: State, op: UserOperation, basefee: uint256, maxCost: uint256,
                                   price: Result<uint256, string>)
    : Result<Context, string>
  {
    if op.verificationGasLimit <= COST_OF_POST then Err("DepositPaymaster: gas too low for postOp")
    else if |op.paymasterAndData| != 20 + 20 then Err("DepositPaymaster: paymasterAndData must specify token")
    else
      var token := AddressOf(op.paymasterAndData[20..]);
      if Oracle(st, token) == ZERO_ADDRESS then Err("DepositPaymaster: unsupported token")
      else
        var maxTokenCost :- price;
        if UnlockBlock(st, op.sender) != 0 then Err("DepositPaymaster: deposit not locked")
        else if Get(st.balances, token, op.sender) < maxTokenCost then Err("DepositPaymaster: deposit too low")
        else Ok(Context(op.sender, token, GasPrice(op.maxFeePerGas, op.maxPriorityFeePerGas, basefee), maxTokenCost,
                        maxCost))
  }

  // ---------- solvency ----------

  function Amount(x: uint256): nat {
    x
  }

  /** All recorded deposits of a token. */
  ghost function Recorded(st: State, token: Address): nat {
    Sums.Total(Row(st.balances, token), Amount)
  }

  /** What the paymaster holds of a token beyond the recorded deposits. */
  ghost function Surplus(env: Setting, st: State, token: Address): int {
    Get(st.held, token, env.paymaster) - Recorded(st, token)
  }

  /** The paymaster lets nobody take its tokens, itself included. */
  predicate NoAllowance(env: Setting, st: State, token: Address) {
    Get(st.allowance, token, env.paymaster) == 0
  }

  ghost predicate Solvent(env: Setting, st: State) {
    forall token :: Surplus(env, st, token) >= 0 && NoAllowance(env, st, token)
  }

  lemma PutRecorded(st: State, token: Address, account: Address, amount: uint256, other: Address)
    ensures var st' := st.(balances := Put(st.balances, token, account, amount));
            Recorded(st', other)
            == Recorded(st, other) + if other == token then amount - Get(st.balances, token, account) else 0
  {
    if other == token {
      Sums.TotalReplaced(Row(st.balances, token), Amount, account, amount);
    }
  }

  /**
   * Calls come from outside: the paymaster never calls itself, and never approves or moves tokens but in its own code.
   */
  predicate FromOutside(env: Setting, a: Action) {
    a.sender != env.paymaster
  }

  /** Tokens given to the paymaster that it does not record. */
  function Donated(env: Setting, a: Action, token: Address): nat {
    if (a.TransferTokens? || a.Mint?) && a.token == token && a.to == env.paymaster then a.amount else 0
  }

  lemma MoveSurplus(env: Setting, st: State, token: Address, from: Address, to: Address, amount: uint256,
                    other: Address)
    requires MoveTokens(st, token, from, to, amount).Ok?
    ensures var st' := MoveTokens(st, token, from, to, amount).value;
            && st'.balances == st.balances && st'.allowance == st.allowance && st'.owner == st.owner
            && Surplus(env, st', other)
               == Surplus(env, st, other)
                  + (if other == token && to == env.paymaster then amount else 0)
                  - (if other == token && from == env.paymaster then amount else 0)
  {
    hide Recorded;
    var st' := MoveTokens(st, token, from, to, amount).value;
    SameRecorded(st, st', other);
  }

  lemma SameRecorded(st: State, st': State, token: Address)
    requires st'.balances == st.balances
    ensures Recorded(st', token) == Recorded(st, token)
  {
  }

  /** What the paymaster collects from an account, it holds; from itself it can only collect nothing. */
  lemma CollectSurplus(env: Setting, st: State, token: Address, from: Address, amount: uint256, other: Address)
    requires Collect(env, st, token, from, amount).Ok? && NoAllowance(env, st, token) && NoAllowance(env, st, other)
    ensures var st' := Collect(env, st, token, from, amount).value;
            && st'.balances == st.balances && NoAllowance(env, st', other) && st'.owner == st.owner
            && st'.oracles == st.oracles && st'.unlockBlock == st.unlockBlock
            && Surplus(env, st', other) == Surplus(env, st, other) + if other == token then amount else 0
  {
    hide Recorded, MoveTokens;
    var allowed := Get(st.allowance, token, from);
    var spent := if allowed == TWO_256 - 1 then st
                 else st.(allowance := Put(st.allowance, token, from, allowed - amount));
    SameRecorded(st, spent, other);
    MoveSurplus(env, spent, token, from, env.paymaster, amount, other);
    MoveKeepsRest(spent, token, from, env.paymaster, amount);
  }

  lemma MoveKeepsRest(st: State, token: Address, from: Address, to: Address, amount: uint256)
    requires MoveTokens(st, token, from, to, amount).Ok?
    ensures MoveTokens(st, token, from, to, amount).value
            == st.(held := MoveTokens(st, token, from, to, amount).value.held)
  {
  }

  lemma PutSurplus(env: Setting, st: State, token: Address, account: Address, amount: uint256, other: Address)
    ensures var st' := st.(balances := Put(st.balances, token, account, amount));
            && Surplus(env, st', other)
               == Surplus(env, st, other) - (if other == token then amount - Get(st.balances, token, account) else 0)
            && st'.allowance == st.allowance && st'.owner == st.owner
  {
    hide Recorded;
    PutRecorded(st, token, account, amount, other);
  }

  lemma ChargeSurplus(env: Setting, st: State, a: Action, other: Address)
    requires Solvent(env, st) && a.PostOp? && Charge(env, st, a).Ok?
    ensures var st' := Charge(env, st, a).value;
              Surplus(env, st', other) == Surplus(env, st, other) && NoAllowance(env, st', other)
  {
    hide Surplus, Collect, TokenCost, Put, Get;
    var c, cost := a.context, TokenCost(a.context, a.actualGasCost).value;
    assert NoAllowance(env, st, c.token) && NoAllowance(env, st, other) by {
      assert Surplus(env, st, c.token) >= 0 && Surplus(env, st, other) >= 0;
    }
    if !a.reverted {
      CollectSurplus(env, st, c.token, c.account, cost, other);
      var st1 := Collect(env, st, c.token, c.account, cost).value;
      PutSurplus(env, st1, c.token, st.owner, Get(st1.balances, c.token, st.owner) + cost, other);
    } else {
      PutSurplus(env, st, c.token, c.account, Get(st.balances, c.token, c.account) - cost, other);
      var st1 := st.(balances := Put(st.balances, c.token, c.account, Get(st.balances, c.token, c.account) - cost));
      PutSurplus(env, st1, c.token, st.owner, Get(st1.balances, c.token, st.owner) + cost, other);
    }
  }

  lemma AddDepositSurplus(env: Setting, st: State, a: Action, other: Address)
    requires Solvent(env, st) && a.AddDepositFor? && AddDeposit(env, st, a).Ok?
    ensures var st' := AddDeposit(env, st, a).value;
              Surplus(env, st', other) == Surplus(env, st, other) && NoAllowance(env, st', other)
  {
    hide Surplus, Collect, Put, Get;
    assert NoAllowance(env, st, a.token) && NoAllowance(env, st, other) by {
      assert Surplus(env, st, a.token) >= 0 && Surplus(env, st, other) >= 0;
    }
    CollectSurplus(env, st, a.token, a.sender, a.amount, other);
    var st1 := Collect(env, st, a.token, a.sender, a.amount).value;
    PutSurplus(env, st1, a.token, a.account, Get(st1.balances, a.token, a.account) + a.amount, other);
    var st2 := st1.(balances := Put(st1.balances, a.token, a.account,
                                    Get(st1.balances, a.token, a.account) + a.amount));
    SameSurplus(env, st2, AddDeposit(env, st, a).value, other);
  }

  lemma SameSurplus(env: Setting, st: State, st': State, token: Address)
    requires st'.balances == st.balances && st'.held == st.held
    ensures Surplus(env, st', token) == Surplus(env, st, token)
  {
  }

  /** Withdrawing to the paymaster itself leaves the tokens there, unrecorded. */
  function Returned(env: Setting, a: Action, token: Address): nat {
    if a.WithdrawTokensTo? && a.token == token && a.target == env.paymaster then a.amount else 0
  }

  lemma WithdrawSurplus(env: Setting, st: State, blockNumber: uint256, a: Action, other: Address)
    requires Solvent(env, st) && a.WithdrawTokensTo? && Withdraw(env, st, blockNumber, a).Ok?
    ensures var st' := Withdraw(env, st, blockNumber, a).value;
            Surplus(env, st', other) == Surplus(env, st, other) + Returned(env, a, other)
            && NoAllowance(env, st', other)
  {
    hide Surplus, MoveTokens, Put, Get;
    assert NoAllowance(env, st, other) by {
      assert Surplus(env, st, other) >= 0;
    }
    PutSurplus(env, st, a.token, a.sender, Get(st.balances, a.token, a.sender) - a.amount, other);
    var st1 := st.(balances := Put(st.balances, a.token, a.sender, Get(st.balances, a.token, a.sender) - a.amount));
    MoveSurplus(env, st1, a.token, env.paymaster, a.target, a.amount, other);
  }

  /** What a call adds to the tokens that are held but not recorded. */
  function Gift(env: Setting, st: State, blockNumber: uint256, a: Action, token: Address): nat {
    if Perform(env, st, blockNumber, a).Ok? then Donated(env, a, token) + Returned(env, a, token) else 0
  }

  lemma TokenActionSurplus(env: Setting, st: State, blockNumber: uint256, a: Action, other: Address)
    requires Solvent(env, st) && FromOutside(env, a) && Perform(env, st, blockNumber, a).Ok?
    requires a.Approve? || a.TransferTokens? || a.Mint?
    ensures var st' := Perform(env, st, blockNumber, a).value;
            Surplus(env, st', other) == Surplus(env, st, other) + Donated(env, a, other) && NoAllowance(env, st', other)
  {
    hide Recorded;
    var st' := Perform(env, st, blockNumber, a).value;
    assert Surplus(env, st, other) >= 0;
    if a.TransferTokens? {
      MoveSurplus(env, st, a.token, a.sender, a.to, a.amount, other);
    } else {
      SameRecorded(st, st', other);
    }
  }

  /** The surplus of a token changes only by gifts. */
  lemma StepSurplus(env: Setting, st: State, blockNumber: uint256, a: Action, token: Address)
    requires Solvent(env, st) && FromOutside(env, a)
    ensures var st' := Step(env, st, blockNumber, a);
            Surplus(env, st', token) == Surplus(env, st, token) + Gift(env, st, blockNumber, a, token)
            && NoAllowance(env, st', token)
  {
    hide Surplus, AddDeposit, Withdraw, Charge, MoveTokens, Get;
    assert NoAllowance(env, st, token) by {
      assert Surplus(env, st, token) >= 0;
    }
    if Perform(env, st, blockNumber, a).Ok? {
      match a
      case AddDepositFor(_, _, _, _) => AddDepositSurplus(env, st, a, token);
      case WithdrawTokensTo(_, _, _, _) => WithdrawSurplus(env, st, blockNumber, a, token);
      case PostOp(_, _, _, _) => ChargeSurplus(env, st, a, token);
      case Approve(_, _, _) => TokenActionSurplus(env, st, blockNumber, a, token);
      case TransferTokens(_, _, _, _) => TokenActionSurplus(env, st, blockNumber, a, token);
      case Mint(_, _, _, _) => TokenActionSurplus(env, st, blockNumber, a, token);
      case _ => SameSurplus(env, st, Step(env, st, blockNumber, a), token);
    }
  }

  lemma StepSolvent(env: Setting, st: State, blockNumber: uint256, a: Action)
    requires Solvent(env, st) && FromOutside(env, a)
    ensures Solvent(env, Step(env, st, blockNumber, a))
  {
    hide Surplus, NoAllowance, Step;
    forall token
      ensures Surplus(env, Step(env, st, blockNumber, a), token) >= 0
              && NoAllowance(env, Step(env, st, blockNumber, a), token)
    {
      StepSurplus(env, st, blockNumber, a, token);
      assert Surplus(env, st, token) >= 0;
    }
  }

  datatype Call = Call(blockNumber: uint256, action: Action)

  function Run(env: Setting, st: State, calls: seq<Call>): State
    decreases |calls|
  {
    if |calls| == 0 then st
    else
      var last := calls[|calls| - 1];
      Step(env, Run(env, st, calls[..|calls| - 1]), last.blockNumber, last.action)
  }

  /** Right after deployment: nothing recorded; the tokens may already hold anything. */
  function Deployed(owner: Address, blockNumber: uint256, held: Table, allowance: Table): State {
    State(owner, map[], map[], map[owner := blockNumber], held, allowance)
  }

  ghost predicate AllFromOutside(env: Setting, calls: seq<Call>) {
    forall i :: 0 <= i < |calls| ==> FromOutside(env, calls[i].action)
  }

  /** The gifts of a run. */
  function Gifts(env: Setting, st: State, calls: seq<Call>, token: Address): nat
    decreases |calls|
  {
    if |calls| == 0 then 0
    else
      var last := calls[|calls| - 1];
      Gifts(env, st, calls[..|calls| - 1], token)
      + Gift(env, Run(env, st, calls[..|calls| - 1]), last.blockNumber, last.action, token)
  }

  lemma DeployedSolvent(env: Setting, owner: Address, blockNumber: uint256, held: Table, allowance: Table)
    requires forall token :: Get(allowance, token, env.paymaster) == 0
    ensures var st := Deployed(owner, blockNumber, held, allowance);
            Solvent(env, st) && forall token :: Surplus(env, st, token) == Get(held, token, env.paymaster)
  {
    var st := Deployed(owner, blockNumber, held, allowance);
    forall token
      ensures Recorded(st, token) == 0 && NoAllowance(env, st, token)
    {
      assert Get(allowance, token, env.paymaster) == 0;
    }
  }

  /**
   * Solvency over every run: the recorded deposits of a token never sum to more than the paymaster holds of it.
   * The difference is exactly what was there before and what was given since.
   */
  lemma {:induction false} EveryRunSolvent(env: Setting, owner: Address, blockNumber: uint256, held: Table,
                                           allowance: Table, calls: seq<Call>)
    requires AllFromOutside(env, calls) && forall token :: Get(allowance, token, env.paymaster) == 0
    ensures var start := Deployed(owner, blockNumber, held, allowance);
            var st := Run(env, start, calls);
            && Solvent(env, st)
            && forall token :: Get(st.held, token, env.paymaster)
                               == Recorded(st, token) + Get(held, token, env.paymaster)
                                  + Gifts(env, start, calls, token)
    decreases |calls|
  {
    hide Step, Gift, Recorded, Solvent;
    var start := Deployed(owner, blockNumber, held, allowance);
    if |calls| == 0 {
      DeployedSolvent(env, owner, blockNumber, held, allowance);
      var st := Run(env, start, calls);
      forall token
        ensures Get(st.held, token, env.paymaster)
             == Recorded(st, token) + Get(held, token, env.paymaster) + Gifts(env, start, calls, token)
      {
        assert Surplus(env, start, token) == Get(held, token, env.paymaster);
      }
    } else {
      var before, last := calls[..|calls| - 1], calls[|calls| - 1];
      EveryRunSolvent(env, owner, blockNumber, held, allowance, before);
      var st := Run(env, start, before);
      StepSolvent(env, st, last.blockNumber, last.action);
      forall token
        ensures Get(Run(env, start, calls).held, token, env.paymaster)
             == Recorded(Run(env, start, calls), token) + Get(held, token, env.paymaster)
                + Gifts(env, start, calls, token)
      {
        StepSurplus(env, st, last.blockNumber, last.action, token);
      }
    }
  }

  // ---------- the lock ----------

  /** A fallback charge to the deposit of an account. */
  predicate Charges(a: Action, token: Address, account: Address) {
    a.PostOp? && a.reverted && a.context.token == token && a.context.account == account
  }

  /** Locked, or unlocked only in this block. */
  predicate StillLocked(st: State, account: Address, blockNumber: uint256) {
    UnlockBlock(st, account) == 0 || UnlockBlock(st, account) == blockNumber
  }

  lemma CollectKeepsRest(env: Setting, st: State, token: Address, from: Address, amount: uint256)
    requires Collect(env, st, token, from, amount).Ok?
    ensures var st' := Collect(env, st, token, from, amount).value;
            && st'.balances == st.balances && st'.unlockBlock == st.unlockBlock
            && st'.owner == st.owner && st'.oracles == st.oracles
  {
    hide MoveTokens;
    var allowed := Get(st.allowance, token, from);
    var spent := if allowed == TWO_256 - 1 then st
                 else st.(allowance := Put(st.allowance, token, from, allowed - amount));
    MoveKeepsRest(spent, token, from, env.paymaster, amount);
  }

  lemma GetAfterPut(t: Table, token: Address, account: Address, amount: uint256, token': Address, account': Address)
    ensures Get(Put(t, token, account, amount), token', account')
         == if token' == token && account' == account then amount else Get(t, token', account')
  {
  }

  lemma ChargeKeepsDeposit(env: Setting, st: State, a: Action, token: Address, account: Address)
    requires a.PostOp? && Charge(env, st, a).Ok? && !Charges(a, token, account)
    ensures var st' := Charge(env, st, a).value;
            st'.unlockBlock == st.unlockBlock && Get(st'.balances, token, account) >= Get(st.balances, token, account)
  {
    hide Collect, TokenCost, Put, Get;
    var c, cost := a.context, TokenCost(a.context, a.actualGasCost).value;
    if !a.reverted {
      CollectKeepsRest(env, st, c.token, c.account, cost);
      GetAfterPut(st.balances, c.token, st.owner, Get(st.balances, c.token, st.owner) + cost, token, account);
    } else {
      var lower := Put(st.balances, c.token, c.account, Get(st.balances, c.token, c.account) - cost);
      GetAfterPut(st.balances, c.token, c.account, Get(st.balances, c.token, c.account) - cost, token, account);
      GetAfterPut(lower, c.token, st.owner, Get(lower, c.token, st.owner) + cost, token, account);
    }
  }

  lemma AddDepositKeepsDeposit(env: Setting, st: State, a: Action, token: Address, account: Address)
    requires a.AddDepositFor? && AddDeposit(env, st, a).Ok?
    ensures var st' := AddDeposit(env, st, a).value;
            && (UnlockBlock(st', account) == 0 || UnlockBlock(st', account) == UnlockBlock(st, account))
            && Get(st'.balances, token, account) >= Get(st.balances, token, account)
  {
    hide Collect, Put, Get;
    CollectKeepsRest(env, st, a.token, a.sender, a.amount);
    GetAfterPut(st.balances, a.token, a.account, Get(st.balances, a.token, a.account) + a.amount, token, account);
  }

  lemma WithdrawKeepsDeposit(env: Setting, st: State, blockNumber: uint256, a: Action, token: Address, account: Address)
    requires a.WithdrawTokensTo? && Withdraw(env, st, blockNumber, a).Ok? && StillLocked(st, account, blockNumber)
    ensures var st' := Withdraw(env, st, blockNumber, a).value;
            st'.unlockBlock == st.unlockBlock && Get(st'.balances, token, account) >= Get(st.balances, token, account)
  {
    hide MoveTokens, Put, Get;
    var st1 := st.(balances := Put(st.balances, a.token, a.sender, Get(st.balances, a.token, a.sender) - a.amount));
    MoveKeepsRest(st1, a.token, env.paymaster, a.target, a.amount);
    GetAfterPut(st.balances, a.token, a.sender, Get(st.balances, a.token, a.sender) - a.amount, token, account);
  }

  /** Within a block, nothing but a fallback charge to it lowers a deposit that was locked. */
  lemma StepKeepsDeposit(env: Setting, st: State, blockNumber: uint256, a: Action, token: Address, account: Address)
    requires StillLocked(st, account, blockNumber) && !Charges(a, token, account)
    ensures var st' := Step(env, st, blockNumber, a);
            StillLocked(st', account, blockNumber)
            && Get(st'.balances, token, account) >= Get(st.balances, token, account)
  {
    hide MoveTokens, Withdraw, AddDeposit, Charge, Get, Put;
    if Perform(env, st, blockNumber, a).Ok? {
      match a
      case AddDepositFor(_, _, _, _) => AddDepositKeepsDeposit(env, st, a, token, account);
      case WithdrawTokensTo(_, _, _, _) => WithdrawKeepsDeposit(env, st, blockNumber, a, token, account);
      case PostOp(_, _, _, _) => ChargeKeepsDeposit(env, st, a, token, account);
      case TransferTokens(_, _, _, _) => MoveKeepsRest(st, a.token, a.sender, a.to, a.amount);
      case _ =>
    }
  }

  /** Calls of one block that do not charge the deposit of the account. */
  ghost predicate SameBlock(calls: seq<Call>, blockNumber: uint256, token: Address, account: Address) {
    forall i :: 0 <= i < |calls| ==> calls[i].blockNumber == blockNumber && !Charges(calls[i].action, token, account)
  }

  lemma {:induction false} BlockKeepsDeposit(env: Setting, st: State, calls: seq<Call>, blockNumber: uint256,
                                             token: Address, account: Address)
    requires StillLocked(st, account, blockNumber) && SameBlock(calls, blockNumber, token, account)
    ensures var st' := Run(env, st, calls);
            StillLocked(st', account, blockNumber)
            && Get(st'.balances, token, account) >= Get(st.balances, token, account)
    decreases |calls|
  {
    hide Step, Get, StillLocked, Charges;
    if |calls| > 0 {
      var before, last := calls[..|calls| - 1], calls[|calls| - 1];
      BlockKeepsDeposit(env, st, before, blockNumber, token, account);
      StepKeepsDeposit(env, Run(env, st, before), blockNumber, last.action, token, account);
    }
  }

  // ---------- the fallback payment ----------

  lemma RecordedCovers(st: State, token: Address, account: Address)
    ensures Get(st.balances, token, account) <= Recorded(st, token)
  {
    if token in st.balances && account in st.balances[token] {
      Sums.TotalWithout(Row(st.balances, token), Amount, account);
    }
  }

  lemma TwoDepositsFit(env: Setting, st: State, token: Address, a: Address, b: Address)
    requires Solvent(env, st) && a != b
    ensures Get(st.balances, token, a) + Get(st.balances, token, b) < TWO_256
  {
    assert Surplus(env, st, token) >= 0;
    PutRecorded(st, token, a, 0, token);
    RecordedCovers(st.(balances := Put(st.balances, token, a, 0)), token, b);
    GetAfterPut(st.balances, token, a, 0, token, b);
  }

  /** The second `postOp` succeeds exactly when its arithmetic fits and the deposit covers the cost. */
  lemma FallbackSucceedsIff(env: Setting, st: State, context: Context, actualGasCost: uint256)
    requires Solvent(env, st)
    ensures Charge(env, st, PostOp(env.entryPoint, true, context, actualGasCost)).Ok?
       <==> TokenCost(context, actualGasCost).Some?
            && TokenCost(context, actualGasCost).value <= Get(st.balances, context.token, context.account)
  {
    hide TokenCost, Get, Put, Solvent;
    var cost := TokenCost(context, actualGasCost);
    if cost.Some? && cost.value <= Get(st.balances, context.token, context.account) {
      var left := Get(st.balances, context.token, context.account) - cost.value;
      GetAfterPut(st.balances, context.token, context.account, left, context.token, st.owner);
      if st.owner != context.account {
        TwoDepositsFit(env, st, context.token, context.account, st.owner);
      }
    }
  }

  lemma CostWithinMaximum(context: Context, actualGasCost: uint256)
    requires 0 < context.maxCost && actualGasCost + COST_OF_POST * context.gasPrice <= context.maxCost
    requires (actualGasCost + COST_OF_POST * context.gasPrice) * context.maxTokenCost < TWO_256
    ensures TokenCost(context, actualGasCost).Some? && TokenCost(context, actualGasCost).value <= context.maxTokenCost
  {
    var eth, tokens, most := actualGasCost + COST_OF_POST * context.gasPrice, context.maxTokenCost, context.maxCost;
    QuotientWithin(eth, tokens, most);
  }

  lemma QuotientWithin(eth: nat, tokens: nat, most: nat)
    requires 0 < most && eth <= most
    ensures 0 <= eth * tokens && Quotient(eth * tokens, most) <= tokens
  {
    assert eth * tokens <= most * tokens by {
      assert most * tokens == eth * tokens + (most - eth) * tokens;
    }
    var q := Quotient(eth * tokens, most);
    assert most * (q - tokens) == most * q - most * tokens;
    FactorNotPositive(most, q - tokens);
  }

  lemma FactorNotPositive(x: nat, y: int)
    requires x > 0 && x * y <= 0
    ensures y <= 0
  {
  }

  /**
   * An operation validated in a block can be charged from its deposit in that block: whatever is called in between,
   * the second `postOp` succeeds if gas and post cost stay within `maxCost` and the product fits a word, as long as
   * no other operation was charged to the account.
   */
  lemma FallbackIsCovered(env: Setting, st: State, op: UserOperation, basefee: uint256, maxCost: uint256,
                          price: Result<uint256, string>, calls: seq<Call>, blockNumber: uint256,
                              actualGasCost: uint256)
    requires Solvent(env, st) && AllFromOutside(env, calls)
    requires ValidatePaymasterUserOp(st, op, basefee, maxCost, price).Ok?
    requires var c := ValidatePaymasterUserOp(st, op, basefee, maxCost, price).value;
             && SameBlock(calls, blockNumber, c.token, c.account)
             && 0 < maxCost && actualGasCost + COST_OF_POST * c.gasPrice <= maxCost
             && (actualGasCost + COST_OF_POST * c.gasPrice) * c.maxTokenCost < TWO_256
    ensures var c := ValidatePaymasterUserOp(st, op, basefee, maxCost, price).value;
            Charge(env, Run(env, st, calls), PostOp(env.entryPoint, true, c, actualGasCost)).Ok?
  {
    hide Solvent, TokenCost, Get, Run, SameBlock, GasPrice;
    var c := ValidatePaymasterUserOp(st, op, basefee, maxCost, price).value;
    hide ValidatePaymasterUserOp;
    RunSolvent(env, st, calls);
    BlockKeepsDeposit(env, st, calls, blockNumber, c.token, c.account);
    CostWithinMaximum(c, actualGasCost);
    FallbackSucceedsIff(env, Run(env, st, calls), c, actualGasCost);
  }

  lemma {:induction false} RunSolvent(env: Setting, st: State, calls: seq<Call>)
    requires Solvent(env, st) && AllFromOutside(env, calls)
    ensures Solvent(env, Run(env, st, calls))
    decreases |calls|
  {
    hide Step, Solvent;
    if |calls| > 0 {
      RunSolvent(env, st, calls[..|calls| - 1]);
      StepSolvent(env, Run(env, st, calls[..|calls| - 1]), calls[|calls| - 1].blockNumber, calls[|calls| - 1].action);
    }
  }

  // ---------- the contract ----------

  /** The contract and the tokens, updated in place. Every method does what Perform says, or nothing. */
  class DepositPaymaster {
    var owner: Address
    var oracles: map<Address, Address>
    var balances: Table
    var unlockBlock: map<Address, uint256>
    var held: Table
    var allowance: Table
    const env: Setting

    function View(): State
      reads this
    {
      State(owner, oracles, balances, unlockBlock, held, allowance)
    }

    ghost predicate Matches(before: State, blockNumber: uint256, a: Action, error: Option<string>)
      reads this
    {
      match Perform(env, before, blockNumber, a)
      case Ok(after) => error == None && View() == after
      case Err(reason) => error == Some(reason) && View() == before
    }

    constructor (env: Setting, sender: Address, blockNumber: uint256, held: Table, allowance: Table)
      requires forall token :: Get(allowance, token, env.paymaster) == 0
      ensures this.env == env && View() == Deployed(sender, blockNumber, held, allowance) && Solvent(env, View())
    {
      this.env := env;
      owner, oracles, balances := sender, map[], map[];
      unlockBlock := map[sender := blockNumber];
      this.held, this.allowance := held, allowance;
      new;
      DeployedSolvent(env, sender, blockNumber, held, allowance);
    }

    /** `safeTransferFrom(from, paymaster, amount)`. */
    method CollectTokens(token: Address, from: Address, amount: uint256) returns (error: Option<string>)
      modifies this`held, this`allowance
      ensures match Collect(env, old(View()), token, from, amount)
              case Ok(after) => error == None && View() == after
              case Err(reason) => error == Some(reason) && View() == old(View())
    {
      hide MoveTokens, Get, Put;
      var allowed := Get(allowance, token, from);
      if allowed < amount {
        return Some("ERC20: insufficient allowance");
      }
      var before := allowance;
      if allowed != TWO_256 - 1 {
        allowance := Put(allowance, token, from, allowed - amount);
      }
      error := Transfer(token, from, env.paymaster, amount);
      if error != None {
        allowance := before;
      }
    }

    method Transfer(token: Address, from: Address, to: Address, amount: uint256) returns (error: Option<string>)
      modifies this`held
      ensures match MoveTokens(old(View()), token, from, to, amount)
              case Ok(after) => error == None && View() == after
              case Err(reason) => error == Some(reason) && View() == old(View())
    {
      if Get(held, token, from) < amount {
        return Some("ERC20: transfer amount exceeds balance");
      }
      var taken := Put(held, token, from, Get(held, token, from) - amount);
      if Get(taken, token, to) + amount >= TWO_256 {
        return Some("ERC20: overflow");
      }
      held := Put(taken, token, to, Get(taken, token, to) + amount);
      return None;
    }

    method AddToken(sender: Address, token: Address, oracle: Address) returns (error: Option<string>)
      modifies this
      ensures forall n :: Matches(old(View()), n, Action.AddToken(sender, token, oracle), error)
    {
      if sender != owner {
        return Some("Ownable: caller is not the owner");
      }
      if token in oracles && oracles[token] != ZERO_ADDRESS {
        return Some("Token already set");
      }
      oracles := oracles[token := oracle];
      return None;
    }

    method AddDepositFor(sender: Address, token: Address, account: Address, amount: uint256)
      returns (error: Option<string>)
      modifies this
      ensures forall n :: Matches(old(View()), n, Action.AddDepositFor(sender, token, account, amount), error)
      ensures sender != env.paymaster && old(Solvent(env, View())) ==> Solvent(env, View())
    {
      hide Collect, Get, Put, Solvent;
      if sender != env.paymaster && Solvent(env, View()) {
        StepSolvent(env, View(), 0, Action.AddDepositFor(sender, token, account, amount));
      }
      var h, al := held, allowance;
      error := CollectTokens(token, sender, amount);
      if error != None {
        return;
      }
      CollectKeepsRest(env, old(View()), token, sender, amount);
      if token !in oracles || oracles[token] == ZERO_ADDRESS {
        held, allowance := h, al;
        return Some("unsupported token");
      }
      if Get(balances, token, account) + amount >= TWO_256 {
        held, allowance := h, al;
        return Some("Panic");
      }
      balances := Put(balances, token, account, Get(balances, token, account) + amount);
      if sender == account {
        LockTokenDeposit(sender);
      }
    }

    method UnlockTokenDeposit(sender: Address, blockNumber: uint256)
      modifies this`unlockBlock
      ensures Matches(old(View()), blockNumber, Action.UnlockTokenDeposit(sender), None)
    {
      unlockBlock := unlockBlock[sender := blockNumber];
    }

    method LockTokenDeposit(sender: Address)
      modifies this`unlockBlock
      ensures unlockBlock == old(unlockBlock)[sender := 0]
      ensures forall n :: Matches(old(View()), n, Action.LockTokenDeposit(sender), None)
    {
      unlockBlock := unlockBlock[sender := 0];
    }

    method WithdrawTokensTo(sender: Address, token: Address, target: Address, amount: uint256, blockNumber: uint256)
      returns (error: Option<string>)
      modifies this
      ensures Matches(old(View()), blockNumber, Action.WithdrawTokensTo(sender, token, target, amount), error)
      ensures sender != env.paymaster && old(Solvent(env, View())) ==> Solvent(env, View())
    {
      hide MoveTokens, Get, Put, Solvent;
      if sender != env.paymaster && Solvent(env, View()) {
        StepSolvent(env, View(), blockNumber, Action.WithdrawTokensTo(sender, token, target, amount));
      }
      if UnlockBlock(View(), sender) == 0 || blockNumber <= UnlockBlock(View(), sender) {
        return Some("DepositPaymaster: must unlockTokenDeposit");
      }
      if Get(balances, token, sender) < amount {
        return Some("Panic");
      }
      var before := balances;
      balances := Put(balances, token, sender, Get(balances, token, sender) - amount);
      error := Transfer(token, env.paymaster, target, amount);
      if error != None {
        balances := before;
      }
    }

    /** The charge for an executed operation: from the account's tokens, or the second time from its deposit. */
    method PostOp(sender: Address, reverted: bool, context: Context, actualGasCost: uint256)
      returns (error: Option<string>)
      modifies this
      ensures forall n :: Matches(old(View()), n, Action.PostOp(sender, reverted, context, actualGasCost), error)
      ensures sender != env.paymaster && old(Solvent(env, View())) ==> Solvent(env, View())
    {
      hide Collect, Get, Put, TokenCost, Solvent;
      if sender != env.paymaster && Solvent(env, View()) {
        StepSolvent(env, View(), 0, Action.PostOp(sender, reverted, context, actualGasCost));
      }
      if sender != env.entryPoint {
        return Some("Sender not EntryPoint");
      }
      var cost := TokenCost(context, actualGasCost);
      if cost == None {
        return Some("Panic");
      }
      var actualTokenCost := cost.value;
      var token, account := context.token, context.account;
      var b, h, al := balances, held, allowance;
      if !reverted {
        error := CollectTokens(token, account, actualTokenCost);
        if error != None {
          return;
        }
      } else {
        if Get(balances, token, account) < actualTokenCost {
          return Some("Panic");
        }
        balances := Put(balances, token, account, Get(balances, token, account) - actualTokenCost);
      }
      if Get(balances, token, owner) + actualTokenCost >= TWO_256 {
        balances, held, allowance := b, h, al;
        return Some("Panic");
      }
      balances := Put(balances, token, owner, Get(balances, token, owner) + actualTokenCost);
      return None;
    }
  }
}
