/**
 * The contract as it runs: storage updated in place, loops over the operations, snapshots where the chain would
 * undo a frame. Every method is proved to do what the function of the same name in Protocol says.
 */
module EntryPoints {
  import opened Evm
  import opened UserOperations
  import opened Validation
  import opened SimpleAccounts
  import opened Ledger
  import opened Protocol
  import Conservation
  import Frames
  import Aggregated

  const EMPTY_INFO := UserOpInfo(MemoryUserOp(0, 0, 0, 0, 0, 0, 0, 0), 0, [], 0)

  /** Infos already filled in, before those of the rest. */
  function Prepend(infos: seq<UserOpInfo>, rest: Outcome<seq<UserOpInfo>>): Outcome<seq<UserOpInfo>> {
    match rest
    case Done(w, more) => Done(w, infos + more)
    case Reverted(m, e) => Reverted(m, e)
  }

  lemma PrependNothing(rest: Outcome<seq<UserOpInfo>>)
    ensures Prepend([], rest) == rest
  {
    if rest.Done? {
      assert [] + rest.value == rest.value;
    }
  }

  /** One more iteration of the first loop. */
  lemma ValidateStep(blk: Block, w: World, batch: nat, index: nat, i: nat, aggregator: Address, ops: seq<OpScript>,
                     infos: seq<UserOpInfo>)
    requires i < |ops|
    ensures var o := ValidateOp(blk, w, batch, index, i, aggregator, ops[i]);
            Prepend(infos, ValidateOps(blk, w, batch, index, i, aggregator, ops[i..]))
            == match o
               case Done(w1, info) =>
                 Prepend(infos + [info], ValidateOps(blk, w1, batch, index + 1, i + 1, aggregator, ops[i + 1..]))
               case Reverted(m, e) => Reverted(m, e)
  {
    hide ValidateOp;
    assert ops[i..][0] == ops[i] && ops[i..][1..] == ops[i + 1..];
    var o := ValidateOp(blk, w, batch, index, i, aggregator, ops[i]);
    if o.Done? {
      var rest := ValidateOps(blk, o.world, batch, index + 1, i + 1, aggregator, ops[i + 1..]);
      if rest.Done? {
        assert infos + ([o.value] + rest.value) == infos + [o.value] + rest.value;
      }
    }
  }

  lemma ValidateEnd(blk: Block, w: World, batch: nat, index: nat, i: nat, aggregator: Address, ops: seq<OpScript>,
                    infos: seq<UserOpInfo>)
    requires i == |ops|
    ensures Prepend(infos, ValidateOps(blk, w, batch, index, i, aggregator, ops[i..])) == Done(w, infos)
  {
    assert infos + [] == infos;
  }

  /** One more iteration of the second loop. */
  lemma ExecuteStep(blk: Block, w: World, batch: nat, index: nat, i: nat, ops: seq<OpScript>, infos: seq<UserOpInfo>,
                    collected: uint256)
    requires i < |ops| == |infos|
    ensures ExecuteOps(blk, w, batch, index, ops[i..], infos[i..], collected)
         == match ExecuteUserOp(blk, w, batch, index, ops[i], infos[i])
            case Done(w1, cost) =>
              ExecuteOps(blk, w1, batch, index + 1, ops[i + 1..], infos[i + 1..], Wrap(collected + cost))
            case Reverted(m, e) => Reverted(m, e)
  {
    hide ExecuteUserOp, Wrap;
    assert ops[i..][0] == ops[i] && ops[i..][1..] == ops[i + 1..];
    assert infos[i..][0] == infos[i] && infos[i..][1..] == infos[i + 1..];
  }

  lemma ExecuteEnd(blk: Block, w: World, batch: nat, index: nat, ops: seq<OpScript>, infos: seq<UserOpInfo>,
                   collected: uint256)
    requires |infos| == |ops|
    ensures ExecuteOps(blk, w, batch, index, ops[|ops|..], infos[|ops|..], collected) == Done(w, collected)
  {
  }

  // ---------- loops over groups ----------

  lemma FlattenNone()
    ensures Flatten([]) == []
  {
  }

  lemma FlattenStep(groups: seq<Group>, a: nat)
    requires a < |groups|
    ensures Flatten(groups[..a + 1]) == Flatten(groups[..a]) + groups[a].ops
    ensures Flatten(groups[a..]) == groups[a].ops + Flatten(groups[a + 1..])
  {
    assert groups[..a + 1] == groups[..a] + [groups[a]];
    Aggregated.FlattenAppend(groups[..a], [groups[a]]);
    assert [groups[a]][1..] == [] && groups[a..][1..] == groups[a + 1..];
    assert groups[a].ops + [] == groups[a].ops;
  }

  lemma FlattenBound(groups: seq<Group>, a: nat)
    requires a <= |groups|
    ensures |Flatten(groups[..a])| <= |Flatten(groups)|
  {
    assert groups == groups[..a] + groups[a..];
    Aggregated.FlattenAppend(groups[..a], groups[a..]);
  }

  lemma CheckStep(st: State, groups: seq<Group>, a: nat)
    requires a < |groups|
    ensures CheckAggregators(st, groups[a..])
         == if groups[a].aggregator == 1 then Some(ErrorString("AA96 invalid aggregator"))
            else if groups[a].aggregator != ZERO_ADDRESS && groups[a].aggregator !in st.code then Some(Raw([]))
            else if groups[a].aggregator != ZERO_ADDRESS && !groups[a].signaturesValid then
              Some(SignatureValidationFailed(groups[a].aggregator))
            else CheckAggregators(st, groups[a + 1..])
  {
    assert groups[a..][0] == groups[a] && groups[a..][1..] == groups[a + 1..];
  }

  lemma CheckEnd(st: State, groups: seq<Group>)
    ensures CheckAggregators(st, groups[|groups|..]) == None
  {
  }

  lemma GroupStep(blk: Block, w: World, batch: nat, index: nat, groups: seq<Group>, a: nat, infos: seq<UserOpInfo>)
    requires a < |groups|
    ensures Prepend(infos, ValidateGroups(blk, w, batch, index, groups[a..]))
         == match ValidateOps(blk, w, batch, index, 0, groups[a].aggregator, groups[a].ops)
            case Done(w1, more) =>
              Prepend(infos + more, ValidateGroups(blk, w1, batch, index + |groups[a].ops|, groups[a + 1..]))
            case Reverted(m, e) => Reverted(m, e)
  {
    hide ValidateOps;
    assert groups[a..][0] == groups[a] && groups[a..][1..] == groups[a + 1..];
    var o := ValidateOps(blk, w, batch, index, 0, groups[a].aggregator, groups[a].ops);
    if o.Done? {
      var rest := ValidateGroups(blk, o.world, batch, index + |groups[a].ops|, groups[a + 1..]);
      if rest.Done? {
        assert infos + (o.value + rest.value) == infos + o.value + rest.value;
      }
    }
  }

  lemma GroupsEnd(blk: Block, w: World, batch: nat, index: nat, groups: seq<Group>, infos: seq<UserOpInfo>)
    ensures Prepend(infos, ValidateGroups(blk, w, batch, index, groups[|groups|..])) == Done(w, infos)
  {
    assert infos + [] == infos;
  }

  lemma ExecuteGroupStep(blk: Block, w: World, batch: nat, index: nat, groups: seq<Group>, a: nat,
                         infos: seq<UserOpInfo>, collected: uint256)
    requires a < |groups| && index + |groups[a].ops| <= |infos| && |infos[index..]| == |Flatten(groups[a..])|
    ensures |infos[index + |groups[a].ops|..]| == |Flatten(groups[a + 1..])|
    ensures ExecuteGroups(blk, w, batch, index, groups[a..], infos[index..], collected)
         == match ExecuteOps(blk, w, batch, index, groups[a].ops, infos[index..index + |groups[a].ops|], collected)
            case Done(w1, c) =>
              ExecuteGroups(blk, w1, batch, index + |groups[a].ops|, groups[a + 1..], infos[index + |groups[a].ops|..],
                            c)
            case Reverted(m, e) => Reverted(m, e)
  {
    hide ExecuteOps;
    FlattenStep(groups, a);
    var n := |groups[a].ops|;
    assert groups[a..][0] == groups[a] && groups[a..][1..] == groups[a + 1..];
    assert infos[index..][..n] == infos[index..index + n] && infos[index..][n..] == infos[index + n..];
  }

  lemma ExecuteGroupsEnd(blk: Block, w: World, batch: nat, index: nat, groups: seq<Group>, infos: seq<UserOpInfo>,
                         collected: uint256)
    requires index <= |infos| && |infos[index..]| == |Flatten(groups[|groups|..])|
    ensures ExecuteGroups(blk, w, batch, index, groups[|groups|..], infos[index..], collected) == Done(w, collected)
  {
  }

  // ---------- the contract ----------

  class EntryPoint {
    var deposits: map<Address, DepositInfo>
    var balance: uint256
    var code: map<Address, Code>
    var gas: Gas
    ghost var escrow: int
    ghost var stack: seq<Scope>
    ghost var log: seq<Event>
    ghost var history: seq<Trace>
    ghost var nextBatch: nat

    ghost function View(): World
      reads this
    {
      World(State(deposits, balance, escrow, code, stack, log), Meter(gas, history, nextBatch))
    }

    /** A successful result comes with the new world; a revert keeps only the meter. */
    ghost predicate Matches<T>(o: Outcome<T>, r: Result<T, Error>)
      reads this
    {
      match o
      case Done(w, x) => r == Ok(x) && View() == w
      case Reverted(m, e) => r == Err(e) && View().m == m
    }

    ghost predicate MatchesUnit(o: Outcome<()>, error: Option<Error>)
      reads this
    {
      match o
      case Done(w, _) => error == None && View() == w
      case Reverted(m, e) => error == Some(e) && View().m == m
    }

    /** Between two transactions: a state the ledger can produce, with nothing in escrow and no scope open. */
    ghost predicate Valid()
      reads this
    {
      Frames.Sound(View().st) && escrow == 0 && stack == []
    }

    constructor ()
      ensures View() == START && Valid()
    {
      deposits, balance, code, gas := map[], 0, map[], TWO_64 - 1;
      escrow, stack, log, history, nextBatch := 0, [], [], [], 0;
    }

    /** A transaction, with any tree of calls: afterwards the balance is again all deposits and stakes. */
    method Transact(t: Transaction)
      requires Valid()
      modifies this
      ensures View() == RunTransaction(old(View()), t)
      ensures Valid() && balance == Conservation.Total(deposits)
    {
      hide RunAction, Ledger.Genuine;
      gas := t.gas;
      ghost var w := View();
      Frames.FrameAction(t.blk, w, t.action, -1);
      Call(t.blk, t.action);
      Conservation.GenuineConserved(View().st);
    }

    function Record(account: Address): DepositInfo
      reads this
    {
      if account in deposits then deposits[account] else NO_DEPOSIT
    }

    method UseGas(amount: nat)
      modifies this`gas
      ensures View() == Burn(old(View()), amount)
    {
      gas := gas - Min(amount, gas);
    }

    // ---------- StakeManager ----------

    method IncrementDeposit(account: Address, amount: uint256) returns (error: Option<Error>)
      modifies this`deposits
      ensures error == IncrementDepositError(old(View()).st, account, amount)
      ensures error != None ==> deposits == old(deposits)
      ensures error == None ==>
                deposits == old(deposits)[account :=
                                          old(Record(account)).(deposit := old(Record(account)).deposit + amount)]
    {
      var info := Record(account);
      var newAmount := info.deposit + amount;
      if newAmount >= TWO_112 {
        return Some(ErrorString("deposit overflow"));
      }
      deposits := deposits[account := info.(deposit := ToUint112(newAmount))];
      return None;
    }

    method DepositTo(account: Address, value: uint256) returns (error: Option<Error>)
      modifies this
      ensures MatchesUnit(PerformDepositTo(old(View()), account, value), error)
      ensures error != None ==> View() == old(View())
    {
      if balance + value >= TWO_256 {
        return Some(Raw([]));
      }
      error := IncrementDeposit(account, value);
      if error == None {
        balance := balance + value;
        log := log + [Deposited(account, value)];
      }
    }

    method AddStake(sender: Address, delay: uint32, value: uint256) returns (error: Option<Error>)
      modifies this
      ensures MatchesUnit(PerformAddStake(old(View()), sender, delay, value), error)
    {
      var info := Record(sender);
      if balance + value >= TWO_256 {
        return Some(Raw([]));
      }
      if delay == 0 {
        return Some(ErrorString("must specify unstake delay"));
      }
      if delay < info.unstakeDelaySec {
        return Some(ErrorString("cannot decrease unstake time"));
      }
      var stake := info.stake + value;
      if stake == 0 {
        return Some(ErrorString("no stake specified"));
      }
      if stake >= TWO_112 {
        return Some(ErrorString("stake overflow"));
      }
      balance := balance + value;
      deposits := deposits[sender := DepositInfo(info.deposit, true, ToUint112(stake), delay, 0)];
      log := log + [StakeAdded(sender, delay, value)];
      return None;
    }

    method UnlockStake(blk: Block, sender: Address) returns (error: Option<Error>)
      modifies this
      ensures MatchesUnit(PerformUnlockStake(blk, old(View()), sender), error)
    {
      var info := Record(sender);
      if info.unstakeDelaySec == 0 {
        return Some(ErrorString("not staked"));
      }
      if !info.staked {
        return Some(ErrorString("already unstaking"));
      }
      var withdrawTime := ToUint48(blk.timestamp) + info.unstakeDelaySec;
      if withdrawTime >= TWO_48 {
        return Some(Panic);
      }
      deposits := deposits[sender := info.(withdrawTime := withdrawTime, staked := false)];
      log := log + [StakeUnlocked(sender, blk.timestamp)];
      return None;
    }

    method ReplyTo(blk: Block, r: Reply) returns (ok: bool)
      modifies this
      ensures (View(), ok) == RunReply(blk, old(View()), r)
      decreases r, 0
    {
      var d, b, c := deposits, balance, code;
      ghost var e, k, l := escrow, stack, log;
      Act(blk, r.actions);
      if !r.ok {
        deposits, balance, code := d, b, c;
        escrow, stack, log := e, k, l;
      }
      ok := r.ok;
    }

    /** A call with a gas limit: it gets at most that, and the gas it used is gone. */
    method ReplyToWithin(blk: Block, limit: nat, r: Reply) returns (ok: bool)
      modifies this
      ensures (View(), ok) == RunReplyWithin(blk, old(View()), limit, r)
      decreases r, 1
    {
      hide RunReply;
      var before := gas;
      var given := Forward(limit);
      ok := ReplyTo(blk, r);
      gas := before - if gas <= given then given - gas else 0;
    }

    method Forward(limit: nat) returns (given: Gas)
      modifies this`gas
      ensures View() == Enter(old(View()), limit) && given == gas
    {
      gas := Min(limit, Forwarded(gas));
      given := gas;
    }

    method ActWithin(blk: Block, limit: nat, actions: seq<Action>)
      modifies this
      ensures View() == RunWithin(blk, old(View()), limit, actions)
      decreases actions, 1
    {
      hide RunActions;
      var before := gas;
      var given := Forward(limit);
      Act(blk, actions);
      gas := before - if gas <= given then given - gas else 0;
    }

    method Act(blk: Block, actions: seq<Action>)
      modifies this
      ensures View() == RunActions(blk, old(View()), actions)
      decreases actions, 0
    {
      history := history + [Observed(View().st)];
      if |actions| > 0 {
        Call(blk, actions[0]);
        Act(blk, actions[1..]);
      }
    }

    /** A call from outside: when it reverts, the chain undoes it. */
    method Call(blk: Block, a: Action)
      modifies this
      ensures View() == RunAction(blk, old(View()), a)
      decreases a, 2
    {
      var d, b, c := deposits, balance, code;
      ghost var e, k, l := escrow, stack, log;
      var error := Dispatch(blk, a);
      if error != None {
        deposits, balance, code := d, b, c;
        escrow, stack, log := e, k, l;
      }
    }

    method Dispatch(blk: Block, a: Action) returns (error: Option<Error>)
      modifies this
      ensures MatchesUnit(Perform(blk, old(View()), a), error)
      decreases a, 1
    {
      hide PerformDepositTo, PerformAddStake, PerformUnlockStake, PerformWithdrawStake, PerformWithdrawTo,
           PerformHandleOps, PerformHandleAggregatedOps, RunReply;
      match a
      case DepositTo(_, account, value) => error := DepositTo(account, value);
      case AddStake(sender, delay, value) => error := AddStake(sender, delay, value);
      case UnlockStake(sender) => error := UnlockStake(blk, sender);
      case WithdrawStake(sender, recipient) => error := WithdrawStake(blk, sender, recipient);
      case WithdrawTo(sender, amount, recipient) => error := WithdrawTo(blk, sender, amount, recipient);
      case HandleOps(ops, beneficiary, payee) => error := HandleOps(blk, ops, beneficiary, payee);
      case HandleAggregatedOps(groups, beneficiary, payee) =>
        error := HandleAggregatedOps(blk, groups, beneficiary, payee);
      case InnerHandleOp => error := Some(ErrorString("AA92 internal call only"));
      case Deploy(address, c) =>
        if address in code || (c.Simple? && c.account.nonce != 0) {
          return Some(Raw([]));
        }
        code := code[address := c];
        log := log + [Deployed(address, c)];
        error := None;
      case Frame(body) =>
        var _ := ReplyTo(blk, body);
        error := None;
      case UseGas(units) =>
        UseGas(units);
        error := None;
    }

    method WithdrawStake(blk: Block, sender: Address, recipient: Reply) returns (error: Option<Error>)
      modifies this
      ensures MatchesUnit(PerformWithdrawStake(blk, old(View()), Action.WithdrawStake(sender, recipient)), error)
      decreases recipient, 2
    {
      var info := Record(sender);
      var stake := info.stake;
      if stake == 0 {
        return Some(ErrorString("No stake to withdraw"));
      }
      if info.withdrawTime == 0 {
        return Some(ErrorString("must call unlockStake() first"));
      }
      if info.withdrawTime > blk.timestamp {
        return Some(ErrorString("Stake withdrawal is not due"));
      }
      if stake > balance {
        return Some(ErrorString("failed to withdraw stake"));
      }
      ghost var e := StakeWithdrawn(sender, stake, blk.timestamp);
      deposits := deposits[sender := info.(unstakeDelaySec := 0, withdrawTime := 0, stake := 0)];
      balance := balance - stake;
      log := log + [e];
      assert View() == Commit(old(View()), e);
      var ok := ReplyTo(blk, recipient);
      return if ok then None else Some(ErrorString("failed to withdraw stake"));
    }

    method WithdrawTo(blk: Block, sender: Address, amount: uint256, recipient: Reply) returns (error: Option<Error>)
      modifies this
      ensures MatchesUnit(PerformWithdrawTo(blk, old(View()), Action.WithdrawTo(sender, amount, recipient)), error)
      decreases recipient, 2
    {
      var info := Record(sender);
      if amount > info.deposit {
        return Some(ErrorString("Withdraw amount too large"));
      }
      if amount > balance {
        return Some(ErrorString("failed to withdraw"));
      }
      ghost var e := Withdrawn(sender, amount);
      deposits := deposits[sender := info.(deposit := ToUint112(info.deposit - amount))];
      balance := balance - amount;
      log := log + [e];
      assert View() == Commit(old(View()), e);
      var ok := ReplyTo(blk, recipient);
      return if ok then None else Some(ErrorString("failed to withdraw"));
    }

    /** The `receive` function, called by an account that ignores the outcome. */
    method Receive(account: Address, value: uint256)
      modifies this
      ensures View() == TryDeposit(old(View()), account, value)
    {
      var _ := DepositTo(account, value);
    }

    // ---------- validation ----------

    method CreateSenderIfNeeded(blk: Block, ghost batch: nat, index: nat, s: OpScript) returns (error: Option<Error>)
      modifies this
      ensures MatchesUnit(Protocol.CreateSenderIfNeeded(blk, old(View()), batch, index, s), error)
      decreases s, 1
    {
      var sender := s.op.sender;
      if |s.op.initCode| == 0 {
        return None;
      }
      if sender in code {
        return Some(FailedOp(index, "AA10 sender already constructed"));
      }
      if |s.op.initCode| < 20 {
        return Some(Raw([]));
      }
      ghost var e := CreationStarted(batch, index, s.op);
      stack := NewStack(stack, e);
      log := log + [e];
      assert View() == Commit(old(View()), e);
      var ok := ReplyToWithin(blk, s.op.verificationGasLimit, s.factory.reply);
      var sender1 := if ok then s.factory.returned else ZERO_ADDRESS;
      if sender1 == ZERO_ADDRESS {
        return Some(FailedOp(index, "AA13 initCode failed or OOG"));
      }
      if sender1 != sender {
        return Some(FailedOp(index, "AA14 initCode must return sender"));
      }
      if sender1 !in code {
        return Some(FailedOp(index, "AA15 initCode must create sender"));
      }
      return None;
    }

    /** A SimpleAccount runs its `validateUserOp`, and pays what is missing if it can. */
    method RunValidateUserOp(sender: Address, nonce: uint256, creating: bool, signer: Option<Address>, missing: uint256,
                             pays: bool, ghost e: Event)
      returns (r: Result<uint256, Option<string>>)
      requires sender in code && code[sender].Simple?
      requires AccountOf(e) == None && BalanceDelta(e) == 0 && EscrowDelta(e) == 0
      requires NewCode(code, e) == if creating then code else BumpNonce(code, sender)
      modifies this
      ensures match ValidateUserOp(old(code[sender].account), nonce, creating, signer)
              case Err(reason) => r == Err(reason) && View() == old(View())
              case Ok(pair) =>
                r == Ok(pair.1)
                && View() == if missing != 0 && pays then TryDeposit(Commit(old(View()), e), sender, missing)
                   else Commit(old(View()), e)
    {
      hide TryDeposit;
      var validated := ValidateUserOp(code[sender].account, nonce, creating, signer);
      if validated.Err? {
        return Err(validated.error);
      }
      code := code[sender := Simple(validated.value.0)];
      stack := NewStack(stack, e);
      log := log + [e];
      assert code == NewCode(old(code), e);
      assert View() == Commit(old(View()), e);
      if missing != 0 && pays {
        Receive(sender, missing);
      }
      return Ok(validated.value.1);
    }

    method CallValidateUserOp(blk: Block, ghost batch: nat, index: nat, s: OpScript, missing: uint256)
      returns (r: Result<uint256, Error>)
      modifies this
      ensures Matches(Protocol.CallValidateUserOp(blk, old(View()), batch, index, s, missing), r)
      decreases s, 1
    {
      hide Commit, TryDeposit, RunWithin;
      var sender := s.op.sender;
      if sender !in code {
        return Err(Raw([]));
      }
      if code[sender].Simple? {
        ghost var answer := ValidateUserOp(code[sender].account, s.op.nonce, IsCreating(s.op), s.signer);
        ghost var e := AccountValidated(batch, index, s.op, s.signer, if answer.Ok? then answer.value.1 else 0);
        var validated := RunValidateUserOp(sender, s.op.nonce, IsCreating(s.op), s.signer, missing, s.pays, e);
        if validated.Err? {
          return Err(CaughtAs(index, "AA23", if validated.error.Some? then ErrorString(validated.error.value)
                              else Raw([])));
        }
        return Ok(validated.value);
      }
      ActWithin(blk, s.op.verificationGasLimit, s.account.actions);
      if s.account.result.Err? {
        return Err(CaughtAs(index, "AA23", s.account.result.error));
      }
      var word := s.account.result.value;
      LogValidation(sender, IsCreating(s.op), AccountValidated(batch, index, s.op, s.signer, word));
      return Ok(word);
    }

    method LogValidation(sender: Address, creating: bool, ghost e: Event)
      requires AccountOf(e) == None && BalanceDelta(e) == 0 && EscrowDelta(e) == 0
      requires NewCode(code, e) == if creating then code else BumpNonce(code, sender)
      modifies this
      ensures View() == Commit(old(View()), e)
    {
      hide NewStack, BumpNonce;
      if !creating {
        code := BumpNonce(code, sender); // no change: other code stays other code
      }
      stack := NewStack(stack, e);
      log := log + [e];
    }

    method ValidateAccountPrepayment(blk: Block, ghost batch: nat, index: nat, s: OpScript, mop: MemoryUserOp,
                                     required: uint256)
      returns (r: Result<(int, uint256), Error>)
      modifies this
      ensures Matches(Protocol.ValidateAccountPrepayment(blk, old(View()), batch, index, s, mop, required), r)
      decreases s, 2
    {
      hide Protocol.CreateSenderIfNeeded, Protocol.CallValidateUserOp;
      var preGas := gas;
      var sender := mop.sender;
      var error := CreateSenderIfNeeded(blk, batch, index, s);
      if error != None {
        return Err(error.value);
      }
      var missing: uint256 := 0;
      if mop.paymaster == ZERO_ADDRESS {
        var bal := Record(sender).deposit;
        missing := if bal > required then 0 else required - bal;
      }
      var validated := CallValidateUserOp(blk, batch, index, s, missing);
      if validated.Err? {
        return Err(validated.error);
      }
      if mop.paymaster == ZERO_ADDRESS {
        var info := Record(sender);
        if required > info.deposit {
          return Err(FailedOp(index, "AA21 didn't pay prefund"));
        }
        TakePrefund(batch, index, sender, required);
      }
      UseGas(s.gas.account);
      return Ok((preGas - gas, validated.value));
    }

    method TakePrefund(ghost batch: nat, ghost index: nat, payer: Address, required: uint256)
      requires required <= Record(payer).deposit
      modifies this
      ensures View() == Commit(old(View()), PrefundTaken(batch, index, payer, required))
    {
      var info := Record(payer);
      deposits := deposits[payer := info.(deposit := ToUint112(info.deposit - required))];
      escrow := escrow + required;
      log := log + [PrefundTaken(batch, index, payer, required)];
    }

    method ValidatePaymasterPrepayment(blk: Block, ghost batch: nat, index: nat, s: OpScript, mop: MemoryUserOp,
                                       required: uint256, gasUsed: int)
      returns (r: Result<Approval, Error>)
      modifies this
      ensures Matches(Protocol.ValidatePaymasterPrepayment(blk, old(View()), batch, index, s, mop, required, gasUsed),
                      r)
      decreases s, 2
    {
      if mop.paymaster == ZERO_ADDRESS {
        return Ok(NO_PAYMASTER);
      }
      if mop.verificationGasLimit <= gasUsed {
        return Err(ErrorString("AA41 too little verificationGas"));
      }
      if Record(mop.paymaster).deposit < required {
        return Err(FailedOp(index, "AA31 paymaster deposit too low"));
      }
      if mop.paymaster !in code {
        return Err(Raw([]));
      }
      TakePrefund(batch, index, mop.paymaster, required);
      ActWithin(blk, mop.verificationGasLimit - gasUsed, s.paymaster.actions);
      if s.paymaster.result.Err? {
        return Err(CaughtAs(index, "AA33", s.paymaster.result.error));
      }
      history := history + [Approved(batch, index, s.op)];
      UseGas(s.gas.paymaster);
      return Ok(s.paymaster.result.value);
    }

    method ValidatePrepayment(blk: Block, ghost batch: nat, index: nat, s: OpScript)
      returns (r: Result<Prepayment, Error>)
      modifies this
      ensures Matches(Protocol.ValidatePrepayment(blk, old(View()), batch, index, s), r)
      decreases s, 3
    {
      hide Protocol.ValidateAccountPrepayment, Protocol.ValidatePaymasterPrepayment, RequiredPrefund, GasValues, Wrap;
      var preGas := gas;
      var copied := CopyUserOpToMemory(s.op);
      if copied.Err? {
        return Err(ErrorString(copied.error));
      }
      var mop := copied.value;
      if GasValues(s.op) >= TWO_120 {
        return Err(ErrorString("AA94 gas values overflow"));
      }
      var required := RequiredPrefund(mop);
      UseGas(s.gas.entry);
      var byAccount := ValidateAccountPrepayment(blk, batch, index, s, mop, required);
      if byAccount.Err? {
        return Err(byAccount.error);
      }
      var (gasUsed, word) := byAccount.value;
      var byPaymaster := ValidatePaymasterPrepayment(blk, batch, index, s, mop, required, gasUsed);
      if byPaymaster.Err? {
        return Err(byPaymaster.error);
      }
      UseGas(s.gas.tail);
      if mop.verificationGasLimit < preGas - gas {
        return Err(FailedOp(index, "AA40 over verificationGasLimit"));
      }
      UseGas(s.gas.seal);
      var preOpGas := Wrap(preGas - gas + mop.preVerificationGas);
      return Ok(Prepayment(UserOpInfo(mop, required, byPaymaster.value.context, preOpGas), word,
                           byPaymaster.value.word));
    }

    /** Validate one operation and check what its account and paymaster returned. */
    method ValidateOp(blk: Block, ghost batch: nat, index: nat, reported: nat, aggregator: Address, s: OpScript)
      returns (r: Result<UserOpInfo, Error>)
      modifies this
      ensures Matches(Protocol.ValidateOp(blk, old(View()), batch, index, reported, aggregator, s), r)
      decreases s, 4
    {
      hide Protocol.ValidatePrepayment, CheckValidationData;
      var validated := ValidatePrepayment(blk, batch, index, s);
      if validated.Err? {
        return Err(validated.error);
      }
      var (info, word, pmWord) := (validated.value.info, validated.value.word, validated.value.pmWord);
      var reason := CheckValidationData(blk.timestamp, word, pmWord, aggregator);
      if reason.Some? {
        return Err(FailedOp(reported, reason.value));
      }
      log := log + [Accepted(batch, index, s.op, word, aggregator)];
      history := history + [Validated(batch, index, s.op)];
      return Ok(info);
    }

    // ---------- execution ----------

    method CallAccount(blk: Block, s: OpScript) returns (ok: bool)
      modifies this
      ensures (View(), ok) == Protocol.CallAccount(blk, old(View()), s)
      decreases s, 1
    {
      var sender := s.op.sender;
      if sender !in code || !code[sender].Simple? || !SelectsValidateUserOp(s.op.callData) {
        ok := ReplyToWithin(blk, s.op.callGasLimit, s.exec.reply);
        return;
      }
      if s.exec.selfCall == None {
        return false;
      }
      hide TryDeposit;
      var c := s.exec.selfCall.value;
      var validated := RunValidateUserOp(sender, c.nonce, c.creating, c.signer, c.missing, c.pays,
                                         Revalidated(s.op, c.nonce, c.creating));
      return validated.Ok?;
    }

    method CallPostOp(blk: Block, ghost batch: nat, ghost index: nat, reported: nat, mode: PostOpMode, info: UserOpInfo,
                      actualGas: uint256, post: PostReply)
      returns (error: Option<Error>)
      modifies this
      ensures MatchesUnit(Protocol.CallPostOp(blk, old(View()), batch, index, reported, mode, info, actualGas, post),
                          error)
      decreases post, 0
    {
      hide RunWithin, PostOpCost;
      if info.mUserOp.paymaster == ZERO_ADDRESS || |info.context| == 0 {
        return None;
      }
      ghost var actualGasCost := PostOpCost(blk, info, actualGas);
      history := history + [PostOpCalled(batch, index, info.mUserOp.paymaster, mode, actualGasCost)];
      ActWithin(blk, info.mUserOp.verificationGasLimit, post.actions);
      if post.error == None {
        return None;
      }
      var e := post.error.value;
      if mode != PostOpReverted {
        return Some(e);
      }
      return Some(FailedOp(reported, if e.ErrorString? then "AA50 postOp reverted: " + e.reason
                                     else "AA50 postOp revert"));
    }

    method HandlePostOp(blk: Block, ghost batch: nat, ghost index: nat, reported: nat, mode: PostOpMode,
                        info: UserOpInfo, actualGas: uint256, post: PostReply, use: nat)
      returns (r: Result<uint256, Error>)
      modifies this
      ensures Matches(Protocol.HandlePostOp(blk, old(View()), batch, index, reported, mode, info, actualGas, post, use),
                      r)
      decreases post, 1
    {
      hide Protocol.CallPostOp, UserOpGasPrice, Wrap;
      var preGas := gas;
      var gasPrice := UserOpGasPrice(info.mUserOp, blk.basefee);
      var failed := CallPostOp(blk, batch, index, reported, mode, info, actualGas, post);
      if failed != None {
        return Err(failed.value);
      }
      UseGas(use);
      var actualGasCost := Wrap(Wrap(actualGas + (preGas - gas)) * gasPrice);
      if info.prefund < actualGasCost {
        return Err(FailedOp(reported, "AA51 prefund below actualGasCost"));
      }
      var error := Settle(batch, index, info, actualGasCost, mode);
      if error != None {
        return Err(error.value);
      }
      return Ok(actualGasCost);
    }

    method Settle(ghost batch: nat, ghost index: nat, info: UserOpInfo, actualGasCost: uint256, ghost mode: PostOpMode)
      returns (error: Option<Error>)
      requires actualGasCost <= info.prefund
      modifies this
      ensures error == IncrementDepositError(old(View()).st, Payer(info.mUserOp), info.prefund - actualGasCost)
      ensures error == None ==> View() == Commit(old(View()), SettlementOf(batch, index, info, actualGasCost, mode))
      ensures error != None ==> View() == old(View())
    {
      var refundAddress, refund := Payer(info.mUserOp), info.prefund - actualGasCost;
      error := IncrementDeposit(refundAddress, refund);
      if error == None {
        escrow := escrow - refund;
        log := log + [SettlementOf(batch, index, info, actualGasCost, mode)];
      }
    }

    method InnerHandleOp(blk: Block, ghost batch: nat, ghost index: nat, s: OpScript, info: UserOpInfo)
      returns (r: Result<uint256, Error>)
      modifies this
      ensures Matches(HandleInner(blk, old(View()), batch, index, s, info), r)
      decreases s, 2
    {
      hide Protocol.CallAccount, Protocol.HandlePostOp, Wrap;
      var preGas := gas;
      if Forwarded(gas) < Wrap(Wrap(info.mUserOp.callGasLimit + info.mUserOp.verificationGasLimit) + GAS_MARGIN) {
        return Err(Raw(Word(INNER_OUT_OF_GAS)));
      }
      var mode := OpSucceeded;
      if |s.op.callData| > 0 {
        history := history + [Called(batch, index, s.op.sender, s.op.callData)];
        var success := CallAccount(blk, s);
        if !success {
          mode := OpReverted;
        }
      }
      var used := preGas - gas + s.gas.inner;
      UseGas(s.gas.inner);
      if used > Forwarded(preGas) {
        return Err(Raw([]));
      }
      var actualGas := Wrap(preGas - gas + info.preOpGas);
      r := HandlePostOp(blk, batch, index, 0, mode, info, actualGas, s.post, s.gas.post);
    }

    /** Run the self-call; when it fails, undo it and settle the operation outside. */
    method ExecuteUserOp(blk: Block, ghost batch: nat, index: nat, s: OpScript, info: UserOpInfo)
      returns (r: Result<uint256, Error>)
      modifies this
      ensures Matches(Protocol.ExecuteUserOp(blk, old(View()), batch, index, s, info), r)
      decreases s, 3
    {
      hide HandleInner, Protocol.HandlePostOp, InnerRevertCode, Wrap;
      var preGas := gas;
      UseGas(s.gas.call);
      var d, b, c := deposits, balance, code;
      ghost var e, k, l := escrow, stack, log;
      r := InnerHandleOp(blk, batch, index, s, info);
      if r.Ok? {
        return;
      }
      match InnerRevertCode(r.error)
      case TooShort => return Err(Raw([]));
      case OutOfGasMarker => return Err(FailedOp(index, "AA95 out of gas"));
      case AnythingElse =>
        deposits, balance, code := d, b, c;
        escrow, stack, log := e, k, l;
        UseGas(s.gas.outer);
        var actualGas := Wrap(preGas - gas + info.preOpGas);
        r := HandlePostOp(blk, batch, index, index, PostOpReverted, info, actualGas, s.postAgain, s.gas.postAgain);
    }

    method Compensate(blk: Block, ghost batch: nat, beneficiary: Address, amount: uint256, payee: Reply)
      returns (error: Option<Error>)
      modifies this
      ensures MatchesUnit(Protocol.Compensate(blk, old(View()), batch, beneficiary, amount, payee), error)
      decreases payee, 2
    {
      hide Commit, RunReply;
      if beneficiary == ZERO_ADDRESS {
        return Some(ErrorString("AA90 invalid beneficiary"));
      }
      if amount > balance {
        return Some(ErrorString("AA91 failed send to beneficiary"));
      }
      Pay(batch, beneficiary, amount);
      var ok := ReplyTo(blk, payee);
      return if ok then None else Some(ErrorString("AA91 failed send to beneficiary"));
    }

    method Pay(ghost batch: nat, ghost beneficiary: Address, amount: uint256)
      requires amount <= balance
      modifies this
      ensures View() == Commit(old(View()), Paid(batch, beneficiary, amount))
    {
      balance := balance - amount;
      escrow := escrow - amount;
      stack := Pop(stack);
      log := log + [Paid(batch, beneficiary, amount)];
    }

    ghost method StartBatch() returns (batch: nat)
      modifies this`nextBatch, this`stack, this`log
      ensures batch == old(nextBatch) && View() == OpenBatch(old(View()))
    {
      batch := nextBatch;
      nextBatch := nextBatch + 1;
      stack := stack + [Handling(batch)];
      log := log + [HandlingStarted(batch)];
    }

    method HandleOps(blk: Block, ops: seq<OpScript>, beneficiary: Address, payee: Reply) returns (error: Option<Error>)
      modifies this
      ensures MatchesUnit(PerformHandleOps(blk, old(View()), Action.HandleOps(ops, beneficiary, payee)), error)
      decreases Action.HandleOps(ops, beneficiary, payee), 0
    {
      hide Protocol.ValidateOp, ValidateOps, ExecuteOps, Protocol.ExecuteUserOp, Protocol.Compensate, Prepend, Wrap;
      ghost var batch := StartBatch();
      ghost var w0 := View();
      var opInfos := new UserOpInfo[|ops|](_ => EMPTY_INFO);
      PrependNothing(ValidateOps(blk, w0, batch, 0, 0, ZERO_ADDRESS, ops));
      assert opInfos[..0] == [] && ops[0..] == ops;
      for i := 0 to |ops|
        invariant fresh(opInfos)
        invariant ValidateOps(blk, w0, batch, 0, 0, ZERO_ADDRESS, ops)
               == Prepend(opInfos[..i], ValidateOps(blk, View(), batch, i, i, ZERO_ADDRESS, ops[i..]))
      {
        ValidateStep(blk, View(), batch, i, i, ZERO_ADDRESS, ops, opInfos[..i]);
        var validated := ValidateOp(blk, batch, i, i, ZERO_ADDRESS, ops[i]);
        if validated.Err? {
          return Some(validated.error);
        }
        ghost var filled := opInfos[..i];
        opInfos[i] := validated.value;
        assert opInfos[..i + 1] == filled + [validated.value];
      }
      ghost var w1, infos := View(), opInfos[..];
      ValidateEnd(blk, w1, batch, |ops|, |ops|, ZERO_ADDRESS, ops, infos);
      assert opInfos[..|ops|] == infos && infos[0..] == infos;
      var collected: uint256 := 0;
      for i := 0 to |ops|
        invariant opInfos[..] == infos
        invariant ExecuteOps(blk, w1, batch, 0, ops, infos, 0)
                  == ExecuteOps(blk, View(), batch, i, ops[i..], infos[i..], collected)
      {
        ExecuteStep(blk, View(), batch, i, i, ops, infos, collected);
        var executed := ExecuteUserOp(blk, batch, i, ops[i], opInfos[i]);
        if executed.Err? {
          return Some(executed.error);
        }
        collected := Wrap(collected + executed.value);
      }
      ExecuteEnd(blk, View(), batch, |ops|, ops, infos, collected);
      error := Compensate(blk, batch, beneficiary, collected, payee);
    }

    // ---------- aggregated operations ----------

    /** The first inner loop: the operations of one group, the first of which has index `opIndex`. */
    method ValidateGroup(blk: Block, ghost batch: nat, opIndex: nat, g: Group, opInfos: array<UserOpInfo>)
      returns (error: Option<Error>)
      requires opIndex + |g.ops| <= opInfos.Length
      modifies this, opInfos
      ensures match ValidateOps(blk, old(View()), batch, opIndex, 0, g.aggregator, g.ops)
              case Done(w, infos) =>
                error == None && View() == w
                && opInfos[..] == old(opInfos[..opIndex]) + infos + old(opInfos[opIndex + |g.ops|..])
              case Reverted(m, e) => error == Some(e) && View().m == m
      decreases g, 0
    {
      hide Protocol.ValidateOp, ValidateOps, Prepend;
      ghost var w0, before := View(), opInfos[..];
      var ops := g.ops;
      PrependNothing(ValidateOps(blk, w0, batch, opIndex, 0, g.aggregator, ops));
      assert opInfos[opIndex..opIndex] == [] && ops[0..] == ops;
      for i := 0 to |ops|
        invariant opInfos[..opIndex] == before[..opIndex] && opInfos[opIndex + i..] == before[opIndex + i..]
        invariant ValidateOps(blk, w0, batch, opIndex, 0, g.aggregator, ops)
               == Prepend(opInfos[opIndex..opIndex + i],
                          ValidateOps(blk, View(), batch, opIndex + i, i, g.aggregator, ops[i..]))
      {
        ValidateStep(blk, View(), batch, opIndex + i, i, g.aggregator, ops, opInfos[opIndex..opIndex + i]);
        var validated := ValidateOp(blk, batch, opIndex + i, i, g.aggregator, ops[i]);
        if validated.Err? {
          return Some(validated.error);
        }
        ghost var filled, rest := opInfos[opIndex..opIndex + i], opInfos[opIndex + i..];
        opInfos[opIndex + i] := validated.value;
        assert opInfos[opIndex..opIndex + (i + 1)] == filled + [validated.value];
        assert opInfos[opIndex + (i + 1)..] == rest[1..];
      }
      ValidateEnd(blk, View(), batch, opIndex + |ops|, |ops|, g.aggregator, ops, opInfos[opIndex..opIndex + |ops|]);
      assert opInfos[..] == opInfos[..opIndex] + opInfos[opIndex..opIndex + |ops|] + opInfos[opIndex + |ops|..];
      return None;
    }

    /** The second inner loop. */
    method ExecuteGroup(blk: Block, ghost batch: nat, opIndex: nat, g: Group, opInfos: array<UserOpInfo>,
                        before: uint256)
      returns (r: Result<uint256, Error>)
      requires opIndex + |g.ops| <= opInfos.Length
      modifies this
      ensures Matches(ExecuteOps(blk, old(View()), batch, opIndex, g.ops, opInfos[opIndex..opIndex + |g.ops|], before),
                      r)
      decreases g, 0
    {
      hide ExecuteOps, Protocol.ExecuteUserOp, Wrap;
      ghost var w0, infos := View(), opInfos[opIndex..opIndex + |g.ops|];
      var ops := g.ops;
      var collected: uint256 := before;
      assert ops[0..] == ops && infos[0..] == infos;
      for i := 0 to |ops|
        invariant ExecuteOps(blk, w0, batch, opIndex, ops, infos, before)
               == ExecuteOps(blk, View(), batch, opIndex + i, ops[i..], infos[i..], collected)
      {
        ExecuteStep(blk, View(), batch, opIndex + i, i, ops, infos, collected);
        var executed := ExecuteUserOp(blk, batch, opIndex + i, ops[i], opInfos[opIndex + i]);
        if executed.Err? {
          return Err(executed.error);
        }
        collected := Wrap(collected + executed.value);
      }
      ExecuteEnd(blk, View(), batch, opIndex + |ops|, ops, infos, collected);
      return Ok(collected);
    }

    /** Ask the aggregators, and count the operations. */
    method CheckSignatures(groups: seq<Group>) returns (r: Result<nat, Error>)
      ensures match CheckAggregators(View().st, groups)
              case None => r == Ok(|Flatten(groups)|)
              case Some(e) => r == Err(e)
    {
      hide CheckAggregators, Flatten;
      var totalOps := 0;
      assert groups[0..] == groups && groups[..0] == [];
      FlattenNone();
      for a := 0 to |groups|
        invariant CheckAggregators(View().st, groups) == CheckAggregators(View().st, groups[a..])
        invariant totalOps == |Flatten(groups[..a])|
      {
        var opa := groups[a];
        CheckStep(View().st, groups, a);
        if opa.aggregator == 1 {
          return Err(ErrorString("AA96 invalid aggregator"));
        }
        if opa.aggregator != ZERO_ADDRESS {
          if opa.aggregator !in code {
            return Err(Raw([]));
          }
          if !opa.signaturesValid {
            return Err(SignatureValidationFailed(opa.aggregator));
          }
        }
        FlattenStep(groups, a);
        totalOps := totalOps + |opa.ops|;
      }
      CheckEnd(View().st, groups);
      assert groups[..|groups|] == groups;
      return Ok(totalOps);
    }

    /** The second loop over the groups: fill in the infos. */
    method ValidateAll(blk: Block, ghost batch: nat, groups: seq<Group>, opInfos: array<UserOpInfo>)
      returns (error: Option<Error>)
      requires opInfos.Length == |Flatten(groups)|
      modifies this, opInfos
      ensures match ValidateGroups(blk, old(View()), batch, 0, groups)
              case Done(w, infos) => error == None && View() == w && opInfos[..] == infos
              case Reverted(m, e) => error == Some(e) && View().m == m
      decreases groups, 1
    {
      hide ValidateGroups, ValidateOps, Prepend, Flatten;
      ghost var w0 := View();
      var opIndex := 0;
      assert groups[0..] == groups && groups[..0] == [] && groups[..|groups|] == groups && opInfos[..0] == [];
      FlattenNone();
      PrependNothing(ValidateGroups(blk, w0, batch, 0, groups));
      for a := 0 to |groups|
        invariant opIndex == |Flatten(groups[..a])| <= opInfos.Length
        invariant ValidateGroups(blk, w0, batch, 0, groups)
               == Prepend(opInfos[..opIndex], ValidateGroups(blk, View(), batch, opIndex, groups[a..]))
      {
        FlattenStep(groups, a);
        FlattenBound(groups, a + 1);
        GroupStep(blk, View(), batch, opIndex, groups, a, opInfos[..opIndex]);
        ghost var filled := opInfos[..opIndex];
        var failed := ValidateGroup(blk, batch, opIndex, groups[a], opInfos);
        if failed != None {
          return failed;
        }
        opIndex := opIndex + |groups[a].ops|;
        assert opInfos[..opIndex] == filled + opInfos[|filled|..opIndex];
      }
      GroupsEnd(blk, View(), batch, opIndex, groups, opInfos[..]);
      assert opInfos[..opIndex] == opInfos[..];
      return None;
    }

    /** The third loop over the groups: execute, and add up the fees. */
    method ExecuteAll(blk: Block, ghost batch: nat, groups: seq<Group>, opInfos: array<UserOpInfo>)
      returns (r: Result<uint256, Error>)
      requires opInfos.Length == |Flatten(groups)|
      modifies this
      ensures Matches(ExecuteGroups(blk, old(View()), batch, 0, groups, opInfos[..], 0), r)
      decreases groups, 1
    {
      hide ExecuteGroups, ExecuteOps, Flatten;
      ghost var w1, infos := View(), opInfos[..];
      var collected: uint256 := 0;
      var opIndex := 0;
      assert groups[0..] == groups && groups[..0] == [] && infos[0..] == infos;
      FlattenNone();
      for a := 0 to |groups|
        invariant opIndex == |Flatten(groups[..a])| <= |infos| && |infos[opIndex..]| == |Flatten(groups[a..])|
        invariant ExecuteGroups(blk, w1, batch, 0, groups, infos, 0)
               == ExecuteGroups(blk, View(), batch, opIndex, groups[a..], infos[opIndex..], collected)
      {
        FlattenStep(groups, a);
        FlattenBound(groups, a + 1);
        ExecuteGroupStep(blk, View(), batch, opIndex, groups, a, infos, collected);
        var executed := ExecuteGroup(blk, batch, opIndex, groups[a], opInfos, collected);
        if executed.Err? {
          return Err(executed.error);
        }
        collected := executed.value;
        opIndex := opIndex + |groups[a].ops|;
      }
      ExecuteGroupsEnd(blk, View(), batch, opIndex, groups, infos, collected);
      return Ok(collected);
    }

    method HandleAggregatedOps(blk: Block, groups: seq<Group>, beneficiary: Address, payee: Reply)
      returns (error: Option<Error>)
      modifies this
      ensures MatchesUnit(PerformHandleAggregatedOps(blk, old(View()),
                                                     Action.HandleAggregatedOps(groups, beneficiary, payee)), error)
      decreases Action.HandleAggregatedOps(groups, beneficiary, payee), 0
    {
      hide ValidateGroups, ExecuteGroups, Protocol.Compensate, CheckAggregators, Flatten;
      var checked := CheckSignatures(groups);
      if checked.Err? {
        return Some(checked.error);
      }
      ghost var batch := StartBatch();
      var opInfos := new UserOpInfo[checked.value](_ => EMPTY_INFO);
      var failed := ValidateAll(blk, batch, groups, opInfos);
      if failed != None {
        return failed;
      }
      var executed := ExecuteAll(blk, batch, groups, opInfos);
      if executed.Err? {
        return Some(executed.error);
      }
      error := Compensate(blk, batch, beneficiary, executed.value, payee);
    }
  }
}
