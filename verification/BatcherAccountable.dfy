/** The dispute ledger of BatcherAccountable, as written (BatcherAccountable.sol). */
module Batcher {
  import opened Evm

  const ETHER: nat := 1_000_000_000_000_000_000
  const BOND: nat := 500_000_000_000_000_000
  const DAY: nat := 86400

  datatype Dispute = Dispute(nonceId: uint256, txData: bytes, timestamp: uint256)

  const NO_DISPUTE := Dispute(0, [], 0)

  datatype Event =
    | Funded
    | Opened(account: Address, dispute: Dispute, signer: Address)
    | Resolved(account: Address)
    | Claimed(account: Address, now: uint256)
    | Recorded(batchNonce: uint256, txArray: seq<bytes>)

  /** A recorded batch hash stands for the transactions hashed; no entry stands for the zero word. */
  datatype State = State(
    balance: uint256,
    depositFunds: uint256,
    disputes: map<Address, Dispute>,
    batchHashes: map<uint256, seq<bytes>>,
    log: seq<Event>)

  /** Right after the constructor, which takes 1 ether. */
  const DEPLOYED := State(ETHER, ETHER, map[], map[], [])

  function DisputeOf(st: State, account: Address): Dispute {
    if account in st.disputes then st.disputes[account] else NO_DISPUTE
  }

  // ---------- events ----------

  function BalanceDelta(e: Event): int {
    match e
    case Funded => ETHER
    case Opened(_, _, _) => BOND
    case Claimed(_, _) => -(ETHER as int)
    case _ => 0
  }

  function FundsDelta(e: Event): int {
    match e
    case Funded => ETHER
    case Claimed(_, _) => -(ETHER as int)
    case _ => 0
  }

  function Disputes(disputes: map<Address, Dispute>, e: Event): map<Address, Dispute> {
    match e
    case Opened(account, dispute, _) => disputes[account := dispute]
    case Resolved(account) => disputes - {account}
    case Claimed(account, _) => disputes - {account}
    case _ => disputes
  }

  function Apply(st: State, e: Event): State {
    State(Wrap(st.balance + BalanceDelta(e)), Wrap(st.depositFunds + FundsDelta(e)), Disputes(st.disputes, e),
          if e.Recorded? then st.batchHashes[e.batchNonce := e.txArray] else st.batchHashes,
          st.log + [e])
  }

  /** When an event may happen. */
  predicate Enabled(st: State, e: Event) {
    && 0 <= st.balance + BalanceDelta(e) < TWO_256
    && 0 <= st.depositFunds + FundsDelta(e) < TWO_256
    && match e
       case Claimed(account, now) =>
         DisputeOf(st, account).timestamp != 0 && now >= DisputeOf(st, account).timestamp + DAY
       case _ => true
  }

  // ---------- operations ----------

  /** A signature: whether it has 65 bytes, and the address it recovers to. */
  datatype Signature = Signature(wellFormed: bool, signer: Address)

  datatype Action =
    | Fund(value: uint256)
    | OpenDispute(sender: Address, value: uint256, txData: bytes, nonceId: uint256, batchId: uint256,
                  commitTimestamp: uint256, signature: Signature)
    | ResolveDispute(sender: Address, txDataArray: seq<bytes>, disputee: Address)
    | ClaimDisputeCompensation(sender: Address, accepts: bool)
    | ExecuteTransactions(txArray: seq<bytes>, sigs: seq<Signature>, batchNonce: uint256, replies: seq<Reply>)

  /** A call of the batched contract: what it does to this one, and whether it succeeds. */
  datatype Reply = Reply(actions: seq<Action>, ok: bool)

  /** Who called the constructor, and when the transaction runs. */
  datatype Setting = Setting(owner: Address, now: uint256)

  function PerformFund(st: State, value: uint256): Option<State> {
    if value != ETHER || st.balance + value >= TWO_256 || st.depositFunds + value >= TWO_256 then None
    else Some(Apply(st, Funded))
  }

  function PerformOpen(env: Setting, st: State, a: Action): Option<State>
    requires a.OpenDispute?
  {
    if a.value != BOND || st.balance + a.value >= TWO_256 then None
    else if env.now < a.commitTimestamp then None
    else if !a.signature.wellFormed || a.signature.signer != env.owner then None
    else Some(Apply(st, Opened(a.sender, Dispute(a.nonceId, a.txData, env.now), a.signature.signer)))
  }

  function PerformResolve(env: Setting, st: State, a: Action): Option<State>
    requires a.ResolveDispute?
  {
    var dispute := DisputeOf(st, a.disputee);
    if a.sender != env.owner then None
    else if dispute.nonceId >= |a.txDataArray| then None
    else if a.txDataArray[dispute.nonceId] != dispute.txData then None
    else if dispute.nonceId !in st.batchHashes || st.batchHashes[dispute.nonceId] != a.txDataArray then None
    else Some(Apply(st, Resolved(a.disputee)))
  }

  /** `transfer` forwards too little gas for the recipient to call back. */
  function PerformClaim(env: Setting, st: State, sender: Address, accepts: bool): Option<State> {
    var dispute := DisputeOf(st, sender);
    if dispute.timestamp == 0 then None
    else if dispute.timestamp + DAY >= TWO_256 || env.now < dispute.timestamp + DAY then None
    else if st.balance < ETHER || !accepts then None
    else if st.depositFunds < ETHER then None
    else Some(Apply(st, Claimed(sender, env.now)))
  }

  function Perform(env: Setting, st: State, a: Action): Option<State>
    decreases a, 1
  {
    match a
    case Fund(value) => PerformFund(st, value)
    case OpenDispute(_, _, _, _, _, _, _) => PerformOpen(env, st, a)
    case ResolveDispute(_, _, _) => PerformResolve(env, st, a)
    case ClaimDisputeCompensation(sender, accepts) => PerformClaim(env, st, sender, accepts)
    case ExecuteTransactions(txArray, sigs, batchNonce, replies) =>
      if st.balance < ETHER then None
      else
        var st1 :- RunCalls(env, st, txArray, sigs, replies);
        Some(Apply(st1, Recorded(batchNonce, txArray)))
  }

  function Step(env: Setting, st: State, a: Action): State
    decreases a, 2
  {
    match Perform(env, st, a)
    case Some(st') => st'
    case None => st
  }

  function RunActions(env: Setting, st: State, actions: seq<Action>): State
    decreases actions
  {
    if |actions| == 0 then st else RunActions(env, Step(env, st, actions[0]), actions[1..])
  }

  /** One call for each transaction, in order; any failure reverts them all. */
  function RunCalls(env: Setting, st: State, txArray: seq<bytes>, sigs: seq<Signature>,
                    replies: seq<Reply>): Option<State>
    decreases replies
  {
    if |txArray| == 0 then Some(st)
    else if |sigs| == 0 || !sigs[0].wellFormed then None
    else if |replies| == 0 || !replies[0].ok then None
    else RunCalls(env, RunActions(env, st, replies[0].actions), txArray[1..], sigs[1..], replies[1..])
  }

  // ---------- the invariant ----------

  function Fundings(log: seq<Event>): nat {
    if |log| == 0 then 0 else Fundings(log[..|log| - 1]) + if log[|log| - 1].Funded? then 1 else 0
  }

  function Openings(log: seq<Event>): nat {
    if |log| == 0 then 0 else Openings(log[..|log| - 1]) + if log[|log| - 1].Opened? then 1 else 0
  }

  function Claims(log: seq<Event>): nat {
    if |log| == 0 then 0 else Claims(log[..|log| - 1]) + if log[|log| - 1].Claimed? then 1 else 0
  }

  /** The funds are 1 ether for the deployment and each funding, less each claim; no bond ever leaves. */
  predicate Balanced(st: State) {
    && st.depositFunds == ETHER * (1 + Fundings(st.log) - Claims(st.log))
    && st.balance == st.depositFunds + BOND * Openings(st.log)
  }

  /** A change of the dispute of an account. */
  predicate OnDispute(e: Event, account: Address) {
    (e.Opened? || e.Resolved? || e.Claimed?) && e.account == account
  }

  /** The opening that is in force: the last event on the account's dispute. */
  ghost predicate OpenedAt(log: seq<Event>, account: Address, j: nat) {
    && j < |log| && log[j].Opened? && log[j].account == account
    && forall k :: j < k < |log| ==> !OnDispute(log[k], account)
  }

  /** The stored dispute of an account is the one it opened last. */
  ghost predicate Tracked(st: State, account: Address) {
    DisputeOf(st, account).timestamp != 0 ==>
      exists j: nat :: OpenedAt(st.log, account, j) && st.log[j].dispute == DisputeOf(st, account)
  }

  /** A claim in the log follows the claimant's own opening by a day, with nothing on its dispute in between. */
  ghost predicate Justified(log: seq<Event>, k: nat)
    requires k < |log|
  {
    log[k].Claimed? ==>
      exists j: nat :: OpenedAt(log[..k], log[k].account, j) && log[k].now >= log[j].dispute.timestamp + DAY
  }

  ghost predicate Valid(st: State) {
    && Balanced(st)
    && (forall account :: Tracked(st, account))
    && (forall k: nat :: k < |st.log| ==> Justified(st.log, k))
  }

  lemma EventMovesEther(st: State, e: Event)
    requires Enabled(st, e)
    ensures Apply(st, e).balance == st.balance + BalanceDelta(e)
    ensures Apply(st, e).depositFunds == st.depositFunds + FundsDelta(e)
  {
  }

  lemma EventCounts(log: seq<Event>, e: Event)
    ensures Fundings(log + [e]) == Fundings(log) + if e.Funded? then 1 else 0
    ensures Openings(log + [e]) == Openings(log) + if e.Opened? then 1 else 0
    ensures Claims(log + [e]) == Claims(log) + if e.Claimed? then 1 else 0
  {
    assert (log + [e])[..|log|] == log;
  }

  lemma EventIsLogged(st: State, e: Event)
    ensures Apply(st, e).log == st.log + [e]
  {
  }

  lemma Multiples(unit: int, n: int, d: int)
    ensures unit * (n + d) == unit * n + unit * d
  {
  }

  lemma EventKeepsBalance(st: State, e: Event)
    requires Balanced(st) && Enabled(st, e)
    ensures Balanced(Apply(st, e))
  {
    EventMovesEther(st, e);
    EventCounts(st.log, e);
    EventIsLogged(st, e);
    hide Fundings, Openings, Claims, Enabled, Wrap, Disputes, Apply;
    var fundings, claims, openings := Fundings(st.log), Claims(st.log), Openings(st.log);
    Multiples(ETHER, 1 + fundings - claims, if e.Funded? then 1 else if e.Claimed? then -1 else 0);
    Multiples(BOND, openings, if e.Opened? then 1 else 0);
  }

  lemma EventKeepsTracked(st: State, e: Event, account: Address)
    requires Tracked(st, account)
    ensures Tracked(Apply(st, e), account)
  {
    var st' := Apply(st, e);
    if DisputeOf(st', account).timestamp != 0 {
      if OnDispute(e, account) {
        assert OpenedAt(st'.log, account, |st.log|);
      } else {
        var j: nat :| OpenedAt(st.log, account, j) && st.log[j].dispute == DisputeOf(st, account);
        assert OpenedAt(st'.log, account, j);
      }
    }
  }

  lemma EventIsJustified(st: State, e: Event)
    requires Valid(st) && Enabled(st, e)
    ensures Justified(Apply(st, e).log, |st.log|)
  {
    var log := Apply(st, e).log;
    if e.Claimed? {
      assert Tracked(st, e.account);
      var j: nat :| OpenedAt(st.log, e.account, j) && st.log[j].dispute == DisputeOf(st, e.account);
      assert log[..|st.log|] == st.log;
    }
  }

  lemma JustifiedStays(log: seq<Event>, e: Event, k: nat)
    requires k < |log| && Justified(log, k)
    ensures Justified(log + [e], k)
  {
    assert (log + [e])[..k] == log[..k];
  }

  lemma EventKeepsValid(st: State, e: Event)
    requires Valid(st) && Enabled(st, e)
    ensures Valid(Apply(st, e))
  {
    hide Balanced, Tracked, Justified, Enabled;
    EventKeepsBalance(st, e);
    var st' := Apply(st, e);
    forall account
      ensures Tracked(st', account)
    {
      EventKeepsTracked(st, e, account);
    }
    EventIsJustified(st, e);
    forall k: nat | k < |st'.log|
      ensures Justified(st'.log, k)
    {
      if k < |st.log| {
        JustifiedStays(st.log, e, k);
      }
    }
  }

  // ---------- every run ----------

  lemma {:induction false} PerformKeepsValid(env: Setting, st: State, a: Action)
    requires Valid(st)
    ensures Perform(env, st, a).Some? ==> Valid(Perform(env, st, a).value)
    decreases a, 1
  {
    hide Valid;
    var o := Perform(env, st, a);
    if o.Some? {
      match a
      case Fund(_) => EventKeepsValid(st, Funded);
      case OpenDispute(sender, _, txData, nonceId, _, _, signature) =>
        EventKeepsValid(st, Opened(sender, Dispute(nonceId, txData, env.now), signature.signer));
      case ResolveDispute(_, _, disputee) => EventKeepsValid(st, Resolved(disputee));
      case ClaimDisputeCompensation(sender, _) => EventKeepsValid(st, Claimed(sender, env.now));
      case ExecuteTransactions(txArray, sigs, batchNonce, replies) =>
        CallsKeepValid(env, st, txArray, sigs, replies);
        EventKeepsValid(RunCalls(env, st, txArray, sigs, replies).value, Recorded(batchNonce, txArray));
    }
  }

  lemma {:induction false} StepKeepsValid(env: Setting, st: State, a: Action)
    requires Valid(st)
    ensures Valid(Step(env, st, a))
    decreases a, 2
  {
    hide Valid, Perform;
    PerformKeepsValid(env, st, a);
  }

  lemma {:induction false} ActionsKeepValid(env: Setting, st: State, actions: seq<Action>)
    requires Valid(st)
    ensures Valid(RunActions(env, st, actions))
    decreases actions
  {
    hide Valid, Step;
    if |actions| > 0 {
      StepKeepsValid(env, st, actions[0]);
      ActionsKeepValid(env, Step(env, st, actions[0]), actions[1..]);
    }
  }

  lemma {:induction false} CallsKeepValid(env: Setting, st: State, txArray: seq<bytes>, sigs: seq<Signature>,
                                          replies: seq<Reply>)
    requires Valid(st)
    ensures var o := RunCalls(env, st, txArray, sigs, replies); o.Some? ==> Valid(o.value)
    decreases replies
  {
    hide Valid, RunActions;
    if |txArray| > 0 && |sigs| > 0 && |replies| > 0 {
      ActionsKeepValid(env, st, replies[0].actions);
      CallsKeepValid(env, RunActions(env, st, replies[0].actions), txArray[1..], sigs[1..], replies[1..]);
    }
  }

  /** A transaction: the action, and the time at which it runs. */
  datatype Transaction = Transaction(now: uint256, action: Action)

  function Run(owner: Address, ts: seq<Transaction>): State
    decreases |ts|
  {
    if |ts| == 0 then DEPLOYED
    else
      var last := ts[|ts| - 1];
      Step(Setting(owner, last.now), Run(owner, ts[..|ts| - 1]), last.action)
  }

  lemma DeployedIsValid()
    ensures Valid(DEPLOYED)
  {
  }

  lemma {:induction false} EveryRunIsValid(owner: Address, ts: seq<Transaction>)
    ensures Valid(Run(owner, ts))
    decreases |ts|
  {
    hide Valid, Step;
    if |ts| == 0 {
      DeployedIsValid();
    } else {
      EveryRunIsValid(owner, ts[..|ts| - 1]);
      StepKeepsValid(Setting(owner, ts[|ts| - 1].now), Run(owner, ts[..|ts| - 1]), ts[|ts| - 1].action);
    }
  }

  // ---------- signatures ----------

  /** Every dispute was opened with the owner's signature. */
  ghost predicate Signed(owner: Address, log: seq<Event>) {
    forall k :: 0 <= k < |log| && log[k].Opened? ==> log[k].signer == owner
  }

  lemma {:induction false} PerformKeepsSigned(env: Setting, st: State, a: Action)
    requires Signed(env.owner, st.log)
    ensures Perform(env, st, a).Some? ==> Signed(env.owner, Perform(env, st, a).value.log)
    decreases a, 1
  {
    if a.ExecuteTransactions? && st.balance >= ETHER {
      CallsKeepSigned(env, st, a.txArray, a.sigs, a.replies);
    }
  }

  lemma {:induction false} ActionsKeepSigned(env: Setting, st: State, actions: seq<Action>)
    requires Signed(env.owner, st.log)
    ensures Signed(env.owner, RunActions(env, st, actions).log)
    decreases actions
  {
    hide Signed, Perform;
    if |actions| > 0 {
      PerformKeepsSigned(env, st, actions[0]);
      ActionsKeepSigned(env, Step(env, st, actions[0]), actions[1..]);
    }
  }

  lemma {:induction false} CallsKeepSigned(env: Setting, st: State, txArray: seq<bytes>, sigs: seq<Signature>,
                                           replies: seq<Reply>)
    requires Signed(env.owner, st.log)
    ensures RunCalls(env, st, txArray, sigs, replies).Some? ==>
              Signed(env.owner, RunCalls(env, st, txArray, sigs, replies).value.log)
    decreases replies
  {
    hide Signed, RunActions;
    if |txArray| > 0 && |sigs| > 0 && |replies| > 0 {
      ActionsKeepSigned(env, st, replies[0].actions);
      CallsKeepSigned(env, RunActions(env, st, replies[0].actions), txArray[1..], sigs[1..], replies[1..]);
    }
  }

  /** Over every run, with any calls nested in it: no dispute is opened without the owner's signature. */
  lemma {:induction false} EveryRunIsSigned(owner: Address, ts: seq<Transaction>)
    ensures Signed(owner, Run(owner, ts).log)
    decreases |ts|
  {
    if |ts| > 0 {
      hide Signed, Perform;
      EveryRunIsSigned(owner, ts[..|ts| - 1]);
      var last := ts[|ts| - 1];
      PerformKeepsSigned(Setting(owner, last.now), Run(owner, ts[..|ts| - 1]), last.action);
    }
  }

  // ---------- effects ----------

  /**
   * A dispute is opened exactly with half an ether, from the commit time on, with a well-formed signature of the owner.
   * It is the caller's, of this time; the funds do not grow.
   */
  lemma OpenDisputeIff(env: Setting, st: State, a: Action)
    requires a.OpenDispute?
    ensures var o := Perform(env, st, a);
            && (o.Some? <==>
                  && 2 * a.value == ETHER && a.commitTimestamp <= env.now && a.signature == Signature(true, env.owner)
                  && st.balance + a.value < TWO_256)
            && (o.Some? ==>
                  && DisputeOf(o.value, a.sender) == Dispute(a.nonceId, a.txData, env.now)
                  && (forall x :: x != a.sender ==> DisputeOf(o.value, x) == DisputeOf(st, x))
                  && o.value.balance == st.balance + a.value && o.value.depositFunds == st.depositFunds
                  && o.value.batchHashes == st.batchHashes)
  {
  }

  /** Funding takes one ether, and all of it counts as funds. */
  lemma FundIff(env: Setting, st: State, value: uint256)
    ensures var o := Perform(env, st, Fund(value));
            && (o.Some? <==> value == ETHER && st.balance + value < TWO_256 && st.depositFunds + value < TWO_256)
            && (o.Some? ==>
                  && o.value.balance == st.balance + value && o.value.depositFunds == st.depositFunds + value
                  && o.value.disputes == st.disputes && o.value.batchHashes == st.batchHashes)
  {
  }

  /** Only the owner resolves, with the recorded batch that has the data in its place; the dispute is gone, no ether. */
  lemma ResolveIff(env: Setting, st: State, sender: Address, arr: seq<bytes>, disputee: Address)
    ensures var o, d := Perform(env, st, ResolveDispute(sender, arr, disputee)), DisputeOf(st, disputee);
            && (o.Some? <==>
                  && sender == env.owner && d.nonceId in st.batchHashes && st.batchHashes[d.nonceId] == arr
                  && d.nonceId < |arr| && arr[d.nonceId] == d.txData)
            && (o.Some? ==>
                  && DisputeOf(o.value, disputee) == NO_DISPUTE
                  && (forall x :: x != disputee ==> DisputeOf(o.value, x) == DisputeOf(st, x))
                  && o.value.balance == st.balance && o.value.depositFunds == st.depositFunds
                  && o.value.batchHashes == st.batchHashes)
  {
  }

  /** A claim pays one ether of balance and funds, a day after the caller's own dispute, and ends that dispute. */
  lemma ClaimIff(env: Setting, st: State, sender: Address, accepts: bool)
    ensures var o, d := Perform(env, st, ClaimDisputeCompensation(sender, accepts)), DisputeOf(st, sender);
            && (o.Some? <==>
                  && d.timestamp != 0 && d.timestamp + 86400 <= env.now && accepts
                  && ETHER <= st.balance && ETHER <= st.depositFunds)
            && (o.Some? ==>
                  && DisputeOf(o.value, sender) == NO_DISPUTE
                  && (forall x :: x != sender ==> DisputeOf(o.value, x) == DisputeOf(st, x))
                  && o.value.balance == st.balance - ETHER && o.value.depositFunds == st.depositFunds - ETHER
                  && o.value.batchHashes == st.batchHashes)
  {
  }

  /** All transactions have well-formed signatures and calls that succeed. */
  predicate AllRun(txArray: seq<bytes>, sigs: seq<Signature>, replies: seq<Reply>) {
    && |txArray| <= |sigs| && |txArray| <= |replies|
    && forall i :: 0 <= i < |txArray| ==> sigs[i].wellFormed && replies[i].ok
  }

  lemma {:induction false} CallsRunIff(env: Setting, st: State, txArray: seq<bytes>, sigs: seq<Signature>,
                                       replies: seq<Reply>)
    ensures RunCalls(env, st, txArray, sigs, replies).Some? <==> AllRun(txArray, sigs, replies)
    decreases replies
  {
    hide RunActions;
    if |txArray| > 0 && |sigs| > 0 && |replies| > 0 {
      CallsRunIff(env, RunActions(env, st, replies[0].actions), txArray[1..], sigs[1..], replies[1..]);
      assert forall i :: 0 <= i < |txArray[1..]| && i < |sigs[1..]| && i < |replies[1..]| ==>
               sigs[1..][i] == sigs[i + 1] && replies[1..][i] == replies[i + 1];
      if AllRun(txArray[1..], sigs[1..], replies[1..]) && sigs[0].wellFormed && replies[0].ok {
        forall i | 0 <= i < |txArray|
          ensures sigs[i].wellFormed && replies[i].ok
        {
          if i > 0 {
            assert sigs[1..][i - 1].wellFormed && replies[1..][i - 1].ok;
          }
        }
      }
    }
  }

  /**
   * A batch is executed exactly when the contract holds an ether, every signature is well formed and every call
   * succeeds; then this array, and no other, is recorded under its nonce.
   */
  lemma ExecuteIff(env: Setting, st: State, txArray: seq<bytes>, sigs: seq<Signature>, batchNonce: uint256,
                   replies: seq<Reply>)
    ensures var o := Perform(env, st, ExecuteTransactions(txArray, sigs, batchNonce, replies));
            && (o.Some? <==> ETHER <= st.balance && AllRun(txArray, sigs, replies))
            && (o.Some? ==>
                  var done := RunCalls(env, st, txArray, sigs, replies).value;
                  && o.value.batchHashes == done.batchHashes[batchNonce := txArray]
                  && o.value.disputes == done.disputes && o.value.balance == done.balance
                  && o.value.depositFunds == done.depositFunds)
  {
    hide RunCalls;
    CallsRunIff(env, st, txArray, sigs, replies);
  }

  // ---------- main results ----------

  /** The dispute ledger over every run. */
  lemma EveryRunBalances(owner: Address, ts: seq<Transaction>)
    ensures var st := Run(owner, ts);
            && st.depositFunds == ETHER * (1 + Fundings(st.log) - Claims(st.log))
            && st.balance == st.depositFunds + BOND * Openings(st.log)
  {
    hide Run;
    EveryRunIsValid(owner, ts);
  }

  /**
   * Each paid claim is preceded by the claimant's own opening, at least one day earlier, with no opening, resolution
   * or claim for the same address in between.
   */
  lemma ClaimFollowsOpening(owner: Address, ts: seq<Transaction>, k: nat) returns (j: nat)
    requires var log := Run(owner, ts).log; k < |log| && log[k].Claimed?
    ensures var log := Run(owner, ts).log;
            && j < k && OpenedAt(log[..k], log[k].account, j) && log[k].now >= log[j].dispute.timestamp + DAY
            && log[j].signer == owner
  {
    hide Run;
    var log := Run(owner, ts).log;
    EveryRunIsValid(owner, ts);
    EveryRunIsSigned(owner, ts);
    assert Justified(log, k);
    j :| OpenedAt(log[..k], log[k].account, j) && log[k].now >= log[j].dispute.timestamp + DAY;
    assert log[..k][j] == log[j];
  }

  /**
   * A due claim of a willing recipient is paid exactly when the funds are not used up, although the bonds alone
   * would cover it.
   */
  lemma ClaimSucceedsIff(env: Setting, st: State, sender: Address)
    requires Valid(st) && DisputeOf(st, sender).timestamp != 0
    requires DisputeOf(st, sender).timestamp + DAY <= env.now
    ensures PerformClaim(env, st, sender, true).Some? <==> Fundings(st.log) >= Claims(st.log)
  {
    hide Tracked, Justified;
  }

  /**
   * A dispute is looked up by its `nonceId` twice: as the position in the batch and as the nonce of the batch. The
   * owner can resolve it exactly when the batch recorded under that number has the disputed data at that position.
   */
  lemma ResolvableIff(env: Setting, st: State, disputee: Address)
    ensures var d := DisputeOf(st, disputee);
            (exists arr :: PerformResolve(env, st, ResolveDispute(env.owner, arr, disputee)).Some?) <==>
            (d.nonceId in st.batchHashes && d.nonceId < |st.batchHashes[d.nonceId]|
             && st.batchHashes[d.nonceId][d.nonceId] == d.txData)
  {
    var d := DisputeOf(st, disputee);
    if d.nonceId in st.batchHashes && d.nonceId < |st.batchHashes[d.nonceId]|
       && st.batchHashes[d.nonceId][d.nonceId] == d.txData {
      assert PerformResolve(env, st, ResolveDispute(env.owner, st.batchHashes[d.nonceId], disputee)).Some?;
    }
  }

  // ---------- two runs ----------

  lemma AfterOne(owner: Address, t: Transaction)
    ensures Run(owner, [t]) == Step(Setting(owner, t.now), DEPLOYED, t.action)
  {
    hide Step;
    assert [t][..0] == [];
    assert Run(owner, []) == DEPLOYED;
  }

  lemma AfterNext(owner: Address, ts: seq<Transaction>, t: Transaction)
    ensures Run(owner, ts + [t]) == Step(Setting(owner, t.now), Run(owner, ts), t.action)
  {
    hide Step;
    assert (ts + [t])[..|ts|] == ts;
  }

  /** A batch of two transactions, executed with nonce 5, and then a dispute about the second one. */
  function HonestRun(owner: Address, disputee: Address, txs: seq<bytes>): seq<Transaction>
    requires |txs| == 2
  {
    [ Transaction(100, ExecuteTransactions(txs, [Signature(true, disputee), Signature(true, disputee)], 5,
                                           [Reply([], true), Reply([], true)])),
      Transaction(200, OpenDispute(disputee, BOND, txs[1], 1, 5, 150, Signature(true, owner))) ]
  }

  lemma TwoCalls(env: Setting, txs: seq<bytes>, signer: Address)
    requires |txs| == 2
    ensures RunCalls(env, DEPLOYED, txs, [Signature(true, signer), Signature(true, signer)],
                     [Reply([], true), Reply([], true)])
         == Some(DEPLOYED)
  {
    var sigs, replies := [Signature(true, signer), Signature(true, signer)], [Reply([], true), Reply([], true)];
    assert RunActions(env, DEPLOYED, []) == DEPLOYED;
    assert txs[0..] == txs && sigs[0..] == sigs && replies[0..] == replies;
    CallStep(env, DEPLOYED, txs, sigs, replies, 0);
    CallStep(env, DEPLOYED, txs, sigs, replies, 1);
    AllCalled(env, DEPLOYED, txs, sigs, replies);
  }

  /**
   * So an executed and recorded transaction can be disputed and not resolved: the dispute names position 1 of batch
   * 5, and the hash is looked up under 1.
   */
  lemma ExecutedButUnresolvable(owner: Address, disputee: Address, txs: seq<bytes>, now: uint256, arr: seq<bytes>)
    requires |txs| == 2
    ensures var st := Run(owner, HonestRun(owner, disputee, txs));
            && st.batchHashes == map[5 := txs] && DisputeOf(st, disputee) == Dispute(1, txs[1], 200)
            && PerformResolve(Setting(owner, now), st, ResolveDispute(owner, arr, disputee)) == None
  {
    hide Run, RunCalls;
    var ts := HonestRun(owner, disputee, txs);
    assert ts == [ts[0]] + [ts[1]];
    AfterOne(owner, ts[0]);
    AfterNext(owner, [ts[0]], ts[1]);
    TwoCalls(Setting(owner, 100), txs, disputee);
  }

  function Opening(owner: Address, sender: Address): Action {
    OpenDispute(sender, BOND, [], 0, 0, 100, Signature(true, owner))
  }

  /** Two disputes, and a day later the first compensation. */
  function TwoDisputes(owner: Address, a: Address, b: Address): seq<Transaction> {
    [Transaction(200, Opening(owner, a)), Transaction(200, Opening(owner, b)),
     Transaction(200 + DAY, ClaimDisputeCompensation(a, true))]
  }

  lemma Opens(owner: Address, st: State, sender: Address)
    requires st.balance <= 4 * ETHER
    ensures Step(Setting(owner, 200), st, Opening(owner, sender))
            == Apply(st, Opened(sender, Dispute(0, [], 200), owner))
  {
    hide Apply;
  }

  lemma Claimable(owner: Address, st: State, a: Address)
    requires DisputeOf(st, a) == Dispute(0, [], 200) && ETHER <= st.balance && ETHER <= st.depositFunds
    ensures Step(Setting(owner, 200 + DAY), st, ClaimDisputeCompensation(a, true)) == Apply(st, Claimed(a, 200 + DAY))
  {
    hide Apply;
  }

  lemma TwoOpened(owner: Address, a: Address, b: Address) returns (st: State)
    requires a != b
    ensures st == Apply(Apply(DEPLOYED, Opened(a, Dispute(0, [], 200), owner)), Opened(b, Dispute(0, [], 200), owner))
    ensures st.balance == 2 * ETHER && st.depositFunds == ETHER
    ensures DisputeOf(st, a) == DisputeOf(st, b) == Dispute(0, [], 200)
    ensures st.log == [Opened(a, Dispute(0, [], 200), owner), Opened(b, Dispute(0, [], 200), owner)]
  {
    st := Apply(Apply(DEPLOYED, Opened(a, Dispute(0, [], 200), owner)), Opened(b, Dispute(0, [], 200), owner));
  }

  lemma OneClaimed(st: State, a: Address, b: Address)
    requires a != b && st.balance == 2 * ETHER && st.depositFunds == ETHER
    ensures var st' := Apply(st, Claimed(a, 200 + DAY));
            && DisputeOf(st', b) == DisputeOf(st, b) && st'.balance == ETHER && st'.depositFunds == 0
            && st'.log == st.log + [Claimed(a, 200 + DAY)]
  {
  }

  lemma CountsOfThree(e: Event, f: Event, g: Event)
    requires e.Opened? && f.Opened? && g.Claimed?
    ensures Claims([e, f] + [g]) == 1 && Fundings([e, f] + [g]) == 0
  {
    EventCounts([], e);
    EventCounts([e], f);
    EventCounts([e, f], g);
    assert [] + [e] == [e] && [e] + [f] == [e, f];
    NothingCounted();
    hide Claims, Fundings, Openings;
  }

  lemma NothingCounted()
    ensures Claims([]) == 0 && Fundings([]) == 0
  {
  }

  /** The second claim is due and refused, while the bonds amount to the ether it asks for. */
  lemma DueClaimIsRefused(owner: Address, a: Address, b: Address)
    requires a != b
    ensures var st := Run(owner, TwoDisputes(owner, a, b));
            && DisputeOf(st, b).timestamp == 200 && st.balance == ETHER && st.depositFunds == 0
            && Claims(st.log) == 1 && Fundings(st.log) == 0
            && PerformClaim(Setting(owner, 200 + DAY), st, b, true) == None
  {
    hide Run, Step, Opening, Apply, Claims, Fundings, DisputeOf;
    var ts := TwoDisputes(owner, a, b);
    assert ts == [ts[0]] + [ts[1]] + [ts[2]];
    AfterOne(owner, ts[0]);
    AfterNext(owner, [ts[0]], ts[1]);
    AfterNext(owner, [ts[0]] + [ts[1]], ts[2]);
    Opens(owner, DEPLOYED, a);
    var e, f := Opened(a, Dispute(0, [], 200), owner), Opened(b, Dispute(0, [], 200), owner);
    AfterOpening(owner, a);
    Opens(owner, Apply(DEPLOYED, e), b);
    var st := TwoOpened(owner, a, b);
    Claimable(owner, st, a);
    OneClaimed(st, a, b);
    CountsOfThree(e, f, Claimed(a, 200 + DAY));
  }

  lemma AfterOpening(owner: Address, a: Address)
    ensures Apply(DEPLOYED, Opened(a, Dispute(0, [], 200), owner)).balance <= 4 * ETHER
  {
  }

  // ---------- the contract ----------

  lemma CallStep(env: Setting, st: State, txArray: seq<bytes>, sigs: seq<Signature>, replies: seq<Reply>, i: nat)
    requires i < |txArray| && i <= |sigs| && i <= |replies|
    ensures RunCalls(env, st, txArray[i..], sigs[i..], replies[i..])
         == if i == |sigs| || !sigs[i].wellFormed || i == |replies| || !replies[i].ok then None
            else RunCalls(env, RunActions(env, st, replies[i].actions), txArray[i + 1..], sigs[i + 1..],
                          replies[i + 1..])
  {
    hide RunActions;
    assert txArray[i..][1..] == txArray[i + 1..];
    if i < |sigs| && i < |replies| {
      assert sigs[i..][0] == sigs[i] && sigs[i..][1..] == sigs[i + 1..];
      assert replies[i..][0] == replies[i] && replies[i..][1..] == replies[i + 1..];
    }
  }

  lemma AllCalled(env: Setting, st: State, txArray: seq<bytes>, sigs: seq<Signature>, replies: seq<Reply>)
    requires |txArray| <= |sigs| && |txArray| <= |replies|
    ensures RunCalls(env, st, txArray[|txArray|..], sigs[|txArray|..], replies[|txArray|..]) == Some(st)
  {
  }

  /** The contract, updated in place. Every public method does what Perform says, or nothing. */
  class BatcherAccountable {
    const owner: Address
    var balance: uint256
    var depositFunds: uint256
    var disputes: map<Address, Dispute>
    var batchHashes: map<uint256, seq<bytes>>
    ghost var log: seq<Event>

    ghost function View(): State
      reads this
    {
      State(balance, depositFunds, disputes, batchHashes, log)
    }

    /** A successful call has the given effect; a failed one is undone by its caller. */
    ghost predicate Matches(o: Option<State>, ok: bool)
      reads this
    {
      ok == o.Some? && (ok ==> View() == o.value)
    }

    constructor (sender: Address)
      ensures owner == sender && View() == DEPLOYED && Valid(View())
    {
      owner := sender;
      balance, depositFunds, disputes, batchHashes := ETHER, ETHER, map[], map[];
      log := [];
      new;
      DeployedIsValid();
    }

    method Fund(value: uint256) returns (ok: bool)
      modifies this
      ensures Matches(PerformFund(old(View()), value), ok)
    {
      if value != ETHER || balance + value >= TWO_256 || depositFunds + value >= TWO_256 {
        return false;
      }
      balance := balance + value;
      depositFunds := depositFunds + value;
      log := log + [Funded];
      return true;
    }

    method OpenDispute(now: uint256, sender: Address, value: uint256, txData: bytes, nonceId: uint256, batchId: uint256,
                       commitTimestamp: uint256, signature: Signature)
      returns (ok: bool)
      modifies this
      ensures Matches(PerformOpen(Setting(owner, now), old(View()),
                                  Action.OpenDispute(sender, value, txData, nonceId, batchId, commitTimestamp,
                                                     signature)), ok)
    {
      if value != BOND || balance + value >= TWO_256 || now < commitTimestamp || !signature.wellFormed
         || signature.signer != owner {
        return false;
      }
      balance := balance + value;
      disputes := disputes[sender := Dispute(nonceId, txData, now)];
      log := log + [Opened(sender, Dispute(nonceId, txData, now), signature.signer)];
      return true;
    }

    method ResolveDispute(sender: Address, txDataArray: seq<bytes>, disputee: Address) returns (ok: bool)
      modifies this
      ensures forall now :: Matches(PerformResolve(Setting(owner, now), old(View()),
                                                   Action.ResolveDispute(sender, txDataArray, disputee)), ok)
    {
      if sender != owner {
        return false;
      }
      var dispute := if disputee in disputes then disputes[disputee] else NO_DISPUTE;
      if dispute.nonceId >= |txDataArray| || txDataArray[dispute.nonceId] != dispute.txData {
        return false;
      }
      if dispute.nonceId !in batchHashes || batchHashes[dispute.nonceId] != txDataArray {
        return false;
      }
      disputes := disputes - {disputee};
      log := log + [Resolved(disputee)];
      return true;
    }

    method ClaimDisputeCompensation(now: uint256, sender: Address, accepts: bool) returns (ok: bool)
      modifies this
      ensures Matches(PerformClaim(Setting(owner, now), old(View()), sender, accepts), ok)
    {
      var dispute := if sender in disputes then disputes[sender] else NO_DISPUTE;
      if dispute.timestamp == 0 {
        return false;
      }
      if dispute.timestamp + DAY >= TWO_256 || now < dispute.timestamp + DAY {
        return false;
      }
      if balance < ETHER || !accepts || depositFunds < ETHER {
        return false;
      }
      balance := balance - ETHER;
      depositFunds := depositFunds - ETHER;
      disputes := disputes - {sender};
      log := log + [Claimed(sender, now)];
      return true;
    }

    method ExecuteTransactions(now: uint256, txArray: seq<bytes>, sigs: seq<Signature>, batchNonce: uint256,
                               replies: seq<Reply>)
      returns (ok: bool)
      modifies this
      ensures Matches(Perform(Setting(owner, now), old(View()),
                              Action.ExecuteTransactions(txArray, sigs, batchNonce, replies)), ok)
      decreases replies, 1
    {
      hide RunCalls;
      if balance < ETHER {
        return false;
      }
      ghost var start, env := View(), Setting(owner, now);
      assert txArray[0..] == txArray && sigs[0..] == sigs && replies[0..] == replies;
      for i := 0 to |txArray|
        invariant i <= |sigs| && i <= |replies|
        invariant RunCalls(env, start, txArray, sigs, replies)
                  == RunCalls(env, View(), txArray[i..], sigs[i..], replies[i..])
      {
        CallStep(env, View(), txArray, sigs, replies, i);
        if i >= |sigs| || !sigs[i].wellFormed || i >= |replies| || !replies[i].ok {
          return false;
        }
        Act(now, replies[i].actions);
      }
      AllCalled(env, View(), txArray, sigs, replies);
      batchHashes := batchHashes[batchNonce := txArray];
      log := log + [Recorded(batchNonce, txArray)];
      return true;
    }

    /** A transaction, with any tree of calls, keeps the ledger in order. */
    method Transact(now: uint256, a: Action)
      requires Valid(View())
      modifies this
      ensures View() == Step(Setting(owner, now), old(View()), a) && Valid(View())
    {
      hide Valid, Step;
      StepKeepsValid(Setting(owner, now), View(), a);
      Call(now, a);
    }

    /** What the called contract does to this one. */
    method Act(now: uint256, actions: seq<Action>)
      modifies this
      ensures View() == RunActions(Setting(owner, now), old(View()), actions)
      decreases actions, 0
    {
      if |actions| > 0 {
        Call(now, actions[0]);
        Act(now, actions[1..]);
      }
    }

    /** A call from outside: when it fails, the chain undoes it. */
    method Call(now: uint256, a: Action)
      modifies this
      ensures View() == Step(Setting(owner, now), old(View()), a)
      decreases a, 2
    {
      var b, f, d, h := balance, depositFunds, disputes, batchHashes;
      ghost var l := log;
      var ok := Dispatch(now, a);
      if !ok {
        balance, depositFunds, disputes, batchHashes := b, f, d, h;
        log := l;
      }
    }

    method Dispatch(now: uint256, a: Action) returns (ok: bool)
      modifies this
      ensures Matches(Perform(Setting(owner, now), old(View()), a), ok)
      decreases a, 1
    {
      match a
      case Fund(value) => ok := Fund(value);
      case OpenDispute(sender, value, txData, nonceId, batchId, commitTimestamp, signature) =>
        ok := OpenDispute(now, sender, value, txData, nonceId, batchId, commitTimestamp, signature);
      case ResolveDispute(sender, txDataArray, disputee) => ok := ResolveDispute(sender, txDataArray, disputee);
      case ClaimDisputeCompensation(sender, accepts) => ok := ClaimDisputeCompensation(now, sender, accepts);
      case ExecuteTransactions(txArray, sigs, batchNonce, replies) =>
        ok := ExecuteTransactions(now, txArray, sigs, batchNonce, replies);
    }
  }
}
