/** Replay protection for SimpleAccounts, for every log the ledger can produce. */
module ReplayProtection {
  import opened Evm
  import opened UserOperations
  import opened Validation
  import opened SimpleAccounts
  import opened Ledger
  import opened Frames

  /** A validation by the entry point that used up a nonce of `a`. */
  predicate ValidatesNonce(e: Event, a: Address) {
    e.AccountValidated? && e.op.sender == a && !IsCreating(e.op)
  }

  /** The same check, reached by an operation whose callData called the account's `validateUserOp` itself. */
  predicate BurnsNonce(e: Event, a: Address) {
    e.Revalidated? && e.op.sender == a && !e.creating
  }

  predicate UsesNonce(e: Event, a: Address) {
    ValidatesNonce(e, a) || BurnsNonce(e, a)
  }

  function NonceUsed(e: Event, a: Address): uint256
    requires UsesNonce(e, a)
  {
    if e.AccountValidated? then e.op.nonce else e.nonce
  }

  /** How many events of the log used up a nonce: in all, and by the entry point's own validations. */
  function Uses(log: seq<Event>, a: Address): nat
    decreases |log|
  {
    if |log| == 0 then 0 else Uses(log[..|log| - 1], a) + if UsesNonce(log[|log| - 1], a) then 1 else 0
  }

  function Validations(log: seq<Event>, a: Address): nat
    decreases |log|
  {
    if |log| == 0 then 0 else Validations(log[..|log| - 1], a) + if ValidatesNonce(log[|log| - 1], a) then 1 else 0
  }

  lemma EventUsesNonce(st: State, e: Event, a: Address)
    requires Enabled(st, e) && a in Apply(st, e).code && Apply(st, e).code[a].Simple?
    ensures a in st.code ==> st.code[a].Simple?
                             && Apply(st, e).code[a].account.nonce
                                == st.code[a].account.nonce + (if UsesNonce(e, a) then 1 else 0)
                             && (UsesNonce(e, a) ==> NonceUsed(e, a) == st.code[a].account.nonce)
    ensures a !in st.code ==> Apply(st, e).code[a].account.nonce == 0 && !UsesNonce(e, a)
  {
  }

  lemma NoUseBeforeDeployment(st: State, e: Event, a: Address)
    requires Enabled(st, e) && a !in Apply(st, e).code
    ensures a !in st.code && !UsesNonce(e, a)
  {
  }

  lemma {:induction false} UnusedBeforeDeployment(st: State, a: Address)
    requires Genuine(st) && a !in st.code
    ensures Uses(st.log, a) == 0
    decreases |st.log|
  {
    hide Enabled, Apply, Replay;
    if |st.log| > 0 {
      NoUseBeforeDeployment(Before(st), st.log[|st.log| - 1], a);
      UnusedBeforeDeployment(Before(st), a);
    }
  }

  /** The stored nonce counts the uses: each use has the number of uses before it as its nonce. */
  lemma {:induction false} NonceCountsUses(st: State, a: Address)
    requires Genuine(st) && a in st.code && st.code[a].Simple?
    ensures st.code[a].account.nonce == Uses(st.log, a)
    decreases |st.log|
  {
    hide Enabled, Apply, Replay;
    if |st.log| == 0 {
      GenesisHasNoCode(st);
    } else {
      var before := Before(st);
      EventUsesNonce(before, st.log[|st.log| - 1], a);
      if a in before.code {
        NonceCountsUses(before, a);
      } else {
        UnusedBeforeDeployment(before, a);
      }
    }
  }

  lemma GenesisHasNoCode(st: State)
    requires Genuine(st) && st.log == []
    ensures st.code == map[]
  {
  }

  /**
   * The nonces used are 0, 1, 2, ... without gap or repeat: the k-th event, when it uses a nonce, uses the number
   * of uses before it.
   */
  lemma {:induction false} NoncesAreConsecutive(st: State, a: Address, k: nat)
    requires Genuine(st) && a in st.code && st.code[a].Simple?
    requires k < |st.log| && UsesNonce(st.log[k], a)
    ensures NonceUsed(st.log[k], a) == Uses(st.log[..k], a)
    decreases |st.log|
  {
    hide Enabled, Apply, Replay;
    var before := Before(st);
    EventUsesNonce(before, st.log[|st.log| - 1], a);
    if k == |st.log| - 1 {
      NonceCountsUses(before, a);
    } else if a in before.code {
      NoncesAreConsecutive(before, a, k);
      assert before.log[..k] == st.log[..k];
    } else {
      UnusedBeforeDeployment(before, a);
      UsesGrow(before.log, a, k);
      assert false;
    }
  }

  lemma {:induction false} UsesGrow(log: seq<Event>, a: Address, k: nat)
    requires k < |log| && UsesNonce(log[k], a)
    ensures Uses(log[..k], a) < Uses(log, a)
    decreases |log|
  {
    if k < |log| - 1 {
      UsesGrow(log[..|log| - 1], a, k);
      assert log[..|log| - 1][..k] == log[..k];
    }
  }

  /** A nonce is burned only by an operation whose callData selects `validateUserOp`. */
  lemma BurnsBySelector(st: State, a: Address, k: nat)
    requires Genuine(st) && k < |st.log| && BurnsNonce(st.log[k], a)
    ensures st.log[k].op.sender == a && SelectsValidateUserOp(st.log[k].op.callData)
  {
    EnabledAt(st, k);
  }

  /** No nonce is used twice. */
  lemma NoncesIncrease(st: State, a: Address, j: nat, k: nat)
    requires Genuine(st) && a in st.code && st.code[a].Simple?
    requires j < k < |st.log| && UsesNonce(st.log[j], a) && UsesNonce(st.log[k], a)
    ensures NonceUsed(st.log[j], a) < NonceUsed(st.log[k], a)
  {
    hide Genuine;
    NoncesAreConsecutive(st, a, j);
    NoncesAreConsecutive(st, a, k);
    UsesGrow(st.log[..k], a, j);
    assert st.log[..k][..j] == st.log[..j];
  }

  lemma {:induction false} UsesAreValidationsOrBurns(log: seq<Event>, a: Address)
    ensures Validations(log, a) <= Uses(log, a)
    ensures Validations(log, a) == Uses(log, a) <==> forall j :: 0 <= j < |log| ==> !BurnsNonce(log[j], a)
    decreases |log|
  {
    if |log| > 0 {
      var n := |log| - 1;
      UsesAreValidationsOrBurns(log[..n], a);
      assert forall j :: 0 <= j < n ==> log[..n][j] == log[j];
    }
  }

  /**
   * The entry point's own validations have the nonces 0, 1, 2, ... exactly as long as no operation has made the
   * account validate from its callData.
   */
  lemma ValidationsHaveNoGapIff(st: State, a: Address, k: nat)
    requires Genuine(st) && a in st.code && st.code[a].Simple?
    requires k < |st.log| && ValidatesNonce(st.log[k], a)
    ensures st.log[k].op.nonce == Validations(st.log[..k], a) <==> forall j :: 0 <= j < k ==> !BurnsNonce(st.log[j], a)
  {
    hide Genuine;
    NoncesAreConsecutive(st, a, k);
    UsesAreValidationsOrBurns(st.log[..k], a);
    assert forall j :: 0 <= j < k ==> st.log[..k][j] == st.log[j];
  }

  // ---------- creating operations ----------

  predicate Creates(e: Event, a: Address) {
    e.AccountValidated? && e.op.sender == a && IsCreating(e.op)
  }

  /** The event that opened the creation of a validated operation. */
  function OpeningOf(e: Event): Event
    requires e.AccountValidated?
  {
    CreationStarted(e.batch, e.index, e.op)
  }

  lemma {:induction false} CreationBeforeCode(st: State, k: nat)
    requires Genuine(st) && k < |st.log| && st.log[k].CreationStarted?
    ensures st.log[k].op.sender !in At(st, k).code
    decreases |st.log|
  {
    EnabledAt(st, k);
  }

  lemma CodeWhenValidated(st: State, k: nat)
    requires Genuine(st) && k < |st.log| && st.log[k].AccountValidated?
    ensures st.log[k].op.sender in At(st, k).code
    ensures IsCreating(st.log[k].op) ==> OpeningOf(st.log[k]) in st.log[..k]
  {
    EnabledAt(st, k);
  }

  /** A creation that was already under way when another of the same sender was validated. */
  ghost predicate Overlapping(log: seq<Event>, a: Address, j: nat, k: nat) {
    j < k < |log| && Creates(log[j], a) && Creates(log[k], a) && OpeningOf(log[k]) in log[..j]
  }

  lemma SecondCreationOverlaps(st: State, a: Address, j: nat, k: nat)
    requires Genuine(st) && j < k < |st.log| && Creates(st.log[j], a) && Creates(st.log[k], a)
    ensures Overlapping(st.log, a, j, k)
  {
    hide Replay, Enabled, Apply;
    CodeWhenValidated(st, j);
    CodeWhenValidated(st, k);
    var c :| 0 <= c < k && st.log[..k][c] == OpeningOf(st.log[k]);
    CreationBeforeCode(st, c);
    if c >= j {
      CodeStays(At(st, j), At(st, c), a);
      assert false;
    }
    assert st.log[..j][c] == OpeningOf(st.log[k]);
  }

  // ---------- open scopes ----------

  /** Of a batch that is open: when it was opened, and that the scopes below it are those of that time. */
  lemma {:induction false} BelowHandling(st: State, p: nat) returns (h: nat)
    requires Genuine(st) && p < |st.stack| && st.stack[p].Handling?
    ensures h < |st.log| && st.log[h] == HandlingStarted(st.stack[p].batch) && At(st, h).stack == st.stack[..p]
    decreases |st.log|
  {
    hide Enabled, Replay;
    var n := |st.log| - 1;
    GenesisHasNoScope(st);
    var before := Before(st);
    if p == |before.stack| {
      h := n;
    } else {
      h := BelowHandling(before, p);
    }
  }

  lemma GenesisHasNoScope(st: State)
    requires Genuine(st) && |st.stack| > 0
    ensures |st.log| > 0
  {
  }

  /** An event of a batch that needs the batch to be innermost. */
  predicate InHandling(e: Event) {
    e.CreationStarted? || e.Settled? || e.Paid?
  }

  lemma BatchIsInnermost(st: State, e: Event)
    requires Enabled(st, e) && InHandling(e)
    ensures |st.stack| > 0 && st.stack == st.stack[..|st.stack| - 1] + [Handling(e.batch)]
  {
  }

  /** All such events of a batch see the same scopes below it, those from when it was opened. */
  lemma ScopesOfBatch(st: State, k: nat) returns (h: nat)
    requires Genuine(st) && k < |st.log| && InHandling(st.log[k])
    ensures h < k && st.log[h] == HandlingStarted(st.log[k].batch)
    ensures At(st, k).stack == At(st, h).stack + [Handling(st.log[k].batch)]
  {
    hide Genuine, Enabled, Apply, InHandling;
    EnabledAt(st, k);
    var was := At(st, k);
    BatchIsInnermost(was, st.log[k]);
    h := BelowHandling(was, |was.stack| - 1);
    AtAt(st, k, h);
  }

  lemma {:induction false} AtAt(st: State, k: nat, h: nat)
    requires Genuine(st) && h <= k <= |st.log|
    ensures At(At(st, k), h) == At(st, h)
    decreases |st.log|
  {
    hide Enabled, Apply, Replay;
    if k < |st.log| {
      AtAt(Before(st), k, h);
    }
  }

  lemma OnlyValidationCloses(st: State, e: Event, batch: nat, index: nat, op: UserOperation)
    requires Enabled(st, e) && Creating(batch, index, op) in st.stack
    requires e.AccountValidated? ==> OpeningOf(e) != CreationStarted(batch, index, op)
    ensures Creating(batch, index, op) in NewStack(st.stack, e)
  {
    hide RecordEnabled, CodeEnabled;
    var scope := Creating(batch, index, op);
    var p :| 0 <= p < |st.stack| && st.stack[p] == scope;
    if p < |NewStack(st.stack, e)| {
      assert NewStack(st.stack, e)[p] == scope;
    }
  }

  /** A creation stays open until its sender is validated. */
  lemma {:induction false} StaysOpen(st: State, c: nat, t: nat)
    requires Genuine(st) && c < t <= |st.log| && st.log[c].CreationStarted?
    requires forall v :: c < v < t && st.log[v].AccountValidated? ==> OpeningOf(st.log[v]) != st.log[c]
    ensures Creating(st.log[c].batch, st.log[c].index, st.log[c].op) in At(st, t).stack
    decreases t
  {
    hide Genuine, Enabled, NewStack, At;
    EnabledAt(st, t - 1);
    var was, e := At(st, t - 1), st.log[t - 1];
    if c < t - 1 {
      StaysOpen(st, c, t - 1);
      OnlyValidationCloses(was, e, st.log[c].batch, st.log[c].index, st.log[c].op);
    } else {
      Opens(was.stack, e);
    }
  }

  lemma Opens(stack: seq<Scope>, e: Event)
    requires e.CreationStarted?
    ensures Creating(e.batch, e.index, e.op) in NewStack(stack, e)
  {
    assert NewStack(stack, e)[|stack|] == Creating(e.batch, e.index, e.op);
  }

  // ---------- operations ----------

  /** Two acceptances of one operation, at different places. */
  predicate AcceptedTwice(log: seq<Event>, j: nat, k: nat)
    requires j < |log| && k < |log|
  {
    && log[j].Accepted? && log[k].Accepted? && log[j].op == log[k].op
    && (log[j].batch, log[j].index) != (log[k].batch, log[k].index)
  }

  lemma ValidatedBeforeAccepted(st: State, e: Event) returns (signer: Option<Address>)
    requires Enabled(st, e) && e.Accepted?
    ensures AccountValidated(e.batch, e.index, e.op, signer, e.word) in st.log
  {
    hide RecordEnabled, StackEnabled;
    signer :| AccountValidated(e.batch, e.index, e.op, signer, e.word) in st.log;
  }

  lemma ValidationOfAccepted(st: State, k: nat) returns (v: nat)
    requires Genuine(st) && k < |st.log| && st.log[k].Accepted?
    ensures v < k && st.log[v].AccountValidated? && st.log[v].op == st.log[k].op && st.log[v].word == st.log[k].word
    ensures st.log[v].batch == st.log[k].batch && st.log[v].index == st.log[k].index
  {
    hide Genuine, Enabled, Apply;
    EnabledAt(st, k);
    var e := st.log[k];
    var signer := ValidatedBeforeAccepted(At(st, k), e);
    v :| 0 <= v < k && st.log[..k][v] == AccountValidated(e.batch, e.index, e.op, signer, e.word);
  }

  /**
   * No operation of a SimpleAccount commits twice, in the same batch, another or a nested one, unless it creates
   * the account and its two creations overlap.
   */
  lemma CommitsTwiceOnlyByOverlap(st: State, j: nat, k: nat) returns (x: nat, y: nat)
    requires Genuine(st) && j < |st.log| && k < |st.log| && AcceptedTwice(st.log, j, k)
    requires var a := st.log[j].op.sender; a in st.code && st.code[a].Simple?
    ensures var op := st.log[j].op;
            IsCreating(op) && Overlapping(st.log, op.sender, x, y) && st.log[x].op == st.log[y].op == op
  {
    hide Genuine, Overlapping;
    var a := st.log[j].op.sender;
    x := ValidationOfAccepted(st, j);
    y := ValidationOfAccepted(st, k);
    if y < x {
      x, y := y, x;
    }
    if IsCreating(st.log[j].op) {
      SecondCreationOverlaps(st, a, x, y);
    } else {
      NoncesIncrease(st, a, x, y);
    }
  }

  lemma WordTellsSigner(st: State, e: Event)
    requires Enabled(st, e) && e.AccountValidated? && st.code[e.op.sender].Simple?
    ensures e.word == if e.signer == Some(st.code[e.op.sender].account.owner) then 0 else SIG_VALIDATION_FAILED
  {
  }

  lemma AcceptedWord(st: State, e: Event)
    requires Enabled(st, e) && e.Accepted?
    ensures e.aggregator == e.word % TWO_160 != SIG_VALIDATION_FAILED
  {
  }

  /** Every accepted operation of a SimpleAccount carries a signature of its owner. */
  lemma AcceptedIsSignedByOwner(st: State, k: nat) returns (v: nat)
    requires Genuine(st) && k < |st.log| && st.log[k].Accepted?
    requires var a := st.log[k].op.sender; a in st.code && st.code[a].Simple?
    ensures v < k && st.log[v].AccountValidated? && st.log[v].op == st.log[k].op
    ensures st.log[v].signer == Some(st.code[st.log[k].op.sender].account.owner)
    ensures st.log[k].aggregator == ZERO_ADDRESS
  {
    hide Replay, Enabled, Apply;
    v := ValidationOfAccepted(st, k);
    EnabledAt(st, v);
    EnabledAt(st, k);
    CodeWhenValidated(st, v);
    CodeStays(At(st, v), st, st.log[v].op.sender);
    WordTellsSigner(At(st, v), st.log[v]);
    AcceptedWord(At(st, k), st.log[k]);
  }
}
