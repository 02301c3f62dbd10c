/** The packed word an account or a paymaster returns from validation (Helpers.sol). */
module Validation {
  import opened Evm
  import opened Bits

  const MAX_UINT48: uint48 := TWO_48 - 1
  const SIG_VALIDATION_FAILED: uint256 := 1

  datatype ValidationData = ValidationData(aggregator: Address, validAfter: uint48, validUntil: uint48)

  function ShiftLeft(x: uint256, k: nat): uint256 {
    x * Pow2(k) % TWO_256
  }

  function ShiftRight(x: uint256, k: nat): nat {
    var d := Pow2(k);
    QuotientNonNegative(x, d);
    x / d
  }

  lemma QuotientNonNegative(x: nat, d: nat)
    requires d > 0
    ensures x / d >= 0
  {
  }

  function Parse(word: uint256): ValidationData {
    var validUntil := ToUint48(ShiftRight(word, 160));
    ValidationData(word % TWO_160,
                   ToUint48(ShiftRight(word, 48 + 160)),
                   if validUntil == 0 then MAX_UINT48 else validUntil)
  }

  function Intersect(account: uint256, paymaster: uint256): ValidationData {
    var a, pm := Parse(account), Parse(paymaster);
    ValidationData(if a.aggregator == ZERO_ADDRESS then pm.aggregator else a.aggregator,
                   if a.validAfter < pm.validAfter then pm.validAfter else a.validAfter,
                   if a.validUntil > pm.validUntil then pm.validUntil else a.validUntil)
  }

  function Pack(d: ValidationData): nat {
    BitOr(BitOr(d.aggregator, ShiftLeft(d.validUntil, 160)), ShiftLeft(d.validAfter, 160 + 48))
  }

  /** The overload for accounts that use no aggregator. */
  function PackFlag(sigFailed: bool, validUntil: uint48, validAfter: uint48): nat {
    BitOr(BitOr(if sigFailed then 1 else 0, ShiftLeft(validUntil, 160)), ShiftLeft(validAfter, 160 + 48))
  }

  function WordOf(d: ValidationData): (r: nat) {
    d.aggregator + TWO_160 * (d.validUntil + TWO_48 * d.validAfter)
  }

  predicate InWindow(now: nat, d: ValidationData) {
    d.validAfter <= now <= d.validUntil
  }

  /** The aggregator of a word, and whether `now` lies outside its window (EntryPoint.sol). */
  function GetValidationData(now: nat, word: uint256): (Address, bool) {
    if word == 0 then (ZERO_ADDRESS, false)
    else
      var d := Parse(word);
      (d.aggregator, now > d.validUntil || now < d.validAfter)
  }

  /** None when both words are acceptable, otherwise the reason of the `FailedOp`. */
  function CheckValidationData(now: nat, account: uint256, paymaster: uint256, expected: Address): Option<string> {
    var (aggregator, outOfTimeRange) := GetValidationData(now, account);
    var (pmAggregator, pmOutOfTimeRange) := GetValidationData(now, paymaster);
    if expected != aggregator then Some("AA24 signature error")
    else if outOfTimeRange then Some("AA22 expired or not due")
    else if pmAggregator != ZERO_ADDRESS then Some("AA34 signature error")
    else if pmOutOfTimeRange then Some("AA32 paymaster expired or not due")
    else None
  }

  // ---------- packing ----------

  /** The bitwise-or of the shifted fields is the arithmetic sum of the shifted fields, and fits a word. */
  lemma PackIsSum(d: ValidationData)
    ensures Pack(d) == WordOf(d) < TWO_256
    ensures Pack(d) == d.aggregator + d.validUntil * 0x1_0000_0000_0000_0000_0000_0000_0000_0000_0000_0000
                       + d.validAfter * (0x1_0000_0000_0000_0000_0000_0000_0000_0000_0000_0000 * 0x1_0000_0000_0000)
  {
    ShiftFits(d.validUntil, 160, TWO_160);
    ShiftFits(d.validAfter, 208, TWO_160 * TWO_48);
    var low := d.aggregator + d.validUntil * TWO_160;
    assert BitOr(d.aggregator, d.validUntil * TWO_160) == low by {
      DisjointAt(d.aggregator, d.validUntil, 160, TWO_160);
    }
    DisjointAt(low, d.validAfter, 208, TWO_160 * TWO_48);
  }

  lemma ShiftFits(x: uint48, k: nat, power: nat)
    requires (k == 160 && power == TWO_160) || (k == 208 && power == TWO_160 * TWO_48)
    ensures ShiftLeft(x, k) == x * power
  {
    Pow2Values(k);
  }

  lemma DisjointAt(a: nat, b: nat, k: nat, power: nat)
    requires (k == 160 && power == TWO_160) || (k == 208 && power == TWO_160 * TWO_48)
    requires a < power
    ensures BitOr(a, b * power) == a + b * power
  {
    Pow2Values(k);
    BitOrDisjoint(a, b, k);
  }

  /** The two overloads agree on the words they can both express. */
  lemma PackFlagIsPack(sigFailed: bool, validUntil: uint48, validAfter: uint48)
    ensures PackFlag(sigFailed, validUntil, validAfter)
         == Pack(ValidationData(if sigFailed then SIG_VALIDATION_FAILED else ZERO_ADDRESS, validAfter, validUntil))
         == (if sigFailed then 1 else 0) + TWO_160 * (validUntil + TWO_48 * validAfter)
  {
    PackIsSum(ValidationData(if sigFailed then 1 else 0, validAfter, validUntil));
  }

  /** Reading a word back is integer division by the field positions. */
  lemma ParseFields(word: uint256, aggregator: Address, until: uint48, after: uint48)
    requires word == aggregator + TWO_160 * (until + TWO_48 * after)
    ensures Parse(word) == ValidationData(aggregator, after, if until == 0 then MAX_UINT48 else until)
  {
    Pow2Values(160);
    Pow2Values(208);
    hide Pow2;
    ThreeFields(aggregator, TWO_160, until, TWO_48, after);
  }

  /** Three numbers packed into one. */
  lemma ThreeFields(a: nat, first: nat, b: nat, second: nat, c: nat)
    requires a < first && b < second
    ensures 0 <= b + second * c && 0 <= a + first * (b + second * c) && first * second > 0
    ensures var x := a + first * (b + second * c);
            x % first == a && (x / first) % second == b && x / (first * second) == c
  {
    DivMod(b, second, c);
    DivMod(a, first, b + second * c);
    Regroup(a, first, b, second, c);
    DivMod(a + first * b, first * second, c);
  }

  lemma Regroup(a: nat, first: nat, b: nat, second: nat, c: nat)
    requires a < first && b < second
    ensures 0 <= a + first * b < first * second
    ensures a + first * (b + second * c) == (a + first * b) + (first * second) * c
  {
    assert first * (second - b) == first * second - first * b;
    assert first * (second - b) >= first by {
      AtLeast(first, second - b);
    }
    assert first * (b + second * c) == first * b + first * (second * c);
    assert first * (second * c) == (first * second) * c;
  }

  lemma DivMod(low: nat, size: nat, high: nat)
    requires low < size
    ensures 0 <= low + size * high && (low + size * high) / size == high && (low + size * high) % size == low
  {
    var x := low + size * high;
    SameQuotient(size, x / size, x % size, high, low);
  }

  lemma SameQuotient(size: int, q: int, r: int, high: int, low: int)
    requires 0 <= r < size && 0 <= low < size && size * q + r == size * high + low
    ensures q == high && r == low
  {
    var d := q - high;
    assert size * d == size * q - size * high;
    if d > 0 {
      AtLeast(size, d);
    } else if d < 0 {
      AtLeast(size, -d);
    }
  }

  lemma AtLeast(size: int, d: int)
    requires size > 0 && d >= 1
    ensures size * d >= size && size * (-d) <= -size
  {
  }

  lemma ParseOfPack(d: ValidationData)
    ensures Pack(d) < TWO_256
    ensures Parse(Pack(d)) == d.(validUntil := if d.validUntil == 0 then MAX_UINT48 else d.validUntil)
  {
    PackIsSum(d);
    ParseFields(Pack(d), d.aggregator, d.validUntil, d.validAfter);
  }

  /** A word survives a parse and a pack exactly when its `validUntil` field is not zero. */
  lemma PackOfParse(word: uint256)
    ensures Pack(Parse(word)) == word <==> (word / TWO_160) % TWO_48 != 0
  {
    var aggregator, high := word % TWO_160, word / TWO_160;
    var until, after := high % TWO_48, high / TWO_48;
    assert word == aggregator + TWO_160 * (until + TWO_48 * after);
    assert after < TWO_48;
    ParseFields(word, aggregator, until, after);
    PackIsSum(Parse(word));
  }

  // ---------- on-chain acceptance against what simulation reports ----------

  /**
   * Within the range of uint48 timestamps, a pair of words is accepted for `expected` exactly when the
   * account names that aggregator, the paymaster names none, and the intersected window contains `now`.
   */
  lemma AcceptanceIsIntersection(now: nat, account: uint256, paymaster: uint256, expected: Address)
    requires now < TWO_48
    ensures CheckValidationData(now, account, paymaster, expected) == None
       <==> && Parse(account).aggregator == expected
            && Parse(paymaster).aggregator == ZERO_ADDRESS
            && InWindow(now, Intersect(account, paymaster))
  {
    ParseFields(0, 0, 0, 0);
  }

  /** Why a pair of words is refused: first the account's aggregator, its window, then the same of the paymaster. */
  lemma RefusalReason(now: nat, account: uint256, paymaster: uint256, expected: Address)
    ensures var r := CheckValidationData(now, account, paymaster, expected);
            var late, pmLate := account != 0 && !InWindow(now, Parse(account)), paymaster != 0
                && !InWindow(now, Parse(paymaster));
            var named, pmNamed := Parse(account).aggregator == expected, Parse(paymaster).aggregator == ZERO_ADDRESS;
            && (r == Some("AA24 signature error") <==> !named)
            && (r == Some("AA22 expired or not due") <==> named && late)
            && (r == Some("AA34 signature error") <==> named && !late && !pmNamed)
            && (r == Some("AA32 paymaster expired or not due") <==> named && !late && pmNamed && pmLate)
            && (r == None <==> named && !late && pmNamed && !pmLate)
  {
    ParseFields(0, 0, 0, 0);
    hide ShiftRight, ToUint48;
  }

  /** What `handleOps` accepts is exactly what simulation reports as usable without an aggregator. */
  lemma AcceptanceMatchesSimulation(now: nat, account: uint256, paymaster: uint256)
    requires now < TWO_48
    ensures CheckValidationData(now, account, paymaster, ZERO_ADDRESS) == None
       <==> var d := Intersect(account, paymaster); d.aggregator == ZERO_ADDRESS && InWindow(now, d)
    ensures forall expected: Address ::
              CheckValidationData(now, account, paymaster, expected) == None ==>
              var d := Intersect(account, paymaster); d.aggregator == expected && InWindow(now, d)
  {
    AcceptanceIsIntersection(now, account, paymaster, ZERO_ADDRESS);
    forall expected: Address | CheckValidationData(now, account, paymaster, expected) == None
      ensures var d := Intersect(account, paymaster); d.aggregator == expected && InWindow(now, d)
    {
      AcceptanceIsIntersection(now, account, paymaster, expected);
    }
  }

  /**
   * Past the last uint48 timestamp the two disagree: no intersected window contains `now`, yet the pair of
   * zero words, and only it, is still accepted.
   */
  lemma AcceptanceBeyondUint48(now: nat, account: uint256, paymaster: uint256, expected: Address)
    requires now >= TWO_48
    ensures !InWindow(now, Intersect(account, paymaster))
    ensures CheckValidationData(now, account, paymaster, expected) == None
       <==> account == 0 && paymaster == 0 && expected == ZERO_ADDRESS
  {
    assert Parse(account).validUntil <= MAX_UINT48 && Parse(paymaster).validUntil <= MAX_UINT48;
  }
}
