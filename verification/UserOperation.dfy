/** The user operation and its big-endian byte encoding. */
module UserOperations {
  import opened Evm
  import opened Bits

  datatype UserOperation = UserOperation(
    sender: Address,
    nonce: uint256,
    initCode: bytes,
    callData: bytes,
    callGasLimit: uint256,
    verificationGasLimit: uint256,
    preVerificationGas: uint256,
    maxFeePerGas: uint256,
    maxPriorityFeePerGas: uint256,
    paymasterAndData: bytes,
    signature: bytes)

  /** The price an operation agrees to pay per unit of gas. */
  function GasPrice(maxFeePerGas: uint256, maxPriorityFeePerGas: uint256, basefee: uint256): uint256 {
    if maxFeePerGas == maxPriorityFeePerGas then maxFeePerGas
    else Min(maxFeePerGas, Wrap(maxPriorityFeePerGas + basefee))
  }

  /** The `k` low bytes of `n`, most significant first. */
  function BigEndian(n: nat, k: nat): (s: seq<byte>)
    ensures |s| == k
  {
    if k == 0 then [] else BigEndian(n / 0x100, k - 1) + [n % 0x100]
  }

  function NatOf(s: seq<byte>): nat {
    if |s| == 0 then 0 else NatOf(s[..|s| - 1]) * 0x100 + s[|s| - 1]
  }

  lemma {:induction false} NatOfBigEndian(n: nat, k: nat)
    requires n < Pow2(8 * k)
    ensures NatOf(BigEndian(n, k)) == n
  {
    if k > 0 {
      var j := 8 * (k - 1);
      assert Pow2(8 * k) == Pow2(j) * 0x100 by {
        Pow2Sum(j, 8, Pow2(j), 0x100);
        assert j + 8 == 8 * k;
      }
      assert n / 0x100 < Pow2(j);
      NatOfBigEndian(n / 0x100, k - 1);
      assert BigEndian(n, k)[..k - 1] == BigEndian(n / 0x100, k - 1);
    }
  }

  lemma {:induction false} NatOfBound(s: seq<byte>)
    ensures NatOf(s) < Pow2(8 * |s|)
  {
    if |s| > 0 {
      NatOfBound(s[..|s| - 1]);
      var j := 8 * (|s| - 1);
      Pow2Sum(j, 8, Pow2(j), 0x100);
      assert j + 8 == 8 * |s|;
    }
  }

  /** The address in the first 20 bytes of a byte string. */
  function AddressOf(s: seq<byte>): Address
    requires |s| >= 20
  {
    NatOfBound(s[..20]);
    Pow2Values(160);
    NatOf(s[..20])
  }

  function Word(n: uint256): (s: seq<byte>)
    ensures |s| == 32
  {
    BigEndian(n, 32)
  }

  lemma NatOfWord(n: uint256)
    ensures NatOf(Word(n)) == n
  {
    var k := 128;
    Pow2Values(160);
    Pow2Values(48);
    Pow2Sum(160, 48, TWO_160, TWO_48);
    Pow2Sum(208, 48, TWO_160 * TWO_48, TWO_48);
    NatOfBigEndian(n, 32);
  }
}

/** Contract ABI encoding of a user operation, and the two implementations of its signing form. */
module Packing {
  import opened Evm
  import opened UserOperations

  /** Bytes in the fixed part of an encoded user operation: eleven words. */
  const HEAD_SIZE := 11 * 32

  function Zeros(n: nat): (s: seq<byte>)
    ensures |s| == n
  {
    seq(n, _ => 0)
  }

  /** A dynamic byte string: its length, its content, and zeros up to a whole number of words. */
  function EncodeBytes(b: bytes): (s: seq<byte>)
    ensures |s| == 32 + |b| + (32 - |b| % 32) % 32
  {
    Word(|b|) + b + Zeros((32 - |b| % 32) % 32)
  }

  function Words(ws: seq<uint256>): (s: seq<byte>)
    ensures |s| == 32 * |ws|
  {
    if |ws| == 0 then [] else Word(ws[0]) + Words(ws[1..])
  }

  /** Where each dynamic field starts, counted from the start of the tuple. */
  function CallDataOffset(op: UserOperation): uint256 { HEAD_SIZE + |EncodeBytes(op.initCode)| }
  function PaymasterOffset(op: UserOperation): uint256 { CallDataOffset(op) + |EncodeBytes(op.callData)| }
  function SignatureOffset(op: UserOperation): uint256 { PaymasterOffset(op) + |EncodeBytes(op.paymasterAndData)| }

  function HeadWords(op: UserOperation): (ws: seq<uint256>)
    ensures |ws| == 11
  {
    [ op.sender, op.nonce, HEAD_SIZE, CallDataOffset(op),
      op.callGasLimit, op.verificationGasLimit, op.preVerificationGas,
      op.maxFeePerGas, op.maxPriorityFeePerGas,
      PaymasterOffset(op), SignatureOffset(op) ]
  }

  /** The dynamic fields that come before the signature. */
  function Tails(op: UserOperation): seq<byte> {
    EncodeBytes(op.initCode) + EncodeBytes(op.callData) + EncodeBytes(op.paymasterAndData)
  }

  /** The bytes a signature commits to. */
  function SigningBytes(op: UserOperation): (s: seq<byte>)
    ensures |s| == SignatureOffset(op)
  {
    Words(HeadWords(op)) + Tails(op)
  }

  /** The canonical ABI encoding of the tuple: the signature comes last. */
  function EncodeTuple(op: UserOperation): seq<byte> {
    SigningBytes(op) + EncodeBytes(op.signature)
  }

  // ---------- Solidity: copy calldata from the tuple up to the signature ----------

  function WordAt(data: seq<byte>, ofs: nat): nat
    requires ofs + 32 <= |data|
  {
    NatOf(data[ofs..ofs + 32])
  }

  /** The calldata accessor of the last field, with the bounds checks the compiler emits. */
  function SignatureDataOffset(data: seq<byte>, ofs: nat): Option<nat> {
    if ofs + HEAD_SIZE > |data| then None
    else
      var rel := WordAt(data, ofs + 10 * 32);
      if ofs + rel + 31 >= |data| then None
      else
        var length := WordAt(data, ofs + rel);
        if length >= TWO_64 || ofs + rel + 32 + length > |data| then None
        else Some(ofs + rel + 32)
  }

  function Pack(data: seq<byte>, ofs: nat): Option<seq<byte>> {
    var sigOffset :- SignatureDataOffset(data, ofs);
    var len := sigOffset - ofs - 32;
    Some(data[ofs..ofs + len])
  }

  // ---------- TypeScript: encode with an empty signature, cut the hex string at both ends ----------

  function HexDigit(d: nat): char
    requires d < 16
  {
    "0123456789abcdef"[d]
  }

  function HexByte(x: byte): (h: string)
    ensures |h| == 2
  {
    [HexDigit(x / 16), HexDigit(x % 16)]
  }

  function Hex(s: seq<byte>): (h: string)
    ensures |h| == 2 * |s|
  {
    if |s| == 0 then "" else HexByte(s[0]) + Hex(s[1..])
  }

  /** `defaultAbiCoder.encode` of a single dynamic tuple: one offset word, then the tuple. */
  function AbiCoderEncode(op: UserOperation): string {
    "0x" + Hex(Word(32) + EncodeTuple(op))
  }

  function PackUserOp(op: UserOperation): string {
    var encoded := AbiCoderEncode(op.(signature := []));
    "0x" + encoded[66..|encoded| - 64]
  }

  // ---------- decoding ----------

  function BytesAt(data: seq<byte>, ofs: nat): Option<bytes> {
    if ofs + 32 > |data| then None
    else
      var length := WordAt(data, ofs);
      if length >= TWO_64 || ofs + 32 + length > |data| then None
      else Some(data[ofs + 32..ofs + 32 + length])
  }

  function ReadWords(data: seq<byte>, n: nat): (ws: seq<nat>)
    requires 32 * n <= |data|
    ensures |ws| == n
  {
    seq(n, i requires 0 <= i < n => WordAt(data, 32 * i))
  }

  /** Rebuild an operation from its head words and the bytes its offsets point into. */
  function Assemble(w: seq<nat>, data: seq<byte>): Option<UserOperation>
    requires |w| == 11
  {
    var initCode := BytesAt(data, w[2]);
    var callData := BytesAt(data, w[3]);
    var paymasterAndData := BytesAt(data, w[9]);
    if initCode == None || callData == None || paymasterAndData == None
       || w[0] >= TWO_160 || exists i :: 0 <= i < 11 && w[i] >= TWO_256
    then None
    else Some(UserOperation(w[0], w[1], initCode.value, callData.value, w[4], w[5], w[6], w[7], w[8],
                            paymasterAndData.value, []))
  }

  function Decode(data: seq<byte>): Option<UserOperation> {
    if |data| < HEAD_SIZE then None else Assemble(ReadWords(data, 11), data)
  }

  // ---------- lemmas ----------

  lemma {:induction false} WordsSlice(ws: seq<uint256>, i: nat, rest: seq<byte>)
    requires i < |ws|
    ensures (Words(ws) + rest)[32 * i..32 * i + 32] == Word(ws[i])
  {
    if i > 0 {
      WordsSlice(ws[1..], i - 1, rest);
      var tail := Words(ws[1..]) + rest;
      assert Words(ws) + rest == Word(ws[0]) + tail;
      assert (Word(ws[0]) + tail)[32 * i..32 * i + 32] == tail[32 * (i - 1)..32 * (i - 1) + 32];
    }
  }

  /** The `i`-th head word can be read back whatever surrounds the tuple. */
  lemma HeadWordAt(pre: seq<byte>, op: UserOperation, rest: seq<byte>, i: nat)
    requires i < 11
    ensures WordAt(pre + Words(HeadWords(op)) + rest, |pre| + 32 * i) == HeadWords(op)[i]
  {
    var body := Words(HeadWords(op)) + rest;
    WordsSlice(HeadWords(op), i, rest);
    var data := pre + Words(HeadWords(op)) + rest;
    assert data == pre + body;
    assert data[|pre| + 32 * i..|pre| + 32 * i + 32] == body[32 * i..32 * i + 32];
    NatOfWord(HeadWords(op)[i]);
  }

  lemma BytesAtEncoded(pre: seq<byte>, b: bytes, rest: seq<byte>)
    ensures BytesAt(pre + EncodeBytes(b) + rest, |pre|) == Some(b)
  {
    var data := pre + EncodeBytes(b) + rest;
    assert data[|pre|..|pre| + 32] == Word(|b|);
    NatOfWord(|b|);
    assert data[|pre| + 32..|pre| + 32 + |b|] == b;
  }

  lemma PackOfParts(pre: seq<byte>, body: seq<byte>, signature: bytes, post: seq<byte>)
    requires HEAD_SIZE <= |body|
    requires WordAt(pre + body + EncodeBytes(signature) + post, |pre| + 10 * 32) == |body|
    ensures Pack(pre + body + EncodeBytes(signature) + post, |pre|) == Some(body)
  {
    var data := pre + body + EncodeBytes(signature) + post;
    var before := pre + body;
    BytesAtEncoded(before, signature, post);
    assert data[|pre|..|pre| + |body|] == body;
  }

  /** On canonical calldata the Solidity pack yields the signing bytes, wherever the tuple lies. */
  lemma PackOfCanonical(pre: seq<byte>, op: UserOperation, post: seq<byte>)
    ensures Pack(pre + EncodeTuple(op) + post, |pre|) == Some(SigningBytes(op))
  {
    var body, tail := SigningBytes(op), EncodeBytes(op.signature);
    var head, rest := Words(HeadWords(op)), Tails(op);
    Regroup(pre, head, rest, tail, post);
    HeadWordAt(pre, op, rest + tail + post, 10);
    PackOfParts(pre, body, op.signature, post);
  }

  lemma Regroup(a: seq<byte>, b: seq<byte>, c: seq<byte>, d: seq<byte>, e: seq<byte>)
    ensures a + b + (c + d + e) == a + (b + c) + d + e == a + ((b + c) + d) + e
  {
    assert b + (c + d + e) == (b + c) + d + e;
  }

  lemma HexOfNothing()
    ensures Hex([]) == []
  {
  }

  lemma {:induction false} HexAppend(a: seq<byte>, b: seq<byte>)
    ensures Hex(a + b) == Hex(a) + Hex(b)
  {
    hide Hex, HexByte;
    if |a| == 0 {
      assert a + b == b && a == [];
      HexOfNothing();
    } else {
      HexAppend(a[1..], b);
      HexOfCons(a[0], a[1..] + b);
      HexOfCons(a[0], a[1..]);
      assert a + b == [a[0]] + (a[1..] + b) && a == [a[0]] + a[1..];
      assert HexByte(a[0]) + (Hex(a[1..]) + Hex(b)) == (HexByte(a[0]) + Hex(a[1..])) + Hex(b);
    }
  }

  lemma HexOfCons(x: byte, s: seq<byte>)
    ensures Hex([x] + s) == HexByte(x) + Hex(s)
  {
    assert ([x] + s)[1..] == s;
  }

  lemma HexOfMiddle(first: seq<byte>, middle: seq<byte>, last: seq<byte>)
    requires |first| == 32 && |last| == 32
    ensures var encoded := "0x" + Hex(first + middle + last);
            encoded[66..|encoded| - 64] == Hex(middle)
  {
    HexAppend(first + middle, last);
    HexAppend(first, middle);
  }

  /** The TypeScript pack is the hex form of the same bytes: the two implementations agree. */
  lemma PackUserOpIsSigningBytes(op: UserOperation)
    ensures PackUserOp(op) == "0x" + Hex(SigningBytes(op))
  {
    var stripped := op.(signature := []);
    var empty: bytes := [];
    assert EncodeBytes(empty) == Word(0);
    assert HeadWords(stripped) == HeadWords(op);
    assert EncodeTuple(stripped) == SigningBytes(op) + Word(0);
    assert Word(32) + (SigningBytes(op) + Word(0)) == Word(32) + SigningBytes(op) + Word(0);
    HexOfMiddle(Word(32), SigningBytes(op), Word(0));
  }

  /** Both implementations on one operation, and what each of them leaves out. */
  lemma ImplementationsAgree(pre: seq<byte>, op: UserOperation, post: seq<byte>, signature: bytes)
    ensures Pack(pre + EncodeTuple(op) + post, |pre|).Some?
    ensures PackUserOp(op) == "0x" + Hex(Pack(pre + EncodeTuple(op) + post, |pre|).value)
    ensures PackUserOp(op) == PackUserOp(op.(signature := signature))
  {
    PackOfCanonical(pre, op, post);
    PackUserOpIsSigningBytes(op);
    PackUserOpIsSigningBytes(op.(signature := signature));
  }

  /** The signing bytes determine every field but the signature. */
  lemma DecodeOfSigningBytes(op: UserOperation)
    ensures Decode(SigningBytes(op)) == Some(op.(signature := []))
  {
    SigningWords(op);
    SigningTails(op);
  }

  /** The words of the tuple are the fields in the order of the struct; the dynamic ones are where theirs point. */
  lemma FieldLayout(op: UserOperation)
    ensures |SigningBytes(op)| >= 32 * 11
    ensures var data := SigningBytes(op);
            && WordAt(data, 0) == op.sender && WordAt(data, 32) == op.nonce
            && BytesAt(data, WordAt(data, 64)) == Some(op.initCode)
            && BytesAt(data, WordAt(data, 96)) == Some(op.callData)
            && WordAt(data, 128) == op.callGasLimit && WordAt(data, 160) == op.verificationGasLimit
            && WordAt(data, 192) == op.preVerificationGas && WordAt(data, 224) == op.maxFeePerGas
            && WordAt(data, 256) == op.maxPriorityFeePerGas
            && BytesAt(data, WordAt(data, 288)) == Some(op.paymasterAndData) && WordAt(data, 320) == |data|
  {
    SigningWords(op);
    SigningTails(op);
    var data, words := SigningBytes(op), ReadWords(SigningBytes(op), 11);
    hide SigningBytes, BytesAt, WordAt;
    assert words[0] == WordAt(data, 0) && words[1] == WordAt(data, 32) && words[2] == WordAt(data, 64);
    assert words[3] == WordAt(data, 96) && words[4] == WordAt(data, 128) && words[5] == WordAt(data, 160);
    assert words[6] == WordAt(data, 192) && words[7] == WordAt(data, 224) && words[8] == WordAt(data, 256);
    assert words[9] == WordAt(data, 288) && words[10] == WordAt(data, 320);
  }

  lemma SigningWords(op: UserOperation)
    ensures ReadWords(SigningBytes(op), 11) == HeadWords(op)
  {
    var data, head, rest := SigningBytes(op), Words(HeadWords(op)), Tails(op);
    assert data == [] + head + rest;
    forall i: nat | i < 11
      ensures WordAt(data, 32 * i) == HeadWords(op)[i]
    {
      HeadWordAt([], op, rest, i);
    }
  }

  lemma SigningTails(op: UserOperation)
    ensures BytesAt(SigningBytes(op), HEAD_SIZE) == Some(op.initCode)
    ensures BytesAt(SigningBytes(op), CallDataOffset(op)) == Some(op.callData)
    ensures BytesAt(SigningBytes(op), PaymasterOffset(op)) == Some(op.paymasterAndData)
  {
    TailsAt(Words(HeadWords(op)), op.initCode, op.callData, op.paymasterAndData, SigningBytes(op));
  }

  lemma TailsAt(head: seq<byte>, x: bytes, y: bytes, z: bytes, data: seq<byte>)
    requires data == head + (EncodeBytes(x) + EncodeBytes(y) + EncodeBytes(z))
    ensures BytesAt(data, |head|) == Some(x)
    ensures BytesAt(data, |head| + |EncodeBytes(x)|) == Some(y)
    ensures BytesAt(data, |head| + |EncodeBytes(x)| + |EncodeBytes(y)|) == Some(z)
  {
    var a, b, c := EncodeBytes(x), EncodeBytes(y), EncodeBytes(z);
    Reassociate(head, a, b, c);
    BytesAtEncoded(head, x, b + c);
    BytesAtEncoded(head + a, y, c);
    BytesAtEncoded(head + a + b, z, []);
  }

  lemma Reassociate(h: seq<byte>, a: seq<byte>, b: seq<byte>, c: seq<byte>)
    ensures h + (a + b + c) == h + a + (b + c) == h + a + b + c == h + a + b + c + []
  {
  }

  // ---------- the user operation hash ----------

  /** A hash function; 32-byte digests are read as words. */
  type Keccak = seq<byte> -> uint256

  /** `getUserOpHash` of EntryPoint.sol and of UserOp.ts, given the packed bytes each of them hashes. */
  function UserOpHash(keccak: Keccak, packed: seq<byte>, entryPoint: Address, chainId: uint256): uint256 {
    keccak(HashedMessage(keccak, packed, entryPoint, chainId))
  }

  /** The 96 bytes of which the user operation hash is the hash. */
  function HashedMessage(keccak: Keccak, packed: seq<byte>, entryPoint: Address, chainId: uint256): seq<byte> {
    Word(keccak(packed)) + Word(entryPoint) + Word(chainId)
  }

  /** The message that is hashed last: the hash of the operation, the entry point and the chain, a word each. */
  lemma MessageLayout(keccak: Keccak, packed: seq<byte>, entryPoint: Address, chainId: uint256)
    ensures var message := HashedMessage(keccak, packed, entryPoint, chainId);
            && |message| == 96 && UserOpHash(keccak, packed, entryPoint, chainId) == keccak(message)
            && NatOf(message[..32]) == keccak(packed) && NatOf(message[32..64]) == entryPoint
            && NatOf(message[64..]) == chainId
  {
    hide Word;
    NatOfWord(keccak(packed));
    NatOfWord(entryPoint);
    NatOfWord(chainId);
    var message := HashedMessage(keccak, packed, entryPoint, chainId);
    assert message[..32] == Word(keccak(packed)) && message[32..64] == Word(entryPoint)
           && message[64..] == Word(chainId);
  }

  /** Two given messages with one hash. */
  predicate Collision(keccak: Keccak, a: seq<byte>, b: seq<byte>) {
    a != b && keccak(a) == keccak(b)
  }

  lemma MessageDetermines(d: uint256, d': uint256, entryPoint: Address, entryPoint': Address, chainId: uint256,
                          chainId': uint256)
    requires Word(d) + Word(entryPoint) + Word(chainId) == Word(d') + Word(entryPoint') + Word(chainId')
    ensures d == d' && entryPoint == entryPoint' && chainId == chainId'
  {
    var s, s' := Word(d) + Word(entryPoint) + Word(chainId), Word(d') + Word(entryPoint') + Word(chainId');
    assert s[..32] == Word(d) && s'[..32] == Word(d');
    assert s[32..64] == Word(entryPoint) && s'[32..64] == Word(entryPoint');
    assert s[64..96] == Word(chainId) && s'[64..96] == Word(chainId');
    NatOfWord(d);
    NatOfWord(d');
    NatOfWord(entryPoint);
    NatOfWord(entryPoint');
    NatOfWord(chainId);
    NatOfWord(chainId');
  }

  /**
   * Two operations share a hash exactly when they agree on every field but the signature, on the entry point and
   * on the chain, or when the messages hashed for these very operations collide: the outer messages, or the signing
   * bytes for one entry point and chain.
   */
  lemma HashBindsOperation(keccak: Keccak, op: UserOperation, op': UserOperation,
                           entryPoint: Address, entryPoint': Address, chainId: uint256, chainId': uint256)
    ensures UserOpHash(keccak, SigningBytes(op), entryPoint, chainId)
            == UserOpHash(keccak, SigningBytes(op'), entryPoint', chainId')
       <==> || (op.(signature := []) == op'.(signature := []) && entryPoint == entryPoint' && chainId == chainId')
            || (Collision(keccak, SigningBytes(op), SigningBytes(op'))
                && entryPoint == entryPoint' && chainId == chainId')
            || Collision(keccak, HashedMessage(keccak, SigningBytes(op), entryPoint, chainId),
                         HashedMessage(keccak, SigningBytes(op'), entryPoint', chainId'))
  {
    assert SigningBytes(op) == SigningBytes(op.(signature := []));
    assert SigningBytes(op') == SigningBytes(op'.(signature := []));
    var d, d' := keccak(SigningBytes(op)), keccak(SigningBytes(op'));
    hide Word, SigningBytes;
    if HashedMessage(keccak, SigningBytes(op), entryPoint, chainId)
        == HashedMessage(keccak, SigningBytes(op'), entryPoint', chainId') {
      MessageDetermines(d, d', entryPoint, entryPoint', chainId, chainId');
      if SigningBytes(op) == SigningBytes(op') {
        DecodeOfSigningBytes(op);
        DecodeOfSigningBytes(op');
      }
    }
  }
}
