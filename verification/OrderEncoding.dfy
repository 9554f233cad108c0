/** The byte encoding of orders that both sides hash: `HashOrder` (backend/pkg/eip712/typehash.go) and
    `OrderTypes.hash` (contracts/src/libraries/OrderTypes.sol), after "Definition of encodeData" in
    EIP-712. Keccak is ideal: a digest is identified with what was digested. */
module OrderEncoding {
  import opened Domain

  type byte = b: int | 0 <= b < 256

  datatype Hash = OfText(text: string) | OfStruct(typeHash: Hash, words: seq<byte>)

  function Pow256(n: nat): (p: nat)
    ensures p > 0
  {
    if n == 0 then 1 else 256 * Pow256(n - 1)
  }

  const UINT256_LIMIT: nat := 0x1_0000000000000000_0000000000000000_0000000000000000_0000000000000000
  const ADDRESS_LIMIT: nat := 0x1_0000000000_0000000000_0000000000_0000000000

  lemma Limits()
    ensures Pow256(32) == UINT256_LIMIT && Pow256(20) == ADDRESS_LIMIT
  {
    assert Pow256(8) == 0x1_0000000000000000;
    assert Pow256(14) == 0x1_0000000000000000_000000000000;
    assert Pow256(26) == 0x1_0000000000000000_0000000000000000_0000000000000000_0000;
  }

  // ---------------------------------------------------------------- numbers as bytes

  /** The low `width` bytes of `n`, most significant first. */
  function BigEndian(n: nat, width: nat): (bs: seq<byte>)
    ensures |bs| == width
  {
    if width == 0 then [] else BigEndian(n / 256, width - 1) + [n % 256]
  }

  /** The number a byte string stands for (`big.Int.SetBytes`). */
  function FromBytes(bs: seq<byte>): nat {
    if bs == [] then 0 else 256 * FromBytes(bs[..|bs| - 1]) + bs[|bs| - 1]
  }

  lemma {:induction false} ReadBack(n: nat, width: nat)
    requires n < Pow256(width)
    ensures FromBytes(BigEndian(n, width)) == n
  {
    if width > 0 {
      ReadBack(n / 256, width - 1);
      assert BigEndian(n, width)[..width - 1] == BigEndian(n / 256, width - 1);
    }
  }

  lemma {:induction false} WriteBack(bs: seq<byte>)
    ensures FromBytes(bs) < Pow256(|bs|) && BigEndian(FromBytes(bs), |bs|) == bs
  {
    if bs != [] {
      WriteBack(bs[..|bs| - 1]);
      assert FromBytes(bs) / 256 == FromBytes(bs[..|bs| - 1]);
      assert bs == bs[..|bs| - 1] + [bs[|bs| - 1]];
    }
  }

  /** One 32-byte word of `abi.encode`. */
  function Word(n: nat): (bs: seq<byte>)
    ensures |bs| == 32
  {
    BigEndian(n, 32)
  }

  // ---------------------------------------------------------------- the Go side

  /** `big.Int.Bytes`: the minimal big-endian bytes of the absolute value. */
  function MinimalBytes(n: int): seq<byte>
    decreases if n < 0 then -2 * n + 1 else 2 * n
  {
    if n < 0 then MinimalBytes(-n)
    else if n == 0 then []
    else MinimalBytes(n / 256) + [n % 256]
  }

  function Zeros(n: nat): (bs: seq<byte>)
    ensures |bs| == n
  {
    seq(n, _ => 0)
  }

  /** `common.LeftPadBytes` */
  function LeftPadBytes(bs: seq<byte>, l: nat): seq<byte> {
    if l <= |bs| then bs else Zeros(l - |bs|) + bs
  }

  function Abs(n: int): nat {
    if n < 0 then -n else n
  }

  lemma {:induction false} PaddingKeepsValue(k: nat, bs: seq<byte>)
    ensures FromBytes(Zeros(k) + bs) == FromBytes(bs)
    decreases k + |bs|
  {
    if bs != [] {
      PaddingKeepsValue(k, bs[..|bs| - 1]);
      assert (Zeros(k) + bs)[..k + |bs| - 1] == Zeros(k) + bs[..|bs| - 1];
    } else if k > 0 {
      PaddingKeepsValue(k - 1, []);
      assert (Zeros(k) + bs)[..k - 1] == Zeros(k - 1) + [];
    }
  }

  lemma {:induction false} MinimalBytesValue(n: nat, width: nat)
    ensures FromBytes(MinimalBytes(n)) == n
    ensures n < Pow256(width) <==> |MinimalBytes(n)| <= width
    decreases n
  {
    if n > 0 {
      MinimalBytesValue(n / 256, if width > 0 then width - 1 else 0);
      assert MinimalBytes(n)[..|MinimalBytes(n)| - 1] == MinimalBytes(n / 256);
    }
  }

  lemma SignIsLost(n: int)
    ensures MinimalBytes(n) == MinimalBytes(Abs(n))
  {
  }

  /** Go's padded word for the integer `n` is the contract's word for `m` exactly when `m` is the
      absolute value of `n`: the sign is lost, and a value too large for a word matches none. */
  lemma GoWordAgrees(n: int, m: nat)
    requires m < UINT256_LIMIT
    ensures LeftPadBytes(MinimalBytes(n), 32) == Word(m) <==> Abs(n) == m
  {
    hide Pow256, BigEndian, FromBytes, MinimalBytes;
    Limits();
    SignIsLost(n);
    var bs := MinimalBytes(Abs(n));
    MinimalBytesValue(Abs(n), 32);
    if |bs| <= 32 {
      PaddingKeepsValue(32 - |bs|, bs);
      WriteBack(LeftPadBytes(bs, 32));
    }
    ReadBack(m, 32);
  }

  /** A 20-byte address padded to a word. */
  lemma AddressWordAgrees(a: nat)
    requires a < ADDRESS_LIMIT
    ensures LeftPadBytes(BigEndian(a, 20), 32) == Word(a)
  {
    Limits();
    ReadBack(a, 20);
    PaddingKeepsValue(12, BigEndian(a, 20));
    WriteBack(LeftPadBytes(BigEndian(a, 20), 32));
  }

  // ---------------------------------------------------------------- orders

  predicate InRange(o: OrderData) {
    && o.maker < ADDRESS_LIMIT && o.tokenSell < ADDRESS_LIMIT && o.tokenBuy < ADDRESS_LIMIT
    && o.amountSell < UINT256_LIMIT && o.amountBuy < UINT256_LIMIT
    && o.expiry < UINT256_LIMIT && o.nonce < UINT256_LIMIT && o.salt < UINT256_LIMIT
  }

  /** OrderTypes.sol line 16 */
  const ORDER_TYPEHASH: Hash := OfText(
    "Order(address maker,address tokenSell,address tokenBuy,uint256 amountSell,uint256 amountBuy,"
    + "uint256 expiry,uint256 nonce,uint256 salt)")

  /** typehash.go line 10 */
  const GO_ORDER_TYPEHASH: Hash := OfText(
    "Order(address maker,address tokenSell,address tokenBuy,uint256 amountSell,uint256 amountBuy,"
    + "uint256 expiry,uint256 nonce,uint256 salt)")

  function AbiEncode(o: OrderData): (bs: seq<byte>)
    ensures |bs| == 256
  {
    Word(o.maker) + Word(o.tokenSell) + Word(o.tokenBuy) + Word(o.amountSell)
    + Word(o.amountBuy) + Word(o.expiry) + Word(o.nonce) + Word(o.salt)
  }

  /** OrderTypes.hash */
  function OrderHash(o: OrderData): Hash {
    OfStruct(ORDER_TYPEHASH, AbiEncode(o))
  }

  /** HashOrder */
  function GoOrderHash(o: OrderData): Hash {
    OfStruct(GO_ORDER_TYPEHASH,
      LeftPadBytes(BigEndian(o.maker, 20), 32) + LeftPadBytes(BigEndian(o.tokenSell, 20), 32)
      + LeftPadBytes(BigEndian(o.tokenBuy, 20), 32)
      + LeftPadBytes(MinimalBytes(o.amountSell), 32) + LeftPadBytes(MinimalBytes(o.amountBuy), 32)
      + LeftPadBytes(MinimalBytes(o.expiry), 32) + LeftPadBytes(MinimalBytes(o.nonce), 32)
      + LeftPadBytes(MinimalBytes(o.salt), 32))
  }

  /** Both sides hash an order in range to the same digest. */
  lemma HashesAgree(o: OrderData)
    requires InRange(o)
    ensures GoOrderHash(o) == OrderHash(o)
  {
    AddressWordAgrees(o.maker);
    AddressWordAgrees(o.tokenSell);
    AddressWordAgrees(o.tokenBuy);
    GoWordAgrees(o.amountSell, o.amountSell);
    GoWordAgrees(o.amountBuy, o.amountBuy);
    GoWordAgrees(o.expiry, o.expiry);
    GoWordAgrees(o.nonce, o.nonce);
    GoWordAgrees(o.salt, o.salt);
  }

  function WordAt(bs: seq<byte>, i: nat): nat
    requires 32 * i + 32 <= |bs|
  {
    FromBytes(bs[32 * i..32 * i + 32])
  }

  function Decode(bs: seq<byte>): OrderData
    requires |bs| == 256
  {
    OrderData(WordAt(bs, 0), WordAt(bs, 1), WordAt(bs, 2), WordAt(bs, 3),
              WordAt(bs, 4), WordAt(bs, 5), WordAt(bs, 6), WordAt(bs, 7))
  }

  lemma ReadWord(n: nat)
    requires n < UINT256_LIMIT
    ensures FromBytes(Word(n)) == n
  {
    Limits();
    ReadBack(n, 32);
  }

  lemma EncodingRoundTrip(o: OrderData)
    requires InRange(o)
    ensures Decode(AbiEncode(o)) == o
  {
    var bs := AbiEncode(o);
    assert |Word(o.maker)| == |Word(o.tokenSell)| == |Word(o.tokenBuy)| == |Word(o.amountSell)| == 32;
    assert |Word(o.amountBuy)| == |Word(o.expiry)| == |Word(o.nonce)| == |Word(o.salt)| == 32;
    assert bs[0..32] == Word(o.maker) && bs[32..64] == Word(o.tokenSell);
    assert bs[64..96] == Word(o.tokenBuy) && bs[96..128] == Word(o.amountSell);
    assert bs[128..160] == Word(o.amountBuy) && bs[160..192] == Word(o.expiry);
    assert bs[192..224] == Word(o.nonce);
    assert bs[224..256] == bs[224..] == Word(o.salt);
    ReadWord(o.maker); ReadWord(o.tokenSell); ReadWord(o.tokenBuy); ReadWord(o.amountSell);
    ReadWord(o.amountBuy); ReadWord(o.expiry); ReadWord(o.nonce); ReadWord(o.salt);
  }

  /** The words are the fields in the order in which the type string names them. */
  lemma WordsInOrder(o: OrderData, i: nat)
    requires InRange(o) && i < 8
    ensures WordAt(AbiEncode(o), i) ==
      [o.maker, o.tokenSell, o.tokenBuy, o.amountSell, o.amountBuy, o.expiry, o.nonce, o.salt][i]
  {
    hide AbiEncode, WordAt;
    EncodingRoundTrip(o);
  }

  /** An order hash stands for one order. */
  lemma HashIsInjective(a: OrderData, b: OrderData)
    requires InRange(a) && InRange(b) && OrderHash(a) == OrderHash(b)
    ensures a == b
  {
    EncodingRoundTrip(a);
    EncodingRoundTrip(b);
  }
}
