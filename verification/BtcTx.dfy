/** Bitcoin transactions: their serialization, and the size and fee the tool estimates for them. */
module BtcTx {
  import opened Bytes
  import opened Script
  import opened BtcP2sh

  const UINT32: int := 0x1_0000_0000
  const UINT64: int := 0x1_0000_0000_0000_0000
  const MAX_SATOSHI: int := 21_000_000 * 100_000_000

  type Uint32 = n: int | 0 <= n < 0x1_0000_0000

  type Hash32 = b: Bytes | |b| == 32
    witness [0, 0, 0, 0, 0, 0, 0, 0, 0, 0, 0, 0, 0, 0, 0, 0, 0, 0, 0, 0, 0, 0, 0, 0, 0, 0, 0, 0, 0, 0, 0, 0]

  datatype TxIn = TxIn(prevHash: Hash32, prevIndex: Uint32, sigScript: Bytes, sequence: Uint32)

  datatype TxOut = TxOut(value: int, pkScript: Bytes)

  datatype Tx = Tx(version: int, ins: seq<TxIn>, outs: seq<TxOut>, lockTime: Uint32)

  // ---- Serialization ----

  function VarInt(n: nat): Bytes {
    if n < 0xfd then [n]
    else if n <= 0xffff then [0xfd] + Fixed(n, 2)
    else if n <= 0xffff_ffff then [0xfe] + Fixed(n, 4)
    else [0xff] + Fixed(n, 8)
  }

  function InBytes(i: TxIn): Bytes {
    i.prevHash + Fixed(i.prevIndex, 4) + VarInt(|i.sigScript|) + i.sigScript + Fixed(i.sequence, 4)
  }

  function OutBytes(o: TxOut): Bytes {
    Fixed(o.value % UINT64, 8) + VarInt(|o.pkScript|) + o.pkScript
  }

  function InsBytes(ins: seq<TxIn>): Bytes {
    if ins == [] then [] else InBytes(ins[0]) + InsBytes(ins[1..])
  }

  function OutsBytes(outs: seq<TxOut>): Bytes {
    if outs == [] then [] else OutBytes(outs[0]) + OutsBytes(outs[1..])
  }

  function Serialize(tx: Tx): Bytes {
    Fixed(tx.version % UINT32, 4) + VarInt(|tx.ins|) + InsBytes(tx.ins)
    + VarInt(|tx.outs|) + OutsBytes(tx.outs) + Fixed(tx.lockTime, 4)
  }

  // ---- Estimates ----

  const REDEEM_SIG_SIZE: nat := 1 + 73 + 1 + 33 + 1 + 32 + 1
  const REFUND_SIG_SIZE: nat := 1 + 73 + 1 + 33 + 1

  function VarIntSize(n: nat): (size: nat)
    ensures size == |VarInt(n)|
  {
    if n < 0xfd then 1 else if n <= 0xffff then 3 else if n <= 0xffff_ffff then 5 else 9
  }

  function OutSize(o: TxOut): (size: nat)
    ensures size == |OutBytes(o)|
  {
    8 + VarIntSize(|o.pkScript|) + |o.pkScript|
  }

  method SumOutputSerializeSizes(outs: seq<TxOut>) returns (size: nat)
    ensures size == |OutsBytes(outs)|
  {
    size := 0;
    for i := 0 to |outs|
      invariant size + |OutsBytes(outs[i..])| == |OutsBytes(outs)|
    {
      assert outs[i..][1..] == outs[i + 1..];
      size := size + OutSize(outs[i]);
    }
    assert outs[|outs|..] == [];
  }

  function InputSize(sigScriptSize: nat): nat {
    32 + 4 + VarIntSize(sigScriptSize) + sigScriptSize + 4
  }

  function Estimate(sigSize: nat, contract: Bytes, outs: seq<TxOut>): nat {
    12 + VarIntSize(1) + VarIntSize(|outs|) + InputSize(sigSize + |OpBytes(PushOp(contract))|) + |OutsBytes(outs)|
  }

  /** The contract is pushed whole, so it must be short enough for that. */
  method EstimateRedeemSerializeSize(contract: Bytes, outs: seq<TxOut>) returns (size: nat)
    requires Pushable(contract)
    ensures size == Estimate(REDEEM_SIG_SIZE, contract, outs)
  {
    var b := new ScriptBuilder();
    b.AddData(contract);
    var sum := SumOutputSerializeSizes(outs);
    size := 12 + VarIntSize(1) + VarIntSize(|outs|) + InputSize(REDEEM_SIG_SIZE + |b.script|) + sum;
  }

  method EstimateRefundSerializeSize(contract: Bytes, outs: seq<TxOut>) returns (size: nat)
    requires Pushable(contract)
    ensures size == Estimate(REFUND_SIG_SIZE, contract, outs)
  {
    var b := new ScriptBuilder();
    b.AddData(contract);
    var sum := SumOutputSerializeSizes(outs);
    size := 12 + VarIntSize(1) + VarIntSize(|outs|) + InputSize(REFUND_SIG_SIZE + |b.script|) + sum;
  }

  // ---- The estimate is a true worst case ----

  lemma OneInputSize(tx: Tx)
    requires |tx.ins| == 1
    ensures |Serialize(tx)| ==
            8 + VarIntSize(1) + VarIntSize(|tx.outs|) + InputSize(|tx.ins[0].sigScript|) + |OutsBytes(tx.outs)|
  {
    hide OutsBytes;
    assert tx.ins[1..] == [];
    assert InsBytes(tx.ins) == InBytes(tx.ins[0]) + [];
  }

  lemma InputSizeMonotone(a: nat, b: nat)
    requires a <= b
    ensures InputSize(a) <= InputSize(b)
  {
  }

  lemma {:induction false} PushBound(data: Bytes, n: nat)
    requires |data| <= n < OP_PUSHDATA1 && n >= 1
    ensures |OpBytes(PushOp(data))| <= 1 + n
    ensures |data| == n > 1 ==> |OpBytes(PushOp(data))| == 1 + n
  {
  }

  lemma {:induction false} RedeemSigSize(contract: Bytes, sig: Bytes, pubkey: Bytes, secret: Bytes)
    requires |sig| <= 73 && |pubkey| <= 33 && |secret| <= 32
    ensures |Unparse(RedeemSigOps(contract, sig, pubkey, secret))| <= REDEEM_SIG_SIZE + |OpBytes(PushOp(contract))|
    ensures |sig| == 73 && |pubkey| == 33 && |secret| == 32 ==>
              |Unparse(RedeemSigOps(contract, sig, pubkey, secret))| == REDEEM_SIG_SIZE + |OpBytes(PushOp(contract))|
  {
    hide OpBytes, PushOp;
    PushBound(sig, 73);
    PushBound(pubkey, 33);
    PushBound(secret, 32);
    IntWellFormed(1);
    var ops := RedeemSigOps(contract, sig, pubkey, secret);
    var r1, r2, r3, r4 := ops[1..], ops[1..][1..], ops[1..][1..][1..], ops[1..][1..][1..][1..];
    assert r4[1..] == [];
    assert |Unparse(r4)| == |OpBytes(ops[4])|;
    assert |Unparse(r3)| == |OpBytes(ops[3])| + |Unparse(r4)|;
    assert |Unparse(r2)| == |OpBytes(ops[2])| + |Unparse(r3)|;
    assert |Unparse(r1)| == |OpBytes(ops[1])| + |Unparse(r2)|;
  }

  lemma {:induction false} RefundSigSize(contract: Bytes, sig: Bytes, pubkey: Bytes)
    requires |sig| <= 73 && |pubkey| <= 33
    ensures |Unparse(RefundSigOps(contract, sig, pubkey))| <= REFUND_SIG_SIZE + |OpBytes(PushOp(contract))|
    ensures |sig| == 73 && |pubkey| == 33 ==>
              |Unparse(RefundSigOps(contract, sig, pubkey))| == REFUND_SIG_SIZE + |OpBytes(PushOp(contract))|
  {
    hide OpBytes, PushOp;
    PushBound(sig, 73);
    PushBound(pubkey, 33);
    IntWellFormed(0);
    var ops := RefundSigOps(contract, sig, pubkey);
    var r1, r2, r3 := ops[1..], ops[1..][1..], ops[1..][1..][1..];
    assert r3[1..] == [];
    assert |Unparse(r3)| == |OpBytes(ops[3])|;
    assert |Unparse(r2)| == |OpBytes(ops[2])| + |Unparse(r3)|;
    assert |Unparse(r1)| == |OpBytes(ops[1])| + |Unparse(r2)|;
  }

  /**
   * For every contract, every outputs and every signature of at most 73 bytes, the estimate for a
   * redeeming transaction exceeds its serialized length by at least 4, whatever the widths of the
   * length prefixes on either side.
   */
  lemma {:induction false} RedeemEstimateSafe(tx: Tx, contract: Bytes, sig: Bytes, pubkey: Bytes, secret: Bytes)
    requires |sig| <= 73 && |pubkey| <= 33 && |secret| <= 32
    requires |tx.ins| == 1 && tx.ins[0].sigScript == Unparse(RedeemSigOps(contract, sig, pubkey, secret))
    ensures Estimate(REDEEM_SIG_SIZE, contract, tx.outs) >= |Serialize(tx)| + 4
  {
    hide Unparse, Serialize, OutsBytes, OpBytes, PushOp;
    OneInputSize(tx);
    RedeemSigSize(contract, sig, pubkey, secret);
    InputSizeMonotone(|tx.ins[0].sigScript|, REDEEM_SIG_SIZE + |OpBytes(PushOp(contract))|);
  }

  lemma {:induction false} RefundEstimateSafe(tx: Tx, contract: Bytes, sig: Bytes, pubkey: Bytes)
    requires |sig| <= 73 && |pubkey| <= 33
    requires |tx.ins| == 1 && tx.ins[0].sigScript == Unparse(RefundSigOps(contract, sig, pubkey))
    ensures Estimate(REFUND_SIG_SIZE, contract, tx.outs) >= |Serialize(tx)| + 4
  {
    hide Unparse, Serialize, OutsBytes, OpBytes, PushOp;
    OneInputSize(tx);
    RefundSigSize(contract, sig, pubkey);
    InputSizeMonotone(|tx.ins[0].sigScript|, REFUND_SIG_SIZE + |OpBytes(PushOp(contract))|);
  }

  // ---- The fee ----

  /** Division that rounds toward zero. */
  function Quotient(n: int, d: nat): int
    requires d > 0
  {
    if n >= 0 then n / d else -(-n / d)
  }

  /** The fee for a size at a rate per thousand bytes, in whole satoshis and never above all there are. */
  function FeeForSize(ratePerKb: int, size: nat): int {
    var fee := Quotient(Int64(ratePerKb * size), 1000);
    var atLeast := if fee == 0 && ratePerKb > 0 then ratePerKb else fee;
    if atLeast < 0 || atLeast > MAX_SATOSHI then MAX_SATOSHI else atLeast
  }

  predicate Covers(fee: int, ratePerKb: nat, size: nat) { fee * 1000 >= ratePerKb * size }

  /** What rounding down, or the cap on all satoshis, takes off the fee: in thousandths. */
  function Dropped(due: nat): nat {
    if due > 1000 * MAX_SATOSHI then due - 1000 * MAX_SATOSHI else due % 1000
  }

  /** The four spare bytes outweigh what is dropped, or the fee is the rate itself. */
  predicate Covering(ratePerKb: nat, estimate: nat) {
    ratePerKb * estimate < 1000 || Dropped(ratePerKb * estimate) <= 4 * ratePerKb
  }

  /**
   * The fee paid for the estimate covers the rate on every size the estimate allows if and only if
   * the spare bytes outweigh what is dropped, as they do from 250 satoshis per thousand bytes up to
   * the cap; below the cap it is never short by a whole satoshi.
   */
  lemma {:induction false} FeeCovers(ratePerKb: nat, estimate: nat)
    requires estimate >= 4 && ratePerKb * estimate < INT64
    ensures (forall size: nat :: size + 4 <= estimate ==> Covers(FeeForSize(ratePerKb, estimate), ratePerKb, size))
            <==> Covering(ratePerKb, estimate)
    ensures ratePerKb >= 250 && ratePerKb * estimate <= 1000 * MAX_SATOSHI ==> Covering(ratePerKb, estimate)
  {
    hide Covers, Covering, FeeForSize;
    forall size: nat | size + 4 <= estimate
      ensures Covering(ratePerKb, estimate) ==> Covers(FeeForSize(ratePerKb, estimate), ratePerKb, size)
    {
      FeeOnSize(ratePerKb, estimate, size);
    }
    FeeOnSize(ratePerKb, estimate, estimate - 4);
  }

  lemma {:induction false} FeeOnSize(ratePerKb: nat, estimate: nat, size: nat)
    requires estimate >= size + 4 && ratePerKb * estimate < INT64
    ensures Covering(ratePerKb, estimate) ==> Covers(FeeForSize(ratePerKb, estimate), ratePerKb, size)
    ensures estimate == size + 4 && Covers(FeeForSize(ratePerKb, estimate), ratePerKb, size) ==>
              Covering(ratePerKb, estimate)
    ensures ratePerKb * estimate <= 1000 * MAX_SATOSHI ==>
              && FeeForSize(ratePerKb, estimate) >= ratePerKb * size / 1000
              && (ratePerKb >= 250 ==> Covering(ratePerKb, estimate))
  {
    hide Int64, Quotient;
    var due, owed := ratePerKb * estimate, ratePerKb * size;
    Distribute(ratePerKb, size, estimate - size);
    Spare(ratePerKb, estimate - size);
    Fee(ratePerKb, estimate, due);
    Rounded(due, owed);
  }

  lemma Spare(rate: nat, extra: nat)
    requires extra >= 4
    ensures rate * extra >= 4 * rate && (extra == 4 ==> rate * extra == 4 * rate)
  {
    Distribute(rate, 4, extra - 4);
  }

  lemma Distribute(a: nat, b: nat, c: nat)
    ensures a * (b + c) == a * b + a * c && a * c >= 0
  {
  }

  /**
   * The fee is the whole satoshis of rate times size over a thousand, but the rate itself where that
   * is none, and all the satoshis there are where it is more or below zero.
   */
  lemma {:induction false} FeeExact(ratePerKb: int, size: nat)
    requires -INT64 <= ratePerKb * size < INT64
    ensures var due, fee := ratePerKb * size, FeeForSize(ratePerKb, size);
            && 0 <= fee <= MAX_SATOSHI
            && (due <= -1000 || due >= 1000 * (MAX_SATOSHI + 1) ==> fee == MAX_SATOSHI)
            && (1000 <= due < 1000 * (MAX_SATOSHI + 1) ==> 1000 * fee <= due < 1000 * (fee + 1))
            && (-1000 < due < 1000 ==> fee == if 0 < ratePerKb <= MAX_SATOSHI then ratePerKb
                                              else if ratePerKb > MAX_SATOSHI then MAX_SATOSHI else 0)
  {
    hide Int64;
    Int64Is(ratePerKb * size);
  }

  lemma Int64Is(n: int)
    requires -INT64 <= n < INT64
    ensures Int64(n) == n
  {
  }

  lemma Fee(rate: nat, estimate: nat, due: nat)
    requires due == rate * estimate && due < INT64 && estimate >= 4
    ensures rate <= due && (due == 0 <==> rate == 0)
    ensures FeeForSize(rate, estimate) ==
            if due < 1000 then rate else if due / 1000 > MAX_SATOSHI then MAX_SATOSHI else due / 1000
  {
    Distribute(rate, 1, estimate - 1);
    assert Int64(due) == due;
  }

  lemma Rounded(due: nat, owed: nat)
    requires due >= owed
    ensures due / 1000 >= owed / 1000 && due / 1000 * 1000 == due - due % 1000
    ensures due > 1000 * MAX_SATOSHI ==> due / 1000 >= MAX_SATOSHI
    ensures due / 1000 > MAX_SATOSHI ==> due > 1000 * MAX_SATOSHI
  {
  }

  /** With a signature of full length the estimate is exact but for the four spare bytes. */
  lemma {:induction false} RefundEstimateTight(tx: Tx, contract: Bytes, sig: Bytes, pubkey: Bytes)
    requires |sig| == 73 && |pubkey| == 33
    requires |tx.ins| == 1 && tx.ins[0].sigScript == Unparse(RefundSigOps(contract, sig, pubkey))
    ensures Estimate(REFUND_SIG_SIZE, contract, tx.outs) == |Serialize(tx)| + 4
  {
    hide Unparse, Serialize, OutsBytes, OpBytes, PushOp;
    OneInputSize(tx);
    RefundSigSize(contract, sig, pubkey);
  }

  lemma {:induction false} RedeemEstimateTight(tx: Tx, contract: Bytes, sig: Bytes, pubkey: Bytes, secret: Bytes)
    requires |sig| == 73 && |pubkey| == 33 && |secret| == 32
    requires |tx.ins| == 1 && tx.ins[0].sigScript == Unparse(RedeemSigOps(contract, sig, pubkey, secret))
    ensures Estimate(REDEEM_SIG_SIZE, contract, tx.outs) == |Serialize(tx)| + 4
  {
    hide Unparse, Serialize, OutsBytes, OpBytes, PushOp;
    OneInputSize(tx);
    RedeemSigSize(contract, sig, pubkey, secret);
  }
}
