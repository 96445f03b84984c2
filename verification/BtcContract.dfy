/** The atomic swap script: building it, recognising it, and building what spends it. */
module BtcContract {
  import opened Bytes
  import opened ScriptNum
  import opened Script

  const SECRET_SIZE: int := 32

  type Hash20 = b: Bytes | |b| == 20 witness [0, 0, 0, 0, 0, 0, 0, 0, 0, 0, 0, 0, 0, 0, 0, 0, 0, 0, 0, 0]

  /** The secret has the agreed size and hashes to the agreed hash. */
  function SecretOps(secretHash: Bytes): seq<Op> {
    [Plain(OP_SIZE), IntOp(SECRET_SIZE), Plain(OP_EQUALVERIFY),
     Plain(OP_SHA256), PushOp(secretHash), Plain(OP_EQUALVERIFY)]
  }

  function LockOps(locktime: int): seq<Op> {
    [IntOp(locktime), Plain(OP_CHECKLOCKTIMEVERIFY), Plain(OP_DROP)]
  }

  function KeyOps(pkh: Hash20): seq<Op> {
    [Plain(OP_DUP), Plain(OP_HASH160), PushOp(pkh)]
  }

  function SignatureOps(): seq<Op> {
    [Plain(OP_ENDIF), Plain(OP_EQUALVERIFY), Plain(OP_CHECKSIG)]
  }

  function ContractOps(pkhMe: Hash20, pkhThem: Hash20, locktime: int, secretHash: Bytes): (ops: seq<Op>)
    ensures |ops| == 20
  {
    [Plain(OP_IF)] + SecretOps(secretHash) + KeyOps(pkhThem) + [Plain(OP_ELSE)] + LockOps(locktime) + KeyOps(pkhMe) +
    SignatureOps()
  }

  function ContractScript(pkhMe: Hash20, pkhThem: Hash20, locktime: int, secretHash: Bytes): Bytes {
    Unparse(ContractOps(pkhMe, pkhThem, locktime, secretHash))
  }

  method AddKeyHash(b: ScriptBuilder, pkh: Hash20)
    requires b.Valid() && (!b.failed ==> |b.script| <= 1000)
    modifies b
    ensures b.Valid() && b.failed == old(b.failed)
    ensures !b.failed ==> |b.script| <= |old(b.script)| + 27
    ensures b.ops == if b.failed then old(b.ops) else old(b.ops) + KeyOps(pkh)
  {
    hide Unparse, PushOp, IntOp;
    b.AddOp(OP_DUP);
    b.AddOp(OP_HASH160);
    b.AddData(pkh);
  }

  method AddSecretCheck(b: ScriptBuilder, secretHash: Bytes)
    requires b.Valid() && !b.failed && |b.script| <= 100
    modifies b
    ensures b.Valid() && b.failed == (|secretHash| > MAX_ELEMENT_SIZE)
    ensures !b.failed ==> |b.script| <= 700 && b.ops == old(b.ops) + SecretOps(secretHash)
  {
    hide Unparse, PushOp, IntOp;
    b.AddOp(OP_SIZE);
    Int64Size(SECRET_SIZE);
    b.AddInt64(SECRET_SIZE);
    b.AddOp(OP_EQUALVERIFY);
    b.AddOp(OP_SHA256);
    b.AddData(secretHash);
    b.AddOp(OP_EQUALVERIFY);
  }

  method AddLockCheck(b: ScriptBuilder, locktime: int)
    requires b.Valid() && (!b.failed ==> |b.script| <= 900) && IsInt64(locktime)
    modifies b
    ensures b.Valid() && b.failed == old(b.failed)
    ensures !b.failed ==> |b.script| <= 1000 && b.ops == old(b.ops) + LockOps(locktime)
  {
    hide Unparse, PushOp, IntOp;
    Int64Size(locktime);
    b.AddInt64(locktime);
    b.AddOp(OP_CHECKLOCKTIMEVERIFY);
    b.AddOp(OP_DROP);
  }

  method AddSignatureCheck(b: ScriptBuilder)
    requires b.Valid() && (!b.failed ==> |b.script| <= 1027)
    modifies b
    ensures b.Valid() && b.failed == old(b.failed)
    ensures b.ops == if b.failed then old(b.ops) else old(b.ops) + SignatureOps()
  {
    hide Unparse, PushOp, IntOp;
    b.AddOp(OP_ENDIF);
    b.AddOp(OP_EQUALVERIFY);
    b.AddOp(OP_CHECKSIG);
  }

  /** Only a secret hash too long to push is refused. */
  method AtomicSwapContract(pkhMe: Hash20, pkhThem: Hash20, locktime: int, secretHash: Bytes)
    returns (script: Option<Bytes>)
    requires IsInt64(locktime)
    ensures script == if |secretHash| <= MAX_ELEMENT_SIZE
                      then Some(ContractScript(pkhMe, pkhThem, locktime, secretHash)) else None
  {
    var b := new ScriptBuilder();
    b.AddOp(OP_IF);
    assert b.ops == [Plain(OP_IF)];
    AddSecretCheck(b, secretHash);
    AddKeyHash(b, pkhThem);
    b.AddOp(OP_ELSE);
    AddLockCheck(b, locktime);
    AddKeyHash(b, pkhMe);
    AddSignatureCheck(b);
    script := if b.failed then None else Some(b.script);
  }

  // ---- Recognising a contract ----

  datatype Pushes = Pushes(recipient: Hash20, refund: Hash20, secretHash: Bytes, secretSize: int, lockTime: int)

  /** A script may fail to parse, be some other script, or be an atomic swap. */
  datatype Extracted = Malformed | Unrecognised | Found(pushes: Pushes)

  predicate IsSmallInt(op: Op) { op.code == OP_0 || OP_1 <= op.code <= OP_16 }

  /** No shorter push of the same data exists, as far as this is looked at. */
  predicate CanonicalPush(op: Op) {
    var n := if op.data.Some? then |op.data.value| else 0;
    || op.code > OP_16
    || (&& !(OP_0 < op.code < OP_PUSHDATA1 && n == 1 && op.data.value[0] <= 16)
        && !(op.code == OP_PUSHDATA1 && n < OP_PUSHDATA1)
        && !(op.code == OP_PUSHDATA2 && n <= 0xff)
        && !(op.code == OP_PUSHDATA4 && n <= 0xffff))
  }

  /** The number an instruction pushes, if the recogniser understands it. */
  function PushedNumber(op: Op): Option<int> {
    if op.data.Some? then Decode(op.data.value, true, 5)
    else if op.code == OP_0 then Some(0)
    else if IsSmallInt(op) then Some(op.code - (OP_1 - 1))
    else None
  }

  predicate IsTemplate(ops: seq<Op>) {
    && |ops| == 20
    && ops[0].code == OP_IF && ops[1].code == OP_SIZE && CanonicalPush(ops[2])
    && ops[3].code == OP_EQUALVERIFY && ops[4].code == OP_SHA256 && ops[5].code == OP_DATA_32
    && ops[6].code == OP_EQUALVERIFY && ops[7].code == OP_DUP && ops[8].code == OP_HASH160
    && ops[9].code == OP_DATA_20 && ops[10].code == OP_ELSE && CanonicalPush(ops[11])
    && ops[12].code == OP_CHECKLOCKTIMEVERIFY && ops[13].code == OP_DROP && ops[14].code == OP_DUP
    && ops[15].code == OP_HASH160 && ops[16].code == OP_DATA_20 && ops[17].code == OP_ENDIF
    && ops[18].code == OP_EQUALVERIFY && ops[19].code == OP_CHECKSIG
  }

  function ExtractOps(ops: seq<Op>): Extracted
    requires forall i :: 0 <= i < |ops| ==> WellFormed(ops[i])
  {
    if !IsTemplate(ops) then Unrecognised
    else
      assert WellFormed(ops[5]) && WellFormed(ops[9]) && WellFormed(ops[16]);
      match (PushedNumber(ops[2]), PushedNumber(ops[11]))
      case (Some(size), Some(locktime)) =>
        Found(Pushes(ops[9].data.value, ops[16].data.value, ops[5].data.value, size, locktime))
      case _ => Unrecognised
  }

  function Extract(script: Bytes): Extracted {
    match Parse(script)
    case None => Malformed
    case Some(ops) => UnparseParse(script); ExtractOps(ops)
  }

  // ---- Building and recognising are inverse ----

  lemma OneByte(v: Bytes)
    requires |v| == 1
    ensures v == [v[0]]
    ensures var b: int := v[0]; Value(v) == if b >= 128 then 128 - b else b
  {
    assert SetLast(v, v[0] % 128) == [v[0] % 128];
    assert LE([v[0] % 128]) == v[0] % 128;
  }

  lemma {:induction false} IntOpNumber(n: int)
    requires IsInt64(n)
    ensures WellFormed(IntOp(n)) && CanonicalPush(IntOp(n))
    ensures PushedNumber(IntOp(n)) == if n != -1 && -FIVE_BYTES < n < FIVE_BYTES then Some(n) else None
  {
    Int64Size(n);
    if !(n == -1 || 0 <= n <= 16) {
      ValueOfEncode(n);
      DecodeEncode(n);
      PushWellFormed(Encode(n));
      if |Encode(n)| == 1 { OneByte(Encode(n)); }
      assert IntOp(n).data == Some(Encode(n));
    }
  }

  lemma SmallEncode(n: int)
    ensures 1 <= n <= 16 ==> Encode(n) == [n]
  {
    if 1 <= n <= 16 { assert Mag(n) == [n]; }
  }

  /** The push the recogniser reads as a number: the builder's own, but for -1 the number as data. */
  function NumberOp(n: int): Op {
    if n == -1 then Op(1, Some([0x81])) else IntOp(n)
  }

  lemma {:induction false} NumberIntOp(op: Op)
    requires WellFormed(op) && CanonicalPush(op) && PushedNumber(op).Some?
    ensures op == NumberOp(PushedNumber(op).value)
  {
    assert Mag(1) == [1] && Encode(-1) == [0x81];
    if op.data.Some? {
      var v := op.data.value;
      EncodeOfValue(v);
      assert Pow256(1) == 256 && Pow256(2) == 0x1_0000;
      var n := Value(v);
      if |v| == 1 { OneByte(v); }
      SmallEncode(n);
      assert op.code == |v|;
    }
  }

  lemma ContractWellFormed(pkhMe: Hash20, pkhThem: Hash20, locktime: int, secretHash: Bytes)
    requires IsInt64(locktime) && |secretHash| <= MAX_ELEMENT_SIZE
    ensures forall i :: 0 <= i < 20 ==> WellFormed(ContractOps(pkhMe, pkhThem, locktime, secretHash)[i])
  {
    hide PushOp, IntOp;
    PushWellFormed(secretHash);
    PushWellFormed(pkhMe);
    PushWellFormed(pkhThem);
    IntOpNumber(SECRET_SIZE);
    IntOpNumber(locktime);
  }

  lemma ParseContract(pkhMe: Hash20, pkhThem: Hash20, locktime: int, secretHash: Bytes)
    requires IsInt64(locktime) && |secretHash| <= MAX_ELEMENT_SIZE
    ensures Parse(ContractScript(pkhMe, pkhThem, locktime, secretHash))
            == Some(ContractOps(pkhMe, pkhThem, locktime, secretHash))
  {
    ContractWellFormed(pkhMe, pkhThem, locktime, secretHash);
    ParseUnparse(ContractOps(pkhMe, pkhThem, locktime, secretHash));
  }

  lemma {:induction false} ContractTemplate(pkhMe: Hash20, pkhThem: Hash20, locktime: int, secretHash: Bytes)
    requires IsInt64(locktime)
    ensures IsTemplate(ContractOps(pkhMe, pkhThem, locktime, secretHash)) <==> |secretHash| == 32
  {
    IntOpNumber(SECRET_SIZE);
    IntOpNumber(locktime);
    var ops := ContractOps(pkhMe, pkhThem, locktime, secretHash);
    assert ops[5] == PushOp(secretHash) && ops[2] == IntOp(SECRET_SIZE) && ops[11] == IntOp(locktime);
  }

  /**
   * Recognising a built contract gives back its terms exactly when the secret hash has 32 bytes
   * and the lock time fits a five-byte script number and is not -1, which the builder writes
   * with an opcode the recogniser does not take for a number.
   */
  lemma {:induction false} ExtractBuilt(pkhMe: Hash20, pkhThem: Hash20, locktime: int, secretHash: Bytes)
    requires IsInt64(locktime) && |secretHash| <= MAX_ELEMENT_SIZE
    ensures Extract(ContractScript(pkhMe, pkhThem, locktime, secretHash)) ==
            if |secretHash| == 32 && locktime != -1 && -FIVE_BYTES < locktime < FIVE_BYTES
            then Found(Pushes(pkhThem, pkhMe, secretHash, SECRET_SIZE, locktime))
            else Unrecognised
  {
    var ops := ContractOps(pkhMe, pkhThem, locktime, secretHash);
    ContractWellFormed(pkhMe, pkhThem, locktime, secretHash);
    ParseContract(pkhMe, pkhThem, locktime, secretHash);
    ContractTemplate(pkhMe, pkhThem, locktime, secretHash);
    IntOpNumber(SECRET_SIZE);
    IntOpNumber(locktime);
    assert ops[9] == PushOp(pkhThem) && ops[16] == PushOp(pkhMe) && ops[5] == PushOp(secretHash);
  }

  /** The instructions of a recognised contract. */
  function RecognisedOps(p: Pushes): seq<Op> {
    var ops := ContractOps(p.refund, p.recipient, p.lockTime, p.secretHash);
    ops[2 := NumberOp(p.secretSize)][11 := NumberOp(p.lockTime)]
  }

  /** Every recognised script, whatever secret size it asks for, is byte for byte the one its terms determine. */
  lemma {:induction false} ExtractSound(script: Bytes)
    requires Extract(script).Found?
    ensures |Extract(script).pushes.secretHash| == 32 && script == Unparse(RecognisedOps(Extract(script).pushes))
  {
    hide Unparse, PushOp, Encode;
    UnparseParse(script);
    var ops, p := Parse(script).value, Extract(script).pushes;
    NumberIntOp(ops[2]);
    NumberIntOp(ops[11]);
    TemplateOps(ops);
    assert ops == RecognisedOps(p);
  }

  lemma {:induction false} TemplateOps(ops: seq<Op>)
    requires IsTemplate(ops) && forall i :: 0 <= i < |ops| ==> WellFormed(ops[i])
    ensures ops[5].data.Some? && |ops[5].data.value| == 32 && ops[5] == PushOp(ops[5].data.value)
    ensures ops[9].data.Some? && |ops[9].data.value| == 20 && ops[9] == PushOp(ops[9].data.value)
    ensures ops[16].data.Some? && |ops[16].data.value| == 20 && ops[16] == PushOp(ops[16].data.value)
    ensures forall i :: 0 <= i < 20 && i !in {2, 5, 9, 11, 16} ==> ops[i] == Plain(ops[i].code)
  {
  }

  /**
   * So an audit tells the whole truth about a recognised script: it is the contract built from the
   * terms that were read if and only if these do not give -1 as the lock time.
   */
  lemma {:induction false} ExtractExact(script: Bytes)
    requires Extract(script).Found? && Extract(script).pushes.secretSize == SECRET_SIZE
    ensures var p := Extract(script).pushes;
            script == ContractScript(p.refund, p.recipient, p.lockTime, p.secretHash) <==> p.lockTime != -1
  {
    hide Extract, Unparse, ContractOps;
    ExtractSound(script);
    var p := Extract(script).pushes;
    if p.lockTime == -1 {
      ExtractBuilt(p.refund, p.recipient, -1, p.secretHash);
    } else {
      var ops := ContractOps(p.refund, p.recipient, p.lockTime, p.secretHash);
      NumberInPlace(p);
      assert ops[2 := ops[2]][11 := ops[11]] == ops;
    }
  }

  lemma NumberInPlace(p: Pushes)
    ensures ContractOps(p.refund, p.recipient, p.lockTime, p.secretHash)[2] == IntOp(SECRET_SIZE)
    ensures ContractOps(p.refund, p.recipient, p.lockTime, p.secretHash)[11] == IntOp(p.lockTime)
  {
  }

  lemma {:induction false} NumberOpRead(n: int)
    requires -FIVE_BYTES < n < FIVE_BYTES
    ensures WellFormed(NumberOp(n)) && CanonicalPush(NumberOp(n)) && PushedNumber(NumberOp(n)) == Some(n)
  {
    if n == -1 { OneByte([0x81]); } else { IntOpNumber(n); }
  }

  lemma {:induction false} RecognisedTemplate(p: Pushes)
    requires |p.secretHash| == 32
    requires -FIVE_BYTES < p.secretSize < FIVE_BYTES && -FIVE_BYTES < p.lockTime < FIVE_BYTES
    ensures var ops := RecognisedOps(p);
            && |ops| == 20 && (forall i :: 0 <= i < 20 ==> WellFormed(ops[i])) && IsTemplate(ops)
            && ops[2] == NumberOp(p.secretSize) && ops[11] == NumberOp(p.lockTime)
            && ops[5].data == Some(p.secretHash) && ops[9].data == Some(p.recipient) && ops[16].data == Some(p.refund)
  {
    hide NumberOp, IntOp, Encode;
    ContractWellFormed(p.refund, p.recipient, p.lockTime, p.secretHash);
    NumberOpRead(p.secretSize);
    NumberOpRead(p.lockTime);
    var built := ContractOps(p.refund, p.recipient, p.lockTime, p.secretHash);
    assert built[9] == PushOp(p.recipient) && built[16] == PushOp(p.refund) && built[5] == PushOp(p.secretHash);
  }

  /** And every script so determined is recognised, with the terms that determine it. */
  lemma {:induction false} RecognisedExact(p: Pushes)
    requires |p.secretHash| == 32
    requires -FIVE_BYTES < p.secretSize < FIVE_BYTES && -FIVE_BYTES < p.lockTime < FIVE_BYTES
    ensures Extract(Unparse(RecognisedOps(p))) == Found(p)
  {
    hide Unparse, NumberOp, RecognisedOps, IsTemplate, PushedNumber;
    RecognisedTemplate(p);
    ParseUnparse(RecognisedOps(p));
    NumberOpRead(p.secretSize);
    NumberOpRead(p.lockTime);
  }

  /** For any parties and secret hash there is such a script with lock time -1: it pushes the byte 0x81. */
  lemma {:induction false} MinusOneRecognised(pkhMe: Hash20, pkhThem: Hash20, secretHash: Bytes)
    requires |secretHash| == 32
    ensures var p := Pushes(pkhThem, pkhMe, secretHash, SECRET_SIZE, -1);
            && Extract(Unparse(RecognisedOps(p))) == Found(p)
            && RecognisedOps(p)[11] == Op(1, Some([0x81]))
            && Unparse(RecognisedOps(p)) != ContractScript(pkhMe, pkhThem, -1, secretHash)
  {
    hide Extract, Unparse, ContractScript;
    RecognisedExact(Pushes(pkhThem, pkhMe, secretHash, SECRET_SIZE, -1));
    ExtractBuilt(pkhMe, pkhThem, -1, secretHash);
  }

  /** Recognised lock times are five-byte numbers. */
  lemma {:induction false} RecognisedRange(script: Bytes)
    requires Extract(script).Found?
    ensures -FIVE_BYTES < Extract(script).pushes.lockTime < FIVE_BYTES && IsInt64(Extract(script).pushes.lockTime)
  {
    UnparseParse(script);
    var op := Parse(script).value[11];
    if op.data.Some? {
      EncodeOfValue(op.data.value);
      FitsFive(Value(op.data.value));
    }
  }

  // ---- The bytes ----

  lemma {:induction false} UnparseThree(a: Op, b: Op, c: Op)
    ensures Unparse([a]) == OpBytes(a)
    ensures Unparse([a, b]) == OpBytes(a) + OpBytes(b)
    ensures Unparse([a, b, c]) == OpBytes(a) + OpBytes(b) + OpBytes(c)
  {
    hide OpBytes;
    assert [a][1..] == [] && [b][1..] == [] && [c][1..] == [];
    assert [a, b][1..] == [b] && [b, c][1..] == [c] && [a, b, c][1..] == [b, c];
    assert Unparse([b, c]) == OpBytes(b) + Unparse([c]);
    Assoc(OpBytes(a), OpBytes(b), OpBytes(c));
  }

  lemma PlainBytes(code: Byte)
    ensures OpBytes(Plain(code)) == [code]
  {
    assert [code] + [] == [code];
  }

  lemma {:induction false} TwentyBytes(pkh: Hash20)
    ensures OpBytes(PushOp(pkh)) == [0x14] + pkh && PushOp(pkh) == Op(OP_DATA_20, Some(pkh))
  {
    PushBytes(pkh);
  }

  lemma {:induction false} ThirtyTwoBytes(h: Bytes)
    requires |h| == 32
    ensures OpBytes(PushOp(h)) == [0x20] + h
  {
    PushBytes(h);
  }

  lemma {:induction false} SizeBytes()
    ensures Unparse([Plain(OP_SIZE), IntOp(SECRET_SIZE), Plain(OP_EQUALVERIFY)]) == [0x82, 0x01, 0x20, 0x88]
  {
    hide Unparse, OpBytes, IntOp, Encode;
    UnparseThree(Plain(OP_SIZE), IntOp(SECRET_SIZE), Plain(OP_EQUALVERIFY));
    NumberBytes(SECRET_SIZE);
    ThirtyTwo();
    PlainBytes(OP_SIZE);
    PlainBytes(OP_EQUALVERIFY);
  }

  lemma {:induction false} HashBytes(h: Bytes)
    requires |h| == 32
    ensures Unparse([Plain(OP_SHA256), PushOp(h), Plain(OP_EQUALVERIFY)]) == [0xa8, 0x20] + h + [0x88]
  {
    hide Unparse, OpBytes, PushOp;
    UnparseThree(Plain(OP_SHA256), PushOp(h), Plain(OP_EQUALVERIFY));
    ThirtyTwoBytes(h);
    PlainBytes(OP_SHA256);
    PlainBytes(OP_EQUALVERIFY);
  }

  lemma {:induction false} SecretBytes(h: Bytes)
    requires |h| == 32
    ensures Unparse(SecretOps(h)) == [0x82, 0x01, 0x20, 0x88, 0xa8, 0x20] + h + [0x88]
  {
    hide Unparse, OpBytes, PushOp, IntOp;
    var size := [Plain(OP_SIZE), IntOp(SECRET_SIZE), Plain(OP_EQUALVERIFY)];
    var hash := [Plain(OP_SHA256), PushOp(h), Plain(OP_EQUALVERIFY)];
    assert SecretOps(h) == size + hash;
    UnparseAppend(size, hash);
    SizeBytes();
    HashBytes(h);
  }

  lemma ThirtyTwo()
    ensures Encode(32) == [32]
  {
    assert Mag(32) == [32];
  }

  lemma {:induction false} KeyBytes(pkh: Hash20)
    ensures Unparse(KeyOps(pkh)) == [0x76, 0xa9, 0x14] + pkh
  {
    hide Unparse, OpBytes, PushOp;
    UnparseThree(Plain(OP_DUP), Plain(OP_HASH160), PushOp(pkh));
    TwentyBytes(pkh);
    PlainBytes(OP_DUP);
    PlainBytes(OP_HASH160);
  }

  lemma {:induction false} LockBytes(locktime: int)
    ensures Unparse(LockOps(locktime)) == OpBytes(IntOp(locktime)) + [0xb1, 0x75]
  {
    hide Unparse, IntOp;
    UnparseThree(IntOp(locktime), Plain(OP_CHECKLOCKTIMEVERIFY), Plain(OP_DROP));
  }

  lemma {:induction false} SignatureBytes()
    ensures Unparse(SignatureOps()) == [0x68, 0x88, 0xac]
  {
    hide Unparse;
    UnparseThree(Plain(OP_ENDIF), Plain(OP_EQUALVERIFY), Plain(OP_CHECKSIG));
  }

  /** The push of a lock time: one byte for the smallest, else its length and its encoding. */
  lemma {:induction false} NumberBytes(n: int)
    requires IsInt64(n)
    ensures OpBytes(IntOp(n)) ==
            if n == -1 then [0x4f] else if n == 0 then [0x00] else if 1 <= n <= 16 then [0x50 + n]
            else [|Encode(n)|] + Encode(n)
  {
    Int64Size(n);
    ValueOfEncode(n);
    if n != 0 { PushBytes(Encode(n)); }
    if |Encode(n)| == 1 { OneByte(Encode(n)); }
  }

  /** The contract, byte for byte. */
  lemma {:induction false} ContractBytes(pkhMe: Hash20, pkhThem: Hash20, locktime: int, h: Bytes)
    requires |h| == 32
    ensures ContractScript(pkhMe, pkhThem, locktime, h) ==
            [0x63, 0x82, 0x01, 0x20, 0x88, 0xa8, 0x20] + h + [0x88, 0x76, 0xa9, 0x14] + pkhThem + [0x67]
            + OpBytes(IntOp(locktime)) + [0xb1, 0x75, 0x76, 0xa9, 0x14] + pkhMe + [0x68, 0x88, 0xac]
  {
    hide Unparse, IntOp, SecretOps, KeyOps, LockOps, SignatureOps, OpBytes;
    var open1, split := [Plain(OP_IF)], [Plain(OP_ELSE)];
    var a, b, c := SecretOps(h), KeyOps(pkhThem), LockOps(locktime);
    var d, e := KeyOps(pkhMe), SignatureOps();
    assert ContractOps(pkhMe, pkhThem, locktime, h) == open1 + a + b + split + c + d + e;
    UnparseAppend(open1 + a + b + split + c + d, e);
    UnparseAppend(open1 + a + b + split + c, d);
    UnparseAppend(open1 + a + b + split, c);
    UnparseAppend(open1 + a + b, split);
    UnparseAppend(open1 + a, b);
    UnparseAppend(open1, a);
    Marks();
    SecretBytes(h);
    KeyBytes(pkhThem);
    LockBytes(locktime);
    KeyBytes(pkhMe);
    SignatureBytes();
  }

  lemma Marks()
    ensures Unparse([Plain(OP_IF)]) == [0x63] && Unparse([Plain(OP_ELSE)]) == [0x67]
  {
    UnparseThree(Plain(OP_IF), Plain(OP_IF), Plain(OP_IF));
    UnparseThree(Plain(OP_ELSE), Plain(OP_IF), Plain(OP_IF));
  }
}
