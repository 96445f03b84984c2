/** Spending through the script hash: every signature script, and the two that the tool builds. */
module BtcP2sh {
  import opened Bytes
  import opened ScriptNum
  import opened Script
  import opened BtcContract
  import opened BtcEngine
  import opened BtcSpend

  // ---- Signature scripts ----

  function RedeemSigOps(contract: Bytes, sig: Bytes, pubkey: Bytes, secret: Bytes): seq<Op> {
    [PushOp(sig), PushOp(pubkey), PushOp(secret), IntOp(1), PushOp(contract)]
  }

  function RefundSigOps(contract: Bytes, sig: Bytes, pubkey: Bytes): seq<Op> {
    [PushOp(sig), PushOp(pubkey), IntOp(0), PushOp(contract)]
  }

  predicate Pushable(data: Bytes) { |data| <= MAX_ELEMENT_SIZE }

  method RedeemP2SHContract(contract: Bytes, sig: Bytes, pubkey: Bytes, secret: Bytes) returns (script: Option<Bytes>)
    ensures script == if Pushable(contract) && Pushable(sig) && Pushable(pubkey) && Pushable(secret)
                      then Some(Unparse(RedeemSigOps(contract, sig, pubkey, secret))) else None
  {
    hide Unparse, OpBytes, PushOp, IntOp;
    var b := new ScriptBuilder();
    b.AddData(sig);
    b.AddData(pubkey);
    b.AddData(secret);
    Int64Size(1);
    b.AddInt64(1);
    b.AddData(contract);
    script := if b.failed then None else Some(b.script);
    assert !b.failed ==> b.ops == RedeemSigOps(contract, sig, pubkey, secret);
  }

  method RefundP2SHContract(contract: Bytes, sig: Bytes, pubkey: Bytes) returns (script: Option<Bytes>)
    ensures script == if Pushable(contract) && Pushable(sig) && Pushable(pubkey)
                      then Some(Unparse(RefundSigOps(contract, sig, pubkey))) else None
  {
    hide Unparse, OpBytes, PushOp, IntOp;
    var b := new ScriptBuilder();
    b.AddData(sig);
    b.AddData(pubkey);
    Int64Size(0);
    b.AddInt64(0);
    b.AddData(contract);
    script := if b.failed then None else Some(b.script);
    assert !b.failed ==> b.ops == RefundSigOps(contract, sig, pubkey);
  }

  /** What a canonical push leaves on the stack: the data, but nothing for a lone zero byte. */
  function Landed(data: Bytes): Bytes { if data == [0] then [] else data }

  lemma {:induction false} PushAnyStep(env: Env, vm: Vm, data: Bytes)
    requires Ready(vm) && Pushable(data)
    ensures Step(env, vm, PushOp(data)) == Grow(vm, Landed(data))
  {
    if |data| == 1 && 1 <= data[0] <= 16 {
      SmallEncode(data[0]);
      assert data == [data[0]];
    } else if data == [0x81] {
      assert Mag(1) == [1] && SetLast([1], 129) == [0x81];
    }
  }

  // ---- The script hash ----

  /** No other script is known with the same hash. */
  ghost predicate SecondPreimageFree(hash160: Bytes -> Hash20, contract: Bytes) {
    forall other: Bytes :: hash160(other) == hash160(contract) ==> other == contract
  }

  lemma {:induction false} HashCheck(env: Env, stack: seq<Bytes>, h: Hash20)
    requires 0 < |stack| <= MAX_STACK_SIZE
    ensures Succeeds(env.(clean := false), Run(env, Vm(stack, []), ScriptHashOps(h))) <==>
            |stack| < MAX_STACK_SIZE && env.hash160(stack[|stack| - 1]) == h
  {
    var n := |stack|;
    var below, top := stack[..n - 1], stack[n - 1];
    assert stack == below + [top];
    RunThree(env, Vm(stack, []), Plain(OP_HASH160), PushOp(h), Plain(OP_EQUAL));
    HashStep(env, below, [], top);
    PushStep(env, Vm(below + [env.hash160(top)], []), h);
    if n < MAX_STACK_SIZE { EqualStep(env, below, env.hash160(top), h); }
  }

  lemma EqualStep(env: Env, st: seq<Bytes>, a: Bytes, b: Bytes)
    requires |st| + 2 <= MAX_STACK_SIZE
    ensures Step(env, Vm(st + [a] + [b], []), Plain(OP_EQUAL)) == Some(Vm(st + [FromBool(a == b)], []))
  {
    assert (st + [a] + [b])[..|st|] == st;
  }

  lemma {:induction false} RunHeight(env: Env, vm: Vm, ops: seq<Op>)
    requires |vm.stack| <= MAX_STACK_SIZE && Run(env, vm, ops).Some?
    ensures |Run(env, vm, ops).value.stack| <= MAX_STACK_SIZE
    decreases |ops|
  {
    hide Execute;
    if ops != [] { RunHeight(env, Step(env, vm, ops[0]).value, ops[1..]); }
  }

  /**
   * Every signature script there is: the contract's output is spent exactly when the script
   * pushes the contract above a redeeming or a refunding stack.
   */
  lemma {:induction false} SpendsExactly(
    env: Env, sigScript: Bytes, pkhMe: Hash20, pkhThem: Hash20, locktime: int, h: Bytes)
    requires |h| == 32 && IsInt64(locktime) && env.lockTime <= MAX_SEQUENCE
    requires SecondPreimageFree(env.hash160, ContractScript(pkhMe, pkhThem, locktime, h))
    ensures var contract := ContractScript(pkhMe, pkhThem, locktime, h);
            Spends(env, sigScript, env.hash160(contract)) <==>
            && Pushed(env, sigScript).Some?
            && var stack := Pushed(env, sigScript).value;
               var n := |stack|;
               && 0 < n < MAX_STACK_SIZE && stack[n - 1] == contract
               && (RedeemStack(env, stack[..n - 1], pkhThem, h) || RefundStack(env, stack[..n - 1], pkhMe, locktime))
  {
    hide Run, Step, Unparse;
    var contract := ContractScript(pkhMe, pkhThem, locktime, h);
    if Pushed(env, sigScript).Some? {
      var stack := Pushed(env, sigScript).value;
      var n := |stack|;
      RunHeight(env, Vm([], []), Parse(sigScript).value);
      if n > 0 {
        HashCheck(env, stack, env.hash160(contract));
        ParseContract(pkhMe, pkhThem, locktime, h);
        NoThirdWay(env, stack[..n - 1], pkhMe, pkhThem, locktime, h);
      }
    }
  }

  // ---- The scripts the tool builds ----

  lemma {:induction false} UnparseSize(ops: seq<Op>, bound: nat)
    requires forall i :: 0 <= i < |ops| ==> |OpBytes(ops[i])| <= bound
    ensures |Unparse(ops)| <= |ops| * bound
  {
    hide OpBytes;
    if ops != [] { UnparseSize(ops[1..], bound); }
  }

  /** A recognised contract can always be pushed. */
  lemma {:induction false} FoundIsPushable(script: Bytes)
    ensures Extract(script).Found? ==> Pushable(script)
  {
    if Extract(script).Found? {
      UnparseParse(script);
      var ops := Parse(script).value;
      TemplateSizes(ops);
      UnparseSize(ops[..7], 33);
      UnparseSize(ops[7..], 21);
      UnparseAppend(ops[..7], ops[7..]);
      assert ops[..7] + ops[7..] == ops;
    }
  }

  lemma {:induction false} TemplateSizes(ops: seq<Op>)
    requires forall i :: 0 <= i < |ops| ==> WellFormed(ops[i])
    requires ExtractOps(ops).Found?
    ensures |ops| == 20
    ensures forall i :: 0 <= i < 20 ==> |OpBytes(ops[i])| <= if i < 7 then 33 else 21
  {
    forall i | 0 <= i < 20 ensures |OpBytes(ops[i])| <= if i < 7 then 33 else 21 {
      assert WellFormed(ops[i]);
      if i == 2 || i == 11 { assert PushedNumber(ops[i]).Some?; }
    }
  }

  lemma {:induction false} IntWellFormed(n: int)
    requires n == 0 || n == 1
    ensures WellFormed(IntOp(n)) && IntOp(n).code <= OP_16 && |OpBytes(IntOp(n))| == 1
    ensures Encode(n) == if n == 0 then [] else [1]
  {
    SmallEncode(n);
  }

  lemma {:induction false} PushShape(data: Bytes)
    requires Pushable(data)
    ensures WellFormed(PushOp(data)) && PushOp(data).code <= OP_16 && |OpBytes(PushOp(data))| <= 525
  {
    PushWellFormed(data);
  }

  /** A list of short canonical pushes is read back and executed as written. */
  lemma {:induction false} PushedBy(env: Env, ops: seq<Op>)
    requires |ops| <= 5
    requires forall i :: 0 <= i < |ops| ==>
               WellFormed(ops[i]) && ops[i].code <= OP_16 && |OpBytes(ops[i])| <= 525
    ensures Pushed(env, Unparse(ops)) ==
            match Run(env, Vm([], []), ops) case None => None case Some(vm) => Some(vm.stack)
  {
    hide Run, OpBytes, WellFormed;
    ParseUnparse(ops);
    UnparseSize(ops, 525);
  }

  lemma {:induction false} RedeemPushes(env: Env, contract: Bytes, sig: Bytes, pubkey: Bytes, secret: Bytes)
    requires Pushable(contract) && Pushable(sig) && Pushable(pubkey) && Pushable(secret)
    ensures Pushed(env, Unparse(RedeemSigOps(contract, sig, pubkey, secret))) ==
            Some([Landed(sig), Landed(pubkey), Landed(secret), [1], Landed(contract)])
  {
    hide Run, Step, Unparse, OpBytes, WellFormed, PushOp, IntOp, Encode, Landed;
    var ops := RedeemSigOps(contract, sig, pubkey, secret);
    PushShape(contract);
    PushShape(sig);
    PushShape(pubkey);
    PushShape(secret);
    IntWellFormed(1);
    PushedBy(env, ops);
    assert ops == [ops[0], ops[1], ops[2]] + [ops[3], ops[4]];
    RunAppend(env, Vm([], []), [ops[0], ops[1], ops[2]], [ops[3], ops[4]]);
    RunThree(env, Vm([], []), ops[0], ops[1], ops[2]);
    PushAnyStep(env, Vm([], []), sig);
    assert [] + [Landed(sig)] == [Landed(sig)];
    PushAnyStep(env, Vm([Landed(sig)], []), pubkey);
    assert [Landed(sig)] + [Landed(pubkey)] == [Landed(sig), Landed(pubkey)];
    PushAnyStep(env, Vm([Landed(sig), Landed(pubkey)], []), secret);
    assert [Landed(sig), Landed(pubkey)] + [Landed(secret)] == [Landed(sig), Landed(pubkey), Landed(secret)];
    var v3 := Vm([Landed(sig), Landed(pubkey), Landed(secret)], []);
    RunFirst(env, v3, ops[3], [ops[4]]);
    assert [ops[3]] + [ops[4]] == [ops[3], ops[4]];
    IntStep(env, v3, 1);
    var v4 := Vm(v3.stack + [[1]], []);
    RunOne(env, v4, ops[4]);
    PushAnyStep(env, v4, contract);
    assert v4.stack + [Landed(contract)] == [Landed(sig), Landed(pubkey), Landed(secret), [1], Landed(contract)];
  }

  lemma {:induction false} RefundPushes(env: Env, contract: Bytes, sig: Bytes, pubkey: Bytes)
    requires Pushable(contract) && Pushable(sig) && Pushable(pubkey)
    ensures Pushed(env, Unparse(RefundSigOps(contract, sig, pubkey))) ==
            Some([Landed(sig), Landed(pubkey), [], Landed(contract)])
  {
    hide Run, Step, Unparse, OpBytes, WellFormed, PushOp, IntOp, Encode, Landed;
    var ops := RefundSigOps(contract, sig, pubkey);
    PushShape(contract);
    PushShape(sig);
    PushShape(pubkey);
    IntWellFormed(0);
    PushedBy(env, ops);
    assert ops == [ops[0], ops[1], ops[2]] + [ops[3]];
    RunAppend(env, Vm([], []), [ops[0], ops[1], ops[2]], [ops[3]]);
    RunThree(env, Vm([], []), ops[0], ops[1], ops[2]);
    PushAnyStep(env, Vm([], []), sig);
    assert [] + [Landed(sig)] == [Landed(sig)];
    PushAnyStep(env, Vm([Landed(sig)], []), pubkey);
    assert [Landed(sig)] + [Landed(pubkey)] == [Landed(sig), Landed(pubkey)];
    IntStep(env, Vm([Landed(sig), Landed(pubkey)], []), 0);
    var v3 := Vm([Landed(sig), Landed(pubkey)] + [[]], []);
    RunOne(env, v3, ops[3]);
    PushAnyStep(env, v3, contract);
    assert v3.stack + [Landed(contract)] == [Landed(sig), Landed(pubkey), [], Landed(contract)];
  }

  lemma {:induction false} ContractSize(pkhMe: Hash20, pkhThem: Hash20, locktime: int, h: Bytes)
    requires |h| == 32 && IsInt64(locktime)
    ensures |ContractScript(pkhMe, pkhThem, locktime, h)| == 92 + |OpBytes(IntOp(locktime))|
    ensures 1 <= |OpBytes(IntOp(locktime))| <= 10
  {
    var a := [Plain(OP_IF)] + SecretOps(h);
    var b := KeyOps(pkhThem) + [Plain(OP_ELSE)] + LockOps(locktime);
    var c := KeyOps(pkhMe) + SignatureOps();
    assert ContractOps(pkhMe, pkhThem, locktime, h) == a + (b + c);
    UnparseAppend(a, b + c);
    UnparseAppend(b, c);
    UnparseSevenOps(a);
    UnparseSevenOps(b);
    UnparseSixOps(c);
    Int64Size(locktime);
    assert Encode(32) == [32] by { assert Mag(32) == [32]; }
  }

  lemma UnparseSevenOps(ops: seq<Op>)
    requires |ops| == 7
    ensures Unparse(ops) == OpBytes(ops[0]) + Unparse(ops[1..])
    ensures |Unparse(ops)| == |OpBytes(ops[0])| + |OpBytes(ops[1])| + |OpBytes(ops[2])| + |OpBytes(ops[3])|
                              + |OpBytes(ops[4])| + |OpBytes(ops[5])| + |OpBytes(ops[6])|
  {
    UnparseSixOps(ops[1..]);
  }

  lemma {:induction false} UnparseSixOps(ops: seq<Op>)
    requires |ops| == 6
    ensures |Unparse(ops)| == |OpBytes(ops[0])| + |OpBytes(ops[1])| + |OpBytes(ops[2])| + |OpBytes(ops[3])|
                              + |OpBytes(ops[4])| + |OpBytes(ops[5])|
  {
    hide OpBytes;
    var r1 := ops[1..];
    var r2 := r1[1..];
    var r3 := r2[1..];
    var r4 := r3[1..];
    var r5 := r4[1..];
    assert r5[1..] == [];
    assert |Unparse(r5)| == |OpBytes(ops[5])|;
    assert |Unparse(r4)| == |OpBytes(ops[4])| + |Unparse(r5)|;
    assert |Unparse(r3)| == |OpBytes(ops[3])| + |Unparse(r4)|;
    assert |Unparse(r2)| == |OpBytes(ops[2])| + |Unparse(r3)|;
    assert |Unparse(r1)| == |OpBytes(ops[1])| + |Unparse(r2)|;
  }

  /**
   * The redeem script the tool builds spends the contract exactly when the secret is right and
   * the signature is by the recipient; the lock time has no say.
   */
  lemma {:induction false} BuiltRedeemSpends(
    env: Env, sig: Bytes, pubkey: Bytes, secret: Bytes, pkhMe: Hash20, pkhThem: Hash20, locktime: int, h: Bytes)
    requires |h| == 32 && IsInt64(locktime) && env.lockTime <= MAX_SEQUENCE
    requires Pushable(sig) && Pushable(pubkey) && Pushable(secret)
    requires SecondPreimageFree(env.hash160, ContractScript(pkhMe, pkhThem, locktime, h))
    ensures var contract := ContractScript(pkhMe, pkhThem, locktime, h);
            Spends(env, Unparse(RedeemSigOps(contract, sig, pubkey, secret)), env.hash160(contract)) <==>
            && |secret| == SECRET_SIZE && env.sha(secret) == h
            && env.hash160(Landed(pubkey)) == pkhThem && env.checkSig(Landed(sig), Landed(pubkey))
  {
    hide Spends, Pushed, Unparse, RedeemSigOps, ContractScript;
    var contract := ContractScript(pkhMe, pkhThem, locktime, h);
    ContractSize(pkhMe, pkhThem, locktime, h);
    RedeemPushes(env, contract, sig, pubkey, secret);
    SpendsExactly(env, Unparse(RedeemSigOps(contract, sig, pubkey, secret)), pkhMe, pkhThem, locktime, h);
    var stack := [Landed(sig), Landed(pubkey), Landed(secret), [1], contract];
    assert stack[..4] == [Landed(sig), Landed(pubkey), Landed(secret), [1]];
  }

  /** The refund script spends it exactly when the lock time is met and the signature is by the owner. */
  lemma {:induction false} BuiltRefundSpends(
    env: Env, sig: Bytes, pubkey: Bytes, pkhMe: Hash20, pkhThem: Hash20, locktime: int, h: Bytes)
    requires |h| == 32 && IsInt64(locktime) && env.lockTime <= MAX_SEQUENCE
    requires Pushable(sig) && Pushable(pubkey)
    requires SecondPreimageFree(env.hash160, ContractScript(pkhMe, pkhThem, locktime, h))
    ensures var contract := ContractScript(pkhMe, pkhThem, locktime, h);
            Spends(env, Unparse(RefundSigOps(contract, sig, pubkey)), env.hash160(contract)) <==>
            && LockMet(env, locktime)
            && env.hash160(Landed(pubkey)) == pkhMe && env.checkSig(Landed(sig), Landed(pubkey))
  {
    hide Spends, Pushed, Unparse, RefundSigOps, ContractScript;
    var contract := ContractScript(pkhMe, pkhThem, locktime, h);
    ContractSize(pkhMe, pkhThem, locktime, h);
    RefundPushes(env, contract, sig, pubkey);
    SpendsExactly(env, Unparse(RefundSigOps(contract, sig, pubkey)), pkhMe, pkhThem, locktime, h);
    var stack := [Landed(sig), Landed(pubkey), [], contract];
    assert stack[..3] == [Landed(sig), Landed(pubkey), []];
  }
}
