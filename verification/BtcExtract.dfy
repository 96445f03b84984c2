/** Reading the secret out of a redeeming transaction. */
module BtcExtract {
  import opened Bytes
  import opened ScriptNum
  import opened Script
  import opened BtcContract
  import opened BtcEngine
  import opened BtcSpend
  import opened BtcP2sh
  import opened BtcTx
  import opened BtcBuild

  /** The data a list of instructions pushes: nothing for the small integers, an empty item for zero. */
  function DataOf(ops: seq<Op>): seq<Bytes> {
    if ops == [] then []
    else
      (if ops[0].data.Some? then [ops[0].data.value] else if ops[0].code == OP_0 then [[]] else []) + DataOf(ops[1..])
  }

  function PushedData(script: Bytes): Option<seq<Bytes>> {
    match Parse(script)
    case None => None
    case Some(ops) => Some(DataOf(ops))
  }

  /** An item is among the data exactly when an instruction carries it, or it is empty and zero is pushed. */
  lemma {:induction false} DataExact(ops: seq<Op>, item: Bytes)
    ensures item in DataOf(ops) <==>
            exists i :: 0 <= i < |ops| &&
              (ops[i].data == Some(item) || (ops[i] == Plain(0x00) && item == []))
  {
    if ops != [] {
      var rest := ops[1..];
      DataExact(rest, item);
      assert forall i :: 0 <= i < |rest| ==> rest[i] == ops[i + 1];
      if item in DataOf(rest) {
        var i :| 0 <= i < |rest| && (rest[i].data == Some(item) || (rest[i] == Plain(0x00) && item == []));
        assert ops[i + 1] == rest[i];
      }
    }
  }

  datatype Search = BadScript | NotThere | Secret(value: Bytes)

  /** The preimage is among what an input pushes. */
  predicate Reveals(sha: Hash, script: Bytes, secretHash: Bytes) {
    PushedData(script).Some? && exists push :: push in PushedData(script).value && sha(push) == secretHash
  }

  /**
   * The first pushed item, over all inputs, that hashes to the secret hash. A script that cannot
   * be read ends the search.
   */
  method ExtractSecret(sha: Hash, ins: seq<TxIn>, secretHash: Bytes) returns (r: Search)
    ensures r.Secret? ==>
              sha(r.value) == secretHash
              && exists k :: 0 <= k < |ins| && PushedData(ins[k].sigScript).Some?
                             && r.value in PushedData(ins[k].sigScript).value
    ensures r.NotThere? <==>
            forall k :: 0 <= k < |ins| ==>
              PushedData(ins[k].sigScript).Some? && !Reveals(sha, ins[k].sigScript, secretHash)
    ensures r.BadScript? <==>
            exists k :: 0 <= k < |ins| && PushedData(ins[k].sigScript).None?
                        && forall j :: 0 <= j < k ==> !Reveals(sha, ins[j].sigScript, secretHash)
  {
    hide PushedData;
    for i := 0 to |ins|
      invariant forall k :: 0 <= k < i ==>
                  PushedData(ins[k].sigScript).Some? && !Reveals(sha, ins[k].sigScript, secretHash)
    {
      var pushes := PushedData(ins[i].sigScript);
      if pushes.None? { return BadScript; }
      for j := 0 to |pushes.value|
        invariant forall k :: 0 <= k < j ==> sha(pushes.value[k]) != secretHash
      {
        if sha(pushes.value[j]) == secretHash {
          assert Reveals(sha, ins[i].sigScript, secretHash);
          return Secret(pushes.value[j]);
        }
      }
    }
    return NotThere;
  }

  // ---- Every redemption gives the secret away ----

  /** What lands on the stack was pushed as data, unless it is as short as a small integer. */
  lemma {:induction false} StackFromData(env: Env, vm: Vm, ops: seq<Op>, item: Bytes)
    requires PushOnly(ops) && (forall i :: 0 <= i < |ops| ==> WellFormed(ops[i]))
    requires vm.cond == [] && |item| > 1 && Run(env, vm, ops).Some? && item in Run(env, vm, ops).value.stack
    ensures item in vm.stack || item in DataOf(ops)
    decreases |ops|
  {
    if ops != [] {
      PushOnlyStep(env, vm, ops[0], item);
      StackFromData(env, Step(env, vm, ops[0]).value, ops[1..], item);
    }
  }

  lemma {:induction false} PushOnlyStep(env: Env, vm: Vm, op: Op, item: Bytes)
    requires op.code <= OP_16 && WellFormed(op) && vm.cond == [] && |item| > 1 && Step(env, vm, op).Some?
    ensures Step(env, vm, op).value.cond == []
    ensures item in Step(env, vm, op).value.stack ==> item in vm.stack || op.data == Some(item)
  {
    if op.data.None? && op.code != OP_0 && (op.code == OP_1NEGATE || op.code >= OP_1) {
      SmallCode(op.code - (OP_1 - 1));
    }
  }

  lemma SmallCode(n: int)
    requires -1 <= n <= 16
    ensures |Encode(n)| <= 1
  {
    if n > 0 { assert Mag(n) == [n]; } else if n < 0 { assert Mag(1) == [1]; }
  }

  lemma {:induction false} PushedFromData(env: Env, script: Bytes, item: Bytes)
    requires Pushed(env, script).Some? && item in Pushed(env, script).value && |item| > 1
    ensures PushedData(script).Some? && item in PushedData(script).value
  {
    hide Run;
    UnparseParse(script);
    StackFromData(env, Vm([], []), Parse(script).value, item);
  }

  /** The redeem script the tool builds gives its secret to the search, whether or not it is the right one. */
  lemma {:induction false} BuiltRedeemReveals(sha: Hash, contract: Bytes, sig: Bytes, pubkey: Bytes, secret: Bytes)
    requires Pushable(contract) && Pushable(sig) && Pushable(pubkey) && |secret| == SECRET_SIZE
    ensures Reveals(sha, Unparse(RedeemSigOps(contract, sig, pubkey, secret)), sha(secret))
  {
    hide Unparse, WellFormed, IntOp;
    var ops := RedeemSigOps(contract, sig, pubkey, secret);
    PushShape(contract);
    PushShape(sig);
    PushShape(pubkey);
    PushShape(secret);
    IntWellFormed(1);
    ParseUnparse(ops);
    DataIn(ops, 2);
  }

  lemma {:induction false} DataIn(ops: seq<Op>, i: nat)
    requires i < |ops| && ops[i].data.Some?
    ensures ops[i].data.value in DataOf(ops)
  {
    if i > 0 { DataIn(ops[1..], i - 1); }
  }

  // ---- Every spend, by anyone, in any transaction ----

  /** Some signature under a key with this hash covers the input. */
  ghost predicate SignedBy(w: World, tx: Tx, i: nat, pkh: Hash20) {
    exists sig, pubkey :: w.hash160(pubkey) == pkh && w.verify(Unsigned(tx), i, sig, pubkey)
  }

  ghost predicate RevealsOfSize(w: World, script: Bytes, h: Bytes) {
    PushedData(script).Some?
    && exists secret :: secret in PushedData(script).value && |secret| == SECRET_SIZE && w.sha(secret) == h
  }

  lemma {:induction false} FinalLock(w: World, tx: Tx, i: nat, locktime: int, height: int, time: int)
    requires i < |tx.ins| && LockMet(EnvOf(w, tx, i), locktime) && IsFinal(tx, height, time)
    ensures locktime == 0 || locktime < Clock(locktime, height, time)
  {
  }

  /** What a signature script leaves for the contract, below the contract itself. */
  function Operands(env: Env, script: Bytes): seq<Bytes> {
    match Pushed(env, script)
    case None => []
    case Some(stack) => if stack == [] then [] else stack[..|stack| - 1]
  }

  /**
   * Whatever transaction a block holds that spends the contract, its selector says which way it
   * went: a redemption whose secret the search finds, or a refund after the lock time.
   */
  lemma {:induction false} SpendReads(
    w: World, tx: Tx, i: nat, pkhMe: Hash20, pkhThem: Hash20, locktime: int, h: Bytes, height: int, time: int)
    requires |h| == 32 && IsInt64(locktime) && i < |tx.ins|
    requires SecondPreimageFree(w.hash160, ContractScript(pkhMe, pkhThem, locktime, h))
    requires Unlocks(w, tx, i, ContractScript(pkhMe, pkhThem, locktime, h)) && IsFinal(tx, height, time)
    ensures var env, script := EnvOf(w, tx, i), tx.ins[i].sigScript;
            var st := Operands(env, script);
            && |st| >= 3
            && if AsBool(st[|st| - 1])
               then && RedeemStack(env, st, pkhThem, h)
                    && PushedData(script).Some? && st[|st| - 2] in PushedData(script).value
               else RefundStack(env, st, pkhMe, locktime) && (locktime == 0 || locktime < Clock(locktime, height, time))
  {
    hide ContractScript, Spends, Pushed, PushedData, IsFinal, Unsigned;
    var env, script := EnvOf(w, tx, i), tx.ins[i].sigScript;
    SpendsExactly(env, script, pkhMe, pkhThem, locktime, h);
    var st := Operands(env, script);
    if RedeemStack(env, st, pkhThem, h) {
      var secret := st[|st| - 2];
      assert secret in Pushed(env, script).value;
      PushedFromData(env, script, secret);
    } else {
      FinalLock(w, tx, i, locktime, height, time);
    }
  }

  /** So it is signed by the recipient and gives the secret away, or by the owner once the lock time has gone by. */
  lemma {:induction false} AnySpend(
    w: World, tx: Tx, i: nat, pkhMe: Hash20, pkhThem: Hash20, locktime: int, h: Bytes, height: int, time: int)
    requires |h| == 32 && IsInt64(locktime) && i < |tx.ins|
    requires SecondPreimageFree(w.hash160, ContractScript(pkhMe, pkhThem, locktime, h))
    requires Unlocks(w, tx, i, ContractScript(pkhMe, pkhThem, locktime, h)) && IsFinal(tx, height, time)
    ensures || (SignedBy(w, tx, i, pkhThem) && RevealsOfSize(w, tx.ins[i].sigScript, h))
            || (SignedBy(w, tx, i, pkhMe) && (locktime == 0 || locktime < Clock(locktime, height, time)))
  {
    hide ContractScript, Unlocks, Operands, PushedData, IsFinal, Unsigned;
    SpendReads(w, tx, i, pkhMe, pkhThem, locktime, h, height, time);
    var st := Operands(EnvOf(w, tx, i), tx.ins[i].sigScript);
    if AsBool(st[|st| - 1]) {
      assert w.verify(Unsigned(tx), i, st[|st| - 4], st[|st| - 3]);
    } else {
      assert w.verify(Unsigned(tx), i, st[|st| - 3], st[|st| - 2]);
    }
  }
}
