/** Who can spend the swap contract's output, and how. */
module BtcSpend {
  import opened Bytes
  import opened ScriptNum
  import opened Script
  import opened BtcContract
  import opened BtcEngine

  /** An executing machine within the stack limit. */
  predicate Ready(vm: Vm) { vm.Executing() && |vm.stack| <= MAX_STACK_SIZE }

  // ---- Single instructions ----

  function Grow(vm: Vm, item: Bytes): Option<Vm> {
    if |vm.stack| < MAX_STACK_SIZE then Some(Vm(vm.stack + [item], vm.cond)) else None
  }

  lemma {:induction false} PushStep(env: Env, vm: Vm, data: Bytes)
    requires Ready(vm) && 1 < |data| <= 75
    ensures Step(env, vm, PushOp(data)) == Grow(vm, data)
  {
  }

  lemma {:induction false} IntStep(env: Env, vm: Vm, n: int)
    requires Ready(vm) && IsInt64(n)
    ensures Step(env, vm, IntOp(n)) == Grow(vm, Encode(n))
  {
    Int64Size(n);
    if !(n == -1 || 0 <= n <= 16) {
      ValueOfEncode(n);
      if |Encode(n)| == 1 { OneByte(Encode(n)); }
    }
  }

  lemma SizeStep(env: Env, vm: Vm)
    requires Ready(vm)
    ensures var n := |vm.stack|;
            Step(env, vm, Plain(OP_SIZE)) == if n < 1 then None else Grow(vm, Encode(|vm.stack[n - 1]|))
  {
  }

  lemma DupStep(env: Env, vm: Vm)
    requires Ready(vm)
    ensures var n := |vm.stack|;
            Step(env, vm, Plain(OP_DUP)) == if n < 1 then None else Grow(vm, vm.stack[n - 1])
  {
  }

  lemma HashStep(env: Env, st: seq<Bytes>, cond: seq<Cond>, top: Bytes)
    requires Ready(Vm(st + [top], cond))
    ensures Step(env, Vm(st + [top], cond), Plain(OP_SHA256)) == Some(Vm(st + [env.sha(top)], cond))
    ensures Step(env, Vm(st + [top], cond), Plain(OP_HASH160)) == Some(Vm(st + [env.hash160(top)], cond))
  {
    assert (st + [top])[..|st|] == st;
  }

  lemma VerifyStep(env: Env, st: seq<Bytes>, cond: seq<Cond>, a: Bytes, b: Bytes)
    requires Ready(Vm(st + [a] + [b], cond))
    ensures Step(env, Vm(st + [a] + [b], cond), Plain(OP_EQUALVERIFY)) == if a == b then Some(Vm(st, cond)) else None
  {
    assert (st + [a] + [b])[..|st|] == st;
  }

  lemma DropStep(env: Env, st: seq<Bytes>, cond: seq<Cond>, top: Bytes)
    requires Ready(Vm(st + [top], cond))
    ensures Step(env, Vm(st + [top], cond), Plain(OP_DROP)) == Some(Vm(st, cond))
  {
    assert (st + [top])[..|st|] == st;
  }

  lemma LockStep(env: Env, st: seq<Bytes>, cond: seq<Cond>, locktime: int)
    requires Ready(Vm(st + [Encode(locktime)], cond)) && env.lockTime <= MAX_SEQUENCE
    ensures Step(env, Vm(st + [Encode(locktime)], cond), Plain(OP_CHECKLOCKTIMEVERIFY)) ==
            if LockMet(env, locktime) then Some(Vm(st + [Encode(locktime)], cond)) else None
  {
    ValueOfEncode(locktime);
    FitsFive(locktime);
  }

  lemma EndifStep(env: Env, st: seq<Bytes>, c: Cond)
    requires |st| <= MAX_STACK_SIZE
    ensures Step(env, Vm(st, [c]), Plain(OP_ENDIF)) == Some(Vm(st, []))
  {
    assert [c][..0] == [];
  }

  lemma SigStep(env: Env, st: seq<Bytes>)
    requires |st| <= MAX_STACK_SIZE
    ensures var n := |st|;
            Step(env, Vm(st, []), Plain(OP_CHECKSIG)) ==
            if n < 2 then None else Some(Vm(st[..n - 2] + [FromBool(env.checkSig(st[n - 2], st[n - 1]))], []))
  {
  }

  lemma ElseStep(env: Env, st: seq<Bytes>, taken: bool)
    requires |st| <= MAX_STACK_SIZE
    ensures Step(env, Vm(st, [if taken then CondTrue else CondFalse]), Plain(OP_ELSE)) ==
            Some(Vm(st, [if taken then CondFalse else CondTrue]))
  {
    var vm := Vm(st, [if taken then CondTrue else CondFalse]);
    var flipped := if taken then CondFalse else CondTrue;
    assert vm.cond[..0] + [flipped] == [flipped];
    assert Branch(vm, Plain(OP_ELSE)) == Some(Vm(st, [flipped]));
  }

  lemma IfStep(env: Env, st: seq<Bytes>)
    ensures var n := |st|;
            Step(env, Vm(st, []), Plain(OP_IF)) ==
            if 1 <= n <= MAX_STACK_SIZE + 1
            then Some(Vm(st[..n - 1], [if AsBool(st[n - 1]) then CondTrue else CondFalse])) else None
  {
    var n := |st|;
    if n >= 1 {
      var c := if AsBool(st[n - 1]) then CondTrue else CondFalse;
      assert Vm(st, []).cond + [c] == [c];
      assert Branch(Vm(st, []), Plain(OP_IF)) == Some(Vm(st[..n - 1], [c]));
    }
  }

  // ---- The pieces of the contract ----

  lemma EncodeInjective(a: int, b: int)
    ensures Encode(a) == Encode(b) <==> a == b
  {
    ValueOfEncode(a);
    ValueOfEncode(b);
  }

  lemma {:induction false} SizeRun(env: Env, vm: Vm)
    requires Ready(vm)
    ensures var n := |vm.stack|;
            Run(env, vm, [Plain(OP_SIZE), IntOp(SECRET_SIZE), Plain(OP_EQUALVERIFY)]) ==
            if 1 <= n <= MAX_STACK_SIZE - 2 && |vm.stack[n - 1]| == SECRET_SIZE then Some(vm) else None
  {
    hide Step, Run, Encode, IntOp;
    var n := |vm.stack|;
    RunThree(env, vm, Plain(OP_SIZE), IntOp(SECRET_SIZE), Plain(OP_EQUALVERIFY));
    SizeStep(env, vm);
    if 1 <= n < MAX_STACK_SIZE {
      var size := |vm.stack[n - 1]|;
      var v1 := Vm(vm.stack + [Encode(size)], vm.cond);
      IntStep(env, v1, SECRET_SIZE);
      EncodeInjective(size, SECRET_SIZE);
      if n <= MAX_STACK_SIZE - 2 { VerifyStep(env, vm.stack, vm.cond, Encode(size), Encode(SECRET_SIZE)); }
    }
  }

  lemma {:induction false} HashRun(env: Env, st: seq<Bytes>, cond: seq<Cond>, secret: Bytes, h: Bytes)
    requires Ready(Vm(st + [secret], cond)) && |st| <= MAX_STACK_SIZE - 2 && |h| == 32
    ensures Run(env, Vm(st + [secret], cond), [Plain(OP_SHA256), PushOp(h), Plain(OP_EQUALVERIFY)]) ==
            if env.sha(secret) == h then Some(Vm(st, cond)) else None
  {
    hide Step, Run, PushOp;
    RunThree(env, Vm(st + [secret], cond), Plain(OP_SHA256), PushOp(h), Plain(OP_EQUALVERIFY));
    HashStep(env, st, cond, secret);
    PushStep(env, Vm(st + [env.sha(secret)], cond), h);
    VerifyStep(env, st, cond, env.sha(secret), h);
  }

  /** The checks on the secret: the size, then the hash. */
  lemma {:induction false} SecretRun(env: Env, vm: Vm, h: Bytes)
    requires Ready(vm) && |h| == 32
    ensures var n := |vm.stack|;
            Run(env, vm, SecretOps(h)) ==
            if 1 <= n <= MAX_STACK_SIZE - 2 && |vm.stack[n - 1]| == SECRET_SIZE && env.sha(vm.stack[n - 1]) == h
            then Some(Vm(vm.stack[..n - 1], vm.cond)) else None
  {
    hide Step, Run, PushOp, IntOp;
    var n := |vm.stack|;
    var first := [Plain(OP_SIZE), IntOp(SECRET_SIZE), Plain(OP_EQUALVERIFY)];
    var second := [Plain(OP_SHA256), PushOp(h), Plain(OP_EQUALVERIFY)];
    assert SecretOps(h) == first + second;
    RunAppend(env, vm, first, second);
    SizeRun(env, vm);
    if 1 <= n <= MAX_STACK_SIZE - 2 {
      assert vm.stack == vm.stack[..n - 1] + [vm.stack[n - 1]];
      HashRun(env, vm.stack[..n - 1], vm.cond, vm.stack[n - 1], h);
    }
  }

  lemma {:induction false} KeyRun(env: Env, vm: Vm, pkh: Hash20)
    requires Ready(vm)
    ensures var n := |vm.stack|;
            Run(env, vm, KeyOps(pkh)) ==
            if 1 <= n <= MAX_STACK_SIZE - 2
            then Some(Vm(vm.stack + [env.hash160(vm.stack[n - 1])] + [pkh], vm.cond)) else None
  {
    hide Step, Run, PushOp;
    var n := |vm.stack|;
    RunThree(env, vm, Plain(OP_DUP), Plain(OP_HASH160), PushOp(pkh));
    DupStep(env, vm);
    if 1 <= n < MAX_STACK_SIZE {
      var key := vm.stack[n - 1];
      HashStep(env, vm.stack, vm.cond, key);
      PushStep(env, Vm(vm.stack + [env.hash160(key)], vm.cond), pkh);
    }
  }

  lemma {:induction false} LockRun(env: Env, vm: Vm, locktime: int)
    requires Ready(vm) && IsInt64(locktime) && env.lockTime <= MAX_SEQUENCE
    ensures Run(env, vm, LockOps(locktime)) ==
            if |vm.stack| < MAX_STACK_SIZE && LockMet(env, locktime) then Some(vm) else None
  {
    hide Step, Run, Encode, IntOp;
    RunThree(env, vm, IntOp(locktime), Plain(OP_CHECKLOCKTIMEVERIFY), Plain(OP_DROP));
    IntStep(env, vm, locktime);
    if |vm.stack| < MAX_STACK_SIZE {
      LockStep(env, vm.stack, vm.cond, locktime);
      DropStep(env, vm.stack, vm.cond, Encode(locktime));
    }
  }

  /** The shared end: the key hashes agree and the signature is good. */
  lemma {:induction false} SignatureRun(env: Env, st: seq<Bytes>, found: Bytes, wanted: Bytes, c: Cond)
    requires |st| + 2 <= MAX_STACK_SIZE
    ensures var n := |st|;
            Run(env, Vm(st + [found] + [wanted], [c]), SignatureOps()) ==
            if found == wanted && n >= 2
            then Some(Vm(st[..n - 2] + [FromBool(env.checkSig(st[n - 2], st[n - 1]))], [])) else None
  {
    hide Step, Run;
    var full := st + [found] + [wanted];
    RunThree(env, Vm(full, [c]), Plain(OP_ENDIF), Plain(OP_EQUALVERIFY), Plain(OP_CHECKSIG));
    EndifStep(env, full, c);
    VerifyStep(env, st, [], found, wanted);
    SigStep(env, st);
  }

  // ---- The whole contract ----

  /** Signature, key, secret and a true selector on top. */
  predicate RedeemStack(env: Env, st: seq<Bytes>, pkhThem: Hash20, h: Bytes) {
    var n := |st|;
    && 4 <= n < MAX_STACK_SIZE && (env.clean ==> n == 4)
    && AsBool(st[n - 1])
    && |st[n - 2]| == SECRET_SIZE && env.sha(st[n - 2]) == h
    && env.hash160(st[n - 3]) == pkhThem && env.checkSig(st[n - 4], st[n - 3])
  }

  /** Signature, key and a false selector on top, with the lock time reached. */
  predicate RefundStack(env: Env, st: seq<Bytes>, pkhMe: Hash20, locktime: int) {
    var n := |st|;
    && 3 <= n < MAX_STACK_SIZE && (env.clean ==> n == 3)
    && !AsBool(st[n - 1])
    && LockMet(env, locktime)
    && env.hash160(st[n - 2]) == pkhMe && env.checkSig(st[n - 3], st[n - 2])
  }

  /** The rest of the contract after the branch that was taken has been left. */
  lemma {:induction false} AfterRedeem(
    env: Env, st: seq<Bytes>, found: Bytes, pkhMe: Hash20, pkhThem: Hash20, locktime: int)
    requires |st| + 2 <= MAX_STACK_SIZE && IsInt64(locktime)
    ensures Run(env, Vm(st + [found] + [pkhThem], [CondTrue]),
                [Plain(OP_ELSE)] + (RefundHalf(locktime, pkhMe) + SignatureOps())) ==
            Run(env, Vm(st + [found] + [pkhThem], [CondFalse]), SignatureOps())
  {
    hide Step, Run;
    var full := st + [found] + [pkhThem];
    RunFirst(env, Vm(full, [CondTrue]), Plain(OP_ELSE), RefundHalf(locktime, pkhMe) + SignatureOps());
    ElseStep(env, full, true);
    RunAppend(env, Vm(full, [CondFalse]), RefundHalf(locktime, pkhMe), SignatureOps());
    RefundHalfPlain(locktime, pkhMe);
    RunSkipped(env, Vm(full, [CondFalse]), RefundHalf(locktime, pkhMe));
  }

  /** The part of the contract before the refund branch, when the redeem branch is not taken. */
  lemma {:induction false} BeforeRefund(env: Env, st: seq<Bytes>, h: Bytes, pkhThem: Hash20, rest: seq<Op>)
    requires |st| <= MAX_STACK_SIZE && |h| == 32
    ensures Run(env, Vm(st, [CondFalse]), RedeemHalf(h, pkhThem) + ([Plain(OP_ELSE)] + rest)) ==
            Run(env, Vm(st, [CondTrue]), rest)
  {
    hide Step, Run;
    RunAppend(env, Vm(st, [CondFalse]), RedeemHalf(h, pkhThem), [Plain(OP_ELSE)] + rest);
    RedeemHalfPlain(h, pkhThem);
    RunSkipped(env, Vm(st, [CondFalse]), RedeemHalf(h, pkhThem));
    RunFirst(env, Vm(st, [CondFalse]), Plain(OP_ELSE), rest);
    ElseStep(env, st, false);
  }

  function RefundHalf(locktime: int, pkhMe: Hash20): seq<Op> { LockOps(locktime) + KeyOps(pkhMe) }

  function RedeemHalf(h: Bytes, pkhThem: Hash20): seq<Op> { SecretOps(h) + KeyOps(pkhThem) }

  lemma ContractHalves(pkhMe: Hash20, pkhThem: Hash20, locktime: int, h: Bytes)
    ensures ContractOps(pkhMe, pkhThem, locktime, h) ==
            [Plain(OP_IF)]
            + (RedeemHalf(h, pkhThem) + ([Plain(OP_ELSE)] + (RefundHalf(locktime, pkhMe) + SignatureOps())))
  {
  }

  lemma {:induction false} RedeemHalfRun(env: Env, vm: Vm, h: Bytes, pkhThem: Hash20)
    requires Ready(vm) && |h| == 32
    ensures var n := |vm.stack|;
            Run(env, vm, RedeemHalf(h, pkhThem)) ==
            if 2 <= n <= MAX_STACK_SIZE - 2 && |vm.stack[n - 1]| == SECRET_SIZE && env.sha(vm.stack[n - 1]) == h
            then Some(Vm(vm.stack[..n - 1] + [env.hash160(vm.stack[n - 2])] + [pkhThem], vm.cond)) else None
  {
    hide Step, Run;
    var n := |vm.stack|;
    RunAppend(env, vm, SecretOps(h), KeyOps(pkhThem));
    SecretRun(env, vm, h);
    if n >= 1 { KeyRun(env, Vm(vm.stack[..n - 1], vm.cond), pkhThem); }
  }

  lemma {:induction false} RefundHalfRun(env: Env, vm: Vm, locktime: int, pkhMe: Hash20)
    requires Ready(vm) && IsInt64(locktime) && env.lockTime <= MAX_SEQUENCE
    ensures var n := |vm.stack|;
            Run(env, vm, RefundHalf(locktime, pkhMe)) ==
            if 1 <= n <= MAX_STACK_SIZE - 2 && LockMet(env, locktime)
            then Some(Vm(vm.stack + [env.hash160(vm.stack[n - 1])] + [pkhMe], vm.cond)) else None
  {
    hide Step, Run;
    RunAppend(env, vm, LockOps(locktime), KeyOps(pkhMe));
    LockRun(env, vm, locktime);
    KeyRun(env, vm, pkhMe);
  }

  /** No branching inside, and nothing too long to push. */
  predicate Skippable(ops: seq<Op>) {
    forall i :: 0 <= i < |ops| ==>
      !IsConditional(ops[i]) && (ops[i].data.Some? ==> |ops[i].data.value| <= MAX_ELEMENT_SIZE)
  }

  lemma RefundHalfPlain(locktime: int, pkhMe: Hash20)
    requires IsInt64(locktime)
    ensures Skippable(RefundHalf(locktime, pkhMe))
  {
    Int64Size(locktime);
  }

  lemma RedeemHalfPlain(h: Bytes, pkhThem: Hash20)
    requires |h| == 32
    ensures Skippable(RedeemHalf(h, pkhThem))
  {
    Int64Size(SECRET_SIZE);
  }

  /** After a true selector. */
  lemma {:induction false} TakenRedeem(
    env: Env, st: seq<Bytes>, pkhMe: Hash20, pkhThem: Hash20, locktime: int, h: Bytes)
    requires |st| <= MAX_STACK_SIZE && |h| == 32 && IsInt64(locktime)
    ensures var n := |st|;
            var tail := [Plain(OP_ELSE)] + (RefundHalf(locktime, pkhMe) + SignatureOps());
            Run(env, Vm(st, [CondTrue]), RedeemHalf(h, pkhThem) + tail) ==
            if 3 <= n <= MAX_STACK_SIZE - 2 && |st[n - 1]| == SECRET_SIZE && env.sha(st[n - 1]) == h &&
               env.hash160(st[n - 2]) == pkhThem
            then Some(Vm(st[..n - 3] + [FromBool(env.checkSig(st[n - 3], st[n - 2]))], [])) else None
  {
    hide Step, Run;
    var n := |st|;
    RunAppend(env, Vm(st, [CondTrue]), RedeemHalf(h, pkhThem),
              [Plain(OP_ELSE)] + (RefundHalf(locktime, pkhMe) + SignatureOps()));
    RedeemHalfRun(env, Vm(st, [CondTrue]), h, pkhThem);
    if 2 <= n <= MAX_STACK_SIZE - 2 {
      var base := st[..n - 1];
      AfterRedeem(env, base, env.hash160(st[n - 2]), pkhMe, pkhThem, locktime);
      SignatureRun(env, base, env.hash160(st[n - 2]), pkhThem, CondFalse);
      if n >= 3 { assert base[..n - 3] == st[..n - 3]; }
    }
  }

  /** After a false selector. */
  lemma {:induction false} TakenRefund(
    env: Env, st: seq<Bytes>, pkhMe: Hash20, pkhThem: Hash20, locktime: int, h: Bytes)
    requires |st| <= MAX_STACK_SIZE && |h| == 32 && IsInt64(locktime) && env.lockTime <= MAX_SEQUENCE
    ensures var n := |st|;
            var tail := [Plain(OP_ELSE)] + (RefundHalf(locktime, pkhMe) + SignatureOps());
            Run(env, Vm(st, [CondFalse]), RedeemHalf(h, pkhThem) + tail) ==
            if 2 <= n <= MAX_STACK_SIZE - 2 && LockMet(env, locktime) && env.hash160(st[n - 1]) == pkhMe
            then Some(Vm(st[..n - 2] + [FromBool(env.checkSig(st[n - 2], st[n - 1]))], [])) else None
  {
    hide Step, Run;
    var n := |st|;
    BeforeRefund(env, st, h, pkhThem, RefundHalf(locktime, pkhMe) + SignatureOps());
    RunAppend(env, Vm(st, [CondTrue]), RefundHalf(locktime, pkhMe), SignatureOps());
    RefundHalfRun(env, Vm(st, [CondTrue]), locktime, pkhMe);
    if 1 <= n <= MAX_STACK_SIZE - 2 { SignatureRun(env, st, env.hash160(st[n - 1]), pkhMe, CondTrue); }
  }

  lemma EndsWell(env: Env, below: seq<Bytes>, ok: bool)
    ensures Succeeds(env, Some(Vm(below + [FromBool(ok)], []))) <==> ok && (env.clean ==> |below| == 0)
  {
  }

  function Body(pkhMe: Hash20, pkhThem: Hash20, locktime: int, h: Bytes): seq<Op> {
    RedeemHalf(h, pkhThem) + ([Plain(OP_ELSE)] + (RefundHalf(locktime, pkhMe) + SignatureOps()))
  }

  lemma {:induction false} ByRedeem(env: Env, st: seq<Bytes>, pkhMe: Hash20, pkhThem: Hash20, locktime: int, h: Bytes)
    requires |h| == 32 && IsInt64(locktime) && 1 <= |st| <= MAX_STACK_SIZE + 1 && AsBool(st[|st| - 1])
    ensures Succeeds(env, Run(env, Vm(st[..|st| - 1], [CondTrue]), Body(pkhMe, pkhThem, locktime, h))) <==>
            RedeemStack(env, st, pkhThem, h)
  {
    hide Step, Run;
    var n := |st|;
    TakenRedeem(env, st[..n - 1], pkhMe, pkhThem, locktime, h);
    if n >= 4 { EndsWell(env, st[..n - 1][..n - 4], env.checkSig(st[n - 4], st[n - 3])); }
  }

  lemma {:induction false} ByRefund(env: Env, st: seq<Bytes>, pkhMe: Hash20, pkhThem: Hash20, locktime: int, h: Bytes)
    requires |h| == 32 && IsInt64(locktime) && env.lockTime <= MAX_SEQUENCE
    requires 1 <= |st| <= MAX_STACK_SIZE + 1 && !AsBool(st[|st| - 1])
    ensures Succeeds(env, Run(env, Vm(st[..|st| - 1], [CondFalse]), Body(pkhMe, pkhThem, locktime, h))) <==>
            RefundStack(env, st, pkhMe, locktime)
  {
    hide Step, Run;
    var n := |st|;
    TakenRefund(env, st[..n - 1], pkhMe, pkhThem, locktime, h);
    if n >= 3 { EndsWell(env, st[..n - 1][..n - 3], env.checkSig(st[n - 3], st[n - 2])); }
  }

  /**
   * There is no third way to spend: from any stack whatever, of any height and contents, the
   * contract succeeds exactly on the redeeming stacks and on the refunding ones.
   */
  lemma {:induction false} NoThirdWay(
    env: Env, st: seq<Bytes>, pkhMe: Hash20, pkhThem: Hash20, locktime: int, h: Bytes)
    requires |h| == 32 && IsInt64(locktime) && env.lockTime <= MAX_SEQUENCE
    ensures Succeeds(env, Run(env, Vm(st, []), ContractOps(pkhMe, pkhThem, locktime, h))) <==>
            RedeemStack(env, st, pkhThem, h) || RefundStack(env, st, pkhMe, locktime)
  {
    hide Step, Run;
    var n := |st|;
    ContractHalves(pkhMe, pkhThem, locktime, h);
    RunFirst(env, Vm(st, []), Plain(OP_IF), Body(pkhMe, pkhThem, locktime, h));
    IfStep(env, st);
    if 1 <= n <= MAX_STACK_SIZE + 1 {
      if AsBool(st[n - 1]) {
        ByRedeem(env, st, pkhMe, pkhThem, locktime, h);
      } else {
        ByRefund(env, st, pkhMe, pkhThem, locktime, h);
      }
    }
  }
}
