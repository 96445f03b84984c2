/** The script engine, for the opcodes of pay-to-script-hash outputs and of the swap contract. */
module BtcEngine {
  import opened Bytes
  import opened ScriptNum
  import opened Script
  import opened BtcContract

  const MAX_STACK_SIZE: nat := 1000
  const LOCKTIME_THRESHOLD: int := 500_000_000
  const MAX_SEQUENCE: int := 0xffff_ffff

  /**
   * What a script sees of the world: the hash functions, whether a signature by a key covers the
   * spending input, and that transaction's lock time and sequence. `minimal` and `clean` are the
   * policy flags for minimal pushes and for a single item left at the end.
   */
  datatype Env = Env(
    sha: Hash, hash160: Bytes -> Hash20, checkSig: (Bytes, Bytes) -> bool,
    lockTime: int, sequence: int, minimal: bool, clean: bool)

  datatype Cond = CondTrue | CondFalse | CondSkip

  /** The top of either stack is at its end. */
  datatype Vm = Vm(stack: seq<Bytes>, cond: seq<Cond>) {
    predicate Executing() { cond == [] || cond[|cond| - 1] == CondTrue }
  }

  /** False is empty, all zeros, or zeros with only the sign bit set. */
  function AsBool(v: Bytes): bool {
    if v == [] then false
    else if v[0] != 0 then !(|v| == 1 && v[0] == 0x80)
    else AsBool(v[1..])
  }

  function FromBool(b: bool): Bytes { if b then [1] else [] }

  predicate IsConditional(op: Op) { op.code == OP_IF || op.code == OP_ELSE || op.code == OP_ENDIF }

  predicate MinimalPush(op: Op) {
    var d: Bytes := if op.data.Some? then op.data.value else [];
    if |d| == 0 && op.code != OP_0 then false
    else if |d| == 1 && 1 <= d[0] <= 16 then op.code == OP_1 + d[0] - 1
    else if d == [0x81] then op.code == OP_1NEGATE
    else if |d| <= 75 then op.code == |d|
    else if |d| <= 0xff then op.code == OP_PUSHDATA1
    else if |d| <= 0xffff then op.code == OP_PUSHDATA2
    else true
  }

  /** The lock time check of BIP 65. */
  predicate LockMet(env: Env, locktime: int) {
    && 0 <= locktime <= env.lockTime
    && (locktime < LOCKTIME_THRESHOLD <==> env.lockTime < LOCKTIME_THRESHOLD)
    && env.sequence != MAX_SEQUENCE
  }

  /** What an executed, unconditional instruction does to the data stack. */
  function Effect(env: Env, st: seq<Bytes>, op: Op): Option<seq<Bytes>> {
    var n := |st|;
    if op.data.Some? then Some(st + [op.data.value])
    else if op.code == OP_0 then Some(st + [[]])
    else if op.code == OP_1NEGATE || OP_1 <= op.code <= OP_16 then Some(st + [Encode(op.code - (OP_1 - 1))])
    else if n < 1 then None
    else if op.code == OP_DROP then Some(st[..n - 1])
    else if op.code == OP_DUP then Some(st + [st[n - 1]])
    else if op.code == OP_SIZE then Some(st + [Encode(|st[n - 1]|)])
    else if op.code == OP_SHA256 then Some(st[..n - 1] + [env.sha(st[n - 1])])
    else if op.code == OP_HASH160 then Some(st[..n - 1] + [env.hash160(st[n - 1])])
    else if op.code == OP_CHECKLOCKTIMEVERIFY then
      match Decode(st[n - 1], env.minimal, 5)
      case None => None
      case Some(locktime) => if LockMet(env, locktime) then Some(st) else None
    else if n < 2 then None
    else if op.code == OP_EQUAL then Some(st[..n - 2] + [FromBool(st[n - 2] == st[n - 1])])
    else if op.code == OP_EQUALVERIFY then if st[n - 2] == st[n - 1] then Some(st[..n - 2]) else None
    else if op.code == OP_CHECKSIG then Some(st[..n - 2] + [FromBool(env.checkSig(st[n - 2], st[n - 1]))])
    else None
  }

  function Branch(vm: Vm, op: Op): Option<Vm> {
    var n, c := |vm.stack|, |vm.cond|;
    if op.code == OP_IF then
      if !vm.Executing() then Some(Vm(vm.stack, vm.cond + [CondSkip]))
      else if n < 1 then None
      else Some(Vm(vm.stack[..n - 1], vm.cond + [if AsBool(vm.stack[n - 1]) then CondTrue else CondFalse]))
    else if c == 0 then None
    else if op.code == OP_ENDIF then Some(Vm(vm.stack, vm.cond[..c - 1]))
    else
      var flipped := match vm.cond[c - 1]
                     case CondTrue => CondFalse
                     case CondFalse => CondTrue
                     case CondSkip => CondSkip;
      Some(Vm(vm.stack, vm.cond[..c - 1] + [flipped]))
  }

  function Execute(env: Env, vm: Vm, op: Op): Option<Vm> {
    if op.data.Some? && |op.data.value| > MAX_ELEMENT_SIZE then None
    else if IsConditional(op) then Branch(vm, op)
    else if !vm.Executing() then Some(vm)
    else if env.minimal && op.code <= OP_PUSHDATA4 && !MinimalPush(op) then None
    else
      match Effect(env, vm.stack, op)
      case None => None
      case Some(st) => Some(Vm(st, vm.cond))
  }

  function Step(env: Env, vm: Vm, op: Op): Option<Vm> {
    match Execute(env, vm, op)
    case Some(vm') => if |vm'.stack| <= MAX_STACK_SIZE then Some(vm') else None
    case None => None
  }

  function Run(env: Env, vm: Vm, ops: seq<Op>): Option<Vm>
    decreases |ops|
  {
    if ops == [] then Some(vm)
    else
      match Step(env, vm, ops[0])
      case None => None
      case Some(vm') => Run(env, vm', ops[1..])
  }

  /** Every branch closed and truth on top, alone there if the stack has to be clean. */
  predicate Succeeds(env: Env, end: Option<Vm>) {
    match end
    case None => false
    case Some(vm) =>
      var n := |vm.stack|;
      vm.cond == [] && n > 0 && AsBool(vm.stack[n - 1]) && (env.clean ==> n == 1)
  }

  // ---- Pay to script hash, BIP 16 ----

  predicate PushOnly(ops: seq<Op>) { forall i :: 0 <= i < |ops| ==> ops[i].code <= OP_16 }

  function ScriptHashOps(h: Hash20): seq<Op> {
    [Plain(OP_HASH160), Op(OP_DATA_20, Some(h)), Plain(OP_EQUAL)]
  }

  /** What a signature script leaves on the stack, if it only pushes. */
  function Pushed(env: Env, sigScript: Bytes): Option<seq<Bytes>> {
    match Parse(sigScript)
    case None => None
    case Some(ops) =>
      if |sigScript| > MAX_SCRIPT_SIZE || !PushOnly(ops) then None
      else
        match Run(env, Vm([], []), ops)
        case None => None
        case Some(vm) => Some(vm.stack)
  }

  /** Whether a signature script spends an output that pays to a script hash. */
  predicate Spends(env: Env, sigScript: Bytes, h: Hash20) {
    match Pushed(env, sigScript)
    case None => false
    case Some(stack) =>
      var n := |stack|;
      && n > 0
      && Succeeds(env.(clean := false), Run(env, Vm(stack, []), ScriptHashOps(h)))
      && match Parse(stack[n - 1])
         case None => false
         case Some(ops) => Succeeds(env, Run(env, Vm(stack[..n - 1], []), ops))
  }

  // ---- Running pieces of scripts ----

  lemma {:induction false} RunAppend(env: Env, vm: Vm, a: seq<Op>, b: seq<Op>)
    ensures Run(env, vm, a + b) == match Run(env, vm, a) case None => None case Some(vm') => Run(env, vm', b)
    decreases |a|
  {
    if a == [] {
      assert a + b == b;
    } else {
      assert (a + b)[1..] == a[1..] + b;
      if Step(env, vm, a[0]).Some? { RunAppend(env, Step(env, vm, a[0]).value, a[1..], b); }
    }
  }

  lemma RunOne(env: Env, vm: Vm, op: Op)
    ensures Run(env, vm, [op]) == Step(env, vm, op)
  {
    if Step(env, vm, op).Some? { assert Run(env, Step(env, vm, op).value, []) == Step(env, vm, op); }
  }

  /** One instruction in front of others. */
  lemma {:induction false} RunFirst(env: Env, vm: Vm, op: Op, rest: seq<Op>)
    ensures Run(env, vm, [op] + rest) ==
            match Step(env, vm, op) case None => None case Some(vm') => Run(env, vm', rest)
  {
    assert ([op] + rest)[1..] == rest;
  }

  /** Instructions in a branch that is not taken do nothing. */
  lemma {:induction false} RunSkipped(env: Env, vm: Vm, ops: seq<Op>)
    requires !vm.Executing() && |vm.stack| <= MAX_STACK_SIZE
    requires forall i :: 0 <= i < |ops| ==>
               !IsConditional(ops[i]) && (ops[i].data.Some? ==> |ops[i].data.value| <= MAX_ELEMENT_SIZE)
    ensures Run(env, vm, ops) == Some(vm)
  {
    if ops != [] {
      assert Step(env, vm, ops[0]) == Some(vm);
      RunSkipped(env, vm, ops[1..]);
    }
  }

  /** Three instructions, unrolled. */
  lemma {:induction false} RunThree(env: Env, vm: Vm, a: Op, b: Op, c: Op)
    ensures Run(env, vm, [a, b, c]) ==
            match Step(env, vm, a)
            case None => None
            case Some(v1) =>
              match Step(env, v1, b)
              case None => None
              case Some(v2) => Step(env, v2, c)
  {
    assert [a, b, c] == [a] + [b, c] && [b, c] == [b] + [c];
    RunFirst(env, vm, a, [b, c]);
    if Step(env, vm, a).Some? {
      var v1 := Step(env, vm, a).value;
      RunFirst(env, v1, b, [c]);
      if Step(env, v1, b).Some? { RunOne(env, Step(env, v1, b).value, c); }
    }
  }

  // ---- The engine's own judgements, said plainly ----

  /** False are exactly the strings of zeros, with or without the sign bit at the end. */
  lemma {:induction false} AsBoolExact(v: Bytes)
    ensures !AsBool(v) <==> forall i :: 0 <= i < |v| ==> v[i] == 0 || (i == |v| - 1 && v[i] == 0x80)
  {
    if v != [] {
      var rest := v[1..];
      AsBoolExact(rest);
      assert forall i :: 0 <= i < |rest| ==> rest[i] == v[i + 1];
      if v[0] == 0 {
        if forall i :: 0 <= i < |rest| ==> rest[i] == 0 || (i == |rest| - 1 && rest[i] == 0x80) {
          forall i | 0 <= i < |v| ensures v[i] == 0 || (i == |v| - 1 && v[i] == 0x80) {
            if i > 0 { assert rest[i - 1] == v[i]; }
          }
        }
      }
    }
  }

  /** The one minimal push of given data is the builder's, but for a lone zero byte, which is pushed as it is. */
  lemma {:induction false} MinimalExact(op: Op)
    requires WellFormed(op) && op.code <= OP_PUSHDATA4 && (op.data.Some? ==> |op.data.value| <= MAX_ELEMENT_SIZE)
    ensures var d: Bytes := if op.data.Some? then op.data.value else [];
            MinimalPush(op) <==> op == if d == [0] then Op(1, Some([0])) else PushOp(d)
  {
  }

  /** The lock time check of BIP 65 in full: reached, of the same kind, and in an input that is not final. */
  lemma {:induction false} LockMetExact(env: Env, locktime: int)
    requires 0 <= env.lockTime <= 0xffff_ffff && 0 <= env.sequence <= 0xffff_ffff
    ensures LockMet(env, locktime) <==>
            && env.sequence != 0xffff_ffff
            && if env.lockTime < 500_000_000 then 0 <= locktime <= env.lockTime
               else 500_000_000 <= locktime <= env.lockTime
  {
  }

  /** The item a push leaves. */
  function Item(op: Op): Bytes {
    if op.data.Some? then op.data.value else if op.code == OP_0 then [] else Encode(op.code - 0x50)
  }

  function Items(ops: seq<Op>): seq<Bytes> {
    if ops == [] then [] else [Item(ops[0])] + Items(ops[1..])
  }

  /** A push the engine carries out: not too long, minimal if that is asked for, and no reserved opcode. */
  predicate GoodPush(env: Env, op: Op) {
    && op.code <= 0x60 && op.code != 0x50 && (op.data.Some? ==> |op.data.value| <= 520)
    && (env.minimal && op.code <= 0x4e ==> MinimalPush(op))
  }

  lemma {:induction false} PushesRun(env: Env, stack: seq<Bytes>, ops: seq<Op>)
    requires PushOnly(ops) && (forall i :: 0 <= i < |ops| ==> WellFormed(ops[i])) && |stack| <= MAX_STACK_SIZE
    ensures Run(env, Vm(stack, []), ops) ==
            if |stack| + |ops| <= 1000 && (forall i :: 0 <= i < |ops| ==> GoodPush(env, ops[i]))
            then Some(Vm(stack + Items(ops), [])) else None
    decreases |ops|
  {
    hide MinimalPush, Encode;
    if ops == [] {
      assert stack + [] == stack;
    } else {
      var rest := ops[1..];
      assert forall i :: 0 <= i < |rest| ==> rest[i] == ops[i + 1];
      var good := GoodPush(env, ops[0]) && |stack| < 1000;
      assert Step(env, Vm(stack, []), ops[0]) == if good then Some(Vm(stack + [Item(ops[0])], [])) else None;
      if good {
        PushesRun(env, stack + [Item(ops[0])], rest);
        Assoc(stack, [Item(ops[0])], Items(rest));
        if forall i :: 0 <= i < |rest| ==> GoodPush(env, rest[i]) {
          forall i | 0 <= i < |ops| ensures GoodPush(env, ops[i]) {
            if i > 0 { assert rest[i - 1] == ops[i]; }
          }
        }
      }
    }
  }

  /**
   * What a signature script leaves, in full: it must be readable, within the limits and made of good
   * pushes, and then leaves the items it pushes in order.
   */
  lemma {:induction false} PushedExact(env: Env, sigScript: Bytes)
    ensures Pushed(env, sigScript) ==
            match Parse(sigScript)
            case None => None
            case Some(ops) =>
              if |sigScript| <= 10000 && |ops| <= 1000 && forall i :: 0 <= i < |ops| ==> GoodPush(env, ops[i])
              then Some(Items(ops)) else None
  {
    hide Run, GoodPush;
    if Parse(sigScript).Some? {
      var ops := Parse(sigScript).value;
      UnparseParse(sigScript);
      GoodArePushes(env, ops);
      if PushOnly(ops) {
        PushesRun(env, [], ops);
        assert [] + Items(ops) == Items(ops);
      }
    }
  }

  lemma GoodArePushes(env: Env, ops: seq<Op>)
    ensures (forall i :: 0 <= i < |ops| ==> GoodPush(env, ops[i])) ==> PushOnly(ops)
  {
  }
}
