/** Bitcoin scripts as bytes: the opcodes used here, canonical pushes, the builder and the parser. */
module Script {
  import opened Bytes
  import opened ScriptNum

  const OP_0: Byte := 0x00
  const OP_DATA_20: Byte := 0x14
  const OP_DATA_32: Byte := 0x20
  const OP_PUSHDATA1: Byte := 0x4c
  const OP_PUSHDATA2: Byte := 0x4d
  const OP_PUSHDATA4: Byte := 0x4e
  const OP_1NEGATE: Byte := 0x4f
  const OP_1: Byte := 0x51
  const OP_16: Byte := 0x60
  const OP_IF: Byte := 0x63
  const OP_ELSE: Byte := 0x67
  const OP_ENDIF: Byte := 0x68
  const OP_DROP: Byte := 0x75
  const OP_DUP: Byte := 0x76
  const OP_SIZE: Byte := 0x82
  const OP_EQUAL: Byte := 0x87
  const OP_EQUALVERIFY: Byte := 0x88
  const OP_SHA256: Byte := 0xa8
  const OP_HASH160: Byte := 0xa9
  const OP_CHECKSIG: Byte := 0xac
  const OP_CHECKLOCKTIMEVERIFY: Byte := 0xb1

  const MAX_SCRIPT_SIZE: nat := 10000
  const MAX_ELEMENT_SIZE: nat := 520

  /** One parsed instruction. Only pushes with bytes of their own carry data. */
  datatype Op = Op(code: Byte, data: Option<Bytes>)

  function Plain(code: Byte): Op { Op(code, None) }

  /** A number in exactly w bytes, least significant first. */
  function Fixed(n: nat, w: nat): (v: Bytes)
    ensures |v| == w
  {
    if w == 0 then [] else [n % 256] + Fixed(n / 256, w - 1)
  }

  lemma {:induction false} FixedBack(n: nat, w: nat)
    requires n < Pow256(w)
    ensures LE(Fixed(n, w)) == n
  {
    if w > 0 { FixedBack(n / 256, w - 1); }
  }

  lemma {:induction false} FixedOfLE(v: Bytes)
    ensures LE(v) < Pow256(|v|) && Fixed(LE(v), |v|) == v
  {
    if v != [] {
      FixedOfLE(v[1..]);
      assert v == [v[0]] + v[1..];
    }
  }

  /** How many bytes of length follow the opcode. */
  function PrefixLen(code: Byte): nat {
    if code == OP_PUSHDATA1 then 1 else if code == OP_PUSHDATA2 then 2 else if code == OP_PUSHDATA4 then 4 else 0
  }

  predicate WellFormed(op: Op) {
    if OP_0 < op.code < OP_PUSHDATA1 then op.data.Some? && |op.data.value| == op.code
    else if OP_PUSHDATA1 <= op.code <= OP_PUSHDATA4 then op.data.Some? && |op.data.value| < Pow256(PrefixLen(op.code))
    else op.data.None?
  }

  function OpBytes(op: Op): Bytes {
    [op.code] + match op.data
                case None => []
                case Some(d) => Fixed(|d|, PrefixLen(op.code)) + d
  }

  function Unparse(ops: seq<Op>): Bytes {
    if ops == [] then [] else OpBytes(ops[0]) + Unparse(ops[1..])
  }

  /** The first instruction and how many bytes it takes. */
  function ParseOne(s: Bytes): Option<(Op, nat)>
    requires s != []
  {
    var c := s[0];
    var w := PrefixLen(c);
    if OP_0 < c < OP_PUSHDATA1 then
      if |s| < 1 + c then None else Some((Op(c, Some(s[1..1 + c])), 1 + c))
    else if w > 0 then
      if |s| < 1 + w then None
      else
        var l := LE(s[1..1 + w]);
        if |s| < 1 + w + l then None else Some((Op(c, Some(s[1 + w..1 + w + l])), 1 + w + l))
    else Some((Op(c, None), 1))
  }

  function Parse(s: Bytes): Option<seq<Op>>
    decreases |s|
  {
    if s == [] then Some([])
    else
      match ParseOne(s)
      case None => None
      case Some((op, n)) =>
        match Parse(s[n..])
        case None => None
        case Some(ops) => Some([op] + ops)
  }

  // ---- Parsing and writing are inverse ----

  lemma {:induction false} ParseOneOf(op: Op, rest: Bytes)
    requires WellFormed(op)
    ensures ParseOne(OpBytes(op) + rest) == Some((op, |OpBytes(op)|))
  {
    var s := OpBytes(op) + rest;
    if op.data.Some? {
      var d, w := op.data.value, PrefixLen(op.code);
      if w > 0 {
        FixedBack(|d|, w);
        assert s[1..1 + w] == Fixed(|d|, w);
      }
      assert s[1 + w..1 + w + |d|] == d;
    }
  }

  lemma {:induction false} ParseOneSound(s: Bytes)
    requires s != [] && ParseOne(s).Some?
    ensures var (op, n) := ParseOne(s).value;
            WellFormed(op) && n <= |s| && s[..n] == OpBytes(op)
  {
    var w := PrefixLen(s[0]);
    if |s| >= 1 + w { FixedOfLE(s[1..1 + w]); }
  }

  /** Parsing what was written gives back the instructions. */
  lemma {:induction false} ParseUnparse(ops: seq<Op>)
    requires forall i :: 0 <= i < |ops| ==> WellFormed(ops[i])
    ensures Parse(Unparse(ops)) == Some(ops)
  {
    if ops != [] {
      var rest := Unparse(ops[1..]);
      ParseUnparse(ops[1..]);
      ParseOneOf(ops[0], rest);
      assert Unparse(ops)[|OpBytes(ops[0])|..] == rest;
      assert ops == [ops[0]] + ops[1..];
    }
  }

  /** A script that parses is exactly what its instructions write. */
  lemma {:induction false} UnparseParse(s: Bytes)
    requires Parse(s).Some?
    ensures Unparse(Parse(s).value) == s
    ensures forall i :: 0 <= i < |Parse(s).value| ==> WellFormed(Parse(s).value[i])
    decreases |s|
  {
    if s != [] {
      ParseOneSound(s);
      var (op, n) := ParseOne(s).value;
      UnparseParse(s[n..]);
      assert s == s[..n] + s[n..];
      assert Parse(s).value[1..] == Parse(s[n..]).value;
    }
  }

  lemma {:induction false} UnparseAppend(a: seq<Op>, b: seq<Op>)
    ensures Unparse(a + b) == Unparse(a) + Unparse(b)
  {
    if a == [] {
      assert a + b == b;
    } else {
      UnparseAppend(a[1..], b);
      assert (a + b)[1..] == a[1..] + b;
      Assoc(OpBytes(a[0]), Unparse(a[1..]), Unparse(b));
    }
  }

  // ---- Canonical pushes ----

  /** The smallest instruction for a data push. A lone zero byte becomes a push of nothing. */
  function PushOp(data: Bytes): (op: Op)
    ensures |OpBytes(op)| <= |data| + 5
  {
    if |data| == 0 || data == [0] then Plain(OP_0)
    else if |data| == 1 && data[0] <= 16 then Plain(OP_1 - 1 + data[0])
    else if data == [0x81] then Plain(OP_1NEGATE)
    else if |data| < OP_PUSHDATA1 then Op(|data|, Some(data))
    else if |data| <= 0xff then Op(OP_PUSHDATA1, Some(data))
    else if |data| <= 0xffff then Op(OP_PUSHDATA2, Some(data))
    else Op(OP_PUSHDATA4, Some(data))
  }

  function IntOp(n: int): (op: Op)
    ensures |OpBytes(op)| <= |Encode(n)| + 5
  {
    if n == 0 then Plain(OP_0)
    else if n == -1 || 1 <= n <= 16 then Plain(OP_1 - 1 + n)
    else PushOp(Encode(n))
  }

  lemma PushWellFormed(data: Bytes)
    requires |data| <= MAX_ELEMENT_SIZE
    ensures WellFormed(PushOp(data))
  {
    assert Pow256(1) == 256 && Pow256(2) == 0x1_0000;
  }

  /** The bytes of a canonical push, for everything the builder accepts. */
  lemma {:induction false} PushBytes(data: Bytes)
    requires |data| <= MAX_ELEMENT_SIZE
    ensures OpBytes(PushOp(data)) ==
            if data == [] || data == [0] then [0x00]
            else if |data| == 1 && data[0] <= 16 then [0x50 + data[0]]
            else if data == [0x81] then [0x4f]
            else if |data| <= 75 then [|data|] + data
            else if |data| <= 255 then [0x4c, |data|] + data
            else [0x4d, |data| % 256, |data| / 256] + data
  {
    assert Fixed(|data|, 1) == [|data| % 256] + Fixed(|data| / 256, 0);
    assert Fixed(|data|, 2) == [|data| % 256] + Fixed(|data| / 256, 1);
    assert Fixed(|data| / 256, 1) == [|data| / 256 % 256] + [];
  }

  /** Builds a script by appending; after the first refused instruction it stays as it is. */
  class ScriptBuilder {
    var script: Bytes
    var failed: bool
    ghost var ops: seq<Op>

    ghost predicate Valid()
      reads this
    {
      script == Unparse(ops)
    }

    constructor ()
      ensures Valid() && script == [] && !failed && ops == []
    {
      script, failed, ops := [], false, [];
    }

    ghost method Record(op: Op)
      modifies this`ops
      ensures ops == old(ops) + [op] && Unparse(ops) == Unparse(old(ops)) + OpBytes(op)
    {
      UnparseAppend(ops, [op]);
      assert Unparse([op]) == OpBytes(op);
      ops := ops + [op];
    }

    method AddOp(code: Byte)
      requires Valid()
      modifies this
      ensures Valid()
      ensures failed == (old(failed) || |old(script)| + 1 > MAX_SCRIPT_SIZE)
      ensures ops == if failed then old(ops) else old(ops) + [Plain(code)]
      ensures |script| == |old(script)| + if failed then 0 else |OpBytes(Plain(code))|
    {
      if failed { return; }
      if |script| + 1 > MAX_SCRIPT_SIZE {
        failed := true;
        return;
      }
      script := script + [code];
      Record(Plain(code));
    }

    /** Appends the canonical push without looking at limits. */
    method AppendPush(data: Bytes)
      requires Valid() && |data| <= MAX_ELEMENT_SIZE
      modifies this`script, this`ops
      ensures Valid() && ops == old(ops) + [PushOp(data)]
      ensures |script| == |old(script)| + |OpBytes(PushOp(data))|
    {
      var piece: Bytes;
      if |data| == 0 || (|data| == 1 && data[0] == 0) {
        piece := [OP_0];
      } else if |data| == 1 && data[0] <= 16 {
        piece := [OP_1 - 1 + data[0]];
      } else if |data| == 1 && data[0] == 0x81 {
        piece := [OP_1NEGATE];
      } else if |data| < OP_PUSHDATA1 {
        piece := [|data|] + data;
      } else if |data| <= 0xff {
        piece := [OP_PUSHDATA1, |data|] + data;
        assert Fixed(|data|, 1) == [|data|];
      } else {
        piece := [OP_PUSHDATA2, |data| % 256, |data| / 256] + data;
        assert Fixed(|data|, 2) == [|data| % 256, |data| / 256] by { assert Fixed(|data| / 256, 1) == [|data| / 256]; }
      }
      assert piece == OpBytes(PushOp(data));
      script := script + piece;
      Record(PushOp(data));
    }

    method AddData(data: Bytes)
      requires Valid()
      modifies this
      ensures Valid()
      ensures failed == (old(failed) || |data| > MAX_ELEMENT_SIZE ||
                         |old(script)| + |OpBytes(PushOp(data))| > MAX_SCRIPT_SIZE)
      ensures ops == if failed then old(ops) else old(ops) + [PushOp(data)]
      ensures |script| == |old(script)| + if failed then 0 else |OpBytes(PushOp(data))|
    {
      if failed { return; }
      if |script| + CanonicalDataSize(data) > MAX_SCRIPT_SIZE || |data| > MAX_ELEMENT_SIZE {
        failed := true;
        return;
      }
      AppendPush(data);
    }

    method AddInt64(n: int)
      requires Valid() && IsInt64(n)
      modifies this
      ensures Valid()
      ensures failed == (old(failed) || |old(script)| + |OpBytes(IntOp(n))| > MAX_SCRIPT_SIZE)
      ensures ops == if failed then old(ops) else old(ops) + [IntOp(n)]
      ensures |script| == |old(script)| + if failed then 0 else |OpBytes(IntOp(n))|
    {
      if failed { return; }
      if |script| + 1 > MAX_SCRIPT_SIZE {
        failed := true;
        return;
      }
      if n == 0 {
        script := script + [OP_0];
        Record(IntOp(n));
      } else if n == -1 || 1 <= n <= 16 {
        script := script + [OP_1 - 1 + n];
        Record(IntOp(n));
      } else {
        var num := EncodeNum(n);
        Int64Size(n);
        AddData(num);
      }
    }
  }

  function CanonicalDataSize(data: Bytes): (n: nat)
    ensures n == |OpBytes(PushOp(data))|
  {
    if |data| == 0 || (|data| == 1 && data[0] <= 16) || (|data| == 1 && data[0] == 0x81) then 1
    else if |data| < OP_PUSHDATA1 then 1 + |data|
    else if |data| <= 0xff then 2 + |data|
    else if |data| <= 0xffff then 3 + |data|
    else 5 + |data|
  }
}
