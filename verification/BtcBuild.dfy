/** The transactions the tool builds to redeem and to refund, and when the chain takes them. */
module BtcBuild {
  import opened Bytes
  import opened ScriptNum
  import opened Script
  import opened BtcContract
  import opened BtcEngine
  import opened BtcP2sh
  import opened BtcTx

  /**
   * What lies outside the transaction: the hash functions, whether a signature by a key covers an
   * input of an unsigned transaction, and the two policy flags. Any contract is signed over whole.
   */
  datatype World = World(
    sha: Hash, hash160: Bytes -> Hash20, verify: (Tx, nat, Bytes, Bytes) -> bool, minimal: bool, clean: bool)

  /** What signatures cover leaves every signature script out. */
  function Unsigned(tx: Tx): Tx {
    Tx(tx.version, seq(|tx.ins|, i requires 0 <= i < |tx.ins| => tx.ins[i].(sigScript := [])), tx.outs, tx.lockTime)
  }

  /** The world as the script of one input sees it. */
  function EnvOf(w: World, tx: Tx, i: nat): Env
    requires i < |tx.ins|
  {
    Env(w.sha, w.hash160, (sig, pubkey) => w.verify(Unsigned(tx), i, sig, pubkey),
        tx.lockTime, tx.ins[i].sequence, w.minimal, w.clean)
  }

  /** Whether an input unlocks an output paid to the hash of a contract. */
  predicate Unlocks(w: World, tx: Tx, i: nat, contract: Bytes)
    requires i < |tx.ins|
  {
    Spends(EnvOf(w, tx, i), tx.ins[i].sigScript, w.hash160(contract))
  }

  /** Whether a block of this height, after blocks of this median time, may hold the transaction. */
  predicate IsFinal(tx: Tx, height: int, time: int) {
    || tx.lockTime == 0
    || tx.lockTime < (if tx.lockTime < LOCKTIME_THRESHOLD then height else time)
    || (forall i :: 0 <= i < |tx.ins| ==> tx.ins[i].sequence == MAX_SEQUENCE)
  }

  // ---- The contract's output ----

  function PayToScriptHash(h: Hash20): Bytes { Unparse(ScriptHashOps(h)) }

  /** The way the redeem and audit commands recognise an output: by reading its script. */
  predicate PaysHash(pkScript: Bytes, h: Hash20) {
    Parse(pkScript) == Some(ScriptHashOps(h))
  }

  /** Reading the script and comparing its bytes, as the refund command does, find the same outputs. */
  lemma {:induction false} SameOutput(pkScript: Bytes, h: Hash20)
    ensures PaysHash(pkScript, h) <==> pkScript == PayToScriptHash(h)
  {
    hide Unparse, Parse;
    assert forall i :: 0 <= i < 3 ==> WellFormed(ScriptHashOps(h)[i]);
    ParseUnparse(ScriptHashOps(h));
    if PaysHash(pkScript, h) { UnparseParse(pkScript); }
  }

  /** The output script, byte for byte. */
  lemma {:induction false} ScriptHashBytes(h: Hash20)
    ensures PayToScriptHash(h) == [0xa9, 0x14] + h + [0x87]
  {
    hide Unparse, OpBytes, PushOp;
    UnparseThree(Plain(OP_HASH160), ScriptHashOps(h)[1], Plain(OP_EQUAL));
    TwentyBytes(h);
    PlainBytes(OP_HASH160);
    PlainBytes(OP_EQUAL);
  }

  predicate IsFirst(outs: seq<TxOut>, pkScript: Bytes, i: nat) {
    && i < |outs| && outs[i].pkScript == pkScript
    && forall j :: 0 <= j < i ==> outs[j].pkScript != pkScript
  }

  method FindByBytes(outs: seq<TxOut>, pkScript: Bytes) returns (found: Option<nat>)
    ensures match found
            case Some(i) => IsFirst(outs, pkScript, i)
            case None => forall j :: 0 <= j < |outs| ==> outs[j].pkScript != pkScript
  {
    for i := 0 to |outs|
      invariant forall j :: 0 <= j < i ==> outs[j].pkScript != pkScript
    {
      if outs[i].pkScript == pkScript { return Some(i); }
    }
    return None;
  }

  method FindByReading(outs: seq<TxOut>, h: Hash20) returns (found: Option<nat>)
    ensures match found
            case Some(i) => IsFirst(outs, PayToScriptHash(h), i)
            case None => forall j :: 0 <= j < |outs| ==> outs[j].pkScript != PayToScriptHash(h)
  {
    hide PayToScriptHash, PaysHash;
    for i := 0 to |outs|
      invariant forall j :: 0 <= j < i ==> outs[j].pkScript != PayToScriptHash(h)
    {
      SameOutput(outs[i].pkScript, h);
      if PaysHash(outs[i].pkScript, h) { return Some(i); }
    }
    return None;
  }

  /**
   * An audit passes exactly when the transaction pays the contract and the contract is recognised
   * with the usual secret size; it then is, byte for byte, the contract built from the terms shown
   * if and only if the lock time shown is not -1.
   */
  method AuditContract(w: World, outs: seq<TxOut>, contract: Bytes) returns (r: Option<Pushes>)
    ensures r.Some? <==>
            && (exists i: nat :: IsFirst(outs, PayToScriptHash(w.hash160(contract)), i))
            && Extract(contract).Found? && Extract(contract).pushes.secretSize == SECRET_SIZE
    ensures r.Some? ==> r.value == Extract(contract).pushes
    ensures r.Some? ==>
              && |r.value.secretHash| == 32
              && (contract == ContractScript(r.value.refund, r.value.recipient, r.value.lockTime, r.value.secretHash)
                  <==> r.value.lockTime != -1)
  {
    hide Extract, PayToScriptHash, ContractScript;
    var found := FindByReading(outs, w.hash160(contract));
    if found.None? { return None; }
    var extracted := Extract(contract);
    if !extracted.Found? || extracted.pushes.secretSize != SECRET_SIZE { return None; }
    ExtractSound(contract);
    ExtractExact(contract);
    r := Some(extracted.pushes);
  }

  // ---- Building ----

  /** A transaction under construction. */
  class MsgTx {
    var version: int
    var ins: seq<TxIn>
    var outs: seq<TxOut>
    var lockTime: Uint32

    function View(): Tx
      reads this
    {
      Tx(version, ins, outs, lockTime)
    }

    constructor (version: int, locktime: int)
      ensures View() == Tx(version, [], [], locktime % UINT32)
    {
      this.version, ins, outs, lockTime := version, [], [], locktime % UINT32;
    }

    method AddTxIn(i: TxIn)
      modifies this
      ensures View() == old(View()).(ins := old(ins) + [i])
    {
      ins := ins + [i];
    }

    method AddTxOut(o: TxOut)
      modifies this
      ensures View() == old(View()).(outs := old(outs) + [o])
    {
      outs := outs + [o];
    }

    method SetValue(k: nat, value: int)
      requires k < |outs|
      modifies this
      ensures View() == old(View()).(outs := old(outs)[k := TxOut(value, old(outs)[k].pkScript)])
    {
      outs := outs[k := TxOut(value, outs[k].pkScript)];
    }

    method SetSignatureScript(k: nat, script: Bytes)
      requires k < |ins|
      modifies this
      ensures View() == old(View()).(ins := old(ins)[k := old(ins)[k].(sigScript := script)])
    {
      ins := ins[k := ins[k].(sigScript := script)];
    }
  }

  /** The wallet: a signature and public key for a key hash, over an input of an unsigned transaction. */
  type Wallet = (Hash20, Tx, nat) -> (Bytes, Bytes)

  /** The wallet holds the key: what it signs, the chain accepts. */
  ghost predicate Holds(w: World, wallet: Wallet, pkh: Hash20) {
    forall tx: Tx, i: nat {:trigger wallet(pkh, tx, i)} ::
      var (sig, pubkey) := wallet(pkh, tx, i);
      1 < |sig| <= 73 && |pubkey| == 33 && w.hash160(pubkey) == pkh && w.verify(tx, i, sig, pubkey)
  }

  datatype Outcome =
    | NotContract
    | NoContractOutput
    | Dust
    | Unscriptable
    | Built(index: nat, tx: Tx, fee: int)

  /** A coin to spend: the transaction that pays the contract, by its hash and its outputs. */
  datatype Funding = Funding(hash: Hash32, outs: seq<TxOut>)

  const TX_VERSION: int := 2

  /** The transaction before it is signed. */
  function Draft(f: Funding, index: nat, locktime: int, sequence: Uint32, fee: int, outScript: Bytes): Tx
    requires index < |f.outs|
  {
    Tx(TX_VERSION, [TxIn(f.hash, index % UINT32, [], sequence)],
       [TxOut(f.outs[index].value - fee, outScript)], locktime % UINT32)
  }

  function Signed(draft: Tx, sigScript: Bytes): Tx
    requires |draft.ins| == 1
  {
    Tx(draft.version, [draft.ins[0].(sigScript := sigScript)], draft.outs, draft.lockTime)
  }

  function RefundTx(wallet: Wallet, pkh: Hash20, contract: Bytes, draft: Tx): Tx
    requires |draft.ins| == 1
  {
    var (sig, pubkey) := wallet(pkh, draft, 0);
    Signed(draft, Unparse(RefundSigOps(contract, sig, pubkey)))
  }

  function RedeemTx(wallet: Wallet, pkh: Hash20, contract: Bytes, secret: Bytes, draft: Tx): Tx
    requires |draft.ins| == 1
  {
    var (sig, pubkey) := wallet(pkh, draft, 0);
    Signed(draft, Unparse(RedeemSigOps(contract, sig, pubkey, secret)))
  }

  function RefundFee(contract: Bytes, outScript: Bytes, feePerKb: int): int {
    FeeForSize(feePerKb, Estimate(REFUND_SIG_SIZE, contract, [TxOut(0, outScript)]))
  }

  function RedeemFee(contract: Bytes, outScript: Bytes, feePerKb: int): int {
    FeeForSize(feePerKb, Estimate(REDEEM_SIG_SIZE, contract, [TxOut(0, outScript)]))
  }

  /** What the refund comes to when this output is the contract's. */
  function RefundOutcome(
    wallet: Wallet, f: Funding, i: nat, contract: Bytes, p: Pushes, outScript: Bytes, feePerKb: int,
    dust: (TxOut, int) -> bool): Outcome
    requires i < |f.outs|
  {
    var fee := RefundFee(contract, outScript, feePerKb);
    var draft := Draft(f, i, p.lockTime, 0, fee, outScript);
    var (sig, pubkey) := wallet(p.refund, draft, 0);
    if dust(draft.outs[0], feePerKb) then Dust
    else if Pushable(sig) && Pushable(pubkey) then Built(i, RefundTx(wallet, p.refund, contract, draft), fee)
    else Unscriptable
  }

  function RedeemOutcome(
    wallet: Wallet, f: Funding, i: nat, contract: Bytes, p: Pushes, secret: Bytes, outScript: Bytes, feePerKb: int,
    dust: (TxOut, int) -> bool): Outcome
    requires i < |f.outs|
  {
    var fee := RedeemFee(contract, outScript, feePerKb);
    var draft := Draft(f, i, p.lockTime, MAX_SEQUENCE, fee, outScript);
    var (sig, pubkey) := wallet(p.recipient, draft, 0);
    if dust(draft.outs[0], feePerKb) then Dust
    else if Pushable(sig) && Pushable(pubkey) && Pushable(secret) then
      Built(i, RedeemTx(wallet, p.recipient, contract, secret, draft), fee)
    else Unscriptable
  }

  /** The refund of a recognised contract, from the output that pays it. */
  method FillRefund(
    wallet: Wallet, f: Funding, i: nat, contract: Bytes, pushes: Pushes, outScript: Bytes, feePerKb: int,
    dust: (TxOut, int) -> bool)
    returns (r: Outcome)
    requires i < |f.outs| && Pushable(contract)
    ensures r == RefundOutcome(wallet, f, i, contract, pushes, outScript, feePerKb, dust)
  {
    hide Unparse, RefundSigOps, Estimate, FeeForSize, Pushable;
    var tx := new MsgTx(TX_VERSION, pushes.lockTime);
    tx.AddTxOut(TxOut(0, outScript));
    assert tx.outs == [TxOut(0, outScript)];
    var size := EstimateRefundSerializeSize(contract, tx.outs);
    var fee := FeeForSize(feePerKb, size);
    tx.SetValue(0, f.outs[i].value - fee);
    if dust(tx.outs[0], feePerKb) { return Dust; }
    tx.AddTxIn(TxIn(f.hash, i % UINT32, [], 0));
    ghost var draft := Draft(f, i, pushes.lockTime, 0, fee, outScript);
    assert tx.View() == draft;
    var (sig, pubkey) := wallet(pushes.refund, tx.View(), 0);
    var script := RefundP2SHContract(contract, sig, pubkey);
    if script.None? { return Unscriptable; }
    tx.SetSignatureScript(0, script.value);
    assert tx.View() == Signed(draft, script.value);
    r := Built(i, tx.View(), fee);
  }

  method FillRedeem(
    wallet: Wallet, f: Funding, i: nat, contract: Bytes, pushes: Pushes, secret: Bytes, outScript: Bytes,
    feePerKb: int, dust: (TxOut, int) -> bool)
    returns (r: Outcome)
    requires i < |f.outs| && Pushable(contract)
    ensures r == RedeemOutcome(wallet, f, i, contract, pushes, secret, outScript, feePerKb, dust)
  {
    hide Unparse, RedeemSigOps, Estimate, FeeForSize, Pushable;
    var tx := new MsgTx(TX_VERSION, pushes.lockTime);
    tx.AddTxIn(TxIn(f.hash, i % UINT32, [], MAX_SEQUENCE));
    tx.AddTxOut(TxOut(0, outScript));
    assert tx.outs == [TxOut(0, outScript)];
    var size := EstimateRedeemSerializeSize(contract, tx.outs);
    var fee := FeeForSize(feePerKb, size);
    tx.SetValue(0, f.outs[i].value - fee);
    if dust(tx.outs[0], feePerKb) { return Dust; }
    ghost var draft := Draft(f, i, pushes.lockTime, MAX_SEQUENCE, fee, outScript);
    assert tx.View() == draft;
    var (sig, pubkey) := wallet(pushes.recipient, tx.View(), 0);
    var script := RedeemP2SHContract(contract, sig, pubkey, secret);
    if script.None? { return Unscriptable; }
    tx.SetSignatureScript(0, script.value);
    assert tx.View() == Signed(draft, script.value);
    r := Built(i, tx.View(), fee);
  }

  // ---- What the chain makes of them ----

  lemma UnsignedSigned(draft: Tx, sigScript: Bytes)
    requires |draft.ins| == 1 && draft.ins[0].sigScript == []
    ensures Unsigned(Signed(draft, sigScript)) == draft
  {
    assert Unsigned(Signed(draft, sigScript)).ins == draft.ins;
  }

  /** The clock a lock time is read against: the height of the chain or its time. */
  function Clock(locktime: int, height: int, time: int): int {
    if locktime < LOCKTIME_THRESHOLD then height else time
  }

  /**
   * The refund built for a contract with any lock time: its script passes exactly when the lock
   * time fits in 32 bits, and no block takes it before the lock time it then carries has gone by.
   */
  lemma {:induction false} RefundTakenAfter(
    w: World, wallet: Wallet, f: Funding, index: nat, outScript: Bytes, fee: int,
    pkhMe: Hash20, pkhThem: Hash20, locktime: int, h: Bytes, height: int, time: int)
    requires |h| == 32 && IsInt64(locktime) && index < |f.outs| && Holds(w, wallet, pkhMe)
    requires SecondPreimageFree(w.hash160, ContractScript(pkhMe, pkhThem, locktime, h))
    ensures var contract := ContractScript(pkhMe, pkhThem, locktime, h);
            var tx := RefundTx(wallet, pkhMe, contract, Draft(f, index, locktime, 0, fee, outScript));
            && (Unlocks(w, tx, 0, contract) <==> 0 <= locktime < UINT32)
            && (IsFinal(tx, height, time) <==> tx.lockTime == 0 || tx.lockTime < Clock(tx.lockTime, height, time))
            && (0 <= locktime < UINT32 ==> tx.lockTime == locktime)
  {
    hide Spends, Unparse, ContractScript, RefundSigOps;
    var contract := ContractScript(pkhMe, pkhThem, locktime, h);
    var draft := Draft(f, index, locktime, 0, fee, outScript);
    var (sig, pubkey) := wallet(pkhMe, draft, 0);
    var tx := RefundTx(wallet, pkhMe, contract, draft);
    var env := EnvOf(w, tx, 0);
    UnsignedSigned(draft, Unparse(RefundSigOps(contract, sig, pubkey)));
    BuiltRefundSpends(env, sig, pubkey, pkhMe, pkhThem, locktime, h);
    assert env.checkSig(sig, pubkey);
    assert tx.ins[0].sequence != MAX_SEQUENCE;
  }

  /** The redeem built: its script passes exactly on the right secret, and any block takes it at any time. */
  lemma {:induction false} RedeemTakenAnytime(
    w: World, wallet: Wallet, f: Funding, index: nat, outScript: Bytes, fee: int, secret: Bytes,
    pkhMe: Hash20, pkhThem: Hash20, locktime: int, h: Bytes, height: int, time: int)
    requires |h| == 32 && IsInt64(locktime) && index < |f.outs| && Holds(w, wallet, pkhThem) && Pushable(secret)
    requires SecondPreimageFree(w.hash160, ContractScript(pkhMe, pkhThem, locktime, h))
    ensures var contract := ContractScript(pkhMe, pkhThem, locktime, h);
            var draft := Draft(f, index, locktime, MAX_SEQUENCE, fee, outScript);
            var tx := RedeemTx(wallet, pkhThem, contract, secret, draft);
            && (Unlocks(w, tx, 0, contract) <==> |secret| == SECRET_SIZE && w.sha(secret) == h)
            && IsFinal(tx, height, time)
  {
    hide Spends, Unparse, ContractScript, RedeemSigOps;
    var contract := ContractScript(pkhMe, pkhThem, locktime, h);
    var draft := Draft(f, index, locktime, MAX_SEQUENCE, fee, outScript);
    var (sig, pubkey) := wallet(pkhThem, draft, 0);
    var tx := RedeemTx(wallet, pkhThem, contract, secret, draft);
    var env := EnvOf(w, tx, 0);
    UnsignedSigned(draft, Unparse(RedeemSigOps(contract, sig, pubkey, secret)));
    BuiltRedeemSpends(env, sig, pubkey, secret, pkhMe, pkhThem, locktime, h);
    assert env.checkSig(sig, pubkey);
  }

  // ---- What is promised of them ----

  /** One input, of this output; one output, to this script, of what is left; this sequence and lock time. */
  predicate Carries(tx: Tx, f: Funding, index: nat, locktime: int, sequence: Uint32, fee: int, outScript: Bytes) {
    && index < |f.outs| && tx.version == 2 && tx.lockTime == locktime % 0x1_0000_0000
    && |tx.ins| == 1 && tx.ins[0].prevHash == f.hash && tx.ins[0].prevIndex == index % 0x1_0000_0000
    && tx.ins[0].sequence == sequence
    && |tx.outs| == 1 && tx.outs[0].pkScript == outScript && tx.outs[0].value == f.outs[index].value - fee
  }

  /** The contract is the tool's own for the terms read off it, and no other script has its hash. */
  ghost predicate Genuine(w: World, contract: Bytes) {
    && Extract(contract).Found? && Extract(contract).pushes.secretSize == SECRET_SIZE
    && Extract(contract).pushes.lockTime != -1 && SecondPreimageFree(w.hash160, contract)
  }

  /**
   * A refund fails only for dust, if the wallet holds the owner's key. Built, it spends the output
   * to the given script less the fee; it unlocks the contract exactly when the lock time fits in 32
   * bits, and no block takes it before the lock time it carries has gone by.
   */
  ghost predicate RefundKept(
    w: World, wallet: Wallet, f: Funding, i: nat, contract: Bytes, outScript: Bytes, feePerKb: int,
    dust: (TxOut, int) -> bool, r: Outcome)
    requires i < |f.outs| && Extract(contract).Found?
  {
    var p, fee := Extract(contract).pushes, RefundFee(contract, outScript, feePerKb);
    && (r.Dust? <==> dust(TxOut(f.outs[i].value - fee, outScript), feePerKb))
    && (Holds(w, wallet, p.refund) ==> r.Dust? || r.Built?)
    && (r.Built? ==> r.index == i && r.fee == fee && Carries(r.tx, f, i, p.lockTime, 0, fee, outScript))
    && (r.Built? && Holds(w, wallet, p.refund) && Genuine(w, contract) ==>
          && (Unlocks(w, r.tx, 0, contract) <==> 0 <= p.lockTime < 0x1_0000_0000)
          && forall height, time :: IsFinal(r.tx, height, time) <==>
               r.tx.lockTime == 0 || r.tx.lockTime < Clock(r.tx.lockTime, height, time))
  }

  /**
   * A redeem fails only for dust or for a secret too long to push, if the wallet holds the
   * recipient's key. Built, it spends the output to the given script less the fee; it unlocks the
   * contract exactly on the right secret, and any block takes it.
   */
  ghost predicate RedeemKept(
    w: World, wallet: Wallet, f: Funding, i: nat, contract: Bytes, secret: Bytes, outScript: Bytes, feePerKb: int,
    dust: (TxOut, int) -> bool, r: Outcome)
    requires i < |f.outs| && Extract(contract).Found?
  {
    var p, fee := Extract(contract).pushes, RedeemFee(contract, outScript, feePerKb);
    && (r.Dust? <==> dust(TxOut(f.outs[i].value - fee, outScript), feePerKb))
    && (Holds(w, wallet, p.recipient) && Pushable(secret) ==> r.Dust? || r.Built?)
    && (r.Built? ==> r.index == i && r.fee == fee && Carries(r.tx, f, i, p.lockTime, MAX_SEQUENCE, fee, outScript))
    && (r.Built? && Holds(w, wallet, p.recipient) && Genuine(w, contract) ==>
          && (Unlocks(w, r.tx, 0, contract) <==> |secret| == SECRET_SIZE && w.sha(secret) == p.secretHash)
          && forall height, time :: IsFinal(r.tx, height, time))
  }

  // ---- The two commands ----

  lemma {:induction false} RefundKeeps(
    w: World, wallet: Wallet, f: Funding, i: nat, contract: Bytes, outScript: Bytes, feePerKb: int,
    dust: (TxOut, int) -> bool)
    requires i < |f.outs| && Extract(contract).Found?
    ensures RefundKept(w, wallet, f, i, contract, outScript, feePerKb, dust,
                       RefundOutcome(wallet, f, i, contract, Extract(contract).pushes, outScript, feePerKb, dust))
  {
    hide Extract, ContractScript, Unlocks, IsFinal, SecondPreimageFree, RefundFee, Unparse, RefundSigOps;
    var p, fee := Extract(contract).pushes, RefundFee(contract, outScript, feePerKb);
    var draft := Draft(f, i, p.lockTime, 0, fee, outScript);
    var (sig, pubkey) := wallet(p.refund, draft, 0);
    var tx := RefundTx(wallet, p.refund, contract, draft);
    assert Holds(w, wallet, p.refund) ==> Pushable(sig) && Pushable(pubkey);
    if Holds(w, wallet, p.refund) && Genuine(w, contract) {
      ExtractSound(contract);
      ExtractExact(contract);
      RecognisedRange(contract);
      RefundTakenAfter(w, wallet, f, i, outScript, fee, p.refund, p.recipient, p.lockTime, p.secretHash, 0, 0);
      forall height: int, time: int
        ensures IsFinal(tx, height, time) <==> tx.lockTime == 0 || tx.lockTime < Clock(tx.lockTime, height, time)
      {
        RefundTakenAfter(w, wallet, f, i, outScript, fee, p.refund, p.recipient, p.lockTime, p.secretHash,
                         height, time);
      }
    }
  }

  lemma {:induction false} RedeemKeeps(
    w: World, wallet: Wallet, f: Funding, i: nat, contract: Bytes, secret: Bytes, outScript: Bytes, feePerKb: int,
    dust: (TxOut, int) -> bool)
    requires i < |f.outs| && Extract(contract).Found?
    ensures var p := Extract(contract).pushes;
            RedeemKept(w, wallet, f, i, contract, secret, outScript, feePerKb, dust,
                       RedeemOutcome(wallet, f, i, contract, p, secret, outScript, feePerKb, dust))
  {
    hide Extract, ContractScript, Unlocks, IsFinal, SecondPreimageFree, RedeemFee, Unparse, RedeemSigOps;
    var p, fee := Extract(contract).pushes, RedeemFee(contract, outScript, feePerKb);
    var draft := Draft(f, i, p.lockTime, MAX_SEQUENCE, fee, outScript);
    var (sig, pubkey) := wallet(p.recipient, draft, 0);
    var tx := RedeemTx(wallet, p.recipient, contract, secret, draft);
    assert Holds(w, wallet, p.recipient) ==> Pushable(sig) && Pushable(pubkey);
    if Holds(w, wallet, p.recipient) && Genuine(w, contract) && Pushable(secret) {
      ExtractSound(contract);
      ExtractExact(contract);
      RecognisedRange(contract);
      RedeemTakenAnytime(w, wallet, f, i, outScript, fee, secret, p.refund, p.recipient, p.lockTime, p.secretHash,
                         0, 0);
      forall height: int, time: int ensures IsFinal(tx, height, time) {
        RedeemTakenAnytime(w, wallet, f, i, outScript, fee, secret, p.refund, p.recipient, p.lockTime, p.secretHash,
                           height, time);
      }
    }
  }

  /** Only called on a contract that is recognised. */
  method BuildRefund(
    w: World, wallet: Wallet, f: Funding, contract: Bytes, outScript: Bytes, feePerKb: int, dust: (TxOut, int) -> bool)
    returns (r: Outcome)
    requires Extract(contract).Found?
    ensures !r.NotContract?
    ensures r.NoContractOutput? <==>
            forall j :: 0 <= j < |f.outs| ==> f.outs[j].pkScript != PayToScriptHash(w.hash160(contract))
    ensures forall i: nat :: IsFirst(f.outs, PayToScriptHash(w.hash160(contract)), i) ==>
              RefundKept(w, wallet, f, i, contract, outScript, feePerKb, dust, r)
  {
    hide Extract, PayToScriptHash, RefundKept, RefundOutcome;
    FoundIsPushable(contract);
    var found := FindByBytes(f.outs, PayToScriptHash(w.hash160(contract)));
    if found.None? { return NoContractOutput; }
    r := FillRefund(wallet, f, found.value, contract, Extract(contract).pushes, outScript, feePerKb, dust);
    RefundKeeps(w, wallet, f, found.value, contract, outScript, feePerKb, dust);
    FromFilled(wallet, f, found.value, contract, Extract(contract).pushes, outScript, feePerKb, dust);
  }

  method BuildRedeem(
    w: World, wallet: Wallet, f: Funding, contract: Bytes, secret: Bytes, outScript: Bytes, feePerKb: int,
    dust: (TxOut, int) -> bool)
    returns (r: Outcome)
    ensures r.NotContract? <==> !Extract(contract).Found?
    ensures r.NoContractOutput? <==>
            && Extract(contract).Found?
            && forall j :: 0 <= j < |f.outs| ==> f.outs[j].pkScript != PayToScriptHash(w.hash160(contract))
    ensures Extract(contract).Found? ==>
              forall i: nat :: IsFirst(f.outs, PayToScriptHash(w.hash160(contract)), i) ==>
                RedeemKept(w, wallet, f, i, contract, secret, outScript, feePerKb, dust, r)
  {
    hide Extract, PayToScriptHash, RedeemKept, RedeemOutcome;
    FoundIsPushable(contract);
    var extracted := Extract(contract);
    if !extracted.Found? { return NotContract; }
    var found := FindByReading(f.outs, w.hash160(contract));
    if found.None? { return NoContractOutput; }
    r := FillRedeem(wallet, f, found.value, contract, extracted.pushes, secret, outScript, feePerKb, dust);
    RedeemKeeps(w, wallet, f, found.value, contract, secret, outScript, feePerKb, dust);
    FromFilledRedeem(wallet, f, found.value, contract, extracted.pushes, secret, outScript, feePerKb, dust);
  }

  lemma FromFilled(
    wallet: Wallet, f: Funding, i: nat, contract: Bytes, p: Pushes, outScript: Bytes, feePerKb: int,
    dust: (TxOut, int) -> bool)
    requires i < |f.outs|
    ensures var r := RefundOutcome(wallet, f, i, contract, p, outScript, feePerKb, dust);
            r.Dust? || r.Built? || r.Unscriptable?
  {
  }

  lemma FromFilledRedeem(
    wallet: Wallet, f: Funding, i: nat, contract: Bytes, p: Pushes, secret: Bytes, outScript: Bytes, feePerKb: int,
    dust: (TxOut, int) -> bool)
    requires i < |f.outs|
    ensures var r := RedeemOutcome(wallet, f, i, contract, p, secret, outScript, feePerKb, dust);
            r.Dust? || r.Built? || r.Unscriptable?
  {
  }

  /**
   * What either transaction pays is the estimate's fee, and that covers the rate per thousand
   * bytes on the length the signed transaction really has, if the spare bytes outweigh the
   * rounding; with a signature of full length, only if they do.
   */
  lemma {:induction false} RefundPaysRate(
    w: World, wallet: Wallet, f: Funding, index: nat, contract: Bytes, pkh: Hash20, locktime: int,
    outScript: Bytes, feePerKb: nat)
    requires index < |f.outs| && Holds(w, wallet, pkh)
    requires feePerKb * Estimate(REFUND_SIG_SIZE, contract, [TxOut(0, outScript)]) < INT64
    ensures var fee := RefundFee(contract, outScript, feePerKb);
            var tx := RefundTx(wallet, pkh, contract, Draft(f, index, locktime, 0, fee, outScript));
            && f.outs[index].value - tx.outs[0].value == fee
            && (Covering(feePerKb, Estimate(REFUND_SIG_SIZE, contract, [TxOut(0, outScript)])) ==>
                  Covers(fee, feePerKb, |Serialize(tx)|))
            && (|wallet(pkh, Draft(f, index, locktime, 0, fee, outScript), 0).0| == 73 ==>
                  (Covers(fee, feePerKb, |Serialize(tx)|) <==>
                   Covering(feePerKb, Estimate(REFUND_SIG_SIZE, contract, [TxOut(0, outScript)]))))
  {
    hide Unparse, Serialize, Estimate, FeeForSize, RefundSigOps, Covers, Covering;
    var fee := RefundFee(contract, outScript, feePerKb);
    var draft := Draft(f, index, locktime, 0, fee, outScript);
    var (sig, pubkey) := wallet(pkh, draft, 0);
    var tx := RefundTx(wallet, pkh, contract, draft);
    RefundEstimateSafe(tx, contract, sig, pubkey);
    if |sig| == 73 { RefundEstimateTight(tx, contract, sig, pubkey); }
    EstimateIgnoresValue(REFUND_SIG_SIZE, contract, tx.outs[0], outScript);
    FeeOnSize(feePerKb, Estimate(REFUND_SIG_SIZE, contract, [TxOut(0, outScript)]), |Serialize(tx)|);
  }

  lemma {:induction false} RedeemPaysRate(
    w: World, wallet: Wallet, f: Funding, index: nat, contract: Bytes, secret: Bytes, pkh: Hash20, locktime: int,
    outScript: Bytes, feePerKb: nat)
    requires index < |f.outs| && Holds(w, wallet, pkh) && |secret| <= SECRET_SIZE
    requires feePerKb * Estimate(REDEEM_SIG_SIZE, contract, [TxOut(0, outScript)]) < INT64
    ensures var fee := RedeemFee(contract, outScript, feePerKb);
            var tx := RedeemTx(wallet, pkh, contract, secret, Draft(f, index, locktime, MAX_SEQUENCE, fee, outScript));
            && f.outs[index].value - tx.outs[0].value == fee
            && (Covering(feePerKb, Estimate(REDEEM_SIG_SIZE, contract, [TxOut(0, outScript)])) ==>
                  Covers(fee, feePerKb, |Serialize(tx)|))
            && (|wallet(pkh, Draft(f, index, locktime, MAX_SEQUENCE, fee, outScript), 0).0| == 73 && |secret| == 32 ==>
                  (Covers(fee, feePerKb, |Serialize(tx)|) <==>
                   Covering(feePerKb, Estimate(REDEEM_SIG_SIZE, contract, [TxOut(0, outScript)]))))
  {
    hide Unparse, Serialize, Estimate, FeeForSize, RedeemSigOps, Covers, Covering;
    var fee := RedeemFee(contract, outScript, feePerKb);
    var draft := Draft(f, index, locktime, MAX_SEQUENCE, fee, outScript);
    var (sig, pubkey) := wallet(pkh, draft, 0);
    var tx := RedeemTx(wallet, pkh, contract, secret, draft);
    RedeemEstimateSafe(tx, contract, sig, pubkey, secret);
    if |sig| == 73 && |secret| == 32 { RedeemEstimateTight(tx, contract, sig, pubkey, secret); }
    EstimateIgnoresValue(REDEEM_SIG_SIZE, contract, tx.outs[0], outScript);
    FeeOnSize(feePerKb, Estimate(REDEEM_SIG_SIZE, contract, [TxOut(0, outScript)]), |Serialize(tx)|);
  }

  /** The estimate is taken before the amount is known. */
  lemma EstimateIgnoresValue(sigSize: nat, contract: Bytes, out: TxOut, outScript: Bytes)
    requires out.pkScript == outScript
    ensures Estimate(sigSize, contract, [out]) == Estimate(sigSize, contract, [TxOut(0, outScript)])
  {
    OneOutput(out);
    OneOutput(TxOut(0, outScript));
  }

  lemma OneOutput(out: TxOut)
    ensures |OutsBytes([out])| == OutSize(out)
  {
    assert [out][1..] == [];
  }

  /**
   * At four satoshis per thousand bytes they do not: the refund of a contract locked until some
   * time in 2017, to an ordinary address, pays one satoshi where 1.172 are due.
   */
  lemma {:induction false} RefundMissesRate(
    w: World, wallet: Wallet, f: Funding, index: nat, outScript: Bytes, pkhMe: Hash20, pkhThem: Hash20, h: Bytes)
    requires index < |f.outs| && |h| == 32 && |outScript| == 25 && Holds(w, wallet, pkhMe)
    requires |wallet(pkhMe, Draft(f, index, 1_500_000_000, 0, 1, outScript), 0).0| == 73
    ensures var contract := ContractScript(pkhMe, pkhThem, 1_500_000_000, h);
            var fee := RefundFee(contract, outScript, 4);
            var tx := RefundTx(wallet, pkhMe, contract, Draft(f, index, 1_500_000_000, 0, fee, outScript));
            fee == 1 && |Serialize(tx)| == 293 && !Covers(fee, 4, |Serialize(tx)|)
  {
    hide ContractScript, Serialize, Unparse, RefundSigOps, OutsBytes;
    var contract := ContractScript(pkhMe, pkhThem, 1_500_000_000, h);
    ContractSize(pkhMe, pkhThem, 1_500_000_000, h);
    FourByteLock();
    OneOutput(TxOut(0, outScript));
    var estimate := Estimate(REFUND_SIG_SIZE, contract, [TxOut(0, outScript)]);
    assert |OpBytes(PushOp(contract))| == 99;
    assert estimate == 297;
    var draft := Draft(f, index, 1_500_000_000, 0, 1, outScript);
    var (sig, pubkey) := wallet(pkhMe, draft, 0);
    var tx := RefundTx(wallet, pkhMe, contract, draft);
    RefundEstimateTight(tx, contract, sig, pubkey);
    EstimateIgnoresValue(REFUND_SIG_SIZE, contract, tx.outs[0], outScript);
  }

  lemma FourByteLock()
    ensures |OpBytes(IntOp(1_500_000_000))| == 5
  {
    assert Mag(22_888) == [104] + Mag(89);
    assert Mag(5_859_375) == [47] + Mag(22_888);
  }
}
