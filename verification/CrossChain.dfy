/**
 * The three chains under one protocol. Each kind of lock is read as a hash-time-locked
 * contract, every spend its chain accepts is read as an event of that contract, and so every
 * run of a swap between any two of the chains is a run of the two-chain machine.
 */
module CrossChain {
  import opened Bytes
  import opened Htlc
  import Eth = EthContract
  import opened BtcContract
  import opened BtcEngine
  import BtcP2sh
  import BtcTx
  import Btc = BtcBuild
  import BtcExtract
  import Stellar = StellarAccount
  import StellarSwap
  import Two = TwoChain

  const ETH_RULE := Rule(true, 32, 32)
  const BTC_RULE := Rule(true, 32, 32)
  const STELLAR_RULE := Rule(false, 0, 64)

  /** An output of a Bitcoin transaction, by where it is and what it holds. */
  datatype Coin = Coin(hash: BtcTx.Hash32, index: BtcTx.Uint32, value: int)

  /** Funds locked on a chain. */
  datatype Lock =
    | EthLock(key: Eth.Bytes32, swap: Eth.Swap)
    | BtcLock(world: Btc.World, owner: Hash20, recipient: Hash20, lockTime: int, h: Bytes, coin: Coin)
    | StellarLock(account: Stellar.Account, payee: Stellar.Address, x: Bytes, refundTo: Stellar.Address,
                  refundTx: Stellar.Transaction, txHash: Stellar.Transaction -> Bytes)

  /**
   * Anything that might take them: a call in some state of the contract, an input of a transaction
   * at some height, or a transaction with its proof in some state of the network.
   */
  datatype Spend =
    | EthSpend(ledger: Eth.Ledger, call: Eth.Call)
    | BtcSpend(tx: BtcTx.Tx, input: nat, height: int)
    | StellarSpend(net: StellarSwap.Ledger, stx: Stellar.Transaction, proof: Stellar.Proof, threshold: nat)

  function TermsOf(k: Lock): Terms {
    match k
    case EthLock(h, sw) => Terms(sw.Recipient(), sw.Owner(), h, sw.initTimestamp + sw.refundTime, ETH_RULE)
    case BtcLock(_, owner, recipient, locktime, h, _) => Terms(recipient, owner, h, locktime, BTC_RULE)
    case StellarLock(_, payee, x, refundTo, refundTx, _) => Terms(payee, refundTo, x, refundTx.minTime, STELLAR_RULE)
  }

  /** No other transaction is known with the hash of this one. */
  ghost predicate HashFree(txHash: Stellar.Transaction -> Bytes, tx: Stellar.Transaction) {
    forall other :: txHash(other) == txHash(tx) ==> other == tx
  }

  /**
   * What an audit establishes: the swap is filled and its deadline does not overflow; the script
   * is the contract, locked until a time; only the two ways out sign for the account, and the
   * refund merges it into the refund address.
   */
  ghost predicate Sound(sha: Hash, k: Lock) {
    match k
    case EthLock(h, sw) => sw.state.Filled? && sw.initTimestamp + sw.refundTime < Eth.WORD
    case BtcLock(w, owner, recipient, locktime, h, _) =>
      && w.sha == sha && |h| == 32 && LOCKTIME_THRESHOLD <= locktime < BtcTx.UINT32
      && BtcP2sh.SecondPreimageFree(w.hash160, ContractScript(owner, recipient, locktime, h))
    case StellarLock(a, payee, x, refundTo, refundTx, txHash) =>
      && Stellar.Audited(a, payee, x, txHash(refundTx)) && HashFree(txHash, refundTx)
      && Destination(refundTx) == refundTo
  }

  /** The chain lets the spend take the locked funds. On Stellar, whether it is its turn is left open. */
  predicate Accepted(sha: Hash, k: Lock, s: Spend, now: int) {
    match (k, s)
    case (EthLock(h, sw), EthSpend(l, call)) =>
      && Eth.Lookup(l.swaps, h) == sw && (!call.Gift? ==> call.msg.now == now)
      && Eth.Exec(sha, l, call).Some? && Eth.Lookup(Eth.Exec(sha, l, call).value.swaps, h) != sw
    case (BtcLock(w, owner, recipient, locktime, h, coin), BtcSpend(tx, i, height)) =>
      && i < |tx.ins| && Btc.IsFinal(tx, height, now)
      && tx.ins[i].prevHash == coin.hash && tx.ins[i].prevIndex == coin.index
      && Btc.Unlocks(w, tx, i, ContractScript(owner, recipient, locktime, h))
    case (StellarLock(a, payee, x, _, refundTx, txHash), StellarSpend(_, tx, proof, threshold)) =>
      && proof.txHash == txHash(tx) && Stellar.InBounds(tx, now) && Stellar.Authorised(sha, a, proof, threshold)
      && threshold in {a.thresholds.low, a.thresholds.medium, a.thresholds.high}
    case _ => false
  }

  /** What a list of outputs pays in all. */
  function Total(outs: seq<BtcTx.TxOut>): int {
    if outs == [] then 0 else outs[0].value + Total(outs[1..])
  }

  /** No output is negative, and together they pay no more than this. */
  predicate PaysWithin(tx: BtcTx.Tx, value: int) {
    (forall i :: 0 <= i < |tx.outs| ==> tx.outs[i].value >= 0) && Total(tx.outs) <= value
  }

  /**
   * The chain carries the spend out. On Bitcoin the lock's coin pays for all of it; on Stellar it
   * has the next sequence number and its operations succeed.
   */
  predicate Performed(sha: Hash, k: Lock, s: Spend, now: int) {
    && Accepted(sha, k, s, now)
    && (k.BtcLock? && s.BtcSpend? ==> |s.tx.ins| == 1 && PaysWithin(s.tx, k.coin.value))
    && (k.StellarLock? && s.StellarSpend? ==>
          && Stellar.Accepts(sha, k.account, s.stx, s.proof, now)
          && StellarSwap.Execute(s.net, k.account.address, s.stx.operations).Some?)
  }

  /** A secret anyone can read off the chain once the spend is there. */
  predicate Shows(s: Spend, secret: Bytes) {
    match s
    case EthSpend(_, call) => call.Redeem? && call.secret == secret
    case BtcSpend(tx, i, _) =>
      && i < |tx.ins| && BtcExtract.PushedData(tx.ins[i].sigScript).Some?
      && secret in BtcExtract.PushedData(tx.ins[i].sigScript).value
    case StellarSpend(_, _, proof, _) => secret in proof.preimages
  }

  /** Which way a Bitcoin input went, by what its script left for the contract. */
  function BtcReading(w: Btc.World, tx: BtcTx.Tx, i: nat): Event
    requires i < |tx.ins|
  {
    var st := BtcExtract.Operands(Btc.EnvOf(w, tx, i), tx.ins[i].sigScript);
    var n := |st|;
    if n >= 3 && AsBool(st[n - 1]) then Redeem(w.hash160(st[n - 3]), st[n - 2])
    else Refund(if n >= 2 then w.hash160(st[n - 2]) else [])
  }

  /** Where a transaction that ends in a merge sends the account. */
  function Destination(tx: Stellar.Transaction): Party {
    var n := |tx.operations|;
    if n > 0 && tx.operations[n - 1].AccountMerge? then tx.operations[n - 1].into else []
  }

  /** The event of the contract that a spend amounts to, and by whom. */
  ghost function Reading(sha: Hash, k: Lock, s: Spend): Event {
    match (k, s)
    case (EthLock(_, _), EthSpend(_, call)) =>
      (match call
       case Redeem(m, secret, _, _) => Redeem(m.sender, secret)
       case Refund(m, _, _) => Refund(m.sender)
       case _ => Refund([]))
    case (BtcLock(w, _, _, _, _, _), BtcSpend(tx, i, _)) => if i < |tx.ins| then BtcReading(w, tx, i) else Refund([])
    case (StellarLock(_, payee, x, _, refundTx, _), StellarSpend(_, tx, proof, _)) =>
      if tx == refundTx then Refund(Destination(tx))
      else if payee in proof.signedBy && Stellar.Knows(sha, proof, x)
      then var p :| p in proof.preimages && |p| <= Stellar.MAX_PREIMAGE && sha(p) == x; Redeem(payee, p)
      else Refund([])
    case _ => Refund([])
  }

  // ---- Every accepted spend is an event of the contract ----

  ghost predicate Faithful(sha: Hash, k: Lock, s: Spend, now: int) {
    var e := Reading(sha, k, s);
    Enabled(sha, TermsOf(k), e, now) && (e.Redeem? ==> Shows(s, e.secret))
  }

  lemma {:induction false} EthRefines(sha: Hash, k: Lock, s: Spend, now: int)
    requires k.EthLock? && Sound(sha, k) && Accepted(sha, k, s, now)
    ensures Faithful(sha, k, s, now)
  {
  }

  lemma {:induction false} BtcRefines(sha: Hash, k: Lock, s: Spend, now: int)
    requires k.BtcLock? && Sound(sha, k) && Accepted(sha, k, s, now)
    ensures Faithful(sha, k, s, now)
  {
    hide ContractScript, BtcExtract.PushedData, BtcExtract.Operands;
    hide Btc.Unlocks, Btc.IsFinal, BtcP2sh.SecondPreimageFree;
    BtcExtract.SpendReads(k.world, s.tx, s.input, k.owner, k.recipient, k.lockTime, k.h, s.height, now);
  }

  lemma {:induction false} StellarRefines(sha: Hash, k: Lock, s: Spend, now: int)
    requires k.StellarLock? && Sound(sha, k) && Accepted(sha, k, s, now)
    ensures Faithful(sha, k, s, now)
  {
    hide Stellar.Audited, Stellar.Authorised;
    StellarSwap.NoThirdWay(sha, k.account, k.payee, k.x, k.refundTx, k.txHash, s.stx, s.proof, s.threshold, now);
  }

  /**
   * On each of the three chains, whatever takes the locked funds is one of the two events of the
   * contract, allowed by its terms at that moment, and a redemption shows its secret to everyone.
   */
  lemma {:induction false} EveryChainRefines(sha: Hash, k: Lock, s: Spend, now: int)
    requires Sound(sha, k) && Accepted(sha, k, s, now)
    ensures Faithful(sha, k, s, now)
  {
    hide Sound, Accepted, Faithful;
    match k {
      case EthLock(_, _) => EthRefines(sha, k, s, now);
      case BtcLock(_, _, _, _, _, _) => BtcRefines(sha, k, s, now);
      case StellarLock(_, _, _, _, _, _) => StellarRefines(sha, k, s, now);
    }
  }

  // ---- And each event is one the tool's own transaction brings about ----

  /** The calls the Ethereum tool sends are taken exactly when the terms allow the event. */
  lemma {:induction false} EthServes(
    sha: Hash, h: Eth.Bytes32, sw: Eth.Swap, l: Eth.Ledger, who: Party, secret: Eth.Bytes32, now: Eth.Word)
    requires Sound(sha, EthLock(h, sw)) && Eth.Lookup(l.swaps, h) == sw && sw.value <= l.balance
    ensures var k, m := EthLock(h, sw), Eth.Msg(who, 0, now);
            && (Accepted(sha, k, EthSpend(l, Eth.Redeem(m, secret, h, true)), now) <==>
                Enabled(sha, TermsOf(k), Redeem(who, secret), now))
            && (Accepted(sha, k, EthSpend(l, Eth.Refund(m, h, true)), now) <==>
                Enabled(sha, TermsOf(k), Refund(who), now))
  {
  }

  /** The funding output that a transaction is built on is the lock's coin, paid to the hash of its contract. */
  predicate IsCoin(k: Lock, f: Btc.Funding, index: nat)
    requires k.BtcLock?
  {
    && index < |f.outs| && f.hash == k.coin.hash && index == k.coin.index && f.outs[index].value == k.coin.value
    && f.outs[index].pkScript ==
       Btc.PayToScriptHash(k.world.hash160(ContractScript(k.owner, k.recipient, k.lockTime, k.h)))
  }

  lemma DraftPays(k: Lock, f: Btc.Funding, index: nat, locktime: int, sequence: BtcTx.Uint32, fee: int, out: Bytes)
    requires k.BtcLock? && IsCoin(k, f, index)
    ensures var draft := Btc.Draft(f, index, locktime, sequence, fee, out);
            && draft.ins[0].prevHash == k.coin.hash && draft.ins[0].prevIndex == k.coin.index
            && (PaysWithin(draft, k.coin.value) <==> 0 <= fee <= k.coin.value)
  {
    var draft := Btc.Draft(f, index, locktime, sequence, fee, out);
    assert draft.outs[1..] == [] && Total(draft.outs) == k.coin.value - fee;
    assert PaysWithin(draft, k.coin.value) ==> draft.outs[0].value >= 0;
  }

  /** So is the redeeming transaction the Bitcoin tool builds on the lock's coin and signs, if its fee is within it. */
  lemma {:induction false} BtcServesRedeem(
    sha: Hash, k: Lock, wallet: Btc.Wallet, f: Btc.Funding, index: nat, outScript: Bytes, fee: int, secret: Bytes,
    height: int, now: int)
    requires k.BtcLock? && Sound(sha, k) && IsCoin(k, f, index) && BtcP2sh.Pushable(secret)
    requires Btc.Holds(k.world, wallet, k.recipient)
    ensures var contract := ContractScript(k.owner, k.recipient, k.lockTime, k.h);
            var draft := Btc.Draft(f, index, k.lockTime, MAX_SEQUENCE, fee, outScript);
            var tx := Btc.RedeemTx(wallet, k.recipient, contract, secret, draft);
            && tx.outs == [BtcTx.TxOut(k.coin.value - fee, outScript)]
            && (Performed(sha, k, BtcSpend(tx, 0, height), now) <==>
                Enabled(sha, TermsOf(k), Redeem(k.recipient, secret), now) && 0 <= fee <= k.coin.value)
  {
    hide ContractScript, Btc.Unlocks, Btc.IsFinal, Btc.Holds, BtcP2sh.SecondPreimageFree;
    Btc.RedeemTakenAnytime(k.world, wallet, f, index, outScript, fee, secret, k.owner, k.recipient, k.lockTime, k.h,
                           height, now);
    DraftPays(k, f, index, k.lockTime, MAX_SEQUENCE, fee, outScript);
  }

  /** And the refunding one. */
  lemma {:induction false} BtcServesRefund(
    sha: Hash, k: Lock, wallet: Btc.Wallet, f: Btc.Funding, index: nat, outScript: Bytes, fee: int,
    height: int, now: int)
    requires k.BtcLock? && Sound(sha, k) && IsCoin(k, f, index) && Btc.Holds(k.world, wallet, k.owner)
    ensures var contract := ContractScript(k.owner, k.recipient, k.lockTime, k.h);
            var draft := Btc.Draft(f, index, k.lockTime, 0, fee, outScript);
            var tx := Btc.RefundTx(wallet, k.owner, contract, draft);
            && tx.outs == [BtcTx.TxOut(k.coin.value - fee, outScript)]
            && (Performed(sha, k, BtcSpend(tx, 0, height), now) <==>
                Enabled(sha, TermsOf(k), Refund(k.owner), now) && 0 <= fee <= k.coin.value)
  {
    hide ContractScript, Btc.Unlocks, Btc.IsFinal, Btc.Holds, BtcP2sh.SecondPreimageFree;
    Btc.RefundTakenAfter(k.world, wallet, f, index, outScript, fee, k.owner, k.recipient, k.lockTime, k.h, height, now);
    DraftPays(k, f, index, k.lockTime, 0, fee, outScript);
  }

  /** The refund is the account's next transaction, has no upper time bound and hands on all there is. */
  predicate RefundsNext(k: Lock)
    requires k.StellarLock?
  {
    && k.refundTx.source == k.account.address && k.refundTx.sequence == k.account.sequence + 1
    && k.refundTx.maxTime == 0
    && k.refundTx.operations == StellarSwap.RedeemOps(k.account.balances, k.account.address, k.refundTo)
  }

  /** The refund and the redeem of a Stellar account, against the turn, the time and what the ledger allows. */
  lemma {:induction false} StellarPerforms(sha: Hash, k: Lock, l: StellarSwap.Ledger, secret: Bytes, now: nat)
    requires k.StellarLock? && Sound(sha, k)
    requires k.account.address in l && StellarSwap.Listed(k.account.balances, l[k.account.address].lines)
    ensures var high := k.account.thresholds.high;
            var redeemTx := StellarSwap.RedeemTransaction(k.account, k.payee);
            var redeem := StellarSpend(l, redeemTx, Stellar.Proof(k.txHash(redeemTx), {k.payee}, {secret}), high);
            k.payee in l && k.payee != k.account.address && redeemTx != k.refundTx ==>
              (Performed(sha, k, redeem, now) <==>
               && Enabled(sha, TermsOf(k), Redeem(k.payee, secret), now)
               && StellarSwap.CanDrain(l, k.account.address, k.payee))
    ensures var high := k.account.thresholds.high;
            var refund := StellarSpend(l, k.refundTx, Stellar.Proof(k.txHash(k.refundTx), {}, {}), high);
            && k.refundTo in l && k.refundTo != k.account.address && RefundsNext(k) ==>
              (Performed(sha, k, refund, now) <==>
               && Enabled(sha, TermsOf(k), Refund(k.refundTo), now)
               && StellarSwap.CanDrain(l, k.account.address, k.refundTo))
  {
    hide Stellar.Audited, Stellar.Authorised, StellarSwap.CanDrain, StellarSwap.Execute, StellarSwap.RedeemOps;
    var high, home := k.account.thresholds.high, k.account.address;
    var redeemTx := StellarSwap.RedeemTransaction(k.account, k.payee);
    var redeem := Stellar.Proof(k.txHash(redeemTx), {k.payee}, {secret});
    var refund := Stellar.Proof(k.txHash(k.refundTx), {}, {});
    Stellar.AuditMeans(sha, k.account, k.payee, k.x, k.txHash(k.refundTx), redeem, high);
    Stellar.AuditMeans(sha, k.account, k.payee, k.x, k.txHash(k.refundTx), refund, high);
    assert secret in redeem.preimages;
    if k.payee in l && k.payee != home { StellarSwap.DrainExact(l, k.account.balances, home, k.payee); }
    if k.refundTo in l && k.refundTo != home { StellarSwap.DrainExact(l, k.account.balances, home, k.refundTo); }
  }

  /**
   * And so are, of an account the tool has set up and handed over, the refund transaction it made
   * then and the redeem transaction it makes now, as far as the receiver can hold what there is;
   * the receiver then has all of it.
   */
  lemma {:induction false} StellarServes(
    sha: Hash, a: Stellar.Account, b: Stellar.Account, payee: Stellar.Address, x: Bytes, secret: Bytes,
    refundTo: Stellar.Address, locktime: int, txHash: Stellar.Transaction -> Bytes, l: StellarSwap.Ledger, now: nat)
    requires StellarSwap.IsFresh(a) && HashFree(txHash, StellarSwap.RefundTransaction(a, refundTo, locktime))
    requires StellarSwap.HandedOver(a, b, payee, x, txHash(StellarSwap.RefundTransaction(a, refundTo, locktime)))
    requires a.address in l && payee in l && refundTo in l && a.address !in {payee, refundTo} && payee != refundTo
    requires StellarSwap.Listed(b.balances, l[a.address].lines)
    ensures var refundTx, redeemTx :=
              StellarSwap.RefundTransaction(a, refundTo, locktime), StellarSwap.RedeemTransaction(b, payee);
            var k := StellarLock(b, payee, x, refundTo, refundTx, txHash);
            && Sound(sha, k)
            && (Performed(sha, k, StellarSpend(l, refundTx, Stellar.Proof(txHash(refundTx), {}, {}), 2), now) <==>
                Enabled(sha, TermsOf(k), Refund(refundTo), now) && StellarSwap.CanDrain(l, a.address, refundTo))
            && (Performed(sha, k, StellarSpend(l, redeemTx, Stellar.Proof(txHash(redeemTx), {payee}, {secret}), 2), now)
                <==> Enabled(sha, TermsOf(k), Redeem(payee, secret), now) && StellarSwap.CanDrain(l, a.address, payee))
  {
    hide Performed, StellarSwap.CanDrain, StellarSwap.HandedOver, StellarSwap.IsFresh, Enabled;
    hide Stellar.Live, Stellar.Held, StellarSwap.Listed, StellarSwap.CreditOps;
    var refundTx, redeemTx :=
      StellarSwap.RefundTransaction(a, refundTo, locktime), StellarSwap.RedeemTransaction(b, payee);
    var k := StellarLock(b, payee, x, refundTo, refundTx, txHash);
    StellarSwap.HandedOverAudits(a, b, payee, x, txHash(refundTx));
    StellarSwap.HandedOverThresholds(a, b, payee, x, txHash(refundTx));
    HandedOverKeeps(a, b, payee, x, txHash(refundTx));
    assert Destination(redeemTx) == payee && Destination(refundTx) == refundTo;
    StellarPerforms(sha, k, l, secret, now);
  }

  lemma HandedOverKeeps(a: Stellar.Account, b: Stellar.Account, payee: Stellar.Address, x: Bytes, refundHash: Bytes)
    requires StellarSwap.HandedOver(a, b, payee, x, refundHash)
    ensures b.address == a.address && b.sequence == a.sequence + 1 && b.balances == a.balances
  {
  }

  // ---- What an audit establishes ----

  /** An account that passes the Stellar audit is a sound lock with the terms the audit shows. */
  lemma {:induction false} StellarAuditEstablishes(
    sha: Hash, a: Stellar.Account, refundTx: Stellar.Transaction, txHash: Stellar.Transaction -> Bytes)
    requires HashFree(txHash, refundTx)
    requires Stellar.AuditOf(a, refundTx, txHash(refundTx)).Accepted?
    ensures var r := Stellar.AuditOf(a, refundTx, txHash(refundTx));
            var k := StellarLock(a, r.recipient, r.secretHash, r.refundAddress, refundTx, txHash);
            Sound(sha, k) && TermsOf(k) == Terms(r.recipient, r.refundAddress, r.secretHash, r.lockTime, STELLAR_RULE)
  {
    hide Stellar.Scan, Stellar.Held, Stellar.Live;
    var r := Stellar.AuditOf(a, refundTx, txHash(refundTx));
    Stellar.ScanExact(a.signers, Stellar.Found(Some(r.recipient), Some(txHash(refundTx)), Some(r.secretHash)));
  }

  /**
   * A script that passes the Bitcoin audit is the contract of a sound lock with the terms the audit
   * shows, if and only if the lock time shown is a time in 32 bits and not the height of a block.
   */
  lemma {:induction false} BtcAuditEstablishes(w: Btc.World, contract: Bytes, coin: Coin)
    requires Extract(contract).Found? && Extract(contract).pushes.secretSize == SECRET_SIZE
    requires BtcP2sh.SecondPreimageFree(w.hash160, contract)
    ensures var p := Extract(contract).pushes;
            var k := BtcLock(w, p.refund, p.recipient, p.lockTime, p.secretHash, coin);
            && TermsOf(k) == Terms(p.recipient, p.refund, p.secretHash, p.lockTime, BTC_RULE)
            && (Sound(w.sha, k) <==> LOCKTIME_THRESHOLD <= p.lockTime < BtcTx.UINT32)
            && (Sound(w.sha, k) ==> contract == ContractScript(p.refund, p.recipient, p.lockTime, p.secretHash))
  {
    hide Extract, ContractScript;
    ExtractSound(contract);
    ExtractExact(contract);
  }

  // ---- A swap between two chains ----

  datatype Leg = Nowhere | Leg(lock: Lock, phase: Phase)

  datatype State = State(now: int, a: Leg, b: Leg, known: set<Bytes>)

  datatype Act = Wait(dt: nat) | Lock1(k: Lock) | Lock2(k: Lock) | Take1(spend: Spend) | Take2(spend: Spend)

  function Init(c: Two.Config): State { State(c.start, Nowhere, Nowhere, {}) }

  /** A lock as the protocol asks for it, whichever chain it is on: sound, and with exactly these terms. */
  ghost predicate Offers(c: Two.Config, k: Lock, terms: Terms) {
    Sound(c.sha, k) && TermsOf(k) == terms
  }

  ghost predicate Can(c: Two.Config, s: State, act: Act) {
    match act
    case Wait(dt) => Two.CanTick(c, Abstract(s), s.now + dt)
    case Lock1(k) => s.a.Nowhere? && Offers(c, k, c.TermsA(s.now))
    case Lock2(k) =>
      && s.b.Nowhere? && s.a.Leg? && s.a.phase.Locked?
      && s.now <= TermsOf(s.a.lock).deadline - Two.INITIATOR_LOCK + c.gap
      && Offers(c, k, c.TermsB(s.now))
    case Take1(spend) =>
      && s.a.Leg? && s.a.phase.Locked? && Accepted(c.sha, s.a.lock, spend, s.now)
      && (c.discreet && Reading(c.sha, s.a.lock, spend).Redeem? ==> Reading(c.sha, s.a.lock, spend).secret in s.known)
    case Take2(spend) => s.b.Leg? && s.b.phase.Locked? && Accepted(c.sha, s.b.lock, spend, s.now)
  }

  ghost function Next(c: Two.Config, s: State, act: Act): State
    requires Can(c, s, act)
  {
    match act
    case Wait(dt) => State(s.now + dt, s.a, s.b, s.known)
    case Lock1(k) => State(s.now, Leg(k, Locked), s.b, s.known)
    case Lock2(k) => State(s.now, s.a, Leg(k, Locked), s.known)
    case Take1(spend) =>
      var e := Reading(c.sha, s.a.lock, spend);
      State(s.now, Leg(s.a.lock, Settled(e, s.now)), s.b, s.known + Two.Reveals(e))
    case Take2(spend) =>
      var e := Reading(c.sha, s.b.lock, spend);
      State(s.now, s.a, Leg(s.b.lock, Settled(e, s.now)), s.known + Two.Reveals(e))
  }

  ghost function Run(c: Two.Config, acts: seq<Act>): Option<State> {
    if acts == [] then Some(Init(c))
    else
      var n := |acts| - 1;
      match Run(c, acts[..n])
      case None => None
      case Some(s) => if Can(c, s, acts[n]) then Some(Next(c, s, acts[n])) else None
  }

  // ---- Simulation ----

  function AbstractLeg(leg: Leg): Two.Leg {
    if leg.Nowhere? then Two.Absent else Two.Leg(TermsOf(leg.lock), leg.phase)
  }

  /** The same state with each lock as nothing but its terms. */
  function Abstract(s: State): Two.State {
    Two.State(s.now, AbstractLeg(s.a), AbstractLeg(s.b), s.known)
  }

  ghost function AbstractAct(c: Two.Config, s: State, act: Act): Two.Act
    requires Can(c, s, act)
  {
    match act
    case Wait(dt) => Two.Tick(dt)
    case Lock1(_) => Two.Initiate
    case Lock2(_) => Two.Participate
    case Take1(spend) => Two.SpendA(Reading(c.sha, s.a.lock, spend))
    case Take2(spend) => Two.SpendB(Reading(c.sha, s.b.lock, spend))
  }

  ghost predicate Proper(c: Two.Config, s: State) {
    (s.a.Leg? ==> Sound(c.sha, s.a.lock)) && (s.b.Leg? ==> Sound(c.sha, s.b.lock))
  }

  lemma {:induction false} StepSimulates(c: Two.Config, s: State, act: Act)
    requires Proper(c, s) && Can(c, s, act)
    ensures Proper(c, Next(c, s, act))
    ensures var abs := AbstractAct(c, s, act);
            && Two.CanDo(c, Abstract(s), abs)
            && Two.Do(c, Abstract(s), abs) == Abstract(Next(c, s, act))
  {
    hide Sound, Accepted, Reading, TermsOf;
    match act {
      case Take1(spend) => EveryChainRefines(c.sha, s.a.lock, spend, s.now);
      case Take2(spend) => EveryChainRefines(c.sha, s.b.lock, spend, s.now);
      case _ =>
    }
  }

  /** Every run of a swap between two chains is a run of the two-chain machine. */
  lemma {:induction false} RunSimulates(c: Two.Config, acts: seq<Act>)
    requires Run(c, acts).Some?
    ensures Proper(c, Run(c, acts).value) && Two.Reachable(c, Abstract(Run(c, acts).value))
  {
    hide Can, Next, Proper, Abstract;
    if acts == [] {
      StartSimulates(c);
    } else {
      var n := |acts| - 1;
      RunSimulates(c, acts[..n]);
      var s := Run(c, acts[..n]).value;
      StepSimulates(c, s, acts[n]);
      Two.Extend(c, Abstract(s), AbstractAct(c, s, acts[n]));
    }
  }

  lemma StartSimulates(c: Two.Config)
    ensures Proper(c, Init(c)) && Two.Reachable(c, Abstract(Init(c)))
  {
    assert Two.Run(c, Two.Init(c), []) == Some(Two.Init(c));
  }

  // ---- Atomicity of swaps across the chains ----

  /** This party, and nobody else, has decided where the funds of a leg go, by showing the secret. */
  predicate RedeemedBy(leg: Leg, who: Party) { leg.Leg? && leg.phase.Redeemed? && leg.phase.who == who }

  /** The funds of a leg have gone back, by this party's decision or to it. */
  predicate RefundedBy(leg: Leg, who: Party) { leg.Leg? && leg.phase.Refunded? && leg.phase.who == who }

  predicate Settled1(leg: Leg) { leg.Leg? && !leg.phase.Locked? }

  /**
   * Over every run of a swap between any two of the chains, whatever transactions are made and by
   * whomever:
   * - the first lock is opened by the participant alone or taken back by the initiator, and the
   *   second opened by the initiator alone or taken back by the participant;
   * - a prompt participant whose funds the initiator has taken never sees the initiator refunded;
   * - a discreet initiator whose funds the participant has taken has the participant's;
   * - so when both locks are settled, both are redeemed by the other party or both refunded.
   */
  lemma {:induction false} SwapAtomicity(c: Two.Config, acts: seq<Act>)
    requires Run(c, acts).Some?
    ensures var s := Run(c, acts).value;
            && (Settled1(s.a) ==> RedeemedBy(s.a, c.onA.participant) || RefundedBy(s.a, c.onA.initiator))
            && (Settled1(s.b) ==> RedeemedBy(s.b, c.onB.initiator) || RefundedBy(s.b, c.onB.participant))
            && (c.prompt && c.InTime() && c.Compatible() ==>
                  !(RedeemedBy(s.b, c.onB.initiator) && RefundedBy(s.a, c.onA.initiator)))
            && (c.discreet ==> (RedeemedBy(s.a, c.onA.participant) ==> RedeemedBy(s.b, c.onB.initiator)))
            && (c.prompt && c.InTime() && c.Compatible() && c.discreet && Settled1(s.a) && Settled1(s.b) ==>
                  || (RedeemedBy(s.a, c.onA.participant) && RedeemedBy(s.b, c.onB.initiator))
                  || (RefundedBy(s.a, c.onA.initiator) && RefundedBy(s.b, c.onB.participant)))
  {
    hide Run, TermsOf;
    RunSimulates(c, acts);
    var t := Abstract(Run(c, acts).value);
    Two.WhoIsPaid(c, t);
    if c.prompt && c.InTime() && c.Compatible() { Two.ParticipantAtomicity(c, t); }
    if c.discreet { Two.InitiatorSafety(c, t); }
  }

  /**
   * The pairs of chains whose secrets always fit are all but a lock on Stellar answering one
   * elsewhere: there the secret must not be known in any length but the usual one.
   */
  lemma {:induction false} PairsCompatible(c: Two.Config)
    requires c.ruleA in {ETH_RULE, BTC_RULE, STELLAR_RULE} && c.ruleB in {ETH_RULE, BTC_RULE, STELLAR_RULE}
    ensures c.ruleB != STELLAR_RULE || c.ruleA == STELLAR_RULE ==> c.Compatible()
    ensures c.ruleB == STELLAR_RULE && c.ruleA != STELLAR_RULE ==>
              (c.Compatible() <==>
               forall s: Bytes :: c.sha(s) == c.secretHash && |s| <= Stellar.MAX_PREIMAGE ==> |s| == SECRET_SIZE)
  {
    if c.ruleB == STELLAR_RULE && c.ruleA != STELLAR_RULE && c.Compatible() {
      forall s: Bytes | c.sha(s) == c.secretHash && |s| <= Stellar.MAX_PREIMAGE ensures |s| == SECRET_SIZE {
        assert c.OpensB(s);
      }
    }
  }
}
