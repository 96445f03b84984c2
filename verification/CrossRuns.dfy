/**
 * What the parties of a swap between two chains can bring about: each can end it alone, and
 * together they can complete it, by transactions that the chains carry out.
 */
module CrossRuns {
  import opened Bytes
  import opened Htlc
  import opened BtcContract
  import opened CrossChain
  import EthClient

  // ---- Means ----

  /** What a party has at hand to act on a lock: the state of the chain, and for Bitcoin a wallet, a coin and a fee. */
  datatype Means =
    | EthMeans(contract: Eth.Ledger)
    | BtcMeans(wallet: Btc.Wallet, funding: Btc.Funding, index: nat, outScript: Bytes, fee: int, at: int)
    | StellarMeans(accounts: StellarSwap.Ledger)

  /**
   * The recipient of a lock can redeem it: the contract is solvent, the key is held and the fee
   * within the coin, or there is room for the funds.
   */
  ghost predicate CanRedeem(k: Lock, m: Means) {
    match (k, m)
    case (EthLock(h, sw), EthMeans(l)) => Eth.Lookup(l.swaps, h) == sw && sw.value <= l.balance
    case (BtcLock(w, _, recipient, _, _, coin), BtcMeans(wallet, f, index, _, fee, _)) =>
      IsCoin(k, f, index) && 0 <= fee <= coin.value && Btc.Holds(w, wallet, recipient)
    case (StellarLock(a, payee, _, _, refundTx, _), StellarMeans(l)) =>
      && a.address in l && payee in l && payee != a.address && StellarSwap.RedeemTransaction(a, payee) != refundTx
      && StellarSwap.Listed(a.balances, l[a.address].lines) && StellarSwap.CanDrain(l, a.address, payee)
    case _ => false
  }

  /** The owner of a lock can refund it. */
  ghost predicate CanRefund(k: Lock, m: Means) {
    match (k, m)
    case (EthLock(h, sw), EthMeans(l)) => Eth.Lookup(l.swaps, h) == sw && sw.value <= l.balance
    case (BtcLock(w, owner, _, _, _, coin), BtcMeans(wallet, f, index, _, fee, _)) =>
      IsCoin(k, f, index) && 0 <= fee <= coin.value && Btc.Holds(w, wallet, owner)
    case (StellarLock(a, _, _, refundTo, _, _), StellarMeans(l)) =>
      && a.address in l && refundTo in l && refundTo != a.address && RefundsNext(k)
      && StellarSwap.Listed(a.balances, l[a.address].lines) && StellarSwap.CanDrain(l, a.address, refundTo)
    case _ => false
  }

  /** The chain carries the spend out, and it is this event. */
  ghost predicate BringsAbout(sha: Hash, k: Lock, s: Spend, e: Event, now: int) {
    Performed(sha, k, s, now) && Reading(sha, k, s) == e
  }

  lemma {:induction false} BtcRedeemReads(sha: Hash, k: Lock, m: Means, secret: Bytes)
    requires k.BtcLock? && Sound(sha, k) && CanRedeem(k, m) && |secret| == SECRET_SIZE
    ensures var contract := ContractScript(k.owner, k.recipient, k.lockTime, k.h);
            var draft := Btc.Draft(m.funding, m.index, k.lockTime, BtcEngine.MAX_SEQUENCE, m.fee, m.outScript);
            BtcReading(k.world, Btc.RedeemTx(m.wallet, k.recipient, contract, secret, draft), 0)
            == Redeem(k.recipient, secret)
  {
    hide ContractScript, BtcEngine.Pushed, BtcP2sh.RedeemSigOps;
    var contract := ContractScript(k.owner, k.recipient, k.lockTime, k.h);
    var draft := Btc.Draft(m.funding, m.index, k.lockTime, BtcEngine.MAX_SEQUENCE, m.fee, m.outScript);
    var (sig, pubkey) := m.wallet(k.recipient, draft, 0);
    var env := Btc.EnvOf(k.world, Btc.RedeemTx(m.wallet, k.recipient, contract, secret, draft), 0);
    BtcP2sh.ContractSize(k.owner, k.recipient, k.lockTime, k.h);
    BtcP2sh.RedeemPushes(env, contract, sig, pubkey, secret);
    assert [sig, pubkey, secret, [1], contract][..4] == [sig, pubkey, secret, [1]];
  }

  lemma {:induction false} BtcRefundReads(sha: Hash, k: Lock, m: Means)
    requires k.BtcLock? && Sound(sha, k) && CanRefund(k, m)
    ensures var contract := ContractScript(k.owner, k.recipient, k.lockTime, k.h);
            var draft := Btc.Draft(m.funding, m.index, k.lockTime, 0, m.fee, m.outScript);
            BtcReading(k.world, Btc.RefundTx(m.wallet, k.owner, contract, draft), 0) == Refund(k.owner)
  {
    hide ContractScript, BtcEngine.Pushed, BtcP2sh.RefundSigOps;
    var contract := ContractScript(k.owner, k.recipient, k.lockTime, k.h);
    var draft := Btc.Draft(m.funding, m.index, k.lockTime, 0, m.fee, m.outScript);
    var (sig, pubkey) := m.wallet(k.owner, draft, 0);
    var env := Btc.EnvOf(k.world, Btc.RefundTx(m.wallet, k.owner, contract, draft), 0);
    BtcP2sh.ContractSize(k.owner, k.recipient, k.lockTime, k.h);
    BtcP2sh.RefundPushes(env, contract, sig, pubkey);
    assert [sig, pubkey, [], contract][..3] == [sig, pubkey, []];
  }

  /** Whenever the terms allow the redemption, a spend of the recipient's brings it about. */
  lemma {:induction false} RedeemServed(sha: Hash, k: Lock, m: Means, secret: Bytes, now: Eth.Word) returns (s: Spend)
    requires Sound(sha, k) && CanRedeem(k, m) && Enabled(sha, TermsOf(k), Redeem(TermsOf(k).recipient, secret), now)
    ensures BringsAbout(sha, k, s, Redeem(TermsOf(k).recipient, secret), now)
  {
    match k {
      case EthLock(h, sw) =>
        s := EthSpend(m.contract, Eth.Redeem(Eth.Msg(sw.Recipient(), 0, now), secret, h, true));
        EthServes(sha, h, sw, m.contract, sw.Recipient(), secret, now);
      case BtcLock(w, owner, recipient, locktime, h, _) =>
        hide ContractScript, Btc.Unlocks, Btc.IsFinal, BtcP2sh.SecondPreimageFree, BtcReading;
        var contract := ContractScript(owner, recipient, locktime, h);
        var draft := Btc.Draft(m.funding, m.index, locktime, BtcEngine.MAX_SEQUENCE, m.fee, m.outScript);
        s := BtcSpend(Btc.RedeemTx(m.wallet, recipient, contract, secret, draft), 0, m.at);
        BtcServesRedeem(sha, k, m.wallet, m.funding, m.index, m.outScript, m.fee, secret, m.at, now);
        BtcRedeemReads(sha, k, m, secret);
      case StellarLock(a, payee, x, refundTo, refundTx, txHash) =>
        var redeemTx := StellarSwap.RedeemTransaction(a, payee);
        var proof := Stellar.Proof(txHash(redeemTx), {payee}, {secret});
        s := StellarSpend(m.accounts, redeemTx, proof, a.thresholds.high);
        StellarPerforms(sha, k, m.accounts, secret, now);
        assert secret in proof.preimages;
    }
  }

  /** And whenever the terms allow the refund, a spend of the owner's does. */
  lemma {:induction false} RefundServed(sha: Hash, k: Lock, m: Means, now: Eth.Word) returns (s: Spend)
    requires Sound(sha, k) && CanRefund(k, m) && Enabled(sha, TermsOf(k), Refund(TermsOf(k).refundee), now)
    ensures BringsAbout(sha, k, s, Refund(TermsOf(k).refundee), now)
  {
    match k {
      case EthLock(h, sw) =>
        s := EthSpend(m.contract, Eth.Refund(Eth.Msg(sw.Owner(), 0, now), h, true));
        EthServes(sha, h, sw, m.contract, sw.Owner(), Eth.ZERO32, now);
      case BtcLock(w, owner, recipient, locktime, h, _) =>
        hide ContractScript, Btc.Unlocks, Btc.IsFinal, BtcP2sh.SecondPreimageFree, BtcReading;
        var contract := ContractScript(owner, recipient, locktime, h);
        var draft := Btc.Draft(m.funding, m.index, locktime, 0, m.fee, m.outScript);
        s := BtcSpend(Btc.RefundTx(m.wallet, owner, contract, draft), 0, m.at);
        BtcServesRefund(sha, k, m.wallet, m.funding, m.index, m.outScript, m.fee, m.at, now);
        BtcRefundReads(sha, k, m);
      case StellarLock(a, payee, x, refundTo, refundTx, txHash) =>
        s := StellarSpend(m.accounts, refundTx, Stellar.Proof(txHash(refundTx), {}, {}), a.thresholds.high);
        StellarPerforms(sha, k, m.accounts, [], now);
        assert Destination(refundTx) == refundTo;
    }
  }

  // ---- Acts of one party ----

  datatype Role = AsInitiator | AsParticipant

  /** The owner of a lock takes it back, the other party redeems it. */
  predicate OwnMove(owns: bool, e: Event, owner: Party, other: Party) {
    if owns then e == Refund(owner) else e.Redeem? && e.who == other
  }

  /** Waiting, or a spend of the party's own that its chain carries out and that the protocol has for it. */
  ghost predicate ActsAs(c: Two.Config, role: Role, s: State, act: Act) {
    match act
    case Wait(_) => true
    case Take1(spend) =>
      && s.a.Leg? && Performed(c.sha, s.a.lock, spend, s.now)
      && OwnMove(role.AsInitiator?, Reading(c.sha, s.a.lock, spend), c.onA.initiator, c.onA.participant)
    case Take2(spend) =>
      && s.b.Leg? && Performed(c.sha, s.b.lock, spend, s.now)
      && OwnMove(role.AsParticipant?, Reading(c.sha, s.b.lock, spend), c.onB.participant, c.onB.initiator)
    case _ => false
  }

  /** Every one of these further acts is the party's, in the state in which it is taken. */
  ghost predicate AllBy(c: Two.Config, role: Role, acts: seq<Act>, more: seq<Act>) {
    more == [] ||
    (var n := |more| - 1;
     && AllBy(c, role, acts, more[..n]) && Run(c, acts + more[..n]).Some?
     && ActsAs(c, role, Run(c, acts + more[..n]).value, more[n]))
  }

  lemma NoneYet(c: Two.Config, role: Role, acts: seq<Act>)
    ensures AllBy(c, role, acts, []) && acts + [] == acts
  {
  }

  lemma {:induction false} RunMore(c: Two.Config, acts: seq<Act>, act: Act)
    requires Run(c, acts).Some? && Can(c, Run(c, acts).value, act)
    ensures Run(c, acts + [act]) == Some(Next(c, Run(c, acts).value, act))
  {
    hide Can, Next;
    assert (acts + [act])[..|acts|] == acts;
  }

  lemma {:induction false} OneMore(c: Two.Config, role: Role, acts: seq<Act>, more: seq<Act>, act: Act)
    requires Run(c, acts + more).Some? && Can(c, Run(c, acts + more).value, act)
    requires AllBy(c, role, acts, more) && ActsAs(c, role, Run(c, acts + more).value, act)
    ensures AllBy(c, role, acts, more + [act])
    ensures Run(c, acts + (more + [act])) == Some(Next(c, Run(c, acts + more).value, act))
  {
    hide Can, Next, ActsAs;
    RunMore(c, acts + more, act);
    assert acts + more + [act] == acts + (more + [act]);
    assert (more + [act])[..|more|] == more;
  }

  /** The party waits until some time. */
  lemma {:induction false} Await(c: Two.Config, role: Role, acts: seq<Act>, from: int) returns (more: seq<Act>)
    requires Run(c, acts).Some? && Two.CanTick(c, Abstract(Run(c, acts).value), from)
    ensures AllBy(c, role, acts, more) && Run(c, acts + more).Some?
    ensures var s, t := Run(c, acts).value, Run(c, acts + more).value;
            t == State(if s.now < from then from else s.now, s.a, s.b, s.known)
  {
    hide Run, Two.CanTick, Abstract;
    var s := Run(c, acts).value;
    NoneYet(c, role, acts);
    more := [];
    if s.now < from {
      var wait := Wait(from - s.now);
      OneMore(c, role, acts, more, wait);
      more := more + [wait];
    }
  }

  /** The participant takes back their own lock. */
  lemma {:induction false} TakeBack2(c: Two.Config, acts: seq<Act>, more: seq<Act>, m: Means) returns (act: Act)
    requires AllBy(c, AsParticipant, acts, more) && Run(c, acts + more).Some?
    requires var s := Run(c, acts + more).value;
             && s.b.Leg? && s.b.phase.Locked? && Sound(c.sha, s.b.lock) && CanRefund(s.b.lock, m)
             && TermsOf(s.b.lock).refundee == c.onB.participant
             && 0 <= s.now < Eth.WORD && RefundFrom(TermsOf(s.b.lock)) <= s.now
    ensures AllBy(c, AsParticipant, acts, more + [act]) && Run(c, acts + (more + [act])).Some?
    ensures RefundedBy(Run(c, acts + (more + [act])).value.b, c.onB.participant)
  {
    hide Sound, TermsOf, CanRefund, Accepted, Run, Reading, AllBy;
    var s := Run(c, acts + more).value;
    var spend := RefundServed(c.sha, s.b.lock, m, s.now);
    act := Take2(spend);
    OneMore(c, AsParticipant, acts, more, act);
  }

  /** The initiator takes back theirs. */
  lemma {:induction false} TakeBack1(c: Two.Config, acts: seq<Act>, more: seq<Act>, m: Means) returns (act: Act)
    requires AllBy(c, AsInitiator, acts, more) && Run(c, acts + more).Some?
    requires var s := Run(c, acts + more).value;
             && s.a.Leg? && s.a.phase.Locked? && Sound(c.sha, s.a.lock) && CanRefund(s.a.lock, m)
             && TermsOf(s.a.lock).refundee == c.onA.initiator
             && 0 <= s.now < Eth.WORD && RefundFrom(TermsOf(s.a.lock)) <= s.now
    ensures AllBy(c, AsInitiator, acts, more + [act]) && Run(c, acts + (more + [act])).Some?
    ensures RefundedBy(Run(c, acts + (more + [act])).value.a, c.onA.initiator)
  {
    hide Sound, TermsOf, CanRefund, Accepted, Run, Reading, AllBy;
    var s := Run(c, acts + more).value;
    var spend := RefundServed(c.sha, s.a.lock, m, s.now);
    act := Take1(spend);
    OneMore(c, AsInitiator, acts, more, act);
  }

  /** The participant takes the initiator's funds with a secret everyone knows. */
  lemma {:induction false} TakeFunds1(c: Two.Config, acts: seq<Act>, m: Means, secret: Bytes) returns (act: Act)
    requires Run(c, acts).Some?
    requires var s := Run(c, acts).value;
             && s.a.Leg? && s.a.phase.Locked? && Sound(c.sha, s.a.lock) && CanRedeem(s.a.lock, m)
             && TermsOf(s.a.lock).recipient == c.onA.participant && secret in s.known
             && 0 <= s.now < Eth.WORD && Enabled(c.sha, TermsOf(s.a.lock), Redeem(c.onA.participant, secret), s.now)
    ensures AllBy(c, AsParticipant, acts, [act]) && Run(c, acts + [act]).Some?
    ensures var s, t := Run(c, acts).value, Run(c, acts + [act]).value;
            RedeemedBy(t.a, c.onA.participant) && t.b == s.b
  {
    hide Sound, TermsOf, CanRedeem, Accepted, Run, Reading, AllBy, Enabled;
    var s := Run(c, acts).value;
    var spend := RedeemServed(c.sha, s.a.lock, m, secret, s.now);
    act := Take1(spend);
    NoneYet(c, AsParticipant, acts);
    assert [] + [act] == [act];
    OneMore(c, AsParticipant, acts, [], act);
  }

  /** The initiator takes the participant's, and shows the secret by it. */
  lemma {:induction false} TakeFunds2(c: Two.Config, acts: seq<Act>, m: Means, secret: Bytes) returns (act: Act)
    requires Run(c, acts).Some?
    requires var s := Run(c, acts).value;
             && s.b.Leg? && s.b.phase.Locked? && Sound(c.sha, s.b.lock) && CanRedeem(s.b.lock, m)
             && TermsOf(s.b.lock).recipient == c.onB.initiator
             && 0 <= s.now < Eth.WORD && Enabled(c.sha, TermsOf(s.b.lock), Redeem(c.onB.initiator, secret), s.now)
    ensures AllBy(c, AsInitiator, acts, [act]) && Run(c, acts + [act]).Some?
    ensures var s, t := Run(c, acts).value, Run(c, acts + [act]).value;
            RedeemedBy(t.b, c.onB.initiator) && t.a == s.a && t.now == s.now && secret in t.known
  {
    hide Sound, TermsOf, CanRedeem, Accepted, Run, Reading, AllBy, Enabled;
    var s := Run(c, acts).value;
    var spend := RedeemServed(c.sha, s.b.lock, m, secret, s.now);
    act := Take2(spend);
    NoneYet(c, AsInitiator, acts);
    assert [] + [act] == [act];
    OneMore(c, AsInitiator, acts, [], act);
  }

  // ---- Either party can end the swap ----

  /**
   * The participant is never stuck, on any pair of chains: from every reachable state in which
   * both have locked, waiting and spends of theirs that the chains carry out lead to their refund
   * or to the initiator's funds. They need the means to refund their own lock while it stands, or
   * to redeem the other once theirs is redeemed, and times that fit a word of the contract.
   */
  lemma {:induction false} ParticipantSettles(c: Two.Config, acts: seq<Act>, meansA: Means, meansB: Means)
    returns (more: seq<Act>)
    requires c.prompt && c.InTime() && c.Compatible() && (c.ruleB.strict ==> c.reaction >= 1)
    requires Run(c, acts).Some? && Run(c, acts).value.a.Leg? && Run(c, acts).value.b.Leg?
    requires var s := Run(c, acts).value;
             && (s.b.phase.Locked? ==> CanRefund(s.b.lock, meansB))
             && (s.b.phase.Redeemed? && s.a.phase.Locked? ==> CanRedeem(s.a.lock, meansA))
    requires 0 <= Run(c, acts).value.now < Eth.WORD && RefundFrom(TermsOf(Run(c, acts).value.b.lock)) < Eth.WORD
    ensures AllBy(c, AsParticipant, acts, more) && Run(c, acts + more).Some?
    ensures var s := Run(c, acts + more).value;
            RefundedBy(s.b, c.onB.participant) || RedeemedBy(s.a, c.onA.participant)
  {
    hide Run, Sound, TermsOf, CanRedeem, CanRefund, AllBy;
    var s := Run(c, acts).value;
    RunSimulates(c, acts);
    Two.InvReachable(c, Abstract(s));
    NoneYet(c, AsParticipant, acts);
    more := [];
    if s.b.phase.Locked? {
      more := Await(c, AsParticipant, acts, RefundFrom(TermsOf(s.b.lock)));
      var act := TakeBack2(c, acts, more, meansB);
      more := more + [act];
    } else if s.b.phase.Redeemed? && s.a.phase.Locked? {
      var act := TakeFunds1(c, acts, meansA, s.b.phase.secret);
      more := [act];
    }
  }

  /**
   * Nor is the initiator: whatever the participant does or leaves undone, from every reachable
   * state in which the initiator has locked, waiting and their own refund lead to that refund, or
   * they have the participant's funds already.
   */
  lemma {:induction false} InitiatorSettles(c: Two.Config, acts: seq<Act>, means: Means) returns (more: seq<Act>)
    requires c.discreet && !c.prompt
    requires Run(c, acts).Some? && Run(c, acts).value.a.Leg?
    requires Run(c, acts).value.a.phase.Locked? ==> CanRefund(Run(c, acts).value.a.lock, means)
    requires 0 <= Run(c, acts).value.now < Eth.WORD && RefundFrom(TermsOf(Run(c, acts).value.a.lock)) < Eth.WORD
    ensures AllBy(c, AsInitiator, acts, more) && Run(c, acts + more).Some?
    ensures var s := Run(c, acts + more).value;
            RefundedBy(s.a, c.onA.initiator) || RedeemedBy(s.b, c.onB.initiator)
  {
    hide Run, Sound, TermsOf, CanRefund, AllBy;
    var s := Run(c, acts).value;
    RunSimulates(c, acts);
    Two.InvReachable(c, Abstract(s));
    NoneYet(c, AsInitiator, acts);
    more := [];
    if s.a.phase.Locked? {
      more := Await(c, AsInitiator, acts, RefundFrom(TermsOf(s.a.lock)));
      var act := TakeBack1(c, acts, more, means);
      more := more + [act];
    }
  }

  // ---- Locks as the tools make them ----

  /**
   * How a tool locks funds: by a call in some state of the contract; by an output of a transaction;
   * or by setting up a fresh account and handing it over. With it goes what the parties then have.
   */
  datatype Setup =
    | EthSetup(ledger: Eth.Ledger, value: Eth.Word, first: bool)
    | BtcSetup(world: Btc.World, wallet: Btc.Wallet, f: Btc.Funding, index: nat, outScript: Bytes, fee: int, at: int)
    | StellarSetup(made: Stellar.Account, handed: Stellar.Account, net: StellarSwap.Ledger,
                   txHash: Stellar.Transaction -> Bytes)

  function RuleOf(x: Setup): Rule {
    if x.EthSetup? then ETH_RULE else if x.BtcSetup? then BTC_RULE else STELLAR_RULE
  }

  /** The call the first or the second party makes. */
  function Creation(x: Setup, owner: Party, recipient: Party, h: Eth.Bytes32, now: Eth.Word, period: Eth.Word): Eth.Call
    requires x.EthSetup?
  {
    var m := Eth.Msg(owner, x.value, now);
    if x.first then Eth.Initiate(m, period, h, recipient) else Eth.Participate(m, period, h, recipient)
  }

  /** What the tool needs to lock under these terms, and the parties to unlock. */
  ghost predicate Ready(sha: Hash, x: Setup, owner: Party, recipient: Party, h: Bytes, now: int, period: int) {
    match x
    case EthSetup(l, value, _) =>
      && |h| == 32 && 0 <= now && 0 < period && now + period < Eth.WORD && Eth.IsCreatable(l, h, value, period)
    case BtcSetup(w, wallet, f, index, _, fee, _) =>
      && |owner| == 20 && |recipient| == 20 && |h| == 32 && w.sha == sha
      && BtcEngine.LOCKTIME_THRESHOLD <= now + period < BtcTx.UINT32 && index < |f.outs| && index < BtcTx.UINT32
      && Btc.Holds(w, wallet, owner) && Btc.Holds(w, wallet, recipient) && 0 <= fee <= f.outs[index].value
      && var contract := ContractScript(owner, recipient, now + period, h);
         && BtcP2sh.SecondPreimageFree(w.hash160, contract)
         && f.outs[index].pkScript == Btc.PayToScriptHash(w.hash160(contract))
    case StellarSetup(a, b, l, txHash) =>
      && owner != [] && recipient != [] && owner != recipient && a.address !in {owner, recipient}
      && StellarSwap.IsFresh(a) && HashFree(txHash, StellarSwap.RefundTransaction(a, owner, now + period))
      && StellarSwap.HandedOver(a, b, recipient, h, txHash(StellarSwap.RefundTransaction(a, owner, now + period)))
      && a.address in l && owner in l && recipient in l && StellarSwap.Listed(b.balances, l[a.address].lines)
      && StellarSwap.CanDrain(l, a.address, owner) && StellarSwap.CanDrain(l, a.address, recipient)
  }

  ghost function LockOf(sha: Hash, x: Setup, owner: Party, recipient: Party, h: Bytes, now: int, period: int): Lock
    requires Ready(sha, x, owner, recipient, h, now, period)
  {
    match x
    case EthSetup(l, value, first) =>
      EthLock(h, Eth.Lookup(Eth.After(sha, l, Creation(x, owner, recipient, h, now, period)).swaps, h))
    case BtcSetup(w, _, f, index, _, _, _) =>
      BtcLock(w, owner, recipient, now + period, h, Coin(f.hash, index, f.outs[index].value))
    case StellarSetup(a, b, _, txHash) =>
      StellarLock(b, recipient, h, owner, StellarSwap.RefundTransaction(a, owner, now + period), txHash)
  }

  ghost function MeansOf(sha: Hash, x: Setup, owner: Party, recipient: Party, h: Bytes, now: int, period: int): Means
    requires Ready(sha, x, owner, recipient, h, now, period)
  {
    match x
    case EthSetup(l, value, first) => EthMeans(Eth.After(sha, l, Creation(x, owner, recipient, h, now, period)))
    case BtcSetup(_, wallet, f, index, outScript, fee, at) => BtcMeans(wallet, f, index, outScript, fee, at)
    case StellarSetup(_, _, l, _) => StellarMeans(l)
  }

  lemma {:induction false} StellarSetupOffers(
    sha: Hash, x: Setup, owner: Stellar.Address, recipient: Stellar.Address, h: Bytes, now: int, period: int)
    requires x.StellarSetup? && Ready(sha, x, owner, recipient, h, now, period)
    ensures var k := LockOf(sha, x, owner, recipient, h, now, period);
            var m := MeansOf(sha, x, owner, recipient, h, now, period);
            Sound(sha, k) && CanRedeem(k, m) && CanRefund(k, m)
  {
    hide StellarSwap.CanDrain, StellarSwap.HandedOver, StellarSwap.IsFresh, StellarSwap.Listed, StellarSwap.CreditOps;
    hide Stellar.Live, Stellar.Held;
    var a, b := x.made, x.handed;
    var refundTx := StellarSwap.RefundTransaction(a, owner, now + period);
    StellarSwap.HandedOverAudits(a, b, recipient, h, x.txHash(refundTx));
    HandedOverKeeps(a, b, recipient, h, x.txHash(refundTx));
    assert Destination(StellarSwap.RedeemTransaction(b, recipient)) == recipient && Destination(refundTx) == owner;
  }

  lemma {:induction false} EthSetupOffers(
    sha: Hash, x: Setup, owner: Party, recipient: Party, h: Bytes, now: int, period: int)
    requires x.EthSetup? && Ready(sha, x, owner, recipient, h, now, period)
    ensures var k := LockOf(sha, x, owner, recipient, h, now, period);
            var m := MeansOf(sha, x, owner, recipient, h, now, period);
            && Sound(sha, k) && TermsOf(k) == Terms(recipient, owner, h, now + period, ETH_RULE)
            && CanRedeem(k, m) && CanRefund(k, m)
  {
  }

  lemma {:induction false} BtcSetupOffers(
    sha: Hash, x: Setup, owner: Hash20, recipient: Hash20, h: Bytes, now: int, period: int)
    requires x.BtcSetup? && Ready(sha, x, owner, recipient, h, now, period)
    ensures var k := LockOf(sha, x, owner, recipient, h, now, period);
            var m := MeansOf(sha, x, owner, recipient, h, now, period);
            Sound(sha, k) && CanRedeem(k, m) && CanRefund(k, m)
  {
    hide ContractScript, BtcP2sh.SecondPreimageFree, Btc.Holds, Btc.PayToScriptHash;
  }

  /** Whichever chain it is on, what the tool locks is a sound lock with the terms asked for, open to both parties. */
  lemma {:induction false} SetupOffers(
    sha: Hash, x: Setup, owner: Party, recipient: Party, h: Bytes, now: int, period: int)
    requires Ready(sha, x, owner, recipient, h, now, period)
    ensures var k := LockOf(sha, x, owner, recipient, h, now, period);
            var m := MeansOf(sha, x, owner, recipient, h, now, period);
            && Sound(sha, k) && TermsOf(k) == Terms(recipient, owner, h, now + period, RuleOf(x))
            && CanRedeem(k, m) && CanRefund(k, m)
  {
    hide Sound, CanRedeem, CanRefund, MeansOf, Eth.IsCreatable, Eth.After, Btc.Holds, StellarSwap.CanDrain;
    hide StellarSwap.HandedOver, StellarSwap.IsFresh, StellarSwap.Listed, BtcP2sh.SecondPreimageFree, ContractScript;
    match x {
      case EthSetup(_, _, _) => EthSetupOffers(sha, x, owner, recipient, h, now, period);
      case BtcSetup(_, _, _, _, _, _, _) => BtcSetupOffers(sha, x, owner, recipient, h, now, period);
      case StellarSetup(_, _, _, _) => StellarSetupOffers(sha, x, owner, recipient, h, now, period);
    }
  }

  /**
   * The calls the Ethereum tool sends, with its own lock periods, make the first and the second lock
   * of the protocol.
   */
  lemma {:induction false} EthToolOffers(c: Two.Config, l: Eth.Ledger, m: Eth.Msg, other: Party)
    requires |c.secretHash| == 32 && m.value > 0 && Eth.Lookup(l.swaps, c.secretHash).state.Empty?
    requires m.now + EthClient.INITIATE_LOCK < Eth.WORD
    ensures var r := Eth.Exec(c.sha, l, Eth.Initiate(m, EthClient.INITIATE_LOCK, c.secretHash, other));
            c.ruleA == ETH_RULE && c.onA == Two.Names(m.sender, other) ==>
              r.Some? && Offers(c, EthLock(c.secretHash, Eth.Lookup(r.value.swaps, c.secretHash)), c.TermsA(m.now))
    ensures var r := Eth.Exec(c.sha, l, Eth.Participate(m, EthClient.PARTICIPATE_LOCK, c.secretHash, other));
            c.ruleB == ETH_RULE && c.onB == Two.Names(other, m.sender) ==>
              r.Some? && Offers(c, EthLock(c.secretHash, Eth.Lookup(r.value.swaps, c.secretHash)), c.TermsB(m.now))
  {
  }

  // ---- A swap between any two chains can be completed ----

  /** Four acts from the start, two of each party, end with each having what the other locked. */
  lemma {:induction false} Completes(c: Two.Config, ka: Lock, kb: Lock, ma: Means, mb: Means, secret: Bytes)
    returns (acts: seq<Act>)
    requires Offers(c, ka, c.TermsA(c.start)) && Offers(c, kb, c.TermsB(c.start)) && 0 <= c.start < Eth.WORD
    requires CanRedeem(ka, ma) && CanRedeem(kb, mb) && c.OpensA(secret) && c.OpensB(secret)
    ensures Run(c, acts).Some?
    ensures var s := Run(c, acts).value;
            RedeemedBy(s.a, c.onA.participant) && RedeemedBy(s.b, c.onB.initiator)
  {
    hide Sound, TermsOf, CanRedeem, Accepted, Reading;
    acts := [];
    assert Run(c, acts) == Some(Init(c));
    hide Run;
    RunMore(c, acts, Lock1(ka));
    acts := acts + [Lock1(ka)];
    RunMore(c, acts, Lock2(kb));
    acts := acts + [Lock2(kb)];
    var take2 := TakeFunds2(c, acts, mb, secret);
    acts := acts + [take2];
    var take1 := TakeFunds1(c, acts, ma, secret);
    acts := acts + [take1];
  }

  /**
   * For any two of the chains, nine pairs in all, and a secret both take: the tools lock on each as
   * the protocol asks, and from the start there is a run that ends with both locks redeemed.
   */
  lemma {:induction false} EveryPairCompletes(c: Two.Config, x: Setup, y: Setup, secret: Bytes) returns (acts: seq<Act>)
    requires c.ruleA == RuleOf(x) && c.ruleB == RuleOf(y) && 0 <= c.start < Eth.WORD
    requires Ready(c.sha, x, c.onA.initiator, c.onA.participant, c.secretHash, c.start, Two.INITIATOR_LOCK)
    requires Ready(c.sha, y, c.onB.participant, c.onB.initiator, c.secretHash, c.start, Two.PARTICIPANT_LOCK)
    requires c.OpensA(secret) && c.OpensB(secret)
    ensures Run(c, acts).Some?
    ensures var s := Run(c, acts).value;
            RedeemedBy(s.a, c.onA.participant) && RedeemedBy(s.b, c.onB.initiator)
  {
    hide Ready, LockOf, MeansOf, Run, Sound, TermsOf, CanRedeem, CanRefund;
    var o1, r1, o2, r2 := c.onA.initiator, c.onA.participant, c.onB.participant, c.onB.initiator;
    SetupOffers(c.sha, x, o1, r1, c.secretHash, c.start, Two.INITIATOR_LOCK);
    SetupOffers(c.sha, y, o2, r2, c.secretHash, c.start, Two.PARTICIPANT_LOCK);
    acts := Completes(c,
                      LockOf(c.sha, x, o1, r1, c.secretHash, c.start, Two.INITIATOR_LOCK),
                      LockOf(c.sha, y, o2, r2, c.secretHash, c.start, Two.PARTICIPANT_LOCK),
                      MeansOf(c.sha, x, o1, r1, c.secretHash, c.start, Two.INITIATOR_LOCK),
                      MeansOf(c.sha, y, o2, r2, c.secretHash, c.start, Two.PARTICIPANT_LOCK), secret);
  }
}
