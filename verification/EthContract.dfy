/**
 * The Solidity contract AtomicSwap: a mapping of swaps keyed by secret hash, driven by four
 * calls. Every call either takes effect as a whole or is reverted as a whole.
 */
module EthContract {
  import opened Bytes

  /** Solidity integers are taken modulo 2^256. */
  const WORD: int := 0x1_0000000000000000_0000000000000000_0000000000000000_0000000000000000

  type Word = x: int | 0 <= x < WORD

  const ZEROS: Bytes := [0, 0, 0, 0, 0, 0, 0, 0, 0, 0, 0, 0, 0, 0, 0, 0]

  type Bytes32 = b: Bytes | |b| == 32 witness ZEROS + ZEROS

  const ZERO32: Bytes32 := ZEROS + ZEROS
  const NOBODY: Party := ZEROS + [0, 0, 0, 0]

  datatype Kind = Initiator | Participant

  datatype Progress = Empty | Filled | Redeemed | Refunded

  datatype Swap = Swap(
    initTimestamp: Word, refundTime: Word, secretHash: Bytes32, secret: Bytes32,
    initiator: Party, participant: Party, value: Word, kind: Kind, state: Progress)
  {
    /** Who may redeem. */
    function Recipient(): Party { if kind.Participant? then initiator else participant }

    /** Who may refund. */
    function Owner(): Party { if kind.Participant? then participant else initiator }

    /** The sum the refund guard compares the block time with: it wraps around. */
    function Deadline(): Word { (initTimestamp + refundTime) % WORD }

    predicate PastDeadline(now: Word) { now > Deadline() }

    function Close(end: Progress, secret: Bytes32): Swap {
      Swap(initTimestamp, refundTime, secretHash, secret, initiator, participant, value, kind, end)
    }
  }

  /** What the mapping holds for a key that was never written. */
  const NO_SWAP: Swap := Swap(0, 0, ZERO32, ZERO32, NOBODY, NOBODY, 0, Initiator, Empty)

  datatype Event =
    | EmitInitiated(
        initTimestamp: Word, refundTime: Word, secretHash: Bytes32, initiator: Party, participant: Party, value: Word)
    | EmitParticipated(
        initTimestamp: Word, refundTime: Word, secretHash: Bytes32, initiator: Party, participant: Party, value: Word)
    | EmitRedeemed(time: Word, secretHash: Bytes32, secret: Bytes32, who: Party, value: Word)
    | EmitRefunded(time: Word, secretHash: Bytes32, who: Party, value: Word)

  /** The sender, the ether sent along, and the timestamp of the block. */
  datatype Msg = Msg(sender: Party, value: Word, now: Word)

  /**
   * The four public functions. `takes` says whether the sender's account accepts a transfer.
   * Gift is ether forced on the contract without a call, which no contract can refuse.
   */
  datatype Call =
    | Initiate(msg: Msg, refundTime: Word, secretHash: Bytes32, participant: Party)
    | Participate(msg: Msg, refundTime: Word, secretHash: Bytes32, initiator: Party)
    | Redeem(msg: Msg, secret: Bytes32, secretHash: Bytes32, takes: bool)
    | Refund(msg: Msg, secretHash: Bytes32, takes: bool)
    | Gift(amount: nat)

  datatype Ledger = Ledger(swaps: map<Bytes32, Swap>, balance: nat, log: seq<Event>)

  const GENESIS: Ledger := Ledger(map[], 0, [])

  function Lookup(swaps: map<Bytes32, Swap>, h: Bytes32): Swap {
    if h in swaps then swaps[h] else NO_SWAP
  }

  predicate IsCreatable(l: Ledger, h: Bytes32, value: Word, refundTime: Word) {
    value > 0 && refundTime > 0 && Lookup(l.swaps, h).state.Empty?
  }

  predicate IsRedeemable(sha: Hash, l: Ledger, h: Bytes32, secret: Bytes32, who: Party) {
    var sw := Lookup(l.swaps, h);
    sw.state.Filled? && sw.Recipient() == who && sha(secret) == h
  }

  predicate IsRefundable(l: Ledger, h: Bytes32, who: Party, now: Word) {
    var sw := Lookup(l.swaps, h);
    sw.state.Filled? && sw.Owner() == who && sw.PastDeadline(now)
  }

  function Create(l: Ledger, sw: Swap): Ledger {
    var e :=
      if sw.kind.Initiator?
      then EmitInitiated(sw.initTimestamp, sw.refundTime, sw.secretHash, sw.initiator, sw.participant, sw.value)
      else EmitParticipated(sw.initTimestamp, sw.refundTime, sw.secretHash, sw.initiator, sw.participant, sw.value);
    Ledger(l.swaps[sw.secretHash := sw], l.balance + sw.value, l.log + [e])
  }

  function PayOut(l: Ledger, h: Bytes32, sw: Swap, e: Event): Ledger
    requires sw.value <= l.balance
  {
    Ledger(l.swaps[h := sw], l.balance - sw.value, l.log + [e])
  }

  /** The effect of one call; None when it is reverted. */
  function Exec(sha: Hash, l: Ledger, c: Call): Option<Ledger> {
    match c
    case Initiate(m, refundTime, h, participant) =>
      var secret := Lookup(l.swaps, h).secret;
      if IsCreatable(l, h, m.value, refundTime)
      then Some(Create(l, Swap(m.now, refundTime, h, secret, m.sender, participant, m.value, Initiator, Filled)))
      else None
    case Participate(m, refundTime, h, initiator) =>
      var secret := Lookup(l.swaps, h).secret;
      if IsCreatable(l, h, m.value, refundTime)
      then Some(Create(l, Swap(m.now, refundTime, h, secret, initiator, m.sender, m.value, Participant, Filled)))
      else None
    case Redeem(m, secret, h, takes) =>
      var sw := Lookup(l.swaps, h);
      if m.value == 0 && IsRedeemable(sha, l, h, secret, m.sender) && takes && sw.value <= l.balance
      then
        var e := EmitRedeemed(m.now, sw.secretHash, secret, m.sender, sw.value);
        Some(PayOut(l, h, sw.Close(Redeemed, secret), e))
      else None
    case Refund(m, h, takes) =>
      var sw := Lookup(l.swaps, h);
      if m.value == 0 && IsRefundable(l, h, m.sender, m.now) && takes && sw.value <= l.balance
      then Some(PayOut(l, h, sw.Close(Refunded, sw.secret), EmitRefunded(m.now, sw.secretHash, m.sender, sw.value)))
      else None
    case Gift(amount) => Some(Ledger(l.swaps, l.balance + amount, l.log))
  }

  function After(sha: Hash, l: Ledger, c: Call): Ledger {
    match Exec(sha, l, c)
    case Some(l') => l'
    case None => l
  }

  /** The contract itself, with its storage, its balance and what it has logged. */
  class AtomicSwap {
    const sha: Hash
    var swaps: map<Bytes32, Swap>
    var balance: nat
    var log: seq<Event>

    function View(): Ledger
      reads this
    {
      Ledger(swaps, balance, log)
    }

    constructor (sha: Hash)
      ensures this.sha == sha && View() == GENESIS
    {
      this.sha := sha;
      swaps, balance, log := map[], 0, [];
    }

    method InitiateSwap(m: Msg, refundTime: Word, h: Bytes32, participant: Party) returns (ok: bool)
      modifies this
      ensures ok == (m.value > 0 && refundTime > 0 && Lookup(old(swaps), h).state.Empty?)
      ensures ok ==>
                && balance == old(balance) + m.value
                && log == old(log) + [EmitInitiated(m.now, refundTime, h, m.sender, participant, m.value)]
                && swaps == old(swaps)[h := Swap(m.now, refundTime, h, Lookup(old(swaps), h).secret,
                                                 m.sender, participant, m.value, Initiator, Filled)]
      ensures View() == After(sha, old(View()), Initiate(m, refundTime, h, participant))
    {
      ok := m.value > 0 && refundTime > 0 && Lookup(swaps, h).state.Empty?;
      if !ok { return; }
      balance := balance + m.value;
      var sw := Lookup(swaps, h).(initTimestamp := m.now);
      sw := sw.(refundTime := refundTime);
      sw := sw.(secretHash := h);
      sw := sw.(initiator := m.sender);
      sw := sw.(participant := participant);
      sw := sw.(value := m.value);
      sw := sw.(kind := Initiator);
      sw := sw.(state := Filled);
      swaps := swaps[h := sw];
      log := log + [EmitInitiated(m.now, refundTime, h, m.sender, participant, m.value)];
    }

    method ParticipateSwap(m: Msg, refundTime: Word, h: Bytes32, initiator: Party) returns (ok: bool)
      modifies this
      ensures ok == (m.value > 0 && refundTime > 0 && Lookup(old(swaps), h).state.Empty?)
      ensures ok ==>
                && balance == old(balance) + m.value
                && log == old(log) + [EmitParticipated(m.now, refundTime, h, initiator, m.sender, m.value)]
                && swaps == old(swaps)[h := Swap(m.now, refundTime, h, Lookup(old(swaps), h).secret,
                                                 initiator, m.sender, m.value, Participant, Filled)]
      ensures View() == After(sha, old(View()), Participate(m, refundTime, h, initiator))
    {
      ok := m.value > 0 && refundTime > 0 && Lookup(swaps, h).state.Empty?;
      if !ok { return; }
      balance := balance + m.value;
      var sw := Lookup(swaps, h).(initTimestamp := m.now);
      sw := sw.(refundTime := refundTime);
      sw := sw.(secretHash := h);
      sw := sw.(initiator := initiator);
      sw := sw.(participant := m.sender);
      sw := sw.(value := m.value);
      sw := sw.(kind := Participant);
      sw := sw.(state := Filled);
      swaps := swaps[h := sw];
      log := log + [EmitParticipated(m.now, refundTime, h, initiator, m.sender, m.value)];
    }

    method RedeemSwap(m: Msg, secret: Bytes32, h: Bytes32, takes: bool) returns (ok: bool)
      modifies this
      ensures var sw := Lookup(old(swaps), h);
              && ok == (&& m.value == 0 && sw.state.Filled? && sha(secret) == h && takes && sw.value <= old(balance)
                        && m.sender == if sw.kind.Participant? then sw.initiator else sw.participant)
              && (ok ==>
                    && balance == old(balance) - sw.value
                    && log == old(log) + [EmitRedeemed(m.now, sw.secretHash, secret, m.sender, sw.value)]
                    && swaps == old(swaps)[h := sw.(state := Redeemed, secret := secret)])
      ensures View() == After(sha, old(View()), Redeem(m, secret, h, takes))
    {
      var sw := Lookup(swaps, h);
      ok := m.value == 0 && sw.state.Filled?;
      if sw.kind.Participant? {
        ok := ok && sw.initiator == m.sender;
      } else {
        ok := ok && sw.participant == m.sender;
      }
      ok := ok && sha(secret) == h && takes && sw.value <= balance;
      if !ok { return; }
      balance := balance - sw.value;
      sw := sw.(state := Redeemed);
      sw := sw.(secret := secret);
      swaps := swaps[h := sw];
      log := log + [EmitRedeemed(m.now, sw.secretHash, sw.secret, m.sender, sw.value)];
    }

    method RefundSwap(m: Msg, h: Bytes32, takes: bool) returns (ok: bool)
      modifies this
      ensures var sw := Lookup(old(swaps), h);
              && ok == (&& m.value == 0 && sw.state.Filled? && takes && sw.value <= old(balance)
                        && m.now > (sw.initTimestamp + sw.refundTime) % WORD
                        && m.sender == if sw.kind.Participant? then sw.participant else sw.initiator)
              && (ok ==>
                    && balance == old(balance) - sw.value
                    && log == old(log) + [EmitRefunded(m.now, sw.secretHash, m.sender, sw.value)]
                    && swaps == old(swaps)[h := sw.(state := Refunded)])
      ensures View() == After(sha, old(View()), Refund(m, h, takes))
    {
      var sw := Lookup(swaps, h);
      ok := m.value == 0 && sw.state.Filled?;
      if sw.kind.Participant? {
        ok := ok && sw.participant == m.sender;
      } else {
        ok := ok && sw.initiator == m.sender;
      }
      var preRefundTimestamp := sw.initTimestamp;
      preRefundTimestamp := (preRefundTimestamp + sw.refundTime) % WORD;
      ok := ok && m.now > preRefundTimestamp && takes && sw.value <= balance;
      if !ok { return; }
      balance := balance - sw.value;
      sw := sw.(state := Refunded);
      swaps := swaps[h := sw];
      log := log + [EmitRefunded(m.now, sw.secretHash, m.sender, sw.value)];
    }
  }
}
