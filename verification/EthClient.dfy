/** The checks the Ethereum tool makes before it sends a call, against the contract's own. */
module EthClient {
  import opened Bytes
  import opened EthContract
  import opened EthRuns
  import EthAmount

  const INITIATE_LOCK: Word := 48 * 60 * 60
  const PARTICIPATE_LOCK: Word := 24 * 60 * 60

  const SECOND: int := 1_000_000_000

  /** Seconds from the zero of Go's time values to the Unix epoch. */
  const UNIX_TO_INTERNAL: int := 62_135_596_800

  /** The difference of two times in nanoseconds, held to what a duration can express. */
  function Saturate(ns: int): int {
    if ns >= INT64 then INT64 - 1 else if ns < -INT64 then -INT64 else ns
  }

  /** Rounding a duration toward zero to whole seconds. */
  function Truncate(ns: int): int {
    if ns >= 0 then ns - ns % SECOND else -(-ns - -ns % SECOND)
  }

  /** The time left until a Unix time in seconds, seen at `clock` nanoseconds after the epoch. */
  function TimeUntil(lockTime: int, clock: nat): int {
    var internal := Int64(lockTime + UNIX_TO_INTERNAL);
    Truncate(Saturate((internal - UNIX_TO_INTERNAL) * SECOND - clock))
  }

  // ---- When each command goes on to send its transaction ----

  predicate CreateProceeds(l: Ledger, h: Bytes32) {
    Lookup(l.swaps, h).state.Empty?
  }

  predicate RedeemProceeds(sha: Hash, l: Ledger, h: Bytes32, secret: Bytes32, from: Party) {
    var sc := Lookup(l.swaps, h);
    && !sc.state.Empty?
    && sc.secretHash == h
    && sc.secretHash == sha(secret)
    && (match sc.kind
        case Initiator => sc.participant == from
        case Participant => sc.initiator == from)
    && sc.state.Filled?
  }

  predicate RefundProceeds(l: Ledger, h: Bytes32, from: Party, clock: nat) {
    var sc := Lookup(l.swaps, h);
    && !sc.state.Empty?
    && sc.secretHash == h
    && (match sc.kind
        case Initiator => sc.initiator == from
        case Participant => sc.participant == from)
    && sc.state.Filled?
    && TimeUntil(Seen(sc), clock) < 0
  }

  /** The deadline as the tool computes it, in 64 bits. */
  function Seen(sw: Swap): int { Int64(Int64(sw.initTimestamp) + Int64(sw.refundTime)) }

  // ---- They agree with the contract ----

  lemma {:induction false} RedeemPrecheckExact(sha: Hash, calls: seq<Call>, h: Bytes32, secret: Bytes32, from: Party)
    ensures var l := Run(sha, GENESIS, calls);
            RedeemProceeds(sha, l, h, secret, from) <==> IsRedeemable(sha, l, h, secret, from)
  {
    InvRun(sha, calls);
  }

  /** Times from here on wrap around to long before the epoch. */
  const LATEST: int := INT64 - UNIX_TO_INTERNAL

  /** Past the deadline by a full second on the local clock is past it in whole seconds. */
  lemma TimeUntilSign(lockTime: int, clock: nat)
    requires -INT64 <= lockTime < INT64
    ensures TimeUntil(lockTime, clock) < 0 <==> lockTime >= LATEST || clock / SECOND > lockTime
  {
    if lockTime >= LATEST {
      assert Int64(lockTime + UNIX_TO_INTERNAL) == lockTime + UNIX_TO_INTERNAL - 2 * INT64;
    } else {
      var left := lockTime * SECOND - clock;
      assert Int64(lockTime + UNIX_TO_INTERNAL) == lockTime + UNIX_TO_INTERNAL;
      assert Truncate(left) < 0 <==> left <= -SECOND;
    }
  }

  /** The last deadline the tool's clock can still show as ahead. */
  function Capped(t: int): int { if t < LATEST then t else LATEST - 1 }

  /** The tool and the contract agree on whether this is past the deadline. */
  predicate Agree(sw: Swap, clock: nat) {
    TimeUntil(Seen(sw), clock) < 0 <==> sw.Deadline() < clock / SECOND
  }

  lemma {:induction false} AgreeOrNot(sw: Swap, clock: nat)
    requires clock / SECOND < LATEST
    ensures Agree(sw, clock) <==>
            (Seen(sw) >= LATEST || clock / SECOND > Seen(sw) <==> Capped(sw.Deadline()) < clock / SECOND)
  {
    hide TimeUntil;
    TimeUntilSign(Seen(sw), clock);
  }

  lemma {:induction false} Disagreement(sw: Swap) returns (clock: nat)
    requires Seen(sw) != Capped(sw.Deadline())
    ensures clock / SECOND < LATEST && !Agree(sw, clock)
  {
    hide Agree, Seen;
    var seen, due := Seen(sw), Capped(sw.Deadline());
    var t := if seen >= LATEST || seen < 0 then 0 else if seen < due then seen + 1 else due + 1;
    clock := t * SECOND;
    AgreeOrNot(sw, clock);
  }

  /** For any sender and in any state of the swap, the tool's checks are the contract's but for the time. */
  lemma {:induction false} RefundChecks(sha: Hash, calls: seq<Call>, h: Bytes32, from: Party, clock: nat)
    requires clock / SECOND < LATEST
    ensures var l := Run(sha, GENESIS, calls);
            var sw := Lookup(l.swaps, h);
            && (RefundProceeds(l, h, from, clock) ==> sw.state.Filled? && from == sw.Owner())
            && (Agree(sw, clock) ==>
                  (RefundProceeds(l, h, from, clock) <==> IsRefundable(l, h, from, clock / SECOND)))
            && (sw.state.Filled? && from == sw.Owner() && !Agree(sw, clock) ==>
                  (RefundProceeds(l, h, from, clock) <==> !IsRefundable(l, h, from, clock / SECOND)))
  {
    hide Run, TimeUntil, Seen;
    InvRun(sha, calls);
  }

  /**
   * Whoever sends it and whatever has become of the swap: if the deadline the tool computes is the
   * contract's own, capped at what the tool's clock can show, the tool goes on to refund exactly
   * when the contract lets it.
   */
  lemma {:induction false} RefundPrecheck(sha: Hash, calls: seq<Call>, h: Bytes32, from: Party, clock: nat)
    requires clock / SECOND < LATEST
    requires var sw := Lookup(Run(sha, GENESIS, calls).swaps, h); Seen(sw) == Capped(sw.Deadline())
    ensures var l := Run(sha, GENESIS, calls);
            RefundProceeds(l, h, from, clock) <==> IsRefundable(l, h, from, clock / SECOND)
  {
    hide Run, Agree, Seen, Capped;
    RefundChecks(sha, calls, h, from, clock);
    Agreement(Lookup(Run(sha, GENESIS, calls).swaps, h), clock);
  }

  /** And for a swap that is open they agree at every moment and for every sender only if it is. */
  lemma {:induction false} RefundPrecheckExact(sha: Hash, calls: seq<Call>, h: Bytes32)
    requires Lookup(Run(sha, GENESIS, calls).swaps, h).state.Filled?
    ensures var l := Run(sha, GENESIS, calls);
            var sw := Lookup(l.swaps, h);
            (forall from: Party, clock: nat :: clock / SECOND < LATEST ==>
               (RefundProceeds(l, h, from, clock) <==> IsRefundable(l, h, from, clock / SECOND)))
            <==> Seen(sw) == Capped(sw.Deadline())
  {
    hide Run, TimeUntil, Seen, Capped, RefundProceeds, IsRefundable;
    var l := Run(sha, GENESIS, calls);
    var sw := Lookup(l.swaps, h);
    if Seen(sw) == Capped(sw.Deadline()) {
      forall from: Party, clock: nat | clock / SECOND < LATEST
        ensures RefundProceeds(l, h, from, clock) <==> IsRefundable(l, h, from, clock / SECOND)
      {
        RefundPrecheck(sha, calls, h, from, clock);
      }
    } else {
      var clock := Disagreement(sw);
      RefundChecks(sha, calls, h, sw.Owner(), clock);
    }
  }

  lemma {:induction false} Agreement(sw: Swap, clock: nat)
    requires Seen(sw) == Capped(sw.Deadline()) && clock / SECOND < LATEST
    ensures Agree(sw, clock)
  {
    hide Agree, Seen;
    AgreeOrNot(sw, clock);
  }

  lemma Int64Fits(i: int)
    ensures -INT64 <= i < INT64 ==> Int64(i) == i
  {
  }

  lemma Int64Wraps()
    ensures Int64(2 * INT64) == 0
  {
  }

  lemma DeadlineFits(sw: Swap)
    ensures sw.initTimestamp + sw.refundTime < WORD ==> sw.Deadline() == sw.initTimestamp + sw.refundTime
  {
  }

  /** As it is for every lock time the tool itself sets, and is not for a lock of 2^64 seconds. */
  lemma {:induction false} PrecheckDeadlines(sw: Swap)
    ensures sw.initTimestamp + sw.refundTime < LATEST ==> Seen(sw) == Capped(sw.Deadline())
    ensures sw.initTimestamp < LATEST - 1 && sw.refundTime == 2 * INT64 ==> Seen(sw) != Capped(sw.Deadline())
  {
    hide Int64, Swap.Deadline;
    Int64Fits(sw.initTimestamp);
    Int64Fits(sw.refundTime);
    Int64Fits(sw.initTimestamp + sw.refundTime);
    Int64Wraps();
    DeadlineFits(sw);
  }

  /** Every amount the parser accepts passes the creation guards on an unused hash, and only there. */
  lemma {:induction false} CreatePrecheckExact(l: Ledger, h: Bytes32, text: string)
    requires EthAmount.Parse(text).Some? && EthAmount.Parse(text).value < WORD
    ensures CreateProceeds(l, h) <==> IsCreatable(l, h, EthAmount.Parse(text).value, INITIATE_LOCK)
    ensures CreateProceeds(l, h) <==> IsCreatable(l, h, EthAmount.Parse(text).value, PARTICIPATE_LOCK)
  {
    EthAmount.ParsePositive(text);
  }
}
