/** What holds of the Solidity contract after any calls by anybody. */
module EthRuns {
  import opened Bytes
  import opened EthContract

  /** The contract's state after a sequence of calls, reverted ones included. */
  function Run(sha: Hash, l: Ledger, calls: seq<Call>): Ledger {
    if calls == [] then l else After(sha, Run(sha, l, calls[..|calls| - 1]), calls[|calls| - 1])
  }

  /** Ether forced on the contract. */
  function Gifts(calls: seq<Call>): nat {
    if calls == [] then 0
    else
      var c := calls[|calls| - 1];
      Gifts(calls[..|calls| - 1]) + if c.Gift? then c.amount else 0
  }

  /** What an accepted creation brings in: the ether sent along with it. */
  function Brought(sha: Hash, l: Ledger, c: Call): nat {
    if (c.Initiate? || c.Participate?) && Exec(sha, l, c).Some? then c.msg.value else 0
  }

  /** What the accepted creations of a run have brought in, read off the calls alone. */
  function Sent(sha: Hash, calls: seq<Call>): nat {
    if calls == [] then 0
    else
      var n := |calls| - 1;
      Sent(sha, calls[..n]) + Brought(sha, Run(sha, GENESIS, calls[..n]), calls[n])
  }

  // ---- The log read on its own ----

  /** The storage that the events describe. */
  function Replay(log: seq<Event>): map<Bytes32, Swap> {
    if log == [] then map[]
    else
      var before, e := Replay(log[..|log| - 1]), log[|log| - 1];
      match e
      case EmitInitiated(t, d, h, i, p, v) => before[h := Swap(t, d, h, ZERO32, i, p, v, Initiator, Filled)]
      case EmitParticipated(t, d, h, i, p, v) => before[h := Swap(t, d, h, ZERO32, i, p, v, Participant, Filled)]
      case EmitRedeemed(_, h, secret, _, _) => before[h := Lookup(before, h).Close(Redeemed, secret)]
      case EmitRefunded(_, h, _, _) => before[h := Lookup(before, h).Close(Refunded, ZERO32)]
  }

  function Deposited(log: seq<Event>): nat {
    if log == [] then 0
    else
      var e := log[|log| - 1];
      Deposited(log[..|log| - 1]) + if e.EmitInitiated? || e.EmitParticipated? then e.value else 0
  }

  function PaidOut(log: seq<Event>): nat {
    if log == [] then 0
    else
      var e := log[|log| - 1];
      PaidOut(log[..|log| - 1]) + if e.EmitRedeemed? || e.EmitRefunded? then e.value else 0
  }

  /** The events about one secret hash. */
  function History(log: seq<Event>, h: Bytes32): seq<Event> {
    if log == [] then []
    else
      var e := log[|log| - 1];
      History(log[..|log| - 1], h) + if e.secretHash == h then [e] else []
  }

  /** The value of the swaps that are still open, over a set of keys. */
  ghost function Locked(swaps: map<Bytes32, Swap>, keys: set<Bytes32>): nat
    requires keys <= swaps.Keys
  {
    if keys == {} then 0
    else
      var h :| h in keys;
      Held(swaps[h]) + Locked(swaps, keys - {h})
  }

  function Held(sw: Swap): nat {
    if sw.state.Filled? then sw.value else 0
  }

  // ---- What one entry may look like, and how it may change ----

  predicate Good(sha: Hash, h: Bytes32, sw: Swap) {
    && !sw.state.Empty? && sw.secretHash == h
    && sw.value > 0 && sw.refundTime > 0
    && (if sw.state.Redeemed? then sha(sw.secret) == h else sw.secret == ZERO32)
  }

  /** Nothing about a swap changes after creation but its state, once, and the secret with it. */
  predicate Follows(old_: Swap, new_: Swap) {
    match old_.state
    case Empty => true
    case Filled =>
      || new_ == old_
      || new_ == old_.Close(Redeemed, new_.secret)
      || new_ == old_.Close(Refunded, old_.secret)
    case _ => new_ == old_
  }

  function Creation(sw: Swap): Event {
    if sw.kind.Initiator?
    then EmitInitiated(sw.initTimestamp, sw.refundTime, sw.secretHash, sw.initiator, sw.participant, sw.value)
    else EmitParticipated(sw.initTimestamp, sw.refundTime, sw.secretHash, sw.initiator, sw.participant, sw.value)
  }

  /** The events about a swap: one creation, then at most one payout, to the right party. */
  predicate Told(sw: Swap, events: seq<Event>) {
    match sw.state
    case Empty => events == []
    case Filled => events == [Creation(sw)]
    case Redeemed =>
      && |events| == 2 && events[0] == Creation(sw)
      && events[1].EmitRedeemed?
      && events[1] == EmitRedeemed(events[1].time, sw.secretHash, sw.secret, sw.Recipient(), sw.value)
    case Refunded =>
      && |events| == 2 && events[0] == Creation(sw)
      && events[1].EmitRefunded?
      && events[1] == EmitRefunded(events[1].time, sw.secretHash, sw.Owner(), sw.value)
      && sw.PastDeadline(events[1].time)
  }

  ghost predicate Inv(sha: Hash, l: Ledger) {
    && (forall h :: h in l.swaps ==> Good(sha, h, l.swaps[h]))
    && (forall h :: Told(Lookup(l.swaps, h), History(l.log, h)))
    && Replay(l.log) == l.swaps
  }

  // ---- One call ----

  lemma LogStep(log: seq<Event>, e: Event)
    ensures (log + [e])[..|log|] == log && (log + [e])[|log|] == e
  {
  }

  /** A write that its own event describes keeps the invariant. */
  lemma WriteKeeps(sha: Hash, l: Ledger, sw: Swap, e: Event, balance: nat)
    requires Inv(sha, l) && Good(sha, sw.secretHash, sw) && e.secretHash == sw.secretHash
    requires Told(sw, History(l.log, e.secretHash) + [e])
    requires Replay(l.log + [e]) == Replay(l.log)[sw.secretHash := sw]
    ensures Inv(sha, Ledger(l.swaps[sw.secretHash := sw], balance, l.log + [e]))
  {
    LogStep(l.log, e);
    var l' := Ledger(l.swaps[sw.secretHash := sw], balance, l.log + [e]);
    forall h ensures Told(Lookup(l'.swaps, h), History(l'.log, h)) {
      assert Told(Lookup(l.swaps, h), History(l.log, h));
    }
  }

  lemma CreateKeeps(sha: Hash, l: Ledger, sw: Swap)
    requires Inv(sha, l) && Lookup(l.swaps, sw.secretHash).state.Empty?
    requires Good(sha, sw.secretHash, sw) && sw.state.Filled?
    ensures Inv(sha, Create(l, sw))
  {
    LogStep(l.log, Creation(sw));
    WriteKeeps(sha, l, sw, Creation(sw), l.balance + sw.value);
  }

  lemma PayKeeps(sha: Hash, l: Ledger, h: Bytes32, sw: Swap, e: Event)
    requires Inv(sha, l) && Lookup(l.swaps, h).state.Filled? && sw.value <= l.balance
    requires sw.state.Redeemed? || sw.state.Refunded?
    requires sw == Lookup(l.swaps, h).Close(sw.state, sw.secret) && Good(sha, h, sw)
    requires if sw.state.Redeemed?
             then e.EmitRedeemed? && e == EmitRedeemed(e.time, h, sw.secret, sw.Recipient(), sw.value)
             else e.EmitRefunded? && e == EmitRefunded(e.time, h, sw.Owner(), sw.value) && sw.PastDeadline(e.time)
    ensures Inv(sha, PayOut(l, h, sw, e))
  {
    LogStep(l.log, e);
    assert Told(Lookup(l.swaps, h), History(l.log, h));
    WriteKeeps(sha, l, sw, e, l.balance - sw.value);
  }

  lemma InvStep(sha: Hash, l: Ledger, c: Call)
    requires Inv(sha, l)
    ensures Inv(sha, After(sha, l, c))
  {
    if Exec(sha, l, c).Some? {
      match c
      case Initiate(m, refundTime, h, participant) =>
        CreateKeeps(sha, l, Swap(m.now, refundTime, h, ZERO32, m.sender, participant, m.value, Initiator, Filled));
      case Participate(m, refundTime, h, initiator) =>
        CreateKeeps(sha, l, Swap(m.now, refundTime, h, ZERO32, initiator, m.sender, m.value, Participant, Filled));
      case Redeem(m, secret, h, _) =>
        var sw := Lookup(l.swaps, h);
        PayKeeps(sha, l, h, sw.Close(Redeemed, secret), EmitRedeemed(m.now, h, secret, m.sender, sw.value));
      case Refund(m, h, _) =>
        var sw := Lookup(l.swaps, h);
        PayKeeps(sha, l, h, sw.Close(Refunded, sw.secret), EmitRefunded(m.now, h, m.sender, sw.value));
      case Gift(_) =>
    }
  }

  lemma FollowsStep(sha: Hash, l: Ledger, c: Call, h: Bytes32)
    ensures Follows(Lookup(l.swaps, h), Lookup(After(sha, l, c).swaps, h))
  {
  }

  lemma LockedPick(swaps: map<Bytes32, Swap>, keys: set<Bytes32>, h: Bytes32)
    requires h in keys && keys <= swaps.Keys
    ensures Locked(swaps, keys) == Held(swaps[h]) + Locked(swaps, keys - {h})
  {
    var k :| k in keys && Locked(swaps, keys) == Held(swaps[k]) + Locked(swaps, keys - {k});
    if k != h {
      LockedPick(swaps, keys - {k}, h);
      LockedPick(swaps, keys - {h}, k);
      assert keys - {k} - {h} == keys - {h} - {k};
    }
  }

  lemma LockedSame(swaps: map<Bytes32, Swap>, swaps': map<Bytes32, Swap>, keys: set<Bytes32>)
    requires keys <= swaps.Keys && keys <= swaps'.Keys
    requires forall h :: h in keys ==> swaps[h] == swaps'[h]
    ensures Locked(swaps, keys) == Locked(swaps', keys)
  {
    if keys != {} {
      var h :| h in keys;
      LockedPick(swaps, keys, h);
      LockedPick(swaps', keys, h);
      LockedSame(swaps, swaps', keys - {h});
    }
  }

  /** Writing one entry changes the locked total by the change of that entry. */
  lemma LockedWrite(swaps: map<Bytes32, Swap>, h: Bytes32, sw: Swap)
    ensures Locked(swaps[h := sw], swaps[h := sw].Keys) + Held(Lookup(swaps, h))
            == Locked(swaps, swaps.Keys) + Held(sw)
  {
    var swaps' := swaps[h := sw];
    LockedPick(swaps', swaps'.Keys, h);
    assert swaps'.Keys - {h} == swaps.Keys - {h};
    LockedSame(swaps, swaps', swaps.Keys - {h});
    if h in swaps {
      LockedPick(swaps, swaps.Keys, h);
    } else {
      assert swaps.Keys - {h} == swaps.Keys;
    }
  }

  lemma BooksStep(sha: Hash, l: Ledger, c: Call)
    requires Inv(sha, l)
    ensures var l' := After(sha, l, c);
            var gift := if c.Gift? then c.amount else 0;
            && l'.balance + Locked(l.swaps, l.swaps.Keys) == l.balance + Locked(l'.swaps, l'.swaps.Keys) + gift
            && l'.balance + PaidOut(l'.log) == l.balance + PaidOut(l.log) + Brought(sha, l, c) + gift
            && Deposited(l'.log) == Deposited(l.log) + Brought(sha, l, c)
  {
    var l' := After(sha, l, c);
    if Exec(sha, l, c).Some? && !c.Gift? {
      LockedWrite(l.swaps, c.secretHash, l'.swaps[c.secretHash]);
      LogStep(l.log, l'.log[|l.log|]);
    }
  }

  // ---- Every run ----

  lemma {:induction false} InvRun(sha: Hash, calls: seq<Call>)
    ensures Inv(sha, Run(sha, GENESIS, calls))
  {
    if calls != [] {
      InvRun(sha, calls[..|calls| - 1]);
      InvStep(sha, Run(sha, GENESIS, calls[..|calls| - 1]), calls[|calls| - 1]);
    }
  }

  /**
   * What a creation stores is what was sent: for either call the entry has the sender's ether, the
   * block's time, the lock period and the parties of the call, and the balance grows by that ether.
   * It is accepted exactly on an unused hash with ether and a lock period.
   */
  lemma {:induction false} CreationExact(
    sha: Hash, calls: seq<Call>, m: Msg, refundTime: Word, h: Bytes32, other: Party, first: bool)
    ensures var c := if first then Initiate(m, refundTime, h, other) else Participate(m, refundTime, h, other);
            var l := Run(sha, GENESIS, calls);
            var r := Exec(sha, l, c);
            && (r.Some? <==> m.value > 0 && refundTime > 0 && h !in l.swaps)
            && (r.Some? ==>
                  var sw := Lookup(r.value.swaps, h);
                  && r.value.balance == l.balance + m.value && r.value.swaps == l.swaps[h := sw]
                  && sw.value == m.value && sw.initTimestamp == m.now && sw.refundTime == refundTime
                  && sw.secretHash == h && sw.secret == ZERO32 && sw.state == Filled
                  && (if first then sw.kind == Initiator && sw.initiator == m.sender && sw.participant == other
                      else sw.kind == Participant && sw.participant == m.sender && sw.initiator == other)
                  && r.value.log == l.log + [Creation(sw)])
  {
    InvRun(sha, calls);
  }

  /**
   * Conservation: after any calls by anybody the balance is the value of the open swaps. With what
   * the events say went out it is the ether sent along with the accepted creations, which is also
   * what the events say came in. Ether forced on the contract comes on top.
   */
  lemma {:induction false} Conservation(sha: Hash, calls: seq<Call>)
    ensures var l := Run(sha, GENESIS, calls);
            && l.balance == Locked(l.swaps, l.swaps.Keys) + Gifts(calls)
            && l.balance + PaidOut(l.log) == Sent(sha, calls) + Gifts(calls)
            && Deposited(l.log) == Sent(sha, calls)
  {
    if calls != [] {
      var before := calls[..|calls| - 1];
      Conservation(sha, before);
      InvRun(sha, before);
      BooksStep(sha, Run(sha, GENESIS, before), calls[|calls| - 1]);
    }
  }

  /** The log is faithful: replaying it rebuilds the whole storage, and nothing else. */
  lemma LogFaithful(sha: Hash, calls: seq<Call>)
    ensures Replay(Run(sha, GENESIS, calls).log) == Run(sha, GENESIS, calls).swaps
  {
    InvRun(sha, calls);
  }

  lemma {:induction false} RunAppend(sha: Hash, l: Ledger, calls: seq<Call>, more: seq<Call>)
    ensures Run(sha, l, calls + more) == Run(sha, Run(sha, l, calls), more)
  {
    hide After;
    if more == [] {
      assert calls + more == calls;
    } else {
      var n := |more| - 1;
      assert (calls + more)[..|calls| + n] == calls + more[..n];
      RunAppend(sha, l, calls, more[..n]);
    }
  }

  lemma {:induction false} FollowsRun(sha: Hash, l: Ledger, calls: seq<Call>, h: Bytes32)
    ensures Follows(Lookup(l.swaps, h), Lookup(Run(sha, l, calls).swaps, h))
  {
    if calls != [] {
      var n := |calls| - 1;
      FollowsRun(sha, l, calls[..n], h);
      FollowsStep(sha, Run(sha, l, calls[..n]), calls[n], h);
    }
  }

  /**
   * The life of a swap over every run: once created its terms are frozen, it closes at most
   * once and then never changes; a redeemed one holds a preimage of its key; and its events
   * show one creation and at most one payout, of exactly its value, to the party its kind
   * names, a refund only after the deadline.
   */
  lemma Lifecycle(sha: Hash, calls: seq<Call>, more: seq<Call>, h: Bytes32)
    ensures var early, late := Run(sha, GENESIS, calls), Run(sha, GENESIS, calls + more);
            var sw := Lookup(late.swaps, h);
            && Follows(Lookup(early.swaps, h), sw)
            && (sw.state.Empty? || Good(sha, h, sw))
            && Told(sw, History(late.log, h))
  {
    RunAppend(sha, GENESIS, calls, more);
    FollowsRun(sha, Run(sha, GENESIS, calls), more, h);
    InvRun(sha, calls + more);
  }

  lemma Backed(swaps: map<Bytes32, Swap>, h: Bytes32)
    requires h in swaps
    ensures Held(swaps[h]) <= Locked(swaps, swaps.Keys)
  {
    LockedPick(swaps, swaps.Keys, h);
  }

  /**
   * Solvency: in every reachable state the modifiers decide alone. A call that passes its
   * guard is never reverted for lack of balance.
   */
  lemma Solvency(sha: Hash, calls: seq<Call>, m: Msg, secret: Bytes32, h: Bytes32)
    requires m.value == 0
    ensures var l := Run(sha, GENESIS, calls);
            && (Exec(sha, l, Redeem(m, secret, h, true)).Some? <==> IsRedeemable(sha, l, h, secret, m.sender))
            && (Exec(sha, l, Refund(m, h, true)).Some? <==> IsRefundable(l, h, m.sender, m.now))
  {
    var l := Run(sha, GENESIS, calls);
    Conservation(sha, calls);
    if h in l.swaps { Backed(l.swaps, h); }
  }

  /**
   * The refund guard means what it says exactly when the sum of the two times does not wrap. If
   * it does, the guard is open at every block time from the creation of the swap on.
   */
  lemma {:induction false} RefundGuardExact(sw: Swap)
    ensures var sum := sw.initTimestamp + sw.refundTime;
            && (sum < WORD <==> (forall now: Word :: sw.initTimestamp <= now ==> (sw.PastDeadline(now) <==> now > sum)))
            && (sum >= WORD <==> (forall now: Word :: sw.initTimestamp <= now ==> sw.PastDeadline(now)))
  {
    var sum := sw.initTimestamp + sw.refundTime;
    if sum >= WORD {
      assert sw.Deadline() == sum - WORD;
      assert sw.PastDeadline(sw.initTimestamp);
    } else {
      assert sw.Deadline() == sum;
      assert !sw.PastDeadline(sw.initTimestamp);
    }
  }

  lemma {:induction false} RunTwo(sha: Hash, l: Ledger, calls: seq<Call>, a: Call, b: Call)
    ensures Run(sha, l, calls + [a]) == After(sha, Run(sha, l, calls), a)
    ensures Run(sha, l, calls + [a, b]) == After(sha, Run(sha, l, calls + [a]), b)
  {
    hide After;
    assert (calls + [a])[..|calls|] == calls;
    assert (calls + [a, b])[..|calls| + 1] == calls + [a];
  }

  /** So a swap can be created and refunded in the same block if and only if its sum wraps. */
  lemma {:induction false} RefundedAtOnce(
    sha: Hash, calls: seq<Call>, m: Msg, refundTime: Word, h: Bytes32, participant: Party)
    requires IsCreatable(Run(sha, GENESIS, calls), h, m.value, refundTime)
    ensures var run := calls + [Initiate(m, refundTime, h, participant), Refund(Msg(m.sender, 0, m.now), h, true)];
            Lookup(Run(sha, GENESIS, run).swaps, h).state == if m.now + refundTime >= WORD then Refunded else Filled
  {
    hide Run;
    var create, refund := Initiate(m, refundTime, h, participant), Refund(Msg(m.sender, 0, m.now), h, true);
    RunTwo(sha, GENESIS, calls, create, refund);
    var l := Run(sha, GENESIS, calls + [create]);
    var sw := Lookup(l.swaps, h);
    assert sw.state.Filled? && sw.Owner() == m.sender && sw.initTimestamp == m.now && sw.refundTime == refundTime;
    Solvency(sha, calls + [create], Msg(m.sender, 0, m.now), ZERO32, h);
    DeadlineWraps(sw);
  }

  lemma DeadlineWraps(sw: Swap)
    ensures sw.PastDeadline(sw.initTimestamp) <==> sw.initTimestamp + sw.refundTime >= WORD
  {
    var sum := sw.initTimestamp + sw.refundTime;
    assert sw.Deadline() == if sum >= WORD then sum - WORD else sum;
  }
}
