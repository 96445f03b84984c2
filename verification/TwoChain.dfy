/**
 * Two hash-time-locked contracts on two chains: the initiator locks first and for twice as
 * long, the participant locks against the same secret hash, and the initiator reveals the
 * secret by redeeming. The theorems are about every run of this machine.
 */
module TwoChain {
  import opened Bytes
  import opened Htlc

  const HOUR: int := 3600
  const INITIATOR_LOCK: int := 48 * HOUR
  const PARTICIPANT_LOCK: int := INITIATOR_LOCK / 2

  /** The two parties as one chain knows them. */
  datatype Names = Names(initiator: Party, participant: Party)

  /**
   * `gap` is how long after the initiator the participant may still lock, `reaction` how
   * long the participant takes to act. A prompt participant refunds within `reaction` of the
   * deadline and redeems within `reaction` of seeing a usable secret. A discreet initiator
   * shows the secret to nobody except by redeeming the participant's contract.
   */
  datatype Config = Config(
    sha: Hash, secretHash: Bytes, onA: Names, onB: Names, ruleA: Rule, ruleB: Rule,
    start: int, gap: nat, reaction: nat, prompt: bool, discreet: bool)
  {
    predicate OpensA(secret: Bytes) { Opens(sha, secretHash, ruleA, secret) }

    predicate OpensB(secret: Bytes) { Opens(sha, secretHash, ruleB, secret) }

    /** The initiator's contract when locked at time t. */
    function TermsA(t: int): Terms {
      Terms(onA.participant, onA.initiator, secretHash, t + INITIATOR_LOCK, ruleA)
    }

    /** The participant's contract when locked at time t. */
    function TermsB(t: int): Terms {
      Terms(onB.initiator, onB.participant, secretHash, t + PARTICIPANT_LOCK, ruleB)
    }

    /** The initiator's refund opens only after the participant's last chance to react. */
    predicate InTime() {
      gap + 2 * reaction < PARTICIPANT_LOCK + if ruleA.strict then 1 else 0
    }

    /** Whatever redeems the participant's contract redeems the initiator's too. */
    ghost predicate Compatible() {
      forall s: Bytes :: OpensB(s) ==> OpensA(s)
    }
  }

  datatype Leg = Absent | Leg(terms: Terms, phase: Phase) {
    predicate IsLocked() { Leg? && phase.Locked? }
    predicate IsRedeemed() { Leg? && phase.Redeemed? }
    predicate IsRefunded() { Leg? && phase.Refunded? }
  }

  datatype State = State(now: int, a: Leg, b: Leg, known: set<Bytes>)

  datatype Act = Tick(dt: nat) | Initiate | Participate | SpendA(ea: Event) | SpendB(eb: Event)

  function Init(c: Config): State {
    State(c.start, Absent, Absent, {})
  }

  /** Time may not pass a moment by which a prompt participant has acted. */
  predicate CanTick(c: Config, s: State, now: int) {
    c.prompt ==>
      && (s.b.IsLocked() ==> now <= s.b.terms.deadline + c.reaction)
      && (s.b.IsRedeemed() && s.a.IsLocked() && c.OpensA(s.b.phase.secret) ==> now <= s.b.phase.at + c.reaction)
  }

  predicate CanDo(c: Config, s: State, act: Act) {
    match act
    case Tick(dt) => CanTick(c, s, s.now + dt)
    case Initiate => s.a.Absent?
    case Participate => s.b.Absent? && s.a.IsLocked() && s.now <= s.a.terms.deadline - INITIATOR_LOCK + c.gap
    case SpendA(e) =>
      s.a.IsLocked() && Enabled(c.sha, s.a.terms, e, s.now) && (c.discreet && e.Redeem? ==> e.secret in s.known)
    case SpendB(e) => s.b.IsLocked() && Enabled(c.sha, s.b.terms, e, s.now)
  }

  function Reveals(e: Event): set<Bytes> {
    if e.Redeem? then {e.secret} else {}
  }

  function Do(c: Config, s: State, act: Act): State
    requires CanDo(c, s, act)
  {
    match act
    case Tick(dt) => s.(now := s.now + dt)
    case Initiate => s.(a := Leg(c.TermsA(s.now), Locked))
    case Participate => s.(b := Leg(c.TermsB(s.now), Locked))
    case SpendA(e) => s.(a := s.a.(phase := Settled(e, s.now)), known := s.known + Reveals(e))
    case SpendB(e) => s.(b := s.b.(phase := Settled(e, s.now)), known := s.known + Reveals(e))
  }

  /** The state after a sequence of acts, if every act was possible when it was taken. */
  function Run(c: Config, s0: State, acts: seq<Act>): Option<State> {
    if acts == [] then Some(s0)
    else
      var n := |acts| - 1;
      match Run(c, s0, acts[..n])
      case None => None
      case Some(s) => if CanDo(c, s, acts[n]) then Some(Do(c, s, acts[n])) else None
  }

  ghost predicate Reachable(c: Config, s: State) {
    exists acts: seq<Act> :: Run(c, Init(c), acts) == Some(s)
  }

  /** The participant paid and got nothing. */
  predicate ParticipantCheated(s: State) { s.b.IsRedeemed() && s.a.IsRefunded() }

  /** The initiator paid and got nothing. */
  predicate InitiatorCheated(s: State) { s.a.IsRedeemed() && s.b.IsRefunded() }

  lemma RunStep(c: Config, s0: State, acts: seq<Act>, s: State, act: Act)
    requires Run(c, s0, acts) == Some(s) && CanDo(c, s, act)
    ensures Run(c, s0, acts + [act]) == Some(Do(c, s, act))
  {
    assert (acts + [act])[..|acts|] == acts;
  }

  lemma Extend(c: Config, s: State, act: Act)
    requires Reachable(c, s) && CanDo(c, s, act)
    ensures Reachable(c, Do(c, s, act))
  {
    var acts :| Run(c, Init(c), acts) == Some(s);
    RunStep(c, Init(c), acts, s, act);
  }

  /** Whoever settled a contract is the party its terms name. */
  predicate RightlyPaid(leg: Leg) {
    && (leg.IsRedeemed() ==> leg.phase.who == leg.terms.recipient)
    && (leg.IsRefunded() ==> leg.phase.who == leg.terms.refundee)
  }

  /** The terms in force are the ones each party locked under, in the protocol's order. */
  predicate WellFormed(c: Config, s: State) {
    && (s.a.Leg? ==>
          && s.a.terms == c.TermsA(s.a.terms.deadline - INITIATOR_LOCK)
          && s.a.terms.deadline - INITIATOR_LOCK <= s.now)
    && (s.b.Leg? ==>
          && s.a.Leg?
          && s.b.terms == c.TermsB(s.b.terms.deadline - PARTICIPANT_LOCK)
          && s.b.terms.deadline - PARTICIPANT_LOCK <= s.now
          && s.b.terms.deadline - PARTICIPANT_LOCK <= s.a.terms.deadline - INITIATOR_LOCK + c.gap)
    && (s.b.IsRedeemed() ==> s.b.phase.at <= s.now && c.OpensB(s.b.phase.secret) && s.b.phase.secret in s.known)
    && RightlyPaid(s.a) && RightlyPaid(s.b)
  }

  /** What promptness adds: no moment to act has been missed. */
  predicate OnTime(c: Config, s: State) {
    && CanTick(c, s, s.now)
    && (s.b.IsRedeemed() ==> s.b.phase.at <= s.b.terms.deadline + c.reaction)
    && (s.b.Leg? && s.a.IsRefunded() ==> s.b.IsRefunded())
  }

  /** Only secrets shown by redeeming the participant's contract are known. */
  predicate Covered(s: State) {
    (s.known != {} || s.a.IsRedeemed()) ==> s.b.IsRedeemed()
  }

  ghost predicate Inv(c: Config, s: State) {
    && WellFormed(c, s)
    && (c.prompt && c.InTime() && c.Compatible() ==> OnTime(c, s))
    && (c.discreet ==> Covered(s))
  }

  lemma InvStep(c: Config, s: State, act: Act)
    requires Inv(c, s) && CanDo(c, s, act)
    ensures Inv(c, Do(c, s, act))
  {
  }

  lemma {:induction false} InvRun(c: Config, s0: State, acts: seq<Act>, s: State)
    requires Inv(c, s0) && Run(c, s0, acts) == Some(s)
    ensures Inv(c, s)
  {
    if acts != [] {
      var n := |acts| - 1;
      var before := Run(c, s0, acts[..n]).value;
      InvRun(c, s0, acts[..n], before);
      InvStep(c, before, acts[n]);
    }
  }

  lemma InvReachable(c: Config, s: State)
    requires Reachable(c, s)
    ensures Inv(c, s)
  {
    var acts :| Run(c, Init(c), acts) == Some(s);
    InvRun(c, Init(c), acts, s);
  }

  /**
   * Participant atomicity over every run: a prompt participant who locks soon enough is
   * never left with their own contract redeemed and the initiator's refunded.
   */
  lemma ParticipantAtomicity(c: Config, s: State)
    requires c.prompt && c.InTime() && c.Compatible()
    requires Reachable(c, s)
    ensures !ParticipantCheated(s)
    ensures s.b.Leg? && s.a.IsRefunded() ==> s.b.IsRefunded()
  {
    InvReachable(c, s);
  }

  /** A state in which both parties have locked, `gap` seconds apart. */
  lemma BothLocked(c: Config) returns (s: State)
    ensures Reachable(c, s)
    ensures s == State(c.start + c.gap, Leg(c.TermsA(c.start), Locked), Leg(c.TermsB(c.start + c.gap), Locked), {})
  {
    s := Init(c);
    assert Run(c, Init(c), []) == Some(s);
    Extend(c, s, Initiate);
    s := Do(c, s, Initiate);
    Extend(c, s, Tick(c.gap));
    s := Do(c, s, Tick(c.gap));
    Extend(c, s, Participate);
    s := Do(c, s, Participate);
  }

  /** The initiator redeems when they please and takes the refund when it opens. */
  lemma CheatParticipant(c: Config, s0: State, secret: Bytes) returns (s: State)
    requires Reachable(c, s0) && WellFormed(c, s0) && s0.a.IsLocked() && s0.b.IsLocked()
    requires c.OpensB(secret)
    requires CanTick(c, Do(c, s0, SpendB(Redeem(c.onB.initiator, secret))), RefundFrom(s0.a.terms))
    ensures Reachable(c, s) && ParticipantCheated(s)
  {
    var redeem, refund := SpendB(Redeem(c.onB.initiator, secret)), SpendA(Refund(c.onA.initiator));
    Extend(c, s0, redeem);
    s := Do(c, s0, redeem);
    if s.now < RefundFrom(s.a.terms) {
      var wait := Tick(RefundFrom(s.a.terms) - s.now);
      Extend(c, s, wait);
      s := Do(c, s, wait);
    }
    Extend(c, s, refund);
    s := Do(c, s, refund);
  }

  lemma CheatWhenLate(c: Config, secret: Bytes) returns (s: State)
    requires c.prompt && c.OpensB(secret) && !c.InTime()
    ensures Reachable(c, s) && ParticipantCheated(s)
  {
    s := BothLocked(c);
    var wait := Tick(PARTICIPANT_LOCK + c.reaction);
    Extend(c, s, wait);
    s := CheatParticipant(c, Do(c, s, wait), secret);
  }

  lemma CheatWhenIncompatible(c: Config, odd: Bytes) returns (s: State)
    requires c.OpensB(odd) && !c.OpensA(odd)
    ensures Reachable(c, s) && ParticipantCheated(s)
  {
    s := BothLocked(c);
    s := CheatParticipant(c, s, odd);
  }

  /**
   * The timing and the secret rule are exactly what participant atomicity needs: as soon
   * as either fails, some run cheats the participant.
   */
  lemma ParticipantAtomicityExact(c: Config, secret: Bytes)
    requires c.prompt && c.OpensB(secret)
    ensures (exists s :: Reachable(c, s) && ParticipantCheated(s)) <==> !(c.InTime() && c.Compatible())
  {
    if !c.InTime() {
      var s := CheatWhenLate(c, secret);
    } else if !c.Compatible() {
      var odd: Bytes :| c.OpensB(odd) && !c.OpensA(odd);
      var s := CheatWhenIncompatible(c, odd);
    } else {
      forall s | Reachable(c, s) ensures !ParticipantCheated(s) { ParticipantAtomicity(c, s); }
    }
  }

  /** Over every run, a contract is redeemed by the other party and refunded by the party that locked it. */
  lemma {:induction false} WhoIsPaid(c: Config, s: State)
    requires Reachable(c, s)
    ensures s.a.IsRedeemed() ==> s.a.phase.who == c.onA.participant
    ensures s.a.IsRefunded() ==> s.a.phase.who == c.onA.initiator
    ensures s.b.IsRedeemed() ==> s.b.phase.who == c.onB.initiator
    ensures s.b.IsRefunded() ==> s.b.phase.who == c.onB.participant
  {
    InvReachable(c, s);
  }

  /** What the participant alone can do. */
  predicate ParticipantMove(c: Config, act: Act) {
    match act
    case Tick(_) => true
    case SpendA(e) => e.Redeem? && e.who == c.onA.participant
    case SpendB(e) => e == Refund(c.onB.participant)
    case _ => false
  }

  lemma RunOne(c: Config, s: State, act: Act)
    requires CanDo(c, s, act)
    ensures Run(c, s, [act]) == Some(Do(c, s, act))
  {
    RunStep(c, s, [], s, act);
    assert [] + [act] == [act];
  }

  lemma SettleByRefund(c: Config, s: State) returns (acts: seq<Act>, t: State)
    requires WellFormed(c, s) && s.b.IsLocked()
    requires CanTick(c, s, RefundFrom(s.b.terms))
    ensures forall i :: 0 <= i < |acts| ==> ParticipantMove(c, acts[i])
    ensures Run(c, s, acts) == Some(t) && t.b.IsRefunded()
  {
    var refund := SpendB(Refund(c.onB.participant));
    if s.now < RefundFrom(s.b.terms) {
      var wait := Tick(RefundFrom(s.b.terms) - s.now);
      RunOne(c, s, wait);
      t := Do(c, s, wait);
      RunStep(c, s, [wait], t, refund);
      acts, t := [wait] + [refund], Do(c, t, refund);
    } else {
      RunOne(c, s, refund);
      acts, t := [refund], Do(c, s, refund);
    }
  }

  /**
   * The participant is never stuck: from every reachable state in which they have locked,
   * waiting and their own moves alone either give them the initiator's funds or return theirs.
   */
  lemma ParticipantCanSettle(c: Config, s: State) returns (acts: seq<Act>, t: State)
    requires c.prompt && c.InTime() && c.Compatible()
    requires c.ruleB.strict ==> c.reaction >= 1
    requires Reachable(c, s) && s.b.Leg?
    ensures forall i :: 0 <= i < |acts| ==> ParticipantMove(c, acts[i])
    ensures Run(c, s, acts) == Some(t)
    ensures t.b.IsRefunded() || t.a.IsRedeemed()
  {
    InvReachable(c, s);
    if s.b.IsLocked() {
      acts, t := SettleByRefund(c, s);
    } else if s.b.IsRedeemed() && s.a.IsLocked() {
      var redeem := SpendA(Redeem(c.onA.participant, s.b.phase.secret));
      RunOne(c, s, redeem);
      acts, t := [redeem], Do(c, s, redeem);
    } else {
      acts, t := [], s;
    }
  }

  /** What the initiator alone can do once they have locked, short of redeeming. */
  predicate InitiatorMove(c: Config, act: Act) {
    act.Tick? || act == SpendA(Refund(c.onA.initiator))
  }

  /**
   * Nor is the initiator ever stuck, whatever the participant does or leaves undone: from every
   * reachable state in which they have locked, waiting and their own refund lead to that refund,
   * or they have the participant's funds already.
   */
  lemma {:induction false} InitiatorCanSettle(c: Config, s: State) returns (acts: seq<Act>, t: State)
    requires c.discreet && !c.prompt && Reachable(c, s) && s.a.Leg?
    ensures forall i :: 0 <= i < |acts| ==> InitiatorMove(c, acts[i])
    ensures Run(c, s, acts) == Some(t)
    ensures t.a.IsRefunded() || t.b.IsRedeemed()
  {
    InvReachable(c, s);
    acts, t := [], s;
    if s.a.IsLocked() {
      var refund := SpendA(Refund(c.onA.initiator));
      if s.now < RefundFrom(s.a.terms) {
        var wait := Tick(RefundFrom(s.a.terms) - s.now);
        RunOne(c, s, wait);
        acts, t := [wait], Do(c, s, wait);
      }
      RunStep(c, s, acts, t, refund);
      acts, t := acts + [refund], Do(c, t, refund);
    }
  }

  /**
   * Initiator safety over every run, whatever the timing: when the secret is shown only by
   * redeeming, the initiator's contract is redeemed only if the participant's was.
   */
  lemma InitiatorSafety(c: Config, s: State)
    requires c.discreet && Reachable(c, s)
    ensures s.a.IsRedeemed() ==> s.b.IsRedeemed()
    ensures !InitiatorCheated(s)
  {
    InvReachable(c, s);
  }

  /** Discretion is exactly what initiator safety needs. */
  lemma InitiatorSafetyExact(c: Config, secret: Bytes)
    requires c.OpensA(secret) && (c.prompt ==> c.reaction >= 1)
    ensures (exists s :: Reachable(c, s) && InitiatorCheated(s)) <==> !c.discreet
  {
    if c.discreet {
      forall s | Reachable(c, s) ensures !InitiatorCheated(s) { InitiatorSafety(c, s); }
    } else {
      var s := BothLocked(c);
      var redeem, wait, refund :=
        SpendA(Redeem(c.onA.participant, secret)), Tick(PARTICIPANT_LOCK + 1), SpendB(Refund(c.onB.participant));
      Extend(c, s, redeem);
      s := Do(c, s, redeem);
      Extend(c, s, wait);
      s := Do(c, s, wait);
      Extend(c, s, refund);
    }
  }

  /** With both parties following the protocol, once both contracts are settled they agree. */
  lemma BothOrNeither(c: Config, s: State)
    requires c.prompt && c.InTime() && c.Compatible() && c.discreet
    requires Reachable(c, s) && s.b.Leg? && !s.a.IsLocked() && !s.b.IsLocked()
    ensures s.a.IsRedeemed() <==> s.b.IsRedeemed()
    ensures s.a.IsRefunded() <==> s.b.IsRefunded()
  {
    InvReachable(c, s);
  }
}
