/**
 * The hash-time-locked contract that the Solidity entry, the Bitcoin output and the
 * Stellar holding account all implement: locked funds go to the recipient against a
 * preimage of the secret hash, or back to their owner once the deadline has passed.
 */
module Htlc {
  import opened Bytes

  /**
   * What differs between chains. A strict chain opens the refund only after the deadline,
   * the other kind already at the deadline. The bounds are the secret lengths it takes.
   */
  datatype Rule = Rule(strict: bool, minSecret: nat, maxSecret: nat)

  datatype Terms = Terms(recipient: Party, refundee: Party, secretHash: Bytes, deadline: int, rule: Rule)

  datatype Event = Redeem(who: Party, secret: Bytes) | Refund(who: Party)

  datatype Phase = Locked | Redeemed(who: Party, secret: Bytes, at: int) | Refunded(who: Party, at: int)

  predicate Opens(sha: Hash, secretHash: Bytes, rule: Rule, secret: Bytes) {
    sha(secret) == secretHash && rule.minSecret <= |secret| <= rule.maxSecret
  }

  /** The first second at which the refund is possible. */
  function RefundFrom(t: Terms): int {
    if t.rule.strict then t.deadline + 1 else t.deadline
  }

  predicate Enabled(sha: Hash, t: Terms, e: Event, now: int) {
    match e
    case Redeem(who, secret) => who == t.recipient && Opens(sha, t.secretHash, t.rule, secret)
    case Refund(who) => who == t.refundee && RefundFrom(t) <= now
  }

  function Settled(e: Event, now: int): Phase {
    match e
    case Redeem(who, secret) => Redeemed(who, secret, now)
    case Refund(who) => Refunded(who, now)
  }
}
