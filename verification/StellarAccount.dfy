/** The Stellar holding account: who can move its funds, and what an audit of it establishes. */
module StellarAccount {
  import opened Bytes

  /** An account's public key, as text; never empty. */
  type Address = a: Bytes | a != [] witness [0]

  /** A signer's key. A hash is missing when its text does not decode. */
  datatype Key =
    | AccountKey(address: Address)
    | PreAuthKey(txHash: Option<Bytes>)
    | HashXKey(secretHash: Option<Bytes>)
    | OtherKey

  datatype Signer = Signer(key: Key, weight: nat)

  datatype Credit = Credit(code: Bytes, issuer: Address)

  datatype Balance = NativeBalance(amount: nat) | CreditBalance(credit: Credit, amount: nat)

  datatype Thresholds = Thresholds(low: nat, medium: nat, high: nat)

  datatype Account = Account(
    address: Address, sequence: int, signers: seq<Signer>, thresholds: Thresholds, balances: seq<Balance>)

  /** An operation's source is the transaction's unless it names its own. */
  datatype Operation =
    | Payment(destination: Address, credit: Credit, amount: nat)
    | ChangeTrust(line: Credit, limit: nat, source: Option<Address>)
    | AccountMerge(into: Address, source: Option<Address>)
    | SetSigner(signer: Signer)
    | SetWeights(master: nat, thresholds: Thresholds)

  /** No upper time bound is written as zero. */
  datatype Transaction = Transaction(
    source: Address, sequence: int, minTime: int, maxTime: int, operations: seq<Operation>)

  // ---- What the network lets through ----

  const MAX_PREIMAGE: nat := 64

  /** What is handed in with a transaction: the accounts whose valid signatures it carries, and preimages. */
  datatype Proof = Proof(txHash: Bytes, signedBy: set<Address>, preimages: set<Bytes>)

  predicate Knows(sha: Hash, proof: Proof, h: Bytes) {
    exists p :: p in proof.preimages && |p| <= MAX_PREIMAGE && sha(p) == h
  }

  predicate Satisfied(sha: Hash, proof: Proof, key: Key) {
    match key
    case AccountKey(a) => a in proof.signedBy
    case PreAuthKey(h) => h == Some(proof.txHash)
    case HashXKey(h) => h.Some? && Knows(sha, proof, h.value)
    case OtherKey => false
  }

  function Weight(sha: Hash, signers: seq<Signer>, proof: Proof): nat {
    if signers == [] then 0
    else (if Satisfied(sha, proof, signers[0].key) then signers[0].weight else 0) + Weight(sha, signers[1..], proof)
  }

  predicate Authorised(sha: Hash, a: Account, proof: Proof, threshold: nat) {
    Weight(sha, a.signers, proof) >= threshold
  }

  predicate InBounds(tx: Transaction, now: int) {
    tx.minTime <= now && (tx.maxTime == 0 || now <= tx.maxTime)
  }

  /** The network takes a transaction from an account: its turn, its time, and enough weight. */
  predicate Accepts(sha: Hash, a: Account, tx: Transaction, proof: Proof, now: int) {
    && tx.source == a.address && tx.sequence == a.sequence + 1 && InBounds(tx, now)
    && Authorised(sha, a, proof, a.thresholds.high)
  }

  // ---- Reading the signers ----

  /** What a pass over the signers has found. */
  datatype Found = Found(recipient: Option<Address>, refundHash: Option<Bytes>, secretHash: Option<Bytes>)

  const NOTHING := Found(None, None, None)

  function Take(f: Found, s: Signer): Option<Found> {
    match s.key
    case AccountKey(a) => if f.recipient.None? && s.weight == 1 then Some(f.(recipient := Some(a))) else None
    case PreAuthKey(h) => if f.refundHash.None? && h.Some? && s.weight == 2 then Some(f.(refundHash := h)) else None
    case HashXKey(h) => if f.secretHash.None? && h.Some? && s.weight == 1 then Some(f.(secretHash := h)) else None
    case OtherKey => None
  }

  function Scan(signers: seq<Signer>, f: Found): Option<Found> {
    if signers == [] then Some(f)
    else if signers[0].weight == 0 then Scan(signers[1..], f)
    else
      match Take(f, signers[0])
      case None => None
      case Some(f') => Scan(signers[1..], f')
  }

  method ReadSigners(signers: seq<Signer>) returns (r: Option<Found>)
    ensures r == Scan(signers, NOTHING)
  {
    var recipient: Option<Address>, refundHash: Option<Bytes>, secretHash: Option<Bytes> := None, None, None;
    for i := 0 to |signers|
      invariant Scan(signers, NOTHING) == Scan(signers[i..], Found(recipient, refundHash, secretHash))
    {
      var s := signers[i];
      assert signers[i..][1..] == signers[i + 1..];
      if s.weight == 0 { continue; }
      match s.key {
        case AccountKey(a) =>
          if recipient.Some? { return None; }
          recipient := Some(a);
          if s.weight != 1 { return None; }
        case PreAuthKey(h) =>
          if refundHash.Some? || h.None? { return None; }
          refundHash := h;
          if s.weight != 2 { return None; }
        case HashXKey(h) =>
          if secretHash.Some? || h.None? { return None; }
          secretHash := h;
          if s.weight != 1 { return None; }
        case OtherKey => return None;
      }
    }
    r := Some(Found(recipient, refundHash, secretHash));
  }

  /** The signers that have a say. */
  function Live(signers: seq<Signer>): seq<Signer> {
    if signers == [] then []
    else (if signers[0].weight == 0 then [] else [signers[0]]) + Live(signers[1..])
  }

  /** The signers that stand for what was found. */
  function Held(f: Found): multiset<Signer> {
    (if f.recipient.Some? then multiset{Signer(AccountKey(f.recipient.value), 1)} else multiset{})
    + (if f.refundHash.Some? then multiset{Signer(PreAuthKey(f.refundHash), 2)} else multiset{})
    + (if f.secretHash.Some? then multiset{Signer(HashXKey(f.secretHash), 1)} else multiset{})
  }

  /** How often a signer is held. */
  function Count(f: Found, s: Signer): nat {
    match s.key
    case AccountKey(a) => if f.recipient == Some(a) && s.weight == 1 then 1 else 0
    case PreAuthKey(h) => if h.Some? && f.refundHash == h && s.weight == 2 then 1 else 0
    case HashXKey(h) => if h.Some? && f.secretHash == h && s.weight == 1 then 1 else 0
    case OtherKey => 0
  }

  lemma HeldCount(f: Found, s: Signer)
    ensures Held(f)[s] == Count(f, s)
  {
    Single(Signer(AccountKey(if f.recipient.Some? then f.recipient.value else [0]), 1), s);
    Single(Signer(PreAuthKey(f.refundHash), 2), s);
    Single(Signer(HashXKey(f.secretHash), 1), s);
  }

  lemma Single(a: Signer, s: Signer)
    ensures multiset{a}[s] == if a == s then 1 else 0
  {
  }

  lemma {:induction false} TakeCount(f: Found, s: Signer, t: Signer)
    requires Take(f, s).Some?
    ensures Held(Take(f, s).value)[t] == Held(f)[t] + multiset{s}[t]
  {
    hide Held;
    HeldCount(f, t);
    HeldCount(Take(f, s).value, t);
    Single(s, t);
  }

  lemma {:induction false} TakeHeld(f: Found, s: Signer)
    requires Take(f, s).Some?
    ensures Held(Take(f, s).value) == Held(f) + multiset{s}
  {
    hide Held, Take;
    var f' := Take(f, s).value;
    forall t: Signer ensures Held(f')[t] == (Held(f) + multiset{s})[t] { TakeCount(f, s, t); }
  }

  lemma LiveFirst(signers: seq<Signer>)
    requires signers != [] && signers[0].weight != 0
    ensures multiset(Live(signers)) == multiset{signers[0]} + multiset(Live(signers[1..]))
  {
    assert Live(signers) == [signers[0]] + Live(signers[1..]);
  }

  lemma {:induction false} ScanSound(signers: seq<Signer>, f: Found)
    ensures var r := Scan(signers, f); r.Some? ==> Held(r.value) == Held(f) + multiset(Live(signers))
  {
    if signers != [] {
      if signers[0].weight == 0 {
        ScanSound(signers[1..], f);
        assert Live(signers) == Live(signers[1..]);
      } else if Take(f, signers[0]).Some? {
        TakeHeld(f, signers[0]);
        ScanSound(signers[1..], Take(f, signers[0]).value);
        LiveFirst(signers);
      }
    }
  }

  /** The signer already held of the same kind, if there is one. */
  function Rival(f: Found, s: Signer): Signer {
    match s.key
    case AccountKey(_) => if f.recipient.Some? then Signer(AccountKey(f.recipient.value), 1) else s
    case PreAuthKey(_) => Signer(PreAuthKey(f.refundHash), 2)
    case HashXKey(_) => Signer(HashXKey(f.secretHash), 1)
    case OtherKey => s
  }

  /** A signer still to come, of those that make up what is found in the end, is taken. */
  lemma {:induction false} MustTake(f: Found, s: Signer, rest: multiset<Signer>, end: Found)
    requires Held(f) + multiset{s} + rest == Held(end)
    ensures Take(f, s).Some?
  {
    hide Held;
    var t := Rival(f, s);
    HeldCount(f, s);
    HeldCount(end, s);
    HeldCount(f, t);
    HeldCount(end, t);
    assert Held(f)[t] + multiset{s}[t] + rest[t] == Held(end)[t];
    assert Held(f)[s] + multiset{s}[s] + rest[s] == Held(end)[s];
  }

  lemma {:induction false} HeldInjective(a: Found, b: Found)
    requires Held(a) == Held(b)
    ensures a == b
  {
    hide Held;
    forall s ensures Count(a, s) == Count(b, s) {
      HeldCount(a, s);
      HeldCount(b, s);
    }
    CountInjective(a, b);
    CountInjective(b, a);
  }

  lemma CountInjective(a: Found, b: Found)
    requires forall s :: Count(a, s) == Count(b, s)
    ensures a.recipient.Some? ==> b.recipient == a.recipient
    ensures a.refundHash.Some? ==> b.refundHash == a.refundHash
    ensures a.secretHash.Some? ==> b.secretHash == a.secretHash
  {
    if a.recipient.Some? { assert Count(a, Signer(AccountKey(a.recipient.value), 1)) == 1; }
    if a.refundHash.Some? { assert Count(a, Signer(PreAuthKey(a.refundHash), 2)) == 1; }
    if a.secretHash.Some? { assert Count(a, Signer(HashXKey(a.secretHash), 1)) == 1; }
  }

  lemma {:induction false} ScanComplete(signers: seq<Signer>, f: Found, end: Found)
    requires Held(end) == Held(f) + multiset(Live(signers))
    ensures Scan(signers, f) == Some(end)
  {
    hide Held, Take;
    if signers == [] {
      assert Held(end) == Held(f);
      HeldInjective(f, end);
    } else if signers[0].weight == 0 {
      assert Live(signers) == Live(signers[1..]);
      ScanComplete(signers[1..], f, end);
    } else {
      LiveFirst(signers);
      MustTake(f, signers[0], multiset(Live(signers[1..])), end);
      TakeHeld(f, signers[0]);
      ScanComplete(signers[1..], Take(f, signers[0]).value, end);
    }
  }

  /**
   * The pass over the signers finds exactly what is there: in any order, the live signers are
   * those that stand for what it reports, and nothing else.
   */
  lemma {:induction false} ScanExact(signers: seq<Signer>, f: Found)
    ensures Scan(signers, NOTHING) == Some(f) <==> multiset(Live(signers)) == Held(f)
  {
    ScanSound(signers, NOTHING);
    assert Held(NOTHING) == multiset{};
    if multiset(Live(signers)) == Held(f) { ScanComplete(signers, NOTHING, f); }
  }

  /** The weight the found signers give. */
  function FoundWeight(sha: Hash, f: Found, proof: Proof): nat {
    (if f.recipient.Some? && f.recipient.value in proof.signedBy then 1 else 0)
    + (if f.refundHash == Some(proof.txHash) then 2 else 0)
    + (if f.secretHash.Some? && Knows(sha, proof, f.secretHash.value) then 1 else 0)
  }

  lemma {:induction false} ScanWeight(sha: Hash, signers: seq<Signer>, f: Found, proof: Proof)
    requires Scan(signers, f).Some?
    ensures FoundWeight(sha, f, proof) + Weight(sha, signers, proof) == FoundWeight(sha, Scan(signers, f).value, proof)
  {
    if signers != [] {
      ScanWeight(sha, signers[1..], if signers[0].weight == 0 then f else Take(f, signers[0]).value, proof);
    }
  }

  // ---- The audit ----

  datatype Audit =
    | Rejected
    | Crashed
    | Accepted(recipient: Address, secretHash: Bytes, refundAddress: Address, lockTime: int)

  const TWO := Thresholds(2, 2, 2)

  /** Only these three signers have a say: the recipient, the secret, and the refund with the weight of both. */
  predicate Audited(a: Account, recipient: Address, secretHash: Bytes, refundHash: Bytes) {
    a.thresholds == TWO && multiset(Live(a.signers)) == Held(Found(Some(recipient), Some(refundHash), Some(secretHash)))
  }

  /** The refund does one thing: it merges the account into another. */
  predicate MergesAway(a: Account, refundTx: Transaction) {
    && |refundTx.operations| == 1 && refundTx.operations[0].AccountMerge?
    && refundTx.operations[0].source == Some(a.address)
  }

  /** What the audit shows, check by check; it crashes when the merge leaves its source to the transaction. */
  function AuditOf(a: Account, refundTx: Transaction, refundHash: Bytes): Audit {
    match Scan(a.signers, NOTHING)
    case Some(Found(Some(recipient), Some(h), Some(secretHash))) =>
      if a.thresholds != TWO || h != refundHash then Rejected
      else if |refundTx.operations| != 1 || !refundTx.operations[0].AccountMerge? then Rejected
      else if refundTx.operations[0].source.None? then Crashed
      else if refundTx.operations[0].source.value != a.address then Rejected
      else Accepted(recipient, secretHash, refundTx.operations[0].into, refundTx.minTime)
    case _ => Rejected
  }

  method AuditContract(a: Account, refundTx: Transaction, txHash: Transaction -> Bytes) returns (r: Audit)
    ensures r == AuditOf(a, refundTx, txHash(refundTx))
    ensures r.Accepted? <==>
            && (exists recipient, secretHash :: Audited(a, recipient, secretHash, txHash(refundTx)))
            && MergesAway(a, refundTx)
    ensures r.Accepted? ==>
              && Audited(a, r.recipient, r.secretHash, txHash(refundTx))
              && r.refundAddress == refundTx.operations[0].into && r.lockTime == refundTx.minTime
    ensures r.Crashed? <==>
            && (exists recipient, secretHash :: Audited(a, recipient, secretHash, txHash(refundTx)))
            && |refundTx.operations| == 1 && refundTx.operations[0].AccountMerge? && refundTx.operations[0].source.None?
  {
    hide Held, Live, Scan;
    if a.thresholds.high != 2 || a.thresholds.medium != 2 || a.thresholds.low != 2 { return Rejected; }
    var read := ReadSigners(a.signers);
    forall f ensures read == Some(f) <==> multiset(Live(a.signers)) == Held(f) { ScanExact(a.signers, f); }
    if read.None? { return Rejected; }
    var found := read.value;
    if found.refundHash.None? || found.secretHash.None? || found.recipient.None? { return Rejected; }
    if found.refundHash.value != txHash(refundTx) { return Rejected; }
    assert found == Found(Some(found.recipient.value), Some(txHash(refundTx)), Some(found.secretHash.value));
    assert Audited(a, found.recipient.value, found.secretHash.value, txHash(refundTx));
    if |refundTx.operations| != 1 || !refundTx.operations[0].AccountMerge? { return Rejected; }
    if refundTx.operations[0].source.None? { return Crashed; }
    if refundTx.operations[0].source.value != a.address { return Rejected; }
    r := Accepted(found.recipient.value, found.secretHash.value, refundTx.operations[0].into, refundTx.minTime);
  }

  /**
   * Of an audited account, no operation passes at any level of authority but for the refund
   * transaction itself, or with the recipient's signature and a preimage together.
   */
  lemma {:induction false} AuditMeans(
    sha: Hash, a: Account, recipient: Address, secretHash: Bytes, refundHash: Bytes, proof: Proof, threshold: nat)
    requires Audited(a, recipient, secretHash, refundHash)
    requires threshold in {a.thresholds.low, a.thresholds.medium, a.thresholds.high}
    ensures Authorised(sha, a, proof, threshold) <==>
            proof.txHash == refundHash || (recipient in proof.signedBy && Knows(sha, proof, secretHash))
  {
    var f := Found(Some(recipient), Some(refundHash), Some(secretHash));
    ScanExact(a.signers, f);
    ScanWeight(sha, a.signers, NOTHING, proof);
  }
}
