/** Setting up a Stellar holding account, and emptying it by the redeem or the refund transaction. */
module StellarSwap {
  import opened Bytes
  import opened StellarAccount

  // ---- Building transactions ----

  /** An account as fetched from the network; building a transaction uses up a sequence number of the copy. */
  class Fetched {
    const account: Account
    var sequence: int

    constructor (a: Account)
      ensures account == a && sequence == a.sequence
    {
      account, sequence := a, a.sequence;
    }

    method IncrementSequenceNumber() returns (n: int)
      modifies this
      ensures n == sequence == old(sequence) + 1
    {
      sequence := sequence + 1;
      n := sequence;
    }

    method Build(minTime: int, maxTime: int, operations: seq<Operation>) returns (tx: Option<Transaction>)
      modifies this
      ensures sequence == old(sequence) + 1
      ensures tx == if minTime >= 0 && maxTime >= 0 && (maxTime != 0 ==> minTime <= maxTime)
                    then Some(Transaction(account.address, sequence, minTime, maxTime, operations)) else None
    {
      var n := IncrementSequenceNumber();
      if !ValidBounds(minTime, maxTime) { return None; }
      tx := Some(Transaction(account.address, n, minTime, maxTime, operations));
    }
  }

  predicate ValidBounds(minTime: int, maxTime: int) {
    minTime >= 0 && maxTime >= 0 && (maxTime != 0 ==> minTime <= maxTime)
  }

  /** For every credit a payment of all of it and the end of its trust line, then the merge. */
  function CreditOps(balances: seq<Balance>, holding: Address, receiver: Address): seq<Operation> {
    if balances == [] then []
    else
      match balances[0]
      case NativeBalance(_) => CreditOps(balances[1..], holding, receiver)
      case CreditBalance(c, amount) =>
        [Payment(receiver, c, amount), ChangeTrust(c, 0, Some(holding))] + CreditOps(balances[1..], holding, receiver)
  }

  function RedeemOps(balances: seq<Balance>, holding: Address, receiver: Address): seq<Operation> {
    CreditOps(balances, holding, receiver) + [AccountMerge(receiver, Some(holding))]
  }

  method CreateRedeemOperations(holding: Account, receiver: Address) returns (ops: seq<Operation>)
    ensures ops == RedeemOps(holding.balances, holding.address, receiver)
  {
    ops := [];
    var all := holding.balances;
    for i := 0 to |all|
      invariant ops + CreditOps(all[i..], holding.address, receiver) == CreditOps(all, holding.address, receiver)
    {
      assert all[i..][1..] == all[i + 1..];
      if all[i].NativeBalance? { continue; }
      ghost var rest := CreditOps(all[i + 1..], holding.address, receiver);
      var payment := Payment(receiver, all[i].credit, all[i].amount);
      var removal := ChangeTrust(all[i].credit, 0, Some(holding.address));
      assert ops + ([payment, removal] + rest) == ops + [payment] + [removal] + rest;
      ops := ops + [payment];
      ops := ops + [removal];
    }
    assert all[|all|..] == [];
    ops := ops + [AccountMerge(receiver, Some(holding.address))];
  }

  /** The refund leaves room for one transaction before it: the one that hands the account over. */
  method CreateRefundTransaction(holding: Account, refundTo: Address, locktime: int) returns (tx: Option<Transaction>)
    ensures tx == if locktime >= 0 then Some(RefundTransaction(holding, refundTo, locktime)) else None
  {
    var fetched := new Fetched(holding);
    var _ := fetched.IncrementSequenceNumber();
    var ops := CreateRedeemOperations(holding, refundTo);
    tx := fetched.Build(locktime, 0, ops);
  }

  function RefundTransaction(holding: Account, refundTo: Address, locktime: int): Transaction {
    var ops := RedeemOps(holding.balances, holding.address, refundTo);
    Transaction(holding.address, holding.sequence + 2, locktime, 0, ops)
  }

  method CreateRedeemTransaction(holding: Account, receiver: Address) returns (tx: Option<Transaction>)
    ensures tx == Some(RedeemTransaction(holding, receiver))
  {
    var fetched := new Fetched(holding);
    var ops := CreateRedeemOperations(holding, receiver);
    tx := fetched.Build(0, 0, ops);
  }

  function RedeemTransaction(holding: Account, receiver: Address): Transaction {
    Transaction(holding.address, holding.sequence + 1, 0, 0, RedeemOps(holding.balances, holding.address, receiver))
  }

  // ---- Handing the account over ----

  function SigningOps(counterParty: Address, secretHash: Bytes, refundHash: Bytes): seq<Operation> {
    [SetSigner(Signer(AccountKey(counterParty), 1)), SetSigner(Signer(HashXKey(Some(secretHash)), 1)),
     SetSigner(Signer(PreAuthKey(Some(refundHash)), 2)), SetWeights(0, TWO)]
  }

  /** The signers without any for this key. */
  function Without(signers: seq<Signer>, key: Key): seq<Signer> {
    if signers == [] then []
    else (if signers[0].key == key then [] else [signers[0]]) + Without(signers[1..], key)
  }

  /** What an option does to its account; the master key is the signer under the account's own address. */
  function ApplyOption(a: Account, op: Operation): Account {
    match op
    case SetSigner(s) => a.(signers := Without(a.signers, s.key) + if s.weight == 0 then [] else [s])
    case SetWeights(master, thresholds) =>
      a.(signers := Without(a.signers, AccountKey(a.address)) + [Signer(AccountKey(a.address), master)],
         thresholds := thresholds)
    case _ => a
  }

  function ApplyOptions(a: Account, ops: seq<Operation>): Account
    decreases |ops|
  {
    if ops == [] then a else ApplyOptions(ApplyOption(a, ops[0]), ops[1..])
  }

  /** An account just created: only its own key signs, and any weight will do. */
  predicate IsFresh(a: Account) {
    a.signers == [Signer(AccountKey(a.address), 1)] && a.thresholds == Thresholds(0, 0, 0)
  }

  /** The network's view afterwards; it may list the signers in any order. */
  predicate HandedOver(a: Account, b: Account, counterParty: Address, secretHash: Bytes, refundHash: Bytes) {
    var after := ApplyOptions(a, SigningOps(counterParty, secretHash, refundHash));
    && b.address == a.address && b.sequence == a.sequence + 1 && b.balances == a.balances
    && b.thresholds == after.thresholds && multiset(b.signers) == multiset(after.signers)
  }

  lemma WithoutAbsent(signers: seq<Signer>, key: Key)
    requires forall i :: 0 <= i < |signers| ==> signers[i].key != key
    ensures Without(signers, key) == signers
  {
  }

  lemma {:induction false} SigningApplied(a: Account, counterParty: Address, secretHash: Bytes, refundHash: Bytes)
    requires IsFresh(a) && counterParty != a.address
    ensures var after := ApplyOptions(a, SigningOps(counterParty, secretHash, refundHash));
            && after.thresholds == TWO
            && after.signers == [Signer(AccountKey(counterParty), 1), Signer(HashXKey(Some(secretHash)), 1),
                                 Signer(PreAuthKey(Some(refundHash)), 2), Signer(AccountKey(a.address), 0)]
  {
    var ops := SigningOps(counterParty, secretHash, refundHash);
    var own, theirs := Signer(AccountKey(a.address), 1), Signer(AccountKey(counterParty), 1);
    var x, t := Signer(HashXKey(Some(secretHash)), 1), Signer(PreAuthKey(Some(refundHash)), 2);
    WithoutAbsent(a.signers, theirs.key);
    var a1 := ApplyOption(a, ops[0]);
    assert a1.signers == [own, theirs];
    WithoutAbsent(a1.signers, x.key);
    var a2 := ApplyOption(a1, ops[1]);
    assert a2.signers == [own, theirs, x];
    WithoutAbsent(a2.signers, t.key);
    var a3 := ApplyOption(a2, ops[2]);
    assert a3.signers == [own, theirs, x, t];
    WithoutAbsent([theirs, x, t], own.key);
    assert a3.signers[1..] == [theirs, x, t];
    var a4 := ApplyOption(a3, ops[3]);
    assert a4.signers == [theirs, x, t] + [Signer(AccountKey(a.address), 0)];
    Unfold(a, ops);
  }

  lemma Unfold(a: Account, ops: seq<Operation>)
    requires |ops| == 4
    ensures var two := ApplyOption(ApplyOption(a, ops[0]), ops[1]);
            ApplyOptions(a, ops) == ApplyOption(ApplyOption(two, ops[2]), ops[3])
  {
    hide ApplyOption;
    var r1, r2, r3 := ops[1..], ops[1..][1..], ops[1..][1..][1..];
    assert r3[1..] == [] && r1[0] == ops[1] && r2[0] == ops[2] && r3[0] == ops[3];
    var a1 := ApplyOption(a, ops[0]);
    var a2 := ApplyOption(a1, ops[1]);
    var a3 := ApplyOption(a2, ops[2]);
    assert ApplyOptions(a3, r3) == ApplyOption(a3, ops[3]);
    assert ApplyOptions(a2, r2) == ApplyOptions(a3, r3);
    assert ApplyOptions(a1, r1) == ApplyOptions(a2, r2);
  }

  lemma {:induction false} LiveCount(signers: seq<Signer>, s: Signer)
    ensures multiset(Live(signers))[s] == if s.weight == 0 then 0 else multiset(signers)[s]
  {
    if signers != [] {
      LiveCount(signers[1..], s);
      assert signers == [signers[0]] + signers[1..];
    }
  }

  lemma {:induction false} LivePermuted(a: seq<Signer>, b: seq<Signer>)
    requires multiset(a) == multiset(b)
    ensures multiset(Live(a)) == multiset(Live(b))
  {
    forall s: Signer ensures multiset(Live(a))[s] == multiset(Live(b))[s] {
      LiveCount(a, s);
      LiveCount(b, s);
    }
  }

  lemma {:induction false} HandedOverThresholds(
    a: Account, b: Account, counterParty: Address, secretHash: Bytes, refundHash: Bytes)
    requires IsFresh(a) && counterParty != a.address && HandedOver(a, b, counterParty, secretHash, refundHash)
    ensures b.thresholds == TWO
  {
    SigningApplied(a, counterParty, secretHash, refundHash);
  }

  /** Handed over, in whatever order its signers are listed, the account passes the audit of its signers. */
  lemma {:induction false} HandedOverAudits(
    a: Account, b: Account, counterParty: Address, secretHash: Bytes, refundHash: Bytes)
    requires IsFresh(a) && counterParty != a.address && HandedOver(a, b, counterParty, secretHash, refundHash)
    ensures Audited(b, counterParty, secretHash, refundHash)
  {
    var f := Found(Some(counterParty), Some(refundHash), Some(secretHash));
    var after := ApplyOptions(a, SigningOps(counterParty, secretHash, refundHash));
    SigningApplied(a, counterParty, secretHash, refundHash);
    LivePermuted(b.signers, after.signers);
    FourScan(counterParty, secretHash, refundHash, a.address);
    ScanExact(after.signers, f);
  }

  lemma FourScan(counterParty: Address, secretHash: Bytes, refundHash: Bytes, own: Address)
    ensures Scan([Signer(AccountKey(counterParty), 1), Signer(HashXKey(Some(secretHash)), 1),
                  Signer(PreAuthKey(Some(refundHash)), 2), Signer(AccountKey(own), 0)], NOTHING)
            == Some(Found(Some(counterParty), Some(refundHash), Some(secretHash)))
  {
    var last := Signer(AccountKey(own), 0);
    var t, x := Signer(PreAuthKey(Some(refundHash)), 2), Signer(HashXKey(Some(secretHash)), 1);
    var f1 := Found(Some(counterParty), None, None);
    var f2 := f1.(secretHash := Some(secretHash));
    var f3 := f2.(refundHash := Some(refundHash));
    assert Scan([last], f3) == Some(f3);
    assert [t, last][1..] == [last];
    assert Scan([t, last], f2) == Some(f3);
    assert [x, t, last][1..] == [t, last];
    assert Scan([x, t, last], f1) == Some(f3);
    assert [Signer(AccountKey(counterParty), 1), x, t, last][1..] == [x, t, last];
  }

  // ---- The life of a swap on Stellar ----

  predicate OnlyNative(balances: seq<Balance>) {
    forall i :: 0 <= i < |balances| ==> balances[i].NativeBalance?
  }

  lemma {:induction false} CreditOpsEmpty(balances: seq<Balance>, holding: Address, receiver: Address)
    ensures CreditOps(balances, holding, receiver) == [] <==> OnlyNative(balances)
  {
    if balances != [] {
      CreditOpsEmpty(balances[1..], holding, receiver);
      if OnlyNative(balances[1..]) && balances[0].NativeBalance? {
        assert forall i :: 0 < i < |balances| ==> balances[i] == balances[1..][i - 1];
      }
    }
  }

  /**
   * The audit of what the tool itself created recovers the recipient, the secret hash, the refund
   * address and the lock time it was created with, if the account holds nothing but lumens, and
   * else rejects it: the refund of anything else is more than the one merge the audit expects.
   */
  lemma {:induction false} CreatedPassesAudit(
    a: Account, b: Account, counterParty: Address, secretHash: Bytes, refundTo: Address, locktime: int,
    txHash: Transaction -> Bytes)
    requires IsFresh(a) && counterParty != a.address
    requires HandedOver(a, b, counterParty, secretHash, txHash(RefundTransaction(a, refundTo, locktime)))
    ensures var refundTx := RefundTransaction(a, refundTo, locktime);
            && Audited(b, counterParty, secretHash, txHash(refundTx))
            && AuditOf(b, refundTx, txHash(refundTx)) ==
               if OnlyNative(b.balances) then Accepted(counterParty, secretHash, refundTo, locktime) else Rejected
  {
    var refundTx := RefundTransaction(a, refundTo, locktime);
    HandedOverAudits(a, b, counterParty, secretHash, txHash(refundTx));
    CreditOpsEmpty(a.balances, a.address, refundTo);
    ScanExact(b.signers, Found(Some(counterParty), Some(txHash(refundTx)), Some(secretHash)));
  }

  /**
   * Once handed over, the refund goes through exactly from the lock time on, needing no signature
   * at all, and the redeem exactly with a right secret, at any time.
   */
  lemma {:induction false} BothTransactionsOpen(
    sha: Hash, a: Account, b: Account, counterParty: Address, secretHash: Bytes, secret: Bytes, refundTo: Address,
    locktime: int, txHash: Transaction -> Bytes, now: nat)
    requires IsFresh(a) && counterParty != a.address
    requires HandedOver(a, b, counterParty, secretHash, txHash(RefundTransaction(a, refundTo, locktime)))
    ensures var refundTx := RefundTransaction(a, refundTo, locktime);
            Accepts(sha, b, refundTx, Proof(txHash(refundTx), {}, {}), now) <==> locktime <= now
    ensures var redeemTx := RedeemTransaction(b, counterParty);
            Accepts(sha, b, redeemTx, Proof(txHash(redeemTx), {counterParty}, {secret}), now) <==>
            || (sha(secret) == secretHash && |secret| <= MAX_PREIMAGE)
            || txHash(redeemTx) == txHash(RefundTransaction(a, refundTo, locktime))
  {
    hide Audited, Authorised;
    var refundTx, redeemTx := RefundTransaction(a, refundTo, locktime), RedeemTransaction(b, counterParty);
    HandedOverAudits(a, b, counterParty, secretHash, txHash(refundTx));
    HandedOverThresholds(a, b, counterParty, secretHash, txHash(refundTx));
    AuditMeans(sha, b, counterParty, secretHash, txHash(refundTx), Proof(txHash(refundTx), {}, {}), b.thresholds.high);
    var proof := Proof(txHash(redeemTx), {counterParty}, {secret});
    AuditMeans(sha, b, counterParty, secretHash, txHash(refundTx), proof, b.thresholds.high);
    assert secret in proof.preimages;
  }

  /**
   * Nothing else ever moves the funds: whatever transaction the network takes on the account's
   * authority, at any level, is the refund itself and not before the lock time, or is signed by
   * the counterparty and shows a preimage of the secret hash.
   */
  lemma {:induction false} NoThirdWay(
    sha: Hash, b: Account, recipient: Address, secretHash: Bytes, refundTx: Transaction, txHash: Transaction -> Bytes,
    tx: Transaction, proof: Proof, threshold: nat, now: int)
    requires Audited(b, recipient, secretHash, txHash(refundTx))
    requires forall other :: txHash(other) == txHash(refundTx) ==> other == refundTx
    requires threshold in {b.thresholds.low, b.thresholds.medium, b.thresholds.high}
    requires proof.txHash == txHash(tx) && InBounds(tx, now) && Authorised(sha, b, proof, threshold)
    ensures || (tx == refundTx && refundTx.minTime <= now)
            || (recipient in proof.signedBy && Knows(sha, proof, secretHash))
  {
    hide Audited, Authorised;
    AuditMeans(sha, b, recipient, secretHash, txHash(refundTx), proof, threshold);
  }

  // ---- Reading the secret ----

  datatype Search = BadEncoding | NotThere | Secret(value: Bytes)

  predicate IsPreimage(sha: Hash, signature: Option<Bytes>, secretHash: Bytes) {
    signature.Some? && |signature.value| <= MAX_PREIMAGE && sha(signature.value) == secretHash
  }

  /** No preimage comes before the signature at this place. */
  predicate NoneUpTo(sha: Hash, transactions: seq<seq<Option<Bytes>>>, t: nat, i: nat, secretHash: Bytes)
    requires t < |transactions| && i < |transactions[t]|
  {
    && (forall u, j :: 0 <= u < t && 0 <= j < |transactions[u]| ==> !IsPreimage(sha, transactions[u][j], secretHash))
    && (forall j :: 0 <= j < i ==> !IsPreimage(sha, transactions[t][j], secretHash))
  }

  /**
   * The signatures of the transactions that took funds from the account, each possibly badly
   * encoded, are searched for the preimage.
   */
  method ExtractSecret(sha: Hash, transactions: seq<seq<Option<Bytes>>>, secretHash: Bytes) returns (r: Search)
    ensures r.Secret? ==>
              exists t, i :: 0 <= t < |transactions| && 0 <= i < |transactions[t]|
                             && transactions[t][i] == Some(r.value) && IsPreimage(sha, transactions[t][i], secretHash)
    ensures r.NotThere? <==>
            forall t, i :: 0 <= t < |transactions| && 0 <= i < |transactions[t]| ==>
              transactions[t][i].Some? && !IsPreimage(sha, transactions[t][i], secretHash)
    ensures r.BadEncoding? <==>
            exists t, i :: 0 <= t < |transactions| && 0 <= i < |transactions[t]| && transactions[t][i].None?
                           && NoneUpTo(sha, transactions, t, i, secretHash)
  {
    for t := 0 to |transactions|
      invariant forall u, i :: 0 <= u < t && 0 <= i < |transactions[u]| ==>
                  transactions[u][i].Some? && !IsPreimage(sha, transactions[u][i], secretHash)
    {
      for i := 0 to |transactions[t]|
        invariant forall j :: 0 <= j < i ==>
                    transactions[t][j].Some? && !IsPreimage(sha, transactions[t][j], secretHash)
      {
        var signature := transactions[t][i];
        if signature.None? {
          assert NoneUpTo(sha, transactions, t, i, secretHash);
          return BadEncoding;
        }
        if |signature.value| > MAX_PREIMAGE { continue; }
        if sha(signature.value) == secretHash {
          assert IsPreimage(sha, transactions[t][i], secretHash);
          return Secret(signature.value);
        }
      }
    }
    return NotThere;
  }

  // ---- Emptying the account ----

  datatype Line = Line(balance: nat, limit: nat)

  datatype Purse = Purse(native: nat, lines: map<Credit, Line>)

  type Ledger = map<Address, Purse>

  predicate CanTake(purse: Purse, who: Address, c: Credit, amount: nat) {
    who == c.issuer || (c in purse.lines && purse.lines[c].balance + amount <= purse.lines[c].limit)
  }

  /** An issuer that is paid its own credit has simply less of it outstanding. */
  function Credited(purse: Purse, who: Address, c: Credit, amount: nat): Purse
    requires CanTake(purse, who, c, amount)
  {
    if who == c.issuer then purse
    else Purse(purse.native, purse.lines[c := Line(purse.lines[c].balance + amount, purse.lines[c].limit)])
  }

  /** The network's rules for the operations that move funds; None when the operation fails. */
  function ApplyOp(l: Ledger, source: Address, op: Operation): Option<Ledger> {
    match op
    case Payment(to, c, amount) =>
      if amount == 0 || source !in l || to !in l then None
      else if c !in l[source].lines || l[source].lines[c].balance < amount then None
      else
        var line := l[source].lines[c];
        var paid := l[source := Purse(l[source].native, l[source].lines[c := Line(line.balance - amount, line.limit)])];
        if CanTake(paid[to], to, c, amount) then Some(paid[to := Credited(paid[to], to, c, amount)]) else None
    case ChangeTrust(c, limit, from) =>
      var who := if from.Some? then from.value else source;
      if who !in l then None
      else
        var had := if c in l[who].lines then l[who].lines[c].balance else 0;
        if limit > 0 then
          if limit < had then None else Some(l[who := Purse(l[who].native, l[who].lines[c := Line(had, limit)])])
        else if c !in l[who].lines || had > 0 then None
        else Some(l[who := Purse(l[who].native, l[who].lines - {c})])
    case AccountMerge(into, from) =>
      var who := if from.Some? then from.value else source;
      if who !in l || into !in l || into == who || l[who].lines != map[] then None
      else Some((l - {who})[into := Purse(l[into].native + l[who].native, l[into].lines)])
    case _ => Some(l)
  }

  /** A transaction's operations all take effect, or none does. */
  function Execute(l: Ledger, source: Address, ops: seq<Operation>): Option<Ledger>
    decreases |ops|
  {
    if ops == [] then Some(l)
    else
      match ApplyOp(l, source, ops[0])
      case None => None
      case Some(l') => Execute(l', source, ops[1..])
  }

  /** The balances listed for an account are its trust lines, each once, with lumens anywhere between. */
  predicate Listed(balances: seq<Balance>, lines: map<Credit, Line>) {
    if balances == [] then lines == map[]
    else
      match balances[0]
      case NativeBalance(_) => Listed(balances[1..], lines)
      case CreditBalance(c, amount) =>
        c in lines && lines[c].balance == amount && Listed(balances[1..], lines - {c})
  }

  /** There is some of every credit, and room for it with the receiver. */
  predicate CanDrain(l: Ledger, holding: Address, receiver: Address)
    requires holding in l && receiver in l
  {
    forall c :: c in l[holding].lines ==>
      l[holding].lines[c].balance > 0 && CanTake(l[receiver], receiver, c, l[holding].lines[c].balance)
  }

  /** A line after the same line of another account was paid into it. */
  function Joined(to: map<Credit, Line>, from: map<Credit, Line>, who: Address, c: Credit): Line
    requires c in to
  {
    if c in from && who != c.issuer then Line(to[c].balance + from[c].balance, to[c].limit) else to[c]
  }

  /** All of one account's funds with the other, and the account gone. */
  function Drained(l: Ledger, holding: Address, receiver: Address): Ledger
    requires holding in l && receiver in l
  {
    var h, r := l[holding], l[receiver];
    var lines := map c | c in r.lines :: Joined(r.lines, h.lines, receiver, c);
    (l - {holding})[receiver := Purse(r.native + h.native, lines)]
  }

  lemma {:induction false} ExecuteTwo(l: Ledger, source: Address, a: Operation, b: Operation, rest: seq<Operation>)
    ensures Execute(l, source, [a, b] + rest) ==
            match ApplyOp(l, source, a)
            case None => None
            case Some(l1) => match ApplyOp(l1, source, b) case None => None case Some(l2) => Execute(l2, source, rest)
  {
    hide ApplyOp;
    var ops := [a, b] + rest;
    assert ops[1..] == [b] + rest;
    assert ops[1..][1..] == rest;
  }

  /** The ledger after one credit has been handed on and its line closed. */
  function HandedOn(l: Ledger, holding: Address, receiver: Address, c: Credit): Ledger
    requires holding in l && receiver in l && c in l[holding].lines
    requires CanTake(l[receiver], receiver, c, l[holding].lines[c].balance)
  {
    var h := l[holding];
    l[receiver := Credited(l[receiver], receiver, c, h.lines[c].balance)][holding := Purse(h.native, h.lines - {c})]
  }

  lemma {:induction false} HandOn(l: Ledger, holding: Address, receiver: Address, c: Credit, rest: seq<Operation>)
    requires holding in l && receiver in l && holding != receiver && c in l[holding].lines
    ensures var amount := l[holding].lines[c].balance;
            Execute(l, holding, [Payment(receiver, c, amount), ChangeTrust(c, 0, Some(holding))] + rest) ==
            if amount > 0 && CanTake(l[receiver], receiver, c, amount)
            then Execute(HandedOn(l, holding, receiver, c), holding, rest) else None
  {
    var amount := l[holding].lines[c].balance;
    var pay, close := Payment(receiver, c, amount), ChangeTrust(c, 0, Some(holding));
    ExecuteTwo(l, holding, pay, close, rest);
    if amount > 0 && CanTake(l[receiver], receiver, c, amount) {
      var l1 := ApplyOp(l, holding, pay).value;
      var l2 := ApplyOp(l1, holding, close).value;
      assert l1[holding].lines - {c} == l[holding].lines - {c};
      assert l2 == HandedOn(l, holding, receiver, c);
    }
  }

  lemma {:induction false} HandedOnCanDrain(l: Ledger, holding: Address, receiver: Address, c: Credit)
    requires holding in l && receiver in l && holding != receiver && c in l[holding].lines
    requires l[holding].lines[c].balance > 0 && CanTake(l[receiver], receiver, c, l[holding].lines[c].balance)
    ensures CanDrain(HandedOn(l, holding, receiver, c), holding, receiver) <==> CanDrain(l, holding, receiver)
  {
    var l' := HandedOn(l, holding, receiver, c);
    var h, h' := l[holding].lines, l'[holding].lines;
    forall d ensures d in h' <==> d in h && d != c {}
    forall d | d in h && d != c
      ensures CanTake(l'[receiver], receiver, d, h'[d].balance) <==> CanTake(l[receiver], receiver, d, h[d].balance) {}
  }

  lemma {:induction false} HandedOnDrained(l: Ledger, holding: Address, receiver: Address, c: Credit)
    requires holding in l && receiver in l && holding != receiver && c in l[holding].lines
    requires CanTake(l[receiver], receiver, c, l[holding].lines[c].balance)
    ensures Drained(HandedOn(l, holding, receiver, c), holding, receiver) == Drained(l, holding, receiver)
  {
    var l' := HandedOn(l, holding, receiver, c);
    var h, r, h', r' := l[holding].lines, l[receiver].lines, l'[holding].lines, l'[receiver].lines;
    assert r'.Keys == r.Keys;
    assert forall d :: d in r ==> Joined(r', h', receiver, d) == Joined(r, h, receiver, d);
    assert (map d | d in r' :: Joined(r', h', receiver, d)) == (map d | d in r :: Joined(r, h, receiver, d));
    assert l' - {holding} == (l - {holding})[receiver := l'[receiver]];
  }

  /**
   * The operations both transactions consist of empty the account: they succeed exactly when
   * every credit can be handed on, and then the receiver has all of it and the account is gone.
   */
  lemma {:induction false} DrainExact(l: Ledger, balances: seq<Balance>, holding: Address, receiver: Address)
    requires holding in l && receiver in l && holding != receiver && Listed(balances, l[holding].lines)
    ensures Execute(l, holding, RedeemOps(balances, holding, receiver)) ==
            if CanDrain(l, holding, receiver) then Some(Drained(l, holding, receiver)) else None
  {
    hide CanDrain, Drained;
    if balances == [] {
      DrainBase(l, holding, receiver);
    } else if balances[0].NativeBalance? {
      DrainExact(l, balances[1..], holding, receiver);
    } else {
      var c, rest := balances[0].credit, RedeemOps(balances[1..], holding, receiver);
      var two := [Payment(receiver, c, balances[0].amount), ChangeTrust(c, 0, Some(holding))];
      Assoc(two, CreditOps(balances[1..], holding, receiver), [AccountMerge(receiver, Some(holding))]);
      HandOn(l, holding, receiver, c, rest);
      if CanDrain(l, holding, receiver) { DrainOne(l, holding, receiver, c); }
      if balances[0].amount > 0 && CanTake(l[receiver], receiver, c, balances[0].amount) {
        HandedOnCanDrain(l, holding, receiver, c);
        HandedOnDrained(l, holding, receiver, c);
        DrainExact(HandedOn(l, holding, receiver, c), balances[1..], holding, receiver);
      }
    }
  }

  lemma DrainOne(l: Ledger, holding: Address, receiver: Address, c: Credit)
    requires holding in l && receiver in l && c in l[holding].lines && CanDrain(l, holding, receiver)
    ensures l[holding].lines[c].balance > 0 && CanTake(l[receiver], receiver, c, l[holding].lines[c].balance)
  {
  }

  lemma {:induction false} DrainBase(l: Ledger, holding: Address, receiver: Address)
    requires holding in l && receiver in l && holding != receiver && l[holding].lines == map[]
    ensures CanDrain(l, holding, receiver)
    ensures Execute(l, holding, RedeemOps([], holding, receiver)) == Some(Drained(l, holding, receiver))
  {
    var merge := AccountMerge(receiver, Some(holding));
    var r := l[receiver];
    assert RedeemOps([], holding, receiver) == [merge];
    assert (map c | c in r.lines :: Joined(r.lines, map[], receiver, c)) == r.lines;
    assert Execute(l, holding, [merge]) == ApplyOp(l, holding, merge);
  }
}
