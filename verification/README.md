# Atomic swaps: a verified model

The repository implements one protocol on three chains. An initiator locks funds against the
hash of a secret for 48 hours, a participant locks funds against the same hash for 24 hours, the
initiator redeems the participant's funds and shows the secret by doing so, and the participant
uses it to redeem the initiator's. A lock is an entry in a Solidity contract, a Bitcoin output
that pays to the hash of a script, or a Stellar account with weighted signers.

This project models the contracts, the transactions and calls that spend them, and the checks
the command-line tools make, and proves what the protocol is for: over every run between any two
of the chains, whoever makes whatever transactions, each lock is opened only by a party its terms
name, who alone decides where the funds go, and neither party who follows the protocol has their
lock opened without being able to open the other's (`CrossChain.SwapAtomicity`). Either party can
bring the swap to an end (`CrossRuns.ParticipantSettles`, `CrossRuns.InitiatorSettles`), and any
pair of chains can complete it (`CrossRuns.EveryPairCompletes`).

| module | what it models |
|---|---|
| `Bytes` | byte strings, hash functions as values, options |
| `Htlc`, `TwoChain` | the abstract contract and the machine of two of them, with its safety and progress theorems |
| `EthContract`, `EthRuns` | the Solidity contract as a class over its storage, and what holds after any calls |
| `EthAmount`, `EthClient` | decimal amounts, and the Ethereum tool's checks before it sends a call |
| `ScriptNum`, `Script` | script numbers, script bytes, the script builder |
| `BtcContract`, `BtcEngine`, `BtcSpend`, `BtcP2sh` | the contract script, the script engine, and which stacks and signature scripts spend the contract |
| `BtcTx`, `BtcBuild`, `BtcExtract` | serialization, size estimates and fees, the built transactions and their finality, reading the secret |
| `StellarAccount`, `StellarSwap` | signers, weights and the audit; setting up, draining and refunding the holding account |
| `CrossChain` | the three kinds of lock as one abstract contract, and atomicity of swaps between them |
| `CrossRuns` | what the parties can bring about across the chains: ending a swap alone, completing it together |

Hash functions, signature checks, transaction hashes and the wallet are parameters; nothing is
assumed of them but what a lemma says. Theorems about a script hash assume that no second script
has the hash of the contract, and theorems about a Stellar refund that no second transaction has
the hash of the refund. Time is in seconds and one clock serves both chains.

## Where a promise does not hold as stated

- The refund guard of the Solidity contract adds two times modulo 2^256. If the sum wraps, the guard
  is open from the creation of the swap on: `EthRuns.RefundGuardExact` is exact,
  `EthRuns.RefundedAtOnce` gives the run, and the refinement assumes that it does not.
- The Ethereum tool computes the same deadline in 64 bits and shows it on Go's clock;
  `EthClient.RefundPrecheckExact` says exactly when it still agrees with the contract.
- A contract with lock time -1 is not recognised by the tool that built it, nor is one beyond five
  bytes; `BtcContract.ExtractBuilt` is exact. A script that pushes -1 as data is recognised, though
  the tool would build another for the terms it reads; `BtcContract.ExtractExact` is exact and
  `BtcContract.MinusOneRecognised` gives the script. A lock time from 2^32 on is truncated in the
  transaction and can then never be met; `BtcBuild.RefundTakenAfter` is exact.
- The fee is rounded down, so below 250 satoshis per 1000 bytes it can miss the rate by less than
  one satoshi; `BtcTx.FeeCovers` is exact and `BtcBuild.RefundMissesRate` gives a transaction. The comment in `cmd/btcatomicswap/sizeest.go` speaks of
  bytes for an expiry that Bitcoin transactions do not have: these are the four spare bytes.
- Bitcoin and Solidity open a refund after the deadline, Stellar at the deadline. Stellar takes
  preimages of any length up to 64, the others of exactly 32, so a Stellar lock answering another
  chain needs the extra condition of `CrossChain.PairsCompatible`; `TwoChain.ParticipantAtomicityExact`
  shows that it is needed.
- The Stellar audit refuses what the tool itself creates for any asset but lumens;
  `StellarSwap.CreatedPassesAudit` is exact. Draining an account fails on an empty trust line;
  `StellarSwap.DrainExact` is exact.
- The amount parser accepts two kinds of text that are no numerals, both with a plus sign, and takes
  one of them for a tenth of its digits; `EthAmount.ParseExact` says for every text whether it is
  accepted and for how much, and `EthAmount.LeadingPlus` and `EthAmount.PlusAfterPoint` give inputs.

## Model

| member | source | states |
|---|---|---|
| `TwoChain.InvStep` | timings/timings.go:6 | every act either party can take keeps the invariant: terms as locked, no deadline of a prompt participant missed, no secret known that was not shown by redeeming |
| `TwoChain.InvRun` | timings/timings.go:6 | the invariant holds after every sequence of acts |
| `TwoChain.ParticipantAtomicity` | cmd/btcatomicswap/main.go:764 | over every run, a prompt participant who locks `gap` after the initiator and reacts within `reaction`, with gap + 2 * reaction at most 24 hours, never has their contract redeemed and the initiator's refunded |
| `TwoChain.ParticipantAtomicityExact` | cmd/btcatomicswap/main.go:694 | the timing bound and the rule that a secret fitting the second lock fits the first are necessary too: some run cheats the participant if and only if one of them fails |
| `TwoChain.ParticipantCanSettle` | cmd/btcatomicswap/main.go:60-74 | from every reachable state where the participant has locked, waiting and their own moves alone lead to their refund or to the initiator's funds |
| `TwoChain.InitiatorCanSettle` | cmd/btcatomicswap/main.go:60-74 | whatever the participant does, from every reachable state where the initiator has locked, waiting and their own refund lead to that refund, or they have the participant's funds already |
| `TwoChain.InitiatorSafety` | cmd/btcatomicswap/main.go:60-74 | over every run and with no timing assumption, if the secret is shown only by redeeming, the initiator's contract is redeemed only if the participant's was |
| `TwoChain.InitiatorSafetyExact` | cmd/btcatomicswap/main.go:60-74 | some run cheats the initiator if and only if the secret may leak before the redemption |
| `TwoChain.WhoIsPaid` | cmd/btcatomicswap/main.go:60-74 | over every run, a contract is redeemed only by the other party and refunded only by the party that locked it, each under the name its chain knows |
| `TwoChain.BothOrNeither` | cmd/btcatomicswap/main.go:60-74 | once both contracts are settled they are both redeemed or both refunded |
| `CrossChain.EthRefines` | cmd/ethatomicswap/contract/src/contracts/AtomicSwap.sol:65-87 | any call that changes a filled entry is a redemption or refund the abstract contract allows, with the entry's recipient, hash and deadline |
| `CrossChain.BtcRefines` | cmd/btcatomicswap/main.go:1096-1142 | any input of any final transaction that spends and unlocks the lock's coin is a redemption whose secret is among its pushed data, or a refund after the lock time, as its selector says |
| `CrossChain.StellarRefines` | cmd/stellaratomicswap/main.go:380-431 | any transaction with enough weight on the holding account is the refund from its lower time bound on, to the destination of its merge, or a redemption signed by the recipient and showing the preimage |
| `CrossChain.EveryChainRefines` | cmd/ethatomicswap/contract/src/contracts/AtomicSwap.sol:65-87 | all three kinds of lock refine one hash-time-locked contract with the same recipient, refundee, hash and deadline, for every spend their chain accepts |
| `CrossChain.EthServes` | cmd/ethatomicswap/main.go:985-1058 | the redeem and refund calls are accepted exactly when the abstract contract enables the event |
| `CrossChain.BtcServesRedeem` | cmd/btcatomicswap/main.go:864-883 | the redeem transaction built on the lock's coin pays the value less the fee to the given script, and is carried out exactly when the abstract contract enables the redemption and the fee is between 0 and the value |
| `CrossChain.BtcServesRefund` | cmd/btcatomicswap/main.go:635-657 | the refund transaction built on the lock's coin pays the value less the fee to the given script, and is carried out exactly when the abstract contract enables the refund and the fee is between 0 and the value |
| `CrossChain.StellarPerforms` | cmd/stellaratomicswap/main.go:804-830 | of any sound account the redeem, and a refund that is next in turn, are carried out exactly when the event is enabled and the receiver can hold every balance |
| `CrossChain.StellarServes` | cmd/stellaratomicswap/main.go:494-526 | of an account the tool set up, its refund and redeem transactions, with their source, sequence numbers, bounds and operations, are carried out exactly when the event is enabled and the receiver can hold every balance |
| `CrossChain.StellarAuditEstablishes` | cmd/stellaratomicswap/main.go:629-709 | every account that passes the audit, whatever it holds, is a sound lock whose terms are those the audit shows |
| `CrossChain.BtcAuditEstablishes` | cmd/btcatomicswap/main.go:993-1019 | a script that passes the audit is the contract of a sound lock with the terms shown iff the lock time shown is a 32-bit time and not a block height |
| `CrossChain.StepSimulates` | cmd/btcatomicswap/main.go:60-74 | each step of a swap between concrete locks on any two chains, with the parties each chain names, is a step of the two-chain machine |
| `CrossChain.RunSimulates` | cmd/btcatomicswap/main.go:60-74 | hence every run of concrete calls and transactions maps to a run of the two-chain machine |
| `CrossChain.SwapAtomicity` | cmd/btcatomicswap/main.go:60-74 | for every run between any two of the three chains, over arbitrary calls and transactions: which party opened each settled lock, participant atomicity, initiator safety, and both redeemed by the other party or both refunded |
| `CrossRuns.RedeemServed` | cmd/btcatomicswap/main.go:60-74 | on every chain, whenever the terms allow the redemption a spend of the recipient, of this lock's funds, is carried out and reads as that event |
| `CrossRuns.RefundServed` | cmd/btcatomicswap/main.go:60-74 | on every chain, whenever the terms allow the refund a spend of the owner, of this lock's funds, is carried out and reads as that event |
| `CrossRuns.ParticipantSettles` | cmd/btcatomicswap/main.go:60-74 | from every reachable state of a concrete swap in which both have locked, waiting and carried-out spends of the participant alone lead to their refund or to the initiator's funds |
| `CrossRuns.InitiatorSettles` | cmd/btcatomicswap/main.go:60-74 | whatever the participant does, waiting and the initiator's carried-out refund lead to that refund, or they have the participant's funds already |
| `CrossRuns.EthToolOffers` | cmd/ethatomicswap/main.go:940-983 | the Ethereum tool's calls, with its own 48 and 24 hour periods, make the first and the second lock of the protocol |
| `CrossRuns.SetupOffers` | cmd/btcatomicswap/main.go:690-694 | on every chain, what the tool locks as first or second party is a sound lock with exactly the recipient, owner, hash and deadline asked for, which either party can open |
| `CrossRuns.Completes` | cmd/btcatomicswap/main.go:60-74 | from two such locks and a secret both take, four acts from the start end with each party having opened the other's lock |
| `CrossRuns.EveryPairCompletes` | cmd/btcatomicswap/main.go:60-74 | for each of the nine pairs of chains there is such a completed run from what the tools lock |
| `CrossChain.PairsCompatible` | cmd/stellaratomicswap/main.go:380-431 | which pairs of chains have compatible secrets, and for a Stellar lock answering another chain the exact condition |
| `EthContract.AtomicSwap.constructor` | cmd/ethatomicswap/contract/src/contracts/AtomicSwap.sol:16-26 | a deployed contract has an empty mapping, no balance and no events |
| `EthContract.AtomicSwap.InitiateSwap` | cmd/ethatomicswap/contract/src/contracts/AtomicSwap.sol:105-127 | accepted exactly on ether, a lock period and an unused hash; the entry, the event and the growth of the balance are the ether sent, the block time and the parties of the call; a failed call changes nothing |
| `EthContract.AtomicSwap.ParticipateSwap` | cmd/ethatomicswap/contract/src/contracts/AtomicSwap.sol:129-151 | the same for the participant's lock, with the roles exchanged |
| `EthContract.AtomicSwap.RedeemSwap` | cmd/ethatomicswap/contract/src/contracts/AtomicSwap.sol:153-169 | pays the entry's value and closes exactly when the sender is the party the kind names and the secret hashes to the key; nothing else of the entry changes |
| `EthContract.AtomicSwap.RefundSwap` | cmd/ethatomicswap/contract/src/contracts/AtomicSwap.sol:171-185 | pays the entry's value and closes exactly when the sender is the owner and the block time is past the wrapped deadline; nothing else of the entry changes |
| `EthRuns.InvStep` | cmd/ethatomicswap/contract/src/contracts/AtomicSwap.sol:105-185 | every call by anybody keeps: entries well formed, one creation and at most one payout per hash in the log, log and storage in agreement |
| `EthRuns.InvRun` | cmd/ethatomicswap/contract/src/contracts/AtomicSwap.sol:105-185 | the invariant holds after any sequence of calls, reverted ones included |
| `EthRuns.CreationExact` | cmd/ethatomicswap/contract/src/contracts/AtomicSwap.sol:105-151 | after any run, a creation by either call stores the ether sent, the block time, the lock period and both parties in their roles, and the balance grows by that ether; accepted exactly on an unused hash with ether and a lock period |
| `EthRuns.BooksStep` | cmd/ethatomicswap/contract/src/contracts/AtomicSwap.sol:105-185 | one call changes the balance and the logged payouts by exactly the ether sent with an accepted creation, and the open value and the logged deposits with them |
| `EthRuns.Conservation` | cmd/ethatomicswap/contract/src/contracts/AtomicSwap.sol:105-185 | after any calls the balance, less ether forced on the contract, is the value of the open swaps, and with the payouts it is the ether sent along with the accepted creations |
| `EthRuns.LogFaithful` | cmd/ethatomicswap/contract/src/contracts/AtomicSwap.sol:30-61 | replaying the event log rebuilds the whole mapping |
| `EthRuns.FollowsRun` | cmd/ethatomicswap/contract/src/contracts/AtomicSwap.sol:65-103 | between any two moments of any run an entry stays as it was or closes once, with its terms frozen |
| `EthRuns.Lifecycle` | cmd/ethatomicswap/contract/src/contracts/AtomicSwap.sol:65-185 | for every hash: Empty, Filled, then one of Redeemed or Refunded for ever; one payout of exactly the value to the party the kind names; a redeemed entry holds a preimage; a refund came after the deadline |
| `EthRuns.Solvency` | cmd/ethatomicswap/contract/src/contracts/AtomicSwap.sol:153-185 | in every reachable state a payout that passes its guard is covered by the balance, so the guards alone decide |
| `EthRuns.RefundGuardExact` | cmd/ethatomicswap/contract/src/contracts/AtomicSwap.sol:65-76 | from the creation of the swap on, the guard opens exactly after the lock period iff the sum of the two times does not wrap, and is open at once and always iff it does |
| `EthRuns.RefundedAtOnce` | cmd/ethatomicswap/contract/src/contracts/AtomicSwap.sol:171-185 | after any run, a swap created and refunded in the same block ends Refunded iff the sum wraps, and else stays Filled |
| `EthClient.RedeemPrecheckExact` | cmd/ethatomicswap/main.go:985-1021 | in every reachable state the tool proceeds to redeem exactly when the modifier passes |
| `EthClient.RefundChecks` | cmd/ethatomicswap/main.go:1023-1058 | for any sender and any state of the swap, the tool proceeds as the modifier says whenever the two agree on the time, and against it for the owner of an open swap when they do not |
| `EthClient.RefundPrecheck` | cmd/ethatomicswap/main.go:1023-1058 | for every hash, sender, state and clock reading the tool proceeds exactly when the modifier passes, if the deadline it computes in 64 bits is the contract's, capped at the last time its clock can show |
| `EthClient.RefundPrecheckExact` | cmd/ethatomicswap/main.go:1023-1058 | for an open swap that condition is also necessary for agreement at every clock reading and for every sender |
| `EthClient.PrecheckDeadlines` | cmd/ethatomicswap/main.go:1060-1065 | that condition holds whenever the two times add up inside the range of the clock, and fails for a lock of 2^64 seconds |
| `EthClient.TimeUntilSign` | cmd/ethatomicswap/main.go:1048-1051 | the truncated remaining duration is negative exactly from one whole second past the deadline on, or when the time wraps |
| `EthClient.CreatePrecheckExact` | cmd/ethatomicswap/main.go:940-983 | every parsed amount on an unused hash, and only there, passes the creation guards with either lock period |
| `EthAmount.ParseEthAsWei` | cmd/ethatomicswap/main.go:178-228 | the imperative parser computes the specification function, errors included |
| `EthAmount.OnlyZeros` | cmd/ethatomicswap/main.go:203-207 | the digit loop accepts exactly the strings of zeros |
| `EthAmount.FormatWeiAsEthString` | cmd/ethatomicswap/main.go:230-250 | the imperative printer computes the specification function |
| `EthAmount.ParseDenotes` | cmd/ethatomicswap/main.go:178-228 | on every numeral the parser accepts iff the value is positive and no digit past the 18th decimal is nonzero, and returns the value times 10^18 |
| `EthAmount.ParsePositive` | cmd/ethatomicswap/main.go:178-228 | whatever text is accepted, the amount is positive |
| `EthAmount.RoundTrip` | cmd/ethatomicswap/main.go:178-250 | for every positive amount the printed text is canonical and parses back to it |
| `EthAmount.RoundTripText` | cmd/ethatomicswap/main.go:178-250 | for every canonical numeral that parses, printing the result gives back the text |
| `EthAmount.ParseExact` | cmd/ethatomicswap/main.go:178-228 | for every string: a numeral, with or without a plus in front, is taken for its value; a plus after a leading point takes up a decimal place; in each case the exact condition and the amount; nothing else is accepted |
| `EthAmount.LeadingPlus` | cmd/ethatomicswap/main.go:178-228 | a plus and a digit is no numeral and parses as the digit |
| `EthAmount.PlusAfterPoint` | cmd/ethatomicswap/main.go:178-228 | a point, a plus and a digit is no numeral and parses as a hundredth of the digit |
| `ScriptNum.Magnitude` | vendor/github.com/btcsuite/btcd/txscript/scriptnum.go:107-111 | the byte loop computes the little-endian magnitude |
| `ScriptNum.EncodeNum` | vendor/github.com/btcsuite/btcd/txscript/scriptnum.go:92-132 | the whole encoder computes the sign-magnitude encoding |
| `ScriptNum.ValueOfEncode` | vendor/github.com/btcsuite/btcd/txscript/scriptnum.go:92-132 | every number is read back from its encoding, which is minimal |
| `ScriptNum.EncodeOfValue` | vendor/github.com/btcsuite/btcd/txscript/scriptnum.go:50-75 | every minimal byte string is the encoding of its value |
| `ScriptNum.FitsFive` | vendor/github.com/btcsuite/btcd/txscript/scriptnum.go:92-132 | a number takes at most five bytes iff its magnitude is below 2^39, sign byte included |
| `ScriptNum.DecodeEncode` | vendor/github.com/btcsuite/btcd/txscript/scriptnum.go:185-225 | the lock time reader gives back exactly the five-byte numbers and rejects all others |
| `Script.ParseUnparse` | vendor/github.com/btcsuite/btcd/txscript/script.go:197-279 | parsing the bytes of any well-formed instructions gives them back |
| `Script.UnparseParse` | vendor/github.com/btcsuite/btcd/txscript/script.go:197-279 | whatever parses is byte for byte the instructions read, all well formed |
| `Script.UnparseAppend` | vendor/github.com/btcsuite/btcd/txscript/script.go:197-279 | bytes of a concatenation are the concatenated bytes |
| `Script.PushBytes` | vendor/github.com/btcsuite/btcd/txscript/scriptbuilder.go:128-169 | the bytes of the push of any data up to 520 bytes |
| `Script.ScriptBuilder.constructor` | vendor/github.com/btcsuite/btcd/txscript/scriptbuilder.go:58-74 | an empty, unfailed builder |
| `Script.ScriptBuilder.AddOp` | vendor/github.com/btcsuite/btcd/txscript/scriptbuilder.go:58-74 | appends the opcode, or fails for good exactly past the script size limit |
| `Script.ScriptBuilder.AppendPush` | vendor/github.com/btcsuite/btcd/txscript/scriptbuilder.go:128-169 | appends the shortest push of the data |
| `Script.ScriptBuilder.AddData` | vendor/github.com/btcsuite/btcd/txscript/scriptbuilder.go:193-221 | appends the canonical push, or fails exactly past the element or script size limit |
| `Script.ScriptBuilder.AddInt64` | vendor/github.com/btcsuite/btcd/txscript/scriptbuilder.go:226-252 | appends the small-integer opcode or the push of the encoded number, or fails past the script size limit |
| `Script.CanonicalDataSize` | vendor/github.com/btcsuite/btcd/txscript/scriptbuilder.go:99-122 | the predicted size is the size of the push really appended |
| `BtcContract.AtomicSwapContract` | cmd/btcatomicswap/main.go:1096-1142 | the builder calls produce the bytes of the contract instructions, and fail exactly when the secret hash cannot be pushed |
| `BtcContract.ContractBytes` | cmd/btcatomicswap/main.go:1096-1142 | the contract byte for byte, with its two key hashes, secret hash and lock time push in their places |
| `BtcContract.NumberBytes` | vendor/github.com/btcsuite/btcd/txscript/scriptbuilder.go:226-252 | the bytes of the push of any 64-bit lock time |
| `BtcContract.ParseContract` | cmd/btcatomicswap/main.go:1096-1142 | the built bytes parse to the contract instructions |
| `BtcContract.ExtractBuilt` | vendor/github.com/btcsuite/btcd/txscript/standard.go:647-707 | recognising a built contract returns both key hashes, the secret hash, size 32 and the lock time iff the hash has 32 bytes and the lock time fits five bytes and is not -1; otherwise it is not recognised |
| `BtcContract.ExtractSound` | vendor/github.com/btcsuite/btcd/txscript/standard.go:647-707 | every recognised script, whatever secret size it asks for, is byte for byte determined by the terms that were read |
| `BtcContract.RecognisedExact` | vendor/github.com/btcsuite/btcd/txscript/standard.go:647-707 | conversely every script determined by a 32-byte hash and five-byte numbers is recognised with exactly those terms |
| `BtcContract.ExtractExact` | vendor/github.com/btcsuite/btcd/txscript/standard.go:647-707 | with secret size 32 it is the contract built from the terms read iff the lock time read is not -1 |
| `BtcContract.MinusOneRecognised` | vendor/github.com/btcsuite/btcd/txscript/standard.go:647-707 | for any parties and hash there is a recognised script with lock time -1 that the builder does not write |
| `BtcContract.RecognisedRange` | vendor/github.com/btcsuite/btcd/txscript/standard.go:647-707 | the lock time of a recognised script fits five bytes |
| `BtcEngine.RunAppend` | vendor/github.com/btcsuite/btcd/txscript/engine.go:442-526 | running a concatenation is running its parts in turn |
| `BtcEngine.RunSkipped` | vendor/github.com/btcsuite/btcd/txscript/opcode.go:977-1069 | in a branch not taken no instruction changes anything |
| `BtcEngine.AsBoolExact` | vendor/github.com/btcsuite/btcd/txscript/stack.go:13-24 | false are exactly strings of zeros, with or without a sign bit at the end |
| `BtcEngine.MinimalExact` | vendor/github.com/btcsuite/btcd/txscript/opcode.go:695-743 | the one minimal push of given data is the builder's, save for a lone zero byte |
| `BtcEngine.LockMetExact` | vendor/github.com/btcsuite/btcd/txscript/opcode.go:1102-1194 | the lock time check holds exactly in a non-final input, with a lock time of the same kind that has been reached |
| `BtcEngine.PushedExact` | vendor/github.com/btcsuite/btcd/txscript/script.go:166-181 | what any signature script leaves: its items in order iff it is readable, within the limits and made only of good pushes, and else nothing |
| `BtcSpend.SecretRun` | cmd/btcatomicswap/main.go:1104-1111 | the secret check passes exactly on a 32-byte preimage and consumes it |
| `BtcSpend.KeyRun` | cmd/btcatomicswap/main.go:1116-1118 | the key check leaves the hash of the key beside the wanted hash |
| `BtcSpend.LockRun` | cmd/btcatomicswap/main.go:1124-1126 | the lock check passes exactly when BIP 65 holds of the spending transaction and the lock time |
| `BtcSpend.SignatureRun` | cmd/btcatomicswap/main.go:1135-1139 | the tail leaves the verdict on the signature exactly when the key hashes agree |
| `BtcSpend.NoThirdWay` | cmd/btcatomicswap/main.go:1085-1142 | from every stack of any height and contents the contract succeeds iff the stack is a redeeming one or a refunding one with the lock time met |
| `BtcP2sh.RedeemP2SHContract` | cmd/btcatomicswap/main.go:1147-1155 | builds signature, key, secret, true and contract as canonical pushes, and fails exactly when one is too long |
| `BtcP2sh.RefundP2SHContract` | cmd/btcatomicswap/main.go:1160-1167 | builds signature, key, false and contract, and fails exactly when one is too long |
| `BtcP2sh.HashCheck` | vendor/github.com/btcsuite/btcd/txscript/engine.go:442-526 | the output script succeeds exactly when the top item hashes to the script hash |
| `BtcP2sh.SpendsExactly` | vendor/github.com/btcsuite/btcd/txscript/engine.go:442-526 | for every signature script: the output is spent iff the script only pushes and leaves the contract on a redeeming or refunding stack |
| `BtcP2sh.BuiltRedeemSpends` | cmd/btcatomicswap/main.go:1147-1155 | the built redeem script spends iff secret, key and signature are right, at any lock time |
| `BtcP2sh.BuiltRefundSpends` | cmd/btcatomicswap/main.go:1160-1167 | the built refund script spends iff the lock check is met and key and signature are the owner's |
| `BtcP2sh.ContractSize` | cmd/btcatomicswap/main.go:1096-1142 | every contract has 92 bytes and the push of its lock time, which takes 1 to 10 |
| `BtcP2sh.FoundIsPushable` | vendor/github.com/btcsuite/btcd/txscript/standard.go:647-707 | every recognised script, whatever numbers it holds, is short enough to be pushed |
| `BtcTx.VarIntSize` | vendor/github.com/btcsuite/btcd/wire/common.go:568-587 | the computed size is the length of the encoding |
| `BtcTx.OutSize` | vendor/github.com/btcsuite/btcd/wire/msgtx.go:268-272 | the computed size is the length of the serialized output |
| `BtcTx.OneInputSize` | vendor/github.com/btcsuite/btcd/wire/msgtx.go:789-804 | the serialized length of any transaction with one input, in terms of the sizes of its parts |
| `BtcTx.SumOutputSerializeSizes` | cmd/btcatomicswap/sizeest.go:40-45 | the loop returns the length of all serialized outputs |
| `BtcTx.EstimateRedeemSerializeSize` | cmd/btcatomicswap/sizeest.go:61-74 | the estimate, through the builder's push of the contract, for any outputs |
| `BtcTx.EstimateRefundSerializeSize` | cmd/btcatomicswap/sizeest.go:78-91 | the same for the refund |
| `BtcTx.RedeemEstimateSafe` | cmd/btcatomicswap/sizeest.go:61-74 | for every contract, outputs and signature up to 73 bytes the estimate is at least the serialized length plus 4, across the steps of every length prefix |
| `BtcTx.RefundEstimateSafe` | cmd/btcatomicswap/sizeest.go:78-91 | the same for the refund |
| `BtcTx.RedeemEstimateTight` | cmd/btcatomicswap/sizeest.go:61-74 | with a signature of 73, a key of 33 and a secret of 32 bytes the redeem estimate is the serialized length plus exactly 4 |
| `BtcTx.RefundEstimateTight` | cmd/btcatomicswap/sizeest.go:78-91 | with a signature of 73 and a key of 33 bytes the refund estimate is the serialized length plus exactly 4 |
| `BtcTx.FeeExact` | vendor/github.com/btcsuite/btcwallet/wallet/txrules/rules.go:86-98 | for any rate and size whose product fits 64 bits: the fee is the whole satoshis due, the rate itself where none are, and all the satoshis there are above that or below zero |
| `BtcTx.FeeCovers` | vendor/github.com/btcsuite/btcwallet/wallet/txrules/rules.go:86-98 | the fee covers the rate on every size the estimate allows iff the four spare bytes outweigh what the rounding or the cap drops, which holds from 250 satoshis per 1000 bytes up to the cap |
| `BtcTx.FeeOnSize` | vendor/github.com/btcsuite/btcwallet/wallet/txrules/rules.go:86-98 | on any one size the fee is short by less than a satoshi below the cap, and covers the rate under that condition |
| `BtcBuild.RefundMissesRate` | cmd/btcatomicswap/main.go:638-640 | at 4 satoshis per 1000 bytes the refund the tool builds for an ordinary contract has 293 bytes and pays one satoshi, short of the rate |
| `BtcBuild.ScriptHashBytes` | cmd/btcatomicswap/main.go:598-601 | the output script that pays to a script hash, byte for byte |
| `BtcBuild.SameOutput` | cmd/btcatomicswap/main.go:830-842 | recognising the output by reading its script and by comparing bytes pick the same outputs |
| `BtcBuild.FindByBytes` | cmd/btcatomicswap/main.go:603-613 | the search returns the first paying output, or none iff there is none |
| `BtcBuild.FindByReading` | cmd/btcatomicswap/main.go:994-1008 | the search by reading scripts returns the first paying output, or none iff there is none |
| `BtcBuild.AuditContract` | cmd/btcatomicswap/main.go:993-1019 | the audit passes iff the transaction pays the script and the script is recognised with secret size 32; the script is then the contract of the terms shown iff the lock time shown is not -1 |
| `BtcBuild.BuildRefund` | cmd/btcatomicswap/main.go:591-657 | spends the first contract output to the given script less the fee for the estimate, or fails for dust alone if the wallet holds the owner's key; of the tool's own contract the result unlocks iff the lock time fits 32 bits and is final exactly once the lock time it carries has gone by |
| `BtcBuild.BuildRedeem` | cmd/btcatomicswap/main.go:817-883 | spends the first contract output to the given script less the fee, or fails for dust or a secret too long to push; of the tool's own contract the result unlocks iff the secret is right and is final at any time; an unrecognised contract is refused |
| `BtcBuild.FillRefund` | cmd/btcatomicswap/main.go:635-657 | the transaction filled in step by step is the specified one, with the specified failures |
| `BtcBuild.FillRedeem` | cmd/btcatomicswap/main.go:864-883 | the same for the redeem command |
| `BtcBuild.RefundKeeps` | cmd/btcatomicswap/main.go:591-657 | the specified refund keeps what is promised of it, for every contract, funding, wallet and rate |
| `BtcBuild.RedeemKeeps` | cmd/btcatomicswap/main.go:817-883 | the specified redeem keeps what is promised of it |
| `BtcBuild.RefundTakenAfter` | cmd/btcatomicswap/main.go:635-657 | for every lock time: the built refund passes the script iff the lock time fits 32 bits, and is final iff the lock time it carries is zero or exceeded by the chain's height or time |
| `BtcBuild.RedeemTakenAnytime` | cmd/btcatomicswap/main.go:864-883 | the built redeem passes the script iff the secret is right and is final at any height and time, though it carries the same lock time |
| `BtcBuild.RefundPaysRate` | cmd/btcatomicswap/main.go:638-640 | the difference of the amounts is the fee, and it covers the rate on the signed transaction's length if the spare bytes outweigh the rounding; with a full-length signature, iff they do |
| `BtcBuild.RedeemPaysRate` | cmd/btcatomicswap/main.go:868-870 | the difference of the amounts is the fee, and it covers the rate on the signed transaction's length if the spare bytes outweigh the rounding; with a full-length signature, iff they do |
| `BtcExtract.ExtractSecret` | cmd/btcatomicswap/main.go:968-987 | what is found hashes to the secret hash and was pushed; nothing is found iff no input pushes a preimage; an error iff an unreadable script comes before any |
| `BtcExtract.DataExact` | vendor/github.com/btcsuite/btcd/txscript/standard.go:503-518 | an item is among the pushed data exactly when an instruction carries it, or it is empty and zero is pushed |
| `BtcExtract.BuiltRedeemReveals` | cmd/btcatomicswap/main.go:1147-1155 | every built redeem script with a 32-byte secret reveals it to the search |
| `BtcExtract.StackFromData` | vendor/github.com/btcsuite/btcd/txscript/standard.go:503-518 | whatever longer item a push-only script leaves on the stack is among its pushed data |
| `BtcExtract.SpendReads` | cmd/btcatomicswap/main.go:968-987 | any final transaction that spends the contract by its selector is a redemption whose secret the search sees, or a refund past the lock time |
| `BtcExtract.AnySpend` | cmd/btcatomicswap/main.go:1085-1142 | so any spend is signed by the recipient and reveals the secret, or is signed by the owner past the lock time |
| `StellarAccount.ReadSigners` | cmd/stellaratomicswap/main.go:633-677 | the loop computes the scan of the signers, rejections included |
| `StellarAccount.ScanExact` | cmd/stellaratomicswap/main.go:633-677 | for every signer list in any order, the scan reports what it does iff the signers of nonzero weight are exactly those that stand for it |
| `StellarAccount.AuditContract` | cmd/stellaratomicswap/main.go:629-709 | accepted iff thresholds are 2, the live signers are recipient, secret and this refund with weights 1, 1 and 2, and the refund is one merge from the account; crashes iff that merge names no source |
| `StellarAccount.AuditMeans` | cmd/stellaratomicswap/main.go:629-695 | of an audited account, at every level of authority, a proof suffices iff it is for the audited refund or has both the recipient's signature and the preimage |
| `StellarSwap.Fetched.constructor` | vendor/github.com/stellar/go/protocols/horizon/main.go:98-106 | a fetched account starts from the network's sequence number |
| `StellarSwap.Fetched.IncrementSequenceNumber` | vendor/github.com/stellar/go/protocols/horizon/main.go:98-106 | the copy's sequence number goes up by one and is returned |
| `StellarSwap.Fetched.Build` | vendor/github.com/stellar/go/txnbuild/transaction.go:95-169 | the transaction takes the next sequence number, which is used up even if the time bounds are invalid |
| `StellarSwap.CreateRedeemOperations` | cmd/stellaratomicswap/main.go:772-802 | the loop builds the specified operations for any balances |
| `StellarSwap.CreateRefundTransaction` | cmd/stellaratomicswap/main.go:322-347 | the refund takes the sequence number after next and the lock time as lower bound, and fails iff that is negative |
| `StellarSwap.CreateRedeemTransaction` | cmd/stellaratomicswap/main.go:804-822 | the redeem takes the next sequence number and has no time bounds |
| `StellarSwap.SigningApplied` | cmd/stellaratomicswap/main.go:380-431 | the options leave exactly the three signers and a master key without weight, with all thresholds 2 |
| `StellarSwap.HandedOverAudits` | cmd/stellaratomicswap/main.go:432-452 | the account handed over passes the audit of its signers in whatever order they are listed |
| `StellarSwap.CreatedPassesAudit` | cmd/stellaratomicswap/main.go:494-526 | the audit of what the tool creates returns the recipient, secret hash, refund address and lock time it was created with iff the account holds nothing but lumens, and else rejects it |
| `StellarSwap.BothTransactionsOpen` | cmd/stellaratomicswap/main.go:322-347 | after the hand-over the refund is accepted without signatures iff the lock time has come, and the redeem iff the secret is right |
| `StellarSwap.NoThirdWay` | cmd/stellaratomicswap/main.go:629-709 | every transaction the account's authority admits is the refund at or after the lock time, or carries recipient's signature and preimage |
| `StellarSwap.DrainExact` | cmd/stellaratomicswap/main.go:772-802 | for any balances in any order the operations succeed iff every credit is positive and the receiver can hold it, and then the receiver has everything, the account is gone and no other account changed |
| `StellarSwap.ExtractSecret` | cmd/stellaratomicswap/main.go:856-891 | what is found is a signature that hashes to the secret hash; nothing is found iff no signature does and all decode; an error iff one that does not decode comes before any that does |

## Left out

- ExtractBuilt: requires a lock time other than -2^63, on which the number encoder of the source panics, its negation being negative again; the same holds of AtomicSwapContract, ParseContract and the other lemmas about 64-bit lock times.
- AddInt64: requires a number other than -2^63 for the same reason.
- CreatePrecheckExact: requires an amount below 2^256 wei; a larger one parses and is no value a call can carry.
- ParticipantSettles: the means to act on the lock at hand (a solvent contract, a wallet with the key and a fee within the coin, room for the balances, the refund next in turn) and times below 2^256 are hypotheses; the same holds of InitiatorSettles and EveryPairCompletes.
- SwapAtomicity: that a party has opened a lock means that it alone authorised what happened to the funds; on Stellar such a transaction may leave them where they are, under its control.
- BtcAuditEstablishes: a lock until a block height is recognised and no lock of the swap machine, whose deadlines are times.
- EveryPairCompletes: a pair of locks on Ethereum is on two contracts, since one contract has one entry for each secret hash.
- BuildRefund: requires a recognised contract, where the source panics or dereferences a missing result.
- EstimateRedeemSerializeSize: requires a contract short enough to be pushed, where the source panics; the same holds of EstimateRefundSerializeSize.
- AuditContract: the messages that tell one rejection from another are not modelled, on either chain.
- ExtractSecret: on Bitcoin the search is over a given transaction, on Stellar over the given debiting transactions; fetching them is left out, and so is comparing hashes as hexadecimal text.
- Fetched.Build: validation of single operations, the base fee and memos are not modelled, and sequence numbers do not wrap.
- FeeCovers: requires a product of rate and estimate below 2^63, beyond which it wraps in the source; RefundPaysRate and RedeemPaysRate require the same.
- DrainExact: fees, reserves, offers and the authorisation flags of trust lines are not modelled.
- Script opcodes outside pay-to-script-hash outputs and the swap contract; a script with one fails in the model.
- The encoding rules for signatures and public keys, the signature hash types and the limit on operations: a signature check is one opaque verdict on the transaction without its signature scripts.
- OneInputSize: a serialized transaction is used for its length alone; reading one back is not modelled.
- Witness data: the built transactions have none.
- Mempool policy other than minimal pushes and a clean stack, reorganisations, and clocks that differ between the chains.
- Exact dust rules: a parameter of the two build methods.
- Reentrancy and gas in the Solidity contract: a transfer succeeds or reverts the call.
- Funding a contract (`payTo` in cmd/btcatomicswap/main.go and the funding transactions on Stellar): wallet and network calls.
- Floating-point amounts and fee rates as shown to the user.
- The RPC clients, key files, prompts, flags, text and JSON output, generated bindings and deployment scripts: plumbing with no protocol content.
