# SNIP-36 prover web: a verified model

This project models the logic of the SNIP-36 web prover that is hardest to see right by reading, and proves it for
all inputs, all runs and all interleavings:

- **Storage proofs.** The reads of an execution become one query; the query is flattened, cut into chunks of at most
  100 keys, fetched chunk by chunk and merged (`StorageQuery`, `StorageMerge`, `StorageReads`). The merged proof becomes
  a facts database (`FactsDb`).
- **CoinFlip.** The bank contract over an ERC-20 ledger (`Token`, `Bank`), the bank over whole runs (`BankRuns`), and the
  commit / deposit / confirm / reveal server interleaved with it (`Sessions`, `Server`).
- **SNIP-36 transactions.** Bit packing (`Packing`), the v3 hash with appended proof facts (`Signing`), and the payload
  that is sent (`Payload`, `Hex`).
- **Prefetched execution.** The state reader that cannot call back to the node (`StateReader`, `State`).
- **Multicalls and polling.** The two encoders of account calls, their decoder and their effect on the Counter contract
  (`Multicall`), and the deadline-bounded polling loops (`Polling`).

Poseidon, Pedersen, ECDSA, the leaf hashes, the RPC node and the clock are function parameters: every result holds for
all of them. Code that changes state in place is a class or a method with loops, proved against functions on values; the
lemmas are about those functions.

What the oracles stand for:

- The RPC node (`StorageMerge.Answer`) answers a request with the union of the Merkle paths of the keys asked for, one
  leaf per address in order, and one node map per storage entry in order, empty for an entry without keys. A node may
  also fail any request (`StorageReads.Honest`).
- The token (`Token`) follows EIP-20, methods `transfer` and `transferFrom`: a call that lacks balance or allowance
  reverts, and no call re-enters its caller. The bank ignores the returned bools, which is sound only for such a token.
- A program run over a state reader (`StateReader.Program`) is any function from the answers so far to the next request
  or the result.
- `sncast invoke` is two steps: sending the call, and the call landing on chain. Waiting for the transaction may time out,
  so a call that was sent may land after any later steps, in any order, or never; what the invocation returns is arbitrary.

Where code and documentation differ, the code is modelled. The header comment of the CoinFlip contract
(`tests/contracts/src/lib.cairo:241`) speaks of a Poseidon hash; the contract uses Pedersen. The comment in
`apps/coinflip/src/routes.rs:324` says the seed was locked at commit time; it is set by confirm-deposit, and a play request
may come first, so no claim is made that the seed has been set.

Some properties one might expect do not hold, and the exact condition is proved instead:

- Merging the answers to the chunks of a query gives the single answer on every block if and only if, of the entries for
  one address, only the last has keys (`StorageMerge.MergeRefinesExactly`); distinct addresses are a special case, and
  `StorageMerge.DuplicateAddressesMergeWrongly` is a query outside it.
- A receipt accepted by the polling may name no block (`Polling.AcceptedWithoutBlock`). It names one exactly when its
  field is a number or text of a shape given on characters (`Polling.AcceptedBlockNumber`).
- The facts database gives every hash of every proof that proof's own node if and only if the proofs agree on shared hashes
  (`FactsDb.OwnNodesExactlyWhenAgreed`); otherwise the last proof wins (`FactsDb.DisagreementLastWins`).
- The per-block check of the Counter playground takes a counter that does not read as 64 bits as 0 and may still pass
  (`Multicall.UnreadableStartPasses`); `Multicall.VerifyBlocks` says exactly when.

## Model

| member | source | states |
|---|---|---|
| StorageQuery.FlattenQuery | crates/starknet-transaction-prover-wasm/src/running/storage_proofs.rs:56-69 | the nested loops build the item list that all results on flattening are about |
| StorageQuery.FlattenCount | crates/starknet-transaction-prover-wasm/src/running/storage_proofs.rs:44-48 | the key count is the length of the flattened query |
| StorageQuery.CollectQuery | crates/starknet-transaction-prover-wasm/src/running/storage_proofs.rs:71-93 | the loop over items, joining a key to the last contract or opening a new one, computes the collected query |
| StorageQuery.FlattenCollect | crates/starknet-transaction-prover-wasm/src/running/storage_proofs.rs:56-93 | flattening undoes collecting if and only if the items are ordered by kind |
| StorageQuery.SliceRoundTrip | crates/starknet-transaction-prover-wasm/src/running/storage_proofs.rs:95-101 | every contiguous slice of a flattened query survives collect and flatten, also where it cuts one contract's keys |
| StorageQuery.CollectFlatten | crates/starknet-transaction-prover-wasm/src/running/storage_proofs.rs:56-93 | collecting a flattened query drops exactly the contracts without keys, if and only if no remaining neighbours share an address |
| StorageQuery.SplitIsPartition | crates/starknet-transaction-prover-wasm/src/running/storage_proofs.rs:95-101 | there are ceil(n / max) chunks, each of 1 to max keys, and their items put together are the query's items |
| StorageMerge.MergeStorageProofs | crates/starknet-transaction-prover-wasm/src/running/storage_proofs.rs:103-140 | the merge loops compute the merge fold; None is a failed assertion or the `expect` on an unknown address |
| StorageMerge.MergeFailsExactly | crates/starknet-transaction-prover-wasm/src/running/storage_proofs.rs:108-137 | for any proofs, honest or not, the merge fails exactly when there are none, their number differs, or a storage proof is for an address the query does not name |
| StorageMerge.AnyProofsMerged | crates/starknet-transaction-prover-wasm/src/running/storage_proofs.rs:103-140 | for any proofs, honest or not: roots of the first, leaves one after the other, storage proofs at the last position of their address, and of different nodes for one hash the last wins |
| StorageMerge.MergeAnyQuery | crates/starknet-transaction-prover-wasm/src/running/storage_proofs.rs:116-137 | for any non-empty query the `expect` never fires and classes, contract nodes, leaves and roots are those of the single answer; the position the index gives an address holds all paths asked under it |
| StorageMerge.MergeRefinesExactly | crates/starknet-transaction-prover-wasm/src/running/storage_proofs.rs:95-140 | for any query that asks anything and any chunk size: merging refines the single answer on every block if and only if of the entries for one address only the last has keys |
| StorageMerge.MergeRefinesSingle | crates/starknet-transaction-prover-wasm/src/running/storage_proofs.rs:95-140 | where the condition holds, merging the answers to the chunks gives the answer to the whole query for any chunk size; only the query of no keys is rejected |
| StorageMerge.DuplicateAddressesMergeWrongly | crates/starknet-transaction-prover-wasm/src/running/storage_proofs.rs:116-121 | a query with one address twice, both times with a key, for which the merged proof of some block is not its single answer |
| StorageReads.PrepareQuery | crates/starknet-transaction-prover-wasm/src/running/storage_proofs.rs:190-214 | asks every slot read exactly once under its own contract, every touched address once in increasing order, every executed class once |
| StorageReads.SlotsAsked | crates/starknet-transaction-prover-wasm/src/running/storage_proofs.rs:190-214 | a slot is asked for under an address exactly when the execution read it there |
| StorageReads.GroupSlots | crates/starknet-transaction-prover-wasm/src/running/storage_proofs.rs:201-204 | the grouping loop lists each slot under its contract, without repetition and without loss |
| StorageReads.FetchProofs | crates/starknet-transaction-prover-wasm/src/running/storage_proofs.rs:216-232 | one request up to 100 keys, else chunk by chunk with the first error returned |
| StorageReads.FetchRefinesSingle | crates/starknet-transaction-prover-wasm/src/running/storage_proofs.rs:216-232 | against an honest node the fetch succeeds exactly when all its requests do, ceil(n / 100) of at most 100 keys each; it then gives the whole answer, and else the node's own failure on one of those requests; it never panics |
| StorageReads.GetStorageProofs | crates/starknet-transaction-prover-wasm/src/running/storage_proofs.rs:397-440 | prepares, fetches, checks the leaf count and reads the leaves back, for some prepared query |
| StorageReads.AnswersToLeaves | crates/starknet-transaction-prover-wasm/src/running/storage_proofs.rs:336-440 | whatever the node answers: its failure is handed on, a proof without one leaf per address and one storage proof per entry is rejected, and otherwise each touched address gets the nonce, class hash, storage root (0 for none) and nodes at its own position |
| StorageReads.ReadsToLeaves | crates/starknet-transaction-prover-wasm/src/running/storage_proofs.rs:336-392 | against an honest node the length checks and address lookups never fail, and every touched address gets its own nonce, class hash, storage root (0 for none) and exactly the block's nodes for the slots read under it |
| FactsDb.Database.InsertInnerNodes | crates/starknet-transaction-prover-wasm/src/running/committer_utils.rs:118-132 | inner keys of the proof take its nodes, every other key keeps its value |
| FactsDb.Database.InsertContractLeaves | crates/starknet-transaction-prover-wasm/src/running/committer_utils.rs:148-175 | fails exactly on a leaf count mismatch; otherwise a contract leaf is stored under a hash exactly when a leaf has that hash, and it is the last such leaf |
| FactsDb.Database.InsertStorageLeaves | crates/starknet-transaction-prover-wasm/src/running/committer_utils.rs:177-188 | a storage leaf is stored under an address and hash exactly when a slot read there has that hash |
| FactsDb.Database.InsertCompiledClassLeaves | crates/starknet-transaction-prover-wasm/src/running/committer_utils.rs:190-201 | a class leaf is stored under a hash exactly when a compiled class hash read has it |
| FactsDb.Database.AddDummyNodesForOrphanHashes | crates/starknet-transaction-prover-wasm/src/running/committer_utils.rs:203-243 | exactly the absent children without a preimage in the proof get the dummy; nothing stored is overwritten |
| FactsDb.Database.CreateFromStorageProof | crates/starknet-transaction-prover-wasm/src/running/committer_utils.rs:92-116 | the passes in the source's order leave the map that `FactsMeaning` describes |
| FactsDb.FactsMeaning | crates/starknet-transaction-prover-wasm/src/running/committer_utils.rs:92-131 | an inner key holds the node of the last storage proof with the hash, else that of the class proof, else that of the contract proof; the dummy if the hash is only a child of some node; and nothing otherwise |
| FactsDb.OwnNodesExactlyWhenAgreed | crates/starknet-transaction-prover-wasm/src/running/committer_utils.rs:99-103 | every node of the contract, class and storage proofs reads back, if and only if no hash has two nodes |
| FactsDb.DisagreementLastWins | crates/starknet-transaction-prover-wasm/src/running/committer_utils.rs:99-103 | in the database built from a class and a contract proof that disagree on a hash, the contract node is lost |
| FactsDb.DummyOrderIrrelevant | crates/starknet-transaction-prover-wasm/src/running/committer_utils.rs:109-113 | the dummy passes give one result in any order and with any repetition |
| FactsDb.DescentNeverMissing | crates/starknet-transaction-prover-wasm/src/running/committer_utils.rs:203-243 | no descent from a hash of the contract, the class or any storage proof, whatever turns it takes, meets a missing key, also where proofs disagree |
| FactsDb.FetchedFactsClosed | crates/starknet-transaction-prover-wasm/src/running/storage_proofs.rs:256-263 | after a chunked fetch no descent from a node on the path of a key asked for meets a missing key; the block's own node is at each of them if and only if the block's tries agree there |
| FactsDb.ReadFactsClosed | crates/starknet-transaction-prover-wasm/src/running/storage_proofs.rs:397-437 | from reads to database: the same for every node on the path of a class executed, an address touched or a slot read |
| FactsDb.ReadLeavesStored | crates/starknet-transaction-prover-wasm/src/running/committer_utils.rs:161-172 | under the hash of every touched address's own nonce, class hash and storage root (0 for none) the database holds the state of a touched address with that hash |
| FactsDb.ReadSlotsStored | crates/starknet-transaction-prover-wasm/src/running/committer_utils.rs:177-188 | under the hash of every slot value read the database holds, at its address, a value read there with that hash |
| FactsDb.PrepareFacts | crates/starknet-transaction-prover-wasm/src/running/storage_proofs.rs:397-437 | the branch with state changes up to the committer: prepares, fetches, checks the leaf count, reads the leaves back and fills a new database from the proof |
| Token.Erc20.TransferTo | tests/contracts/src/lib.cairo:57-61 | moves the amount, or reverts without effect |
| Token.Erc20.TransferFrom | tests/contracts/src/lib.cairo:51-56 | spends allowance and moves the amount, or reverts without effect |
| Token.MoveConserves | tests/contracts/src/lib.cairo:50-63 | a transfer conserves the supply and changes only the two balances, also when sender and recipient are one |
| BankRuns.SpentWithinApproval | tests/contracts/src/lib.cairo:51-56 | on every run, what a spender took since the last approval plus what it may still take is what was approved |
| Bank.CoinFlipBank.DepositStake | tests/contracts/src/lib.cairo:129-152 | the whole new contract and token state of `deposit`, or an untouched state on revert |
| Bank.CoinFlipBank.MatchStake | tests/contracts/src/lib.cairo:154-168 | the same for `match_deposit` |
| Bank.CoinFlipBank.SettleGame | tests/contracts/src/lib.cairo:170-203 | the same for `settle`, the u256 overflow of the payout included |
| Bank.CoinFlipBank.WithdrawWinnings | tests/contracts/src/lib.cairo:205-216 | the same for `withdraw`, whose cleared balance is restored when the transfer reverts |
| Bank.OneOutcome | apps/coinflip/src/e2e.rs:340-345 | the receipt holds the player, seed and bet passed; its outcome, the client's low bit of the last of 32 bytes and the payee of `settle` agree for every hash, seed, player and bet |
| BankRuns.SucceedsExactly | tests/contracts/src/lib.cairo:129-216 | in any world, reachable or not, the exact conditions under which each entry point does not revert |
| BankRuns.WithdrawPays | tests/contracts/src/lib.cairo:205-216 | a withdrawal pays the caller its whole balance once and changes nothing else |
| BankRuns.StepKeeps | tests/contracts/src/lib.cairo:129-216 | any call by anyone keeps the invariant and the supply, and changes the bank's surplus over escrow only by plain transfers to it |
| BankRuns.Solvency | tests/contracts/src/lib.cairo:129-216 | on every run the bank's balance is exactly total escrow plus its first balance plus donations; supply is constant; `withdraw` always reverts |
| BankRuns.SettleNeverStuck | tests/contracts/src/lib.cairo:170-203 | in every reachable state `settle` succeeds for every seed if and only if the owner calls it on a matched session |
| BankRuns.FundedGameCompletes | tests/contracts/src/lib.cairo:129-203 | from any state that satisfies the invariant, a new session both sides can fund completes and is zero-sum: the winner by the coin gains the stake, the loser loses it, every other balance is unchanged |
| BankRuns.SessionImmutable | tests/contracts/src/lib.cairo:103-151 | once deposited, a session's player, amount, seed and bet never change and its state never goes back |
| BankRuns.DepositRecorded | tests/contracts/src/lib.cairo:129-152 | the player, amount, seed and bet of a session are those of one deposit call of the run |
| BankRuns.StepAdvances | tests/contracts/src/lib.cairo:103-107 | one call moves a session's state by at most one step forward, and only a call for that session moves it |
| BankRuns.SessionAccounting | tests/contracts/src/lib.cairo:136-202 | the token's event log shows for each session exactly the player's stake, the owner's equal stake and twice the amount to the one payee of the settling seed |
| BankRuns.TakenInIsPaidOutPlusEscrowed | tests/contracts/src/lib.cairo:136-202 | per session and run, tokens taken in equal tokens paid out plus tokens still escrowed |
| Sessions.SessionFeltInjective | apps/coinflip/src/routes.rs:226-227 | every UUID gives a felt and distinct UUIDs give distinct felts |
| Server.CommitmentStore.CommitBet | apps/coinflip/src/routes.rs:229-238 | the map after a commit |
| Server.CommitmentStore.DepositInfo | apps/coinflip/src/routes.rs:1058-1076 | answers with the committed felt, the amount and the seed so far, or nothing and no change when the session is gone |
| Server.CommitmentStore.LockSeedBlock | apps/coinflip/src/routes.rs:1155-1168 | sets the seed to the later of the two blocks where the session is still open |
| Server.CommitmentStore.TakeForPlay | apps/coinflip/src/routes.rs:285-322 | the commitment is gone whatever the reveal; a task starts only on a fitting reveal |
| Server.CommitRevealSafety | apps/coinflip/src/routes.rs:285-322 | in every interleaving open and consumed sessions part the committed ones, open entries keep what was committed, each session starts at most one task and every task reveals its commitment with bet 0 or 1 |
| Server.RevealStartsTask | apps/coinflip/src/routes.rs:285-345 | over every interleaving the first play request for a committed session starts a task exactly when the player is the committed one and min(bet, 1) with the nonce gives the committed hash; the task has that session, player, bet and nonce and the seed of the last confirm finished, or 0; right or wrong, the session is used up |
| Server.ExecTracked | apps/coinflip/src/routes.rs:1058-1168 | after every interleaving each open session's entry (commitment, player, seed, amount, felt) and each confirm request's phase are what the events alone say |
| Server.ConsumedForGood | apps/coinflip/src/routes.rs:285-294 | a consumed session never reappears, whatever happens later |
| Server.MatchedIsCommitted | apps/coinflip/src/routes.rs:1129-1151 | a matched felt is the felt of exactly one committed session |
| Server.SettledByOneTask | apps/coinflip/src/routes.rs:780-787 | in every interleaving a settled session was funded once by the owner and settled with the seed of exactly one task, that of the session with its felt; the one payout went to the payee this seed picks |
| Server.PaidByReceipt | apps/coinflip/src/routes.rs:780-787 | where the depositor is the committed player with the revealed bet, the payout goes to the player exactly when the receipt of that task, run on its own inputs, says won = 1, and to the owner otherwise |
| Server.SettlementGoesThrough | apps/coinflip/src/routes.rs:780-805 | a settlement that was sent succeeds whenever it lands on a matched session |
| Server.HonestGameCompletes | apps/coinflip/src/routes.rs:226-805 | whatever came before, commit, confirm, deposit, match, reveal and settlement by parties that can pay end in a settled session, with the stake moved from loser to winner by the coin of the later of match and deployment block |
| Server.CommitmentBinds | apps/coinflip/src/routes.rs:307-322 | two reveals that one commitment would accept have the same Pedersen hash, so the committed text fixes the hash |
| Server.SystemSolvent | apps/coinflip/src/routes.rs:1103-1176 | the bank covers its escrow whatever server, clients and outsiders do |
| Packing.ResourceNameFelt | crates/snip36-core/src/signing.rs:29-35 | the buffer filled from the right reads as the big-endian value of the name's first 7 bytes |
| Packing.ConcatExact | crates/snip36-core/src/signing.rs:39-50 | the field expression is the integer with name, amount and price side by side, below 2^248: no wrap, also in the 2^128 built by squaring |
| Packing.ConcatInvertible | crates/snip36-core/src/signing.rs:39-50 | name, amount and price can each be read back from the packed value |
| Packing.ResourceNamesDistinct | crates/snip36-core/src/signing.rs:57-72 | the three resources pack to pairwise different values whatever the bounds |
| Packing.NameValues | crates/snip36-core/src/signing.rs:228-239 | the name and prefix values that the source's tests list |
| Signing.ComputeInvokeV3TxHash | crates/snip36-core/src/signing.rs:95-139 | the hash is that of a list which reads, position by position as in SNIP-8, as this very transaction |
| Signing.PreimageReadsBack | crates/snip36-core/src/signing.rs:95-139 | the list hashed has the prefix, version 3, sender, chain id, nonce and both modes each in its place, the hashes of the inner lists, and an eleventh element exactly for proof facts |
| Signing.TipListReadsBack | crates/snip36-core/src/signing.rs:57-73 | the inner list reads back as the tip and the three bounds, each recognised by its name bits |
| Signing.HashBinding | crates/snip36-core/src/signing.rs:57-139 | two different transactions with one hash yield two different lists with one Poseidon hash, each among those its own computation hashes |
| Payload.SignedIsSent | crates/snip36-core/src/signing.rs:160-209 | parsing the built payload and recomputing the hash returns the signed hash and signature, for all parameters; a payload is built exactly when signing succeeds |
| Payload.BoundsRoundTrip | crates/snip36-core/src/types.rs:79-94 | the gateway form of the resource bounds reads back to the same six numbers |
| Payload.SignatureCoversOnlySent | crates/snip36-core/src/signing.rs:160-209 | any other transaction with the signed hash gives a Poseidon collision between lists hashed for the two |
| Hex.PrintParse | crates/snip36-core/src/signing.rs:218-220 | printing then parsing returns the number exactly when it is within the parser's bound |
| Hex.ParsesExactly | crates/snip36-core/src/signing.rs:218-220 | the strings parsed are exactly those of at least one digit of either case, with or without `0x`, whose value is below the bound |
| Hex.PrintShape | apps/coinflip/src/routes.rs:312-313 | printed numbers are `0x` and lower-case digits without leading zeros |
| StateReader.PrefetchedRefinesBlock | crates/starknet-transaction-prover-wasm/src/running/virtual_block_executor.rs:158-209 | for every program the prefetched run has the block run's outcome if all it reads was prefetched, and otherwise stops on the first read that was not, which any read of a compiled class hash is |
| StateReader.PrefetchClassesIntoCache | crates/starknet-transaction-prover-wasm/src/running/virtual_block_executor.rs:322-344 | succeeds exactly when every non-zero class that is declared or of a prefetched contract can be fetched; then exactly those are cached as fetched |
| StateReader.ClassesNeverMiss | crates/starknet-transaction-prover-wasm/src/running/virtual_block_executor.rs:317-344 | after the prefetch, every declared class and the class of every prefetched contract reads as in the block |
| StateReader.CollectMessages | crates/starknet-transaction-prover-wasm/src/running/virtual_block_executor.rs:413-471 | messages are returned exactly when no transaction failed or reverted, each at the position that counts all messages before it by transaction, call and index; else the first failure, or the first revert under its own hash |
| Multicall.EncodeAccountCalls | apps/counter/src/e2e.rs:84-95 | the pushing loop computes the encoding that the round trip is about |
| Multicall.EncodeIncrements | apps/counter/src/routes.rs:581-587 | the inline encoder equals the general one on n copies of one increment call |
| Multicall.EncodedLength | apps/counter/src/e2e.rs:84-95 | the length is 1 + sum of (3 + arguments) |
| Multicall.DecodeEncode | apps/counter/src/e2e.rs:84-95 | encoded text parses exactly when every string of every call does, and decodes to exactly those calls |
| Multicall.DecodedIsEncoded | apps/counter/src/e2e.rs:84-95 | the decoder accepts nothing but encodings |
| Multicall.CounterAsExpected | apps/counter/src/e2e.rs:349-359 | the encoded calls run for k blocks raise the counter by k * n * amount in the field from any start, the expected value when 64-bit arithmetic does not overflow |
| Multicall.Counter.Increment | tests/contracts/src/lib.cairo:18-20 | adds in the field |
| Multicall.ExecuteCalls | tests/contracts/src/lib.cairo:18-20 | the calls of one block change the counter as the fold over them says, or not at all |
| Multicall.RunsExactly | tests/contracts/src/lib.cairo:18-20 | a block of any calls goes through exactly when all are increments, and adds the sum of their arguments in the field |
| Multicall.VerifyBlocks | apps/counter/src/e2e.rs:381-661 | from a counter that reads as 64 bits the per-block check passes exactly when the final value still does; from any other only one block can pass, exactly when it wraps the field to the low 64 bits of its increments |
| Multicall.UnreadableStartPasses | apps/counter/src/e2e.rs:381-661 | a start that does not read as 64 bits, taken as 0, and a block of 2^64 in all that passes the check |
| Polling.WaitForTx | crates/snip36-core/src/rpc.rs:189-229 | returns the first receipt that its fields make accepted, or as an error rejected or reverted, before the deadline; times out when there is none |
| Polling.PollsBounded | crates/snip36-core/src/rpc.rs:195-228 | with a poll interval of at least 1 there are at most ceil(timeout / interval) requests and the deadline is reached |
| Polling.WaitForBlockAfter | crates/snip36-core/src/rpc.rs:232-253 | returns the first head past the given block, or none before the deadline |
| Polling.PrintedBlockNumber | crates/snip36-core/src/rpc.rs:257-266 | a block number in hexadecimal text reads back |
| Polling.AcceptedWithoutBlock | crates/snip36-core/src/rpc.rs:211-222 | a receipt with a null block number is accepted and yields no block number |
| Polling.AcceptedBlockNumber | crates/snip36-core/src/rpc.rs:257-266 | a numeric field is returned as it is; text yields a number exactly when it is leading `0x`, at most one plus sign and at least one hexadecimal digit, of which at most 16 follow the leading zeros, and then their value; nothing else yields one |

## Left out

- Order of node maps: `IndexMap` insertion order and hash-set iteration order are not modelled; maps are unordered and loops over them take elements in any order.
- The shape of Merkle paths: a trie gives each key an arbitrary set of node hashes; that these form a path to the root, and that node hashes are hashes, is not used.
- StorageReads.GetStorageProofs: assembles the storage commitment infos of the branch without state changes; the other branch is `FactsDb.PrepareFacts` up to the committer, which is not part of this model.
- Token.Erc20.TransferFrom: an unlimited allowance that is never spent, and the zero-address checks some tokens add, are not modelled.
- Server.SettledByOneTask: assumes that the owner's key settles and matches only through the server, and that version-4 UUIDs do not repeat; the claim is about the revealed bet, since the server checks neither that a deposit was confirmed nor that its bet is the revealed one.
- Server.CommitmentStore.DepositInfo: the source looks the commitment up and notes the amount in two steps; the model does both in one.
- The server's lock around `sncast invoke` is not modelled: sent calls may land in any order, which includes the orders the lock allows.
- Proving and submitting between reveal and settlement: proving, submission and inclusion may stop a task at any point, which is an event that never comes.
- Multicall.VerifyBlocks: submission, proving and waiting for inclusion are left out, and arithmetic wraps as in a release build; a debug build stops on the overflow instead.
- Hex.PrintParse: the library parser of field elements is modelled as accepting an optional `0x` and rejecting values outside the field; it is not part of the repository.
- `is_declared`, whose fallback answers true, and the library's caching of reads and writes above the state reader.
- The committer run on the facts database, its serialization and the state-diff validator: library code and thin wrappers.
- `create_commitment_infos_with_state_changes` beyond building the facts database.
- Bet amounts in floating point; amounts enter as wei.
- HTTP, JSON-RPC transport, server-sent events, files, subprocesses, configuration, deployment endpoints and front ends.
- The proof data and messages files: what the proven transaction emits is the receipt of `play` on the task's inputs.
