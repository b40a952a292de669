# Block relay, in Dafny

A model of the block path of this repository, from the moment a Zcash peer delivers a
block to the moment the local node is asked to take it, with proofs about all of its
runs and all of its inputs.

| module | models |
|---|---|
| `ForwardProtocol`, `ForwardSafety`, `ForwardOutcome`, `ForwardDedup`, `ForwardRace`, `ForwardProgress` | the race of any number of copies of any number of blocks through the relay bridge: wait, parse permit, recheck, blocking job, claim, send, commit, drop |
| `RecentForwarded`, `TimedRing` | the forwarded ring with its claims in flight, and the bounded time-windowed ring behind it and behind the gate |
| `UnverifiedForwards` | the ledger of bodies forwarded without validation |
| `TxLayout`, `BlockParser`, `Wire`, `Inventory` | the byte layouts of transactions v1 to v6 (section 7.1 of the Zcash Protocol Specification, ZIP 225, ZIP 229), the cursor parser over them, CompactSize and fixed-width integers, inventory messages (Specification section of ZIP 239) |
| `Merkle`, `BlockBody` | the check of a body against its header, and the strict reader of a serialized block |
| `CompactBlocks`, `Reconstructor`, `Submission` | the compact-block builder (PrefilledTransaction and HeaderAndShortIDs sections of BIP 152), the receiver that fills it back in, and the bytes that are submitted |
| `GateWindow`, `SubmitGate`, `GateBudget`, `GateVerdict` | the submission gate: its height window, its two rings, its in-flight bodies, the node's replies, the budget of attempts and its verdicts |
| `RequestWindow`, `Handshake`, `Crawler`, `Announcements`, `ParentCache`, `RateLimiter` | per-connection requests, the version handshake, the peer scheduler and its ledger of announcements, the parent cache and the request limiter |

`Common` holds the few shared types. Objects the source updates in place are classes whose
methods are proved against functions on values; loops of the source are loops here. The
results about whole histories are then stated on those functions, over a `Trace` of calls
or actions of any length.

Conventions. A digest is a natural number, since the code only compares digests; a hash
function, the transaction reader, a score's decay and an address filter are parameters, so
every result holds for all of them. An `Instant` is a natural number and
`duration_since` saturates at zero. Each concurrent action is one critical section, one
permit hand-over or one send; a watch channel is a generation number that is closed when
its claim is removed; committing a send and dropping its claim are two actions; a permit
stays with the blocking job when the caller is cancelled. `usize` is 64 bits wide.

Where a promise turned out false, the code is modelled as it is, the failing inputs are
constructed, and the condition under which it holds is exact:

- some run throws a validated parse away exactly when the copies that arrive can use two
  parse permits, from two pools or from one, and the forwarded ring has capacity 1 or more
  (`ForwardRace.DiscardsExactly`); that a copy does not find its block open at its first
  claim, and waits with what it prepared, takes the two permits only
  (`ForwardRace.LosesExactly`);
- with an enabled gate, a budget of 1 or more and a ring of capacity 1 or more, the budget of
  unverified attempts per block holds for exactly the stretches of up to `dedup_capacity + 1`
  or `unreadable_attempts_per_block` reservations, whichever is more; with any of the three
  missing it holds for all (`GateBudget.BudgetExactly`). The failing run has one attempt at
  the node at a time, so a limit on concurrent attempts does not prevent it
  (`GateBudget.FloodRestoresTheBudget`), and a budget over a capacity of 1 or more is never
  enforced at all (`GateBudget.LimitNeverFires`);
- a candidate whose parent was not observed is said to be rejected: it is exactly when the
  parent is unknown or the polled tip is over `allowed_below + 1` (`GateWindow.UnobservedParent`);
- a re-announcement is said to earn nothing: it does exactly when its block has been pruned
  since (`Announcements.RankIsPlace`, `Announcements.PrunedBlockIsFirstAgain`);
- sequence numbers are distinct and the next one is new exactly when no accepted initial peer
  is repeated (`Crawler.NumberedExactly`); after a repeat two peers share a number as soon as
  one more is discovered (`Crawler.RepeatSharesANumber`);
- the gateway's structural parser accepts payloads that are not in serialized form, exactly
  those whose count is not in its shortest encoding (`Submission.SerializedIsPayload`,
  `Submission.WiderCountIsAccepted`); the strict reader, on the path that is relayed, does
  not (`Submission.RelayParsed`);
- the gate's ring and the parent cache are bounded exactly at capacity 1 or more
  (`TimedRing.CapacityZeroIsUnbounded`, `ParentCache.CapacityZeroForgetsNothing`).

## Model

| member | source | states |
|---|---|---|
| `ForwardSafety.InvHolds` | crates/sovright-p2p-ingress/src/relay_bridge.rs:551-807 | in every run, with cancellation, failed sends and panics anywhere: claims in flight are exactly the live claims, one per header; the ring has no repeated hash; permits are conserved per pool; every waiting copy waits on the current generation of its header or on a closed one; unsent ledger entries are exactly the places owned by one live guard |
| `ForwardSafety.ClaimsKept` | crates/sovright-p2p-ingress/src/relay_bridge.rs:724-756 | every action keeps the one-to-one match between `in_flight` entries and the copies that own a claim |
| `ForwardSafety.WaitersKept` | crates/sovright-p2p-ingress/src/relay_bridge.rs:701-722 | no action loses a wakeup: whoever waits on a generation sees it current or closed |
| `ForwardSafety.RingKept` | crates/sovright-p2p-ingress/src/relay_bridge.rs:202-267 | no action puts a hash in the ring twice, and a header being sent is not in it until it commits |
| `ForwardSafety.PermitsKept` | crates/sovright-p2p-ingress/src/relay_bridge.rs:1094-1105 | free permits plus holders stay equal to the pool's size, also when the caller of a job is gone |
| `ForwardSafety.LedgerKept` | crates/sovright-p2p-ingress/src/relay_bridge.rs:890-934 | every action keeps one live guard per unsent ledger entry and one entry per guard |
| `ForwardOutcome.OutcomeIsExact` | crates/sovright-p2p-ingress/src/relay_bridge.rs:598-652 | in every run, told from its actions: a copy comes to an outcome if and only if the run holds an action that decides it, and to one at most. Forwarded: it recorded its block and then let go of its claim. Forwarded unverified: it recorded its body. Deduplicated: its look or its claim found the block forwarded, or its job found the body sent. Refused: its job handed over nothing to send. Failed: a send was given up, the copy was cancelled or its job panicked |
| `ForwardOutcome.SentIsTold` | crates/sovright-p2p-ingress/src/relay_bridge.rs:777-933 | a forwarded block read and built; one forwarded unverified did not read, under the bypass, with its proof of work and its split good, and had not been found sent |
| `ForwardOutcome.StoryHolds` | crates/sovright-p2p-ingress/src/relay_bridge.rs:598-652 | in every run what a copy's job hands over is what the run says: sent before, valid, to be sent unverified, or nothing; it acts once, and only for a copy that waits for it or has failed |
| `ForwardDedup.JustifiedAlways` | crates/sovright-p2p-ingress/src/relay_bridge.rs:598-652 | in every run, each hash in the ring and each copy on its way to `Deduplicated` is backed by a complete committed send of a readable body of that header, or of exactly those unreadable bytes |
| `ForwardDedup.DeduplicatedOnlyAfterASend` | crates/sovright-p2p-ingress/src/relay_bridge.rs:598-652 | a copy reported as a duplicate was preceded by such a send; a refused, failed or cancelled copy hides nothing |
| `ForwardDedup.ForwardedExactly` | crates/sovright-p2p-ingress/src/relay_bridge.rs:202-236 | with ordered times, a copy finds its block forwarded if and only if one of the last `capacity` completed validated sends is of it and within the window |
| `ForwardDedup.OpenMeansNotSentLately` | crates/sovright-p2p-ingress/src/relay_bridge.rs:724-756 | for arbitrary times, a block open to a claim has no send among the last `capacity` ones that no reader of the ring saw expire after it was recorded |
| `ForwardDedup.LedgerIsDisciplined` | crates/sovright-p2p-ingress/src/relay_bridge.rs:155-180 | in every run the ledger is the result of its operations, each commit or release made by the guard that owns the place |
| `ForwardDedup.UnverifiedBudget` | crates/sovright-p2p-ingress/src/relay_bridge.rs:113-180 | in every run, at most `per_header` bodies of one header complete an unverified send in any interval as long as the window |
| `ForwardRace.ValidatedCopyNeverLosesTheRace` | crates/sovright-p2p-ingress/src/relay_bridge.rs:598-652 | if the copies that arrive can use one permit at most, a copy that validated its body always finds the block open at its first claim |
| `ForwardRace.TwoPermitsCanRace` | crates/sovright-p2p-ingress/src/relay_bridge.rs:511-549 | for every configuration with a permit in each of two pools, or two in one, a run in which a copy that validated its body finds another's claim |
| `ForwardRace.LosesExactly` | crates/sovright-p2p-ingress/src/relay_bridge.rs:598-652 | over all configurations and sets of pools: in some run a copy that has just validated its body does not find its block open at its first claim, if and only if the arrivals can use two permits |
| `ForwardRace.DiscardsExactly` | crates/sovright-p2p-ingress/src/relay_bridge.rs:643-652 | over the same: some run throws a validated parse away, at a first claim or a later one, if and only if the arrivals can use two permits and the ring has capacity 1 or more |
| `ForwardRace.TwoPermitsCanDiscard` | crates/sovright-p2p-ingress/src/relay_bridge.rs:724-756 | for every such configuration the run: both copies are parsed, the first is sent and recorded, and the second finds the block forwarded |
| `ForwardProgress.SomeCopyCanMove` | crates/sovright-p2p-ingress/src/relay_bridge.rs:598-612 | no deadlock: with a permit in every pool, in every state that satisfies the invariant, if some copy or job is unfinished, a step is enabled that waits on no other copy |
| `ForwardProgress.WaitersHoldNoPermit` | crates/sovright-p2p-ingress/src/relay_bridge.rs:710-756 | a copy that waits for another's send, or sends, holds no parse permit |
| `ForwardProgress.RemainingFalls` | crates/sovright-p2p-ingress/src/relay_bridge.rs:551-656 | no livelock: every action but an arrival, faults included, lowers a bound on the steps left |
| `ForwardProgress.RunsEnd` | crates/sovright-p2p-ingress/src/relay_bridge.rs:551-656 | once `n` copies have arrived, at most `33 n (n + 1)` more steps are possible under any schedule |
| `ForwardProgress.QuietMeansClean` | crates/sovright-p2p-ingress/src/relay_bridge.rs:155-180 | with a permit in every pool, when nothing but an arrival or a fault can happen, every copy has finished, nothing is in flight, all permits are back, and every ledger entry was sent |
| `RecentForwarded.ForwardedIsExact` | crates/sovright-p2p-ingress/src/relay_bridge.rs:212-236 | at every capacity, 0 included, and for ordered times, the ring answers yes exactly for the last `capacity` records within the window |
| `RecentForwarded.RecentForwardedHashes.EvictExpired` | crates/sovright-p2p-ingress/src/relay_bridge.rs:228-236 | the loop leaves what front-only eviction leaves |
| `RecentForwarded.RecentForwardedHashes.State` | crates/sovright-p2p-ingress/src/relay_bridge.rs:202-215 | answers from the swept ring first, then from the claims in flight |
| `RecentForwarded.RecentForwardedHashes.Record` | crates/sovright-p2p-ingress/src/relay_bridge.rs:217-226 | sweeps, keeps nothing at capacity 0, otherwise drops the front of a full ring and appends |
| `RecentForwarded.RecentForwardedHashes.TryClaim` | crates/sovright-p2p-ingress/src/relay_bridge.rs:729-742 | opens a new generation exactly when the block is open, and changes no claim otherwise |
| `RecentForwarded.RecentForwardedHashes.RemoveClaim` | crates/sovright-p2p-ingress/src/relay_bridge.rs:257-267 | removes the claim and closes its generation |
| `TimedRing.RingIsRecentHistory` | crates/sovright-relay-sidecar/src/submit_gate.rs:143-179 | after any lookups and records at ordered times, sweeping the ring equals sweeping the last `capacity` records of the whole history |
| `TimedRing.LookupIsExact` | crates/sovright-relay-sidecar/src/submit_gate.rs:152-155 | `contains` is yes if and only if the key is among the last `capacity` records and was recorded within the window |
| `TimedRing.NeverDroppedEarly` | crates/sovright-p2p-ingress/src/relay_bridge.rs:212-236 | for arbitrary times, the ring is a suffix of the history within its capacity, and a record that no later call saw expire is dropped only by `capacity` later ones |
| `TimedRing.RingIsRecent` | crates/sovright-relay-sidecar/src/submit_gate.rs:143-179 | the same for every capacity: at 0 the ring is the whole history, swept |
| `TimedRing.EvictIsEviction` | crates/sovright-relay-sidecar/src/submit_gate.rs:170-178 | front-only eviction keeps a suffix, all it drops has expired, and the first it keeps has not |
| `TimedRing.CapacityZeroIsUnbounded` | crates/sovright-relay-sidecar/src/submit_gate.rs:162-168 | with capacity 0 the gate's ring can hold any number of records |
| `TimedRing.DedupRing.EvictExpired` | crates/sovright-relay-sidecar/src/submit_gate.rs:170-178 | the loop leaves what front-only eviction leaves |
| `TimedRing.DedupRing.Contains` | crates/sovright-relay-sidecar/src/submit_gate.rs:152-155 | sweeps, then finds the key if and only if it is held |
| `TimedRing.DedupRing.Count` | crates/sovright-relay-sidecar/src/submit_gate.rs:157-160 | sweeps, then counts the entries of the key |
| `TimedRing.DedupRing.Add` | crates/sovright-relay-sidecar/src/submit_gate.rs:162-168 | sweeps, drops the front of a full ring, appends |
| `UnverifiedForwards.AlwaysWellKept` | crates/sovright-p2p-ingress/src/relay_bridge.rs:113-133 | over every trace of guarded operations, entries are distinct, within `max(capacity, per_header)`, and within `per_header` for each header |
| `UnverifiedForwards.SentIsCommittedRecently` | crates/sovright-p2p-ingress/src/relay_bridge.rs:135-146 | with ordered times, a body counts as sent if and only if it was committed within the window |
| `UnverifiedForwards.HeaderBudget` | crates/sovright-p2p-ingress/src/relay_bridge.rs:113-146 | in any interval as long as the window at most `per_header` bodies of one header are committed, whatever the trace |
| `UnverifiedForwards.ReserveIsExact` | crates/sovright-p2p-ingress/src/relay_bridge.rs:113-133 | counted over the positions of the ledger: a body is a repeat if and only if an unsent or unexpired entry has it; it gets a place if and only if none has, fewer than `per_header` such entries have its header, and fewer than `capacity`, or `per_header` if that is more, are there in all |
| `UnverifiedForwards.AnswerIsExact` | crates/sovright-p2p-ingress/src/relay_bridge.rs:113-133 | the same over every trace of guarded operations at ordered times, counted over the bodies that are pending or were committed within the window |
| `UnverifiedForwards.ReserveKeeps` | crates/sovright-p2p-ingress/src/relay_bridge.rs:113-133 | a reservation clears only sent, expired entries, so a place owned by a guard survives expiry and pressure, and adds at most the body asked for |
| `UnverifiedForwards.Ledger.TryReserve` | crates/sovright-p2p-ingress/src/relay_bridge.rs:113-133 | a repeat, a place or a refusal exactly by the entries that count, and the new ledger; unsent entries stay, and a well-kept ledger stays so |
| `UnverifiedForwards.Ledger.MarkSent` | crates/sovright-p2p-ingress/src/relay_bridge.rs:141-146 | the first entry of the body becomes sent now; nothing else changes |
| `UnverifiedForwards.Ledger.Release` | crates/sovright-p2p-ingress/src/relay_bridge.rs:148-150 | no entry of the body is left, the others are |
| `Wire.CompactSound` | crates/sovright-p2p-ingress/src/wire.rs:175-183 | whatever the CompactSize reader accepts is an encoding in some width, read to its end |
| `Wire.CompactComplete` | crates/sovright-p2p-ingress/src/wire.rs:175-183 | the reader accepts every encoding in every width, whatever follows |
| `Wire.MinimalIsCompact` | crates/zcash-pool-common/src/compact_size.rs:83-101 | the writer's width holds the value and no valid encoding is shorter |
| `Wire.FromLEToLE` | crates/sovright-p2p-ingress/src/wire.rs:295-336 | little-endian words of any width round-trip |
| `TxLayout.TxSound` | crates/sovright-p2p-ingress/src/block.rs:236-316 | whatever is accepted is the encoding of a transaction of one of the six layouts, and the cursor stops exactly at its end, inside the payload |
| `TxLayout.TxComplete` | crates/sovright-p2p-ingress/src/block.rs:236-316 | every encoding of the six layouts, with any CompactSize widths and anything after it, is accepted and read to exactly its end |
| `TxLayout.TxLocal` | crates/sovright-p2p-ingress/src/block.rs:236-316 | the result depends only on the bytes consumed, in whatever payload they stand |
| `TxLayout.TxPrefixFree` | crates/sovright-p2p-ingress/src/block.rs:236-316 | no transaction is a proper prefix of another, and none reads in two ways |
| `TxLayout.HeaderBytes` | crates/sovright-p2p-ingress/src/block.rs:236-299 | the literal first bytes of each version: the version word, and from version 3 on the flag and the version group |
| `TxLayout.SlotsSound` | crates/sovright-p2p-ingress/src/block.rs:318-337 | a list of inputs or outputs that is read takes at least a minimal item for each |
| `TxLayout.ShieldedV4Complete` | crates/sovright-p2p-ingress/src/block.rs:339-367 | field by field, the Sapling and Sprout parts of v4: value balance, items, JoinSplits and a binding signature of 64 bytes there exactly if spends or outputs are |
| `TxLayout.SaplingV5Complete` | crates/sovright-p2p-ingress/src/block.rs:369-415 | field by field, the Sapling part of v5 and v6: items, and after them nothing exactly if there are none |
| `TxLayout.SaplingTailComplete` | crates/sovright-p2p-ingress/src/block.rs:390-414 | value balance of 8 bytes, one anchor of 32 exactly if there are spends, 192 bytes of proof and 64 of signature for each spend, 192 of proof for each output, binding signature of 64, in this order |
| `TxLayout.OrchardComplete` | crates/sovright-p2p-ingress/src/block.rs:417-448 | the Orchard part, one more time in v6 |
| `BlockParser.SkipTransaction` | crates/sovright-p2p-ingress/src/block.rs:236-316 | the cursor method stops exactly where the layout's reader does, and fails exactly when it does; on success and on failure nine bytes stand for each completed iteration over inputs and outputs |
| `BlockParser.SkipSlots` | crates/sovright-p2p-ingress/src/block.rs:318-337 | the counted loops over inputs and outputs; on every payload, accepted or not, each completed iteration has consumed a minimal item, whatever count is declared |
| `BlockParser.SkipV4Shielded` | crates/sovright-p2p-ingress/src/block.rs:339-367 | the cursor over the shielded parts of v4 |
| `BlockParser.SkipV5Sapling` | crates/sovright-p2p-ingress/src/block.rs:369-415 | the cursor over the Sapling part of v5 and v6 stops where the layout's reader does, and fails exactly when it does |
| `BlockParser.SkipSaplingTail` | crates/sovright-p2p-ingress/src/block.rs:390-414 | the same for what follows the items |
| `BlockParser.SkipOrchard` | crates/sovright-p2p-ingress/src/block.rs:417-448 | the cursor over the Orchard part |
| `BlockParser.SkipJoinSplits` | crates/sovright-p2p-ingress/src/block.rs:450-458 | the cursor over JoinSplits, with key and signature exactly if there are any |
| `BlockParser.SkipFixedItems` | crates/sovright-p2p-ingress/src/block.rs:470-483 | a product or sum beyond the machine word is an error, never a wrapped cursor |
| `BlockParser.SkipBytes` | crates/sovright-p2p-ingress/src/block.rs:491-502 | the cursor moves by the length exactly if it stays in the payload |
| `BlockParser.DecodeCompactSize` | crates/sovright-p2p-ingress/src/wire.rs:175-183 | the value and the new cursor of the reader in every branch |
| `BlockParser.TransactionBoundaries` | crates/sovright-p2p-ingress/src/block.rs:203-234 | succeeds on exactly the payloads that are a header, a count in any width and that many transactions, 1 to 65,536, with nothing after, and then returns their ranges; on every payload, accepted or not, the completed iterations of the outer loop and of all inner loops together are bounded by its length |
| `BlockParser.BlockIsUnique` | crates/sovright-p2p-ingress/src/block.rs:203-234 | a payload is a block of one list of transactions at most |
| `BlockParser.BoundariesTile` | crates/sovright-p2p-ingress/src/block.rs:203-234 | the ranges number what was declared, are nonempty and tile the payload from the end of the count to its last byte |
| `BlockParser.TxsSound` | crates/sovright-p2p-ingress/src/block.rs:218-231 | transactions that are read in a row are the encodings that stand there, to their end |
| `Inventory.EncodeInventory` | crates/sovright-p2p-ingress/src/wire.rs:185-196 | the loop writes the minimal count and the entries in order |
| `Inventory.ParseInventory` | crates/sovright-p2p-ingress/src/wire.rs:198-230 | more than 50,000 entries, a short payload or an unknown type fails the whole message; otherwise all entries in order |
| `Inventory.ItemsSound` | crates/sovright-p2p-ingress/src/wire.rs:198-230 | an accepted payload starts with the encoding of exactly the entries returned, each of a known type with a second digest if and only if it is MSG_WTX |
| `Inventory.ItemsComplete` | crates/sovright-p2p-ingress/src/wire.rs:185-230 | encoded entries are read back in normal form, or refused exactly if some type is unknown |
| `Inventory.NormalForm` | crates/sovright-p2p-ingress/src/wire.rs:185-230 | the entries that come back unchanged are those of type 1, 2 or 3 with one digest and of type 5 with two; a missing second digest counts as zeros |
| `Inventory.EncodeThenParse` | crates/sovright-p2p-ingress/src/wire.rs:185-230 | a list comes back unchanged, whatever follows it, if and only if it has at most 50,000 entries and each is in normal form; what happens to the rest is exact as well |
| `CompactBlocks.Build` | crates/sovright-p2p-ingress/src/block.rs:168-200 | refuses exactly lists over 65,536; otherwise the indices fit 16 bits without loss, and short ids and prefilled transactions describe the list slot by slot |
| `CompactBlocks.PositionsAreFilledSlots` | crates/sovright-relay/src/reconstructor.rs:236-247 | decoding differential indices finds, in increasing order, exactly the filled slots |
| `CompactBlocks.DecodesToUnresolved` | crates/sovright-p2p-ingress/src/block.rs:168-200 | a built block decodes to exactly the coinbase and the transactions that did not resolve |
| `CompactBlocks.SkeletonPrefillsLess` | crates/sovright-p2p-ingress/src/block.rs:130-140 | for one cache, slot by slot: what the skeleton prefills the compact block prefills with the same bytes, and where the compact block has a short id the skeleton's list has the same one for that slot |
| `Reconstructor.Prepare` | crates/sovright-relay/src/reconstructor.rs:55-71 | a short id leads to a transaction if and only if exactly one known transaction has it |
| `Reconstructor.OneShortIdPerBlank` | crates/sovright-relay/src/reconstructor.rs:73-178 | if all positions fit, there is exactly one short id per blank slot, so the checks for too few and too many cannot fire |
| `Reconstructor.Reconstruct` | crates/sovright-relay/src/reconstructor.rs:73-178 | invalid exactly if a position falls outside; otherwise the slots filled in order, complete if none stays blank, with what is missing and unresolved in order |
| `Reconstructor.FitsExactly` | crates/sovright-relay/src/reconstructor.rs:79-101 | a block is refused if and only if a prefilled transaction decodes to a position past its end |
| `Reconstructor.UnresolvedAre` | crates/sovright-relay/src/reconstructor.rs:118-131 | a short id is reported unresolved if and only if the block has it and no known transaction, or more than one, does |
| `Reconstructor.MissingAre` | crates/sovright-relay/src/reconstructor.rs:118-131 | a transaction is reported missing if and only if a short id of the block leads to it and its bytes are gone |
| `Reconstructor.EveryBlankIsNamed` | crates/sovright-relay/src/reconstructor.rs:103-133 | the slots that stay blank are as many as the missing and the unresolved together |
| `Reconstructor.RoundTrip` | crates/sovright-p2p-ingress/src/block.rs:168-200 | for every resolver, a receiver that knows each transaction behind a short id, with no collision, gets back exactly the list |
| `Reconstructor.CompleteIsCommitted` | crates/sovright-relay/src/merkle.rs:1-14 | for any receiver, colliding short ids and stale transactions included, a completed block has the sender's transaction ids in order, or the two bodies give a collision of the pair hash away |
| `Merkle.MerkleRoot` | crates/sovright-relay/src/merkle.rs:93-113 | the level-by-level loop computes the hash of the tree that pairs an odd last node with itself |
| `Merkle.RootReadsInOrder` | crates/sovright-relay/src/merkle.rs:93-113 | from left to right the tree under the root begins with the ids in block order, and what follows only repeats some of them |
| `Merkle.RootCommits` | crates/sovright-relay/src/merkle.rs:378-391 | two different lists without repeats that have one root contain a collision of the pair hash, or an id that is the hash of a pair; the collision is constructed |
| `Merkle.RepeatedTailKeepsRoot` | crates/sovright-relay/src/merkle.rs:378-391 | for every hash, repeating the last id of an odd list of three or more keeps the root, so the refusal of repeats is needed |
| `Merkle.FirstRepeatedTxid` | crates/sovright-relay/src/merkle.rs:388-391 | none exactly if all ids differ, else the first position that repeats an earlier one |
| `Merkle.ValidateBlockTransactions` | crates/sovright-relay/src/merkle.rs:336-365 | valid if and only if the header has its length, the block is within the size limit, every slice is exactly one transaction, ids do not repeat and the root matches; each error names what is wrong |
| `Merkle.CheckTxids` | crates/sovright-relay/src/merkle.rs:367-376 | a repeat is reported before a mismatch |
| `Merkle.HeaderCommitsToBody` | crates/sovright-relay/src/merkle.rs:336-376 | two bodies valid for one header have the same ids in the same order, or give a collision away |
| `Submission.BuildSubmissionCandidate` | crates/sovright-relay-sidecar/src/submit.rs:292-352 | accepts if and only if there are no short ids, 1 to 65,536 transactions, every differential index is zero and the body matches; then the bytes are header, minimal count and transactions; each refusal is exact |
| `Submission.WholeBlockIsContiguous` | crates/sovright-p2p-ingress/src/block.rs:168-200 | a block built with nothing resolved has no short ids, only zero indices, and its transactions in order |
| `Submission.SubmitWhole` | crates/sovright-relay-sidecar/src/submit.rs:292-352 | end to end: builder then candidate yields the serialized block for every valid list of up to 65,536 |
| `Submission.CompactFromRawBlock` | crates/sovright-p2p-ingress/src/block.rs:151-166 | succeeds on exactly the blocks, and yields the compact form of their transactions |
| `Submission.SerializedIsPayload` | crates/sovright-p2p-ingress/src/block.rs:203-234 | a payload the structural parser accepts is the serialized form of its transactions if and only if its count is in the shortest encoding |
| `Submission.WiderCountIsAccepted` | crates/sovright-p2p-ingress/src/wire.rs:175-183 | for every accepted payload and every other width that holds its count, another accepted payload of the same header and transactions |
| `BlockBody.ReadChecked` | crates/sovright-relay/src/merkle.rs:287-330 | for every sequential transaction reader and canonical count reader: accepts if and only if the block is within its size, has a count and that many transactions to the last byte, no id twice and the header's root; returns their boundaries; each error has its cause, a repeat before an unreadable transaction and trailing bytes last |
| `Submission.AcceptedComesBack` | crates/sovright-relay/src/merkle.rs:331-365 | a body the strict reader accepted passes the check of its slices, and serializing those gives the received bytes |
| `Submission.RelayParsed` | crates/sovright-p2p-ingress/src/block.rs:33-37 | strict reader, compact builder and submission candidate in a row: every accepted body of up to 65,536 transactions is submitted byte for byte as received, and nothing else is |
| `GateWindow.BestChainWindow` | crates/sovright-relay-sidecar/src/submit_gate.rs:347-360 | with a best-chain observation that does not overflow, the upper bound never fails; with an observed tip at least the polled one the window passes if and only if confirmations are at most `allowed_below + 2`; the general condition is exact too |
| `GateWindow.MadeExactly` | crates/sovright-relay-sidecar/src/submit_gate.rs:471-505 | a candidate's metadata is made if and only if the header is long enough, the observation is for its parent and neither height overflows; each error has its exact cause, and an observed tip is used exactly for a parent on the best chain |
| `GateWindow.PolledWindow` | crates/sovright-relay-sidecar/src/submit_gate.rs:471-505 | without best-chain confirmations the polled tip alone decides, exactly |
| `GateWindow.UnobservedParent` | crates/sovright-relay-sidecar/src/submit_gate.rs:461-505 | without an observation a candidate is rejected if and only if the parent is unknown or the polled tip exceeds `allowed_below + 1` |
| `GateWindow.UnobservedParentCanPass` | crates/sovright-relay-sidecar/src/submit_gate.rs:461-505 | a candidate without an observation that the default window lets through |
| `SubmitGate.GateObject.ApplyAt` | crates/sovright-relay-sidecar/src/submit_gate.rs:237-268 | verdict and new state of a strict candidate; `GateVerdict.StrictVerdict` says which verdict |
| `SubmitGate.GateObject.ReserveUnverifiedAt` | crates/sovright-relay-sidecar/src/submit_gate.rs:286-321 | verdict and new state of a reservation, for an enabled and a disabled gate; `GateVerdict.ReservationVerdict` says which verdict |
| `SubmitGate.GateObject.RecordSubmitted` | crates/sovright-relay-sidecar/src/submit_gate.rs:324-327 | the block enters the dedup ring, nothing else changes |
| `SubmitGate.GateObject.DropSlot` | crates/sovright-relay-sidecar/src/submit_gate.rs:192-201 | the body leaves the in-flight set, nothing else changes |
| `SubmitGate.SlotsAlwaysExact` | crates/sovright-relay-sidecar/src/submit.rs:785-833 | in every run the in-flight bodies are exactly those of the attempts that own a slot, at most one each |
| `SubmitGate.RecordsAreJustified` | crates/sovright-relay-sidecar/src/submit.rs:785-833 | the dedup ring was given a block if and only if it was strictly accepted, or an attempt on it was recorded whose reply from the node was none or "duplicate" |
| `SubmitGate.RefusedIsNeverRecorded` | crates/sovright-relay-sidecar/src/submit.rs:874-887 | whatever happens later, an attempt that was recorded got the reply none or "duplicate" and no other; a rejection, an RPC failure or no reply is never recorded |
| `SubmitGate.AnswerDecides` | crates/sovright-relay-sidecar/src/submit.rs:874-887 | straight after the node's reply an attempt may be recorded if and only if the reply was none or "duplicate", and it keeps its slot unless the call failed |
| `SubmitGate.HeldHasAReason` | crates/sovright-relay-sidecar/src/submit_gate.rs:237-268 | at any capacity and any times, every entry the ring holds comes from a strict accept or from such a reply |
| `SubmitGate.DuplicateIsExact` | crates/sovright-relay-sidecar/src/submit_gate.rs:237-268 | with ordered times and at every capacity, a candidate is a duplicate if and only if its block is among the last `capacity` of those, at capacity 0 among all of them, within the window |
| `SubmitGate.NothingHidden` | crates/sovright-relay-sidecar/src/submit.rs:764-833 | a reservation is a duplicate only if its block was strictly accepted, or recorded after such a reply, or these very bytes are at the node now; a body the node rejected, or that failed, hides nothing |
| `GateBudget.AttemptBudget` | crates/sovright-relay-sidecar/src/submit_gate.rs:286-321 | in any stretch of at most `dedup_capacity + 1` reservations that fits the window, one block has at most `unreadable_attempts_per_block`; at capacity 0 in any stretch |
| `GateBudget.BudgetExactly` | crates/sovright-relay-sidecar/src/submit_gate.rs:286-321 | over all configurations and lengths: the budget holds for stretches of `n` reservations if and only if the gate is disabled, the budget or the capacity is 0, or `n` is at most `dedup_capacity + 1` or the budget |
| `GateBudget.LimitNeverFires` | crates/sovright-relay-sidecar/src/submit_gate.rs:309-314 | a budget over a ring capacity of 1 or more never turns an attempt down |
| `GateBudget.LimitIsExact` | crates/sovright-relay-sidecar/src/submit_gate.rs:309-316 | an attempt is refused for the budget if and only if the last `capacity` grants hold that many fresh ones of its block |
| `GateBudget.FloodRestoresTheBudget` | crates/sovright-relay-sidecar/src/submit_gate.rs:162-168 | for every window, capacity and budget of 1 or more and every longer stretch, a run at one instant, never with more than one attempt at the node, whose grants give one block more than its budget |
| `GateVerdict.ChainVerdict` | crates/sovright-relay-sidecar/src/submit_gate.rs:329-361 | the chain checks in their order, each reason if and only if it is the first that fails; the height window written out on the polled and the observed tip |
| `GateVerdict.StrictVerdict` | crates/sovright-relay-sidecar/src/submit_gate.rs:237-268 | with ordered times, an enabled gate passes a strict candidate if and only if its header matches, its parent is known, its height is in the window and its block is not among the last `capacity` entered within the window; every reason is that of the first check that fails; a chain rejection changes nothing, and a disabled gate passes everything and changes nothing |
| `GateVerdict.StrictEnters` | crates/sovright-relay-sidecar/src/submit_gate.rs:250-254 | only a candidate that passes an enabled gate is entered in the dedup ring |
| `GateVerdict.ReservationVerdict` | crates/sovright-relay-sidecar/src/submit_gate.rs:286-321 | with ordered times, every verdict on a reservation, if and only if: a chain reason; a duplicate, its block being among the last `capacity` entered within the window or its bytes at the node; the limit, `unreadable_attempts_per_block` of the last `capacity` grants within the window being of its block; or a slot. For a disabled gate the bytes at the node alone decide |
| `GateVerdict.ReservationGrants` | crates/sovright-relay-sidecar/src/submit_gate.rs:309-320 | a reservation enters nothing in the dedup ring; a granted one counts as one more attempt of an enabled gate, and its bytes are at the node |
| `RequestWindow.RecentInventory.Insert` | crates/sovright-p2p-ingress/src/peer.rs:53-66 | set and queue stay in agreement within the limit; a limit of 0 keeps nothing |
| `RequestWindow.Window.Admit` | crates/sovright-p2p-ingress/src/peer.rs:89-98 | admits exactly if there is room and the key is neither pending nor recent |
| `RequestWindow.Window.Remove` | crates/sovright-p2p-ingress/src/peer.rs:100-107 | removes and locates the first request of the key, if there is one |
| `RequestWindow.Window.Complete` | crates/sovright-p2p-ingress/src/peer.rs:109-113 | a pending key leaves the queue and enters the cache; any other changes nothing |
| `RequestWindow.Window.Expire` | crates/sovright-p2p-ingress/src/peer.rs:119-123 | the loop drops overdue requests from the front |
| `RequestWindow.InvHolds` | crates/sovright-p2p-ingress/src/peer.rs:79-124 | after any run at any times: pending keys distinct and within the limit, recent keys distinct and within theirs, no key both |
| `RequestWindow.WindowIsMap` | crates/sovright-p2p-ingress/src/peer.rs:79-124 | with ordered times the queue is the map from keys to deadlines and the cache the last completed keys, so front-only expiry removes exactly the overdue requests |
| `RequestWindow.AnswersInAnyOrder` | crates/sovright-p2p-ingress/src/peer.rs:534-587 | after any answers, reordered, repeated, unsolicited or missing, and any expiries between them, the queue is what was neither answered nor due by the latest expiry, in order |
| `RequestWindow.UnansweredStayPending` | crates/sovright-p2p-ingress/src/peer.rs:198-200 | so it is after every run of a connection at ordered times, request by request |
| `Handshake.RunPeer` | crates/sovright-p2p-ingress/src/peer.rs:203-247 | the message loop computes the session |
| `Handshake.VersionBytes` | crates/sovright-p2p-ingress/src/peer.rs:500-503 | the version is the signed 32-bit little-endian value of the first four bytes, and 0 if there are fewer |
| `Handshake.OpenIsGoodStanding` | crates/sovright-p2p-ingress/src/peer.rs:203-247 | a session is open if and only if the messages are one version at or above the floor, one verack, and then neither |
| `Handshake.ActedOnlyAfterHandshake` | crates/sovright-p2p-ingress/src/peer.rs:140-144 | over every message sequence, what was acted on came right after exactly that handshake, and the admitted version is the first one |
| `Crawler.CrawlerObject.constructor` | crates/sovright-p2p-ingress/src/crawler.rs:98-127 | the initial table and queue, repeated peers included |
| `Crawler.CrawlerObject.NextPeer` | crates/sovright-p2p-ingress/src/crawler.rs:154-179 | none if and only if no queued peer is eligible; else the first eligible one in queue order, or with scoring the best |
| `Crawler.CrawlerObject.NextScoredPeer` | crates/sovright-p2p-ingress/src/crawler.rs:181-214 | the maximal decayed score, lowest sequence among equals |
| `Crawler.PickIsUnique` | crates/sovright-p2p-ingress/src/crawler.rs:154-214 | if a queued peer is eligible there is exactly one place to hand out, whatever the scores and sequence numbers |
| `Crawler.CrawlerObject.ReleasePeer` | crates/sovright-p2p-ingress/src/crawler.rs:230-259 | the peer becomes inactive and, with rotation, queued once with its cooldown |
| `Crawler.CrawlerObject.AddDiscovered` | crates/sovright-p2p-ingress/src/crawler.rs:415-462 | new accepted peers are queued until the table is full, never past it |
| `Crawler.InvHolds` | crates/sovright-p2p-ingress/src/crawler.rs:154-259 | after any run the queue has no duplicates and is exactly the queued records, none active; with rotation every known peer is one or the other |
| `Crawler.HandedOutOnce` | crates/sovright-p2p-ingress/src/crawler.rs:154-259 | no peer is handed out twice without a release between; with rotation the peers that are out are exactly the known ones not queued |
| `Crawler.CooldownIsExact` | crates/sovright-p2p-ingress/src/crawler.rs:230-259 | with rotation, in every run a released peer is eligible again if and only if it is not out and the cooldown of its last release is over, that of a rotation or that of a failure |
| `Crawler.OneTurn` | crates/sovright-p2p-ingress/src/crawler.rs:154-259 | without rotation, a peer that was handed out is never queued again |
| `Crawler.AddedExactly` | crates/sovright-p2p-ingress/src/crawler.rs:415-462 | discovery appends exactly the accepted unknown peers, each where it was found first, as far as the table has room, and leaves every known record alone |
| `Crawler.BegunExactly` | crates/sovright-p2p-ingress/src/crawler.rs:98-127 | the initial queue is exactly the accepted initial peers, each where it comes first |
| `Crawler.ScoreAddsUp` | crates/sovright-p2p-ingress/src/crawler.rs:86-89 | an award counts in full from the moment it is made, on top of the decayed score, and for its peer alone |
| `Crawler.NumberedExactly` | crates/sovright-p2p-ingress/src/crawler.rs:98-127 | after every run, until the counter saturates, sequence numbers are distinct and the next one new if and only if no accepted initial peer was repeated |
| `Crawler.RepeatSharesANumber` | crates/sovright-p2p-ingress/src/crawler.rs:98-127 | for every such repeat and every run, two peers have the same number as soon as one more is discovered |
| `Crawler.CrawlerObject.ScoreBlockAnnouncement` | crates/sovright-p2p-ingress/src/crawler.rs:287-344 | the rank, the ledger and the score after an announcement |
| `Announcements.LedgerBounded` | crates/sovright-p2p-ingress/src/crawler.rs:346-357 | over every run of announcements one after the other the ledger tracks at most 4,096 blocks, its order and lists agree, and no peer is listed twice |
| `Announcements.LedgerBoundedAlong` | crates/sovright-p2p-ingress/src/crawler.rs:297-357 | with entering and pruning under separate locks, in every interleaving the ledger is over 4,096 by at most one block for each announcement between the two |
| `Announcements.RankAlong` | crates/sovright-p2p-ingress/src/crawler.rs:297-357 | in every such interleaving a repeated announcement earns a place if and only if its block has been pruned since |
| `Announcements.LedgerIsHistory` | crates/sovright-p2p-ingress/src/crawler.rs:301-357 | for every run, pruned or not, it tracks exactly the last 4,096 blocks that came up, and lists for each exactly the peers that announced it since |
| `Announcements.RankIsPlace` | crates/sovright-p2p-ingress/src/crawler.rs:287-329 | in every run the Nth distinct peer to announce a block since it has been tracked earns the Nth place; one that announced it before earns another if and only if the block has been pruned since |
| `Announcements.PrunedBlockIsFirstAgain` | crates/sovright-p2p-ingress/src/crawler.rs:346-357 | a run in which a re-announcement earns the first place |
| `ParentCache.CachedChainState.AdmitParent` | crates/sovright-relay-sidecar/src/chain_view.rs:81-89 | moves a known hash to the back, or makes room and appends |
| `ParentCache.RecencyMeans` | crates/sovright-relay-sidecar/src/chain_view.rs:58-64 | the reference order has each admitted hash once, by latest admission |
| `ParentCache.CacheIsRecency` | crates/sovright-relay-sidecar/src/chain_view.rs:77-89 | with capacity 1 or more the cache is exactly the `capacity` most recently admitted hashes in that order |
| `ParentCache.CapacityZeroForgetsNothing` | crates/sovright-relay-sidecar/src/chain_view.rs:81-89 | with capacity 0 the cache is every hash ever admitted |
| `RateLimiter.RequestRateLimiter.Allow` | crates/sovright-p2p-ingress/src/submitblock_rpc.rs:175-190 | the loop, the verdict and the new deque |
| `RateLimiter.RefusalIsExact` | crates/sovright-p2p-ingress/src/submitblock_rpc.rs:175-190 | with ordered times a request is refused if and only if `capacity` or more were accepted in the half-open window before it |
| `RateLimiter.NeverMoreThanCapacity` | crates/sovright-p2p-ingress/src/submitblock_rpc.rs:175-190 | so no half-open window holds more than `capacity` accepted requests |

## Left out

- The proof of work, target and size checks that come before the protocol, and everything cryptographic: hashes, the transaction reader and Equihash are parameters or verdicts.
- Forward error correction, segment planning and the transport; a send is one step that ends in a commit or an abandon.
- Lock poisoning, and branches that the proved invariants rule out (a queued peer without a record, too many short ids).
- A blocking job's panic and the delivery of its error are one step, and so are the release of a ledger place and the return of its permit in the same drop.
- Fairness of the scheduler: which steps are enabled is modelled, not when they are taken.
- The order in which `notfound`, block and transaction handlers run inside one message; each is a sequence of request-window operations.
- Crawler.CrawlerObject.ScoreBlockAnnouncement: enters, prunes and scores in one step; the source takes the lock once for each, and `Announcements.LedgerBoundedAlong` and `Announcements.RankAlong` cover the interleavings of the first two.
- Message framing, `addr` parsing, ping and pong, scores for deliveries, the transaction cache and feed.
- `retry_transient_within` and the control flow of `handle_submitblock`, which add only short case analyses.
- Reconstruction requests after an incomplete compact block, and the candidate built from a mempool.
- Configuration, logging, metrics, JSON-RPC, the Noise transport, dual submission, coinbase and mempool telemetry.
- Floating-point rounding of scores: scores are real numbers and decay is any function of record and time.
- BlockBody.ReadChecked: the two library readers it calls are parameters, assumed to read from the front without looking past what they consume, and to take a count in its shortest encoding only, as the repository's own tests require (crates/sovright-relay/src/merkle.rs:831-838).
- Reconstructor.Reconstruct: takes the body check as a parameter; `Merkle.ValidateBlockTransactions` is that check.
- Handshake.RunPeer: the handlers of other messages are not modelled, only whether one of them ends the session.
