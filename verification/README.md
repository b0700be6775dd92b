# Models of a relay-chain node

A Dafny model of the parts of a Polkadot node where a clever incremental state has to agree with
a simple description over every run, and proofs that it does. Nothing here was executed: every
statement below is a contract that the Dafny verifier proves.

Each component follows the same plan. The contents of an object are a value; each operation is a
function or a relation on such values; a class with the source's fields and loops is proved
against it; and the theorems speak about values, for every input and every run.

**State database** (`Commits`, `Pruning`, `Forests`, `Unfinalized`, `Finality`, `ForestJournal`,
`ForestRecovery`, `StateDb`, `StateRun`, `StateTheorems`, `StateExact`, `Restarts`, `Drive`). Unfinalized blocks form a forest by
level; finalization keeps one root and discards the losing subtrees; finalized blocks enter a
pruning window whose rows say which keys die with which block. Every block has a state: its
parent's, with its insertions, without its deletions. A run is any sequence of genesis writes,
insertions, finalizations, pins, unpins and restarts, with each commit applied to the store. The
theorems say what the store holds and when it holds nothing else, that every retained or unfinalized
state can be read, that the window keeps within its bound, and when a restart rebuilds everything;
`Drive` takes the objects through runs. What runs assume of the caller: a
block has a fresh hash, its parent sits one level up, it deletes only keys of its parent's state or
of its own insertions, and a key determines its value.

**Bytes on disk** (`Codec`, `Records`, `MetaStore`, `ByteStore`). Codecs as two-sided partial inverses,
built up to the journal records, receipts, rosters and statements; the metadata keys never collide,
so committing bytes is committing metadata, on every run, and reading them back is reading it back.

**Statement table** (`Statements`, `TableCounts`, `TableInvariants`, `Gossip`, `Batches`,
`StatementTable`, `TableTheorems`, `VoteLaws`, `Detection`, `Proposals`). Votes on candidates, a cached count per group,
proofs of misbehaviour, and a batcher that turns the table back into statements. The digest is
injective, the context is fixed, and batches have distinct targets (what happens otherwise is
stated exactly).

**Streaming majority tree** (`SafeMix`), **storage overlay** (`Changes`, `StateMachine`,
`Histories`),
**download ranges** (`Downloads`), **on-demand requests** (`Tallies`, `OnDemand`), **duty roster and
groups** (`Duties`), **checks on parachain heads** (`Heads`), **gossip of agreement messages**
(`Rumours`) and **ingress merging** (`Ingress`). `Primitives` and `Ordered` are shared.

Where the code and its documentation disagree, the model follows the code: the mix does not ignore
the seeds beyond the largest power of three (`SafeMix.IgnoresTheRestIff` says for which lengths it
does).

## Model

| member | source | states |
|---|---|---|
| Commits.TestDb.Commit | substrate/state-db/src/test.rs:47-56 | a commit is applied insertions first, then deletions, to data and to metadata |
| Pruning.ImportTracksIff | substrate/state-db/src/pruning.rs:105-125 | importing a block keeps row i equal to what block i deletes minus what later blocks insert, with the index its exact inverse, if and only if no key it deletes is still condemned by an earlier row |
| Pruning.PruneTracks | substrate/state-db/src/pruning.rs:140-150 | pruning the front block leaves exactly the window of the remaining blocks |
| Pruning.TracksIsUnique | substrate/state-db/src/pruning.rs:75-103 | the window is determined by the blocks in it, so a replay of the journal can give only one |
| Pruning.BuildsTracks | substrate/state-db/src/pruning.rs:75-103 | importing the records of a log one by one gives the window that tracks it, if no record deletes a key that is still condemned |
| Pruning.BuildsIsUnique | substrate/state-db/src/pruning.rs:75-103 | any log, replayed, gives one window only |
| Pruning.RefWindow.Recover | substrate/state-db/src/pruning.rs:75-103 | the journal loop rebuilds, from any journaled log, the window that importing its records one by one gives; if no record deletes a key that is still condemned, that window tracks the log: same pending number, rows and index |
| Pruning.RefWindow.Import | substrate/state-db/src/pruning.rs:105-125 | re-inserted keys leave their row and the index, then the deletions form a new row |
| Pruning.RefWindow.PruneOne | substrate/state-db/src/pruning.rs:140-150 | the front row's keys and journal entry enter the commit, the pending number advances |
| Pruning.RefWindow.NoteFinalized | substrate/state-db/src/pruning.rs:153-167 | the commit's deletions move into the window and its journal record into the metadata |
| Forests.DiscardsCompose | substrate/state-db/src/unfinalized.rs:176-196 | discarding one set of roots after another is discarding their union: survivors, removed hashes and removed journal keys |
| Forests.SurvivorsHashes | substrate/state-db/src/unfinalized.rs:176-196 | a discard splits the blocks into survivors and removed, nothing lost and nothing twice |
| Unfinalized.UnfinalizedOverlay.Insert | substrate/state-db/src/unfinalized.rs:128-174 | the first insertion sets the last finalized block; the block is appended to its level and journaled under the next index |
| Unfinalized.UnfinalizedOverlay.Discard | substrate/state-db/src/unfinalized.rs:176-196 | the recursive sweep removes exactly the blocks below a hash, their parent links and their journal keys, and never fails to find a parent link |
| Unfinalized.UnfinalizedOverlay.Sift | substrate/state-db/src/unfinalized.rs:204-235 | the loop over the front level keeps the winner's values and discards the subtree of every other root |
| Unfinalized.UnfinalizedOverlay.Finalize | substrate/state-db/src/unfinalized.rs:204-235 | the forest after finalization, and a commit with the winner's changes, the marker and the dropped journal keys |
| Unfinalized.UnfinalizedOverlay.Get | substrate/state-db/src/unfinalized.rs:238-247 | a value is found exactly when some unfinalized block inserted the key, and it is that of the first such block in order of the levels |
| Finality.InsertKeepsValid | substrate/state-db/src/unfinalized.rs:128-174 | insertion keeps hashes distinct, every block below its parent, and the parent links exactly those of the blocks |
| Finality.FinalizeKeepsValid | substrate/state-db/src/unfinalized.rs:204-235 | so does finalization |
| Finality.FinalizeKeepsExactlyDescendants | substrate/state-db/src/unfinalized.rs:176-235 | every level keeps exactly the proper descendants of the finalized block, in order; parent links are those of the survivors; the deleted journal keys are those of the removed blocks |
| ForestJournal.InsertIsJournaled | substrate/state-db/src/unfinalized.rs:128-174 | after an insertion the metadata journals the new forest |
| ForestJournal.FinalizeIsJournaled | substrate/state-db/src/unfinalized.rs:176-235 | after a finalization the metadata journals what is left |
| ForestJournal.InsertKeepsDense | substrate/state-db/src/unfinalized.rs:153-164 | insertion keeps the journal indices of each level 0, 1, 2 and so on |
| ForestJournal.FinalizeKeepsDenseIff | substrate/state-db/src/unfinalized.rs:204-235 | finalization keeps them if and only if, on every level below the first, whoever stands before a descendant of the finalized block is one too |
| ForestRecovery.Recover | substrate/state-db/src/unfinalized.rs:75-125 | the journal-reading loops compute the recovered forest, or a decoding error |
| ForestRecovery.RecoveryIsExactIffDense | substrate/state-db/src/unfinalized.rs:75-125 | recovery gives back the forest, up to trailing empty levels, if and only if the indices are dense |
| StateDb.StateDbSync.InsertBlock | substrate/state-db/src/lib.rs:174-194 | block 0 and archive mode write through; otherwise the overlay takes the block |
| StateDb.StateDbSync.FinalizeBlock | substrate/state-db/src/lib.rs:196-215 | in each mode the forest, the window and the commit of a finalization |
| StateDb.StateDbSync.NoteAndPrune | substrate/state-db/src/lib.rs:207-212 | the window imports the finalized block's deletions and is then pruned |
| StateDb.StateDbSync.Prune | substrate/state-db/src/lib.rs:217-236 | the loop prunes while the window is too long and its front is not pinned, and stops as soon as one fails; without a bound and pins nothing is left in the window |
| StateDb.StateDbSync.Pin | substrate/state-db/src/lib.rs:238-240 | a pinned block is in the pinned set |
| StateDb.StateDbSync.Unpin | substrate/state-db/src/lib.rs:242-244 | an unpinned block is not |
| StateDb.StateDbSync.Get | substrate/state-db/src/lib.rs:246-251 | a read succeeds exactly when an unfinalized block inserted the key or the store has it; the first unfinalized block that inserted it comes before the store |
| StateRun.InsertKeepsInv | substrate/state-db/src/lib.rs:174-194 | an insertion with its commit keeps the invariant of forest, window, journal, store and states |
| StateRun.FinalizeKeepsInv | substrate/state-db/src/lib.rs:196-236 | so does a finalization with its pruning and its commit |
| StateRun.RestartKeepsInv | substrate/state-db/src/lib.rs:155-172 | so does a restart from the metadata when the journal is dense |
| StateTheorems.RunKeepsInv | substrate/state-db/src/lib.rs:155-251 | the invariant holds at every point of every run |
| StateTheorems.EveryRunIsSafe | substrate/state-db/src/lib.rs:174-251 | on every run the store holds the oldest retained state and the retained insertions, every retained or unfinalized block's whole state is readable, and what is read is right |
| StateExact.EveryTidyRunIsExact | substrate/state-db/src/lib.rs:174-251 | on every run whose blocks delete only keys of their parents' states, the store holds at every moment the union of the retained states and nothing else |
| StateExact.OneBlockIsExactIff | substrate/state-db/src/lib.rs:174-236 | after one block is inserted and finalized, with a window of at least one block, the store is exact if and only if the block deletes only keys that the store had |
| StateExact.OneBlockRun | substrate/state-db/src/lib.rs:174-236 | every block that an untouched database accepts can be inserted and finalized |
| StateExact.InsertedAndDeletedLeaks | substrate/state-db/src/pruning.rs:105-125 | a run of one block that inserts and deletes a new key ends with the key in the store and in no state |
| StateTheorems.EveryRunRecovers | substrate/state-db/src/lib.rs:155-172 | on every run a replayed window equals the window, and the recovered forest equals the forest if and only if its indices are dense |
| Restarts.EveryRestartRecoversIff | substrate/state-db/src/unfinalized.rs:75-125 | a restart recovers the forest at every moment of a run if and only if each of its finalizations discards, on every level, only blocks behind those it keeps |
| Restarts.GapForgetsBlock | substrate/state-db/src/unfinalized.rs:92-110 | a run of four insertions, two roots with a child each, and the finalization of the second root: its child is left with a gap before its index, and recovery loses it |
| StateTheorems.EveryFinalizeBoundsWindow | substrate/state-db/src/lib.rs:217-236 | after each finalization the window is within its bound unless its front block is pinned |
| StateTheorems.EveryFinalizeSlides | substrate/state-db/src/lib.rs:196-236 | each finalization of a run drops blocks from the front of the window only, none that is pinned, and none unless the bound leaves no room for it |
| StateTheorems.DoubleDeletionLosesKey | substrate/state-db/src/pruning.rs:105-125 | a key deleted twice without being inserted in between stays condemned by the first row after its re-insertion |
| Drive.Driver.Insert | substrate/state-db/src/lib.rs:174-194 | inserting a block through the objects and committing to the store is a step of a run |
| Drive.Driver.Finalize | substrate/state-db/src/lib.rs:196-236 | so is finalizing one, with its pruning; the objects are ready for it at every moment of every run |
| Drive.Driver.Restart | substrate/state-db/src/lib.rs:155-172 | so is dropping the database and opening it again over the same store, when the journal is dense; otherwise the forest is what the journal gives |
| Drive.Driver.Get | substrate/state-db/src/lib.rs:246-251 | at every moment of every run a read through the objects finds each key of each retained or unfinalized block, and only ever the right value |
| Drive.Driver.DbIsValid | substrate/state-db/src/lib.rs:147-152 | at every moment of every run the two windows are as the methods of the database want them |
| Drive.Driver.Genesis | substrate/state-db/src/lib.rs:174-180 | writing block 0 is a step of a run |
| Drive.Driver.Pin | substrate/state-db/src/lib.rs:238-240 | so is pinning |
| Drive.Driver.Unpin | substrate/state-db/src/lib.rs:242-244 | so is unpinning |
| Codec.UintLawful | substrate/codec/src/slicable.rs:322-365 | little-endian integers of n bytes decode to what was encoded, and a successful decode consumed exactly an encoding |
| Codec.IntLawful | substrate/codec/src/slicable.rs:322-406 | so do signed ones, in two's complement |
| Codec.VecLawful | substrate/codec/src/slicable.rs:207-230 | so do vectors over any lawful codec |
| Codec.BytesLawful | substrate/codec/src/slicable.rs:189-205 | so do byte strings |
| Codec.PairLawful | substrate/codec/src/slicable.rs:246-300 | so do tuples |
| Codec.OptionLawful | substrate/codec/src/slicable.rs:131-151 | so do options |
| Codec.ResultLawful | substrate/codec/src/slicable.rs:84-107 | so do results |
| Codec.IntegerByte | substrate/codec/src/slicable.rs:322-365 | byte i of an integer is x / 256^i % 256 |
| Codec.OptionBytes | substrate/codec/src/slicable.rs:131-151 | nothing is 0, something is 1 and its encoding |
| Codec.ResultBytes | substrate/codec/src/slicable.rs:84-107 | success is 0 and failure 1, each before its encoding |
| Codec.VecBytes | substrate/codec/src/slicable.rs:207-230 | a vector is its length in four bytes and then its elements in order |
| Codec.LawfulIsPrefixFree | substrate/codec/src/slicable.rs:58-73 | no encoding is a proper prefix of another |
| Codec.DecodeVec | substrate/codec/src/slicable.rs:207-217 | the decoding loop computes the vector decoder |
| Codec.EncodeVec | substrate/codec/src/slicable.rs:218-229 | the encoding loop computes the vector encoder |
| Records.BlockRecordLawful | substrate/state-db/src/unfinalized.rs:41-59 | the fork tree's journal records are lawful |
| Records.BlockRecordBytes | substrate/state-db/src/unfinalized.rs:41-59 | hash, parent, insertions and deletions in this order, each key and value in its place |
| Records.DeathRecordLawful | substrate/state-db/src/pruning.rs:52-68 | the pruning journal's records are lawful |
| Records.DeathRecordBytes | substrate/state-db/src/pruning.rs:52-68 | hash, insertions and deletions in this order |
| Records.ChainLawful | polkadot/primitives/src/parachain.rs:70-95 | chains are lawful |
| Records.ChainBytes | polkadot/primitives/src/parachain.rs:70-95 | the relay chain is 0, a parachain is 1 and its id in four bytes |
| Records.RosterLawful | polkadot/primitives/src/parachain.rs:108-128 | duty rosters are lawful |
| Records.RosterBytes | polkadot/primitives/src/parachain.rs:108-128 | validators before guarantors, each with its number |
| Records.ReceiptLawful | polkadot/primitives/src/parachain.rs:177-201 | candidate receipts are lawful |
| Records.ReceiptBytes | polkadot/primitives/src/parachain.rs:177-201 | the fields of a receipt in the order of the source, with their widths |
| Records.StatementLawful | polkadot/primitives/src/parachain.rs:300-342 | statements are lawful |
| Records.StatementBytes | polkadot/primitives/src/parachain.rs:300-342 | the four kinds of statement have the tags 1 to 4, before the receipt or the digest |
| MetaStore.KeysAreInjective | substrate/state-db/src/lib.rs:141-145 | the four families of metadata keys never collide, and journal keys are injective |
| MetaStore.SuffixBytes | substrate/state-db/src/pruning.rs:29-30 | the names of the metadata keys, in bytes |
| MetaStore.KeyLayout | substrate/state-db/src/lib.rs:141-145 | a metadata key is block and index in eight bytes each, then its name |
| MetaStore.ValueLayout | substrate/state-db/src/unfinalized.rs:128-174 | the last finalized block is its hash and its number, the last pruned one its number, a journal entry its record |
| MetaStore.ValueRoundTrip | substrate/state-db/src/unfinalized.rs:75-110 | a stored metadata value is read back under its key |
| MetaStore.CommitIsFaithful | substrate/state-db/src/test.rs:47-56 | committing encoded changes to the byte store is committing the changes to the metadata |
| MetaStore.LookupIsFaithful | substrate/state-db/src/lib.rs:58-62 | looking a key up in the byte store gives what the metadata holds |
| ByteStore.EveryByteRunMirrors | substrate/state-db/src/test.rs:47-56 | at every moment of every run whose numbers and records fit, the store that received the encoded commits holds exactly the encoded metadata |
| ByteStore.RecoverForest | substrate/state-db/src/unfinalized.rs:75-125 | the forest read from the bytes is the one read from the metadata; no stored value fails to decode |
| ByteStore.RecoverWindow | substrate/state-db/src/pruning.rs:75-103 | so is the pruning window |
| ByteStore.Reopen | substrate/state-db/src/lib.rs:155-172 | reopening from the bytes at any moment of such a run gives back the window, and the forest if and only if its journal indices are dense |
| Statements.BadAreVoters | polkadot/statement-table/src/generic.rs:240-248 | who marked a candidate bad has a vote on it, so the summary's subtraction does not underflow |
| TableCounts.ImportIsSound | polkadot/statement-table/src/generic.rs:335-390 | any import keeps the facts that make both panics unreachable, and keeps the cached counts equal to a recount |
| TableCounts.IncludableIsApproved | polkadot/statement-table/src/generic.rs:231-238 | the test on the bad marks and the numbers of votes says the same as the votes: none against, enough of both kinds |
| VoteLaws.ImportEffect | polkadot/statement-table/src/generic.rs:335-390 | what any import does to the vote of each authority on each candidate: the first admitted vote on validity is recorded with its kind and signature, the latest admitted one on availability, and every other vote stays as it was |
| VoteLaws.StatementIsSummarized | polkadot/statement-table/src/generic.rs:240-248 | a statement gets a summary if and only if it adds a vote; the summary counts the issued and valid votes and the availability votes, and tells whether anybody voted invalid |
| VoteLaws.AccusesIff | polkadot/statement-table/src/generic.rs:539-708 | a statement gets its sender accused if and only if the sender has no say in the group of the candidate, proposes a second candidate, or has given another kind of vote on this one |
| VoteLaws.ImportAccuses | polkadot/statement-table/src/generic.rs:378-389 | after such a statement the accusation on record cites it; any other statement leaves all accusations as they were |
| VoteLaws.SecondProposalIsCited | polkadot/statement-table/src/generic.rs:560-590 | a second proposal is cited with the first, each with its signature, in this order |
| VoteLaws.SameTraceIff | polkadot/statement-table/src/generic.rs:343-348 | two statements leave the same trace if and only if they have the same sender and kind and, unless they are proposals, the same candidate |
| TableInvariants.ImportKeepsInv | polkadot/statement-table/src/generic.rs:335-390 | any import keeps every vote, proposal and accusation backed by statements that were imported, every proposer's vote on record and every candidate issued by somebody |
| TableTheorems.CountsAgreeIff | polkadot/statement-table/src/generic.rs:625-761 | the cached count of every group equals a recount on every run if and only if no candidate that somebody may propose is includable without a vote |
| TableTheorems.EveryRunIsBacked | polkadot/statement-table/src/generic.rs:335-390 | the table of every run is backed by the statements imported in it |
| TableTheorems.NoHonestAuthorityIsAccused | polkadot/statement-table/src/generic.rs:539-708 | every recorded misbehaviour cites statements of the accused that break the rules, so no honest authority is accused |
| Detection.EveryStatementIsNoted | polkadot/statement-table/src/generic.rs:335-390 | on every run every statement on a known candidate is on record with its kind, or its sender is accused |
| Detection.EveryOffenderIsAccused | polkadot/statement-table/src/generic.rs:539-708 | on every run two proposals, two kinds of vote on one known candidate, or a say in a foreign group get the sender accused |
| TableTheorems.EveryTableSurvivesGossip | polkadot/statement-table/src/generic.rs:410-530 | what an unbounded batch for a fresh target holds, in whatever order it was filled, rebuilds the votes, the bad marks, the counts and the proposals on record of any reachable table and accuses nobody |
| Gossip.GossipRoundTrip | polkadot/statement-table/src/generic.rs:410-530 | importing the statements on record into an empty table gives the same candidates, votes, bad marks and counts, the proposals whose author's vote is the proposal itself, and knowledge of exactly what each authority said or passed on; accusations are not carried over |
| Gossip.GossipKeepsVotesIff | polkadot/statement-table/src/generic.rs:426-457 | filling a batch leaves votes and proposals alone if and only if no target listed twice has a proposal |
| Gossip.GossipKnows | polkadot/statement-table/src/generic.rs:426-457 | who a batch was filled for knows what it knew and what was handled, only the latter if listed twice; nobody else learns anything |
| Batches.FetchTargets | polkadot/statement-table/src/generic.rs:435-452 | the targets' entries are moved out of the table, blank for a target listed before |
| Batches.RestoreTargets | polkadot/statement-table/src/generic.rs:427-433 | putting them back gives the table after gossip |
| Batches.AttemptSend | polkadot/statement-table/src/generic.rs:456-479 | a statement is pushed exactly when it is news to some target, and then all targets know it |
| Batches.SendCandidate | polkadot/statement-table/src/generic.rs:482-527 | proposals of a candidate go before its other votes, availability goes last, and all are handled unless the batch is full |
| Batches.SendAll | polkadot/statement-table/src/generic.rs:481-528 | an unbounded batch handles every statement on record, in any order of the maps |
| Batches.FreshTargetGetsAll | polkadot/statement-table/src/generic.rs:410-530 | for a target that knew nothing, such a batch is exactly what is on record, every vote after a proposal of its candidate |
| StatementTable.Table.ImportStatement | polkadot/statement-table/src/generic.rs:335-390 | an import gives the specified table and summary, with no panic; a summary counts the votes on record after the import |
| StatementTable.Table.ImportCandidate | polkadot/statement-table/src/generic.rs:539-623 | a proposal gives the specified table, accusation and summary |
| StatementTable.Table.CastValidityVote | polkadot/statement-table/src/generic.rs:625-708 | so does a validity vote |
| StatementTable.Table.CastAvailabilityVote | polkadot/statement-table/src/generic.rs:710-745 | so does an availability vote |
| StatementTable.Table.UpdateIncludableCount | polkadot/statement-table/src/generic.rs:748-761 | the count is adjusted, and never decremented below one entry |
| StatementTable.Table.NoteTraceSeen | polkadot/statement-table/src/generic.rs:532-537 | the trace joins what the peer has seen, in a new entry if it had none |
| StatementTable.Table.FillBatch | polkadot/statement-table/src/generic.rs:410-530 | what is sent is on record, news to some target, sent once and after its proposals; the targets' entries are those after gossip |
| StatementTable.Table.ProposedCandidates | polkadot/statement-table/src/generic.rs:292-320 | one minimal candidate, among those that nobody voted invalid and that have the votes required, for every group that has one, ascending by group; as many as the cached counts have entries |
| StatementTable.ChosenAreApproved | polkadot/statement-table/src/generic.rs:292-320 | each proposed candidate is known, voted invalid by nobody, has the votes its group requires, and no other such candidate of its group is less |
| StatementTable.Table.CandidateIncludable | polkadot/statement-table/src/generic.rs:323-328 | the answer is yes if and only if the candidate is known, nobody voted it invalid, and its validity and availability votes reach what its group requires |
| StatementTable.Table.IncludableCount | polkadot/statement-table/src/generic.rs:405-407 | the number of groups with a candidate that nobody voted invalid and that has the votes its group requires |
| Proposals.ProposedCandidatesPass | polkadot/statement-table/src/generic.rs:292-320 | on every run, if only active parachains have members, the proposed candidates pass both checks on heads |
| Proposals.RejectedIsNeverProposed | polkadot/statement-table/src/generic.rs:292-320 | on every run, once a vote against a candidate is on record the candidate is in no later list of proposals |
| SafeMix.TripletMix | safe-mix/src/lib.rs:61-85 | with m the seeds in whole triples and k how often three divides m, up to 17: the depth-k majority tree over the last 3^k of the first m seeds; the default below three seeds |
| SafeMix.PowerIsMixedWhole | safe-mix/src/lib.rs:30 | 3^j seeds, j from 1 to 17, are mixed whole |
| SafeMix.LargePowerIsCapped | safe-mix/src/lib.rs:61-85 | of 3^j seeds with j at least 17 exactly the last 3^17 are mixed |
| SafeMix.Carry | safe-mix/src/lib.rs:64-83 | a new seed completes the nodes it ends, and every row of the stack holds the last three nodes of its depth |
| SafeMix.NodeIsMixed | safe-mix/src/lib.rs:32-36 | a node of the stack is the recursive tree over its own stretch of seeds |
| SafeMix.WholeTreeIsUsed | safe-mix/src/lib.rs:61-85 | if the whole triples number a power of three within the cap, the result is the full tree |
| SafeMix.IgnoresTheRestIff | safe-mix/src/lib.rs:50-52 | the documented reading, that seeds past the largest power of three are ignored, holds of a length if and only if its whole triples number that power |
| SafeMix.LatticeHasMajority | safe-mix/src/lib.rs:32-36 | for bitwise operations two equal seeds outvote the third |
| SafeMix.FewCannotSway | safe-mix/src/lib.rs:32-36 | fewer than 2^k of the 3^k seeds cannot sway a tree of depth k |
| Changes.LayerIsIdleIff | substrate/state-machine/src/lib.rs:76-78 | discarding the prospective layer goes unnoticed if and only if it changed nothing |
| Changes.PlacedAt | substrate/state-machine/src/ext.rs:110-113 | a change is made at its key and nowhere else |
| Changes.Update | substrate/state-machine/src/backend.rs:83-94 | applying a transaction entry by entry gives the store with its net changes |
| Changes.PairsWith | substrate/state-machine/src/backend.rs:116-129 | the pairs that are hashed are those of the same store |
| Changes.Entries | substrate/state-machine/src/ext.rs:131-134 | a map's entries in any order have the map as their net changes |
| StateMachine.OverlayedChanges.Storage | substrate/state-machine/src/lib.rs:65-69 | the overlay answers with the later layer, then the earlier, then not at all |
| StateMachine.OverlayedChanges.SetStorage | substrate/state-machine/src/lib.rs:71-73 | a write goes to the prospective layer |
| StateMachine.OverlayedChanges.DiscardProspective | substrate/state-machine/src/lib.rs:76-78 | only the committed layer is left |
| StateMachine.OverlayedChanges.CommitProspective | substrate/state-machine/src/lib.rs:81-87 | swap or merge, the layers' sum is committed and unchanged |
| StateMachine.OverlayedChanges.Drain | substrate/state-machine/src/lib.rs:90-92 | the committed layer is handed out and emptied |
| StateMachine.ClearsPrefixIff | substrate/state-machine/src/ext.rs:115-120 | clearing a prefix clears it if and only if no key with the prefix lives in the overlay only; other keys are untouched |
| StateMachine.Ext.Storage | substrate/state-machine/src/ext.rs:105-108 | a read is a lookup in the flat store |
| StateMachine.Ext.PlaceStorage | substrate/state-machine/src/ext.rs:110-113 | a write is a write to the flat store, and the memo stays right |
| StateMachine.Ext.ClearPrefix | substrate/state-machine/src/ext.rs:115-120 | exactly the backend's keys with the prefix leave the flat store |
| StateMachine.Ext.StorageRoot | substrate/state-machine/src/ext.rs:126-139 | memoised or not, the root is that of the flat store and the transaction has the overlay as its net changes |
| StateMachine.Ext.TakeTransaction | substrate/state-machine/src/ext.rs:73-76 | the transaction is there and has the overlay as its net changes |
| StateMachine.Ext.Perform | substrate/state-machine/src/lib.rs:150-160 | any program against the externalities does what it does on one flat store |
| Histories.EveryRunIsTold | substrate/state-machine/src/ext.rs:105-139 | every run of a program has a history of what it did and was told: each read gives the last write to its key, unless cleared since, each root is that of the store at that moment, and the store ends with the last writes |
| StateMachine.Execute | substrate/state-machine/src/lib.rs:171-204 | a successful call commits the flat result and its transaction applied to the backend gives it; a failed call keeps the committed layer |
| StateMachine.CallOutcome | substrate/state-machine/src/lib.rs:171-204 | without code under its key a call fails, and a call that fails leaves the store as it was |
| StateMachine.ExecuteAll | substrate/state-machine/src/lib.rs:171-204 | any sequence of calls from an empty overlay gives the results and the store of one flat store to which only the successful calls were applied, and the transaction of each successful call brings the backend to that store |
| Downloads.FindRange | substrate/network/src/blocks.rs:99-125 | the search finds the first wanted gap, as long as allowed, or a range that may be downloaded again |
| Downloads.BlockCollection.NeededBlocks | substrate/network/src/blocks.rs:99-138 | nothing is returned if and only if every wanted block up to the peer's best is covered; otherwise the first gap, disjoint from all ranges and marked for this peer; it panics exactly if no blocks are asked for and some are needed; ranges and peers stay matched if and only if the peer had no request |
| Downloads.BlockCollection.Insert | substrate/network/src/blocks.rs:77-96 | received blocks are stored, block i of the answer at number start + i with its sender, unless there are none, the range is being downloaded or as many are held; nothing else changes |
| Downloads.BlockCollection.Drain | substrate/network/src/blocks.rs:141-163 | if ranges are disjoint, the drained blocks are the held ones with consecutive numbers from the first range on, as many as there are, and only they are removed |
| Downloads.BlockCollection.ClearPeerDownload | substrate/network/src/blocks.rs:165-188 | the peer's request is given up, and its range freed if it is being downloaded by nobody else |
| Downloads.BlockCollection.Receive | substrate/network/src/sync.rs:175-179 | block i of an answer is then held at number start + i, and at no other, with its sender; the ranges stay non-empty, disjoint and matched to peers if and only if the answer does not reach into the next range, as no answer within the request does |
| Downloads.BlockCollection.OnBlockData | substrate/network/src/sync.rs:175-180 | such an answer is stored and then what is ready is drained, in order; a block of the answer that is handed out is handed out at its number |
| Downloads.DrainHandsOut | substrate/network/src/blocks.rs:141-163 | whatever blocks are held from a number on, those that a drain hands out stand at their numbers with their sender |
| Downloads.ReleaseTouchesOne | substrate/network/src/blocks.rs:165-188 | giving up a request touches only the range of that request, and that only while it is being downloaded |
| Downloads.BlockCollection.Clear | substrate/network/src/blocks.rs:71-74 | nothing is held and nobody has a request |
| OnDemand.EveryRunConserves | substrate/network/src/on_demand.rs:135-163 | on every run ids and peers are unique, idle and active peers disjoint, active requests in order of time, and each scheduled request is exactly once waiting, sent or delivered |
| OnDemand.EveryRunDeliversAnswers | substrate/network/src/on_demand.rs:135-163 | on every run what is delivered is exactly the data of the right answers, in the order of the answers |
| OnDemand.MaintainFindsExpired | substrate/network/src/on_demand.rs:244-257 | exactly the requests sent 15 seconds ago or earlier are given up, although the scan stops at the first live one |
| OnDemand.MaintainQueues | substrate/network/src/on_demand.rs:244-257 | the requests given up wait in front of all others, the latest first |
| OnDemand.SettledAfterIff | substrate/network/src/on_demand.rs:283-303 | after an event nobody waits while a peer is idle, except after an unmatched response of a busy peer |
| OnDemand.EverySmoothRunSettles | substrate/network/src/on_demand.rs:283-303 | on every run with a live service and no such response, nobody ever waits while a peer is idle |
| OnDemand.WrongIdLeavesRequestWaiting | substrate/network/src/on_demand.rs:135-144 | a run of four events in which a wrong id leaves the request waiting while the other peer is idle |
| OnDemand.WhoStays | substrate/network/src/on_demand.rs:135-206 | a peer is known after an event if and only if it just connected, or was known and neither left nor was disconnected for a timeout, a wrong id or a bad answer |
| OnDemand.SendingKeepsRequestsIff | substrate/network/src/on_demand.rs:289-302 | sending loses no request if and only if the peer has none |
| OnDemand.SecondConnectLosesRequest | substrate/network/src/on_demand.rs:229-231 | a busy peer that connects again costs its request |
| OnDemand.OnDemandCore.Handle | substrate/network/src/on_demand.rs:127-206 | each call of the service gives the specified state and delivery, and names the peers to disconnect from; what is specified is said, event by event, by the five rows that follow |
| OnDemand.GoodAnswerIsDelivered | substrate/network/src/on_demand.rs:135-163 | the right answer to what a peer was asked delivers the data of that request, and the request is gone |
| OnDemand.OtherAnswersDeliverNothing | substrate/network/src/on_demand.rs:135-163 | a bad answer, or one that was not asked for, delivers nothing and every request is kept |
| OnDemand.EventMoves | substrate/network/src/on_demand.rs:127-280 | where each event puts requests and peers before anything is sent: a new request last, a new or rightly answering peer last, the request of a peer that leaves or answers something else first; a bad answer costs the peer and is asked again, last, under the next id |
| OnDemand.DispatchPairs | substrate/network/src/on_demand.rs:283-303 | the waiting requests are paired with the idle peers, both in order, stamped with the time and appended to the active ones |
| OnDemand.ServiceDispatches | substrate/network/src/on_demand.rs:127-206 | with a live service an event does what it does without one, and the waiting requests are then sent, except after an unmatched response or when a peer of no use connects |
| OnDemand.OnDemandCore.DoRemovePeer | substrate/network/src/on_demand.rs:233-242 | a peer's request goes to the front of the queue, or the peer leaves the idle list |
| OnDemand.OnDemandCore.MaintainPeers | substrate/network/src/on_demand.rs:244-257 | the loop gives up expired requests and names their peers |
| OnDemand.OnDemandCore.DoDispatch | substrate/network/src/on_demand.rs:283-303 | the loop pairs waiting requests with idle peers |
| OnDemand.OnDemandCore.SetServiceLink | substrate/network/src/on_demand.rs:121-124 | only the link to the service changes |
| Duties.DealIsShared | polkadot/runtime/src/parachains.rs:70-82 | the dealt roles give each parachain (v-1)/p validators and the relay chain the rest, at least one |
| Duties.DealIsInOrder | polkadot/runtime/src/parachains.rs:76-82 | the roles are dealt in order: (v-1)/p places to each parachain in turn, the rest to the relay chain |
| Duties.ShuffleReorders | polkadot/runtime/src/parachains.rs:87-108 | the shuffle permutes the roles, for every seed and hash |
| Duties.ShuffleIsDrawn | polkadot/runtime/src/parachains.rs:87-108 | turn i exchanges the last of the remaining places with the one that four bytes of its seed, as a number modulo the remaining places, draw; a new seed every four turns |
| Duties.PlaceIsDrawn | polkadot/runtime/src/parachains.rs:87-108 | what each place holds in the end is what stood at its drawn place when its turn came |
| Duties.LastPlaceIsDrawn | polkadot/runtime/src/parachains.rs:95-107 | the last place holds the role drawn by the first bytes of the seed |
| Duties.CalculateDutyRoster | polkadot/runtime/src/parachains.rs:70-115 | both rosters exchange the dealt roles as the bytes of the seed draw, bytes 0-3 of each eight for validators and 4-7 for guarantors, the seed being hashed again after every fourth turn; for every seed each chain keeps its share |
| Duties.MakeGroupInfo | polkadot/consensus/src/lib.rs:163-218 | the groups are exactly the authorities on duty, with thresholds of half, rounded up; the error cases |
| Duties.GroupsHaveTheirShare | polkadot/consensus/src/lib.rs:163-218 | with distinct authorities there is a group of exactly the share for each parachain and no other |
| Heads.Parachains.Genesis | polkadot/runtime/src/parachains.rs:213-226 | the genesis ids are ascending and are the configured ones, each has a code configured for it, and there are no heads |
| Heads.Parachains.Register | polkadot/runtime/src/parachains.rs:119-129 | registering keeps the ids ascending, adds one, and panics exactly on an id in use |
| Heads.Parachains.Deregister | polkadot/runtime/src/parachains.rs:132-142 | deregistering keeps the ids ascending and removes one |
| Heads.Parachains.SetHeads | polkadot/runtime/src/parachains.rs:144-173 | heads are set exactly when the call is unsigned, at its position, the first in the block, and the heads are ascending and active; then they are what was submitted |
| Heads.Parachains.Execute | polkadot/runtime/src/parachains.rs:176-180 | the end of a block panics exactly if no heads were set in it, and clears the flag |
| Heads.RuntimeCheck | polkadot/runtime/src/parachains.rs:153-163 | the runtime's scan accepts exactly the strictly ascending lists of active ids |
| Heads.EvaluationCheck | polkadot/consensus/src/evaluation.rs:109-130 | so does the check on a proposal; it complains of too many candidates exactly if they outnumber the active parachains, and otherwise of the first head that is out of order or unknown |
| Heads.ChecksAgree | polkadot/consensus/src/evaluation.rs:109-130 | the two checks accept the same lists |
| Rumours.Consensus.NewPeer | substrate/network/src/consensus.rs:61-75 | a validator that connects, for the first time or again, is sent every retained message and knows exactly these |
| Rumours.Propagate | substrate/network/src/consensus.rs:77-83 | a message goes once to each peer that does not know it |
| Rumours.Consensus.OnMessage | substrate/network/src/consensus.rs:91-132 | a new message is retained and goes once to every connected peer but its sender; each retained message has reached each connected peer exactly once |
| Rumours.Consensus.Send | substrate/network/src/consensus.rs:152-159 | an own message goes once to every connected peer, and not again while it is retained |
| Rumours.Consensus.PeerDisconnected | substrate/network/src/consensus.rs:161-163 | a peer that leaves takes its record along |
| Rumours.Consensus.CollectGarbage | substrate/network/src/consensus.rs:165-189 | exactly the messages of the last ten minutes that no decided block made obsolete are kept, in their order; the others leave the hashes and every peer's knowledge |
| Ingress.CollateIngress | polkadot/collator/src/lib.rs:87-121 | whatever order the fetches complete in, every waiting queue is listed once, the most distant first and parachains in order |
| Ingress.IngressIsUnique | polkadot/collator/src/lib.rs:87-121 | there is only one such list |
| Ingress.OldestFirst | polkadot/collator/src/lib.rs:109-112 | one parachain's queues keep their order |

## Left out

- Statement table behind a lock, agreement rounds and justifications: `SharedTable` and the agreement protocol are not part of this model.
- Chain synchronisation state and the protocol handler around the download ranges: only the collection and the way one response uses it are modelled.
- Transaction pool, trie backend, runtime modules other than parachains, sandboxed and native execution, keystore, RPC, command line and service wiring.
- Memory limits of the pruning mode: the source does not implement them.
- Run theorems for the archive modes of the state database: the methods are specified for them, but they have no pruning and would only add easy members.
- Machine width: block numbers, request ids, counts and timestamps are unbounded; journal keys and encoded integers do have their width, and the runs over bytes (`ByteStore`) are those whose numbers fit.
- Errors of the backing store and of the in-memory backend: reads of the store do not fail.
- Executors: a program is any function from the answers so far to the next action, cut off after any chosen number of steps; a program that never halts is not modelled. Execution proofs and `chain_id` are left out.
- Clocks: one reading of the clock per operation; the two readings inside one dispatch loop count as one.
- The message sink of agreement messages and the chain lookup that finds a message ancient: the lookup is a parameter.
- Heads.Parachains.Genesis: says of an id configured twice that one of its codes is kept, not which, because the sort is unstable.
- StatementTable.Table.ProposedCandidates: says that the chosen candidate is minimal, not which of several incomparable ones it is, because the order on receipts ignores most of their fields.
- StateTheorems.RunKeepsInv: a restart is part of a run only when the journal is dense, because recovery loses blocks otherwise (`Restarts.GapForgetsBlock`); `Restarts.EveryRestartRecoversIff` says when the journal stays dense.
- Downloads.BlockCollection.OnBlockData: is about a peer whose request begins where the synchronisation state says, and says what is drained only if the answer does not reach into the next range, because consecutive numbers are lost otherwise.
- Wanted blocks: a range that begins below the common ancestor makes the search look for gaps from that range on, so a gap below it can be returned; the contract says so instead of claiming that nothing below is requested.
