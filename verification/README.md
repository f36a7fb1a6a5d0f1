# The audit ledger pipeline, modelled

This project models the audit ledger of `internal/audit` in Dafny and proves what its comments and tests promise.
An event goes from an outbox through a relay to a Kafka partition. A consumer writes it to a hash chain per
organisation and shard. The chain heads are notarized, the rows are exported and verified, and a node's history is
read back and explained.

`dafny verify dfyconfig.toml` checks the whole project.

| files | what they model |
|---|---|
| `Ledger`, `ChainProtocol` | appends to hash chains, alone and in interleaved transactions |
| `Consumer`, `ConsumerProtocol`, `ConsumerLoss`, `ConsumerLoops`, `DeadLetterKey` | the consumer group: batches, offsets, rewinds, dead letters, replays |
| `Transport`, `TransportRuns`, `AssemblyReader`, `ManifestParts` | events that travel in parts, and the read manifest they carry |
| `Canonical`, `HashChain`, `RowHash`, `Merkle`, `ChainVerify` | canonical JSON, row hashes, chain heads, verification of an export |
| `ExportRuns`, `ExportFiles` | exporters that share a directory, with kills and power loss |
| `BufferRoom`, `BufferRuns` | the buffered recorder: callers, flusher, shutdown |
| `Relay`, `RelayRuns`, `ClaimRuns` | moving outbox entries to the topic |
| `LastChange`, `LastChangeReport`, `History`, `HistoryPage`, `FieldPath` | the last change of each field and relationship of a node |
| `EventContract`, `External` | the format 2 event contract and the result of an external operation |
| `Common`, `Bytes`, `Sorting`, `Lex` | shared definitions |

Concurrent parts are state machines whose theorems speak about every run. Code that changes things step by step is
written as classes and methods that are proved against functions or stated properties. SHA-256 is a parameter: a
theorem that needs it to be injective assumes it of the finitely many inputs it names, never of all inputs.
Clocks, identifiers, database answers and broker answers are parameters or steps that can go either way.

## Where a plain reading does not hold

- `ConsumerLoss.SecondPlainRecordIsSkipped`, `ConsumerLoss.SecondManifestIsSkipped`: the record a consumer projects is
  not compared with what its event already has. A second plain record of an event counts as projected whatever it says,
  a second manifest of a transport is dropped, and so is any message under the digest of a completed transport. The
  offset passes such a record although its bytes are nowhere. `ConsumerLoss.ReplayDeletesAnUnlandedDeadLetter`: a replay
  that is answered like this deletes its dead-letter row. `ConsumerLoss.NothingIsSkippedExactlyWithOneSource` and
  `ConsumerLoss.DeadLettersWaitExactlyWithOneSource` say when no run skips a record and no dead letter goes too early:
  if and only if every event that producers send has one source. Its plain records say the same,
  the manifests of one transport are the same bytes, and an event that a transport can complete has no plain record and
  no other message under that transport's digest.
- `ExportRuns.UnlockedExporterPublishesNothing`, `ExportRuns.UnseenHappens`: an exporter whose shared-lock attempt fails
  goes on without the lock. Where others can lock, its rows are reclaimed while it writes them, and it publishes a
  manifest that names nothing. `ExportRuns.BundlesAreWholeExactlyWhenLocksHold` gives the exact condition: every run
  leaves the bundle whole if and only if no exporter whose attempt can fail has yet to begin, or nobody can lock there.
- `ExportRuns.LeavingEarlyLosesRows`, `ExportRuns.OverlapHappens`: an exporter that dies, or whose directory sync
  fails, between its rename and that sync lets an earlier exporter free rows that the manifest on disk still names.
  `ExportRuns.DisksAreWholeExactlyWhenReclaimsAreCareful` gives the exact condition: no reclaim starts while a manifest
  that may be on disk names something it may remove.
- `HistoryPage.PageExactly`: the page query returns a row twice when the row stores the node as its entity and also
  names it as an end of a relationship. It is exact for every page size if and only if no row does both, and so is the
  reader (`HistoryPage.ReaderExactly`). A read still passes over no row then (`HistoryPage.VisitsCover`).
- `History.TieBreakIsNeeded`: a reader that went on from the time and sequence alone would pass over the rows that tie.
- `RowHash.HashedFormsCollapse`: a row can be changed and still pass. Sequence numbers past 2^53 share a float64,
  unknown actor codes share the empty type, and a nil personal-data reference equals an absent one.
  `RowHash.SameHashSameRow` and `RowHash.CoveredFieldsDecide` say exactly which fields a row hash fixes.
- `DeadLetterKey.RenderedKeyParses`: a key whose topic contains a slash does not read back.
- `ManifestParts.LeadingEmptyPart`: a first target of exactly 65534 bytes puts an empty array in front.
- `External.LaterResultReplacesEarlier`: a step that was saved as completed and later as failed is not listed as
  committed, whatever came before.

## Model

| member | source | states |
|---|---|---|
| `Ledger.AppendKeepsIdentities` | internal/audit/chain_append.go:47-59 | an append of an unclaimed event keeps one row per identity, present exactly when claimed |
| `Ledger.AppendKeepsChains` | internal/audit/chain_append.go:70-155 | sequences of every chain stay exactly 1 up to the head's, each used once |
| `Ledger.AppendKeepsLinks` | internal/audit/chain_append.go:70-155 | each row's previous hash stays its predecessor's hash and the head stays the last row |
| `Ledger.SerialWellFormed` | internal/audit/chain_append.go:70-155 | any number of serial appends of new identities keeps the whole ledger well formed |
| `Ledger.Transaction.AppendChainRow` | internal/audit/chain_append.go:70-155 | alone, an append is the serial append: one more than the old head's sequence, the old head's hash as previous hash, the row under its event's id and time, and the new head with the row's own sequence and hash; refused exactly for an invalid or already projected event, and keeps the ledger well formed |
| `ChainProtocol.WritesAreSerial` | internal/audit/chain_append.go:70-155 | a transaction's write set over its base is the serial execution of its own appends |
| `ChainProtocol.SwapSeesCurrentHead` | internal/audit/chain_head.go:53-85 | a head compare-and-swap that wins was checked against the current head |
| `ChainProtocol.ObservedStays` | internal/audit/chain_head.go:30-85 | what a transaction read of a chain head stays valid over another transaction's commit to other chains |
| `ChainProtocol.WriteHeadKeepsTx` | internal/audit/chain_head.go:53-85 | a head update that wins keeps the transaction serial over the committed state |
| `ChainProtocol.CommitKeepsHistory` | internal/audit/chain_append.go:70-155 | a commit extends the serial history by the transaction's events |
| `ChainProtocol.StepKeepsInv` | internal/audit/chain_append.go:47-155 | every step of every writer, with savepoints, aborts and lost swaps, keeps the invariant |
| `ChainProtocol.EveryRunIsSerial` | internal/audit/chain_append.go:47-155 | in every interleaving the committed ledger is well formed and equals a serial execution of the committed events |
| `ChainProtocol.HistoriesAreExactly` | internal/audit/chain_append.go:70-155 | the committed histories of all runs are exactly the lists of valid events with distinct identities: the protocol adds none and, with savepoints and failed statements in between, reaches every one |
| `ChainProtocol.HistoryGrows` | internal/audit/chain_append.go:70-155 | a committed event keeps its place in the serial order whatever follows |
| `ChainProtocol.ClaimDecidesInsert` | internal/audit/chain_append.go:47-155 | a row insert never meets the ledger's own unique index, because the claim decided first |
| `Consumer.KnownHasLanded` | internal/audit/consumer_parts.go:48-142 | with one source for each event, a record that adds nothing because it is known has its own bytes in the ledger or in an assembly |
| `Consumer.ProjectStep` | internal/audit/consumer.go:549-576 | with one source for each event, a projected record has landed byte for byte and nothing that had landed is lost |
| `Consumer.ResolveStep` | internal/audit/dlq.go:125-154 | a dead-letter row goes only when the bytes it holds have landed |
| `Consumer.DeadLetterStep` | internal/audit/dlq.go:76-120 | a dead-lettered payload is held, at its own key or at the origin a replay names, and nothing is lost |
| `Consumer.RecordStep` | internal/audit/consumer.go:501-533 | projected or refused, a record is accounted for in what the batch has written |
| `Consumer.CommitUnder` | internal/audit/consumer.go:441-483 | batches that write no row in common can commit one under the other and keep what each has seen |
| `Consumer.CompletesAlone` | internal/audit/consumer_assembly_append.go:17-47 | with one source for each event, the ledger does not have an event whose assembly completes |
| `Consumer.CompleteUnder` | internal/audit/consumer_assembly.go:85-124 | an assembly that completes under an open batch becomes a ledger row with everything it held |
| `Consumer.ProgressKeepsAccounted` | internal/audit/consumer.go:501-533 | when nothing landed is lost and dead letters go only once landed, an accounted payload stays accounted |
| `ConsumerProtocol.CommitKeepsInv` | internal/audit/consumer.go:441-483 | a batch commit, reported or not, keeps every record below every offset accounted for |
| `ConsumerProtocol.CompleteKeepsInv` | internal/audit/consumer_assembly.go:85-124 | so does the completion of an assembly beside open batches |
| `ConsumerProtocol.StepKeepsInv` | internal/audit/consumer_fetches.go:31-68 | so do polls, failed batches, rewinds, crashes, rebalances and lost group commits, and no step un-lands a payload or drops a held one |
| `ConsumerProtocol.NoRunSkipsARecord` | internal/audit/consumer.go:420-533 | with one source for each event, in every run each record below a saved offset, a group offset or a fetch position has landed byte for byte or is held in a dead-letter row |
| `ConsumerProtocol.ReportedPollEnds` | internal/audit/consumer_fetches.go:31-68 | after a commit that was reported the tables and the group are past the batch, and the consumer goes on behind it |
| `ConsumerProtocol.UnreportedPollEnds` | internal/audit/consumer_fetches.go:31-68 | after a commit that took effect but was reported as failed the group cannot follow, and the consumer goes back to the first record of the batch |
| `ConsumerProtocol.FailedPollEnds` | internal/audit/consumer_fetches.go:31-68 | a failed batch leaves nothing behind and is read again from its first record |
| `ConsumerProtocol.DeadLettersWaitForTheirPayload` | internal/audit/dlq_key.go:98-121 | over any stretch of such a run a dead-letter row goes only when its payload has landed |
| `ConsumerLoss.SecondPlainRecordIsSkipped` | internal/audit/consumer.go:501-519 | for any two plain records of one event with different content, a run whose offset passes the second, which is neither in the ledger nor in a dead-letter row |
| `ConsumerLoss.SecondManifestIsSkipped` | internal/audit/consumer_parts.go:129-142 | the same for two manifests of one transport with different bytes |
| `ConsumerLoss.PlainRivalLosesTheManifest` | internal/audit/consumer_assembly_append.go:17-69 | a plain record of an event that a transport can complete leads to a run that skips the manifest |
| `ConsumerLoss.ForeignMessageIsSkipped` | internal/audit/consumer_parts.go:48-69 | a message under the digest of a transport that can complete, and not of it, leads to a run that skips the message |
| `ConsumerLoss.ReplayDeletesAnUnlandedDeadLetter` | internal/audit/dlq.go:125-154 | a run in which a held payload loses its dead-letter row although it has not landed |
| `ConsumerLoss.NothingIsSkippedExactlyWithOneSource` | internal/audit/consumer.go:485-500 | no run over what producers send skips a record if and only if every event has one source |
| `ConsumerLoss.KnownRecordLosesItsLetter` | internal/audit/dlq.go:76-154 | from every state in which a record is known but has not landed, refusing it and replaying it deletes its dead-letter row |
| `ConsumerLoss.PlainRivalUnlandsTheManifest` | internal/audit/consumer_assembly_append.go:17-69 | a plain record of an event that a transport can complete leads to a run that un-lands the stored manifest |
| `ConsumerLoss.DeadLettersWaitExactlyWithOneSource` | internal/audit/dlq_key.go:98-121 | in every run landed payloads stay and a dead-letter row goes only once its payload has landed, if and only if every event has one source |
| `ConsumerLoops.BatchTransaction.ProjectRecord` | internal/audit/consumer.go:501-533 | the record's rows and the end of the dead letter it replays, or a dead letter, or the batch fails and nothing is written for it |
| `ConsumerLoops.BatchTransaction.ProjectBatchOnce` | internal/audit/consumer.go:441-483 | the whole batch with its offset, or nothing |
| `ConsumerLoops.CommittedBatchAccountsForItsRecords` | internal/audit/consumer.go:441-483 | with one source for each event a committed batch has every record accounted for and loses nothing |
| `ConsumerLoops.ProjectFetches` | internal/audit/consumer_fetches.go:31-68 | projected partitions are committed past their batch, failed ones wound back to its first record |
| `ConsumerLoops.BackOffAfterFailures` | internal/audit/consumer_fetches.go:73-94 | for every poll interval the pause is the interval doubled per failure, at most eight times and capped, and a clean poll resets it |
| `DeadLetterKey.RenderedKeyParses` | internal/audit/dlq_key.go:51-72 | a rendered key reads back if and only if its topic has no slash and its numbers fit 32 and 64 bits, and is refused otherwise |
| `DeadLetterKey.FormattedIntParses` | internal/audit/dlq_key.go:29-31 | a formatted integer parses to itself exactly when it is in range |
| `DeadLetterKey.SignedDigitsParse` | internal/audit/dlq_key.go:51-72 | either sign may stand in front of the digits, and a value out of range is refused |
| `Transport.EncodeEvent` | internal/audit/event_parts.go:52-90 | consecutive non-empty parts within 64 KiB, each with its index, digest and the number of parts |
| `Transport.PartsCarryEnvelope` | internal/audit/event_parts.go:68-80 | the parts from any index on concatenate to the rest of the envelope |
| `Transport.CountDecides` | internal/audit/consumer_parts.go:16-43 | the stored row count equals the part count exactly when every index is stored |
| `Transport.StoreKeepsInv` | internal/audit/consumer_parts.go:16-142 | storing any message keeps ready equivalent to complete and completed events without assemblies |
| `TransportRuns.FinishKeepsInv` | internal/audit/consumer_assembly_append.go:52-69 | finishing an assembly removes it and its parts and keeps the invariant |
| `TransportRuns.CompletionDecides` | internal/audit/consumer_assembly.go:58-124 | a ready assembly that streams its digest and is accepted is finished; any other is set aside with its parts and not tried again |
| `TransportRuns.ReadyMeansComplete` | internal/audit/consumer_parts.go:16-142 | in every delivery an assembly is ready exactly when its manifest and all parts are stored |
| `TransportRuns.CompletedNeverReopens` | internal/audit/consumer_parts.go:48-69 | a completed event keeps its digest and never has an assembly again |
| `TransportRuns.OtherEventsUntouched` | internal/audit/consumer_parts.go:16-142 | a step for one event changes nothing about another |
| `TransportRuns.AssembledIsEnvelope` | internal/audit/consumer_assembly_reader.go:65-100 | the stored parts of an encoded event, read in order, are its envelope |
| `TransportRuns.ReadyCompletes` | internal/audit/consumer_assembly.go:85-124 | completing a ready assembly of an encoded event finishes it with its envelope's digest |
| `TransportRuns.ReadyWhenAllDelivered` | internal/audit/event_parts_wire.go:69-95 | among any other messages, in any order and repeated, the event is ready exactly when its manifest and every part were delivered |
| `AssemblyReader.AssemblyPartReader.constructor` | internal/audit/consumer_assembly_reader.go:42-60 | a reader at the first part with everything still to come |
| `AssemblyReader.AssemblyPartReader.Load` | internal/audit/consumer_assembly_reader.go:85-100 | one part that is present, within 65536 bytes and has its digest is added to the digest, or the reader stays as it was |
| `AssemblyReader.AssemblyPartReader.Read` | internal/audit/consumer_assembly_reader.go:65-81 | for any buffer size the bytes come in order, and only an exhausted stream ends, the way it ends |
| `AssemblyReader.AssemblyPartReader.Complete` | internal/audit/consumer_assembly_reader.go:119-121 | true exactly when every part was read and the bytes match the transport digest |
| `AssemblyReader.ReadAll` | internal/audit/consumer_assembly_reader.go:65-81 | any sequence of buffer sizes returns a front of the envelope, and all of it once the end is seen |
| `AssemblyReader.StreamIsEnvelope` | internal/audit/consumer_assembly_reader.go:65-121 | the stored parts of an encoded event stream as its envelope, to the end, with the manifest's digest |
| `AssemblyReader.ReadEnvelope` | internal/audit/consumer_assembly_reader.go:65-121 | any positive buffer sizes give the exact envelope, and the reader then reports itself complete |
| `AssemblyReader.AssemblyStore.StoreTransportMessage` | internal/audit/consumer_parts.go:16-43 | the statements together are the store function, a rejection leaves the tables as they were, and a completed event takes only messages of its own digest, without effect |
| `ManifestParts.RenderedSize` | internal/audit/read_manifest.go:66-84 | the builder's running estimate is the array's size, plus one comma unless it is empty |
| `ManifestParts.ArrangeIsPacking` | internal/audit/read_manifest.go:31-46 | the arrays hold the targets in order, within the limits, each begun only when its first target did not fit |
| `ManifestParts.PackingIsArrange` | internal/audit/read_manifest.go:66-84 | there is only one such packing |
| `ManifestParts.PartsWithinLimits` | internal/audit/read_manifest.go:66-105 | at most 256 entries and 64 KiB per array, and no empty array after the first |
| `ManifestParts.BegunOnlyWhenFull` | internal/audit/read_manifest.go:66-84 | an array ends only with 256 entries or when the next target with its comma does not surely fit in 64 KiB |
| `ManifestParts.RenderIsArray` | internal/audit/read_manifest.go:96-105 | an array is a bracket, the elements with commas between them, and a bracket |
| `ManifestParts.LeadingEmptyPart` | internal/audit/read_manifest.go:66-84 | the first array is empty exactly when the first target takes 65534 bytes |
| `ManifestParts.ManifestDeterminesGroups` | internal/audit/read_manifest.go:14-26 | the concatenated array bytes determine the arrays |
| `ManifestParts.DigestPinsTargets` | internal/audit/read_manifest.go:14-26 | two target lists have the same manifest digest if and only if they are equal |
| `ManifestParts.ManifestBuilder.Add` | internal/audit/read_manifest.go:66-84 | a target is refused exactly when it cannot fit in one array, and otherwise placed |
| `ManifestParts.ManifestBuilder.Flush` | internal/audit/read_manifest.go:96-105 | the unfinished array is emitted and a new one begun |
| `ManifestParts.ManifestBuilder.Finish` | internal/audit/read_manifest.go:87-92 | what was emitted is the packing of what was added |
| `ManifestParts.ReadManifestParts` | internal/audit/read_manifest.go:31-46 | the packing of the list, or a refusal exactly when some target is too large |
| `ManifestParts.CheckReadManifest` | internal/audit/event_parts.go:103-122 | accepts exactly when the evidence matches the targets |
| `ManifestParts.StoreManifestParts` | internal/audit/consumer_assembly_stream.go:128-137 | digest, count and permanent parts follow what the builder emitted |
| `ManifestParts.DecodeTargets` | internal/audit/consumer_assembly_stream.go:102-124 | targets without evidence or too large are refused; otherwise the arrays are those of the whole list |
| `ManifestParts.StreamTargets` | internal/audit/consumer_assembly_stream.go:158-167 | the streaming check accepts exactly when the check on the whole list does, and stores the arrays it checked |
| `Canonical.QuotedReads` | internal/audit/canonical.go:36-83 | reading a quoted string gives the string back and stops at its closing quote |
| `Canonical.WritePrefixFree` | internal/audit/canonical.go:36-83 | a document's canonical bytes are not a front of another's |
| `Canonical.CanonicalInjective` | internal/audit/canonical.go:20-83 | two documents have the same canonical bytes if and only if they are the same value |
| `Canonical.CanonicalPrintable` | internal/audit/canonical.go:36-83 | canonical bytes never contain a raw control byte |
| `Canonical.MemberOrderIsIrrelevant` | internal/audit/canonical.go:20-34 | two documents have the same canonical bytes if and only if they are the same up to member order, at every depth |
| `Canonical.SameDocumentDecodes` | internal/audit/canonical.go:20-34 | documents that are the same up to member order, at every depth, decode to one value |
| `Canonical.ReorderedObjectIsSame` | internal/audit/canonical.go:20-34 | an object whose members are reordered, and whose values are reordered inside, is the same document |
| `Canonical.WriteCanonical` | internal/audit/canonical.go:36-83 | appends one text of the value: for an object a brace, a quoted name, a colon and a text of the value for each member, joined by commas, the names in ascending order of their first differing byte, and a brace; every string escaped character by character |
| `Canonical.WriteArray` | internal/audit/canonical.go:46-56 | appends an array item by item |
| `Canonical.WriteObject` | internal/audit/canonical.go:57-78 | appends an object as the list of exactly its names in ascending byte order, each quoted and with its value |
| `Canonical.OneSpelling` | internal/audit/canonical.go:15-19 | a value has exactly one canonical text, said on bytes: the one that is written |
| `Canonical.KeysAscend` | internal/audit/canonical.go:58-62 | of two names in the list the earlier one has the smaller byte where they first differ, or is a proper prefix |
| `HashChain.PreimageInjective` | internal/audit/canonical.go:119-133 | the hashed bytes determine the previous hash and the payload |
| `HashChain.FirstRowStandsApart` | internal/audit/canonical.go:119-133 | a first row's preimage never equals a later row's |
| `HashChain.HeadPinsChain` | internal/audit/canonical.go:119-133 | two well-formed chains with the same head hash are equal row by row |
| `RowHash.PayloadDetermines` | internal/audit/consumer.go:710-758 | equal payloads have the same version and the same value in every covered field |
| `RowHash.HashRow` | internal/audit/canonical.go:119-133 | the hash of the preimage |
| `RowHash.CheckRowHash` | internal/audit/export_rowhash.go:26-59 | accepts exactly when the version is 1 to 3, a legacy time is whole microseconds, the row keeps the contract, and it carries the hash of its previous hash, an eight byte length and a canonical text of a document with the named members from its columns: any time within the microsecond in versions 1 and 2, the whole microsecond in version 3, there also with the zero token id written out |
| `RowHash.CheckLegacyRowHash` | internal/audit/export_rowhash.go:77-95 | accepts exactly when some time within the stored microsecond makes such a document |
| `RowHash.ReproducesMeansWritten` | internal/audit/consumer.go:710-758 | the verifier's search finds a candidate if and only if the row carries the hash of a document of its own columns, member by member under the names that the writer uses |
| `RowHash.SameHashSameRow` | internal/audit/export_rowhash_token.go:28-51 | two rows that pass with the same previous and row hash have the same version, the same time to the microsecond and the same covered fields, across both retries |
| `RowHash.CoveredFieldsDecide` | internal/audit/export_rowhash.go:121-142 | rows that agree on the covered fields pass or fail together |
| `RowHash.ExactFields` | internal/audit/export_rowhash.go:121-184 | which covered fields are equal outright: known actor codes, small numbers, shards, non-nil references |
| `RowHash.ActorTypesDiffer` | internal/audit/export_rowhash.go:167-184 | known actor codes have different types |
| `RowHash.SmallNumbersStayExact` | internal/audit/consumer.go:710-758 | integers up to 2^53 survive the float64 |
| `RowHash.HashedFormsCollapse` | internal/audit/export_rowhash.go:121-184 | the collapses outside those ranges are real: whole rows that differ in a covered field and both pass |
| `Merkle.LeafInputInjective` | internal/audit/notarizer_merkle.go:19-42 | the fixed-width leaf determines the chain head |
| `Merkle.DigestInjective` | internal/audit/notarizer_merkle.go:44-66 | a root determines its tree, because leaves and nodes carry different tags |
| `Merkle.LongerListRepeats` | internal/audit/notarizer_merkle.go:44-66 | a longer list with the same tree must repeat a leaf |
| `Merkle.BuildInjective` | internal/audit/notarizer_merkle.go:44-66 | a tree over distinct leaves determines their list although odd levels double a node |
| `Merkle.RepeatedLastHeadKeepsTree` | internal/audit/notarizer_merkle.go:44-66 | without distinct heads it does not: repeating the last one changes nothing |
| `Merkle.RootDeterminesHeads` | internal/audit/notarizer_merkle.go:19-66 | two lists with one head per shard have the same root if and only if they hold the same heads, in any order |
| `Merkle.HashPairs` | internal/audit/notarizer_merkle.go:44-66 | one level of the tree, with the last node of an odd level paired with itself |
| `Merkle.MerkleRoot` | internal/audit/notarizer_merkle.go:44-66 | the digest of the tree over the leaves, and the hash of nothing for none |
| `Merkle.MerkleAndManifest` | internal/audit/notarizer_merkle.go:19-66 | the same heads in ascending shard order, and the root over them in bytes: each leaf hashes a zero byte, the shard in two bytes, the sequence in eight and the head's hash; each level above hashes a one byte and two neighbours, a last one without a neighbour twice; the hash of nothing for none |
| `ChainVerify.VerifyChainLinks` | internal/audit/export_verify_chain.go:24-63 | the walk over per-shard maps reports what neighbours in the sorted list show |
| `ChainVerify.Walk` | internal/audit/export_verify_chain.go:31-62 | the same, for a sorted list |
| `ChainVerify.NoBreaksExactly` | internal/audit/export_verify_chain.go:24-63 | in any file order there are no breaks if and only if no place repeats and every two present neighbours are linked |
| `ChainVerify.GapsAreSkippedNeighbours` | internal/audit/export_verify_chain.go:44-49 | the gap count is the number of rows whose predecessor is missing while a smaller one is present |
| `ChainVerify.FilteredLedgerVerifies` | internal/audit/export_verify_chain.go:12-63 | every filtered part of a well-formed ledger verifies without a break, in any order |
| `ExportRuns.ReclaimSpares` | internal/audit/export_reclaim.go:107-145 | while a reclaim runs nobody publishes, so what it spares stays published |
| `ExportRuns.StepKeepsInv` | internal/audit/export.go:71-163 | every step of every exporter that can be seen keeps the directory invariant |
| `ExportRuns.EveryBundleIsWhole` | internal/audit/export.go:71-163 | in every run, with kills anywhere, a published manifest stands beside its rows, all of them, if whoever finishes its stream has the lock or the directory has no locks |
| `ExportRuns.UnlockedExporterPublishesNothing` | internal/audit/export_reclaim.go:80-98 | from every state with an exporter writing unseen beside one about to reclaim, a run that publishes a manifest whose rows are gone |
| `ExportRuns.UnseenHappens` | internal/audit/export_reclaim.go:80-98 | such a state is reached from every settled directory that has locks |
| `ExportRuns.BundlesAreWholeExactlyWhenLocksHold` | internal/audit/export_reclaim.go:74-98 | every run leaves the bundle whole if and only if nobody can lock in the directory or every exporter whose lock attempt can fail is past it |
| `ExportRuns.NoNewDoubt` | internal/audit/export_reclaim.go:80-145 | while a reclaim runs nobody renames, so no manifest comes into doubt |
| `ExportRuns.EveryDiskIsWhole` | internal/audit/export.go:112-129 | if no reclaim starts in doubt, power can go at any moment and the manifest on disk has its rows on disk |
| `ExportRuns.DisksAreWholeExactlyWhenReclaimsAreCareful` | internal/audit/export_reclaim.go:107-145 | every disk a run can leave is whole if and only if no reclaim takes the lock while a manifest that may be on disk names what it may remove |
| `ExportRuns.SyncingBeforeLeavingIsCareful` | internal/audit/export.go:112-129 | exporters that keep their lock from the rename to its directory sync leave no reclaim in doubt |
| `ExportRuns.RestartIsSettled` | internal/audit/export_durable.go:14-51 | what a host comes back with is a settled directory that exports can begin in again |
| `ExportRuns.LeavingEarlyLosesRows` | internal/audit/export.go:118-120 | from every overlap of a renaming and a reclaiming exporter, losing the lock early leads to a manifest on disk without its rows |
| `ExportRuns.OverlapHappens` | internal/audit/export.go:71-129 | such an overlap is reached from an empty directory |
| `ExportFiles.OwnedExactly` | internal/audit/export_bundle.go:101-137 | a name is the exporter's exactly when it is `events.jsonl`, or one of the three written forms around an id of five dashed groups of lower-case hex digits |
| `ExportFiles.FixedNamesAreNotOwned` | internal/audit/export_bundle.go:101-115 | the manifest and the lock file are never candidates for removal |
| `ExportFiles.NamesKeepExportsApart` | internal/audit/export_bundle.go:41-52 | no two exports write the same name |
| `ExportFiles.PlainNamesResolve` | internal/audit/export_bundle.go:75-84 | exactly the plain names resolve, and to themselves |
| `ExportFiles.BundleDirectory.ReclaimAbandonedExportFiles` | internal/audit/export_reclaim.go:107-175 | exactly the owned files that the manifest does not name go, all of them without a manifest, and nothing when the manifest does not resolve |
| `ExportFiles.RowsFile.Write` | internal/audit/export_rows.go:47-49 | buffered bytes reach the file in order and none is lost |
| `ExportFiles.RowsFile.WriteExportRows` | internal/audit/export_rows.go:40-99 | either every row is on disk under its name with the count and digest returned, or the file is gone, or its removal failed too |
| `BufferRoom.BufferRoom.TryAdmit` | internal/audit/buffered_room.go:33-41 | sends exactly when queued and retained events are fewer than the capacity, and never past it |
| `BufferRoom.BufferRoom.AdmitOrWait` | internal/audit/buffered_room.go:60-72 | sends, refuses while events are retained, or registers a waiter on the current channel |
| `BufferRoom.BufferRoom.Dequeued` | internal/audit/buffered_room.go:81-85 | waiters are released when there are any and there is room |
| `BufferRoom.BufferRoom.SetRetained` | internal/audit/buffered_room.go:88-93 | the count is replaced and waiters are released when there is room |
| `BufferRoom.BufferRoom.Wake` | internal/audit/buffered_room.go:101-107 | the channel is replaced exactly when somebody waits and there is room |
| `BufferRoom.DeliverAll` | internal/audit/buffered_flusher.go:75-93 | chunk by chunk up to the first refusal, then the refused events before the untried ones |
| `BufferRoom.UndeliveredIsPart` | internal/audit/buffered_flusher.go:75-93 | what stays undelivered is part of what was given |
| `BufferRoom.BackoffIsCappedDoubling` | internal/audit/buffered_flusher.go:147-150 | the wait is the doubled minimum up to the maximum: 500, 1000, 2000, 4000, 8000 and 16000 milliseconds, then 30 seconds |
| `BufferRuns.FlusherConserves` | internal/audit/buffered_flusher.go:31-143 | no flusher step loses or doubles an event |
| `BufferRuns.FlusherBound` | internal/audit/buffered_flusher.go:31-70 | beyond what it last reported the flusher holds at most one batch |
| `BufferRuns.FlusherWakes` | internal/audit/buffered_flusher.go:36-43 | every flusher step that opens room releases the waiters or is about to |
| `BufferRuns.CallerKeepsCrowd` | internal/audit/buffered_wait.go:32-65 | the waiting counter counts the registered callers, and a caller inside keeps Close out |
| `BufferRuns.CallerKeepsWake` | internal/audit/buffered_wait.go:32-65 | a caller goes to sleep only where there is no room |
| `BufferRuns.EveryEventIsAccountedFor` | internal/audit/buffered_shutdown.go:21-70 | in every run each admitted event is in exactly one place, and after the flusher ends it is delivered or abandoned |
| `BufferRuns.MemoryIsBounded` | internal/audit/buffered_room.go:33-107 | the channel never overflows, and until shutdown memory holds at most one batch beyond the capacity |
| `BufferRuns.NoWakeupIsLost` | internal/audit/buffered_room.go:81-107 | a waiter sleeps beside room only between the flusher's receive and its dequeued call, and on an open channel nothing but its deadline or Close wakes it |
| `BufferRuns.SleepingBesideRoomHappens` | internal/audit/buffered_flusher.go:36-43 | that window is real: a run in which a caller sleeps beside room |
| `BufferRuns.RefusalHappens` | internal/audit/buffered_room.go:60-72 | a run in which one failed delivery fills the room, a caller is refused and the next batch waits |
| `BufferRuns.DeliveryIsInReach` | internal/audit/buffered_flusher.go:31-143 | wherever a run stands before the flusher has ended, the flusher alone can go on until every admitted event is delivered and every sleeping caller has been woken |
| `BufferRuns.AttemptIsDeliverAll` | internal/audit/buffered_flusher.go:75-93 | the chunks of an attempt, step by step, leave undelivered exactly what the loop returns |
| `BufferRuns.ClosedAdmitsNothing` | internal/audit/buffered_recorder.go:111-153 | once closed, nothing is admitted, however the run goes on |
| `Relay.OutboxStore.ClearThrough` | internal/adapters/foundationdb/ops_outbox.go:119-139 | everything up to the mark is cleared and nothing after it |
| `Relay.DrainFoundationDB` | internal/audit/relay_foundationdb.go:85-124 | what is cleared is exactly the acknowledged front of what was read, and only then does the mark move |
| `Relay.PublishClaimedRows` | internal/audit/outbox_yb_claim.go:56-68 | rows go in order, each deleted only after its publish, and the first failure stops |
| `RelayRuns.KeysFromOk` | internal/adapters/foundationdb/ops_outbox.go:44-82 | a read returns every entry after the mark up to its last, in order, within the limit |
| `RelayRuns.ClearIsCovered` | internal/audit/relay_foundationdb.go:103-114 | what a clear takes from the outbox was accepted by the broker |
| `RelayRuns.NothingIsLost` | internal/audit/relay_foundationdb.go:23-124 | with any number of relays, failed produces, failed or unreported clears and crashes, an appended event is in the outbox or acknowledged |
| `RelayRuns.ClearRemovesAPrefix` | internal/audit/relay_foundationdb.go:85-124 | a clear removes the accepted front of the batch and nothing else |
| `ClaimRuns.StepDisjoint` | internal/audit/outbox_yb_claim.go:13-19 | row locks keep two claims apart |
| `ClaimRuns.NothingIsLost` | internal/audit/outbox_yb_claim.go:28-68 | a row leaves the outbox only after the broker acknowledged it |
| `ClaimRuns.CommitRemovesAPrefix` | internal/audit/outbox_yb_claim.go:28-49 | a commit removes exactly the published front of its claim, and no other relay holds any of it |
| `ClaimRuns.EveryRowCanLeave` | internal/audit/outbox_yb_claim.go:28-68 | however a run went, it can go on until the outbox is empty and every row is in the topic |
| `LastChange.AddedSummarises` | internal/audit/last_change_order.go:20-29 | the candidates keep the highest versioned change and every unversioned one |
| `LastChange.SummaryUnique` | internal/audit/last_change_order.go:20-29 | the order of arrival leaves no trace but the order of the unversioned changes |
| `LastChange.Cardinality` | internal/audit/last_change_order.go:33-39 | the candidates are ambiguous exactly when the changes cannot be put in order |
| `LastChange.WinnerIsLatest` | internal/audit/last_change_order.go:42-47 | the winner is a change every other one is strictly before, all of them versioned: by the version, then the time, then the event id, each where the texts first differ |
| `LastChange.ResolveAnswers` | internal/audit/last_change_order.go:117-151 | from the few candidates the entry says what all changes and legacy rows say |
| `LastChange.AnswerDetermined` | internal/audit/last_change_order.go:51-163 | one set of changes and legacy rows has one answer, up to the order of the legacy ids |
| `LastChangeReport.EvidenceSame` | internal/audit/last_change_derive.go:64-155 | what rows say about an entry does not depend on their order |
| `LastChangeReport.OrderDoesNotMatter` | internal/audit/last_change_report.go:16-99 | reports over the same rows in any order are the same, up to the order of legacy ids |
| `LastChangeReport.KnownMeansLatest` | internal/audit/last_change_report.go:16-47 | known means an untruncated read, and of the rows themselves: every other row that records a change has a smaller version, or the same one and an earlier time or id, and no legacy row that applies may be newer |
| `LastChangeReport.LastChangeDeriver.constructor` | internal/audit/last_change_derive.go:52-59 | a deriver of no rows |
| `LastChangeReport.LastChangeDeriver.AddLegacy` | internal/audit/last_change_derive.go:93-109 | the state says what all rows so far say, after a legacy row |
| `LastChangeReport.LastChangeDeriver.AddRelationshipChange` | internal/audit/last_change_derive.go:111-122 | the same, after a row of one of the node's relationships |
| `LastChangeReport.LastChangeDeriver.AddFieldChanges` | internal/audit/last_change_derive.go:141-153 | every changed path of the row, as often as it is listed, becomes a candidate of its entry |
| `LastChangeReport.LastChangeDeriver.AddNodeChange` | internal/audit/last_change_derive.go:124-155 | the same for a change of the node, refused exactly when a record does not decode |
| `LastChangeReport.LastChangeDeriver.Add` | internal/audit/last_change_derive.go:64-85 | after any row that decodes, the state says what all rows added say |
| `LastChangeReport.LastChangeDeriver.ReportSection` | internal/audit/last_change_report.go:25-46 | one entry, in order, for exactly the keys that have something to report, each with its answer |
| `LastChangeReport.LastChangeDeriver.Report` | internal/audit/last_change_report.go:16-47 | the report is the declarative answer over all rows added, and field by field of the rows: which entries are listed and in which order, their status, the latest row, the candidates in time order, the legacy rows and the start of history |
| `LastChangeReport.ReportIsMeant` | internal/audit/last_change_report.go:16-99 | the declarative answer says about each entry what the rows say: an entry is known exactly when one change outranks every other and no legacy row may be newer |
| `LastChangeReport.FieldKeysReported` | internal/audit/last_change_report.go:67-82 | the listed paths are exactly the requested, recorded or changed ones |
| `LastChangeReport.LegacyForIsApplicable` | internal/audit/last_change_report.go:58-63 | legacy node rows apply to fields, legacy relationship rows to changed relationships with the node as source |
| `History.BelowLast` | internal/audit/last_change_reader.go:127-149 | below the last row read are exactly the rows after it |
| `History.ReadNodeHistory` | internal/audit/last_change_reader.go:71-111 | visits what the page query gives up to the limit, and over any rows that it answers from: the newest in order, truncated exactly when a row remains, with the rest below the next position, and ended by a failing query or visit at the row that was next |
| `History.VisitsNewest` | internal/audit/last_change_reader.go:71-111 | for every row limit a query that answers from some rows makes a read visit the newest of them |
| `History.VisitPage` | internal/audit/last_change_reader.go:93-106 | the loop over one page stops at the row limit or at the first visit that fails |
| `History.ReadWindow` | internal/audit/last_change_reader.go:71-111 | following the cursors visits every row of the window once, newest first, for every limit |
| `History.TieBreakIsNeeded` | internal/audit/last_change_reader.go:58-64 | without the event id in the position exactly the rows that tie with the last one are passed over |
| `HistoryPage.FrontOfFilter` | internal/audit/history_sql/node_history_page.sql:17-71 | a branch that stops at the page size still returns its part of the newest rows |
| `HistoryPage.SelectedExactly` | internal/audit/history_sql/node_history_page.sql:17-71 | a node's rows are its own, the old ones of its relationships, and those that name it as either end |
| `HistoryPage.PageExactly` | internal/audit/history_sql/node_history_page.sql:17-71 | the union of the four cut branches is the newest rows for every page size if and only if no row is selected twice |
| `HistoryPage.EmptyEntityIsEnough` | internal/audit/history_sql/node_history_page.sql:7-16 | it is exact when relationship rows leave their entity id empty |
| `HistoryPage.PagesAnswer` | internal/audit/history_sql/node_history_page.sql:17-71 | unless a row is selected twice, the query at every position and page size returns the node's newest rows below it |
| `HistoryPage.ReadNode` | internal/audit/last_change_reader.go:71-149 | one read over the four-branch query visits the node's newest rows in order and passes over none, and each once unless a row is selected twice |
| `HistoryPage.PageCovers` | internal/audit/history_sql/node_history_page.sql:17-71 | whatever is selected twice, a page has the node's newest rows in order, and a row it leaves out is older than all of them |
| `HistoryPage.VisitsCover` | internal/audit/last_change_reader.go:71-111 | so does a whole read, for every start and row limit |
| `HistoryPage.ReaderExactly` | internal/audit/last_change_reader.go:71-149 | reads of every start and row limit visit the node's newest rows, each once, if and only if no row is selected twice |
| `HistoryPage.ReadNodeWindow` | internal/audit/last_change_reader.go:71-149 | following the cursors over the query visits every row of the node in the window once, newest first |
| `FieldPath.EscapeRoundTrip` | internal/audit/mutation_event.go:30-36 | unescaping in the order of section 4 of RFC 6901 gives the token back |
| `FieldPath.PointerRoundTrip` | internal/audit/mutation_event.go:30-36 | a pointer names one field, which can be read from it |
| `FieldPath.PointerIsAccepted` | internal/audit/mutation_event.go:30-36 | every path that is written is a pointer of section 3 of RFC 6901 |
| `FieldPath.ValidateFieldPath` | internal/audit/last_change.go:93-106 | accepts exactly the non-empty pointers of section 3 of RFC 6901 |
| `FieldPath.RecordFields` | internal/audit/mutation_event.go:83-113 | exactly the members except the seven bookkeeping ones, and each of the `props` on its own, with their values, or a refusal exactly when the record does not decode |
| `FieldPath.DifferingFields` | internal/audit/mutation_event.go:65-76 | the pointers of exactly the fields that differ or are on one side only, each once |
| `FieldPath.ChangedFields` | internal/audit/mutation_event.go:56-79 | the same, each greater than the one before where they first differ |
| `External.NothingUnfinished` | internal/audit/external_steps.go:172-186 | nothing is unfinished exactly when every begun step has a saved result |
| `External.NothingCommitted` | internal/audit/external_steps.go:172-186 | nothing is committed exactly when no begun step's last saved result commits |
| `External.SummaryLists` | internal/audit/external_steps.go:172-186 | for every history a label is listed as committed, or as unfinished, exactly when a begun step of that name is |
| `External.StepRecorder.BeginStep` | internal/audit/external_steps.go:75-115 | a step begins once its intent is in the outbox, and beginning it again changes nothing |
| `External.StepRecorder.FinishStep` | internal/audit/external_steps.go:119-144 | only a step begun in this attempt finishes, and its last saved result stands |
| `External.StepRecorder.Summarise` | internal/audit/external_steps.go:172-186 | the committed and the unfinished steps, in the order they began |
| `External.JudgeOutcome` | internal/audit/external_outcome.go:25-40 | completed exactly without a run error and unfinished step, incomplete exactly for an unfinished step or an unknown outcome; an unknown outcome or an unfinished step replaces the code and the message |
| `External.MergeSteps` | internal/audit/external_outcome.go:41-46 | starts with the returned steps, has exactly the labels of both lists, and repeats none that it adds |
| `External.FillFailure` | internal/audit/external_outcome.go:63-76 | a code and a message exactly when the outcome is not completed: the ones given, else one made from the outcome and the run error |
| `External.ResolveExternalOutcome` | internal/audit/external_outcome.go:24-77 | which of the five outcomes follows from what run returned and what the steps show, for every input, which steps it lists, and which code and message it carries |
| `External.ResultMeans` | internal/audit/external_outcome.go:24-77 | completed means no run error and a saved result for every begun step; failed or refused means no committed step |
| `External.FinishExternal` | internal/audit/external.go:63-148 | every attempt on a valid intent has a result that passes the format 2 contract: the outcome, code and message that follow from what run returned, its error and the steps; the time now, ended now or at the start when the clock went back; everything else as in the intent |
| `External.LaterResultReplacesEarlier` | internal/audit/external_steps.go:141-143 | after every history the last saved result of a step decides whether its label is listed, and every other step stands as before |

## Left out

- Kafka, PostgreSQL, YugabyteDB and FoundationDB clients: they are logs, tables, acknowledgments and steps that can fail.
- Read leases, pending reads, receipts and the read executor: their deciding SQL functions are not part of this model.
- Ed25519 signatures, key loading and signer reports: opaque to the ledger's structure.
- Legacy (format 0) event validation and the operation definitions: straight-line field checks.
- Personal-data rows, telemetry, logging and configuration defaults: they do not decide which ledger rows there are, what a hash covers or where an offset stands.
- The text form of history cursors and the wire form of transport messages: a cursor is its position and a message its decoded fields.
- HashChain.PreimageInjective: payloads are shorter than 2^61 bytes, because an 8-byte length of a longer one can start like text.
- Canonical.CanonicalInjective: a number is its rendered text; how a float64 is rendered is not part of this model.
- RowHash.SameHashSameRow: times and numbers render injectively by assumption, numbers after rounding to a float64.
- Merkle.MerkleAndManifest: sorts a sequence value instead of the slice in place, and leaves out the JSON of the manifest.
- ChainVerify.VerifyChainLinks: sorts a sequence value instead of the slice in place, and sequence numbers do not wrap at 2^63.
- ManifestParts.StreamTargets: arrays are stored right after the call that emitted them, and a database error while storing one is not modelled; neither is a part count past 2^32.
- Transport.EncodeEvent: the envelope is given as bytes; JSON encoding errors and the check of the read evidence are separate.
- ConsumerProtocol.NoRunSkipsARecord: projecting one record and completing one assembly are atomic steps; a transaction waits for rows that another has written, and a completion for an event that no open batch has written to. Whether the parts and manifest of a transport stream as an event is a parameter, and so is what the ledger keeps of a record.
- TransportRuns.ReadyWhenAllDelivered: each store and each completion is one atomic transaction.
- ExportRuns.EveryBundleIsWhole: a rows file is the count of rows in it, and the manifest signs that count; digest and signature are not in the state. A rename that reports an error has not happened.
- BufferRuns.EveryEventIsAccountedFor: a panic of the flusher, the overflow appender and the timing of the backoff are not modelled; a delivery that fails after the broker took the events counts them as undelivered.
- RelayRuns.NothingIsLost: the relay lease is not modelled, so any relay may drain at any time; keys grow with commit order.
- LastChangeReport.LastChangeDeriver.Report: rows have distinct event ids, as the ledger guarantees; JSON records are sets of paths; fields and relationships share one map keyed by entry.
- External.StepRecorder.BeginStep: whether the step event is valid and written is an argument, and the target key is given; the mutex makes each call atomic.
- External.FinishExternal: the clock and the id generator do not return zero values.
