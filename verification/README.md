# ptpsim: a verified model of its cores

This project models, in Dafny 4.11, the parts of ptpsim that carry its promises, and proves those promises
for every input and every run. `dafny verify dfyconfig.toml` checks all of it.

- **Evidence pipeline** (`Observation`, `Validation*`, `Acceptance`, `Rejections`, `LineOrder`, `Proposal*`, `FirstWins`,
  `Review*`). Bundles of observation lines are validated fail-closed, aggregated into a proposal with content-derived ids, and the
  accepted candidates are merged into a curated manifest in two passes.
- **Step programs** (`Steps`, `StepCheckRun`, `StepPaths`, `Executor`, `StepSoundness`). The load-time check of step programs
  (definite binding of collections, no loop under a retry) against the executor that runs them.
- **Streaming** (`Streaming*`). One transaction over a byte stream that an adversary cuts, fails or cancels at any
  input/output point, with the guard that drops a session in doubt.
- **Recorder** (`Hex`, `Payload*`, `RecorderLog`). Incremental payload summaries and the append-only log.
- **Media card** (`Thumbnail*`, `Handles`). The thumbnail parser for RAF/JPEG/TIFF bytes, its printer, and handle numbering.
- **Lifecycle and actions** (`Lifecycle`, `Action*`). The layered connection state with
  its bounded trace, and the action resolver whose safety rests on the load-time role check.
- **Tiers** (`Tiers`). Deep-merging of firmware overlays.

Code that updates things step by step is modelled by methods with loops and by classes (`Draft`, `Link`,
`SessionGuard`, `PayloadMetadataBuilder`, `ObservationRecorder`, `MediaStore`, `Tracker`), each proved against a
specification function. The lemmas are about those functions. `Options`, `Ordering`, `Sorting`, `Bags`, `Stability` and
`Folds` are the shared groundwork.

Some things are parameters, universally quantified in every statement: the shallow per-record validation rules
(`Rules`), the serialized form and digest of values (`Codec`, used only under `Faithful()`, injectivity), the standard
name tables (`Lexicon`), the text parsers of step programs (`Texts`), everything the outside world answers (`Device`,
`Host`), the payload digest and the catalog digest.

## Where the code and the expected law differ

Five laws do not hold without a condition. In each case the code is modelled as it is, and the exact
condition is proved.

- A proposal built from accepted bundles passes its own integrity check if and only if no run id extends another
  run id by a colon in a way that the record ids complete. A colon is a legal identifier character, and identities are
  `run:record`. Run `a` with record `b:c` collides with run `a:b` and record `c`
  (`ProposalTheorems.ProposalPassesIntegrity`, `NestedRunsFail`, `NestedExample`).
- The order of the lines behind the first shows in a checked bundle if and only if the bundle is disputed: it has one
  header, and two transactions behind the first line share a record id of the run but disagree about the connection or
  session of an event that links to it. The map of transaction ids keeps the last one. Accepted input is never disputed
  (`LineOrder.LineOrderIff`, `ReportOrderIrrelevant`, `AcceptedUndisputed`, `DisputedExample`).
- Applying a review to its own result succeeds and changes nothing if and only if all accepted identity candidates
  leave the same camera fields blank (`ReviewIdempotent.ReviewIdempotentIff`, for ledgers that do not list an accepted
  row or profile twice; `ReviewRepeated.RepeatedRowChangesAgain` shows what a repetition does). The
  pipeline's own proposals always do, since the header check refuses blank camera fields
  (`ReviewProposed.ProposedIdempotent`); only a proposal made by hand can fail (`MixedReviewFailsAgain`).
- An append at the last ordinal stores its line and then reports an overflow (`RecorderLog.ObservationRecorder.Append`).
- Two overlays may be combined before the base is known if and only if the middle tier never puts a non-map between
  two maps of which the lower one would show through (`Tiers.RegroupIff`, `LeafBetweenMaps`).

## Model

| member | source | states |
|---|---|---|
| `Observation.ConflictSymmetric` | crates/camera-config/src/generate.rs:988-1093 | Both conflict relations, within a scope and across scopes, are symmetric, for every pair of subjects. |
| `ValidationRun.GroupBy` | crates/camera-config/src/generate.rs:913-986 | Grouping by a key lists, for each key, exactly the places of the parsed lines with that key, in order. |
| `ValidationRun.RejectClashing` | crates/camera-config/src/generate.rs:913-986 | The pairwise loops over each group reject exactly the lines of groups that hold a clashing pair. |
| `ValidationRun.CheckBundle` | crates/camera-config/src/generate.rs:363-511 | The in-place checks of one bundle add to each line exactly the specified faults: header count and place, run id, duplicate record ids and ordinals, links. |
| `ValidationRun.CrossCheck` | crates/camera-config/src/generate.rs:513-529 | The cross-bundle passes (duplicate runs, conflicts) add exactly the specified faults, judged on the lines as they stood before. |
| `ValidationRun.ValidateBundles` | crates/camera-config/src/generate.rs:198-288 | The whole validation equals its specification: the sorted report when anything is rejected, otherwise sorted headers and records. |
| `ValidationOrder.BundleOrderIrrelevant` | crates/camera-config/src/generate.rs:198-288 | Permuting the bundles leaves the result unchanged, acceptance and rejection report alike. |
| `ValidationOrder.AcceptedCoherent` | crates/camera-config/src/generate.rs:363-529 | Acceptance means: every line parsed, one header in front of each bundle, one run per bundle, runs different, record ids and ordinals unique. |
| `Acceptance.SoundIff` | crates/camera-config/src/generate.rs:363-511 | A bundle passes its own checks if and only if it is sound, said without faults: coherent, header first with ordinal zero and only there, per-record rules met, transaction correlations different, every event link leading to a transaction of the bundle on the same connection and session. |
| `Acceptance.AcceptedIff` | crates/camera-config/src/generate.rs:198-288 | Validation accepts an input if and only if every bundle is sound and no two records anywhere share a run as headers, conflict in one scope key, or conflict across scopes for one manifest key. |
| `Rejections.LineFound` | crates/camera-config/src/generate.rs:198-529 | A line, accepted or not, carries a fault if and only if that very thing is wrong with it, said of the raw bundles: its header count and place, run, rules, record id, ordinal, correlation, link, run shared by headers, conflict. |
| `Rejections.MissingFound` | crates/camera-config/src/generate.rs:198-288 | A bundle without lines is reported as one missing header. |
| `Rejections.ReportSays` | crates/camera-config/src/generate.rs:198-288 | An entry is in the report if and only if it is the acceptance of a line with nothing wrong, a rejection of a line for something wrong with it, or that of an empty bundle; entries are in order. |
| `Rejections.ReportCounts` | crates/camera-config/src/generate.rs:198-288 | The total is the number of lines; accepted and rejected count the lines without and with faults, and differ from the total by exactly the empty bundles. |
| `Rejections.ValidatedExactly` | crates/camera-config/src/generate.rs:198-288 | Accepted input comes back whole and unchanged: headers sorted by run, records by run and ordinal. |
| `LineOrder.LineOrderIff` | crates/camera-config/src/generate.rs:363-511 | For every bundle, accepted or rejected: every order of the lines behind the first gives the same checked lines if and only if the bundle is not disputed, that is, unless it has one header and two transactions behind the first line, under one record id of its run, that disagree about the connection or session of an event linking to them (and the shallow rules do not already object to the event). |
| `LineOrder.ReportOrderIrrelevant` | crates/camera-config/src/generate.rs:198-288 | Where no bundle is disputed, the whole result is the same for every order of lines, the rejection report included. |
| `LineOrder.AcceptedUndisputed` | crates/camera-config/src/generate.rs:363-511 | No bundle of accepted input is disputed. |
| `LineOrder.LineOrderIrrelevant` | crates/camera-config/src/generate.rs:198-288 | So permuting the lines behind the headers of accepted bundles leaves the validated observations unchanged. |
| `LineOrder.LastTransactionAnswers` | crates/camera-config/src/generate.rs:450-511 | Of any number of transactions under one record id, anywhere in a bundle, the last one answers for every link to it. |
| `LineOrder.RejectedLineOrderMatters` | crates/camera-config/src/generate.rs:450-511 | Every disputed bundle has two orders, one of which rejects an event for a crossing link that the other does not. |
| `LineOrder.DisputedExample` | crates/camera-config/src/generate.rs:450-511 | A concrete disputed bundle of four lines. |
| `FirstWins.PropertyAggregateClosed` | crates/camera-config/src/generate.rs:1295-1413 | The aggregation loop yields, per key, the first given value of each fact and exactly the scopes and record names that bear on it. |
| `FirstWins.OperationAggregateClosed` | crates/camera-config/src/generate.rs:1295-1413 | The same for operations: exactly the scopes and names of the records for the key. |
| `FirstWins.AcceptedFactsAgree` | crates/camera-config/src/generate.rs:913-1093 | Two accepted property records for one code agree on every fact both give, in one scope or in two. |
| `FirstWins.AcceptedSupportAgrees` | crates/camera-config/src/generate.rs:913-1045 | Two accepted records for one code and one exact scope agree on whether it is supported. |
| `FirstWins.AggregationLosesNothing` | crates/camera-config/src/generate.rs:1295-1413 | On accepted input, each aggregated type, access, descriptor and label equals what every contributing record gives. |
| `FirstWins.PropertyScopesDisjoint` | crates/camera-config/src/generate.rs:1295-1413 | On accepted input, no exact scope is both supported and unsupported for one property code. |
| `FirstWins.OperationScopesDisjoint` | crates/camera-config/src/generate.rs:1295-1413 | The same for operation codes. |
| `ProposalRun.AggregateRecords` | crates/camera-config/src/generate.rs:1295-1413 | The loop that fills both aggregate maps equals the first-wins specification. |
| `ProposalRun.ConsolidateCandidates` | crates/camera-config/src/generate.rs:1527-1549 | Merging candidates with equal ids into a map equals the consolidation specification. |
| `ProposalRun.BuildProposal` | crates/camera-config/src/generate.rs:1247-1507 | The whole builder, loops and maps included, equals the proposal function, or returns the validation report. What that function holds is ProposedExactly and RecordsProposed. |
| `ProposalContents.ProposedExactly` | crates/camera-config/src/generate.rs:1247-1556 | Which candidates a proposal holds: an assertion is proposed, and cites a source, a provenance or a scope, if and only if the observations assert it and give that evidence (support by code, completeness and scopes; the type, descriptor and label form of a property; names, rows and profiles). One candidate per assertion, under its own id, ids and lists strictly ascending. |
| `ProposalTheorems.RecordsProposed` | crates/camera-config/src/generate.rs:1479-1506 | A proposal lists every input line once, in order, each with exactly the candidates that cite it, and is marked proposed if there are any. |
| `ProposalRun.CheckIntegrity` | crates/camera-config/src/generate.rs:1646-1755 | The integrity check accepts exactly the proposals that satisfy the declarative integrity predicate: strict order, mutual links, coherent statuses, recomputed ids and digest. |
| `ProposalIntegrity.BuiltIntegrity` | crates/camera-config/src/generate.rs:1247-1507 | What is built from validated observations satisfies integrity if and only if no identity occurs twice in the report. |
| `ProposalTheorems.IntegrityIffDistinct` | crates/camera-config/src/generate.rs:1646-1755 | For accepted bundles, integrity holds if and only if no two lines share a joined identity. |
| `ProposalTheorems.CollisionIffNested` | crates/camera-config/src/generate.rs:312-322 | Two different (run, record) pairs share the identity `run:record` if and only if one run id extends the other by a colon and the record ids complete it. |
| `ProposalTheorems.ProposalPassesIntegrity` | crates/camera-config/src/generate.rs:1247-1507 | Every proposal returned passes the integrity check if and only if the input holds no nested run ids. |
| `ProposalTheorems.ColonFreeRunsPass` | crates/camera-config/src/generate.rs:1646-1755 | Run ids without a colon are enough. |
| `ProposalTheorems.NestedRunsFail` | crates/camera-config/src/generate.rs:1101-1110 | Two one-line bundles with nested identities are accepted, and their proposal fails its integrity check. |
| `ProposalTheorems.NestedExample` | crates/camera-config/src/generate.rs:1101-1110 | Run `a`, record `b:c` and run `a:b`, record `c` are such a pair. |
| `ProposalTheorems.ProposalOrderIrrelevant` | crates/camera-config/src/generate.rs:1247-1507 | The proposal, or the rejection report, does not depend on the order of bundles nor, for input that is accepted or nowhere disputed, on the order of lines. |
| `ReviewFacts.FactsIdempotent` | crates/camera-config/src/generate.rs:1868-1980 | Overwriting the facts of a property by a list of candidates twice is the same as once. |
| `ReviewFacts.ProfilesClosed` | crates/camera-config/src/generate.rs:1868-2175 | After any list of candidates, the value profile in a (connection, mode) slot is the last one written there, else the one before. |
| `ReviewFacts.TypeClosed` | crates/camera-config/src/generate.rs:1868-1980 | The property type is the last accepted one, else the base's. |
| `ReviewFacts.AccessClosed` | crates/camera-config/src/generate.rs:1868-1980 | The access is the last accepted one that parses, else the base's; FactsReviewed says which texts parse and to what. |
| `ReviewWritten.FactsReviewed` | crates/camera-config/src/generate.rs:1868-2306 | The facts of a property after a review, said of the accepted candidates and their text: type, access (only the texts readOnly and readWrite count), descriptor with its kept form, each caption, each profile slot are what the last accepted candidate that gives it says, else what the base had. |
| `ReviewWritten.EntriesReviewed` | crates/camera-config/src/generate.rs:1757-2306 | After a review the camera and every name are what the last accepted candidate says; a new operation is advertised with the scopes of the first that claims it, a new property is catalog-only, and everything else is kept. |
| `ReviewFacts.DescriptorClosed` | crates/camera-config/src/generate.rs:1868-1980 | The descriptor is the last accepted one, else the base's. |
| `ReviewFacts.LabelsClosed` | crates/camera-config/src/generate.rs:1868-1980 | The labels are the base's overwritten by the accepted ones in order. |
| `ReviewSettled.CandidateGrows` | crates/camera-config/src/generate.rs:1757-2175 | A candidate that applies leaves its own names, rows, profiles, scopes and evidence in the manifest and takes away nobody else's. |
| `ReviewSettled.AllSettled` | crates/camera-config/src/generate.rs:1757-2175 | After a list of candidates, everything each of them brought is still there. |
| `ReviewIdempotent.MixedFailsAgain` | crates/camera-config/src/generate.rs:1757-1786 | If a list of candidates can be applied to its own result, its identities leave the same fields blank. |
| `ReviewIdempotent.ReviewIdempotentIff` | crates/camera-config/src/generate.rs:1583-1633 | Applying a review to its own result returns the same manifest if and only if the accepted identities leave the same fields blank, when the base ledger does not list an accepted row or profile twice; otherwise it fails. |
| `ReviewProposed.ProposedComplete` | crates/camera-config/src/generate.rs:531-543 | If the shallow rules reject headers with a blank camera field, as the header check does, every identity the pipeline proposes is complete. |
| `ReviewProposed.ProposedUniform` | crates/camera-config/src/generate.rs:1247-1294 | So the accepted identities of the pipeline's own proposals leave the same fields blank, whatever the review. |
| `ReviewProposed.ProposedIdempotent` | crates/camera-config/src/generate.rs:1583-1633 | So every review of a proposal built from observations can be applied again and then changes nothing, when the base ledger does not list an accepted row or profile twice. |
| `ReviewProposed.MixedReviewFailsAgain` | crates/camera-config/src/generate.rs:1757-1786 | An integral proposal made by hand, with a blank identity before a named one, is accepted on a manifest without a camera and refused on its own result. |
| `ReviewRepeated.RepeatedRowChangesAgain` | crates/camera-config/src/generate.rs:2041-2114 | On a ledger that lists an accepted row twice, applying the same rows a second time succeeds and changes the manifest again. |
| `ReviewFrame.UnsupportedIgnored` | crates/camera-config/src/generate.rs:1788-1980 | Candidates that assert lack of support change nothing, wherever they stand in the list. |
| `ReviewFrame.OnlyAcceptedMatters` | crates/camera-config/src/generate.rs:1615-1632 | Two proposals and reviews that are in order and accept the same supported candidates do the same to every manifest. |
| `ReviewFrame.OperationCurationKept` | crates/camera-config/src/generate.rs:1788-1838 | An operation of the base keeps its kind, owner, handler, modes, connections, gates and effects. |
| `ReviewFrame.PropertyCurationKept` | crates/camera-config/src/generate.rs:1868-1980 | A property of the base keeps its curated remainder. |
| `ReviewFrame.CuratedOperationName` | crates/camera-config/src/generate.rs:2177-2195 | A curated operation name is never replaced. |
| `ReviewFrame.CuratedPropertyName` | crates/camera-config/src/generate.rs:2177-2195 | A curated property name is never replaced. |
| `ReviewFrame.OperationScopesExact` | crates/camera-config/src/generate.rs:2302-2306 | Observed scopes of an operation become exactly the base's united with the accepted ones; an operation exists exactly if it did or was accepted. |
| `ReviewFrame.PropertyScopesExact` | crates/camera-config/src/generate.rs:2302-2306 | The same for properties. |
| `ReviewFrame.ReviewedOperation` | crates/camera-config/src/generate.rs:1583-1633 | The frame of a whole successful review for any operation code: existence, scopes, curated fields and name. |
| `ReviewFrame.ReviewedProperty` | crates/camera-config/src/generate.rs:1583-1633 | The frame of a whole successful review for any property code. |
| `ReviewRun.InsertLabels` | crates/camera-config/src/generate.rs:1868-1980 | Inserting labels one by one overwrites the target's by the incoming ones. |
| `ReviewRun.ReplaceProfiles` | crates/camera-config/src/generate.rs:1868-1980 | Removing and pushing each incoming profile by slot equals the specified replacement. |
| `ReviewRun.StoreValues` | crates/camera-config/src/generate.rs:1868-1980 | Descriptor values convert in order, or not at all if one of them has no stored form. |
| `ReviewRun.RegisterObserved` | crates/camera-config/src/generate.rs:2292-2300 | Registering the modes of the scopes adds exactly the missing ones. |
| `ReviewRun.RegisterEvidence` | crates/camera-config/src/generate.rs:2257-2268 | Registering evidence adds exactly the missing references and changes no other. |
| `ReviewRun.Draft.Identify` | crates/camera-config/src/generate.rs:1757-1786 | The in-place identity merge fills blank camera fields and refuses a different one. |
| `ReviewRun.Draft.SupportOperation` | crates/camera-config/src/generate.rs:1788-1838 | In-place operation support equals its specification on the manifest. |
| `ReviewRun.Draft.SupportProperty` | crates/camera-config/src/generate.rs:1868-1980 | In-place property support equals its specification, including the descriptor error. FactsReviewed states its effect and AppliedIff its refusals. |
| `ReviewRun.Draft.NameOperation` | crates/camera-config/src/generate.rs:1839-1867 | In-place operation naming equals its specification, including the curated-name refusal. |
| `ReviewRun.Draft.NameProperty` | crates/camera-config/src/generate.rs:1981-2009 | In-place property naming equals its specification. |
| `ReviewRun.Draft.NamePropertyNatively` | crates/camera-config/src/generate.rs:2010-2040 | In-place native naming equals its specification, including the refusal of a different name. |
| `ReviewRun.Draft.ListRow` | crates/camera-config/src/generate.rs:2041-2114 | In-place value rows equal their specification, including the conflict refusals. |
| `ReviewRun.Draft.ListProfile` | crates/camera-config/src/generate.rs:2115-2175 | In-place value profiles equal their specification. |
| `ReviewRun.Draft.Apply` | crates/camera-config/src/generate.rs:1757-2175 | One candidate applied in place equals the specification, and reports the same failure. |
| `ReviewRun.Draft.Pass` | crates/camera-config/src/generate.rs:1615-1632 | One pass applies exactly the accepted candidates of its kind, in order, up to the first failure. |
| `ReviewRun.RunReview` | crates/camera-config/src/generate.rs:1583-1633 | The whole operation, checks and both passes, equals its specification. ReviewAcceptedIff says when it succeeds; ReviewedExactly, FactsReviewed and EntriesReviewed say with what. |
| `ReviewOutcome.ReviewedExactly` | crates/camera-config/src/generate.rs:1583-2306 | Every fact that accumulates (modes, evidence, entries and their evidence and scopes, listed rows, profiles, names and citations of both ledgers) holds after a review if and only if it held in the base or an accepted candidate brings it. |
| `ReviewAccepts.AppliedIff` | crates/camera-config/src/generate.rs:1757-2221 | The accepted candidates can all be applied if and only if each fits what the base and those before it establish: same camera, same names, known entry, agreeing captions, readable descriptor. |
| `ReviewAccepts.AgendaIs` | crates/camera-config/src/generate.rs:1615-1644 | What is applied is exactly the accepted candidates, first the observed and then the semantic ones, each in the order of ids. |
| `ReviewAccepts.ReviewAcceptedIff` | crates/camera-config/src/generate.rs:1583-1633 | A review goes through if and only if the proposal is sound, the review is for it and decides exactly its candidates, the accepted ones fit, and the result is valid; otherwise the first of these that fails is reported. |
| `StepCheckRun.CheckProgram` | crates/camera-config/src/lib.rs:1995-2245 | The recursive checker over a mutable set of collections accepts exactly the specified programs and leaves exactly the specified set; AcceptedIff says which those are. |
| `StepPaths.AcceptedIff` | crates/camera-config/src/lib.rs:1985-2245 | A program is accepted if and only if every step at every depth has the right shape and, on every control path, each loop comes after a binding of its collection and each retry that may be given up binds only what is bound already. The returned set is what every path binds. |
| `StepSoundness.LoopFound` | crates/camera-config/src/lib.rs:2328-2346 | Where the search under a retry reports a loop, a loop occurs, at any depth. |
| `StepCheckRun.CheckCaptures` | crates/camera-config/src/lib.rs:1995-2245 | The capture loop accepts exactly well-formed captures and collects exactly the array binds. |
| `StepSoundness.CheckGrows` | crates/camera-config/src/lib.rs:1995-2245 | Checking a program only adds collections. |
| `StepSoundness.GetBinds` | crates/camera-protocol-ffi/src/ptp_executor.rs:1965-2141 | A property read that completes has bound every array capture and lost no collection. |
| `StepSoundness.SendBinds` | crates/camera-protocol-ffi/src/ptp_executor.rs:2032-2141 | A repeated operation that completes has bound its array captures, if it ran and tolerated nothing. |
| `StepSoundness.StepsSafe` | crates/camera-protocol-ffi/src/ptp_executor.rs:888-1639 | From any machine that has the assumed collections, a run of an accepted program never meets an unbound collection, and completing means the counted collections are bound. |
| `StepSoundness.AcceptedProgramsBind` | crates/camera-config/src/lib.rs:1985-2245 | In every execution of an accepted program, for any camera answers, retries, fallbacks, branches and loop counts, no `forEach` runs on an unbound collection. |
| `StepSoundness.LoopFree` | crates/camera-config/src/lib.rs:2328-2346 | Where the loop search finds nothing, no loop occurs at any depth. |
| `StepSoundness.EveryStepChecked` | crates/camera-config/src/lib.rs:1995-2245 | Every step of an accepted program, at any depth, was itself accepted. |
| `StepSoundness.NoLoopUnderRetry` | crates/camera-config/src/lib.rs:1995-2346 | In an accepted program no loop occurs, at any depth, under a retry or its fallback. |
| `StepSoundness.AcceptedCapturesMap` | crates/camera-protocol-ffi/src/lib.rs:4630-4658 | The captures of an accepted step can be converted for the executor without a panic. |
| `StreamingTheorems.ReadTakes` | crates/camera-protocol-ffi/src/streaming_executor.rs:444-474 | An exact read that succeeds returns precisely the next bytes and never touches the sink. |
| `StreamingTheorems.CalmRead` | crates/camera-protocol-ffi/src/streaming_executor.rs:444-474 | Over any nonempty fragmentation, an exact read succeeds if and only if enough bytes are left. |
| `StreamingTheorems.WritesCover` | crates/camera-protocol-ffi/src/streaming_executor.rs:318-328 | The writes for a payload are nonempty, at most 1 MiB each, and concatenate to the payload. |
| `StreamingTheorems.BodyCopied` | crates/camera-protocol-ffi/src/streaming_executor.rs:318-328 | A completed body loop consumed exactly the payload and gave it to the sink in those writes. |
| `StreamingTheorems.BodyPrefix` | crates/camera-protocol-ffi/src/streaming_executor.rs:318-328 | A body loop cut short anywhere gave the sink a prefix of the payload. |
| `StreamingTheorems.FragmentationIrrelevant` | crates/camera-protocol-ffi/src/streaming_executor.rs:257-356 | However the same bytes are cut into nonempty reads, the result, the sink calls and the rest of the stream are the same. |
| `StreamingTheorems.SessionReuseIff` | crates/camera-protocol-ffi/src/streaming_executor.rs:229-356 | In every run, with failure or cancellation anywhere: without a transaction id nothing is consumed and the session is kept; otherwise the session is kept if and only if exactly whole containers of this transaction, the response last, were taken off the stream. A command that could not be written drops it. |
| `StreamingFailures.StopsForCause` | crates/camera-protocol-ffi/src/streaming_executor.rs:218-356 | In every run the first exchange that fails ends it and names the reason: a deadline error if and only if a deadline passed, a sink error if and only if the sink refused, cancelled if and only if the caller left; a transport error means the transport failed or the stream ended. A success means nothing failed. |
| `StreamingFailures.SinkSees` | crates/camera-protocol-ffi/src/streaming_executor.rs:292-328 | However a run ends, the sink is untouched, or the stream began with the data header that was asked for and the sink saw `begin` with its length and a prefix of its payload in bounded writes. |
| `StreamingTheorems.SuccessDelivers` | crates/camera-protocol-ffi/src/streaming_executor.rs:257-356 | A success saw `begin(total)` once, then the payload of the data container, of the expected length, and an OK response for this transaction. |
| `StreamingDelivery.HeaderReads` | crates/protocol-primitives/src/usb_ptp.rs:35-121 | The four header fields of an encoded container read back as they were written. |
| `StreamingDelivery.ResponseRoundTrip` | crates/camera-protocol-ffi/src/streaming_executor.rs:358-390 | Decoding undoes encoding of a response, for every code and up to five parameters. |
| `StreamingDelivery.EveryPayloadDelivered` | crates/camera-protocol-ffi/src/streaming_executor.rs:257-356 | For every payload, response code and fragmentation, the sink receives the payload, success or refusal is reported, the session is kept and the stream stands behind the response. |
| `StreamingDelivery.EarlyResponseKeepsSession` | crates/camera-protocol-ffi/src/streaming_executor.rs:267-290 | A response in place of the data fails the run without touching the sink, and the session is kept at the end of that response. |
| `StreamingRun.SessionGuard.Drop` | crates/camera-protocol-ffi/src/streaming_executor.rs:113-120 | Dropping the guard invalidates the session once if armed, and not otherwise. |
| `StreamingRun.ReadBytes` | crates/camera-protocol-ffi/src/streaming_executor.rs:444-474 | The buffer-growing loop equals the exact-read specification. |
| `StreamingRun.CopyPayload` | crates/camera-protocol-ffi/src/streaming_executor.rs:318-328 | The loop that counts `remaining` down equals the body specification. |
| `StreamingRun.RunStreamingOperation` | crates/camera-protocol-ffi/src/streaming_executor.rs:218-356 | The whole operation equals its specification, and invalidates the session exactly once if a transaction id was reserved and what was taken off the stream is not exactly whole containers of this transaction, the response last; else never. |
| `Hex.RoundTrip` | crates/camera-config/src/generate.rs:1231-1243 | Decoding undoes encoding, for every byte string. |
| `Hex.DigitsAt` | crates/camera-config/src/recorder.rs:370-378 | The two lowercase digits of every byte stand at its place, the high one first. |
| `Hex.CanonicalText` | crates/camera-config/src/generate.rs:1231-1243 | Only text that encoding produces decodes. |
| `Hex.Write` | crates/camera-config/src/recorder.rs:370-378 | The writing loop produces the encoding. |
| `Payload.PayloadMetadataBuilder.Update` | crates/camera-config/src/recorder.rs:74-99 | After an update the builder's fields are those of all bytes received so far, whatever the split. |
| `Payload.PayloadMetadataBuilder.FinishPendingRange` | crates/camera-config/src/recorder.rs:123-132 | Closing the pending range appends exactly its offset, length and digest. |
| `Payload.PayloadMetadataBuilder.CurrentMetadata` | crates/camera-config/src/recorder.rs:101-121 | The summary depends on the received bytes alone, and taking it changes nothing. |
| `Payload.Summarize` | crates/camera-config/src/recorder.rs:60-132 | Any split of a payload into updates gives the summary of the concatenation. |
| `Payload.AllRangesWalk` | crates/camera-config/src/generate.rs:1176-1229 | The ranges of any payload are contiguous from zero and end at its length. |
| `Payload.SummariesValid` | crates/camera-config/src/generate.rs:1176-1229 | Every summary the builder can produce passes the payload check without a rejection. |
| `Payload.ValidatePayload` | crates/camera-config/src/generate.rs:1176-1229 | The check's loops report exactly the specified faults; FaultsMean says when each is due. |
| `PayloadTheorems.FaultsMean` | crates/camera-config/src/generate.rs:1176-1243 | Each code is reported if and only if it is deserved, said of the metadata alone: a malformed digest, a stream range that is empty or out of place, one past 64 bits, ranges that end elsewhere than the payload; inline text that is too long, spells no bytes, or spells bytes of another length or digest; no ranges without inline text; artifacts that do not add up. |
| `PayloadTheorems.AcceptedIffAccounted` | crates/camera-config/src/generate.rs:1176-1243 | Metadata passes if and only if it accounts for its payload: nonempty ranges end to end from zero to its length, inline text that spells its bytes, or ranges and artifacts that add up to it. |
| `PayloadTheorems.TotalAdds` | crates/camera-config/src/generate.rs:1210-1229 | The artifact lengths are added up: the total of two lists is the sum of their totals. |
| `RecorderLog.ObservationRecorder.Append` | crates/camera-config/src/recorder.rs:206-243 | An append that is written adds one line with the next ordinal; a failed one adds nothing; at the last ordinal the line is stored and an overflow reported. |
| `RecorderLog.ObservationRecorder.Export` | crates/camera-config/src/recorder.rs:245-276 | An export returns exactly the lines above the cursor and the newest ordinal, and changes nothing. |
| `RecorderLog.LoadExisting` | crates/camera-config/src/recorder.rs:316-346 | Reopening accepts exactly a file whose header is the given one and whose lines are of this run, numbered 0, 1, 2 and so on. |
| `RecorderLog.Open` | crates/camera-config/src/recorder.rs:138-164 | A recorder opens on exactly the stored lines, or on a fresh header. |
| `RecorderLog.NewerIsRest` | crates/camera-config/src/recorder.rs:245-276 | When line i has ordinal i, the lines above a cursor are the rest of the log. |
| `RecorderLog.ReaderReceivesAll` | crates/camera-config/src/recorder.rs:138-276 | Over any interleaving of appends, exports and reopens, line i has ordinal i, and a reader that exports after its cursor has received every record so far once and in order. |
| `RecorderLog.Drive` | crates/camera-config/src/recorder.rs:138-276 | The recorder objects, driven through any such interleaving, follow that run. |
| `ThumbnailTheorems.FoundThumbnailSafe` | crates/camera-media-store/src/lib.rs:391-600 | For every byte string, a span that is found is nonempty, starts with the JPEG start marker, and lies behind the Exif prefix of an APP1 segment (marker bytes 0xff 0xe1), inside the preview, inside the file. |
| `ThumbnailIff.TiffIff` | crates/camera-media-store/src/lib.rs:519-620 | A TIFF structure yields a span if and only if, in the byte order it declares (either one), its second directory gives the offset and length of it in their last entries, inside the structure, where a JPEG starts. |
| `ThumbnailIff.WalkIff` | crates/camera-media-store/src/lib.rs:420-488 | The marker walk finds a span if and only if some APP1 segment that it reaches, past any other segments, holds it. |
| `ThumbnailIff.JpegIff` | crates/camera-media-store/src/lib.rs:420-488 | An image yields a thumbnail if and only if it starts as a JPEG and such a segment is reached from its first marker. |
| `ThumbnailIff.RafIff` | crates/camera-media-store/src/lib.rs:375-488 | A RAF file yields a thumbnail if and only if its header announces a preview that holds it. |
| `ThumbnailPrinter.EmbeddedThumbnailFound` | fuzz/fuzz_targets/media_previews.rs:7-49 | For every input, parsing the printed RAF finds exactly the span of the embedded thumbnail bytes. |
| `ThumbnailRun.ScanDirectory` | crates/camera-media-store/src/lib.rs:569-600 | The entry loop returns the specified thumbnail span of a directory. |
| `ThumbnailRun.ReadApp1` | crates/camera-media-store/src/lib.rs:519-548 | Reading an APP1 payload, down to the directory loop, equals the specified reader. |
| `ThumbnailRun.WalkMarkers` | crates/camera-media-store/src/lib.rs:420-488 | The marker walk, which advances a position in nested loops and looks into each APP1 segment, terminates and equals its specification. |
| `ThumbnailRun.FindThumbnail` | crates/camera-media-store/src/lib.rs:420-600 | The whole reader, marker walk and directory loop included, equals its specification. |
| `ThumbnailRun.BuildJpeg` | fuzz/fuzz_targets/media_previews.rs:7-39 | Appending and patching bytes builds the specified JPEG. |
| `ThumbnailRun.BuildRaf` | fuzz/fuzz_targets/media_previews.rs:41-49 | Overwriting header ranges in place builds the specified RAF. |
| `Handles.EnumerationIrrelevant` | crates/camera-media-store/src/lib.rs:185-227 | Neither the entries with their handles nor the reported totals depend on the order in which the directory was enumerated. |
| `Handles.ForestOfHandles` | crates/camera-media-store/src/lib.rs:185-227 | Handles are 1 to n in path order, and every parent handle is zero or smaller than its child's and names its directory. |
| `Handles.EntriesDescribe` | crates/camera-media-store/src/lib.rs:185-227 | Every object of the listing has an entry with its path, kind, size and format, and every entry describes one. |
| `Handles.SummaryCounts` | crates/camera-media-store/src/lib.rs:185-227 | A scan reports the number of objects and the sum of the sizes of the files among them, whatever order it sorts them into. |
| `Handles.ChildrenPartition` | crates/camera-media-store/src/lib.rs:274-281 | Every object is in exactly one parent-filtered query. |
| `Handles.MediaStore.Scan` | crates/camera-media-store/src/lib.rs:185-227 | A scan leaves exactly the numbered table of the items, and returns its summary. |
| `Handles.MediaStore.Handles` | crates/camera-media-store/src/lib.rs:274-281 | A query returns exactly the matching handles in ascending order. |
| `Lifecycle.ClosedForm` | crates/camera-config/src/lifecycle.rs:155-232 | After any run each layer is a function of its own last relevant events, and the sequence is the number of steps. |
| `Lifecycle.SessionConfirmedOpen` | crates/camera-config/src/lifecycle.rs:155-232 | The session is confirmed open if and only if it was opened after the last close with no transport loss or local close since. |
| `Lifecycle.EventsChained` | crates/camera-config/src/lifecycle.rs:249-260 | Consecutive events are chained: each starts in the state the one before ended in. |
| `Lifecycle.TraceIsNewest` | crates/camera-config/src/lifecycle.rs:249-260 | The trace is exactly the last min(n, 512) events, numbered and chained. |
| `Lifecycle.Tracker.Observe` | crates/camera-config/src/lifecycle.rs:249-260 | One observed transition moves the snapshot and the bounded trace as specified; an overflow of the sequence changes nothing. |
| `ActionTheorems.CatalogFinds` | crates/camera-config/src/action.rs:154-222 | Looking an action up in the catalog by connection and id finds that action's declaration, and no other. |
| `ActionTheorems.ArgumentsExact` | crates/camera-config/src/action.rs:272-333 | Arguments resolve if and only if their names are different and declared and every declared parameter's effective value suits it; the result is exactly those effective values; a range error names such a value. |
| `ActionTheorems.ResolvesIff` | crates/camera-config/src/action.rs:223-345 | For a manifest that passed the role check, a request in either role resolves if and only if it is current, names an action that has the role in an allowed mode, and its arguments fit. |
| `ActionErrors.ResolveErrors` | crates/camera-config/src/action.rs:223-345 | A refused request is told the first thing wrong with it: stale revision, unknown connection, no action of that text, mode, role; then the first repeated argument, the least undeclared one, or the first parameter that is missing, of the wrong type or out of range. |
| `ActionErrors.ResolvedExactly` | crates/camera-config/src/action.rs:223-345 | A resolved request carries the action of its text, its role, the effective parameters, and the mutation in the responder role only. |
| `ActionRoles.FitsIff` | crates/camera-config/src/lib.rs:1475-1490 | A value fits a property type if and only if an integer of that width and sign, in powers of two, holds it. |
| `ActionRoles.RolesIff` | crates/camera-config/src/lib.rs:1317-1490 | The role check accepts an action if and only if it is meaningful, said of what it declares: a role at all; different named parameters, each admitting some value and its default; an enqueue count bounded exactly as announced; a transition of a known scalar property whose initial value and every admissible terminal value fit its type. |
| `ActionTheorems.ResponderInvocationSafe` | crates/camera-config/src/lib.rs:1317-1490 | Every resolved responder invocation carries exactly the declared parameters; an enqueue count lies in the announced range; a transition's terminal value fits the target property's integer type. |
| `ActionTheorems.RangeErrorsAreGiven` | crates/camera-config/src/action.rs:223-345 | A range error is always about a value the request gave; a declared default never causes one. |
| `ActionRun.CheckRoles` | crates/camera-config/src/lib.rs:1317-1473 | The role check's loops accept exactly the specified actions. |
| `ActionRun.BuildCatalog` | crates/camera-config/src/action.rs:154-222 | The nested loops push exactly the entries of every action of every connection, in order. |
| `ActionRun.FillParameters` | crates/camera-config/src/action.rs:294-333 | The loop that fills and checks the mutable map equals its specification, first error included. |
| `ActionRun.ResolveInvocation` | crates/camera-config/src/action.rs:223-345 | The whole resolver equals its specification, errors in the same order. |
| `Tiers.MergeAt` | crates/camera-config/src/lib.rs:99-117 | What a merge holds at every path: the overlay's value where it replaces, the base's where the overlay is silent, the merge where both hold maps. |
| `Tiers.OverlayLeafWins` | crates/camera-config/src/lib.rs:99-117 | An overlay leaf wins at its path. |
| `Tiers.UntouchedKeepsBase` | crates/camera-config/src/lib.rs:99-117 | A path the overlay neither names nor blocks keeps the base value. |
| `Tiers.MergeAgain` | crates/camera-config/src/lib.rs:99-117 | Merging the same overlay again changes nothing. |
| `Tiers.RegroupIff` | crates/camera-config/src/lib.rs:99-117 | Merging two overlays first gives the same tree if and only if no map of the base is exposed by a middle leaf under a map. |
| `Tiers.NoLeafBetweenMaps` | crates/camera-config/src/lib.rs:99-117 | It does whenever no middle tier puts a non-map where both neighbours hold maps. |
| `Tiers.LeafBetweenMaps` | crates/camera-config/src/lib.rs:99-117 | A concrete triple for which regrouping changes the result. |
| `Tiers.LastWord` | crates/camera-config/src/lib.rs:137-146 | Over any stack of overlays, the last tier with a leaf at a path decides it. |
| `Tiers.MergeYaml` | crates/camera-config/src/lib.rs:99-117 | Removing and inserting keys one by one, in any order, equals the merge. |
| `Tiers.MergeTiers` | crates/camera-config/src/lib.rs:137-146 | The loop over overlays equals the stacked merge. |

## Left out

- SHA-256, JSON and YAML text: values are structured, digests are abstract and injective where a statement needs it.
- The shallow rules for one record and its header (identifiers, sanitized strings, clocks, artifact ranges, outcome coherence): a parameter of validation.
- Error message texts: an error is its kind and the data a caller can act on.
- File and directory input/output, symlink traversal, partial writes: a log file is a sequence of lines, a card is a finite set of different, parent-closed paths.
- Asynchronous scheduling and the 10-second deadline: a failure may happen at any input/output point.
- Executor reports, activities, data outputs and byte-level PTP frames of step programs: a wire exchange is a reply code with decoded values, or a failure.
- Streaming through manifest actions (building the request from runtime parameters): only the operation itself is modelled.
- The check of step programs runs per program; which programs a manifest holds, and its other load-time checks except the action roles, are not modelled.
- The language bindings, the index and store of manifests, queries, predicates, traces, version schemes: plumbing or easy structural inductions.
- Thumbnail sizes are those of a 64-bit host; handles are unbounded numbers, so the wrap of a 32-bit handle is not modelled.
- ReviewIdempotent.ReviewIdempotentIff: assumes that the base ledger does not list an accepted row or profile twice; `ReviewRepeated.RepeatedRowChangesAgain` shows why, but which repetitions do no harm is not characterised.
- LineOrder.ReportOrderIrrelevant: goes one way; the converse is stated for the checked lines (`LineOrderIff`), not for the report, which does not keep apart two lines with one identity.
- ReviewProposed.MixedReviewFailsAgain: assumes that the blank identity's id sorts before the named one's; candidates are applied in id order, and in the other order the first application already conflicts.
- ProposalTheorems.ProposalPassesIntegrity: assumes that the serialized form of values is injective.
- StreamingDelivery.EveryPayloadDelivered: assumes that the transport and the sink do not fail; failures are the subject of SessionReuseIff.
- Payload.PayloadFaults: the sum of the artifact lengths is unbounded; that 64 bits may not hold it is not modelled.
