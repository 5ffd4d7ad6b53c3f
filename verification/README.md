# Verified models of the jsm.go core

Dafny models of the parts of jsm.go, the JetStream management library, whose
behaviour spans many steps or many functions, with proofs about every input,
every run or every reachable state. `dafny verify dfyconfig.toml` checks all of
it.

What is modelled:

- **The offline backup editor.** `Archive` says what an archive is and which
  sequences of entries are complete backups. `Decoder` is the phase machine over
  the entries, `Encoder` writes them, `Filter` holds the stateless filters and
  the message body they read a prefix of, `SubjectState` the rings and slots of
  the per-subject rules. `EditSpec` says declaratively what an edit keeps,
  writes and reports, `EditLaws` what that comes to in terms of the options and of
  bytes alone; `Editor` is the editor itself, in one pass or two.
  `Verify` is the independent re-count, `Recorder` the incremental writer, and
  `Target` the commit protocol as a state machine with crashes.
- **Obfuscation.** `TokenHash` is the keyed hash, `Obfuscate` the stateful token
  map and its reversal, `MetaFile` the stream configuration and source block of an
  obfuscated edit.
- **Subject matching.** `Subjects` holds the wildcard walk and what subjects
  mean.
- **Schema dereferencing.** `Dereference` is the `$ref` expander, `Expansion`
  the reference it is measured against, `Loader` the recursive methods over the
  file cache. `JsonTree` holds ordered objects and the printer, `JsonReader` the
  tokens and the tree builder.
- **The leader balancer.** `Balancer` balances one cluster, with random choice
  and failures as nondeterminism; `Rebalance` is the whole call, from looking
  entities up to the last cluster.
- **API subjects.** `ApiSubject`: prefixing, stripping and normalising.

`Text` and `Paths` hold the string and path functions of the standard library
the code leans on.

Where the source changes state step by step, so does the model: a class with the
source's fields, or a method with the source's loop, proved against a
specification function; the laws are lemmas about those functions. JSON
marshalling, header parsing, the keyed hash, pattern matching and the byte
framing of entries are function-valued parameters (`Codec`, `Library`, `Mac`,
`Framing`, `Setup`), so every result holds for any of them; the few laws a
result needs of one (`Lawful`, `DocsLawful`) are written in its `requires`.

Some things the proofs turned up:

- A test token that starts with `*` without being `*` is taken for a wildcard
  (stream_query.go:566-569); subset matching is exact, and survives obfuscation,
  for precisely the test subjects without one.
- A consumer whose name path cleaning changes is written under another name, so
  the archive is not a backup of what was kept (backup/encoder.go:125-127).
  Archives decode to what was kept exactly when no name is of that kind.
- The comment on `writeKeyFile` says a crash leaves no key file to block a retry
  (backup/obfuscate.go:483-487). A crash after the key file is linked and before
  the directory is renamed leaves one, every such edit has that crash point, and
  precisely the key file left behind keeps a retry that is not given it from
  committing. The model follows the code.
- Cycle detection compares printed references, in which a slash inside a key
  looks like a separator (api/gen_dereference.go:182-184), so a cycle can be
  reported where there is none. Dereferencing succeeds precisely when following
  references ends and no chain of references comes to two that print alike.
- Empty parts of a pointer are skipped (api/gen_dereference.go:198-200), so
  nothing under an empty key can be referenced, which section 4 of RFC 6901
  allows.
- In the balancer the error return on a second failed step-down is never reached
  (balancer/balancer.go:172-178), since the first one already ends the loop over
  the server; a refused step-down also strikes the next entity off the list, unless
  the refused one was the last on it (balancer/balancer.go:192-198).
- A state with first sequence 0 makes the decoder reject every message, since
  the bound wraps to the largest sequence (backup/decoder.go:124).

## Model

| member | source | states |
|---|---|---|
| EditSpec.TwoPassRefines | backup/edit.go:370-482 | for strictly ascending sequences, what the second pass copies while asking only `Keeps` is exactly the messages that pass the stateless filters and survive the per-subject rule, in source order |
| EditLaws.FiltersExactly | backup/filter.go:44-107 | a message passes the stateless filters if and only if its sequence and time are in the ranges, no exclude pattern collides with its subject and a subject pattern does if there are any, no `noHeader` name has a value, and headers and payload are as asked for where they are asked for; otherwise the first of these that fails is the one blamed |
| EditLaws.ChosenExactly | backup/edit.go:370-482 | an edit keeps, in source order, exactly the positions whose message the options ask for and, under a per-subject rule, behind which fewer than n wanted messages of its subject stand, or for KVCompact none at all and it is no tombstone |
| EditLaws.LaterCount | backup/subjectstate.go:75-169 | what the rule counts for a subject is the number of later messages of it that are wanted |
| EditLaws.TombstoneExactly | backup/headers.go:41-51 | tombstones and lost tombstones, told by the first values of their headers |
| EditLaws.OutIsWritten | backup/edit.go:535-584 | what is written for a kept message: with obfuscation its subject and headers hidden value by value and, behind them, padding of the declared size, or on a counter stream the payload itself; without it the declared bytes of its body; time and size as they were, the sequence renumbered when asked |
| EditLaws.PayloadsDoNotShow | backup/obfuscate.go:410-426 | where padding is written, two edits whose kept messages differ in their payloads only write the same bytes |
| EditLaws.HeadAndRange | backup/edit.go:305-339 | the head declares count, size and range of what was written: 1 to the count under Renumber, else up to the larger of the last sequences the archive and the meta file of the source know; the report gives the range of the restored stream, an empty one behind the last when nothing was kept |
| EditLaws.ReportExactly | backup/edit.go:493-533 | every counter of the report is the number of source messages it stands for |
| EditLaws.OutIsEdited | backup/edit.go:107-204 | all of it together; `Editor.Editor.Run` ensures it of every edit that writes |
| EditSpec.KeptMeansSelected | backup/edit.go:436-482 | among messages with distinct sequences, a (subject, sequence) the state keeps identifies precisely a selected message |
| EditSpec.SelectedObserved | backup/subjectstate.go:75-169 | selecting messages and selecting their observations by the declarative rule agree |
| EditSpec.SelectedIsSelection | backup/edit.go:370-482 | selected messages are a subsequence of the source |
| EditSpec.SelectionPicks | backup/edit.go:436-482 | picking by membership of a subsequence gives that subsequence back, so nothing is reordered |
| EditSpec.ResolvedTotals | backup/edit.go:394-427 | the resolved counts, bytes and first sequence are those of the selected messages, and never more than passed: `passed - res.msgs` cannot underflow |
| EditSpec.Conservation | backup/edit.go:493-533 | of a source whose messages can be read by the filters, source messages are the kept ones plus all drop counts, and consumers are split into kept and dropped; `Editor.Editor.Edit` and `Editor.Editor.Run` state it of every completed edit |
| Editor.UnstuckReadable | backup/edit.go:264-301 | a source that does not stop a single pass can be read by the filters |
| Editor.ObservedReadable | backup/edit.go:370-409 | so can one the first of two passes gets through |
| EditSpec.TallyTotal | backup/edit.go:493-533 | every message either passes or is counted under one drop kind |
| EditSpec.TallyKind | backup/edit.go:493-533 | each drop count is the number of messages first rejected for that reason; filters never count against a per-subject rule |
| EditSpec.OutsAscending | backup/edit.go:320-339 | output sequences ascend strictly above the first sequence the new state declares, in uint64 arithmetic |
| EditSpec.Renumbered | backup/edit.go:535-584 | under Renumber the output sequences are exactly 1..K |
| EditSpec.AscendingCount | backup/decoder.go:165-193 | strictly ascending uint64 sequences number fewer than 2^64 and at most the last one, so renumbering cannot wrap |
| EditSpec.OutSizes | backup/edit.go:578-578 | without obfuscation the stored size of the output is that of the source messages kept |
| EditSpec.OutputHolds | backup/edit.go:231-262 | the entries an edit writes form a complete backup of what it keeps if and only if every consumer name it writes survives path cleaning |
| EditSpec.UpToEnd | backup/edit.go:264-301 | what the loops write after the whole source is the kept consumers, the kept messages, then the sentinel |
| EditSpec.SurvivorsAgain | backup/subjectstate.go:75-169 | applying a per-subject rule to its own survivors changes nothing |
| EditSpec.WrittenLooksAlike | backup/edit.go:535-584 | filters and per-subject state see in a written message what they saw in the original |
| EditSpec.EditingAgainChangesNothing | backup/edit.go:535-584 | without Renumber and Obfuscate, editing an edited backup with the same options keeps and writes exactly the same messages |
| EditSpec.EditedAgainIsSame | backup/edit.go:535-584 | hence the second edit writes the same contents, head included, and the same bytes, its meta file being the one the first edit reported |
| Editor.EditAgainSucceeds | backup/edit.go:107-204 | and it succeeds: an archive a successful edit wrote can be edited again with the same options |
| EditSpec.ArchiveRevealed | backup/obfuscate.go:78-94 | a token map that knows what an edit hashed reveals every written subject, rewritten header value, consumer name and identifying consumer field |
| EditSpec.NeedsOfItems | backup/edit.go:264-301 | what the loops hash over a whole source is what the written consumers and kept messages hash |
| Editor.Editor.Evaluate | backup/edit.go:493-518 | counts the message, passes it exactly when no stateless filter rejects it, and fails exactly when a filter needs a body that is too short or headers that do not parse; what the filters ask is `EditLaws.FiltersExactly` |
| Editor.Editor.Drop | backup/edit.go:520-533 | counts the rejection under its kind, and a tombstone a content filter removed |
| Editor.Editor.WriteMessage | backup/edit.go:535-584 | writes the output form with the whole body whatever prefix the filters read, and advances kept count, bytes, first sequence and known tokens by it; fails exactly when the message cannot be read or a token of it collides |
| Editor.Editor.ObfuscateMessage | backup/edit.go:540-563 | the obfuscated form of a message, subject and headers rewritten and the payload replaced by padding unless the stream holds counters; refused exactly when headers or payload cannot be read or two tokens have the same hash; afterwards all its tokens are known; that nothing else of the message is left is `EditLaws.OutIsWritten` |
| Editor.Editor.WriteConsumer | backup/edit.go:350-362 | writes the consumer entry, obfuscated when asked; refused exactly when two tokens have the same hash; afterwards all its tokens are known |
| Editor.Editor.KeepStep | backup/edit.go:535-584 | after every message written, counts, entries and known tokens are those of the items read so far: what has been written holds known tokens only |
| Editor.Editor.ConsumerStep | backup/edit.go:341-362 | the same after every consumer |
| Editor.Editor.WriteState | backup/edit.go:305-316 | reserves the head of the archive, failing only when the state does not fit |
| Editor.Editor.SinglePass | backup/edit.go:264-301 | one reading: the counters are those of the items read, the entries written those of the messages that pass, the known tokens those of what was written; it gets through if and only if the archive is complete, no item stops it and no tokens collide |
| Editor.Editor.FirstPass | backup/edit.go:370-409 | the resolving pass observes exactly the passing messages, in order |
| Editor.Editor.SecondPass | backup/edit.go:436-482 | the copying pass writes the messages the state keeps, of whatever the second reading yields; on an unchanged source the "source changed during the edit" check never fires |
| Editor.Editor.ResolvePass | backup/edit.go:370-427 | after `Resolve` the counters, drop counts and totals are those of the messages chosen by filters and rule |
| Editor.Editor.CopyPass | backup/edit.go:428-482 | rewinds and copies: what was written is the kept messages and the consumers of the second reading, with the resolved totals; on an unchanged source it succeeds if and only if it can rewind and no item or collision blocks it |
| Editor.Editor.RunTwo | backup/edit.go:370-482 | both passes, with what was resolved on the first reading and taken from the second; a plain dry run stops after the first with the same totals |
| Editor.Editor.Patch | backup/edit.go:231-262 | overwrites the reserved head with the final totals: the file is the head of the exact state followed by the entries |
| Editor.Editor.Result | backup/edit.go:630-670 | the report and the state for the meta file, equal to the declarative report whether or not anything was written, so a dry run reports what a real run does |
| Editor.Editor.Edit | backup/edit.go:231-262 | the passes succeed on an unchanged source if and only if it is a complete backup, no item of it stops them and no tokens collide; whatever a second reading yields, a completed edit read readable messages only, source messages are kept plus dropped, and what was written is what it took from the second reading |
| Editor.Editor.Run | backup/edit.go:107-204 | a whole edit: the report is the declarative report and conserves messages, the file is the declarative output and holds what the options ask for, each message and consumer in its written form with head and range to match (`EditLaws.Edited`), the token map ends up knowing exactly what was hashed besides what it knew, and it succeeds exactly when the source can be edited and the new head fits |
| Editor.Editor.KeyFileReveals | backup/obfuscate.go:483-532 | from a run on, the map that the key file stores reveals every subject of the archive written and every name and identifying field of its consumers |
| SubjectState.KvCompactState.Observe | backup/subjectstate.go:88-93 | the slot map keeps describing the whole history of observations |
| SubjectState.KvCompactState.Resolve | backup/subjectstate.go:95-104 | counts, bytes, subjects and least sequence of the last observation of each subject that is no tombstone |
| SubjectState.KvCompactState.Keeps | backup/subjectstate.go:106-109 | true exactly for the surviving observations |
| SubjectState.LastPerSubjectState.Observe | backup/subjectstate.go:135-149 | overwriting at the cursor keeps every ring holding the last n observations of its subject |
| SubjectState.LastPerSubjectState.Resolve | backup/subjectstate.go:151-160 | counts, bytes, subjects and least sequence of the last n observations of each subject |
| SubjectState.LastPerSubjectState.Keeps | backup/subjectstate.go:162-169 | true exactly for the last n observations of a subject |
| SubjectState.PushHolds | backup/subjectstate.go:135-149 | one push: a ring holding the last n still does, and the cursor stays inside it |
| SubjectState.CursorAtOldest | backup/subjectstate.go:135-149 | once the ring is full the cursor points at the oldest of the last n |
| SubjectState.RingMember | backup/subjectstate.go:162-169 | a sequence is in the ring exactly when it is among the last n |
| SubjectState.SurvivorsOfSubject | backup/subjectstate.go:75-169 | the survivors of a subject depend on that subject's observations alone |
| SubjectState.SubjectTracker.Resolve | backup/subjectstate.go:68-73 | either rule, chosen at construction, resolves to its survivors |
| SubjectState.SubjectTracker.Keeps | backup/subjectstate.go:68-73 | either rule keeps exactly its survivors |
| Filter.MsgBody.Prefix | backup/filter.go:117-128 | the first n bytes of the body whatever was read before, or an error on a shorter body |
| Filter.MsgBody.Headers | backup/filter.go:131-146 | the parsed header section, cached, whatever prefix was read |
| Filter.MsgBody.Payload | backup/filter.go:148-154 | the payload after the headers, whatever prefix was read |
| Filter.MsgBody.Reader | backup/filter.go:156-161 | the whole original body, the buffered prefix included |
| Encoder.SkipWriter.Write | backup/encoder.go:95-113 | however a preamble is split across writes exactly its length is dropped and the rest passes through |
| Encoder.SkipWriter.Copy | backup/encoder.go:95-113 | the same when a body is streamed in chunks of any size |
| Encoder.HeadSizeFixed | backup/encoder.go:56-83 | two heads of one archive have the same length whatever the states, so patching never moves what follows |
| Encoder.HeadThenEntries | backup/encoder.go:56-91 | a head followed by framed entries reads back as a state entry and exactly those entries |
| Encoder.Encoder.WriteHeader | backup/encoder.go:130-208 | the first entry is preceded by the preamble, later ones are not |
| Encoder.Encoder.WriteEntry | backup/encoder.go:197-208 | appends exactly one entry to what has been written |
| Encoder.Encoder.WriteConsumer | backup/encoder.go:125-127 | appends the entry of a consumer under its joined path |
| Encoder.Encoder.WriteMessage | backup/encoder.go:130-154 | appends the message trimmed to its declared sizes, and fails exactly on a shorter body |
| Encoder.Encoder.WriteEnd | backup/encoder.go:182-184 | appends the sentinel |
| Encoder.Encoder.Output | backup/encoder.go:88-91 | what reaches the writer is the framed entries without the preamble |
| Encoder.ConsumerReadsBack | backup/encoder.go:125-127 | a consumer entry is read back under the same name if and only if the name survives path cleaning |
| Encoder.WrittenHolds | backup/encoder.go:182-208 | state, consumers, ascending messages and sentinel form a complete backup if and only if every consumer name survives path cleaning |
| Paths.CleanFixed | backup/encoder.go:125-127 | joining a name below a directory leaves it alone exactly when none of its components is empty, `.` or `..` |
| Paths.JoinBelowRoundTrip | backup/decoder.go:134-145 | cutting the directory off a joined name gives the name back exactly under the same condition |
| Decoder.Decoder.Next | backup/decoder.go:68-102 | one call: item, error or EOF, and every field of the new state |
| Decoder.Decoder.DecodeState | backup/decoder.go:104-132 | the state step, with `first_seq - 1` wrapping in uint64 |
| Decoder.Decoder.DecodeConsumer | backup/decoder.go:134-163 | the consumer step and its errors |
| Decoder.Decoder.DecodeMessage | backup/decoder.go:165-193 | the message step: sentinel, order check, item |
| Decoder.DecoderAcceptsExactly | backup/decoder.go:85-193 | decoding completes if and only if the entries are a state, exactly the declared consumers, strictly ascending messages above `first_seq - 1`, then a sentinel |
| Decoder.HoldsDecodes | backup/decoder.go:85-193 | a complete backup decodes to exactly its items |
| Decoder.DecodesHolds | backup/decoder.go:85-193 | whatever decodes completely is a complete backup of the items returned |
| Decoder.HoldsUnique | backup/decoder.go:85-193 | an archive holds one backup at most |
| Decoder.RunBookkeeping | backup/decoder.go:68-83 | over any run phases never go back, and `LastGood` has the ordinal of the items returned so far |
| Decoder.RunStops | backup/decoder.go:68-83 | over any run errors are sticky, and after End every call returns EOF |
| Decoder.EofOnlyAfterEnd | backup/decoder.go:68-102 | EOF comes only after End was returned |
| Decoder.RunReachesEndExactly | backup/decoder.go:68-193 | some call returns End if and only if the archive is a complete backup |
| Decoder.FirstSeqZeroRejectsMessages | backup/decoder.go:118-126 | a state with first sequence 0 puts the bound at the maximum: no message is accepted |
| Decoder.ItemsReadComplete | backup/decoder.go:68-102 | the items returned before the first error are all items of a complete backup |
| Verify.Scan | backup/verify.go:120-194 | complete or not, a scan counts exactly the items read, and the last good entry it names is the last item read, with its place, kind, name and sequence |
| Verify.ScanOfContents | backup/verify.go:150-192 | of a complete backup it counts the contents, with the first and last sequence and time |
| Verify.EditedArchiveDecodes | backup/edit.go:231-262 | the file an edit writes decodes to exactly the kept consumers and messages with their bodies, if and only if every consumer name survives path cleaning |
| Verify.EditReadsBack | backup/edit.go:107-204 | read back, the file holds what the options ask for: every message kept and its written form, every consumer, and the head |
| Verify.EditedArchiveAccounts | backup/edit.go:649-654 | scanning an edited archive finds the message count and stored bytes of its patched head and of the reported state, so the declared counts are never advisory |
| Verify.SizesPositive | backup/backup.go:104-115 | stored bytes are at least the message count, so a non-empty archive never declares zero bytes |
| Archive.StoredSizes | backup/backup.go:107-115 | in memory a message occupies 16 bytes beside its own; in a file 30, and 4 more when it has headers |
| Recorder.Recorder.Write | backup/recorder.go:154-186 | records a delivery unless the recorder failed or is closed; a stream delivery without a sequence fails it for good |
| Recorder.Recorder.Record | backup/recorder.go:165-186 | one more delivery: the archive and every counter are those of the deliveries accepted; what a captured message holds is `Recorder.CapturesDeliveries` |
| Recorder.Recorder.Close | backup/recorder.go:191-241 | seals the archive once: the returned state and the file are those of exactly the captured messages |
| Recorder.ExceedsByLast | backup/recorder.go:160-170 | comparing with the last sequence decides whether a delivery exceeds all earlier ones |
| Recorder.CapturedSnoc | backup/recorder.go:154-186 | what one more delivery adds to a stream or core capture |
| Recorder.CapturedAscending | backup/recorder.go:154-186 | captured sequences ascend above the bound the closing state declares |
| Recorder.FreshAscends | backup/recorder.go:160-170 | the deliveries of a stream capture that exceed all earlier ones ascend strictly |
| Recorder.CaptureDecodes | backup/recorder.go:191-241 | a closed capture is a complete backup of what was captured |
| Recorder.CapturesDeliveries | backup/recorder.go:154-189 | the captured messages are, in order, those of the deliveries taken, each with its subject, its time, its header block in front of its data, and in a stream capture its sequence; taken are all of a core capture, and of a stream capture exactly those above all earlier ones |
| Recorder.CaptureReadsBack | backup/recorder.go:191-245 | so what is read back of a closed capture holds what was delivered, and its head declares count, size, first and last sequence of it |
| Recorder.CaptureAccounts | backup/recorder.go:191-201 | scanning a capture finds the counts Close returned, and its declared counts are never advisory |
| Recorder.StripEnvelope | backup/recorder.go:122-152 | removes the last value of each envelope header, or rejects the delivery when one is missing |
| Recorder.StripUndoesAppend | backup/recorder.go:122-152 | stripping recovers the envelope, and the stored headers exactly unless one of them is an empty list under an envelope name |
| TokenHash.Hash | backup/obfuscate.go:170-186 | the loop computes the keyed hash block by block |
| TokenHash.HashShape | backup/obfuscate.go:170-186 | a hashed token is max(16, length) characters of the base32-hex alphabet, whatever the keyed hash returns |
| TokenHash.HashIsChained | backup/obfuscate.go:170-186 | the hash is the start of the base32-hex rendering of a chain of blocks: the keyed hash of the token, then of the block before, the token and the number of the block in four big-endian bytes |
| TokenHash.KeyedHashShaped | backup/obfuscate.go:170-186 | the hash satisfies all that the laws below ask of it |
| Obfuscate.Obfuscator.Load | backup/obfuscate.go:134-168 | a key file is accepted exactly when each mapping is the hash of its original, and then its map is the reverse map |
| Obfuscate.Obfuscator.Token | backup/obfuscate.go:188-202 | one token: hashed and remembered, or refused on a collision |
| Obfuscate.TokenStepSound | backup/obfuscate.go:188-202 | forward and reverse stay mutually inverse, nothing known is lost, and a token is refused exactly when another known one has the same hash |
| Obfuscate.RunSound | backup/obfuscate.go:188-202 | the same over every sequence of tokens, with or without a loaded key file |
| Obfuscate.KnownInjective | backup/obfuscate.go:188-202 | known tokens are hashed injectively |
| Obfuscate.TokenLearns | backup/obfuscate.go:188-202 | one token goes through exactly when the known tokens and it have distinct hashes |
| Obfuscate.LearnedThen | backup/obfuscate.go:364-408 | operations in a row succeed exactly when all their tokens together do not collide, in whatever order they come |
| Obfuscate.ExtendsKeeps | backup/obfuscate.go:188-202 | what a map knows, every later map knows alike |
| Obfuscate.Obfuscator.RewriteSubject | backup/obfuscate.go:217-235 | every token but wildcards (and mapping functions where allowed) is hashed, in place; it goes through exactly when no two tokens, known or new, have the same hash, and then knows exactly the tokens it hashed besides |
| Obfuscate.Obfuscator.StreamName | backup/obfuscate.go:252-260 | a bucket prefix is kept and the rest hashed as one token; it goes through exactly when no two tokens, known or new, have the same hash, and then knows exactly the tokens it hashed besides |
| Obfuscate.Obfuscator.SubjectList | backup/obfuscate.go:237-250 | each subject of a list, in order; it goes through exactly when no two tokens, known or new, have the same hash, and then knows exactly the tokens it hashed besides |
| Obfuscate.Obfuscator.Consumer | backup/obfuscate.go:364-408 | the name and the filter, deliver and priority fields of a consumer document; it goes through exactly when no two tokens, known or new, have the same hash, and then knows exactly the tokens it hashed besides |
| Obfuscate.Obfuscator.Message | backup/obfuscate.go:427-447 | subject and header block of a message, the headers in any order; it goes through exactly when no two tokens, known or new, have the same hash, and then knows exactly the tokens it hashed besides |
| Obfuscate.Obfuscator.HeaderValue | backup/obfuscate.go:449-459 | one header value by the kind of its header; it goes through exactly when no two tokens, known or new, have the same hash, and then knows exactly the tokens it hashed besides |
| Obfuscate.TombstonesSurvive | backup/headers.go:41-50 | a message is a tombstone after obfuscation exactly when it was one before |
| Obfuscate.Reveal | backup/obfuscate.go:78-94 | whole tokens, then subjects token by token with bucket prefixes |
| Obfuscate.RevealSubject | backup/obfuscate.go:78-94 | revealing an obfuscated subject gives the subject back |
| Obfuscate.RevealWholeToken | backup/obfuscate.go:78-94 | revealing a hashed token gives the token back, dots included |
| Obfuscate.RevealStreamName | backup/obfuscate.go:78-94 | revealing an obfuscated stream name, KV and object store ones included, gives the name back |
| Obfuscate.RevealMessage | backup/obfuscate.go:78-94 | a map that knows what a message hashes reveals its subject and every rewritten header value |
| Obfuscate.RevealConsumer | backup/obfuscate.go:78-94 | a map that knows what a consumer hashes reveals its name and, field by field, the rewritten tokens and subjects of its document |
| Obfuscate.SubjectHidden | backup/obfuscate.go:217-235 | of an obfuscated subject every token is its hash, but for empty tokens, wildcards, bucket roots and, in destinations, mapping functions |
| Obfuscate.HeadersHidden | backup/obfuscate.go:421-465 | of written headers every value is hidden as its key asks; keys without values vanish |
| Obfuscate.FieldsHidden | backup/obfuscate.go:362-408 | of a written consumer document every identifying field is hidden |
| Obfuscate.MatchingPreserved | backup/obfuscate.go:217-235 | for two subjects obfuscated at any points of a run, subset matching answers the same on them and on their obfuscated forms; only the test needs stars that stand alone |
| Obfuscate.WellFormedPreserved | backup/obfuscate.go:217-235 | an obfuscated subject is well-formed, even where a token of the original merely started with `*` |
| Obfuscate.InclusionPreserved | backup/obfuscate.go:217-235 | hence the sets of literal subjects matched include each other exactly when they did before |
| Obfuscate.StarsAloneArePreserved | backup/obfuscate.go:217-235 | a test subject keeps its answers against every well-shaped subject it can be obfuscated with if and only if no token of it starts with `*` without being `*` |
| Obfuscate.StarPrefixedTestsBreak | backup/obfuscate.go:217-235 | any other test matches a well-formed subject that it no longer matches once both are obfuscated |
| Obfuscate.KnownTogether | backup/obfuscate.go:188-202 | two subjects can be known to one map exactly when their tokens have distinct hashes |
| MetaFile.RewriteConfig | backup/obfuscate.go:317-360 | a stream configuration hashed in place, mirror, sources, transforms and republish included, descriptive fields dropped; refused exactly when two tokens have the same hash, and afterwards all its tokens are known |
| MetaFile.OneUpstream | backup/obfuscate.go:279-315 | the same of a mirror or source |
| MetaFile.Sources | backup/obfuscate.go:331-338 | the same of every source, in order |
| MetaFile.Transforms | backup/obfuscate.go:262-277 | the same of subject transforms, with mapping functions left in destinations |
| MetaFile.RewriteInfo | backup/edit.go:588-604 | the same of the source block of a capture |
| MetaFile.Describe | backup/edit.go:153-178 | what an edit hashes after its last message: both go through exactly when no two tokens of either or known before have the same hash, and then all are known, so the meta file holds mapped tokens only |
| MetaFile.RevealConfig | backup/obfuscate.go:78-94 | a map that knows what a configuration hashes turns the written one back into the original, text by text, short of its descriptive fields |
| MetaFile.RevealInfo | backup/obfuscate.go:78-94 | and the source block |
| MetaFile.ConfigHidden | backup/obfuscate.go:262-360 | of a written configuration every name and subject is hidden in its place, mapping functions are left in destinations only, nothing descriptive stays and the limits do |
| MetaFile.StillBound | backup/obfuscate.go:317-330 | a configured subject matches an obfuscated message subject if and only if the original did, whichever of the two was hashed first |
| Subjects.TokenizeInto | stream_query.go:521-531 | appends exactly the dot-separated tokens of the subject |
| Subjects.IsSubsetMatchTokenized | stream_query.go:537-572 | the walk with its early returns decides the recursive matching relation |
| Subjects.SubjectIsSubsetMatch | stream_query.go:506-510 | the same on subjects |
| Subjects.SubsetMatchExact | stream_query.go:506-572 | the answer is true if and only if every literal subject matched by the first is matched by the second; both have tokens that are not empty and `>` last only, and only the second needs stars that stand alone |
| Subjects.Sound | stream_query.go:537-572 | one half: a word accepted by the subset is accepted by the superset |
| Subjects.WordsComplete | stream_query.go:537-572 | the other half: a false answer has a literal subject to show for it |
| Subjects.SubsetMatchReflexive | stream_query.go:506-572 | matching is reflexive on well-formed subjects |
| Subjects.SubsetMatchTransitive | stream_query.go:506-572 | and transitive |
| Subjects.StarPrefixedTokenIsNotLiteral | stream_query.go:566-569 | a test token that only starts with `*` is treated as a wildcard, although it matches literally |
| Subjects.StarsAloneIsExact | stream_query.go:566-569 | a test subject gets exact answers against all well-shaped subjects if and only if no token of it starts with `*` without being `*`; otherwise it errs about one that is well-formed |
| Target.CrashSafe | backup/target.go:25-162 | after a crash at any point of any run the target is absent, the empty directory it was, or a complete backup; after the commit it is exactly the backup written |
| Target.KeyBeforeBackup | backup/obfuscate.go:483-532 | an obfuscated backup is never visible before a key file holding every hashed token of its archive and meta file; that only mapped tokens are written is what `Editor.Editor.KeepStep`, `Editor.Editor.ConsumerStep` and `MetaFile.Describe` keep |
| Target.FoundKeyKept | backup/obfuscate.go:483-532 | a key file not given as input is never touched and blocks the commit; one given as input never loses a mapping |
| Target.FailureLeavesNothing | backup/edit.go:153-201 | a failed edit leaves of staging directory, temporary and new key file precisely what it was refused to remove, and the target as it was unless the empty directory was removed for a rename that failed |
| Target.NothingSpared | backup/edit.go:153-201 | where no removal is refused nothing of that is left |
| Target.CrashLeavesKey | backup/obfuscate.go:483-532 | a crash of an obfuscated edit that found no key file leaves one if and only if it comes between the placing of the key file and the end of a failed commit, or after a failed commit whose removal of it was refused |
| Target.CanCommitExactly | backup/edit.go:153-201 | an edit can commit if and only if it does not run into a key file that was not given to it |
| Target.CommitsByClearing | backup/target.go:136-162 | where the rename over the empty directory is refused, an edit can commit by removing it first |
| Target.CrashBlocksRetryExactly | backup/obfuscate.go:483-532 | a retry that is not given the key file left behind can commit if and only if the crash left none |
| Target.CrashCanBlockRetry | backup/obfuscate.go:483-532 | every obfuscated edit that finds no key file has a crash point that leaves a key file and no backup |
| Target.RunKeeps | backup/edit.go:153-201 | the invariant of the protocol over every run |
| Balancer.Balancer.Balance | balancer/balancer.go:135-208 | over all runs, failures and choices each entity is asked to step down at most once, a server gives away at most its initial surplus, and the number returned is that of the moves and at most the total surplus; when moves never fail the first run moves exactly the total surplus, every leader count ends at or below the share, and later runs move nothing |
| Balancer.MovesWithinSurplus | balancer/balancer.go:135-208 | the bound on the moves of all runs together, whatever is refused and however often offsets are recalculated |
| Balancer.Balancer.Run | balancer/balancer.go:137-205 | one run keeps the offset sum, no donor drops below zero and no receiver rises above it, and the surplus shrinks by exactly the moves made |
| Balancer.Balancer.Relieve | balancer/balancer.go:139-199 | the inner loops end since every continuing round removes an entity, and the error return on a second failure in a row is never reached |
| Balancer.Balancer.Round | balancer/balancer.go:159-198 | a refused step-down strikes the entity off and, unless it was the last on the list, the one behind it as well; finding no taker strikes off the entity only; success moves it |
| Balancer.Balancer.FindReceiver | balancer/balancer.go:159-190 | asks a server below its share that replicates the entity and does not lead it, if there is one, in any order |
| Balancer.Balancer.StepDown | balancer/balancer.go:168-190 | success moves one unit of offset and strikes the entity off; failure only strikes it off |
| Balancer.MoveSafe | balancer/balancer.go:182-190 | a move keeps the safety invariant of all runs |
| Balancer.FailSafe | balancer/balancer.go:172-178 | so does a refused step-down |
| Balancer.MoveRunning | balancer/balancer.go:182-190 | a move keeps the invariant of a run |
| Balancer.RecalculateSafe | balancer/balancer.go:239-243 | resetting the offsets after a run keeps the safety of all runs, although moved entities are on no list |
| Balancer.SomeReceiver | balancer/balancer.go:159-190 | while the offsets do not sum above zero a donor always has someone to give to |
| Balancer.DistributionBound | balancer/balancer.go:220-237 | servers times the share is exactly the entities where the servers divide them, and otherwise exceeds them by at least half and less than one and a half per server |
| Balancer.OneShareFits | balancer/balancer.go:220-237 | only one number is such a share |
| Balancer.CalcClusterDistribution | balancer/balancer.go:220-237 | computes the share of the entities listed, the one number that fits |
| Balancer.ShareFlows | balancer/balancer.go:220-243 | with that share and steady information moves never stall |
| Balancer.Settles | balancer/balancer.go:135-208 | a run that leaves no server above its share moved exactly the total surplus |
| Balancer.IsInPeerGroup | balancer/balancer.go:210-218 | whether a server replicates an entity |
| Balancer.Group | balancer/balancer.go:84-133 | files one entity under its cluster and leader, and adds its replicas as servers |
| Balancer.GroupAll | balancer/balancer.go:84-133 | the whole grouping: each server leads exactly the entities whose leader it is, in order, leaderless ones are on no list, and every replica is a server |
| Balancer.LedFound | balancer/balancer.go:84-118 | a server leads exactly the entities found with it as leader |
| Balancer.NamedFound | balancer/balancer.go:84-133 | the servers of a cluster are exactly the leaders and replicas found in it |
| Balancer.GroupedDistinct | balancer/balancer.go:84-133 | distinct entities are listed once |
| Rebalance.GroupLooked | balancer/balancer.go:265-270 | looks every entity up and groups them, or stops at the first that cannot be looked up |
| Rebalance.ShareAll | balancer/balancer.go:272-279 | the share and the offsets of every cluster |
| Rebalance.BalanceCluster | balancer/balancer.go:282-290 | from distinct found entities, in one cluster: no entity asked twice, only leaders asked, no server gives away more than it led above the share, and the number returned is at most the surplus of the cluster; in a steady, fully replicated world the whole surplus moves and no server ends above the share |
| Rebalance.BalanceAll | balancer/balancer.go:256-293 | the same of every cluster found, with the number of moves returned, which is at most the surplus of all clusters; an entity that cannot be looked up ends the call before anyone is asked, and nothing else fails |
| Rebalance.AskedOnceInAll | balancer/balancer.go:256-293 | over all clusters together every entity is asked to step down at most once |
| ApiSubject.APISubject | jsm.go:157-177 | prefix or domain put in front of an API subject |
| ApiSubject.StripAPISubject | jsm.go:184-222 | the prefix or domain removed at a token boundary only |
| ApiSubject.StripUndoesPrefix | jsm.go:157-222 | stripping undoes prefixing for `$JS.API` and everything below it |
| ApiSubject.PrefixUndoesStrip | jsm.go:157-222 | prefixing undoes stripping of every subject but those of the API that the prefix would have changed |
| ApiSubject.StripFailsOffBoundary | jsm.go:157-222 | a subject that only starts with the letters `$JS.API` is not recovered, save when nothing was put in front |
| ApiSubject.NormalizeAPISubject | registry/subjects.go:37-77 | the token scan computes the normal form |
| ApiSubject.NormalizedExactly | registry/subjects.go:37-77 | what every subject normalises to, told by its tokens: in `$JS` a subject of the API stays, one of a domain loses the domain and any other is refused; elsewhere what precedes the first verb behind the first token is replaced, and without one the subject is refused |
| ApiSubject.NormalizeUndoesPrefix | registry/subjects.go:37-77 | for a known-verb subject and any prefix, normalising undoes prefixing if and only if the prefix is the API's own or a domain's, when it is in `$JS`, or else no later token of it is a verb the scan stops at |
| ApiSubject.NormalizeUndoesDomain | registry/subjects.go:37-77 | for a domain, normalising undoes prefixing if and only if the domain is free of dots and not `API` |
| Dereference.ParseRef | api/gen_dereference.go:186-212 | reads a $ref: the file relative to its base, the pointer parts unescaped, empty parts skipped; which file and keys those are is `Dereference.PointerRoundTrip` |
| Dereference.PointerRoundTrip | api/gen_dereference.go:186-212 | from the file `n` in a directory, the escaped pointer behind k times `../` and a path is read as the same keys in the file that path names from the directory less its last k components, if and only if no key is empty (section 4 of RFC 6901 allows empty keys) |
| Dereference.PointerRoundTripHere | api/gen_dereference.go:186-212 | without a file the reference is read in the file it is in |
| Paths.RelativeName | api/gen_dereference.go:190-194 | what a relative name means in a file: from the directory of the file up k levels, then down; past the root steps up remain |
| Dereference.WalkFollows | api/gen_dereference.go:214-235 | a walk ends at a node if and only if a trail of first fields under the keys leads there |
| Dereference.LeftOfTarget | api/gen_dereference.go:291-302 | following a reference strictly shrinks the set of references left, the measure by which dereferencing ends |
| Dereference.WalkWords | api/gen_dereference.go:214-235 | what is resolved lies inside the document |
| Expansion.DereferenceExact | api/gen_dereference.go:237-325 | dereferencing yields a tree if and only if following references with no cycle check comes to an end with that tree and no chain of references comes to two that print alike; for all documents, keys and files |
| Expansion.RevisitIsError | api/gen_dereference.go:287-305 | a chain of references, from wherever in the tree, that comes back to a printed one is an error |
| Expansion.FlatUnrepeated | api/gen_dereference.go:287-305 | one half: what dereferences has no such chain, starting from any references being resolved |
| Expansion.ChainDistinct | api/gen_dereference.go:287-305 | where following references ends, no chain comes back to a reference |
| Expansion.ApartIsExact | api/gen_dereference.go:287-305 | where the references that can be reached print apart, dereferencing yields a tree if and only if following references ends with it: a cycle is reported only where following never ends |
| Expansion.FlatExpands | api/gen_dereference.go:237-325 | what dereferencing yields is the expansion to a depth of at most the number of distinct references |
| Expansion.ExpandFlattens | api/gen_dereference.go:287-305 | the other half: an expansion that ends is found where no chain repeats a printed reference or comes to one being resolved |
| Expansion.PrintInjective | api/gen_dereference.go:182-184 | references without slashes in keys or `#` in the file name print apart |
| Expansion.PlainPrintsApart | api/gen_dereference.go:182-184 | where no file name holds `#` and no $ref holds `~1`, no two references print alike |
| Expansion.AliasedReportsCycle | api/gen_dereference.go:291-295 | two different references that print alike are reported as a cycle although following them ends |
| Expansion.FlatGood | api/gen_dereference.go:237-325 | on success no $ref remains at any depth and keys stay distinct |
| Expansion.DereferencedForGood | api/gen_dereference.go:237-325 | dereferencing a result again, against any documents, file and stack, is the identity |
| Expansion.LocalKeysWin | api/gen_dereference.go:237-242 | keys beside a $ref come first in their order and win; then the keys only the definition has, in its order and with its values |
| Loader.Loader.Load | api/gen_dereference.go:83-105 | the cache never shows: a file is what is on disk |
| Loader.Loader.Resolve | api/gen_dereference.go:214-235 | follows the pointer key by key, with its errors |
| Loader.InCycle | api/gen_dereference.go:291-295 | whether a reference prints like one being resolved |
| Loader.AddMissing | api/gen_dereference.go:312-318 | appends the definition's keys the object lacks, in order |
| Loader.Loader.Dereference | api/gen_dereference.go:244-325 | the recursive method computes the declarative result, errors included |
| Loader.Loader.DereferenceTarget | api/gen_dereference.go:281-305 | parses, checks for a cycle, resolves and dereferences a definition |
| Loader.Loader.Compile | api/gen_dereference.go:450-478 | loads, dereferences and prints one schema |
| Loader.CompiledReadsBack | api/gen_dereference.go:450-478 | a compiled schema read again is the expansion of its source, free of $ref, and compiling it again gives the same text |
| JsonTree.Object.Set | api/gen_dereference.go:55-61 | a new key goes last, a known one keeps its place |
| JsonTree.Object.Get | api/gen_dereference.go:63-66 | the value under a key |
| JsonTree.Printer.WriteString | api/gen_dereference.go:418-448 | appends the quoted string |
| JsonTree.Printer.Encode | api/gen_dereference.go:329-410 | appends the printed tree |
| JsonReader.StringReadsBackFrom | api/gen_dereference.go:418-448 | unescaping as section 7 of RFC 8259 asks undoes the escaping of every string |
| JsonReader.QuoteIsClean | api/gen_dereference.go:418-448 | a quoted string holds no raw control character |
| JsonReader.NumberReadsBack | api/gen_dereference.go:391-393 | a number literal is read back unchanged |
| JsonReader.ShowReadsBack | api/gen_dereference.go:329-448 | the printed tree, followed by anything, is read as its tokens followed by what the rest is read as |
| JsonReader.PrintedReadsBack | api/gen_dereference.go:329-448 | printing and reading back gives the same tree, key order and number literals included, and the text is JSON with commas and colons where the grammar wants them |
| JsonReader.PrintingIsInjective | api/gen_dereference.go:329-448 | trees that print alike are equal |
| JsonReader.TokenReader.Decode | api/gen_dereference.go:107-174 | the token loops build the value that comes first and leave the rest unread |
| JsonReader.ValueReadsBack | api/gen_dereference.go:116-174 | the tokens of a tree build that tree |
| JsonReader.ParsedIsProper | api/gen_dereference.go:116-174 | whatever is read has distinct keys at every depth and valid number literals |

## Left out

- s2 compression and the byte layout of entries: `Framing` is a parameter with a law saying that framed entries are read back.
- JSON marshalling of states and consumers, header block parsing and encoding (`encodeHeaders`), regexp and subject collision matching, the list of control and subject-valued header names, SHA-256 and HMAC: parameters.
- Reading errors of the underlying files: an archive is the sequence of entries a reader yields; a truncated one is a shorter sequence.
- Overflow of message and byte counters: they are natural numbers. Sequence numbers are uint64 with their wrap.
- The subject counters (approximate by hash), `Stats`, warnings, progress callbacks, the age filter's clock and the source digest.
- Editor.Editor.Run: the head and the report of an edit whose source changed between its two readings; `Editor.Editor.Edit` says what such an edit wrote and counted.
- Verify.EditedArchiveDecodes: takes from the codec and the framing that they read back what they wrote.
- MetaFile.RewriteConfig: absent lists are empty lists, and the fields that are dropped or that stay are one string each; `Editor` and `MetaFile.Describe` are separate calls on one token map.
- Target.CrashSafe: file data is taken to survive a crash only once synced, directory entries in the order they were made, so the directory syncs are steps without effect; refusing a target that is not an empty directory comes before the first step.
- Recorder.CaptureDecodes: a core capture is bounded by the 2^64 sequences it can number.
- Balancer.DistributionBound: over the reals; rounding of float64 division is not modelled.
- Rebalance.BalanceAll: convergence is stated for step-downs that never fail and leader information that matches the grouping; with failures only safety holds.
- Loader.Loader.Load: a file is a tree or cannot be read; parsing is `JsonReader`, and files are named by their cleaned path.
- JsonTree.Printer.Encode: where lines break and how far they are indented is what `Show` says; that it is white space readers skip is all that is proved of it.
- JsonReader.QuoteReadsBack: strings are sequences of Unicode scalar values; invalid UTF-8, which the printer replaces, and surrogate escapes, which it never writes, are not modelled.
- The tokenizer's checks of where separators stand belong to the standard library; `JsonReader.Lex` keeps separators and the builder skips them.
- Request plumbing, pagers, gap detection, monitoring, audit checks, connection balancing and contexts: other parts of the repository, with simpler properties.
