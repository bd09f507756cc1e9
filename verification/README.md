# Verified model of the evaluation command

This project models, in Dafny, the parts of the repository whose guarantees span several functions or a
whole run: the isolation of the terminal around a command, the bootstrap that judges and delivers its
status, the protocol by which a result directory becomes final, the canonical encoding of ego plans, the
streaming accumulators of the evaluation, and the rounding of nested timed intervals.

| file | component |
|---|---|
| `Transcript.dfy`, `Terminal.dfy` | the bounded transcript and `capture_terminal`, a process with a descriptor table and a script of faults |
| `Text.dfy`, `Order.dfy`, `Json.dfy`, `JsonLimits.dfy`, `CanonicalJson.dfy`, `Dumping.dfy`, `Dicts.dfy` | texts with lone surrogates, the JSON printer and parser of RFC 8259 with Python's additions and limits, the canonical rule |
| `Freeze.dfy` | freezing an arbitrary object graph |
| `Framing.dfy`, `PlanSpec.dfy`, `Plan.dfy`, `PlanFields.dfy`, `PlanJoined.dfy` | hashed bytes and their readers, intervention and audit records, the plan envelope, what a reader finds in it, what comes back of it |
| `Status.dfy`, `StatusFields.dfy`, `StatusCodes.dfy`, `Bootstrap.dfy` | status emitters, their validator, what a status says under each key, the bootstrap around an arbitrary command |
| `Reservation.dfy`, `Preregistration.dfy`, `Lifecycle.dfy`, `Readings.dfy`, `Invalidation.dfy`, `Reachability.dfy`, `Chain.dfy` | one-shot reservations, sealing before outcomes, the life of a result directory, what its success was verified against, how it fails, predecessor gates |
| `Common.dfy`, `Vocabulary.dfy` | optional results, byte strings, and the names several components share |
| `Scorecard.dfy`, `Sorting.dfy`, `Parity.dfy` | streaming accumulators against their batch functions |
| `Timing.dfy` | ceilings of disjoint intervals and the slack of the consistency gates |

Operations the program carries out by changing state are methods of classes, or methods with loops, each
proved against a function of its inputs or of the old state; computations are functions. Whatever the
operating system, another thread or a foreign callback may do is a parameter: a script of answers, a list
of actions, a list of steps. A statement for all scripts is a statement for every pattern of faults.

Seven properties that the code suggests do not hold without a condition. Each has a lemma with a concrete
input and the exact condition:

| suggested | fails for | holds exactly |
|---|---|---|
| both ends of the transcript pipe are closed | `Terminal.LeakHappens` | unless `Terminal.WriterLeaks` |
| a plan comes back from its own bytes | `PlanJoined.LoneSurrogatesJoin`, `PlanJoined.JoinedKeysAreRefused` | without adjacent surrogates (`Plan.SerializeDeserialize`); otherwise `PlanJoined.WhatComesBack` |
| an emitted failure is accepted | `Status.DoubledSlashIsRefused` | for a normalised marker (`Status.RejectionAcceptedIff`) |
| a bootstrap that does not succeed invalidates | `Bootstrap.NaNEscapes` | unless the validator raises (`Bootstrap.EscapesIff`, `Status.RaisedIff`) |
| process status 0 is a success | `Bootstrap.RejectionWraps` | unless the return code wraps (`Bootstrap.StatusZeroIff`) |
| the status is all there is on the console | `Bootstrap.SavedCopySpeaks` | unless the saved copies were told something (`Bootstrap.OnlyTheStatusIff`) |
| a failed marker can be written again | `Reservation.TornWrite` | when its bytes were all in (`Reservation.TornWrite`) |

`dafny verify dfyconfig.toml` checks the whole project.

## Model

| member | source | states |
|---|---|---|
| `Terminal.Process.CaptureTerminal` | evalsim/cli/_terminal.py:268-464 | which calls fail and what the callback does settle everything: the commit runs exactly for a silent callback that returned when none of the 25 calls before the gate failed; with a commit, a normal return if and only if it ran and returned; each cause of failure exactly; the terminal gets what other threads said up to the callback and, unsealed, what a restored stream hears from its own restoring call on, and not a byte more; where each stream is bound at the end, entry and inheritability: unsealed where it began unless its own restoring call failed, otherwise at the null device unless its own sink call failed; every descriptor opened is closed once, handed over, or is one of three named exceptions, each with its exact fault pattern |
| `Terminal.SealedStream` | evalsim/cli/_terminal.py:357-380 | a sealed stream that neither callback nor commit closed ends at the null device exactly when the sink opened and its own call succeeded, or the sink has its number, and it keeps the inheritability it began with |
| `Terminal.Concluded` | evalsim/cli/_terminal.py:441-464 | the choice of outcome at the end realises the all-or-nothing guarantee from what the capture did |
| `Terminal.TroubleNeedsAFault` | evalsim/cli/_terminal.py:357-426 | without a fault the drain thread ends, nothing keeps the read end, and both streams come back |
| `Terminal.SilentAtGate` | evalsim/cli/_terminal.py:399-413 | an empty transcript is that of a callback that wrote nothing |
| `Terminal.Process.RunIsolated` | evalsim/cli/_terminal.py:319-413 | callback, drain and commit gate with both streams in the pipe: a fault is exactly a failing call among seven, the transcript is exactly what callback and other threads wrote, and the terminal gets nothing |
| `Terminal.Process.Gate` | evalsim/cli/_terminal.py:399-413 | the commit is called for a returned value, an empty transcript and no capture fault, and not otherwise |
| `Terminal.Process.SealAndDrain` | evalsim/cli/_terminal.py:357-398 | sealing before draining keeps both streams away from the terminal and accounts for the sink; the drain thread ends exactly when no stream and no write end is left, or by its stop |
| `Terminal.Process.Restore` | evalsim/cli/_terminal.py:414-426 | each stream is bound to what it was exactly unless its own restoring call failed |
| `Terminal.Process.SafeDupPair` | evalsim/cli/_terminal.py:104-124 | both copies or none: a failed second copy closes the first |
| `Terminal.Process.OpenTranscriptPipe` | evalsim/cli/_terminal.py:178-192 | the pipe is returned or both ends are closed, except that the write end is lost exactly in the pattern `WriterLeaks` |
| `Terminal.LeakNeedsTwoFaultsInARow` | evalsim/cli/_terminal.py:178-265 | losing the write end takes two failing calls in a row |
| `Terminal.LeakHappens` | evalsim/cli/_terminal.py:178-265 | a concrete fault pattern that loses it |
| `Terminal.ReadyToUnwind` | evalsim/cli/_terminal.py:389-440 | the books after the callback: what is left to close once the private descriptors are gone is the status copies, a stuck reader and a sink in a stream's place |
| `Transcript.BoundedTranscript.Drain` | evalsim/cli/_terminal.py:193-232 | whatever the events, what is retained is the bounded prefix of the stream and `truncated` holds exactly when the stream was longer |
| `Transcript.BoundedTranscript.Retain` | evalsim/cli/_terminal.py:218-232 | one read keeps what fits and notes what does not |
| `Transcript.BoundedTranscript.RetainedPayload` | evalsim/cli/_terminal.py:148-154 | the payload is the bounded prefix with its mark, and its own bound check never fires |
| `Transcript.PayloadIsBounded` | evalsim/cli/_terminal.py:148-154 | the payload is within the maximum, and empty exactly when the stream was |
| `Transcript.ChunkingIsInvisible` | evalsim/cli/_terminal.py:193-232 | splitting a read anywhere changes neither the stream nor how draining ends |
| `Transcript.IdleTurnsAreInvisible` | evalsim/cli/_terminal.py:193-232 | turns without data change nothing, wherever they fall |
| `Transcript.EverythingArrives` | evalsim/cli/_terminal.py:193-232 | chunk after chunk is received until the loop ends, and what ended it is reported |
| `Transcript.WriteAll` | evalsim/cli/_terminal.py:467-490 | delivery succeeds exactly when the calls up to the first that ends the loop take all of the payload, and exactly what they took went out |
| `Transcript.InterruptionsAreInvisible` | evalsim/cli/_terminal.py:477-482 | interrupted calls are retried: wherever they fall they change nothing |
| `Text.FuseIsIdentityIff` | evalsim/contracts/counterfactual.py:177-187 | a text survives JSON writing and reading exactly when it has no high surrogate directly before a low one |
| `Text.ReadUnitsEscaped` | evalsim/contracts/counterfactual.py:177-187 | escaped UTF-16 units are read back exactly, whatever they are |
| `Text.UnitsJoined` | evalsim/contracts/counterfactual.py:177-187 | joining loses no unit: a text that was read is written again as it was |
| `Json.ReadPrinted` | evalsim/contracts/counterfactual.py:177-187 | parsing a printed value gives it back with its surrogate pairs joined, and leaves what follows it |
| `Json.LinesPrefixFree` | evalsim/cli/m6_official.py:1446-1456 | no printed line is a proper prefix of another |
| `CanonicalJson.SettleIsCanonical` | evalsim/contracts/counterfactual.py:171-187 | whatever was read, freezing and key sorting give a canonical value |
| `CanonicalJson.DecodeAccepts` | evalsim/contracts/counterfactual.py:939-948 | the accepted texts are exactly the printed canonical dicts without an adjacent surrogate pair |
| `CanonicalJson.PrintInjective` | evalsim/contracts/counterfactual.py:177-187 | equal canonical texts come from equal values, up to joining surrogate pairs |
| `CanonicalJson.RoundTripIff` | evalsim/contracts/counterfactual.py:935-948 | a canonical dict is read back as itself if and only if it has no adjacent surrogate pair |
| `Freeze.Freezer.FreezeJson` | evalsim/contracts/counterfactual.py:110-160 | the recursive copy over a possibly cyclic object graph terminates, succeeds exactly where the specification does and leaves the active set as it was |
| `Freeze.FreezeSucceedsIff` | evalsim/contracts/counterfactual.py:110-160 | freezing succeeds exactly when no reachable object is on a cycle, no reachable key is bad and no reachable leaf is foreign or non-finite; sharing is no obstacle |
| `Freeze.FreezeFailsIff` | evalsim/contracts/counterfactual.py:110-160 | it fails exactly along a path that ends at something inadmissible or at an active container |
| `Freeze.LongPathFails` | evalsim/contracts/counterfactual.py:113-127 | a path longer than the containers left cannot avoid the active set |
| `Freeze.ThawRecovers` | evalsim/contracts/counterfactual.py:163-168 | thawing what was frozen gives the JSON value the object stands for |
| `Freeze.ThawFreezeIff` | evalsim/contracts/counterfactual.py:110-168 | freeze then thaw computes the one JSON value of an object exactly when it has one |
| `Freeze.SurvivesIff` | evalsim/contracts/counterfactual.py:110-168 | the values that come out of freezing and thawing some object are exactly the JSON values without NaN, infinities and empty keys |
| `Freeze.LeafSurvives` | evalsim/contracts/counterfactual.py:150-160 | a leaf, plain or out of NumPy, survives exactly when it is a finite JSON leaf |
| `PlanSpec.MadeSpecIsValid` | evalsim/contracts/counterfactual.py:252-290 | whatever its arguments, a constructed spec is a fixed point of the constructor |
| `PlanSpec.SpecRoundTrip` | evalsim/contracts/counterfactual.py:325-356 | a spec is rebuilt from its own dict |
| `PlanSpec.SpecDictKept` | evalsim/contracts/counterfactual.py:332-356 | a canonical spec dict is the dict of its own spec exactly when doses were floats, texts stripped and the fingerprint given |
| `PlanSpec.ConfigurationInjective` | evalsim/contracts/counterfactual.py:298-323 | the hashed configuration bytes determine every field of the spec |
| `PlanSpec.MadeAuditIsValid` | evalsim/contracts/counterfactual.py:368-410 | a constructed audit is a fixed point of its constructor |
| `PlanSpec.AuditRoundTrip` | evalsim/contracts/counterfactual.py:435-466 | an audit is rebuilt from its own dict |
| `Plan.MaskFromIff` | evalsim/contracts/counterfactual.py:880-920 | a mask text decodes to a mask exactly when it is that mask's lower-case hexadecimal |
| `Plan.TensorFromIff` | evalsim/contracts/counterfactual.py:880-920 | a tensor text decodes bit for bit, and only from its own hexadecimal |
| `Plan.MadePlanIsValid` | evalsim/contracts/counterfactual.py:670-752 | whatever the constructor accepts is a fixed point of it, fingerprints included |
| `Plan.FromEnvelopeParts` | evalsim/contracts/counterfactual.py:851-933 | an accepted envelope rebuilds a constructed plan with the very masks, tensors and identity in it |
| `Plan.AcceptedIff` | evalsim/contracts/counterfactual.py:939-965 | accepted bytes are exactly the canonical bytes of an envelope from which the constructors make the plan |
| `Plan.SerializeDeserialize` | evalsim/contracts/counterfactual.py:824-965 | a constructed plan comes back from its own bytes in every field, if and only if its parameters and details hold no adjacent surrogate pair |
| `PlanJoined.WhatComesBack` | evalsim/contracts/counterfactual.py:824-965 | what every constructed plan comes back as: the plan with its adjacent surrogates joined, exactly when the joined keys are still in order and distinct; otherwise its own bytes are refused |
| `PlanJoined.LoneSurrogatesJoin` | evalsim/contracts/counterfactual.py:824-965 | a concrete constructed plan of 41 frames whose parameter is two lone surrogates comes back with one character instead |
| `PlanJoined.JoinedKeysAreRefused` | evalsim/contracts/counterfactual.py:824-965 | a concrete constructed plan whose keys change places when joined: its own bytes are refused |
| `Plan.DecodedPlan` | evalsim/contracts/counterfactual.py:851-965 | every decoded plan is a constructed one without such pairs |
| `Plan.Reserialized` | evalsim/contracts/counterfactual.py:939-965 | decoding, encoding and decoding again gives the same plan on every accepted byte string |
| `Plan.BytesKeptIff` | evalsim/contracts/counterfactual.py:851-965 | re-encoding gives the accepted bytes back exactly when frame count, doses, texts and fingerprints were in plain form |
| `Plan.SerializeInjective` | evalsim/contracts/counterfactual.py:935-953 | two such plans with the same bytes are the same |
| `Plan.FingerprintIdentifies` | evalsim/contracts/counterfactual.py:755-798 | unless the hash collides on the bytes of the two plans, equal audit fingerprints mean equal plans |
| `PlanFields.PlanSays` | evalsim/contracts/counterfactual.py:824-849 | the dict of a plan has sixteen keys and under each its own field; masks and tensors are spelled digit by digit |
| `PlanFields.SpecSays` | evalsim/contracts/counterfactual.py:325-330 | the dict of a spec has each of its fields under its own key |
| `PlanFields.HashedSays` | evalsim/contracts/counterfactual.py:298-312 | so has the dict that is hashed |
| `PlanFields.AuditSays` | evalsim/contracts/counterfactual.py:435-442 | so has the dict of an audit |
| `PlanFields.SerializedSays` | evalsim/contracts/counterfactual.py:935-953 | a serialized plan is its domain, a NUL and the text of that dict |
| `PlanFields.SerializedExactly` | evalsim/contracts/counterfactual.py:935-953 | which reads back as that very dict without adjacent surrogates |
| `PlanFields.ConfigInputSays` | evalsim/contracts/counterfactual.py:314-323 | the fingerprint of a spec is the digest of its domain and the text of its hashed dict |
| `PlanFields.PlanInputSays` | evalsim/contracts/counterfactual.py:761-779 | the plan fingerprint is the digest of bytes a sequential reader takes apart into the configuration digest, the realization, 41 frames, both masks and the six tensors by name |
| `PlanFields.AuditInputSays` | evalsim/contracts/counterfactual.py:781-798 | the audit fingerprint is that of bytes read as the plan fingerprint and the audit dict |
| `PlanFields.SpecIff` | evalsim/contracts/counterfactual.py:252-290 | a spec is one the constructor makes exactly when family, version, access, doses and parameters are what their fields ask for and the fingerprint is their digest |
| `PlanFields.AuditIff` | evalsim/contracts/counterfactual.py:368-410 | an audit is one the constructor makes exactly when its checks are named, it passed just when all of them did, and it has a reason just when not |
| `PlanFields.PlanIff` | evalsim/contracts/counterfactual.py:670-752 | a plan is one the constructor makes exactly for two such records, a passed audit, 41 executable frames of finite states in order of time, and both fingerprints |
| `PlanFields.DecodedSays` | evalsim/contracts/counterfactual.py:939-965 | whatever bytes were decoded, the plan has 41 valid frames, finite ordered states and an audit whose every check passed |
| `Framing.SnapshotDigest` | evalsim/contracts/counterfactual.py:968-975 | the digest is that of the domain, a NUL and the framed parts; a part too long for its length field raises |
| `Framing.FramedInjective` | evalsim/contracts/counterfactual.py:968-975 | framed bytes determine the list of parts |
| `Framing.FramedReads` | evalsim/contracts/counterfactual.py:968-975 | reading a big-endian length and that many bytes again and again gives the parts back |
| `Framing.PlanReads` | evalsim/contracts/counterfactual.py:761-779 | a reader from the front gets the configuration digest, the realization, the frame count, the valid mask, the applied mask and the six tensors from plan bytes, each at its own place |
| `Framing.AuditReads` | evalsim/contracts/counterfactual.py:781-798 | and the plan fingerprint and the audit from audit bytes |
| `Framing.TaggedReads` | evalsim/contracts/counterfactual.py:190-220 | the domain is what stands before the first NUL |
| `Framing.CatalogueReads` | evalsim/cli/m6_official.py:2633-2642 | path and digest pairs come back from the catalogue bytes in order |
| `Framing.PlanBytesInjective` | evalsim/contracts/counterfactual.py:761-779 | plan bytes determine the configuration digest, the realization, both masks and all six tensors |
| `Framing.AuditBytesInjective` | evalsim/contracts/counterfactual.py:781-798 | audit bytes determine the plan fingerprint and the audit, up to joining surrogate pairs |
| `Framing.TaggedInjective` | evalsim/contracts/counterfactual.py:190-220 | domain and body cannot run into each other |
| `Framing.SourceFingerprint` | evalsim/cli/m6_official.py:2633-2642 | the digest is that of the domain and the framed catalogue |
| `Framing.CatalogueInjective` | evalsim/cli/m6_official.py:2633-2642 | fingerprint input determines the ordered (path, digest) pairs |
| `Status.AcceptedIffEmitted` | evalsim/cli/m6_bootstrap.py:158-242 | the validator accepts exactly what the emitters produce, with matching error flag and return code, within the size bound |
| `StatusCodes.Agreement` | evalsim/cli/m6_bootstrap.py:38-63 | the same with the real list of reason codes |
| `Status.SuccessAccepted` | evalsim/cli/m6_official.py:1512-1536 | a success status is accepted |
| `Status.AwaitingAccepted` | evalsim/cli/m6_official.py:1539-1557 | an awaiting-review status is accepted |
| `Status.RejectionAcceptedIff` | evalsim/cli/m6_official.py:1459-1486 | a rejection or failure is accepted exactly when its marker text, if any, is normalised |
| `Status.MarkerAgreesIff` | evalsim/cli/m6_official.py:1473-1485 | a marker the emitter lets through matches the validator's pattern exactly when no path segment is empty or a dot |
| `StatusFields.SuccessSays` | evalsim/cli/m6_official.py:1512-1536 | a success line reads back with seven keys: counts under aggregate_counts, durations under stage_durations_ms, its mode, its result path |
| `StatusFields.AwaitingSays` | evalsim/cli/m6_official.py:1539-1557 | an awaiting-review line reads back with its five |
| `StatusFields.RejectionSays` | evalsim/cli/m6_official.py:1459-1486 | a rejection reads back with status failure just when it failed, the known reason and the marker it was given |
| `StatusFields.SuccessIff` | evalsim/cli/m6_official.py:1489-1536 | a success is emitted exactly for one of three modes, non-negative totals under safe names and a result directory |
| `StatusFields.AwaitingIff` | evalsim/cli/m6_official.py:1539-1557 | an awaiting-review status exactly for the official mode, two digests and a result directory |
| `StatusFields.MarkerIff` | evalsim/cli/m6_official.py:1473-1485 | a marker is let through only with a failure and under the directory of a run |
| `StatusFields.AcceptedSays` | evalsim/cli/m6_bootstrap.py:158-242 | whatever the validator accepts is short, agrees with flag and code, and says only what it may: modes, result directory, non-negative totals, or a trusted reason |
| `Status.DoubledSlashIsRefused` | evalsim/cli/m6_official.py:1473-1485 | `outputs//m6/NAME/TERMINAL_FAILURE` is emitted and refused |
| `Status.LineRoundTrip` | evalsim/cli/m6_bootstrap.py:106-116 | printing a status, parsing the line and printing again is the identity |
| `JsonLimits.ScanTextIs` | evalsim/cli/m6_bootstrap.py:168-171 | a text that loads is given up exactly when an integer has too many digits or a container is nested too deep; a text that does not load is given up or refused |
| `Dumping.DumpsIff` | evalsim/cli/m6_bootstrap.py:106-116 | dumping raises exactly for a value in which a surviving member holds a NaN, an infinity or an overflowing float, or is nested too deep |
| `Status.RaisedIff` | evalsim/cli/m6_bootstrap.py:158-242 | the validator raises exactly when reading is given up, or what was read is a dict that cannot be dumped, or a canonical one whose status, mode or reason code is a list or a dict at the guard that is reached |
| `Status.NaNRaises` | evalsim/cli/m6_bootstrap.py:158-177 | a dict with a NaN makes the validator raise instead of refuse |
| `Status.DeepNestingRaises` | evalsim/cli/m6_bootstrap.py:168-171 | so does one bracket more than the parser recurses, although the text is not JSON |
| `Bootstrap.Process.Run` | evalsim/cli/m6_bootstrap.py:974-1066 | for every command inside and every fault pattern, how the bootstrap ends: which status is printed on which stream after what the command told the saved console copies, whole exactly when every write takes something, which invalidations are asked for, and the exit code; it dies exactly when the capture can be trusted and the validator raises |
| `Bootstrap.ZeroIsSuccess` | evalsim/cli/m6_bootstrap.py:974-1066 | code 0 means one status, emitted once, accepted and completely printed, nothing captured, nothing invalidated; any other code means a registered run was invalidated and no complete success was added to stdout |
| `Bootstrap.ZeroIff` | evalsim/cli/m6_bootstrap.py:974-1066 | code 0 exactly when all calls and writes succeed and the command returned 0, said nothing to a stream, registered at most once and emitted one accepted success and nothing else; then the console holds what the saved copies were told and that status |
| `Bootstrap.NonZeroInvalidates` | evalsim/cli/m6_bootstrap.py:1034-1066 | any other code invalidates the run whose callback was offered, once the command got to run |
| `Bootstrap.RejectionsSayWhy` | evalsim/cli/m6_bootstrap.py:1034-1055 | whatever replaces the status of a command says why: output detected, capture failed, mismatch or the reason of the refusal |
| `Bootstrap.EscapesIff` | evalsim/cli/m6_bootstrap.py:1040-1055 | the process dies without invalidating exactly when all sixteen calls succeed, the command was quiet and its status is one the validator raises on |
| `Bootstrap.StatusZeroIff` | evalsim/cli/m6_bootstrap.py:1083-1084 | a process status of 0 is a success exactly when the return code of the command is not a non-zero multiple of 256 |
| `Bootstrap.RejectionWraps` | evalsim/cli/m6_bootstrap.py:1083-1084 | a concrete command that rejects with code 256 and ends with process status 0 |
| `Bootstrap.OnlyTheStatusIff` | evalsim/cli/m6_bootstrap.py:989-995 | after code 0 the console holds the status and nothing else exactly when the command told the saved copies nothing |
| `Bootstrap.SavedCopySpeaks` | evalsim/cli/m6_bootstrap.py:989-995 | a concrete command whose words stand before its status |
| `Bootstrap.Process.RunCaptured` | evalsim/cli/m6_bootstrap.py:865-971 | the report of a captured command as a function of what it did |
| `Bootstrap.Process.Perform` | evalsim/cli/m6_bootstrap.py:887-903 | the status and callback sinks, call by call; what is said to streams 1 and 2 is captured, what is said to the saved copies reaches the console |
| `Bootstrap.PlayTells` | evalsim/cli/m6_bootstrap.py:995-1033 | what is captured is every byte said to stream 1 and stream 2, and the console gets what the saved copies were told, as functions of the actions alone |
| `Bootstrap.NothingCaptured` | evalsim/cli/m6_bootstrap.py:1024-1033 | nothing is captured exactly when every word to either stream was empty |
| `Bootstrap.RefusedIff` | evalsim/cli/m6_bootstrap.py:887-903 | something is refused exactly when it has the wrong type or is one emission or registration too many |
| `Bootstrap.RegisteredIff` | evalsim/cli/m6_bootstrap.py:897-903 | a callback is registered exactly when one was offered |
| `Bootstrap.Process.StatusSink` | evalsim/cli/m6_bootstrap.py:887-896 | one well-typed status gets in, anything more is remembered as a duplicate |
| `Bootstrap.NothingRefused` | evalsim/cli/m6_bootstrap.py:887-903 | without a duplicate the kept status is all that was ever emitted |
| `Bootstrap.Process.WriteAll` | evalsim/cli/m6_bootstrap.py:131-141 | all bytes go out exactly when every call takes some of what is left, and a prefix always did |
| `Bootstrap.OfficialExit` | evalsim/cli/m6_official.py:1851-1944 | the two layers agree: under the official command, whatever size or marker its emitters produce, the bootstrap never dies, process status 0 means its run returned and its own status is all there is on the console, any other status invalidated the registered run |
| `Bootstrap.NaNEscapes` | evalsim/cli/m6_bootstrap.py:1040-1055 | a concrete command that kills the bootstrap without invalidating its registered run |
| `Reservation.Record.Consume` | evalsim/cli/m6_official.py:5631-5661 | consuming follows the protocol: only a pending reservation whose directory holds its pending file and nothing else |
| `Reservation.Record.Fail` | evalsim/cli/m6_official.py:5664-5726 | failing follows the protocol, torn writes and contradictory markers included |
| `Reservation.Record.WriteExclusive` | evalsim/cli/m6_official.py:5440-5476 | exclusive creation never touches an existing file and leaves a prefix when it fails |
| `Reservation.ConsumedAtMostOnce` | evalsim/cli/m6_official.py:5631-5661 | over every run a reservation is consumed at most once, and never after a failure was begun |
| `Reservation.GrantedIff` | evalsim/cli/m6_official.py:5631-5661 | over every run from a fresh reservation, an operation is granted exactly when it is a readable consumption and none before it used the reservation up |
| `Reservation.FirstFailureMarks` | evalsim/cli/m6_official.py:5664-5726 | a failure whose file is created, written and synced is acknowledged and its marker says mode and reason |
| `Reservation.RunKeeps` | evalsim/cli/m6_official.py:5664-5726 | failed stays failed, and a marker on disk never changes |
| `Reservation.FirstReasonWins` | evalsim/cli/m6_official.py:5664-5726 | after an acknowledged failure the same reason returns the same marker and any other is contradicted, for ever |
| `Reservation.TornWrite` | evalsim/cli/m6_official.py:5440-5476 | after a failed marker write a reason is acknowledged again exactly when all bytes were in and it is the same reason |
| `Reservation.SamePayloadIff` | evalsim/cli/m6_official.py:5676-5688 | two reasons give the same marker exactly when they normalise to the same code |
| `Preregistration.Runner.Prepare` | evalsim/cli/m6_official.py:6211-6303 | for every executor, exactly when a run goes on: its calls seal rows and selection, its mode matches and its evidence is what was sealed; such a run has sealed them once, behind the gate, before any outcome, crossed into outcomes at most once |
| `Preregistration.SealedIff` | evalsim/cli/m6_official.py:6211-6303 | the calls of an executor that does not raise seal exactly when one presents complete accepted rows and both receipts are written, nothing before it spoiled the store and nothing after it asked for more |
| `Preregistration.Runner.Preregister` | evalsim/cli/m6_official.py:6214-6250 | sealing happens exactly when nothing was sealed, the rows are complete, the gate accepts and both writes succeed |
| `Preregistration.Runner.BeginOutcomes` | evalsim/cli/m6_official.py:6252-6263 | the boundary is crossed exactly when rows and selection are sealed and it was not crossed before |
| `Preregistration.Store.WriteEligibilityLedger` | evalsim/results/m6.py:2731-2790 | the ledger is written once; any raise poisons the store |
| `Preregistration.Store.WriteQualification` | evalsim/results/m6.py:2792-2857 | the selection is written once and after the ledger; any raise poisons the store |
| `Readings.OfficialSuccess` | evalsim/cli/m6_official.py:6534-6608 | over all runs with faults and crashes: an official directory holds the success marker only after the precursor was sealed for review, three roles accepted with zero p1 and p2, the gate was open, and repository, local inputs, shards and provenance were found equal to what the finalizing command had read right before it wrote the decisions, in this order, with the mark last |
| `Readings.SuccessIsBacked` | evalsim/cli/m6_official.py:5887-6036 | in every mode a success was verified against the values its own command had read before its first durable write |
| `Readings.RecordIsHistory` | evalsim/cli/m6_official.py:5887-6036 | the record of readings and events leaves no durable event out |
| `Lifecycle.StepKeeps` | evalsim/cli/m6_official.py:5887-6036 | every step of every command keeps directory and history in agreement |
| `Lifecycle.RejectionIsFinal` | evalsim/cli/m6_official.py:5992-6015 | one blocking review closes the directory for good |
| `Lifecycle.FailureIsFinal` | evalsim/results/m6.py:4555-4603 | whatever came before: once a failure marker stands without a success marker, no later step adds one |
| `Lifecycle.ContradictionIsInvalidation` | evalsim/results/m6.py:4131-4168 | over all runs both markers together mean an invalidation of a run whose success marker already stood |
| `Lifecycle.OnlyInvalidationContradicts` | evalsim/results/m6.py:4131-4168 | no other step adds a failure marker to a success marker |
| `Lifecycle.WhyInvalidated` | evalsim/cli/m6_official.py:1851-1944 | an invalidation follows a status that was not delivered or a command that failed, after its mark was torn for one |
| `Invalidation.UndeliveredIsInvalidated` | evalsim/cli/m6_official.py:1938-1943 | over all runs: a status that is not delivered ends in an invalidation that leaves the failure marker, beside a success marker as a contradiction |
| `Invalidation.RaiseFails` | evalsim/cli/m6_official.py:1851-1944 | over all runs: wherever a command stands between adoption and its end, an exception whose handling is let through leaves the failure marker |
| `Invalidation.BlockingReviewFails` | evalsim/cli/m6_official.py:5992-6015 | over all runs: reviews that block end in a failure marker and in no success marker |
| `Lifecycle.RunGrows` | evalsim/results/m6.py:4555-4603 | nothing that happened is undone and no file disappears |
| `Lifecycle.OnlyWholeIsSealed` | evalsim/results/m6.py:3485-3583 | whatever a step is and however it ends: the awaiting file is created only by the pending writer with its capability, when rows, selection and artifacts are whole |
| `Lifecycle.OnlyExactIsAdopted` | evalsim/results/m6.py:2492-2690 | whatever a step is: review begins only on exactly the five whole files of a sealed precursor and its four events |
| `Lifecycle.SummariseKeeps` | evalsim/results/m6.py:9236-9248 | the release gate is open only for accepted decisions |
| `Lifecycle.OnlyMarkSucceeds` | evalsim/results/m6.py:3869-4017 | whatever a step is and however it ends: the success marker is created only at the mark, by a committed writer with its nonce and its issued capability, and officially only for accepted reviews |
| `Reachability.SuccessIsReachable` | evalsim/cli/m6_official.py:6534-6608 | accepted reviews lead to an official success when every operation succeeds |
| `Reachability.PilotIsReachable` | evalsim/cli/m6_official.py:5887-6036 | the other two modes succeed without reviews |
| `Reachability.ContradictionIsReachable` | evalsim/results/m6.py:4131-4168 | a success whose status is lost carries both markers |
| `Chain.ChainAgrees` | evalsim/cli/m6_official.py:4837-5060 | an official run that passed its gate has the ordered eligible indices, rejection counts, selection and provenance of every run behind it, and the secondary feasibility of its pilot; these are a passed pilot and eligibility runs |
| `Chain.EligibilityAgrees` | evalsim/cli/m6_official.py:5008-5045 | so has every run and the eligibility run it names, although the gate sees rows unsorted and the store seals them sorted |
| `Chain.HonestRunsPass` | evalsim/cli/m6_official.py:4837-5060 | three runs that each prepare the same rows in cohort order pass one gate after the other |
| `Chain.OnlySameRowsPass` | evalsim/cli/m6_official.py:4996-5060 | behind such runs exactly the rows with the same indices, reasons, selection and secondary feasibility pass |
| `Chain.SealedIndices` | evalsim/results/m6.py:5134-5150 | sealing in cohort order does not change an ascending list of indices |
| `Chain.Conservation` | evalsim/results/m6.py:1191-1192 | eligible indices and rejection counts make up the population |
| `Scorecard.Accumulator.AddCase` | evalsim/evaluation/m5.py:638-668 | a case is taken in or nothing changes; the inner duplicate branches cannot be reached |
| `Scorecard.Accumulator.Finalize` | evalsim/evaluation/m5.py:670-736 | exactly the indices below the expected count, and then the batch result, once |
| `Scorecard.ScorecardInputs` | evalsim/evaluation/m5.py:1493-1547 | the loops over metrics, slices and contrasts compute the matrix |
| `Scorecard.Stream` | evalsim/evaluation/m5.py:914-947 | cases streamed one by one and finalized: a summary exactly when no index repeats, the specifications agree and the indices are those below the expected count, and then the batch result |
| `Scorecard.OrderFree` | evalsim/evaluation/m5.py:638-736 | streaming the same cases in any other order is refused as well or gives the same summary |
| `Scorecard.CellPairs` | evalsim/evaluation/m5.py:1499-1546 | each cell pairs both policies over one strictly increasing index set, exactly the eligible members of its slice |
| `Scorecard.MatrixAt` | evalsim/evaluation/m5.py:1512-1547 | one cell for each metric, slice and contrast, each at its own place |
| `Scorecard.MembersExact` | evalsim/evaluation/m5.py:1499-1509 | members are exactly the indices in the slice, increasing |
| `Scorecard.CellLabels` | evalsim/evaluation/m5.py:1512-1530 | each cell is labelled with its metric, its slice and one of the three contrasts |
| `Scorecard.SummaryAt` | evalsim/evaluation/m5.py:692-736 | a summary has one slice row a case and slice in cohort then registry order, and the digests of each case |
| `Parity.Select` | evalsim/evaluation/m5_waymax.py:350-411 | the loop and the sorts compute the numbered selection of an acceptable cohort, and refuse any other |
| `Parity.SelectionOrderFree` | evalsim/evaluation/m5_waymax.py:350-411 | selection does not depend on the order of the accepted members |
| `Parity.AcceptableIff` | evalsim/evaluation/m5_waymax.py:353-386 | a cohort is acceptable exactly when every index occurs, locators and identities are unique and every member is bound |
| `Parity.SelectionPermuted` | evalsim/evaluation/m5_waymax.py:350-411 | the same members in any other order are refused as well or give the same selection |
| `Parity.SelectionIsLeast` | evalsim/evaluation/m5_waymax.py:387-405 | the sixteen selected precede every other member in (rank, shard, ordinal) order |
| `Parity.SelectionIsMembers` | evalsim/evaluation/m5_waymax.py:387-411 | a selection is what a streaming accumulator is made for: numbered in order, one cohort index a member |
| `Parity.Accumulator.AddCase` | evalsim/evaluation/m5_waymax.py:1546-1620 | a selected case with its nine accepted rows is taken in once, or nothing changes |
| `Parity.Accumulator.Finalize` | evalsim/evaluation/m5_waymax.py:1622-1666 | the matrix, exactly when every selected case has been taken in, once |
| `Parity.MatrixAt` | evalsim/evaluation/m5_waymax.py:1640-1664 | 144 rows in (parity index, policy, metric) order, each key at its own place |
| `Parity.BuildRows` | evalsim/evaluation/m5_waymax.py:1669-1710 | the batch builder gives the matrix of its inputs exactly when they match the selection and pass |
| `Parity.Stream` | evalsim/evaluation/m5_waymax.py:1510-1666 | cases streamed one by one and finalized: a matrix exactly when every case is selected, bound, accepted and streamed once, and all sixteen are there |
| `Parity.SelectAndStream` | evalsim/cli/m5_official.py:1066-1090 | selecting and then streaming, from the accepted members to the matrix |
| `Parity.StreamOrderFree` | evalsim/evaluation/m5_waymax.py:1546-1710 | streaming the same cases in any other order is refused as well or gives the same matrix |
| `Parity.MatrixRowOrderFree` | evalsim/evaluation/m5_waymax.py:1600-1664 | nor does the order matter in which an adapter lists the rows of a case |
| `Sorting.SortOrderFree` | evalsim/evaluation/m5_waymax.py:396-396 | sorting by a strict order does not depend on the order of the input |
| `Timing.PiecesBound` | evalsim/results/m6.py:5238-5268 | the ceilings of k disjoint pieces exceed the ceiling of the whole by at most k - ceil(k / 1000000), hence by at most k - 1 |
| `Timing.PiecesTight` | evalsim/results/m6.py:5238-5268 | no smaller slack will do, for any number of pieces |
| `Timing.NumpyGate` | evalsim/cli/m6_official.py:5149-5152 | the NumPy gate never rejects an honest run |
| `Timing.WaymaxGate` | evalsim/cli/m6_official.py:5153-5157 | nor does the Waymax gate |
| `Timing.PilotConsistent` | evalsim/cli/m6_official.py:1045-1076 | phase milliseconds exceed the wall by at most the overage, and no scene is longer than the wall |
| `Timing.SlacksTight` | evalsim/cli/m6_official.py:5149-5158 | for every number of scenes within a millisecond there is a whole honest pilot that uses all of the NumPy, the Waymax and the evidence slack at once |
| `Timing.SceneDurations` | evalsim/evaluation/m6.py:1259-1296 | the timed scene loop gives for each scene the least number of milliseconds that holds its planning and its execution, and raises when a clock did not advance |
| `Timing.PositiveElapsed` | evalsim/cli/m6_official.py:4756-4769 | the millisecond ceiling of an interval, or a raise |
| `Timing.PhaseClock.Observe` | evalsim/evaluation/m6_official.py:1057-1060 | an observed duration is added to its own phase |
| `Timing.PhaseClock.Close` | evalsim/evaluation/m6_official.py:1100-1114 | verification is what remains of the wall; nothing is reported unless something remains |
| `Timing.FourPhases` | evalsim/evaluation/m6_official.py:1100-1114 | the four phase ceilings lie between the ceiling of the wall and three more |

## Left out

- Threads, process groups and timing: a join timeout is a failing wait with any amount drained; other threads only write to descriptors 1 and 2 and never close them.
- Terminal.Process.OpenTranscriptPipe: the write end is not always closed, because the code itself loses it when preparing the pipe and closing its read end fail in a row (`Terminal.WriterLeaks` is the exact condition, evalsim/cli/_terminal.py:178-265).
- Terminal.Process.CaptureTerminal: a drain thread that never ends keeps the read end, and a sink may stay in the place of a stream the callback closed; both are counted, each with its exact condition. The transcript of a capture that met a fault is only known to show some beginning of the pipe. A closed stream's later re-use by foreign code is not modelled, nor is `dup2` of a descriptor onto itself, which happens when the sink takes the number of a stream the callback closed: the operating system then decides about its inheritability. What other threads say to the terminal during a capture that gives up before its callback is not stated.
- Plan.SerializeDeserialize: does not hold for every constructed plan, because two adjacent lone surrogates in a parameter or detail text are joined on reading; the condition is exact.
- Plan.BytesKeptIff: accepted bytes are not unique to a plan, because null fingerprints, integer or text doses, `41.0` frames and unstripped texts are accepted and normalised; the condition is exact.
- Status.RejectionAcceptedIff: not every emitted failure is accepted, because the emitter tests path parts and the validator the text; the only caller in the repository passes normalised texts.
- Bootstrap.Process.Run: does not always succeed or invalidate, because the validator can raise; and process status 0 is not always a success, because a return code of 256 is one to the validator and 0 to the shell. Both conditions are exact.
- Reservation.TornWrite: a failed marker write can leave a marker no reason matches, because the file is created before its bytes; the condition is exact.
- SHA-256, `float`, `repr` of a float, the order of doubles and the heading range are parameters; `Env.Sound` only asks that floats print as themselves.
- Interpreter limits: the digits of an integer text and the nesting of a status are modelled where the validator meets them (`JsonLimits`); for plans, whose decoder raises either way, and for freezing, recursion depth does not exist here.
- JSON texts are bytes; a plan text that is not ASCII is refused by the parser here and by the comparison with the canonical text in the repository.
- A Python dict is the list of its members in key order, so insertion order is not observable; `Mapping` objects that yield a key twice are not modelled.
- The lifecycle is a transition system over values rather than a class, because a process may die between any two operations; commands on one directory follow one another, and two processes working on it at once are not modelled.
- Verification of repository, environment, shards, provenance and committed tables is an accept or a reject with the values it compared; Git, package catalogues and Parquet are not part of this model.
- Creating a reservation (evalsim/cli/m6_official.py:5550-5628) beyond its first file and the marker of a failed creation.
- The lines of `_bootstrap` before the capture: the check of the invocation itself, which always ends with code 1.
- Statistics, metrics, slice definitions and the second statistics pass, which repeats a pure function; row schemas and digests of rows are numbers.
- Trajectory numerics, Waymax, perturbations, viewers, argument parsing, package re-exports and the synthetic commands.
- `InterventionEligibility`, `PairedMetricResult` and the snapshot classes of evalsim/contracts/counterfactual.py: one-branch checks and clients of the framing.
- The issuance registry of evalsim/evaluation/m6_pilot.py and the collectors of evalsim/evaluation/m6_official.py: they would add easy members.
