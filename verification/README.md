# Verification of the stateful parts of First Agent

This project models the parts of First Agent that keep state across processes, crashes and failing
system calls, and proves what they promise.  Verify it with Dafny 4.11:
`dafny verify dfyconfig.toml`.

* **Transport attempt ledger.** Many processes share one append-only file and must reserve a line
  in it before they send.  `LedgerFormat` is the file format with its two readers,
  `LedgerProtocol` the calls as a state machine of single system calls, `LedgerSafety` its
  inductive invariant, `LedgerRuns` what follows for whole runs, `LedgerCalls` the same in terms
  of the arguments that calls were started with, `LedgerOrphans` what a failing
  close leaves locked, and `LedgerRecorder` the locked body as imperative code.
* **Runtime materializer.** `Descriptors` is a descriptor table in which every call may fail,
  `RuntimeWalk` the directory walks and single copies, `TreeGrowth` what they may add to a
  `DirectoryTree`, `Admission` the overlap checks, `Sealing` the sealing order, `SealedNodes` what
  it does to the directories themselves, `Materializer` the whole run, and `MaterializerRuns` two
  runs.
* **Packaged skill runner.** `RunnerInput` are the bounded reads and input descriptors,
  `RunnerLimits` the hard resource limits, `SkillRunner` exact inputs and pinned outputs, and
  `SkillRequest` one authenticated request.
* **Candidate builder.** `CandidateDisk` is a disk that others may change between any two calls,
  with every change in a trace, `CandidateWorld` its system calls, and `CandidateSteps` what each
  step keeps; `CandidateBuilder` plans, freezes and copies, and `CandidateRelease` publishes.
  `CandidateLayout` is about the finished directory, `CandidateOthers` about everybody else's
  entries.
* **Browser journeys.** `ProcessTree` is the process closure, `Supervisor` the bounded
  supervisor, `Journey` the cleanup owner and the two generations.
* **Session rounds.** `SessionRounds` is the loop of `main` around one `ExitStack`.

## Main results

* The ledger refines an atomic bounded counter in every interleaving with errors and crashes
  (`LedgerRuns.RunRefines`, `LedgerCalls.BudgetHolds`), and a torn line closes it for good
  (`LedgerRuns.TornCloses`, `LedgerRuns.ClosedForever`).
* `materialize_test_runtime` conserves descriptors for every pattern of failures, and succeeds for
  every request with disjoint subtrees when nothing fails (`Materializer.Materialize`); what its
  admission checks decide about subtrees is exact (`Admission.AdmittedIff`, `Admission.SourceApartIff`),
  and a delivered destination is sealed once everywhere (`Materializer.DeliveredIsSealed`).
* Package code runs only after every check, with both outputs pinned, and the two output files
  hold exactly what was returned (`SkillRequest.ExecuteAuthenticatedRequest`).
* The candidate builder touches nothing that it did not create, whatever others do meanwhile, and
  publishes only a verified candidate, in a directory of its own that holds nothing else
  (`CandidateRelease.BuildCandidate`, `CandidateOthers.ForeignEntriesSurvive`).
* Each flag and code of the supervisor's verdict is a fact about the child, it passes exactly when
  the child did well before its deadline, and it comes in bounded time (`Supervisor.RunBounded`).

## What the code does differently from what it promises

Each of these is proved with its exact condition.

* The materializer promises that source and destination do not overlap, but compares only path
  spellings for the source: `Admission.DoubleSlashOverlaps` is a counterexample,
  `MaterializerRuns.OverlappingRun` such a run, `Admission.SourceApartIff` the exact condition, and
  `Admission.SourceIsApart` says when the spelling is enough.
* The driver counts a record whose line feed is missing, which the recorder refuses:
  `LedgerFormat.DriverOnTornLine`.
* The runner promises that a failure in output pinning closes what it pinned; both outputs stay
  open exactly when both were pinned and the close of the session directory raises
  (`SkillRunner.PinPrecreatedOutputs`, with the run `SkillRunner.StrandingRun`).  The artifact's
  descriptor stays open exactly when the close of the result raises (`SkillRunner.ReleaseOutputs`).
* "No hard limit is ever raised" fails for a privileged process whose old hard limit is below the
  declared value: `RunnerLimits.RaisingRun` is such a run, `RunnerLimits.NoneRaisedIff` the exact
  condition.
* The builder promises to remove nothing of others; its last unlink goes by name, and removes
  what others put at the temporary name: `CandidateOthers.HarmfulRun` is a run, and
  `CandidateOthers.RunIsHarmlessIff` the exact condition.
* The cleanup owner promises to try every callback; an exception that is no `Exception` ends the
  walk: `Journey.InterruptionSkips` is an input, and `Journey.ExecutedIsReverse` the exact
  condition.
* When the close of the ledger raises, `record` skips the close of the lock and keeps the flock
  until its process exits: `LedgerOrphans.OrphanedIff` is the exact condition,
  `LedgerOrphans.OrphanBlocks` what it costs the other calls, and `LedgerOrphans.LeakingRun` such a
  run.
* `_run_bounded` promises a verdict; it gives none exactly when the liveness probe of the group
  raises, or `json.loads` raises anything but a JSONDecodeError, as it does on a number of too many
  digits or too deep a nesting (`Supervisor.RunBounded`).  The time bound holds then too.

## Assumed

* `O_EXCL` creation is atomic; `flock` excludes other descriptions and ends with the descriptor or
  the process; one `os.read` of a regular file returns all that was asked for; nobody unlinks the
  ledger and its lock; a close that raises has released its descriptor.
* The laws of `LedgerFormat.Lawful` for UTF-8, JSON and SHA-256: an ASCII tail decodes to itself, a
  dumped document loads back, a front of it does not load, and digests are 64 hexadecimal digits.
  The JSON of a record follows section 7 of RFC 8259.
* In the materializer nobody else changes the directory tree, as its documentation requires of
  callers.  A name that it makes is found under that spelling only: where names are folded together
  the destination does not requalify, and the run fails.  That an entry is of another kind, owner or
  mode than required is one of the ways in which a call or check fails.
* In the skill runner package code itself does not touch the outputs, the runner's descriptors or
  its limits, and nobody else writes to the outputs; `os.write` writes at least one byte.
* In the candidate builder inodes are not reused, a directory has one name, one whole-file read sees
  one state of the file, and the bytes of one write call are written in one step.  The paths that
  `git` lists are plain names, without `.`, `..` and empty ones.  What is proved for a directory
  left alone by others says so (`Respectful`).
* `select` reports exactly the pipes that hold bytes or have ended.  A pass of the supervisor's loops
  takes at most one select slice, no time passes between a poll that sees the exit and the next look
  at the clock, and time is counted in milliseconds in which every pass of the final drain takes at
  least one.

## Model

| member | source | states |
|---|---|---|
| `LedgerRuns.RunRefines` | agent/transport_audit.py:35-96 | every interleaving of any number of calls by any number of processes, with an error or a crash possible at every system call and between partial writes, is step by step a run of an atomic counter that adds one admitted record, refuses a call whose budget is used up, answers one reserved record once, or does nothing |
| `LedgerSafety.StepKeeps` | agent/transport_audit.py:35-96 | the protocol invariant (lock inode, owner, phase, bytes, slots) is kept by every enabled step of every call |
| `LedgerProtocol.MutualExclusion` | agent/transport_audit.py:56-67 | two calls between taking the flock and closing the ledger are the same call, however their open, create and reopen steps raced |
| `LedgerRuns.OneWriter` | agent/transport_audit.py:56-90 | in every reachable state at most one call is between its flock and the end of its append |
| `LedgerCalls.StartedIff` | agent/transport_audit.py:40-46 | a call of a run starts if and only if its kind is the string model or web and its destination is not empty and has no character below a space; it carries the kind, the digest of the destination and the limit that it was given; otherwise nothing is touched |
| `LedgerCalls.BudgetHolds` | agent/transport_audit.py:76-84 | when every call started with the string model has a limit of at most cap, and the ledger starts with at most cap model records: the calls started as model that have returned normally are never more than the model records added, and the ledger never holds more than cap of them |
| `LedgerCalls.WebIsFree` | agent/transport_audit.py:76-84 | in no run is a step of a call started as web a refusal for the budget, and none of its steps changes the number of model records |
| `LedgerCalls.RefusedIff` | agent/transport_audit.py:76-84 | a call at its budget check, on a ledger that decodes, is refused if and only if it was started with the string model and a limit that the model records of the ledger at that moment have reached; otherwise what it goes on to write is the literal line of its own kind and destination digest |
| `LedgerCalls.ReservedIsOfStart` | agent/transport_audit.py:40-49 | a step that completes a record adds exactly one, of the kind and the destination digest of the arguments its call was started with, and the file is what that call had read and that line |
| `LedgerCalls.SucceededIsSynced` | agent/transport_audit.py:85-90 | a call that returns normally went through an fsync that worked |
| `LedgerRuns.ClaimsOfStep` | agent/transport_audit.py:85-91 | only the write that completes a line claims a slot, and the slot is the next free one |
| `LedgerRuns.ClaimsAreNew` | agent/transport_audit.py:85-91 | no call of the run is ever answered for a record that was there before the run |
| `LedgerRuns.LogIsReservations` | agent/transport_audit.py:69-90 | the records of the file between two moments grow by exactly the records reserved in between, in order |
| `LedgerRuns.LedgerShape` | agent/transport_audit.py:69-90 | at every moment the file is its first content, the encodings of the reserved records in order, and at most one torn line; a first content that does not decode is never touched |
| `LedgerRuns.OnlyGrows` | agent/transport_audit.py:69-90 | contents are only ever extended, and never pass 1,000,000 bytes by more than one record |
| `LedgerRuns.TornCloses` | agent/transport_audit.py:85-96 | a call that stops in the middle of its line leaves a ledger that is closed |
| `LedgerRuns.ClosedForever` | agent/transport_audit.py:72-90 | a closed ledger never changes again, and no further call is answered |
| `LedgerOrphans.OrphanedIff` | agent/transport_audit.py:91-96 | in every run a call that is over holds a flock if and only if its close of the ledger raised and its process has not ended since |
| `LedgerOrphans.OrphanBlocks` | agent/transport_audit.py:66-96 | as long as that is so no call takes the flock, and the ledger keeps its bytes |
| `LedgerOrphans.LeakingRun` | agent/transport_audit.py:91-96 | a run in which it happens: the next call, of another process, waits for the flock, and could take it after the first process ends |
| `LedgerRuns.ReadingsDiffer` | scripts/run_016_e3.py:2853-2867 | the difference of two readings by the acceptance driver is, kind by kind, the number of records reserved in between |
| `LedgerFormat.RoundTrip` | agent/transport_audit.py:40-49 | decoding a file followed by the encodings of records gives the file's records and then exactly those |
| `LedgerFormat.TornLine` | agent/transport_audit.py:99-107 | a proper, non-empty front of a line after complete lines makes the decoder refuse, and adds or hides no complete record |
| `LedgerFormat.DecodeAppend` | agent/transport_audit.py:99-124 | appending one payload appends one record to what the decoder returns, and changes nothing else |
| `LedgerFormat.LineShape` | agent/transport_audit.py:47-49 | a record is 147 or 149 ASCII bytes whose only line boundary is its last byte |
| `LedgerFormat.LineIsPrefixFree` | agent/transport_audit.py:40-49 | no record line is a proper front of another, and the line determines the record |
| `LedgerFormat.SameLines` | scripts/run_016_e3.py:710-713 | newline translation changes no line of a text, so the driver and the recorder see the same lines |
| `LedgerFormat.RecorderAndDriverAgree` | scripts/run_016_e3.py:706-724 | the recorder decodes a file if and only if the driver counts it, its last line is ended and it fits the read limit; then the counts are the per-kind numbers of the decoded records |
| `LedgerFormat.DriverOnTornLine` | scripts/run_016_e3.py:706-724 | on a torn last line the driver raises, except exactly when only the line feed is missing: then it counts a record that the recorder refuses |
| `LedgerFormat.TransportCounts` | scripts/run_016_e3.py:706-724 | the counting loop returns the per-kind tally of all lines, and raises when some line is no record |
| `LedgerFormat.DecodeIff` | agent/transport_audit.py:99-124 | the decoder takes a file if and only if it is empty, or has at most 1,000,000 bytes, ends its last line, is UTF-8 and has on every line an object of exactly the three keys, with the schema, an admitted kind and 64 lower-case hexadecimal digits; it returns those kinds and digests in order |
| `LedgerFormat.DriverCounts` | scripts/run_016_e3.py:706-724 | the driver raises unless every line is such an object, and then counts the lines of each kind |
| `LedgerFormat.SplitJoins` | agent/transport_audit.py:103-105 | splitting into lines gives back the lines that were joined with any of the ten line boundaries or a carriage return and line feed |
| `LedgerFormat.ALawfulLibraryExists` | agent/transport_audit.py:99-124 | the laws required of UTF-8, JSON and SHA-256 can be met together |
| `LedgerRecorder.Record` | agent/transport_audit.py:68-91 | one locked call adds exactly its line, and then all of the file is synced and no call has failed, or refuses with the bytes unchanged; only a failing system call leaves part of a line; without one the content alone decides |
| `LedgerRecorder.AppendAll` | agent/transport_audit.py:86-91 | for every pattern of short writes the loop succeeds if and only if no call fails, with all of the payload written and then synced; otherwise a front of it is written |
| `RuntimeWalk.PinAbsoluteDirectory` | scripts/materialize_020a_test_runtime.py:81-113 | exactly one new descriptor, open on the directory that the path leads to, or none; every other descriptor it opened is closed once; it succeeds if and only if the path is absolute, without .., leads somewhere, and no call on the way fails |
| `RuntimeWalk.HandOver` | scripts/materialize_020a_test_runtime.py:98-108 | ownership passes from the parent to the child if and only if no close or check fails; otherwise both are closed, once each |
| `RuntimeWalk.OpenRelativeParent` | agent/sandbox/hermetic_runtime.py:186-222 | one new descriptor, open on the directory that the parts lead to, or none; it succeeds if and only if no call fails and the path leads somewhere or may be made; only missing directories on that path are made, and no existing entry is touched |
| `RuntimeWalk.ReadRelativeFile` | agent/sandbox/hermetic_runtime.py:225-246 | the bytes are those of the file at that path; no descriptor is left, even when the parent's close fails after the file was opened; it succeeds if and only if the file is there and no call fails |
| `RuntimeWalk.CopyExactFile` | scripts/materialize_020a_test_runtime.py:31-71 | it succeeds if and only if no call fails, the source holds a file of the declared size and digest at the path, and the destination has nothing there; then the destination holds those bytes and the source was read twice; on every outcome no descriptor is left, each was closed once, and nothing that existed was changed |
| `RuntimeWalk.CreateDestination` | scripts/materialize_020a_test_runtime.py:165-182 | the new directory's descriptor or none; it succeeds if and only if the name was new and no call fails |
| `Descriptors.Kernel.CloseAll` | scripts/materialize_020a_test_runtime.py:116-127 | one failing close keeps none of the others from being tried; what is reported is the first descriptor whose close raised, and nothing if and only if all closes worked |
| `RuntimeWalk.WriteAll` | scripts/materialize_020a_test_runtime.py:25-28 | for every pattern of positive short writes the new file holds all of the bytes if no write raises, and a front of them otherwise |
| `Materializer.CopyAll` | scripts/materialize_020a_test_runtime.py:295-311 | after a success the destination holds every item with its size and digest; when no call fails, the source holds every item and no path is equal to or inside another one, it succeeds |
| `TreeGrowth.PathsGrow` | agent/sandbox/hermetic_runtime.py:186-222 | making entries along one path below a new directory adds no path but the fronts of that one, so that copies of incomparable paths do not get in each other's way |
| `Materializer.Fill` | scripts/materialize_020a_test_runtime.py:291-323 | after a success the destination holds the manifest and the whole inventory, and the modes of exactly the directories of the sealing set were changed, deepest first |
| `Materializer.Materialize` | scripts/materialize_020a_test_runtime.py:225-345 | for every pattern of OSError and ValueError failures, failing closes included, the run ends with the open descriptors it began with and has closed each acquired one exactly once, and it changes the mode of nothing that existed before; success means that everything was admitted, the destination is new, holds the manifest and the whole inventory with their digests, and is sealed, while everything older is as it was; it never succeeds when a call fails, and when none fails it succeeds for every request with existing absolute directories, a destination that is one new component below its parent, subtrees of the destination, the source and every protected root that are disjoint, and a source that holds the manifest and the inventory under incomparable paths |
| `Materializer.DeliveredIsThere` | scripts/materialize_020a_test_runtime.py:225-345 | a delivered destination is the directory that its own path leads to, where nothing was before, under a name of one component |
| `MaterializerRuns.GrantedRun` | scripts/materialize_020a_test_runtime.py:225-345 | a run that succeeds |
| `Materializer.PinOthers` | scripts/materialize_020a_test_runtime.py:248-267 | the destination parent and all protected roots are pinned, if and only if all of them lead somewhere and no call fails; otherwise everything pinned so far and the source are closed, once each |
| `Materializer.SealAll` | scripts/materialize_020a_test_runtime.py:312-322 | a complete sealing loop changes the modes of exactly the nodes that the sealing order leads to below the destination, in that order; it stops only when a call fails or a directory is missing |
| `Materializer.DeliveredIsApart` | scripts/materialize_020a_test_runtime.py:269-284 | a delivered destination, and the source, are disjoint from every protected subtree |
| `Materializer.DeliveredIsSealed` | scripts/materialize_020a_test_runtime.py:225-322 | in every delivered destination the modes changed are those of the copied files, in order, and then those of the sealed directories and no others; these are changed once each, and each after everything inside it |
| `SealedNodes.EachOnceIff` | scripts/materialize_020a_test_runtime.py:312-322 | a sealing order that holds its own fronts changes each directory once if and only if no two of its names lead to one child of one directory |
| `SealedNodes.NewIsNoAlias` | agent/sandbox/hermetic_runtime.py:186-222 | below a directory made in the run nothing has two names |
| `SealedNodes.InnermostFirst` | scripts/materialize_020a_test_runtime.py:312-316 | of two directories whose modes are changed the inner one comes first, whatever names led to them |
| `Admission.CheckAdmission` | scripts/materialize_020a_test_runtime.py:269-284 | the loop accepts if and only if no path of the source, the destination or a protected root starts the other and no identity chain does; in a tree with one name per directory and one spelling of the root it accepts a new destination if and only if destination and source, destination and every protected root, and source and every protected root are disjoint subtrees |
| `Admission.AdmittedIff` | scripts/materialize_020a_test_runtime.py:130-162 | the checks pass if and only if those subtrees are disjoint; disjointness is enough in every tree |
| `Admission.ProtectedRootsAreApart` | scripts/materialize_020a_test_runtime.py:134-162 | admission keeps the destination's whole subtree, and the source's, disjoint from every protected subtree, in a tree with unique parents |
| `Admission.DestinationDisjointIff` | scripts/materialize_020a_test_runtime.py:153-162 | the new directory's subtree is disjoint from a pinned directory's if and only if that directory's identity chain is no prefix of the destination parent's |
| `Admission.SourceApartIff` | scripts/materialize_020a_test_runtime.py:269-284 | the destination is apart from the source if and only if the source's identity chain is no prefix of the destination parent's, a comparison the code does not make |
| `Admission.SourceIsApart` | scripts/materialize_020a_test_runtime.py:271-275 | with one spelling of the root and one name per directory the path comparison is enough |
| `Admission.DoubleSlashOverlaps` | scripts/materialize_020a_test_runtime.py:140-144 | a source given as //w and a destination /w/out pass every check, beside a protected root /p, and overlap |
| `MaterializerRuns.OverlappingRun` | scripts/materialize_020a_test_runtime.py:225-345 | a run that succeeds and delivers a destination inside its source |
| `DirectoryTree.DisjointIffIncomparable` | scripts/materialize_020a_test_runtime.py:134-162 | two subtrees are disjoint if and only if neither root's identity chain is a prefix of the other's |
| `DirectoryTree.UniqueChain` | scripts/materialize_020a_test_runtime.py:75-113 | two paths to the same directory have the same identity chain |
| `DirectoryTree.ChainGivesNames` | scripts/materialize_020a_test_runtime.py:134-144 | with one name per directory, identity prefixes are path prefixes |
| `Sealing.SealOrder` | scripts/materialize_020a_test_runtime.py:312-316 | the order holds exactly the root and every proper ancestor directory of an inventory file, sorted by the code's key |
| `Sealing.BeforeIff` | scripts/materialize_020a_test_runtime.py:316-316 | one directory precedes another exactly when it has more components, or as many and a smaller character, or the end, at the first difference |
| `Sealing.DescendantsFirst` | scripts/materialize_020a_test_runtime.py:312-316 | nothing inside a directory comes after it, and no directory comes twice |
| `Sealing.DirectoryParts` | scripts/materialize_020a_test_runtime.py:312-315 | the set comprehension collects exactly the root and the proper ancestors |
| `RunnerInput.ReadBoundedFd` | first_agent_skill_runner/__main__.py:117-131 | for every chunking of reads: the whole file when it has exactly the declared size, otherwise an error; at most one byte more is consumed |
| `RunnerInput.ValidateInputDescriptors` | first_agent_skill_runner/__main__.py:248-280 | the running sum and the slot set accept exactly the lists of at most 16 valid descriptors with distinct slots and at most 64 MiB together |
| `RunnerInput.ValidAloneIs` | first_agent_skill_runner/__main__.py:225-274 | a descriptor passes exactly when its slot, size, digest and magic list are in the alphabets and bounds of the format, the magic list in strictly increasing order |
| `RunnerInput.InputMapHasAll` | first_agent_skill_runner/__main__.py:580-583 | the dict comprehension has one entry for each descriptor, none overwritten |
| `RunnerInput.BytesAreTotal` | first_agent_skill_runner/__main__.py:580-583 | inputs of their declared sizes have the declared total |
| `RunnerLimits.Limits.ApplyHardLimits` | first_agent_skill_runner/__main__.py:306-330 | it succeeds if and only if limits are available, the digest names a profile, every declared value is within the hard limit or may be raised, and no call fails; then every declared limit is soft = hard = value, undeclared ones untouched; failure: nothing changed, or it stopped at one limit whose hard value is kept; a hard limit is raised only by a privileged process and only to its declared value |
| `RunnerLimits.DeclaredTable` | first_agent_skill_runner/__main__.py:47-72 | the fifteen declared values of the three closed profiles |
| `RunnerLimits.NoneRaisedIff` | first_agent_skill_runner/__main__.py:306-330 | after a success no hard limit was raised if and only if every declared value is within the old hard limit; an unprivileged success is always such |
| `RunnerLimits.RaisingRun` | first_agent_skill_runner/__main__.py:306-330 | a privileged process whose run succeeds and ends with a higher hard limit |
| `SkillRunner.ValidateRequestIdentity` | first_agent_skill_runner/__main__.py:283-303 | a request passes if and only if all its identity fields, its script descriptor and its input descriptors are valid |
| `SkillRunner.CanonicalIff` | first_agent_skill_runner/__main__.py:211-215 | a script path is canonical exactly when it is scripts and at least one more component, joined by slashes, none of them empty, a dot, two dots or with a backslash |
| `SkillRunner.FiniteJsonIff` | first_agent_skill_runner/__main__.py:191-208 | a value is accepted exactly when nothing in it, at any depth, is an infinite float, a foreign value or a dict with a key that is no string |
| `SkillRunner.UnhexSpells` | first_agent_skill_runner/__main__.py:245-245 | the bytes of a hexadecimal string are half as many, and each is spelled by its two digits, upper half first |
| `SkillRunner.OpenSessionDirectory` | first_agent_skill_runner/__main__.py:333-346 | one new descriptor or none |
| `SkillRunner.ReadExactInput` | first_agent_skill_runner/__main__.py:349-398 | no descriptor is left on any exit, failing closes included; bytes returned were read from the entry of the slot in inputs, which has one link, and have the declared size and digest and, if any magic is declared, start with the bytes that one of its digit strings spells; when no call fails, the entry is there and the file keeps its size, exactly such bytes are accepted |
| `SkillRunner.ReadExactScript` | first_agent_skill_runner/__main__.py:401-468 | the walk leaves no descriptor on any exit; bytes returned were read from the file at the script's path in the package, which has one link, and have the declared size and digest; when no call fails, the path leads there and the file keeps its size, exactly such bytes are accepted |
| `SkillRunner.PinPrecreatedOutputs` | first_agent_skill_runner/__main__.py:497-532 | it succeeds if and only if both entries are files with one link and its seven calls work, and then adds exactly two descriptors, on two different files; a failure adds none, except exactly when the first six calls worked and the close of the session directory raised: then both stay open |
| `SkillRunner.StrandingRun` | first_agent_skill_runner/__main__.py:524-532 | a run in which that close raises and both outputs stay open |
| `SkillRunner.ReleaseOutputs` | first_agent_skill_runner/__main__.py:616-618 | both are released if the close of the result works, whether or not the artifact's raises; the artifact's stays open if and only if the close of the result raises; which closes raised is stated exactly |
| `SkillRunner.WriteAll` | first_agent_skill_runner/__main__.py:491-494 | for every pattern of positive short writes the file holds all of the content, or a front of it when a write raised |
| `SkillRunner.WritePinnedPrecreated` | first_agent_skill_runner/__main__.py:535-549 | nothing is changed before the truncation; after it the file holds a front of the content, all of it on success; no other file is changed |
| `SkillRunner.WriteOutputs` | first_agent_skill_runner/__main__.py:611-613 | the artifact is truncated only after the whole result was written, and not at all when there is none |
| `SkillRequest.ExecuteAuthenticatedRequest` | first_agent_skill_runner/__main__.py:566-618 | code runs only when identity, limits, inputs and script were all checked and while two descriptors opened by the run are open on the two output files, and then it runs unless a call fails, a file is cut while it is read, or an input or the script is not what the request declares; which descriptors are left is stated exactly, in terms of which checks pass and which closes raise; with nothing truncated both outputs are unchanged; a success wrote exactly the encoded result and artifact |
| `SkillRequest.InputsAreExact` | first_agent_skill_runner/__main__.py:580-583 | an accepted request gives an input map with one entry per descriptor, each of its declared bytes, 64 MiB at most in all |
| `SkillRequest.SuccessIsExact` | first_agent_skill_runner/__main__.py:604-615 | on success the two files hold exactly the encoded result and the artifact, and no other file changed |
| `SkillRequest.Outputs` | first_agent_skill_runner/__main__.py:594-611 | an answer is accepted if and only if it has the expected kind, a finite payload that encodes, bytes or no artifact, and at most 64 MiB together |
| `CandidateRelease.BuildCandidate` | scripts/build_candidate_manifest.py:437-475 | in every run, with anything done by others between any two calls: however it ends, the run has made nothing, or a front of the targets in order, in directories on their way, and after all of them one temporary name beside the output; when it fails no link was made and no step made an entry at the manifest's path, unless that is the temporary name itself; it links the manifest exactly on success; then both leaves were seen absent, this run made the output directory where nothing was, and every path of the inventory that is not private, and no other, was created exclusively and read back with the digest frozen before the first write; while others leave the builder's files alone, the files below the output directory are exactly the targets, with those digests, and there is no link; nothing but the temporary name is ever unlinked |
| `CandidateRelease.NoManifest` | scripts/build_candidate_manifest.py:412-475 | a run without a link has no step that creates a file, a directory or a link at the manifest's path, unless its temporary name is that very path |
| `CandidateDisk.MadeIsListed` | scripts/build_candidate_manifest.py:330-434 | every file, directory and link that the builder made is listed in its log, under the path it was made at |
| `CandidateLayout.ExactlyTargets` | scripts/build_candidate_manifest.py:321-372 | while others leave alone what the builder made, a path below the directory that it made leads to a file if and only if it is a target, and never to a link |
| `CandidateRelease.CopyTree` | scripts/build_candidate_manifest.py:357-409 | exactly the targets of the frozen paths are created, in order; each is verified; the entries list each path with its digest; on failure a front of them |
| `CandidateRelease.EntriesAre` | scripts/build_candidate_manifest.py:380-409 | an entry says untracked, modified or unmodified, and whether the head differs, exactly as the tracked and dirty sets do |
| `CandidateRelease.PublishManifest` | scripts/build_candidate_manifest.py:412-434 | it creates nothing but one temporary name beside the manifest; the manifest appears only through one link, made after the whole payload was written under that name; once that name was created the last call is its unlink, and nothing is left there if it works; left alone, with every call working, it succeeds if and only if both names are free |
| `CandidateRelease.Freeze` | scripts/build_candidate_manifest.py:446-450 | success means that every path has a digest and that this run made the output directory where nothing was; on a failure the builder changed nothing |
| `CandidateBuilder.Preflight` | scripts/build_candidate_manifest.py:300-318 | every path, and nothing else, gets the digest of bytes read from it after it was seen to be no link and a regular file, without one change of the disk; left alone, with every call working, it succeeds if and only if every path is a regular file |
| `CandidateBuilder.WriteTarget` | scripts/build_candidate_manifest.py:341-372 | the target was created where nothing was, and a later read of it gave the frozen digest; while others leave it alone it holds those bytes; left alone, with every call working, it succeeds if and only if there is a free place at the target and the payload has that digest |
| `CandidateBuilder.PlanTargets` | scripts/build_candidate_manifest.py:210-227 | it only looks; it accepts nothing but two different leaves, both seen absent, of one physical directory outside the repository and not above it, and refuses such a pair only when it has seen one of them |
| `CandidateBuilder.CheckParentBoundary` | scripts/build_candidate_manifest.py:196-207 | accepts exactly the directories that neither contain the repository nor lie in it |
| `CandidateBuilder.OutputIsOutside` | scripts/build_candidate_manifest.py:196-227 | everything below an accepted output is outside the repository, and the repository is not below it |
| `CandidateBuilder.SourcePaths` | scripts/build_candidate_manifest.py:289-297 | keeps, each once and in their order, exactly the paths without an excluded first component, an inner __pycache__, a component ending in .egg-info, and a last component that is .env, .netrc, .git-credentials or config.yaml, starts with .env, or ends in .pem, .key, .pyc or .pyo |
| `CandidateBuilder.PrivateIff` | scripts/build_candidate_manifest.py:230-241 | the privacy test finds exactly those, by the components that slashes separate |
| `Text.SplitOfJoined` | scripts/build_candidate_manifest.py:231-231 | only the components without a slash that join to a path are its split |
| `CandidateBuilder.SpelledBelow` | scripts/build_candidate_manifest.py:358-361 | an input and its target lie at the components of its path below the repository and below the output |
| `CandidateOthers.ForeignEntriesSurvive` | scripts/build_candidate_manifest.py:330-434 | whatever was there before the run and is not changed by others is there after it with its bytes, unless the temporary name came to lead to that very place |
| `CandidateOthers.RunIsHarmlessIff` | scripts/build_candidate_manifest.py:330-434 | the builder's steps of a run keep every entry of others if and only if every unlink meets a file of the builder |
| `CandidateOthers.RespectfulIsHarmless` | scripts/build_candidate_manifest.py:412-434 | while others leave the builder's files alone, every unlink does |
| `CandidateOthers.HarmfulRun` | scripts/build_candidate_manifest.py:412-434 | the calls of the publication, in order, on a disk where somebody swaps the temporary file before the last: the manifest is linked, and the unlink takes away his file |
| `CandidateWorld.World.CreateExclusive` | scripts/build_candidate_manifest.py:341-354 | an exclusive creation adds one empty file where nothing was |
| `CandidateWorld.World.Link` | scripts/build_candidate_manifest.py:421-431 | a link adds one name where nothing was, to the file at the temporary name |
| `ProcessTree.DescendantPids` | scripts/browser_e3_journeys.py:181-197 | the changed-flag loop ends for every snapshot, parent cycles included, with exactly the pids reachable from the root, in any iteration order |
| `ProcessTree.Descendants` | scripts/browser_e3_journeys.py:181-197 | the identities returned are exactly those of the proper descendants in the snapshot |
| `ProcessTree.OwnedProcesses.Observe` | scripts/browser_e3_journeys.py:199-206 | what is owned is always exactly what descended from the root in some snapshot and not in the baseline; a failing snapshot makes the tracker uncertain for good |
| `ProcessTree.OwnedProcesses.ConfirmedGone` | scripts/browser_e3_journeys.py:208-225 | true if and only if no observation failed, something was owned, and some snapshot up to the deadline holds none of the owned identities, with no failing one before it |
| `Supervisor.PassIffClean` | scripts/f2_f3_local_browser_journeys.py:829-889 | a verdict passes if and only if no deadline was seen, the exit was 0, the group is gone, no stream overflowed, and the output was one record with the canonical name, both flags true and no codes |
| `Supervisor.ProtocolSilentIff` | scripts/f2_f3_local_browser_journeys.py:829-868 | the protocol check raises no code and confirms both flags exactly on that one record |
| `Supervisor.RunBounded` | scripts/f2_f3_local_browser_journeys.py:651-891 | for any child the supervisor is back within budget + 15 s + the termination bound + 6 s + 1 s + two select slices; it gives no verdict if and only if the liveness probe raises, or parsing the retained output raises anything but a JSONDecodeError; the verdict says timeout if and only if no exit was seen before the deadline, worker terminated if and only if the exit was seen at the check and a known group was gone, cleanup and target as the only well-typed record says, and false without one, and carries each code if and only if its own fact holds; it passes if and only if everything went well; a passing run ends within budget + 1 s; a known group is terminated only after the deadline and 15 s, and always when its child has not exited by then; what the child wrote is read to the end, unless select raises or the last drain takes its whole second |
| `Supervisor.JudgeTells` | scripts/f2_f3_local_browser_journeys.py:725-891 | every flag and every code of a verdict, one by one, is a fact about the child, its group and its streams, or one of the first eight codes of the only well-typed record |
| `Supervisor.DrainWork` | scripts/f2_f3_local_browser_journeys.py:735-754 | the work loop ends with the exit seen before the deadline, or within a select slice after it; everything read from a pipe is fed to its sink |
| `Supervisor.DrainCooperative` | scripts/f2_f3_local_browser_journeys.py:759-767 | the cooperative loop ends within its deadline and one select slice, and an exit that was known stays as it was |
| `Supervisor.BoundedBytes.Feed` | scripts/f2_f3_local_browser_journeys.py:72-79 | the sink keeps exactly the front of everything fed to it, up to its limit, and counts all of it |
| `Journey.JourneyCleanup.Close` | scripts/f2_f3_local_browser_journeys.py:112-127 | each callback runs once, last registered first, whatever the others raise; a second call runs none; an interruption ends it |
| `Journey.ExecutedIsReverse` | scripts/f2_f3_local_browser_journeys.py:112-127 | the callbacks that run are a front of the reverse of the registrations, and all of them if and only if none but the one registered first interrupts |
| `Journey.InterruptionSkips` | scripts/f2_f3_local_browser_journeys.py:112-127 | an interruption in the callback registered last keeps the other from running |
| `Journey.CleanMeansReturned` | scripts/f2_f3_local_browser_journeys.py:112-127 | no recorded failure means that every callback returned |
| `Journey.RestartOutclosing` | scripts/f2_f3_local_browser_journeys.py:282-422 | the second generation is started exactly when the first is finished, cleaned up and durably CLOSED; the journey passes exactly when both are finished and cleaned up and the closure is clean; cleanup is confirmed exactly when every callback of what was started returned; the failure codes are those of the first reason; an interruption escapes exactly where it happens |
| `SessionRounds.Session.Run` | main.py:1389-1886 | over any number of rounds and any failing step the events are, round by round, what it acquired, with every callback of it registered at once, and then its own whole cleanup; force-new and select-required hold exactly in the round after their request; a round follows exactly when the one before asked for it and was cleaned up; an exclusive memory is created at most once |
| `SessionRounds.GoesRoundIff` | main.py:1850-1886 | a round is followed by another if and only if no step stops it, /new or, outside the TUI, /switch asks for it, and every cleanup returns |
| `SessionRounds.EndOfRound` | main.py:1850-1886 | with cleanups that return: a stopped round ends with 2 or the exception, an exit with its code, and a /switch in the TUI with 78 |
| `SessionRounds.CloseEndIs` | main.py:1217-1231 | closing ends normally exactly when every callback returns, and otherwise as the last one that raised |
| `SessionRounds.CreatedThenLoaded` | main.py:1036-1058 | the store is created in the first round only, and loaded in every later round that nothing stops |
| `SessionRounds.RoundRegisters` | main.py:1217-1231 | a round registers exactly the callbacks of the resources that it acquires up to where it stops, in order |
| `SessionRounds.RunsAreRegistrations` | main.py:1217-1231 | over any number of rounds each callback runs exactly as often as it was registered |
| `SessionRounds.Session.CloseStack` | main.py:1217-1231 | everything pending runs, last registered first, whatever the others raise |
| `SessionRounds.Session.OpenMemory` | main.py:1036-1058 | an exclusive creation is asked for only while it was never done; after it the store is loaded |

## Left out

- LedgerRecorder.Record: a single call on a file it has to itself; interleaving is the subject of `LedgerRuns`.
- LedgerProtocol: the parent directory's qualification and the owner checks are steps that may fail, without the stat fields behind them; an unhashable `kind` raises TypeError in the original and is not modelled.
- Materializer.Materialize: the qualification of the runtime closure, the re-qualification and the mode bits are checks that may fail, while which modes are changed is a log; only the two exception classes that the code handles are modelled, so an interruption in the middle is not.
- RuntimeWalk.CopyExactFile: file modes and the stat fields of the source are checks that may fail; with nobody else changing the tree, its second reading of the source reads the same bytes.
- SkillRunner.ReadExactInput: stat fields are reduced to the link count; the rest of `_stable` is a check that may fail.
- SkillRequest.ExecuteAuthenticatedRequest: the encodings of the result and of arguments are parameters; compiling and running package code is one nondeterministic step each, and so it is said when code runs and what an answer means, and not when a request is answered; reading and parsing `request.json` and the command line are not modelled.
- RunnerLimits.Limits.ApplyHardLimits: other processes changing this one's limits are not modelled.
- CandidateRelease.BuildCandidate: success is said exactly for its parts, the plan, the preflight, one exclusive copy and the publication, and not for the whole run, which others decide by what they do meanwhile; the `git` queries are two answers that may fail; the reason texts and the fixed fields of the manifest are part of the encoding parameter.
- CandidateBuilder.EnsureDirectory: the order in which `os.makedirs` looks at the ancestors is fixed from the top.
- CandidateWorld.World.Unlink: links that led through a link just removed keep leading there until somebody else's next step.
- ProcessTree.OwnedProcesses.ConfirmedGone: the deadline is the number of snapshots it leaves room for, not a clock.
- Supervisor.RunBounded: `terminate_group` is a call with a time bound; the child and its descendants write anything at any time; the parse of the output is a parameter; `_journey_disposition` and the loop of `main` over journeys are settled by one branch each.
- Journey.RestartOutclosing: the work of a generation is one outcome; its steps and the content of its durable record are not modelled.
- SessionRounds.Session.Run: startup steps that register no callback are one step that may stop the round; status texts are not modelled.
- The runtime kernel, session stores, the browser adapter, memory, MCP and automation modules are not part of this model.
- The receipt checkers, graders and scripted acceptance journeys other than `_transport_counts`: long conjunctions of field checks, each settled by one branch.
- Command-line texts, prompts and rendering: user interface.
