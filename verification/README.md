# Verification of familiar-fleet

familiar-fleet connects a machine to a Familiar rendezvous: it enrolls through
the browser, keeps a worker runtime activated, and supervises a Herdr server, a
callback sshd and a reverse tunnel. This project models the parts of it whose
correctness is spread over many steps or functions, and proves what they are
for. Six parts, each a few modules:

**The runtime store** (`runtime_runs`, `runtime_laws`, `runtime_steps`,
`runtime_history`, `runtime_commands`, `runtime_store`, `file_path`).
`RuntimeRuns` is a system of single file-system steps: every rename, removal and
record write is one step, a crash may follow any of them, and in between the
outside world may change anything that a garbage collector honouring roots may
change. Runs interleave apply, true-up and rollback without bound.
`RuntimeStore.Store` is the store and its applier as the code has it, a class
whose methods replace fields in place; each method marks the steps it takes, so
that its state is always one reached by a run and all laws about runs hold of
it. `FilePath` is Go's lexical `filepath.Clean`, `Dir` and `Base`, because the
code cleans a target in some places and not in others.

The comment on `Activate` (internal/runtime/store.go:250-251) says that a crash
leaves both pointers untouched or fully updated. The code has a third outcome,
both pointers at the old runtime. `RuntimeLaws.ActivationCut` proves the three
outcomes, `RuntimeLaws.TornIff` says exactly when the third can be seen, and
`RuntimeLaws.TearArises` is a run that gets there. `RuntimeCommands` shows that
this is the only way for both pointers to hold the same link, and that runs
without it do to the pointers just what their completed commands do.

**The browser connect** (`connect`, `connect_evidence`). A main goroutine, any
number of request handlers, the two handlers that win a compare-and-swap, three
atomics, five channels, a deadline and a shared token, interleaved arbitrarily.
An error result does not mean that nothing is persisted: the winning handler may
be inside its enrollment when the deadline ends Connect, and may even go on
afterwards. `Connect.PersistsIff` says exactly which returned runs persist, by
what the submission had done at the return; `Connect.OtherErrorsPersistNothing`
leaves the timeout of the machine-name form as the only error with which this
can happen.

**Supervision** (`supervision`, `supervision_runs`, `sessions`,
`session_duties`, `reconnect`, `herdr_session`). `Supervision` is one visible
invocation with its tunnel goroutine, while any child may exit at any moment.
`Sessions` is any number of invocations, services and stop commands around one
named server. It assumes that status answers are truthful and that the windows
between a status query and a ready server do not overlap;
`Sessions.OverlapMistakesTheSpawner` shows what happens when they do. Even then
"only tear down a server we created" does not hold of the code, because the stop
goes by name: `Sessions.CleanupHitsAnother` is a run in which an invocation
whose own server has died stops another's. `Sessions.CleanupHitsAnotherIff` says
of any clean-up by a spawner, visible or service, that it hits another's server
exactly then. An adopting service and a stop command stop whatever server runs,
by design. `Reconnect` is the backoff loop.

**The generated configuration** (`line_merge`, `herdr_config`). The line
rewriter, proved for any line scanner and then instantiated with the client's.

**Generated shell text** (`quoting`, `pane_shell`, `pane_assertions`,
`zsh_shim`). Readers for POSIX shell words, fish single quotes, TOML basic
strings and sshd arguments; the launcher's command lines; the PATH assertion;
and the zsh start-up shim, compared with a native start for arbitrary user
files. The shim is faithful exactly when ZDOTDIR is never empty or spelled as
HOME itself and `.zshenv` does not unset a custom one. An empty ZDOTDIR launches
as an unset one, whereas zsh, by its documented rule, falls back to HOME only
for an unset one; the comment at internal/client/paneshell.go:175-176 takes the
two for the same. Faithful or not, the runtime comes first on PATH:
`ZshShim.RuntimeFirst` asks nothing of the user's files. A path in shell quotes
is read by fish as itself exactly when it has no doubled and no final backslash.

**Keys and environments** (`public_key`, `server_env`). Base64, the Ed25519 key
blob, the normal form of a key; and the environment list of the Herdr server.

`text` and `words` hold strings, splitting, trimming and fields. What the world
answers, such as whether an output starts, a nonce matches or a status query
reports a verdict, is always an input or part of a step's label, so that
theorems can say what follows from which answer.

## Model

| member | source | states |
|---|---|---|
| RuntimeRuns.StepKeeps | internal/runtime/store.go:252-390 | every step of apply, true-up and rollback, every crash and every outside step keeps: pointers clean, store targets rooted and valid, the record earned |
| RuntimeRuns.PointersStaySafe | internal/client/runtimeapply.go:108-123 | in every reachable state, current and previous, when store outputs, have their own GC root and are valid runtimes |
| RuntimeHistory.PointersInPlainTerms | internal/runtime/store.go:113-141 | the same spelled out: the output is there under that name, its root link points at it, and the name holds none of the eight unsafe characters |
| RuntimeHistory.CollectorMayTake | internal/runtime/store.go:324-326 | the collector of the runs may take any output but a store output with its own root |
| RuntimeHistory.NonLinksStay | internal/runtime/store.go:299-304 | over whole runs nothing but a symlink is replaced or removed |
| RuntimeHistory.TrailIsTrue | internal/client/runtimeapply.go:81-130 | a run's history holds only what happened in it: a build of the output, a passed validation, a start, a rename onto current |
| RuntimeHistory.ActivatedHadStarted | internal/client/runtimeapply.go:99-104 | every output an apply made current had been built for the installable, was found usable and started when smoked, within the run |
| RuntimeHistory.SkipHadStarted | internal/client/runtimeapply.go:61-77 | what a skip relies on had started so |
| RuntimeLaws.SkipIsSound | internal/client/runtimeapply.go:61-77 | a skipped apply of i finds current valid, rooted if a store output, and built for i, validated, smoked and activated earlier |
| RuntimeLaws.SkipAgreesWithBuild | internal/client/runtimeapply.go:81-84 | when builds are a function of the installable, a skip names what the full path would build |
| RuntimeLaws.CompletedApplySticks | internal/client/runtimeapply.go:117-130 | whatever came before, a completed apply leaves its output current and recorded, and the next one skips exactly when the output is clean, still valid and the installable not empty |
| RuntimeLaws.RootsStayNamed | internal/runtime/store.go:327-356 | over whole runs root b points at /nix/store/b |
| RuntimeLaws.RetainNeverRefused | internal/runtime/store.go:336-343 | from named roots the unexpected-target branch is unreachable and the root is in place afterwards |
| RuntimeLaws.PruneCutAnywhere | internal/runtime/store.go:376-389 | wherever the pruning loop is cut, exactly the visited roots whose target is not kept are gone and nothing else changed |
| RuntimeLaws.PruneIsExact | internal/runtime/store.go:358-390 | a finished prune leaves exactly the old roots whose target is current or previous |
| RuntimeLaws.AtMostTwoRoots | internal/runtime/store.go:358-390 | named roots with kept targets number at most two |
| RuntimeLaws.ActivationCut | internal/runtime/store.go:252-278 | cut anywhere, activating t from (c, p) leaves (c, p), (c, c) or the complete rotation |
| RuntimeLaws.TornIff | internal/runtime/store.go:248-278 | the middle outcome, which the comment excludes, can be seen exactly when another absolute path is current, previous differs from it and is not blocked, and the target's text is acceptable |
| RuntimeLaws.TearArises | internal/runtime/store.go:269-277 | a reachable state in which that outcome can be seen |
| RuntimeCommands.RunsPerform | internal/runtime/store.go:252-297 | over any run not torn between renames, with refusals, failures, pruning and collection in between, the pointers end as the completed commands alone leave them |
| RuntimeCommands.CoincideIffTorn | internal/runtime/store.go:269-277 | over any run from a fresh node, after a step that leaves no rename pending, both pointers hold the same link exactly when that step tore an activation |
| RuntimeCommands.RollbackUndone | internal/runtime/store.go:280-297 | a completed rollback swaps the pair, and a second one undoes it |
| RuntimeCommands.RollbackParity | internal/runtime/store.go:280-297 | n completed rollbacks depend only on the parity of n; a pair left by a crash is a fixed point |
| RuntimeCommands.RunsOfRollbacks | internal/runtime/store.go:280-297 | so do the pointers after any run, not torn, whose completed commands are rollbacks, however many were refused |
| RuntimeStore.Store.Activate | internal/runtime/store.go:252-278 | on success the pair is rotated and nothing else moved; on error it is as before, or after an interruption half rotated; an unreadable current or an unacceptable target is an error |
| RuntimeStore.Store.ReplacePrevious | internal/runtime/store.go:299-316 | the link is replaced, or nothing is; anything but a symlink is left alone |
| RuntimeStore.Store.ReplaceCurrent | internal/runtime/store.go:299-316 | likewise for current |
| RuntimeStore.Store.RegisterGCRoot | internal/runtime/store.go:327-356 | succeeds exactly for a store output whose root is its own already or, when the name is free, is made by nix-store; a failure leaves the roots as they were, or with the link already made |
| RuntimeStore.Store.PointerTargets | internal/runtime/store.go:362-369 | collects the targets of both pointers, or fails when one is unreadable |
| RuntimeStore.Store.ReadRoots | internal/runtime/store.go:370-376 | lists each root once |
| RuntimeStore.Store.RemoveUnkept | internal/runtime/store.go:377-388 | the loop removes only roots of targets that are not kept, and on success all of them |
| RuntimeStore.Store.PruneGCRoots | internal/runtime/store.go:361-390 | exact on success; an unreadable pointer is an error with no root touched; on any error no kept root is lost, and pointers and record are untouched |
| RuntimeStore.Store.RecordApplied | internal/runtime/store.go:77-106 | replaces the record whole, or not at all |
| RuntimeStore.Store.Build | internal/runtime/store.go:396-416 | an absolute installable is its own cleaned output; anything else needs nix, no white space, and a print of exactly one field, which is the output; the error tells which |
| RuntimeStore.Store.Prepare | internal/client/runtimeapply.go:99-115 | only an output that starts, and for a store output only with nix-store and a root, comes through; an error changes neither pointers nor record, and no root except that a failed registration may have made its link |
| RuntimeStore.Store.Commit | internal/client/runtimeapply.go:116-130 | activation, pruning and record; after an error the pointers are untouched, half rotated or rotated to the built target |
| RuntimeStore.Store.Apply | internal/client/runtimeapply.go:81-130 | an apply that is satisfied changes nothing; one that succeeds leaves the built output, which starts, current and recorded; when nothing is built, or it does not start, or nix-store is missing for it, the apply fails with pointers, roots and record unchanged; any failure leaves the record alone and the pointers untouched, half rotated, or rotated to an output activated for this installable |
| RuntimeStore.Store.TrueUp | internal/client/runtimeapply.go:132-144 | refuses an unacceptable descriptor without effect; when satisfied it skips and changes nothing; on success the record names the descriptor, and for a clean store output it is then satisfied |
| RuntimeStore.AcceptableIff | internal/client/runtimedesc.go:16-53 | a descriptor is accepted exactly when its schema is 1 and its installable names one forty-digit commit of the Familiar flake |
| RuntimeStore.Store.Rollback | cmd/familiar-fleet/main.go:286-293 | swaps onto a valid previous runtime and prunes; refused, without effect, when there is none; after an error the pointers are untouched, half rotated or swapped |
| FilePath.CleanIdempotent | internal/runtime/store.go:320-322 | cleaning a path twice is cleaning it once |
| FilePath.StorePathShape | internal/runtime/store.go:320-335 | a store path cleans to /nix/store/ and its base name, which names its root |
| FilePath.StorePathIff | internal/runtime/store.go:320-322 | a store output is exactly what cleans to a name directly below /nix/store |
| FilePath.CleanDropsDot | internal/runtime/store.go:253 | empty and "." components mean nothing |
| FilePath.CleanUndoesName | internal/runtime/store.go:253 | ".." undoes the name before it |
| Connect.StepKeeps | internal/client/oauth.go:315-461 | every step of every goroutine keeps the invariant that ties winners, channels, token and history together |
| Connect.VisibleActions | internal/client/oauth.go:331-447 | for all interleavings the visible actions are a prefix of: state match, one exchange, its token, nonce check, one enrollment POST with that token, one persist |
| ConnectEvidence.ExchangeNeedsGoodCallback | internal/client/oauth.go:324-350 | every exchange follows the arrival of a GET callback with the flow's state, no provider error and a code |
| ConnectEvidence.WinnerDecides | internal/client/oauth.go:331-347 | when a callback wins while main waits, an exchange can follow exactly when it is such a callback |
| ConnectEvidence.NonceCheckNeedsMatch | internal/client/oauth.go:431-434 | the nonce check is passed only by an answer of the token endpoint with that token and a matching nonce |
| ConnectEvidence.PostNeedsGoodForm | internal/client/oauth.go:364-387 | every enrollment POST follows the arrival of a POSTed, parsed form with the flow's state and a valid name |
| ConnectEvidence.PersistNeedsAcceptance | internal/client/oauth.go:387-391 | nothing is persisted unless the endpoint accepted and finalize saved |
| ConnectEvidence.PageBeforeError | internal/client/oauth.go:426-440 | when a refused callback or a failed exchange is returned, the browser has been given its page |
| ConnectEvidence.TimeoutNeedsDeadline | internal/client/oauth.go:419-460 | a timeout is reported only after the deadline |
| Connect.SendsNeverBlock | internal/client/oauth.go:315-319 | no channel is sent on twice, so no send blocks |
| Connect.NeverDeadlocks | internal/client/oauth.go:419-440 | until it returns, main or the handler it waits for has a step, outside the two selects that wait for the user; a bare receive on callbackPageSent happens only when a winner exists that will send |
| Connect.RankFalls | internal/client/oauth.go:412-461 | main and the page winner take boundedly many steps, whatever the others do |
| Connect.NoTokenAfterReturn | internal/client/oauth.go:447-460 | once Connect has returned the shared variable holds no token |
| Connect.TimeoutAfterPersist | internal/client/oauth.go:447-460 | a run that returns the form timeout although the enrollment was persisted |
| Connect.ResultMeaning | internal/client/oauth.go:447-460 | success means persisted; an error result and an enrollment persisted by then go together for exactly the form timeout |
| Connect.PersistsIff | internal/client/oauth.go:382-398 | once Connect has returned, the enrollment is or may still be persisted exactly when the submission had read the token by then and not failed |
| Connect.OtherErrorsPersistNothing | internal/client/oauth.go:412-461 | after any error but the form timeout nothing is ever persisted |
| Supervision.StepKeeps | internal/client/supervise.go:111-329 | every step and every child exit keeps the invariant that each live child is held by someone who will stop it |
| Supervision.ExitLeavesOnlyTheServer | internal/client/supervise.go:280-329 | on every exit no sshd, ssh or TUI child lives and the tunnel loop is over; only a server spawned here may live on |
| Supervision.OneOfEachKind | internal/client/supervise.go:111-159 | at any time at most one child of each kind lives |
| Supervision.TornDownIff | internal/client/supervise.go:264-304 | the session is stopped, once, exactly by an invocation that spawned the server and failed to start infrastructure or TUI, and then nothing lives |
| Supervision.ReusedIsNeverStopped | internal/client/supervise.go:264-270 | a reused server is never stopped and no server child exists beside it |
| Supervision.LeavingSparesTheServer | internal/client/supervise.go:306-329 | leaving an attached session signals no server |
| Supervision.WindsDown | internal/client/supervise.go:74-99 | once the context is over at most 54 further steps of the client's own are possible, whatever children do |
| Supervision.NeverStuck | internal/client/supervise.go:280-329 | the client can always step until it returns, unless it waits attached with all it watches alive |
| SupervisionRuns.QueryDecides | internal/client/supervise.go:237-250 | a running server that is not incompatible is reused, an incompatible one ends the invocation, and only when none runs is one started |
| SupervisionRuns.SessionComesUp | internal/client/supervise.go:280-306 | with either kind of server a run reaches a session with server, sshd, ssh and TUI alive |
| SupervisionRuns.TunnelDoneIsOver | internal/client/supervise.go:397-429 | the tunnel loop is over only when its context is |
| SupervisionRuns.TunnelComesBack | internal/client/supervise.go:397-429 | while the context lasts the loop can get to a live ssh child from wherever it stands |
| SupervisionRuns.RestartsAreDelayed | internal/client/supervise.go:415-427 | over whole runs every ssh child but the first follows a delay that ran out |
| SupervisionRuns.FiveAttempts | internal/client/supervise.go:111-159 | unless a child cannot be started or the context ends, the infrastructure is given up only after five sshd children |
| SupervisionRuns.OutcomeTells | internal/client/supervise.go:306-329 | a reported cancellation, server exit or TUI exit is what happened |
| SupervisionRuns.NothingUnseen | internal/client/supervise.go:127-189 | a server counts as spawned only after it was seen running, the tunnel starts only after sshd was seen listening, and a TUI is said to have exited only when one has |
| SupervisionRuns.KilledAfterSignal | internal/client/supervise.go:74-99 | a child is killed only after it was signalled |
| Sessions.StepKeeps | internal/client/supervise.go:237-377 | with windows that do not overlap, every step keeps one server, one window, and each holder holding its own |
| Sessions.OneServerOneOwner | internal/client/supervise.go:237-258 | at most one server lives and at most one invocation owns it |
| Sessions.SpawnedIsNeverMistaken | internal/client/supervise.go:165-189 | the server seen ready is the one this invocation spawned |
| Sessions.EndsOnlyBy | internal/client/supervise.go:264-377 | a server ends only by its own exit, its spawner's stop of its child, or a stop by name from a command, a service or an invocation that spawned |
| Sessions.MetServerIsSpared | internal/client/supervise.go:237-249 | meeting a server with the verdict "incompatible" refuses the invocation for good, any other verdict or none lets it use the server; one that is refused so, or visible, never spawns a server and never ends one |
| Sessions.BystandersEndNothing | internal/client/supervise.go:237-267 | over whole runs, an invocation that reused a server or was refused has ended none, except one it failed to start itself |
| Sessions.CleanupHitsAnotherIff | internal/client/supervise.go:264-270 | a spawner's stop by name hits another's server exactly when its own child has exited |
| Sessions.CleanupHitsAnother | internal/client/supervise.go:264-270 | a run in which that happens |
| Sessions.OverlapMistakesTheSpawner | internal/client/supervise.go:165-189 | with overlapping windows two servers live and one is taken for the other |
| SessionDuties.ServiceLeavesNothing | internal/client/supervise.go:331-377 | a service that has returned, and any refused invocation, leaves no server of its own alive |
| SessionDuties.ServiceStays | internal/client/supervise.go:341-377 | a service ends by itself only when its server is dead, or when the session it adopted does not run |
| SessionDuties.GiveUpTearsDown | internal/client/supervise.go:264-270 | a spawner that gives up does not return before its server is dead |
| SessionDuties.ObeyedStopEnds | internal/client/herdrsession.go:60-99 | an obeyed stop leaves no ready server |
| SessionDuties.StopCommandStops | internal/client/herdrsession.go:60-99 | an explicit stop of a running session ends its server and no other state of a server |
| HerdrSession.StopHerdrSession | internal/client/herdrsession.go:60-99 | success exactly when the session was not running or is seen gone; the command's exit status decides only the wording of a failure |
| Reconnect.Backoff | internal/client/supervise.go:431-447 | computes the delay with its bounds |
| Reconnect.DelayBounds | internal/client/supervise.go:431-447 | a delay lies between min(2^a, 30) and 30 seconds, at most a fifth above the former |
| Reconnect.DelaysGrow | internal/client/supervise.go:431-447 | whatever the dice, a later attempt waits no less |
| Reconnect.TunnelLoop | internal/client/supervise.go:397-429 | the loop's waits are those of its counter, reset by a two-minute run |
| Reconnect.WaitsDouble | internal/client/supervise.go:397-447 | from the start, and after a two-minute run, the k-th wait of an outage lies between min(2^k, 30) seconds and a fifth more, never over 30 |
| Reconnect.LoopIsPaced | internal/client/supervise.go:397-447 | anywhere in a loop, n >= 5 rounds without a two-minute run wait at least 31 + 30(n - 5) seconds |
| Reconnect.RecoveryResets | internal/client/supervise.go:412-414 | the wait after a two-minute run is at most 1.2 seconds |
| LineMerge.Run | internal/client/paneshell.go:377-405 | the one-pass loop computes the merge defined by recursion over the lines |
| LineMerge.MergeKeepsAndTidies | internal/client/paneshell.go:357-405 | for any scanner: own lines survive verbatim and in order, every owned header carries exactly the block, nothing else is managed, one header exists |
| LineMerge.RemergeStable | internal/client/paneshell.go:377-405 | merging tidy lines again changes no assignment and adds one line per header |
| HerdrConfig.MergeHerdrConfig | internal/client/paneshell.go:362-406 | refuses NUL, otherwise produces the merged text |
| HerdrConfig.ScannerFits | internal/client/paneshell.go:408-428 | the client's scanner takes the written lines as they are meant |
| HerdrConfig.MergeMeans | internal/client/paneshell.go:357-406 | the user's lines survive, every [terminal] header carries exactly the managed lines, no other setting of theirs remains |
| HerdrConfig.FamiliarIsProper | internal/client/state.go:84-86 | the client's own comment and any one-line launcher path meet the requirement of these lemmas |
| HerdrConfig.MergedReadsBack | internal/client/paneshell.go:367-371 | the text reads back as the merged lines but for trailing blanks, with the same settings |
| HerdrConfig.MergeTwice | internal/client/paneshell.go:362-406 | a second merge is accepted and assigns the same, adding one comment line per header |
| HerdrConfig.MergedIsRead | internal/client/paneshell.go:366-370 | in the merged text there is a [terminal] table, under each of its headers default_shell is read as the launcher and shell_mode as non_login, once each, and neither is assigned anywhere else, dotted or not |
| HerdrConfig.LinesSpell | internal/client/paneshell.go:371-374 | the lines of a configuration spell it out, but for newlines at its end |
| HerdrConfig.EmptyBecomesTable | internal/client/paneshell.go:398-405 | an empty configuration becomes the table alone |
| HerdrConfig.HeaderReads | internal/client/paneshell.go:408-417 | a bracketed name, however indented and whatever follows, is a header, the terminal table's exactly when the trimmed name is "terminal" |
| HerdrConfig.AssignmentReads | internal/client/paneshell.go:388-394 | an assignment, however spaced, is managed exactly for the two bare keys in the table and the two dotted keys outside it |
| HerdrConfig.CommentReads | internal/client/paneshell.go:419-428 | a comment is always kept |
| HerdrConfig.ArrayReads | internal/client/paneshell.go:408-411 | the header of an array of tables is no header to the scanner |
| Quoting.QuoteRoundTrip | internal/client/config.go:95 | a POSIX shell reads shellQuote(s) as the single word s |
| Quoting.LineRoundTrip | internal/client/paneshell.go:160-197 | a line of bare words and quoted arguments ending in "$@" is read as exactly those and the script's own |
| Quoting.TomlRoundTrip | internal/client/paneshell.go:353-355 | TOML reads tomlString(s) back as s exactly when s has no control character but tab |
| Quoting.SshdRoundTrip | internal/client/config.go:91-93 | sshd reads sshdQuote(s) back as s exactly when s has no newline |
| Quoting.FishReadsPathIff | internal/client/paneshell.go:125-128 | fish reads shellQuote of a path without single quotes as that path exactly when it has no doubled and no final backslash |
| PaneShell.ExecLineRuns | internal/client/paneshell.go:158-221 | for every shell the launcher's last line runs exactly the intended command; fish's assertion is one argument |
| PaneShell.WrapperRuns | internal/client/config.go:41 | the herdr wrapper runs the pinned executable with its own arguments |
| PaneShell.PatternIsFirstEntry | internal/client/paneshell.go:112-123 | the case pattern matches exactly when bin is the first entry |
| PaneShell.AssertionWins | internal/client/paneshell.go:112-128 | the assertion puts bin first, keeps the old entries behind it, is idempotent, and means the same in sh and fish |
| PaneAssertions.ShRunsAssertion | internal/client/paneshell.go:112-123 | a shell running the generated case statement does what the assertion means, for every bin |
| PaneAssertions.FishRunsAssertion | internal/client/paneshell.go:125-128 | fish running the generated statement does too, for every path it reads back |
| PaneAssertions.ClassifiedByName | internal/client/paneshell.go:56-68 | a shell's family goes by its file name, wherever it is installed |
| ZshShim.ShimSimulatesZsh | internal/client/paneshell.go:175-310 | launched from anywhere, also from within the shim, it runs the same user files once each, in order, with the same view, exactly when faithful; then ZDOTDIR is the user's, the helpers are gone and the assertion came last |
| ZshShim.EmptyLaunchesAsUnset | internal/client/paneshell.go:175-184 | an empty ZDOTDIR is launched exactly as an unset one |
| ZshShim.RuntimeFirst | internal/client/paneshell.go:251-310 | at the end bin is first on PATH and the helpers are gone, whatever the user's files do |
| PublicKey.DecodeOfEncode | internal/client/state.go:339 | base64 decoding inverts encoding for all bytes |
| PublicKey.EncodeOfDecode | internal/client/state.go:339 | a text that decodes to whole triples is the only encoding of its bytes |
| PublicKey.BlobFitsIff | internal/client/state.go:340-346 | the checked blobs are exactly the name as a string followed by 32 bytes as a string |
| PublicKey.AcceptsIff | internal/client/state.go:331-357 | a text is accepted as a key exactly when it is one line of the name, that key's encoding and at most a comment |
| PublicKey.AcceptedHasKey | internal/client/state.go:331-357 | every accepted text is accepted as the key in its blob |
| PublicKey.NormalFormIsFixed | internal/client/state.go:350-357 | every 32-byte key has an accepted text, and it is its own normal form |
| PublicKey.NormalizeIdempotent | internal/client/state.go:350-357 | normalising is idempotent and drops only the comment |
| PublicKey.SameTextIffSameBlob | internal/client/state.go:350-357 | normal forms are equal exactly when blobs are |
| Words.FieldsOfLaid | internal/client/state.go:332 | the fields of a text are its words, however they are spaced |
| PublicKey.WrittenKeyIsAccepted | internal/client/state.go:331-357 | a key written by hand, with any spacing on one line and at most a comment, is accepted in its normal form |
| PublicKey.KeysStartAlike | internal/client/state.go:339-346 | every accepted encoding has 68 characters and starts AAAAC3NzaC1lZDI1NTE5AAAAI |
| PublicKey.Alphabet | internal/client/state.go:339 | the digits are those of RFC 4648, section 4 |
| PublicKey.HostKeysAgree | cmd/familiar-fleet/main.go:440-468 | a supplied host key is trusted exactly when it is good and the server sent none, or a good one with the same blob |
| PublicKey.HostKeyAlone | cmd/familiar-fleet/main.go:440-468 | a key sent alone is trusted exactly when it is good, and without any key there is none |
| ServerEnv.EnvironMap | internal/client/herdrenv.go:44-52 | the loop builds the map that the next row characterises |
| ServerEnv.EnvMapIsLast | internal/client/herdrenv.go:44-52 | the map holds the keys some string assigns, each with the value of the last such string |
| ServerEnv.Rewrite | internal/client/herdrenv.go:123-146 | the loop yields the unmanaged strings in order and then the six managed ones |
| ServerEnv.RewrittenMeans | internal/client/herdrenv.go:123-146 | the list denotes the parent's map overridden at the managed keys |
| ServerEnv.EachKeyOnce | internal/client/herdrenv.go:126-146 | each managed key appears once with its value, every other key keeps its strings in order |
| ServerEnv.ServerSees | internal/client/herdrenv.go:123-146 | both hold of the six variables the client sets |
| ServerEnv.OthersIff | internal/client/herdrenv.go:126-137 | a parent's string is kept exactly when it is not a managed key, alone or with a value |
| ServerEnv.ServerVariable | internal/client/herdrenv.go:138-146 | each of the five other variables has its own value |
| ServerEnv.ServerPath | internal/client/herdrenv.go:139 | PATH as the server sees it is the runtime bin and then the parent's entries |
| ServerEnv.PathLeads | internal/client/herdrenv.go:139 | PATH is the runtime bin followed by the parent's entries |

## Left out

- Concurrent apply or rollback processes: the code takes no lock, and two of them can prune each other's fresh root. One process at a time is assumed.
- A root link is taken to exist exactly when it is registered with Nix; a rename is atomic; `nix-store --realise` makes no link but the one it is asked for, and has made it when it succeeds.
- Building, name lookup, starting an output and the collector are the world's answers; `usable` stands for every spelling under which stat finds a directory with an executable bin/pi, `starts` for those whose bin/pi answers the version check. In the runs both may change at any time; in the class, whether an output starts is fixed. The command lines, environments and time limits of builds and smoke checks are not modelled.
- The record's JSON and time stamp; a record that cannot be read counts as missing.
- Connect and supervision are step systems on values, because their state is shared by goroutines: what is not captured is Go's memory model. A step is one channel operation, atomic access, child event or call.
- HTTP calls end at some point; the OAuth metadata, the authorize URL, PKCE and random values, token parsing, pages and log lines are not modelled. Whether an ID token's nonce matches is part of the token endpoint's answer. A finalize function is always given; without one the code reports success and persists nothing. A submission that has read the token is taken as able to send it until its call fails; when the HTTP client notices an ended context is library behaviour.
- `Supervision`: a stop by name is one step here and is followed through in `Sessions`; sshd's port and configuration are not modelled; a killed child dies. `RunTunnel`, the same infrastructure without server and TUI, is not modelled separately.
- `Sessions`: a server that no longer answers is dead, and only the client starts servers of this name.
- Full TOML: quoted keys, multi-line values and `[[array]]` scoping are read as the client's scanner reads them. The TOML reader knows no \u escapes, which are never written.
- ShellQuote: strings are sequences of characters; the theorem needs no restriction, but a NUL cannot reach a program's arguments.
- zsh: `zsh -c` and system-wide files; user files leave HOME and the helper variables alone, and for the simulation `.zshenv` does not move ZDOTDIR to the shim's own directory.
- The bash and POSIX start-up files, the pane launcher's other lines, and file writing.
- PublicKey: text is characters, not bytes; Go's skipping of line breaks inside base64 cannot arise within a field.
- Flags, endpoint and host validation, state files, key generation, Tiamat preflight, the Pi profile.
