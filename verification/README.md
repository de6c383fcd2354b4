# Verified models of YubiTouch

YubiTouch is a macOS daemon that lets ssh and age use a YubiKey behind a public agent socket. Its
difficult parts are small state machines that must keep one property over every run. This project
models those parts in Dafny and proves the properties. `dafny verify dfyconfig.toml` checks all of it.

| file | what it models | form |
|---|---|---|
| `Basics` | options, bytes, clearing and copying of buffers | shared helpers |
| `RouteDisk`, `RouteGuard` | the file system with a recorded history of every disk, and the guard protocol: probing, atomic replacement, withdrawal | classes and methods |
| `Debounce`, `Router`, `RouteRestarts` | the agent router: debounce automaton on event logs, the router's methods and event loop, crash and restart under changing configurations | class, log predicates |
| `Coordinator` | the signing coordinator, one step per lock section or channel operation | step system |
| `HelperManager` | which helper processes exist and when a new one may start | step system |
| `SessionProtocol`, `SessionExchange` | the frames, the honest helper as an automaton, and manager and helper joined by two pipes | step system |
| `HelperLoop` | the helper's request loop over a failing environment, proved to follow that automaton and the lock, binding and session rules | classes and methods |
| `ProviderLedger`, `Provider`, `Backend` | PKCS#11 modules, sessions, searches and derived objects, with a ledger of everything asked of the provider | classes and methods |
| `AgentProxy` | one client connection of the agent proxy | class |
| `SshArguments`, `SshConfig`, `SshInspector`, `SshMatchSample` | words of a line, the incremental verdict, the walk over files and includes, and a configuration that misleads it | functions, class |
| `BitRegroup`, `Bech32`, `Bech32Sample` | bit regrouping and Bech32 decoding (BIP 173), and an accepted string | loops over specification functions |
| `Recipient` | canonical X25519 keys (section 4.1 of RFC 7748) and the recipient payload | loops over specification functions |
| `Framing`, `PinProtocol` | frames over partial writers and chunked readers, the bounded agent connection, the binary PIN protocol | classes, buffers |

Conventions. Fields called `faults` or `refusals` count every call that did not do what was asked, and
every change of something the code does not control. A clause that assumes the count unchanged says
exactly what an operation does when nothing goes wrong; the other clauses hold for every pattern of
failures. A context is a flag that, once set, stays set. Nondeterministic outcomes are arbitrary values
chosen in the environment classes, never in the modelled code.

Two properties of the code hold only under a condition, and both sides are proved. A helper is launched
only after every earlier one is reaped, unless a request fails to encode while the current helper has
just stopped badly and the manager has not heard of it: `HelperManager.HarmlessIsExact` states both
halves over runs, and `HelperManager.ViolatingRun` is one concrete run. A safe ssh verdict is ssh's own
result unless a Match block decides a field: `SshMatchSample.MatchBlockMisleads` gives a configuration,
`SshConfig.SafeUnderEveryMatch` the exact condition per host, and `SshConfig.VerdictIsRight` ties it to
the verdict. A third one is a corner case: the bounded agent connection keeps its frame bound exactly for
buffers whose length survives the conversion to 32 bits, `Framing.FitsIsExact`.

## Model

| member | source | states |
|---|---|---|
| `RouteDisk.GuardedStep` | internal/agentroute/guard.go:35-44 | a write to one path keeps the disk guarded if what is put there is no fallback link or is the guarded pair |
| `RouteDisk.FileSystem.Rename` | internal/agentroute/router.go:486-524 | an atomic rename moves exactly one entry, is recorded as one disk, and keeps every disk guarded when the moved link is allowed there |
| `RouteDisk.FileSystem.Crash` | internal/agentroute/router.go:140-169 | a process may die between any two file system operations, and the next one starts from that disk |
| `RouteGuard.ValidateSocket` | internal/agentroute/inspector.go:63-91 | without faults it accepts exactly the safe sockets that are not managed paths |
| `RouteGuard.InspectReplaceable` | internal/agentroute/router.go:540-571 | without faults the public path may be replaced exactly when it is missing, a link to an allowed target, or a stale socket |
| `RouteGuard.Revalidate` | internal/agentroute/router.go:573-610 | accepts only a path that still is what the inspection saw: missing, a link to an allowed target, or the very same stale socket; without faults exactly those |
| `RouteGuard.AtomicRoute` | internal/agentroute/router.go:486-524 | the public path afterwards is what it was or the new link; success means the new link, and without faults happens exactly on replaceable paths; temporary names are gone |
| `RouteGuard.RemoveRecordedFallback` | internal/agentroute/guard.go:256-278 | removes the link only if it is the recorded fallback, and reports success exactly when nothing or that link was there |
| `RouteGuard.FailClosedGuard` | internal/agentroute/guard.go:218-243 | success means the recorded pair is withdrawn; the path becomes missing or the PIV link or stays; a withdrawn pair is left alone |
| `RouteGuard.FailClosedFromGuard` | internal/agentroute/guard.go:35-44 | success, without any configuration, means that no public path leads to a fallback socket |
| `RouteGuard.ValidateGuard` | internal/agentroute/guard.go:46-59 | accepts exactly a stored guard equal to the one of the configuration |
| `RouteGuard.PersistGuard` | internal/agentroute/guard.go:88-127 | on success the guard file holds this configuration's pair, and no link has moved |
| `RouteGuard.FailClosedBeforeStart` | internal/agentroute/router.go:116-138 | withdraws this configuration's fallback link and nothing else |
| `Debounce.OneMore` | internal/agentroute/router.go:256-311 | one event keeps the evidence for the counter and for every fallback publication |
| `Debounce.ReconciledKeeps` | internal/agentroute/router.go:256-364 | one reconciliation extends a justified run to a justified run, whatever probes and inspections answer |
| `Debounce.ReconciledTicks` | internal/agentroute/router.go:231-239 | a reconciliation counts as a timer tick exactly when the timer started it |
| `Debounce.EventsAloneNeverPublish` | internal/agentroute/router.go:256-311 | every fallback publication comes after at least debounce-1 timer ticks, counted before it in the log, so device events alone never cause one |
| `Router.Router.RemoveFallbackRoute` | internal/agentroute/router.go:464-472 | only a fault can keep the fallback link |
| `Router.Router.SetRoute` | internal/agentroute/router.go:366-430 | success leaves exactly the link and snapshot of the route; a PIV route that fails leaves the fallback link only after a fault; failure leaves a link that the snapshot does not contradict unless the unlink itself failed; without faults it succeeds exactly on acceptable disks; the recursive fail-closed call terminates |
| `Router.Router.Initialize` | internal/agentroute/router.go:140-169 | success leaves the PIV link, a snapshot in agreement with it, the guard of this configuration on disk and no fallback link anywhere, and counts no timer tick; a clean disk without faults always succeeds |
| `Router.Router.FailClosed` | internal/agentroute/router.go:247-250 | the PIV link on success; otherwise the fallback link is gone unless a fault during this very call kept it, whatever the route was |
| `Router.Router.ReconcileProbeEvent` | internal/agentroute/router.go:348-364 | a device event raises the counter from zero to one at most and never publishes the fallback |
| `Router.Router.ReconcileWithDebounce` | internal/agentroute/router.go:256-311 | extends the log by exactly one admissible reconciliation, keeps link and snapshot in agreement unless a fault kept a link, and on success leaves the link of the published route |
| `Router.Router.Run` | internal/agentroute/router.go:171-222 | over whole runs every fallback publication is justified: zeros since the last other probe, enough timer ticks, a clean inspection, a zero recheck and an empty queue; the ticks come from the schedule; only a fault breaks the agreement of link and snapshot |
| `RouteRestarts.GuardDecides` | internal/agentroute/guard.go:35-44 | on a guarded disk the guard file alone decides whether any public path leads to a fallback socket |
| `RouteRestarts.LinkBeforeGuard` | internal/agentroute/router.go:149-168 | the order matters: with the link installed before the guard is written, a start that ends on the same guarded disk goes through an unguarded one |
| `RouteRestarts.PivMustNotBeFallback` | internal/agentroute/guard.go:61-86 | the disk after a start is unguarded exactly when some configuration uses its PIV socket as fallback socket, so the restriction on configurations is needed |
| `RouteRestarts.SwappedSocketsConflict` | internal/agentroute/guard.go:189-206 | two configurations, each valid on its own, that swap their sockets leave no guarded disk |
| `RouteRestarts.StartAndRun` | internal/agentroute/router.go:140-222 | from a successful start through any schedule link and snapshot disagree only after a fault, and a fallback publication needs debounce-1 timer wake-ups of that schedule |
| `RouteRestarts.WholeLife` | internal/agentroute/router.go:140-250 | after the final fail-closed call of a whole life only a fault can have kept a fallback link |
| `RouteRestarts.CrashAndRestart` | internal/agentroute/router.go:140-169 | over any number of lives, configurations and crashes, every disk that ever existed is guarded, and a successful withdrawal leaves no fallback link |
| `Coordinator.EveryStateKeeps` | internal/signing/coordinator.go:163-273 | the invariant of semaphore, active identifier, events and promises holds in every state of every run |
| `Coordinator.OneWorkerAtATime` | internal/signing/coordinator.go:194-273 | at most one worker is inside Ensure or the call, also after its waiter has returned |
| `Coordinator.LogShape` | internal/signing/coordinator.go:77-95 | a request's events are a prefix of initializing, waiting, then at most one terminal event |
| `Coordinator.NothingAfterTerminal` | internal/signing/coordinator.go:77-95 | later states only append to a log, and nothing after the terminal event; identifiers never change |
| `Coordinator.IdsIncrease` | internal/signing/coordinator.go:324-340 | a request that becomes active gets an identifier above all earlier ones |
| `Coordinator.CancelHitsOwner` | internal/signing/coordinator.go:282-300 | Cancel of an identifier changes no request but the one that owns it |
| `Coordinator.ReturnPromises` | internal/signing/coordinator.go:194-273 | nil only if the call ran exactly once and returned nil; exactly one terminal event before return; the cancel callback exactly once on timeout or cancellation and never otherwise |
| `Coordinator.SignatureIsThere` | internal/signing/coordinator.go:141-159 | at most one signature is ever sent, and exactly one has been when the operation returns nil, so neither the send nor the receive blocks |
| `Coordinator.NothingBeforeAcquire` | internal/signing/coordinator.go:163-193 | a request that has not got the semaphore has published and run nothing |
| `Coordinator.SuccessIsReachable` | internal/signing/coordinator.go:163-273 | some run takes a request through initializing and waiting to success |
| `HelperManager.RunKeeps` | internal/agehelper/hardware_session_manager.go:65-202 | in every run without the hazard, every process is accounted for by the manager, a call, the lifecycle lock or its clean exit |
| `HelperManager.EncodableRunsAreHarmless` | internal/agehelper/hardware_session_manager.go:155-162 | runs in which every request encodes are free of the hazard |
| `HelperManager.LaunchAfterReaping` | internal/agehelper/hardware_session_manager.go:127-154 | a helper is launched only when stop of every earlier one has returned nil, by a manager neither poisoned nor closed |
| `HelperManager.NoLaunchAfterFailure` | internal/agehelper/hardware_session_manager.go:326-344 | after a failed clean-up no launch ever follows |
| `HelperManager.OnlyNewestAlive` | internal/agehelper/hardware_session_manager.go:463-494 | at most the newest helper is not reaped |
| `HelperManager.InvalidateReaps` | internal/agehelper/hardware_session_manager.go:234-265 | when Invalidate or Close returns nil every helper ever launched is reaped |
| `HelperManager.HazardLaunches` | internal/agehelper/hardware_session_manager.go:155-162 | from the hazard the next Start launches a helper beside one whose clean-up failed |
| `HelperManager.HazardIsReachable` | internal/agehelper/hardware_session_manager.go:127-162 | a concrete harmless run, in which every request so far encoded, reaches the hazard |
| `HelperManager.HazardViolates` | internal/agehelper/hardware_session_manager.go:127-162 | every harmless run that meets the hazard goes on, in four steps, to a launch beside a helper that was not cleaned up |
| `HelperManager.HarmlessIsExact` | internal/agehelper/hardware_session_manager.go:127-162 | without the hazard no run launches beside an unreaped helper; any run with it, cut at its first hazard, has a continuation that does |
| `HelperManager.ViolatingRun` | internal/agehelper/hardware_session_manager.go:127-162 | one complete run of the manager that launches a second helper beside an unreaped one |
| `SessionExchange.EveryRequestFollowsItsScript` | internal/agehelper/hardware_session_manager.go:636-693 | what happens to a request is, in every interleaving, a prefix of: touch announced, continue sent, continue received, derived, key returned |
| `SessionExchange.ReturnedKeyWasTouched` | internal/agehelper/hardware_session_manager.go:566-608 | every key Wait returns is the one of that call's own envelope, after the complete script with that call's continuation |
| `SessionExchange.DerivedAtMostOnce` | internal/agehelper/hardware_session_helper.go:308-361 | no request is derived twice, and one whose key was returned exactly once |
| `SessionExchange.CapacityAgrees` | internal/agehelper/hardware_session_manager.go:346-359 | while no call is active the live helper's replay set is as large as the manager's count |
| `SessionExchange.NeverRefuses` | internal/agehelper/hardware_session_helper.go:381-393 | so the helper's refusals, for capacity or replay, are unreachable and every arriving request is accepted |
| `SessionExchange.FinishingIsProven` | internal/agehelper/session_protocol.go:408-437 | a result frame the manager accepts proves a derivation for this request and continuation |
| `SessionExchange.RequestIsAccepted` | internal/agehelper/hardware_session_manager.go:127-139 | the only request that can arrive is the active one, never seen before, and fits the replay set |
| `SessionExchange.KeyCanBeReturned` | internal/agehelper/hardware_session_manager.go:566-693 | for any envelope some run returns its key with the whole script as its log |
| `HelperLoop.AppendEvent` | internal/agehelper/hardware_session_helper.go:170-366 | one more event is judged by the rules and by the honest helper on the state reached so far |
| `HelperLoop.LocksCount` | internal/agehelper/hardware_session_helper.go:189-361 | every acquired configuration lock is released once, except one still held |
| `HelperLoop.SessionCounts` | internal/agehelper/hardware_session_helper.go:243-268 | session opening, PIN resolution and login happen at most once per process, and what was opened is closed once |
| `HelperLoop.DerivesOnlyWhenChecked` | internal/agehelper/hardware_session_helper.go:321-339 | every derivation and every announcement of touch runs under the lock after an inspection equal to the binding loaded for the first request |
| `HelperLoop.ReadsWithLockFree` | internal/agehelper/hardware_session_helper.go:299-310 | no frame is awaited while a lock is held |
| `HelperLoop.SessionHelper.Run` | internal/agehelper/hardware_session_helper.go:114-367 | the whole process follows the rules and the honest helper; at its end all locks are released and the session is closed; exit code zero means input ended between two requests |
| `HelperLoop.SessionHelper.AcceptRequest` | internal/agehelper/hardware_session_helper.go:381-393 | the replay guard refuses exactly the requests the honest helper refuses |
| `HelperLoop.SessionHelper.CheckRequest` | internal/agehelper/hardware_session_helper.go:197-241 | loads the configuration once; fails only after a refusal or for an unusable configuration or envelope |
| `HelperLoop.SessionHelper.EnsureSession` | internal/agehelper/hardware_session_helper.go:243-282 | success means a logged in and validated session with the binding inspected last |
| `HelperLoop.SessionHelper.Prepare` | internal/agehelper/hardware_session_helper.go:189-307 | touch is announced unless something refused or the configuration does not fit; the lock is free afterwards either way |
| `HelperLoop.SessionHelper.Complete` | internal/agehelper/hardware_session_helper.go:308-365 | a success frame goes out unless something refused or the continue frame is not this request's |
| `ProviderLedger.ModulesBalance` | internal/agehardware/backend.go:614-631 | every module is created once, finalized once and destroyed once, in that order |
| `ProviderLedger.SessionsBalance` | internal/agehardware/backend.go:524-558 | every session opened is closed once, and the gate is given back once, except what the ledger still shows |
| `ProviderLedger.ActivitiesBalance` | internal/agehardware/backend.go:693-756 | every started search is ended once, every derived object destroyed once |
| `ProviderLedger.FinalizedWhenQuiet` | internal/agehardware/backend.go:542-552 | when a module is finalized all its sessions are closed, searches ended and derived objects destroyed |
| `ProviderLedger.FreeGateMeansNothingLeft` | internal/agehardware/backend.go:660-662 | whenever the gate is free, nothing created is left |
| `Backend.LocateToken` | internal/agehardware/backend.go:664-691 | undisturbed, it returns the slot of the one token with this serial, and otherwise says which way there is none |
| `Backend.FindUnique` | internal/agehardware/backend.go:693-756 | the ledger is as before on every path; undisturbed, a result is unique although the provider may report it in pieces |
| `Backend.ValidatePublicTarget` | internal/agehardware/backend.go:560-580 | undisturbed, accepts exactly the device whose unique public key is the expected one |
| `Backend.FindPrivate` | internal/agehardware/backend.go:582-600 | undisturbed, finds exactly the unique private key with touch always and PIN once |
| `Backend.Backend.Acquire` | internal/agehardware/backend.go:633-658 | takes the gate exactly on success, and a taken one only after the session that held it has been closed meanwhile; any error leaves the gate as it is, with its holder untouched |
| `Backend.Backend.OpenModule` | internal/agehardware/backend.go:614-631 | a live module on success, none otherwise |
| `Backend.Backend.ReadPublic` | internal/agehardware/backend.go:161-236 | any error leaves an all-zero key; gate, ledger and slot are as before, so a session that stays open still owns them; undisturbed, the result is the token's unique key |
| `Backend.Backend.OpenSession` | internal/agehardware/backend.go:302-376 | success hands the gate, the module and one session to the caller, failure gives everything back and leaves another open session as it was; undisturbed, it succeeds exactly for the configured token and key |
| `Backend.HardwareSession.Login` | internal/agehardware/backend.go:381-417 | the PIN buffer is zero on every path; at most one login; undisturbed, it pins the one private object with the required policies |
| `Backend.HardwareSession.Validate` | internal/agehardware/backend.go:421-460 | undisturbed, accepts exactly the same session on the same token with the same two objects |
| `Backend.HardwareSession.Derive` | internal/agehardware/backend.go:464-520 | one derivation at most, its object destroyed before return; an error means an all-zero secret and the other way round |
| `Backend.HardwareSession.Close` | internal/agehardware/backend.go:524-558 | everything is given back once and the gate is free; a second call does nothing |
| `Backend.DeriveWithReady` | internal/agehardware/backend.go:246-297 | a complete derivation leaves the gate free, or with the session that already held it; the callback runs at most once and there is no derivation without its consent; undisturbed, the secret is the device's |
| `AgentProxy.ConnectionAgent.Extension` | internal/agentproxy/proxy.go:284-316 | a session-bind is retained exactly if it fits the bounds and the backend in use accepts it; bounds and byte count hold |
| `AgentProxy.ConnectionAgent.GetSigningBackend` | internal/agentproxy/proxy.go:325-336 | a backend in use has accepted exactly the retained bindings in order; every other backend is closed |
| `AgentProxy.ConnectionAgent.ConnectBackendLocked` | internal/agentproxy/proxy.go:338-351 | a new backend is used only after it has accepted every retained binding |
| `AgentProxy.ConnectionAgent.CloseSigningBackend` | internal/agentproxy/proxy.go:353-361 | the backend is closed, the bindings survive |
| `AgentProxy.ConnectionAgent.SignWithFlags` | internal/agentproxy/proxy.go:266-282 | at most one signature request leaves, to a backend that has accepted the full binding list; after timeout or cancellation no backend is left |
| `AgentProxy.ConnectionAgent.Close` | internal/agentproxy/proxy.go:363-375 | every backend is closed and every retained copy is zero |
| `SshArguments.Arguments` | internal/system/sshconfig.go:473-518 | the character loop computes the words of the line |
| `SshArguments.QuotesReadBack` | internal/system/sshconfig.go:473-518 | any list of words, quoted and escaped, reads back as itself |
| `SshConfig.HostBlockMatches` | internal/system/sshconfig.go:341-358 | a Host line applies if no negated pattern matches and some other one does |
| `SshConfig.LiteralHostPattern` | internal/system/sshconfig.go:367-385 | the loop unescapes exactly the patterns without wildcards |
| `SshConfig.LiteralHostCandidates` | internal/system/sshconfig.go:318-339 | each named host that the whole line accepts, once and in order |
| `SshConfig.PublicIdentityConfigSafeForHost` | internal/system/sshconfig.go:265-303 | is first-value-wins evaluation with every Match block applying |
| `SshConfig.DecidedStays` | internal/system/sshconfig.go:265-303 | blocks read later never change what is decided |
| `SshConfig.FinishKeeps` | internal/system/sshconfig.go:230-263 | closing a block keeps a safe verdict true and makes it only for a host it is true of |
| `SshConfig.VerdictIsStable` | internal/system/sshconfig.go:39-69 | a safe verdict holds of the complete configuration for some host, with every Match block applying |
| `SshConfig.VerdictWithoutMatch` | internal/system/sshconfig.go:39-69 | if no Match block sets either field it is ssh's own result for some host, whichever Match blocks apply |
| `SshConfig.SafeUnderEveryMatch` | internal/system/sshconfig.go:270-291 | a host is safe under every outcome of the Match blocks if and only if both fields are sure |
| `SshConfig.VerdictIsRight` | internal/system/sshconfig.go:39-69 | given a safe verdict, its host is safe in fact if and only if both of its fields are sure, and some host is safe in fact if and only if some listed host has both fields sure |
| `SshMatchSample.MatchBlockMisleads` | internal/system/sshconfig.go:270-291 | a configuration reported safe in which, with its Match block not applying, no host gets the public agent |
| `SshInspector.Inspector.FinishBlock` | internal/system/sshconfig.go:230-263 | the stateful verdict is the one of the specification |
| `SshInspector.Inspector.InspectFile` | internal/system/sshconfig.go:99-201 | reading a file with its includes does what its flat list of directives does; nesting is bounded by 32 and the include stack is restored |
| `SshInspector.InspectSshConfig` | internal/system/sshconfig.go:39-69 | one pass gives what judging the complete flat configuration gives, and any error withdraws a safe verdict |
| `BitRegroup.ConvertBits` | internal/ageprofile/native.go:175-201 | the loop regroups the bit stream exactly, for every word of 15 bits or more, so wrapping never matters |
| `BitRegroup.ConvertBech32Bits` | internal/ageprofile/native.go:175-201 | the same with the 32-bit accumulator and 8-bit bytes of the code |
| `BitRegroup.WholeAndRest` | internal/ageprofile/native.go:175-201 | the symbols and what is left over are the stream |
| `BitRegroup.RoundTrip` | internal/ageprofile/native.go:175-201 | bytes to 5-bit symbols with padding and back without gives the bytes |
| `BitRegroup.RoundTripBack` | internal/ageprofile/native.go:175-201 | every accepted 5-bit sequence is the padded regrouping of its result |
| `Bech32.DecodeBech32` | internal/ageprofile/native.go:114-145 | the loops decode as specified, with the same error for the same fault |
| `Bech32.PolymodLoop` | internal/ageprofile/native.go:147-160 | the loop computes the checksum function |
| `Bech32.ExpandLoop` | internal/ageprofile/native.go:162-173 | the loops expand the human-readable part |
| `Bech32.SelectedInjective` | internal/ageprofile/native.go:112 | the five generators are independent in their low five bits |
| `Bech32.StepInjective` | internal/ageprofile/native.go:149-158 | one checksum step never merges two 30-bit states |
| `Bech32.OneValueChanges` | internal/ageprofile/native.go:147-160 | changing exactly one value changes the checksum, at any length |
| `Bech32.OneErrorIsDetected` | internal/ageprofile/native.go:114-145 | replacing one data character of an accepted string by one that means something else is always rejected |
| `Bech32.ValuesOfCharacters` | internal/ageprofile/native.go:129-136 | every sequence of 5-bit values is read back from its characters |
| `Bech32Sample.SampleIsAccepted` | internal/ageprofile/native.go:114-145 | a valid string of BIP 173 is accepted, so the error detection is not vacuous |
| `Recipient.CanonicalFieldElement` | internal/ageprofile/profile.go:252-268 | true exactly when the little-endian value is below 2^255-19 |
| `Recipient.PrimeBytesArePrime` | internal/ageprofile/profile.go:252-258 | the byte pattern compared with is 2^255-19 |
| `Recipient.TopByteDecides` | internal/ageprofile/profile.go:259-266 | the most significant differing byte decides the comparison |
| `Recipient.ConstructedIsConstructible` | internal/ageprofile/profile.go:69-96 | a constructed recipient is determined by its two keys |
| `Recipient.EncodePayload` | internal/ageprofile/profile.go:200-219 | filling the buffer by offsets gives exactly the payload |
| `Recipient.ParseAfterEncode` | internal/ageprofile/profile.go:119-174 | parsing an encoded recipient gives it back |
| `Recipient.EncodeAfterParse` | internal/ageprofile/profile.go:119-174 | whatever parses is the encoding of a constructible recipient |
| `Recipient.AcceptsExactlyEncodings` | internal/ageprofile/profile.go:119-174 | a payload is accepted if and only if it encodes a constructible recipient, the only payload that does |
| `Framing.UnframeFrame` | internal/agehelper/protocol.go:338-353 | the first frame of a stream that starts with a frame is that frame |
| `Framing.FrameUnframe` | internal/agehelper/protocol.go:338-353 | whatever is read as a frame is the image of writing it |
| `Framing.WriteFull` | internal/agehelper/protocol.go:364-376 | everything goes out or an error comes back, and what went out is a prefix |
| `Framing.WriteFrame` | internal/agehelper/protocol.go:326-336 | a payload of admissible size goes out as one frame, any other not at all |
| `Framing.ReadFrame` | internal/agehelper/protocol.go:338-353 | through any pieces, exactly the first frame of the stream or nothing |
| `Framing.EnsureEof` | internal/agehelper/protocol.go:355-362 | succeeds exactly at the end of the stream |
| `Framing.OutstandingBody` | internal/agentproxy/proxy.go:165-170 | body bytes reduce what is outstanding, one by one |
| `Framing.BoundedConnection.Read` | internal/agentproxy/proxy.go:148-171 | for every buffer, bytes are handed on in stream order and nothing is lost; what is handed on stays a sequence of frames of at most 1 MiB whenever the buffer fits, and a larger frame stops it before its header is handed on |
| `Framing.FitsIsExact` | internal/agentproxy/proxy.go:165-170 | no read can run beyond the announced frame if and only if the buffer is shorter than 2^32 bytes or its length modulo 2^32 exceeds what is outstanding |
| `PinProtocol.IdentifierIsValid` | internal/agehelper/session_protocol.go:155-164 | true exactly when some byte is non-zero |
| `PinProtocol.MarshalRequest` | internal/agehelper/pin_protocol.go:43-54 | refuses exactly invalid addresses, else fills the request by offsets |
| `PinProtocol.MarshalResponse` | internal/agehelper/pin_protocol.go:112-152 | refuses exactly what has no image, else fills the response by offsets |
| `PinProtocol.UnmarshalResponse` | internal/agehelper/pin_protocol.go:156-191 | parses as specified and leaves the buffer all zero on every path |
| `PinProtocol.CodesAreExact` | internal/agehelper/pin_protocol.go:285-317 | the two error-code maps are inverse |
| `PinProtocol.RequestsAreExact` | internal/agehelper/pin_protocol.go:56-71 | a request is accepted if and only if it was marshalled for this address |
| `PinProtocol.ParseAfterMarshal` | internal/agehelper/pin_protocol.go:156-191 | reading what was marshalled gives the answer back |
| `PinProtocol.ResponsesAreExact` | internal/agehelper/pin_protocol.go:156-191 | a PIN, or a class other than helper_failed, is read exactly from the images of the marshal function under this address |
| `PinProtocol.WriteResponseFrame` | internal/agehelper/pin_protocol.go:193-213 | through any writer that makes progress, the frame of the response goes out, and nothing for a response without image |
| `PinProtocol.ReadResponseFrame` | internal/agehelper/pin_protocol.go:215-233 | through any pieces, the answer is the one of the single frame |
| `PinProtocol.FramedExactly` | internal/agehelper/pin_protocol.go:193-233 | framed writing then reading gives the same PIN or class, and nothing else does |

## Left out

- Foreign calls, process spawning, parent identity checks, signals and deadlines: abstract as steps or as oracles that may fail.
- Cryptographic primitives, JSON, base64 and hex: keys are symbolic, messages are datatypes, identifier derivation and the low-order check are function parameters.
- User interface, launch agent, commands, status output, diagnostic log and the older one-shot hardware runner: display, or a weaker form of the manager protocol.
- Real time: a timer is a nondeterministic tick, and no latency is claimed.
- Route files: only process crashes are modelled, not power loss with unsynced renames; paths are absolute and clean, links are followed one level, and hard links do not occur; guard encoding, mode and owner checks are faults.
- Route configurations: no configuration uses another one's fallback socket as its PIV socket (`Respects`, and `RouteRestarts.PivMustNotBeFallback` shows why); temporary link names are not public paths.
- Router callbacks, timestamps and the missing-probe check are not part of the model.
- Coordinator: panics and wrap-around of the 64-bit identifier are not modelled, and the normalizer is assumed never to turn an error into nil.
- SessionExchange: identifiers are fresh nonces, pipes are FIFO, both sides use the same limit, and an undecodable frame is a helper or manager that stops.
- Backend: one backend per provider; operations of other goroutines appear only as an open session that holds the gate and may be closed meanwhile, a closed backend or an ended context; any other call under way is a gate that stays taken. Parsing of slot names and serial numbers is not part of the model, and attribute buffers that no caller sees are not shown to be cleared.
- AgentProxy: an extension counts as accepted when the backend answers with success; a lost answer is a refusal.
- SshConfig and SshInspector: ASCII characters only; path comparison, glob matching and include expansion are function parameters; a file is a list of lines.
- Bech32: characters outside ASCII are data errors here, whereas the code folds two of them to ASCII letters.
- Framing.BoundedConnection.Read: says nothing of calls after a read into a buffer that did not fit.
- PinProtocol: the resolver process, its environment and the reading side of requests over a frame are not part of the model.
- Memory locking and core-dump limits cannot be expressed; clearing is shown as array contents becoming zero.
