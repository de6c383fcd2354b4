/** The daemon side of the hardware helper: which helper processes exist, and when a
    new one may be launched. Start and Invalidate run under the lifecycle lock; Start
    also holds the manager's mutex throughout, everything else takes it for one step.
    A process can begin to stop at any moment, because the helper exits, a context
    ends, a write fails or somebody cancels. */
module HelperManager {
  import opened Basics

  /** `Stopped(ok)`: stop() has returned, nil iff `ok`. */
  datatype Stop = Running | Stopping | Stopped(ok: bool)

  datatype Process = Process(stop: Stop, completed: nat, reported: bool)

  /** One HardwareCall: its exchange runs, has failed and waits for stop(), or is
      about to be finished and removed from the manager. */
  datatype Phase = Exchanging | Failing | Finishing(retain: bool) | Done

  datatype Call = Call(process: nat, phase: Phase)

  /** Who holds the lifecycle lock, and where it stands. Positions from StartReady to
      StartUnregistered also hold the mutex. */
  datatype Lifecycle =
    | Free
    | StartLocked                                  // lifecycle held, mutex not yet
    | StartReplacing(process: nat)                 // waits for stop() of a spent process
    | StartReady(found: Option<nat>)               // about to launch, unless a process was found
    | StartHolding(process: nat, launched: bool)   // about to encode and register the request
    | StartAborting(process: nat)                  // waits for stop() before returning an error
    | InvalidateLocked(closing: bool)
    | InvalidateStopping(process: nat, call: Option<nat>)
    | InvalidateWaiting(stopped: Option<nat>, ok: bool, call: Option<nat>)

  datatype State = State(
    processes: seq<Process>,
    calls: seq<Call>,
    process: Option<nat>,
    active: Option<nat>,
    closed: bool,
    poisoned: bool,
    lifecycle: Lifecycle)

  const Initial := State([], [], None, None, false, false, Free)

  predicate MutexHeld(l: Lifecycle) {
    l.StartReplacing? || l.StartReady? || l.StartHolding? || l.StartAborting?
  }

  predicate IsStopped(s: State, p: nat)
    requires p < |s.processes|
  {
    s.processes[p].stop.Stopped?
  }

  datatype Action =
    // the world
    | BeginStop(process: nat)
    | EndStop(process: nat, ok: bool)
    | ReaderReports(process: nat)
    // one call
    | CallFails(call: nat)
    | CallStopped(call: nat)
    | CallSucceeds(call: nat)
    | CallFinishes(call: nat)
    // Start
    | StartLock
    | StartCheck(canceled: bool, limit: nat)
    | StartReplaced
    | StartCanceled
    | LaunchFails
    | Launch
    | Reuse
    | MarshalFails
    | RegisterFails
    | Register
    | StartAborted
    // Invalidate and Close
    | InvalidateLock(closing: bool)
    | InvalidateTake
    | InvalidateStopped
    | InvalidateDone

  function StopWith(s: State, p: nat, stop: Stop): State
    requires p < |s.processes|
  {
    s.(processes := s.processes[p := s.processes[p].(stop := stop)])
  }

  function SetPhase(s: State, c: nat, phase: Phase): State
    requires c < |s.calls|
  {
    s.(calls := s.calls[c := s.calls[c].(phase := phase)])
  }

  /** Processes stop, and their reader goroutines report it. */
  function WorldStep(s: State, a: Action): Option<State> {
    match a
    case BeginStop(p) =>
      if p < |s.processes| && s.processes[p].stop == Running then Some(StopWith(s, p, Stopping)) else None
    case EndStop(p, ok) =>
      if p < |s.processes| && s.processes[p].stop == Stopping then Some(StopWith(s, p, Stopped(ok))) else None
    case ReaderReports(p) =>
      if p >= |s.processes| || !IsStopped(s, p) || s.processes[p].reported || MutexHeld(s.lifecycle) then None
      else
        Some(s.(processes := s.processes[p := s.processes[p].(reported := true)],
                process := if s.process == Some(p) then None else s.process,
                poisoned := s.poisoned || !s.processes[p].stop.ok))
    case _ => None
  }

  function CallStep(s: State, a: Action): Option<State> {
    match a
    case CallFails(c) =>
      if c < |s.calls| && s.calls[c].phase == Exchanging then Some(SetPhase(s, c, Failing)) else None
    case CallStopped(c) =>
      if c >= |s.calls| || s.calls[c].phase != Failing || s.calls[c].process >= |s.processes| then None
      else if !IsStopped(s, s.calls[c].process) then None
      else if s.processes[s.calls[c].process].stop.ok then Some(SetPhase(s, c, Finishing(false)))
      else if MutexHeld(s.lifecycle) then None
      else Some(SetPhase(s, c, Finishing(false)).(poisoned := true))
    case CallSucceeds(c) =>
      if c < |s.calls| && s.calls[c].phase == Exchanging then Some(SetPhase(s, c, Finishing(true))) else None
    case CallFinishes(c) =>
      if c >= |s.calls| || !s.calls[c].phase.Finishing? || MutexHeld(s.lifecycle) then None
      else if s.calls[c].process >= |s.processes| then None
      else
        var p := s.calls[c].process;
        var t := SetPhase(s, c, Done).(active := if s.active == Some(c) then None else s.active);
        Some(if s.calls[c].phase.retain then
               t.(processes := s.processes[p := s.processes[p].(completed := s.processes[p].completed + 1)])
             else
               t.(process := if s.process == Some(p) then None else s.process))
    case _ => None
  }

  function StartStep(s: State, a: Action): Option<State> {
    match a
    case StartLock =>
      if s.lifecycle == Free then Some(s.(lifecycle := StartLocked)) else None
    case StartCheck(canceled, limit) =>
      if s.lifecycle != StartLocked then None
      else if s.closed || s.poisoned || s.active.Some? || canceled then Some(s.(lifecycle := Free))
      else if s.process.Some? && s.process.value < |s.processes| &&
              (IsStopped(s, s.process.value) || s.processes[s.process.value].completed >= limit) then
        Some(s.(process := None, lifecycle := StartReplacing(s.process.value)))
      else Some(s.(lifecycle := StartReady(s.process)))
    case StartReplaced =>
      if !s.lifecycle.StartReplacing? || s.lifecycle.process >= |s.processes| then None
      else if !IsStopped(s, s.lifecycle.process) then None
      else if !s.processes[s.lifecycle.process].stop.ok then Some(s.(poisoned := true, lifecycle := Free))
      else Some(s.(lifecycle := StartReady(None)))
    case StartCanceled =>
      (match s.lifecycle
       case StartReady(_) => Some(s.(lifecycle := Free))
       case StartHolding(p, launched) =>
         if launched then Some(s.(process := None, lifecycle := StartAborting(p))) else Some(s.(lifecycle := Free))
       case _ => None)
    case LaunchFails =>
      if s.lifecycle == StartReady(None) then Some(s.(lifecycle := Free)) else None
    case Launch =>
      if s.lifecycle != StartReady(None) then None
      else
        var p := |s.processes|;
        Some(s.(processes := s.processes + [Process(Running, 0, false)], process := Some(p), lifecycle := StartHolding(p, true)))
    case Reuse =>
      if !s.lifecycle.StartReady? || s.lifecycle.found.None? then None
      else Some(s.(lifecycle := StartHolding(s.lifecycle.found.value, false)))
    case MarshalFails =>
      if !s.lifecycle.StartHolding? || s.lifecycle.process >= |s.processes| then None
      else
        Some(s.(process := if IsStopped(s, s.lifecycle.process) then None else s.process, lifecycle := Free))
    case RegisterFails =>
      if !s.lifecycle.StartHolding? || s.lifecycle.process >= |s.processes| || !IsStopped(s, s.lifecycle.process) then None
      else Some(s.(process := None, lifecycle := StartAborting(s.lifecycle.process)))
    case Register =>
      if !s.lifecycle.StartHolding? || s.lifecycle.process >= |s.processes| || IsStopped(s, s.lifecycle.process) then None
      else
        Some(s.(calls := s.calls + [Call(s.lifecycle.process, Exchanging)], active := Some(|s.calls|), lifecycle := Free))
    case StartAborted =>
      if !s.lifecycle.StartAborting? || s.lifecycle.process >= |s.processes| then None
      else if !IsStopped(s, s.lifecycle.process) then None
      else Some(s.(poisoned := s.poisoned || !s.processes[s.lifecycle.process].stop.ok, lifecycle := Free))
    case _ => None
  }

  function InvalidateStep(s: State, a: Action): Option<State> {
    match a
    case InvalidateLock(closing) =>
      if s.lifecycle == Free then Some(s.(lifecycle := InvalidateLocked(closing))) else None
    case InvalidateTake =>
      if !s.lifecycle.InvalidateLocked? then None
      else
        Some(s.(closed := s.closed || s.lifecycle.closing, process := None,
                lifecycle := if s.process.Some? then InvalidateStopping(s.process.value, s.active)
                             else InvalidateWaiting(None, true, s.active)))
    case InvalidateStopped =>
      if !s.lifecycle.InvalidateStopping? || s.lifecycle.process >= |s.processes| then None
      else if !IsStopped(s, s.lifecycle.process) then None
      else
        Some(s.(lifecycle := InvalidateWaiting(Some(s.lifecycle.process), s.processes[s.lifecycle.process].stop.ok, s.lifecycle.call)))
    case InvalidateDone =>
      if !s.lifecycle.InvalidateWaiting? then None
      else if s.lifecycle.call.Some? && s.lifecycle.call.value < |s.calls| && s.calls[s.lifecycle.call.value].phase != Done then None
      else Some(s.(poisoned := s.poisoned || !s.lifecycle.ok, lifecycle := Free))
    case _ => None
  }

  function Step(s: State, a: Action): Option<State> {
    match a
    case BeginStop(_) => WorldStep(s, a)
    case EndStop(_, _) => WorldStep(s, a)
    case ReaderReports(_) => WorldStep(s, a)
    case CallFails(_) => CallStep(s, a)
    case CallStopped(_) => CallStep(s, a)
    case CallSucceeds(_) => CallStep(s, a)
    case CallFinishes(_) => CallStep(s, a)
    case InvalidateLock(_) => InvalidateStep(s, a)
    case InvalidateTake => InvalidateStep(s, a)
    case InvalidateStopped => InvalidateStep(s, a)
    case InvalidateDone => InvalidateStep(s, a)
    case _ => StartStep(s, a)
  }

  // ---- runs ---------------------------------------------------------------

  /** A run from the initial state: `actions[k]` leads from `states[k]` to the next. */
  ghost predicate Run(states: seq<State>, actions: seq<Action>) {
    && |states| == |actions| + 1
    && states[0] == Initial
    && forall k :: 0 <= k < |actions| ==> Stepped(states, actions, k)
  }

  ghost predicate Stepped(states: seq<State>, actions: seq<Action>, k: nat)
    requires |states| == |actions| + 1 && k < |actions|
  {
    Step(states[k], actions[k]) == Some(states[k + 1])
  }

  /** The one dangerous branch: a request that does not encode, met by a process whose
      clean-up has failed while nobody has reported it yet. */
  predicate Hazard(s: State, a: Action) {
    && a == MarshalFails
    && s.lifecycle.StartHolding?
    && s.lifecycle.process < |s.processes|
    && s.processes[s.lifecycle.process].stop == Stopped(false)
    && !s.poisoned
  }

  ghost predicate Harmless(states: seq<State>, actions: seq<Action>)
    requires |states| == |actions| + 1
  {
    forall k :: 0 <= k < |actions| ==> !Hazard(states[k], actions[k])
  }

  // ---- the invariant ---------------------------------------------------------

  /** The helper `p` is cleaned up, or somebody still answers for it before the next
      launch can happen. */
  predicate Accounted(s: State, p: nat)
    requires p < |s.processes|
  {
    || s.processes[p].stop == Stopped(true)
    || s.poisoned
    || s.process == Some(p)
    || s.lifecycle == StartReplacing(p)
    || s.lifecycle == StartAborting(p)
    || (s.lifecycle.InvalidateStopping? && s.lifecycle.process == p)
    || (s.lifecycle.InvalidateWaiting? && s.lifecycle.stopped == Some(p) && !s.lifecycle.ok)
  }

  ghost predicate AllAccounted(s: State) {
    forall p :: 0 <= p < |s.processes| ==> Accounted(s, p)
  }

  predicate InRange(s: State, p: nat) {
    p < |s.processes|
  }

  /** What each position of Start and Invalidate knows. */
  predicate PositionInv(s: State) {
    match s.lifecycle
    case StartReplacing(p) => InRange(s, p) && s.process == None && !s.poisoned && !s.closed && s.active == None
    case StartReady(found) => s.process == found && !s.poisoned && !s.closed && s.active == None
    case StartHolding(p, _) => InRange(s, p) && s.process == Some(p) && !s.poisoned && !s.closed && s.active == None
    case StartAborting(p) => InRange(s, p) && s.process == None && !s.closed && s.active == None
    case InvalidateStopping(p, _) => InRange(s, p) && s.process == None
    case InvalidateWaiting(p, ok, _) =>
      s.process == None && (p.None? ==> ok) &&
      (p.Some? ==> InRange(s, p.value) && s.processes[p.value].stop == Stopped(ok))
    case _ => true
  }

  /** A call is active until it is done, and one that failed has stopped its helper. */
  ghost predicate CallsInv(s: State) {
    && (s.active.Some? ==> s.active.value < |s.calls|)
    && forall c :: 0 <= c < |s.calls| ==>
         && InRange(s, s.calls[c].process)
         && (s.calls[c].phase != Done <==> s.active == Some(c))
         && (s.calls[c].phase == Finishing(false) ==>
               s.processes[s.calls[c].process].stop == Stopped(true) || s.poisoned)
  }

  ghost predicate StateInv(s: State) {
    && (s.process.Some? ==> InRange(s, s.process.value))
    && PositionInv(s)
    && CallsInv(s)
    && AllAccounted(s)
  }

  lemma WorldAccounts(s: State, a: Action)
    requires StateInv(s) && WorldStep(s, a).Some?
    ensures AllAccounted(WorldStep(s, a).value)
  {
    var t := WorldStep(s, a).value;
    forall p | 0 <= p < |t.processes| ensures Accounted(t, p) {
      if p < |s.processes| {
        assert Accounted(s, p);
      }
    }
  }

  lemma WorldKeeps(s: State, a: Action)
    requires StateInv(s) && WorldStep(s, a).Some?
    ensures StateInv(WorldStep(s, a).value)
  {
    WorldAccounts(s, a);
  }

  lemma CallAccounts(s: State, a: Action)
    requires StateInv(s) && CallStep(s, a).Some?
    ensures AllAccounted(CallStep(s, a).value)
  {
    var t := CallStep(s, a).value;
    forall p | 0 <= p < |t.processes| ensures Accounted(t, p) {
      if p < |s.processes| {
        assert Accounted(s, p);
      }
    }
  }

  /** A phase change of one call, and whatever happens to the active call with it. */
  lemma CallsStayBound(s: State, t: State, c: nat)
    requires CallsInv(s) && c < |s.calls| == |t.calls| && |t.processes| == |s.processes|
    requires t.calls == s.calls[c := s.calls[c].(phase := t.calls[c].phase)]
    requires forall p :: 0 <= p < |s.processes| ==> t.processes[p].stop == s.processes[p].stop
    requires s.poisoned ==> t.poisoned
    requires t.active == if t.calls[c].phase == Done then None else s.active
    requires s.active == Some(c)
    requires t.calls[c].phase == Finishing(false) ==> t.processes[t.calls[c].process].stop == Stopped(true) || t.poisoned
    ensures CallsInv(t)
  {
  }

  lemma CallKeepsCalls(s: State, a: Action)
    requires StateInv(s) && CallStep(s, a).Some?
    ensures CallsInv(CallStep(s, a).value)
  {
    CallsStayBound(s, CallStep(s, a).value, a.call);
  }

  /** While the mutex is held a call can only change its own phase. */
  lemma CallWaitsForMutex(s: State, a: Action)
    requires CallStep(s, a).Some? && MutexHeld(s.lifecycle)
    ensures CallStep(s, a).value == s.(calls := CallStep(s, a).value.calls)
  {
  }

  lemma CallLeavesLifecycle(s: State, a: Action)
    requires CallStep(s, a).Some?
    ensures var t := CallStep(s, a).value;
            && t.lifecycle == s.lifecycle && |t.processes| == |s.processes|
            && (t.process == s.process || t.process == None)
            && forall p :: 0 <= p < |s.processes| ==> t.processes[p].stop == s.processes[p].stop
  {
  }

  lemma CallKeepsPosition(s: State, a: Action)
    requires StateInv(s) && CallStep(s, a).Some?
    ensures var t := CallStep(s, a).value; PositionInv(t) && (t.process.Some? ==> InRange(t, t.process.value))
  {
    CallLeavesLifecycle(s, a);
    if MutexHeld(s.lifecycle) {
      CallWaitsForMutex(s, a);
    }
  }

  lemma CallKeeps(s: State, a: Action)
    requires StateInv(s) && CallStep(s, a).Some?
    ensures StateInv(CallStep(s, a).value)
  {
    CallAccounts(s, a);
    CallKeepsCalls(s, a);
    CallKeepsPosition(s, a);
  }

  lemma StartAccounts(s: State, a: Action)
    requires StateInv(s) && StartStep(s, a).Some? && !Hazard(s, a)
    ensures AllAccounted(StartStep(s, a).value)
  {
    var t := StartStep(s, a).value;
    forall p | 0 <= p < |t.processes| ensures Accounted(t, p) {
      if p < |s.processes| {
        assert Accounted(s, p);
      }
    }
  }

  lemma StartKeepsCalls(s: State, a: Action)
    requires StateInv(s) && StartStep(s, a).Some?
    ensures CallsInv(StartStep(s, a).value)
  {
  }

  lemma StartKeepsPosition(s: State, a: Action)
    requires StateInv(s) && StartStep(s, a).Some?
    ensures var t := StartStep(s, a).value; PositionInv(t) && (t.process.Some? ==> InRange(t, t.process.value))
  {
  }

  lemma StartKeeps(s: State, a: Action)
    requires StateInv(s) && StartStep(s, a).Some? && !Hazard(s, a)
    ensures StateInv(StartStep(s, a).value)
  {
    StartAccounts(s, a);
    StartKeepsCalls(s, a);
    StartKeepsPosition(s, a);
  }

  lemma InvalidateAccounts(s: State, a: Action)
    requires StateInv(s) && InvalidateStep(s, a).Some?
    ensures AllAccounted(InvalidateStep(s, a).value)
  {
    var t := InvalidateStep(s, a).value;
    forall p | 0 <= p < |t.processes| ensures Accounted(t, p) {
      if p < |s.processes| {
        assert Accounted(s, p);
      }
    }
  }

  lemma InvalidateKeeps(s: State, a: Action)
    requires StateInv(s) && InvalidateStep(s, a).Some?
    ensures StateInv(InvalidateStep(s, a).value)
  {
    InvalidateAccounts(s, a);
  }


  lemma StepKeeps(s: State, a: Action)
    requires StateInv(s) && Step(s, a).Some? && !Hazard(s, a)
    ensures StateInv(Step(s, a).value)
  {
    if WorldStep(s, a).Some? {
      WorldKeeps(s, a);
    } else if CallStep(s, a).Some? {
      CallKeeps(s, a);
    } else if StartStep(s, a).Some? {
      StartKeeps(s, a);
    } else {
      InvalidateKeeps(s, a);
    }
  }

  lemma {:induction false} RunKeeps(states: seq<State>, actions: seq<Action>, k: nat)
    requires Run(states, actions) && Harmless(states, actions) && k < |states|
    ensures StateInv(states[k])
  {
    if k > 0 {
      RunKeeps(states, actions, k - 1);
      assert Stepped(states, actions, k - 1);
      StepKeeps(states[k - 1], actions[k - 1]);
    }
  }

  // ---- what holds over every run ------------------------------------------------

  /** Requests that encode cause no hazard. */
  lemma EncodableRunsAreHarmless(states: seq<State>, actions: seq<Action>)
    requires Run(states, actions) && MarshalFails !in actions
    ensures Harmless(states, actions)
  {
    assert forall k :: 0 <= k < |actions| ==> actions[k] in actions;
  }

  lemma LaunchStepReaped(s: State)
    requires StateInv(s) && Step(s, Launch).Some?
    ensures forall p :: 0 <= p < |s.processes| ==> s.processes[p].stop == Stopped(true)
    ensures !s.poisoned && !s.closed
  {
    forall p | 0 <= p < |s.processes| ensures s.processes[p].stop == Stopped(true) {
      assert Accounted(s, p);
    }
  }

  /** A helper is launched only when stop() of every earlier one has returned nil, and
      never by a poisoned or closed manager. */
  lemma LaunchAfterReaping(states: seq<State>, actions: seq<Action>, k: nat)
    requires Run(states, actions) && Harmless(states, actions)
    requires k < |actions| && actions[k] == Launch
    ensures forall p :: 0 <= p < |states[k].processes| ==> states[k].processes[p].stop == Stopped(true)
    ensures !states[k].poisoned && !states[k].closed
  {
    RunKeeps(states, actions, k);
    assert Stepped(states, actions, k);
    LaunchStepReaped(states[k]);
  }

  /** What a step may do to the processes there are. */
  predicate SameStops(s: State, t: State, launched: bool) {
    && |t.processes| == |s.processes| + (if launched then 1 else 0)
    && forall p :: 0 <= p < |s.processes| && s.processes[p].stop.Stopped? ==> t.processes[p].stop == s.processes[p].stop
  }

  lemma WorldFrame(s: State, a: Action)
    requires WorldStep(s, a).Some?
    ensures SameStops(s, WorldStep(s, a).value, false)
  {
  }

  lemma StartFrame(s: State, a: Action)
    requires StartStep(s, a).Some?
    ensures SameStops(s, StartStep(s, a).value, a == Launch)
  {
  }

  lemma InvalidateFrame(s: State, a: Action)
    requires InvalidateStep(s, a).Some?
    ensures SameStops(s, InvalidateStep(s, a).value, false)
  {
  }

  /** Steps other than Launch create no process, and a stopped process stays as it is. */
  lemma StepFrame(s: State, a: Action)
    requires Step(s, a).Some?
    ensures SameStops(s, Step(s, a).value, a == Launch)
  {
    if WorldStep(s, a).Some? {
      WorldFrame(s, a);
    } else if CallStep(s, a).Some? {
      CallLeavesLifecycle(s, a);
    } else if StartStep(s, a).Some? {
      StartFrame(s, a);
    } else {
      InvalidateFrame(s, a);
    }
  }

  /** Once the clean-up of some helper has failed, no later step launches another. */
  lemma {:induction false} NoLaunchAfterFailure(states: seq<State>, actions: seq<Action>, k: nat, l: nat, p: nat)
    requires Run(states, actions) && Harmless(states, actions) && k <= l < |states|
    requires p < |states[k].processes| && states[k].processes[p].stop == Stopped(false)
    ensures |states[l].processes| == |states[k].processes| && states[l].processes[p].stop == Stopped(false)
  {
    if k < l {
      NoLaunchAfterFailure(states, actions, k, l - 1, p);
      assert Stepped(states, actions, l - 1);
      StepFrame(states[l - 1], actions[l - 1]);
      if actions[l - 1] == Launch {
        LaunchAfterReaping(states, actions, l - 1);
      }
    }
  }

  /** At most the newest helper is not cleaned up yet. */
  lemma {:induction false} OnlyNewestAlive(states: seq<State>, actions: seq<Action>, k: nat, p: nat)
    requires Run(states, actions) && Harmless(states, actions) && k < |states|
    requires p + 1 < |states[k].processes|
    ensures states[k].processes[p].stop == Stopped(true)
  {
    if k > 0 {
      assert Stepped(states, actions, k - 1);
      StepFrame(states[k - 1], actions[k - 1]);
      if actions[k - 1] == Launch {
        LaunchAfterReaping(states, actions, k - 1);
      } else {
        OnlyNewestAlive(states, actions, k - 1, p);
      }
    }
  }

  /** When Invalidate or Close returns nil, every helper ever launched is reaped. */
  lemma InvalidateReaps(states: seq<State>, actions: seq<Action>, k: nat, p: nat)
    requires Run(states, actions) && Harmless(states, actions)
    requires k < |actions| && actions[k] == InvalidateDone && !states[k + 1].poisoned
    requires p < |states[k + 1].processes|
    ensures states[k + 1].processes[p].stop == Stopped(true)
  {
    RunKeeps(states, actions, k);
    assert Stepped(states, actions, k);
    InvalidateStepReaps(states[k], p);
  }

  lemma InvalidateStepReaps(s: State, p: nat)
    requires StateInv(s) && Step(s, InvalidateDone).Some? && !Step(s, InvalidateDone).value.poisoned
    requires p < |s.processes|
    ensures Step(s, InvalidateDone).value.processes == s.processes
    ensures s.processes[p].stop == Stopped(true)
  {
    assert Accounted(s, p);
  }

  // ---- the hazard is real -----------------------------------------------------------

  /** From any hazard the next Start launches a second helper beside the one whose
      clean-up failed: the hazard's absence is exactly what the guarantee needs. */
  lemma HazardLaunches(s: State, limit: nat) returns (afterMarshal: State, locked: State, checked: State, launched: State)
    requires StateInv(s) && Hazard(s, MarshalFails)
    ensures Step(s, MarshalFails) == Some(afterMarshal)
    ensures Step(afterMarshal, StartLock) == Some(locked)
    ensures Step(locked, StartCheck(false, limit)) == Some(checked)
    ensures Step(checked, Launch) == Some(launched) && checked.processes == s.processes
    ensures |launched.processes| == |s.processes| + 1
    ensures launched.processes[s.lifecycle.process].stop == Stopped(false)
  {
    afterMarshal := s.(process := None, lifecycle := Free);
    locked := afterMarshal.(lifecycle := StartLocked);
    checked := afterMarshal.(lifecycle := StartReady(None));
    launched := Step(checked, Launch).value;
  }

  lemma ExtendTo(states: seq<State>, actions: seq<Action>, a: Action, t: State)
    returns (longer: seq<State>, more: seq<Action>)
    requires Run(states, actions) && Step(states[|actions|], a) == Some(t)
    ensures Run(longer, more) && more == actions + [a] && longer == states + [t]
  {
    longer, more := states + [t], actions + [a];
    forall k | 0 <= k < |more| ensures Stepped(longer, more, k) {
      if k < |actions| {
        assert Stepped(states, actions, k);
      }
    }
  }

  lemma Extend(states: seq<State>, actions: seq<Action>, a: Action) returns (longer: seq<State>, more: seq<Action>)
    requires Run(states, actions) && Step(states[|actions|], a).Some?
    ensures Run(longer, more) && more == actions + [a] && states <= longer
    ensures Some(longer[|more|]) == Step(states[|actions|], a)
  {
    longer, more := ExtendTo(states, actions, a, Step(states[|actions|], a).value);
  }

  lemma ExtendTwice(states: seq<State>, actions: seq<Action>, a: Action, t: State, b: Action, u: State)
    returns (longer: seq<State>, more: seq<Action>)
    requires Run(states, actions) && Step(states[|actions|], a) == Some(t) && Step(t, b) == Some(u)
    ensures Run(longer, more) && more == actions + [a] + [b] && longer == states + [t] + [u]
  {
    longer, more := ExtendTo(states, actions, a, t);
    longer, more := ExtendTo(longer, more, b, u);
  }

  /** Step `k` launches a helper while the earlier process `p` is not reaped. */
  predicate LaunchBeside(states: seq<State>, actions: seq<Action>, k: nat, p: nat) {
    && |states| == |actions| + 1 && k < |actions| && actions[k] == Launch
    && p < |states[k].processes| && states[k].processes[p].stop != Stopped(true)
  }

  ghost predicate Violation(states: seq<State>, actions: seq<Action>) {
    exists k, p :: LaunchBeside(states, actions, k, p)
  }

  lemma HarmlessIsSafe(states: seq<State>, actions: seq<Action>)
    requires Run(states, actions) && Harmless(states, actions)
    ensures !Violation(states, actions)
  {
    forall k, p ensures !LaunchBeside(states, actions, k, p) {
      if LaunchBeside(states, actions, k, p) {
        LaunchAfterReaping(states, actions, k);
      }
    }
  }

  /** The first hazard of a run. */
  lemma {:induction false} FirstHazard(states: seq<State>, actions: seq<Action>, n: nat) returns (k: nat)
    requires Run(states, actions) && n <= |actions|
    requires exists j :: 0 <= j < n && Hazard(states[j], actions[j])
    ensures k < n && Hazard(states[k], actions[k]) && forall j :: 0 <= j < k ==> !Hazard(states[j], actions[j])
  {
    if exists j :: 0 <= j < n - 1 && Hazard(states[j], actions[j]) {
      k := FirstHazard(states, actions, n - 1);
    } else {
      k := n - 1;
    }
  }

  lemma PrefixRuns(states: seq<State>, actions: seq<Action>, k: nat)
    requires Run(states, actions) && k <= |actions|
    ensures Run(states[..k + 1], actions[..k])
  {
    var before, done := states[..k + 1], actions[..k];
    forall j | 0 <= j < k ensures Stepped(before, done, j) {
      assert Stepped(states, actions, j);
    }
  }

  lemma HazardContinues(states: seq<State>, actions: seq<Action>)
    returns (longer: seq<State>, more: seq<Action>, checked: State)
    requires Run(states, actions) && StateInv(states[|actions|]) && Hazard(states[|actions|], MarshalFails)
    ensures Run(longer, more) && more == actions + [MarshalFails, StartLock] + [StartCheck(false, 1), Launch]
    ensures longer[|more| - 1] == checked && checked.processes == states[|actions|].processes
  {
    var afterMarshal, locked, launched;
    afterMarshal, locked, checked, launched := HazardLaunches(states[|actions|], 1);
    longer, more := ExtendTwice(states, actions, MarshalFails, afterMarshal, StartLock, locked);
    longer, more := ExtendTwice(longer, more, StartCheck(false, 1), checked, Launch, launched);
  }

  /** A harmless run that meets the hazard goes on to a launch beside a helper that was
      not cleaned up. */
  lemma HazardViolates(states: seq<State>, actions: seq<Action>) returns (longer: seq<State>, more: seq<Action>)
    requires Run(states, actions) && Harmless(states, actions) && Hazard(states[|actions|], MarshalFails)
    ensures Run(longer, more) && more == actions + [MarshalFails, StartLock] + [StartCheck(false, 1), Launch]
    ensures LaunchBeside(longer, more, |more| - 1, states[|actions|].lifecycle.process)
  {
    RunKeeps(states, actions, |actions|);
    var checked;
    longer, more, checked := HazardContinues(states, actions);
  }

  /** So the absence of the hazard is exact: without it no run violates the guarantee,
      and any run with it, cut at its first hazard, has a continuation that does. */
  lemma HarmlessIsExact(states: seq<State>, actions: seq<Action>) returns (k: nat, longer: seq<State>, more: seq<Action>)
    requires Run(states, actions)
    ensures Harmless(states, actions) ==> !Violation(states, actions)
    ensures !Harmless(states, actions) ==>
              && k < |actions| && Hazard(states[k], actions[k])
              && Run(longer, more) && actions[..k + 1] <= more && Violation(longer, more)
  {
    k, longer, more := 0, states, actions;
    if Harmless(states, actions) {
      HarmlessIsSafe(states, actions);
    } else {
      k := FirstHazard(states, actions, |actions|);
      PrefixRuns(states, actions, k);
      longer, more := HazardViolates(states[..k + 1], actions[..k]);
      assert actions[..k + 1] == actions[..k] + [MarshalFails];
      assert LaunchBeside(longer, more, |more| - 1, states[k].lifecycle.process);
    }
  }

  /** One helper, one call, nobody in between. */
  function Single(stop: Stop, phase: Phase, completed: nat, lifecycle: Lifecycle): State {
    State([Process(stop, completed, false)], [Call(0, phase)], Some(0), if phase == Done then None else Some(0), false, false, lifecycle)
  }

  lemma FirstLaunch() returns (states: seq<State>, actions: seq<Action>)
    ensures Run(states, actions) && actions == IDLE[..4] && states[|actions|] == Single(Running, Exchanging, 0, Free)
  {
    states, actions := [Initial], [];
    states, actions := Extend(states, actions, StartLock);
    states, actions := Extend(states, actions, StartCheck(false, 2));
    states, actions := Extend(states, actions, Launch);
    states, actions := Extend(states, actions, Register);
    assert states[|actions|].processes == [Process(Running, 0, false)] && states[|actions|].calls == [Call(0, Exchanging)];
  }

  /** A run that ends with one idle helper after a completed request. */
  lemma IdleRun() returns (states: seq<State>, actions: seq<Action>)
    ensures Run(states, actions) && actions == IDLE && states[|actions|] == Single(Running, Done, 1, Free)
  {
    states, actions := FirstLaunch();
    states, actions := Extend(states, actions, CallSucceeds(0));
    states, actions := Extend(states, actions, CallFinishes(0));
    assert states[|actions|].processes == [Process(Running, 1, false)] && states[|actions|].calls == [Call(0, Done)];
  }

  const IDLE := [StartLock, StartCheck(false, 2), Launch, Register, CallSucceeds(0), CallFinishes(0)]
  const CRASH := [BeginStop(0), StartLock, StartCheck(false, 2), Reuse, EndStop(0, false)]

  /** The helper crashes while idle, and the next Start still finds it in place. */
  lemma CrashRun() returns (states: seq<State>, actions: seq<Action>)
    ensures Run(states, actions) && actions == IDLE + CRASH[..3]
    ensures states[|actions|] == Single(Stopping, Done, 1, StartReady(Some(0)))
  {
    states, actions := IdleRun();
    states, actions := Extend(states, actions, BeginStop(0));
    states, actions := Extend(states, actions, StartLock);
    states, actions := Extend(states, actions, StartCheck(false, 2));
    assert states[|actions|].processes == [Process(Stopping, 1, false)];
  }

  /** The hazard is reachable: the helper crashes while idle, its process group
      outlives the wait, and the next request does not encode. */
  lemma HazardIsReachable() returns (states: seq<State>, actions: seq<Action>)
    ensures Run(states, actions) && Harmless(states, actions) && actions == IDLE + CRASH && MarshalFails !in actions
    ensures Hazard(states[|actions|], MarshalFails)
  {
    states, actions := CrashRun();
    states, actions := Extend(states, actions, Reuse);
    states, actions := Extend(states, actions, EndStop(0, false));
    assert actions == IDLE + CRASH;
    EncodableRunsAreHarmless(states, actions);
  }

  /** And so is a launch beside an unreaped helper: one concrete run of the manager. */
  lemma ViolatingRun() returns (states: seq<State>, actions: seq<Action>)
    ensures Run(states, actions) && Violation(states, actions)
    ensures actions == IDLE + CRASH + [MarshalFails, StartLock] + [StartCheck(false, 1), Launch]
  {
    states, actions := HazardIsReachable();
    var s := states[|actions|];
    states, actions := HazardViolates(states, actions);
    assert LaunchBeside(states, actions, |actions| - 1, s.lifecycle.process);
  }
}
