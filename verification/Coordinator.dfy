/** The signing coordinator. Every request has a waiter, which runs in the caller's
    goroutine, and a worker. They share a capacity-one semaphore, the active-request
    cell and a per-request event gate. Each lock section, channel operation and
    context read is one atomic step; steps of all goroutines interleave freely. */
module Coordinator {
  import opened Basics

  /** A context is a monotone flag: once done it keeps its first error. */
  datatype Ctx = Alive | Canceled | Deadline

  datatype Err = NoErr | DeadlineErr | CanceledErr | OtherErr

  datatype Event = Initializing | Waiting | Success | Failure | TimeoutEvent | CanceledEvent

  datatype Worker =
    | Unstarted
    | ToInitialize          // about to publish "initializing"
    | InEnsure
    | Ensured               // Ensure returned nil, context not read yet
    | ToWait                // about to publish "waiting for touch"
    | ToCall                // last context read before the call
    | InCall
    | Normalizing           // the call failed
    | Refused               // the event gate turned progress away
    | ToSend(err: Err)
    | ToRelease
    | Finished

  datatype Waiter =
    | Acquiring
    | Acquired              // semaphore held, request not active yet
    | Selecting
    | Got(err: Err)         // the worker's result arrived
    | GotLate(err: Err)     // ... and neither it nor the context was a deadline or cancellation error
    | ToCancel(timeout: bool)
    | ToFinish              // about to read the context for the terminal event
    | ToPublish(event: Event)
    | Ending(event: Event)
    | Deactivating(event: Event)
    | Returned(outcome: Option<Event>)

  datatype Request = Request(
    ctx: Ctx,
    hasCancel: bool,        // the caller passed a cancelCall
    waiter: Waiter,
    worker: Worker,
    id: nat,
    log: seq<Event>,        // events the sink received for this request
    terminal: bool,
    result: Option<Err>,    // the result channel
    calls: nat,
    callErr: Option<Err>,   // what the call returned
    signatures: nat,        // sends on the signature channel, right before the call returns
    cancels: nat)

  datatype State = State(
    requests: seq<Request>,
    semaphore: Option<nat>,
    activeID: nat,
    activeStop: Option<nat>,
    activeNext: nat,
    cancellers: set<(nat, nat)>)   // Cancel calls between their lock section and their cancel()

  function ErrOf(c: Ctx): Err {
    match c case Alive => NoErr case Canceled => CanceledErr case Deadline => DeadlineErr
  }

  function CancelCtx(r: Request): Request {
    if r.ctx == Alive then r.(ctx := Canceled) else r
  }

  predicate IsTerminal(e: Event) {
    e != Initializing && e != Waiting
  }

  // ---- steps that touch one request only -----------------------------------

  datatype WorkerAction = PublishProgress | EnsureReturns(err: Err) | ReadContext | CallReturns(err: Err) | Normalize(err: Err) | Send

  datatype WaiterAction =
    GiveUp | TakeResult | SeeDone | Classify | RunCancel | FinishContext | PublishTerminal | CancelRequest

  datatype Local = Expire(ctx: Ctx) | ByWorker(work: WorkerAction) | ByWaiter(wait: WaiterAction)

  /** One step of the goroutine that runs Ensure and the call. */
  function WorkerStep(r: Request, a: WorkerAction): Option<Request> {
    match r.worker
    case ToInitialize =>
      if !a.PublishProgress? then None
      else if r.terminal || r.ctx != Alive then Some(r.(worker := Refused))
      else Some(r.(worker := InEnsure, log := r.log + [Initializing]))
    case InEnsure =>
      if !a.EnsureReturns? then None
      else Some(r.(worker := if a.err == NoErr then Ensured else ToSend(a.err)))
    case Ensured =>
      if !a.ReadContext? then None
      else Some(r.(worker := if r.ctx != Alive then ToSend(ErrOf(r.ctx)) else ToWait))
    case ToWait =>
      if !a.PublishProgress? then None
      else if r.terminal || r.ctx != Alive then Some(r.(worker := Refused))
      else Some(r.(worker := ToCall, log := r.log + [Waiting]))
    case ToCall =>
      if !a.ReadContext? then None
      else if r.ctx != Alive then Some(r.(worker := ToSend(ErrOf(r.ctx))))
      else Some(r.(worker := InCall, calls := r.calls + 1))
    case InCall =>
      if !a.CallReturns? then None
      else Some(r.(callErr := Some(a.err), signatures := r.signatures + 1, worker := if a.err == NoErr then ToSend(NoErr) else Normalizing))
    case Normalizing =>
      if !a.Normalize? || a.err == NoErr then None else Some(r.(worker := ToSend(a.err)))
    case Refused =>
      if !a.ReadContext? then None else Some(r.(worker := ToSend(ErrOf(r.ctx))))
    case ToSend(e) =>
      if !a.Send? || r.result.Some? then None else Some(r.(result := Some(e), worker := ToRelease))
    case _ => None
  }

  /** One step of the goroutine that called RunCancelableFor. */
  function WaiterStep(r: Request, a: WaiterAction): Option<Request> {
    match r.waiter
    case Acquiring =>
      if !a.GiveUp? || r.ctx == Alive then None else Some(r.(waiter := Returned(None)))
    case Selecting =>
      if a.TakeResult? && r.result.Some? then Some(r.(result := None, waiter := Got(r.result.value)))
      else if a.SeeDone? && r.ctx != Alive then Some(r.(waiter := ToCancel(false)))
      else None
    case Got(e) =>
      if !a.Classify? then None
      else if e == NoErr then Some(r.(waiter := if r.ctx != Alive then ToCancel(false) else ToPublish(Success)))
      else if e == DeadlineErr then Some(r.(waiter := ToCancel(true)))
      else if r.ctx == Deadline || e == CanceledErr then Some(r.(waiter := ToCancel(false)))
      else Some(r.(waiter := GotLate(e)))
    case GotLate(_) =>
      if !a.Classify? then None
      else Some(r.(waiter := if r.ctx == Canceled then ToCancel(false) else ToPublish(Failure)))
    case ToCancel(timeout) =>
      if !a.RunCancel? then None
      else Some(r.(cancels := if r.hasCancel then r.cancels + 1 else r.cancels,
                   waiter := if timeout then ToPublish(TimeoutEvent) else ToFinish))
    case ToFinish =>
      if !a.FinishContext? then None
      else Some(r.(waiter := ToPublish(if r.ctx == Deadline then TimeoutEvent else CanceledEvent)))
    case ToPublish(e) =>
      if !a.PublishTerminal? then None
      else if r.terminal then Some(r.(waiter := Ending(e)))
      else Some(r.(terminal := true, log := r.log + [e], waiter := Ending(e)))
    case Ending(e) =>
      if !a.CancelRequest? then None else Some(CancelCtx(r).(waiter := Deactivating(e)))
    case _ => None
  }

  function LocalStep(r: Request, a: Local): Option<Request> {
    match a
    case Expire(c) => if r.ctx == Alive && c != Alive then Some(r.(ctx := c)) else None
    case ByWorker(w) => WorkerStep(r, w)
    case ByWaiter(w) => WaiterStep(r, w)
  }

  // ---- steps that touch the coordinator -------------------------------------

  datatype Action =
    | Arrive(ctx: Ctx, hasCancel: bool)
    | At(i: nat, local: Local)
    | Acquire(i: nat)
    | BeginActive(i: nat)
    | Release(i: nat)
    | EndActive(i: nat)
    | CancelLookup(id: nat)
    | CancelFire(canceller: (nat, nat))

  function Put(s: State, i: nat, r: Request): State
    requires i < |s.requests|
  {
    s.(requests := s.requests[i := r])
  }

  function Step(s: State, a: Action): Option<State> {
    match a
    case Arrive(ctx, hasCancel) =>
      Some(s.(requests := s.requests + [Request(ctx, hasCancel, Acquiring, Unstarted, 0, [], false, None, 0, None, 0, 0)]))
    case At(i, local) =>
      if i >= |s.requests| then None
      else (match LocalStep(s.requests[i], local) case None => None case Some(r) => Some(Put(s, i, r)))
    case Acquire(i) =>
      if i >= |s.requests| || s.requests[i].waiter != Acquiring || s.semaphore.Some? then None
      else Some(Put(s, i, s.requests[i].(waiter := Acquired)).(semaphore := Some(i)))
    case BeginActive(i) =>
      if i >= |s.requests| || s.requests[i].waiter != Acquired then None
      else
        var id := s.activeNext + 1;
        Some(Put(s, i, s.requests[i].(waiter := Selecting, worker := ToInitialize, id := id))
               .(activeNext := id, activeID := id, activeStop := Some(i)))
    case Release(i) =>
      if i >= |s.requests| || s.requests[i].worker != ToRelease then None
      else Some(Put(s, i, s.requests[i].(worker := Finished)).(semaphore := None))
    case EndActive(i) =>
      if i >= |s.requests| || !s.requests[i].waiter.Deactivating? then None
      else
        var r := s.requests[i];
        var t := Put(s, i, r.(waiter := Returned(Some(r.waiter.event))));
        Some(if s.activeID == r.id then t.(activeID := 0, activeStop := None) else t)
    case CancelLookup(id) =>
      if id == 0 || s.activeID != id then Some(s)
      else
        var t := s.(activeID := 0, activeStop := None);
        Some(if s.activeStop.None? then t else t.(cancellers := t.cancellers + {(id, s.activeStop.value)}))
    case CancelFire(c) =>
      if c !in s.cancellers || c.1 >= |s.requests| then None
      else Some(Put(s, c.1, CancelCtx(s.requests[c.1])).(cancellers := s.cancellers - {c}))
  }

  const Initial := State([], None, 0, None, 0, {})

  /** `states` is a run: it starts idle and each state follows by some step. */
  ghost predicate Run(states: seq<State>) {
    && |states| > 0
    && states[0] == Initial
    && forall k :: 0 < k < |states| ==> Stepped(states, k)
  }

  ghost predicate Stepped(states: seq<State>, k: int)
    requires 0 < k < |states|
  {
    Follows(states[k - 1], states[k])
  }

  ghost predicate Follows(s: State, t: State) {
    exists a :: Step(s, a) == Some(t)
  }

  // ---- the invariant of one request ------------------------------------------

  predicate Progress(log: seq<Event>) {
    log == [] || log == [Initializing] || log == [Initializing, Waiting]
  }

  predicate EndsWith(log: seq<Event>, e: Event) {
    |log| > 0 && log[|log| - 1] == e && IsTerminal(e) && Progress(log[..|log| - 1])
  }

  predicate Begun(w: Waiter) {
    !w.Acquiring? && !w.Acquired? && w != Returned(None)
  }

  /** The terminal event this waiter has published, if it has. */
  function Outcome(w: Waiter): Option<Event> {
    match w
    case Ending(e) => Some(e)
    case Deactivating(e) => Some(e)
    case Returned(o) => o
    case _ => None
  }

  /** Progress events appear in the order the worker publishes them; the waiter's
      terminal event comes last. */
  predicate LogInv(r: Request) {
    && r.terminal == Outcome(r.waiter).Some?
    && if r.terminal then EndsWith(r.log, Outcome(r.waiter).value)
       else
         match r.worker
         case Unstarted => r.log == []
         case ToInitialize => r.log == []
         case InEnsure => r.log == [Initializing]
         case Ensured => r.log == [Initializing]
         case ToWait => r.log == [Initializing]
         case _ => Progress(r.log)
  }

  predicate Sent(w: Worker) {
    w.ToRelease? || w.Finished?
  }

  /** The call ran exactly once and returned nil. */
  predicate CallSucceeded(r: Request) {
    r.calls == 1 && r.callErr == Some(NoErr)
  }

  predicate WorkerInv(r: Request) {
    match r.worker
    case InCall => r.calls == 1 && r.callErr == None
    case Normalizing => r.calls == 1
    case Refused => r.calls <= 1 && r.ctx != Alive
    case ToSend(e) => r.calls <= 1 && (e == NoErr ==> CallSucceeded(r))
    case ToRelease => r.calls <= 1
    case Finished => r.calls <= 1
    case _ => r.calls == 0 && r.callErr == None
  }

  function CancelsIf(r: Request): nat {
    if r.hasCancel then 1 else 0
  }

  /** What each terminal event promises. */
  predicate Promised(r: Request, e: Event) {
    match e
    case Success => CallSucceeded(r) && r.cancels == 0
    case Failure => r.cancels == 0
    case TimeoutEvent => r.cancels == CancelsIf(r)
    case CanceledEvent => r.cancels == CancelsIf(r)
    case _ => false
  }

  predicate WaiterInv(r: Request) {
    match r.waiter
    case Got(e) => r.cancels == 0 && (e == NoErr ==> CallSucceeded(r))
    case ToFinish => r.cancels == CancelsIf(r)
    case ToPublish(e) => Promised(r, e)
    case Ending(e) => Promised(r, e)
    case Deactivating(e) => Promised(r, e)
    case Returned(Some(e)) => Promised(r, e)
    case _ => r.cancels == 0
  }

  /** How the two goroutines of a request are related. */
  predicate LinkInv(r: Request) {
    && (Begun(r.waiter) <==> !r.worker.Unstarted?)
    && (Begun(r.waiter) <==> r.id > 0)
    && (r.result.Some? ==> Sent(r.worker) && (r.result.value == NoErr ==> CallSucceeded(r)))
    && (Begun(r.waiter) && !r.waiter.Selecting? ==> Sent(r.worker) || r.ctx != Alive)
  }

  /** The signature is sent exactly when the call has returned. */
  predicate SignatureInv(r: Request) {
    r.signatures == if r.callErr.Some? then 1 else 0
  }

  predicate RequestInv(r: Request) {
    LogInv(r) && LinkInv(r) && WorkerInv(r) && WaiterInv(r) && SignatureInv(r)
  }

  /** The request accounts for the semaphore's one token. */
  predicate Holds(r: Request) {
    r.waiter.Acquired? || (!r.worker.Unstarted? && !r.worker.Finished?)
  }

  predicate LocalKeeps(r: Request, t: Request) {
    && RequestInv(t)
    && Holds(t) == Holds(r)
    && t.id == r.id
    && r.log <= t.log
    && (r.terminal ==> t.terminal && t.log == r.log)
  }

  lemma WorkerKeeps(r: Request, a: WorkerAction)
    requires LinkInv(r) && WorkerInv(r) && r.terminal == Outcome(r.waiter).Some? && WorkerStep(r, a).Some?
    ensures var t := WorkerStep(r, a).value; LinkInv(t) && WorkerInv(t) && Holds(t) == Holds(r)
  {
  }

  lemma WorkerKeepsPromise(r: Request, a: WorkerAction)
    requires WaiterInv(r) && LinkInv(r) && WorkerInv(r) && WorkerStep(r, a).Some?
    ensures WaiterInv(WorkerStep(r, a).value)
  {
  }

  /** A worker publishes progress only, and only before the terminal event. */
  lemma WorkerPublishes(r: Request, a: WorkerAction)
    requires WorkerStep(r, a).Some?
    ensures var t := WorkerStep(r, a).value;
            && t.waiter == r.waiter && t.terminal == r.terminal && t.id == r.id && r.log <= t.log
            && (r.terminal ==> t.log == r.log)
  {
  }

  lemma WorkerProgresses(r: Request, a: WorkerAction)
    requires LogInv(r) && !r.terminal && WorkerStep(r, a).Some?
    ensures LogInv(WorkerStep(r, a).value)
  {
  }

  lemma WorkerLog(r: Request, a: WorkerAction)
    requires LogInv(r) && WorkerStep(r, a).Some?
    ensures var t := WorkerStep(r, a).value; LogInv(t) && r.log <= t.log && (r.terminal ==> t.log == r.log)
  {
    WorkerPublishes(r, a);
    if !r.terminal {
      WorkerProgresses(r, a);
    }
  }

  lemma WorkerSigns(r: Request, a: WorkerAction)
    requires WorkerInv(r) && SignatureInv(r) && WorkerStep(r, a).Some?
    ensures SignatureInv(WorkerStep(r, a).value)
  {
  }

  /** What a waiter step leaves alone. */
  lemma WaiterFrame(r: Request, a: WaiterAction)
    requires WaiterStep(r, a).Some?
    ensures var t := WaiterStep(r, a).value;
            && t.worker == r.worker && t.calls == r.calls && t.callErr == r.callErr && t.signatures == r.signatures && t.id == r.id
            && (r.ctx != Alive ==> t.ctx == r.ctx)
            && !r.waiter.Acquired? && !t.waiter.Acquired?
            && Begun(t.waiter) == Begun(r.waiter)
            && (t.result.Some? ==> t.result == r.result)
            && (Begun(r.waiter) && r.waiter.Selecting? ==> r.result.Some? || r.ctx != Alive)
  {
  }

  lemma WaiterKeeps(r: Request, a: WaiterAction)
    requires LinkInv(r) && WorkerInv(r) && WaiterStep(r, a).Some?
    ensures var t := WaiterStep(r, a).value; LinkInv(t) && WorkerInv(t) && Holds(t) == Holds(r)
  {
    WaiterFrame(r, a);
  }

  lemma WaiterKeepsPromise(r: Request, a: WaiterAction)
    requires WaiterInv(r) && LinkInv(r) && WaiterStep(r, a).Some?
    ensures WaiterInv(WaiterStep(r, a).value)
  {
  }

  lemma WaiterLog(r: Request, a: WaiterAction)
    requires LogInv(r) && (r.waiter.ToPublish? ==> IsTerminal(r.waiter.event)) && WaiterStep(r, a).Some?
    ensures var t := WaiterStep(r, a).value; LogInv(t) && r.log <= t.log && (r.terminal ==> t.log == r.log)
  {
    if a.PublishTerminal? {
      var t := WaiterStep(r, a).value;
      assert t.log[..|t.log| - 1] == r.log;
    }
  }

  lemma ContextKeeps(r: Request, ctx: Ctx)
    requires RequestInv(r) && ctx != Alive
    ensures LocalKeeps(r, r.(ctx := ctx))
  {
  }

  lemma WorkerStepKeeps(r: Request, a: WorkerAction)
    requires RequestInv(r) && WorkerStep(r, a).Some?
    ensures LocalKeeps(r, WorkerStep(r, a).value)
  {
    WorkerKeeps(r, a);
    WorkerKeepsPromise(r, a);
    WorkerLog(r, a);
    WorkerPublishes(r, a);
    WorkerSigns(r, a);
  }

  lemma WaiterStepKeeps(r: Request, a: WaiterAction)
    requires RequestInv(r) && WaiterStep(r, a).Some?
    ensures LocalKeeps(r, WaiterStep(r, a).value)
  {
    WaiterFrame(r, a);
    WaiterKeeps(r, a);
    WaiterKeepsPromise(r, a);
    WaiterLog(r, a);
  }

  lemma LocalStepKeeps(r: Request, a: Local)
    requires RequestInv(r) && LocalStep(r, a).Some?
    ensures LocalKeeps(r, LocalStep(r, a).value)
  {
    match a
    case Expire(ctx) => ContextKeeps(r, ctx);
    case ByWorker(w) => WorkerStepKeeps(r, w);
    case ByWaiter(w) => WaiterStepKeeps(r, w);
  }

  // ---- the invariant of the coordinator ---------------------------------------

  /** The semaphore's token is with exactly the request that accounts for it. */
  ghost predicate TokenInv(s: State) {
    && (s.semaphore.Some? ==> s.semaphore.value < |s.requests|)
    && forall i :: 0 <= i < |s.requests| ==> (Holds(s.requests[i]) <==> s.semaphore == Some(i))
  }

  /** Identifiers are handed out once, in increasing order. */
  ghost predicate IdInv(s: State) {
    && (forall i :: 0 <= i < |s.requests| ==> s.requests[i].id <= s.activeNext)
    && (forall i, j :: 0 <= i < j < |s.requests| && s.requests[i].id > 0 ==> s.requests[i].id != s.requests[j].id)
  }

  ghost predicate Owns(s: State, i: nat, id: nat) {
    id > 0 && i < |s.requests| && s.requests[i].id == id
  }

  /** Every cancel function in circulation belongs to the request with that ID. */
  ghost predicate ActiveInv(s: State) {
    && (s.activeStop.Some? <==> s.activeID > 0)
    && (s.activeStop.Some? ==> Owns(s, s.activeStop.value, s.activeID))
    && (forall c :: c in s.cancellers ==> Owns(s, c.1, c.0))
  }

  ghost predicate RequestsInv(s: State) {
    forall i :: 0 <= i < |s.requests| ==> RequestInv(s.requests[i])
  }

  ghost predicate StateInv(s: State) {
    RequestsInv(s) && TokenInv(s) && IdInv(s) && ActiveInv(s)
  }

  /** The request that an action moves, if it moves one. */
  function Moves(a: Action): Option<nat> {
    match a
    case At(i, _) => Some(i)
    case Acquire(i) => Some(i)
    case BeginActive(i) => Some(i)
    case Release(i) => Some(i)
    case EndActive(i) => Some(i)
    case CancelFire(c) => Some(c.1)
    case _ => None
  }

  lemma TokenMovesKeep(r: Request, id: nat)
    requires RequestInv(r) && id > 0
    ensures r.waiter == Acquiring ==> RequestInv(r.(waiter := Acquired))
    ensures r.waiter == Acquired ==> RequestInv(r.(waiter := Selecting, worker := ToInitialize, id := id))
    ensures r.worker == ToRelease ==> RequestInv(r.(worker := Finished))
  {
  }

  lemma CancelKeeps(r: Request)
    requires RequestInv(r)
    ensures RequestInv(CancelCtx(r)) && Holds(CancelCtx(r)) == Holds(r)
  {
    if r.ctx == Alive {
      ContextKeeps(r, Canceled);
    }
  }

  lemma ReturnKeeps(r: Request)
    requires RequestInv(r) && r.waiter.Deactivating?
    ensures var t := r.(waiter := Returned(Some(r.waiter.event))); RequestInv(t) && Holds(t) == Holds(r)
  {
  }

  lemma SharedMoveKeeps(s: State, a: Action)
    requires StateInv(s) && Step(s, a).Some? && Moves(a).Some? && !a.At?
    ensures var t := Step(s, a).value; var i := Moves(a).value;
            && i < |s.requests| && t.requests == s.requests[i := t.requests[i]]
            && RequestInv(t.requests[i])
            && t.requests[i].log == s.requests[i].log
            && t.requests[i].terminal == s.requests[i].terminal
            && (!a.BeginActive? ==> t.requests[i].id == s.requests[i].id)
            && (!a.Acquire? && !a.Release? && !a.BeginActive? ==> Holds(t.requests[i]) == Holds(s.requests[i]))
  {
    var r := s.requests[Moves(a).value];
    assert RequestInv(r);
    if a.EndActive? {
      ReturnKeeps(r);
    } else if a.CancelFire? {
      CancelKeeps(r);
    } else {
      TokenMovesKeep(r, s.activeNext + 1);
    }
  }

  /** What one step does to the request it moves. */
  lemma MoveKeeps(s: State, a: Action)
    requires StateInv(s) && Step(s, a).Some? && Moves(a).Some?
    ensures var t := Step(s, a).value; var i := Moves(a).value;
            && i < |s.requests| && t.requests == s.requests[i := t.requests[i]]
            && RequestInv(t.requests[i])
            && s.requests[i].log <= t.requests[i].log
            && (s.requests[i].terminal ==> t.requests[i].terminal && t.requests[i].log == s.requests[i].log)
            && (!a.BeginActive? ==> t.requests[i].id == s.requests[i].id)
            && (!a.Acquire? && !a.Release? && !a.BeginActive? ==> Holds(t.requests[i]) == Holds(s.requests[i]))
  {
    if a.At? {
      LocalStepKeeps(s.requests[a.i], a.local);
    } else {
      SharedMoveKeeps(s, a);
    }
  }

  /** A step moves one request, adds one without an identifier, or moves none. */
  lemma IdsMove(s: State, a: Action)
    requires StateInv(s) && Step(s, a).Some?
    ensures var t := Step(s, a).value;
            && t.activeNext == s.activeNext + (if a.BeginActive? then 1 else 0)
            && |t.requests| == |s.requests| + (if a.Arrive? then 1 else 0)
            && (forall i :: 0 <= i < |t.requests| ==>
                  t.requests[i].id == (if a.BeginActive? && a.i == i then s.activeNext + 1
                                       else if i < |s.requests| then s.requests[i].id else 0))
  {
    if Moves(a).Some? {
      MoveKeeps(s, a);
    }
  }

  lemma RequestsKept(s: State, a: Action)
    requires StateInv(s) && Step(s, a).Some?
    ensures RequestsInv(Step(s, a).value)
  {
    if Moves(a).Some? {
      MoveKeeps(s, a);
    }
  }

  /** Only taking and giving back the semaphore changes who accounts for its token. */
  ghost predicate HoldersMoved(s: State, a: Action, t: State) {
    forall i :: 0 <= i < |t.requests| ==>
      (Holds(t.requests[i]) <==>
       if a.Acquire? && a.i == i then true
       else if a.Release? && a.i == i then false
       else i < |s.requests| && Holds(s.requests[i]))
  }

  ghost predicate TokenMoved(s: State, a: Action, t: State) {
    && |s.requests| <= |t.requests|
    && (a.Acquire? ==> a.i < |s.requests| && s.semaphore == None)
    && (a.Release? ==> a.i < |s.requests| && Holds(s.requests[a.i]))
    && t.semaphore == if a.Acquire? then Some(a.i) else if a.Release? then None else s.semaphore
  }

  lemma HoldersMove(s: State, a: Action)
    requires StateInv(s) && Step(s, a).Some?
    ensures HoldersMoved(s, a, Step(s, a).value)
  {
    if Moves(a).Some? {
      MoveKeeps(s, a);
      assert RequestInv(s.requests[Moves(a).value]);
    }
  }

  lemma TokenMoves(s: State, a: Action)
    requires Step(s, a).Some?
    ensures TokenMoved(s, a, Step(s, a).value)
  {
  }

  lemma TokenInherited(s: State, a: Action, t: State)
    requires TokenInv(s) && TokenMoved(s, a, t) && HoldersMoved(s, a, t)
    ensures TokenInv(t)
  {
  }

  lemma TokenKept(s: State, a: Action)
    requires StateInv(s) && Step(s, a).Some?
    ensures TokenInv(Step(s, a).value)
  {
    HoldersMove(s, a);
    TokenMoves(s, a);
    TokenInherited(s, a, Step(s, a).value);
  }

  lemma IdsKept(s: State, a: Action)
    requires StateInv(s) && Step(s, a).Some?
    ensures IdInv(Step(s, a).value)
  {
    IdsMove(s, a);
  }

  /** An identifier stays with its request. */
  lemma OwnerKept(s: State, a: Action, i: nat, id: nat)
    requires StateInv(s) && Step(s, a).Some? && Owns(s, i, id)
    ensures Owns(Step(s, a).value, i, id)
  {
    IdsMove(s, a);
    assert RequestInv(s.requests[i]);
  }

  lemma ActiveKept(s: State, a: Action)
    requires StateInv(s) && Step(s, a).Some?
    ensures ActiveInv(Step(s, a).value)
  {
    forall i, id | Owns(s, i, id) ensures Owns(Step(s, a).value, i, id) {
      OwnerKept(s, a, i, id);
    }
  }

  lemma StepKeeps(s: State, a: Action)
    requires StateInv(s) && Step(s, a).Some?
    ensures StateInv(Step(s, a).value)
  {
    RequestsKept(s, a);
    TokenKept(s, a);
    IdsKept(s, a);
    ActiveKept(s, a);
  }

  // ---- what holds over every run -----------------------------------------------

  lemma {:induction false} EveryStateKeeps(states: seq<State>, k: nat)
    requires Run(states) && k < |states|
    ensures StateInv(states[k])
  {
    if k > 0 {
      EveryStateKeeps(states, k - 1);
      assert Stepped(states, k);
      var a :| Step(states[k - 1], a) == Some(states[k]);
      StepKeeps(states[k - 1], a);
    }
  }

  /** The worker is inside Ensure, or inside the call and its failure handling. */
  predicate Busy(r: Request) {
    r.worker == InEnsure || r.worker == InCall || r.worker == Normalizing
  }

  /** At most one worker is inside Ensure or a call, whether or not its waiter has
      already returned. */
  lemma OneWorkerAtATime(states: seq<State>, k: nat, i: nat, j: nat)
    requires Run(states) && k < |states| && i < |states[k].requests| && j < |states[k].requests|
    requires Busy(states[k].requests[i]) && Busy(states[k].requests[j])
    ensures i == j
  {
    EveryStateKeeps(states, k);
    assert states[k].semaphore == Some(i) && states[k].semaphore == Some(j);
  }

  function TerminalEvents(log: seq<Event>): nat {
    if log == [] then 0
    else TerminalEvents(log[..|log| - 1]) + if IsTerminal(log[|log| - 1]) then 1 else 0
  }

  lemma ProgressHasNoTerminal(log: seq<Event>)
    requires Progress(log)
    ensures TerminalEvents(log) == 0
  {
    if log == [Initializing, Waiting] {
      assert log[..1] == [Initializing];
    }
  }

  /** A request's events are a prefix of [initializing, waiting], then at most one
      terminal event. */
  lemma LogShape(states: seq<State>, k: nat, i: nat)
    requires Run(states) && k < |states| && i < |states[k].requests|
    ensures var log := states[k].requests[i].log;
            Progress(log) || (|log| > 0 && EndsWith(log, log[|log| - 1]))
    ensures TerminalEvents(states[k].requests[i].log) == if states[k].requests[i].terminal then 1 else 0
  {
    EveryStateKeeps(states, k);
    var r := states[k].requests[i];
    assert RequestInv(r);
    if r.terminal {
      ProgressHasNoTerminal(r.log[..|r.log| - 1]);
    } else {
      ProgressHasNoTerminal(r.log);
    }
  }

  /** Later states only append to a log, never to one that has its terminal event;
      an assigned identifier never changes. */
  lemma {:induction false} NothingAfterTerminal(states: seq<State>, k: nat, l: nat, i: nat)
    requires Run(states) && k <= l < |states| && i < |states[k].requests|
    ensures i < |states[l].requests|
    ensures states[k].requests[i].log <= states[l].requests[i].log
    ensures states[k].requests[i].terminal ==>
              states[l].requests[i].terminal && states[l].requests[i].log == states[k].requests[i].log
    ensures states[k].requests[i].id > 0 ==> states[l].requests[i].id == states[k].requests[i].id
  {
    if k < l {
      NothingAfterTerminal(states, k, l - 1, i);
      EveryStateKeeps(states, l - 1);
      assert Stepped(states, l);
      OneStepAppends(states[l - 1], states[l], i);
    }
  }

  lemma OneStepAppends(s: State, t: State, i: nat)
    requires StateInv(s) && Follows(s, t) && i < |s.requests|
    ensures i < |t.requests|
    ensures s.requests[i].log <= t.requests[i].log
    ensures s.requests[i].terminal ==> t.requests[i].terminal && t.requests[i].log == s.requests[i].log
    ensures s.requests[i].id > 0 ==> t.requests[i].id == s.requests[i].id
  {
    var a :| Step(s, a) == Some(t);
    if Moves(a).Some? {
      MoveKeeps(s, a);
      assert RequestInv(s.requests[i]);
    }
  }

  /** A request that becomes active gets an identifier above all earlier ones. */
  lemma IdsIncrease(states: seq<State>, k: nat, i: nat, j: nat)
    requires Run(states) && 0 < k < |states| && i < |states[k].requests| && j < |states[k - 1].requests|
    requires states[k].requests[i].id > 0 && (i < |states[k - 1].requests| ==> states[k - 1].requests[i].id == 0)
    ensures states[k].requests[i].id > states[k - 1].requests[j].id
  {
    NewIdIsLargest(states, k);
  }

  /** Identifiers that `t` has and `s` has not are above all of those in `s`. */
  ghost predicate NewAbove(s: State, t: State) {
    forall i, j :: 0 <= i < |t.requests| && 0 <= j < |s.requests| && t.requests[i].id > 0
                   && (i < |s.requests| ==> s.requests[i].id == 0) ==>
      t.requests[i].id > s.requests[j].id
  }

  lemma NewIdIsLargest(states: seq<State>, k: nat)
    requires Run(states) && 0 < k < |states|
    ensures NewAbove(states[k - 1], states[k])
  {
    EveryStateKeeps(states, k - 1);
    assert Stepped(states, k);
    var a :| Step(states[k - 1], a) == Some(states[k]);
    NextIdIsLargest(states[k - 1], a);
  }

  lemma NextIdIsLargest(s: State, a: Action)
    requires StateInv(s) && Step(s, a).Some?
    ensures NewAbove(s, Step(s, a).value)
  {
    IdsMove(s, a);
  }

  /** Cancel(id) reaches no request but the one that owns the identifier, even when
      that request has ended and another one is active by then. */
  lemma CancelHitsOwner(states: seq<State>, k: nat, i: nat, id: nat, target: nat)
    requires Run(states) && 0 < k < |states| && i < |states[k - 1].requests|
    requires Step(states[k - 1], CancelFire((id, target))) == Some(states[k])
    requires states[k].requests[i] != states[k - 1].requests[i]
    ensures states[k].requests[i].id == id && id > 0
  {
    EveryStateKeeps(states, k - 1);
    assert (id, target) in states[k - 1].cancellers;
  }

  /** What a caller may conclude when RunCancelableFor has returned `event`; None
      means that it gave up before the semaphore was acquired. */
  lemma ReturnPromises(states: seq<State>, k: nat, i: nat, outcome: Option<Event>)
    requires Run(states) && k < |states| && i < |states[k].requests|
    requires states[k].requests[i].waiter == Returned(outcome)
    ensures var r := states[k].requests[i];
            match outcome
            case None => r.log == [] && r.calls == 0 && r.cancels == 0
            case Some(event) =>
              && TerminalEvents(r.log) == 1 && r.log[|r.log| - 1] == event
              && r.calls <= 1
              && (event == Success ==> r.calls == 1 && r.callErr == Some(NoErr))
              && r.cancels == (if event == TimeoutEvent || event == CanceledEvent then CancelsIf(r) else 0)
  {
    EveryStateKeeps(states, k);
    assert RequestInv(states[k].requests[i]);
    LogShape(states, k, i);
  }

  /** SignCancelableFor sends at most one signature on its channel of capacity one, and
      when RunCancelableFor returns nil it has been sent: neither end ever blocks. */
  lemma SignatureIsThere(states: seq<State>, k: nat, i: nat)
    requires Run(states) && k < |states| && i < |states[k].requests|
    ensures states[k].requests[i].signatures <= 1
    ensures states[k].requests[i].waiter == Returned(Some(Success)) ==> states[k].requests[i].signatures == 1
  {
    EveryStateKeeps(states, k);
    assert RequestInv(states[k].requests[i]);
  }

  /** Waiting for the semaphore publishes nothing and runs nothing. */
  lemma NothingBeforeAcquire(states: seq<State>, k: nat, i: nat)
    requires Run(states) && k < |states| && i < |states[k].requests|
    requires !Holds(states[k].requests[i]) && states[k].requests[i].worker == Unstarted
    ensures states[k].requests[i].log == [] && states[k].requests[i].calls == 0 && states[k].requests[i].id == 0
  {
    EveryStateKeeps(states, k);
    assert RequestInv(states[k].requests[i]);
  }

  // ---- success is possible ---------------------------------------------------------

  lemma Extend(states: seq<State>, a: Action) returns (longer: seq<State>)
    requires Run(states) && Step(states[|states| - 1], a).Some?
    ensures Run(longer) && |longer| == |states| + 1 && Some(longer[|states|]) == Step(states[|states| - 1], a)
  {
    longer := states + [Step(states[|states| - 1], a).value];
    forall k | 0 < k < |longer| ensures Stepped(longer, k) {
      if k < |states| {
        assert Stepped(states, k);
      }
    }
  }

  /** The only request, somewhere on its way to success. */
  function Alone(hasCancel: bool, waiter: Waiter, worker: Worker, log: seq<Event>, called: bool): State {
    var r := Request(Alive, hasCancel, waiter, worker, 1, log, false, None, if called then 1 else 0,
                     if called then Some(NoErr) else None, if called then 1 else 0, 0);
    State([r], Some(0), 1, Some(0), 1, {})
  }

  lemma CallIsReached(hasCancel: bool) returns (states: seq<State>)
    ensures Run(states)
    ensures states[|states| - 1] == Alone(hasCancel, Selecting, ToWait, [Initializing], false)
  {
    states := [Initial];
    states := Extend(states, Arrive(Alive, hasCancel));
    states := Extend(states, Acquire(0));
    states := Extend(states, BeginActive(0));
    states := Extend(states, At(0, ByWorker(PublishProgress)));
    states := Extend(states, At(0, ByWorker(EnsureReturns(NoErr))));
    states := Extend(states, At(0, ByWorker(ReadContext)));
    assert [] + [Initializing] == [Initializing];
    assert states[|states| - 1].requests == Alone(hasCancel, Selecting, ToWait, [Initializing], false).requests;
  }

  lemma CallSucceeds(hasCancel: bool) returns (states: seq<State>)
    ensures Run(states)
    ensures states[|states| - 1] == Alone(hasCancel, Selecting, ToSend(NoErr), [Initializing, Waiting], true)
  {
    states := CallIsReached(hasCancel);
    states := Extend(states, At(0, ByWorker(PublishProgress)));
    states := Extend(states, At(0, ByWorker(ReadContext)));
    states := Extend(states, At(0, ByWorker(CallReturns(NoErr))));
    assert [Initializing] + [Waiting] == [Initializing, Waiting];
    assert states[|states| - 1].requests == Alone(hasCancel, Selecting, ToSend(NoErr), [Initializing, Waiting], true).requests;
  }

  lemma ResultIsTaken(hasCancel: bool) returns (states: seq<State>)
    ensures Run(states)
    ensures states[|states| - 1] == Alone(hasCancel, ToPublish(Success), ToRelease, [Initializing, Waiting], true)
  {
    states := CallSucceeds(hasCancel);
    states := Extend(states, At(0, ByWorker(Send)));
    states := Extend(states, At(0, ByWaiter(TakeResult)));
    states := Extend(states, At(0, ByWaiter(Classify)));
    assert states[|states| - 1].requests == Alone(hasCancel, ToPublish(Success), ToRelease, [Initializing, Waiting], true).requests;
  }

  /** Some run brings a request through the whole sequence of events to success. */
  lemma SuccessIsReachable(hasCancel: bool) returns (states: seq<State>)
    ensures Run(states)
    ensures |states[|states| - 1].requests| == 1
    ensures var r := states[|states| - 1].requests[0];
            r.waiter == Returned(Some(Success)) && r.log == [Initializing, Waiting, Success]
  {
    states := ResultIsTaken(hasCancel);
    states := Extend(states, At(0, ByWaiter(PublishTerminal)));
    states := Extend(states, At(0, ByWaiter(CancelRequest)));
    states := Extend(states, EndActive(0));
  }
}
