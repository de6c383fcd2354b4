/** Manager and helper, joined by two pipes. The helper is the automaton of
    SessionProtocol; either side may stop at any step, and the manager may replace a
    stopped helper by a fresh one. */
module SessionExchange {
  import opened Basics
  import opened SessionProtocol

  /** What happens to one request, in the only order in which it may happen. */
  datatype Event =
    | TouchSent(request: Id)
    | ContinueSent(request: Id, continuation: Id)
    | ContinueReceived(request: Id, continuation: Id)
    | DeriveRan(request: Id, continuation: Id)
    | Returned(request: Id, key: Key)

  datatype Phase = Sending | AwaitReady | AwaitTouch | AwaitResult | Failing

  /** The call the manager currently has active. `ready` is what WaitReady waits for. */
  datatype Call = Call(request: Id, phase: Phase, ready: bool, continueSent: bool)

  /** Every call ever started: its helper session, continuation and envelope. */
  datatype Record = Record(session: Id, continuation: Id, envelope: nat)

  datatype State = State(
    limit: nat,
    session: Id,
    helper: Helper,
    stopped: bool,              // stop() of the current helper has returned
    toHelper: seq<Frame>,
    toManager: seq<Frame>,
    completed: nat,             // requests the manager counts for this helper
    call: Option<Call>,
    records: map<Id, Record>,
    sessions: set<Id>,
    keys: map<Id, Key>,         // finished calls whose key Wait has not taken
    log: seq<Event>)

  datatype Action =
    | Launch(session: Id)
    | Stop
    | Start(request: Id, continuation: Id, envelope: nat)
    | SendRequest
    | Receive                   // the exchange goroutine takes the next frame
    | SendContinue
    | GiveUp                    // context done or a write failed
    | Fail                      // finishFailure, after stop() has returned
    | Take(request: Id)         // Wait hands out the key
    | HelperDoes(io: Io)

  function Initial(limit: nat): State {
    State(limit, 0, Helper(Exited, {}), true, [], [], 0, None, map[], {}, map[], [])
  }

  /** The frame a helper action consumes must be the next one in its pipe. */
  predicate Available(s: State, io: Io) {
    io.In? ==> s.toHelper != [] && s.toHelper[0] == io.frame
  }

  /** What the log records when the helper does `io` and ends up at `next`. */
  function HelperEvent(io: Io, next: Helper): Option<Event> {
    match io
    case In(_) => if next.position.Continued? then Some(ContinueReceived(next.position.request, next.position.continuation)) else None
    case Out(f) => if f.ReadyForTouch? then Some(TouchSent(f.request)) else None
    case Derive => if next.position.Derived? then Some(DeriveRan(next.position.request, next.position.continuation)) else None
    case Exit => None
  }

  function HelperStep(s: State, io: Io): Option<State> {
    if s.stopped || !Available(s, io) then None
    else
      match Accept(s.session, s.limit, s.helper, io)
      case None => None
      case Some(h) =>
        var event := HelperEvent(io, h);
        Some(s.(helper := h,
                toHelper := if io.In? then s.toHelper[1..] else s.toHelper,
                toManager := if io.Out? then s.toManager + [io.frame] else s.toManager,
                log := if event.Some? then s.log + [event.value] else s.log))
  }

  /** What the exchange goroutine does with the next frame. */
  function ReceiveStep(s: State): Option<State> {
    if s.call.None? || s.toManager == [] || s.call.value.request !in s.records then None
    else
      var c := s.call.value;
      var record := s.records[c.request];
      var f := s.toManager[0];
      var t := s.(toManager := s.toManager[1..]);
      match c.phase
      case AwaitReady =>
        Some(t.(call := Some(c.(phase := if IsReady(f, record.session, c.request) then AwaitTouch else Failing))))
      case AwaitTouch =>
        if IsReadyForTouch(f, record.session, c.request) then Some(t.(call := Some(c.(phase := AwaitResult, ready := true))))
        else Some(t.(call := Some(c.(phase := Failing))))
      case AwaitResult =>
        (match ResultKey(f, record.session, c.request, record.continuation)
         case None => Some(t.(call := Some(c.(phase := Failing))))
         case Some(key) =>
           Some(t.(call := None, completed := t.completed + 1, keys := t.keys[c.request := key])))
      case _ => None
  }

  function ManagerStep(s: State, a: Action): Option<State> {
    match a
    case Launch(session) =>
      if !s.stopped || s.call.Some? || session == 0 || session in s.sessions then None
      else
        Some(s.(session := session, sessions := s.sessions + {session}, helper := Fresh, stopped := false,
                toHelper := [], toManager := [], completed := 0))
    case Stop =>
      if s.stopped then None else Some(s.(stopped := true, helper := s.helper.(position := Exited)))
    case Start(r, c, e) =>
      if s.stopped || s.call.Some? || s.completed >= s.limit || r == 0 || c == 0 || r in s.records then None
      else
        Some(s.(call := Some(Call(r, Sending, false, false)), records := s.records[r := Record(s.session, c, e)]))
    case SendRequest =>
      if s.stopped || s.call.None? || s.call.value.phase != Sending || s.call.value.request !in s.records then None
      else
        var c := s.call.value;
        Some(s.(call := Some(c.(phase := AwaitReady)),
                toHelper := s.toHelper + [Request(s.session, c.request, s.records[c.request].envelope)]))
    case Receive => ReceiveStep(s)
    case SendContinue =>
      if s.stopped || s.call.None? || s.call.value.request !in s.records || !s.call.value.ready || s.call.value.continueSent then None
      else
        var c := s.call.value;
        var k := s.records[c.request].continuation;
        Some(s.(call := Some(c.(continueSent := true)),
                toHelper := s.toHelper + [Continue(s.session, c.request, k)],
                log := s.log + [ContinueSent(c.request, k)]))
    case GiveUp =>
      if s.call.None? then None else Some(s.(call := Some(s.call.value.(phase := Failing))))
    case Fail =>
      if !s.stopped || s.call.None? then None else Some(s.(call := None))
    case Take(r) =>
      if r !in s.keys then None
      else Some(s.(keys := s.keys - {r}, log := s.log + [Returned(r, s.keys[r])]))
    case _ => None
  }

  function Step(s: State, a: Action): Option<State> {
    match a
    case HelperDoes(io) => HelperStep(s, io)
    case _ => ManagerStep(s, a)
  }

  // ---- one request's share of the log --------------------------------------------

  function Project(log: seq<Event>, r: Id): seq<Event> {
    if log == [] then []
    else Project(log[..|log| - 1], r) + if log[|log| - 1].request == r then [log[|log| - 1]] else []
  }

  /** The life of a request that succeeds. Everything else stops somewhere before. */
  function Script(r: Id, record: Record): seq<Event> {
    [TouchSent(r), ContinueSent(r, record.continuation), ContinueReceived(r, record.continuation),
     DeriveRan(r, record.continuation), Returned(r, KeyOf(record.envelope))]
  }

  lemma ProjectAppend(log: seq<Event>, e: Event, r: Id)
    ensures Project(log + [e], r) == Project(log, r) + if e.request == r then [e] else []
  {
    assert (log + [e])[..|log + [e]| - 1] == log;
  }

  function Stage(log: seq<Event>, r: Id): nat {
    |Project(log, r)|
  }

  // ---- the invariant ------------------------------------------------------------

  type Records = map<Id, Record>

  /** The key Wait may still hand out for `r`: the helper is done with the request and
      its share of the log is complete up to the derivation. */
  predicate KeyReady(log: seq<Event>, records: Records, position: Position, r: Id, key: Key) {
    && r in records
    && Stage(log, r) == 4
    && key == KeyOf(records[r].envelope)
    && Subject(position) != r
  }

  /** Every request's share of the log is a prefix of its script. */
  ghost predicate Histories(log: seq<Event>, records: Records) {
    && (forall r :: r in records ==> Project(log, r) <= Script(r, records[r]))
    && (forall r :: r !in records ==> Project(log, r) == [])
    && (forall r :: r in records ==> r != 0 && records[r].continuation != 0)
  }

  ghost predicate KeysInv(keys: map<Id, Key>, log: seq<Event>, records: Records, position: Position) {
    forall r :: r in keys ==> KeyReady(log, records, position, r, keys[r])
  }

  ghost predicate CallInv(s: State) {
    s.call.Some? ==>
      var c := s.call.value; var r := c.request;
      && r in s.records && r !in s.keys && s.records[r].session == s.session
      && s.completed < s.limit
      && Stage(s.log, r) <= 4
      && (Stage(s.log, r) >= 2 <==> c.continueSent)
      && (c.ready ==> Stage(s.log, r) >= 1)
      && (c.phase == AwaitResult ==> c.ready)
      && (c.phase == Sending ==> r !in s.helper.seen)
      && (c.phase == Sending || c.phase == AwaitReady || c.phase == AwaitTouch ==> !c.ready)
  }

  /** The request the helper is working on, zero if none. */
  function Subject(p: Position): Id {
    match p
    case Refusing(r) => r
    case Preparing(r, _) => r
    case ReadySent(r, _) => r
    case AwaitContinue(r, _) => r
    case Continued(r, _, _) => r
    case Derived(r, _, _) => r
    case _ => 0
  }

  /** What a frame on its way to the manager proves. */
  predicate Proven(log: seq<Event>, records: Records, position: Position, f: Frame) {
    match f
    case ReadyForTouch(_, r) => Stage(log, r) >= 1
    case Success(_, r, _, key) => r in records && Stage(log, r) >= 4 && key == KeyOf(records[r].envelope) && Subject(position) != r
    case _ => true
  }

  ghost predicate AllProven(frames: seq<Frame>, log: seq<Event>, records: Records, position: Position) {
    forall k :: 0 <= k < |frames| ==> Proven(log, records, position, frames[k])
  }

  /** What a frame on its way to the helper proves. `pending` is the request the
      manager has active and sent, zero if none. */
  predicate Asked(log: seq<Event>, records: Records, session: Id, seen: set<Id>, pending: Id, f: Frame) {
    match f
    case Request(n, r, e) => n == session && r == pending && r in records && e == records[r].envelope && r !in seen
    case Continue(n, r, c) => n == session && r in records && c == records[r].continuation && Stage(log, r) >= 2
    case _ => false
  }

  ghost predicate AllAsked(frames: seq<Frame>, log: seq<Event>, records: Records, session: Id, seen: set<Id>, pending: Id) {
    forall k :: 0 <= k < |frames| ==> Asked(log, records, session, seen, pending, frames[k])
  }

  ghost predicate SingleRequest(frames: seq<Frame>) {
    forall j, k :: 0 <= j < k < |frames| && frames[j].Request? ==> !frames[k].Request?
  }

  function Pending(s: State): Id {
    if s.call.Some? && s.call.value.phase != Sending then s.call.value.request else 0
  }

  ghost predicate PipesInv(s: State) {
    && AllProven(s.toManager, s.log, s.records, s.helper.position)
    && (!s.stopped ==>
          SingleRequest(s.toHelper) && AllAsked(s.toHelper, s.log, s.records, s.session, s.helper.seen, Pending(s)))
  }

  predicate On(log: seq<Event>, records: Records, seen: set<Id>, r: Id, e: nat, low: nat, high: nat) {
    r in seen && r in records && e == records[r].envelope && low <= Stage(log, r) <= high
  }

  predicate HelperInv(log: seq<Event>, records: Records, h: Helper) {
    match h.position
    case Refusing(_) => false
    case Preparing(r, e) => On(log, records, h.seen, r, e, 0, 0)
    case ReadySent(r, e) => On(log, records, h.seen, r, e, 0, 0)
    case AwaitContinue(r, e) => On(log, records, h.seen, r, e, 1, 2)
    case Continued(r, e, c) => On(log, records, h.seen, r, e, 3, 3) && c == records[r].continuation
    case Derived(r, e, c) => On(log, records, h.seen, r, e, 4, 4) && c == records[r].continuation
    case _ => true
  }

  /** The replay guard remembers requests of this session only, and all that got
      anywhere. */
  ghost predicate SeenInv(log: seq<Event>, records: Records, session: Id, seen: set<Id>) {
    && (forall r :: r in seen ==> r in records && records[r].session == session)
    && (forall r :: r in records && records[r].session == session && Stage(log, r) >= 1 ==> r in seen)
  }

  /** The replay guard against the manager's own count. */
  predicate CountInv(s: State) {
    |s.helper.seen| == s.completed + if s.call.Some? && s.call.value.request in s.helper.seen then 1 else 0
  }

  ghost predicate SessionInv(s: State) {
    && (s.stopped ==> s.helper.position == Exited)
    && (!s.stopped ==> s.session in s.sessions && CountInv(s))
    && (forall r :: r in s.records ==> s.records[r].session in s.sessions)
  }

  ghost predicate StateInv(s: State) {
    && Histories(s.log, s.records)
    && KeysInv(s.keys, s.log, s.records, s.helper.position)
    && CallInv(s)
    && PipesInv(s)
    && HelperInv(s.log, s.records, s.helper)
    && SeenInv(s.log, s.records, s.session, s.helper.seen)
    && SessionInv(s)
  }

  /** Logging one event moves only the stage of its own request. */
  lemma Logs(s: State, t: State, e: Event)
    requires t.log == s.log + [e]
    ensures forall r :: Project(t.log, r) == Project(s.log, r) + if r == e.request then [e] else []
  {
    forall r ensures Project(t.log, r) == Project(s.log, r) + if r == e.request then [e] else [] {
      ProjectAppend(s.log, e, r);
    }
  }

  /** A request that has completed its part of the script up to `stage` may take the
      next event of the script. */
  lemma NextOfScript(history: seq<Event>, r: Id, record: Record, e: Event)
    requires history <= Script(r, record) && |history| < 5 && e == Script(r, record)[|history|]
    ensures history + [e] <= Script(r, record)
  {
  }

  /** Logging the next event of `e.request`'s script keeps everything that does not
      depend on how far exactly that request has come. */
  lemma LogGrows(s: State, e: Event)
    requires StateInv(s) && e.request in s.records && e.request !in s.keys
    requires Stage(s.log, e.request) < 5 && e == Script(e.request, s.records[e.request])[Stage(s.log, e.request)]
    ensures var grown := s.log + [e];
            && Histories(grown, s.records)
            && KeysInv(s.keys, grown, s.records, s.helper.position)
            && AllProven(s.toManager, grown, s.records, s.helper.position)
            && (!s.stopped ==> AllAsked(s.toHelper, grown, s.records, s.session, s.helper.seen, Pending(s)))
            && (e.request in s.helper.seen || s.records[e.request].session != s.session || Stage(s.log, e.request) >= 1 ==>
                  SeenInv(grown, s.records, s.session, s.helper.seen))
            && forall r :: Stage(grown, r) == Stage(s.log, r) + if r == e.request then 1 else 0
  {
    var grown := s.log + [e];
    Logs(s, s.(log := grown), e);
    NextOfScript(Project(s.log, e.request), e.request, s.records[e.request], e);
    assert forall r :: Stage(grown, r) == Stage(s.log, r) + if r == e.request then 1 else 0;
    forall k | 0 <= k < |s.toManager| ensures Proven(grown, s.records, s.helper.position, s.toManager[k]) {
      assert Proven(s.log, s.records, s.helper.position, s.toManager[k]);
    }
    if !s.stopped {
      forall k | 0 <= k < |s.toHelper| ensures Asked(grown, s.records, s.session, s.helper.seen, Pending(s), s.toHelper[k]) {
        assert Asked(s.log, s.records, s.session, s.helper.seen, Pending(s), s.toHelper[k]);
      }
    }
  }

  /** The call does not notice an event, except its own continue frame. */
  lemma CallLogs(s: State, e: Event)
    requires CallInv(s) && Stage(s.log, e.request) <= 3 && Stage(s.log, e.request) != 1
    ensures CallInv(s.(log := s.log + [e]))
  {
    Logs(s, s.(log := s.log + [e]), e);
  }

  lemma AppendProven(frames: seq<Frame>, f: Frame, log: seq<Event>, records: Records, position: Position)
    requires AllProven(frames, log, records, position) && Proven(log, records, position, f)
    ensures AllProven(frames + [f], log, records, position)
  {
    forall k | 0 <= k < |frames + [f]| ensures Proven(log, records, position, (frames + [f])[k]) {
      if k < |frames| {
        assert Proven(log, records, position, frames[k]);
      }
    }
  }

  /** A frame is taken out of the pipe to the helper. */
  lemma DropAsked(frames: seq<Frame>, log: seq<Event>, records: Records, session: Id, seen: set<Id>, pending: Id)
    requires frames != [] && SingleRequest(frames) && AllAsked(frames, log, records, session, seen, pending)
    ensures SingleRequest(frames[1..]) && AllAsked(frames[1..], log, records, session, seen, pending)
  {
    forall k | 0 <= k < |frames[1..]| ensures Asked(log, records, session, seen, pending, frames[1..][k]) {
      assert Asked(log, records, session, seen, pending, frames[k + 1]);
    }
  }

  /** ... and it was the request: no other request is left in the pipe. */
  lemma DropRequest(frames: seq<Frame>, log: seq<Event>, records: Records, session: Id, seen: set<Id>, pending: Id)
    requires frames != [] && frames[0].Request?
    requires SingleRequest(frames) && AllAsked(frames, log, records, session, seen, pending)
    ensures SingleRequest(frames[1..])
    ensures AllAsked(frames[1..], log, records, session, seen + {frames[0].request}, pending)
  {
    forall k | 0 <= k < |frames[1..]|
      ensures Asked(log, records, session, seen + {frames[0].request}, pending, frames[1..][k])
    {
      assert Asked(log, records, session, seen, pending, frames[k + 1]);
    }
  }

  lemma LaunchKeeps(s: State, session: Id)
    requires StateInv(s) && ManagerStep(s, Launch(session)).Some?
    ensures StateInv(ManagerStep(s, Launch(session)).value)
  {
  }

  lemma StopKeeps(s: State)
    requires StateInv(s) && ManagerStep(s, Stop).Some?
    ensures StateInv(ManagerStep(s, Stop).value)
  {
  }

  lemma GiveUpKeeps(s: State)
    requires StateInv(s) && ManagerStep(s, GiveUp).Some?
    ensures StateInv(ManagerStep(s, GiveUp).value)
  {
  }

  lemma FailKeeps(s: State)
    requires StateInv(s) && ManagerStep(s, Fail).Some?
    ensures StateInv(ManagerStep(s, Fail).value)
  {
  }

  lemma StartKeeps(s: State, r: Id, c: Id, e: nat)
    requires StateInv(s) && ManagerStep(s, Start(r, c, e)).Some?
    ensures StateInv(ManagerStep(s, Start(r, c, e)).value)
  {
    var t := ManagerStep(s, Start(r, c, e)).value;
    NewRecord(s, r, t.records[r]);
  }

  /** Registering a fresh request disturbs nothing that is known about the others. */
  lemma NewRecord(s: State, r: Id, record: Record)
    requires StateInv(s) && r !in s.records && r != 0 && record.continuation != 0
    ensures var grown := s.records[r := record];
            && Histories(s.log, grown)
            && KeysInv(s.keys, s.log, grown, s.helper.position)
            && AllProven(s.toManager, s.log, grown, s.helper.position)
            && (!s.stopped ==> AllAsked(s.toHelper, s.log, grown, s.session, s.helper.seen, Pending(s)))
            && HelperInv(s.log, grown, s.helper)
            && SeenInv(s.log, grown, s.session, s.helper.seen)
  {
    var grown := s.records[r := record];
    forall k | 0 <= k < |s.toManager| ensures Proven(s.log, grown, s.helper.position, s.toManager[k]) {
      assert Proven(s.log, s.records, s.helper.position, s.toManager[k]);
    }
    if !s.stopped {
      forall k | 0 <= k < |s.toHelper| ensures Asked(s.log, grown, s.session, s.helper.seen, Pending(s), s.toHelper[k]) {
        assert Asked(s.log, s.records, s.session, s.helper.seen, Pending(s), s.toHelper[k]);
      }
    }
  }

  lemma SendRequestKeeps(s: State)
    requires StateInv(s) && ManagerStep(s, SendRequest).Some?
    ensures StateInv(ManagerStep(s, SendRequest).value)
  {
  }

  /** A step of the manager that leaves the helper and its replies alone. */
  lemma ManagerFrame(s: State, t: State)
    requires StateInv(s) && t == s.(toHelper := t.toHelper, call := t.call, keys := t.keys, log := t.log)
    requires Histories(t.log, s.records) && KeysInv(t.keys, t.log, s.records, s.helper.position)
    requires CallInv(t) && AllProven(s.toManager, t.log, s.records, s.helper.position)
    requires !s.stopped ==> SingleRequest(t.toHelper) && AllAsked(t.toHelper, t.log, s.records, s.session, s.helper.seen, Pending(t))
    requires HelperInv(t.log, s.records, s.helper) && SeenInv(t.log, s.records, s.session, s.helper.seen)
    requires t.call.Some? == s.call.Some? && (t.call.Some? ==> t.call.value.request == s.call.value.request)
    ensures StateInv(t)
  {
  }

  lemma AppendContinue(frames: seq<Frame>, f: Frame, log: seq<Event>, records: Records, session: Id, seen: set<Id>, pending: Id)
    requires SingleRequest(frames) && AllAsked(frames, log, records, session, seen, pending)
    requires f.Continue? && Asked(log, records, session, seen, pending, f)
    ensures SingleRequest(frames + [f]) && AllAsked(frames + [f], log, records, session, seen, pending)
  {
    forall k | 0 <= k < |frames + [f]| ensures Asked(log, records, session, seen, pending, (frames + [f])[k]) {
      if k < |frames| {
        assert Asked(log, records, session, seen, pending, frames[k]);
      }
    }
  }

  /** When the continue frame goes out, touch has been announced and nothing has
      happened since. */
  lemma ContinueIsNext(s: State)
    requires StateInv(s) && ManagerStep(s, SendContinue).Some?
    ensures var c := s.call.value;
            && Stage(s.log, c.request) == 1 && c.request !in s.keys
            && s.records[c.request].session == s.session
  {
  }

  lemma ContinueCall(s: State, t: State)
    requires CallInv(s) && s.call.Some? && Stage(s.log, s.call.value.request) == 1
    requires t == s.(call := Some(s.call.value.(continueSent := true)), toHelper := t.toHelper, log := t.log)
    requires Stage(t.log, s.call.value.request) == 2
    ensures CallInv(t)
  {
  }

  lemma SendContinueKeeps(s: State)
    requires StateInv(s) && ManagerStep(s, SendContinue).Some?
    ensures StateInv(ManagerStep(s, SendContinue).value)
  {
    var t := ManagerStep(s, SendContinue).value;
    var r := s.call.value.request;
    var c := s.records[r].continuation;
    ContinueIsNext(s);
    LogGrows(s, ContinueSent(r, c));
    ContinueCall(s, t);
    if !s.stopped {
      AppendContinue(s.toHelper, Continue(s.session, r, c), t.log, s.records, s.session, s.helper.seen, Pending(s));
    }
    HelperLogs(s, ContinueSent(r, c));
    ManagerFrame(s, t);
  }

  /** The helper does not notice that the manager has sent a continue frame or handed
      out a key. */
  lemma HelperLogs(s: State, e: Event)
    requires StateInv(s) && (Stage(s.log, e.request) == 1 || Subject(s.helper.position) != e.request)
    ensures HelperInv(s.log + [e], s.records, s.helper)
  {
    Logs(s, s.(log := s.log + [e]), e);
  }

  lemma TakeKeeps(s: State, r: Id)
    requires StateInv(s) && ManagerStep(s, Take(r)).Some?
    ensures StateInv(ManagerStep(s, Take(r)).value)
  {
    assert KeyReady(s.log, s.records, s.helper.position, r, s.keys[r]);
    WithoutKey(s, r);
    KeyIsReturned(s.(keys := s.keys - {r}), r);
  }

  /** The last event of the script, logged for a request that nobody works on. */
  lemma KeyIsReturned(s: State, r: Id)
    requires StateInv(s) && r in s.records && r !in s.keys && Stage(s.log, r) == 4
    requires Subject(s.helper.position) != r && (s.call.Some? ==> s.call.value.request != r)
    ensures StateInv(s.(log := s.log + [Returned(r, KeyOf(s.records[r].envelope))]))
  {
    var e := Returned(r, KeyOf(s.records[r].envelope));
    LogGrows(s, e);
    HelperLogs(s, e);
    CallIgnores(s, e);
    ManagerFrame(s, s.(log := s.log + [e]));
  }

  lemma WithoutKey(s: State, r: Id)
    requires StateInv(s)
    ensures StateInv(s.(keys := s.keys - {r}))
  {
  }

  lemma CallIgnores(s: State, e: Event)
    requires CallInv(s) && (s.call.Some? ==> s.call.value.request != e.request)
    ensures CallInv(s.(log := s.log + [e]))
  {
    Logs(s, s.(log := s.log + [e]), e);
  }

  /** The exchange goroutine has the key in hand. */
  predicate Finishing(s: State) {
    ReceiveStep(s).Some? && ReceiveStep(s).value.call == None
  }

  /** A frame that does not finish the call only moves its phase; `ready` means that a
      ready_for_touch frame has arrived. */
  lemma ReceiveOnlyMoves(s: State)
    requires StateInv(s) && ReceiveStep(s).Some? && !Finishing(s)
    ensures var t := ReceiveStep(s).value;
            && t.call.Some?
            && t == s.(toManager := s.toManager[1..], call := t.call)
            && var c, d := s.call.value, t.call.value;
               && d.request == c.request && d.continueSent == c.continueSent
               && c.phase != Sending && d.phase != Sending && d.phase != AwaitReady
               && (d.phase == AwaitResult ==> d.ready) && (d.phase == AwaitTouch ==> !d.ready)
               && (d.ready ==> c.ready || Stage(s.log, c.request) >= 1)
  {
    assert Proven(s.log, s.records, s.helper.position, s.toManager[0]);
  }

  lemma ReceiveMoves(s: State)
    requires StateInv(s) && ReceiveStep(s).Some? && !Finishing(s)
    ensures StateInv(ReceiveStep(s).value)
  {
    ReceiveOnlyMoves(s);
  }

  /** The result frame is the one this very call asked for, and its derivation is on
      record. */
  lemma FinishingIsProven(s: State)
    requires StateInv(s) && Finishing(s)
    ensures var r := s.call.value.request; var key := KeyOf(s.records[r].envelope);
            && r in s.helper.seen
            && ReceiveStep(s).value ==
                 s.(toManager := s.toManager[1..], call := None, completed := s.completed + 1, keys := s.keys[r := key])
            && KeyReady(s.log, s.records, s.helper.position, r, key)
  {
    assert Proven(s.log, s.records, s.helper.position, s.toManager[0]);
  }

  lemma ReceiveFinishes(s: State)
    requires StateInv(s) && Finishing(s)
    ensures StateInv(ReceiveStep(s).value)
  {
    FinishingIsProven(s);
    if !s.stopped {
      forall k | 0 <= k < |s.toHelper| ensures !s.toHelper[k].Request? {
        assert Asked(s.log, s.records, s.session, s.helper.seen, Pending(s), s.toHelper[k]);
      }
    }
  }

  // ---- helper steps ------------------------------------------------------------

  lemma NothingStarted(s: State, r: Id)
    requires StateInv(s) && !s.stopped && r == Pending(s) && r != 0 && r !in s.helper.seen
    ensures r in s.records && s.records[r].session == s.session && Stage(s.log, r) == 0 && |s.helper.seen| == s.completed < s.limit
  {
  }

  /** Only the active call's request can arrive, it was never seen before, and the
      replay guard has room for it. */
  lemma RequestIsAccepted(s: State, f: Frame)
    requires StateInv(s) && !s.stopped && s.helper.position.AwaitRequest?
    requires s.toHelper != [] && s.toHelper[0] == f && f.Request?
    ensures Accept(s.session, s.limit, s.helper, In(f)) == Some(Helper(Preparing(f.request, f.envelope), s.helper.seen + {f.request}))
    ensures f.request == Pending(s) && f.request !in s.helper.seen && f.request in s.records && f.envelope == s.records[f.request].envelope
  {
    assert Asked(s.log, s.records, s.session, s.helper.seen, Pending(s), s.toHelper[0]);
    NothingStarted(s, f.request);
  }

  lemma RequestIsRead(s: State, f: Frame)
    requires StateInv(s) && !s.stopped && s.helper.position.AwaitRequest?
    requires s.toHelper != [] && s.toHelper[0] == f && f.Request?
    ensures StateInv(s.(helper := Helper(Preparing(f.request, f.envelope), s.helper.seen + {f.request}), toHelper := s.toHelper[1..]))
  {
    RequestIsAccepted(s, f);
    NothingStarted(s, f.request);
    DropRequest(s.toHelper, s.log, s.records, s.session, s.helper.seen, Pending(s));
    Working(s, f.request, Preparing(f.request, f.envelope));
  }

  /** The helper takes up a request whose key nobody has yet. */
  lemma Working(s: State, r: Id, position: Position)
    requires StateInv(s) && Stage(s.log, r) == 0 && Subject(position) == r
    ensures KeysInv(s.keys, s.log, s.records, position)
    ensures AllProven(s.toManager, s.log, s.records, position)
  {
    forall k | 0 <= k < |s.toManager| ensures Proven(s.log, s.records, position, s.toManager[k]) {
      assert Proven(s.log, s.records, s.helper.position, s.toManager[k]);
    }
  }

  lemma ReadRequestKeeps(s: State, f: Frame)
    requires StateInv(s) && HelperStep(s, In(f)).Some? && s.helper.position.AwaitRequest?
    ensures StateInv(HelperStep(s, In(f)).value)
  {
    if f.Request? {
      RequestIsAccepted(s, f);
      RequestIsRead(s, f);
    } else {
      ReadAndExit(s);
    }
  }

  /** The helper reads a frame it does not want and exits. */
  lemma ReadAndExit(s: State)
    requires StateInv(s) && !s.stopped && s.toHelper != []
    ensures StateInv(s.(helper := s.helper.(position := Exited), toHelper := s.toHelper[1..]))
  {
    DropAsked(s.toHelper, s.log, s.records, s.session, s.helper.seen, Pending(s));
    TurningAway(s, Exited);
    HelperFrame(s, s.(helper := s.helper.(position := Exited), toHelper := s.toHelper[1..]));
  }

  /** A continue frame that the helper accepts. */
  lemma ContinueIsRead(s: State, r: Id, e: nat, c: Id)
    requires StateInv(s) && !s.stopped && s.helper.position == AwaitContinue(r, e)
    requires s.toHelper != [] && s.toHelper[0] == Continue(s.session, r, c)
    ensures StateInv(s.(helper := s.helper.(position := Continued(r, e, c)), toHelper := s.toHelper[1..],
                        log := s.log + [ContinueReceived(r, c)]))
  {
    var t := s.(helper := s.helper.(position := Continued(r, e, c)), toHelper := s.toHelper[1..],
                log := s.log + [ContinueReceived(r, c)]);
    assert Asked(s.log, s.records, s.session, s.helper.seen, Pending(s), s.toHelper[0]);
    LogGrows(s, ContinueReceived(r, c));
    CallLogs(s, ContinueReceived(r, c));
    DropAsked(s.toHelper, t.log, s.records, s.session, s.helper.seen, Pending(s));
    SameSubject(s.(log := t.log), t.helper.position);
    HelperFrame(s, t);
  }

  lemma ReadContinueKeeps(s: State, f: Frame)
    requires StateInv(s) && HelperStep(s, In(f)).Some? && s.helper.position.AwaitContinue?
    ensures StateInv(HelperStep(s, In(f)).value)
  {
    if Accept(s.session, s.limit, s.helper, In(f)).value.position.Continued? {
      ContinueIsRead(s, s.helper.position.request, s.helper.position.envelope, f.continuation);
    } else {
      ReadAndExit(s);
    }
  }

  /** A step of a live helper that leaves its replay guard alone. */
  lemma HelperFrame(s: State, t: State)
    requires StateInv(s) && !s.stopped
    requires t == s.(helper := t.helper, toHelper := t.toHelper, toManager := t.toManager, log := t.log) && t.helper.seen == s.helper.seen
    requires Histories(t.log, s.records) && KeysInv(s.keys, t.log, s.records, t.helper.position)
    requires CallInv(t) && AllProven(t.toManager, t.log, s.records, t.helper.position)
    requires SingleRequest(t.toHelper) && AllAsked(t.toHelper, t.log, s.records, s.session, s.helper.seen, Pending(s))
    requires HelperInv(t.log, s.records, t.helper) && SeenInv(t.log, s.records, s.session, s.helper.seen)
    ensures StateInv(t)
  {
  }

  /** What is known of keys and replies only asks which request the helper works on. */
  lemma SameSubject(s: State, position: Position)
    requires KeysInv(s.keys, s.log, s.records, s.helper.position) && AllProven(s.toManager, s.log, s.records, s.helper.position)
    requires Subject(position) == Subject(s.helper.position)
    ensures KeysInv(s.keys, s.log, s.records, position) && AllProven(s.toManager, s.log, s.records, position)
  {
    forall k | 0 <= k < |s.toManager| ensures Proven(s.log, s.records, position, s.toManager[k]) {
      assert Proven(s.log, s.records, s.helper.position, s.toManager[k]);
    }
  }

  /** Nothing the manager holds depends on the request the helper turns away from. */
  lemma TurningAway(s: State, position: Position)
    requires StateInv(s) && (Subject(position) == Subject(s.helper.position) || Subject(position) == 0)
    ensures KeysInv(s.keys, s.log, s.records, position)
    ensures AllProven(s.toManager, s.log, s.records, position)
  {
    forall k | 0 <= k < |s.toManager| ensures Proven(s.log, s.records, position, s.toManager[k]) {
      assert Proven(s.log, s.records, s.helper.position, s.toManager[k]);
      if s.toManager[k].Success? {
        assert Stage(s.log, s.toManager[k].request) >= 4;
      }
    }
  }

  /** The ready_for_touch frame goes out. */
  lemma TouchIsWritten(s: State, r: Id, e: nat)
    requires StateInv(s) && !s.stopped && s.helper.position == ReadySent(r, e)
    ensures StateInv(s.(helper := s.helper.(position := AwaitContinue(r, e)), toManager := s.toManager + [ReadyForTouch(s.session, r)],
                        log := s.log + [TouchSent(r)]))
  {
    var t := s.(helper := s.helper.(position := AwaitContinue(r, e)), toManager := s.toManager + [ReadyForTouch(s.session, r)],
                log := s.log + [TouchSent(r)]);
    LogGrows(s, TouchSent(r));
    CallLogs(s, TouchSent(r));
    SameSubject(s.(log := t.log), t.helper.position);
    AppendProven(s.toManager, ReadyForTouch(s.session, r), t.log, s.records, t.helper.position);
    HelperFrame(s, t);
  }

  lemma WriteTouchKeeps(s: State, f: Frame)
    requires StateInv(s) && HelperStep(s, Out(f)).Some? && f.ReadyForTouch?
    ensures StateInv(HelperStep(s, Out(f)).value)
  {
    TouchIsWritten(s, f.request, s.helper.position.envelope);
  }

  lemma WriteOtherKeeps(s: State, f: Frame)
    requires StateInv(s) && HelperStep(s, Out(f)).Some? && !f.ReadyForTouch?
    ensures StateInv(HelperStep(s, Out(f)).value)
  {
    var t := HelperStep(s, Out(f)).value;
    TurningAway(s, t.helper.position);
    AppendProven(s.toManager, f, s.log, s.records, t.helper.position);
    HelperFrame(s, t);
  }

  lemma DerivationRuns(s: State, r: Id, e: nat, c: Id)
    requires StateInv(s) && !s.stopped && s.helper.position == Continued(r, e, c)
    ensures StateInv(s.(helper := s.helper.(position := Derived(r, e, c)), log := s.log + [DeriveRan(r, c)]))
  {
    var t := s.(helper := s.helper.(position := Derived(r, e, c)), log := s.log + [DeriveRan(r, c)]);
    LogGrows(s, DeriveRan(r, c));
    CallLogs(s, DeriveRan(r, c));
    SameSubject(s.(log := t.log), t.helper.position);
    HelperFrame(s, t);
  }

  lemma DeriveKeeps(s: State)
    requires StateInv(s) && HelperStep(s, Derive).Some?
    ensures StateInv(HelperStep(s, Derive).value)
  {
    var p := s.helper.position;
    DerivationRuns(s, p.request, p.envelope, p.continuation);
  }

  lemma ExitKeeps(s: State)
    requires StateInv(s) && HelperStep(s, Exit).Some?
    ensures StateInv(HelperStep(s, Exit).value)
  {
  }

  // ---- whole runs ------------------------------------------------------------------

  lemma HelperKeeps(s: State, io: Io)
    requires StateInv(s) && HelperStep(s, io).Some?
    ensures StateInv(HelperStep(s, io).value)
  {
    match io
    case In(f) =>
      if s.helper.position.AwaitRequest? {
        ReadRequestKeeps(s, f);
      } else {
        ReadContinueKeeps(s, f);
      }
    case Out(f) =>
      if f.ReadyForTouch? {
        WriteTouchKeeps(s, f);
      } else {
        WriteOtherKeeps(s, f);
      }
    case Derive => DeriveKeeps(s);
    case Exit => ExitKeeps(s);
  }

  lemma StepKeeps(s: State, a: Action)
    requires StateInv(s) && Step(s, a).Some?
    ensures StateInv(Step(s, a).value)
  {
    match a
    case Launch(session) => LaunchKeeps(s, session);
    case Stop => StopKeeps(s);
    case Start(r, c, e) => StartKeeps(s, r, c, e);
    case SendRequest => SendRequestKeeps(s);
    case Receive =>
      if Finishing(s) {
        ReceiveFinishes(s);
      } else {
        ReceiveMoves(s);
      }
    case SendContinue => SendContinueKeeps(s);
    case GiveUp => GiveUpKeeps(s);
    case Fail => FailKeeps(s);
    case Take(r) => TakeKeeps(s, r);
    case HelperDoes(io) => HelperKeeps(s, io);
  }

  ghost predicate Stepped(states: seq<State>, actions: seq<Action>, k: nat)
    requires |states| == |actions| + 1
  {
    k < |actions| ==> Step(states[k], actions[k]) == Some(states[k + 1])
  }

  /** An interleaving of the manager and its helpers, from the manager's creation. */
  ghost predicate Run(states: seq<State>, actions: seq<Action>) {
    && |states| == |actions| + 1
    && states[0] == Initial(states[0].limit)
    && forall k: nat :: k < |actions| ==> Stepped(states, actions, k)
  }

  lemma InitialKeeps(limit: nat)
    ensures StateInv(Initial(limit))
  {
  }

  lemma {:induction false} RunKeeps(states: seq<State>, actions: seq<Action>, k: nat)
    requires Run(states, actions) && k < |states|
    ensures StateInv(states[k])
  {
    if k == 0 {
      InitialKeeps(states[0].limit);
    } else {
      RunKeeps(states, actions, k - 1);
      assert Stepped(states, actions, k - 1);
      StepKeeps(states[k - 1], actions[k - 1]);
    }
  }

  // ---- what a run promises ------------------------------------------------------------

  /** The touch gate: what happens to a request is a prefix of its script, in that
      order and each at most once. */
  lemma EveryRequestFollowsItsScript(states: seq<State>, actions: seq<Action>, k: nat, r: Id)
    requires Run(states, actions) && k < |states|
    ensures r in states[k].records ==> Project(states[k].log, r) <= Script(r, states[k].records[r])
    ensures r !in states[k].records ==> Project(states[k].log, r) == []
  {
    RunKeeps(states, actions, k);
  }

  /** A logged event is in its request's share of the log. */
  lemma {:induction false} InProject(log: seq<Event>, j: nat)
    requires j < |log|
    ensures log[j] in Project(log, log[j].request)
  {
    if j < |log| - 1 {
      InProject(log[..|log| - 1], j);
      assert log[..|log| - 1][j] == log[j];
    }
  }

  /** Every file key that Wait returns belongs to this call's own envelope and comes after
      a complete script: ready_for_touch sent, one continue with this call's
      continuation sent and received, one derivation. */
  lemma ReturnedKeyWasTouched(states: seq<State>, actions: seq<Action>, k: nat, j: nat)
    requires Run(states, actions) && k < |states|
    requires j < |states[k].log| && states[k].log[j].Returned?
    ensures var e := states[k].log[j]; var s := states[k];
            && e.request in s.records
            && e.key == KeyOf(s.records[e.request].envelope)
            && Project(s.log, e.request) == Script(e.request, s.records[e.request])
  {
    RunKeeps(states, actions, k);
    var s := states[k]; var e := s.log[j];
    InProject(s.log, j);
    var history, script := Project(s.log, e.request), Script(e.request, s.records[e.request]);
    var n :| 0 <= n < |history| && history[n] == e;
    assert history[n] == script[n];
  }

  function Derivations(log: seq<Event>, r: Id): nat {
    if log == [] then 0
    else
      Derivations(log[..|log| - 1], r) +
      if log[|log| - 1].DeriveRan? && log[|log| - 1].request == r then 1 else 0
  }

  lemma {:induction false} DerivationsInProject(log: seq<Event>, r: Id)
    ensures Derivations(log, r) == Derivations(Project(log, r), r)
  {
    if log != [] {
      var before, e := log[..|log| - 1], log[|log| - 1];
      DerivationsInProject(before, r);
      if e.request != r {
        assert Project(log, r) == Project(before, r);
      } else {
        assert (Project(before, r) + [e])[..|Project(before, r)|] == Project(before, r);
      }
    }
  }

  lemma ScriptDerivesOnce(r: Id, record: Record, n: nat)
    requires n <= 5
    ensures Derivations(Script(r, record)[..n], r) == if n >= 4 then 1 else 0
  {
    var script := Script(r, record);
    assert forall m :: 0 < m <= 5 ==> script[..m][..m - 1] == script[..m - 1];
    assert Derivations(script[..0], r) == 0;
    if n >= 1 { assert Derivations(script[..1], r) == 0; }
    if n >= 2 { assert Derivations(script[..2], r) == 0; }
    if n >= 3 { assert Derivations(script[..3], r) == 0; }
    if n >= 4 { assert Derivations(script[..4], r) == 1; }
  }

  /** No request is ever derived twice; one whose key was returned, exactly once. */
  lemma DerivedAtMostOnce(states: seq<State>, actions: seq<Action>, k: nat, r: Id)
    requires Run(states, actions) && k < |states|
    ensures Derivations(states[k].log, r) == if Stage(states[k].log, r) >= 4 then 1 else 0
  {
    RunKeeps(states, actions, k);
    var s := states[k];
    DerivationsInProject(s.log, r);
    if r in s.records {
      var script, n := Script(r, s.records[r]), Stage(s.log, r);
      assert Project(s.log, r) == script[..n];
      ScriptDerivesOnce(r, s.records[r], n);
    }
  }

  /** While no call is active the live helper remembers exactly as many requests as
      the manager has counted for it. */
  lemma CapacityAgrees(states: seq<State>, actions: seq<Action>, k: nat)
    requires Run(states, actions) && k < |states|
    requires states[k].call == None && !states[k].stopped
    ensures |states[k].helper.seen| == states[k].completed
  {
    RunKeeps(states, actions, k);
  }

  /** So a helper never has to refuse a request, for lack of room or as a replay. */
  lemma NeverRefuses(states: seq<State>, actions: seq<Action>, k: nat)
    requires Run(states, actions) && k < |states|
    ensures !states[k].helper.position.Refusing?
    ensures var s := states[k];
            !s.stopped && s.helper.position.AwaitRequest? && s.toHelper != [] && s.toHelper[0].Request? ==>
              Accept(s.session, s.limit, s.helper, In(s.toHelper[0])).value.position.Preparing?
  {
    RunKeeps(states, actions, k);
    var s := states[k];
    if !s.stopped && s.helper.position.AwaitRequest? && s.toHelper != [] && s.toHelper[0].Request? {
      RequestIsAccepted(s, s.toHelper[0]);
    }
  }

  lemma Extend(states: seq<State>, actions: seq<Action>, a: Action) returns (longer: seq<State>, more: seq<Action>)
    requires Run(states, actions) && Step(states[|actions|], a).Some?
    ensures Run(longer, more) && |more| == |actions| + 1 && Some(longer[|more|]) == Step(states[|actions|], a)
  {
    longer, more := states + [Step(states[|actions|], a).value], actions + [a];
    forall k: nat | k < |more| ensures Stepped(longer, more, k) {
      if k < |actions| {
        assert Stepped(states, actions, k);
      }
    }
  }

  /** Both sides have announced touch and the manager has read it. */
  function AtTouch(limit: nat, session: Id, r: Id, c: Id, e: nat): State {
    State(limit, session, Helper(AwaitContinue(r, e), {r}), false, [], [], 0, Some(Call(r, AwaitResult, true, false)),
          map[r := Record(session, c, e)], {session}, map[], [TouchSent(r)])
  }

  /** The request is on its way to a fresh helper. */
  function AtRequest(limit: nat, session: Id, r: Id, c: Id, e: nat): State {
    State(limit, session, Fresh, false, [Request(session, r, e)], [], 0, Some(Call(r, AwaitReady, false, false)),
          map[r := Record(session, c, e)], {session}, map[], [])
  }

  lemma RequestIsSent(limit: nat, session: Id, r: Id, c: Id, e: nat)
    returns (states: seq<State>, actions: seq<Action>)
    requires 0 < limit && session != 0 && r != 0 && c != 0
    ensures Run(states, actions) && states[|actions|] == AtRequest(limit, session, r, c, e)
  {
    states, actions := [Initial(limit)], [];
    states, actions := Extend(states, actions, Launch(session));
    states, actions := Extend(states, actions, Start(r, c, e));
    states, actions := Extend(states, actions, SendRequest);
  }

  lemma TouchIsReached(limit: nat, session: Id, r: Id, c: Id, e: nat)
    returns (states: seq<State>, actions: seq<Action>)
    requires 0 < limit && session != 0 && r != 0 && c != 0
    ensures Run(states, actions) && states[|actions|] == AtTouch(limit, session, r, c, e)
  {
    states, actions := RequestIsSent(limit, session, r, c, e);
    states, actions := Extend(states, actions, HelperDoes(In(Request(session, r, e))));
    states, actions := Extend(states, actions, HelperDoes(Out(SessionReady(session, r))));
    states, actions := Extend(states, actions, HelperDoes(Out(ReadyForTouch(session, r))));
    states, actions := Extend(states, actions, Receive);
    states, actions := Extend(states, actions, Receive);
  }

  lemma KeyIsDerived(limit: nat, session: Id, r: Id, c: Id, e: nat)
    returns (states: seq<State>, actions: seq<Action>)
    requires 0 < limit && session != 0 && r != 0 && c != 0
    ensures Run(states, actions)
    ensures states[|actions|] ==
              AtTouch(limit, session, r, c, e).(helper := Helper(Derived(r, e, c), {r}),
                                               call := Some(Call(r, AwaitResult, true, true)),
                                               log := Script(r, Record(session, c, e))[..4])
  {
    states, actions := TouchIsReached(limit, session, r, c, e);
    states, actions := Extend(states, actions, SendContinue);
    states, actions := Extend(states, actions, HelperDoes(In(Continue(session, r, c))));
    states, actions := Extend(states, actions, HelperDoes(Derive));
  }

  /** The gate can be passed: some run returns the key of any envelope, with the whole
      script as its log. */
  lemma KeyCanBeReturned(limit: nat, session: Id, r: Id, c: Id, e: nat)
    returns (states: seq<State>, actions: seq<Action>)
    requires 0 < limit && session != 0 && r != 0 && c != 0
    ensures Run(states, actions)
    ensures states[|actions|].log == Script(r, Record(session, c, e))
  {
    states, actions := KeyIsDerived(limit, session, r, c, e);
    states, actions := Extend(states, actions, HelperDoes(Out(Success(session, r, c, KeyOf(e)))));
    states, actions := Extend(states, actions, Receive);
    states, actions := Extend(states, actions, Take(r));
  }
}
