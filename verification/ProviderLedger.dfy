/** A ledger of everything a PKCS#11 provider was asked to create, open or start, and
    the rules any use of it must follow. */
module ProviderLedger {
  import opened Basics

  type Handle = nat

  datatype Event =
    | GateTaken
    | GateReleased
    | Created(m: nat)
    | Finalized(m: nat)
    | Destroyed(m: nat)
    | Opened(h: Handle)
    | SessionClosed(h: Handle)
    | LoggedIn
    | LoggedOut
    | FindStarted
    | FindEnded
    | Derived(obj: Handle)
    | ObjectDestroyed(obj: Handle)

  /** The one module that may exist, with its one session. */
  datatype Live = Live(m: nat, finalized: bool, session: Option<Session>)

  datatype Session = Session(h: Handle, loggedIn: bool, finding: bool, derived: Option<Handle>)

  datatype Ledger = Ledger(gate: bool, created: nat, live: Option<Live>)

  const Empty := Ledger(false, 0, None)

  /** What may happen next; None when `e` breaks a rule. */
  function Post(l: Ledger, e: Event): Option<Ledger> {
    match e
    case GateTaken => if l.gate then None else Some(l.(gate := true))
    case GateReleased => if l.gate && l.live.None? then Some(l.(gate := false)) else None
    case Created(m) =>
      if l.gate && l.live.None? && m == l.created then Some(Ledger(true, m + 1, Some(Live(m, false, None)))) else None
    case Destroyed(m) =>
      if l.live.Some? && l.live.value.finalized && m == l.live.value.m then Some(l.(live := None)) else None
    case _ =>
      if l.live.None? then None
      else
        match PostLive(l.live.value, e)
        case None => None
        case Some(live) => Some(l.(live := Some(live)))
  }

  function PostLive(live: Live, e: Event): Option<Live> {
    if live.finalized then None
    else
      match e
      case Finalized(m) => if m == live.m && live.session.None? then Some(live.(finalized := true)) else None
      case Opened(h) => if live.session.None? then Some(live.(session := Some(Session(h, false, false, None)))) else None
      case SessionClosed(h) =>
        if live.session.Some? && Quiet(live.session.value) && live.session.value.h == h then Some(live.(session := None)) else None
      case _ =>
        if live.session.None? then None
        else
          match PostSession(live.session.value, e)
          case None => None
          case Some(s) => Some(live.(session := Some(s)))
  }

  /** No search is running, no derived object exists and nobody is logged in. */
  predicate Quiet(s: Session) {
    Resting(s) && !s.loggedIn
  }

  predicate Resting(s: Session) {
    !s.finding && s.derived.None?
  }

  function PostSession(s: Session, e: Event): Option<Session> {
    match e
    case LoggedIn => if s.loggedIn then None else Some(s.(loggedIn := true))
    case LoggedOut => if s.loggedIn then Some(s.(loggedIn := false)) else None
    case FindStarted => if Resting(s) then Some(s.(finding := true)) else None
    case FindEnded => if s.finding then Some(s.(finding := false)) else None
    case Derived(o) => if Resting(s) && s.loggedIn then Some(s.(derived := Some(o))) else None
    case ObjectDestroyed(o) => if s.derived == Some(o) then Some(s.(derived := None)) else None
    case _ => None
  }

  function PostAll(log: seq<Event>): Option<Ledger> {
    if log == [] then Some(Empty)
    else
      match PostAll(log[..|log| - 1])
      case None => None
      case Some(l) => Post(l, log[|log| - 1])
  }

  // ---- what a lawful ledger means ---------------------------------------------------

  function Count(log: seq<Event>, e: Event): nat {
    if log == [] then 0 else Count(log[..|log| - 1], e) + if log[|log| - 1] == e then 1 else 0
  }

  datatype Kind = Opens | Closes | Derives | Destroys

  predicate Is(e: Event, kind: Kind) {
    match kind
    case Opens => e.Opened?
    case Closes => e.SessionClosed?
    case Derives => e.Derived?
    case Destroys => e.ObjectDestroyed?
  }

  function CountKind(log: seq<Event>, kind: Kind): nat {
    if log == [] then 0 else CountKind(log[..|log| - 1], kind) + if Is(log[|log| - 1], kind) then 1 else 0
  }

  function Bit(b: bool): nat {
    if b then 1 else 0
  }

  /** Modules are created once each, and finalized and destroyed once each, in that
      order, before the next one exists. */
  lemma {:induction false} ModulesBalance(log: seq<Event>, m: nat)
    requires PostAll(log).Some?
    ensures var l := PostAll(log).value; var alive := l.live.Some? && l.live.value.m == m;
            && (l.live.Some? ==> l.live.value.m < l.created)
            && Count(log, Created(m)) == Bit(m < l.created)
            && Count(log, Destroyed(m)) == Bit(m < l.created && !alive)
            && Count(log, Finalized(m)) == Bit(m < l.created && (alive ==> l.live.value.finalized))
  {
    if log != [] {
      ModulesBalance(log[..|log| - 1], m);
    }
  }

  function SessionOf(l: Ledger): Option<Session> {
    if l.live.Some? then l.live.value.session else None
  }

  /** Gate and sessions: what is taken or opened is given back once, except what the
      ledger still shows. */
  lemma {:induction false} SessionsBalance(log: seq<Event>)
    requires PostAll(log).Some?
    ensures var l := PostAll(log).value;
            && Count(log, GateTaken) == Count(log, GateReleased) + Bit(l.gate)
            && CountKind(log, Opens) == CountKind(log, Closes) + Bit(SessionOf(l).Some?)
            && (l.live.Some? ==> l.gate)
            && (SessionOf(l).Some? ==> !l.live.value.finalized)
  {
    if log != [] {
      SessionsBalance(log[..|log| - 1]);
    }
  }

  lemma {:induction false} SearchesBalance(log: seq<Event>)
    requires PostAll(log).Some?
    ensures var s := SessionOf(PostAll(log).value);
            Count(log, FindStarted) == Count(log, FindEnded) + Bit(s.Some? && s.value.finding)
  {
    if log != [] {
      var before := log[..|log| - 1];
      SearchesBalance(before);
      SessionsBalance(before);
      PostMoves(PostAll(before).value, log[|log| - 1]);
    }
  }

  lemma {:induction false} LoginsBalance(log: seq<Event>)
    requires PostAll(log).Some?
    ensures var s := SessionOf(PostAll(log).value);
            Count(log, LoggedIn) == Count(log, LoggedOut) + Bit(s.Some? && s.value.loggedIn)
  {
    if log != [] {
      var before := log[..|log| - 1];
      LoginsBalance(before);
      SessionsBalance(before);
      PostMoves(PostAll(before).value, log[|log| - 1]);
    }
  }

  lemma {:induction false} ObjectsBalance(log: seq<Event>)
    requires PostAll(log).Some?
    ensures var s := SessionOf(PostAll(log).value);
            CountKind(log, Derives) == CountKind(log, Destroys) + Bit(s.Some? && s.value.derived.Some?)
  {
    if log != [] {
      var before := log[..|log| - 1];
      ObjectsBalance(before);
      SessionsBalance(before);
      PostMoves(PostAll(before).value, log[|log| - 1]);
    }
  }

  /** The same for searches, logins and derived objects. */
  lemma ActivitiesBalance(log: seq<Event>)
    requires PostAll(log).Some?
    ensures var s := SessionOf(PostAll(log).value);
            && Count(log, FindStarted) == Count(log, FindEnded) + Bit(s.Some? && s.value.finding)
            && Count(log, LoggedIn) == Count(log, LoggedOut) + Bit(s.Some? && s.value.loggedIn)
            && CountKind(log, Derives) == CountKind(log, Destroys) + Bit(s.Some? && s.value.derived.Some?)
  {
    SearchesBalance(log);
    LoginsBalance(log);
    ObjectsBalance(log);
  }

  /** How one event moves the session. */
  lemma PostMoves(l: Ledger, e: Event)
    requires Post(l, e).Some?
    ensures var s, t := SessionOf(l), SessionOf(Post(l, e).value);
            match e
            case Opened(h) => s == None && t == Some(Session(h, false, false, None))
            case SessionClosed(_) => s.Some? && Quiet(s.value) && t == None
            case GateTaken => s == t
            case GateReleased => s == None && t == None
            case Created(_) => s == None && t == None
            case Finalized(_) => s == None && t == None
            case Destroyed(_) => t == None && (l.live.value.session.Some? ==> l.live.value.finalized)
            case _ => s.Some? && PostSession(s.value, e).Some? && t == PostSession(s.value, e)
  {
  }

  lemma {:induction false} PrefixPosts(log: seq<Event>, k: nat)
    requires PostAll(log).Some? && k <= |log|
    ensures PostAll(log[..k]).Some?
    ensures k < |log| ==> Post(PostAll(log[..k]).value, log[k]).Some?
  {
    if k < |log| - 1 {
      PrefixPosts(log[..|log| - 1], k);
      assert log[..|log| - 1][..k] == log[..k];
    } else if k == |log| {
      assert log[..k] == log;
    }
  }

  /** When a module is finalized, every session opened so far is closed, every search
      ended, every derived object destroyed, and everybody logged out. */
  lemma FinalizedWhenQuiet(log: seq<Event>, k: nat)
    requires PostAll(log).Some? && k < |log| && log[k].Finalized?
    ensures CountKind(log[..k], Opens) == CountKind(log[..k], Closes)
    ensures Count(log[..k], FindStarted) == Count(log[..k], FindEnded)
    ensures CountKind(log[..k], Derives) == CountKind(log[..k], Destroys)
    ensures Count(log[..k], LoggedIn) == Count(log[..k], LoggedOut)
  {
    PrefixPosts(log, k);
    SessionsBalance(log[..k]);
    ActivitiesBalance(log[..k]);
  }

  /** Once the gate is free, every module ever created is gone. */
  lemma FreeGateMeansNothingLeft(log: seq<Event>, m: nat)
    requires PostAll(log).Some? && !PostAll(log).value.gate
    ensures Count(log, Created(m)) == Count(log, Finalized(m)) == Count(log, Destroyed(m)) <= 1
    ensures CountKind(log, Opens) == CountKind(log, Closes)
    ensures Count(log, FindStarted) == Count(log, FindEnded)
    ensures CountKind(log, Derives) == CountKind(log, Destroys)
  {
    ModulesBalance(log, m);
    SessionsBalance(log);
    ActivitiesBalance(log);
  }

  lemma PostAppend(log: seq<Event>, e: Event)
    requires PostAll(log).Some?
    ensures PostAll(log + [e]) == Post(PostAll(log).value, e)
  {
    assert (log + [e])[..|log|] == log;
  }
}
