/** The frames of the hardware session protocol, and the helper's side of it as an
    automaton: which frames it may read and write, and when it may derive. */
module SessionProtocol {
  import opened Basics

  /** Identifiers are random nonces; zero is never valid. */
  type Id = nat

  /** What one envelope unwraps to. */
  datatype Key = KeyOf(envelope: nat)

  datatype ErrorClass =
    InvalidRequest | Configuration | PinProvider | HardwareMismatch | HardwarePin | Hardware | Unwrap |
    Canceled | Timeout | HelperFailed

  datatype Frame =
    | Request(session: Id, request: Id, envelope: nat)
    | SessionReady(session: Id, request: Id)
    | ReadyForTouch(session: Id, request: Id)
    | Continue(session: Id, request: Id, continuation: Id)
    | EarlyResult(session: Id, request: Id, error: ErrorClass)
    | Failure(session: Id, request: Id, continuation: Id, error: ErrorClass)
    | Success(session: Id, request: Id, continuation: Id, key: Key)

  // ---- what the manager accepts ---------------------------------------------

  predicate IsReady(f: Frame, session: Id, request: Id) {
    session != 0 && request != 0 && f == SessionReady(session, request)
  }

  predicate IsReadyForTouch(f: Frame, session: Id, request: Id) {
    session != 0 && request != 0 && f == ReadyForTouch(session, request)
  }

  /** The file key of a result frame that carries all three of this call's identifiers. */
  function ResultKey(f: Frame, session: Id, request: Id, continuation: Id): Option<Key> {
    if continuation == 0 || session == 0 || request == 0 then None
    else
      match f
      case Success(s, r, c, key) => if s == session && r == request && c == continuation then Some(key) else None
      case _ => None
  }

  // ---- the helper --------------------------------------------------------------

  datatype Position =
    | AwaitRequest
    | Refusing(request: Id)
    | Preparing(request: Id, envelope: nat)
    | ReadySent(request: Id, envelope: nat)
    | AwaitContinue(request: Id, envelope: nat)
    | Continued(request: Id, envelope: nat, continuation: Id)
    | Derived(request: Id, envelope: nat, continuation: Id)
    | Exited

  /** The replay guard remembers every accepted request. */
  datatype Helper = Helper(position: Position, seen: set<Id>)

  datatype Io = In(frame: Frame) | Out(frame: Frame) | Derive | Exit

  const Fresh := Helper(AwaitRequest, {})

  function Reads(session: Id, limit: nat, h: Helper, f: Frame): Option<Helper> {
    match h.position
    case AwaitRequest =>
      Some(match f
           case Request(s, r, e) =>
             if s != session || r == 0 then h.(position := Exited)
             else if r in h.seen || |h.seen| >= limit then h.(position := Refusing(r))
             else Helper(Preparing(r, e), h.seen + {r})
           case _ => h.(position := Exited))
    case AwaitContinue(r, e) =>
      Some(match f
           case Continue(s, q, c) =>
             if s == session && q == r && c != 0 then h.(position := Continued(r, e, c)) else h.(position := Exited)
           case _ => h.(position := Exited))
    case _ => None
  }

  function Writes(session: Id, h: Helper, f: Frame): Option<Helper> {
    match h.position
    case Refusing(r) =>
      if f.EarlyResult? && f.session == session && f.request == r then Some(h.(position := Exited)) else None
    case Preparing(r, e) =>
      if f == SessionReady(session, r) then Some(h.(position := ReadySent(r, e)))
      else if f.EarlyResult? && f.session == session && f.request == r then Some(h.(position := Exited))
      else None
    case ReadySent(r, e) =>
      if f == ReadyForTouch(session, r) then Some(h.(position := AwaitContinue(r, e)))
      else if f.EarlyResult? && f.session == session && f.request == r then Some(h.(position := Exited))
      else None
    case Continued(r, _, c) =>
      if f.Failure? && f.session == session && f.request == r && f.continuation == c then Some(h.(position := Exited)) else None
    case Derived(r, e, c) =>
      if f == Success(session, r, c, KeyOf(e)) then Some(h.(position := AwaitRequest))
      else if f.Failure? && f.session == session && f.request == r && f.continuation == c then Some(h.(position := Exited))
      else None
    case _ => None
  }

  /** One thing an honest helper does; None when it would never do it. */
  function Accept(session: Id, limit: nat, h: Helper, io: Io): Option<Helper> {
    match io
    case In(f) => Reads(session, limit, h, f)
    case Out(f) => Writes(session, h, f)
    case Derive =>
      (match h.position
       case Continued(r, e, c) => Some(h.(position := Derived(r, e, c)))
       case _ => None)
    case Exit => if h.position.Exited? then None else Some(h.(position := Exited))
  }

  /** The helper after a whole log, if the log is that of an honest helper. */
  function AcceptAll(session: Id, limit: nat, log: seq<Io>): Option<Helper> {
    if log == [] then Some(Fresh)
    else
      match AcceptAll(session, limit, log[..|log| - 1])
      case None => None
      case Some(h) => Accept(session, limit, h, log[|log| - 1])
  }
}
