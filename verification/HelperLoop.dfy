/** The request loop of the hardware helper process, written out over an environment
    that may fail or refuse at every call. The environment keeps a log; Obey states the
    lock, binding and session rules every log must follow, and the frames of the log
    must be those of the honest helper of SessionProtocol. */
module HelperLoop {
  import opened Basics
  import opened SessionProtocol

  /** Identity of the configuration file as inspected. */
  type Binding = nat

  datatype Config = Config(binding: Binding, hasAge: bool, recipientOk: bool)

  datatype HardwareError = DeadlineExceeded | ContextCanceled | TargetMismatch | NotDetected | PinLoginFailed | OtherError

  function HardwareErrorClass(e: HardwareError, login: bool): ErrorClass {
    match e
    case DeadlineExceeded => Timeout
    case ContextCanceled => Canceled
    case TargetMismatch => HardwareMismatch
    case NotDetected => HardwareMismatch
    case PinLoginFailed => if login then HardwarePin else Hardware
    case OtherError => Hardware
  }

  function PinErrorClass(kind: ErrorClass): ErrorClass {
    match kind
    case Configuration => Configuration
    case PinProvider => PinProvider
    case Canceled => Canceled
    case Timeout => Timeout
    case HelperFailed => HelperFailed
    case _ => PinProvider
  }

  datatype Event =
    | Does(io: Io)
    | Locked
    | Unlocked
    | Loaded(binding: Binding)
    | Inspected(found: Option<Binding>)
    | ParentSeen
    | Validated
    | OpenTried(ok: bool)
    | PinTried
    | LoginTried(ok: bool)
    | Closed

  // ---- the rules ----------------------------------------------------------------

  /** `checked`: under the current lock, the last inspection found the loaded binding.
      `parent`: the parent was verified since the last frame was read or session_ready
      written. `validated`: the session was validated for the current request. */
  datatype Rules = Rules(
    locked: bool, binding: Option<Binding>, checked: bool, parent: bool, validated: bool, life: Life)

  /** The hardware session: what was tried how often, and what is still open. */
  datatype Life = Life(opens: nat, pins: nat, logins: nat, open: bool, loggedIn: bool)

  const NoRules := Rules(false, None, false, false, false, Life(0, 0, 0, false, false))

  /** What a log may do next; None when `e` breaks a rule. */
  function Obey(r: Rules, e: Event): Option<Rules> {
    match e
    case Does(io) => if MayDo(r, io) then Some(AfterIo(r, io)) else None
    case ParentSeen => Some(r.(parent := true))
    case Validated => if r.life.loggedIn then Some(r.(validated := true)) else None
    case Locked => if r.locked then None else Some(r.(locked := true, checked := false))
    case Unlocked => if r.locked then Some(r.(locked := false, checked := false)) else None
    case Loaded(b) => if r.locked && r.binding.None? then Some(r.(binding := Some(b))) else None
    case Inspected(found) => if r.locked then Some(r.(checked := found.Some? && found == r.binding)) else None
    case _ =>
      (match Live(r.life, e)
       case None => None
       case Some(life) => if NeedsLock(r, e) then Some(r.(life := life)) else None)
  }

  function Live(life: Life, e: Event): Option<Life> {
    match e
    case OpenTried(ok) => if life.opens == 0 then Some(life.(opens := 1, open := ok)) else None
    case PinTried => if life.open && life.pins == 0 then Some(life.(pins := 1)) else None
    case LoginTried(ok) => if life.open && life.pins == 1 && life.logins == 0 then Some(life.(logins := 1, loggedIn := ok)) else None
    case Closed => if life.open then Some(life.(open := false, loggedIn := false)) else None
    case _ => None
  }

  predicate NeedsLock(r: Rules, e: Event) {
    (e.OpenTried? || e.PinTried? ==> r.locked) && (e.LoginTried? ==> r.locked && r.checked)
  }

  /** Frames are read with the lock free; a session is announced, touch is asked for and
      keys are derived with the lock held, the binding checked and the session logged in. */
  predicate MayDo(r: Rules, io: Io) {
    match io
    case In(_) => !r.locked
    case Out(f) => (f.SessionReady? || f.ReadyForTouch? ==> Permitted(r) && r.validated)
    case Derive => Permitted(r)
    case Exit => true
  }

  predicate Permitted(r: Rules) {
    r.locked && r.checked && r.parent && r.life.loggedIn
  }

  function AfterIo(r: Rules, io: Io): Rules {
    match io
    case In(f) => r.(parent := false, validated := r.validated && f.Continue?)
    case Out(f) => if f.SessionReady? then r.(parent := false) else r
    case _ => r
  }

  function ObeyAll(log: seq<Event>): Option<Rules> {
    if log == [] then Some(NoRules)
    else
      match ObeyAll(log[..|log| - 1])
      case None => None
      case Some(r) => Obey(r, log[|log| - 1])
  }

  /** The frames and derivations of a log. */
  function Ios(log: seq<Event>): seq<Io> {
    if log == [] then []
    else Ios(log[..|log| - 1]) + if log[|log| - 1].Does? then [log[|log| - 1].io] else []
  }

  lemma ObeyAppend(log: seq<Event>, e: Event)
    requires ObeyAll(log).Some?
    ensures ObeyAll(log + [e]) == Obey(ObeyAll(log).value, e)
  {
    var more := log + [e];
    assert more[..|more| - 1] == log && more[|more| - 1] == e;
  }

  lemma IosAppend(log: seq<Event>, e: Event)
    ensures Ios(log + [e]) == Ios(log) + if e.Does? then [e.io] else []
  {
    var more := log + [e];
    assert more[..|more| - 1] == log && more[|more| - 1] == e;
  }

  lemma AcceptAppend(session: Id, limit: nat, ios: seq<Io>, io: Io)
    requires AcceptAll(session, limit, ios).Some?
    ensures AcceptAll(session, limit, ios + [io]) == Accept(session, limit, AcceptAll(session, limit, ios).value, io)
  {
    var more := ios + [io];
    assert more[..|more| - 1] == ios && more[|more| - 1] == io;
  }

  lemma AppendEvent(session: Id, limit: nat, log: seq<Event>, e: Event)
    requires ObeyAll(log).Some? && AcceptAll(session, limit, Ios(log)).Some?
    ensures ObeyAll(log + [e]) == Obey(ObeyAll(log).value, e)
    ensures AcceptAll(session, limit, Ios(log + [e])) ==
              if e.Does? then Accept(session, limit, AcceptAll(session, limit, Ios(log)).value, e.io)
              else AcceptAll(session, limit, Ios(log))
  {
    ObeyAppend(log, e);
    IosAppend(log, e);
    if e.Does? {
      AcceptAppend(session, limit, Ios(log), e.io);
    } else {
      assert Ios(log) + [] == Ios(log);
    }
  }

  // ---- what the rules mean ----------------------------------------------------------

  datatype Kind = LockTaken | LockReleased | Opening | Opened | PinResolving | LoggingIn | Closing

  predicate Is(e: Event, kind: Kind) {
    match kind
    case LockTaken => e.Locked?
    case LockReleased => e.Unlocked?
    case Opening => e.OpenTried?
    case Opened => e == OpenTried(true)
    case PinResolving => e.PinTried?
    case LoggingIn => e.LoginTried?
    case Closing => e.Closed?
  }

  function Count(log: seq<Event>, kind: Kind): nat {
    if log == [] then 0 else Count(log[..|log| - 1], kind) + if Is(log[|log| - 1], kind) then 1 else 0
  }

  /** Every lock is released once, except one still held. */
  lemma {:induction false} LocksCount(log: seq<Event>)
    requires ObeyAll(log).Some?
    ensures Count(log, LockTaken) == Count(log, LockReleased) + (if ObeyAll(log).value.locked then 1 else 0)
  {
    if log != [] {
      LocksCount(log[..|log| - 1]);
    }
  }

  /** A session is opened, its PIN resolved and its login tried at most once, and what
      was opened is closed once. */
  lemma {:induction false} SessionCounts(log: seq<Event>)
    requires ObeyAll(log).Some?
    ensures var life := ObeyAll(log).value.life;
            && Count(log, Opening) == life.opens <= 1 && Count(log, PinResolving) == life.pins <= 1
            && Count(log, LoggingIn) == life.logins <= 1
            && Count(log, Opened) == Count(log, Closing) + (if life.open then 1 else 0)
            && (life.open ==> life.opens == 1)
  {
    if log != [] {
      var before, e := log[..|log| - 1], log[|log| - 1];
      SessionCounts(before);
      LifeMoves(ObeyAll(before).value, e);
    }
  }

  /** A process that ends with the lock free and the session closed gave everything back. */
  lemma EndsClean(log: seq<Event>)
    requires ObeyAll(log).Some? && !ObeyAll(log).value.locked && !ObeyAll(log).value.life.open
    ensures Count(log, LockTaken) == Count(log, LockReleased) && Count(log, Opened) == Count(log, Closing)
  {
    LocksCount(log);
    SessionCounts(log);
  }

  lemma LifeMoves(r: Rules, e: Event)
    requires Obey(r, e).Some?
    ensures Obey(r, e).value.life ==
              if e.OpenTried? || e.PinTried? || e.LoginTried? || e.Closed? then Live(r.life, e).value else r.life
    ensures e.OpenTried? || e.PinTried? || e.LoginTried? || e.Closed? ==> Live(r.life, e).Some?
  {
  }

  /** `b` is the one binding loaded before position `k`. */
  predicate LoadedBefore(log: seq<Event>, k: nat, b: Binding)
    requires k <= |log|
  {
    && (exists i :: 0 <= i < k && log[i] == Loaded(b))
    && (forall i :: 0 <= i < k && log[i].Loaded? ==> log[i] == Loaded(b))
  }

  /** The lock was taken at `from`, and kept until `k`; `b` was found by the last
      inspection, at `seen`, in between. */
  predicate CheckedUnderLock(log: seq<Event>, k: nat, from: nat, seen: nat, b: Binding)
    requires k <= |log|
  {
    && from < seen < k && log[from] == Locked && log[seen] == Inspected(Some(b))
    && (forall i :: from < i < k ==> !log[i].Unlocked?)
    && (forall i :: seen < i < k ==> !log[i].Inspected?)
  }

  predicate LockedSince(log: seq<Event>, k: nat, from: nat)
    requires k <= |log|
  {
    from < k && log[from] == Locked && forall i :: from < i < k ==> !log[i].Unlocked?
  }

  /** A prefix of a lawful log is lawful. */
  lemma {:induction false} PrefixObeys(log: seq<Event>, k: nat)
    requires ObeyAll(log).Some? && k <= |log|
    ensures ObeyAll(log[..k]).Some?
    ensures k < |log| ==> Obey(ObeyAll(log[..k]).value, log[k]).Some?
  {
    if k < |log| - 1 {
      PrefixObeys(log[..|log| - 1], k);
      assert log[..|log| - 1][..k] == log[..k];
    } else if k == |log| {
      assert log[..k] == log;
    }
  }

  lemma {:induction false} LockedMeans(log: seq<Event>, k: nat) returns (from: nat)
    requires k <= |log| && ObeyAll(log[..k]).Some? && ObeyAll(log[..k]).value.locked
    ensures LockedSince(log, k, from)
  {
    assert k > 0 && log[..k][..k - 1] == log[..k - 1];
    if log[k - 1] == Locked {
      from := k - 1;
    } else {
      from := LockedMeans(log, k - 1);
    }
  }

  lemma {:induction false} BindingMeans(log: seq<Event>, k: nat)
    requires k <= |log| && ObeyAll(log[..k]).Some?
    ensures var found := ObeyAll(log[..k]).value.binding;
            if found.Some? then LoadedBefore(log, k, found.value) else forall i :: 0 <= i < k ==> !log[i].Loaded?
  {
    if k > 0 {
      assert log[..k][..k - 1] == log[..k - 1];
      BindingMeans(log, k - 1);
    }
  }

  lemma {:induction false} CheckedMeans(log: seq<Event>, k: nat) returns (from: nat, seen: nat)
    requires k <= |log| && ObeyAll(log[..k]).Some? && ObeyAll(log[..k]).value.checked
    ensures ObeyAll(log[..k]).value.binding.Some?
    ensures CheckedUnderLock(log, k, from, seen, ObeyAll(log[..k]).value.binding.value)
  {
    assert k > 0 && log[..k][..k - 1] == log[..k - 1];
    if log[k - 1].Inspected? {
      from := LockedMeans(log, k - 1);
      seen := k - 1;
    } else {
      from, seen := CheckedMeans(log, k - 1);
    }
  }

  /** Every derivation, and every announcement of touch, runs under the lock, after an
      inspection that found the very binding loaded for the first request. */
  lemma DerivesOnlyWhenChecked(log: seq<Event>, k: nat) returns (b: Binding, from: nat, seen: nat)
    requires ObeyAll(log).Some? && k < |log| && log[k].Does?
    requires log[k].io.Derive? || (log[k].io.Out? && log[k].io.frame.ReadyForTouch?)
    ensures LoadedBefore(log, k, b) && CheckedUnderLock(log, k, from, seen, b)
  {
    PrefixObeys(log, k);
    BindingMeans(log, k);
    from, seen := CheckedMeans(log, k);
    b := ObeyAll(log[..k]).value.binding.value;
  }

  /** No frame is awaited while the lock is held: whatever was locked has been released
      whenever a frame is read. */
  lemma ReadsWithLockFree(log: seq<Event>, k: nat)
    requires ObeyAll(log).Some? && k < |log| && log[k].Does? && log[k].io.In?
    ensures Count(log[..k], LockTaken) == Count(log[..k], LockReleased)
  {
    PrefixObeys(log, k);
    LocksCount(log[..k]);
  }

  // ---- the environment ----------------------------------------------------------

  /** What arrives on standard input, frame by frame. */
  datatype Incoming = Arrives(frame: Frame) | Undecodable

  predicate WrongContinue(input: seq<Incoming>, session: Id, request: Id) {
    input != [] && input[0].Arrives? && !IsContinue(input[0].frame, session, request)
  }

  predicate IsContinue(f: Frame, session: Id, request: Id) {
    f.Continue? && f.session == session && f.request == request && f.continuation != 0
  }

  class Environment {
    const session: Id
    const limit: nat
    var input: seq<Incoming>
    ghost var log: seq<Event>
    ghost var rules: Rules
    ghost var helper: Helper
    ghost var refusals: nat                    // calls that did not do what was asked

    /** The log so far breaks no rule and is that of an honest helper. */
    ghost predicate Lawful() reads this {
      && ObeyAll(log) == Some(rules)
      && AcceptAll(session, limit, Ios(log)) == Some(helper)
    }

    constructor (session: Id, limit: nat, input: seq<Incoming>)
      ensures Lawful() && this.session == session && this.limit == limit && this.input == input
      ensures log == [] && rules == NoRules && helper == Fresh
    {
      this.session, this.limit, this.input := session, limit, input;
      log, rules, helper, refusals := [], NoRules, Fresh, 0;
    }

    ghost method Record(e: Event)
      requires Lawful() && Obey(rules, e).Some?
      requires e.Does? ==> Accept(session, limit, helper, e.io).Some?
      modifies this`log, this`rules, this`helper
      ensures Lawful() && log == old(log) + [e] && Some(rules) == Obey(old(rules), e)
      ensures Some(helper) == if e.Does? then Accept(session, limit, old(helper), e.io) else Some(old(helper))
    {
      AppendEvent(session, limit, log, e);
      log := log + [e];
      rules := Obey(rules, e).value;
      helper := if e.Does? then Accept(session, limit, helper, e.io).value else helper;
    }

    /** `refusals` counts every refusal; nothing else changes it. */
    ghost method CountRefusal(refused: bool)
      modifies this`refusals
      ensures refusals == old(refusals) + (if refused then 1 else 0)
    {
      refusals := refusals + (if refused then 1 else 0);
    }

    method Peek() returns (endOfInput: bool, failed: bool)
      modifies this`refusals
      ensures if failed then !endOfInput else endOfInput == (input == [])
      ensures refusals == old(refusals) + (if failed then 1 else 0)
    {
      failed := *;
      endOfInput := !failed && input == [];
      CountRefusal(failed);
    }

    method ReadFrame() returns (frame: Option<Incoming>)
      requires Lawful() && !rules.locked
      requires forall f :: Accept(session, limit, helper, In(f)).Some?
      modifies this
      ensures Lawful()
      ensures rules == if frame.Some? && frame.value.Arrives? then AfterIo(old(rules), In(frame.value.frame)) else old(rules)
      ensures |input| <= |old(input)|
      ensures frame.Some? ==> old(input) != [] && frame.value == old(input)[0] && input == old(input)[1..]
      ensures refusals == old(refusals) + (if frame.None? || frame.value.Undecodable? then 1 else 0)
      ensures frame.Some? && frame.value.Arrives? ==> Some(helper) == Accept(session, limit, old(helper), In(frame.value.frame))
      ensures frame.None? || frame.value.Undecodable? ==> helper == old(helper)
    {
      var failed: bool := *;
      if failed || input == [] {
        CountRefusal(true);
        return None;
      }
      frame := Some(input[0]);
      input := input[1..];
      CountRefusal(frame.value.Undecodable?);
      if frame.value.Arrives? {
        Record(Does(In(frame.value.frame)));
      }
    }

    /** A frame that could not be written whole never decodes. */
    method WriteFrame(f: Frame) returns (ok: bool)
      requires Lawful() && MayDo(rules, Out(f)) && Accept(session, limit, helper, Out(f)).Some?
      modifies this`log, this`rules, this`helper, this`refusals
      ensures Lawful() && rules == if ok then AfterIo(old(rules), Out(f)) else old(rules)
      ensures if ok then Some(helper) == Accept(session, limit, old(helper), Out(f)) else helper == old(helper)
      ensures refusals == old(refusals) + (if !ok then 1 else 0)
    {
      ok := *;
      if ok {
        Record(Does(Out(f)));
      }
      CountRefusal(!ok);
    }

    method VerifyParent() returns (ok: bool)
      requires Lawful()
      modifies this`log, this`rules, this`helper, this`refusals
      ensures Lawful() && helper == old(helper)
      ensures Some(rules) == if ok then Obey(old(rules), ParentSeen) else Some(old(rules))
      ensures refusals == old(refusals) + (if !ok then 1 else 0)
    {
      ok := *;
      if ok {
        Record(ParentSeen);
      }
      CountRefusal(!ok);
    }

    /** `held` says that a release function came back, with or without an error. */
    method LockConfig() returns (failed: bool, held: bool)
      requires Lawful() && !rules.locked
      modifies this`log, this`rules, this`helper, this`refusals
      ensures Lawful() && helper == old(helper)
      ensures Some(rules) == if held then Obey(old(rules), Locked) else Some(old(rules))
      ensures refusals == old(refusals) + (if failed || !held then 1 else 0)
    {
      failed, held := *, *;
      if held {
        Record(Locked);
      }
      CountRefusal(failed || !held);
    }

    method Release()
      requires Lawful() && rules.locked
      modifies this`log, this`rules, this`helper
      ensures Lawful() && helper == old(helper) && Some(rules) == Obey(old(rules), Unlocked)
    {
      Record(Unlocked);
    }

    method LoadConfig() returns (c: Option<Config>)
      requires Lawful() && rules.locked && rules.binding.None?
      modifies this`log, this`rules, this`helper, this`refusals
      ensures Lawful() && helper == old(helper)
      ensures Some(rules) == if c.Some? then Obey(old(rules), Loaded(c.value.binding)) else Some(old(rules))
      ensures refusals == old(refusals) + (if c.None? then 1 else 0)
    {
      c := *;
      if c.Some? {
        Record(Loaded(c.value.binding));
      }
      CountRefusal(c.None?);
    }

    method InspectConfig() returns (b: Option<Binding>)
      requires Lawful() && rules.locked
      modifies this`log, this`rules, this`helper, this`refusals
      ensures Lawful() && helper == old(helper) && Some(rules) == Obey(old(rules), Inspected(b))
      ensures refusals == old(refusals) + (if b.None? || b != rules.binding then 1 else 0)
    {
      b := *;
      Record(Inspected(b));
      CountRefusal(b.None? || b != rules.binding);
    }

    method OpenSession() returns (error: Option<HardwareError>)
      requires Lawful() && Obey(rules, OpenTried(true)).Some?
      modifies this`log, this`rules, this`helper, this`refusals
      ensures Lawful() && helper == old(helper) && Some(rules) == Obey(old(rules), OpenTried(error.None?))
      ensures refusals == old(refusals) + (if error.Some? then 1 else 0)
    {
      error := *;
      Record(OpenTried(error.None?));
      CountRefusal(error.Some?);
    }

    method ResolvePin() returns (error: Option<ErrorClass>)
      requires Lawful() && Obey(rules, PinTried).Some?
      modifies this`log, this`rules, this`helper, this`refusals
      ensures Lawful() && helper == old(helper) && Some(rules) == Obey(old(rules), PinTried)
      ensures refusals == old(refusals) + (if error.Some? then 1 else 0)
    {
      error := *;
      Record(PinTried);
      CountRefusal(error.Some?);
    }

    method Login() returns (error: Option<HardwareError>)
      requires Lawful() && Obey(rules, LoginTried(true)).Some?
      modifies this`log, this`rules, this`helper, this`refusals
      ensures Lawful() && helper == old(helper) && Some(rules) == Obey(old(rules), LoginTried(error.None?))
      ensures refusals == old(refusals) + (if error.Some? then 1 else 0)
    {
      error := *;
      Record(LoginTried(error.None?));
      CountRefusal(error.Some?);
    }

    method ValidateSession() returns (error: Option<HardwareError>)
      requires Lawful() && Obey(rules, Validated).Some?
      modifies this`log, this`rules, this`helper, this`refusals
      ensures Lawful() && helper == old(helper)
      ensures Some(rules) == if error.None? then Obey(old(rules), Validated) else Some(old(rules))
      ensures refusals == old(refusals) + (if error.Some? then 1 else 0)
    {
      error := *;
      if error.None? {
        Record(Validated);
      }
      CountRefusal(error.Some?);
    }

    method DeriveSecret() returns (error: Option<HardwareError>)
      requires Lawful() && MayDo(rules, Derive) && Accept(session, limit, helper, Derive).Some?
      modifies this`log, this`rules, this`helper, this`refusals
      ensures Lawful() && rules == old(rules) && Some(helper) == Accept(session, limit, old(helper), Derive)
      ensures refusals == old(refusals) + (if error.Some? then 1 else 0)
    {
      error := *;
      Record(Does(Derive));
      CountRefusal(error.Some?);
    }

    /** An authenticated decryption: the envelope's own key or nothing. */
    method Unwrap(envelope: nat) returns (key: Option<Key>)
      modifies this`refusals
      ensures key.Some? ==> key.value == KeyOf(envelope)
      ensures refusals == old(refusals) + (if key.None? then 1 else 0)
    {
      var ok: bool := *;
      key := if ok then Some(KeyOf(envelope)) else None;
      CountRefusal(key.None?);
    }

    method CloseSession()
      requires Lawful() && rules.life.open
      modifies this`log, this`rules, this`helper
      ensures Lawful() && helper == old(helper) && Some(rules) == Obey(old(rules), Closed)
    {
      Record(Closed);
    }
  }

  // ---- the loop -----------------------------------------------------------------

  class SessionHelper {
    const env: Environment
    const matches: (Config, nat) -> bool      // the envelope is for the configured hardware
    var seen: set<Id>                          // the replay guard
    var config: Option<Config>                 // set by the first request
    var sessionOpen: bool

    ghost predicate Valid()
      reads this, env
    {
      && env.Lawful()
      && seen == env.helper.seen
      && env.rules.binding == (if config.Some? then Some(config.value.binding) else None)
      && sessionOpen == env.rules.life.open
      && (env.rules.checked ==> env.rules.locked)
    }

    predicate Usable(c: Config, envelope: nat) {
      c.hasAge && c.recipientOk && matches(c, envelope)
    }

    /** Between two requests. */
    ghost predicate Idle()
      reads this, env
    {
      && Valid() && !env.rules.locked && env.helper.position.AwaitRequest?
      && (if sessionOpen then config.Some? && env.rules.life.loggedIn
          else env.rules.life == NoRules.life)
    }

    constructor (env: Environment, matches: (Config, nat) -> bool)
      requires env.Lawful() && env.log == [] && env.rules == NoRules && env.helper == Fresh
      ensures Idle() && this.env == env
    {
      this.env, this.matches := env, matches;
      seen, config, sessionOpen := {}, None, false;
    }

    /** The whole life of the process. The lock is free and the session closed at the
        end; exit code zero means that input ended between two requests. */
    method Run() returns (code: nat)
      requires Idle()
      modifies this, env
      ensures env.Lawful() && !env.rules.locked && !env.rules.life.open
      ensures code == 0 ==> env.helper.position.AwaitRequest?
      ensures code == 0 ==> env.input == []
      ensures code != 0 ==> env.refusals > old(env.refusals) || env.helper.position.Exited?
      ensures Count(env.log, LockTaken) == Count(env.log, LockReleased) && Count(env.log, Opened) == Count(env.log, Closing)
    {
      code := Loop();
      if sessionOpen {
        env.CloseSession();
        sessionOpen := false;
      }
      EndsClean(env.log);
    }

    method Loop() returns (code: nat)
      requires Idle()
      modifies this, env
      ensures Valid() && !env.rules.locked
      ensures code == 0 ==> env.helper.position.AwaitRequest?
      ensures code == 0 ==> env.input == []
      ensures code != 0 ==> env.refusals > old(env.refusals) || env.helper.position.Exited?
    {
      while true
        invariant Idle() && old(env.refusals) <= env.refusals
        decreases |env.input|
      {
        var f, exit := ReadRequest();
        if exit.Some? {
          return exit.value;
        }
        var refused := AcceptRequest(f);
        if refused.Some? {
          var _ := env.WriteFrame(EarlyResult(env.session, f.request, refused.value));
          return 1;
        }
        var announced := Prepare(f.request, f.envelope);
        if !announced {
          return 1;
        }
        var answered := Complete(f.request, f.envelope);
        if !answered {
          return 1;
        }
      }
    }

    /** A request of this session, or the exit code. */
    method ReadRequest() returns (f: Frame, exit: Option<nat>)
      requires Idle()
      modifies env
      ensures env.Lawful() && !env.rules.locked && (env.rules.checked ==> env.rules.locked)
      ensures env.rules.life == old(env.rules.life) && env.rules.binding == old(env.rules.binding)
      ensures exit.Some? ==> env.helper.seen == seen && (exit.value == 0 ==> env.helper.position.AwaitRequest?)
      ensures exit.None? ==>
                && |env.input| < |old(env.input)| && f.Request? && f.session == env.session && f.request != 0
                && Some(env.helper) == Reads(env.session, env.limit, Helper(AwaitRequest, seen), f)
      ensures old(env.refusals) <= env.refusals
      ensures exit.Some? && exit.value == 0 ==> env.input == []
      ensures exit.Some? && exit.value != 0 ==> env.refusals > old(env.refusals) || env.helper.position.Exited?
    {
      f := Request(0, 0, 0);
      var endOfInput, failed := env.Peek();
      if endOfInput {
        return f, Some(0);
      }
      if failed {
        return f, Some(1);
      }
      var incoming := env.ReadFrame();
      if incoming.None? || incoming.value.Undecodable? {
        return f, Some(1);
      }
      f := incoming.value.frame;
      exit := if !f.Request? || f.session != env.session || f.request == 0 then Some(1) else None;
    }

    /** The replay guard. It agrees with the honest helper on what to refuse. */
    method AcceptRequest(f: Frame) returns (refused: Option<ErrorClass>)
      requires f.Request? && f.session == env.session && f.request != 0
      requires env.Lawful() && env.helper ==
                 (if f.request in seen || |seen| >= env.limit then Helper(Refusing(f.request), seen)
                  else Helper(Preparing(f.request, f.envelope), seen + {f.request}))
      modifies this`seen
      ensures seen == env.helper.seen
      ensures refused.Some? <==> env.helper.position.Refusing?
    {
      if f.request in seen {
        return Some(InvalidRequest);
      }
      if |seen| >= env.limit {
        return Some(HelperFailed);
      }
      seen := seen + {f.request};
      return None;
    }

    /** The lock is held if and only if this succeeds; a lock handed out together with
        an error goes back at once. */
    method TakeLock() returns (ok: bool)
      requires Valid() && !env.rules.locked
      modifies env
      ensures Valid() && env.helper == old(env.helper) && env.input == old(env.input)
      ensures env.rules == old(env.rules).(locked := ok, checked := false)
      ensures old(env.refusals) <= env.refusals
      ensures !ok ==> env.refusals > old(env.refusals)
    {
      var failed, held := env.LockConfig();
      if failed && held {
        env.Release();
      }
      ok := !failed && held;
    }

    method BindingUnchanged() returns (same: bool)
      requires Valid() && env.rules.locked && config.Some?
      modifies env
      ensures Valid() && env.helper == old(env.helper) && env.input == old(env.input)
      ensures env.rules == old(env.rules).(checked := same)
      ensures old(env.refusals) <= env.refusals
      ensures !same ==> env.refusals > old(env.refusals)
    {
      var found := env.InspectConfig();
      same := found == Some(config.value.binding);
    }

    /** Load the configuration once, and check request, parent and binding against it. */
    method CheckRequest(envelope: nat) returns (error: Option<ErrorClass>)
      requires Valid() && env.rules.locked && (sessionOpen ==> config.Some?)
      modifies this`config, env
      ensures Valid() && env.helper == old(env.helper) && env.input == old(env.input)
      ensures env.rules == old(env.rules).(binding := env.rules.binding, checked := env.rules.checked, parent := env.rules.parent)
      ensures error.None? ==> env.rules.parent
      ensures error.None? ==> config.Some? && matches(config.value, envelope)
      ensures old(config).Some? ==> config == old(config)
      ensures old(env.refusals) <= env.refusals
      ensures error.Some? ==> env.refusals > old(env.refusals) || (config.Some? && !Usable(config.value, envelope))
    {
      if config.None? {
        config := env.LoadConfig();
        if config.None? || !config.value.hasAge || !config.value.recipientOk {
          return Some(Configuration);
        }
      }
      if !matches(config.value, envelope) {
        return Some(HardwareMismatch);
      }
      var parent := env.VerifyParent();
      if !parent {
        return Some(HelperFailed);
      }
      if sessionOpen {
        var same := BindingUnchanged();
        if !same {
          return Some(Configuration);
        }
      }
      return None;
    }

    /** Open, resolve the PIN and log in, which happens at most once per process. */
    method OpenAndLogin() returns (error: Option<ErrorClass>)
      requires Valid() && env.rules.locked && config.Some? && !sessionOpen
      requires env.rules.life == NoRules.life
      modifies this`sessionOpen, env
      ensures Valid() && env.helper == old(env.helper) && env.input == old(env.input) && env.rules.locked
      ensures env.rules.parent == old(env.rules.parent)
      ensures error.None? ==> sessionOpen && env.rules.life.loggedIn
      ensures old(env.refusals) <= env.refusals
      ensures error.Some? ==> env.refusals > old(env.refusals)
    {
      var failure := env.OpenSession();
      sessionOpen := failure.None?;
      if failure.Some? {
        return Some(HardwareErrorClass(failure.value, false));
      }
      error := ResolveAndLogin();
    }

    /** Between the PIN and the login the binding is inspected once more. */
    method ResolveAndLogin() returns (error: Option<ErrorClass>)
      requires Valid() && env.rules.locked && config.Some? && sessionOpen
      requires env.rules.life == Life(1, 0, 0, true, false)
      modifies env
      ensures Valid() && env.helper == old(env.helper) && env.input == old(env.input) && env.rules.locked
      ensures env.rules.parent == old(env.rules.parent)
      ensures error.None? ==> env.rules.life.loggedIn
      ensures old(env.refusals) <= env.refusals
      ensures error.Some? ==> env.refusals > old(env.refusals)
    {
      var pin := env.ResolvePin();
      if pin.Some? {
        return Some(PinErrorClass(pin.value));
      }
      var same := BindingUnchanged();
      if !same {
        return Some(Configuration);
      }
      var login := env.Login();
      return if login.Some? then Some(HardwareErrorClass(login.value, true)) else None;
    }

    method EnsureSession() returns (error: Option<ErrorClass>)
      requires Valid() && env.rules.locked && config.Some?
      requires if sessionOpen then env.rules.life.loggedIn
               else env.rules.life == NoRules.life
      modifies this`sessionOpen, env
      ensures Valid() && env.helper == old(env.helper) && env.input == old(env.input) && env.rules.locked
      ensures env.rules.parent == old(env.rules.parent)
      ensures error.None? ==> sessionOpen && env.rules.life.loggedIn && env.rules.checked && env.rules.validated
      ensures old(env.refusals) <= env.refusals
      ensures error.Some? ==> env.refusals > old(env.refusals)
    {
      if !sessionOpen {
        error := OpenAndLogin();
        if error.Some? {
          return;
        }
      }
      var invalid := env.ValidateSession();
      if invalid.Some? {
        return Some(HardwareErrorClass(invalid.value, false));
      }
      var same := BindingUnchanged();
      return if same then None else Some(Configuration);
    }

    /** Everything up to ready_for_touch, under one lock that is gone afterwards. */
    method Prepare(r: Id, envelope: nat) returns (announced: bool)
      requires Valid() && !env.rules.locked && env.helper.position == Preparing(r, envelope)
      requires if sessionOpen then config.Some? && env.rules.life.loggedIn
               else env.rules.life == NoRules.life
      modifies this`config, this`sessionOpen, env
      ensures Valid() && !env.rules.locked && env.input == old(env.input)
      ensures !env.helper.position.AwaitRequest?
      ensures announced ==>
                env.helper.position == AwaitContinue(r, envelope) && config.Some? && sessionOpen && env.rules.life.loggedIn
      ensures old(env.refusals) <= env.refusals
      ensures !announced ==> env.refusals > old(env.refusals) || (config.Some? && !Usable(config.value, envelope))
      ensures !announced ==> env.refusals > old(env.refusals) || env.helper.position.Exited?
    {
      var locked := TakeLock();
      if !locked {
        var _ := env.WriteFrame(EarlyResult(env.session, r, Configuration));
        return false;
      }
      var error := CheckAndOpen(envelope);
      if error.Some? {
        ReleaseAndRefuse(r, error.value);
        return false;
      }
      announced := Announce(r, envelope);
    }

    /** The request is checked, and the session is there and valid. */
    method CheckAndOpen(envelope: nat) returns (error: Option<ErrorClass>)
      requires Valid() && env.rules.locked
      requires if sessionOpen then config.Some? && env.rules.life.loggedIn
               else env.rules.life == NoRules.life
      modifies this`config, this`sessionOpen, env
      ensures Valid() && env.helper == old(env.helper) && env.input == old(env.input) && env.rules.locked
      ensures error.None? ==> config.Some? && sessionOpen && Permitted(env.rules) && env.rules.validated
      ensures old(env.refusals) <= env.refusals
      ensures error.Some? ==> env.refusals > old(env.refusals) || (config.Some? && !Usable(config.value, envelope))
    {
      error := CheckRequest(envelope);
      if error.None? {
        error := EnsureSession();
      }
    }

    /** Give the lock back, then tell the manager why. */
    method ReleaseAndRefuse(r: Id, error: ErrorClass)
      requires Valid() && env.rules.locked
      requires (env.helper.position.Preparing? || env.helper.position.ReadySent?) && env.helper.position.request == r
      modifies env
      ensures Valid() && env.input == old(env.input) && env.rules == old(env.rules).(locked := false, checked := false)
      ensures old(env.refusals) <= env.refusals
      ensures env.refusals > old(env.refusals) || env.helper.position.Exited?
      ensures env.helper.position == old(env.helper.position) || env.helper.position.Exited?
    {
      env.Release();
      var _ := env.WriteFrame(EarlyResult(env.session, r, error));
    }

    method Announce(r: Id, envelope: nat) returns (announced: bool)
      requires Valid() && env.rules.locked && env.helper.position == Preparing(r, envelope)
      requires config.Some? && sessionOpen && Permitted(env.rules) && env.rules.validated
      modifies env
      ensures Valid() && !env.rules.locked && env.input == old(env.input) && env.rules.life.loggedIn
      ensures !env.helper.position.AwaitRequest?
      ensures announced ==> env.helper.position == AwaitContinue(r, envelope)
      ensures old(env.refusals) <= env.refusals
      ensures !announced ==> env.refusals > old(env.refusals)
    {
      var ready := env.WriteFrame(SessionReady(env.session, r));
      if !ready {
        env.Release();
        return false;
      }
      announced := AskForTouch(r, envelope);
    }

    /** The session has been announced: check parent and binding again, then ask. */
    method AskForTouch(r: Id, envelope: nat) returns (announced: bool)
      requires Valid() && env.rules.locked && env.helper.position == ReadySent(r, envelope)
      requires config.Some? && env.rules.life.loggedIn && env.rules.validated
      modifies env
      ensures Valid() && !env.rules.locked && env.input == old(env.input) && env.rules.life.loggedIn
      ensures !env.helper.position.AwaitRequest?
      ensures announced ==> env.helper.position == AwaitContinue(r, envelope)
      ensures old(env.refusals) <= env.refusals
      ensures !announced ==> env.refusals > old(env.refusals)
    {
      var parent := env.VerifyParent();
      if !parent {
        ReleaseAndRefuse(r, HelperFailed);
        return false;
      }
      var same := BindingUnchanged();
      if !same {
        ReleaseAndRefuse(r, Configuration);
        return false;
      }
      announced := env.WriteFrame(ReadyForTouch(env.session, r));
      env.Release();
    }

    /** From the continue frame to the result: true only after a success frame. */
    method Complete(r: Id, envelope: nat) returns (answered: bool)
      requires Valid() && !env.rules.locked && env.helper.position == AwaitContinue(r, envelope)
      requires config.Some? && sessionOpen && env.rules.life.loggedIn
      modifies env
      ensures Valid() && !env.rules.locked && env.rules.life.loggedIn && |env.input| <= |old(env.input)|
      ensures answered <==> env.helper.position.AwaitRequest?
      ensures old(env.refusals) <= env.refusals
      ensures !answered ==> env.refusals > old(env.refusals) || WrongContinue(old(env.input), env.session, r)
      ensures !answered ==> env.refusals > old(env.refusals) || env.helper.position.Exited?
    {
      var incoming := env.ReadFrame();
      if incoming.None? || incoming.value.Undecodable? {
        return false;
      }
      var f := incoming.value.frame;
      if !IsContinue(f, env.session, r) {
        return false;
      }
      answered := Answer(r, envelope, f.continuation);
    }

    /** The continue frame has arrived. */
    method Answer(r: Id, envelope: nat, continuation: Id) returns (answered: bool)
      requires Valid() && !env.rules.locked && env.helper.position == Continued(r, envelope, continuation)
      requires config.Some? && sessionOpen && env.rules.life.loggedIn
      modifies env
      ensures Valid() && !env.rules.locked && env.rules.life.loggedIn && env.input == old(env.input)
      ensures answered <==> env.helper.position.AwaitRequest?
      ensures old(env.refusals) <= env.refusals
      ensures !answered ==> env.refusals > old(env.refusals)
    {
      var parent := env.VerifyParent();
      if !parent {
        return false;
      }
      var locked := TakeLock();
      if !locked {
        var _ := env.WriteFrame(Failure(env.session, r, continuation, Configuration));
        return false;
      }
      answered := DeriveAndAnswer(r, envelope, continuation);
      env.Release();
    }

    method DeriveAndAnswer(r: Id, envelope: nat, continuation: Id) returns (answered: bool)
      requires Valid() && env.rules.locked && env.helper.position == Continued(r, envelope, continuation)
      requires config.Some? && sessionOpen && env.rules.parent && env.rules.life.loggedIn
      modifies env
      ensures Valid() && env.rules.locked && env.rules.life.loggedIn && env.input == old(env.input)
      ensures answered <==> env.helper.position.AwaitRequest?
      ensures old(env.refusals) <= env.refusals
      ensures !answered ==> env.refusals > old(env.refusals)
    {
      var same := BindingUnchanged();
      if !same {
        var _ := env.WriteFrame(Failure(env.session, r, continuation, Configuration));
        return false;
      }
      var error := env.DeriveSecret();
      if error.Some? {
        var _ := env.WriteFrame(Failure(env.session, r, continuation, HardwareErrorClass(error.value, false)));
        return false;
      }
      var key := env.Unwrap(envelope);
      if key.None? {
        var _ := env.WriteFrame(Failure(env.session, r, continuation, Unwrap));
        return false;
      }
      answered := env.WriteFrame(Success(env.session, r, continuation, key.value));
    }
  }
}
