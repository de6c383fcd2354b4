/** What the router may learn from a run, independent of how it computes it: the
    events of a run in order, when publishing the fallback route is justified by
    them, and how one reconciliation turns observations into a route. */
module Debounce {

  datatype Route = Piv | OnePassword | PivFailClosed

  datatype FallbackReport = FallbackReport(reachable: bool, targetKeyFound: bool, otherKeys: int)

  const EmptyReport := FallbackReport(false, false, 0)

  datatype Event =
    | Woke(timer: bool)            // a reconciliation starts; `timer` unless a device event caused it
    | ProbeZero | ProbePresent | ProbeFailed
    | Inspected(report: FallbackReport, failed: bool)
    | Interrupted                  // a device event was consumed
    | StreamClosed
    | QueueEmpty                   // the event queue was polled and found empty
    | Published(route: Route)      // setRoute was asked for this route

  predicate Clean(e: Event) {
    e.Inspected? && !e.failed && e.report.reachable && e.report.targetKeyFound && e.report.otherKeys == 0
  }

  predicate Absent(e: Event) {
    e != ProbePresent && e != ProbeFailed
  }

  function Ticks(log: seq<Event>): nat {
    if log == [] then 0
    else Ticks(log[..|log| - 1]) + if log[|log| - 1] == Woke(true) then 1 else 0
  }

  lemma {:induction false} TicksAppend(a: seq<Event>, b: seq<Event>)
    ensures Ticks(a + b) == Ticks(a) + Ticks(b)
  {
    if b == [] {
      assert a + b == a;
    } else {
      assert (a + b)[..|a + b| - 1] == a + b[..|b| - 1];
      TicksAppend(a, b[..|b| - 1]);
    }
  }

  /** From `start` on, the device was seen absent and never otherwise, through at
      least `ticks` timer-driven reconciliations. */
  ghost predicate AbsentSince(log: seq<Event>, start: int, ticks: int) {
    && 0 <= start < |log|
    && log[start] == ProbeZero
    && (forall j :: start <= j < |log| ==> Absent(log[j]))
    && Ticks(log[start..]) >= ticks
  }

  ghost predicate LongAbsence(log: seq<Event>, ticks: int) {
    exists start :: AbsentSince(log, start, ticks)
  }

  /** The fallback may be published after `log`: the device was absent through
      `debounce - 1` timer ticks after the first zero probe, the last inspection was clean, then a
      recheck still saw no device, then no device event was waiting. */
  ghost predicate Justified(log: seq<Event>, debounce: nat) {
    && |log| >= 3
    && Clean(log[|log| - 3])
    && log[|log| - 2] == ProbeZero
    && log[|log| - 1] == QueueEmpty
    && LongAbsence(log, debounce - 1)
  }

  /** Every time the fallback route was published, it was justified by what the run
      had observed up to then. */
  ghost predicate AllJustified(log: seq<Event>, debounce: nat) {
    forall k :: 0 <= k < |log| && log[k] == Published(OnePassword) ==> Justified(log[..k], debounce)
  }

  /** The counter never claims more than the log shows. */
  ghost predicate Counted(log: seq<Event>, zeroCount: nat, debounce: nat) {
    && AllJustified(log, debounce)
    && (zeroCount > 0 ==> LongAbsence(log, zeroCount - 1))
  }

  // ---- one reconciliation ------------------------------------------------

  function Advance(zeroCount: nat, debounce: nat, timer: bool): nat {
    if zeroCount == 0 then 1
    else if timer && zeroCount < debounce then zeroCount + 1
    else zeroCount
  }

  /** The tail of a log that ends in publishing `route`. Publishing the fallback may
      be followed by failing closed within the same call. */
  predicate Publishes(tail: seq<Event>, route: Route) {
    tail == [Published(route)] ||
    (route == OnePassword && tail == [Published(OnePassword), Published(PivFailClosed)])
  }

  /** A probe answers, then the route follows from the answer alone. */
  predicate AfterEvent(tail: seq<Event>, zeroCount: nat, next: nat) {
    |tail| >= 1 &&
    match tail[0]
    case ProbeFailed => next == 0 && Publishes(tail[1..], PivFailClosed)
    case ProbePresent => next == 0 && Publishes(tail[1..], Piv)
    case ProbeZero => next == (if zeroCount == 0 then 1 else zeroCount) && Publishes(tail[1..], PivFailClosed)
    case _ => false
  }

  /** The event queue is polled; only an empty one lets the fallback be published. */
  predicate AfterPoll(tail: seq<Event>, zeroCount: nat, next: nat) {
    |tail| >= 1 &&
    match tail[0]
    case StreamClosed => next == 0 && Publishes(tail[1..], PivFailClosed)
    case Interrupted => AfterEvent(tail[1..], zeroCount, next)
    case QueueEmpty => next == zeroCount && Publishes(tail[1..], OnePassword)
    case _ => false
  }

  predicate AfterRecheck(tail: seq<Event>, zeroCount: nat, next: nat) {
    |tail| >= 1 &&
    match tail[0]
    case ProbeFailed => next == 0 && Publishes(tail[1..], PivFailClosed)
    case ProbePresent => next == 0 && Publishes(tail[1..], Piv)
    case ProbeZero => AfterPoll(tail[1..], zeroCount, next)
    case _ => false
  }

  predicate AfterAbsence(tail: seq<Event>, zeroCount: nat, next: nat, debounce: nat) {
    if zeroCount < debounce then
      next == zeroCount && Publishes(tail, PivFailClosed)
    else
      |tail| >= 1 &&
      match tail[0]
      case StreamClosed => next == 0 && Publishes(tail[1..], PivFailClosed)
      case Interrupted => AfterEvent(tail[1..], zeroCount, next)
      case Inspected(_, _) =>
        if Clean(tail[0]) then AfterRecheck(tail[1..], zeroCount, next)
        else next == zeroCount && Publishes(tail[1..], PivFailClosed)
      case _ => false
  }

  predicate AfterWake(tail: seq<Event>, enabled: bool, timer: bool, debounce: nat, zeroCount: nat, next: nat) {
    if !enabled then next == 0 && Publishes(tail, Piv)
    else
      |tail| >= 1 &&
      match tail[0]
      case ProbeFailed => next == 0 && Publishes(tail[1..], PivFailClosed)
      case ProbePresent => next == 0 && Publishes(tail[1..], Piv)
      case ProbeZero => AfterAbsence(tail[1..], Advance(zeroCount, debounce, timer), next, debounce)
      case _ => false
  }

  /** `tail` is what one reconciliation may append to the log when it starts with
      counter `zeroCount` and ends with counter `next`. */
  predicate Reconciled(tail: seq<Event>, enabled: bool, debounce: nat, zeroCount: nat, next: nat) {
    |tail| >= 1 && tail[0].Woke? && AfterWake(tail[1..], enabled, tail[0].timer, debounce, zeroCount, next)
  }

  /** What follows one logged event. */
  lemma TailAfter(before: seq<Event>, e: Event, now: seq<Event>)
    requires before + [e] <= now
    ensures now[|before|..] != [] && now[|before|..][0] == e && now[|before|..][1..] == now[|before| + 1..]
  {
  }

  // ---- every run is justified ---------------------------------------------

  lemma {:induction false} ExtendAbsence(log: seq<Event>, tail: seq<Event>, start: int, ticks: int)
    requires AbsentSince(log, start, ticks)
    requires forall j :: 0 <= j < |tail| ==> Absent(tail[j])
    ensures AbsentSince(log + tail, start, ticks + Ticks(tail))
  {
    assert (log + tail)[start..] == log[start..] + tail;
    TicksAppend(log[start..], tail);
  }

  /** How far one event may move the counter without outrunning the evidence. */
  predicate Moves(e: Event, zeroCount: nat, next: nat) {
    || next == 0
    || (Absent(e) && next <= zeroCount)
    || (e == ProbeZero && next == 1)
    || (e == Woke(true) && zeroCount > 0 && next <= zeroCount + 1)
  }

  lemma {:induction false} OneMore(log: seq<Event>, e: Event, zeroCount: nat, next: nat, debounce: nat)
    requires Counted(log, zeroCount, debounce) && Moves(e, zeroCount, next)
    requires e == Published(OnePassword) ==> Justified(log, debounce)
    ensures Counted(log + [e], next, debounce)
  {
    var after := log + [e];
    forall k | 0 <= k < |after| && after[k] == Published(OnePassword)
      ensures Justified(after[..k], debounce)
    {
      assert after[..k] == if k < |log| then log[..k] else log;
    }
    if next > 0 {
      if Absent(e) && zeroCount > 0 && (next <= zeroCount || e == Woke(true)) {
        var start :| AbsentSince(log, start, zeroCount - 1);
        ExtendAbsence(log, [e], start, zeroCount - 1);
        assert [e][..0] == [];
        assert AbsentSince(after, start, next - 1);
      } else {
        assert after[|log|..] == [e];
        assert AbsentSince(after, |log|, 0);
      }
    }
  }

  lemma {:induction false} PublishesKeeps(log: seq<Event>, tail: seq<Event>, route: Route, zeroCount: nat, debounce: nat)
    requires Counted(log, zeroCount, debounce) && Publishes(tail, route)
    requires route == OnePassword ==> Justified(log, debounce)
    ensures Counted(log + tail, zeroCount, debounce)
  {
    OneMore(log, Published(route), zeroCount, zeroCount, debounce);
    if |tail| == 2 {
      OneMore(log + [Published(route)], Published(PivFailClosed), zeroCount, zeroCount, debounce);
      assert log + tail == log + [Published(route)] + [Published(PivFailClosed)];
    }
  }

  lemma {:induction false} AfterEventKeeps(log: seq<Event>, tail: seq<Event>, zeroCount: nat, next: nat, debounce: nat)
    requires Counted(log, zeroCount, debounce) && AfterEvent(tail, zeroCount, next)
    ensures Counted(log + tail, next, debounce)
  {
    OneMore(log, tail[0], zeroCount, next, debounce);
    var route := if tail[0] == ProbePresent then Piv else PivFailClosed;
    PublishesKeeps(log + [tail[0]], tail[1..], route, next, debounce);
    assert log + tail == log + [tail[0]] + tail[1..];
  }

  lemma {:induction false} AfterPollKeeps(log: seq<Event>, tail: seq<Event>, zeroCount: nat, next: nat, debounce: nat)
    requires Counted(log, zeroCount, debounce) && AfterPoll(tail, zeroCount, next)
    requires zeroCount > 0 && zeroCount >= debounce
    requires |log| > 1 && Clean(log[|log| - 2]) && log[|log| - 1] == ProbeZero
    ensures Counted(log + tail, next, debounce)
  {
    var polled := log + [tail[0]];
    assert log + tail == polled + tail[1..];
    OneMore(log, tail[0], zeroCount, if tail[0] == StreamClosed then 0 else zeroCount, debounce);
    if tail[0] == StreamClosed {
      PublishesKeeps(polled, tail[1..], PivFailClosed, 0, debounce);
    } else if tail[0] == Interrupted {
      AfterEventKeeps(polled, tail[1..], zeroCount, next, debounce);
    } else {
      var start :| AbsentSince(polled, start, zeroCount - 1);
      assert AbsentSince(polled, start, debounce - 1);
      PublishesKeeps(polled, tail[1..], OnePassword, zeroCount, debounce);
    }
  }

  lemma {:induction false} AfterRecheckKeeps(log: seq<Event>, tail: seq<Event>, zeroCount: nat, next: nat, debounce: nat)
    requires Counted(log, zeroCount, debounce) && AfterRecheck(tail, zeroCount, next)
    requires zeroCount > 0 && zeroCount >= debounce && |log| > 0 && Clean(log[|log| - 1])
    ensures Counted(log + tail, next, debounce)
  {
    var probed := log + [tail[0]];
    assert log + tail == probed + tail[1..];
    if tail[0] != ProbeZero {
      OneMore(log, tail[0], zeroCount, 0, debounce);
      PublishesKeeps(probed, tail[1..], if tail[0] == ProbePresent then Piv else PivFailClosed, 0, debounce);
    } else {
      OneMore(log, tail[0], zeroCount, zeroCount, debounce);
      AfterPollKeeps(probed, tail[1..], zeroCount, next, debounce);
    }
  }

  lemma {:induction false} AfterAbsenceKeeps(log: seq<Event>, tail: seq<Event>, zeroCount: nat, next: nat, debounce: nat)
    requires Counted(log, zeroCount, debounce) && AfterAbsence(tail, zeroCount, next, debounce) && zeroCount > 0
    ensures Counted(log + tail, next, debounce)
  {
    if zeroCount < debounce {
      PublishesKeeps(log, tail, PivFailClosed, zeroCount, debounce);
    } else {
      var first := log + [tail[0]];
      assert log + tail == first + tail[1..];
      OneMore(log, tail[0], zeroCount, if tail[0].StreamClosed? then 0 else zeroCount, debounce);
      if tail[0].Interrupted? {
        AfterEventKeeps(first, tail[1..], zeroCount, next, debounce);
      } else if Clean(tail[0]) {
        AfterRecheckKeeps(first, tail[1..], zeroCount, next, debounce);
      } else {
        PublishesKeeps(first, tail[1..], PivFailClosed, next, debounce);
      }
    }
  }

  /** The first probe of a reconciliation and all that follows it. `reached` is the
      count the log supports, `zeroCount` the one the router goes on with. */
  lemma {:induction false} ProbedKeeps(log: seq<Event>, tail: seq<Event>, reached: nat, zeroCount: nat, next: nat, debounce: nat)
    requires Counted(log, reached, debounce) && |tail| > 0 && 0 < zeroCount && (zeroCount == 1 || zeroCount <= reached)
    requires match tail[0]
             case ProbeFailed => next == 0 && Publishes(tail[1..], PivFailClosed)
             case ProbePresent => next == 0 && Publishes(tail[1..], Piv)
             case ProbeZero => AfterAbsence(tail[1..], zeroCount, next, debounce)
             case _ => false
    ensures Counted(log + tail, next, debounce)
  {
    var probed := log + [tail[0]];
    assert log + tail == probed + tail[1..];
    if tail[0] == ProbeZero {
      OneMore(log, tail[0], reached, zeroCount, debounce);
      AfterAbsenceKeeps(probed, tail[1..], zeroCount, next, debounce);
    } else {
      OneMore(log, tail[0], reached, 0, debounce);
      PublishesKeeps(probed, tail[1..], if tail[0] == ProbePresent then Piv else PivFailClosed, 0, debounce);
    }
  }

  /** One reconciliation extends a justified run to a justified run. */
  lemma {:induction false} ReconciledKeeps(log: seq<Event>, tail: seq<Event>, enabled: bool, debounce: nat, zeroCount: nat, next: nat)
    requires Counted(log, zeroCount, debounce) && Reconciled(tail, enabled, debounce, zeroCount, next)
    ensures Counted(log + tail, next, debounce)
  {
    var woken := log + [tail[0]];
    assert log + tail == woken + tail[1..];
    if !enabled {
      OneMore(log, tail[0], zeroCount, 0, debounce);
      PublishesKeeps(woken, tail[1..], Piv, 0, debounce);
    } else {
      var reached := if tail[0].timer && zeroCount > 0 then zeroCount + 1 else zeroCount;
      OneMore(log, tail[0], zeroCount, reached, debounce);
      ProbedKeeps(woken, tail[1..], reached, Advance(zeroCount, debounce, tail[0].timer), next, debounce);
    }
  }

  // ---- timer ticks ---------------------------------------------------------

  predicate NoWake(tail: seq<Event>) {
    forall j :: 0 <= j < |tail| ==> !tail[j].Woke?
  }

  lemma {:induction false} NoWakeNoTicks(tail: seq<Event>)
    requires NoWake(tail)
    ensures Ticks(tail) == 0
  {
    if tail != [] {
      NoWakeNoTicks(tail[..|tail| - 1]);
    }
  }

  lemma {:induction false} NoWakeCons(tail: seq<Event>)
    requires tail != [] && !tail[0].Woke? && NoWake(tail[1..])
    ensures NoWake(tail)
  {
    forall j | 0 <= j < |tail| ensures !tail[j].Woke? {
      if j > 0 {
        assert tail[j] == tail[1..][j - 1];
      }
    }
  }

  lemma {:induction false} AfterRecheckNoWake(tail: seq<Event>, zeroCount: nat, next: nat)
    requires AfterRecheck(tail, zeroCount, next)
    ensures NoWake(tail)
  {
    if tail[0] == ProbeZero {
      if tail[1] == Interrupted {
        NoWakeCons(tail[1..][1..]);
      }
      NoWakeCons(tail[1..]);
    }
    NoWakeCons(tail);
  }

  lemma {:induction false} AfterAbsenceNoWake(tail: seq<Event>, zeroCount: nat, next: nat, debounce: nat)
    requires AfterAbsence(tail, zeroCount, next, debounce)
    ensures NoWake(tail)
  {
    if zeroCount >= debounce {
      if tail[0].Interrupted? {
        NoWakeCons(tail[1..]);
      } else if Clean(tail[0]) {
        AfterRecheckNoWake(tail[1..], zeroCount, next);
      }
      NoWakeCons(tail);
    }
  }

  /** One reconciliation is one tick when the timer started it, and none otherwise. */
  lemma {:induction false} ReconciledTicks(tail: seq<Event>, enabled: bool, debounce: nat, zeroCount: nat, next: nat)
    requires Reconciled(tail, enabled, debounce, zeroCount, next)
    ensures Ticks(tail) == if tail[0].timer then 1 else 0
  {
    if enabled {
      if tail[1] == ProbeZero {
        AfterAbsenceNoWake(tail[1..][1..], Advance(zeroCount, debounce, tail[0].timer), next, debounce);
      }
      NoWakeCons(tail[1..]);
    }
    NoWakeNoTicks(tail[1..]);
    assert tail == [tail[0]] + tail[1..];
    TicksAppend([tail[0]], tail[1..]);
    assert [tail[0]][..0] == [];
  }

  // ---- consequences --------------------------------------------------------

  lemma PublishesNoTicks(log: seq<Event>, tail: seq<Event>, route: Route)
    requires Publishes(tail, route)
    ensures Ticks(log + tail) == Ticks(log)
  {
    NoWakeNoTicks(tail);
    TicksAppend(log, tail);
  }

  /** Ticks of a part are ticks of the whole. */
  lemma TicksGrow(log: seq<Event>, k: nat)
    requires k <= |log|
    ensures Ticks(log[..k]) <= Ticks(log)
  {
    assert log == log[..k] + log[k..];
    TicksAppend(log[..k], log[k..]);
  }

  /** Device events alone never publish the fallback once the debounce is at least
      two: each publication needs as many timer ticks before it. */
  lemma {:induction false} EventsAloneNeverPublish(log: seq<Event>, zeroCount: nat, debounce: nat, k: nat)
    requires Counted(log, zeroCount, debounce) && k < |log| && log[k] == Published(OnePassword)
    ensures Ticks(log[..k]) >= debounce - 1
  {
    var before := log[..k];
    var start :| AbsentSince(before, start, debounce - 1);
    assert before == before[..start] + before[start..];
    TicksAppend(before[..start], before[start..]);
  }
}
