/** The agent router: it decides, one reconciliation at a time, whether the public
    agent path leads to the PIV socket or to the fallback socket. */
module Router {
  import opened Basics
  import opened RouteDisk
  import opened RouteGuard
  import opened Debounce

  datatype ProbeState = NotChecked | Connected | NotDetected | Unavailable

  datatype Snapshot = Snapshot(route: Option<Route>, probe: ProbeState, checked: bool, report: FallbackReport)

  const NoSnapshot := Snapshot(None, NotChecked, false, EmptyReport)

  /** What wakes the event loop of `Run`. */
  datatype Wakeup = ContextDone | DeviceEvent | EventsClosed | TimerFired

  function Target(cfg: Config, route: Route): ConfigPath {
    if route == OnePassword then cfg.fallback else cfg.piv
  }

  function Managed(cfg: Config, route: Route): seq<Path> {
    if route == OnePassword then [cfg.piv, cfg.backend]
    else if cfg.fallback != NoPath then [cfg.backend, cfg.fallback]
    else [cfg.backend]
  }

  function RouteTargets(cfg: Config): set<Path> {
    if cfg.fallback != NoPath then {cfg.piv, cfg.fallback} else {cfg.piv}
  }

  function Timers(schedule: seq<Wakeup>): nat {
    if schedule == [] then 0
    else Timers(schedule[..|schedule| - 1]) + if schedule[|schedule| - 1] == TimerFired then 1 else 0
  }

  lemma {:induction false} TimersGrow(schedule: seq<Wakeup>, k: nat)
    requires k <= |schedule|
    ensures Timers(schedule[..k]) <= Timers(schedule)
  {
    if k < |schedule| {
      TimersGrow(schedule[..|schedule| - 1], k);
      assert schedule[..|schedule| - 1][..k] == schedule[..k];
    } else {
      assert schedule[..k] == schedule;
    }
  }

  class Router {
    const cfg: Config
    const fs: FileSystem
    const hasGuardPath: bool
    const hasEvents: bool
    const debounceCount: nat

    var guardReady: bool
    var zeroCount: nat
    var snapshot: Snapshot
    ghost var log: seq<Event>
    // A fallback link that had to go could not be unlinked.
    ghost var stuck: bool

    constructor (config: Config, disk: FileSystem, guardPath: bool, events: bool, debounce: int)
      requires disk.Valid() && Respects(config, disk.fallbacks)
      ensures Valid() && fresh(this)
      ensures cfg == config && fs == disk && hasGuardPath == guardPath && hasEvents == events
      ensures debounceCount == if debounce <= 0 then 2 else debounce
      ensures !guardReady && zeroCount == 0 && snapshot == NoSnapshot && log == [] && !stuck
    {
      cfg := config;
      fs := disk;
      hasGuardPath := guardPath;
      hasEvents := events;
      debounceCount := if debounce <= 0 then 2 else debounce;
      guardReady := false;
      zeroCount := 0;
      snapshot := NoSnapshot;
      log := [];
      stuck := false;
    }

    ghost predicate Valid()
      reads this, fs
    {
      && fs.Valid()
      && Respects(cfg, fs.fallbacks)
      && debounceCount >= 1
      && Counted(log, zeroCount, debounceCount)
    }

    /** The public path leads to this router's fallback socket. */
    ghost predicate OnFallback()
      reads fs`disk
    {
      cfg.fallback != NoPath && fs.Node(cfg.public) == Link(cfg.fallback)
    }

    /** The link never claims more than the published snapshot. */
    ghost predicate Agrees()
      reads this`snapshot, fs`disk
    {
      OnFallback() ==> snapshot.route == Some(OnePassword)
    }

    /** Without faults, setting `route` succeeds exactly on such a disk. */
    ghost predicate Accepts(route: Route)
      reads this`guardReady, fs`disk
    {
      && (route == OnePassword ==>
            && cfg.enabled && guardReady
            && GuardFor(cfg).Some? && fs.disk.guard == Stored(GuardFor(cfg).value))
      && SafeSocket(fs.disk, Target(cfg, route), Managed(cfg, route))
      && Replaceable(fs.disk, cfg.public, RouteTargets(cfg) + {Target(cfg, route)})
    }

    // ---- publishing a route ----------------------------------------------

    /** Withdraw the fallback link if it is there. Only a fault can keep it. */
    method RemoveFallbackRoute()
      requires fs.Valid()
      modifies fs, this`stuck
      ensures fs.Valid() && old(fs.history) <= fs.history
      ensures fs.disk.guard == old(fs.disk.guard)
      ensures stuck == (old(stuck) || OnFallback())
      ensures OnFallback() ==> fs.faults > old(fs.faults)
      ensures fs.faults >= old(fs.faults)
      ensures if old(OnFallback()) then fs.disk == old(fs.disk) || !OnFallback() else fs.disk == old(fs.disk)
      ensures OnlyPath(old(fs.disk), fs.disk, cfg.public)
    {
      if cfg.fallback == NoPath { return; }
      var read, target := fs.Readlink(cfg.public);
      if read && target == cfg.fallback {
        var removed := RemoveRecordedFallback(fs, cfg.public, cfg.fallback);
      }
      stuck := stuck || OnFallback();
    }

    /** Route the public path. */
    method SetRoute(route: Route, probe: ProbeState, fallback: FallbackReport, checked: bool) returns (ok: bool)
      requires fs.Valid() && Respects(cfg, fs.fallbacks)
      modifies this`snapshot, this`log, this`stuck, fs
      ensures fs.Valid() && old(fs.history) <= fs.history
      ensures fs.disk.guard == old(fs.disk.guard)
      ensures OnlyPath(old(fs.disk), fs.disk, cfg.public)
      ensures old(log) <= log && Publishes(log[|old(log)|..], route)
      ensures ok ==> fs.Node(cfg.public) == Link(Target(cfg, route))
      ensures ok ==> snapshot == Snapshot(Some(route), probe, checked, fallback)
      ensures !ok && snapshot != old(snapshot) ==>
                route == OnePassword && snapshot == Snapshot(Some(PivFailClosed), probe, checked, fallback)
                && fs.Node(cfg.public) == Link(cfg.piv)
      ensures !stuck && (old(Agrees()) || route != OnePassword) ==> Agrees()
      ensures old(stuck) ==> stuck
      ensures stuck && !old(stuck) ==> !ok && OnFallback() && fs.faults > old(fs.faults)
      ensures route != OnePassword && OnFallback() ==> fs.faults > old(fs.faults)
      ensures fs.faults >= old(fs.faults)
      ensures fs.faults == old(fs.faults) ==> (ok <==> old(Accepts(route)))
      decreases route == OnePassword, 3
    {
      log := log + [Published(route)];
      if route == OnePassword && (!cfg.enabled || !guardReady) {
        return false;
      }
      var target := Target(cfg, route);
      var safe := ValidateSocket(fs, target, Managed(cfg, route));
      if !safe {
        if route != OnePassword {
          RemoveFallbackRoute();
        }
        return false;
      }
      ok := PlaceGuarded(route, probe, fallback, checked);
    }

    /** The target is safe: the fallback also needs the recorded guard. */
    method PlaceGuarded(route: Route, probe: ProbeState, fallback: FallbackReport, checked: bool) returns (ok: bool)
      requires fs.Valid() && Respects(cfg, fs.fallbacks) && (route == OnePassword ==> cfg.enabled)
      modifies this`snapshot, this`log, this`stuck, fs
      ensures fs.Valid() && old(fs.history) <= fs.history
      ensures fs.disk.guard == old(fs.disk.guard)
      ensures OnlyPath(old(fs.disk), fs.disk, cfg.public)
      ensures log == if !ok && route == OnePassword then old(log) + [Published(PivFailClosed)] else old(log)
      ensures ok ==> fs.Node(cfg.public) == Link(Target(cfg, route))
      ensures ok ==> snapshot == Snapshot(Some(route), probe, checked, fallback)
      ensures !ok && snapshot != old(snapshot) ==>
                route == OnePassword && snapshot == Snapshot(Some(PivFailClosed), probe, checked, fallback)
                && fs.Node(cfg.public) == Link(cfg.piv)
      ensures !stuck ==> Agrees()
      ensures old(stuck) ==> stuck
      ensures stuck && !old(stuck) ==> !ok && OnFallback() && fs.faults > old(fs.faults)
      ensures route != OnePassword && OnFallback() ==> fs.faults > old(fs.faults)
      ensures fs.faults >= old(fs.faults)
      ensures fs.faults == old(fs.faults) ==>
                (ok <==> && (route == OnePassword ==> GuardFor(cfg).Some? && fs.disk.guard == Stored(GuardFor(cfg).value))
                         && Target(cfg, route) != NoPath
                         && old(Replaceable(fs.disk, cfg.public, RouteTargets(cfg) + {Target(cfg, route)})))
      decreases route == OnePassword, 2
    {
      if route == OnePassword {
        var current := ValidateGuard(fs, cfg);
        if !current {
          Retreat(route, probe, fallback, checked);
          return false;
        }
      }
      ok := PlaceLink(route, probe, fallback, checked);
    }

    /** The last part of SetRoute: the link, and the snapshot that reports it. */
    method PlaceLink(route: Route, probe: ProbeState, fallback: FallbackReport, checked: bool) returns (ok: bool)
      requires fs.Valid() && Respects(cfg, fs.fallbacks) && fs.MayHold(cfg.public, Link(Target(cfg, route)))
      modifies this`snapshot, this`log, this`stuck, fs
      ensures fs.Valid() && old(fs.history) <= fs.history
      ensures fs.disk.guard == old(fs.disk.guard)
      ensures OnlyPath(old(fs.disk), fs.disk, cfg.public)
      ensures log == if !ok && route == OnePassword then old(log) + [Published(PivFailClosed)] else old(log)
      ensures ok ==> fs.Node(cfg.public) == Link(Target(cfg, route))
      ensures ok ==> snapshot == Snapshot(Some(route), probe, checked, fallback)
      ensures !ok && snapshot != old(snapshot) ==>
                route == OnePassword && snapshot == Snapshot(Some(PivFailClosed), probe, checked, fallback)
                && fs.Node(cfg.public) == Link(cfg.piv)
      ensures !stuck ==> Agrees()
      ensures old(stuck) ==> stuck
      ensures stuck && !old(stuck) ==> !ok && OnFallback() && fs.faults > old(fs.faults)
      ensures route != OnePassword && OnFallback() ==> fs.faults > old(fs.faults)
      ensures fs.faults >= old(fs.faults)
      ensures fs.faults == old(fs.faults) ==>
                (ok <==> Target(cfg, route) != NoPath && old(Replaceable(fs.disk, cfg.public, RouteTargets(cfg) + {Target(cfg, route)})))
      decreases route == OnePassword, 1
    {
      ok := AtomicRoute(fs, cfg.public, Target(cfg, route), RouteTargets(cfg));
      if ok {
        snapshot := Snapshot(Some(route), probe, checked, fallback);
      } else {
        Retreat(route, probe, fallback, checked);
      }
    }

    /** A route that could not be set: back to PIV, or at least off the fallback. */
    method Retreat(route: Route, probe: ProbeState, fallback: FallbackReport, checked: bool)
      requires fs.Valid() && Respects(cfg, fs.fallbacks)
      modifies this`snapshot, this`log, this`stuck, fs
      ensures fs.Valid() && old(fs.history) <= fs.history
      ensures fs.disk.guard == old(fs.disk.guard)
      ensures OnlyPath(old(fs.disk), fs.disk, cfg.public)
      ensures log == if route == OnePassword then old(log) + [Published(PivFailClosed)] else old(log)
      ensures snapshot != old(snapshot) ==>
                route == OnePassword && snapshot == Snapshot(Some(PivFailClosed), probe, checked, fallback)
                && fs.Node(cfg.public) == Link(cfg.piv)
      ensures !stuck ==> Agrees()
      ensures old(stuck) ==> stuck
      ensures stuck && !old(stuck) ==> OnFallback() && fs.faults > old(fs.faults)
      ensures OnFallback() ==> fs.faults > old(fs.faults)
      ensures fs.faults >= old(fs.faults)
      decreases route == OnePassword, 0
    {
      if route == OnePassword {
        var _ := SetRoute(PivFailClosed, probe, fallback, checked);
      } else {
        RemoveFallbackRoute();
      }
    }

    // ---- start-up ----------------------------------------------------------

    /** A first start on a disk that needs no repair. */
    ghost predicate CleanStart()
      reads this, fs
    {
      && (cfg.enabled ==> hasGuardPath)
      && (hasGuardPath ==> fs.disk.guard == NoGuard && GuardFor(cfg).Some?)
      && cfg.public != NoPath && fs.Node(cfg.public) == Missing
      && SafeSocket(fs.disk, cfg.piv, Managed(cfg, PivFailClosed))
    }

    method ValidatePublicPath() returns (ok: bool)
      modifies fs`faults
      ensures fs.faults >= old(fs.faults)
      ensures ok ==>
                || fs.Node(cfg.public) in {Missing, Link(cfg.piv), Link(cfg.fallback)}
                || (fs.Node(cfg.public).Socket? && !fs.Node(cfg.public).live)
      ensures fs.faults == old(fs.faults) && fs.Node(cfg.public) == Missing ==> ok
    {
      var found, node := fs.Lstat(cfg.public);
      if !found { return false; }
      if node == Missing { return true; }
      var owned := fs.Permitted();
      if !owned { return false; }
      match node
      case Link(_) =>
        var read, target := fs.Readlink(cfg.public);
        return read && ((cfg.piv != NoPath && target == cfg.piv) || (cfg.fallback != NoPath && target == cfg.fallback));
      case Socket(live, _) => return !live;
      case _ => return false;
    }

    method Initialize() returns (ok: bool)
      requires Valid() && !guardReady
      modifies this, fs
      ensures Valid() && old(fs.history) <= fs.history
      ensures ok ==> fs.Node(cfg.public) == Link(cfg.piv) && snapshot == Snapshot(Some(PivFailClosed), NotChecked, false, EmptyReport)
      ensures ok ==> guardReady == hasGuardPath && (cfg.enabled ==> hasGuardPath)
      ensures ok && hasGuardPath ==> GuardFor(cfg).Some? && fs.disk.guard == Stored(GuardFor(cfg).value)
      ensures ok && hasGuardPath ==> NoFallbackLinks(fs.disk, fs.fallbacks)
      ensures guardReady ==> GuardFor(cfg).Some? && fs.disk.guard == Stored(GuardFor(cfg).value)
      ensures ok ==> stuck == old(stuck) && Agrees()
      ensures fs.faults >= old(fs.faults) && Ticks(log) == old(Ticks(log))
      ensures fs.faults == old(fs.faults) && old(CleanStart()) ==> ok
    {
      var private := fs.Permitted();
      if !private { return false; }
      var piv := ValidateSocket(fs, cfg.piv, []);
      if !piv { return false; }
      if cfg.enabled && !hasGuardPath { return false; }
      if hasGuardPath {
        ok := InstallGuard();
        if !ok { return; }
        guardReady := true;
      }
      ok := ValidatePublicPath();
      if !ok { return; }
      ok := StartRoute();
    }

    method StartRoute() returns (ok: bool)
      requires Valid()
      modifies this`snapshot, this`log, this`stuck, fs
      ensures Valid() && old(fs.history) <= fs.history && fs.disk.guard == old(fs.disk.guard)
      ensures ok ==> fs.Node(cfg.public) == Link(cfg.piv) && snapshot == Snapshot(Some(PivFailClosed), NotChecked, false, EmptyReport)
      ensures ok && old(NoFallbackLinks(fs.disk, fs.fallbacks)) ==> NoFallbackLinks(fs.disk, fs.fallbacks)
      ensures ok ==> stuck == old(stuck) && Agrees()
      ensures fs.faults >= old(fs.faults) && Ticks(log) == old(Ticks(log))
      ensures fs.faults == old(fs.faults) ==> (ok <==> old(Accepts(PivFailClosed)))
    {
      ok := SetRoute(PivFailClosed, NotChecked, EmptyReport, false);
      PublishesKeeps(old(log), log[|old(log)|..], PivFailClosed, zeroCount, debounceCount);
      assert log == old(log) + log[|old(log)|..];
      PublishesNoTicks(old(log), log[|old(log)|..], PivFailClosed);
      if ok && old(NoFallbackLinks(fs.disk, fs.fallbacks)) {
        NoNewFallbackLink(old(fs.disk), fs.disk, fs.fallbacks, cfg.public);
      }
    }

    /** Withdraw whatever fallback link an earlier process left behind, then record
        the pair this process may use. */
    method InstallGuard() returns (ok: bool)
      requires fs.Valid() && Respects(cfg, fs.fallbacks)
      modifies fs
      ensures fs.Valid() && old(fs.history) <= fs.history
      ensures ok ==> NoFallbackLinks(fs.disk, fs.fallbacks)
      ensures ok ==> GuardFor(cfg).Some? && fs.disk.guard == Stored(GuardFor(cfg).value)
      ensures fs.faults >= old(fs.faults)
      ensures fs.faults == old(fs.faults) && old(fs.disk.guard == NoGuard && fs.Node(cfg.public) == Missing) && GuardFor(cfg).Some? ==>
                ok && fs.disk.nodes == old(fs.disk.nodes)
    {
      ok := FailClosedFromGuard(fs);
      if !ok { return; }
      ghost var closed := fs.disk;
      ok := FailClosedBeforeStart(fs, cfg);
      if !ok { return; }
      assert !FallbackLink(closed, fs.fallbacks, cfg.public);
      NoNewFallbackLink(closed, fs.disk, fs.fallbacks, cfg.public);
      ok := PersistGuard(fs, cfg);
    }

    /** Fail closed outside a reconciliation, as the daemon does when it stops. */
    method FailClosed() returns (ok: bool)
      requires Valid()
      modifies this, fs
      ensures Valid() && old(fs.history) <= fs.history
      ensures guardReady == old(guardReady) && zeroCount == 0
      ensures fs.disk.guard == old(fs.disk.guard)
      ensures OnlyPath(old(fs.disk), fs.disk, cfg.public)
      ensures old(log) <= log && Publishes(log[|old(log)|..], PivFailClosed)
      ensures ok ==> fs.Node(cfg.public) == Link(cfg.piv) && snapshot == Snapshot(Some(PivFailClosed), NotChecked, false, EmptyReport)
      ensures !ok ==> snapshot == old(snapshot)
      ensures OnFallback() ==> fs.faults > old(fs.faults)
      ensures !stuck ==> Agrees()
      ensures stuck && !old(stuck) ==> !ok && OnFallback() && fs.faults > old(fs.faults)
      ensures old(stuck) ==> stuck
      ensures fs.faults >= old(fs.faults)
      ensures fs.faults == old(fs.faults) ==> (ok <==> old(Accepts(PivFailClosed)))
    {
      zeroCount := 0;
      ok := SetRoute(PivFailClosed, NotChecked, EmptyReport, false);
      PublishesKeeps(old(log), log[|old(log)|..], PivFailClosed, 0, debounceCount);
      assert log == old(log) + log[|old(log)|..];
    }

    // ---- one reconciliation -------------------------------------------------

    /** Ask for the number of attached devices. */
    method Probe() returns (ok: bool, count: int)
      modifies this`log
      ensures log == old(log) + [if !ok then ProbeFailed else if count > 0 then ProbePresent else ProbeZero]
    {
      ok := *;
      count := *;
      log := log + [if !ok then ProbeFailed else if count > 0 then ProbePresent else ProbeZero];
    }

    /** Poll the event queue without waiting. */
    method ConsumePendingProbeEvent() returns (interrupted: bool, closed: bool)
      modifies this`log
      ensures !(interrupted && closed)
      ensures log == old(log) + [if interrupted then Interrupted else if closed then StreamClosed else QueueEmpty]
    {
      interrupted := *;
      closed := *;
      closed := closed && !interrupted;
      log := log + [if interrupted then Interrupted else if closed then StreamClosed else QueueEmpty];
    }

    /** Inspect the fallback agent while a device event may cut the wait short. */
    method InspectFallbackWhileWatching() returns (report: FallbackReport, failed: bool, interrupted: bool, closed: bool)
      modifies this`log
      ensures !(interrupted && closed)
      ensures log == old(log) + [if interrupted then Interrupted else if closed then StreamClosed else Inspected(report, failed)]
    {
      report := *;
      failed := *;
      interrupted := *;
      closed := *;
      closed := closed && !interrupted;
      if interrupted || closed {
        report, failed := EmptyReport, false;
      }
      log := log + [if interrupted then Interrupted else if closed then StreamClosed else Inspected(report, failed)];
    }

    /** The public path is a link to exactly the target of the published route. */
    ghost predicate Settled()
      reads this`snapshot, fs`disk
    {
      snapshot.route.Some? && fs.Node(cfg.public) == Link(Target(cfg, snapshot.route.value))
    }

    /** What every reconciliation step leaves true of the rest of the router. */
    twostate predicate Stepped()
      reads this, fs
    {
      && fs.Valid()
      && Respects(cfg, fs.fallbacks)
      && old(fs.history) <= fs.history
      && fs.disk.guard == old(fs.disk.guard)
      && guardReady == old(guardReady)
      && old(log) <= log
      && fs.faults >= old(fs.faults)
      && (old(stuck) ==> stuck)
      && (stuck && !old(stuck) ==> fs.faults > old(fs.faults))
      && (!stuck && old(Agrees()) ==> Agrees())
    }

    /** SetRoute, as the reconciliation steps see it. */
    method Publish(route: Route, probe: ProbeState, fallback: FallbackReport, checked: bool) returns (ok: bool)
      requires fs.Valid() && Respects(cfg, fs.fallbacks)
      modifies this`snapshot, this`log, this`stuck, fs
      ensures Stepped()
      ensures Publishes(log[|old(log)|..], route)
      ensures ok ==> Settled()
    {
      ok := SetRoute(route, probe, fallback, checked);
    }

    /** No answer to the probe, or a device: the route is PIV and the count starts over. */
    method PublishPresence(answered: bool) returns (ok: bool)
      requires fs.Valid() && Respects(cfg, fs.fallbacks)
      modifies this`zeroCount, this`snapshot, this`log, this`stuck, fs
      ensures Stepped() && zeroCount == 0
      ensures Publishes(log[|old(log)|..], if answered then Piv else PivFailClosed)
      ensures ok ==> Settled()
    {
      zeroCount := 0;
      if answered {
        ok := Publish(Piv, Connected, EmptyReport, false);
      } else {
        ok := Publish(PivFailClosed, Unavailable, EmptyReport, false);
      }
    }

    /** The event stream has closed: the router cannot tell when a device arrives. */
    method FailClosedStream()
      requires fs.Valid() && Respects(cfg, fs.fallbacks)
      modifies this`zeroCount, this`snapshot, this`log, this`stuck, fs
      ensures Stepped() && zeroCount == 0
      ensures Publishes(log[|old(log)|..], PivFailClosed)
    {
      zeroCount := 0;
      var _ := Publish(PivFailClosed, Unavailable, EmptyReport, false);
    }

    method ReconcileProbeEvent() returns (ok: bool)
      requires fs.Valid() && Respects(cfg, fs.fallbacks)
      modifies this, fs
      ensures Stepped()
      ensures AfterEvent(log[|old(log)|..], old(zeroCount), zeroCount)
      ensures ok ==> Settled()
    {
      var answered, count := Probe();
      if !answered || count > 0 {
        ok := PublishPresence(answered);
        return;
      }
      if zeroCount == 0 {
        zeroCount := 1;
      }
      ok := Publish(PivFailClosed, NotDetected, EmptyReport, false);
    }

    /** Probe, and if the device has been absent long enough inspect the fallback,
        recheck, and only then publish the fallback route. */
    method ReconcileWithDebounce(timer: bool) returns (ok: bool)
      requires Valid()
      modifies this, fs
      ensures Valid() && Stepped()
      ensures Reconciled(log[|old(log)|..], cfg.enabled, debounceCount, old(zeroCount), zeroCount)
      ensures log[|old(log)|] == Woke(timer)
      ensures ok ==> Settled()
    {
      log := log + [Woke(timer)];
      ok := Reconcile(timer);
      assert log[|old(log)|..][1..] == log[|old(log)| + 1..];
      ReconciledKeeps(old(log), log[|old(log)|..], cfg.enabled, debounceCount, old(zeroCount), zeroCount);
      assert log == old(log) + log[|old(log)|..];
    }

    method Reconcile(timer: bool) returns (ok: bool)
      requires fs.Valid() && Respects(cfg, fs.fallbacks) && debounceCount >= 1
      modifies this, fs
      ensures Stepped()
      ensures AfterWake(log[|old(log)|..], cfg.enabled, timer, debounceCount, old(zeroCount), zeroCount)
      ensures ok ==> Settled()
    {
      if cfg.enabled {
        ok := ProbeAndRoute(timer);
      } else {
        zeroCount := 0;
        ok := Publish(Piv, NotChecked, EmptyReport, false);
      }
    }

    /** A reconciliation with the fallback enabled. */
    method ProbeAndRoute(timer: bool) returns (ok: bool)
      requires fs.Valid() && Respects(cfg, fs.fallbacks) && debounceCount >= 1
      modifies this, fs
      ensures Stepped()
      ensures AfterWake(log[|old(log)|..], true, timer, debounceCount, old(zeroCount), zeroCount)
      ensures ok ==> Settled()
    {
      var answered, count := Probe();
      ghost var event := log[|old(log)|];
      if !answered || count > 0 {
        ok := PublishPresence(answered);
      } else {
        CountAbsence(timer);
        ok := ReconcileAbsence();
      }
      TailAfter(old(log), event, log);
    }

    method CountAbsence(timer: bool)
      modifies this`zeroCount
      ensures zeroCount == Advance(old(zeroCount), debounceCount, timer)
    {
      if zeroCount == 0 {
        zeroCount := 1;
      } else if timer && zeroCount < debounceCount {
        zeroCount := zeroCount + 1;
      }
    }

    /** The device is absent; the counter has been brought up to date. */
    method ReconcileAbsence() returns (ok: bool)
      requires fs.Valid() && Respects(cfg, fs.fallbacks)
      modifies this, fs
      ensures Stepped()
      ensures AfterAbsence(log[|old(log)|..], old(zeroCount), zeroCount, debounceCount)
      ensures ok ==> Settled()
    {
      if zeroCount < debounceCount {
        ok := Publish(PivFailClosed, NotDetected, EmptyReport, false);
        return;
      }
      var report, failed, interrupted, closed := InspectFallbackWhileWatching();
      ghost var event := log[|old(log)|];
      if closed {
        FailClosedStream();
        ok := false;
      } else if interrupted {
        ok := ReconcileProbeEvent();
      } else {
        ok := RouteInspected(report, failed);
      }
      TailAfter(old(log), event, log);
    }

    /** The inspection has ended by itself: only a clean fallback gets any further. */
    method RouteInspected(report: FallbackReport, failed: bool) returns (ok: bool)
      requires fs.Valid() && Respects(cfg, fs.fallbacks)
      modifies this, fs
      ensures Stepped()
      ensures if Clean(Inspected(report, failed)) then AfterRecheck(log[|old(log)|..], old(zeroCount), zeroCount)
              else zeroCount == old(zeroCount) && Publishes(log[|old(log)|..], PivFailClosed)
      ensures ok ==> Settled()
    {
      if failed || !report.reachable || !report.targetKeyFound || report.otherKeys != 0 {
        ok := Publish(PivFailClosed, NotDetected, report, true);
      } else {
        ok := Recheck(report);
      }
    }

    /** The fallback inspected clean: look once more before publishing it. */
    method Recheck(report: FallbackReport) returns (ok: bool)
      requires fs.Valid() && Respects(cfg, fs.fallbacks)
      modifies this, fs
      ensures Stepped()
      ensures AfterRecheck(log[|old(log)|..], old(zeroCount), zeroCount)
      ensures ok ==> Settled()
    {
      var answered, count := Probe();
      if !answered || count > 0 {
        ok := PublishPresence(answered);
        return;
      }
      ghost var event := log[|old(log)|];
      ok := PollAndPublish(report);
      TailAfter(old(log), event, log);
    }

    /** Still no device: publish the fallback unless a device event is waiting. */
    method PollAndPublish(report: FallbackReport) returns (ok: bool)
      requires fs.Valid() && Respects(cfg, fs.fallbacks)
      modifies this, fs
      ensures Stepped()
      ensures AfterPoll(log[|old(log)|..], old(zeroCount), zeroCount)
      ensures ok ==> Settled()
    {
      var interrupted, closed := ConsumePendingProbeEvent();
      ghost var event := log[|old(log)|];
      if closed {
        FailClosedStream();
        ok := false;
      } else if interrupted {
        ok := ReconcileProbeEvent();
      } else {
        ok := Publish(OnePassword, NotDetected, report, true);
      }
      TailAfter(old(log), event, log);
    }

    // ---- the event loop ------------------------------------------------------

    method ReconcileAndReport(timer: bool) returns (retry: bool)
      requires Valid()
      modifies this, fs
      ensures Valid() && Stepped()
      ensures Reconciled(log[|old(log)|..], cfg.enabled, debounceCount, old(zeroCount), zeroCount)
      ensures log[|old(log)|] == Woke(timer)
      ensures Ticks(log) == old(Ticks(log)) + if timer then 1 else 0
      ensures !retry ==> Settled() && snapshot.probe in {NotChecked, Connected}
    {
      var ok := ReconcileWithDebounce(timer);
      ghost var tail := log[|old(log)|..];
      ReconciledTicks(tail, cfg.enabled, debounceCount, old(zeroCount), zeroCount);
      TicksAppend(old(log), tail);
      assert log == old(log) + tail;
      retry := !ok || snapshot.probe == NotDetected || snapshot.probe == Unavailable;
    }

    method FailUnavailable()
      requires Valid()
      modifies this, fs
      ensures Valid() && Stepped()
      ensures zeroCount == 0
      ensures Publishes(log[|old(log)|..], PivFailClosed)
      ensures Ticks(log) == old(Ticks(log))
      ensures !stuck ==> Agrees()
    {
      zeroCount := 0;
      var _ := SetRoute(PivFailClosed, Unavailable, EmptyReport, false);
      ghost var tail := log[|old(log)|..];
      PublishesKeeps(old(log), tail, PivFailClosed, 0, debounceCount);
      assert log == old(log) + tail;
      PublishesNoTicks(old(log), tail, PivFailClosed);
    }

    /** The event loop, woken by an arbitrary finite schedule. `Valid` carries the
        debounce guarantee through every prefix of the run, `Stepped` the agreement
        between link and snapshot. It fails exactly when device events are missing
        or their stream has closed. */
    method Run(schedule: seq<Wakeup>) returns (ok: bool)
      requires Valid()
      modifies this, fs
      ensures Valid() && Stepped()
      ensures !ok ==> zeroCount == 0 && |log| > 0 && log[|log| - 1] == Published(PivFailClosed)
      ensures ok || (cfg.enabled && !hasEvents) || (hasEvents && EventsClosed in schedule)
      ensures cfg.enabled && !hasEvents ==> !ok && Publishes(log[|old(log)|..], PivFailClosed)
      ensures Ticks(log) <= old(Ticks(log)) + Timers(schedule)
      ensures Published(OnePassword) in log ==> old(Ticks(log)) + Timers(schedule) >= debounceCount - 1
    {
      ok := EventLoop(schedule);
      if Published(OnePassword) in log {
        ghost var k :| 0 <= k < |log| && log[k] == Published(OnePassword);
        EventsAloneNeverPublish(log, zeroCount, debounceCount, k);
        TicksGrow(log, k);
      }
    }

    method EventLoop(schedule: seq<Wakeup>) returns (ok: bool)
      requires Valid()
      modifies this, fs
      ensures Valid() && Stepped()
      ensures !ok ==> zeroCount == 0 && |log| > 0 && log[|log| - 1] == Published(PivFailClosed)
      ensures ok || (cfg.enabled && !hasEvents) || (hasEvents && EventsClosed in schedule)
      ensures cfg.enabled && !hasEvents ==> !ok && Publishes(log[|old(log)|..], PivFailClosed)
      ensures Ticks(log) <= old(Ticks(log)) + Timers(schedule)
    {
      if cfg.enabled && !hasEvents {
        FailUnavailable();
        return false;
      }
      var retry := ReconcileAndReport(false);
      ok := Await(schedule, retry);
    }

    method Await(schedule: seq<Wakeup>, armed: bool) returns (ok: bool)
      requires Valid()
      modifies this, fs
      ensures Valid() && Stepped()
      ensures !ok ==> zeroCount == 0 && |log| > 0 && log[|log| - 1] == Published(PivFailClosed)
      ensures !ok ==> hasEvents && EventsClosed in schedule
      ensures Ticks(log) <= old(Ticks(log)) + Timers(schedule)
    {
      var retry := armed;
      for k := 0 to |schedule|
        invariant Valid() && Stepped()
        invariant Ticks(log) <= old(Ticks(log)) + Timers(schedule[..k])
      {
        assert schedule[..k + 1][..k] == schedule[..k];
        TimersGrow(schedule, k + 1);
        match schedule[k]
        case ContextDone =>
          return true;
        case EventsClosed =>
          if hasEvents {
            FailUnavailable();
            return false;
          }
        case DeviceEvent =>
          if hasEvents {
            retry := ReconcileAndReport(false);
          }
        case TimerFired =>
          if retry {
            retry := ReconcileAndReport(true);
          }
      }
      assert schedule[..|schedule|] == schedule;
      return true;
    }
  }
}
