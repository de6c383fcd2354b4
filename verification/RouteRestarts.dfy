/** The daemon over many lives: each life starts from whatever disk the previous one
    left when it was killed, under a configuration of its own. */
module RouteRestarts {
  import opened Debounce
  import opened RouteDisk
  import opened RouteGuard
  import opened Router

  datatype Life = Life(cfg: Config, guardPath: bool, hasEvents: bool, debounce: int, schedule: seq<Wakeup>)

  /** On a guarded disk the guard file alone decides whether any public path still
      leads to a fallback socket. */
  lemma GuardDecides(d: Disk, fallbacks: set<Path>)
    requires Guarded(d, fallbacks)
    ensures NoFallbackLinks(d, fallbacks) <==>
              (d.guard.Stored? ==> !FallbackLink(d, fallbacks, d.guard.record.public))
  {
    if !NoFallbackLinks(d, fallbacks) {
      var p :| FallbackLink(d, fallbacks, p);
      assert d.guard.record.public == p;
    }
  }

  // ---- the order of guard and link matters ---------------------------------------------

  /** Some disk of the history is not guarded: a crash at that moment strands a link. */
  ghost predicate OnceUnguarded(history: seq<Disk>, fallbacks: set<Path>) {
    exists k :: 0 <= k < |history| && !Guarded(history[k], fallbacks)
  }

  /** A start in the other order, fallback link first and guard second. Without faults the disk
      ends up guarded like that of the real start, but it was not guarded throughout. */
  method LinkBeforeGuard(fs: FileSystem, cfg: Config) returns (ok: bool)
    requires fs.Valid() && Respects(cfg, fs.fallbacks) && GuardFor(cfg).Some? && cfg.enabled
    requires fs.disk.guard == NoGuard && fs.Node(cfg.public) == Missing
    modifies fs
    ensures fs.faults == old(fs.faults) ==> ok
    ensures ok ==> fs.Node(cfg.public) == Link(cfg.fallback) && fs.disk.guard == Stored(GuardFor(cfg).value)
    ensures ok ==> OnceUnguarded(fs.history, fs.fallbacks)
  {
    var prepared, temp := PrepareLink(fs, cfg.fallback);
    if !prepared { return false; }
    var linked := fs.Rename(temp, cfg.public);
    if !linked { return false; }
    ghost var k := |fs.history| - 1;
    assert FallbackLink(fs.history[k], fs.fallbacks, cfg.public);
    ok := fs.ReplaceGuard(GuardFor(cfg).value);
    assert ok ==> !Guarded(fs.history[k], fs.fallbacks);
  }

  // ---- what configurations must respect ---------------------------------------------------

  /** The disk a successful start of `cfg` leaves at its public path. */
  ghost predicate Started(d: Disk, cfg: Config) {
    GuardFor(cfg).Some? && d.guard == Stored(GuardFor(cfg).value) && NodeAt(d, cfg.public) == Link(cfg.piv)
  }

  /** Such a disk is unguarded whenever the PIV socket is some configuration's fallback
      socket; so nothing less than `Respects` will do for the PIV socket. */
  lemma PivMustNotBeFallback(d: Disk, cfg: Config, fallbacks: set<Path>)
    requires Started(d, cfg)
    ensures FallbackLink(d, fallbacks, cfg.public) <==> cfg.piv in fallbacks
    ensures cfg.piv in fallbacks ==> !Guarded(d, fallbacks)
  {
  }

  const ONE_WAY := Config(At("a"), At("p"), NoPath, At("f"), true)
  const OTHER_WAY := Config(At("b"), At("f"), NoPath, At("p"), true)

  /** Two configurations, each valid on its own, of which neither can be started safely
      when the other one counts. */
  lemma SwappedSocketsConflict(d: Disk, e: Disk)
    requires Started(d, ONE_WAY) && Started(e, OTHER_WAY)
    ensures GuardFor(ONE_WAY).Some? && GuardFor(OTHER_WAY).Some?
    ensures !Guarded(d, {ONE_WAY.fallback, OTHER_WAY.fallback}) && !Guarded(e, {ONE_WAY.fallback, OTHER_WAY.fallback})
  {
    PivMustNotBeFallback(d, ONE_WAY, {ONE_WAY.fallback, OTHER_WAY.fallback});
    PivMustNotBeFallback(e, OTHER_WAY, {ONE_WAY.fallback, OTHER_WAY.fallback});
  }

  lemma SwappedSocketsStart() returns (d: Disk, e: Disk)
    ensures Started(d, ONE_WAY) && Started(e, OTHER_WAY)
  {
    d := Disk(map[ONE_WAY.public := Link(ONE_WAY.piv)], Stored(GuardFor(ONE_WAY).value));
    e := Disk(map[OTHER_WAY.public := Link(OTHER_WAY.piv)], Stored(GuardFor(OTHER_WAY).value));
  }

  // ---- whole lives ------------------------------------------------------------------------

  /** From a successful start through any schedule: link and snapshot disagree only after
      a fault, and every fallback publication has its timer ticks. */
  method StartAndRun(fs: FileSystem, life: Life) returns (router: Router, started: bool)
    requires fs.Valid() && Respects(life.cfg, fs.fallbacks)
    modifies fs
    ensures fresh(router) && router.Valid() && router.fs == fs && router.cfg == life.cfg && fs.faults >= old(fs.faults)
    ensures started && fs.faults == old(fs.faults) ==> router.Agrees()
    ensures started && Published(OnePassword) in router.log ==> Timers(life.schedule) >= router.debounceCount - 1
  {
    router := new Router(life.cfg, fs, life.guardPath, life.hasEvents, life.debounce);
    started := router.Initialize();
    if started {
      var _ := router.Run(life.schedule);
    }
  }

  /** The same life up to its end: after FailClosed only a fault can have kept a fallback
      link. */
  method WholeLife(fs: FileSystem, life: Life) returns (router: Router, closed: bool)
    requires fs.Valid() && Respects(life.cfg, fs.fallbacks)
    modifies fs
    ensures router.Valid() && router.fs == fs && fs.faults >= old(fs.faults)
    ensures router.OnFallback() ==> fs.faults > old(fs.faults)
    ensures closed ==> fs.Node(life.cfg.public) == Link(life.cfg.piv)
  {
    var started;
    router, started := StartAndRun(fs, life);
    closed := router.FailClosed();
  }

  /** One life up to its natural end. Every disk it produces is recorded. */
  method Live(fs: FileSystem, life: Life)
    requires fs.Valid() && Respects(life.cfg, fs.fallbacks)
    modifies fs
    ensures fs.Valid() && old(fs.history) <= fs.history
  {
    var ok := FailClosedFromGuard(fs);
    if !ok { return; }
    ok := FailClosedBeforeStart(fs, life.cfg);
    if !ok { return; }
    var router := new Router(life.cfg, fs, life.guardPath, life.hasEvents, life.debounce);
    ok := router.Initialize();
    if ok {
      ok := router.Run(life.schedule);
    }
    ok := router.FailClosed();
  }

  /** Any number of lives, each killed between two file system operations of its own.
      Every disk that ever existed is guarded, and once a configuration-free
      withdrawal succeeds no public path leads to a fallback socket. */
  method CrashAndRestart(fs: FileSystem, lives: seq<Life>) returns (withdrawn: bool)
    requires fs.Valid()
    requires forall k :: 0 <= k < |lives| ==> Respects(lives[k].cfg, fs.fallbacks)
    modifies fs
    ensures fs.Valid() && old(fs.history) <= fs.history
    ensures forall k :: 0 <= k < |fs.history| ==> Guarded(fs.history[k], fs.fallbacks)
    ensures withdrawn ==> NoFallbackLinks(fs.disk, fs.fallbacks)
  {
    for k := 0 to |lives|
      invariant fs.Valid() && old(fs.history) <= fs.history
    {
      var born := |fs.history|;
      Live(fs, lives[k]);
      fs.Crash(born);
    }
    withdrawn := FailClosedFromGuard(fs);
  }
}
