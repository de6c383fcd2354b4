/** The on-disk route guard and the atomic replacement of the public agent link. */
module RouteGuard {
  import opened Basics
  import opened RouteDisk

  datatype Config = Config(public: ConfigPath, piv: ConfigPath, backend: ConfigPath, fallback: ConfigPath, enabled: bool)

  /** `fallbacks` are the paths that some configuration uses as fallback socket;
      none of them doubles as a PIV socket. */
  ghost predicate Respects(cfg: Config, fallbacks: set<Path>) {
    && cfg.piv !in fallbacks
    && (cfg.fallback != NoPath ==> cfg.fallback in fallbacks)
  }

  predicate ValidRecord(g: GuardRecord) {
    && g.public.At? && g.piv.At? && !g.fallback.Temp?
    && g.public != g.piv && g.fallback != g.public && g.fallback != g.piv
  }

  function GuardFor(cfg: Config): Option<GuardRecord> {
    var g := GuardRecord(cfg.public, cfg.piv, if cfg.enabled then cfg.fallback else NoPath);
    if (cfg.enabled && cfg.fallback == NoPath) || !ValidRecord(g) then None else Some(g)
  }

  // ---- socket validation -------------------------------------------------

  /** `path` is a socket and none of the managed paths leads to it. */
  ghost predicate SafeSocket(d: Disk, path: Path, managed: seq<Path>) {
    && path != NoPath
    && NodeAt(d, path).Socket?
    && forall k :: 0 <= k < |managed| ==> Resolve(d, managed[k]) != path
  }

  method ValidateSocket(fs: FileSystem, path: Path, managed: seq<Path>) returns (ok: bool)
    modifies fs`faults
    ensures fs.faults >= old(fs.faults)
    ensures fs.faults == old(fs.faults) ==> (ok <==> SafeSocket(fs.disk, path, managed))
    ensures ok ==> path != NoPath && fs.Node(path).Socket?
  {
    if path == NoPath { return false; }
    var private := fs.Permitted();
    if !private { return false; }
    var found, node := fs.Lstat(path);
    if !found || !node.Socket? { return false; }
    var owned := fs.Permitted();
    if !owned { return false; }
    for k := 0 to |managed|
      invariant fs.faults >= old(fs.faults)
      invariant fs.faults == old(fs.faults) ==> forall j :: 0 <= j < k ==> Resolve(fs.disk, managed[j]) != path
    {
      var same := fs.SameFile(managed[k], path);
      if same { return false; }
    }
    return true;
  }

  // ---- atomic replacement of the public link -----------------------------

  datatype RoutePathState = PathMissing | PathLink(target: Path) | PathStaleSocket(inode: nat)

  ghost predicate Replaceable(d: Disk, public: Path, allowed: set<Path>) {
    && public != NoPath
    && match NodeAt(d, public)
       case Missing => true
       case Link(t) => t in allowed
       case Socket(live, _) => !live
       case Other => false
  }

  ghost function StateOf(n: Node): RoutePathState {
    match n
    case Link(t) => PathLink(t)
    case Socket(_, inode) => PathStaleSocket(inode)
    case _ => PathMissing
  }

  method InspectReplaceable(fs: FileSystem, public: Path, allowed: set<Path>) returns (ok: bool, state: RoutePathState)
    modifies fs`faults
    ensures fs.faults >= old(fs.faults)
    ensures ok ==> Replaceable(fs.disk, public, allowed) && state == StateOf(fs.Node(public))
    ensures fs.faults == old(fs.faults) ==> (ok <==> Replaceable(fs.disk, public, allowed))
  {
    state := PathMissing;
    if public == NoPath { return false, state; }
    var private := fs.Permitted();
    if !private { return false, state; }
    var found, node := fs.Lstat(public);
    if !found { return false, state; }
    if node == Missing { return true, PathMissing; }
    var owned := fs.Permitted();
    if !owned { return false, state; }
    match node
    case Link(_) =>
      var read, target := fs.Readlink(public);
      if !read || target !in allowed { return false, state; }
      return true, PathLink(target);
    case Socket(live, inode) =>
      if live { return false, state; }
      return true, PathStaleSocket(inode);
    case _ =>
      return false, state;
  }

  /** What was found at first still stands: nothing appeared, the link still leads to an
      allowed target, or it is the very same stale socket. */
  predicate StillFits(n: Node, initial: RoutePathState, allowed: set<Path>) {
    match initial
    case PathMissing => n == Missing
    case PathLink(_) => n.Link? && n.target in allowed
    case PathStaleSocket(inode) => n == Socket(false, inode)
  }

  method Revalidate(fs: FileSystem, public: Path, initial: RoutePathState, allowed: set<Path>) returns (ok: bool)
    requires public != NoPath
    modifies fs`faults
    ensures fs.faults >= old(fs.faults)
    ensures ok ==> StillFits(fs.Node(public), initial, allowed)
    ensures fs.faults == old(fs.faults) ==> (ok <==> StillFits(fs.Node(public), initial, allowed))
  {
    var private := fs.Permitted();
    if !private { return false; }
    var found, node := fs.Lstat(public);
    match initial
    case PathMissing =>
      return found && node == Missing;
    case PathLink(_) =>
      if !found || !node.Link? { return false; }
      var owned := fs.Permitted();
      if !owned { return false; }
      var read, target := fs.Readlink(public);
      return read && target in allowed;
    case PathStaleSocket(inode) =>
      if !found || !node.Socket? || node.live || node.inode != inode { return false; }
      ok := fs.Permitted();
  }

  /** Point `public` at `target` by renaming a prepared link over it. The caller sees
      either the old node or the new link, nothing else changes, and without faults
      the call succeeds exactly when the current node may be replaced. */
  method AtomicRoute(fs: FileSystem, public: ConfigPath, target: ConfigPath, current: set<Path>) returns (ok: bool)
    requires fs.Valid() && fs.MayHold(public, Link(target))
    modifies fs
    ensures fs.Valid() && old(fs.history) <= fs.history
    ensures fs.disk.guard == old(fs.disk.guard)
    ensures OnlyPath(old(fs.disk), fs.disk, public)
    ensures fs.Node(public) == old(fs.Node(public)) || fs.Node(public) == Link(target)
    ensures ok ==> fs.Node(public) == Link(target)
    ensures fs.faults >= old(fs.faults)
    ensures fs.faults == old(fs.faults) ==> (ok <==> target != NoPath && Replaceable(old(fs.disk), public, current + {target}))
    ensures fs.faults == old(fs.faults) ==> forall q: Path :: q.Temp? ==> fs.Node(q) == old(fs.Node(q))
  {
    if target == NoPath { return false; }
    var allowed := current + {target};
    var fits, initial := InspectReplaceable(fs, public, allowed);
    if !fits { return false; }
    if initial == PathLink(target) { return true; }
    var prepared, temp := PrepareLink(fs, target);
    if !prepared { return false; }
    ok := Install(fs, public, target, temp, initial, allowed);
  }

  /** Rename the prepared link over `public` if what was found there still stands. */
  method Install(fs: FileSystem, public: ConfigPath, target: ConfigPath, temp: Path, initial: RoutePathState, allowed: set<Path>)
    returns (ok: bool)
    requires fs.Valid() && fs.MayHold(public, Link(target)) && public != NoPath
    requires temp.Temp? && fs.Node(temp) == Link(target)
    modifies fs
    ensures fs.Valid() && old(fs.history) <= fs.history
    ensures fs.disk.guard == old(fs.disk.guard)
    ensures SameExcept(old(fs.disk), fs.disk, {public, temp})
    ensures fs.Node(public) == old(fs.Node(public)) || fs.Node(public) == Link(target)
    ensures ok ==> fs.Node(public) == Link(target)
    ensures fs.faults >= old(fs.faults)
    ensures fs.faults == old(fs.faults) ==> (ok <==> StillFits(old(fs.Node(public)), initial, allowed)) && fs.Node(temp) == Missing
  {
    ok := Revalidate(fs, public, initial, allowed);
    if ok {
      ok := fs.Rename(temp, public);
      if ok {
        ok := fs.Permitted();
      }
    }
    var _ := fs.Remove(temp);
  }

  /** Create a symbolic link to `target` under a fresh temporary name. */
  method PrepareLink(fs: FileSystem, target: ConfigPath) returns (ok: bool, temp: Path)
    requires fs.Valid()
    modifies fs
    ensures fs.Valid() && old(fs.history) <= fs.history
    ensures fs.disk.guard == old(fs.disk.guard)
    ensures temp.Temp? && SameExcept(old(fs.disk), fs.disk, {temp})
    ensures ok ==> fs.Node(temp) == Link(target) && old(fs.Node(temp)) == Missing
    ensures fs.faults >= old(fs.faults)
    ensures fs.faults == old(fs.faults) ==> ok
  {
    ok, temp := fs.CreateTemp();
    if !ok { return; }
    var closed := fs.Permitted();
    var removed := fs.Remove(temp);
    ok := closed && removed;
    if ok {
      ok := fs.Symlink(target, temp);
    }
  }

  // ---- failing closed ----------------------------------------------------

  /** Remove the public link, but only while it still points to `fallback`. */
  method RemoveRecordedFallback(fs: FileSystem, public: ConfigPath, fallback: Path) returns (ok: bool)
    requires fs.Valid()
    modifies fs
    ensures fs.Valid() && old(fs.history) <= fs.history
    ensures fs.disk.guard == old(fs.disk.guard)
    ensures || fs.disk == old(fs.disk)
            || (old(fs.Node(public)) == Link(fallback) && fs.disk == old(fs.disk).(nodes := old(fs.disk).nodes - {public}))
    ensures ok ==> fs.Node(public) == Missing
    ensures fs.faults >= old(fs.faults)
    ensures fs.faults == old(fs.faults) ==> (ok <==> old(fs.Node(public)) in {Missing, Link(fallback)})
  {
    var private := fs.Permitted();
    if !private { return false; }
    var found, node := fs.Lstat(public);
    if !found { return false; }
    if node == Missing { return true; }
    if !node.Link? { return false; }
    var owned := fs.Permitted();
    if !owned { return false; }
    var read, target := fs.Readlink(public);
    if !read || target != fallback { return false; }
    ok := fs.Remove(public);
  }

  method SafeFailClosedTarget(fs: FileSystem, path: Path, managed: seq<Path>) returns (ok: bool)
    modifies fs`faults
    ensures fs.faults >= old(fs.faults)
    ensures ok ==> fs.Node(path) == Missing || fs.Node(path).Socket?
    ensures fs.faults == old(fs.faults) ==> (ok <==> fs.Node(path) == Missing || SafeSocket(fs.disk, path, managed))
  {
    var private := fs.Permitted();
    if !private { return false; }
    var found, node := fs.Lstat(path);
    if found && node == Missing { return true; }
    if !found { return false; }
    ok := ValidateSocket(fs, path, managed);
  }

  method ReadGuard(fs: FileSystem) returns (ok: bool, missing: bool, record: GuardRecord)
    modifies fs`faults
    ensures fs.faults >= old(fs.faults)
    ensures ok ==> fs.disk.guard == Stored(record) && ValidRecord(record)
    ensures missing ==> fs.disk.guard == NoGuard && !ok
    ensures fs.faults == old(fs.faults) ==> (ok <==> fs.disk.guard.Stored? && ValidRecord(fs.disk.guard.record))
    ensures fs.faults == old(fs.faults) ==> (missing <==> fs.disk.guard == NoGuard)
  {
    record := GuardRecord(NoPath, NoPath, NoPath);
    var inspected := fs.Permitted();
    if !inspected { return false, false, record; }
    match fs.disk.guard
    case NoGuard => return false, true, record;
    case Unreadable => return false, false, record;
    case Stored(r) =>
      var readable := fs.Permitted();
      return readable && ValidRecord(r), false, r;
  }

  /** The link recorded in `g` no longer leads to its fallback. */
  ghost predicate Withdrawn(d: Disk, g: GuardRecord) {
    g.fallback != NoPath ==> NodeAt(d, g.public) != Link(g.fallback)
  }

  method FailClosedGuard(fs: FileSystem, g: GuardRecord) returns (ok: bool)
    requires fs.Valid() && ValidRecord(g) && g.piv !in fs.fallbacks
    modifies fs
    ensures fs.Valid() && old(fs.history) <= fs.history
    ensures fs.disk.guard == old(fs.disk.guard)
    ensures OnlyPath(old(fs.disk), fs.disk, g.public)
    ensures fs.Node(g.public) in {old(fs.Node(g.public)), Missing, Link(g.piv)}
    ensures old(Withdrawn(fs.disk, g)) ==> fs.disk == old(fs.disk)
    ensures ok ==> Withdrawn(fs.disk, g)
    ensures fs.faults >= old(fs.faults)
    ensures fs.faults == old(fs.faults) ==> ok
  {
    if g.fallback == NoPath { return true; }
    var read, current := fs.Readlink(g.public);
    if !read {
      // Either not a link at all, which is nothing to withdraw, or an error.
      var found, node := fs.Lstat(g.public);
      return found && !node.Link?;
    }
    if current != g.fallback { return true; }
    var safe := SafeFailClosedTarget(fs, g.piv, [g.fallback]);
    if safe {
      ok := AtomicRoute(fs, g.public, g.piv, {g.fallback});
    } else {
      ok := RemoveRecordedFallback(fs, g.public, g.fallback);
    }
  }

  lemma NoNewFallbackLink(before: Disk, after: Disk, fallbacks: set<Path>, p: Path)
    requires NoFallbackLinks(before, fallbacks) && OnlyPath(before, after, p)
    requires !FallbackLink(after, fallbacks, p)
    ensures NoFallbackLinks(after, fallbacks)
  {
    forall q ensures !FallbackLink(after, fallbacks, q) {
      assert !FallbackLink(before, fallbacks, q);
      if q != p && !q.Temp? {
        assert NodeAt(after, q) == NodeAt(before, q);
      }
    }
  }

  /** Start-up step that needs no configuration: after it succeeds no public path
      leads to a fallback socket. */
  method FailClosedFromGuard(fs: FileSystem) returns (ok: bool)
    requires fs.Valid()
    modifies fs
    ensures fs.Valid() && old(fs.history) <= fs.history
    ensures fs.disk.guard == old(fs.disk.guard)
    ensures ok ==> NoFallbackLinks(fs.disk, fs.fallbacks)
    ensures old(NoFallbackLinks(fs.disk, fs.fallbacks)) ==> NoFallbackLinks(fs.disk, fs.fallbacks)
    ensures !old(fs.disk.guard).Stored? ==> fs.disk == old(fs.disk)
    ensures fs.faults >= old(fs.faults)
    ensures fs.faults == old(fs.faults) ==>
              (ok <==> fs.disk.guard == NoGuard || (fs.disk.guard.Stored? && ValidRecord(fs.disk.guard.record)))
  {
    var read, missing, g := ReadGuard(fs);
    if missing { return true; }
    if !read { return false; }
    ok := FailClosedGuard(fs, g);
    if old(NoFallbackLinks(fs.disk, fs.fallbacks)) {
      assert !FallbackLink(old(fs.disk), fs.fallbacks, g.public);
      NoNewFallbackLink(old(fs.disk), fs.disk, fs.fallbacks, g.public);
    }
  }

  method ValidateGuard(fs: FileSystem, cfg: Config) returns (ok: bool)
    modifies fs`faults
    ensures fs.faults >= old(fs.faults)
    ensures ok ==> GuardFor(cfg).Some? && fs.disk.guard == Stored(GuardFor(cfg).value)
    ensures fs.faults == old(fs.faults) ==> (ok <==> GuardFor(cfg).Some? && fs.disk.guard == Stored(GuardFor(cfg).value))
  {
    var read, missing, g := ReadGuard(fs);
    if !read { return false; }
    match GuardFor(cfg)
    case None => return false;
    case Some(expected) => return g == expected;
  }

  /** Replace the guard file. It must not orphan a fallback link, so the caller has
      withdrawn all of them first. */
  method PersistGuard(fs: FileSystem, cfg: Config) returns (ok: bool)
    requires fs.Valid() && Respects(cfg, fs.fallbacks)
    requires NoFallbackLinks(fs.disk, fs.fallbacks)
    modifies fs
    ensures fs.Valid() && old(fs.history) <= fs.history
    ensures fs.disk.nodes == old(fs.disk.nodes)
    ensures ok ==> GuardFor(cfg).Some? && fs.disk.guard == Stored(GuardFor(cfg).value)
    ensures !ok && fs.disk.guard != old(fs.disk.guard) ==> fs.faults > old(fs.faults)
    ensures fs.faults >= old(fs.faults)
    ensures fs.faults == old(fs.faults) ==> (ok <==> GuardFor(cfg).Some?)
  {
    match GuardFor(cfg)
    case None => return false;
    case Some(g) =>
      var private := fs.Permitted();
      if !private { return false; }
      var renamed := fs.ReplaceGuard(g);
      if !renamed { return false; }
      ok := fs.Permitted();
  }

  method FailClosedBeforeStart(fs: FileSystem, cfg: Config) returns (ok: bool)
    requires fs.Valid() && Respects(cfg, fs.fallbacks)
    modifies fs
    ensures fs.Valid() && old(fs.history) <= fs.history
    ensures fs.disk.guard == old(fs.disk.guard)
    ensures OnlyPath(old(fs.disk), fs.disk, cfg.public)
    ensures fs.Node(cfg.public) in {old(fs.Node(cfg.public)), Missing, Link(cfg.piv)}
    ensures old(fs.Node(cfg.public)) != Link(cfg.fallback) ==> fs.disk == old(fs.disk)
    ensures ok && cfg.fallback != NoPath ==> fs.Node(cfg.public) != Link(cfg.fallback) || fs.faults > old(fs.faults)
    ensures fs.faults >= old(fs.faults)
    ensures fs.faults == old(fs.faults) && cfg.piv != NoPath && cfg.public != NoPath ==> ok
  {
    if cfg.fallback == NoPath { return true; }
    var found, node := fs.Lstat(cfg.public);
    if !found { return false; }
    if node == Missing { return true; }
    if !node.Link? { return true; }
    var owned := fs.Permitted();
    if !owned { return true; }
    var read, target := fs.Readlink(cfg.public);
    if !read || target != cfg.fallback { return read; }
    var safe := SafeFailClosedTarget(fs, cfg.piv, [cfg.fallback]);
    if safe {
      ok := AtomicRoute(fs, cfg.public, cfg.piv, {cfg.fallback});
    } else {
      ok := RemoveRecordedFallback(fs, cfg.public, cfg.fallback);
    }
  }
}
