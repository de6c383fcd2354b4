/** The part of the file system that the agent router touches: the public agent
    path, the sockets it may point to, and the route guard file.

    A `Disk` is a value, so that "what a crash leaves behind" is simply one of the
    disks the system went through. `FileSystem` is the mutable disk; each of its
    mutating operations is one system call and records the disk it produced. */
module RouteDisk {

  /** An absolute, cleaned path. `Temp` names are the ones `os.CreateTemp` invents;
      no configuration can name them. `NoPath` is the empty string. */
  datatype Path = NoPath | At(name: string) | Temp(serial: int)

  type ConfigPath = p: Path | !p.Temp? witness NoPath

  /** `inode` is the identity of a socket: another one at the same path is another file. */
  datatype Node = Missing | Link(target: Path) | Socket(live: bool, inode: nat) | Other

  datatype GuardRecord = GuardRecord(public: Path, piv: Path, fallback: Path)

  datatype GuardFile = NoGuard | Unreadable | Stored(record: GuardRecord)

  datatype Disk = Disk(nodes: map<Path, Node>, guard: GuardFile)

  function NodeAt(d: Disk, p: Path): Node {
    if p in d.nodes then d.nodes[p] else Missing
  }

  /** The path `os.Stat(p)` looks at: links are followed once. */
  function Resolve(d: Disk, p: Path): Path {
    match NodeAt(d, p)
    case Link(t) => t
    case _ => p
  }

  /** True when the public path `p` currently sends clients to a fallback socket. */
  ghost predicate FallbackLink(d: Disk, fallbacks: set<Path>, p: Path) {
    p.At? && NodeAt(d, p).Link? && NodeAt(d, p).target in fallbacks
  }

  /** Every fallback link on disk is exactly the pair named by the guard file, and
      the guard never proposes a fallback socket as the safe PIV target. */
  ghost predicate Guarded(d: Disk, fallbacks: set<Path>) {
    && (d.guard.Stored? ==> d.guard.record.piv !in fallbacks)
    && forall p :: FallbackLink(d, fallbacks, p) ==>
         && d.guard.Stored?
         && d.guard.record.public == p
         && d.guard.record.fallback == NodeAt(d, p).target
  }

  ghost predicate NoFallbackLinks(d: Disk, fallbacks: set<Path>) {
    forall p :: !FallbackLink(d, fallbacks, p)
  }

  /** The two disks hold the same nodes, except at the paths in `changed`. */
  ghost predicate SameExcept(before: Disk, after: Disk, changed: set<Path>) {
    forall q: Path :: q !in changed ==> NodeAt(after, q) == NodeAt(before, q)
  }

  /** Only temporary names and `p` may differ between the two disks. */
  ghost predicate OnlyPath(before: Disk, after: Disk, p: Path) {
    forall q: Path :: q != p && !q.Temp? ==> NodeAt(after, q) == NodeAt(before, q)
  }

  /** A disk stays guarded when only temporary names and `p` change, unless `p`
      becomes a fallback link that the guard does not name. */
  lemma GuardedStep(before: Disk, after: Disk, fallbacks: set<Path>, p: Path)
    requires Guarded(before, fallbacks) && after.guard == before.guard && OnlyPath(before, after, p)
    requires FallbackLink(after, fallbacks, p) ==>
               && after.guard.Stored?
               && after.guard.record.public == p
               && after.guard.record.fallback == NodeAt(after, p).target
    ensures Guarded(after, fallbacks)
  {
    forall q | FallbackLink(after, fallbacks, q)
      ensures after.guard.Stored? && after.guard.record.public == q && after.guard.record.fallback == NodeAt(after, q).target
    {
      if q != p {
        assert NodeAt(after, q) == NodeAt(before, q);
        assert FallbackLink(before, fallbacks, q);
      }
    }
  }

  /** The current disk, and every disk there ever was. `faults` counts system
      calls that failed although the disk itself gave no reason to. */
  class FileSystem {
    var disk: Disk
    var history: seq<Disk>
    ghost var faults: nat
    ghost const fallbacks: set<Path>

    constructor (initial: Disk, ghost fallbackSockets: set<Path>)
      requires Guarded(initial, fallbackSockets) && NoPath !in fallbackSockets
      ensures disk == initial && history == [initial] && fallbacks == fallbackSockets && faults == 0
      ensures Valid()
    {
      disk := initial;
      history := [initial];
      faults := 0;
      fallbacks := fallbackSockets;
    }

    /** The disk is guarded now and was guarded at every instant of the past. */
    ghost predicate Valid()
      reads this
    {
      && |history| > 0
      && history[|history| - 1] == disk
      && NoPath !in fallbacks
      && forall k :: 0 <= k < |history| ==> Guarded(history[k], fallbacks)
    }

    ghost function Node(p: Path): Node
      reads this`disk
    {
      NodeAt(disk, p)
    }

    /** `os.Lstat`; a missing file is an answer, any other failure is a fault. */
    method Lstat(p: Path) returns (ok: bool, node: Node)
      modifies this`faults
      ensures if ok then node == Node(p) && faults == old(faults) else faults > old(faults)
    {
      ok := *;
      node := Missing;
      if ok {
        node := NodeAt(disk, p);
      } else {
        faults := faults + 1;
      }
    }

    /** A check that the disk model does not decide: ownership, directory mode,
        directory sync. */
    method Permitted() returns (ok: bool)
      modifies this`faults
      ensures if ok then faults == old(faults) else faults > old(faults)
    {
      ok := *;
      if !ok {
        faults := faults + 1;
      }
    }

    /** `os.Readlink`, resolved to an absolute path. */
    method Readlink(p: Path) returns (ok: bool, target: Path)
      modifies this`faults
      ensures ok ==> Node(p) == Link(target) && faults == old(faults)
      ensures !ok ==> if Node(p).Link? then faults > old(faults) else faults == old(faults)
    {
      ok := *;
      target := NoPath;
      match NodeAt(disk, p)
      case Link(t) =>
        if ok {
          target := t;
        } else {
          faults := faults + 1;
        }
      case _ =>
        ok := false;
    }

    /** `os.Stat(p)` followed by `os.SameFile` against the node at `q`. */
    method SameFile(p: Path, q: Path) returns (same: bool)
      modifies this`faults
      ensures same ==> Resolve(disk, p) == q
      ensures !same && Resolve(disk, p) == q ==> faults > old(faults)
      ensures faults >= old(faults)
    {
      var ok: bool := *;
      same := ok && Resolve(disk, p) == q;
      if !ok {
        faults := faults + 1;
      }
    }

    /** Putting `node` at `p` keeps the disk guarded. */
    ghost predicate MayHold(p: Path, node: Node)
      reads this
    {
      p.At? && node.Link? && node.target in fallbacks ==>
        && disk.guard.Stored?
        && disk.guard.record.public == p
        && disk.guard.record.fallback == node.target
    }

    twostate lemma KeepValid(p: Path)
      requires Wrote(old(history), disk) && disk.guard == old(disk.guard) && OnlyPath(old(disk), disk, p)
      ensures old(Valid()) && MayHold(p, Node(p)) ==> Valid()
    {
      if old(Valid()) && MayHold(p, Node(p)) {
        GuardedStep(old(disk), disk, fallbacks, p);
      }
    }

    /** `os.CreateTemp` creates an empty file under a name that was free. */
    method CreateTemp() returns (ok: bool, temp: Path)
      modifies this
      ensures old(Valid()) ==> Valid()
      ensures temp.Temp?
      ensures ok ==> Wrote(old(history), old(disk).(nodes := old(disk).nodes[temp := Other])) && faults == old(faults)
      ensures ok ==> old(Node(temp)) == Missing
      ensures !ok ==> disk == old(disk) && history == old(history) && faults > old(faults)
    {
      var serial: int := *;
      temp := Temp(serial);
      ok := *;
      ok := ok && NodeAt(disk, temp) == Missing;
      if ok {
        Write(disk.(nodes := disk.nodes[temp := Other]));
        KeepValid(temp);
      } else {
        faults := faults + 1;
      }
    }

    method Symlink(target: Path, temp: Path) returns (ok: bool)
      requires temp.Temp?
      modifies this
      ensures old(Valid()) ==> Valid()
      ensures ok ==> Wrote(old(history), old(disk).(nodes := old(disk).nodes[temp := Link(target)])) && faults == old(faults)
      ensures !ok ==> disk == old(disk) && history == old(history) && faults > old(faults)
    {
      ok := *;
      if ok {
        Write(disk.(nodes := disk.nodes[temp := Link(target)]));
        KeepValid(temp);
      } else {
        faults := faults + 1;
      }
    }

    /** `os.Remove`: fails on a missing file without that being a fault. */
    method Remove(p: Path) returns (ok: bool)
      modifies this
      ensures old(Valid()) ==> Valid()
      ensures ok ==> Wrote(old(history), old(disk).(nodes := old(disk).nodes - {p})) && faults == old(faults) && old(Node(p)) != Missing
      ensures !ok ==> disk == old(disk) && history == old(history) &&
                      if old(Node(p)) == Missing then faults == old(faults) else faults > old(faults)
    {
      ok := *;
      if NodeAt(disk, p) == Missing {
        ok := false;
      } else if ok {
        Write(disk.(nodes := disk.nodes - {p}));
        KeepValid(p);
      } else {
        faults := faults + 1;
      }
    }

    /** `os.Rename` of one directory entry over another, in one step. */
    method Rename(from: Path, to: Path) returns (ok: bool)
      requires from.Temp?
      modifies this
      ensures old(Valid() && MayHold(to, Node(from))) ==> Valid()
      ensures ok ==> Wrote(old(history), old(disk).(nodes := (old(disk).nodes - {from})[to := old(Node(from))])) && faults == old(faults)
      ensures !ok ==> disk == old(disk) && history == old(history) && faults > old(faults)
    {
      ok := *;
      if ok {
        Write(disk.(nodes := (disk.nodes - {from})[to := NodeAt(disk, from)]));
        KeepValid(to);
      } else {
        faults := faults + 1;
      }
    }

    /** Write, sync and rename a new guard file into place, in one step. */
    method ReplaceGuard(record: GuardRecord) returns (ok: bool)
      modifies this
      ensures old(Valid() && NoFallbackLinks(disk, fallbacks)) && record.piv !in fallbacks ==> Valid()
      ensures ok ==> Wrote(old(history), old(disk).(guard := Stored(record))) && faults == old(faults)
      ensures !ok ==> disk == old(disk) && history == old(history) && faults > old(faults)
    {
      ok := *;
      if ok {
        Write(disk.(guard := Stored(record)));
        assert old(NoFallbackLinks(disk, fallbacks)) ==> NoFallbackLinks(disk, fallbacks) by {
          assert forall p :: FallbackLink(disk, fallbacks, p) ==> FallbackLink(old(disk), fallbacks, p);
        }
      } else {
        faults := faults + 1;
      }
    }

    /** The process dies: the disk is what it was at some instant since the history
        had length `since`. */
    method Crash(since: nat)
      requires Valid() && 1 <= since <= |history|
      modifies this`disk, this`history
      ensures Valid()
      ensures disk in old(history)[since - 1..]
      ensures history == old(history) + [disk]
    {
      var k: int := *;
      if !(since - 1 <= k < |history|) {
        k := |history| - 1;
      }
      Write(history[k]);
    }

    method Write(next: Disk)
      modifies this`disk, this`history
      ensures Wrote(old(history), next)
    {
      disk := next;
      history := history + [next];
    }

    ghost predicate Wrote(past: seq<Disk>, next: Disk)
      reads this
    {
      disk == next && history == past + [next]
    }
  }
}
