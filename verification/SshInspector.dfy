/** The walk over files and includes, refined to the flat list of directives that the
    configuration amounts to. */
module SshInspector {
  import opened Basics
  import opened SshArguments
  import opened SshConfig

  const MAX_DEPTH := 32

  datatype File = File(lines: seq<string>, broken: bool)

  /** The file system, and what names mean. Include patterns are already relative to the
      configuration directory once expanded. */
  datatype World = World(
    present: string -> bool,
    resolve: string -> Option<string>,
    open: string -> Option<File>,
    expand: string -> Option<seq<string>>,
    glob: Glob,
    targets: Targets)

  // ---- lines ----------------------------------------------------------------------------

  datatype Line = Skipped | Malformed | Include(patterns: seq<string>) | One(directive: Directive)

  predicate Contains(s: string, part: string) {
    part <= s || (s != [] && Contains(s[1..], part))
  }

  function ReadLine(text: string): Line {
    var line := Trim(text);
    if line == "" || line[0] == '#' then Skipped
    else
      match SplitDirective(line)
      case None => Skipped
      case Some(split) =>
        var words := Words(Start, split.1);
        if words.None? || words.value == [] then Malformed else Meaning(line, split.0, words.value)
  }

  function Meaning(line: string, name: string, words: seq<string>): Line
    requires words != []
  {
    if name == "include" then Include(words)
    else if name == "host" then One(Host(words))
    else if name == "match" then One(Match(Contains(Lower(line), "exec") && Contains(Lower(line), "yubitouch")))
    else if name == "identityagent" then One(IdentityAgent(words[0]))
    else if name == "identityfile" then One(IdentityFile(words[0]))
    else if name == "identitiesonly" then One(IdentitiesOnly(Lower(words[0]) == "yes"))
    else Skipped
  }

  // ---- the flat configuration -------------------------------------------------------------

  type Flat = Option<seq<Directive>>

  /** All parts one after the other; None if any part fails. */
  function Join(parts: seq<Flat>): Flat {
    if parts == [] then Some([])
    else
      match Join(parts[..|parts| - 1])
      case None => None
      case Some(ds) =>
        match parts[|parts| - 1]
        case None => None
        case Some(es) => Some(ds + es)
  }

  /** A file's directives with its includes in place. `stack` holds the files being read:
      an include cycle, like too deep a nesting, is an error. */
  function FlatFile(w: World, path: string, depth: nat, stack: set<string>): Flat
    decreases MAX_DEPTH - depth, 1
  {
    if depth >= MAX_DEPTH then None
    else
      match w.resolve(path)
      case None => None
      case Some(target) =>
        if target in stack then None
        else
          match w.open(target)
          case None => None
          case Some(f) => if f.broken then None else Join(FlatLines(w, f.lines, depth, stack + {target}))
  }

  function FlatLines(w: World, lines: seq<string>, depth: nat, stack: set<string>): (r: seq<Flat>)
    requires depth < MAX_DEPTH
    ensures |r| == |lines|
    decreases MAX_DEPTH - depth, 0
  {
    seq(|lines|, i requires 0 <= i < |lines| => FlatLine(w, lines[i], depth, stack))
  }

  function FlatLine(w: World, text: string, depth: nat, stack: set<string>): Flat
    requires depth < MAX_DEPTH
    decreases MAX_DEPTH - depth - 1, 4
  {
    match ReadLine(text)
    case Skipped => Some([])
    case Malformed => None
    case One(d) => Some([d])
    case Include(patterns) => Join(FlatPatterns(w, patterns, depth + 1, stack))
  }

  function FlatPatterns(w: World, patterns: seq<string>, depth: nat, stack: set<string>): (r: seq<Flat>)
    requires depth <= MAX_DEPTH
    ensures |r| == |patterns|
    decreases MAX_DEPTH - depth, 3
  {
    seq(|patterns|, i requires 0 <= i < |patterns| =>
      match w.expand(patterns[i])
      case None => None
      case Some(paths) => Join(FlatPaths(w, paths, depth, stack)))
  }

  function FlatPaths(w: World, paths: seq<string>, depth: nat, stack: set<string>): (r: seq<Flat>)
    requires depth <= MAX_DEPTH
    ensures |r| == |paths|
    decreases MAX_DEPTH - depth, 2
  {
    seq(|paths|, i requires 0 <= i < |paths| => FlatFile(w, paths[i], depth, stack))
  }

  /** A flat part, applied to a state of the inspector. */
  function Outcome(w: World, s: State, flat: Flat): Option<State> {
    match flat
    case None => None
    case Some(ds) => ApplyAll(w.glob, w.targets, s, ds)
  }

  lemma {:induction false} ApplyAllConcat(glob: Glob, targets: Targets, s: State, ds: seq<Directive>, es: seq<Directive>)
    ensures ApplyAll(glob, targets, s, ds + es) ==
              match ApplyAll(glob, targets, s, ds)
              case None => None
              case Some(t) => ApplyAll(glob, targets, t, es)
  {
    if es == [] {
      assert ds + es == ds;
    } else {
      ApplyAllConcat(glob, targets, s, ds, es[..|es| - 1]);
      assert (ds + es)[..|ds + es| - 1] == ds + es[..|es| - 1];
    }
  }

  /** Applying a longer list of parts is applying its last part on top. */
  lemma OutcomeStep(w: World, s: State, parts: seq<Flat>, i: nat)
    requires i < |parts| && Outcome(w, s, Join(parts[..i])).Some?
    ensures Outcome(w, s, Join(parts[..i + 1])) == Outcome(w, Outcome(w, s, Join(parts[..i])).value, parts[i])
  {
    assert parts[..i + 1][..i] == parts[..i];
    if parts[i].Some? {
      ApplyAllConcat(w.glob, w.targets, s, Join(parts[..i]).value, parts[i].value);
    }
  }

  /** A failure among the first parts is a failure of the whole. */
  lemma {:induction false} OutcomeFails(w: World, s: State, parts: seq<Flat>, i: nat)
    requires i <= |parts| && Outcome(w, s, Join(parts[..i])).None?
    ensures Outcome(w, s, Join(parts)).None?
    decreases |parts| - i
  {
    if i == |parts| {
      assert parts[..i] == parts;
    } else {
      assert parts[..i + 1][..i] == parts[..i];
      if Join(parts[..i]).Some? && parts[i].Some? {
        ApplyAllConcat(w.glob, w.targets, s, Join(parts[..i]).value, parts[i].value);
      }
      OutcomeFails(w, s, parts, i + 1);
    }
  }

  // ---- the inspector --------------------------------------------------------------------

  class Inspector {
    const w: World
    var block: Block
    var blocks: seq<Block>
    var report: Report
    var stack: set<string>

    function View(): State
      reads this
    {
      State(block, blocks, report)
    }

    constructor (w: World)
      ensures View() == Initial && stack == {} && this.w == w
    {
      this.w, block, blocks, report, stack := w, Initial.block, [], Initial.report, {};
    }

    /** The block joins the others, and may settle the verdict for good. */
    method FinishBlock() returns (ok: bool)
      modifies this`blocks, this`report
      ensures if ok then Finish(w.glob, old(View())) == Some(View()) else Finish(w.glob, old(View())) == None
    {
      blocks := blocks + [block];
      if !LocallySafe(block) {
        return true;
      }
      if block.kind == GlobalBlock {
        report := report.(safe := true);
        return true;
      }
      var candidates := LiteralHostCandidates(w.glob, block.patterns);
      if candidates == [] {
        return true;
      }
      var safe := CandidatesSafe(candidates);
      if safe == Some(true) {
        report := report.(safe := true);
      }
      return safe.Some?;
    }

    method CandidatesSafe(candidates: seq<string>) returns (r: Option<bool>)
      ensures r == AllSafe(w.glob, blocks, candidates)
    {
      for i := 0 to |candidates|
        invariant AllSafe(w.glob, blocks, candidates) == AllSafe(w.glob, blocks, candidates[i..])
      {
        assert candidates[i..][0] == candidates[i] && candidates[i..][1..] == candidates[i + 1..];
        var safe := PublicIdentityConfigSafeForHost(w.glob, blocks, candidates[i]);
        if safe.None? || !safe.value {
          return safe;
        }
      }
      return Some(true);
    }

    /** One directive that is not an include. */
    method Obey(d: Directive) returns (ok: bool)
      modifies this`block, this`blocks, this`report
      ensures Apply(w.glob, w.targets, old(View()), d) == if ok then Some(View()) else None
    {
      match d
      case Host(patterns) =>
        if !ValidPatterns(w.glob, patterns) {
          return false;
        }
        ok := FinishBlock();
        if ok {
          block := NewBlock.(kind := HostBlock, patterns := patterns);
        }
      case Match(exec) =>
        ok := FinishBlock();
        if ok {
          block := NewBlock.(kind := MatchBlock);
          report := report.(matchExec := report.matchExec || exec);
        }
      case _ =>
        SetField(d);
        ok := true;
    }

    method SetField(d: Directive)
      requires !d.Host? && !d.Match?
      modifies this`block, this`report
      ensures block == SetBlock(w.targets, old(block), d) && report == SetReport(w.targets, old(report), d)
    {
      NoteInReport(d);
      NoteInBlock(d);
    }

    /** The report remembers any value. */
    method NoteInReport(d: Directive)
      requires !d.Host? && !d.Match?
      modifies this`report
      ensures report == SetReport(w.targets, old(report), d)
    {
      match d
      case IdentityAgent(a) =>
        report := report.(publicAgent := report.publicAgent || w.targets.isPublic(a),
                          pivAgent := report.pivAgent || w.targets.isPiv(a),
                          backend := report.backend || w.targets.isBackend(a));
      case IdentityFile(a) =>
        report := report.(publicFile := report.publicFile || w.targets.isPublicFile(a));
      case IdentitiesOnly(yes) =>
        report := report.(identitiesOnly := report.identitiesOnly || yes);
    }

    /** The first value in a block stays. */
    method NoteInBlock(d: Directive)
      requires !d.Host? && !d.Match?
      modifies this`block
      ensures block == SetBlock(w.targets, old(block), d)
    {
      match d
      case IdentityAgent(a) =>
        if block.agent.None? {
          block := block.(agent := Some(w.targets.isPublic(a)));
        }
      case IdentityFile(a) =>
        block := block.(publicFile := block.publicFile || w.targets.isPublicFile(a));
      case IdentitiesOnly(yes) =>
        if block.only.None? {
          block := block.(only := Some(yes));
        }
    }

    /** Reading a file does to the inspector what its flat directives do, in that order;
        the nesting is bounded, and the stack is as before. */
    method InspectFile(path: string, depth: nat) returns (ok: bool)
      requires depth <= MAX_DEPTH
      modifies this
      ensures stack == old(stack)
      ensures Outcome(w, old(View()), FlatFile(w, path, depth, old(stack))) == if ok then Some(View()) else None
      decreases MAX_DEPTH - depth, 1
    {
      if depth >= MAX_DEPTH {
        return false;
      }
      var target := w.resolve(path);
      if target.None? || target.value in stack {
        return false;
      }
      var file := w.open(target.value);
      if file.None? {
        return false;
      }
      stack := stack + {target.value};
      ok := InspectLines(file.value.lines, depth);
      stack := stack - {target.value};
      ok := ok && !file.value.broken;
    }

    method InspectLines(lines: seq<string>, depth: nat) returns (ok: bool)
      requires depth < MAX_DEPTH
      modifies this
      ensures stack == old(stack)
      ensures Outcome(w, old(View()), Join(FlatLines(w, lines, depth, stack))) == if ok then Some(View()) else None
      decreases MAX_DEPTH - depth, 0
    {
      ghost var parts := FlatLines(w, lines, depth, stack);
      for i := 0 to |lines|
        invariant stack == old(stack)
        invariant Outcome(w, old(View()), Join(parts[..i])) == Some(View())
      {
        OutcomeStep(w, old(View()), parts, i);
        ok := InspectLine(lines[i], depth);
        if !ok {
          OutcomeFails(w, old(View()), parts, i + 1);
          return false;
        }
      }
      assert parts[..|lines|] == parts;
      return true;
    }

    method InspectLine(text: string, depth: nat) returns (ok: bool)
      requires depth < MAX_DEPTH
      modifies this
      ensures stack == old(stack)
      ensures Outcome(w, old(View()), FlatLine(w, text, depth, stack)) == if ok then Some(View()) else None
      decreases MAX_DEPTH - depth - 1, 4
    {
      match ReadLine(text)
      case Skipped => ok := true;
      case Malformed => ok := false;
      case One(d) =>
        ApplyOne(w.glob, w.targets, View(), [], d);
        assert [] + [d] == [d];
        ok := Obey(d);
      case Include(patterns) =>
        ok := InspectPatterns(patterns, depth + 1);
    }

    method InspectPatterns(patterns: seq<string>, depth: nat) returns (ok: bool)
      requires depth <= MAX_DEPTH
      modifies this
      ensures stack == old(stack)
      ensures Outcome(w, old(View()), Join(FlatPatterns(w, patterns, depth, stack))) == if ok then Some(View()) else None
      decreases MAX_DEPTH - depth, 3
    {
      ghost var parts := FlatPatterns(w, patterns, depth, stack);
      for i := 0 to |patterns|
        invariant stack == old(stack)
        invariant Outcome(w, old(View()), Join(parts[..i])) == Some(View())
      {
        OutcomeStep(w, old(View()), parts, i);
        var paths := w.expand(patterns[i]);
        ok := false;
        if paths.Some? {
          ok := InspectPaths(paths.value, depth);
        }
        if !ok {
          OutcomeFails(w, old(View()), parts, i + 1);
          return false;
        }
      }
      assert parts[..|patterns|] == parts;
      return true;
    }

    method InspectPaths(paths: seq<string>, depth: nat) returns (ok: bool)
      requires depth <= MAX_DEPTH
      modifies this
      ensures stack == old(stack)
      ensures Outcome(w, old(View()), Join(FlatPaths(w, paths, depth, stack))) == if ok then Some(View()) else None
      decreases MAX_DEPTH - depth, 2
    {
      ghost var parts := FlatPaths(w, paths, depth, stack);
      for i := 0 to |paths|
        invariant stack == old(stack)
        invariant Outcome(w, old(View()), Join(parts[..i])) == Some(View())
      {
        OutcomeStep(w, old(View()), parts, i);
        ok := InspectFile(paths[i], depth);
        if !ok {
          OutcomeFails(w, old(View()), parts, i + 1);
          return false;
        }
      }
      assert parts[..|paths|] == parts;
      return true;
    }
  }

  // ---- the whole inspection -----------------------------------------------------------------

  function FlatConfig(w: World, path: string): Flat {
    FlatFile(w, path, 0, {})
  }

  /** Reading and judging in one pass gives what judging the complete flat configuration
      gives; any error withdraws a safe verdict. */
  method InspectSshConfig(w: World, path: string) returns (report: Report, ok: bool, ghost blocks: seq<Block>)
    ensures !w.present(path) ==> ok && report == Initial.report
    ensures w.present(path) ==>
              match FlatConfig(w, path)
              case None => !ok
              case Some(ds) =>
                if ok then
                  && Inspected(w.glob, w.targets, ds).Some?
                  && Inspected(w.glob, w.targets, ds).value.report == report
                  && Inspected(w.glob, w.targets, ds).value.blocks == blocks
                else Inspected(w.glob, w.targets, ds).None?
    ensures !ok ==> !report.safe
    ensures report.safe ==> exists host :: Promise(w.glob, blocks, host)
  {
    blocks := [];
    if !w.present(path) {
      return Initial.report, true, [];
    }
    var inspector := new Inspector(w);
    ok := inspector.InspectFile(path, 0);
    if ok {
      ok := inspector.FinishBlock();
    }
    report, blocks := inspector.report, inspector.blocks;
    if !ok {
      report := report.(safe := false);
    } else if report.safe {
      var host := VerdictIsStable(w.glob, w.targets, FlatConfig(w, path).value);
    }
  }
}
