/** The ssh configuration inspector. It walks files and includes line by line, keeps the
    blocks it has closed, and may call the configuration safe long before it has read
    all of it. */
module SshConfig {
  import opened Basics
  import opened SshArguments

  datatype Kind = GlobalBlock | HostBlock | MatchBlock

  /** What a block sets first; None if it does not set it. */
  datatype Block = Block(kind: Kind, patterns: seq<string>, agent: Option<bool>, only: Option<bool>, publicFile: bool)

  datatype Report = Report(
    publicAgent: bool, pivAgent: bool, backend: bool, publicFile: bool, identitiesOnly: bool, safe: bool, matchExec: bool)

  /** None stands for a malformed pattern. */
  type Glob = (string, string) -> Option<bool>

  datatype Targets = Targets(
    isPublic: string -> bool, isPiv: string -> bool, isBackend: string -> bool, isPublicFile: string -> bool)

  // ---- host patterns ------------------------------------------------------------------

  function SplitPattern(p: string): (bool, string) {
    if p != [] && p[0] == '!' then (true, p[1..]) else (false, p)
  }

  /** Whether a Host line applies: no negated pattern matches, and some other one does. */
  function HostMatches(glob: Glob, patterns: seq<string>, host: string, positive: bool): Option<bool> {
    if patterns == [] then Some(positive)
    else
      var (negated, pattern) := SplitPattern(patterns[0]);
      match glob(Lower(pattern), host)
      case None => None
      case Some(matches) =>
        if negated && matches then Some(false) else HostMatches(glob, patterns[1..], host, positive || (!negated && matches))
  }

  method HostBlockMatches(glob: Glob, patterns: seq<string>, host: string) returns (r: Option<bool>)
    ensures r == HostMatches(glob, patterns, Lower(host), false)
  {
    var positive := false;
    var lowered := Lower(host);
    for i := 0 to |patterns|
      invariant HostMatches(glob, patterns, lowered, false) == HostMatches(glob, patterns[i..], lowered, positive)
    {
      assert patterns[i..][0] == patterns[i] && patterns[i..][1..] == patterns[i + 1..];
      var (negated, pattern) := SplitPattern(patterns[i]);
      var matches := glob(Lower(pattern), lowered);
      if matches.None? {
        return None;
      }
      if negated && matches.value {
        return Some(false);
      }
      positive := positive || (!negated && matches.value);
    }
    return Some(positive);
  }

  /** A pattern without wildcards, with its escapes resolved. */
  function Unescape(pattern: string, escaped: bool): Option<string> {
    if pattern == [] then if escaped then None else Some("")
    else if !escaped && pattern[0] == '\\' then Unescape(pattern[1..], true)
    else if !escaped && (pattern[0] == '*' || pattern[0] == '?' || pattern[0] == '[') then None
    else
      Prepend([pattern[0]], Unescape(pattern[1..], false))
  }

  function Prepend(text: string, rest: Option<string>): Option<string> {
    if rest.None? then None else Some(text + rest.value)
  }

  lemma PrependMore(text: string, c: char, rest: Option<string>)
    ensures Prepend("", rest) == rest
    ensures Prepend(text, Prepend([c], rest)) == Prepend(text + [c], rest)
  {
    if rest.Some? {
      assert "" + rest.value == rest.value;
      assert text + ([c] + rest.value) == text + [c] + rest.value;
    }
  }

  function Literal(pattern: string): Option<string> {
    var text := Unescape(pattern, false);
    if text == Some("") then None else text
  }

  method LiteralHostPattern(pattern: string) returns (r: Option<string>)
    ensures r == Literal(pattern)
  {
    var literal, escaped := "", false;
    PrependMore("", ' ', Unescape(pattern, false));
    for i := 0 to |pattern|
      invariant Unescape(pattern, false) == Prepend(literal, Unescape(pattern[i..], escaped))
    {
      PrependMore(literal, pattern[i], Unescape(pattern[i + 1..], false));
      var c := pattern[i];
      assert pattern[i..][0] == c && pattern[i..][1..] == pattern[i + 1..];
      if escaped {
        literal, escaped := literal + [c], false;
      } else if c == '\\' {
        escaped := true;
      } else if c == '*' || c == '?' || c == '[' {
        return None;
      } else {
        literal := literal + [c];
      }
    }
    assert pattern[|pattern|..] == "" && literal + "" == literal;
    return if !escaped && literal != "" then Some(literal) else None;
  }

  /** The host a pattern names outright, if the whole Host line accepts it. */
  function Candidate(glob: Glob, patterns: seq<string>, p: string): Option<string> {
    var (negated, pattern) := SplitPattern(p);
    if negated || Literal(pattern).None? then None
    else
      var host := Lower(Literal(pattern).value);
      if HostMatches(glob, patterns, Lower(host), false) == Some(true) then Some(host) else None
  }

  /** Each candidate once, in order, among the first patterns of a Host line. */
  function Candidates(glob: Glob, patterns: seq<string>, n: nat): (r: seq<string>)
    requires n <= |patterns|
    ensures forall h :: h in r ==> HostMatches(glob, patterns, Lower(h), false) == Some(true)
  {
    if n == 0 then []
    else
      var before := Candidates(glob, patterns, n - 1);
      var c := Candidate(glob, patterns, patterns[n - 1]);
      if c.Some? && c.value !in before then before + [c.value] else before
  }

  method LiteralHostCandidates(glob: Glob, patterns: seq<string>) returns (candidates: seq<string>)
    ensures candidates == Candidates(glob, patterns, |patterns|)
  {
    candidates := [];
    for i := 0 to |patterns|
      invariant candidates == Candidates(glob, patterns, i)
    {
      var (negated, pattern) := SplitPattern(patterns[i]);
      if negated {
        continue;
      }
      var literal := LiteralHostPattern(pattern);
      if literal.None? {
        continue;
      }
      var candidate := Lower(literal.value);
      var matches := HostBlockMatches(glob, patterns, candidate);
      if matches == Some(true) && candidate !in candidates {
        candidates := candidates + [candidate];
      }
    }
  }

  predicate ValidPatterns(glob: Glob, patterns: seq<string>) {
    forall p :: p in patterns ==> SplitPattern(p).1 != "" && glob(Lower(SplitPattern(p).1), "").Some?
  }

  // ---- first value wins -----------------------------------------------------------------

  datatype Field = Agent | Only

  function Setting(b: Block, field: Field): Option<bool> {
    match field
    case Agent => b.agent
    case Only => b.only
  }

  /** Whether the block at position `n` applies to `host`; `matched` says which Match
      blocks do. */
  predicate Applies(glob: Glob, b: Block, host: string, matched: bool) {
    match b.kind
    case GlobalBlock => true
    case MatchBlock => matched
    case HostBlock => HostMatches(glob, b.patterns, Lower(host), false) == Some(true)
  }

  /** ssh's own rule: of the blocks that apply, the first that sets a field decides. */
  function Decided(glob: Glob, blocks: seq<Block>, host: string, matched: nat -> bool, field: Field): Option<bool> {
    if blocks == [] then None
    else
      var last := |blocks| - 1;
      var before := Decided(glob, blocks[..last], host, matched, field);
      if before.Some? then before
      else if Applies(glob, blocks[last], host, matched(last)) then Setting(blocks[last], field)
      else None
  }

  /** The effective settings are the public agent and IdentitiesOnly yes. */
  predicate Effective(glob: Glob, blocks: seq<Block>, host: string, matched: nat -> bool) {
    && Decided(glob, blocks, host, matched, Agent) == Some(true)
    && Decided(glob, blocks, host, matched, Only) == Some(true)
  }

  /** Some block that certainly applies to `host` lists the public identity file. */
  predicate ListsIdentity(glob: Glob, blocks: seq<Block>, host: string) {
    exists k :: 0 <= k < |blocks| && blocks[k].publicFile && blocks[k].kind != MatchBlock && Applies(glob, blocks[k], host, false)
  }

  const Every: nat -> bool := n => true
  const Never: nat -> bool := n => false

  /** Every Host line can be evaluated for `host`. */
  predicate Evaluable(glob: Glob, blocks: seq<Block>, host: string) {
    forall b :: b in blocks && b.kind == HostBlock ==> HostMatches(glob, b.patterns, Lower(host), false).Some?
  }

  /** What the inspector computes for one host: None when a pattern is malformed. */
  function SafeFor(glob: Glob, blocks: seq<Block>, host: string): Option<bool> {
    if Evaluable(glob, blocks, host) then Some(Effective(glob, blocks, host, Every)) else None
  }

  method PublicIdentityConfigSafeForHost(glob: Glob, blocks: seq<Block>, host: string) returns (r: Option<bool>)
    ensures r == SafeFor(glob, blocks, host)
  {
    var agent, only: Option<bool> := None, None;
    for i := 0 to |blocks|
      invariant Evaluable(glob, blocks[..i], host)
      invariant agent == Decided(glob, blocks[..i], host, Every, Agent)
      invariant only == Decided(glob, blocks[..i], host, Every, Only)
    {
      assert blocks[..i + 1][..i] == blocks[..i];
      assert Every(i);
      var block := blocks[i];
      var matches := block.kind != HostBlock;
      if block.kind == HostBlock {
        var hit := HostBlockMatches(glob, block.patterns, host);
        if hit.None? {
          assert block in blocks;
          return None;
        }
        matches := hit.value;
      }
      if matches && agent.None? {
        agent := block.agent;
      }
      if matches && only.None? {
        only := block.only;
      }
    }
    assert blocks[..|blocks|] == blocks;
    return Some(agent == Some(true) && only == Some(true));
  }

  // ---- the inspector as a function on directives -------------------------------------------

  datatype Directive =
    | Host(patterns: seq<string>)
    | Match(exec: bool)
    | IdentityAgent(argument: string)
    | IdentityFile(argument: string)
    | IdentitiesOnly(yes: bool)

  datatype State = State(block: Block, blocks: seq<Block>, report: Report)

  const NewBlock := Block(GlobalBlock, [], None, None, false)
  const Initial := State(NewBlock, [], Report(false, false, false, false, false, false, false))

  predicate LocallySafe(b: Block) {
    b.kind != MatchBlock && b.agent == Some(true) && b.publicFile && b.only == Some(true)
  }

  function AllSafe(glob: Glob, blocks: seq<Block>, hosts: seq<string>): Option<bool> {
    if hosts == [] then Some(true)
    else
      match SafeFor(glob, blocks, hosts[0])
      case None => None
      case Some(safe) => if safe then AllSafe(glob, blocks, hosts[1..]) else Some(false)
  }

  /** Closing a block: it joins the others, and it may settle the verdict. */
  function Finish(glob: Glob, s: State): Option<State> {
    var t := s.(blocks := s.blocks + [s.block]);
    if !LocallySafe(s.block) then Some(t)
    else if s.block.kind == GlobalBlock then Some(t.(report := t.report.(safe := true)))
    else
      var hosts := Candidates(glob, s.block.patterns, |s.block.patterns|);
      match AllSafe(glob, t.blocks, hosts)
      case None => None
      case Some(safe) => Some(if hosts != [] && safe then t.(report := t.report.(safe := true)) else t)
  }

  function First(now: Option<bool>, value: bool): Option<bool> {
    if now.Some? then now else Some(value)
  }

  /** Within a block the first value stays; */
  function SetBlock(targets: Targets, b: Block, d: Directive): Block {
    match d
    case IdentityAgent(a) => b.(agent := First(b.agent, targets.isPublic(a)))
    case IdentityFile(a) => b.(publicFile := b.publicFile || targets.isPublicFile(a))
    case IdentitiesOnly(yes) => b.(only := First(b.only, yes))
    case _ => b
  }

  /** the report remembers any. */
  function SetReport(targets: Targets, r: Report, d: Directive): Report {
    match d
    case IdentityAgent(a) =>
      r.(publicAgent := r.publicAgent || targets.isPublic(a), pivAgent := r.pivAgent || targets.isPiv(a),
         backend := r.backend || targets.isBackend(a))
    case IdentityFile(a) => r.(publicFile := r.publicFile || targets.isPublicFile(a))
    case IdentitiesOnly(yes) => r.(identitiesOnly := r.identitiesOnly || yes)
    case _ => r
  }

  function Set(targets: Targets, s: State, d: Directive): State {
    s.(block := SetBlock(targets, s.block, d), report := SetReport(targets, s.report, d))
  }

  function Apply(glob: Glob, targets: Targets, s: State, d: Directive): Option<State> {
    match d
    case Host(patterns) =>
      if !ValidPatterns(glob, patterns) then None
      else
        (match Finish(glob, s)
         case None => None
         case Some(t) => Some(t.(block := NewBlock.(kind := HostBlock, patterns := patterns))))
    case Match(exec) =>
      (match Finish(glob, s)
       case None => None
       case Some(t) =>
         Some(t.(block := NewBlock.(kind := MatchBlock), report := t.report.(matchExec := t.report.matchExec || exec))))
    case _ => Some(Set(targets, s, d))
  }

  function ApplyAll(glob: Glob, targets: Targets, s: State, ds: seq<Directive>): Option<State> {
    if ds == [] then Some(s)
    else
      match ApplyAll(glob, targets, s, ds[..|ds| - 1])
      case None => None
      case Some(t) => Apply(glob, targets, t, ds[|ds| - 1])
  }

  lemma ApplyOne(glob: Glob, targets: Targets, s: State, ds: seq<Directive>, d: Directive)
    requires ApplyAll(glob, targets, s, ds).Some?
    ensures ApplyAll(glob, targets, s, ds + [d]) == Apply(glob, targets, ApplyAll(glob, targets, s, ds).value, d)
  {
    assert (ds + [d])[..|ds|] == ds;
  }

  // ---- what a verdict promises -------------------------------------------------------------

  /** Later blocks never change what is decided. */
  lemma {:induction false} DecidedStays(glob: Glob, blocks: seq<Block>, more: seq<Block>, host: string, matched: nat -> bool, field: Field)
    requires Decided(glob, blocks, host, matched, field).Some?
    ensures Decided(glob, blocks + more, host, matched, field) == Decided(glob, blocks, host, matched, field)
  {
    if more == [] {
      assert blocks + more == blocks;
    } else {
      var shorter := more[..|more| - 1];
      DecidedStays(glob, blocks, shorter, host, matched, field);
      assert (blocks + more)[..|blocks + more| - 1] == blocks + shorter;
    }
  }

  lemma PromiseStays(glob: Glob, blocks: seq<Block>, more: seq<Block>, host: string)
    requires Promise(glob, blocks, host)
    ensures Promise(glob, blocks + more, host)
  {
    DecidedStays(glob, blocks, more, host, Every, Agent);
    DecidedStays(glob, blocks, more, host, Every, Only);
    var k :| 0 <= k < |blocks| && blocks[k].publicFile && blocks[k].kind != MatchBlock && Applies(glob, blocks[k], host, false);
    assert (blocks + more)[k] == blocks[k];
  }

  /** With every Match block taken to apply, `host` gets the public agent and
      IdentitiesOnly yes, and the public identity file is listed for it. */
  predicate Promise(glob: Glob, blocks: seq<Block>, host: string) {
    Effective(glob, blocks, host, Every) && ListsIdentity(glob, blocks, host)
  }

  ghost predicate StateInv(glob: Glob, s: State) {
    && (s.block.kind == GlobalBlock <==> s.blocks == [])
    && (forall k :: 0 <= k < |s.blocks| && s.blocks[k].kind == GlobalBlock ==> k == 0)
    && (s.report.safe ==> exists host :: Promise(glob, s.blocks, host))
  }

  lemma {:induction false} AllSafeMeans(glob: Glob, blocks: seq<Block>, hosts: seq<string>)
    requires AllSafe(glob, blocks, hosts) == Some(true)
    ensures forall h :: h in hosts ==> Effective(glob, blocks, h, Every)
  {
    if hosts != [] {
      AllSafeMeans(glob, blocks, hosts[1..]);
    }
  }

  /** A block on its own decides for every host when it is the global one. */
  lemma GlobalDecides(glob: Glob, b: Block, host: string, matched: nat -> bool, field: Field)
    requires b.kind == GlobalBlock
    ensures Decided(glob, [b], host, matched, field) == Setting(b, field)
  {
    assert [b][..0] == [];
  }

  lemma FinishKeeps(glob: Glob, s: State)
    requires StateInv(glob, s) && Finish(glob, s).Some?
    ensures var t := Finish(glob, s).value;
            && t.blocks == s.blocks + [s.block] && t.block == s.block
            && (t.report.safe ==> exists host :: Promise(glob, t.blocks, host))
  {
    var t := Finish(glob, s).value;
    if s.report.safe {
      var host :| Promise(glob, s.blocks, host);
      PromiseStays(glob, s.blocks, [s.block], host);
    } else if t.report.safe {
      assert t.blocks[|s.blocks|] == s.block;
      if s.block.kind == GlobalBlock {
        assert t.blocks == [s.block];
        GlobalDecides(glob, s.block, "", Every, Agent);
        GlobalDecides(glob, s.block, "", Every, Only);
        assert Promise(glob, t.blocks, "");
      } else {
        var hosts := Candidates(glob, s.block.patterns, |s.block.patterns|);
        AllSafeMeans(glob, t.blocks, hosts);
        assert Promise(glob, t.blocks, hosts[0]);
      }
    }
  }

  lemma {:induction false} ApplyAllKeeps(glob: Glob, targets: Targets, ds: seq<Directive>)
    requires ApplyAll(glob, targets, Initial, ds).Some?
    ensures StateInv(glob, ApplyAll(glob, targets, Initial, ds).value)
  {
    if ds != [] {
      var before := ds[..|ds| - 1];
      ApplyAllKeeps(glob, targets, before);
      var s := ApplyAll(glob, targets, Initial, before).value;
      if ds[|ds| - 1].Host? || ds[|ds| - 1].Match? {
        FinishKeeps(glob, s);
      }
    }
  }

  /** The whole of an inspected configuration. */
  function Inspected(glob: Glob, targets: Targets, ds: seq<Directive>): Option<State> {
    match ApplyAll(glob, targets, Initial, ds)
    case None => None
    case Some(s) => Finish(glob, s)
  }

  /** A safe verdict, whenever it was reached, holds of the complete configuration for
      some host, if every Match block is taken to apply. */
  lemma VerdictIsStable(glob: Glob, targets: Targets, ds: seq<Directive>) returns (host: string)
    requires Inspected(glob, targets, ds).Some? && Inspected(glob, targets, ds).value.report.safe
    ensures Promise(glob, Inspected(glob, targets, ds).value.blocks, host)
  {
    ApplyAllKeeps(glob, targets, ds);
    FinishKeeps(glob, ApplyAll(glob, targets, Initial, ds).value);
    host :| Promise(glob, Inspected(glob, targets, ds).value.blocks, host);
  }

  // ---- Match blocks ---------------------------------------------------------------------------

  /** Decided to `true` whatever Match blocks apply. */
  predicate AlwaysTrue(glob: Glob, blocks: seq<Block>, host: string, field: Field) {
    if blocks == [] then false
    else
      var before, b := blocks[..|blocks| - 1], blocks[|blocks| - 1];
      AlwaysTrue(glob, before, host, field) ||
      (NeverFalse(glob, before, host, field) && Applies(glob, b, host, false) && Setting(b, field) == Some(true))
  }

  /** Never decided to `false`. */
  predicate NeverFalse(glob: Glob, blocks: seq<Block>, host: string, field: Field) {
    if blocks == [] then true
    else
      var before, b := blocks[..|blocks| - 1], blocks[|blocks| - 1];
      AlwaysTrue(glob, before, host, field) ||
      (NeverFalse(glob, before, host, field) && (Applies(glob, b, host, true) ==> Setting(b, field) != Some(false)))
  }

  /** Only the answers for the blocks themselves matter. */
  lemma {:induction false} DecidedLocally(glob: Glob, blocks: seq<Block>, host: string, m: nat -> bool, n: nat -> bool, field: Field)
    requires forall k :: 0 <= k < |blocks| ==> m(k) == n(k)
    ensures Decided(glob, blocks, host, m, field) == Decided(glob, blocks, host, n, field)
  {
    if blocks != [] {
      DecidedLocally(glob, blocks[..|blocks| - 1], host, m, n, field);
    }
  }

  lemma {:induction false} SureIsSound(glob: Glob, blocks: seq<Block>, host: string, matched: nat -> bool, field: Field)
    ensures AlwaysTrue(glob, blocks, host, field) ==> Decided(glob, blocks, host, matched, field) == Some(true)
    ensures NeverFalse(glob, blocks, host, field) ==> Decided(glob, blocks, host, matched, field) != Some(false)
  {
    if blocks != [] {
      var before, b := blocks[..|blocks| - 1], blocks[|blocks| - 1];
      SureIsSound(glob, before, host, matched, field);
      OneOrOther(Decided(glob, before, host, matched, field));
    }
  }

  lemma OneOrOther(d: Option<bool>)
    ensures d == None || d == Some(true) || d == Some(false)
  {
    if d.Some? {
      if d.value {
        assert d == Some(true);
      } else {
        assert d == Some(false);
      }
    }
  }

  function With(matched: nat -> bool, n: nat, value: bool): nat -> bool {
    (k: nat) => if k == n then value else matched(k)
  }

  /** And exact: otherwise some choice of Match blocks breaks it. `wantFalse` asks for a
      choice that decides `false`, else for one that does not decide `true`. */
  lemma {:induction false} SureIsExact(glob: Glob, blocks: seq<Block>, host: string, field: Field, wantFalse: bool)
    returns (matched: nat -> bool)
    requires if wantFalse then !NeverFalse(glob, blocks, host, field) else !AlwaysTrue(glob, blocks, host, field)
    ensures var r := Decided(glob, blocks, host, matched, field); if wantFalse then r == Some(false) else r != Some(true)
  {
    matched := k => false;
    if blocks != [] {
      var last := |blocks| - 1;
      var before, b := blocks[..last], blocks[last];
      var m: nat -> bool;
      if !NeverFalse(glob, before, host, field) {
        m := SureIsExact(glob, before, host, field, true);
      } else {
        m := SureIsExact(glob, before, host, field, false);
      }
      SureIsSound(glob, before, host, m, field);
      OneOrOther(Decided(glob, before, host, m, field));
      OneOrOther(Setting(b, field));
      matched := With(m, last, wantFalse);
      DecidedLocally(glob, before, host, m, matched, field);
    }
  }

  /** The exact condition: `host` is safe under every outcome of the Match blocks if and
      only if both fields are sure. */
  lemma SafeUnderEveryMatch(glob: Glob, blocks: seq<Block>, host: string)
    ensures (forall matched :: Effective(glob, blocks, host, matched)) <==>
              AlwaysTrue(glob, blocks, host, Agent) && AlwaysTrue(glob, blocks, host, Only)
  {
    if AlwaysTrue(glob, blocks, host, Agent) && AlwaysTrue(glob, blocks, host, Only) {
      forall matched ensures Effective(glob, blocks, host, matched) {
        SureIsSound(glob, blocks, host, matched, Agent);
        SureIsSound(glob, blocks, host, matched, Only);
      }
    } else {
      var field := if AlwaysTrue(glob, blocks, host, Agent) then Only else Agent;
      var matched := SureIsExact(glob, blocks, host, field, false);
      assert !Effective(glob, blocks, host, matched);
    }
  }

  /** ssh itself sends `host` to the public agent only, whatever Match blocks apply. */
  ghost predicate SafeInFact(glob: Glob, blocks: seq<Block>, host: string) {
    ListsIdentity(glob, blocks, host) && forall matched :: Effective(glob, blocks, host, matched)
  }

  /** The same, computed from the blocks. */
  predicate Sure(glob: Glob, blocks: seq<Block>, host: string) {
    ListsIdentity(glob, blocks, host) && AlwaysTrue(glob, blocks, host, Agent) && AlwaysTrue(glob, blocks, host, Only)
  }

  /** When a safe verdict is right: the host it was given for lists the identity, and is
      safe in fact if and only if both of its fields are sure; and there is a host that is
      safe in fact if and only if there is one for which all of this can be computed. */
  lemma VerdictIsRight(glob: Glob, targets: Targets, ds: seq<Directive>) returns (host: string)
    requires Inspected(glob, targets, ds).Some? && Inspected(glob, targets, ds).value.report.safe
    ensures var blocks := Inspected(glob, targets, ds).value.blocks;
            && Promise(glob, blocks, host)
            && (SafeInFact(glob, blocks, host) <==> AlwaysTrue(glob, blocks, host, Agent) && AlwaysTrue(glob, blocks, host, Only))
            && ((exists h :: SafeInFact(glob, blocks, h)) <==> (exists h :: Sure(glob, blocks, h)))
  {
    var blocks := Inspected(glob, targets, ds).value.blocks;
    host := VerdictIsStable(glob, targets, ds);
    forall h ensures SafeInFact(glob, blocks, h) <==> Sure(glob, blocks, h) {
      SafeUnderEveryMatch(glob, blocks, h);
    }
  }

  /** Match blocks that set neither field do not matter. */
  lemma {:induction false} IdleMatchBlocks(glob: Glob, blocks: seq<Block>, host: string, m: nat -> bool, n: nat -> bool, field: Field)
    requires forall b :: b in blocks && b.kind == MatchBlock ==> Setting(b, field) == None
    ensures Decided(glob, blocks, host, m, field) == Decided(glob, blocks, host, n, field)
  {
    if blocks != [] {
      assert blocks[|blocks| - 1] in blocks;
      IdleMatchBlocks(glob, blocks[..|blocks| - 1], host, m, n, field);
    }
  }

  /** So a safe verdict on a configuration whose Match blocks set neither field, in
      particular on one without Match blocks, is ssh's own result for some host. */
  lemma VerdictWithoutMatch(glob: Glob, targets: Targets, ds: seq<Directive>) returns (host: string)
    requires Inspected(glob, targets, ds).Some? && Inspected(glob, targets, ds).value.report.safe
    requires forall b :: b in Inspected(glob, targets, ds).value.blocks && b.kind == MatchBlock ==> b.agent == None && b.only == None
    ensures var blocks := Inspected(glob, targets, ds).value.blocks;
            ListsIdentity(glob, blocks, host) && forall matched :: Effective(glob, blocks, host, matched)
  {
    var blocks := Inspected(glob, targets, ds).value.blocks;
    host := VerdictIsStable(glob, targets, ds);
    forall matched ensures Effective(glob, blocks, host, matched) {
      IdleMatchBlocks(glob, blocks, host, matched, Every, Agent);
      IdleMatchBlocks(glob, blocks, host, matched, Every, Only);
    }
  }
}
