/** A configuration whose Match block misleads the inspector: it is reported safe, and
    ssh sends no host to the public agent when the Match block does not apply. */
module SshMatchSample {
  import opened Basics
  import opened SshArguments
  import opened SshConfig

  /** The two-directive steps of a configuration, from a state already reached. */
  lemma ApplyTwo(glob: Glob, targets: Targets, ds: seq<Directive>, d: Directive, e: Directive)
    requires ApplyAll(glob, targets, Initial, ds).Some?
    requires Apply(glob, targets, ApplyAll(glob, targets, Initial, ds).value, d).Some?
    ensures ApplyAll(glob, targets, Initial, ds + [d, e]) ==
              Apply(glob, targets, Apply(glob, targets, ApplyAll(glob, targets, Initial, ds).value, d).value, e)
  {
    ApplyOne(glob, targets, Initial, ds, d);
    ApplyOne(glob, targets, Initial, ds + [d], e);
    assert ds + [d] + [e] == ds + [d, e];
  }

  const StarGlob: Glob := (p, h) => Some(p == "*" || p == h)
  const PlainTargets := Targets(a => a == "public", a => false, a => false, a => a == "key")
  const Misleading := [
    Match(false), IdentityAgent("public"),
    Host(["*"]), IdentityAgent("other"),
    Host(["a"]), IdentityAgent("public"),
    IdentityFile("key"), IdentitiesOnly(true)]

  const MisleadingBlocks := [
    NewBlock,
    Block(MatchBlock, [], Some(true), None, false),
    Block(HostBlock, ["*"], Some(false), None, false),
    Block(HostBlock, ["a"], Some(true), Some(true), true)]

  lemma StarMatches(pattern: string, host: string)
    requires pattern == "*" || (pattern == "a" && host == "a")
    ensures HostMatches(StarGlob, [pattern], Lower(host), false) == Some(true)
    ensures ValidPatterns(StarGlob, [pattern])
  {
    assert Lower("*") == "*" && Lower("a") == "a";
    assert [pattern][1..] == [];
  }

  /** The inspector after the first `n` of the four pairs of directives. */
  function Reached(n: nat): State
    requires 1 <= n <= 4
  {
    if n == 4 then State(MisleadingBlocks[3], MisleadingBlocks[..3], Report(true, false, false, true, true, false, false))
    else
      State(if n == 3 then MisleadingBlocks[3].(only := None, publicFile := false) else MisleadingBlocks[n],
            MisleadingBlocks[..if n == 3 then 3 else n], Report(true, false, false, false, false, false, false))
  }

  lemma MisleadingStarts()
    ensures ApplyAll(StarGlob, PlainTargets, Initial, Misleading[..2]) == Some(Reached(1))
  {
    ApplyTwo(StarGlob, PlainTargets, [], Misleading[0], Misleading[1]);
    assert [] + [Misleading[0], Misleading[1]] == Misleading[..2];
    assert [] + [NewBlock] == MisleadingBlocks[..1];
  }

  lemma MisleadingGoesOn()
    ensures ApplyAll(StarGlob, PlainTargets, Initial, Misleading[..4]) == Some(Reached(2))
  {
    MisleadingStarts();
    StarMatches("*", "");
    ApplyTwo(StarGlob, PlainTargets, Misleading[..2], Misleading[2], Misleading[3]);
    assert Misleading[..2] + [Misleading[2], Misleading[3]] == Misleading[..4];
    assert MisleadingBlocks[..1] + [MisleadingBlocks[1]] == MisleadingBlocks[..2];
  }

  lemma MisleadingEnds()
    ensures ApplyAll(StarGlob, PlainTargets, Initial, Misleading[..6]) == Some(Reached(3))
  {
    MisleadingGoesOn();
    StarMatches("a", "a");
    ApplyTwo(StarGlob, PlainTargets, Misleading[..4], Misleading[4], Misleading[5]);
    assert Misleading[..4] + [Misleading[4], Misleading[5]] == Misleading[..6];
    assert MisleadingBlocks[..2] + [MisleadingBlocks[2]] == MisleadingBlocks[..3];
  }

  lemma MisleadingRuns()
    ensures ApplyAll(StarGlob, PlainTargets, Initial, Misleading) == Some(Reached(4))
  {
    MisleadingEnds();
    ApplyTwo(StarGlob, PlainTargets, Misleading[..6], Misleading[6], Misleading[7]);
    assert Misleading[..6] + [Misleading[6], Misleading[7]] == Misleading;
  }

  lemma OneCandidate()
    ensures Candidates(StarGlob, ["a"], 1) == ["a"]
  {
    StarMatches("a", "a");
    assert "a"[1..] == "" && Unescape("", false) == Some("") && "a" + "" == "a";
    assert Unescape("a", false) == Some("a");
    assert Lower("a") == "a" && SplitPattern("a") == (false, "a");
    assert Literal("a") == Some("a");
    assert Candidate(StarGlob, ["a"], "a") == Some("a");
    assert Candidates(StarGlob, ["a"], 0) == [];
  }

  lemma MisleadingIsSafe()
    ensures AllSafe(StarGlob, MisleadingBlocks, ["a"]) == Some(true)
  {
    StarMatches("a", "a");
    StarMatches("*", "a");
    MisleadingDecides("a", Every, Some(true));
    assert AllSafe(StarGlob, MisleadingBlocks, ["a"][1..]) == Some(true);
  }

  /** A concrete configuration that is reported safe although, when its Match block does
      not apply, no host at all gets the public agent. */
  lemma MatchBlockMisleads()
    ensures Inspected(StarGlob, PlainTargets, Misleading).Some?
    ensures Inspected(StarGlob, PlainTargets, Misleading).value.report.safe
    ensures var blocks := Inspected(StarGlob, PlainTargets, Misleading).value.blocks;
            forall host :: !SafeInFact(StarGlob, blocks, host) && Decided(StarGlob, blocks, host, Never, Agent) == Some(false)
  {
    MisleadingRuns();
    assert MisleadingBlocks[..3] + [MisleadingBlocks[3]] == MisleadingBlocks;
    OneCandidate();
    MisleadingIsSafe();
    forall host
      ensures !SafeInFact(StarGlob, MisleadingBlocks, host)
      ensures Decided(StarGlob, MisleadingBlocks, host, Never, Agent) == Some(false)
    {
      MisleadingDecides(host, Never, Some(false));
      assert !Effective(StarGlob, MisleadingBlocks, host, Never);
    }
  }

  lemma MisleadingDecides(host: string, matched: nat -> bool, agent: Option<bool>)
    requires agent == Some(matched(1))
    ensures Decided(StarGlob, MisleadingBlocks, host, matched, Agent) == agent
    ensures host == "a" ==> Decided(StarGlob, MisleadingBlocks, host, matched, Only) == Some(true)
  {
    StarMatches("*", host);
    var b := MisleadingBlocks;
    assert b[..0] == [] && b[..1][..0] == [] && b[..2][..1] == b[..1] && b[..3][..2] == b[..2] && b[..3] == b[..|b| - 1];
    assert Decided(StarGlob, b[..1], host, matched, Agent) == None;
    assert Decided(StarGlob, b[..2], host, matched, Agent) == if matched(1) then Some(true) else None;
    assert Decided(StarGlob, b[..3], host, matched, Agent) == agent;
    if host == "a" {
      StarMatches("a", host);
      assert Decided(StarGlob, b[..1], host, matched, Only) == None;
      assert Decided(StarGlob, b[..2], host, matched, Only) == None;
      assert Decided(StarGlob, b[..3], host, matched, Only) == None;
    }
  }
}
