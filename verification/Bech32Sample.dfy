/** A valid string of BIP 173, so that there are strings to detect errors in. */
module Bech32Sample {
  import opened Basics
  import opened BitRegroup
  import opened Bech32

  const SAMPLE := "a12uel5l"
  const SAMPLE_HRP := "a"
  const SAMPLE_VALUES: seq<Five> := [3, 0, 1, 10, 28, 25, 31, 20, 31]

  /** The checksum states of the sample. */
  const SAMPLE_STATES: seq<bv32> := [0x1, 0x23, 0x460, 0x8c01, 0x11802a, 0x230055c, 0x3d6afc2b, 0x2f84386, 0x24622766, 0x1]

  lemma SampleStep(k: nat)
    requires k < 9
    ensures Step(Selected, SAMPLE_STATES[k], Word(SAMPLE_VALUES[k])) == SAMPLE_STATES[k + 1]
  {
  }

  lemma {:induction false} SampleChecksum(k: nat)
    requires k <= 9
    ensures Polymod(Selected, SAMPLE_STATES[k], SAMPLE_VALUES[k..]) == 1
    decreases 9 - k
  {
    if k < 9 {
      assert SAMPLE_VALUES[k..][0] == SAMPLE_VALUES[k] && SAMPLE_VALUES[k..][1..] == SAMPLE_VALUES[k + 1..];
      SampleStep(k);
      SampleChecksum(k + 1);
    }
  }

  lemma SampleCharacters()
    ensures Values("2uel5l") == Some(SAMPLE_VALUES[3..])
  {
    ValuesOfCharacters("2uel5l", [10, 28, 25, 31, 20, 31]);
    assert SAMPLE_VALUES[3..] == [10, 28, 25, 31, 20, 31];
  }

  lemma SampleSplits()
    ensures Split(SAMPLE) == Parts(SAMPLE_HRP, "2uel5l")
  {
    assert Lower(SAMPLE) == SAMPLE;
    var r := LastOne(SAMPLE);
    assert SAMPLE[1] == '1' && SAMPLE[2] != '1' && SAMPLE[3] != '1' && SAMPLE[4] != '1' && SAMPLE[5] != '1';
    assert SAMPLE[6] != '1' && SAMPLE[7] != '1' && SAMPLE[0] != '1';
    assert SAMPLE[..1] == SAMPLE_HRP && SAMPLE[2..] == "2uel5l";
  }

  lemma PartDecodesTo(hrp: string, data: string, values: seq<Five>, payload: seq<nat>)
    requires Printable(hrp) && |data| >= 6 && Values(data) == Some(values)
    requires Polymod(Selected, 1, Expand(hrp) + values) == 1
    requires Regroup(values[..|values| - 6], 5, 8, false) == Some(payload)
    ensures DecodePart(hrp, data) == Accepted(hrp, payload)
  {
  }

  lemma NothingToRegroup(from: nat, to: nat)
    requires from > 0 && to > 0
    ensures Regroup([], from, to, false) == Some([])
  {
    assert Zeros(0) == [];
  }

  lemma SampleExpanded()
    ensures Printable(SAMPLE_HRP) && Expand(SAMPLE_HRP) + SAMPLE_VALUES[3..] == SAMPLE_VALUES[0..]
  {
    assert Lower(SAMPLE_HRP) == SAMPLE_HRP && High(SAMPLE_HRP) == [3] && Low(SAMPLE_HRP) == [1];
  }

  lemma SamplePart()
    ensures Printable(SAMPLE_HRP) && DecodePart(SAMPLE_HRP, "2uel5l") == Accepted(SAMPLE_HRP, [])
  {
    SampleCharacters();
    SampleExpanded();
    SampleChecksum(0);
    assert SAMPLE_VALUES[3..][..0] == [];
    NothingToRegroup(5, 8);
    PartDecodesTo(SAMPLE_HRP, "2uel5l", SAMPLE_VALUES[3..], []);
  }

  /** The sample is accepted, with an empty payload. */
  lemma SampleIsAccepted()
    ensures Decode(SAMPLE) == Accepted(SAMPLE_HRP, [])
  {
    SampleSplits();
    SamplePart();
  }
}
