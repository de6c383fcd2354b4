/** Bech32 decoding (BIP 173), and the error detection its checksum is for. */
module Bech32 {
  import opened Basics
  import opened BitRegroup

  type Five = v: nat | v < 32 witness 0

  datatype DecodeError = MixedCase | BadSeparator | BadHumanReadablePart | BadCharacter | BadChecksum | BadPadding

  datatype Decoded = Accepted(hrp: string, payload: seq<nat>) | Rejected(error: DecodeError)

  // ---- characters (ASCII) ---------------------------------------------------------------

  const CHARSET := "qpzry9x8gf2tvdw0s3jn54khce6mua7l"

  function LowerCharacter(c: char): (r: char)
    ensures 33 <= c as int <= 126 ==> 33 <= r as int <= 126
  {
    if 'A' <= c <= 'Z' then c - 'A' + 'a' else c
  }

  function UpperCharacter(c: char): char {
    if 'a' <= c <= 'z' then c - 'a' + 'A' else c
  }

  function Lower(s: string): (r: string)
    ensures |r| == |s| && forall k :: 0 <= k < |s| ==> r[k] == LowerCharacter(s[k])
  {
    seq(|s|, i requires 0 <= i < |s| => LowerCharacter(s[i]))
  }

  function Upper(s: string): string {
    seq(|s|, i requires 0 <= i < |s| => UpperCharacter(s[i]))
  }

  predicate Mixed(s: string) {
    Lower(s) != s && Upper(s) != s
  }

  /** The last separator, -1 if there is none. */
  function LastOne(s: string): (r: int)
    ensures -1 <= r < |s|
    ensures r >= 0 ==> s[r] == '1'
    ensures forall k :: r < k < |s| ==> s[k] != '1'
  {
    if s == [] then -1 else if s[|s| - 1] == '1' then |s| - 1 else LastOne(s[..|s| - 1])
  }

  function Find(c: char, i: nat): (r: Option<Five>)
    requires i <= |CHARSET| == 32
    ensures r.Some? ==> CHARSET[r.value] == c
    decreases 32 - i
  {
    if i == 32 then None else if CHARSET[i] == c then Some(i) else Find(c, i + 1)
  }

  /** The 5-bit value of a data character. */
  function CharacterValue(c: char): (r: Option<Five>)
    ensures r.Some? ==> CHARSET[r.value] == c
  {
    assert |CHARSET| == 32;
    Find(c, 0)
  }

  function Values(data: string): (r: Option<seq<Five>>)
    ensures r.Some? ==> |r.value| == |data| && forall k :: 0 <= k < |data| ==> CHARSET[r.value[k]] == data[k]
  {
    if data == [] then Some([])
    else
      match Values(data[..|data| - 1])
      case None => None
      case Some(vs) =>
        match CharacterValue(data[|data| - 1])
        case None => None
        case Some(v) => Some(vs + [v])
  }

  predicate Printable(s: string) {
    forall k :: 0 <= k < |s| ==> 33 <= s[k] as int <= 126
  }

  /** High bits of every character, a zero, low bits of every character. */
  function Expand(hrp: string): seq<Five>
    requires Printable(hrp)
  {
    High(Lower(hrp)) + [0] + Low(Lower(hrp))
  }

  function High(h: string): (r: seq<Five>)
    requires Printable(h)
    ensures |r| == |h|
  {
    seq(|h|, i requires 0 <= i < |h| => (h[i] as int / 32) as Five)
  }

  function Low(h: string): (r: seq<Five>)
    ensures |r| == |h|
  {
    seq(|h|, i requires 0 <= i < |h| => (h[i] as int % 32) as Five)
  }

  // ---- the checksum ---------------------------------------------------------------------

  /** uint32(v) */
  function Word(v: Five): bv32 {
    if v == 0 then 0
    else if v == 1 then 1
    else if v == 2 then 2
    else if v == 3 then 3
    else if v == 4 then 4
    else if v == 5 then 5
    else if v == 6 then 6
    else if v == 7 then 7
    else if v == 8 then 8
    else if v == 9 then 9
    else if v == 10 then 10
    else if v == 11 then 11
    else if v == 12 then 12
    else if v == 13 then 13
    else if v == 14 then 14
    else if v == 15 then 15
    else if v == 16 then 16
    else if v == 17 then 17
    else if v == 18 then 18
    else if v == 19 then 19
    else if v == 20 then 20
    else if v == 21 then 21
    else if v == 22 then 22
    else if v == 23 then 23
    else if v == 24 then 24
    else if v == 25 then 25
    else if v == 26 then 26
    else if v == 27 then 27
    else if v == 28 then 28
    else if v == 29 then 29
    else if v == 30 then 30
    else 31
  }

  lemma WordInjective(v: Five, w: Five)
    requires Word(v) == Word(w)
    ensures v == w
  {
    ValueOfWord(v);
    ValueOfWord(w);
  }

  /** The value a word stands for. */
  function ValueOf(w: bv32): int {
    w as int
  }

  lemma ValueOfWord(v: Five)
    ensures ValueOf(Word(v)) == v
  {
  }

  lemma WordSmall(v: Five)
    ensures Word(v) < 32
  {
  }

  const GENERATOR: seq<bv32> := [0x3b6a57b2, 0x26508e6d, 0x1ea119fa, 0x3d4233dd, 0x2a1462b3]
  const BIT: seq<bv32> := [1, 2, 4, 8, 16]

  function XorTwo(a: bv32, b: bv32): bv32 {
    a ^ b
  }

  function XorFive(a: bv32, b: bv32, c: bv32, d: bv32, e: bv32): bv32 {
    XorTwo(XorTwo(XorTwo(XorTwo(a, b), c), d), e)
  }

  /** The generators selected by the five top bits. */
  function Selected(top: bv32): bv32 {
    XorFive(if top & 1 == 1 then 0x3b6a57b2 else 0,
            if top & 2 == 2 then 0x26508e6d else 0,
            if top & 4 == 4 then 0x1ea119fa else 0,
            if top & 8 == 8 then 0x3d4233dd else 0,
            if top & 16 == 16 then 0x2a1462b3 else 0)
  }

  function Shifted(check: bv32): bv32 {
    (check & 0x1ffffff) << 5
  }

  /** One step of the checksum; `select` maps the top bits to generators. */
  function Step(select: bv32 -> bv32, check: bv32, word: bv32): bv32 {
    Xor(Shifted(check), word, select(check >> 25))
  }

  function Xor(a: bv32, b: bv32, c: bv32): bv32 {
    XorTwo(XorTwo(a, b), c)
  }

  function Polymod(select: bv32 -> bv32, check: bv32, values: seq<Five>): bv32
    decreases |values|
  {
    if values == [] then check else Polymod(select, Step(select, check, Word(values[0])), values[1..])
  }

  // ---- one step loses nothing -------------------------------------------------------------

  lemma XorLeft(s: bv32, v: bv32, w: bv32)
    requires XorTwo(s, v) == XorTwo(s, w)
    ensures v == w
  {
  }

  lemma XorRight(v: bv32, w: bv32, g: bv32)
    requires XorTwo(v, g) == XorTwo(w, g)
    ensures v == w
  {
  }

  /** The five generators are independent in their low five bits. */
  lemma SelectedInjective(s: bv32, t: bv32)
    requires s < 32 && t < 32 && Selected(s) & 31 == Selected(t) & 31
    ensures s == t
  {
  }

  /** What one step needs of the generators: five top bits are told apart by the low
      five bits they select, and nothing reaches beyond 30 bits. */
  ghost predicate Separates(select: bv32 -> bv32) {
    && (forall s, t :: s < 32 && t < 32 && select(s) & 31 == select(t) & 31 ==> s == t)
    && (forall t :: select(t) < 0x40000000)
  }

  lemma SelectedSeparates()
    ensures Separates(Selected)
  {
    forall s: bv32, t: bv32 | s < 32 && t < 32 && Selected(s) & 31 == Selected(t) & 31 ensures s == t {
      SelectedInjective(s, t);
    }
    forall t: bv32 ensures Selected(t) < 0x40000000 {
      SelectedSmall(t);
    }
  }

  lemma TopSmall(x: bv32)
    requires x < 0x40000000
    ensures x >> 25 < 32
  {
  }

  lemma ShiftedInjective(x: bv32, y: bv32)
    requires x < 0x40000000 && y < 0x40000000 && x >> 25 == y >> 25 && Shifted(x) == Shifted(y)
    ensures x == y
  {
  }

  lemma SelectedSmall(t: bv32)
    ensures Selected(t) < 0x40000000
  {
  }

  lemma XorSmall(a: bv32, b: bv32)
    requires a < 0x40000000 && b < 0x40000000
    ensures XorTwo(a, b) < 0x40000000
  {
  }

  lemma ShiftedSmall(x: bv32)
    ensures Shifted(x) < 0x40000000
  {
  }

  lemma StepSmall(select: bv32 -> bv32, check: bv32, word: bv32)
    requires Separates(select)
    requires word < 32
    ensures Step(select, check, word) < 0x40000000
  {
    ShiftedSmall(check);
    XorSmall(Shifted(check), word);
    XorSmall(XorTwo(Shifted(check), word), select(check >> 25));
  }

  lemma LowOfShifted(x: bv32, v: bv32)
    ensures XorTwo(Shifted(x), v) & 31 == v & 31
  {
  }

  lemma LowSecond(p: bv32, q: bv32, g: bv32, h: bv32)
    requires XorTwo(p, g) == XorTwo(q, h) && p & 31 == q & 31
    ensures g & 31 == h & 31
  {
  }

  lemma StepCore(x: bv32, y: bv32, v: bv32, g: bv32, h: bv32)
    requires x < 0x40000000 && y < 0x40000000 && Xor(Shifted(x), v, g) == Xor(Shifted(y), v, h)
    requires g & 31 == h & 31 ==> g == h && x >> 25 == y >> 25
    ensures x == y
  {
    var p, q := XorTwo(Shifted(x), v), XorTwo(Shifted(y), v);
    LowOfShifted(x, v);
    LowOfShifted(y, v);
    LowSecond(p, q, g, h);
    XorRight(p, q, g);
    XorRight(Shifted(x), Shifted(y), v);
    ShiftedInjective(x, y);
  }

  /** Different 30-bit states stay different under the same value. */
  lemma StepInjective(select: bv32 -> bv32, x: bv32, y: bv32, word: bv32)
    requires Separates(select)
    requires x < 0x40000000 && y < 0x40000000 && Step(select, x, word) == Step(select, y, word)
    ensures x == y
  {
    TopSmall(x);
    TopSmall(y);
    StepCore(x, y, word, select(x >> 25), select(y >> 25));
  }

  /** Different values lead the same state to different ones. */
  lemma StepSeparates(select: bv32 -> bv32, check: bv32, v: bv32, w: bv32)
    requires Separates(select)
    requires Step(select, check, v) == Step(select, check, w)
    ensures v == w
  {
    XorRight(XorTwo(Shifted(check), v), XorTwo(Shifted(check), w), select(check >> 25));
    XorLeft(Shifted(check), v, w);
  }

  lemma {:induction false} PolymodInjective(select: bv32 -> bv32, x: bv32, y: bv32, values: seq<Five>)
    requires Separates(select)
    requires x < 0x40000000 && y < 0x40000000 && x != y
    ensures Polymod(select, x, values) != Polymod(select, y, values)
    decreases |values|
  {
    if values != [] {
      StatesStayApart(select, x, y, values[0]);
      PolymodInjective(select, Step(select, x, Word(values[0])), Step(select, y, Word(values[0])), values[1..]);
    }
  }

  lemma StatesStayApart(select: bv32 -> bv32, x: bv32, y: bv32, v: Five)
    requires Separates(select)
    requires x < 0x40000000 && y < 0x40000000 && x != y
    ensures var p, q := Step(select, x, Word(v)), Step(select, y, Word(v)); p != q && p < 0x40000000 && q < 0x40000000
  {
    WordSmall(v);
    WordsStayApart(select, x, y, Word(v));
  }

  lemma WordsStayApart(select: bv32 -> bv32, x: bv32, y: bv32, word: bv32)
    requires Separates(select)
    requires x < 0x40000000 && y < 0x40000000 && x != y && word < 32
    ensures var p, q := Step(select, x, word), Step(select, y, word); p != q && p < 0x40000000 && q < 0x40000000
  {
    StepSmall(select, x, word);
    StepSmall(select, y, word);
    if Step(select, x, word) == Step(select, y, word) {
      StepInjective(select, x, y, word);
    }
  }

  lemma ValuesLeadApart(select: bv32 -> bv32, check: bv32, v: Five, w: Five)
    requires Separates(select)
    requires v != w
    ensures var p, q := Step(select, check, Word(v)), Step(select, check, Word(w)); p != q && p < 0x40000000 && q < 0x40000000
  {
    WordSmall(v);
    WordSmall(w);
    if Word(v) == Word(w) {
      WordInjective(v, w);
    }
    WordsLeadApart(select, check, Word(v), Word(w));
  }

  lemma WordsLeadApart(select: bv32 -> bv32, check: bv32, v: bv32, w: bv32)
    requires Separates(select)
    requires v != w && v < 32 && w < 32
    ensures var p, q := Step(select, check, v), Step(select, check, w); p != q && p < 0x40000000 && q < 0x40000000
  {
    StepSmall(select, check, v);
    StepSmall(select, check, w);
    if Step(select, check, v) == Step(select, check, w) {
      StepSeparates(select, check, v, w);
    }
  }

  /** A change of exactly one value changes the checksum, whatever the length. */
  lemma {:induction false} OneValueChanges(select: bv32 -> bv32, check: bv32, values: seq<Five>, k: nat, v: Five)
    requires Separates(select)
    requires k < |values| && v != values[k]
    ensures Polymod(select, check, values[k := v]) != Polymod(select, check, values)
    decreases k
  {
    if k == 0 {
      assert values[0 := v][1..] == values[1..];
      ValuesLeadApart(select, check, v, values[0]);
      PolymodInjective(select, Step(select, check, Word(v)), Step(select, check, Word(values[0])), values[1..]);
    } else {
      assert values[k := v][1..] == values[1..][k - 1 := v];
      OneValueChanges(select, Step(select, check, Word(values[0])), values[1..], k - 1, v);
    }
  }

  // ---- the decoder ------------------------------------------------------------------------

  datatype Parts = Parts(hrp: string, data: string) | NoParts(error: DecodeError)

  predicate HasSeparator(s: string) {
    1 <= LastOne(s) <= |s| - 7
  }

  function Head(s: string): string
    requires HasSeparator(s)
  {
    s[..LastOne(s)]
  }

  function Data(s: string): (r: string)
    requires HasSeparator(s)
    ensures |r| == |s| - LastOne(s) - 1 >= 6
  {
    Lower(s)[LastOne(s) + 1..]
  }

  /** The human-readable part, and the data part in lower case. */
  function Split(s: string): Parts {
    if Mixed(s) then NoParts(MixedCase)
    else if !HasSeparator(s) then NoParts(BadSeparator)
    else if !Printable(Head(s)) then NoParts(BadHumanReadablePart)
    else Parts(Head(s), Data(s))
  }

  function Decode(s: string): Decoded {
    match Split(s)
    case NoParts(e) => Rejected(e)
    case Parts(hrp, data) =>
      SplitFits(s);
      DecodePart(hrp, data)
  }

  lemma SplitFits(s: string)
    requires Split(s).Parts?
    ensures Printable(Split(s).hrp) && |Split(s).data| >= 6
  {
  }

  function DecodePart(hrp: string, data: string): Decoded
    requires Printable(hrp) && |data| >= 6
  {
    match Values(data)
    case None => Rejected(BadCharacter)
    case Some(values) =>
      if Polymod(Selected, 1, Expand(hrp) + values) != 1 then Rejected(BadChecksum)
      else
        match Regroup(values[..|values| - 6], 5, 8, false)
        case None => Rejected(BadPadding)
        case Some(payload) => Accepted(hrp, payload)
  }

  method PolymodLoop(values: seq<Five>) returns (check: bv32)
    ensures check == Polymod(Selected, 1, values)
  {
    check := 1;
    for n := 0 to |values|
      invariant Polymod(Selected, check, values[n..]) == Polymod(Selected, 1, values)
    {
      assert values[n..][0] == values[n] && values[n..][1..] == values[n + 1..];
      ghost var before := check;
      var top := check >> 25;
      check := Shifted(check);
      check := XorTwo(check, Word(values[n]));
      check := AddGenerators(check, top);
      assert check == Step(Selected, before, Word(values[n]));
    }
  }

  function Chosen(top: bv32, i: nat): bv32
    requires i < 5
  {
    if top & BIT[i] == BIT[i] then GENERATOR[i] else 0
  }

  /** The generators the loop has added after `n` rounds. */
  function Added(top: bv32, n: nat): bv32
    requires n <= 5
  {
    if n == 0 then 0 else XorTwo(Added(top, n - 1), Chosen(top, n - 1))
  }

  lemma XorFromZero(a: bv32)
    ensures XorTwo(0, a) == a
  {
  }

  lemma SelectedIsChosen(top: bv32)
    ensures Selected(top) == XorFive(Chosen(top, 0), Chosen(top, 1), Chosen(top, 2), Chosen(top, 3), Chosen(top, 4))
  {
    assert BIT[0] == 1 && BIT[1] == 2 && BIT[2] == 4 && BIT[3] == 8 && BIT[4] == 16;
  }

  lemma AddedAll(top: bv32)
    ensures Added(top, 5) == Selected(top)
  {
    var a, b, c, d, e := Chosen(top, 0), Chosen(top, 1), Chosen(top, 2), Chosen(top, 3), Chosen(top, 4);
    assert Added(top, 1) == XorTwo(0, a);
    assert Added(top, 2) == XorTwo(Added(top, 1), b);
    assert Added(top, 3) == XorTwo(Added(top, 2), c);
    assert Added(top, 4) == XorTwo(Added(top, 3), d);
    assert Added(top, 5) == XorTwo(Added(top, 4), e);
    XorFromZero(a);
    SelectedIsChosen(top);
  }

  lemma XorOnce(x: bv32, a: bv32, b: bv32)
    ensures XorTwo(XorTwo(x, a), b) == XorTwo(x, XorTwo(a, b)) && XorTwo(x, 0) == x
  {
  }

  method AddGenerators(start: bv32, top: bv32) returns (check: bv32)
    ensures check == XorTwo(start, Selected(top))
  {
    check := start;
    XorOnce(start, 0, 0);
    for i := 0 to 5
      invariant check == XorTwo(start, Added(top, i))
    {
      XorOnce(start, Added(top, i), Chosen(top, i));
      XorOnce(check, 0, 0);
      if top & BIT[i] == BIT[i] {
        check := XorTwo(check, GENERATOR[i]);
      }
    }
    AddedAll(top);
  }

  method ExpandLoop(hrp: string) returns (result: seq<Five>)
    requires Printable(hrp)
    ensures result == Expand(hrp)
  {
    var h := Lower(hrp);
    result := [];
    for i := 0 to |h|
      invariant result == High(h)[..i]
    {
      result := result + [(h[i] as int / 32) as Five];
    }
    result := result + [0];
    for i := 0 to |h|
      invariant result == High(h) + [0] + Low(h)[..i]
    {
      result := result + [(h[i] as int % 32) as Five];
    }
  }

  method DecodeBech32(s: string) returns (r: Decoded)
    ensures r == Decode(s)
  {
    var parts := SplitString(s);
    if parts.Parts? {
      SplitFits(s);
    }
    match parts {
      case NoParts(e) => r := Rejected(e);
      case Parts(hrp, data) => r := DecodeData(hrp, data);
    }
  }

  method SplitString(s: string) returns (r: Parts)
    ensures r == Split(s)
  {
    if Mixed(s) {
      return NoParts(MixedCase);
    }
    var separator := LastOne(s);
    if separator < 1 || separator + 7 > |s| {
      return NoParts(BadSeparator);
    }
    var hrp := s[..separator];
    var printable := HumanReadable(hrp);
    if !printable {
      return NoParts(BadHumanReadablePart);
    }
    return Parts(hrp, Lower(s)[separator + 1..]);
  }

  method HumanReadable(hrp: string) returns (r: bool)
    ensures r == Printable(hrp)
  {
    for i := 0 to |hrp|
      invariant Printable(hrp[..i])
    {
      if hrp[i] as int < 33 || hrp[i] as int > 126 {
        return false;
      }
    }
    return true;
  }

  method DecodeData(hrp: string, data: string) returns (r: Decoded)
    requires Printable(hrp) && |data| >= 6
    ensures r == DecodePart(hrp, data)
  {
    var values := ReadValues(data);
    if values.None? {
      return Rejected(BadCharacter);
    }
    var expanded := ExpandLoop(hrp);
    var check := PolymodLoop(expanded + values.value);
    if check != 1 {
      return Rejected(BadChecksum);
    }
    var payload := ConvertBech32Bits(values.value[..|values.value| - 6], 5, 8, false);
    return if payload.None? then Rejected(BadPadding) else Accepted(hrp, payload.value);
  }

  method ReadValues(data: string) returns (r: Option<seq<Five>>)
    ensures r == Values(data)
  {
    var values: seq<Five> := [];
    for i := 0 to |data|
      invariant Values(data[..i]) == Some(values)
    {
      assert data[..i + 1][..i] == data[..i];
      var v := CharacterValue(data[i]);
      if v.None? {
        NoValues(data, i);
        return None;
      }
      values := values + [v.value];
    }
    assert data[..|data|] == data;
    return Some(values);
  }

  lemma {:induction false} NoValues(data: string, i: nat)
    requires i < |data| && CharacterValue(data[i]).None?
    ensures Values(data).None?
  {
    if i < |data| - 1 {
      NoValues(data[..|data| - 1], i);
    }
  }

  /** Every value has its character. */
  lemma {:induction false} FindPlace(v: Five, i: nat)
    requires |CHARSET| == 32 && i <= v
    ensures Find(CHARSET[v], i) == Some(v)
    decreases v - i
  {
    if i < v {
      if CHARSET[i] == CHARSET[v] {
        CharsetDistinct(i, v);
      }
      FindPlace(v, i + 1);
    }
  }

  /** Values read back from their characters. */
  lemma {:induction false} ValuesOfCharacters(data: string, values: seq<Five>)
    requires |CHARSET| == 32 && |data| == |values| && forall k :: 0 <= k < |data| ==> data[k] == CHARSET[values[k]]
    ensures Values(data) == Some(values)
  {
    if data == [] {
      assert values == [];
    } else {
      var last := |data| - 1;
      ValuesOfCharacters(data[..last], values[..last]);
      FindPlace(values[last], 0);
      assert values[..last] + [values[last]] == values;
    }
  }

  // ---- error detection ----------------------------------------------------------------------

  lemma {:induction false} LastOneStays(s: string, k: nat, c: char)
    requires LastOne(s) < k < |s| && c != '1'
    ensures LastOne(s[k := c]) == LastOne(s)
  {
    if k < |s| - 1 {
      assert s[k := c][..|s| - 1] == s[..|s| - 1][k := c];
      LastOneStays(s[..|s| - 1], k, c);
    } else {
      assert s[k := c][..|s| - 1] == s[..|s| - 1];
    }
  }

  /** Two readings that differ in one character differ in its value only. */
  lemma ValuesDiffer(data: string, k: nat, c: char)
    requires k < |data| && c != data[k] && Values(data).Some? && Values(data[k := c]).Some?
    ensures var v, w := Values(data).value, Values(data[k := c]).value; w[k] != v[k] && w == v[k := w[k]]
  {
    var v, w := Values(data).value, Values(data[k := c]).value;
    forall j | 0 <= j < |data| && j != k ensures w[j] == v[j] {
      assert CHARSET[w[j]] == data[k := c][j] == data[j] == CHARSET[v[j]];
      CharsetDistinct(v[j], w[j]);
    }
  }

  function Place(c: char): Five {
    if c == 'q' then 0
    else if c == 'p' then 1
    else if c == 'z' then 2
    else if c == 'r' then 3
    else if c == 'y' then 4
    else if c == '9' then 5
    else if c == 'x' then 6
    else if c == '8' then 7
    else if c == 'g' then 8
    else if c == 'f' then 9
    else if c == '2' then 10
    else if c == 't' then 11
    else if c == 'v' then 12
    else if c == 'd' then 13
    else if c == 'w' then 14
    else if c == '0' then 15
    else if c == 's' then 16
    else if c == '3' then 17
    else if c == 'j' then 18
    else if c == 'n' then 19
    else if c == '5' then 20
    else if c == '4' then 21
    else if c == 'k' then 22
    else if c == 'h' then 23
    else if c == 'c' then 24
    else if c == 'e' then 25
    else if c == '6' then 26
    else if c == 'm' then 27
    else if c == 'u' then 28
    else if c == 'a' then 29
    else if c == '7' then 30
    else 31
  }

  lemma CharsetPlaces(v: Five)
    ensures |CHARSET| == 32 && Place(CHARSET[v]) == v
  {
  }

  lemma CharsetDistinct(v: Five, w: Five)
    requires |CHARSET| == 32 && CHARSET[v] == CHARSET[w]
    ensures v == w
  {
    CharsetPlaces(v);
    CharsetPlaces(w);
  }

  lemma ChecksumDiffers(start: seq<Five>, values: seq<Five>, k: nat, v: Five)
    requires k < |values| && v != values[k]
    ensures Polymod(Selected, 1, start + values[k := v]) != Polymod(Selected, 1, start + values)
  {
    SelectedSeparates();
    OneValueChanges(Selected, 1, start + values, |start| + k, v);
    assert (start + values)[|start| + k := v] == start + values[k := v];
  }

  lemma DataErrorIsDetected(hrp: string, data: string, k: nat, c: char)
    requires Printable(hrp) && |data| >= 6 && DecodePart(hrp, data).Accepted?
    requires k < |data| && c != data[k]
    ensures DecodePart(hrp, data[k := c]).Rejected?
  {
    if Values(data[k := c]).Some? {
      ValuesDiffer(data, k, c);
      ChecksumDiffers(Expand(hrp), Values(data).value, k, Values(data[k := c]).value[k]);
    }
  }

  /** Only the data part changes, in one place. */
  lemma SplitDiffers(s: string, k: nat, c: char)
    requires HasSeparator(s) && LastOne(s) < k < |s| && c != '1'
    ensures HasSeparator(s[k := c]) && Head(s[k := c]) == Head(s)
    ensures Data(s)[k - LastOne(s) - 1] == LowerCharacter(s[k])
    ensures Data(s[k := c]) == Data(s)[k - LastOne(s) - 1 := LowerCharacter(c)]
  {
    LastOneStays(s, k, c);
    HeadStays(s, k, c, LastOne(s));
    LowerTail(s, k, c, LastOne(s) + 1);
  }

  lemma HeadStays(s: string, k: nat, c: char, n: nat)
    requires n <= k < |s|
    ensures s[k := c][..n] == s[..n]
  {
  }

  lemma LowerTail(s: string, k: nat, c: char, from: nat)
    requires from <= k < |s|
    ensures Lower(s[k := c])[from..] == Lower(s)[from..][k - from := LowerCharacter(c)]
    ensures Lower(s)[from..][k - from] == LowerCharacter(s[k])
  {
  }

  /** BIP 173's promise for one error: replace any one data or checksum character of an
      accepted string, of any length, by a character that is not the separator and means
      something else, and the result is rejected. */
  lemma OneErrorIsDetected(s: string, k: nat, c: char)
    requires Decode(s).Accepted? && LastOne(s) < k < |s|
    requires c != '1' && LowerCharacter(c) != LowerCharacter(s[k])
    ensures Decode(s[k := c]).Rejected?
  {
    if Split(s[k := c]).Parts? {
      SplitDiffers(s, k, c);
      SplitFits(s);
      DataErrorIsDetected(Head(s), Data(s), k - LastOne(s) - 1, LowerCharacter(c));
    }
  }
}
