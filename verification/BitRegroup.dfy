/** Regrouping a bit stream into symbols of another width, as Bech32 does between bytes
    and 5-bit values. The accumulator is a 32-bit word that is never masked. */
module BitRegroup {
  import opened Basics

  // ---- words ----------------------------------------------------------------------------

  function Pow2(n: nat): (r: nat)
    ensures r > 0
  {
    if n == 0 then 1 else 2 * Pow2(n - 1)
  }

  /** The low `n` bits of `v`, most significant first. */
  function Bits(v: nat, n: nat): (r: seq<bool>)
    ensures |r| == n
  {
    if n == 0 then [] else Bits(v / 2, n - 1) + [v % 2 == 1]
  }

  function Value(bits: seq<bool>): (r: nat)
    ensures r < Pow2(|bits|)
  {
    if bits == [] then 0 else 2 * Value(bits[..|bits| - 1]) + if bits[|bits| - 1] then 1 else 0
  }

  function Zeros(n: nat): seq<bool> {
    seq(n, _ => false)
  }

  /** v & (1<<n - 1), which is also the conversion to an unsigned type of `n` bits. */
  function Mask(v: nat, n: nat): nat {
    Value(Bits(v, n))
  }

  /** Sizes of the accumulator and of a byte: 32 and 8. */
  datatype Machine = Machine(word: nat, byte: nat)

  function ShiftRight(v: nat, n: nat): nat {
    if n == 0 then v else ShiftRight(v / 2, n - 1)
  }

  /** Before truncation to the width of the word. */
  function ShiftLeft(v: nat, n: nat): nat {
    if n == 0 then v else 2 * ShiftLeft(v, n - 1)
  }

  lemma {:induction false} ValueOfBits(v: nat, n: nat)
    requires v < Pow2(n)
    ensures Value(Bits(v, n)) == v
  {
    if n > 0 {
      ValueOfBits(v / 2, n - 1);
      assert Bits(v, n)[..n - 1] == Bits(v / 2, n - 1);
    }
  }

  lemma {:induction false} BitsOfValue(bits: seq<bool>)
    ensures Bits(Value(bits), |bits|) == bits
  {
    if bits != [] {
      BitsOfValue(bits[..|bits| - 1]);
    }
  }

  /** Fewer bits are a suffix of more. */
  lemma {:induction false} BitsSuffix(v: nat, m: nat, n: nat)
    requires n <= m
    ensures Bits(v, m)[m - n..] == Bits(v, n)
  {
    if n > 0 {
      BitsSuffix(v / 2, m - 1, n - 1);
    }
  }

  /** Truncation to a word keeps its low bits, however far the word has wrapped. */
  lemma MaskKeepsLowBits(v: nat, m: nat, n: nat)
    requires n <= m
    ensures Bits(Mask(v, m), n) == Bits(v, n)
  {
    BitsOfValue(Bits(v, m));
    BitsSuffix(Mask(v, m), m, n);
    BitsSuffix(v, m, n);
  }

  /** Shifting left and filling in puts two numbers side by side. */
  lemma {:induction false} BitsConcat(x: nat, m: nat, y: nat, n: nat)
    requires y < Pow2(n)
    ensures Bits(ShiftLeft(x, n) + y, m + n) == Bits(x, m) + Bits(y, n)
  {
    if n == 0 {
      assert Bits(x, m) + Bits(y, 0) == Bits(x, m);
    } else {
      BitsConcat(x, m, y / 2, n - 1);
      assert (ShiftLeft(x, n) + y) / 2 == ShiftLeft(x, n - 1) + y / 2;
      assert Bits(x, m) + (Bits(y / 2, n - 1) + [y % 2 == 1]) == Bits(x, m) + Bits(y / 2, n - 1) + [y % 2 == 1];
    }
  }

  /** Shifting right drops the low bits. */
  lemma {:induction false} BitsSplit(v: nat, m: nat, n: nat)
    ensures Bits(v, m + n) == Bits(ShiftRight(v, n), m) + Bits(v, n)
  {
    if n == 0 {
      assert Bits(v, m) + Bits(v, 0) == Bits(v, m);
    } else {
      BitsSplit(v / 2, m, n - 1);
      var high := Bits(ShiftRight(v / 2, n - 1), m);
      assert high + Bits(v / 2, n - 1) + [v % 2 == 1] == high + (Bits(v / 2, n - 1) + [v % 2 == 1]);
    }
  }

  lemma {:induction false} BitsOfZero(n: nat)
    ensures Bits(0, n) == Zeros(n) && 0 < Pow2(n)
  {
    if n > 0 {
      BitsOfZero(n - 1);
      assert Zeros(n) == Zeros(n - 1) + [false];
    }
  }

  // ---- streams of symbols -----------------------------------------------------------------

  predicate Fits(data: seq<nat>, width: nat) {
    forall k :: 0 <= k < |data| ==> data[k] < Pow2(width)
  }

  /** All symbols of `width` bits, one after the other. */
  function Flatten(symbols: seq<nat>, width: nat): seq<bool> {
    if symbols == [] then [] else Bits(symbols[0], width) + Flatten(symbols[1..], width)
  }

  /** The stream cut into whole symbols, */
  function Whole(bits: seq<bool>, width: nat): (r: seq<nat>)
    requires width > 0
    ensures Fits(r, width)
    decreases |bits|
  {
    if |bits| < width then [] else [Value(bits[..width])] + Whole(bits[width..], width)
  }

  /** and what is left over. */
  function Rest(bits: seq<bool>, width: nat): (r: seq<bool>)
    requires width > 0
    ensures |r| < width
    decreases |bits|
  {
    if |bits| < width then bits else Rest(bits[width..], width)
  }

  lemma FlattenFirst(first: nat, symbols: seq<nat>, width: nat)
    ensures Flatten([first] + symbols, width) == Bits(first, width) + Flatten(symbols, width)
  {
    assert ([first] + symbols)[1..] == symbols;
  }

  lemma {:induction false} WholeAndRest(bits: seq<bool>, width: nat)
    requires width > 0
    ensures Flatten(Whole(bits, width), width) + Rest(bits, width) == bits
    decreases |bits|
  {
    if |bits| < width {
      assert [] + bits == bits;
    } else {
      var head, tail := bits[..width], bits[width..];
      WholeAndRest(tail, width);
      BitsOfValue(head);
      FlattenFirst(Value(head), Whole(tail, width), width);
      Associative(head, Flatten(Whole(tail, width), width), Rest(tail, width));
      assert head + tail == bits;
    }
  }

  lemma Associative<T>(a: seq<T>, b: seq<T>, c: seq<T>)
    ensures a + b + c == a + (b + c)
  {
  }

  /** The first symbol of a stream. */
  lemma CutFirst(head: seq<bool>, rest: seq<bool>, width: nat)
    requires |head| == width > 0
    ensures Whole(head + rest, width) == [Value(head)] + Whole(rest, width)
    ensures Rest(head + rest, width) == Rest(rest, width)
  {
    assert (head + rest)[..width] == head && (head + rest)[width..] == rest;
  }

  /** A stream of symbols followed by less than one symbol is cut exactly there. */
  lemma {:induction false} CutBack(symbols: seq<nat>, tail: seq<bool>, width: nat)
    requires Fits(symbols, width) && |tail| < width
    ensures Whole(Flatten(symbols, width) + tail, width) == symbols && Rest(Flatten(symbols, width) + tail, width) == tail
    decreases |symbols|
  {
    if symbols == [] {
      assert [] + tail == tail;
    } else {
      var head, more := Bits(symbols[0], width), Flatten(symbols[1..], width);
      CutBack(symbols[1..], tail, width);
      ValueOfBits(symbols[0], width);
      Associative(head, more, tail);
      CutFirst(head, more + tail, width);
      assert [symbols[0]] + symbols[1..] == symbols;
    }
  }

  /** More bits: the rest so far and the new ones are cut on their own. */
  lemma {:induction false} CutMore(bits: seq<bool>, more: seq<bool>, width: nat)
    requires width > 0
    ensures Whole(bits + more, width) == Whole(bits, width) + Whole(Rest(bits, width) + more, width)
    ensures Rest(bits + more, width) == Rest(Rest(bits, width) + more, width)
    decreases |bits|
  {
    if |bits| < width {
      assert [] + Whole(bits + more, width) == Whole(bits + more, width);
    } else {
      var head, tail := bits[..width], bits[width..];
      assert bits == head + tail;
      CutMore(tail, more, width);
      Associative(head, tail, more);
      CutFirst(head, tail, width);
      CutFirst(head, tail + more, width);
      Associative([Value(head)], Whole(tail, width), Whole(Rest(tail, width) + more, width));
    }
  }

  lemma {:induction false} FlattenMore(symbols: seq<nat>, last: nat, width: nat)
    ensures Flatten(symbols + [last], width) == Flatten(symbols, width) + Bits(last, width)
  {
    if symbols == [] {
      assert [last][1..] == [] && Bits(last, width) + [] == [] + Bits(last, width);
      assert [] + [last] == [last];
    } else {
      FlattenMore(symbols[1..], last, width);
      assert (symbols + [last])[1..] == symbols[1..] + [last];
      assert Bits(symbols[0], width) + (Flatten(symbols[1..], width) + Bits(last, width)) ==
             Bits(symbols[0], width) + Flatten(symbols[1..], width) + Bits(last, width);
    }
  }

  // ---- the conversion ---------------------------------------------------------------------

  /** The rest completed with zeros to one more symbol, if there is a rest. */
  function Padded(rest: seq<bool>, width: nat): seq<nat>
    requires |rest| < width
  {
    if rest == [] then [] else [Value(rest + Zeros(width - |rest|))]
  }

  /** The bits of `data` in symbols of `to` bits. With `pad` the last symbol is completed
      with zeros; without it, what is left over must be less than one input symbol, and
      zero. None when an input symbol is too wide or the rest is not such a padding. */
  function Regroup(data: seq<nat>, from: nat, to: nat, pad: bool): Option<seq<nat>>
    requires to > 0
  {
    var bits := Flatten(data, from);
    if Fits(data, from) then Completed(Whole(bits, to), Rest(bits, to), from, to, pad) else None
  }

  function Completed(whole: seq<nat>, rest: seq<bool>, from: nat, to: nat, pad: bool): Option<seq<nat>>
    requires |rest| < to
  {
    if pad then Some(whole + Padded(rest, to))
    else if |rest| >= from || rest != Zeros(|rest|) then None
    else Some(whole)
  }

  /** The conversion as called, with a 32-bit accumulator and 8-bit bytes. */
  method ConvertBech32Bits(data: seq<nat>, from: nat, to: nat, pad: bool) returns (r: Option<seq<nat>>)
    requires 1 <= from <= 8 && 1 <= to <= 8
    ensures r == Regroup(data, from, to, pad)
  {
    r := ConvertBits(Machine(32, 8), data, from, to, pad);
  }

  /** The conversion loop. The accumulator wraps, but any word of 15 bits or more gives
      the same result. */
  method ConvertBits(machine: Machine, data: seq<nat>, from: nat, to: nat, pad: bool) returns (r: Option<seq<nat>>)
    requires 1 <= from <= 8 && 1 <= to <= 8 && machine.word >= 15 && machine.byte >= 8
    ensures r == Regroup(data, from, to, pad)
  {
    var result: seq<nat>, accumulator: nat, bits: nat := [], 0, 0;
    assert Bits(accumulator, 0) == [] && data[..0] == [];
    for index := 0 to |data|
      invariant Fits(data[..index], from)
      invariant Holds(Flatten(data[..index], from), result, accumulator, bits, to)
    {
      if data[index] >= Pow2(from) {
        return None;
      }
      FlattenMore(data[..index], data[index], from);
      assert data[..index] + [data[index]] == data[..index + 1];
      result, accumulator, bits :=
        AddValue(machine, Flatten(data[..index], from), result, accumulator, bits, data[index], from, to);
    }
    assert data[..|data|] == data;
    r := Finish(machine, result, accumulator, bits, from, to, pad);
  }

  /** The loop variables hold the stream read so far: whole symbols in `result`, the
      rest in the low bits of the accumulator. */
  ghost predicate Holds(stream: seq<bool>, result: seq<nat>, accumulator: nat, bits: nat, to: nat) {
    bits < to && result == Whole(stream, to) && Bits(accumulator, bits) == Rest(stream, to)
  }

  method AddValue(machine: Machine, ghost stream: seq<bool>, result: seq<nat>, accumulator: nat, bits: nat, value: nat, from: nat, to: nat)
    returns (longer: seq<nat>, next: nat, left: nat)
    requires 1 <= from <= 8 && 1 <= to <= 8 && machine.word >= 15 && machine.byte >= 8 && value < Pow2(from)
    requires Holds(stream, result, accumulator, bits, to)
    ensures Holds(stream + Bits(value, from), longer, next, left, to)
  {
    CutMore(stream, Bits(value, from), to);
    next := Shifted(machine, accumulator, bits, value, from);
    var taken;
    taken, left := TakeSymbols(machine, next, bits + from, to);
    longer := result + taken;
  }

  method Finish(machine: Machine, result: seq<nat>, accumulator: nat, bits: nat, from: nat, to: nat, pad: bool)
    returns (r: Option<seq<nat>>)
    requires bits < to <= machine.byte && to <= machine.word
    ensures r == Completed(result, Bits(accumulator, bits), from, to, pad)
  {
    var last := LastSymbol(machine, accumulator, bits, to);
    if pad {
      r := Some(if bits > 0 then result + [last] else result);
      assert result + [] == result;
    } else if bits >= from || last != 0 {
      r := None;
    } else {
      r := Some(result);
    }
  }

  /** accumulator<<from | value, in one word. */
  method Shifted(machine: Machine, accumulator: nat, bits: nat, value: nat, from: nat) returns (r: nat)
    requires bits + from <= machine.word && value < Pow2(from)
    ensures Bits(r, bits + from) == Bits(accumulator, bits) + Bits(value, from)
  {
    r := Mask(ShiftLeft(accumulator, from) + value, machine.word);
    MaskKeepsLowBits(ShiftLeft(accumulator, from) + value, machine.word, bits + from);
    BitsConcat(accumulator, bits, value, from);
  }

  /** The inner loop: as many whole symbols as the low bits hold. */
  method TakeSymbols(machine: Machine, accumulator: nat, bits: nat, to: nat) returns (taken: seq<nat>, left: nat)
    requires 1 <= to <= machine.byte
    ensures taken == Whole(Bits(accumulator, bits), to) && left < to
    ensures Bits(accumulator, left) == Rest(Bits(accumulator, bits), to)
  {
    taken, left := [], bits;
    while left >= to
      invariant taken + Whole(Bits(accumulator, left), to) == Whole(Bits(accumulator, bits), to)
      invariant Rest(Bits(accumulator, left), to) == Rest(Bits(accumulator, bits), to)
    {
      left := left - to;
      var symbol := Mask(Mask(ShiftRight(accumulator, left), machine.byte), to);
      MaskKeepsLowBits(ShiftRight(accumulator, left), machine.byte, to);
      OneSymbol(accumulator, left, to);
      assert taken + ([symbol] + Whole(Bits(accumulator, left), to)) == taken + [symbol] + Whole(Bits(accumulator, left), to);
      taken := taken + [symbol];
    }
    assert taken + [] == taken;
  }

  lemma OneSymbol(accumulator: nat, left: nat, to: nat)
    requires to > 0
    ensures Whole(Bits(accumulator, to + left), to) == [Mask(ShiftRight(accumulator, left), to)] + Whole(Bits(accumulator, left), to)
    ensures Rest(Bits(accumulator, to + left), to) == Rest(Bits(accumulator, left), to)
  {
    BitsSplit(accumulator, to, left);
    CutFirst(Bits(ShiftRight(accumulator, left), to), Bits(accumulator, left), to);
  }

  lemma ZerosBelow(accumulator: nat, bits: nat, n: nat)
    ensures Mask(ShiftLeft(accumulator, n), bits + n) == Value(Bits(accumulator, bits) + Zeros(n))
  {
    BitsOfZero(n);
    BitsConcat(accumulator, bits, 0, n);
  }

  /** byte(accumulator<<(to-bits)) & mask: the left-over bits, completed with zeros. */
  method LastSymbol(machine: Machine, accumulator: nat, bits: nat, to: nat) returns (last: nat)
    requires bits < to <= machine.byte && to <= machine.word
    ensures last == Value(Bits(accumulator, bits) + Zeros(to - bits))
    ensures last == 0 <==> Bits(accumulator, bits) == Zeros(bits)
  {
    var shifted := ShiftLeft(accumulator, to - bits);
    last := Mask(Mask(Mask(shifted, machine.word), machine.byte), to);
    Narrowed(machine, shifted, to);
    ZerosBelow(accumulator, bits, to - bits);
    ZeroValue(Bits(accumulator, bits), to - bits);
  }

  /** Conversions to wider types in between do not matter. */
  lemma Narrowed(machine: Machine, v: nat, to: nat)
    requires to <= machine.byte && to <= machine.word
    ensures Mask(Mask(Mask(v, machine.word), machine.byte), to) == Mask(v, to)
  {
    MaskKeepsLowBits(Mask(v, machine.word), machine.byte, to);
    MaskKeepsLowBits(v, machine.word, to);
  }

  lemma {:induction false} ZeroMeansZeros(bits: seq<bool>)
    ensures Value(bits) == 0 <==> bits == Zeros(|bits|)
  {
    if bits != [] {
      var before := bits[..|bits| - 1];
      ZeroMeansZeros(before);
      assert before + [bits[|bits| - 1]] == bits && Zeros(|bits|) == Zeros(|before|) + [false];
      if bits == Zeros(|bits|) {
        assert before == Zeros(|bits|)[..|before|] == Zeros(|before|);
      }
    }
  }

  lemma ZeroValue(bits: seq<bool>, n: nat)
    ensures Value(bits + Zeros(n)) == 0 <==> bits == Zeros(|bits|)
  {
    var all := bits + Zeros(n);
    ZeroMeansZeros(all);
    ZerosSplit(bits, n);
  }

  lemma ZerosSplit(bits: seq<bool>, n: nat)
    ensures bits + Zeros(n) == Zeros(|bits| + n) <==> bits == Zeros(|bits|)
  {
    if bits + Zeros(n) == Zeros(|bits| + n) {
      forall k | 0 <= k < |bits| ensures !bits[k] {
        assert bits[k] == (bits + Zeros(n))[k];
      }
    }
  }

  // ---- exactness --------------------------------------------------------------------------

  /** How many zeros complete a rest. */
  function Missing(rest: seq<bool>, width: nat): (r: nat)
    requires |rest| < width
  {
    if rest == [] then 0 else width - |rest|
  }

  /** Padded symbols carry the stream, and as few zeros as possible. */
  lemma PaddedStream(bits: seq<bool>, width: nat)
    requires width > 0
    ensures var rest := Rest(bits, width); var symbols := Whole(bits, width) + Padded(rest, width);
            Fits(symbols, width) && Flatten(symbols, width) == bits + Zeros(Missing(rest, width))
  {
    var rest, whole := Rest(bits, width), Whole(bits, width);
    WholeAndRest(bits, width);
    if rest == [] {
      assert whole + [] == whole && bits + Zeros(0) == bits && Flatten(whole, width) + [] == Flatten(whole, width);
    } else {
      FilledStream(whole, rest, width);
    }
  }

  lemma FilledStream(whole: seq<nat>, rest: seq<bool>, width: nat)
    requires |rest| < width && Fits(whole, width)
    ensures var symbols := whole + [Value(rest + Zeros(width - |rest|))];
            Fits(symbols, width) && Flatten(symbols, width) == Flatten(whole, width) + rest + Zeros(width - |rest|)
  {
    var filled := rest + Zeros(width - |rest|);
    BitsOfValue(filled);
    FlattenMore(whole, Value(filled), width);
    assert Flatten(whole, width) + filled == Flatten(whole, width) + rest + Zeros(width - |rest|);
  }

  /** Wide symbols to narrow ones with padding, and back without: nothing is lost. */
  lemma RoundTrip(data: seq<nat>, wide: nat, narrow: nat)
    requires 0 < narrow <= wide && Fits(data, wide)
    ensures var narrowed := Regroup(data, wide, narrow, true);
            narrowed.Some? && Regroup(narrowed.value, narrow, wide, false) == Some(data)
  {
    var bits := Flatten(data, wide);
    PaddedStream(bits, narrow);
    CutBack(data, Zeros(Missing(Rest(bits, narrow), narrow)), wide);
  }

  lemma NoSymbols(symbols: seq<nat>, width: nat)
    requires |Flatten(symbols, width)| < width
    ensures symbols == []
  {
  }

  /** Less than one symbol of filling leaves no choice how much. */
  lemma {:induction false} FillingIsMissing(part: seq<bool>, filling: seq<bool>, symbols: seq<nat>, width: nat)
    requires |filling| < width && part + filling == Flatten(symbols, width)
    ensures |filling| == Missing(Rest(part, width), width)
    decreases |symbols|
  {
    if |part| >= width {
      assert symbols != [];
      assert part[width..] + filling == (part + filling)[width..] == Flatten(symbols[1..], width);
      FillingIsMissing(part[width..], filling, symbols[1..], width);
    } else if |symbols| >= 1 {
      assert |Flatten(symbols[1..], width)| < width;
      NoSymbols(symbols[1..], width);
    }
  }

  /** And conversely every accepted sequence of narrow symbols is the padded regrouping
      of its result: there is exactly one encoding. */
  lemma RoundTripBack(symbols: seq<nat>, narrow: nat, wide: nat, data: seq<nat>)
    requires 0 < narrow <= wide && Regroup(symbols, narrow, wide, false) == Some(data)
    ensures Fits(data, wide) && Regroup(data, wide, narrow, true) == Some(symbols)
  {
    var bits := Flatten(symbols, narrow);
    var part, rest := Flatten(data, wide), Rest(bits, wide);
    WholeAndRest(bits, wide);
    FillingIsMissing(part, rest, symbols, narrow);
    PaddedStream(part, narrow);
    var again := Whole(part, narrow) + Padded(Rest(part, narrow), narrow);
    CutBack(again, [], narrow);
    CutBack(symbols, [], narrow);
    assert Flatten(again, narrow) + [] == Flatten(symbols, narrow) + [];
  }
}
