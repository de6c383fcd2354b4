/** Length-prefixed frames over a writer that may take only part of what it is given,
    and a reader that may deliver its stream in any pieces. */
module Framing {
  import opened Basics

  // ---- big-endian numbers ----------------------------------------------------------------

  function Be32(n: nat): (r: seq<byte>)
    requires n < 0x1_0000_0000
    ensures |r| == 4
  {
    [(n / 0x100_0000) as byte, (n / 0x1_0000 % 256) as byte, (n / 0x100 % 256) as byte, (n % 256) as byte]
  }

  function Number(b: seq<byte>): (r: nat)
    requires |b| == 4
    ensures r < 0x1_0000_0000
  {
    b[0] as nat * 0x100_0000 + b[1] as nat * 0x1_0000 + b[2] as nat * 0x100 + b[3] as nat
  }

  lemma NumberOfBe32(n: nat)
    requires n < 0x1_0000_0000
    ensures Number(Be32(n)) == n
  {
    assert n / 0x100 == (n / 0x1_0000) * 256 + n / 0x100 % 256;
    assert n / 0x1_0000 == (n / 0x100_0000) * 256 + n / 0x1_0000 % 256;
  }

  lemma Be32OfNumber(b: seq<byte>)
    requires |b| == 4
    ensures Be32(Number(b)) == b
  {
    var n := Number(b);
    assert n / 0x100 == b[0] as nat * 0x1_0000 + b[1] as nat * 0x100 + b[2] as nat;
    assert n / 0x1_0000 == b[0] as nat * 0x100 + b[1] as nat;
    assert n / 0x100_0000 == b[0] as nat;
  }

  // ---- frames as values --------------------------------------------------------------------

  predicate FrameSize(n: nat, limit: nat) {
    0 < n <= limit
  }

  function Frame(payload: seq<byte>): seq<byte>
    requires |payload| < 0x1_0000_0000
  {
    Be32(|payload|) + payload
  }

  /** The first frame of a stream, and what follows it. */
  function Unframe(input: seq<byte>, limit: nat): Option<(seq<byte>, seq<byte>)> {
    if |input| < 4 then None
    else
      var size := Number(input[..4]);
      if !FrameSize(size, limit) || |input| < 4 + size then None else Some((input[4..4 + size], input[4 + size..]))
  }

  lemma UnframeFrame(payload: seq<byte>, rest: seq<byte>, limit: nat)
    requires FrameSize(|payload|, limit) && |payload| < 0x1_0000_0000
    ensures Unframe(Frame(payload) + rest, limit) == Some((payload, rest))
  {
    NumberOfBe32(|payload|);
    var input := Frame(payload) + rest;
    assert input[..4] == Be32(|payload|);
    assert input[4..4 + |payload|] == payload && input[4 + |payload|..] == rest;
  }

  lemma FrameUnframe(input: seq<byte>, limit: nat)
    requires Unframe(input, limit).Some?
    ensures var (payload, rest) := Unframe(input, limit).value;
            FrameSize(|payload|, limit) && |payload| < 0x1_0000_0000 && input == Frame(payload) + rest
  {
    Be32OfNumber(input[..4]);
  }

  // ---- streams -------------------------------------------------------------------------------

  class Writer {
    const reliable: bool        // makes positive progress and never fails
    var output: seq<byte>

    constructor (reliable: bool)
      ensures this.reliable == reliable && output == []
    {
      this.reliable, output := reliable, [];
    }

    /** Some part of p[from..] goes out; without failure and for a count in range, it is
        what the count says. */
    method Write(p: array<byte>, from: nat) returns (n: int, failed: bool)
      requires from < p.Length
      modifies this`output
      ensures old(output) <= output <= old(output) + p[from..]
      ensures !failed && 0 < n <= p.Length - from ==> output == old(output) + p[from..from + n]
      ensures reliable ==> !failed && 0 < n <= p.Length - from
    {
      assert 0 < 1 <= p.Length - from;
      var taken: nat :| 0 < taken <= p.Length - from;
      n, failed := *, *;
      if reliable || (!failed && 0 < n <= p.Length - from) {
        n, failed := taken, false;
      }
      output := output + p[from..from + taken];
      assert old(output) + p[from..] == output + p[from + taken..];
    }
  }

  /** Everything or an error; whatever went out is a prefix. */
  method WriteFull(w: Writer, p: array<byte>) returns (ok: bool)
    modifies w`output
    ensures ok ==> w.output == old(w.output) + p[..]
    ensures old(w.output) <= w.output <= old(w.output) + p[..]
    ensures w.reliable ==> ok
  {
    var from := 0;
    while from < p.Length
      invariant 0 <= from <= p.Length && w.output == old(w.output) + p[..from]
    {
      var n, failed := w.Write(p, from);
      assert old(w.output) + p[..from] + p[from..] == old(w.output) + p[..];
      if failed || n <= 0 || n > p.Length - from {
        return false;
      }
      assert old(w.output) + p[..from] + p[from..from + n] == old(w.output) + p[..from + n];
      from := from + n;
    }
    assert p[..from] == p[..];
    return true;
  }

  method WriteFrame(w: Writer, payload: array<byte>, limit: nat) returns (ok: bool)
    requires limit < 0x1_0000_0000
    modifies w`output
    ensures ok ==> FrameSize(payload.Length, limit) && w.output == old(w.output) + Frame(payload[..])
    ensures !FrameSize(payload.Length, limit) ==> !ok && w.output == old(w.output)
    ensures w.reliable && FrameSize(payload.Length, limit) ==> ok
  {
    if payload.Length == 0 || payload.Length > limit {
      return false;
    }
    var h := Be32(payload.Length);
    var header := new byte[4](i requires 0 <= i < 4 => h[i]);
    assert header[..] == h;
    ok := WriteFull(w, header);
    if ok {
      ok := WriteFull(w, payload);
      assert old(w.output) + h + payload[..] == old(w.output) + (h + payload[..]);
    }
  }

  class Reader {
    const reliable: bool        // fails only at the end of the stream
    var input: seq<byte>

    constructor (reliable: bool, input: seq<byte>)
      ensures this.reliable == reliable && this.input == input
    {
      this.reliable, this.input := reliable, input;
    }

    /** The next piece of the stream goes to p[from..to]. The end may be reported with
        the last piece or on its own. */
    method Read(p: array<byte>, from: nat, to: nat) returns (n: nat, ended: bool, failed: bool)
      requires from <= to <= p.Length
      modifies this`input, p
      ensures n <= to - from && n <= |old(input)| && input == old(input)[n..]
      ensures p[..] == old(p[..from]) + old(input)[..n] + old(p[from + n..])
      ensures ended ==> input == [] && !failed
      ensures n == 0 ==> from == to || ended || failed
      ensures reliable ==> !failed
    {
      failed := *;
      failed := failed && !reliable;
      var most := if |input| < to - from then |input| else to - from;
      assert most <= most && (most == 0 || 0 < most);
      var taken: nat :| taken <= most && (most == 0 || 0 < taken);
      n := taken;
      Copy(p, from, input[..n]);
      input := input[n..];
      ended := *;
      ended := !failed && input == [] && (ended || (n == 0 && from < to));
    }
  }

  /** Reads on until `p` is full; only a stream too short or an error stops it. */
  method ReadFull(r: Reader, p: array<byte>) returns (ok: bool)
    requires p.Length > 0
    modifies r`input, p
    ensures ok ==> p.Length <= |old(r.input)| && p[..] == old(r.input)[..p.Length] && r.input == old(r.input)[p.Length..]
    ensures !ok && r.reliable ==> |old(r.input)| < p.Length
    ensures |r.input| <= |old(r.input)| && r.input == old(r.input)[|old(r.input)| - |r.input|..]
  {
    var from := 0;
    while from < p.Length
      invariant 0 <= from <= p.Length && from <= |old(r.input)|
      invariant p[..from] == old(r.input)[..from] && r.input == old(r.input)[from..]
    {
      ghost var before := p[..];
      var n, ended, failed := r.Read(p, from, p.Length);
      assert p[..from + n] == before[..from] + old(r.input)[from..][..n];
      from := from + n;
      if from < p.Length && (ended || failed) {
        return false;
      }
    }
    assert p[..from] == p[..];
    return true;
  }

  /** The first frame of the stream, or nothing. */
  method ReadFrame(r: Reader, limit: nat) returns (payload: array?<byte>)
    modifies r`input
    ensures payload != null ==> fresh(payload) && Unframe(old(r.input), limit) == Some((payload[..], r.input))
    ensures payload == null && r.reliable ==> Unframe(old(r.input), limit) == None
  {
    var header := new byte[4];
    var ok := ReadFull(r, header);
    if !ok {
      return null;
    }
    var size := Number(header[..]);
    if size == 0 || size > limit {
      return null;
    }
    payload := new byte[size];
    ok := ReadFull(r, payload);
    if !ok {
      ZeroBytes(payload);
      return null;
    }
    ghost var stream := old(r.input);
    assert stream[4..][..size] == stream[4..4 + size] && stream[4..][size..] == stream[4 + size..];
  }

  /** Nothing follows. */
  method EnsureEof(r: Reader) returns (ok: bool)
    modifies r`input
    ensures ok ==> old(r.input) == []
    ensures r.reliable && old(r.input) == [] ==> ok
  {
    var extra := new byte[1];
    var n, ended, failed := r.Read(extra, 0, 1);
    ok := n == 0 && ended;
  }

  // ---- the bounded agent connection -----------------------------------------------------------

  const MAX_REQUEST := 0x10_0000

  /** How many bytes of the last frame are still to come, for a stream that consists of
      frames of bounded size; None if it does not. */
  function Outstanding(stream: seq<byte>): Option<nat>
    decreases |stream|
  {
    if stream == [] then Some(0)
    else if |stream| < 4 || Number(stream[..4]) > MAX_REQUEST then None
    else
      var size := Number(stream[..4]);
      if |stream| < 4 + size then Some(4 + size - |stream|) else Outstanding(stream[4 + size..])
  }

  /** The first frame is complete: what matters is what follows it. */
  lemma {:induction false} AfterFirst(stream: seq<byte>, more: seq<byte>)
    requires |stream| >= 4 && Number(stream[..4]) <= MAX_REQUEST && |stream| >= 4 + Number(stream[..4])
    ensures Outstanding(stream + more) == Outstanding(stream[4 + Number(stream[..4])..] + more)
  {
    var size := Number(stream[..4]);
    assert (stream + more)[..4] == stream[..4];
    assert (stream + more)[4 + size..] == stream[4 + size..] + more;
  }

  lemma {:induction false} OutstandingBody(stream: seq<byte>, more: seq<byte>)
    requires Outstanding(stream).Some? && |more| <= Outstanding(stream).value && Outstanding(stream).value > 0
    ensures Outstanding(stream + more) == Some(Outstanding(stream).value - |more|)
    decreases |stream|
  {
    var size := Number(stream[..4]);
    if |stream| < 4 + size {
      assert (stream + more)[..4] == stream[..4];
      if |stream + more| == 4 + size {
        assert (stream + more)[4 + size..] == [];
      }
    } else {
      OutstandingBody(stream[4 + size..], more);
      AfterFirst(stream, more);
    }
  }

  lemma {:induction false} OutstandingHeader(stream: seq<byte>, header: seq<byte>)
    requires Outstanding(stream) == Some(0) && |header| == 4 && Number(header) <= MAX_REQUEST
    ensures Outstanding(stream + header) == Some(Number(header))
    decreases |stream|
  {
    if stream == [] {
      assert stream + header == header && header[..4] == header && header[4..] == [];
    } else {
      OutstandingHeader(stream[4 + Number(stream[..4])..], header);
      AfterFirst(stream, header);
    }
  }

  /** One byte too many is taken for the beginning of another header. */
  lemma {:induction false} OneTooMany(stream: seq<byte>, more: seq<byte>)
    requires Outstanding(stream).Some? && 0 < Outstanding(stream).value && |more| == Outstanding(stream).value + 1
    ensures Outstanding(stream + more) == None
    decreases |stream|
  {
    var size := Number(stream[..4]);
    if |stream| < 4 + size {
      assert (stream + more)[..4] == stream[..4];
      assert |(stream + more)[4 + size..]| == 1;
    } else {
      OneTooMany(stream[4 + size..], more);
      AfterFirst(stream, more);
    }
  }

  const UINT32 := 0x1_0000_0000

  /** The most that is read into a buffer of `length` bytes while `remaining` are to
      come: the comparison sees the length modulo 2^32. */
  function Most(length: nat, remaining: nat): nat {
    if length % UINT32 > remaining then remaining else length
  }

  /** What a caller can check before the call. */
  predicate Fits(length: nat, remaining: nat) {
    length < UINT32 || length % UINT32 > remaining
  }

  /** What is still to come after `n` bytes, as 32 bits hold it. */
  function Less(remaining: nat, n: nat): (r: nat)
    requires remaining < UINT32
    ensures r < UINT32
    ensures n <= remaining ==> r == remaining - n
  {
    (remaining - n) % UINT32
  }

  lemma MostFits(length: nat, remaining: nat)
    requires remaining < UINT32
    ensures Most(length, remaining) <= length
    ensures Most(length, remaining) <= remaining <==> Fits(length, remaining)
  {
  }

  /** Exactly then the read cannot run beyond the frame, whatever arrives. */
  lemma FitsIsExact(stream: seq<byte>, length: nat)
    requires Outstanding(stream).Some? && 0 < Outstanding(stream).value < UINT32
    ensures (forall more: seq<byte> :: |more| <= Most(length, Outstanding(stream).value) ==> Outstanding(stream + more).Some?)
              <==> Fits(length, Outstanding(stream).value)
  {
    var remaining := Outstanding(stream).value;
    MostFits(length, remaining);
    if Fits(length, remaining) {
      forall more: seq<byte> | |more| <= Most(length, remaining) ensures Outstanding(stream + more).Some? {
        OutstandingBody(stream, more);
      }
    } else {
      var more: seq<byte> := seq(remaining + 1, _ => 0);
      OneTooMany(stream, more);
    }
  }

  datatype ReadError = NoError | ShortBuffer | RequestTooLarge | StreamError

  /** Hands on the stream of a connection, frame by frame, up to the first frame that is
      too large. */
  class BoundedConnection {
    const connection: Reader
    var remaining: nat
    ghost var delivered: seq<byte>

    /** What has been handed on so far is a sequence of frames of bounded size. */
    ghost predicate Valid()
      reads this
    {
      Outstanding(delivered) == Some(remaining) && remaining < UINT32
    }

    constructor (connection: Reader)
      ensures Valid() && delivered == [] && this.connection == connection
    {
      this.connection, remaining, delivered := connection, 0, [];
    }

    /** A header is handed on whole, and only if its frame is not too large; after it at
        most the announced bytes, if the buffer fits. Nothing is lost, added or reordered. */
    method Read(p: array<byte>) returns (n: nat, error: ReadError)
      requires Valid()
      modifies this, connection`input, p
      ensures n <= p.Length && delivered == old(delivered) + p[..n]
      ensures old(remaining) == 0 || Fits(p.Length, old(remaining)) ==> Valid()
      ensures old(remaining) > 0 ==> n <= Most(p.Length, old(remaining)) && remaining == Less(old(remaining), n)
      ensures error.NoError? || n > 0 ==>
                && n <= |old(connection.input)|
                && p[..n] == old(connection.input)[..n] && connection.input == old(connection.input)[n..]
      ensures error.RequestTooLarge? ==>
                && old(remaining) == 0 && |old(connection.input)| >= 4
                && Number(old(connection.input)[..4]) > MAX_REQUEST
      ensures error.ShortBuffer? <==> old(remaining) == 0 && p.Length < 4
      ensures error.ShortBuffer? ==> connection.input == old(connection.input)
    {
      if remaining == 0 {
        n, error := ReadHeader(p);
        return;
      }
      n, error := ReadBody(p);
    }

    method ReadBody(p: array<byte>) returns (n: nat, error: ReadError)
      requires Valid() && remaining > 0
      modifies this, connection`input, p
      ensures n <= Most(p.Length, old(remaining)) <= p.Length && delivered == old(delivered) + p[..n]
      ensures Fits(p.Length, old(remaining)) ==> Valid()
      ensures remaining == Less(old(remaining), n)
      ensures n <= |old(connection.input)| && p[..n] == old(connection.input)[..n] && connection.input == old(connection.input)[n..]
      ensures error.NoError? || error.StreamError?
    {
      MostFits(p.Length, remaining);
      var ended, failed;
      n, ended, failed := connection.Read(p, 0, Most(p.Length, remaining));
      if Fits(p.Length, remaining) {
        OutstandingBody(delivered, p[..n]);
      }
      remaining := Less(remaining, n);
      delivered := delivered + p[..n];
      error := if ended || failed then StreamError else NoError;
    }

    method ReadHeader(p: array<byte>) returns (n: nat, error: ReadError)
      requires Valid() && remaining == 0
      modifies this, connection`input, p
      ensures Valid() && n <= p.Length && delivered == old(delivered) + p[..n]
      ensures error.NoError? || n > 0 ==>
                && n <= |old(connection.input)|
                && p[..n] == old(connection.input)[..n] && connection.input == old(connection.input)[n..]
      ensures error.RequestTooLarge? ==> |old(connection.input)| >= 4 && Number(old(connection.input)[..4]) > MAX_REQUEST
      ensures error.ShortBuffer? <==> p.Length < 4
      ensures error.ShortBuffer? ==> connection.input == old(connection.input)
    {
      assert delivered + p[..0] == delivered;
      if p.Length < 4 {
        return 0, ShortBuffer;
      }
      var header := new byte[4];
      var ok := ReadFull(connection, header);
      if !ok {
        return 0, StreamError;
      }
      var length := Number(header[..]);
      if length > MAX_REQUEST {
        return 0, RequestTooLarge;
      }
      Copy(p, 0, header[..]);
      assert p[..4] == header[..];
      OutstandingHeader(delivered, header[..]);
      remaining := length;
      delivered := delivered + header[..];
      return 4, NoError;
    }
  }
}
