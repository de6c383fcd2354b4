/** The binary PIN resolver protocol: messages at fixed offsets, bound to one session,
    one request and one configuration, inside one frame. */
module PinProtocol {
  import opened Basics
  import opened Framing
  import SessionProtocol

  type ErrorClass = SessionProtocol.ErrorClass

  type Identifier = s: seq<byte> | |s| == 16 witness seq(16, _ => 0)
  type Binding = s: seq<byte> | |s| == 32 witness seq(32, _ => 0)

  /** Whom a message is for. */
  datatype Address = Address(session: Identifier, request: Identifier, binding: Binding)

  datatype Answer = Pin(value: seq<byte>) | Failed(error: ErrorClass)

  const MAGIC := 0x5954504e
  const VERSION: byte := 2
  const REQUEST_TYPE: byte := 1
  const RESPONSE_TYPE: byte := 2
  const SUCCESS: byte := 0
  const ERROR: byte := 1
  const MAX_PIN := 64
  const REQUEST_SIZE := 70
  const RESPONSE_HEADER_SIZE := 73
  const MAX_FRAME := 137

  // ---- validity of identifiers -----------------------------------------------------------------

  predicate NonZero(s: seq<byte>) {
    exists k :: 0 <= k < |s| && s[k] != 0
  }

  /** a | b */
  function Or(a: nat, b: nat): nat {
    if a == 0 && b == 0 then 0
    else 2 * Or(a / 2, b / 2) + if a % 2 == 1 || b % 2 == 1 then 1 else 0
  }

  lemma {:induction false} OrIsZero(a: nat, b: nat)
    ensures Or(a, b) == 0 <==> a == 0 && b == 0
  {
    if a != 0 || b != 0 {
      OrIsZero(a / 2, b / 2);
    }
  }

  /** Collecting all bytes in one decides whether any is non-zero. */
  method IdentifierIsValid(s: seq<byte>) returns (valid: bool)
    ensures valid == NonZero(s)
  {
    var combined: nat := 0;
    for i := 0 to |s|
      invariant combined == 0 <==> forall k :: 0 <= k < i ==> s[k] == 0
    {
      OrIsZero(combined, s[i] as nat);
      combined := Or(combined, s[i] as nat);
    }
    return combined != 0;
  }

  predicate ValidAddress(a: Address) {
    NonZero(a.session) && NonZero(a.request) && NonZero(a.binding)
  }

  // ---- messages as values ---------------------------------------------------------------------

  function Header(kind: byte, a: Address): (r: seq<byte>)
    ensures |r| == REQUEST_SIZE
  {
    Be32(MAGIC) + [VERSION, kind] + a.session + a.request + a.binding
  }

  function ErrorCode(e: ErrorClass): Option<byte> {
    match e
    case Configuration => Some(1)
    case PinProvider => Some(2)
    case Canceled => Some(3)
    case Timeout => Some(4)
    case HelperFailed => Some(5)
    case _ => None
  }

  function CodeError(code: byte): Option<ErrorClass> {
    if code == 1 then Some(SessionProtocol.Configuration)
    else if code == 2 then Some(SessionProtocol.PinProvider)
    else if code == 3 then Some(SessionProtocol.Canceled)
    else if code == 4 then Some(SessionProtocol.Timeout)
    else if code == 5 then Some(SessionProtocol.HelperFailed)
    else None
  }

  function Be16(n: nat): seq<byte>
    requires n < 0x1_0000
  {
    [(n / 256) as byte, (n % 256) as byte]
  }

  function Number16(b: seq<byte>): nat
    requires |b| == 2
  {
    b[0] as nat * 256 + b[1] as nat
  }

  /** None where marshalling is refused. */
  function Response(a: Address, answer: Answer): Option<seq<byte>> {
    if !ValidAddress(a) then None
    else
      match answer
      case Pin(p) =>
        if |p| == 0 || |p| > MAX_PIN then None
        else Some(Header(RESPONSE_TYPE, a) + [SUCCESS] + Be16(|p|) + p)
      case Failed(e) =>
        if ErrorCode(e).None? then None
        else Some(Header(RESPONSE_TYPE, a) + [ERROR] + Be16(1) + [ErrorCode(e).value])
  }

  function Request(a: Address): Option<seq<byte>> {
    if ValidAddress(a) then Some(Header(REQUEST_TYPE, a)) else None
  }

  const HELPER_FAILED: Answer := Failed(SessionProtocol.HelperFailed)

  predicate ValidBaseHeader(p: seq<byte>, kind: byte, session: Identifier, request: Identifier) {
    && |p| >= REQUEST_SIZE && NonZero(session) && NonZero(request)
    && Number(p[..4]) == MAGIC && p[4] == VERSION && p[5] == kind && p[6..22] == session && p[22..38] == request
  }

  function ParseResponse(p: seq<byte>, a: Address): Answer {
    if |p| < RESPONSE_HEADER_SIZE || |p| > MAX_FRAME || !NonZero(a.binding) ||
       !ValidBaseHeader(p, RESPONSE_TYPE, a.session, a.request) || p[38..70] != a.binding
    then HELPER_FAILED
    else
      var declared := Number16(p[71..73]);
      if declared != |p| - RESPONSE_HEADER_SIZE then HELPER_FAILED
      else if p[70] == SUCCESS then
        if declared == 0 || declared > MAX_PIN then HELPER_FAILED else Pin(p[73..])
      else if p[70] == ERROR then
        if declared != 1 || CodeError(p[73]).None? then HELPER_FAILED else Failed(CodeError(p[73]).value)
      else HELPER_FAILED
  }

  /** The binding of an acceptable request. */
  function ParseRequest(p: seq<byte>, session: Identifier, request: Identifier): Option<Binding> {
    if |p| != REQUEST_SIZE || !ValidBaseHeader(p, REQUEST_TYPE, session, request) || !NonZero(p[38..70]) then None
    else Some(p[38..70])
  }

  // ---- exactness --------------------------------------------------------------------------------

  lemma HeaderSections(kind: byte, a: Address, body: seq<byte>)
    ensures var p := Header(kind, a) + body;
            && p[..4] == Be32(MAGIC) && Number(p[..4]) == MAGIC && p[4] == VERSION && p[5] == kind
            && p[6..22] == a.session && p[22..38] == a.request && p[38..70] == a.binding && p[70..] == body
  {
    NumberOfBe32(MAGIC);
    var p := Header(kind, a) + body;
    assert p[..4] == Be32(MAGIC);
  }

  lemma HeaderBack(p: seq<byte>, kind: byte, a: Address)
    requires ValidBaseHeader(p, kind, a.session, a.request) && p[38..70] == a.binding
    ensures p == Header(kind, a) + p[70..]
  {
    Be32OfNumber(p[..4]);
    assert p[..4] == Be32(MAGIC) && p[4..6] == [VERSION, kind];
    assert p == p[..4] + p[4..6] + p[6..22] + p[22..38] + p[38..70] + p[70..];
  }

  lemma CodesAreExact(e: ErrorClass, code: byte)
    ensures ErrorCode(e).Some? ==> CodeError(ErrorCode(e).value) == Some(e)
    ensures CodeError(code).Some? ==> ErrorCode(CodeError(code).value) == Some(code)
  {
  }

  /** Reading what was marshalled gives the answer back. */
  lemma ParseAfterMarshal(a: Address, answer: Answer)
    requires Response(a, answer).Some?
    ensures ParseResponse(Response(a, answer).value, a) == answer
    ensures RESPONSE_HEADER_SIZE < |Response(a, answer).value| <= MAX_FRAME
  {
    var p := Response(a, answer).value;
    if answer.Pin? {
      var body := [SUCCESS] + Be16(|answer.value|) + answer.value;
      assert p == Header(RESPONSE_TYPE, a) + body;
      HeaderSections(RESPONSE_TYPE, a, body);
      assert p[71..73] == p[70..][1..3] == Be16(|answer.value|) && p[73..] == p[70..][3..] == answer.value;
    } else {
      var body := [ERROR] + Be16(1) + [ErrorCode(answer.error).value];
      assert p == Header(RESPONSE_TYPE, a) + body;
      HeaderSections(RESPONSE_TYPE, a, body);
      CodesAreExact(answer.error, 0);
      assert p[71..73] == p[70..][1..3] == Be16(1) && p[73] == p[70..][3];
    }
  }

  /** And only what was marshalled for this address is ever read as a PIN, or as a class
      other than helper_failed. */
  lemma MarshalAfterParse(p: seq<byte>, a: Address)
    requires ParseResponse(p, a) != HELPER_FAILED
    ensures Response(a, ParseResponse(p, a)) == Some(p)
  {
    HeaderBack(p, RESPONSE_TYPE, a);
    var length, data := p[71..73], p[73..];
    assert p[70..] == [p[70]] + length + data;
    assert p == Header(RESPONSE_TYPE, a) + [p[70]] + length + data;
    assert Be16(Number16(length)) == length && |data| == Number16(length);
    if p[70] == ERROR {
      CodesAreExact(SessionProtocol.HelperFailed, p[73]);
      assert data == [p[73]];
    }
  }

  lemma ResponsesAreExact(p: seq<byte>, a: Address, answer: Answer)
    requires answer != HELPER_FAILED
    ensures ParseResponse(p, a) == answer <==> Response(a, answer) == Some(p)
  {
    if ParseResponse(p, a) == answer {
      MarshalAfterParse(p, a);
    }
    if Response(a, answer) == Some(p) {
      ParseAfterMarshal(a, answer);
    }
  }

  lemma RequestsAreExact(p: seq<byte>, a: Address)
    ensures ParseRequest(p, a.session, a.request) == Some(a.binding) <==> Request(a) == Some(p)
  {
    if ParseRequest(p, a.session, a.request) == Some(a.binding) {
      HeaderBack(p, REQUEST_TYPE, a);
      assert p[70..] == [] && Header(REQUEST_TYPE, a) + [] == Header(REQUEST_TYPE, a);
    }
    if Request(a) == Some(p) {
      HeaderSections(REQUEST_TYPE, a, []);
      assert p == Header(REQUEST_TYPE, a) + [];
    }
  }

  // ---- filling and consuming buffers ---------------------------------------------------------------

  method PutHeader(payload: array<byte>, kind: byte, a: Address)
    requires payload.Length >= REQUEST_SIZE
    modifies payload
    ensures payload[..] == Header(kind, a) + old(payload[REQUEST_SIZE..])
  {
    Copy(payload, 0, Be32(MAGIC));
    assert payload[..4] == Be32(MAGIC);
    payload[4] := VERSION;
    payload[5] := kind;
    assert payload[..6] == Be32(MAGIC) + [VERSION, kind];
    Copy(payload, 6, a.session);
    Copy(payload, 22, a.request);
    assert payload[..38] == Be32(MAGIC) + [VERSION, kind] + a.session + a.request;
    Copy(payload, 38, a.binding);
    assert payload[..70] == Header(kind, a);
    assert payload[70..] == old(payload[70..]);
    assert payload[..] == payload[..70] + payload[70..];
  }

  method MarshalRequest(a: Address) returns (payload: array?<byte>)
    ensures payload == null <==> Request(a) == None
    ensures payload != null ==> fresh(payload) && Request(a) == Some(payload[..])
  {
    if !ValidAddress(a) {
      return null;
    }
    payload := new byte[REQUEST_SIZE];
    PutHeader(payload, REQUEST_TYPE, a);
    assert payload[..] == Header(REQUEST_TYPE, a);
  }

  method MarshalResponse(a: Address, answer: Answer) returns (payload: array?<byte>)
    ensures payload == null <==> Response(a, answer) == None
    ensures payload != null ==> fresh(payload) && Response(a, answer) == Some(payload[..])
  {
    if !ValidAddress(a) {
      return null;
    }
    var status, data: seq<byte>;
    match answer {
      case Pin(p) =>
        if |p| == 0 || |p| > MAX_PIN {
          return null;
        }
        status, data := [SUCCESS], p;
      case Failed(e) =>
        var code := ErrorCode(e);
        if code.None? {
          return null;
        }
        status, data := [ERROR], [code.value];
    }
    payload := new byte[RESPONSE_HEADER_SIZE + |data|];
    PutHeader(payload, RESPONSE_TYPE, a);
    FillBody(payload, Header(RESPONSE_TYPE, a), status, data);
  }

  method FillBody(payload: array<byte>, ghost header: seq<byte>, status: seq<byte>, data: seq<byte>)
    requires payload.Length == RESPONSE_HEADER_SIZE + |data| && |status| == 1 && |data| < 0x1_0000
    requires |header| == REQUEST_SIZE && payload[..REQUEST_SIZE] == header
    modifies payload
    ensures payload[..] == header + status + Be16(|data|) + data
  {
    payload[70] := status[0];
    assert payload[..71] == header + status;
    Copy(payload, 71, Be16(|data|));
    assert payload[..73] == header + status + Be16(|data|);
    Copy(payload, 73, data);
  }

  /** Consumes the payload: whatever comes out, the buffer is zero afterwards. */
  method UnmarshalResponse(payload: array<byte>, a: Address) returns (answer: Answer)
    modifies payload
    ensures answer == ParseResponse(old(payload[..]), a)
    ensures Cleared(payload)
  {
    answer := ReadResponse(payload, a);
    ZeroBytes(payload);
  }

  method ReadResponse(payload: array<byte>, a: Address) returns (answer: Answer)
    ensures answer == ParseResponse(payload[..], a)
  {
    if payload.Length < RESPONSE_HEADER_SIZE || payload.Length > MAX_FRAME || !NonZero(a.binding) {
      return HELPER_FAILED;
    }
    var valid := ValidHeader(payload, RESPONSE_TYPE, a);
    if !valid {
      return HELPER_FAILED;
    }
    var declared := Number16(payload[71..73]);
    if declared != payload.Length - RESPONSE_HEADER_SIZE {
      return HELPER_FAILED;
    }
    if payload[70] == SUCCESS {
      if declared == 0 || declared > MAX_PIN {
        return HELPER_FAILED;
      }
      return Pin(payload[73..]);
    }
    if payload[70] == ERROR {
      if declared != 1 {
        return HELPER_FAILED;
      }
      var e := CodeError(payload[73]);
      return if e.None? then HELPER_FAILED else Failed(e.value);
    }
    return HELPER_FAILED;
  }

  method ValidHeader(payload: array<byte>, kind: byte, a: Address) returns (valid: bool)
    requires payload.Length >= REQUEST_SIZE
    ensures valid == (ValidBaseHeader(payload[..], kind, a.session, a.request) && payload[..][38..70] == a.binding)
  {
    var sessionValid := IdentifierIsValid(a.session);
    var requestValid := IdentifierIsValid(a.request);
    assert payload[..][..4] == payload[..4] && payload[..][6..22] == payload[6..22];
    assert payload[..][22..38] == payload[22..38] && payload[..][38..70] == payload[38..70];
    valid := sessionValid && requestValid && Number(payload[..4]) == MAGIC && payload[4] == VERSION && payload[5] == kind &&
             payload[6..22] == a.session && payload[22..38] == a.request && payload[38..70] == a.binding;
  }

  // ---- one frame ------------------------------------------------------------------------------------

  method WriteResponseFrame(w: Writer, a: Address, answer: Answer) returns (ok: bool)
    modifies w`output
    ensures ok ==> Response(a, answer).Some? && w.output == old(w.output) + Frame(Response(a, answer).value)
    ensures Response(a, answer).None? ==> !ok && w.output == old(w.output)
    ensures w.reliable ==> (ok <==> Response(a, answer).Some?)
  {
    var payload := MarshalResponse(a, answer);
    if payload == null {
      return false;
    }
    ParseAfterMarshal(a, answer);
    ok := WriteFrame(w, payload, MAX_FRAME);
    ZeroBytes(payload);
  }

  /** What one frame on its own says. */
  function ParseFrame(input: seq<byte>, a: Address): Answer {
    match Unframe(input, MAX_FRAME)
    case None => HELPER_FAILED
    case Some((payload, rest)) => if rest == [] then ParseResponse(payload, a) else HELPER_FAILED
  }

  method ReadResponseFrame(r: Reader, a: Address) returns (answer: Answer)
    modifies r`input
    ensures r.reliable ==> answer == ParseFrame(old(r.input), a)
    ensures answer != HELPER_FAILED ==> answer == ParseFrame(old(r.input), a)
  {
    var payload := ReadFrame(r, MAX_FRAME);
    if payload == null {
      return HELPER_FAILED;
    }
    var ended := EnsureEof(r);
    if !ended {
      ZeroBytes(payload);
      return HELPER_FAILED;
    }
    answer := UnmarshalResponse(payload, a);
  }

  /** Whatever the pieces in which a response is written and read, the same PIN or class
      arrives; and if a PIN, or a class other than helper_failed, is read at all, the
      stream was the frame of exactly that response to this address. */
  lemma FramedExactly(input: seq<byte>, a: Address, answer: Answer)
    ensures Response(a, answer).Some? && input == Frame(Response(a, answer).value) ==> ParseFrame(input, a) == answer
    ensures answer != HELPER_FAILED && ParseFrame(input, a) == answer ==>
              Response(a, answer).Some? && |Response(a, answer).value| <= MAX_FRAME && input == Frame(Response(a, answer).value)
  {
    if Response(a, answer).Some? && input == Frame(Response(a, answer).value) {
      ParseAfterMarshal(a, answer);
      UnframeFrame(Response(a, answer).value, [], MAX_FRAME);
      assert input + [] == input;
    }
    if answer != HELPER_FAILED && ParseFrame(input, a) == answer {
      FrameUnframe(input, MAX_FRAME);
      var payload := Unframe(input, MAX_FRAME).value.0;
      MarshalAfterParse(payload, a);
      assert input == Frame(payload) + [];
    }
  }
}
