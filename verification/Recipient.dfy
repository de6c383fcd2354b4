/** Recipients: canonical X25519 public keys (section 4.1 of RFC 7748) and the payload
    that carries them. Identifier derivation and the low-order check are functions of
    the key that this model leaves open. */
module Recipient {
  import opened Basics

  type PublicKey = k: seq<byte> | |k| == 32 witness seq(32, _ => 0)
  type Id = d: seq<byte> | |d| == 16 witness seq(16, _ => 0)

  datatype Domain = HardwareKeyId | RecoveryKeyId | ProfileId

  datatype KeyInfo = KeyInfo(id: Id, publicKey: PublicKey)

  datatype Recipient = Recipient(profileId: Id, hardware: KeyInfo, recovery: Option<KeyInfo>)

  datatype Error =
    | InvalidKey | NotIndependent
    | BadSize | BadVersion | BadAlgorithm | UnknownFlags | ReservedByte | InconsistentSize
    | ProfileMismatch | HardwareIdMismatch | RecoveryIdMismatch

  datatype Result = Ok(recipient: Recipient) | Err(error: Error)

  // ---- canonical field elements ------------------------------------------------------------

  function Pow256(n: nat): (r: nat)
    ensures r > 0
  {
    if n == 0 then 1 else 256 * Pow256(n - 1)
  }

  /** The little-endian value of a string of bytes. */
  function LittleEndian(bytes: seq<byte>): (r: nat)
    ensures r < Pow256(|bytes|)
  {
    if bytes == [] then 0 else bytes[0] as nat + 256 * LittleEndian(bytes[1..])
  }

  /** 2^255 - 19 */
  const PRIME: nat := 128 * Pow256(31) - 19

  function AllOnes(n: nat): seq<byte> {
    seq(n, _ => 0xff)
  }

  const PRIME_BYTES: seq<byte> := [0xed] + AllOnes(30) + [0x7f]

  lemma {:induction false} OnesThen(n: nat, last: byte)
    ensures LittleEndian(AllOnes(n) + [last]) == (last as nat + 1) * Pow256(n) - 1
  {
    var bytes := AllOnes(n) + [last];
    if n == 0 {
      assert bytes[1..] == [];
    } else {
      assert bytes[1..] == AllOnes(n - 1) + [last];
      OnesThen(n - 1, last);
      assert 256 * ((last as nat + 1) * Pow256(n - 1)) == (last as nat + 1) * (256 * Pow256(n - 1));
    }
  }

  lemma PrimeBytesArePrime()
    ensures |PRIME_BYTES| == 32 && LittleEndian(PRIME_BYTES) == PRIME
  {
    assert PRIME_BYTES == [0xed] + (AllOnes(30) + [0x7f]);
    assert PRIME_BYTES[1..] == AllOnes(30) + [0x7f];
    OnesThen(30, 0x7f);
    assert Pow256(31) == 256 * Pow256(30);
  }

  /** The most significant byte that differs decides. */
  lemma {:induction false} TopByteDecides(a: seq<byte>, b: seq<byte>, i: nat)
    requires i < |a| == |b| && a[i] < b[i] && a[i + 1..] == b[i + 1..]
    ensures LittleEndian(a) < LittleEndian(b)
  {
    if i > 0 {
      assert a[1..][i..] == a[i + 1..] && b[1..][i..] == b[i + 1..];
      TopByteDecides(a[1..], b[1..], i - 1);
    }
  }

  predicate Canonical(key: PublicKey) {
    LittleEndian(key) < PRIME
  }

  /** The comparison from the top byte down decides exactly that. */
  method CanonicalFieldElement(key: PublicKey) returns (canonical: bool)
    ensures canonical == Canonical(key)
  {
    var prime := PrimeArray();
    PrimeBytesArePrime();
    var i := 32;
    while i > 0
      invariant 0 <= i <= 32 && prime[..] == PRIME_BYTES && key[i..] == PRIME_BYTES[i..]
    {
      i := i - 1;
      if key[i] < prime[i] {
        TopByteDecides(key, PRIME_BYTES, i);
        return true;
      }
      if key[i] > prime[i] {
        TopByteDecides(PRIME_BYTES, key, i);
        return false;
      }
    }
    return false;
  }

  method PrimeArray() returns (prime: array<byte>)
    ensures fresh(prime) && prime[..] == PRIME_BYTES
  {
    prime := new byte[32];
    for i := 0 to 32
      invariant forall k :: 0 <= k < i ==> prime[k] == 0xff
    {
      prime[i] := 0xff;
    }
    prime[0] := 0xed;
    prime[31] := 0x7f;
  }

  // ---- construction --------------------------------------------------------------------------

  /** What the model leaves open: the identifier of a key in a domain, and which keys
      have low order. */
  datatype Crypto = Crypto(derive: (Domain, PublicKey) -> Id, lowOrder: PublicKey -> bool)

  predicate ValidKey(c: Crypto, key: PublicKey) {
    Canonical(key) && !c.lowOrder(key)
  }

  function NewRecipient(c: Crypto, hardware: PublicKey, recovery: Option<PublicKey>): Result {
    if !ValidKey(c, hardware) then Err(InvalidKey)
    else
      var profile, info := c.derive(ProfileId, hardware), KeyInfo(c.derive(HardwareKeyId, hardware), hardware);
      if recovery.None? then Ok(Recipient(profile, info, None))
      else if !ValidKey(c, recovery.value) then Err(InvalidKey)
      else if hardware == recovery.value then Err(NotIndependent)
      else Ok(Recipient(profile, info, Some(KeyInfo(c.derive(RecoveryKeyId, recovery.value), recovery.value))))
  }

  function RecoveryKey(r: Recipient): Option<PublicKey> {
    if r.recovery.Some? then Some(r.recovery.value.publicKey) else None
  }

  /** A recipient that NewRecipient can return. */
  predicate Constructible(c: Crypto, r: Recipient) {
    NewRecipient(c, r.hardware.publicKey, RecoveryKey(r)) == Ok(r)
  }

  lemma ConstructedIsConstructible(c: Crypto, hardware: PublicKey, recovery: Option<PublicKey>)
    requires NewRecipient(c, hardware, recovery).Ok?
    ensures var r := NewRecipient(c, hardware, recovery).recipient;
            Constructible(c, r) && r.hardware.publicKey == hardware && RecoveryKey(r) == recovery
  {
  }

  // ---- the payload ---------------------------------------------------------------------------

  const VERSION: byte := 1
  const ALGORITHM: byte := 1
  const RECOVERY_FLAG: byte := 1
  const RECIPIENT_SIZE := 68
  const RECOVERY_SIZE := 48

  function Header(flags: byte): seq<byte> {
    [VERSION, ALGORITHM, flags, 0]
  }

  function Payload(r: Recipient): seq<byte> {
    Header(if r.recovery.Some? then RECOVERY_FLAG else 0) + r.profileId + r.hardware.id + r.hardware.publicKey +
    if r.recovery.Some? then r.recovery.value.id + r.recovery.value.publicKey else []
  }

  /** Filling the buffer section by section gives exactly the payload. */
  method EncodePayload(r: Recipient) returns (payload: array<byte>)
    ensures fresh(payload) && payload[..] == Payload(r)
  {
    var hasRecovery := r.recovery.Some?;
    var size := RECIPIENT_SIZE + if hasRecovery then RECOVERY_SIZE else 0;
    payload := new byte[size](_ => 0);
    payload[0], payload[1], payload[2] := VERSION, ALGORITHM, if hasRecovery then RECOVERY_FLAG else 0;
    assert payload[..4] == Header(payload[2]);
    FillSections(payload, payload[..4], r);
    assert payload[..size] == payload[..];
  }

  method FillSections(payload: array<byte>, ghost header: seq<byte>, r: Recipient)
    requires payload.Length == RECIPIENT_SIZE + (if r.recovery.Some? then RECOVERY_SIZE else 0)
    requires |header| == 4 && payload[..4] == header
    modifies payload
    ensures payload[..payload.Length] ==
              header + r.profileId + r.hardware.id + r.hardware.publicKey +
              if r.recovery.Some? then r.recovery.value.id + r.recovery.value.publicKey else []
  {
    Copy(payload, 4, r.profileId);
    Copy(payload, 20, r.hardware.id);
    Copy(payload, 36, r.hardware.publicKey);
    ghost var first := header + r.profileId + r.hardware.id + r.hardware.publicKey;
    assert payload[..68] == first;
    if r.recovery.Some? {
      Copy(payload, 68, r.recovery.value.id);
      Copy(payload, 84, r.recovery.value.publicKey);
      assert first + r.recovery.value.id + r.recovery.value.publicKey == first + (r.recovery.value.id + r.recovery.value.publicKey);
    }
  }

  function ParsePayload(c: Crypto, p: seq<byte>): Result {
    if |p| != RECIPIENT_SIZE && |p| != RECIPIENT_SIZE + RECOVERY_SIZE then Err(BadSize)
    else if p[0] != VERSION then Err(BadVersion)
    else if p[1] != ALGORITHM then Err(BadAlgorithm)
    else if p[2] != 0 && p[2] != RECOVERY_FLAG then Err(UnknownFlags)
    else if p[3] != 0 then Err(ReservedByte)
    else
      var hasRecovery := p[2] == RECOVERY_FLAG;
      if |p| != RECIPIENT_SIZE + (if hasRecovery then RECOVERY_SIZE else 0) then Err(InconsistentSize)
      else
        var recovery: Option<PublicKey> := if hasRecovery then Some(p[84..116]) else None;
        match NewRecipient(c, p[36..68], recovery)
        case Err(e) => Err(e)
        case Ok(r) =>
          if r.profileId != p[4..20] then Err(ProfileMismatch)
          else if r.hardware.id != p[20..36] then Err(HardwareIdMismatch)
          else if hasRecovery && r.recovery.value.id != p[68..84] then Err(RecoveryIdMismatch)
          else Ok(r)
  }

  // ---- exactly one payload per recipient -------------------------------------------------------

  /** Where the sections of a payload lie. */
  lemma PayloadSections(r: Recipient)
    ensures var p := Payload(r);
            && |p| == RECIPIENT_SIZE + (if r.recovery.Some? then RECOVERY_SIZE else 0)
            && p[..4] == Header(if r.recovery.Some? then RECOVERY_FLAG else 0)
            && p[4..20] == r.profileId && p[20..36] == r.hardware.id && p[36..68] == r.hardware.publicKey
            && (r.recovery.Some? ==> p[68..84] == r.recovery.value.id && p[84..116] == r.recovery.value.publicKey)
  {
  }

  /** Parsing an encoded recipient gives it back. */
  lemma ParseAfterEncode(c: Crypto, r: Recipient)
    requires Constructible(c, r)
    ensures ParsePayload(c, Payload(r)) == Ok(r)
  {
    PayloadSections(r);
    var p := Payload(r);
    assert p[0] == p[..4][0] && p[1] == p[..4][1] && p[2] == p[..4][2] && p[3] == p[..4][3];
  }

  /** What an accepted payload says about its sections. */
  lemma ParsedSections(c: Crypto, p: seq<byte>)
    requires ParsePayload(c, p).Ok?
    ensures var r := ParsePayload(c, p).recipient;
            && Constructible(c, r)
            && |p| == RECIPIENT_SIZE + (if r.recovery.Some? then RECOVERY_SIZE else 0)
            && p[0] == VERSION && p[1] == ALGORITHM && p[2] == (if r.recovery.Some? then RECOVERY_FLAG else 0) && p[3] == 0
            && r.profileId == p[4..20] && r.hardware.id == p[20..36] && r.hardware.publicKey == p[36..68]
            && (r.recovery.Some? ==> r.recovery.value.id == p[68..84] && r.recovery.value.publicKey == p[84..116])
  {
  }

  lemma JoinSections(p: seq<byte>)
    requires |p| >= 68
    ensures p == [p[0], p[1], p[2], p[3]] + p[4..20] + p[20..36] + p[36..68] + p[68..]
    ensures |p| == 116 ==> p[68..] == p[68..84] + p[84..116]
  {
  }

  /** And whatever parses is the encoding of a constructible recipient. */
  lemma EncodeAfterParse(c: Crypto, p: seq<byte>)
    requires ParsePayload(c, p).Ok?
    ensures var r := ParsePayload(c, p).recipient; Constructible(c, r) && Payload(r) == p
  {
    ParsedSections(c, p);
    JoinSections(p);
  }

  /** Both together: a payload is accepted if and only if it encodes a constructible
      recipient, and then it is the only one that does. */
  lemma AcceptsExactlyEncodings(c: Crypto, p: seq<byte>)
    ensures ParsePayload(c, p).Ok? <==> exists r :: Constructible(c, r) && Payload(r) == p
    ensures forall r, q :: Constructible(c, r) && ParsePayload(c, q) == Ok(r) ==> q == Payload(r)
  {
    if ParsePayload(c, p).Ok? {
      EncodeAfterParse(c, p);
    } else {
      forall r | Constructible(c, r) ensures Payload(r) != p {
        ParseAfterEncode(c, r);
      }
    }
    forall r, q | Constructible(c, r) && ParsePayload(c, q) == Ok(r) ensures q == Payload(r) {
      EncodeAfterParse(c, q);
    }
  }
}
