/** Ownership of PKCS#11 modules and sessions: every early return and every deferred
    clean-up, over a provider that may fail and a context that may end at each call. */
module Backend {
  import opened Basics
  import opened ProviderLedger
  import opened Provider

  /** A serial or slot name that does not parse is None. */
  datatype Target = Target(serial: Option<Serial>, id: Option<nat>, publicKey: seq<byte>)

  // ---- what an undisturbed device answers ----------------------------------------------

  function Zeros(): seq<byte> {
    seq(32, _ => 0)
  }

  /** The slots whose token carries the wanted serial. */
  function Matching(slots: seq<nat>, serial: nat -> Serial, wanted: Serial): seq<nat> {
    if slots == [] then []
    else
      var last := slots[|slots| - 1];
      Matching(slots[..|slots| - 1], serial, wanted) + if serial(last) == wanted then [last] else []
  }

  lemma {:induction false} MatchingGrows(slots: seq<nat>, serial: nat -> Serial, wanted: Serial, n: nat)
    requires n <= |slots|
    ensures Matching(slots[..n], serial, wanted) <= Matching(slots, serial, wanted)
  {
    if n == |slots| {
      assert slots[..n] == slots;
    } else {
      var shorter := slots[..|slots| - 1];
      MatchingGrows(shorter, serial, wanted, n);
      assert shorter[..n] == slots[..n];
    }
  }

  function Locate(d: Device, wanted: Serial): Result<nat> {
    var found := Matching(d.slots, d.serial, wanted);
    if d.slots == [] then Err(NotDetected) else if |found| == 1 then Ok(found[0]) else Err(TargetMismatch)
  }

  function Unique(d: Device, q: Query): Option<Handle> {
    if |d.objects(q)| == 1 then Some(d.objects(q)[0]) else None
  }

  /** The key inside the DER octet string of an EC point. */
  function PointKey(attributes: seq<Attribute>): Option<seq<byte>> {
    if |attributes| == 1 && attributes[0].Attribute? && attributes[0].kind == EcPoint && |attributes[0].value| == 34 &&
       attributes[0].value[0] == 0x04 && attributes[0].value[1] == 0x20
    then Some(attributes[0].value[2..]) else None
  }

  function PublicKeyIn(d: Device, slot: nat, id: nat): Result<seq<byte>> {
    match Unique(d, Query(slot, false, id))
    case None => Err(TargetMismatch)
    case Some(h) => if PointKey(d.point(h)).Some? then Ok(PointKey(d.point(h)).value) else Err(TargetMismatch)
  }

  predicate TouchAlwaysPinOnce(attributes: seq<Attribute>) {
    && |attributes| == 2
    && attributes[0] == Attribute(TouchPolicy, [2])
    && attributes[1] == Attribute(PinPolicy, [2])
  }

  /** The one private key of a slot, if touch is always required and the PIN once. */
  function PrivateKeyIn(d: Device, slot: nat, id: nat): Result<Handle> {
    match Unique(d, Query(slot, true, id))
    case None => Err(TargetMismatch)
    case Some(h) => if TouchAlwaysPinOnce(d.policies(h)) then Ok(h) else Err(PolicyMismatch)
  }

  function SharedSecret(d: Device, private: Handle, peer: seq<byte>): Result<seq<byte>> {
    var attributes := d.shared(private, peer);
    if |attributes| == 1 && attributes[0].Attribute? && attributes[0].kind == Value && |attributes[0].value| == 32 &&
       attributes[0].value != Zeros()
    then Ok(attributes[0].value) else Err(DeriveFailed)
  }

  /** The slot of the token that holds the target's public key. */
  function Opening(d: Device, target: Target): Result<nat> {
    if target.id.None? || target.serial.None? then Err(TargetMismatch)
    else
      match Locate(d, target.serial.value)
      case Err(_) => Err(TargetMismatch)
      case Ok(slot) => if PublicKeyIn(d, slot, target.id.value) == Ok(target.publicKey) then Ok(slot) else Err(TargetMismatch)
  }

  function ClassifyProbe(e: Error): Error {
    if e == ContextError || e == NotDetected || e == TargetMismatch || e == ProbeUnavailable then e else ProbeUnavailable
  }

  function ClassifyDerive(e: Error): Error {
    if e == ContextError || e == TargetMismatch || e == PinLoginFailed || e == PolicyMismatch || e == DeriveFailed then e
    else DeriveFailed
  }

  // ---- searches ----------------------------------------------------------------------

  method LocateToken(ctx: Context, p: Provider, wanted: Serial) returns (r: Result<nat>)
    modifies ctx, p`device, p`faults
    ensures p.Steady() && (old(ctx.done) ==> ctx.done)
    ensures p.faults == old(p.faults) && !ctx.done ==> r == Locate(p.device, wanted)
  {
    var done := ctx.Err();
    if done {
      return Err(ContextError);
    }
    var slots, failed := p.GetSlotList();
    done := ctx.Err();
    if done || failed {
      return Err(if done then ContextError else ProviderError);
    }
    if slots == [] {
      return Err(NotDetected);
    }
    var target, found := 0, false;
    for i := 0 to |slots|
      invariant p.Steady()
      invariant p.faults == old(p.faults) ==> slots == p.device.slots
      invariant p.faults == old(p.faults) ==>
                  Matching(slots[..i], p.device.serial, wanted) == if found then [target] else []
    {
      assert slots[..i + 1][..i] == slots[..i];
      done := ctx.Err();
      if done {
        return Err(ContextError);
      }
      var serial;
      serial, failed := p.GetTokenInfo(slots[i]);
      done := ctx.Err();
      if done || failed {
        return Err(if done then ContextError else ProviderError);
      }
      if serial == wanted {
        if found {
          MatchingGrows(slots, p.device.serial, wanted, i + 1);
          return Err(TargetMismatch);
        }
        target, found := slots[i], true;
      }
    }
    assert slots[..|slots|] == slots;
    return if found then Ok(target) else Err(TargetMismatch);
  }

  /** A session that is open and rests. */
  ghost predicate Ready(p: Provider)
    reads p
  {
    p.Lawful() && SessionOf(p.ledger).Some? && Resting(SessionOf(p.ledger).value) && !p.ledger.live.value.finalized
  }

  /** Every started search is ended, whatever happens; and a unique result is unique
      although the provider may report its results in pieces. */
  method FindUnique(ctx: Context, p: Provider, private: bool, id: nat) returns (r: Result<Option<Handle>>)
    requires Ready(p)
    modifies ctx, p`device, p`pending, p`log, p`ledger, p`faults
    ensures p.Lawful() && p.ledger == old(p.ledger) && p.Steady() && (old(ctx.done) ==> ctx.done)
    ensures p.faults == old(p.faults) && !ctx.done ==> r == Ok(Unique(p.device, Query(p.slot, private, id)))
  {
    var done := ctx.Err();
    if done {
      return Err(ContextError);
    }
    var failed := p.FindObjectsInit(private, id);
    done := ctx.Err();
    if failed {
      return Err(if done then ContextError else ProviderError);
    }
    if !done {
      done := ctx.Err();
    }
    if done {
      failed := p.FindObjectsFinal();
      return Err(ContextError);
    }
    var objects, more, findError;
    objects, failed := p.FindObjects(2);
    done := ctx.Err();
    findError := if done then Some(ContextError) else if failed then Some(ProviderError) else None;
    more := [];
    if findError.None? && |objects| == 1 {
      more, failed := p.FindObjects(1);
      done := ctx.Err();
      findError := if done then Some(ContextError) else if failed then Some(ProviderError) else None;
    }
    r := EndSearch(ctx, p, findError);
    if r.Ok? && |objects| == 1 && more == [] {
      r := Ok(Some(objects[0]));
    }
  }

  method EndSearch(ctx: Context, p: Provider, findError: Option<Error>) returns (r: Result<Option<Handle>>)
    requires p.Lawful() && Post(p.ledger, FindEnded).Some?
    modifies ctx, p`log, p`ledger, p`faults
    ensures p.Lawful() && Some(p.ledger) == Post(old(p.ledger), FindEnded) && p.Steady() && (old(ctx.done) ==> ctx.done)
    ensures r == Ok(None) ==> findError.None?
    ensures r.Ok? ==> r.value == None
    ensures findError.None? && p.faults == old(p.faults) && !ctx.done ==> r.Ok?
  {
    var before := ctx.Err();
    var failed := p.FindObjectsFinal();
    if findError.Some? {
      return Err(findError.value);
    }
    var after := ctx.Err();
    if before || after {
      return Err(ContextError);
    }
    return if failed then Err(ProviderError) else Ok(None);
  }

  method ReadPoint(ctx: Context, p: Provider, h: Handle) returns (r: Result<seq<Attribute>>)
    modifies ctx, p`device, p`faults
    ensures p.Steady() && (old(ctx.done) ==> ctx.done)
    ensures p.faults == old(p.faults) && !ctx.done ==> r == Ok(p.device.point(h))
  {
    var done := ctx.Err();
    if done {
      return Err(ContextError);
    }
    var attributes, failed := p.GetPoint(h);
    done := ctx.Err();
    return if done then Err(ContextError) else if failed then Err(ProviderError) else Ok(attributes);
  }

  method ValidatePublicTarget(ctx: Context, p: Provider, id: nat, expected: seq<byte>) returns (error: Option<Error>)
    requires Ready(p)
    modifies ctx, p`device, p`pending, p`log, p`ledger, p`faults
    ensures p.Lawful() && p.ledger == old(p.ledger) && p.Steady() && (old(ctx.done) ==> ctx.done)
    ensures p.faults == old(p.faults) && !ctx.done ==>
              error == if PublicKeyIn(p.device, p.slot, id) == Ok(expected) then None else Some(TargetMismatch)
  {
    var found := FindUnique(ctx, p, false, id);
    if found.Err? {
      return Some(ClassifyDerive(found.error));
    }
    if found.value.None? {
      return Some(TargetMismatch);
    }
    var point := ReadPoint(ctx, p, found.value.value);
    if point.Err? {
      return Some(ClassifyDerive(point.error));
    }
    return if PointKey(point.value) == Some(expected) then None else Some(TargetMismatch);
  }

  method ValidatePrivatePolicy(ctx: Context, p: Provider, h: Handle) returns (error: Option<Error>)
    modifies ctx, p`device, p`faults
    ensures p.Steady() && (old(ctx.done) ==> ctx.done)
    ensures p.faults == old(p.faults) && !ctx.done ==>
              error == if TouchAlwaysPinOnce(p.device.policies(h)) then None else Some(PolicyMismatch)
  {
    var done := ctx.Err();
    if done {
      return Some(ContextError);
    }
    var attributes, failed := p.GetPolicies(h);
    done := ctx.Err();
    if done || failed {
      return Some(ClassifyDerive(if done then ContextError else ProviderError));
    }
    return if TouchAlwaysPinOnce(attributes) then None else Some(PolicyMismatch);
  }

  /** The one private object with the required policies. */
  method FindPrivate(ctx: Context, p: Provider, id: nat) returns (r: Result<Handle>)
    requires Ready(p)
    modifies ctx, p`device, p`pending, p`log, p`ledger, p`faults
    ensures p.Lawful() && p.ledger == old(p.ledger) && p.Steady() && (old(ctx.done) ==> ctx.done)
    ensures p.faults == old(p.faults) && !ctx.done ==> r == PrivateKeyIn(p.device, p.slot, id)
  {
    var found := FindUnique(ctx, p, true, id);
    if found.Err? {
      return Err(ClassifyDerive(found.error));
    }
    if found.value.None? {
      return Err(TargetMismatch);
    }
    var error := ValidatePrivatePolicy(ctx, p, found.value.value);
    return if error.Some? then Err(error.value) else Ok(found.value.value);
  }

  // ---- Backend -------------------------------------------------------------------------

  /** Told that touch is about to be needed; may refuse. */
  class ReadyCallback {
    var calls: nat
    var refused: bool

    constructor ()
      ensures calls == 0 && !refused
    {
      calls, refused := 0, false;
    }

    method Call(ghost p: Provider) returns (error: Option<Error>)
      requires Ready(p) && SessionOf(p.ledger).value.loggedIn
      modifies this
      ensures calls == old(calls) + 1 && refused == error.Some?
    {
      error := *;
      calls, refused := calls + 1, error.Some?;
    }
  }

  /** The ledger of a provider nobody uses, apart from its count of modules. */
  predicate Unused(l: Ledger, gate: bool) {
    l.gate == gate && l.live.None?
  }

  class Backend {
    const p: Provider
    var occupied: bool              // the gate channel holds its token
    var closed: bool

    ghost predicate Valid()
      reads this, p
    {
      p.Lawful() && p.ledger.gate == occupied && (!occupied ==> p.ledger.live.None?)
    }

    constructor (p: Provider)
      requires p.Lawful() && p.ledger == Empty
      ensures Valid() && this.p == p && !occupied && !closed
    {
      this.p, occupied, closed := p, false, false;
    }

    method Close()
      modifies this`closed
      ensures closed
    {
      closed := true;
    }

    /** Another goroutine may close the backend at any moment. */
    method IsClosed() returns (r: bool)
      modifies this`closed
      ensures r == closed && (old(closed) ==> closed)
    {
      if !closed {
        closed := *;
      }
      r := closed;
    }

    /** While the gate is taken, `holder` is the session that took it; null stands for a
        call of another goroutine that has not given it back. */
    ghost predicate HeldBy(holder: HardwareSession?)
      reads this, p, holder
    {
      Valid() && (occupied && holder != null ==> holder.p == p && holder.Owns(this, holder.target))
    }

    /** A taken gate is still with `holder`, whose session is as it was; a gate given
        back in the meantime means that `holder` was closed. */
    twostate predicate Undone(holder: HardwareSession?)
      reads this, p, holder
    {
      && HeldBy(holder)
      && (occupied ==> old(occupied) && (holder != null ==> unchanged(holder)) && p.ledger == old(p.ledger) && p.slot == old(p.slot))
      && (!occupied && old(occupied) ==> holder != null && holder.Closed())
    }

    /** Waits while the gate is taken. `holder` may be closed by its own goroutine
        meanwhile; the wait ends with the gate then, and with an error otherwise. */
    method Acquire(ctx: Context, holder: HardwareSession?) returns (error: Option<Error>)
      requires HeldBy(holder)
      modifies this, holder, ctx, p`log, p`ledger, p`faults
      ensures Valid() && p.Steady() && (old(ctx.done) ==> ctx.done) && (old(closed) ==> closed)
      ensures error.None? ==> occupied && Unused(p.ledger, true) && (old(occupied) ==> holder != null && holder.Closed())
      ensures error.Some? ==> Undone(holder)
      ensures error.Some? ==> error.value == ContextError || error.value == ProbeUnavailable
      ensures (old(occupied) ==> holder != null && holder.Closed()) && !ctx.done && !closed ==> error.None?
    {
      var done := ctx.Err();
      if done {
        return Some(ContextError);
      }
      var given: bool := *;
      if occupied && given && holder != null {
        var _ := holder.Close(this);
      }
      var shut := IsClosed();
      var waited: bool := *;
      if shut && (occupied || waited) {
        return Some(ProbeUnavailable);
      }
      if occupied {
        ctx.done := true;
        return Some(ContextError);
      }
      error := Take(ctx);
    }

    /** The token went into the gate; it is taken out again if it came too late. */
    method Take(ctx: Context) returns (error: Option<Error>)
      requires Valid() && !occupied
      modifies this, ctx, p`log, p`ledger
      ensures Valid() && (old(ctx.done) ==> ctx.done) && (old(closed) ==> closed)
      ensures if error.None? then occupied && Unused(p.ledger, true) else !occupied && p.ledger == old(p.ledger)
      ensures error.Some? ==> error.value == ContextError || error.value == ProbeUnavailable
      ensures !ctx.done && !closed ==> error.None?
    {
      occupied := true;
      p.Record(GateTaken);
      var done := ctx.Err();
      var shut := IsClosed();
      if done || shut {
        Release();
        return Some(if done then ContextError else ProbeUnavailable);
      }
      return None;
    }

    method Release()
      requires p.Lawful() && occupied && Unused(p.ledger, true)
      modifies this`occupied, p`log, p`ledger
      ensures Valid() && !occupied && p.ledger == old(p.ledger).(gate := false)
    {
      occupied := false;
      p.Record(GateReleased);
    }

    /** A module that fails to initialize is finalized and destroyed here. */
    method OpenModule(ctx: Context) returns (m: Result<nat>)
      requires p.Lawful() && Unused(p.ledger, true)
      modifies ctx, p`created, p`log, p`ledger, p`faults
      ensures p.Lawful() && p.ledger.gate && p.Steady() && (old(ctx.done) ==> ctx.done)
      ensures p.ledger.live == if m.Ok? then Some(Live(m.value, false, None)) else None
      ensures p.faults == old(p.faults) && !ctx.done ==> m.Ok?
    {
      var done := ctx.Err();
      if done {
        return Err(ContextError);
      }
      var created := p.Create();
      if created.None? {
        return Err(ProbeUnavailable);
      }
      var failed := false;
      done := ctx.Err();
      if !done {
        failed := p.Initialize();
        done := ctx.Err();
      }
      if done || failed {
        var _ := p.Finalize(created.value);
        p.Destroy(created.value);
        return Err(if done then ContextError else ProviderError);
      }
      return Ok(created.value);
    }

    // ---- reading the public key --------------------------------------------------------

    method ReadPublic(ctx: Context, holder: HardwareSession?, serial: Option<Serial>, id: Option<nat>)
      returns (key: seq<byte>, error: Option<Error>)
      requires HeldBy(holder)
      modifies this, holder, ctx, p
      ensures Undone(holder) && (occupied ==> error.Some?)
      ensures |key| == 32 && (error.Some? ==> key == Zeros())
      ensures serial.None? || id.None? ==> error == Some(TargetMismatch)
      ensures serial.Some? && id.Some? && !occupied && p.faults == old(p.faults) && !ctx.done && !closed ==>
                Reports(key, error, PublicKeyOf(p.device, serial.value, id.value))
    {
      if serial.None? || id.None? {
        return Zeros(), Some(TargetMismatch);
      }
      var busy := Acquire(ctx, holder);
      if busy.Some? {
        return Zeros(), Some(ClassifyProbe(busy.value));
      }
      key, error := ReadPublicGated(ctx, serial.value, id.value);
      Release();
    }

    method ReadPublicGated(ctx: Context, serial: Serial, id: nat) returns (key: seq<byte>, error: Option<Error>)
      requires p.Lawful() && Unused(p.ledger, true)
      modifies ctx, p
      ensures p.Lawful() && Unused(p.ledger, true) && p.Steady() && (old(ctx.done) ==> ctx.done)
      ensures |key| == 32 && (error.Some? ==> key == Zeros())
      ensures p.faults == old(p.faults) && !ctx.done ==> Reports(key, error, PublicKeyOf(p.device, serial, id))
    {
      var m := OpenModule(ctx);
      if m.Err? {
        return Zeros(), Some(ClassifyProbe(m.error));
      }
      key, error := ReadWithModule(ctx, serial, id);
      var failed := p.Finalize(m.value);
      if failed {
        key, error := Zeros(), Some(ProbeUnavailable);
      }
      p.Destroy(m.value);
    }

    method ReadWithModule(ctx: Context, serial: Serial, id: nat) returns (key: seq<byte>, error: Option<Error>)
      requires p.Lawful() && Post(p.ledger, Opened(0)).Some?
      modifies ctx, p
      ensures p.Lawful() && p.ledger == old(p.ledger) && p.Steady() && (old(ctx.done) ==> ctx.done)
      ensures |key| == 32 && (error.Some? ==> key == Zeros())
      ensures p.faults == old(p.faults) && !ctx.done ==> Reports(key, error, PublicKeyOf(p.device, serial, id))
    {
      var slot := LocateToken(ctx, p, serial);
      if slot.Err? {
        return Zeros(), Some(ClassifyProbe(slot.error));
      }
      key, error := ReadAtSlot(ctx, slot.value, id);
    }

    method ReadAtSlot(ctx: Context, slot: nat, id: nat) returns (key: seq<byte>, error: Option<Error>)
      requires p.Lawful() && Post(p.ledger, Opened(0)).Some?
      modifies ctx, p
      ensures p.Lawful() && p.ledger == old(p.ledger) && p.Steady() && (old(ctx.done) ==> ctx.done)
      ensures |key| == 32 && (error.Some? ==> key == Zeros())
      ensures p.faults == old(p.faults) && !ctx.done ==> Reports(key, error, PublicKeyIn(p.device, slot, id))
    {
      var done := ctx.Err();
      if done {
        return Zeros(), Some(ContextError);
      }
      var h, failed := p.OpenSession(slot);
      done := ctx.Err();
      if failed {
        return Zeros(), Some(if done then ContextError else ClassifyProbe(ProviderError));
      }
      if done {
        key, error := Zeros(), Some(ContextError);
      } else {
        key, error := ReadWithSession(ctx, id);
      }
      failed := p.CloseSession(h);
      if failed {
        key, error := Zeros(), Some(ProbeUnavailable);
      }
    }

    method ReadWithSession(ctx: Context, id: nat) returns (key: seq<byte>, error: Option<Error>)
      requires Ready(p)
      modifies ctx, p`device, p`pending, p`log, p`ledger, p`faults
      ensures p.Lawful() && p.ledger == old(p.ledger) && p.Steady() && (old(ctx.done) ==> ctx.done)
      ensures |key| == 32 && (error.Some? ==> key == Zeros())
      ensures p.faults == old(p.faults) && !ctx.done ==> Reports(key, error, PublicKeyIn(p.device, p.slot, id))
    {
      var found := FindUnique(ctx, p, false, id);
      if found.Err? {
        return Zeros(), Some(ClassifyProbe(found.error));
      }
      if found.value.None? {
        return Zeros(), Some(TargetMismatch);
      }
      var point := ReadPoint(ctx, p, found.value.value);
      if point.Err? {
        return Zeros(), Some(ClassifyProbe(point.error));
      }
      var k := PointKey(point.value);
      if k.None? {
        return Zeros(), Some(TargetMismatch);
      }
      return k.value, None;
    }

    // ---- sessions ------------------------------------------------------------------------

    /** On success the gate stays taken by the session; otherwise everything is undone. */
    method OpenSession(ctx: Context, holder: HardwareSession?, target: Target) returns (s: HardwareSession?, error: Option<Error>)
      requires HeldBy(holder)
      modifies this, holder, ctx, p`device, p`created, p`pending, p`slot, p`log, p`ledger, p`faults
      ensures p.Steady() && (old(ctx.done) ==> ctx.done) && (old(closed) ==> closed)
      ensures s == null <==> error.Some?
      ensures s != null ==> fresh(s) && s.Owns(this, target) && !s.loggedIn && s.privateObject == 0
      ensures s != null && old(occupied) ==> holder != null && holder.Closed()
      ensures s == null ==> Undone(holder)
      ensures (old(occupied) ==> holder != null && holder.Closed()) && p.faults == old(p.faults) && !ctx.done && !closed ==>
                match Opening(p.device, target)
                case Ok(slot) => s != null && s.tokenSlot == slot
                case Err(e) => error == Some(e)
    {
      if target.id.None? || target.serial.None? {
        return null, Some(TargetMismatch);
      }
      var busy := Acquire(ctx, holder);
      if busy.Some? {
        return null, Some(ClassifyDerive(busy.value));
      }
      s, error := OpenOwned(ctx, target);
    }

    /** The gate is ours. */
    method OpenOwned(ctx: Context, target: Target) returns (s: HardwareSession?, error: Option<Error>)
      requires Valid() && occupied && Unused(p.ledger, true) && target.id.Some? && target.serial.Some?
      modifies this`occupied, ctx, p`device, p`created, p`pending, p`slot, p`log, p`ledger, p`faults
      ensures Valid() && p.Steady() && (old(ctx.done) ==> ctx.done)
      ensures s == null <==> error.Some?
      ensures if s != null then fresh(s) && s.Owns(this, target) && !s.loggedIn && s.privateObject == 0 else !occupied
      ensures p.faults == old(p.faults) && !ctx.done ==>
                match Opening(p.device, target)
                case Ok(slot) => s != null && s.tokenSlot == slot
                case Err(e) => error == Some(e)
    {
      var m, h, slot;
      m, h, slot, error := OpenGated(ctx, target);
      if error.None? {
        s := new HardwareSession(this, m.value, slot, h.value, target);
        return s, None;
      }
      var cleanupFailed := CleanUp(m, h);
      Release();
      if cleanupFailed && error != Some(ContextError) {
        error := Some(DeriveFailed);
      }
      return null, error;
    }

    method OpenGated(ctx: Context, target: Target) returns (m: Option<nat>, h: Option<Handle>, slot: nat, error: Option<Error>)
      requires p.Lawful() && Unused(p.ledger, true) && target.id.Some? && target.serial.Some?
      modifies ctx, p`device, p`created, p`pending, p`slot, p`log, p`ledger, p`faults
      ensures p.Lawful() && p.ledger.gate && p.Steady() && (old(ctx.done) ==> ctx.done)
      ensures Left(p.ledger.live, m, h)
      ensures error.None? ==> m.Some? && h.Some? && p.slot == slot
      ensures p.faults == old(p.faults) && !ctx.done ==>
                match Opening(p.device, target)
                case Ok(k) => error.None? && slot == k
                case Err(e) => error == Some(e)
    {
      m, h, slot := None, None, 0;
      var created := OpenModule(ctx);
      if created.Err? {
        return m, h, slot, Some(ClassifyDerive(created.error));
      }
      m := Some(created.value);
      var located := LocateToken(ctx, p, target.serial.value);
      if located.Err? {
        return m, h, slot, Some(if located.error == ContextError then ContextError
                                else if located.error == NotDetected || located.error == TargetMismatch then TargetMismatch
                                else DeriveFailed);
      }
      slot := located.value;
      h, error := OpenAtSlot(ctx, target, slot);
    }

    /** Open a session at the slot and look at the public key there. */
    method OpenAtSlot(ctx: Context, target: Target, slot: nat) returns (h: Option<Handle>, error: Option<Error>)
      requires p.Lawful() && Post(p.ledger, Opened(0)).Some? && target.id.Some?
      modifies ctx, p`device, p`pending, p`slot, p`log, p`ledger, p`faults
      ensures p.Lawful() && p.Steady() && (old(ctx.done) ==> ctx.done)
      ensures Some(p.ledger) == if h.Some? then Post(old(p.ledger), Opened(h.value)) else Some(old(p.ledger))
      ensures error.None? ==> h.Some? && p.slot == slot
      ensures p.faults == old(p.faults) && !ctx.done ==>
                error == if PublicKeyIn(p.device, slot, target.id.value) == Ok(target.publicKey) then None else Some(TargetMismatch)
    {
      var done := ctx.Err();
      if done {
        return None, Some(ContextError);
      }
      var handle, failed := p.OpenSession(slot);
      done := ctx.Err();
      if failed {
        return None, Some(if done then ContextError else ClassifyDerive(ProviderError));
      }
      h := Some(handle);
      if done {
        return h, Some(ContextError);
      }
      error := ValidatePublicTarget(ctx, p, target.id.value, target.publicKey);
    }

    /** The deferred clean-up of a session that was not handed out. */
    method CleanUp(m: Option<nat>, h: Option<Handle>) returns (failed: bool)
      requires p.Lawful() && p.ledger.gate && Left(p.ledger.live, m, h)
      modifies p`log, p`ledger, p`faults
      ensures p.Lawful() && Unused(p.ledger, true) && p.Steady() && (failed ==> p.faults > old(p.faults))
    {
      failed := false;
      var bad;
      if h.Some? {
        bad := p.CloseSession(h.value);
        failed := failed || bad;
      }
      if m.Some? {
        bad := p.Finalize(m.value);
        failed := failed || bad;
        p.Destroy(m.value);
      }
    }
  }

  /** What a failed opening leaves to clean up. */
  predicate Left(live: Option<Live>, m: Option<nat>, h: Option<Handle>) {
    match m
    case None => live == None && h == None
    case Some(n) => live == Some(Live(n, false, if h.Some? then Some(Session(h.value, false, false, None)) else None))
  }

  function PublicKeyOf(d: Device, serial: Serial, id: nat): Result<seq<byte>> {
    match Locate(d, serial)
    case Err(e) => Err(e)
    case Ok(slot) => PublicKeyIn(d, slot, id)
  }

  predicate Reports(value: seq<byte>, error: Option<Error>, r: Result<seq<byte>>) {
    match r
    case Ok(v) => error.None? && value == v
    case Err(e) => error == Some(e)
  }

  // ---- one session -----------------------------------------------------------------------

  class HardwareSession {
    const p: Provider
    const tokenSlot: nat
    const handle: Handle
    const target: Target
    var backend: Backend?
    var m: Option<nat>              // nil once closed
    var privateObject: Handle       // zero until Login has found it
    var loggedIn: bool
    var closed: bool

    /** An unclosed session holds the gate, the one module and its one session. */
    ghost predicate Owns(b: Backend, target: Target)
      reads this, b, p
    {
      && !closed && backend == b && b.p == p && b.Valid() && b.occupied
      && this.target == target && target.id.Some? && target.serial.Some?
      && m.Some? && p.slot == tokenSlot
      && p.ledger.live == Some(Live(m.value, false, Some(Session(handle, loggedIn, false, None))))
    }

    /** A closed session holds nothing. */
    ghost predicate Closed()
      reads this
    {
      closed && m == None && backend == null && !loggedIn && privateObject == 0
    }

    constructor (b: Backend, m: nat, tokenSlot: nat, handle: Handle, target: Target)
      requires b.Valid() && b.occupied && target.id.Some? && target.serial.Some?
      requires b.p.ledger.live == Some(Live(m, false, Some(Session(handle, false, false, None)))) && b.p.slot == tokenSlot
      ensures Owns(b, target) && !loggedIn && privateObject == 0 && this.tokenSlot == tokenSlot
    {
      this.p, this.tokenSlot, this.handle, this.target := b.p, tokenSlot, handle, target;
      backend, this.m, privateObject, loggedIn, closed := b, Some(m), 0, false, false;
    }

    /** Clears the PIN on every path. */
    method Login(b: Backend, ctx: Context, pin: array<byte>) returns (error: Option<Error>)
      requires Owns(b, target) || Closed()
      modifies this`loggedIn, this`privateObject, b`closed, ctx, p`device, p`pending, p`log, p`ledger, p`faults, pin
      ensures Cleared(pin)
      ensures if old(closed) then Closed() && error == Some(PinLoginFailed) && p.ledger == old(p.ledger) else Owns(b, target)
      ensures p.Steady() && (old(ctx.done) ==> ctx.done) && (old(b.closed) ==> b.closed)
      ensures old(loggedIn) || pin.Length == 0 ==> error == Some(PinLoginFailed) && p.log == old(p.log)
      ensures error.None? ==> loggedIn
      ensures !old(closed) && !old(loggedIn) && pin.Length > 0 && p.faults == old(p.faults) && !ctx.done && !b.closed ==>
                loggedIn &&
                match PrivateKeyIn(p.device, tokenSlot, target.id.value)
                case Ok(h) => error.None? && privateObject == h
                case Err(e) => error == Some(e)
    {
      error := LoginWith(b, ctx, pin.Length);
      ZeroBytes(pin);
    }

    method LoginWith(b: Backend, ctx: Context, length: nat) returns (error: Option<Error>)
      requires Owns(b, target) || Closed()
      modifies this`loggedIn, this`privateObject, b`closed, ctx, p`device, p`pending, p`log, p`ledger, p`faults
      ensures if old(closed) then Closed() && error == Some(PinLoginFailed) && p.ledger == old(p.ledger) else Owns(b, target)
      ensures p.Steady() && (old(ctx.done) ==> ctx.done) && (old(b.closed) ==> b.closed)
      ensures old(loggedIn) || length == 0 ==> error == Some(PinLoginFailed) && p.log == old(p.log)
      ensures error.None? ==> loggedIn
      ensures !old(closed) && !old(loggedIn) && length > 0 && p.faults == old(p.faults) && !ctx.done && !b.closed ==>
                loggedIn &&
                match PrivateKeyIn(p.device, tokenSlot, target.id.value)
                case Ok(h) => error.None? && privateObject == h
                case Err(e) => error == Some(e)
    {
      if closed || loggedIn || length == 0 {
        return Some(PinLoginFailed);
      }
      var shut := b.IsClosed();
      if shut {
        return Some(PinLoginFailed);
      }
      var done := ctx.Err();
      if done {
        return Some(ContextError);
      }
      var failed := p.Login();
      done := ctx.Err();
      if !failed {
        loggedIn := true;
      }
      if done || failed {
        return Some(if done then ContextError else PinLoginFailed);
      }
      error := PinPrivate(b, ctx);
    }

    /** Remember the one private object with the required policies. */
    method PinPrivate(b: Backend, ctx: Context) returns (error: Option<Error>)
      requires Owns(b, target)
      modifies this`privateObject, ctx, p`device, p`pending, p`log, p`ledger, p`faults
      ensures Owns(b, target) && p.Steady() && (old(ctx.done) ==> ctx.done)
      ensures p.faults == old(p.faults) && !ctx.done ==>
                match PrivateKeyIn(p.device, tokenSlot, target.id.value)
                case Ok(h) => error.None? && privateObject == h
                case Err(e) => error == Some(e)
    {
      var found := FindPrivate(ctx, p, target.id.value);
      if found.Err? {
        return Some(found.error);
      }
      privateObject := found.value;
      return None;
    }

    /** Still the same token and the same objects. */
    method Validate(b: Backend, ctx: Context) returns (error: Option<Error>)
      requires Owns(b, target) || Closed()
      modifies b`closed, ctx, p`device, p`pending, p`log, p`ledger, p`faults
      ensures if closed then Closed() && error == Some(DeriveFailed) else Owns(b, target)
      ensures p.ledger == old(p.ledger) && p.Steady() && (old(ctx.done) ==> ctx.done) && (old(b.closed) ==> b.closed)
      ensures !closed && p.faults == old(p.faults) && !ctx.done && !b.closed ==> (error.None? <==> Genuine(p.device))
    {
      if closed || !loggedIn || privateObject == 0 {
        return Some(DeriveFailed);
      }
      var shut := b.IsClosed();
      if shut {
        return Some(DeriveFailed);
      }
      error := ValidateToken(ctx);
      if error.Some? {
        return;
      }
      error := ValidatePublicTarget(ctx, p, target.id.value, target.publicKey);
      if error.Some? {
        return;
      }
      var found := FindPrivate(ctx, p, target.id.value);
      if found.Err? {
        return Some(found.error);
      }
      return if found.value == privateObject then None else Some(TargetMismatch);
    }

    /** The token, the session and both keys are those Login has seen. */
    predicate Genuine(d: Device)
      reads this`loggedIn, this`privateObject
    {
      && loggedIn && privateObject != 0 && target.id.Some?
      && d.info == SessionInfo(tokenSlot, true, true) && Some(d.serial(tokenSlot)) == target.serial
      && PublicKeyIn(d, tokenSlot, target.id.value) == Ok(target.publicKey)
      && PrivateKeyIn(d, tokenSlot, target.id.value) == Ok(privateObject)
    }

    method ValidateToken(ctx: Context) returns (error: Option<Error>)
      modifies ctx, p`device, p`faults
      ensures p.Steady() && (old(ctx.done) ==> ctx.done)
      ensures p.faults == old(p.faults) && !ctx.done ==>
                (error.None? <==>
                  p.device.info == SessionInfo(tokenSlot, true, true) && Some(p.device.serial(tokenSlot)) == target.serial)
    {
      var done := ctx.Err();
      if done {
        return Some(ContextError);
      }
      var info, failed := p.GetSessionInfo();
      done := ctx.Err();
      if done || failed {
        return Some(if done then ContextError else DeriveFailed);
      }
      if info.slot != tokenSlot || !info.userFunctions || !info.serialAndReadWrite {
        return Some(DeriveFailed);
      }
      done := ctx.Err();
      if done {
        return Some(ContextError);
      }
      var serial;
      serial, failed := p.GetTokenInfo(tokenSlot);
      done := ctx.Err();
      if done || failed {
        return Some(if done then ContextError else DeriveFailed);
      }
      return if Some(serial) == target.serial then None else Some(TargetMismatch);
    }

    /** One derivation. Whatever object it made is destroyed before it returns. */
    method Derive(b: Backend, ctx: Context, peer: seq<byte>) returns (secret: seq<byte>, error: Option<Error>)
      requires Owns(b, target) || Closed()
      modifies b`closed, ctx, p`device, p`derivedFrom, p`log, p`ledger, p`faults, p`derivations
      ensures if closed then Closed() && error == Some(DeriveFailed) else Owns(b, target)
      ensures p.ledger == old(p.ledger) && p.Steady() && (old(ctx.done) ==> ctx.done) && (old(b.closed) ==> b.closed)
      ensures |secret| == 32 && (error.Some? <==> secret == Zeros())
      ensures p.derivations <= old(p.derivations) + 1 && (error.None? ==> p.derivations == old(p.derivations) + 1)
      ensures !loggedIn || privateObject == 0 ==> error == Some(DeriveFailed) && p.derivations == old(p.derivations)
      ensures !closed && loggedIn && privateObject != 0 && p.faults == old(p.faults) && !ctx.done && !b.closed ==>
                Reports(secret, error, SharedSecret(p.device, privateObject, peer))
    {
      if closed || !loggedIn || privateObject == 0 {
        return Zeros(), Some(DeriveFailed);
      }
      var shut := b.IsClosed();
      if shut {
        return Zeros(), Some(DeriveFailed);
      }
      var done := ctx.Err();
      if done {
        return Zeros(), Some(ContextError);
      }
      secret, error := DeriveOnce(ctx, peer);
    }

    /** DeriveKey, the value, and DestroyObject if there is anything to destroy. */
    method DeriveOnce(ctx: Context, peer: seq<byte>) returns (secret: seq<byte>, error: Option<Error>)
      requires Ready(p) && SessionOf(p.ledger).value.loggedIn
      modifies ctx, p`device, p`derivedFrom, p`log, p`ledger, p`faults, p`derivations
      ensures p.Lawful() && p.ledger == old(p.ledger) && p.Steady() && (old(ctx.done) ==> ctx.done)
      ensures |secret| == 32 && (error.Some? <==> secret == Zeros()) && p.derivations == old(p.derivations) + 1
      ensures p.faults == old(p.faults) && !ctx.done ==> Reports(secret, error, SharedSecret(p.device, privateObject, peer))
    {
      var derived, failed := p.DeriveKey(privateObject, peer);
      var done := ctx.Err();
      if done || failed {
        secret, error := Zeros(), Some(if done then ContextError else DeriveFailed);
      } else {
        secret, error := ReadSecret(ctx);
      }
      if !failed || derived != 0 {
        failed := p.DestroyObject(derived);
        if failed {
          secret, error := Zeros(), Some(DeriveFailed);
        }
      }
    }

    method ReadSecret(ctx: Context) returns (secret: seq<byte>, error: Option<Error>)
      modifies ctx, p`device, p`faults
      ensures p.Steady() && (old(ctx.done) ==> ctx.done)
      ensures |secret| == 32 && (error.Some? <==> secret == Zeros())
      ensures p.faults == old(p.faults) && !ctx.done ==>
                Reports(secret, error, SharedSecret(p.device, p.derivedFrom.0, p.derivedFrom.1))
    {
      var done := ctx.Err();
      if done {
        return Zeros(), Some(ContextError);
      }
      var attributes, failed := p.GetValue();
      done := ctx.Err();
      if done || failed {
        return Zeros(), Some(if done then ContextError else DeriveFailed);
      }
      if |attributes| != 1 || attributes[0].Absent? || attributes[0].kind != Value || |attributes[0].value| != 32 {
        return Zeros(), Some(DeriveFailed);
      }
      secret := attributes[0].value;
      if secret == Zeros() {
        return Zeros(), Some(DeriveFailed);
      }
      return secret, None;
    }

    /** Gives everything back, once. */
    method Close(b: Backend) returns (error: Option<Error>)
      requires Owns(b, target) || Closed()
      modifies this, b`occupied, p`log, p`ledger, p`faults
      ensures Closed() && p.Steady()
      ensures if old(closed) then error == None && p.log == old(p.log) && b.occupied == old(b.occupied)
              else b.Valid() && !b.occupied && (error.Some? <==> p.faults > old(p.faults))
    {
      if closed {
        return None;
      }
      closed := true;
      var cleanupFailed := TearDown();
      loggedIn, privateObject, m := false, 0, None;
      b.Release();
      backend := null;
      return if cleanupFailed then Some(DeriveFailed) else None;
    }

    method TearDown() returns (failed: bool)
      requires p.Lawful() && m.Some?
      requires p.ledger.live == Some(Live(m.value, false, Some(Session(handle, loggedIn, false, None))))
      modifies p`log, p`ledger, p`faults
      ensures p.Lawful() && p.ledger == old(p.ledger).(live := None) && p.Steady()
      ensures failed <==> p.faults > old(p.faults)
    {
      failed := false;
      var bad;
      if loggedIn {
        failed := p.Logout();
      }
      bad := p.CloseSession(handle);
      failed := failed || bad;
      bad := p.Finalize(m.value);
      failed := failed || bad;
      p.Destroy(m.value);
    }
  }

  // ---- one complete derivation ---------------------------------------------------------------

  /** Open, log in, tell the caller that touch is next, derive, close. The secret is
      zero unless all of it went well; the PIN copy is cleared; ready is called at most
      once, and there is no derivation without its consent. */
  method DeriveWithReady(b: Backend, holder: HardwareSession?, ctx: Context, target: Target, pin: seq<byte>, peer: seq<byte>,
                         ready: ReadyCallback?)
    returns (secret: seq<byte>, error: Option<Error>)
    requires b.HeldBy(holder)
    modifies b, holder, ctx, b.p, ready
    ensures b.Undone(holder) && (b.occupied ==> error.Some? && b.p.derivations == old(b.p.derivations))
    ensures |secret| == 32 && (error.Some? <==> secret == Zeros())
    ensures b.p.derivations <= old(b.p.derivations) + 1
    ensures error.None? ==> b.p.derivations == old(b.p.derivations) + 1
    ensures ready != null ==> ready.calls <= old(ready.calls) + 1
    ensures ready != null && b.p.derivations > old(b.p.derivations) ==> ready.calls == old(ready.calls) + 1 && !ready.refused
    ensures !b.occupied && b.p.faults == old(b.p.faults) && !ctx.done && !b.closed && |pin| > 0 &&
            (ready != null && ready.calls > old(ready.calls) ==> !ready.refused) ==>
              Reports(secret, error, Deriving(b.p.device, target, peer))
  {
    var pinCopy := new byte[|pin|](i requires 0 <= i < |pin| => pin[i]);
    var s;
    s, error := b.OpenSession(ctx, holder, target);
    if error.Some? {
      ZeroBytes(pinCopy);
      return Zeros(), error;
    }
    secret, error := DeriveAndClose(b, s, ctx, pinCopy, peer, ready);
  }

  /** Everything from the open session to its end. */
  method DeriveAndClose(b: Backend, s: HardwareSession, ctx: Context, pin: array<byte>, peer: seq<byte>, ready: ReadyCallback?)
    returns (secret: seq<byte>, error: Option<Error>)
    requires s.Owns(b, s.target) && !s.loggedIn && s.privateObject == 0
    modifies b, s, ctx, b.p, ready, pin
    ensures Cleared(pin) && b.Valid() && !b.occupied && b.p.Steady() && (old(ctx.done) ==> ctx.done) && (old(b.closed) ==> b.closed)
    ensures |secret| == 32 && (error.Some? <==> secret == Zeros())
    ensures b.p.derivations <= old(b.p.derivations) + 1
    ensures error.None? ==> b.p.derivations == old(b.p.derivations) + 1
    ensures ready != null ==> ready.calls <= old(ready.calls) + 1
    ensures ready != null && b.p.derivations > old(b.p.derivations) ==> ready.calls == old(ready.calls) + 1 && !ready.refused
    ensures b.p.faults == old(b.p.faults) && !ctx.done && !b.closed && pin.Length > 0 &&
            (ready != null && ready.calls > old(ready.calls) ==> !ready.refused) ==>
              Reports(secret, error, DerivingAt(b.p.device, s.tokenSlot, s.target.id.value, peer))
  {
    error := s.Login(b, ctx, pin);
    if error.None? && ready != null {
      error := AskReady(b, s, ctx, ready);
    }
    if error.Some? {
      secret := Zeros();
    } else {
      secret, error := s.Derive(b, ctx, peer);
    }
    var closing := s.Close(b);
    if closing.Some? {
      secret, error := Zeros(), Some(DeriveFailed);
    }
  }

  method AskReady(b: Backend, s: HardwareSession, ctx: Context, ready: ReadyCallback) returns (error: Option<Error>)
    requires s.Owns(b, s.target) && s.loggedIn
    modifies ctx, ready
    ensures ready.calls == old(ready.calls) + 1 && (old(ctx.done) ==> ctx.done)
    ensures ready.refused ==> error.Some?
    ensures error.Some? ==> ready.refused || ctx.done
  {
    var refusal := ready.Call(s.p);
    if refusal.Some? {
      return Some(if refusal.value == ContextError then ContextError else ReadyFailed);
    }
    var done := ctx.Err();
    return if done then Some(ContextError) else None;
  }

  /** What an undisturbed device gives for a whole derivation. */
  function Deriving(d: Device, target: Target, peer: seq<byte>): Result<seq<byte>> {
    match Opening(d, target)
    case Err(e) => Err(e)
    case Ok(slot) => DerivingAt(d, slot, target.id.value, peer)
  }

  function DerivingAt(d: Device, slot: nat, id: nat, peer: seq<byte>): Result<seq<byte>> {
    match PrivateKeyIn(d, slot, id)
    case Err(e) => Err(e)
    case Ok(h) => if h == 0 then Err(DeriveFailed) else SharedSecret(d, h, peer)
  }
}
