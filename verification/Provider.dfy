/** A PKCS#11 provider that may fail at every call, and a context that may be cancelled
    between any two. The provider keeps the ledger of what it was asked to do; calls that
    would break a rule of the ledger cannot be made. */
module Provider {
  import opened Basics
  import opened ProviderLedger

  type Serial = nat

  datatype Error =
    | ContextError
    | NotDetected
    | TargetMismatch
    | ProbeUnavailable
    | PinLoginFailed
    | PolicyMismatch
    | ReadyFailed
    | DeriveFailed
    | ProviderError

  datatype Result<+T> = Ok(value: T) | Err(error: Error)

  datatype AttributeType = EcPoint | Value | TouchPolicy | PinPolicy | OtherType

  /** Absent stands for a nil entry of an attribute list. */
  datatype Attribute = Absent | Attribute(kind: AttributeType, value: seq<byte>)

  datatype SessionInfo = SessionInfo(slot: nat, userFunctions: bool, serialAndReadWrite: bool)

  datatype Query = Query(slot: nat, private: bool, id: nat)

  /** What the hardware answers while nothing disturbs it. */
  datatype Device = Device(
    slots: seq<nat>,
    serial: nat -> Serial,
    objects: Query -> seq<Handle>,
    point: Handle -> seq<Attribute>,
    policies: Handle -> seq<Attribute>,
    shared: (Handle, seq<byte>) -> seq<Attribute>,
    info: SessionInfo)

  /** A context is done from some moment on, for ever. */
  class Context {
    var done: bool

    constructor ()
      ensures !done
    {
      done := false;
    }

    method Err() returns (e: bool)
      modifies this
      ensures e == done && (old(done) ==> done)
    {
      if !done {
        done := *;
      }
      e := done;
    }
  }

  class Provider {
    var device: Device
    var created: nat
    var pending: seq<Handle>        // what the running search has not reported yet
    var slot: nat                   // the slot of the open session
    var derivedFrom: (Handle, seq<byte>)
    ghost var log: seq<Event>
    ghost var ledger: Ledger
    ghost var faults: nat           // failed calls and changes of the device
    ghost var derivations: nat      // calls of DeriveKey

    ghost predicate Lawful()
      reads this
    {
      PostAll(log) == Some(ledger) && created == ledger.created
    }

    constructor (device: Device)
      ensures Lawful() && log == [] && ledger == Empty && this.device == device
    {
      this.device, created, pending, slot, derivedFrom := device, 0, [], 0, (0, []);
      log, ledger, faults, derivations := [], Empty, 0, 0;
    }

    /** The provider as it was, unless something failed or the device changed. */
    twostate predicate Steady()
      reads this
    {
      old(faults) <= faults && (faults == old(faults) ==> device == old(device))
    }

    ghost method Record(e: Event)
      requires Lawful() && Post(ledger, e).Some? && !e.Created?
      modifies this`log, this`ledger
      ensures Lawful() && log == old(log) + [e] && Some(ledger) == Post(old(ledger), e)
    {
      PostAppend(log, e);
      log := log + [e];
      ledger := Post(ledger, e).value;
    }

    /** The call may fail, and the device may be another one from now on. */
    method Disturb(other: Device) returns (failed: bool)
      modifies this`device, this`faults
      ensures Steady() && (failed ==> faults > old(faults))
    {
      var changed: bool := *;
      if changed {
        device := other;
        faults := faults + 1;
      }
      failed := *;
      if failed {
        faults := faults + 1;
      }
    }

    method Fail() returns (failed: bool)
      modifies this`faults
      ensures faults == old(faults) + Bit(failed)
    {
      failed := *;
      faults := faults + Bit(failed);
    }

    /** None when the factory returns nil. */
    method Create() returns (m: Option<nat>)
      requires Lawful() && ledger.gate && ledger.live.None?
      modifies this`created, this`log, this`ledger, this`faults
      ensures Lawful()
      ensures m.None? ==> ledger == old(ledger) && faults > old(faults)
      ensures m.Some? ==> Some(ledger) == Post(old(ledger), Created(m.value)) && faults == old(faults)
    {
      var failed := Fail();
      if failed {
        return None;
      }
      m := Some(created);
      PostAppend(log, Created(created));
      log := log + [Created(created)];
      ledger := Post(ledger, Created(created)).value;
      created := created + 1;
    }

    method Initialize() returns (failed: bool)
      modifies this`faults
      ensures faults == old(faults) + Bit(failed)
    {
      failed := Fail();
    }

    method Finalize(m: nat) returns (failed: bool)
      requires Lawful() && Post(ledger, Finalized(m)).Some?
      modifies this`log, this`ledger, this`faults
      ensures Lawful() && Some(ledger) == Post(old(ledger), Finalized(m)) && faults == old(faults) + Bit(failed)
    {
      Record(Finalized(m));
      failed := Fail();
    }

    method Destroy(m: nat)
      requires Lawful() && Post(ledger, Destroyed(m)).Some?
      modifies this`log, this`ledger
      ensures Lawful() && Some(ledger) == Post(old(ledger), Destroyed(m))
    {
      Record(Destroyed(m));
    }

    method GetSlotList() returns (slots: seq<nat>, failed: bool)
      modifies this`device, this`faults
      ensures Steady() && (failed ==> faults > old(faults)) && (!failed ==> slots == device.slots)
    {
      var other: Device := AnyDevice();
      failed := Disturb(other);
      slots := if failed then [] else device.slots;
    }

    method GetTokenInfo(slot: nat) returns (serial: Serial, failed: bool)
      modifies this`device, this`faults
      ensures Steady() && (failed ==> faults > old(faults)) && (!failed ==> serial == device.serial(slot))
    {
      var other: Device := AnyDevice();
      failed := Disturb(other);
      serial := if failed then 0 else device.serial(slot);
    }

    method OpenSession(slot: nat) returns (h: Handle, failed: bool)
      requires Lawful() && Post(ledger, Opened(0)).Some?
      modifies this`slot, this`log, this`ledger, this`faults
      ensures Lawful() && faults == old(faults) + Bit(failed)
      ensures if failed then ledger == old(ledger) else Some(ledger) == Post(old(ledger), Opened(h)) && this.slot == slot
    {
      failed := Fail();
      h := *;
      if !failed {
        this.slot := slot;
        Record(Opened(h));
      }
    }

    method CloseSession(h: Handle) returns (failed: bool)
      requires Lawful() && Post(ledger, SessionClosed(h)).Some?
      modifies this`log, this`ledger, this`faults
      ensures Lawful() && Some(ledger) == Post(old(ledger), SessionClosed(h)) && faults == old(faults) + Bit(failed)
    {
      Record(SessionClosed(h));
      failed := Fail();
    }

    method GetSessionInfo() returns (info: SessionInfo, failed: bool)
      modifies this`device, this`faults
      ensures Steady() && (failed ==> faults > old(faults)) && (!failed ==> info == device.info)
    {
      var other: Device := AnyDevice();
      failed := Disturb(other);
      info := device.info;
    }

    method Login() returns (failed: bool)
      requires Lawful() && Post(ledger, LoggedIn).Some?
      modifies this`log, this`ledger, this`faults
      ensures Lawful() && faults == old(faults) + Bit(failed)
      ensures Some(ledger) == if failed then Some(old(ledger)) else Post(old(ledger), LoggedIn)
    {
      failed := Fail();
      if !failed {
        Record(LoggedIn);
      }
    }

    method Logout() returns (failed: bool)
      requires Lawful() && Post(ledger, LoggedOut).Some?
      modifies this`log, this`ledger, this`faults
      ensures Lawful() && Some(ledger) == Post(old(ledger), LoggedOut) && faults == old(faults) + Bit(failed)
    {
      Record(LoggedOut);
      failed := Fail();
    }

    method FindObjectsInit(private: bool, id: nat) returns (failed: bool)
      requires Lawful() && Post(ledger, FindStarted).Some?
      modifies this`device, this`pending, this`log, this`ledger, this`faults
      ensures Lawful() && Steady() && (failed ==> faults > old(faults))
      ensures Some(ledger) == if failed then Some(old(ledger)) else Post(old(ledger), FindStarted)
      ensures !failed ==> pending == device.objects(Query(slot, private, id))
    {
      var other: Device := AnyDevice();
      failed := Disturb(other);
      if !failed {
        pending := device.objects(Query(slot, private, id));
        Record(FindStarted);
      }
    }

    /** At most `max` further results; none only when there are none left. */
    method FindObjects(max: nat) returns (objects: seq<Handle>, failed: bool)
      requires Lawful() && ledger.live.Some? && ledger.live.value.session.Some? && ledger.live.value.session.value.finding && max > 0
      modifies this`pending, this`faults
      ensures faults == old(faults) + Bit(failed)
      ensures !failed ==> old(pending) == objects + pending && |objects| <= max && (objects == [] ==> old(pending) == [])
    {
      failed := Fail();
      objects := [];
      if !failed && pending != [] {
        assert 0 < 1 <= max && 1 <= |pending|;
        var n: nat :| 0 < n <= max && n <= |pending|;
        objects, pending := pending[..n], pending[n..];
      }
    }

    method FindObjectsFinal() returns (failed: bool)
      requires Lawful() && Post(ledger, FindEnded).Some?
      modifies this`log, this`ledger, this`faults
      ensures Lawful() && Some(ledger) == Post(old(ledger), FindEnded) && faults == old(faults) + Bit(failed)
    {
      Record(FindEnded);
      failed := Fail();
    }

    method GetPoint(obj: Handle) returns (attributes: seq<Attribute>, failed: bool)
      modifies this`device, this`faults
      ensures Steady() && (failed ==> faults > old(faults)) && (!failed ==> attributes == device.point(obj))
    {
      var other: Device := AnyDevice();
      failed := Disturb(other);
      attributes := if failed then [] else device.point(obj);
    }

    method GetPolicies(obj: Handle) returns (attributes: seq<Attribute>, failed: bool)
      modifies this`device, this`faults
      ensures Steady() && (failed ==> faults > old(faults)) && (!failed ==> attributes == device.policies(obj))
    {
      var other: Device := AnyDevice();
      failed := Disturb(other);
      attributes := if failed then [] else device.policies(obj);
    }

    /** An object may come back although the call failed. */
    method DeriveKey(private: Handle, peer: seq<byte>) returns (obj: Handle, failed: bool)
      requires Lawful() && Post(ledger, Derived(0)).Some?
      modifies this`derivedFrom, this`log, this`ledger, this`faults, this`derivations
      ensures derivations == old(derivations) + 1
      ensures Lawful() && faults == old(faults) + Bit(failed)
      ensures Some(ledger) == if failed && obj == 0 then Some(old(ledger)) else Post(old(ledger), Derived(obj))
      ensures !failed ==> derivedFrom == (private, peer)
    {
      failed := Fail();
      derivations := derivations + 1;
      obj := *;
      if !failed || obj != 0 {
        derivedFrom := (private, peer);
        Record(Derived(obj));
      }
    }

    method GetValue() returns (attributes: seq<Attribute>, failed: bool)
      modifies this`device, this`faults
      ensures Steady() && (failed ==> faults > old(faults))
      ensures !failed ==> attributes == device.shared(derivedFrom.0, derivedFrom.1)
    {
      var other: Device := AnyDevice();
      failed := Disturb(other);
      attributes := if failed then [] else device.shared(derivedFrom.0, derivedFrom.1);
    }

    method DestroyObject(obj: Handle) returns (failed: bool)
      requires Lawful() && Post(ledger, ObjectDestroyed(obj)).Some?
      modifies this`log, this`ledger, this`faults
      ensures Lawful() && Some(ledger) == Post(old(ledger), ObjectDestroyed(obj)) && faults == old(faults) + Bit(failed)
    {
      Record(ObjectDestroyed(obj));
      failed := Fail();
    }
  }

  method AnyDevice() returns (d: Device) {
    var slots: seq<nat>, info: SessionInfo := *, *;
    var serial: nat -> Serial := *;
    var objects: Query -> seq<Handle> := *;
    var point: Handle -> seq<Attribute> := *;
    var policies: Handle -> seq<Attribute> := *;
    var shared: (Handle, seq<byte>) -> seq<Attribute> := *;
    d := Device(slots, serial, objects, point, policies, shared, info);
  }
}
