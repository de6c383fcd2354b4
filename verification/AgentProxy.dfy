/** One client connection of the agent proxy: a lazily connected signing backend, and the
    session-bind extensions replayed to every new one. */
module AgentProxy {
  import opened Basics

  type Key = nat

  datatype Error = KeyNotAllowed | TooManyBindings | ExtensionUnsupported | BackendError | SigningError

  const SESSION_BIND := "session-bind@openssh.com"
  const MAX_PENDING_SESSION_BINDS := 16
  const MAX_PENDING_BYTES := 0x10_0000

  function Total(bindings: seq<seq<byte>>): nat {
    if bindings == [] then 0 else Total(bindings[..|bindings| - 1]) + |bindings[|bindings| - 1]|
  }

  lemma TotalAppend(bindings: seq<seq<byte>>, last: seq<byte>)
    ensures Total(bindings + [last]) == Total(bindings) + |last|
  {
    assert (bindings + [last])[..|bindings|] == bindings;
  }

  /** A connection to the signing agent, which may break at any call. */
  class SigningBackend {
    ghost var accepted: seq<seq<byte>>      // session-binds it has answered with success
    ghost var asked: nat                    // signature requests that reached it
    var closed: bool

    constructor ()
      ensures accepted == [] && !closed && asked == 0
    {
      accepted, asked, closed := [], 0, false;
    }

    method Extension(typeName: string, contents: seq<byte>) returns (ok: bool)
      modifies this`accepted
      ensures accepted == if ok && typeName == SESSION_BIND then old(accepted) + [contents] else old(accepted)
      ensures closed ==> !ok
    {
      ok := *;
      ok := ok && !closed;
      if ok && typeName == SESSION_BIND {
        accepted := accepted + [contents];
      }
    }

    method List() returns (ok: bool)
      ensures closed ==> !ok
    {
      ok := *;
      ok := ok && !closed;
    }

    method Sign() returns (ok: bool)
      modifies this`asked
      ensures asked == if closed then old(asked) else old(asked) + 1
      ensures closed ==> !ok
    {
      ok := *;
      ok := ok && !closed;
      asked := if closed then asked else asked + 1;
    }

    method Close()
      modifies this`closed
      ensures closed
    {
      closed := true;
    }
  }

  datatype PendingExtension = PendingExtension(typeName: string, contents: array<byte>)

  method ClearAll(bindings: seq<PendingExtension>)
    modifies set i | 0 <= i < |bindings| :: bindings[i].contents
    ensures forall j :: 0 <= j < |bindings| ==> Cleared(bindings[j].contents)
  {
    for i := 0 to |bindings|
      invariant forall j :: 0 <= j < i ==> Cleared(bindings[j].contents)
    {
      ZeroBytes(bindings[i].contents);
    }
  }

  /** How the signing coordinator may treat one call: see Coordinator for when. The
      cancel callback runs exactly if the request timed out or was cancelled, and a call
      may still be running, or start, after that. */
  datatype Treatment = NeverRan | Ran | RanThenCanceled | CanceledThenRan | CanceledOnly

  class ConnectionAgent {
    const target: Key
    var backend: SigningBackend?
    var bindings: seq<PendingExtension>
    var bindingBytes: nat
    ghost var retained: seq<seq<byte>>          // what the client has bound, in order
    ghost var known: set<SigningBackend>       // every backend this connection ever had

    ghost function Buffers(): set<array<byte>>
      reads this`bindings
    {
      set i | 0 <= i < |bindings| :: bindings[i].contents
    }

    /** The private copies are distinct arrays that hold what was retained. */
    ghost predicate Copies()
      reads this`bindings, this`retained, Buffers()
    {
      && |retained| == |bindings|
      && (forall i :: 0 <= i < |bindings| ==> bindings[i].typeName == SESSION_BIND && bindings[i].contents[..] == retained[i])
      && (forall i, j :: 0 <= i < j < |bindings| ==> bindings[i].contents != bindings[j].contents)
    }

    /** Every backend but the one in use is closed. */
    ghost predicate OthersClosed()
      reads this`backend, this`known, known
    {
      forall b :: b in known && b != backend ==> b.closed
    }

    /** The bounds hold, and a backend in use has accepted exactly what was bound. */
    ghost predicate Valid()
      reads this, Buffers(), known
    {
      && Copies() && OthersClosed()
      && |bindings| <= MAX_PENDING_SESSION_BINDS
      && bindingBytes == Total(retained) <= MAX_PENDING_BYTES
      && (backend != null ==> backend in known && !backend.closed && backend.accepted == retained)
    }

    constructor (target: Key)
      ensures Valid() && backend == null && retained == [] && known == {} && this.target == target
    {
      this.target, backend, bindings, bindingBytes, retained, known := target, null, [], 0, [], {};
    }

    /** Remember one binding, in a private copy. */
    method Retain(typeName: string, contents: seq<byte>)
      requires Copies() && typeName == SESSION_BIND && bindingBytes == Total(retained)
      modifies this`bindings, this`bindingBytes, this`retained
      ensures Copies() && retained == old(retained) + [contents] && bindingBytes == Total(retained)
      ensures bindings != [] && bindings[..|bindings| - 1] == old(bindings) && fresh(bindings[|bindings| - 1].contents)
    {
      var copy := new byte[|contents|](i requires 0 <= i < |contents| => contents[i]);
      assert copy[..] == contents;
      TotalAppend(retained, contents);
      bindings := bindings + [PendingExtension(typeName, copy)];
      bindingBytes := bindingBytes + copy.Length;
      retained := retained + [contents];
    }

    /** Take the newest binding back; its copy is cleared. */
    method Forget()
      requires Copies() && bindings != [] && bindingBytes == Total(retained)
      modifies this`bindings, this`bindingBytes, this`retained, bindings[|bindings| - 1].contents
      ensures Copies() && bindings == old(bindings)[..|old(bindings)| - 1]
      ensures retained == old(retained)[..|old(retained)| - 1] && bindingBytes == Total(retained)
    {
      var last := |bindings| - 1;
      bindingBytes := bindingBytes - bindings[last].contents.Length;
      ZeroBytes(bindings[last].contents);
      bindings := bindings[..last];
      retained := retained[..last];
    }

    /** Offer the newest binding to the backend in use; it is kept only if accepted. */
    method Offer(contents: seq<byte>) returns (error: Option<Error>)
      requires Copies() && OthersClosed() && retained != [] && retained[|retained| - 1] == contents
      requires |bindings| <= MAX_PENDING_SESSION_BINDS && bindingBytes == Total(retained) <= MAX_PENDING_BYTES
      requires backend != null && backend in known && !backend.closed && backend.accepted == retained[..|retained| - 1]
      modifies this`bindings, this`bindingBytes, this`retained, backend`accepted, bindings[|bindings| - 1].contents
      ensures Valid()
      ensures retained == if error.None? then old(retained) else old(retained)[..|old(retained)| - 1]
      ensures fresh(Buffers() - old(Buffers()))
    {
      var accepted := backend.Extension(SESSION_BIND, contents);
      if !accepted {
        Forget();
        return Some(BackendError);
      }
      assert retained == retained[..|retained| - 1] + [contents];
      return None;
    }

    method Bind(contents: seq<byte>) returns (error: Option<Error>)
      requires Valid()
      modifies this`bindings, this`bindingBytes, this`retained, known`accepted
      ensures Valid() && retained == if error.None? then old(retained) + [contents] else old(retained)
      ensures var fits := old(|bindings|) < MAX_PENDING_SESSION_BINDS && old(bindingBytes) + |contents| <= MAX_PENDING_BYTES;
              (!fits ==> error == Some(TooManyBindings)) && (fits && backend == null ==> error == None)
    {
      if |bindings| >= MAX_PENDING_SESSION_BINDS || bindingBytes + |contents| > MAX_PENDING_BYTES {
        return Some(TooManyBindings);
      }
      Retain(SESSION_BIND, contents);
      if backend == null {
        return None;
      }
      error := Offer(contents);
    }

    /** A session-bind is retained exactly if the bounds allow it and the backend in use,
        if any, accepts it. Other extensions only pass through. */
    method Extension(typeName: string, contents: seq<byte>) returns (error: Option<Error>)
      requires Valid()
      modifies this`bindings, this`bindingBytes, this`retained, known`accepted
      ensures Valid()
      ensures var fits := old(|bindings|) < MAX_PENDING_SESSION_BINDS && old(bindingBytes) + |contents| <= MAX_PENDING_BYTES;
              && (retained == if typeName == SESSION_BIND && error.None? then old(retained) + [contents] else old(retained))
              && (typeName == SESSION_BIND && !fits ==> error == Some(TooManyBindings))
              && (typeName == SESSION_BIND && fits && backend == null ==> error == None)
              && (typeName != SESSION_BIND && backend == null ==> error == Some(ExtensionUnsupported))
    {
      if typeName == SESSION_BIND {
        error := Bind(contents);
        return;
      }
      if backend == null {
        return Some(ExtensionUnsupported);
      }
      var passed := backend.Extension(typeName, contents);
      return if passed then None else Some(BackendError);
    }

    /** The factory may fail. */
    method NewBackend() returns (b: SigningBackend?)
      ensures b != null ==> fresh(b) && !b.closed && b.accepted == [] && b.asked == 0
    {
      var ok: bool := *;
      if ok {
        b := new SigningBackend();
      } else {
        b := null;
      }
    }

    method Replay(candidate: SigningBackend) returns (ok: bool)
      requires Copies() && candidate.accepted == []
      modifies candidate`accepted
      ensures ok ==> candidate.accepted == retained
    {
      for i := 0 to |bindings|
        invariant candidate.accepted == retained[..i]
      {
        ok := candidate.Extension(bindings[i].typeName, bindings[i].contents[..]);
        if !ok {
          return;
        }
      }
      return true;
    }

    /** A new backend is used only after it has accepted every retained binding. */
    method ConnectBackendLocked() returns (error: Option<Error>)
      requires Valid() && backend == null
      modifies this`backend, this`known
      ensures Valid() && (error.None? <==> backend != null) && (error.None? || error.value == BackendError)
      ensures backend != null ==> backend !in old(known)
      ensures old(known) <= known && fresh(known - old(known)) && forall b :: b in known - old(known) ==> b.asked == 0
    {
      var candidate := NewBackend();
      if candidate == null {
        return Some(BackendError);
      }
      known := known + {candidate};
      var ok := Replay(candidate);
      if !ok {
        candidate.Close();
        return Some(BackendError);
      }
      backend := candidate;
      return None;
    }

    /** A backend that no longer answers is closed and replaced. */
    method GetSigningBackend() returns (error: Option<Error>)
      requires Valid()
      modifies this`backend, this`known, known`closed
      ensures Valid() && (error.None? <==> backend != null) && (error.None? || error.value == BackendError)
      ensures old(known) <= known && fresh(known - old(known))
      ensures forall b :: b in known - old(known) ==> b.asked == 0
    {
      if backend != null {
        var alive := backend.List();
        if alive {
          return None;
        }
        backend.Close();
        backend := null;
      }
      error := ConnectBackendLocked();
    }

    method CloseSigningBackend()
      requires Valid()
      modifies this`backend, known`closed
      ensures Valid() && backend == null
    {
      if backend != null {
        backend.Close();
        backend := null;
      }
    }

    /** At most one signature request leaves, and the backend it reaches has accepted
        everything this client has bound. Whatever happens, the bindings survive. */
    method SignWithFlags(key: Key, treatment: Treatment) returns (error: Option<Error>, ghost signer: Option<SigningBackend>)
      requires Valid()
      modifies this`backend, this`known, known`closed, known`asked
      ensures Valid() && old(known) <= known && fresh(known - old(known))
      ensures key != target ==> error == Some(KeyNotAllowed) && backend == old(backend)
      ensures forall b :: b in known && Some(b) != signer ==> b.asked == if b in old(known) then old(b.asked) else 0
      ensures signer.Some? ==>
                && key == target && signer.value in known && signer.value.accepted == retained
                && signer.value.asked == (if signer.value in old(known) then old(signer.value.asked) else 0) + 1
      ensures error.None? ==> signer.Some? && treatment.Ran?
      ensures key == target && (treatment.Ran? || treatment.RanThenCanceled?) ==>
                signer.Some? || (error == Some(BackendError) && backend == null)
      ensures treatment.RanThenCanceled? || treatment.CanceledThenRan? || treatment.CanceledOnly? ==>
                key != target || backend == null
    {
      signer := None;
      if key != target {
        return Some(KeyNotAllowed), None;
      }
      error := GetSigningBackend();
      if error.Some? {
        return;
      }
      error, signer := RunCall(treatment);
    }

    /** What the coordinator makes of the call and of its cancel callback. */
    method RunCall(treatment: Treatment) returns (error: Option<Error>, ghost signer: Option<SigningBackend>)
      requires Valid() && backend != null
      modifies this`backend, known`closed, known`asked
      ensures Valid() && (error.None? || error.value == SigningError)
      ensures treatment.RanThenCanceled? || treatment.CanceledThenRan? || treatment.CanceledOnly? ==> backend == null
      ensures signer == if treatment.Ran? || treatment.RanThenCanceled? then old(Some(backend)) else None
      ensures error.None? ==> treatment.Ran?
      ensures forall b :: b in known ==> b.asked == old(b.asked) + if Some(b) == signer then 1 else 0
    {
      signer := None;
      var used := backend;
      error := Some(SigningError);
      if treatment.CanceledThenRan? || treatment.CanceledOnly? {
        CloseSigningBackend();
      }
      if !treatment.NeverRan? && !treatment.CanceledOnly? {
        var ok := used.Sign();
        if !treatment.CanceledThenRan? {
          signer := Some(used);
        }
        error := if ok && treatment.Ran? then None else Some(SigningError);
      }
      if treatment.RanThenCanceled? {
        CloseSigningBackend();
      }
    }

    /** The end of the connection: everything closed, every copy cleared. */
    method Close()
      requires Valid()
      modifies this`backend, this`bindings, this`bindingBytes, this`retained, known`closed, Buffers()
      ensures Valid() && backend == null && retained == []
      ensures forall b :: b in known ==> b.closed
      ensures forall a :: a in old(Buffers()) ==> Cleared(a)
    {
      CloseSigningBackend();
      ClearAll(bindings);
      bindings, bindingBytes, retained := [], 0, [];
    }
  }
}
