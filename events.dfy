/** Opaque handles and the outside effects of the view backend, recorded as an
    append-only trace of events.

    The backend talks to the Wayland server library (frame "done", buffer
    "release", resource "destroy"), to the WPE host (set size), to the client's
    callback table (export) and to the OS (close, dup). None of those calls
    is modelled; each one becomes an `Event` appended to the backend's trace,
    so that ordering and "exactly once" become properties of a sequence. */
module Events {

  /** A C `uint32_t`. */
  newtype uint32 = x: int | 0 <= x < 0x1_0000_0000

  /** A `struct wl_resource*`: a frame-callback or buffer resource, compared by identity. */
  datatype Resource = Resource(address: nat)

  /** The `struct wpe_view_backend*` the backend was created for. */
  datatype HostBackend = HostBackend(address: nat)

  /** The client's `wpe_view_backend_exportable_fdo_client*` callback table. */
  datatype ClientTable = ClientTable(address: nat)

  /** The client's opaque `void* data`. */
  datatype ClientData = ClientData(address: nat)

  datatype Event =
    | Done(callback: Resource)                                     // wl_callback_send_done(callback, 0)
    | Release(buffer: Resource)                                    // wl_buffer_send_release(buffer)
    | Destroyed(resource: Resource)                                // wl_resource_destroy(resource)
    | Exported(client: ClientTable, data: ClientData, buffer: Resource) // client->export_buffer_resource(data, buffer)
    | Registered(id: uint32)                                         // registerViewBackend(id, ...)
    | Unregistered(id: uint32)                                       // unregisterViewBackend(id)
    | SetSize(backend: HostBackend, width: uint32, height: uint32)     // wpe_view_backend_dispatch_set_size
    | Closed(fd: int)                                              // close(fd)
    | Duplicated(fd: int)                                          // dup(fd)

  /** The events of signalling "done" to each handle of `q`, in order. */
  function DoneAll(q: seq<Resource>): (r: seq<Event>)
    ensures |r| == |q|
    ensures forall i :: 0 <= i < |q| ==> r[i] == Done(q[i])
  {
    if q == [] then [] else [Done(q[0])] + DoneAll(q[1..])
  }

  /** The events of destroying each handle of `q`, in order, without signalling it. */
  function DestroyAll(q: seq<Resource>): (r: seq<Event>)
    ensures |r| == |q|
    ensures forall i :: 0 <= i < |q| ==> r[i] == Destroyed(q[i])
  {
    if q == [] then [] else [Destroyed(q[0])] + DestroyAll(q[1..])
  }

  /** The handles that `trace` signals "done" to, in the order of the signals. */
  function Signalled(trace: seq<Event>): (r: seq<Resource>)
    ensures |r| <= |trace|
  {
    if trace == [] then []
    else (if trace[0].Done? then [trace[0].callback] else []) + Signalled(trace[1..])
  }

  /** Signalled distributes over concatenation of traces. */
  lemma {:induction false} SignalledAppend(a: seq<Event>, b: seq<Event>)
    ensures Signalled(a + b) == Signalled(a) + Signalled(b)
  {
    if a == [] {
      assert a + b == b;
    } else {
      assert (a + b)[0] == a[0];
      assert (a + b)[1..] == a[1..] + b;
      SignalledAppend(a[1..], b);
    }
  }

  /** Appending an event other than "done" signals nobody new. */
  lemma SignalledAppendOther(t: seq<Event>, e: Event)
    requires !e.Done?
    ensures Signalled(t + [e]) == Signalled(t)
  {
    SignalledAppend(t, [e]);
    assert Signalled([e]) == [];
  }

  /** Signalling "done" to a queue signals exactly that queue, in order. */
  lemma {:induction false} SignalledDoneAll(q: seq<Resource>)
    ensures Signalled(DoneAll(q)) == q
  {
    if q != [] {
      SignalledDoneAll(q[1..]);
      assert DoneAll(q)[1..] == DoneAll(q[1..]);
    }
  }

  /** Signalling "done" to a queue after a trace adds exactly that queue to
      the handles signalled so far. */
  lemma SignalledAfterDone(t: seq<Event>, q: seq<Resource>)
    ensures Signalled(t + DoneAll(q)) == Signalled(t) + q
  {
    SignalledAppend(t, DoneAll(q));
    SignalledDoneAll(q);
  }

  /** Destroying a queue signals nobody. */
  lemma {:induction false} SignalledDestroyAll(q: seq<Resource>)
    ensures Signalled(DestroyAll(q)) == []
  {
    if q != [] {
      SignalledDestroyAll(q[1..]);
      assert DestroyAll(q)[1..] == DestroyAll(q[1..]);
    }
  }

  /** Each handle receives as many "done" signals as it has entries in the
      queue: exactly one when it was queued once, none when it was not queued. */
  lemma {:induction false} DoneExactlyOnce(q: seq<Resource>, h: Resource)
    ensures multiset(DoneAll(q))[Done(h)] == multiset(q)[h]
  {
    if q != [] {
      DoneExactlyOnce(q[1..], h);
      assert q == [q[0]] + q[1..];
      assert DoneAll(q) == [Done(q[0])] + DoneAll(q[1..]);
    }
  }

  /** Each handle is destroyed as many times as it is queued. */
  lemma {:induction false} DestroyedExactlyOnce(q: seq<Resource>, h: Resource)
    ensures multiset(DestroyAll(q))[Destroyed(h)] == multiset(q)[h]
  {
    if q != [] {
      DestroyedExactlyOnce(q[1..], h);
      assert q == [q[0]] + q[1..];
      assert DestroyAll(q) == [Destroyed(q[0])] + DestroyAll(q[1..]);
    }
  }
}
