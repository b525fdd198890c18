# Exportable FDO view backend — a Dafny model

WPEBackend-fdo connects a WPE host process to an out-of-process renderer. For
each view the host creates a `ViewBackend`, which does three things:

- It opens a socket pair. It keeps one end and watches it for readability. The
  other end goes to the client.
- It reads one handshake message on its end: two 32-bit words, with word 0
  equal to the magic `0x42` and word 1 the client's chosen identity. It then
  registers itself under that identity in the process-wide registry
  `WS::Instance`.
- It relays notifications. It queues frame callbacks and signals "done" to all
  of them when the host finishes a frame. It forwards buffer releases.

The model is imperative, like the source:

- `ExportableFdo.ViewBackend` is a class. Its fields are the ones the C++
  object updates in place: the identity, the callback queue, the client
  descriptor, and whether the socket and the watch exist.
- The registry is a class `WS.Instance` holding a map from identity to backend.
- Every outside effect is appended to the backend's `trace` as an
  `Events.Event`. These effects are the Wayland calls "done", "release" and
  "destroy", the host's set-size, the client's export callback, registry
  register and unregister, and `close` and `dup`.

This turns ordering and "exactly once" into properties of a sequence. The
object invariant `Valid()` relates the trace to a ghost history `enqueued`
of every callback ever queued. It states that every queued callback has
received exactly one "done", in queue order, or is still queued.

Inputs from the outside world are parameters:

- the readiness condition (a GLib `GIOCondition`, of which only the bit
  `G_IO_IN` = 1 is examined);
- what `g_socket_receive` reported (`Handshake.Receive`: the byte count, -1 on
  error, and the two words already in native byte order);
- how channel setup went (`ExportableFdo.ChannelSetup`);
- the descriptor `dup` returns.

Where the code differs from the documented intent of the library, the model
follows the code:

- The destructor unregisters `m_id` unconditionally, whether or not a
  handshake ever succeeded, and not only "if registered". If another view
  registered under that identity, its entry is removed too.
- The destructor releases the watch last, after the callbacks, the registry
  entry and the descriptor, and not first. Only the body of
  `ViewBackend.Destroy` keeps this order. No contract states it, because
  releasing the watch is a flag change and not a trace event.
- The initial value of `m_id` is set in the class header, which is not part of
  this model. The constructor therefore leaves `id` unconstrained. The initial
  values assumed for `m_clientFd` (-1) and for `m_socket` and `m_source` (null)
  are the ones the destructor's guards test against.

The registry's own code (`ws.h`, `ws.cpp`) is not part of this model, so what
registering an identity that is already present does cannot be read from the
code. The model assumes that `RegisterViewBackend` inserts or overwrites and
that `UnregisterViewBackend` removes the entry if there is one (see
"## Left out"). Under that assumption, a view B that completes a handshake
with an identity view A already holds replaces A's entry without notice.

Whatever register does with a key that is already present, a backend can
leave a stale entry behind. Each accepted handshake overwrites `m_id` and
registers the new identity. The destructor unregisters only the last one. A
client that completes handshakes for identities 1 and then 2 therefore leaves
1 mapped to the destroyed view. `ExportableFdo.ReHandshakeLeavesStaleEntry`
states this, and `ExportableFdo.SecondHandshakeScenario` plays it through
the class.

## Model

| member | source | states |
|---|---|---|
| ExportableFdo.ClientBundle.constructor | src/view-backend-exportable-fdo.cpp:174 | a new bundle holds the client table, the user data and the initial size, and has no backend yet |
| ExportableFdo.ViewBackend.constructor | src/view-backend-exportable-fdo.cpp:33-38 | the backend stores the bundle and host handle, and the bundle's back-reference points to the new backend; the queue and trace start empty, and there is no descriptor, socket or watch |
| ExportableFdo.ViewBackend.Initialize | src/view-backend-exportable-fdo.cpp:58-85 | if socketpair fails, nothing changes. If wrapping the local end fails, both ends are closed in order, the socket is null and nothing else changes. On success the socket and watch exist, the client descriptor is the remote end, and exactly one set-size event carries the bundle's initial width and height |
| ExportableFdo.ViewBackend.ClientFd | src/view-backend-exportable-fdo.cpp:87-90 | returns the duplicate the OS hands back, records a dup of the retained descriptor, and leaves that descriptor, the queue and the identity unchanged |
| ExportableFdo.ViewBackend.FrameCallback | src/view-backend-exportable-fdo.cpp:92-95 | the queue becomes the old queue with the callback appended; no event is emitted and no other field changes |
| ExportableFdo.ViewBackend.ExportBufferResource | src/view-backend-exportable-fdo.cpp:97-100 | exactly one export event is emitted, carrying the bundle's client table, the bundle's user data and the buffer |
| ExportableFdo.ViewBackend.DispatchFrameCallback | src/view-backend-exportable-fdo.cpp:102-107 | the trace gains one "done" per queued callback, in queue order; the callbacks signalled so far are the old ones followed by the old queue; the queue ends empty and the invariant is kept |
| ExportableFdo.ViewBackend.SendDoneToQueue | src/view-backend-exportable-fdo.cpp:104-105 | the loop appends exactly `DoneAll(queue)` to the trace |
| ExportableFdo.ViewBackend.ReleaseBuffer | src/view-backend-exportable-fdo.cpp:109-112 | exactly one release event for the buffer; the queue, the identity and the registry are not touched |
| ExportableFdo.ViewBackend.SocketCallback | src/view-backend-exportable-fdo.cpp:114-132 | the return value keeps the watch unless the read failed. On a complete message with magic 0x42, the identity becomes word 1, the registry maps word 1 to this backend and one registration event is emitted. Otherwise the identity, the registry and the trace are unchanged |
| ExportableFdo.ViewBackend.Destroy | src/view-backend-exportable-fdo.cpp:40-56 | the trace gains exactly `Teardown(queue, id, clientFd)` and no new "done". The registry loses the current identity, whatever it mapped to. The watch and the socket are released |
| ExportableFdo.ViewBackend.DestroyCallbacks | src/view-backend-exportable-fdo.cpp:42-43 | the loop appends exactly one destroy event per queued callback, in queue order |
| ExportableFdo.TeardownOrder | src/view-backend-exportable-fdo.cpp:40-48 | teardown destroys each queued callback as many times as it is queued, in queue order. Then it unregisters the identity. Then it closes the client descriptor exactly when it is not -1 |
| ExportableFdo.TeardownSignalsNothing | src/view-backend-exportable-fdo.cpp:40-48 | teardown contains no "done" event: still-queued callbacks are discarded, not signalled |
| ExportableFdo.DispatchFrameComplete | src/view-backend-exportable-fdo.cpp:200-205 | the C entry point has exactly the effect of the bundle's backend dispatching its frame callbacks |
| ExportableFdo.DispatchReleaseBuffer | src/view-backend-exportable-fdo.cpp:207-212 | the C entry point has exactly the effect of the bundle's backend releasing the buffer, and leaves its queue alone |
| ExportableFdo.ConnectedView | src/view-backend-exportable-fdo.cpp:114-131 | for a view of 800x600 created and initialized, a handshake (0x42, 7) leaves the view's identity 7 and maps 7 to that view in the registry |
| ExportableFdo.ReHandshakeLeavesStaleEntry | src/view-backend-exportable-fdo.cpp:45 | after accepted handshakes for two different identities and the destructor's removal of the current one, the first identity still maps to the backend |
| WS.Instance.RegisterViewBackend | src/view-backend-exportable-fdo.cpp:128 | an assumed behaviour, since the registry's code is not part of the model: after registering, the identity maps to the backend, overwriting any earlier entry, and every other entry is as before |
| WS.Instance.UnregisterViewBackend | src/view-backend-exportable-fdo.cpp:45 | an assumed behaviour: after unregistering, the identity has no entry and every other entry is as before |
| Handshake.Classify | src/view-backend-exportable-fdo.cpp:114-131 | Nothing is read exactly when G_IO_IN is absent. The watch stops exactly when G_IO_IN is present and the read returned -1. A message is accepted exactly when G_IO_IN is present, 8 bytes were read and word 0 is 0x42, and an accepted identity is word 1 |
| Handshake.RegistryAfter | src/view-backend-exportable-fdo.cpp:125-129 | an accepted message adds exactly its identity, mapped to the backend, and keeps all other entries; any other verdict leaves the registry equal to what it was |
| Handshake.RedeliveryIsIdempotent | src/view-backend-exportable-fdo.cpp:125-129 | handling the same message twice leaves the registry as handling it once: no duplicate and no corrupted entry |
| Handshake.OnlyMagicRegisters | src/view-backend-exportable-fdo.cpp:120-131 | a short read, zero bytes, an error or a wrong magic never changes the registry. The watch stays installed unless the read reported an error |
| Events.DoneAll | src/view-backend-exportable-fdo.cpp:104-105 | the "done" events for a queue: one per entry, position by position |
| Events.DoneExactlyOnce | src/view-backend-exportable-fdo.cpp:102-107 | each callback receives as many "done" signals as it has queue entries: once if queued once, never if not queued |
| Events.SignalledDoneAll | src/view-backend-exportable-fdo.cpp:104-105 | the callbacks signalled by dispatching a queue are exactly that queue, in order |
| Events.SignalledAfterDone | src/view-backend-exportable-fdo.cpp:102-107 | dispatching after any history adds exactly the queue, in order, to the callbacks signalled so far |
| Events.DestroyAll | src/view-backend-exportable-fdo.cpp:42-43 | the destroy events for a queue: one per entry, position by position |
| Events.DestroyedExactlyOnce | src/view-backend-exportable-fdo.cpp:42-43 | each callback is destroyed as many times as it is queued |
| Events.SignalledDestroyAll | src/view-backend-exportable-fdo.cpp:42-43 | destroying the queue signals "done" to nobody |

## Left out

- GLib socket and source plumbing is left out: `g_socket_set_blocking`, the
  source's priority -70, `set_can_recurse` and `g_source_attach`. So are the
  destroy and unref calls, which are reactor configuration and not behaviour.
  Whether the socket and the watch exist is kept as `hasSocket` and `hasSource`.
- The reactor acting on the callback's return value (removing the source when
  it returns FALSE) is outside the model. The return value itself is modelled.
- OS descriptor calls (`socketpair`, `dup`, `close`) are not modelled. Their
  outcomes are inputs. `close` and `dup` are recorded as trace events. The
  duplicate that `dup` returns is a parameter, because a fresh descriptor
  cannot be specified without modelling the OS.
- The local socket descriptor inside the GSocket is not kept. It is released
  through `g_object_unref`, which is outside the model.
- Wayland and WPE calls and the client's `export_buffer_resource` are recorded
  only as trace events.
- The registry's implementation (`ws.h`, `ws.cpp`) is not part of this model.
  Only the two operations this file calls are modelled.
- WS.Instance.RegisterViewBackend: the overwrite of an identity that is
  already present is an assumption, not read from code. The contracts that
  depend on it are `Handshake.RegistryAfter`, `Handshake.RedeliveryIsIdempotent`,
  `ExportableFdo.ViewBackend.SocketCallback`, `ExportableFdo.ConnectedView`
  and `ExportableFdo.ReHandshakeLeavesStaleEntry`. If the registry kept an
  existing entry instead, a handshake for an identity already taken would not
  map it to this backend.
- WS.Instance.UnregisterViewBackend: removing the entry if present and doing
  nothing otherwise is an assumption, not read from code. In particular, the
  model removes the entry whichever backend it maps to. The contract that
  depends on it is `ExportableFdo.ViewBackend.Destroy`.
- The C allocation wrappers `wpe_view_backend_exportable_fdo_create`, `destroy`
  and `get_view_backend` are not modelled, nor is the lambda table of the host
  interface. They are allocation glue with no logic. The entry points take the
  `ClientBundle` that the wrapper would reach through the exportable.
- Re-entrant dispatch and concurrency are not modelled. The source is
  single-threaded, and each method is modelled as one atomic step.
- ExportableFdo.ViewBackend.Destroy: the model does not capture that the
  object and its queue are freed. After `Destroy` the fields keep their
  values and `Valid()` still holds. The model does not forbid later calls,
  although in the source any later call would use a deleted object.
- ExportableFdo.ViewBackend.constructor: does not constrain `id`, because its
  initial value is set in the class header, which is not part of this model.
