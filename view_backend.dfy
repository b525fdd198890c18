/** The per-view backend of the exportable FDO view backend: the object the
    WPE host creates for one view. It hands the client one end of a socket
    pair, learns the client's identity over the other end, registers itself
    under that identity, and relays frame-callback and buffer-release
    notifications. */
module ExportableFdo {
  import opened Events
  import opened Handshake
  import WS

  /** The launch configuration of one view: the client's callback table and
      user data, the initial size, and a back-reference to the backend. */
  class ClientBundle {
    const client: ClientTable
    const data: ClientData
    var viewBackend: ViewBackend?
    const initialWidth: uint32
    const initialHeight: uint32

    constructor (client: ClientTable, data: ClientData, width: uint32, height: uint32)
      ensures this.client == client && this.data == data
      ensures initialWidth == width && initialHeight == height
      ensures viewBackend == null
    {
      this.client := client;
      this.data := data;
      this.viewBackend := null;
      this.initialWidth := width;
      this.initialHeight := height;
    }
  }

  /** What opening the control channel came to: `socketpair` failed, the
      local end could not be wrapped as a GSocket (both ends are then
      closed), or the channel is open and `remote` is the client's end. */
  datatype ChannelSetup =
    | PairFailed
    | WrapFailed(local: nat, remote: nat)
    | Opened(remote: nat)

  /** The effects of tearing a backend down, in order: every still-queued
      frame callback is destroyed, the identity is unregistered, and the
      client descriptor is closed when there is one. */
  function Teardown(queue: seq<Resource>, id: uint32, clientFd: int): (r: seq<Event>)
    ensures |r| == |queue| + (if clientFd != -1 then 2 else 1)
  {
    DestroyAll(queue) + [Unregistered(id)] + (if clientFd != -1 then [Closed(clientFd)] else [])
  }

  /** Teardown never signals "done": still-queued callbacks are discarded. */
  lemma TeardownSignalsNothing(queue: seq<Resource>, id: uint32, clientFd: int)
    ensures Signalled(Teardown(queue, id, clientFd)) == []
  {
    SignalledDestroyAll(queue);
    SignalledAppendOther(DestroyAll(queue), Unregistered(id));
    if clientFd != -1 {
      SignalledAppendOther(DestroyAll(queue) + [Unregistered(id)], Closed(clientFd));
    } else {
      assert Teardown(queue, id, clientFd) == DestroyAll(queue) + [Unregistered(id)];
    }
  }

  /** Teardown adds no "done" signal to a trace. */
  lemma TeardownKeepsSignalled(before: seq<Event>, queue: seq<Resource>, id: uint32, clientFd: int)
    ensures Signalled(before + Teardown(queue, id, clientFd)) == Signalled(before)
  {
    SignalledAppend(before, Teardown(queue, id, clientFd));
    TeardownSignalsNothing(queue, id, clientFd);
  }

  /** Appending the teardown steps one at a time, as the destructor does,
      appends Teardown. */
  lemma TeardownSteps(before: seq<Event>, queue: seq<Resource>, id: uint32, clientFd: int)
    ensures before + DestroyAll(queue) + [Unregistered(id)] + (if clientFd != -1 then [Closed(clientFd)] else [])
      == before + Teardown(queue, id, clientFd)
    ensures clientFd == -1 ==> before + DestroyAll(queue) + [Unregistered(id)] == before + Teardown(queue, id, clientFd)
  {
  }

  /** Teardown destroys each queued callback exactly as often as it is queued,
      then unregisters the identity, then closes the descriptor iff it is not -1. */
  lemma TeardownOrder(queue: seq<Resource>, id: uint32, clientFd: int, h: Resource)
    ensures var t := Teardown(queue, id, clientFd);
      && multiset(t)[Destroyed(h)] == multiset(queue)[h]
      && (forall i :: 0 <= i < |queue| ==> t[i] == Destroyed(queue[i]))
      && t[|queue|] == Unregistered(id)
      && (clientFd != -1 <==> |t| == |queue| + 2)
      && (clientFd != -1 ==> t[|queue| + 1] == Closed(clientFd))
  {
    DestroyedExactlyOnce(queue, h);
    var tail := [Unregistered(id)] + (if clientFd != -1 then [Closed(clientFd)] else []);
    assert Teardown(queue, id, clientFd) == DestroyAll(queue) + tail;
    assert multiset(DestroyAll(queue) + tail) == multiset(DestroyAll(queue)) + multiset(tail);
  }

  /** The destructor removes only the identity the backend holds last. A
      backend that accepted a handshake for `first` and then one for `second`
      leaves `first` mapped to itself after it is destroyed. */
  lemma {:induction false} ReHandshakeLeavesStaleEntry<B>(entries: map<uint32, B>, first: uint32, second: uint32, backend: B)
    requires first != second
    ensures var after := RegistryAfter(RegistryAfter(entries, Accepted(first), backend), Accepted(second), backend) - {second};
      first in after && after[first] == backend
  {
  }

  class ViewBackend {
    const bundle: ClientBundle
    const backend: HostBackend
    /** The client's identity; its initial value is set outside this model. */
    var id: uint32
    /** m_callbackResources: the pending frame callbacks, in arrival order. */
    var queue: seq<Resource>
    /** The client's end of the channel, -1 until the channel is open. */
    var clientFd: int
    /** m_socket is non-null. */
    var hasSocket: bool
    /** m_source is non-null: a readability watch is installed. */
    var hasSource: bool
    /** Every outside effect so far, oldest first. */
    var trace: seq<Event>
    /** Every frame callback ever queued, oldest first. */
    ghost var enqueued: seq<Resource>

    /** The bundle points back here, and every callback ever queued has
        been signalled "done" exactly once, in order, or is still queued. */
    ghost predicate Valid()
      reads this, bundle
    {
      && bundle.viewBackend == this
      && Signalled(trace) + queue == enqueued
    }

    constructor (clientBundle: ClientBundle, backend: HostBackend)
      modifies clientBundle
      ensures bundle == clientBundle && this.backend == backend
      ensures queue == [] && trace == [] && enqueued == []
      ensures clientFd == -1 && !hasSocket && !hasSource
      ensures Valid()
    {
      bundle := clientBundle;
      this.backend := backend;
      queue := [];
      clientFd := -1;
      hasSocket := false;
      hasSource := false;
      trace := [];
      enqueued := [];
      new;
      clientBundle.viewBackend := this;
    }

    /** Opens the control channel and installs the readability watch, then
        applies the bundle's initial size; on failure the view stays
        unconnected and no error is reported. */
    method Initialize(setup: ChannelSetup)
      requires Valid()
      modifies this`hasSocket, this`hasSource, this`clientFd, this`trace
      ensures Valid()
      ensures setup.PairFailed? ==>
        && trace == old(trace) && clientFd == old(clientFd)
        && hasSocket == old(hasSocket) && hasSource == old(hasSource)
      ensures setup.WrapFailed? ==>
        && trace == old(trace) + [Closed(setup.local), Closed(setup.remote)]
        && !hasSocket && hasSource == old(hasSource) && clientFd == old(clientFd)
      ensures setup.Opened? ==>
        && trace == old(trace) + [SetSize(backend, bundle.initialWidth, bundle.initialHeight)]
        && hasSocket && hasSource && clientFd == setup.remote
    {
      match setup
      case PairFailed =>
        return;
      case WrapFailed(local, remote) =>
        hasSocket := false;
        SignalledAppend(trace, [Closed(local), Closed(remote)]);
        assert Signalled([Closed(local), Closed(remote)]) == [];
        trace := trace + [Closed(local), Closed(remote)];
        return;
      case Opened(remote) =>
        hasSocket := true;
        hasSource := true;
        clientFd := remote;
        SignalledAppendOther(trace, SetSize(backend, bundle.initialWidth, bundle.initialHeight));
        trace := trace + [SetSize(backend, bundle.initialWidth, bundle.initialHeight)];
    }

    /** Returns a duplicate of the client descriptor; `duplicate` stands for
        the descriptor the OS hands back. The retained descriptor is not touched. */
    method ClientFd(duplicate: int) returns (fd: int)
      requires Valid()
      modifies this`trace
      ensures Valid()
      ensures fd == duplicate
      ensures trace == old(trace) + [Duplicated(clientFd)]
    {
      SignalledAppendOther(trace, Duplicated(clientFd));
      trace := trace + [Duplicated(clientFd)];
      fd := duplicate;
    }

    /** Queues a frame callback; nothing is signalled yet. */
    method FrameCallback(callback: Resource)
      requires Valid()
      modifies this`queue, this`enqueued
      ensures Valid()
      ensures queue == old(queue) + [callback]
      ensures enqueued == old(enqueued) + [callback]
    {
      queue := queue + [callback];
      enqueued := enqueued + [callback];
    }

    /** Hands a buffer the client exported to the client's callback table. */
    method ExportBufferResource(buffer: Resource)
      requires Valid()
      modifies this`trace
      ensures Valid()
      ensures trace == old(trace) + [Exported(bundle.client, bundle.data, buffer)]
    {
      SignalledAppendOther(trace, Exported(bundle.client, bundle.data, buffer));
      trace := trace + [Exported(bundle.client, bundle.data, buffer)];
    }

    /** Signals "done" to every queued callback, oldest first, then empties the queue. */
    method DispatchFrameCallback()
      requires Valid()
      modifies this`queue, this`trace
      ensures Valid()
      ensures trace == old(trace) + DoneAll(old(queue))
      ensures Signalled(trace) == Signalled(old(trace)) + old(queue)
      ensures queue == []
    {
      SendDoneToQueue();
      SignalledAfterDone(old(trace), queue);
      queue := [];
    }

    /** The loop of DispatchFrameCallback: `wl_callback_send_done` on every
        queued callback, oldest first. */
    method SendDoneToQueue()
      modifies this`trace
      ensures trace == old(trace) + DoneAll(queue)
    {
      var i := 0;
      while i < |queue|
        invariant 0 <= i <= |queue|
        invariant trace == old(trace) + DoneAll(queue[..i])
      {
        assert DoneAll(queue[..i + 1]) == DoneAll(queue[..i]) + [Done(queue[i])];
        trace := trace + [Done(queue[i])];
        i := i + 1;
      }
      assert queue[..i] == queue;
    }

    /** Signals "release" on one buffer, with no queueing. */
    method ReleaseBuffer(buffer: Resource)
      requires Valid()
      modifies this`trace
      ensures Valid()
      ensures trace == old(trace) + [Release(buffer)]
    {
      SignalledAppendOther(trace, Release(buffer));
      trace := trace + [Release(buffer)];
    }

    /** The readability callback of the watch: reads at most one handshake
        message and, when it is complete and carries the magic word, takes
        word 1 as this backend's identity and registers under it. Returns
        whether the watch stays installed. */
    method SocketCallback(condition: bv32, received: Receive, ws: WS.Instance<ViewBackend>) returns (keep: bool)
      requires Valid()
      modifies this`id, this`trace, ws
      ensures Valid()
      ensures keep == Classify(condition, received).KeepWatching()
      ensures ws.entries == RegistryAfter(old(ws.entries), Classify(condition, received), this)
      ensures Classify(condition, received).Accepted? ==>
        id == received.word1 && trace == old(trace) + [Registered(received.word1)]
      ensures !Classify(condition, received).Accepted? ==> id == old(id) && trace == old(trace)
    {
      if condition & G_IO_IN == 0 {
        return true;
      }
      if received.len == -1 {
        return false;
      }
      if received.len == MESSAGE_SIZE && received.word0 == MAGIC {
        id := received.word1;
        ws.RegisterViewBackend(id, this);
        SignalledAppendOther(trace, Registered(id));
        trace := trace + [Registered(id)];
      }
      return true;
    }

    /** The destructor: destroys the still-queued callbacks without
        signalling them, unregisters the current identity unconditionally,
        closes the client descriptor unless it is -1, and releases the watch
        and the socket. */
    method Destroy(ws: WS.Instance<ViewBackend>)
      requires Valid()
      modifies this`trace, this`hasSource, this`hasSocket, ws
      ensures Valid()
      ensures trace == old(trace) + Teardown(queue, id, clientFd)
      ensures Signalled(trace) == Signalled(old(trace))
      ensures id !in ws.entries && ws.entries == old(ws.entries) - {id}
      ensures !hasSource && !hasSocket
    {
      ghost var before := trace;
      DestroyCallbacks();
      ws.UnregisterViewBackend(id);
      trace := trace + [Unregistered(id)];
      if clientFd != -1 {
        trace := trace + [Closed(clientFd)];
      }
      if hasSource {
        hasSource := false;
      }
      if hasSocket {
        hasSocket := false;
      }
      TeardownSteps(before, queue, id, clientFd);
      TeardownKeepsSignalled(before, queue, id, clientFd);
    }

    /** The destructor's first step: `wl_resource_destroy` on every queued
        callback, oldest first. */
    method DestroyCallbacks()
      modifies this`trace
      ensures trace == old(trace) + DestroyAll(queue)
    {
      var i := 0;
      while i < |queue|
        invariant 0 <= i <= |queue|
        invariant trace == old(trace) + DestroyAll(queue[..i])
      {
        assert DestroyAll(queue[..i + 1]) == DestroyAll(queue[..i]) + [Destroyed(queue[i])];
        trace := trace + [Destroyed(queue[i])];
        i := i + 1;
      }
      assert queue[..i] == queue;
    }
  }

  /** wpe_view_backend_exportable_fdo_dispatch_frame_complete: forwards to the
      bundle's backend, which the host created before handing out the bundle. */
  method DispatchFrameComplete(bundle: ClientBundle)
    requires bundle.viewBackend != null && bundle.viewBackend.Valid()
    modifies bundle.viewBackend`queue, bundle.viewBackend`trace
    ensures bundle.viewBackend == old(bundle.viewBackend) && bundle.viewBackend.Valid()
    ensures bundle.viewBackend.trace == old(bundle.viewBackend.trace) + DoneAll(old(bundle.viewBackend.queue))
    ensures bundle.viewBackend.queue == []
  {
    bundle.viewBackend.DispatchFrameCallback();
  }

  /** wpe_view_backend_exportable_fdo_dispatch_release_buffer: forwards to the
      bundle's backend. */
  method DispatchReleaseBuffer(bundle: ClientBundle, buffer: Resource)
    requires bundle.viewBackend != null && bundle.viewBackend.Valid()
    modifies bundle.viewBackend`trace
    ensures bundle.viewBackend == old(bundle.viewBackend) && bundle.viewBackend.Valid()
    ensures bundle.viewBackend.trace == old(bundle.viewBackend.trace) + [Release(buffer)]
    ensures bundle.viewBackend.queue == old(bundle.viewBackend.queue)
  {
    bundle.viewBackend.ReleaseBuffer(buffer);
  }

  /** The first half of the scenario below: a view of 800x600 is created
      and initialized, and its client announces identity 7. */
  method ConnectedView(ws: WS.Instance<ViewBackend>) returns (bundle: ClientBundle, view: ViewBackend)
    modifies ws
    ensures fresh(bundle) && fresh(view) && bundle.viewBackend == view && view.Valid()
    ensures view.id == 7 && view.queue == []
    ensures ws.entries == old(ws.entries)[7 := view]
  {
    bundle := new ClientBundle(ClientTable(1), ClientData(2), 800, 600);
    view := new ViewBackend(bundle, HostBackend(3));
    view.Initialize(Opened(5));
    var keep := view.SocketCallback(G_IO_IN, Receive(8, MAGIC, 7), ws);
    assert keep;
  }

  /** A view whose client announces identity 7: the registry then resolves 7
      to the view, two queued callbacks are signalled once each in order, and
      after destruction 7 no longer resolves. */
  method HandshakeThenFrameScenario()
  {
    var ws := new WS.Instance<ViewBackend>();
    var bundle, view := ConnectedView(ws);
    assert 7 in ws.entries && ws.entries[7] == view;

    var c1, c2 := Resource(10), Resource(11);
    view.FrameCallback(c1);
    view.FrameCallback(c2);
    assert view.queue == [c1, c2];
    ghost var before := view.trace;
    DispatchFrameComplete(bundle);
    assert DoneAll([c1, c2]) == [Done(c1), Done(c2)];
    assert view.trace == before + [Done(c1), Done(c2)] && view.queue == [];

    assert view.id == 7;
    view.Destroy(ws);
    assert 7 !in ws.entries;
  }

  /** A client that sends two handshakes, for identities 1 and then 2: after
      the view is destroyed, the registry no longer resolves 2 but still
      resolves 1 to the destroyed view. */
  method SecondHandshakeScenario()
  {
    var ws := new WS.Instance<ViewBackend>();
    var bundle := new ClientBundle(ClientTable(1), ClientData(2), 640, 480);
    var view := new ViewBackend(bundle, HostBackend(3));
    view.Initialize(Opened(5));
    var keep := view.SocketCallback(G_IO_IN, Receive(8, MAGIC, 1), ws);
    keep := view.SocketCallback(G_IO_IN, Receive(8, MAGIC, 2), ws);
    assert view.id == 2;
    view.Destroy(ws);
    assert 2 !in ws.entries;
    assert 1 in ws.entries && ws.entries[1] == view;
  }
}
