/** The private control-channel handshake: one 8-byte message of two 32-bit
    words in native byte order, word 0 the magic 0x42, word 1 the client's
    chosen identity. */
module Handshake {
  import opened Events

  /** The value word 0 of the handshake message must carry. */
  const MAGIC: uint32 := 0x42

  /** sizeof(uint32_t) * 2: the number of bytes asked for, and the only length accepted. */
  const MESSAGE_SIZE: int := 8

  /** GLib's G_IO_IN bit of a GIOCondition: there is data to read. */
  const G_IO_IN: bv32 := 1

  /** What `g_socket_receive` reported: the byte count (-1 on error) and the
      two words of the message buffer, already in native byte order. Words
      beyond `len` bytes hold whatever the buffer held. */
  datatype Receive = Receive(len: int, word0: uint32, word1: uint32)

  /** How one readability notification ends. */
  datatype Verdict =
    | NotReadable        // the condition lacks G_IO_IN: nothing is read
    | ReadFailed         // the read reported an error
    | Accepted(id: uint32) // a full message with the right magic
    | Ignored            // short read, zero bytes or wrong magic
  {
    /** The callback's return value: TRUE keeps the watch, FALSE removes it. */
    predicate KeepWatching() {
      !ReadFailed?
    }
  }

  /** The decision `s_socketCallback` takes on one notification. */
  function Classify(condition: bv32, received: Receive): (v: Verdict)
    ensures v.NotReadable? <==> condition & G_IO_IN == 0
    ensures !v.KeepWatching() <==> condition & G_IO_IN != 0 && received.len == -1
    ensures v.Accepted? <==>
      condition & G_IO_IN != 0 && received.len == MESSAGE_SIZE && received.word0 == MAGIC
    ensures v.Accepted? ==> v.id == received.word1
  {
    if condition & G_IO_IN == 0 then NotReadable
    else if received.len == -1 then ReadFailed
    else if received.len == MESSAGE_SIZE && received.word0 == MAGIC then Accepted(received.word1)
    else Ignored
  }

  /** The registry after a notification with verdict `v` handled by `backend`. */
  function RegistryAfter<B>(entries: map<uint32, B>, v: Verdict, backend: B): (r: map<uint32, B>)
    ensures v.Accepted? ==> r.Keys == entries.Keys + {v.id} && r[v.id] == backend
    ensures forall k :: k in entries && !(v.Accepted? && k == v.id) ==> k in r && r[k] == entries[k]
    ensures !v.Accepted? ==> r == entries
  {
    if v.Accepted? then entries[v.id := backend] else entries
  }

  /** Delivering the same message a second time leaves the registry as the
      first delivery left it: no duplicate and no corrupted entry. */
  lemma RedeliveryIsIdempotent<B>(entries: map<uint32, B>, condition: bv32, received: Receive, backend: B)
    ensures
      var once := RegistryAfter(entries, Classify(condition, received), backend);
      RegistryAfter(once, Classify(condition, received), backend) == once
  {
  }

  /** Only a complete message with the magic word changes the registry: a
      short read, zero bytes, an error or a wrong magic leave it as it was. */
  lemma OnlyMagicRegisters<B>(entries: map<uint32, B>, condition: bv32, received: Receive, backend: B)
    requires received.len != MESSAGE_SIZE || received.word0 != MAGIC
    ensures RegistryAfter(entries, Classify(condition, received), backend) == entries
    ensures Classify(condition, received).KeepWatching() <==> received.len != -1 || condition & G_IO_IN == 0
  {
  }
}
