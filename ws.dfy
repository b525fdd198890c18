/** The process-wide registry `WS::Instance`, reduced to the two operations
    the view backend calls. It maps a client-chosen identity to the backend
    that owns it and owns nothing itself, so the backend type is a parameter. */
module WS {
  import opened Events

  class Instance<B> {
    var entries: map<uint32, B>

    constructor ()
      ensures entries == map[]
    {
      entries := map[];
    }

    /** Inserts, or overwrites, the entry for `id`. */
    method RegisterViewBackend(id: uint32, backend: B)
      modifies this
      ensures id in entries && entries[id] == backend
      ensures entries == old(entries)[id := backend]
    {
      entries := entries[id := backend];
    }

    /** Removes the entry for `id` if there is one; a no-op otherwise. */
    method UnregisterViewBackend(id: uint32)
      modifies this
      ensures id !in entries
      ensures entries == old(entries) - {id}
    {
      entries := entries - {id};
    }
  }
}
