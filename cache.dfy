/** The deduplication cache: a grow-only set of the event ids already
    admitted. */
module DedupCache {
  import opened Wrappers
  import opened Domain

  class Cache {
    /** The ids marked so far (a `map[uuid.UUID]struct{}` in the store). */
    var events: set<Uuid>

    /** A new cache starts with an empty set; the restore hook (`WakeUp`)
        brings nothing back. */
    constructor ()
      ensures events == {}
    {
      events := {};
      new;
      var _ := WakeUp();
    }

    /** Marks an id. Idempotent; no other id's membership changes. */
    method Set(eventId: Uuid)
      modifies this
      ensures events == old(events) + {eventId}
      ensures eventId in events
      ensures forall id :: id != eventId ==> (id in events <==> id in old(events))
    {
      events := events + {eventId};
    }

    /** Whether an id has been marked; the set is not changed. */
    method IsSet(id: Uuid) returns (ok: bool)
      ensures ok <==> id in events
    {
      ok := id in events;
    }

    /** The restore hook: reports no error and leaves the set as it is. */
    method WakeUp() returns (err: Option<Error>)
      ensures err == None
    {
      err := None;
    }

    /** The snapshot hook: reports no error and leaves the set as it is. */
    method ToRedis() returns (err: Option<Error>)
      ensures err == None
    {
      err := None;
    }
  }
}
