/** Event admission: an event whose id the cache has not seen is marked and
    queued for scoring; a seen id is reported as a duplicate. */
module EventServices {
  import opened Wrappers
  import opened Domain
  import opened DedupCache

  /** Admission against a cache holding the ids `seen`: duplicate exactly when
      the id was seen, never an error. `EventService.Create` answers this. */
  function Admission(seen: set<Uuid>): Event -> Result<bool, Error> {
    (e: Event) => Success(e.eventId in seen)
  }

  class EventService {
    const cache: Cache
    /** The scorer's input queue, oldest first. */
    var input: seq<Event>
    /** The "duplicate" metrics counter. */
    var duplicates: nat

    constructor (cache: Cache)
      ensures this.cache == cache && input == [] && duplicates == 0
    {
      this.cache := cache;
      input := [];
      duplicates := 0;
    }

    /** Admits one event. A new id is marked in the cache and the event is
        queued unchanged; a seen id changes neither. The "duplicate" counter is
        bumped on both paths, and no error is ever returned. */
    method Create(e: Event) returns (duplicate: bool, err: Option<Error>)
      modifies this, cache
      ensures duplicate <==> e.eventId in old(cache.events)
      ensures err == None && Success(duplicate) == Admission(old(cache.events))(e)
      ensures cache.events == old(cache.events) + {e.eventId}
      ensures input == if duplicate then old(input) else old(input) + [e]
      ensures duplicates == old(duplicates) + 1
      ensures err == None
    {
      duplicate := cache.IsSet(e.eventId);
      if !duplicate {
        cache.Set(e.eventId);
        input := input + [e];
      }
      duplicates := duplicates + 1;
      err := None;
    }

    /** Queues a batch of `cnt` generated events, bypassing the cache. */
    method Seed(cnt: int, batch: seq<Event>)
      requires 0 <= cnt == |batch|
      modifies this
      ensures input == old(input) + batch
      ensures duplicates == old(duplicates)
      ensures cache.events == old(cache.events)
    {
      for i := 0 to |batch|
        invariant input == old(input) + batch[..i]
        invariant duplicates == old(duplicates)
      {
        input := input + [batch[i]];
        assert batch[..i + 1] == batch[..i] + [batch[i]];
      }
      assert batch[..|batch|] == batch;
    }
  }

  /** Idempotent admission: the same new event submitted twice is reported
      new, then duplicate, and is queued once. */
  method CreateTwice(svc: EventService, e: Event) returns (first: bool, second: bool)
    requires e.eventId !in svc.cache.events
    modifies svc, svc.cache
    ensures !first && second
    ensures svc.input == old(svc.input) + [e]
    ensures svc.cache.events == old(svc.cache.events) + {e.eventId}
    ensures svc.duplicates == old(svc.duplicates) + 2
  {
    var err;
    first, err := svc.Create(e);
    second, err := svc.Create(e);
  }
}
