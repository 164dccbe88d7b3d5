/** The JSON request body of an event and its mapping to the domain event. */
module EventDto {
  import opened Domain

  /** The decoded request body: `event_id`, `talent_id`, `raw_metric`,
      `skill`, `ts`. */
  datatype Request = Request(eventId: Uuid, talentId: string, rawMetric: real, skill: string, ts: Instant)

  /** Copies every request field into a new event; the score is left zero for
      the scorer to fill in. */
  function FromRequest(r: Request): (e: Event)
    ensures e.eventId == r.eventId && e.talentId == r.talentId
    ensures e.rawMetric == r.rawMetric && e.skill == r.skill
    ensures e.ts == r.ts
    ensures e.score == 0.0
  {
    Event(r.eventId, r.talentId, r.rawMetric, r.skill, r.ts, 0.0)
  }

  /** The request fields an event carries. */
  function RequestOf(e: Event): Request {
    Request(e.eventId, e.talentId, e.rawMetric, e.skill, e.ts)
  }

  /** `FromRequest` loses nothing of the request, and its events are exactly
      the unscored ones. */
  lemma FromRequestRoundTrip(r: Request, e: Event)
    ensures RequestOf(FromRequest(r)) == r
    ensures FromRequest(RequestOf(e)) == e <==> e.score == 0.0
  {
  }
}
