/** The guards of the two event endpoints: `POST /events` and
    `GET /seed?count=`. JSON decoding is an input (None when the body does not
    decode) and admission is a parameter. */
module EventsController {
  import opened Wrappers
  import opened Domain
  import opened EventDto
  import opened Strconv
  import opened Rest
  import opened EventServices

  /** The `POST /events` handler: 400 when the body does not decode (nothing is
      admitted), 500 when admission fails, 202 for a new event, 200 for a
      duplicate. */
  function PostEvent(body: Option<Request>, create: Event -> Result<bool, Error>): (r: Response<()>)
    ensures r.status == StatusBadRequest <==> body.None?
    ensures r.status == StatusInternalServerError <==> body.Some? && create(FromRequest(body.value)).Failure?
    ensures r.status == StatusAccepted <==> body.Some? && create(FromRequest(body.value)) == Success(false)
    ensures r.status == StatusOK <==> body.Some? && create(FromRequest(body.value)) == Success(true)
  {
    match body
    case None => Fail(StatusBadRequest, "invalid json request")
    case Some(req) =>
      match create(FromRequest(req))
      case Failure(_) => Fail(StatusInternalServerError, "failed to create an event")
      case Success(duplicate) =>
        if !duplicate then Reply(StatusAccepted, None) else Reply(StatusOK, None)
  }

  /** With the event service behind it (`Create` answers `Admission` of its
      cache), `POST /events` never answers 500: a
      decoded body answers 202 for an unseen id and 200 for a seen one. */
  lemma PostEventOnCache(body: Option<Request>, seen: set<Uuid>)
    ensures var r := PostEvent(body, Admission(seen));
      && r.status != StatusInternalServerError
      && (body.Some? ==> (r.status == StatusAccepted <==> body.value.eventId !in seen))
      && (body.Some? ==> (r.status == StatusOK <==> body.value.eventId in seen))
  {
  }

  /** The seed endpoint shares the leaderboard's default of 10. */
  const DefaultCount := 10

  /** The `count` query parameter: 10 when absent, otherwise a positive
      integer, anything else rejected (None). There is no upper bound. */
  function ParseCount(s: string): (r: Option<int>)
    ensures s == "" ==> r == Some(DefaultCount)
    ensures r.Some? ==> r.value > 0
    ensures s != "" ==> (r.Some? <==> Atoi(s).Some? && Atoi(s).value > 0)
    ensures s != "" && r.Some? ==> r == Atoi(s)
  {
    if s == "" then Some(DefaultCount)
    else
      match Atoi(s)
      case None => None
      case Some(v) => if v <= 0 then None else Some(v)
  }

  /** A positive count written in decimal reaches the seeder unchanged. */
  lemma ParseCountOfDecimal(v: int)
    requires MinInt <= v <= MaxInt
    ensures ParseCount(FormatInt(v)) == if v > 0 then Some(v) else None
  {
    AtoiFormatInt(v);
    assert FormatInt(v) != "";
  }

  const SeedPrefix := "Database seeded successfully with "
  const SeedSuffix := " records"

  /** The success message embeds the raw query string, not the count. */
  function SeedMessage(s: string): (r: string)
    ensures |r| == |SeedPrefix| + |s| + |SeedSuffix|
    ensures r[..|SeedPrefix|] == SeedPrefix && r[|SeedPrefix|..|SeedPrefix| + |s|] == s
    ensures r[|SeedPrefix| + |s|..] == SeedSuffix
  {
    SeedPrefix + s + SeedSuffix
  }

  /** The `GET /seed` handler's response: 400 on a bad count, else 200 with the
      message (the count itself goes to the event service's `Seed`). */
  function SeedResponse(s: string): (r: Response<string>)
    ensures r.status == StatusBadRequest <==> ParseCount(s).None?
    ensures r.status == StatusOK <==> ParseCount(s).Some?
    ensures r.status == StatusOK ==> r == Reply(StatusOK, Some(SeedMessage(s)))
  {
    if ParseCount(s).None? then Fail(StatusBadRequest, "invalid count (must be > 0)")
    else Reply(StatusOK, Some(SeedMessage(s)))
  }

  /** With the default count the message names no count at all: the raw
      parameter it embeds is empty. */
  lemma SeedMessageOfDefault()
    ensures ParseCount("") == Some(10)
    ensures SeedResponse("") == Reply(StatusOK, Some(SeedPrefix + SeedSuffix))
  {
    assert SeedPrefix + "" == SeedPrefix;
  }
}
