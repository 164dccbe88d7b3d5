/** The guards of the two leaderboard endpoints: `GET /leaderboard?limit=` and
    `GET /rank/{id}`. The service is a parameter, so that each outcome can be
    read off its guards. */
module LeaderboardController {
  import opened Wrappers
  import opened Domain
  import opened Keys
  import opened OrderedIndex
  import opened Leaderboard
  import opened LeaderboardServices
  import opened Strconv
  import opened Rest

  const DefaultLimit := 10
  const MaxLimit := 100

  /** The `limit` query parameter: 10 when absent, otherwise an integer in
      1..100, anything else rejected (None). */
  function ParseLimit(s: string): (r: Option<int>)
    ensures s == "" ==> r == Some(DefaultLimit)
    ensures r.Some? ==> 1 <= r.value <= MaxLimit
    ensures s != "" ==> (r.Some? <==> Atoi(s).Some? && 1 <= Atoi(s).value <= MaxLimit)
    ensures s != "" && r.Some? ==> r == Atoi(s)
  {
    if s == "" then Some(DefaultLimit)
    else
      match Atoi(s)
      case None => None
      case Some(v) => if v <= 0 || v > MaxLimit then None else Some(v)
  }

  /** A limit written in decimal reaches the service unchanged when it is in
      1..100 and is rejected otherwise. */
  lemma ParseLimitOfDecimal(v: int)
    requires MinInt <= v <= MaxInt
    ensures ParseLimit(FormatInt(v)) == if 1 <= v <= MaxLimit then Some(v) else None
  {
    AtoiFormatInt(v);
    assert FormatInt(v) != "";
  }

  /** The `GET /leaderboard` handler: 400 on a bad limit (the service is not
      consulted), 500 when the service fails, else 200 with its rows. */
  function GetBboard(limitQuery: string, service: int -> Result<seq<Leader>, Error>): (r: Response<seq<Leader>>)
    ensures r.status == StatusBadRequest <==> ParseLimit(limitQuery).None?
    ensures r.status == StatusInternalServerError <==>
      ParseLimit(limitQuery).Some? && service(ParseLimit(limitQuery).value).Failure?
    ensures r.status == StatusOK ==> r == Reply(StatusOK, Some(service(ParseLimit(limitQuery).value).value))
    ensures r.status in {StatusBadRequest, StatusInternalServerError, StatusOK}
  {
    match ParseLimit(limitQuery)
    case None => Fail(StatusBadRequest, "invalid limit (must be 1..100)")
    case Some(limit) =>
      match service(limit)
      case Failure(_) => Fail(StatusInternalServerError, "failed to get a leaderboard")
      case Success(leaders) => Reply(StatusOK, Some(leaders))
  }

  /** Over the store, the board endpoint never fails internally: it answers 400
      or 200, and a 200 carries the top `limit` rows, at most 100 of them. */
  lemma GetBboardOnStore(limitQuery: string, tree: seq<Key>)
    ensures var r := GetBboard(limitQuery, BoardQuery(tree));
      && r.status != StatusInternalServerError
      && (r.status == StatusOK ==>
           && r.payload == Some(Top(tree, ParseLimit(limitQuery).value))
           && |r.payload.value| == Min(ParseLimit(limitQuery).value, |tree|) <= MaxLimit)
  {
  }

  /** `RouteRank + Slash`, the prefix of a rank path. */
  const RankPrefix := RouteRank + Slash

  /** How a rank path is classified before the service is asked. */
  datatype RankRoute = NoRoute | InvalidId | TalentPath(id: string)

  /** The path guard: a path without the prefix is not this route; the id is
      the rest of the path and must be non-empty and free of `/`. */
  function RankPath(path: string): (r: RankRoute)
    ensures r.NoRoute? <==> !HasPrefix(path, RankPrefix)
    ensures r.TalentPath? ==> path == RankPrefix + r.id && r.id != "" && '/' !in r.id
  {
    if !HasPrefix(path, RankPrefix) then NoRoute
    else
      var id := path[|RankPrefix|..];
      if id == "" || '/' in id then InvalidId else TalentPath(id)
  }

  /** A path built from an id is classified by the id alone. */
  lemma RankPathOfId(id: string)
    ensures RankPath(RankPrefix + id) == if id == "" || '/' in id then InvalidId else TalentPath(id)
  {
    assert (RankPrefix + id)[..|RankPrefix|] == RankPrefix;
    assert (RankPrefix + id)[|RankPrefix|..] == id;
  }

  /** The `GET /rank/{id}` handler: 404 off the route, 400 on a bad id, 500
      when the service fails, 404 for a zero-rank answer, else 200 with the
      row. */
  function GetRankByID(path: string, service: string -> Result<Leader, Error>): (r: Response<Leader>)
    ensures r.status == StatusBadRequest <==> RankPath(path).InvalidId?
    ensures r.status == StatusInternalServerError <==> RankPath(path).TalentPath? && service(RankPath(path).id).Failure?
    ensures r.status == StatusNotFound <==>
      RankPath(path).NoRoute? || (RankPath(path).TalentPath? && service(RankPath(path).id).Success? && service(RankPath(path).id).value.rank == 0)
    ensures r.status == StatusOK ==> RankPath(path).TalentPath? && r == Reply(StatusOK, Some(service(RankPath(path).id).value)) && r.payload.value.rank != 0
    ensures RankPath(path).TalentPath? && service(RankPath(path).id).Success? && service(RankPath(path).id).value.rank != 0 ==>
      r == Reply(StatusOK, Some(service(RankPath(path).id).value))
    ensures r.status in {StatusOK, StatusBadRequest, StatusNotFound, StatusInternalServerError}
  {
    match RankPath(path)
    case NoRoute => Fail(StatusNotFound, "404 page not found")
    case InvalidId => Fail(StatusBadRequest, "Invalid or missing ID")
    case TalentPath(id) =>
      match service(id)
      case Failure(_) => Fail(StatusInternalServerError, "failed to get a rank")
      case Success(leader) =>
        if leader.rank == 0 then Fail(StatusNotFound, "leader not found")
        else Reply(StatusOK, Some(leader))
  }

  /** Over a consistent store, `/rank/{id}` for a well-formed id answers 404
      exactly when the talent is absent, and otherwise 200 with its best score
      and its 1-based rank. */
  lemma GetRankOnStore(m: map<string, Score>, tree: seq<Key>, id: string)
    requires Consistent(m, tree)
    requires id != "" && '/' !in id
    ensures GetRankByID(RankPrefix + id, RankQuery(m, tree)) ==
      if id in m then Reply(StatusOK, Some(Leader(Above(tree, Key(m[id], id)) + 1, id, m[id])))
      else Fail(StatusNotFound, "leader not found")
  {
    RankPathOfId(id);
    RankLookupZeroIffAbsent(m, tree, id);
  }
}
