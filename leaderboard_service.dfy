/** The leaderboard service: thin delegation to the store, turning "not found"
    into the zero leader. */
module LeaderboardServices {
  import opened Wrappers
  import opened Domain
  import opened Keys
  import opened Leaderboard

  /** What the service reports for a talent: its ranked row, or the zero row
      (rank 0, no id, score 0) when the board has no such talent. */
  function RankLookup(m: map<string, Score>, tree: seq<Key>, id: string): (r: Leader)
    ensures r.rank == 0 <==> id !in m
    ensures r.rank == 0 ==> r == ZeroLeader
    ensures id in m ==> r.talentId == id && r.score == m[id]
  {
    if id in m then Leader(Above(tree, Key(m[id], id)) + 1, id, m[id]) else ZeroLeader
  }

  /** The service's board query as a function of the store's index. */
  function BoardQuery(tree: seq<Key>): int -> Result<seq<Leader>, Error> {
    (limit: int) => Success(Top(tree, limit))
  }

  /** The service's rank query as a function of the store's state. */
  function RankQuery(m: map<string, Score>, tree: seq<Key>): string -> Result<Leader, Error> {
    (id: string) => Success(RankLookup(m, tree, id))
  }

  /** Over a consistent store, the reported rank is 0 exactly when the talent
      is absent; a talent present gets a rank in 1..size. */
  lemma RankLookupZeroIffAbsent(m: map<string, Score>, tree: seq<Key>, id: string)
    requires Consistent(m, tree)
    ensures RankLookup(m, tree, id).rank == 0 <==> id !in m
    ensures id in m ==> RankLookup(m, tree, id).rank <= |m|
  {
    if id in m {
      RankMatchesTop(m, tree, id, 0);
    }
  }

  class LeaderboardService {
    const memory: LBMemory

    constructor (memory: LBMemory)
      ensures this.memory == memory
    {
      this.memory := memory;
    }

    /** The top `limit` rows of the store, never an error. */
    method GetBboard(limit: int) returns (ls: seq<Leader>, err: Option<Error>)
      requires memory.Valid()
      ensures Success(ls) == BoardQuery(memory.tree)(limit)
      ensures |ls| == if limit <= 0 then 0 else Min(limit, |memory.bestByTalent|)
      ensures err == None
    {
      ls := memory.TopN(limit);
      err := None;
    }

    /** The rank row of a talent, or the zero row when the store has none;
        never an error. */
    method GetRankByID(id: string) returns (l: Leader, err: Option<Error>)
      requires memory.Valid()
      ensures Success(l) == RankQuery(memory.bestByTalent, memory.tree)(id)
      ensures l.rank == 0 <==> id !in memory.bestByTalent
      ensures id in memory.bestByTalent ==> l.talentId == id && l.score == memory.bestByTalent[id]
      ensures err == None
    {
      var ok;
      l, ok := memory.RankOf(id);
      if !ok {
        return ZeroLeader, None;
      }
      return l, None;
    }
  }
}
