/** The in-memory leaderboard store: for every talent its best score, plus an
    ordered index of `(score, talent)` keys for ranked traversal. */
module Leaderboard {
  import opened Domain
  import opened Keys
  import opened OrderedIndex

  /** The map and the index describe the same board: the index holds exactly
      the keys `(m[t], t)` for the talents `t` of the map, in order, and it is
      as long as the map has entries. */
  ghost predicate Consistent(m: map<string, Score>, tree: seq<Key>) {
    && Sorted(tree)
    && |tree| == |m|
    && (forall k :: k in tree ==> k.talentId in m && m[k.talentId] == k.score)
    && (forall t :: t in m ==> Key(m[t], t) in tree)
  }

  function Min(a: int, b: int): int {
    if a < b then a else b
  }

  /** The key a leaderboard row was made from. */
  function KeyOf(l: Leader): Key {
    Key(l.score, l.talentId)
  }

  /** Rows for the keys in the order given, ranked 1, 2, 3, ... */
  function Ranked(keys: seq<Key>): seq<Leader> {
    seq(|keys|, i requires 0 <= i < |keys| => Leader(i + 1, keys[i].talentId, keys[i].score))
  }

  /** The rows `TopN(n)` reports for an index: nothing when `n <= 0`, else the
      first `n` keys of a descending traversal, ranked from 1. */
  function Top(tree: seq<Key>, n: int): (r: seq<Leader>)
    ensures |r| == if n <= 0 then 0 else Min(n, |tree|)
  {
    if n <= 0 then [] else Ranked(Reverse(tree)[..Min(n, |tree|)])
  }

  /** The number of keys ranked strictly above `target`, i.e. greater under
      `Less`: an order-statistics definition of rank, independent of any
      traversal. */
  function Above(keys: seq<Key>, target: Key): nat {
    if keys == [] then 0
    else (if Less(target, keys[0]) then 1 else 0) + Above(keys[1..], target)
  }

  /** An update of talent `t` to score `s` is accepted for a new talent or a
      strictly better score; ties are rejected. */
  predicate Improves(m: map<string, Score>, t: string, s: Score) {
    !(t in m && s <= m[t])
  }

  /** The best-score map after one update. */
  function Apply(m: map<string, Score>, t: string, s: Score): map<string, Score> {
    if Improves(m, t, s) then m[t := s] else m
  }

  /** The best-score map after a stream of scored events, applied in order. */
  function ApplyAll(m: map<string, Score>, events: seq<Event>): (r: map<string, Score>)
    ensures forall t :: t in m ==> t in r && m[t] <= r[t]
    ensures forall i :: 0 <= i < |events| ==> events[i].talentId in r && events[i].score <= r[events[i].talentId]
    decreases |events|
  {
    if events == [] then m
    else
      var e := events[|events| - 1];
      Apply(ApplyAll(m, events[..|events| - 1]), e.talentId, e.score)
  }

  class LBMemory {
    /** The best score of every talent seen so far. */
    var bestByTalent: map<string, Score>
    /** The ordered index (a B-tree in the store), ascending under `Less`. */
    var tree: seq<Key>
    /** The "accepted" metrics counter. */
    var accepted: nat

    ghost predicate Valid()
      reads this
    {
      Consistent(bestByTalent, tree)
    }

    constructor ()
      ensures Valid()
      ensures bestByTalent == map[] && tree == [] && accepted == 0
    {
      bestByTalent := map[];
      tree := [];
      accepted := 0;
    }

    /** Keeps the maximum: accepts a new talent or a strictly better score, by
        deleting the talent's old key from the index and inserting the new one.
        O(log n) on the B-tree. */
    method UpdateIfBetter(l: Leader) returns (updated: bool)
      requires Valid()
      modifies this
      ensures Valid()
      ensures updated <==> (l.talentId !in old(bestByTalent) || old(bestByTalent)[l.talentId] < l.score)
      ensures bestByTalent == if updated then old(bestByTalent)[l.talentId := l.score] else old(bestByTalent)
      ensures !updated ==> tree == old(tree)
      ensures updated ==> forall k :: k in tree <==>
        || k == Key(l.score, l.talentId)
        || (k in old(tree) && (l.talentId in old(bestByTalent) ==> k != Key(old(bestByTalent)[l.talentId], l.talentId)))
      ensures accepted == old(accepted)
    {
      var t := l.talentId;
      if t in bestByTalent && l.score <= bestByTalent[t] {
        return false;
      }
      ghost var m := bestByTalent;
      if t in bestByTalent {
        tree := Delete(tree, Key(bestByTalent[t], t));
      }
      tree := Insert(tree, Key(l.score, t));
      bestByTalent := bestByTalent[t := l.score];
      UpdateKeepsConsistency(m, old(tree), t, l.score);
      return true;
    }

    /** The `n` best rows, from a descending traversal that stops after `n`
        keys. O(log n + n). */
    method TopN(n: int) returns (ls: seq<Leader>)
      requires Valid()
      ensures ls == Top(tree, n)
      ensures |ls| == if n <= 0 then 0 else Min(n, |bestByTalent|)
      ensures forall i :: 0 <= i < |ls| ==>
        ls[i].rank == i + 1 && ls[i].talentId in bestByTalent && bestByTalent[ls[i].talentId] == ls[i].score
      ensures forall i, j :: 0 <= i < j < |ls| ==> Less(KeyOf(ls[j]), KeyOf(ls[i]))
    {
      if n <= 0 {
        return [];
      }
      ls := [];
      var i := 0;
      var idx := |tree|;
      var more := true;
      while more && idx > 0
        invariant 0 <= idx <= |tree| && i == |tree| - idx
        invariant more == (i < n) && i <= n
        invariant ls == Ranked(Reverse(tree)[..i])
      {
        idx := idx - 1;
        var k := tree[idx];
        i := i + 1;
        ls := ls + [Leader(i, k.talentId, k.score)];
        more := i < n;
      }
      TopDescends(tree, n);
    }

    /** The rank of one talent: its best score from the map, then a descending
        traversal that counts keys until it meets the talent's key.
        O(log n + rank). */
    method RankOf(talentId: string) returns (l: Leader, ok: bool)
      requires Valid()
      ensures l.talentId == talentId
      ensures ok <==> talentId in bestByTalent
      ensures !ok ==> l.rank == 0 && l.score == 0.0
      ensures ok ==> l.score == bestByTalent[talentId] && l.rank == Above(tree, KeyOf(l)) + 1
      ensures ok ==> 1 <= l.rank <= |tree| && Top(tree, |tree|)[l.rank - 1] == l
    {
      l := Leader(0, talentId, 0.0);
      if talentId !in bestByTalent {
        return l, false;
      }
      l := l.(score := bestByTalent[talentId]);
      var target := Key(l.score, talentId);
      var i := 0;
      var found := false;
      var idx := |tree|;
      while !found && idx > 0
        invariant 0 <= idx <= |tree| && i == |tree| - idx
        invariant found ==> idx < |tree| && tree[idx] == target
        invariant !found ==> forall j :: idx <= j < |tree| ==> tree[j] != target
      {
        idx := idx - 1;
        i := i + 1;
        if tree[idx] == target {
          found := true;
        }
      }
      // The index holds the talent's key, so the traversal always finds it;
      // the source's `!found` exit is unreachable and `ok` is `found`.
      assert target in tree;
      assert found;
      ok := found;
      if found {
        l := l.(rank := i);
        AbovePosition(tree, idx);
        TopAt(tree, |tree|, i - 1);
      }
    }

    /** Every row, from an ascending traversal, ranked 1..n in ascending order.
        O(n). */
    method All() returns (ls: seq<Leader>)
      requires Valid()
      ensures ls == Ranked(tree)
      ensures |ls| == |bestByTalent|
      ensures forall i, j :: 0 <= i < j < |ls| ==> Less(KeyOf(ls[i]), KeyOf(ls[j]))
      ensures forall i :: 0 <= i < |ls| ==>
        ls[i].rank == i + 1 && ls[i].talentId in bestByTalent && bestByTalent[ls[i].talentId] == ls[i].score
      ensures forall t :: t in bestByTalent ==> exists i :: 0 <= i < |ls| && ls[i].talentId == t
    {
      ls := [];
      var rank := 0;
      while rank < |tree|
        invariant 0 <= rank <= |tree|
        invariant ls == Ranked(tree[..rank])
      {
        var k := tree[rank];
        rank := rank + 1;
        ls := ls + [Leader(rank, k.talentId, k.score)];
      }
      assert tree[..rank] == tree;
      AscendingRows(bestByTalent, tree);
    }

    /** The store's consumer: applies every scored event of the stream in
        order and counts each one as "accepted", whether or not it improved the
        talent's best. */
    method RunLBWorker(events: seq<Event>)
      requires Valid()
      modifies this
      ensures Valid()
      ensures bestByTalent == ApplyAll(old(bestByTalent), events)
      ensures accepted == old(accepted) + |events|
    {
      for i := 0 to |events|
        invariant Valid()
        invariant bestByTalent == ApplyAll(old(bestByTalent), events[..i])
        invariant accepted == old(accepted) + i
      {
        var e := events[i];
        var updated := UpdateIfBetter(Leader(0, e.talentId, e.score));
        accepted := accepted + 1;
        ApplyAllStep(old(bestByTalent), events, i);
      }
      assert events[..|events|] == events;
    }
  }

  /** The rows of an ascending walk over a consistent index: in strictly
      ascending order, ranked 1..size, each a talent's best, every talent
      present. */
  lemma AscendingRows(m: map<string, Score>, tree: seq<Key>)
    requires Consistent(m, tree)
    ensures var ls := Ranked(tree);
      && |ls| == |m|
      && (forall i, j :: 0 <= i < j < |ls| ==> Less(KeyOf(ls[i]), KeyOf(ls[j])))
      && (forall i :: 0 <= i < |ls| ==> ls[i].rank == i + 1 && ls[i].talentId in m && m[ls[i].talentId] == ls[i].score)
      && (forall t :: t in m ==> exists i :: 0 <= i < |ls| && ls[i].talentId == t)
  {
    var ls := Ranked(tree);
    forall i, j | 0 <= i < j < |ls| ensures Less(KeyOf(ls[i]), KeyOf(ls[j])) {
      assert KeyOf(ls[i]) == tree[i] && KeyOf(ls[j]) == tree[j];
    }
    forall t | t in m ensures exists i :: 0 <= i < |ls| && ls[i].talentId == t {
      var i :| 0 <= i < |tree| && tree[i] == Key(m[t], t);
      assert ls[i].talentId == t;
    }
  }

  /** One more event of the stream is one more `Apply`. */
  lemma ApplyAllStep(m: map<string, Score>, events: seq<Event>, i: nat)
    requires i < |events|
    ensures ApplyAll(m, events[..i + 1]) == Apply(ApplyAll(m, events[..i]), events[i].talentId, events[i].score)
  {
    assert events[..i + 1][..i] == events[..i];
  }

  /** Deleting a talent's key from a consistent index leaves the keys of
      every other talent and nothing else. */
  lemma DeleteTalent(m: map<string, Score>, tree: seq<Key>, t: string)
    requires Consistent(m, tree)
    ensures var deleted := if t in m then Delete(tree, Key(m[t], t)) else tree;
      && Sorted(deleted)
      && |deleted| + (if t in m then 1 else 0) == |m|
      && (forall k :: k in deleted ==> k.talentId != t && k.talentId in m && m[k.talentId] == k.score)
      && (forall u :: u in m && u != t ==> Key(m[u], u) in deleted)
  {
  }

  /** One accepted update (delete the old key if any, insert the new one, set
      the map entry) takes a consistent store to a consistent store. */
  lemma UpdateKeepsConsistency(m: map<string, Score>, tree: seq<Key>, t: string, s: Score)
    requires Consistent(m, tree)
    requires t !in m || m[t] < s
    ensures var deleted := if t in m then Delete(tree, Key(m[t], t)) else tree;
            Sorted(deleted) && Consistent(m[t := s], Insert(deleted, Key(s, t)))
  {
    DeleteTalent(m, tree, t);
    var deleted := if t in m then Delete(tree, Key(m[t], t)) else tree;
    var tree' := Insert(deleted, Key(s, t));
    var m' := m[t := s];
    assert Key(s, t) !in deleted;
    assert |m'| == |m| + (if t in m then 0 else 1);
    forall k | k in tree' ensures k.talentId in m' && m'[k.talentId] == k.score {
      if k != Key(s, t) {
        assert k in deleted;
      }
    }
    forall u | u in m' ensures Key(m'[u], u) in tree' {
      if u != t {
        assert Key(m[u], u) in deleted;
      }
    }
  }

  /** Exactly one key per talent: two index positions holding the same talent
      are the same position. */
  lemma OneKeyPerTalent(m: map<string, Score>, tree: seq<Key>)
    requires Consistent(m, tree)
    ensures forall i, j :: 0 <= i < |tree| && 0 <= j < |tree| && tree[i].talentId == tree[j].talentId ==> i == j
  {
    forall i, j | 0 <= i < |tree| && 0 <= j < |tree| && tree[i].talentId == tree[j].talentId
      ensures i == j
    {
      assert tree[i] == tree[j];
      if i < j {
        LessIrreflexive(tree[i]);
      } else if j < i {
        LessIrreflexive(tree[j]);
      }
    }
  }

  /** The rows of `Top` descend under `Less` (higher score first, equal scores
      with talent ids descending), are ranked 1..k, and are rows of the board. */
  lemma TopDescends(tree: seq<Key>, n: int)
    requires Sorted(tree)
    ensures forall i, j :: 0 <= i < j < |Top(tree, n)| ==> Less(KeyOf(Top(tree, n)[j]), KeyOf(Top(tree, n)[i]))
    ensures forall i :: 0 <= i < |Top(tree, n)| ==> Top(tree, n)[i].rank == i + 1 && KeyOf(Top(tree, n)[i]) in tree
  {
    ReverseDescends(tree);
    var r := Top(tree, n);
    forall i | 0 <= i < |r| ensures KeyOf(r[i]) in tree {
      assert KeyOf(r[i]) == tree[|tree| - 1 - i];
    }
  }

  /** In a sorted index, the key at position `p` has exactly the keys after it
      above it. */
  lemma {:induction false} AbovePosition(keys: seq<Key>, p: nat)
    requires Sorted(keys) && p < |keys|
    ensures Above(keys, keys[p]) == |keys| - 1 - p
  {
    SortedTail(keys);
    if p == 0 {
      LessIrreflexive(keys[0]);
      AllAbove(keys[1..], keys[0]);
    } else {
      LessAsymmetric(keys[0], keys[p]);
      AbovePosition(keys[1..], p - 1);
    }
  }

  lemma {:induction false} AllAbove(keys: seq<Key>, target: Key)
    requires forall x :: x in keys ==> Less(target, x)
    ensures Above(keys, target) == |keys|
  {
    if keys != [] {
      AllAbove(keys[1..], target);
    }
  }

  /** Row `q` of `Top(tree, n)` is the key `q` places from the top of the
      index, ranked `q + 1`. */
  lemma TopAt(tree: seq<Key>, n: int, q: nat)
    requires q < |Top(tree, n)|
    ensures Top(tree, n)[q] == Leader(q + 1, tree[|tree| - 1 - q].talentId, tree[|tree| - 1 - q].score)
  {
  }

  /** Rank and top list agree: a talent of the board sits in
      `Top(tree, |tree|)` at position `Above(...)` (0-based), and it appears in
      `Top(tree, n)` exactly when fewer than `n` keys are above it. */
  lemma RankMatchesTop(m: map<string, Score>, tree: seq<Key>, t: string, n: int)
    requires Consistent(m, tree) && t in m
    ensures var p := Above(tree, Key(m[t], t));
            && p < |tree|
            && Top(tree, |tree|)[p] == Leader(p + 1, t, m[t])
            && (p < n <==> exists q :: 0 <= q < |Top(tree, n)| && Top(tree, n)[q].talentId == t)
  {
    var idx :| 0 <= idx < |tree| && tree[idx] == Key(m[t], t);
    PositionInTop(tree, idx, n);
    if exists q :: 0 <= q < |Top(tree, n)| && Top(tree, n)[q].talentId == t {
      var q :| 0 <= q < |Top(tree, n)| && Top(tree, n)[q].talentId == t;
      TopRowIsRank(m, tree, t, n, q);
    }
  }

  /** The key at index position `idx` of a sorted index is row `Above + 1` of
      a full descending walk, and is among the first `n` rows when its `Above`
      count is below `n`. */
  lemma PositionInTop(tree: seq<Key>, idx: nat, n: int)
    requires Sorted(tree) && idx < |tree|
    ensures var p := Above(tree, tree[idx]);
            && p == |tree| - 1 - idx
            && Top(tree, |tree|)[p] == Leader(p + 1, tree[idx].talentId, tree[idx].score)
            && (p < n ==> p < |Top(tree, n)| && Top(tree, n)[p].talentId == tree[idx].talentId)
  {
    AbovePosition(tree, idx);
    var p := |tree| - 1 - idx;
    TopAt(tree, |tree|, p);
    if p < n {
      TopAt(tree, n, p);
    }
  }


  /** A row of `Top` naming a known talent sits at that talent's rank
      position. */
  lemma TopRowIsRank(m: map<string, Score>, tree: seq<Key>, t: string, n: int, q: nat)
    requires Consistent(m, tree) && t in m
    requires q < |Top(tree, n)| && Top(tree, n)[q].talentId == t
    ensures q == Above(tree, Key(m[t], t))
  {
    var idx :| 0 <= idx < |tree| && tree[idx] == Key(m[t], t);
    AbovePosition(tree, idx);
    TopAt(tree, n, q);
    OneKeyPerTalent(m, tree);
    assert tree[|tree| - 1 - q].talentId == tree[idx].talentId;
  }


  /** Monotonic best score: after a stream of updates each talent's entry is
      the maximum of its earlier best and every score submitted for it, and a
      talent only has an entry if it had one or was submitted. */
  lemma {:induction false} ApplyAllIsMaximum(m: map<string, Score>, events: seq<Event>, t: string)
    ensures var r := ApplyAll(m, events);
      && (t in r <==> t in m || exists i :: 0 <= i < |events| && events[i].talentId == t)
      && (t in r && t in m ==> m[t] <= r[t])
      && (t in r ==> forall i :: 0 <= i < |events| && events[i].talentId == t ==> events[i].score <= r[t])
      && (t in r ==> (t in m && r[t] == m[t]) || exists i :: 0 <= i < |events| && events[i].talentId == t && events[i].score == r[t])
    decreases |events|
  {
    if events != [] {
      var front := events[..|events| - 1];
      var e := events[|events| - 1];
      ApplyAllIsMaximum(m, front, t);
      var r0 := ApplyAll(m, front);
      var r := ApplyAll(m, events);
      assert forall i :: 0 <= i < |front| ==> front[i] == events[i];
      if e.talentId == t && Improves(r0, t, e.score) {
        assert r[t] == events[|events| - 1].score;
      }
    }
  }

  /** A consistent index holds the keys of the map and nothing else. */
  lemma SameKeys(m: map<string, Score>, tree: seq<Key>, keys: seq<Key>)
    requires Consistent(m, tree)
    requires forall k :: k in keys <==> k.talentId in m && m[k.talentId] == k.score
    ensures forall k :: k in tree <==> k in keys
  {
    forall k | k in keys ensures k in tree {
      assert Key(m[k.talentId], k.talentId) == k;
    }
  }

  const Board1 := [Key(10.0, "t1"), Key(20.0, "t3"), Key(30.0, "t2")]
  const Board2 := [Key(20.0, "t3"), Key(25.0, "t1"), Key(30.0, "t2")]

  lemma BoardsSorted()
    ensures Sorted(Board1) && Sorted(Board2)
  {
  }

  lemma ScenarioBoards()
    ensures Top(Board1, 2) == [Leader(1, "t2", 30.0), Leader(2, "t3", 20.0)]
    ensures Above(Board1, Key(10.0, "t1")) == 2
    ensures Top(Board2, 3) == [Leader(1, "t2", 30.0), Leader(2, "t1", 25.0), Leader(3, "t3", 20.0)]
  {
    assert Reverse(Board1)[..2] == [Key(30.0, "t2"), Key(20.0, "t3")];
    assert Reverse(Board2)[..3] == [Key(30.0, "t2"), Key(25.0, "t1"), Key(20.0, "t3")];
  }

  /** Talents t1, t2, t3 at 10, 30, 20. */
  method ScenarioStart() returns (lb: LBMemory)
    ensures fresh(lb) && lb.Valid()
    ensures lb.bestByTalent == map["t1" := 10.0, "t2" := 30.0, "t3" := 20.0]
    ensures lb.tree == Board1
  {
    lb := new LBMemory();
    var u := lb.UpdateIfBetter(Leader(0, "t1", 10.0));
    assert lb.bestByTalent == map["t1" := 10.0];
    u := lb.UpdateIfBetter(Leader(0, "t2", 30.0));
    assert lb.bestByTalent == map["t1" := 10.0, "t2" := 30.0];
    u := lb.UpdateIfBetter(Leader(0, "t3", 20.0));
    assert lb.bestByTalent == map["t1" := 10.0, "t2" := 30.0, "t3" := 20.0];
    SameKeys(lb.bestByTalent, lb.tree, Board1);
    BoardsSorted();
    SortedUnique(lb.tree, Board1);
  }

  /** The worked example of the store: talents t1, t2, t3 at 10, 30, 20; then
      t1 improves to 25; then a worse score for t1 is rejected. */
  method Scenario() returns (top2: seq<Leader>, rank1: Leader, improved: bool, top3: seq<Leader>, worse: bool)
    ensures top2 == [Leader(1, "t2", 30.0), Leader(2, "t3", 20.0)]
    ensures rank1 == Leader(3, "t1", 10.0)
    ensures improved
    ensures top3 == [Leader(1, "t2", 30.0), Leader(2, "t1", 25.0), Leader(3, "t3", 20.0)]
    ensures !worse
  {
    ScenarioBoards();
    var lb := ScenarioStart();
    top2 := lb.TopN(2);
    var ok;
    rank1, ok := lb.RankOf("t1");
    improved := lb.UpdateIfBetter(Leader(0, "t1", 25.0));
    SameKeys(lb.bestByTalent, lb.tree, Board2);
    BoardsSorted();
    SortedUnique(lb.tree, Board2);
    top3 := lb.TopN(3);
    worse := lb.UpdateIfBetter(Leader(0, "t1", 5.0));
    assert lb.tree == Board2;
  }
}
