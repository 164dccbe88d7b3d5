/** The ordered index of the leaderboard store. The store uses a B-tree of
    keys under `Less`; its observable behaviour (ordered traversal, point
    insert and delete) is that of a strictly sorted sequence of keys, which
    is what this module provides. */
module OrderedIndex {
  import opened Keys

  /** Strictly ascending under `Less`; in particular no key occurs twice. */
  ghost predicate Sorted(s: seq<Key>) {
    forall i, j :: 0 <= i < j < |s| ==> Less(s[i], s[j])
  }

  lemma SortedTail(s: seq<Key>)
    requires Sorted(s) && |s| > 0
    ensures Sorted(s[1..])
    ensures forall x :: x in s[1..] ==> Less(s[0], x)
  {
  }

  /** The B-tree's `ReplaceOrInsert`: the key is added at its place in the
      order; a key already present is kept as it is. */
  function Insert(s: seq<Key>, k: Key): (r: seq<Key>)
    requires Sorted(s)
    ensures Sorted(r)
    ensures forall x :: x in r <==> x in s || x == k
    ensures |r| == if k in s then |s| else |s| + 1
  {
    if s == [] then [k]
    else if k == s[0] then s
    else if Less(k, s[0]) then
      assert forall x :: x in s ==> Less(k, x) by {
        forall x | x in s ensures Less(k, x) {
          if x != s[0] { LessTransitive(k, s[0], x); }
        }
      }
      LessIrreflexive(k);
      [k] + s
    else
      LessTotal(k, s[0]);
      SortedTail(s);
      var rest := Insert(s[1..], k);
      assert k !in s <==> k !in s[1..];
      [s[0]] + rest
  }

  /** The B-tree's `Delete`: the key is removed if present. */
  function Delete(s: seq<Key>, k: Key): (r: seq<Key>)
    requires Sorted(s)
    ensures Sorted(r)
    ensures forall x :: x in r <==> x in s && x != k
    ensures |r| == if k in s then |s| - 1 else |s|
  {
    if s == [] then []
    else
      SortedTail(s);
      if s[0] == k then
        LessIrreflexive(k);
        s[1..]
      else
        var rest := Delete(s[1..], k);
        assert k in s <==> k in s[1..];
        [s[0]] + rest
  }

  /** The keys in the order of a descending traversal. */
  function Reverse(s: seq<Key>): (r: seq<Key>)
    ensures |r| == |s|
    ensures forall i :: 0 <= i < |s| ==> r[i] == s[|s| - 1 - i]
  {
    if s == [] then [] else Reverse(s[1..]) + [s[0]]
  }

  /** A descending traversal of a sorted index meets the keys in the reverse
      of `Less`. */
  lemma ReverseDescends(s: seq<Key>)
    requires Sorted(s)
    ensures forall i, j :: 0 <= i < j < |s| ==> Less(Reverse(s)[j], Reverse(s)[i])
  {
  }

  /** A sorted index is determined by its keys: two sorted sequences holding
      the same keys are equal. */
  lemma {:induction false} SortedUnique(a: seq<Key>, b: seq<Key>)
    requires Sorted(a) && Sorted(b)
    requires forall x :: x in a <==> x in b
    ensures a == b
    decreases |a|
  {
    assert a != [] ==> a[0] in b;
    assert b != [] ==> b[0] in a;
    if a != [] {
      assert a[0] == b[0] by {
        var i :| 0 <= i < |a| && a[i] == b[0];
        var j :| 0 <= j < |b| && b[j] == a[0];
        if a[0] != b[0] {
          assert Less(a[0], b[0]) && Less(b[0], a[0]);
          LessAsymmetric(a[0], b[0]);
        }
      }
      SortedTail(a);
      SortedTail(b);
      LessIrreflexive(a[0]);
      forall x ensures x in a[1..] <==> x in b[1..] {
        assert x in a <==> x == a[0] || x in a[1..];
        assert x in b <==> x == b[0] || x in b[1..];
      }
      SortedUnique(a[1..], b[1..]);
      assert a == [a[0]] + a[1..] && b == [b[0]] + b[1..];
    }
  }
}
