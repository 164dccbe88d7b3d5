/** The composite key of the ordered index and the comparator `less` that
    orders it: by score, then by talent id. */
module Keys {
  import opened Domain

  /** Go's `<` on strings: lexicographic comparison, element by element, a
      proper prefix coming first. */
  predicate StrLess(a: string, b: string)
    decreases |a|
  {
    if |a| == 0 then |b| > 0
    else if |b| == 0 then false
    else if a[0] != b[0] then a[0] < b[0]
    else StrLess(a[1..], b[1..])
  }

  /** The empty string is below every other, and a proper prefix is below
      the strings it begins. */
  lemma {:induction false} StrLessPrefix(a: string, b: string)
    ensures StrLess(a, b) ==> |b| > 0
    ensures |a| < |b| && a == b[..|a|] ==> StrLess(a, b)
    decreases |a|
  {
    if 0 < |a| < |b| && a == b[..|a|] {
      assert a[1..] == b[1..][..|a| - 1];
      StrLessPrefix(a[1..], b[1..]);
    }
  }

  lemma {:induction false} StrLessIrreflexive(a: string)
    ensures !StrLess(a, a)
    decreases |a|
  {
    if |a| > 0 {
      StrLessIrreflexive(a[1..]);
    }
  }

  lemma {:induction false} StrLessAsymmetric(a: string, b: string)
    requires StrLess(a, b)
    ensures !StrLess(b, a)
    decreases |a|
  {
    if |a| > 0 && |b| > 0 && a[0] == b[0] {
      StrLessAsymmetric(a[1..], b[1..]);
    }
  }

  lemma {:induction false} StrLessTransitive(a: string, b: string, c: string)
    requires StrLess(a, b) && StrLess(b, c)
    ensures StrLess(a, c)
    decreases |a|
  {
    if |a| > 0 && a[0] == b[0] && b[0] == c[0] {
      StrLessTransitive(a[1..], b[1..], c[1..]);
    }
  }

  lemma {:induction false} StrLessTotal(a: string, b: string)
    requires a != b
    ensures StrLess(a, b) || StrLess(b, a)
    decreases |a|
  {
    if |a| > 0 && |b| > 0 && a[0] == b[0] {
      assert a == [a[0]] + a[1..] && b == [b[0]] + b[1..];
      StrLessTotal(a[1..], b[1..]);
    }
  }

  /** A key of the ordered index: one talent at one score. */
  datatype Key = Key(score: Score, talentId: string)

  /** The comparator of the ordered index: by score, equal scores by talent id
      ascending. */
  predicate Less(a: Key, b: Key) {
    if a.score != b.score then a.score < b.score
    else StrLess(a.talentId, b.talentId)
  }

  /** The score decides first: a higher score is always greater, and only
      equal scores fall back to the talent ids. */
  lemma LessScoreFirst(a: Key, b: Key)
    ensures a.score < b.score ==> Less(a, b) && !Less(b, a)
    ensures Less(a, b) ==> a.score <= b.score
    ensures a.score == b.score ==> (Less(a, b) <==> StrLess(a.talentId, b.talentId))
  {
  }

  lemma LessIrreflexive(a: Key)
    ensures !Less(a, a)
  {
    StrLessIrreflexive(a.talentId);
  }

  lemma LessAsymmetric(a: Key, b: Key)
    requires Less(a, b)
    ensures !Less(b, a)
  {
    if a.score == b.score {
      StrLessAsymmetric(a.talentId, b.talentId);
    }
  }

  lemma LessTransitive(a: Key, b: Key, c: Key)
    requires Less(a, b) && Less(b, c)
    ensures Less(a, c)
  {
    if a.score == b.score && b.score == c.score {
      StrLessTransitive(a.talentId, b.talentId, c.talentId);
    }
  }

  lemma LessTotal(a: Key, b: Key)
    requires a != b
    ensures Less(a, b) || Less(b, a)
  {
    if a.score == b.score {
      StrLessTotal(a.talentId, b.talentId);
    }
  }

  /** `Less` is a strict total order on keys: irreflexive, transitive and
      connected (hence also asymmetric). */
  lemma LessIsStrictTotalOrder()
    ensures forall a: Key :: !Less(a, a)
    ensures forall a: Key, b: Key :: Less(a, b) ==> !Less(b, a)
    ensures forall a: Key, b: Key, c: Key :: Less(a, b) && Less(b, c) ==> Less(a, c)
    ensures forall a: Key, b: Key :: a != b ==> Less(a, b) || Less(b, a)
  {
    forall a: Key ensures !Less(a, a) {
      LessIrreflexive(a);
    }
    forall a: Key, b: Key | Less(a, b) ensures !Less(b, a) {
      LessAsymmetric(a, b);
    }
    forall a: Key, b: Key, c: Key | Less(a, b) && Less(b, c) ensures Less(a, c) {
      LessTransitive(a, b, c);
    }
    forall a: Key, b: Key | a != b ensures Less(a, b) || Less(b, a) {
      LessTotal(a, b);
    }
  }
}
