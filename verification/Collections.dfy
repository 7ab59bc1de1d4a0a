/**
 Small facts about sequences and sets that several modules share.
 */
module Collections {

  /** `OFFSET offset LIMIT limit`. */
  function Window<T>(rows: seq<T>, offset: nat, limit: nat): (page: seq<T>)
    ensures |page| <= limit
  {
    if offset >= |rows| then []
    else if offset + limit >= |rows| then rows[offset..]
    else rows[offset..offset + limit]
  }

  /** It is the stretch of at most `limit` rows that starts at `offset`. */
  lemma WindowAt<T>(rows: seq<T>, offset: nat, limit: nat)
    ensures var page := Window(rows, offset, limit);
            && |page| == (if |rows| <= offset then 0 else if |rows| - offset <= limit then |rows| - offset else limit)
            && forall i :: 0 <= i < |page| ==> offset + i < |rows| && page[i] == rows[offset + i]
  {
  }

  lemma SubsetSize<T>(a: set<T>, b: set<T>)
    requires a <= b
    ensures |a| <= |b|
  {
    assert b == a + (b - a);
  }

  lemma ProperSubsetSize<T>(a: set<T>, b: set<T>, e: T)
    requires a <= b && e in b && e !in a
    ensures |a| < |b|
  {
    assert b == a + (b - a);
    assert e in b - a;
  }
}
