/**
 The window functions of the ranking query: RANK and ROW_NUMBER over one category.
 They are defined as SQL computes them, by walking along the sorted rows, and
 shown to count the rows ahead.
 */
module Ranks {
  import opened Collections
  import opened Tables
  import opened Leaderboard

  const NO_GROUP: nat := 255

  /** `base`: the rows of a category, filtered by one byte of their groups. */
  predicate InBase(e: Entry, category: nat, groupIndex: nat, groupNum: nat)
  {
    && e.category == category
    && (groupIndex == NO_GROUP || (groupIndex < |e.groups| && e.groups[groupIndex] == groupNum))
  }

  function BaseRows(b: Board, category: nat, groupIndex: nat, groupNum: nat): (rows: set<Entry>)
  {
    set k | k in b.rankings && InBase(b.rankings[k], category, groupIndex, groupNum) :: b.rankings[k]
  }

  /** `COALESCE(rc.order_by, r.order_by, 1)`. */
  function CategoryOrder(b: Board, e: Entry): (order: nat)
  {
    if e.category in b.categories then b.categories[e.category] else e.orderBy
  }

  /**
   The two CASE keys of the window ordering. The descending key is NULL, and so
   first, for ascending rows; the ascending key is NULL for descending ones.
   */
  function Place(b: Board, e: Entry): (place: (int, int))
  {
    if CategoryOrder(b, e) == 1 then (1, -(e.score as int)) else (0, e.score)
  }

  predicate Beats(b: Board, x: Entry, y: Entry)
  {
    var p, q := Place(b, x), Place(b, y);
    p.0 < q.0 || (p.0 == q.0 && p.1 < q.1)
  }

  predicate Peers(b: Board, x: Entry, y: Entry)
  {
    Place(b, x) == Place(b, y)
  }

  predicate Earlier(x: Entry, y: Entry)
  {
    || x.updatedAt < y.updatedAt
    || (x.updatedAt == y.updatedAt && x.owner < y.owner)
    || (x.updatedAt == y.updatedAt && x.owner == y.owner && x.unique < y.unique)
  }

  /** The ordering of ROW_NUMBER: ties go to the earlier update, then to the smaller identifiers. */
  predicate Precedes(b: Board, x: Entry, y: Entry)
  {
    Beats(b, x, y) || (Peers(b, x, y) && Earlier(x, y))
  }

  /** In a sound board all rows of a category are compared by score, in the category's own order. */
  lemma UniformOrder(b: Board, x: Entry, y: Entry, category: nat, groupIndex: nat, groupNum: nat)
    requires BoardOk(b)
    requires x in BaseRows(b, category, groupIndex, groupNum) && y in BaseRows(b, category, groupIndex, groupNum)
    ensures category in b.categories
    ensures Beats(b, x, y) <==> Beaten(b.categories[category], y.score, x.score)
    ensures x != y ==> Precedes(b, x, y) || Precedes(b, y, x)
  {
  }

  // ---- Walking along the rows --------------------------------------------------------------

  /** The rows of `base`, each once. */
  ghost predicate Lists(line: seq<Entry>, base: set<Entry>)
  {
    && (forall e :: e in line <==> e in base)
    && forall i, j :: 0 <= i < j < |line| ==> line[i] != line[j]
  }

  /** A sort for RANK: nobody stands behind a row they beat. */
  ghost predicate Ranked(b: Board, line: seq<Entry>, base: set<Entry>)
  {
    Lists(line, base) && forall i, j :: 0 <= i < j < |line| ==> !Beats(b, line[j], line[i])
  }

  /** The sort for ROW_NUMBER. */
  ghost predicate Lined(b: Board, line: seq<Entry>, base: set<Entry>)
  {
    Lists(line, base) && forall i, j :: 0 <= i < j < |line| ==> Precedes(b, line[i], line[j])
  }

  /** RANK at position `i`: the position of the first peer. */
  function WalkRank(b: Board, line: seq<Entry>, i: nat): (rank: nat)
    requires i < |line|
    ensures 1 <= rank <= i + 1
  {
    if i == 0 || !Peers(b, line[i - 1], line[i]) then i + 1 else WalkRank(b, line, i - 1)
  }

  function Better(b: Board, base: set<Entry>, e: Entry): (rows: set<Entry>)
  {
    set y | y in base && Beats(b, y, e)
  }

  function Ahead(b: Board, base: set<Entry>, e: Entry): (rows: set<Entry>)
  {
    set y | y in base && Precedes(b, y, e)
  }

  function Rank(b: Board, base: set<Entry>, e: Entry): (rank: nat)
  {
    1 + |Better(b, base, e)|
  }

  function RowNumber(b: Board, base: set<Entry>, e: Entry): (number: nat)
  {
    1 + |Ahead(b, base, e)|
  }

  lemma {:induction false} PrefixSize(line: seq<Entry>, n: nat)
    requires n <= |line| && forall i, j :: 0 <= i < j < |line| ==> line[i] != line[j]
    ensures |set i | 0 <= i < n :: line[i]| == n
  {
    var front := set i | 0 <= i < n :: line[i];
    if n > 0 {
      PrefixSize(line, n - 1);
      var less := set i | 0 <= i < n - 1 :: line[i];
      assert front == less + {line[n - 1]};
    }
  }

  /** The walk stops at the first peer: everybody before it is better, everybody from it on is not. */
  lemma {:induction false} WalkStops(b: Board, line: seq<Entry>, i: nat)
    requires i < |line| && forall j, k :: 0 <= j < k < |line| ==> !Beats(b, line[k], line[j])
    ensures var r := WalkRank(b, line, i);
            && (forall j :: 0 <= j < r - 1 ==> Beats(b, line[j], line[i]))
            && (forall j :: r - 1 <= j < |line| ==> !Beats(b, line[j], line[i]))
  {
    if i > 0 && Peers(b, line[i - 1], line[i]) {
      WalkStops(b, line, i - 1);
    } else if i > 0 {
      assert Beats(b, line[i - 1], line[i]);
      forall j | 0 <= j < i ensures Beats(b, line[j], line[i]) {
        assert j < i - 1 ==> !Beats(b, line[i - 1], line[j]);
      }
    }
  }

  /** RANK is one more than the number of strictly better rows, however ties are sorted. */
  lemma RankCountsBetter(b: Board, line: seq<Entry>, base: set<Entry>, i: nat)
    requires Ranked(b, line, base) && i < |line|
    ensures WalkRank(b, line, i) == Rank(b, base, line[i])
  {
    var r := WalkRank(b, line, i);
    WalkStops(b, line, i);
    PrefixSize(line, r - 1);
    assert Better(b, base, line[i]) == set j | 0 <= j < r - 1 :: line[j];
  }

  /** ROW_NUMBER is one more than the number of rows ahead. */
  lemma RowNumberCountsAhead(b: Board, line: seq<Entry>, base: set<Entry>, i: nat)
    requires Lined(b, line, base) && i < |line|
    ensures i + 1 == RowNumber(b, base, line[i])
  {
    PrefixSize(line, i);
    assert Ahead(b, base, line[i]) == set j | 0 <= j < i :: line[j] by {
      forall y | y in base && Precedes(b, y, line[i]) ensures y in set j | 0 <= j < i :: line[j] {
        var j :| 0 <= j < |line| && line[j] == y;
        assert forall k :: i < k < |line| ==> Precedes(b, line[i], line[k]);
      }
    }
  }

  // ---- What the numbers mean ----------------------------------------------------------------

  /** A better row has the smaller RANK, and peers share theirs. */
  lemma RankExactly(b: Board, base: set<Entry>, x: Entry, y: Entry)
    requires x in base && y in base
    ensures Rank(b, base, x) < Rank(b, base, y) <==> Beats(b, x, y)
  {
    if Beats(b, x, y) {
      ProperSubsetSize(Better(b, base, x), Better(b, base, y), x);
    } else {
      SubsetSize(Better(b, base, y), Better(b, base, x));
    }
  }

  /** ROW_NUMBER orders the rows strictly, numbers them 1 to n, and refines RANK. */
  lemma RowNumberExactly(b: Board, base: set<Entry>, x: Entry, y: Entry)
    requires x in base && y in base && x != y
    requires Precedes(b, x, y) || Precedes(b, y, x)
    ensures RowNumber(b, base, x) < RowNumber(b, base, y) <==> Precedes(b, x, y)
    ensures RowNumber(b, base, x) != RowNumber(b, base, y)
    ensures Rank(b, base, x) < Rank(b, base, y) ==> RowNumber(b, base, x) < RowNumber(b, base, y)
    ensures 1 <= RowNumber(b, base, x) <= |base|
  {
    RankExactly(b, base, x, y);
    ProperSubsetSize(Ahead(b, base, x), base, x);
    if Precedes(b, x, y) {
      ProperSubsetSize(Ahead(b, base, x), Ahead(b, base, y), x);
    } else {
      ProperSubsetSize(Ahead(b, base, y), Ahead(b, base, x), y);
    }
  }

  /** Among equal scores the earlier update has the smaller ROW_NUMBER, then the smaller owner, then unique id. */
  lemma RowNumberBreaksTies(b: Board, x: Entry, y: Entry, category: nat, groupIndex: nat, groupNum: nat)
    requires BoardOk(b) && x != y && x.score == y.score
    requires x in BaseRows(b, category, groupIndex, groupNum) && y in BaseRows(b, category, groupIndex, groupNum)
    ensures var base := BaseRows(b, category, groupIndex, groupNum);
            RowNumber(b, base, x) < RowNumber(b, base, y) <==>
              || x.updatedAt < y.updatedAt
              || (x.updatedAt == y.updatedAt && (x.owner < y.owner || (x.owner == y.owner && x.unique < y.unique)))
  {
    var base := BaseRows(b, category, groupIndex, groupNum);
    UniformOrder(b, x, y, category, groupIndex, groupNum);
    UniformOrder(b, y, x, category, groupIndex, groupNum);
    RowNumberExactly(b, base, x, y);
    hide BaseRows, RowNumber, Rank;
  }

  /** `base` holds the stored rows of the category whose group byte, if one is asked for, is the given number. */
  lemma BaseMeans(b: Board, category: nat, groupIndex: nat, groupNum: nat, e: Entry)
    requires BoardOk(b)
    ensures e in BaseRows(b, category, groupIndex, groupNum) <==>
              && Key(e.unique, e.owner, e.category) in b.rankings
              && b.rankings[Key(e.unique, e.owner, e.category)] == e
              && e.category == category
              && (groupIndex == 255 || (groupIndex < |e.groups| && e.groups[groupIndex] == groupNum))
  {
  }

  // ---- Sorting ------------------------------------------------------------------------------

  ghost predicate StrictOrder(items: set<Entry>, less: (Entry, Entry) -> bool)
  {
    && (forall x :: x in items ==> !less(x, x))
    && (forall x, y :: x in items && y in items && x != y ==> less(x, y) || less(y, x))
    && (forall x, y, z :: x in items && y in items && z in items && less(x, y) && less(y, z) ==> less(x, z))
  }

  ghost predicate Least(items: set<Entry>, less: (Entry, Entry) -> bool, x: Entry)
  {
    x in items && forall y :: y in items && y != x ==> less(x, y)
  }

  lemma {:induction false} LeastEntry(items: set<Entry>, less: (Entry, Entry) -> bool)
    requires items != {} && StrictOrder(items, less)
    ensures exists x :: Least(items, less, x)
    decreases |items|
  {
    var x :| x in items;
    var rest := items - {x};
    if rest == {} {
      assert forall y :: y in items ==> y == x || y in rest;
      assert Least(items, less, x);
    } else {
      LeastEntry(rest, less);
      var least :| Least(rest, less, least);
      if less(x, least) {
        forall y | y in items && y != x ensures less(x, y) {
          assert y != least ==> less(least, y);
        }
        assert Least(items, less, x);
      } else {
        assert Least(items, less, least);
      }
    }
  }

  lemma PrecedesIsStrict(b: Board, category: nat, groupIndex: nat, groupNum: nat)
    requires BoardOk(b)
    ensures StrictOrder(BaseRows(b, category, groupIndex, groupNum), (x, y) => Precedes(b, x, y))
  {
    var base := BaseRows(b, category, groupIndex, groupNum);
    forall x, y | x in base && y in base && x != y ensures Precedes(b, x, y) || Precedes(b, y, x) {
      UniformOrder(b, x, y, category, groupIndex, groupNum);
    }
  }

  lemma {:induction false} LineExists(b: Board, base: set<Entry>)
    requires StrictOrder(base, (x, y) => Precedes(b, x, y))
    ensures exists line :: Lined(b, line, base)
    decreases |base|
  {
    if base == {} {
      assert Lined(b, [], base);
    } else {
      LeastEntry(base, (x, y) => Precedes(b, x, y));
      var first :| Least(base, (x, y) => Precedes(b, x, y), first);
      LineExists(b, base - {first});
      var rest :| Lined(b, rest, base - {first});
      PrependLeast(b, base, first, rest);
    }
  }

  lemma PrependLeast(b: Board, base: set<Entry>, first: Entry, rest: seq<Entry>)
    requires Least(base, (x, y) => Precedes(b, x, y), first) && Lined(b, rest, base - {first})
    ensures Lined(b, [first] + rest, base)
  {
    var line := [first] + rest;
    forall e ensures e in line <==> e in base {
    }
    forall i, j | 0 <= i < j < |line| ensures line[i] != line[j] && Precedes(b, line[i], line[j]) {
      assert rest[j - 1] in base - {first};
    }
  }

  /** No row number between 1 and n is left out. */
  lemma EveryNumberTaken(b: Board, category: nat, groupIndex: nat, groupNum: nat, n: nat)
    requires BoardOk(b) && 1 <= n <= |BaseRows(b, category, groupIndex, groupNum)|
    ensures var base := BaseRows(b, category, groupIndex, groupNum);
            exists e :: e in base && RowNumber(b, base, e) == n
  {
    var base := BaseRows(b, category, groupIndex, groupNum);
    PrecedesIsStrict(b, category, groupIndex, groupNum);
    LineExists(b, base);
    var line :| Lined(b, line, base);
    PrefixSize(line, |line|);
    assert base == set i | 0 <= i < |line| :: line[i];
    RowNumberCountsAhead(b, line, base, n - 1);
    assert line[n - 1] in base;
  }

  // ---- How an upload moves ranks --------------------------------------------------------------

  /** Whether the row of a key stands in `base` and is better than `x`, as a number. */
  function Share(b: Board, base: set<Entry>, k: Key, x: Entry): (n: nat)
    ensures n <= 1
  {
    if k in b.rankings && b.rankings[k] in base && Beats(b, b.rankings[k], x) then 1 else 0
  }

  /** Every acceptable upload, forced or not: another row's rank moves by what the uploader's row contributes to it. */
  lemma UploadMovesOthers(b: Board, u: Upload, x: Entry, groupIndex: nat, groupNum: nat)
    requires BoardOk(b) && Acceptable(u)
    requires x in BaseRows(b, u.category, groupIndex, groupNum) && Key(x.unique, x.owner, x.category) != KeyOf(u)
    ensures var t, k := Uploaded(b, u), KeyOf(u);
            var before, after := BaseRows(b, u.category, groupIndex, groupNum), BaseRows(t, u.category, groupIndex, groupNum);
            && x in after
            && Rank(t, after, x) == Rank(b, before, x) - Share(b, before, k, x) + Share(t, after, k, x)
            && -1 <= Rank(t, after, x) - Rank(b, before, x) <= 1
  {
    var t, k := Uploaded(b, u), KeyOf(u);
    var before, after := BaseRows(b, u.category, groupIndex, groupNum), BaseRows(t, u.category, groupIndex, groupNum);
    assert t.rankings[Key(x.unique, x.owner, x.category)] == x;
    RankWithout(b, before, k, x);
    RankWithout(t, after, k, x);
    forall y ensures y in Others(b, before, k, x) <==> y in Others(t, after, k, x) {
      OthersStay(b, u, x, y, groupIndex, groupNum);
    }
    assert Others(b, before, k, x) == Others(t, after, k, x);
  }

  function KeyIn(e: Entry): (k: Key)
  {
    Key(e.unique, e.owner, e.category)
  }

  /** The better rows of other keys. */
  function Others(b: Board, base: set<Entry>, k: Key, x: Entry): (rows: set<Entry>)
  {
    set y | y in base && Beats(b, y, x) && KeyIn(y) != k
  }

  lemma RankWithout(b: Board, base: set<Entry>, k: Key, x: Entry)
    requires BoardOk(b) && forall y :: y in base ==> KeyIn(y) in b.rankings && b.rankings[KeyIn(y)] == y
    ensures Rank(b, base, x) == 1 + |Others(b, base, k, x)| + Share(b, base, k, x)
  {
    if Share(b, base, k, x) == 1 {
      assert Better(b, base, x) == Others(b, base, k, x) + {b.rankings[k]};
    } else {
      assert Better(b, base, x) == Others(b, base, k, x);
    }
  }

  lemma OthersStay(b: Board, u: Upload, x: Entry, y: Entry, groupIndex: nat, groupNum: nat)
    requires BoardOk(b) && Acceptable(u) && u.category in b.categories && x.category == u.category
    ensures var t, k := Uploaded(b, u), KeyOf(u);
            y in Others(b, BaseRows(b, u.category, groupIndex, groupNum), k, x)
            <==> y in Others(t, BaseRows(t, u.category, groupIndex, groupNum), k, x)
  {
    var t, k := Uploaded(b, u), KeyOf(u);
    if y in BaseRows(b, u.category, groupIndex, groupNum) && KeyIn(y) != k {
      assert t.rankings[KeyIn(y)] == y;
    }
    if y in BaseRows(t, u.category, groupIndex, groupNum) && KeyIn(y) != k {
      assert b.rankings[KeyIn(y)] == y;
    }
  }

  /** Another player's row lies between the uploader's old score and the new one, which is worse. */
  predicate FallsBehind(b: Board, u: Upload, groupIndex: nat, groupNum: nat, y: Entry)
    requires KeyOf(u) in b.rankings && u.category in b.categories
  {
    var x := b.rankings[KeyOf(u)];
    && y in BaseRows(b, u.category, groupIndex, groupNum) && KeyIn(y) != KeyOf(u)
    && if b.categories[u.category] == 1 then u.score < y.score <= x.score else x.score <= y.score < u.score
  }

  /** Another player's row lies between the new score, which is better, and the old one. */
  predicate GetsAhead(b: Board, u: Upload, groupIndex: nat, groupNum: nat, y: Entry)
    requires KeyOf(u) in b.rankings && u.category in b.categories
  {
    var x := b.rankings[KeyOf(u)];
    && y in BaseRows(b, u.category, groupIndex, groupNum) && KeyIn(y) != KeyOf(u)
    && if b.categories[u.category] == 1 then x.score < y.score <= u.score else u.score <= y.score < x.score
  }

  /** The uploader's row is in the filtered category, and a row that replaces it is too. */
  predicate StaysListed(b: Board, u: Upload, groupIndex: nat, groupNum: nat)
  {
    && KeyOf(u) in b.rankings && InBase(b.rankings[KeyOf(u)], u.category, groupIndex, groupNum)
    && (Replaces(b.rankings[KeyOf(u)], EntryOf(u)) ==> InBase(EntryOf(u), u.category, groupIndex, groupNum))
  }

  function RankBefore(b: Board, u: Upload, groupIndex: nat, groupNum: nat): (rank: nat)
    requires KeyOf(u) in b.rankings
  {
    Rank(b, BaseRows(b, u.category, groupIndex, groupNum), b.rankings[KeyOf(u)])
  }

  function RankAfter(b: Board, u: Upload, groupIndex: nat, groupNum: nat): (rank: nat)
    requires Acceptable(u)
  {
    var t := Uploaded(b, u);
    Rank(t, BaseRows(t, u.category, groupIndex, groupNum), t.rankings[KeyOf(u)])
  }

  /**
   The uploader's own rank. It worsens exactly when the upload is forced, or the stored row's
   order disagrees with the category's, and somebody stands between the old score and a worse
   new one. It improves exactly when the upload is forced, or the orders agree, and somebody
   stands between a better new score and the old one.
   */
  lemma UploadMovesRanks(b: Board, u: Upload, groupIndex: nat, groupNum: nat)
    requires BoardOk(b) && Acceptable(u) && StaysListed(b, u, groupIndex, groupNum)
    ensures u.category in b.categories
    ensures var agrees := b.rankings[KeyOf(u)].orderBy == b.categories[u.category];
            var before, after := RankBefore(b, u, groupIndex, groupNum), RankAfter(b, u, groupIndex, groupNum);
            && (after > before <==> (u.updateMode == 1 || !agrees) && exists y :: FallsBehind(b, u, groupIndex, groupNum, y))
            && (after < before <==> (u.updateMode == 1 || agrees) && exists y :: GetsAhead(b, u, groupIndex, groupNum, y))
  {
    var t, k, x := Uploaded(b, u), KeyOf(u), b.rankings[KeyOf(u)];
    hide BaseRows, StaysListed, Place, Peers;
    StaysListedMeans(b, u, groupIndex, groupNum);
    if !Replaces(x, EntryOf(u)) {
      assert t == b;
    } else {
      var before, after := BaseRows(b, u.category, groupIndex, groupNum), BaseRows(t, u.category, groupIndex, groupNum);
      var S, T := Better(b, before, x), Better(t, after, EntryOf(u));
      forall y ensures y in S && y !in T <==> GetsAhead(b, u, groupIndex, groupNum, y)
               ensures y in T && y !in S <==> FallsBehind(b, u, groupIndex, groupNum, y) {
        SidesOf(b, u, groupIndex, groupNum, y);
      }
      if y :| FallsBehind(b, u, groupIndex, groupNum, y) {
        ProperSubsetSize(S, T, y);
      } else if y :| GetsAhead(b, u, groupIndex, groupNum, y) {
        ProperSubsetSize(T, S, y);
      } else {
        assert S == T;
      }
    }
  }

  lemma StaysListedMeans(b: Board, u: Upload, groupIndex: nat, groupNum: nat)
    requires BoardOk(b) && Acceptable(u) && StaysListed(b, u, groupIndex, groupNum)
    ensures u.category in b.categories && Uploaded(b, u).categories == b.categories
    ensures Uploaded(b, u).rankings[KeyOf(u)] ==
            if Replaces(b.rankings[KeyOf(u)], EntryOf(u)) then EntryOf(u) else b.rankings[KeyOf(u)]
    ensures b.rankings[KeyOf(u)].category == u.category
  {
  }

  /** Which side of the old row and of its replacement a row is on. */
  lemma SidesOf(b: Board, u: Upload, groupIndex: nat, groupNum: nat, y: Entry)
    requires BoardOk(b) && Acceptable(u) && StaysListed(b, u, groupIndex, groupNum)
    requires u.category in b.categories && Replaces(b.rankings[KeyOf(u)], EntryOf(u))
    ensures var t := Uploaded(b, u);
            var ahead := y in Better(b, BaseRows(b, u.category, groupIndex, groupNum), b.rankings[KeyOf(u)]);
            var aheadAfter := y in Better(t, BaseRows(t, u.category, groupIndex, groupNum), EntryOf(u));
            && (ahead && !aheadAfter <==> GetsAhead(b, u, groupIndex, groupNum, y))
            && (aheadAfter && !ahead <==> FallsBehind(b, u, groupIndex, groupNum, y))
  {
    var t, k, x := Uploaded(b, u), KeyOf(u), b.rankings[KeyOf(u)];
    var before, after := BaseRows(b, u.category, groupIndex, groupNum), BaseRows(t, u.category, groupIndex, groupNum);
    assert KeyIn(y) != k ==> (y in before <==> y in after) by {
      if KeyIn(y) != k {
        if y in before { assert t.rankings[KeyIn(y)] == y; }
        if y in after { assert b.rankings[KeyIn(y)] == y; }
      }
    }
    if KeyIn(y) == k {
      assert y in before ==> y == x;
      assert y in after ==> y == EntryOf(u);
    }
  }

  /** A voluntary upload never improves a rank whose stored order disagrees, and worsens it when somebody lies between. */
  lemma MismatchedUploadNeverImproves(b: Board, u: Upload, groupIndex: nat, groupNum: nat)
    requires BoardOk(b) && Acceptable(u) && u.updateMode == 0 && StaysListed(b, u, groupIndex, groupNum)
    requires u.category in b.categories && b.rankings[KeyOf(u)].orderBy != b.categories[u.category]
    ensures RankBefore(b, u, groupIndex, groupNum) <= RankAfter(b, u, groupIndex, groupNum)
    ensures RankBefore(b, u, groupIndex, groupNum) < RankAfter(b, u, groupIndex, groupNum) <==>
            exists y :: FallsBehind(b, u, groupIndex, groupNum, y)
  {
    UploadMovesRanks(b, u, groupIndex, groupNum);
  }

  /** A category for high scores; player 2 uploads for low ones, first above player 3 and then below. */
  lemma MismatchedUploadCanWorsen()
    ensures var up := (pid: nat, score: nat, order: nat) => Upload(pid, 0, 7, score, order, 0, [], 0, 0);
            var b, u := UploadedAll(EMPTY_BOARD, [up(1, 50, 1), up(2, 40, 0), up(3, 30, 1)]), up(2, 20, 0);
            && BoardOk(b) && Acceptable(u) && StaysListed(b, u, NO_GROUP, 0)
            && RankBefore(b, u, NO_GROUP, 0) < RankAfter(b, u, NO_GROUP, 0)
  {
    var up := (pid: nat, score: nat, order: nat) => Upload(pid, 0, 7, score, order, 0, [], 0, 0);
    var us := [up(1, 50, 1), up(2, 40, 0), up(3, 30, 1)];
    var b, u := UploadedAll(EMPTY_BOARD, us), up(2, 20, 0);
    UploadsKeepOrder(EMPTY_BOARD, us);
    assert us[..1][..0] == [] && us[..2][..1] == us[..1];
    assert UploadedAll(EMPTY_BOARD, us[..1]) == Uploaded(EMPTY_BOARD, us[0]);
    assert UploadedAll(EMPTY_BOARD, us[..2]) == Uploaded(Uploaded(EMPTY_BOARD, us[0]), us[1]);
    assert b == Uploaded(Uploaded(Uploaded(EMPTY_BOARD, us[0]), us[1]), us[2]);
    assert b.rankings[KeyOf(up(3, 30, 1))] == EntryOf(up(3, 30, 1));
    assert FallsBehind(b, u, NO_GROUP, 0, EntryOf(up(3, 30, 1)));
    UploadMovesRanks(b, u, NO_GROUP, 0);
  }
}
