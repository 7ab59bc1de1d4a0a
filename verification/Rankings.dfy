/**
 The ranking query: modes, limits and paging over the numbered rows of a category.
 */
module Rankings {
  import opened Collections
  import opened Tables
  import opened Leaderboard
  import opened Ranks

  const MAX_ROWS: nat := 1000

  const RANGE: nat := 0
  const NEAR: nat := 1
  const FRIEND_RANGE: nat := 2
  const USER: nat := 4

  /** A request, with the wire's unsigned integers. */
  datatype Query = Query(
    mode: nat,
    pid: nat,
    uniqueId: nat,
    category: nat,
    calculation: nat,
    groupIndex: nat,
    groupNum: nat,
    offset: nat,
    length: nat)

  /** Friend-range degrades to the user's own rows. */
  function Mode(q: Query): (mode: nat)
  {
    if q.mode == FRIEND_RANGE then USER else q.mode
  }

  function Limit(q: Query): (limit: nat)
    ensures 1 <= limit <= MAX_ROWS
  {
    if q.length == 0 || q.length > MAX_ROWS then MAX_ROWS else q.length
  }

  function Offset(q: Query): (offset: nat)
  {
    if Mode(q) == RANGE then q.offset else 0
  }

  function Base(b: Board, q: Query): (rows: set<Entry>)
  {
    BaseRows(b, q.category, q.groupIndex, q.groupNum)
  }

  /** `ranking_order` of a row. */
  function Number(b: Board, q: Query, e: Entry): (n: nat)
    ensures n >= 1
  {
    if q.calculation == 0 then Rank(b, Base(b, q), e) else RowNumber(b, Base(b, q), e)
  }

  /** A row of the principal, for the given unique id if there is one. */
  predicate Mine(q: Query, e: Entry)
  {
    e.owner == Signed(q.pid) && (Signed(q.uniqueId) == 0 || e.unique == Signed(q.uniqueId))
  }

  /** `MIN(ranking_order)` over the principal's rows; 0 stands for NULL. */
  ghost predicate BestNumber(b: Board, q: Query, m: nat)
  {
    if forall e :: e in Base(b, q) ==> !Mine(q, e) then m == 0
    else
      && (exists e :: e in Base(b, q) && Mine(q, e) && Number(b, q, e) == m)
      && (forall e :: e in Base(b, q) && Mine(q, e) ==> m <= Number(b, q, e))
  }

  /** The WHERE clause of `selected`, for a row numbered `n`; `m` is the principal's best number. */
  predicate Wanted(q: Query, m: nat, e: Entry, n: nat)
  {
    || Mode(q) == RANGE
    || (Mode(q) == USER && Mine(q, e))
    || (Mode(q) == NEAR && m != 0 && m - Limit(q) / 2 <= n <= m + Limit(q) / 2)
  }

  predicate Selected(b: Board, q: Query, m: nat, e: Entry)
  {
    e in Base(b, q) && Wanted(q, m, e, Number(b, q, e))
  }

  predicate SmallerIds(x: Entry, y: Entry)
  {
    x.owner < y.owner || (x.owner == y.owner && x.unique < y.unique)
  }

  /** `ORDER BY ranking_order, owner_pid, unique_id`, for rows numbered `i` and `j`. */
  predicate Sooner(x: Entry, i: nat, y: Entry, j: nat)
  {
    i < j || (i == j && SmallerIds(x, y))
  }

  predicate Before(b: Board, q: Query, x: Entry, y: Entry)
  {
    Sooner(x, Number(b, q, x), y, Number(b, q, y))
  }

  /** All selected rows in their final order. */
  ghost predicate FullAnswer(b: Board, q: Query, rows: seq<Entry>)
  {
    exists m :: BestNumber(b, q, m) && Listed(b, q, m, rows)
  }

  ghost predicate Listed(b: Board, q: Query, m: nat, rows: seq<Entry>)
  {
    && (forall e :: e in rows <==> Selected(b, q, m, e))
    && (forall i, j :: 0 <= i < j < |rows| ==> Before(b, q, rows[i], rows[j]))
  }

  /** A row as the query returns it: the stored row, its number, and the count of selected rows. */
  datatype Raw = Raw(entry: Entry, number: nat, total: nat)

  /** A row of the reply, converted back to the wire's unsigned integers. */
  datatype Line = Line(principal: nat, unique: nat, order: nat, category: nat, score: nat, groups: seq<nat>, param: nat,
                       updatedAt: int)

  function LineOf(raw: Raw): (line: Line)
  {
    var e := raw.entry;
    Line(Unsigned(e.owner), Unsigned(e.unique), raw.number % UINT32, e.category % UINT32, e.score % UINT32,
         e.groups, Unsigned(e.param), e.updatedAt)
  }

  /** `parseRankingDataList`: the total is read from the last row, and is 0 when there is none. */
  method ParseRankingDataList(rows: seq<Raw>) returns (lines: seq<Line>, total: nat)
    ensures |lines| == |rows| && forall i :: 0 <= i < |rows| ==> lines[i] == LineOf(rows[i])
    ensures total == if rows == [] then 0 else rows[|rows| - 1].total % UINT32
  {
    lines, total := [], 0;
    for i := 0 to |rows|
      invariant |lines| == i && forall j :: 0 <= j < i ==> lines[j] == LineOf(rows[j])
      invariant total == if i == 0 then 0 else rows[i - 1].total % UINT32
    {
      total := rows[i].total % UINT32;
      lines := lines + [LineOf(rows[i])];
    }
  }

  /**
   What is uploaded is read back: a reply's line for an entry has the fields of the upload
   that stored it, up to the widths of the wire.
   */
  lemma UploadReadBack(u: Upload, number: nat, total: nat)
    requires u.pid < 0x1_0000_0000_0000_0000 && u.uniqueId < 0x1_0000_0000_0000_0000
    requires u.param < 0x1_0000_0000_0000_0000 && u.category < 0x1_0000_0000 && u.score < 0x1_0000_0000
    ensures var line := LineOf(Raw(EntryOf(u), number, total));
            && line.principal == u.pid && line.unique == u.uniqueId && line.param == u.param
            && line.category == u.category && line.score == u.score && line.groups == u.groups
            && line.updatedAt == u.now && line.order == number % 0x1_0000_0000
  {
    SignedRoundTrip(u.pid);
    SignedRoundTrip(u.uniqueId);
    SignedRoundTrip(u.param);
  }

  // ---- Order of the answer ----------------------------------------------------------------

  lemma DistinctKeys(b: Board, q: Query, x: Entry, y: Entry)
    requires BoardOk(b) && x in Base(b, q) && y in Base(b, q)
    requires x.owner == y.owner && x.unique == y.unique
    ensures x == y
  {
  }

  lemma BeforeTotal(b: Board, q: Query, x: Entry, y: Entry)
    requires BoardOk(b) && x in Base(b, q) && y in Base(b, q) && x != y
    ensures Before(b, q, x, y) || Before(b, q, y, x)
  {
    if x.owner == y.owner && x.unique == y.unique {
      DistinctKeys(b, q, x, y);
    }
  }

  /** There is only one such answer: the same rows in the same strict order. */
  lemma {:induction false} SameAnswer(b: Board, q: Query, r: seq<Entry>, s: seq<Entry>)
    requires forall e :: e in r <==> e in s
    requires forall i, j :: 0 <= i < j < |r| ==> Before(b, q, r[i], r[j])
    requires forall i, j :: 0 <= i < j < |s| ==> Before(b, q, s[i], s[j])
    ensures r == s
    decreases |r|
  {
    assert s != [] ==> s[0] in s;
    if r != [] {
      assert r[0] in s && s != [] && s[0] in r;
      FirstIsLeast(b, q, r, s[0]);
      FirstIsLeast(b, q, s, r[0]);
      assert r[0] == s[0];
      TailMembers(b, q, r);
      TailMembers(b, q, s);
      SameAnswer(b, q, r[1..], s[1..]);
    }
  }

  lemma FirstIsLeast(b: Board, q: Query, r: seq<Entry>, e: Entry)
    requires e in r && forall i, j :: 0 <= i < j < |r| ==> Before(b, q, r[i], r[j])
    ensures e == r[0] || Before(b, q, r[0], e)
  {
  }

  lemma TailMembers(b: Board, q: Query, r: seq<Entry>)
    requires r != [] && forall i, j :: 0 <= i < j < |r| ==> Before(b, q, r[i], r[j])
    ensures forall e :: e in r[1..] <==> e in r && e != r[0]
  {
    forall e | e in r && e != r[0] ensures e in r[1..] {
      var i :| 0 <= i < |r| && r[i] == e;
      assert r[1..][i - 1] == e;
    }
    forall e | e in r[1..] ensures e != r[0] {
      var i :| 0 <= i < |r| - 1 && r[1..][i] == e;
      assert Before(b, q, r[0], r[i + 1]);
    }
  }

  // ---- Range mode: paging -----------------------------------------------------------------

  function Concat(pages: seq<seq<Entry>>): (rows: seq<Entry>)
  {
    if pages == [] then [] else Concat(pages[..|pages| - 1]) + pages[|pages| - 1]
  }

  function PageQuery(q: Query, i: nat): (page: Query)
  {
    q.(offset := Start(i, Limit(q)))
  }

  /** The offset of page `i`. */
  function Start(i: nat, limit: nat): (offset: nat)
  {
    i * limit
  }

  lemma NextStart(i: nat, limit: nat)
    ensures Start(i + 1, limit) == Start(i, limit) + limit
    ensures Start(0, limit) == 0
  {
  }

  lemma PageQuerySame(b: Board, q: Query, i: nat, rows: seq<Entry>)
    requires Mode(q) == RANGE && FullAnswer(b, q, rows)
    ensures FullAnswer(b, PageQuery(q, i), rows) && Limit(PageQuery(q, i)) == Limit(q)
    ensures Offset(PageQuery(q, i)) == Start(i, Limit(q))
  {
    var p := PageQuery(q, i);
    var m :| BestNumber(b, q, m) && Listed(b, q, m, rows);
    assert Base(b, p) == Base(b, q);
    assert forall e :: Number(b, p, e) == Number(b, q, e) && Mine(p, e) == Mine(q, e);
    assert BestNumber(b, p, m);
    assert forall e :: Selected(b, p, m, e) == Selected(b, q, m, e);
    assert forall x, y :: Before(b, p, x, y) == Before(b, q, x, y);
    assert Listed(b, p, m, rows);
  }

  /** A reply to the request for page `i`. */
  ghost predicate PageReply(b: Board, q: Query, i: nat, page: seq<Entry>)
  {
    var p := PageQuery(q, i);
    exists full :: FullAnswer(b, p, full) && page == Window(full, Offset(p), Limit(p))
  }

  lemma PageIsSlice(b: Board, q: Query, i: nat, page: seq<Entry>, rows: seq<Entry>)
    requires Mode(q) == RANGE && FullAnswer(b, q, rows) && PageReply(b, q, i, page)
    ensures page == Window(rows, Start(i, Limit(q)), Limit(q))
  {
    var p := PageQuery(q, i);
    var full :| FullAnswer(b, p, full) && page == Window(full, Offset(p), Limit(p));
    PageQuerySame(b, q, i, rows);
    AnswerUnique(b, p, full, rows);
  }

  lemma {:induction false} SlicesJoin(rows: seq<Entry>, limit: nat, pages: seq<seq<Entry>>)
    requires forall i :: 0 <= i < |pages| ==> pages[i] == Window(rows, Start(i, limit), limit)
    ensures Concat(pages) == if Start(|pages|, limit) >= |rows| then rows else rows[..Start(|pages|, limit)]
    decreases |pages|
  {
    hide Start, Window;
    if pages == [] {
      NextStart(0, limit);
    } else {
      var n := |pages| - 1;
      SlicesJoin(rows, limit, pages[..n]);
      NextStart(n, limit);
      SliceAppends(rows, Start(n, limit), limit);
    }
  }

  lemma SliceAppends(rows: seq<Entry>, from: nat, limit: nat)
    ensures (if from >= |rows| then rows else rows[..from]) + Window(rows, from, limit)
            == if from + limit >= |rows| then rows else rows[..from + limit]
  {
    if from >= |rows| {
      assert rows + [] == rows;
    } else if from + limit >= |rows| {
      assert rows[..from] + rows[from..] == rows;
    } else {
      assert rows[..from] + rows[from..from + limit] == rows[..from + limit];
    }
  }

  /** The pages at offsets 0, L, 2L, ... put together are a prefix of the whole answer, and all of it in the end. */
  lemma PagesPartition(b: Board, q: Query, rows: seq<Entry>, pages: seq<seq<Entry>>)
    requires Mode(q) == RANGE && FullAnswer(b, q, rows)
    requires forall i :: 0 <= i < |pages| ==> PageReply(b, q, i, pages[i])
    ensures Concat(pages) == if Start(|pages|, Limit(q)) >= |rows| then rows else rows[..Start(|pages|, Limit(q))]
  {
    forall i | 0 <= i < |pages| ensures pages[i] == Window(rows, Start(i, Limit(q)), Limit(q)) {
      PageIsSlice(b, q, i, pages[i], rows);
    }
    SlicesJoin(rows, Limit(q), pages);
  }

  lemma AnswerUnique(b: Board, q: Query, r: seq<Entry>, s: seq<Entry>)
    requires FullAnswer(b, q, r) && FullAnswer(b, q, s)
    ensures r == s
  {
    var m :| BestNumber(b, q, m) && Listed(b, q, m, r);
    var n :| BestNumber(b, q, n) && Listed(b, q, n, s);
    assert m == n;
    SameAnswer(b, q, r, s);
  }

  /** In Range mode the whole answer is the whole category: every row once, in order of rank. */
  lemma RangeIsWhole(b: Board, q: Query, rows: seq<Entry>)
    requires Mode(q) == RANGE && FullAnswer(b, q, rows)
    ensures forall e :: e in rows <==> e in Base(b, q)
    ensures forall i, j :: 0 <= i < j < |rows| ==> rows[i] != rows[j] && Number(b, q, rows[i]) <= Number(b, q, rows[j])
    ensures |rows| == |Base(b, q)|
  {
    var m :| BestNumber(b, q, m) && Listed(b, q, m, rows);
    assert forall i, j :: 0 <= i < j < |rows| ==> Before(b, q, rows[i], rows[j]) && rows[i] != rows[j];
    ListSize(rows, Base(b, q));
  }

  /** The number of a row, on its columns: 1 plus the better rows, or 1 plus the rows ahead of it. */
  lemma NumberOnColumns(b: Board, q: Query, e: Entry)
    requires BoardOk(b) && e in Base(b, q)
    ensures q.category in b.categories
    ensures var highWins := b.categories[q.category] == 1;
            && (q.calculation == 0 ==>
                  Number(b, q, e) == 1 + |set y | y in Base(b, q) && if highWins then y.score > e.score else y.score < e.score|)
            && (q.calculation == 1 ==>
                  Number(b, q, e) == 1 + |set y | y in Base(b, q) &&
                    if y.score != e.score then (if highWins then y.score > e.score else y.score < e.score)
                    else || y.updatedAt < e.updatedAt
                         || (y.updatedAt == e.updatedAt && y.owner < e.owner)
                         || (y.updatedAt == e.updatedAt && y.owner == e.owner && y.unique < e.unique)|)
  {
    var highWins := b.categories[q.category] == 1;
    forall y | y in Base(b, q)
      ensures Beats(b, y, e) <==> if highWins then y.score > e.score else y.score < e.score
      ensures Peers(b, y, e) <==> y.score == e.score
    {
      UniformOrder(b, y, e, q.category, q.groupIndex, q.groupNum);
      UniformOrder(b, e, y, q.category, q.groupIndex, q.groupNum);
    }
    hide Base, Beats, Peers;
    assert Better(b, Base(b, q), e) == set y | y in Base(b, q) && if highWins then y.score > e.score else y.score < e.score;
    assert Ahead(b, Base(b, q), e) == set y | y in Base(b, q) &&
                    if y.score != e.score then (if highWins then y.score > e.score else y.score < e.score)
                    else || y.updatedAt < e.updatedAt
                         || (y.updatedAt == e.updatedAt && y.owner < e.owner)
                         || (y.updatedAt == e.updatedAt && y.owner == e.owner && y.unique < e.unique);
  }

  /** In every mode the rows come by number, then by owner and unique id. */
  lemma AnswerSorted(b: Board, q: Query, rows: seq<Entry>)
    requires FullAnswer(b, q, rows)
    ensures forall i, j :: 0 <= i < j < |rows| ==>
              var x, y := rows[i], rows[j];
              var k, l := Number(b, q, x), Number(b, q, y);
              x != y && k <= l && (k == l ==> x.owner <= y.owner && (x.owner == y.owner ==> x.unique < y.unique))
  {
    hide Number;
    assert forall i, j :: 0 <= i < j < |rows| ==> Before(b, q, rows[i], rows[j]);
  }

  /** In User mode, and in Friend-range mode, the whole answer is the principal's own rows. */
  lemma UserIsOwn(b: Board, q: Query, rows: seq<Entry>)
    requires (q.mode == 4 || q.mode == 2) && FullAnswer(b, q, rows)
    ensures forall e :: e in rows <==>
              && e in BaseRows(b, q.category, q.groupIndex, q.groupNum)
              && e.owner == Signed(q.pid) && (Signed(q.uniqueId) != 0 ==> e.unique == Signed(q.uniqueId))
    ensures |rows| == |set e | e in BaseRows(b, q.category, q.groupIndex, q.groupNum)
                         && e.owner == Signed(q.pid) && (Signed(q.uniqueId) != 0 ==> e.unique == Signed(q.uniqueId))|
  {
    var m :| BestNumber(b, q, m) && Listed(b, q, m, rows);
    AnswerSorted(b, q, rows);
    hide FullAnswer, BestNumber, BaseRows, Number, Before;
    ListSize(rows, set e | e in BaseRows(b, q.category, q.groupIndex, q.groupNum)
                     && e.owner == Signed(q.pid) && (Signed(q.uniqueId) != 0 ==> e.unique == Signed(q.uniqueId)));
  }

  lemma FirstSelected(b: Board, q: Query, m: nat, rows: seq<Entry>)
    requires Listed(b, q, m, rows) && rows != []
    ensures Selected(b, q, m, rows[0])
  {
  }

  /** In Near mode it is the rows numbered within L/2 of the smallest number of an own row. */
  lemma NearIsAround(b: Board, q: Query, m: nat, rows: seq<Entry>)
    requires q.mode == 1 && BestNumber(b, q, m) && Listed(b, q, m, rows)
    ensures var own := set e | e in BaseRows(b, q.category, q.groupIndex, q.groupNum)
                         && e.owner == Signed(q.pid) && (Signed(q.uniqueId) != 0 ==> e.unique == Signed(q.uniqueId));
            && (own == {} ==> rows == [])
            && (own != {} ==>
                  && (exists e :: e in own && Number(b, q, e) == m)
                  && (forall e :: e in own ==> m <= Number(b, q, e)))
            && var half := (if q.length == 0 || q.length > 1000 then 1000 else q.length) / 2;
               forall e :: e in rows <==>
                 && own != {} && e in BaseRows(b, q.category, q.groupIndex, q.groupNum)
                 && m - half <= Number(b, q, e) <= m + half
  {
    var own := set e | e in BaseRows(b, q.category, q.groupIndex, q.groupNum)
                 && e.owner == Signed(q.pid) && (Signed(q.uniqueId) != 0 ==> e.unique == Signed(q.uniqueId));
    assert forall e :: e in own <==> e in Base(b, q) && Mine(q, e);
    hide Number, BaseRows, Base, Mine;
    if own == {} {
      assert m == 0;
      if rows != [] {
        FirstSelected(b, q, m, rows);
      }
    } else {
      var e :| e in own;
      assert m != 0 && Mine(q, e);
    }
  }

  lemma ListSize(rows: seq<Entry>, s: set<Entry>)
    requires forall i, j :: 0 <= i < j < |rows| ==> rows[i] != rows[j]
    requires forall e :: e in rows <==> e in s
    ensures |rows| == |s|
  {
    PrefixSize(rows, |rows|);
    var all := set i | 0 <= i < |rows| :: rows[i];
    forall e | e in s ensures e in all {
      var i :| 0 <= i < |rows| && rows[i] == e;
    }
    assert all == s;
  }

  // ---- Near mode ----------------------------------------------------------------------------

  /** The rows that a row's number counts. */
  function Front(b: Board, q: Query, e: Entry): (rows: set<Entry>)
  {
    if q.calculation == 0 then Better(b, Base(b, q), e) else Ahead(b, Base(b, q), e)
  }

  lemma NumberMeans(b: Board, q: Query, x: Entry, y: Entry)
    requires BoardOk(b) && x in Base(b, q) && y in Base(b, q)
    ensures Number(b, q, y) == 1 + |Front(b, q, y)|
    ensures x in Front(b, q, y) <==> Number(b, q, x) < Number(b, q, y)
    ensures q.calculation != 0 && x != y ==> Number(b, q, x) != Number(b, q, y)
  {
    RankExactly(b, Base(b, q), x, y);
    if x != y {
      UniformOrder(b, x, y, q.category, q.groupIndex, q.groupNum);
      RowNumberExactly(b, Base(b, q), x, y);
    }
  }

  /** How many rows of a sorted answer have a number below `m`. */
  function Below(b: Board, q: Query, rows: seq<Entry>, m: nat): (k: nat)
    ensures k <= |rows|
    ensures forall i :: 0 <= i < k ==> Number(b, q, rows[i]) < m
    ensures k < |rows| ==> Number(b, q, rows[k]) >= m
  {
    if rows == [] || Number(b, q, rows[0]) >= m then 0 else 1 + Below(b, q, rows[1..], m)
  }

  /** Rows with numbers from `Number(rows[0])` up to below `m` are at most as many as those numbers. */
  lemma BelowIsSmall(b: Board, q: Query, rows: seq<Entry>, best: Entry)
    requires BoardOk(b) && best in Base(b, q)
    requires forall e :: e in rows ==> e in Base(b, q)
    requires forall i, j :: 0 <= i < j < |rows| ==> Before(b, q, rows[i], rows[j])
    ensures var k := Below(b, q, rows, Number(b, q, best));
            k > 0 ==> k <= Number(b, q, best) - Number(b, q, rows[0])
  {
    var k := Below(b, q, rows, Number(b, q, best));
    if k > 0 {
      assert rows[0] in rows;
      var counted := set i | 0 <= i < k :: rows[i];
      PrefixSize(rows, k);
      forall e | e in counted ensures e in Front(b, q, best) && e !in Front(b, q, rows[0]) {
        var i :| 0 <= i < k && rows[i] == e;
        assert e in rows;
        NumberMeans(b, q, e, best);
        NumberMeans(b, q, e, rows[0]);
        assert i > 0 ==> Before(b, q, rows[0], rows[i]);
      }
      forall e | e in Front(b, q, rows[0]) ensures e in Front(b, q, best) {
        NumberMeans(b, q, e, rows[0]);
        NumberMeans(b, q, e, best);
      }
      assert counted !! Front(b, q, rows[0]);
      assert |counted + Front(b, q, rows[0])| == k + |Front(b, q, rows[0])|;
      SubsetSize(counted + Front(b, q, rows[0]), Front(b, q, best));
      NumberMeans(b, q, rows[0], rows[0]);
      NumberMeans(b, q, best, best);
    }
  }

  /** Near mode, either calculation: at most L/2 rows stand before the principal's best tie group. */
  lemma NearPrecedesFew(b: Board, q: Query, m: nat, rows: seq<Entry>)
    requires BoardOk(b) && Mode(q) == NEAR && m != 0 && BestNumber(b, q, m) && Listed(b, q, m, rows)
    ensures var k := Below(b, q, rows, m);
            && k <= Limit(q) / 2
            && k < |rows| && Number(b, q, rows[k]) == m
  {
    var best :| best in Base(b, q) && Mine(q, best) && Number(b, q, best) == m;
    var k := Below(b, q, rows, m);
    forall e | e in rows ensures e in Base(b, q) {
      assert Selected(b, q, m, e);
    }
    BelowIsSmall(b, q, rows, best);
    assert k > 0 ==> rows[0] in rows && Selected(b, q, m, rows[0]);
    assert Selected(b, q, m, best);
    var i :| 0 <= i < |rows| && rows[i] == best;
    assert k <= i;
    assert k < i ==> Before(b, q, rows[k], rows[i]);
  }

  /** Near mode under ROW_NUMBER: the reply contains the principal's best row and is a contiguous run of numbers. */
  lemma NearIsContiguous(b: Board, q: Query, m: nat, rows: seq<Entry>, page: seq<Entry>)
    requires BoardOk(b) && Mode(q) == NEAR && q.calculation == 1
    requires m != 0 && BestNumber(b, q, m) && Listed(b, q, m, rows)
    requires page == Window(rows, Offset(q), Limit(q))
    ensures |page| <= Limit(q)
    ensures exists e :: e in page && Mine(q, e) && Number(b, q, e) == m
    ensures forall i :: 0 <= i < |page| - 1 ==> Number(b, q, page[i + 1]) == Number(b, q, page[i]) + 1
  {
    NearPrecedesFew(b, q, m, rows);
    var k := Below(b, q, rows, m);
    var best :| best in Base(b, q) && Mine(q, best) && Number(b, q, best) == m;
    assert rows[k] in rows && Selected(b, q, m, rows[k]);
    NumberMeans(b, q, rows[k], best);
    assert page[k] == best;
    forall i | 0 <= i < |page| - 1 ensures Number(b, q, page[i + 1]) == Number(b, q, page[i]) + 1 {
      assert page[i] == rows[i] && page[i + 1] == rows[i + 1];
      NoGap(b, q, m, rows, i);
    }
  }

  lemma NoGap(b: Board, q: Query, m: nat, rows: seq<Entry>, i: nat)
    requires BoardOk(b) && Mode(q) == NEAR && q.calculation == 1 && m != 0 && Listed(b, q, m, rows)
    requires i + 1 < |rows|
    ensures Number(b, q, rows[i + 1]) == Number(b, q, rows[i]) + 1
  {
    var x, y := rows[i], rows[i + 1];
    assert x in rows && y in rows && Selected(b, q, m, x) && Selected(b, q, m, y);
    assert Before(b, q, x, y);
    NumberMeans(b, q, x, y);
    NumberMeans(b, q, y, x);
    assert Number(b, q, x) < Number(b, q, y);
    var closer := Front(b, q, x) + {x};
    forall e | e in Front(b, q, y) ensures e in closer {
      NumberMeans(b, q, e, y);
      NumberMeans(b, q, e, x);
      if e !in closer {
        NumberMeans(b, q, x, e);
        assert Selected(b, q, m, e);
        var j :| 0 <= j < |rows| && rows[j] == e;
        Between(b, q, rows, i, j);
      }
    }
    SubsetSize(Front(b, q, y), closer);
  }

  /** Nothing in a sorted answer has a number strictly between those of two neighbours. */
  lemma Between(b: Board, q: Query, rows: seq<Entry>, i: nat, j: nat)
    requires i + 1 < |rows| && j < |rows|
    requires forall k, l :: 0 <= k < l < |rows| ==> Before(b, q, rows[k], rows[l])
    ensures Number(b, q, rows[j]) <= Number(b, q, rows[i]) || Number(b, q, rows[j]) >= Number(b, q, rows[i + 1])
  {
    assert j < i ==> Before(b, q, rows[j], rows[i]);
    assert j > i + 1 ==> Before(b, q, rows[i + 1], rows[j]);
  }

  /** The selected rows that are listed before `e`. */
  function ListedBefore(b: Board, q: Query, m: nat, e: Entry): (rows: set<Entry>)
  {
    set x | x in Base(b, q) && Selected(b, q, m, x) && Before(b, q, x, e)
  }

  /** In every mode, a row is on the first page exactly when fewer than L rows are listed before it. */
  lemma ShownExactly(b: Board, q: Query, m: nat, rows: seq<Entry>, e: Entry)
    requires Listed(b, q, m, rows) && Selected(b, q, m, e)
    ensures e in Window(rows, 0, Limit(q)) <==> |ListedBefore(b, q, m, e)| < Limit(q)
  {
    hide Base, Selected, Number;
    var i :| 0 <= i < |rows| && rows[i] == e;
    var front := set j | 0 <= j < i :: rows[j];
    PrefixSize(rows, i);
    forall x | x in ListedBefore(b, q, m, e) ensures x in front {
      var j :| 0 <= j < |rows| && rows[j] == x;
      assert j > i ==> Before(b, q, e, x);
    }
    forall x | x in front ensures x in ListedBefore(b, q, m, e) {
      var j :| 0 <= j < i && rows[j] == x;
      assert x in rows;
      SelectedInBase(b, q, m, x);
    }
    assert front == ListedBefore(b, q, m, e);
    if i < Limit(q) {
      assert Window(rows, 0, Limit(q))[i] == e;
    }
  }

  lemma SelectedInBase(b: Board, q: Query, m: nat, e: Entry)
    requires Selected(b, q, m, e)
    ensures e in Base(b, q)
  {
  }

  // ---- Does Near mode show the principal? ------------------------------------------------------

  /** The rows numbered within L/2 below `m`. */
  function Approach(b: Board, q: Query, m: nat): (rows: set<Entry>)
  {
    set x | x in Base(b, q) && m - Limit(q) / 2 <= Number(b, q, x) < m
  }

  function TieGroup(b: Board, q: Query, m: nat): (rows: set<Entry>)
  {
    set e | e in Base(b, q) && Number(b, q, e) == m
  }

  function TiesBefore(b: Board, q: Query, m: nat, e: Entry): (rows: set<Entry>)
  {
    set x | x in TieGroup(b, q, m) && SmallerIds(x, e)
  }

  /** Read off the board: the row's place in the near view of number `m` is within the limit. */
  predicate FitsNear(b: Board, q: Query, m: nat, e: Entry)
  {
    |Approach(b, q, m)| + |TiesBefore(b, q, m, e)| < Limit(q)
  }

  /** A row with the principal's best number is in the reply exactly when it fits. */
  lemma BestRowShownExactly(b: Board, q: Query, m: nat, rows: seq<Entry>, e: Entry)
    requires Mode(q) == NEAR && m != 0 && Listed(b, q, m, rows) && e in TieGroup(b, q, m)
    ensures e in Window(rows, Offset(q), Limit(q)) <==> FitsNear(b, q, m, e)
  {
    ShownExactly(b, q, m, rows, e);
    hide Number, Base;
    var near, ties := Approach(b, q, m), TiesBefore(b, q, m, e);
    assert ListedBefore(b, q, m, e) == near + ties;
    assert near !! ties;
  }

  /** The reply contains a row of the principal exactly when one of those with the best number fits. */
  lemma PrincipalShownExactly(b: Board, q: Query, m: nat, rows: seq<Entry>)
    requires Mode(q) == NEAR && m != 0 && BestNumber(b, q, m) && Listed(b, q, m, rows)
    ensures (exists e :: e in Window(rows, Offset(q), Limit(q)) && Mine(q, e))
            <==> exists e :: e in TieGroup(b, q, m) && Mine(q, e) && FitsNear(b, q, m, e)
  {
    hide Number, FitsNear, Base;
    var page := Window(rows, Offset(q), Limit(q));
    if e :| e in page && Mine(q, e) {
      var i :| 0 <= i < |page| && page[i] == e;
      assert rows[i] == e && e in rows;
      var best :| best in Base(b, q) && Mine(q, best) && Number(b, q, best) == m;
      var top := if Number(b, q, e) == m then e else best;
      assert Selected(b, q, m, e) && Selected(b, q, m, best);
      var j :| 0 <= j < |rows| && rows[j] == top;
      assert j > i ==> Before(b, q, e, top);
      assert page[j] == top;
      BestRowShownExactly(b, q, m, rows, top);
    }
    if e :| e in TieGroup(b, q, m) && Mine(q, e) && FitsNear(b, q, m, e) {
      BestRowShownExactly(b, q, m, rows, e);
    }
  }

  lemma ApproachIsSmall(b: Board, q: Query, m: nat, rows: seq<Entry>)
    requires BoardOk(b) && Mode(q) == NEAR && m != 0 && BestNumber(b, q, m) && Listed(b, q, m, rows)
    ensures |Approach(b, q, m)| <= Limit(q) / 2
  {
    NearPrecedesFew(b, q, m, rows);
    hide Number, Base, BestNumber;
    var k := Below(b, q, rows, m);
    assert forall i, j :: 0 <= i < j < |rows| ==> Before(b, q, rows[i], rows[j]) && rows[i] != rows[j];
    PrefixSize(rows, k);
    var front := set i | 0 <= i < k :: rows[i];
    forall x | x in Approach(b, q, m) ensures x in front {
      assert Selected(b, q, m, x);
      var j :| 0 <= j < |rows| && rows[j] == x;
    }
    SubsetSize(Approach(b, q, m), front);
  }

  /** In particular when the tie group has at most L - L/2 rows. */
  lemma NearShowsSmallTies(b: Board, q: Query, m: nat, rows: seq<Entry>, best: Entry)
    requires BoardOk(b) && Mode(q) == NEAR && m != 0 && BestNumber(b, q, m) && Listed(b, q, m, rows)
    requires best in Base(b, q) && Number(b, q, best) == m
    requires |TieGroup(b, q, m)| <= Limit(q) - Limit(q) / 2
    ensures best in Window(rows, Offset(q), Limit(q))
  {
    hide Number, Base, BestNumber, Listed;
    ApproachIsSmall(b, q, m, rows);
    ProperSubsetSize(TiesBefore(b, q, m, best), TieGroup(b, q, m), best);
    BestRowShownExactly(b, q, m, rows, best);
  }

  function SameScore(pid: nat): (u: Upload)
  {
    Upload(pid, 0, 7, 100, 1, 0, [], 0, 0)
  }

  function ThreeTied(): (b: Board)
  {
    UploadedAll(EMPTY_BOARD, [SameScore(1), SameScore(2), SameScore(3)])
  }

  lemma ThreeTiedBoard()
    ensures var x, y, z := EntryOf(SameScore(1)), EntryOf(SameScore(2)), EntryOf(SameScore(3));
            ThreeTied() == Board(map[Key(0, 1, 7) := x, Key(0, 2, 7) := y, Key(0, 3, 7) := z], map[7 := 1])
  {
    var us := [SameScore(1), SameScore(2), SameScore(3)];
    assert us[..1][..0] == [] && us[..2][..1] == us[..1];
    assert UploadedAll(EMPTY_BOARD, us[..1]) == Uploaded(EMPTY_BOARD, us[0]);
    assert UploadedAll(EMPTY_BOARD, us[..2]) == Uploaded(Uploaded(EMPTY_BOARD, us[0]), us[1]);
  }

  /** The third player asks for the two rows around them. */
  const THIRD_ASKS := Query(NEAR, 3, 0, 7, 0, NO_GROUP, 0, 0, 2)

  /** Three players upload the same score; the near view shows the first two and not the third, who asked. */
  lemma NearMayHideThePrincipal()
    ensures var rows := [EntryOf(SameScore(1)), EntryOf(SameScore(2)), EntryOf(SameScore(3))];
            && BoardOk(ThreeTied()) && BestNumber(ThreeTied(), THIRD_ASKS, 1) && Listed(ThreeTied(), THIRD_ASKS, 1, rows)
            && Mine(THIRD_ASKS, rows[2])
            && forall e :: e in Window(rows, Offset(THIRD_ASKS), Limit(THIRD_ASKS)) ==> !Mine(THIRD_ASKS, e)
  {
    UploadsKeepOrder(EMPTY_BOARD, [SameScore(1), SameScore(2), SameScore(3)]);
    ThreeTiedListed();
    hide UploadedAll, BoardOk, BestNumber, Listed;
  }

  lemma ThreeTiedListed()
    ensures BestNumber(ThreeTied(), THIRD_ASKS, 1)
    ensures Listed(ThreeTied(), THIRD_ASKS, 1, [EntryOf(SameScore(1)), EntryOf(SameScore(2)), EntryOf(SameScore(3))])
  {
    ThreeTiedNumbers();
    hide UploadedAll, Base, Number;
  }

  lemma ThreeTiedNumbers()
    ensures var b, q := ThreeTied(), THIRD_ASKS;
            var x, y, z := EntryOf(SameScore(1)), EntryOf(SameScore(2)), EntryOf(SameScore(3));
            && Base(b, q) == {x, y, z}
            && Number(b, q, x) == Number(b, q, y) == Number(b, q, z) == 1
  {
    ThreeTiedBoard();
    hide ThreeTied;
    var b, q := ThreeTied(), THIRD_ASKS;
    var x, y, z := EntryOf(SameScore(1)), EntryOf(SameScore(2)), EntryOf(SameScore(3));
    forall e ensures e in Base(b, q) <==> e == x || e == y || e == z {
      assert b.rankings[Key(0, 1, 7)] == x && b.rankings[Key(0, 2, 7)] == y && b.rankings[Key(0, 3, 7)] == z;
    }
    forall e | e in Base(b, q) ensures Number(b, q, e) == 1 {
      assert Better(b, Base(b, q), e) == {};
    }
  }

  // ---- One number per row ---------------------------------------------------------------------

  /** `n` is a number that the window function may give to `e`, for some way of sorting ties. */
  ghost predicate WindowNumber(b: Board, q: Query, e: Entry, n: nat)
  {
    if q.calculation == 0
    then exists line, i :: Ranked(b, line, Base(b, q)) && 0 <= i < |line| && line[i] == e && n == WalkRank(b, line, i)
    else exists line, i :: Lined(b, line, Base(b, q)) && 0 <= i < |line| && line[i] == e && n == i + 1
  }

  lemma WindowNumberIs(b: Board, q: Query, e: Entry, n: nat)
    requires WindowNumber(b, q, e, n)
    ensures n == Number(b, q, e)
  {
    if q.calculation == 0 {
      var line, i :| Ranked(b, line, Base(b, q)) && 0 <= i < |line| && line[i] == e && n == WalkRank(b, line, i);
      RankCountsBetter(b, line, Base(b, q), i);
    } else {
      var line, i :| Lined(b, line, Base(b, q)) && 0 <= i < |line| && line[i] == e && n == i + 1;
      RowNumberCountsAhead(b, line, Base(b, q), i);
    }
  }

  /** A row gets the same number in every mode, on every page and for every principal. */
  lemma SameNumberInAllModes(b: Board, q: Query, r: Query, e: Entry, n: nat, n': nat)
    requires q.category == r.category && q.calculation == r.calculation
    requires q.groupIndex == r.groupIndex && q.groupNum == r.groupNum
    requires WindowNumber(b, q, e, n) && WindowNumber(b, r, e, n')
    ensures n == n'
  {
    WindowNumberIs(b, q, e, n);
    WindowNumberIs(b, r, e, n');
  }

  // ---- The query --------------------------------------------------------------------------------

  method Sort(items: set<Entry>, less: (Entry, Entry) -> bool) returns (rows: seq<Entry>)
    requires StrictOrder(items, less)
    ensures forall e :: e in rows <==> e in items
    ensures forall i, j :: 0 <= i < j < |rows| ==> less(rows[i], rows[j]) && rows[i] != rows[j]
  {
    rows := [];
    var left := items;
    while left != {}
      invariant left <= items
      invariant forall e :: e in items <==> e in left || e in rows
      invariant forall i, e :: 0 <= i < |rows| && e in left ==> less(rows[i], e) && rows[i] != e
      invariant forall i, j :: 0 <= i < j < |rows| ==> less(rows[i], rows[j]) && rows[i] != rows[j]
      decreases left
    {
      LeastEntry(left, less);
      ghost var least :| Least(left, less, least);
      assert least in left && forall y :: y in left && y != least ==> less(least, y);
      var e :| e in left && forall y :: y in left && y != e ==> less(e, y);
      left := left - {e};
      rows := rows + [e];
    }
  }

  /** The final order, read off the computed numbers. */
  predicate NumberedSooner(numbers: map<Entry, nat>, x: Entry, y: Entry)
  {
    x in numbers && y in numbers && Sooner(x, numbers[x], y, numbers[y])
  }

  lemma NumberedIsStrict(b: Board, q: Query, numbers: map<Entry, nat>, items: set<Entry>)
    requires BoardOk(b) && Numbered(b, q, numbers) && items <= Base(b, q)
    ensures StrictOrder(items, (x, y) => NumberedSooner(numbers, x, y))
  {
    forall x, y | x in items && y in items && x != y
      ensures NumberedSooner(numbers, x, y) || NumberedSooner(numbers, y, x)
    {
      BeforeTotal(b, q, x, y);
    }
  }

  /** `numbers` holds the number of every base row and nothing else. */
  ghost predicate Numbered(b: Board, q: Query, numbers: map<Entry, nat>)
  {
    && (forall e :: e in numbers <==> e in Base(b, q))
    && (forall e :: e in numbers ==> numbers[e] == Number(b, q, e))
  }

  lemma LineNumber(b: Board, q: Query, line: seq<Entry>, i: nat)
    requires Lined(b, line, Base(b, q)) && i < |line|
    ensures WindowNumber(b, q, line[i], if q.calculation == 0 then WalkRank(b, line, i) else i + 1)
  {
    assert Ranked(b, line, Base(b, q));
  }

  /** The rows of `base` in the order of ROW_NUMBER, which is one of the orders RANK allows. */
  method SortBase(b: Board, q: Query) returns (line: seq<Entry>)
    requires BoardOk(b)
    ensures Lined(b, line, Base(b, q))
  {
    PrecedesIsStrict(b, q.category, q.groupIndex, q.groupNum);
    line := Sort(Base(b, q), (x, y) => Precedes(b, x, y));
  }

  /** `ranked`: every base row with its window number, counted along the line. */
  method NumberRows(b: Board, q: Query, line: seq<Entry>) returns (numbers: map<Entry, nat>)
    requires Lined(b, line, Base(b, q))
    ensures forall e :: e in numbers <==> e in line
    ensures forall e :: e in numbers ==> WindowNumber(b, q, e, numbers[e])
  {
    hide WindowNumber, Base, Lined, Peers;
    numbers := map[];
    var rank := 0;
    for i := 0 to |line|
      invariant forall j :: 0 <= j < i ==> line[j] in numbers
      invariant forall e :: e in numbers ==> e in line
      invariant i > 0 ==> rank == WalkRank(b, line, i - 1)
      invariant forall e :: e in numbers ==> WindowNumber(b, q, e, numbers[e])
    {
      if i == 0 || !Peers(b, line[i - 1], line[i]) {
        rank := i + 1;
      }
      var n := if q.calculation == 0 then rank else i + 1;
      LineNumber(b, q, line, i);
      numbers := numbers[line[i] := n];
    }
  }

  lemma LinedLists(b: Board, q: Query, line: seq<Entry>)
    requires Lined(b, line, Base(b, q))
    ensures Lists(line, Base(b, q))
  {
  }

  lemma NumbersArePositive(b: Board, q: Query)
    ensures forall e {:trigger Number(b, q, e)} :: Number(b, q, e) >= 1
  {
  }

  /** `MIN(ranking_order)` of the principal's rows. */
  method SmallestNumber(b: Board, q: Query, line: seq<Entry>, numbers: map<Entry, nat>) returns (m: nat)
    requires Lists(line, Base(b, q))
    requires Numbered(b, q, numbers)
    ensures BestNumber(b, q, m)
  {
    hide Number, Mine, Base;
    m := 0;
    NumbersArePositive(b, q);
    ghost var best: Option<Entry> := None;
    for i := 0 to |line|
      invariant m == 0 ==> forall j :: 0 <= j < i ==> !Mine(q, line[j])
      invariant m != 0 ==> best.Some? && best.value in Base(b, q) && Mine(q, best.value) && Number(b, q, best.value) == m
      invariant m != 0 ==> forall j :: 0 <= j < i && Mine(q, line[j]) ==> m <= Number(b, q, line[j])
    {
      var e := line[i];
      if Mine(q, e) && (m == 0 || numbers[e] < m) {
        m := numbers[e];
        best := Some(e);
      }
    }
    if m == 0 {
      forall e | e in Base(b, q) ensures !Mine(q, e) {
        var j :| 0 <= j < |line| && line[j] == e;
      }
    }
  }

  /** `selected`, in its final order, by the computed numbers. */
  method SelectRows(ghost b: Board, q: Query, numbers: map<Entry, nat>, m: nat) returns (rows: seq<Entry>)
    requires BoardOk(b) && Numbered(b, q, numbers)
    ensures Listed(b, q, m, rows)
  {
    hide Base, Number, Sooner;
    var selected := set e | e in numbers && Wanted(q, m, e, numbers[e]);
    NumberedIsStrict(b, q, numbers, selected);
    rows := Sort(selected, (x, y) => NumberedSooner(numbers, x, y));
    assert forall i :: 0 <= i < |rows| ==> rows[i] in rows && rows[i] in numbers;
  }

  /** The whole statement: base, ranked, selected, order, offset and limit. */
  method RunQuery(b: Board, q: Query) returns (raws: seq<Raw>, ghost rows: seq<Entry>)
    requires BoardOk(b)
    ensures FullAnswer(b, q, rows)
    ensures |raws| == |Window(rows, Offset(q), Limit(q))|
    ensures forall i :: 0 <= i < |raws| ==>
              && raws[i].entry == Window(rows, Offset(q), Limit(q))[i]
              && raws[i].number == Number(b, q, raws[i].entry)
              && raws[i].total == |rows|
  {
    hide Number, WindowNumber, BestNumber, Lined, Base, BoardOk;
    var line := SortBase(b, q);
    var numbers := NumberRows(b, q, line);
    LinedLists(b, q, line);
    forall e | e in numbers ensures numbers[e] == Number(b, q, e) {
      WindowNumberIs(b, q, e, numbers[e]);
    }
    hide Lists;
    var m := SmallestNumber(b, q, line, numbers);
    var sorted := SelectRows(b, q, numbers, m);
    rows := sorted;
    assert FullAnswer(b, q, rows);
    var page := Window(sorted, Offset(q), Limit(q));
    PageMembers(b, q, m, sorted, Offset(q), Limit(q));
    hide Listed, FullAnswer, Window;
    raws := [];
    for i := 0 to |page|
      invariant |raws| == i
      invariant forall j :: 0 <= j < i ==> raws[j] == Raw(page[j], Number(b, q, page[j]), |sorted|)
    {
      raws := raws + [Raw(page[i], numbers[page[i]], |sorted|)];
    }
  }

  lemma PageMembers(b: Board, q: Query, m: nat, rows: seq<Entry>, offset: nat, limit: nat)
    requires Listed(b, q, m, rows)
    ensures forall i :: 0 <= i < |Window(rows, offset, limit)| ==> Window(rows, offset, limit)[i] in Base(b, q)
  {
    forall e | e in rows ensures e in Base(b, q) {
      assert Selected(b, q, m, e);
    }
  }

  /** A reply cut from the whole answer `rows`. */
  ghost predicate IsReply(b: Board, q: Query, rows: seq<Entry>, lines: seq<Line>, total: nat)
  {
    var page := Window(rows, Offset(q), Limit(q));
    && FullAnswer(b, q, rows)
    && |lines| == |page|
    && (forall i :: 0 <= i < |page| ==> lines[i] == LineOf(Raw(page[i], Number(b, q, page[i]), |rows|)))
    && total == if page == [] then 0 else |rows| % UINT32
  }

  /** A reply on its columns: the clamps, which row goes into which line, and every field. */
  lemma ReplyOnColumns(b: Board, q: Query, rows: seq<Entry>, lines: seq<Line>, total: nat)
    requires IsReply(b, q, rows, lines, total) && q.mode in {0, 1, 2, 4}
    ensures var offset, limit := if q.mode == 0 then q.offset else 0,
                                 if q.length == 0 || q.length > 1000 then 1000 else q.length;
            && |lines| == (if |rows| <= offset then 0 else if |rows| - offset <= limit then |rows| - offset else limit)
            && total == (if lines == [] then 0 else |rows| % 0x1_0000_0000)
            && forall i :: 0 <= i < |lines| ==>
                 var e, line := rows[offset + i], lines[i];
                 && line.principal == Unsigned(e.owner) && line.unique == Unsigned(e.unique)
                 && line.order == Number(b, q, e) % 0x1_0000_0000
                 && line.category == e.category % 0x1_0000_0000 && line.score == e.score % 0x1_0000_0000
                 && line.groups == e.groups && line.param == Unsigned(e.param) && line.updatedAt == e.updatedAt
  {
    WindowAt(rows, Offset(q), Limit(q));
    hide FullAnswer, Window, Number, Unsigned;
  }

  /** In User and Friend-range mode every line names the principal, and the total counts the principal's rows. */
  lemma ReplyIsOwn(b: Board, q: Query, rows: seq<Entry>, lines: seq<Line>, total: nat)
    requires IsReply(b, q, rows, lines, total) && (q.mode == 4 || q.mode == 2) && q.pid < 0x1_0000_0000_0000_0000
    ensures forall i :: 0 <= i < |lines| ==> lines[i].principal == q.pid
    ensures var own := set e | e in BaseRows(b, q.category, q.groupIndex, q.groupNum)
                         && e.owner == Signed(q.pid) && (Signed(q.uniqueId) != 0 ==> e.unique == Signed(q.uniqueId));
            && (forall e :: e in rows <==> e in own)
            && total == |own| % 0x1_0000_0000
  {
    ReplyOnColumns(b, q, rows, lines, total);
    UserIsOwn(b, q, rows);
    SignedRoundTrip(q.pid);
    hide *;
    forall i | 0 <= i < |lines| ensures lines[i].principal == q.pid {
      assert rows[i] in rows;
    }
  }

  /** `HyruleWarriorsGetRankings`. */
  method GetRankings(b: Board, q: Query) returns (r: Result<(seq<Line>, nat)>, ghost rows: seq<Entry>)
    requires BoardOk(b)
    ensures r.Err? <==>
              || q.mode !in {0, 1, 2, 4} || (q.groupIndex != 255 && q.groupIndex > 3) || q.calculation > 1
    ensures r.Ok? ==> IsReply(b, q, rows, r.value.0, r.value.1)
    ensures r.Ok? && (q.mode == 4 || q.mode == 2) && q.pid < 0x1_0000_0000_0000_0000 ==>
              && (forall i :: 0 <= i < |r.value.0| ==> r.value.0[i].principal == q.pid)
              && (forall e :: e in rows <==>
                    && e in BaseRows(b, q.category, q.groupIndex, q.groupNum)
                    && e.owner == Signed(q.pid) && (Signed(q.uniqueId) != 0 ==> e.unique == Signed(q.uniqueId)))
  {
    rows := [];
    var mode := q.mode;
    if mode == FRIEND_RANGE {
      mode := USER;
    }
    if mode != RANGE && mode != USER && mode != NEAR {
      return Err(InvalidArgument), [];
    }
    if q.groupIndex != NO_GROUP && q.groupIndex > 3 {
      return Err(InvalidArgument), [];
    }
    if q.calculation > 1 {
      return Err(InvalidArgument), [];
    }
    hide FullAnswer, Window, Number, BaseRows, BoardOk;
    var raws;
    raws, rows := RunQuery(b, q);
    var lines, total := ParseRankingDataList(raws);
    assert IsReply(b, q, rows, lines, total);
    hide IsReply;
    if (q.mode == 4 || q.mode == 2) && q.pid < 0x1_0000_0000_0000_0000 {
      ReplyIsOwn(b, q, rows, lines, total);
    }
    return Ok((lines, total)), rows;
  }
}
