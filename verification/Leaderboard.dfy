/**
 The ranking tables and the score upload, a conditional upsert.
 */
module Leaderboard {
  import opened Tables

  /** A row of `hyrulewarriors_rankings`; identifiers are stored as signed 64-bit integers. */
  datatype Entry = Entry(
    owner: int,
    unique: int,
    category: nat,
    score: nat,
    orderBy: nat,
    updateMode: nat,
    groups: seq<nat>,
    param: int,
    updatedAt: int)

  datatype Key = Key(unique: int, owner: int, category: nat)

  /** The rankings table by primary key, and the order of each category (1 means higher is better). */
  datatype Board = Board(rankings: map<Key, Entry>, categories: map<nat, nat>)

  const EMPTY_BOARD := Board(map[], map[])

  /** An upload request, with the time at which it is handled. */
  datatype Upload = Upload(
    pid: nat,
    uniqueId: nat,
    category: nat,
    score: nat,
    orderBy: nat,
    updateMode: nat,
    groups: seq<nat>,
    param: nat,
    now: int)

  /** The conversion `int64(x)` of a 64-bit unsigned number. */
  function Signed(x: nat): (y: int)
  {
    if x < 0x8000_0000_0000_0000 then x else x - 0x1_0000_0000_0000_0000
  }

  /** The conversion `uint64(y)` back. */
  function Unsigned(y: int): (x: nat)
  {
    y % 0x1_0000_0000_0000_0000
  }

  lemma SignedRoundTrip(x: nat)
    requires x < 0x1_0000_0000_0000_0000
    ensures Unsigned(Signed(x)) == x
    ensures Signed(x) == 0 <==> x == 0
  {
  }

  predicate Acceptable(u: Upload)
  {
    u.orderBy <= 1 && u.updateMode <= 1
  }

  function KeyOf(u: Upload): (k: Key)
  {
    Key(Signed(u.uniqueId), Signed(u.pid), u.category)
  }

  function EntryOf(u: Upload): (e: Entry)
  {
    Entry(Signed(u.pid), Signed(u.uniqueId), u.category, u.score, u.orderBy, u.updateMode, u.groups, Signed(u.param), u.now)
  }

  /** Whether a new row replaces a stored one; the stored row's order decides, not the category's. */
  predicate Replaces(stored: Entry, e: Entry)
  {
    || e.updateMode == 1
    || (stored.orderBy == 0 && e.score < stored.score)
    || (stored.orderBy == 1 && e.score > stored.score)
  }

  function Uploaded(b: Board, u: Upload): (b': Board)
  {
    if !Acceptable(u) then b else
    var e, k := EntryOf(u), KeyOf(u);
    Board(
      if k !in b.rankings || Replaces(b.rankings[k], e) then b.rankings[k := e] else b.rankings,
      if u.category in b.categories then b.categories else b.categories[u.category := u.orderBy])
  }

  function UploadedAll(b: Board, us: seq<Upload>): (b': Board)
  {
    if us == [] then b else Uploaded(UploadedAll(b, us[..|us| - 1]), us[|us| - 1])
  }

  class RankingDatabase {
    var rankings: map<Key, Entry>
    var categories: map<nat, nat>

    function State(): (b: Board)
      reads this
    {
      Board(rankings, categories)
    }

    constructor ()
      ensures State() == EMPTY_BOARD
    {
      rankings, categories := map[], map[];
    }

    method InsertRanking(u: Upload) returns (stored: Result<bool>)
      modifies this
      ensures stored.Err? <==> u.orderBy > 1 || u.updateMode > 1
      ensures State() == Uploaded(old(State()), u)
      ensures stored.Ok? && stored.value ==> KeyOf(u) in rankings && rankings[KeyOf(u)] == EntryOf(u)
      ensures stored.Ok? ==>
                var k := Key(Signed(u.uniqueId), Signed(u.pid), u.category);
                && (stored.value <==>
                      || k !in old(rankings) || u.updateMode == 1
                      || (old(rankings)[k].orderBy == 0 && u.score < old(rankings)[k].score)
                      || (old(rankings)[k].orderBy == 1 && u.score > old(rankings)[k].score))
                && (stored.value ==>
                      rankings == old(rankings)[k := Entry(Signed(u.pid), Signed(u.uniqueId), u.category, u.score, u.orderBy,
                                                           u.updateMode, u.groups, Signed(u.param), u.now)])
                && categories == if u.category in old(categories) then old(categories)
                                 else old(categories)[u.category := u.orderBy]
      ensures stored.Err? ==> State() == old(State())
      ensures stored.Ok? && !stored.value ==> rankings == old(rankings)
      ensures forall k :: k != KeyOf(u) ==>
                (k in rankings <==> k in old(rankings)) && (k in rankings ==> rankings[k] == old(rankings)[k])
    {
      if u.orderBy > 1 || u.updateMode > 1 {
        return Err(InvalidArgument);
      }
      if u.category !in categories {
        categories := categories[u.category := u.orderBy];
      }
      var k, e := KeyOf(u), EntryOf(u);
      if k !in rankings {
        rankings := rankings[k := e];
        return Ok(true);
      }
      var row := rankings[k];
      if e.updateMode == 1
         || (row.orderBy == 0 && e.score < row.score)
         || (row.orderBy == 1 && e.score > row.score) {
        rankings := rankings[k := e];
        return Ok(true);
      }
      return Ok(false);
    }
  }

  // ---- Invariant --------------------------------------------------------------------------

  ghost predicate BoardOk(b: Board)
  {
    && (forall k :: k in b.rankings ==>
          var e := b.rankings[k];
          k == Key(e.unique, e.owner, e.category) && e.orderBy <= 1 && e.category in b.categories)
    && (forall c :: c in b.categories ==> b.categories[c] <= 1)
  }

  /** Every stored row has a category row, and a category's order is fixed by its first upload. */
  lemma {:induction false} UploadsKeepOrder(b: Board, us: seq<Upload>)
    requires BoardOk(b)
    ensures BoardOk(UploadedAll(b, us))
    ensures forall c :: c in b.categories ==>
              c in UploadedAll(b, us).categories && UploadedAll(b, us).categories[c] == b.categories[c]
  {
    if us != [] {
      UploadsKeepOrder(b, us[..|us| - 1]);
    }
  }

  // ---- One player's history ---------------------------------------------------------------

  predicate Beaten(order: nat, score: nat, rival: nat)
  {
    if order == 1 then rival > score else rival < score
  }

  /** The acceptable uploads for one key, oldest first. */
  function History(us: seq<Upload>, k: Key): (h: seq<Upload>)
    ensures forall i :: 0 <= i < |h| ==> h[i] in us && KeyOf(h[i]) == k && Acceptable(h[i])
  {
    if us == [] then [] else
    var u, front := us[|us| - 1], History(us[..|us| - 1], k);
    if KeyOf(u) == k && Acceptable(u) then front + [u] else front
  }

  /** The last forced upload, or the first upload. */
  function LastForced(h: seq<Upload>): (i: nat)
    requires h != []
    ensures i < |h|
  {
    if h[|h| - 1].updateMode == 1 || |h| == 1 then |h| - 1 else LastForced(h[..|h| - 1])
  }

  /** `h[i]` is the earliest upload, from the last forced one on, that none of those beats. */
  ghost predicate Best(h: seq<Upload>, order: nat, i: int)
    requires h != []
  {
    var from := LastForced(h);
    && from <= i < |h|
    && (forall j :: from <= j < |h| ==> !Beaten(order, h[i].score, h[j].score))
    && (forall j :: from <= j < i ==> Beaten(order, h[j].score, h[i].score))
  }

  /** The upload whose entry is stored after a history; the order of the stored row decides each replacement. */
  function KeptIndex(h: seq<Upload>): (i: nat)
    requires h != []
    ensures i < |h|
  {
    if |h| == 1 then 0 else
    var u, i := h[|h| - 1], KeptIndex(h[..|h| - 1]);
    if u.updateMode == 1 || Beaten(h[i].orderBy, h[i].score, u.score) then |h| - 1 else i
  }

  /** For any interleaving of uploads, with any orders: the stored row of a key comes from its own history. */
  lemma {:induction false} StoredIsKept(us: seq<Upload>, k: Key)
    ensures var b, h := UploadedAll(EMPTY_BOARD, us), History(us, k);
            && (k in b.rankings <==> h != [])
            && (h != [] ==> b.rankings[k] == EntryOf(h[KeptIndex(h)]))
    decreases |us|
  {
    if us != [] {
      var front, u := us[..|us| - 1], us[|us| - 1];
      StoredIsKept(front, k);
      var b, h := UploadedAll(EMPTY_BOARD, front), History(front, k);
      assert UploadedAll(EMPTY_BOARD, us) == Uploaded(b, u);
      assert History(us, k) == if KeyOf(u) == k && Acceptable(u) then h + [u] else h;
      hide History, UploadedAll, KeptIndex, Uploaded;
      hide EntryOf, Replaces;
      if KeyOf(u) == k && Acceptable(u) {
        KeptStored(b, h, u);
      } else {
        UploadedRow(b, u, k);
      }
    }
  }

  lemma UploadedRow(b: Board, u: Upload, k: Key)
    ensures var t := Uploaded(b, u);
            if KeyOf(u) != k || !Acceptable(u) then
              (k in t.rankings <==> k in b.rankings) && (k in t.rankings ==> t.rankings[k] == b.rankings[k])
            else
              && k in t.rankings
              && t.rankings[k] == if k !in b.rankings || Replaces(b.rankings[k], EntryOf(u)) then EntryOf(u)
                                  else b.rankings[k]
  {
  }

  lemma KeptStored(b: Board, h: seq<Upload>, u: Upload)
    requires Acceptable(u) && forall i :: 0 <= i < |h| ==> Acceptable(h[i])
    requires KeyOf(u) in b.rankings <==> h != []
    requires h != [] ==> b.rankings[KeyOf(u)] == EntryOf(h[KeptIndex(h)])
    ensures var t := Uploaded(b, u);
            KeyOf(u) in t.rankings && t.rankings[KeyOf(u)] == EntryOf((h + [u])[KeptIndex(h + [u])])
  {
    UploadedRow(b, u, KeyOf(u));
    KeptStep(h, u);
    hide KeptIndex, Uploaded;
  }

  lemma KeptStep(h: seq<Upload>, u: Upload)
    ensures KeptIndex(h + [u]) ==
            if h == [] then 0
            else if u.updateMode == 1 || Beaten(h[KeptIndex(h)].orderBy, h[KeptIndex(h)].score, u.score) then |h|
            else KeptIndex(h)
  {
    assert (h + [u])[..|h|] == h;
  }

  /** From the last forced upload on, all but the newest are uploaded with this order. */
  predicate OneOrder(h: seq<Upload>, order: nat)
    requires h != []
  {
    forall i :: LastForced(h) <= i < |h| - 1 ==> h[i].orderBy == order
  }

  lemma {:induction false} KeptIsBest(h: seq<Upload>, order: nat)
    requires h != [] && OneOrder(h, order)
    ensures Best(h, order, KeptIndex(h))
    decreases |h|
  {
    if |h| > 1 && h[|h| - 1].updateMode != 1 {
      var front := h[..|h| - 1];
      assert LastForced(front) == LastForced(h);
      forall i | LastForced(front) <= i < |front| - 1 ensures front[i].orderBy == order {
        assert h[i].orderBy == order;
      }
      KeptIsBest(front, order);
      assert h[KeptIndex(front)].orderBy == order;
    }
  }

  ghost predicate StoredFrom(b: Board, k: Key, h: seq<Upload>, order: nat, i: int)
    requires h != [] && k in b.rankings
  {
    Best(h, order, i) && b.rankings[k].score == h[i].score && b.rankings[k].updatedAt == h[i].now
  }

  /** What is stored for a key: the best upload since the last forced one, at the time it was first reached. */
  lemma StoredIsBest(us: seq<Upload>, k: Key, order: nat)
    requires History(us, k) != [] && OneOrder(History(us, k), order)
    ensures var b, h := UploadedAll(EMPTY_BOARD, us), History(us, k);
            k in b.rankings && exists i :: StoredFrom(b, k, h, order, i)
  {
    StoredIsKept(us, k);
    var h := History(us, k);
    KeptIsBest(h, order);
    assert StoredFrom(UploadedAll(EMPTY_BOARD, us), k, h, order, KeptIndex(h));
  }

  // ---- Mixed orders -----------------------------------------------------------------------

  /** The same uploads, up to their scores. */
  ghost predicate Rescored(h: seq<Upload>, h': seq<Upload>)
  {
    |h| == |h'| && forall i :: 0 <= i < |h| ==> h'[i] == h[i].(score := h'[i].score)
  }

  /** The kept row is the best one whatever the scores, exactly when the orders since the last forced upload agree. */
  lemma KeptIsBestExactly(h: seq<Upload>, order: nat)
    requires h != [] && order <= 1 && forall i :: 0 <= i < |h| ==> Acceptable(h[i])
    ensures OneOrder(h, order) <==> forall h': seq<Upload> :: Rescored(h, h') ==> Best(h', order, KeptIndex(h'))
  {
    if OneOrder(h, order) {
      forall h': seq<Upload> | Rescored(h, h') ensures Best(h', order, KeptIndex(h')) {
        RescoredForced(h, h');
        forall i | LastForced(h') <= i < |h'| - 1 ensures h'[i].orderBy == order {
          assert h[i].orderBy == order;
        }
        KeptIsBest(h', order);
      }
    } else {
      var i := FirstOff(h, order);
      var h' := Spoiled(h, order, i);
      RescoredForced(h, h');
      LastForcedIsForced(h);
      UnforcedAfter(h);
      AfterSpoiling(h, order, i, LastForced(h), |h|);
      SurvivorIsKept(h, order, i, |h|);
      assert h'[..|h|] == h';
      assert Beaten(order, h'[KeptIndex(h')].score, h'[i].score);
    }
  }

  lemma {:induction false} RescoredForced(h: seq<Upload>, h': seq<Upload>)
    requires h != [] && Rescored(h, h')
    ensures LastForced(h') == LastForced(h)
    decreases |h|
  {
    if |h| > 1 && h[|h| - 1].updateMode != 1 {
      RescoredForced(h[..|h| - 1], h'[..|h| - 1]);
    }
  }

  lemma FirstOff(h: seq<Upload>, order: nat) returns (i: nat)
    requires h != [] && !OneOrder(h, order)
    ensures LastForced(h) <= i < |h| - 1 && h[i].orderBy != order
    ensures forall j :: LastForced(h) <= j < i ==> h[j].orderBy == order
  {
    i := LastForced(h);
    while h[i].orderBy == order
      invariant LastForced(h) <= i < |h|
      invariant forall j :: LastForced(h) <= j < i ==> h[j].orderBy == order
      invariant exists j :: i <= j < |h| - 1 && h[j].orderBy != order
      decreases |h| - i
    {
      i := i + 1;
    }
  }

  /** The uploads up to `i` improve in the given order, and those after it fall back. */
  function SpoiledScore(order: nat, i: nat, j: nat): (score: nat)
  {
    if order == 1 then (if j == i then 2 else 1) else (if j == i then 1 else 2)
  }

  function Spoiled(h: seq<Upload>, order: nat, i: nat): (h': seq<Upload>)
    ensures |h'| == |h| && forall j :: 0 <= j < |h| ==> h'[j] == h[j].(score := SpoiledScore(order, i, j))
  {
    seq(|h|, j requires 0 <= j < |h| => h[j].(score := SpoiledScore(order, i, j)))
  }

  /** The kept one of the first `n` uploads, with these scores. */
  function Survivor(h: seq<Upload>, order: nat, i: nat, n: nat): (j: nat)
    requires 0 < n <= |h|
    ensures j < n
  {
    if n == 1 then 0 else
    var j := Survivor(h, order, i, n - 1);
    if h[n - 1].updateMode == 1 || Beaten(h[j].orderBy, SpoiledScore(order, i, j), SpoiledScore(order, i, n - 1))
    then n - 1 else j
  }

  lemma {:induction false} SurvivorIsKept(h: seq<Upload>, order: nat, i: nat, n: nat)
    requires 0 < n <= |h|
    ensures KeptIndex(Spoiled(h, order, i)[..n]) == Survivor(h, order, i, n)
    decreases n
  {
    if n > 1 {
      var s := Spoiled(h, order, i);
      var front, j := s[..n - 1], Survivor(h, order, i, n - 1);
      SurvivorIsKept(h, order, i, n - 1);
      hide KeptIndex, Spoiled, SpoiledScore, Beaten;
      assert s[..n] == front + [s[n - 1]];
      KeptStep(front, s[n - 1]);
      assert front[j] == h[j].(score := SpoiledScore(order, i, j));
    }
  }

  /** Upload `f` is the last forced one, and those from it to `i` have this order. */
  ghost predicate Prepared(h: seq<Upload>, order: nat, i: nat, f: nat)
  {
    && f <= i < |h| && (f == 0 || h[f].updateMode == 1)
    && (forall j :: f < j < |h| ==> h[j].updateMode != 1)
    && (forall j :: f <= j < i ==> h[j].orderBy == order)
  }

  lemma {:induction false} BeforeSpoiling(h: seq<Upload>, order: nat, i: nat, f: nat, n: nat)
    requires Prepared(h, order, i, f) && f < n <= i
    ensures f <= Survivor(h, order, i, n) < n
    decreases n
  {
    if n > f + 1 {
      BeforeSpoiling(h, order, i, f, n - 1);
    }
  }

  /** Upload `i` is kept at first, and then loses its place to the one after it. */
  lemma {:induction false} AfterSpoiling(h: seq<Upload>, order: nat, i: nat, f: nat, n: nat)
    requires Prepared(h, order, i, f) && i < n <= |h| && order + h[i].orderBy == 1
    ensures Survivor(h, order, i, n) == if n == i + 1 then i else i + 1
    decreases n
  {
    if n > i + 1 {
      AfterSpoiling(h, order, i, f, n - 1);
    } else if i > f {
      BeforeSpoiling(h, order, i, f, i);
    }
  }

  lemma {:induction false} LastForcedIsForced(h: seq<Upload>)
    requires h != []
    ensures LastForced(h) == 0 || h[LastForced(h)].updateMode == 1
    decreases |h|
  {
    if |h| > 1 && h[|h| - 1].updateMode != 1 {
      LastForcedIsForced(h[..|h| - 1]);
    }
  }

  lemma {:induction false} UnforcedAfter(h: seq<Upload>)
    requires h != []
    ensures forall j :: LastForced(h) < j < |h| ==> h[j].updateMode != 1
    decreases |h|
  {
    if |h| > 1 && h[|h| - 1].updateMode != 1 {
      UnforcedAfter(h[..|h| - 1]);
      forall j | LastForced(h) < j < |h| ensures h[j].updateMode != 1 {
        assert j < |h| - 1 ==> h[j] == h[..|h| - 1][j];
      }
    }
  }
}
