/**
 Looking for a session: the closest match for a given session, and the search
 by criteria, whose queries share one result range.
 */
module Search {
  import opened Collections
  import opened Participants
  import opened Tables
  import opened Criteria

  function Abs(x: int): (y: nat)
  {
    if x < 0 then -x else x
  }

  // ---- The closest match ------------------------------------------------------------------

  const FRIENDS_ONLY: nat := 98

  predicate JoinedRow(s: Store, gid: nat)
  {
    gid in s.gatherings && gid in s.sessions
  }

  function RowOf(s: Store, gid: nat): (row: Row)
    requires JoinedRow(s, gid)
  {
    Row(s.gatherings[gid], s.sessions[gid])
  }

  /** A session that FindMatchmakeSession may return: open, populated, with a vacancy, and alike. */
  predicate Suits(row: Row, terms: Terms, wanted: Session, friends: set<Pid>)
    requires |wanted.attribs| >= 6
  {
    && row.g.registered
    && row.g.kind.MatchmakeSession?
    && row.g.host != 0
    && row.m.openParticipation
    && 0 < |row.g.participants| < row.g.terms.maxParticipants
    && !row.m.userPasswordEnabled
    && !row.m.systemPasswordEnabled
    && row.g.terms.maxParticipants == terms.maxParticipants
    && row.g.terms.minParticipants == terms.minParticipants
    && row.m.gameMode == wanted.gameMode
    && |row.m.attribs| >= 6
    && (forall i :: 0 <= i < 6 && i != 1 ==> row.m.attribs[i] == wanted.attribs[i])
    && row.m.systemType == wanted.systemType
    && row.m.codeword == wanted.codeword
    && (row.g.terms.policy == FRIENDS_ONLY ==> row.g.owner in friends)
  }

  predicate Candidate(s: Store, gid: nat, terms: Terms, wanted: Session, friends: set<Pid>)
    requires |wanted.attribs| >= 6
  {
    JoinedRow(s, gid) && Suits(RowOf(s, gid), terms, wanted, friends)
  }

  function Distance(s: Store, gid: nat, wanted: Session): (d: nat)
    requires |wanted.attribs| >= 6
  {
    if JoinedRow(s, gid) && |s.sessions[gid].attribs| >= 2
    then Abs(wanted.attribs[1] as int - s.sessions[gid].attribs[1]) else 0
  }

  /** A closest candidate, if there is a candidate at all. */
  method FindMatchmakeSession(s: Store, terms: Terms, wanted: Session, friends: set<Pid>)
    returns (found: Option<nat>)
    requires |wanted.attribs| >= 6
    ensures found.None? <==> forall gid :: !Candidate(s, gid, terms, wanted, friends)
    ensures found.Some? ==> Candidate(s, found.value, terms, wanted, friends)
    ensures found.Some? ==> forall gid :: Candidate(s, gid, terms, wanted, friends) ==>
              Distance(s, found.value, wanted) <= Distance(s, gid, wanted)
    ensures forall gid :: Candidate(s, gid, terms, wanted, friends) ==>
              && found.Some? && |s.sessions[found.value].attribs| >= 6
              && var want, have, other := wanted.attribs[1], s.sessions[found.value].attribs[1], s.sessions[gid].attribs[1];
                 (if want < have then have - want else want - have)
                 <= if want < other then other - want else want - other
  {
    found := None;
    var left := s.sessions.Keys;
    while left != {}
      invariant left <= s.sessions.Keys
      invariant found.None? ==> forall gid :: gid !in left ==> !Candidate(s, gid, terms, wanted, friends)
      invariant found.Some? ==> Candidate(s, found.value, terms, wanted, friends)
      invariant found.Some? ==> forall gid :: gid !in left && Candidate(s, gid, terms, wanted, friends) ==>
                  Distance(s, found.value, wanted) <= Distance(s, gid, wanted)
      decreases left
    {
      var gid :| gid in left;
      left := left - {gid};
      if Candidate(s, gid, terms, wanted, friends)
         && (found.None? || Distance(s, gid, wanted) < Distance(s, found.value, wanted)) {
        found := Some(gid);
      }
    }
  }

  /** The WHERE clause on the columns; attribute 1 is left to the ordering. */
  lemma SuitsExactly(g: Gathering, m: Session, terms: Terms, wanted: Session, friends: set<Pid>)
    requires |wanted.attribs| >= 6 && |m.attribs| >= 6
    ensures Suits(Row(g, m), terms, wanted, friends) <==>
              && g.registered && g.kind.MatchmakeSession? && g.host != 0
              && m.openParticipation && !m.userPasswordEnabled && !m.systemPasswordEnabled
              && 0 < |g.participants| < g.terms.maxParticipants
              && g.terms.maxParticipants == terms.maxParticipants && g.terms.minParticipants == terms.minParticipants
              && m.gameMode == wanted.gameMode && m.systemType == wanted.systemType && m.codeword == wanted.codeword
              && m.attribs[0] == wanted.attribs[0] && m.attribs[2..6] == wanted.attribs[2..6]
              && (g.terms.policy == 98 ==> g.owner in friends)
  {
    if m.attribs[2..6] == wanted.attribs[2..6] {
      assert forall i :: 2 <= i < 6 ==>
          m.attribs[i] == m.attribs[2..6][i - 2] && wanted.attribs[i] == wanted.attribs[2..6][i - 2];
    }
  }

  // ---- One query --------------------------------------------------------------------------

  /** Attribute 1 as the selection methods read it: a plain number, or 0. */
  ghost function Target(c: Criterion): (n: nat)
    requires |c.attribs| >= 2
  {
    if Numeral(c.attribs[1], 32) then Decimal(c.attribs[1]) else 0
  }

  /** Whether the selection method looks at attribute 1. */
  predicate UsesTarget(c: Criterion, source: Option<Session>)
  {
    || c.selection.NearestNeighbor?
    || c.selection.BroadenRange?
    || (c.selection.BroadenRangeWithProgressScore? && source.Some?)
  }

  predicate NeedsSource(c: Criterion)
  {
    c.selection.ProgressScore? || c.selection.BroadenRangeWithProgressScore?
  }

  /** The ORDER BY expression as a function of attribute 1 and the progress score of a row. */
  datatype Order = Unordered | ByAttribute(a: nat) | ByProgress(p: nat) | BySum(a: nat, p: nat)

  function Key(order: Order, m: Session): (k: nat)
  {
    var attribute := if |m.attribs| >= 2 then m.attribs[1] else 0;
    match order
    case Unordered => 0
    case ByAttribute(a) => Abs(a as int - attribute)
    case ByProgress(p) => Abs(p as int - m.progressScore)
    case BySum(a, p) => Abs(a as int - attribute + p - m.progressScore)
  }

  ghost function OrderOf(c: Criterion, source: Option<Session>): (order: Order)
    requires UsesTarget(c, source) ==> |c.attribs| >= 2
    requires NeedsSource(c) ==> source.Some?
  {
    match c.selection
    case Random => Unordered
    case NearestNeighbor => ByAttribute(Target(c))
    case BroadenRange => ByAttribute(Target(c))
    case ProgressScore => ByProgress(source.value.progressScore)
    case BroadenRangeWithProgressScore =>
      if c.attribs[1] == "" then Unordered else BySum(Target(c), source.value.progressScore)
    case ScoreBased => Unordered
  }

  predicate Matches(s: Store, gid: nat, c: Criterion, clauses: seq<Clause>)
  {
    JoinedRow(s, gid) && Base(c, RowOf(s, gid)) && AllHold(clauses, RowOf(s, gid))
  }

  /** A full answer before LIMIT and OFFSET: all matches, each once, in an order the key allows. */
  ghost predicate Ordered(s: Store, ids: seq<nat>, order: Order)
  {
    && (forall i :: 0 <= i < |ids| ==> JoinedRow(s, ids[i]))
    && (forall i, j :: 0 <= i < j < |ids| ==>
          ids[i] != ids[j] && Key(order, s.sessions[ids[i]]) <= Key(order, s.sessions[ids[j]]))
  }

  /** Rows whose participant count is NULL fail the scan and are dropped from the reply. */
  function Scanned(s: Store, ids: seq<nat>): (kept: seq<nat>)
    ensures |kept| <= |ids|
    ensures forall gid :: gid in kept <==> gid in ids && gid in s.gatherings && s.gatherings[gid].participants != []
  {
    if ids == [] then [] else
    var front, gid := Scanned(s, ids[..|ids| - 1]), ids[|ids| - 1];
    assert ids == ids[..|ids| - 1] + [gid];
    if gid in s.gatherings && s.gatherings[gid].participants != [] then front + [gid] else front
  }

  /** Each id once, by increasing key; ties in any order. */
  ghost predicate SortedIds(keys: map<nat, nat>, ids: seq<nat>)
  {
    && (forall i :: 0 <= i < |ids| ==> ids[i] in keys)
    && (forall i, j :: 0 <= i < j < |ids| ==> ids[i] != ids[j] && keys[ids[i]] <= keys[ids[j]])
  }

  /** ORDER BY: the database settles ties as it likes. */
  method OrderBy(keys: map<nat, nat>) returns (ids: seq<nat>)
    ensures SortedIds(keys, ids)
    ensures forall id :: id in ids <==> id in keys
  {
    ids := [];
    var left := keys.Keys;
    while left != {}
      invariant left <= keys.Keys
      invariant forall id :: id in keys <==> id in left || id in ids
      invariant forall id, i :: id in left && 0 <= i < |ids| ==> ids[i] != id && keys[ids[i]] <= keys[id]
      invariant SortedIds(keys, ids)
      decreases left
    {
      LeastKey(keys, left);
      var id :| id in left && forall other :: other in left ==> keys[id] <= keys[other];
      left := left - {id};
      ids := ids + [id];
    }
  }

  lemma {:induction false} LeastKey(keys: map<nat, nat>, ids: set<nat>)
    requires ids != {} && ids <= keys.Keys
    ensures exists id :: id in ids && forall other :: other in ids ==> keys[id] <= keys[other]
    decreases |ids|
  {
    var x :| x in ids;
    var rest := ids - {x};
    assert ids == rest + {x};
    if rest != {} {
      LeastKey(keys, rest);
      var y :| y in rest && forall other :: other in rest ==> keys[y] <= keys[other];
      var least := if keys[x] < keys[y] then x else y;
      assert least in ids && forall other :: other in ids ==> keys[least] <= keys[other];
    } else {
      assert forall other :: other in ids ==> keys[x] <= keys[other];
    }
  }

  /** All sessions that match, sorted by the selection method. */
  method RunQuery(s: Store, c: Criterion, clauses: seq<Clause>, order: Order) returns (ids: seq<nat>)
    ensures Ordered(s, ids, order)
    ensures forall gid :: gid in ids <==> Matches(s, gid, c, clauses)
  {
    var keys := map gid | gid in s.sessions && Matches(s, gid, c, clauses) :: Key(order, s.sessions[gid]);
    ids := OrderBy(keys);
  }

  // ---- Several criteria -------------------------------------------------------------------

  /** `uint32(Length) - uint32(len(results))`. */
  function Remaining(length: nat, found: nat): (n: nat)
    ensures n < UINT32
  {
    (length - found) % UINT32
  }

  function LimitFor(c: Criterion, range: Range, found: nat): (r: Range)
  {
    if c.range.length != 0 then c.range else Range(range.offset, Remaining(range.length, found))
  }

  /** The criterion takes part in the search. */
  ghost predicate Usable(c: Criterion, source: Option<Session>)
  {
    FieldsWellFormed(c) && (NeedsSource(c) ==> source.Some?)
  }

  /** The selection method indexes an attribute that is not there. */
  ghost predicate Panics(c: Criterion, source: Option<Session>)
  {
    Usable(c, source) && UsesTarget(c, source) && |c.attribs| < 2
  }

  ghost predicate AnyPanics(cs: seq<Criterion>, source: Option<Session>)
  {
    exists i :: 0 <= i < |cs| && Panics(cs[i], source)
  }

  /** `page` is a possible reply to one criterion when `found` sessions were found before. */
  ghost predicate PageOf(s: Store, c: Criterion, range: Range, source: Option<Session>, found: nat, page: seq<nat>)
  {
    !Panics(c, source) &&
    if !Usable(c, source) then page == [] else
    exists ids: seq<nat> ::
      && Ordered(s, ids, OrderOf(c, source))
      && (forall gid :: gid in ids <==> JoinedRow(s, gid) && Accepts(c, RowOf(s, gid)))
      && page == Scanned(s, Window(ids, LimitFor(c, range, found).offset, LimitFor(c, range, found).length))
  }

  function Flatten(pages: seq<seq<nat>>): (results: seq<nat>)
  {
    if pages == [] then [] else Flatten(pages[..|pages| - 1]) + pages[|pages| - 1]
  }

  /** One page per criterion, each limited by what the pages before it found. */
  ghost predicate Answers(s: Store, cs: seq<Criterion>, range: Range, source: Option<Session>, pages: seq<seq<nat>>)
  {
    && |pages| == |cs|
    && forall i :: 0 <= i < |cs| ==> PageOf(s, cs[i], range, source, |Flatten(pages[..i])|, pages[i])
  }

  datatype Reply = Found(gids: seq<nat>) | IndexPanic

  function Normalized(range: Range): (r: Range)
  {
    if range.offset == UINT32 - 1 then range.(offset := 0) else range
  }

  method ParseTarget(c: Criterion) returns (n: nat)
    requires |c.attribs| >= 2
    ensures n == Target(c)
  {
    var r := ParseUint(c.attribs[1], 32);
    n := if r.Some? then r.value else 0;
  }

  /** The ORDER BY clause for a criterion that takes part; None when indexing attribute 1 panics. */
  method ChooseOrder(c: Criterion, source: Option<Session>) returns (r: Option<Order>)
    requires NeedsSource(c) ==> source.Some?
    ensures r.None? <==> UsesTarget(c, source) && |c.attribs| < 2
    ensures r.Some? ==> r.value == OrderOf(c, source)
  {
    if UsesTarget(c, source) && |c.attribs| < 2 {
      return None;
    }
    match c.selection
    case Random => return Some(Unordered);
    case NearestNeighbor => var a := ParseTarget(c); return Some(ByAttribute(a));
    case BroadenRange => var a := ParseTarget(c); return Some(ByAttribute(a));
    case ProgressScore => return Some(ByProgress(source.value.progressScore));
    case BroadenRangeWithProgressScore =>
      if c.attribs[1] == "" {
        return Some(Unordered);
      }
      var a := ParseTarget(c);
      return Some(BySum(a, source.value.progressScore));
    case ScoreBased => return Some(Unordered);
  }

  /** One round of the loop: compile, order, limit, query and scan; None when indexing panics. */
  method SearchOne(s: Store, c: Criterion, range: Range, source: Option<Session>, found: nat)
    returns (page: Option<seq<nat>>)
    ensures page.None? <==> Panics(c, source)
    ensures page.Some? ==> PageOf(s, c, range, source, found, page.value)
  {
    var clauses := Compile(c);
    if clauses.None? || (NeedsSource(c) && source.None?) {
      return Some([]);
    }
    var order := ChooseOrder(c, source);
    if order.None? {
      return None;
    }
    var ids := RunQuery(s, c, clauses.value, order.value);
    forall gid ensures gid in ids <==> JoinedRow(s, gid) && Accepts(c, RowOf(s, gid)) {
      if JoinedRow(s, gid) {
        var row := RowOf(s, gid);
        assert Base(c, row) ==> (AllHold(clauses.value, row) <==> Accepts(c, row));
      }
    }
    var limit := LimitFor(c, range, found);
    return Some(Scanned(s, Window(ids, limit.offset, limit.length)));
  }

  method FindBySearchCriteria(s: Store, cs: seq<Criterion>, range: Range, source: Option<Session>)
    returns (reply: Reply, ghost pages: seq<seq<nat>>)
    ensures reply.IndexPanic? <==> AnyPanics(cs, source)
    ensures reply.Found? ==> Answers(s, cs, Normalized(range), source, pages) && reply.gids == Flatten(pages)
  {
    hide PageOf, Panics, Answers, Flatten;
    var range := Normalized(range);
    var results := [];
    pages := [];
    NoPages(s, range, source);
    assert cs[..0] == [];
    for i := 0 to |cs|
      invariant forall j :: 0 <= j < i ==> !Panics(cs[j], source)
      invariant Answers(s, cs[..i], range, source, pages) && results == Flatten(pages)
    {
      var page := SearchOne(s, cs[i], range, source, |results|);
      if page.None? {
        return IndexPanic, [];
      }
      AnswersStep(s, cs[..i], cs[i], range, source, pages, page.value);
      assert cs[..i + 1] == cs[..i] + [cs[i]];
      pages := pages + [page.value];
      results := results + page.value;
    }
    assert cs[..|cs|] == cs;
    return Found(results), pages;
  }

  lemma NoPages(s: Store, range: Range, source: Option<Session>)
    ensures Answers(s, [], range, source, []) && Flatten([]) == []
  {
  }

  lemma AnswersStep(s: Store, cs: seq<Criterion>, c: Criterion, range: Range, source: Option<Session>,
                    pages: seq<seq<nat>>, page: seq<nat>)
    requires Answers(s, cs, range, source, pages)
    requires PageOf(s, c, range, source, |Flatten(pages)|, page)
    ensures Answers(s, cs + [c], range, source, pages + [page])
    ensures Flatten(pages + [page]) == Flatten(pages) + page
  {
    var more := pages + [page];
    assert more[..|pages|] == pages;
    forall i | 0 <= i < |cs| + 1
      ensures PageOf(s, (cs + [c])[i], range, source, |Flatten(more[..i])|, more[i])
    {
      if i < |cs| {
        assert more[..i] == pages[..i];
      }
    }
  }

  // ---- The shared range -------------------------------------------------------------------

  /** The shared limit is the plain difference exactly while no more than Length were found. */
  lemma RemainingExactly(length: nat, found: nat)
    requires length < UINT32 && found < UINT32
    ensures found <= length <==> Remaining(length, found) == length - found
    ensures found > length ==> Remaining(length, found) == UINT32 + length - found
  {
  }

  /** The most sessions that the first `n` criteria can return, as long as no limit wraps. */
  function Spent(cs: seq<Criterion>, length: nat, n: nat): (most: nat)
    requires n <= |cs|
  {
    if n == 0 then 0
    else if cs[n - 1].range.length != 0 then Spent(cs, length, n - 1) + cs[n - 1].range.length
    else length
  }

  /** Whenever one of the first `n` criteria uses the shared range, those before it cannot have exceeded it. */
  predicate WithinRange(cs: seq<Criterion>, length: nat, n: nat)
    requires n <= |cs|
  {
    forall i :: 0 <= i < n && cs[i].range.length == 0 ==> Spent(cs, length, i) <= length
  }

  /** Then the shared limit never wraps, and the criteria return at most as many sessions as they may spend. */
  lemma {:induction false} AtMostSpent(s: Store, cs: seq<Criterion>, range: Range, source: Option<Session>,
                                       pages: seq<seq<nat>>, n: nat)
    requires range.length < UINT32 && n <= |cs| && WithinRange(cs, range.length, |cs|)
    requires Answers(s, cs, range, source, pages)
    ensures |Flatten(pages[..n])| <= Spent(cs, range.length, n)
    ensures n < |cs| && cs[n].range.length == 0 ==>
              LimitFor(cs[n], range, |Flatten(pages[..n])|).length == range.length - |Flatten(pages[..n])|
  {
    hide PageOf, Remaining;
    if n > 0 {
      AtMostSpent(s, cs, range, source, pages, n - 1);
      var found := |Flatten(pages[..n - 1])|;
      assert PageOf(s, cs[n - 1], range, source, found, pages[n - 1]);
      PageFits(s, cs[n - 1], range, source, found, pages[n - 1]);
      FlattenStep(pages, n - 1);
    }
    hide Answers, Flatten;
    if n < |cs| && cs[n].range.length == 0 {
      assert |Flatten(pages[..n])| <= range.length;
      RemainingExactly(range.length, |Flatten(pages[..n])|);
    }
  }

  /** Beyond that it wraps: with pages as full as their limits, at the first criterion that is not within the range. */
  lemma FullPagesWrap(s: Store, cs: seq<Criterion>, range: Range, source: Option<Session>,
                      pages: seq<seq<nat>>, n: nat)
    requires range.length < UINT32 && n < |cs| && WithinRange(cs, range.length, n)
    requires cs[n].range.length == 0 && range.length < Spent(cs, range.length, n) < UINT32
    requires Answers(s, cs, range, source, pages) && FullPages(cs, range, pages, n)
    ensures LimitFor(cs[n], range, |Flatten(pages[..n])|).length == UINT32 + range.length - Spent(cs, range.length, n)
  {
    FullPagesSpend(cs, range, pages, n);
    RemainingExactly(range.length, Spent(cs, range.length, n));
  }

  /** Each of the first `n` pages has as many sessions as its limit allows. */
  predicate FullPages(cs: seq<Criterion>, range: Range, pages: seq<seq<nat>>, n: nat)
    requires n <= |cs| == |pages|
  {
    forall i :: 0 <= i < n ==> |pages[i]| == LimitFor(cs[i], range, |Flatten(pages[..i])|).length
  }

  lemma {:induction false} FullPagesSpend(cs: seq<Criterion>, range: Range, pages: seq<seq<nat>>, n: nat)
    requires range.length < UINT32 && n <= |cs| == |pages| && WithinRange(cs, range.length, n)
    requires FullPages(cs, range, pages, n)
    ensures |Flatten(pages[..n])| == Spent(cs, range.length, n)
  {
    hide Remaining;
    if n > 0 {
      FullPagesSpend(cs, range, pages, n - 1);
      assert pages[..n][..n - 1] == pages[..n - 1];
      var found := |Flatten(pages[..n - 1])|;
      assert |pages[n - 1]| == LimitFor(cs[n - 1], range, found).length;
      if cs[n - 1].range.length == 0 {
        RemainingExactly(range.length, found);
      }
    }
  }

  /** Without ranges of their own, the criteria never make the limit wrap and return at most Length. */
  lemma AtMostLength(s: Store, cs: seq<Criterion>, range: Range, source: Option<Session>,
                     pages: seq<seq<nat>>, n: nat)
    requires range.length < UINT32 && n <= |cs|
    requires forall i :: 0 <= i < |cs| ==> cs[i].range.length == 0
    requires Answers(s, cs, range, source, pages)
    ensures |Flatten(pages[..n])| <= range.length
    ensures n < |cs| ==>
              LimitFor(cs[n], range, |Flatten(pages[..n])|).length == range.length - |Flatten(pages[..n])|
  {
    AtMostSpent(s, cs, range, source, pages, n);
  }

  lemma PageFits(s: Store, c: Criterion, range: Range, source: Option<Session>, found: nat, page: seq<nat>)
    requires PageOf(s, c, range, source, found, page)
    ensures |page| <= LimitFor(c, range, found).length
  {
  }

  // ---- What a page holds ----------------------------------------------------------------------

  /** `ids` come in an order that the key allows, without repeats. */
  ghost predicate Sorted(s: Store, ids: seq<nat>, order: Order)
  {
    && (forall gid :: gid in ids ==> gid in s.sessions)
    && forall i, j :: 0 <= i < j < |ids| ==>
         ids[i] != ids[j] && Key(order, s.sessions[ids[i]]) <= Key(order, s.sessions[ids[j]])
  }

  /** Nothing in `ids` comes after `last`. */
  ghost predicate UpTo(s: Store, ids: seq<nat>, order: Order, last: nat)
  {
    last in s.sessions && forall gid :: gid in ids && gid in s.sessions ==>
      gid != last && Key(order, s.sessions[gid]) <= Key(order, s.sessions[last])
  }

  lemma SortedSplit(s: Store, ids: seq<nat>, order: Order)
    requires Sorted(s, ids, order) && ids != []
    ensures Sorted(s, ids[..|ids| - 1], order) && UpTo(s, ids[..|ids| - 1], order, ids[|ids| - 1])
  {
    hide Key;
  }

  lemma SortedAppend(s: Store, ids: seq<nat>, order: Order, last: nat)
    requires Sorted(s, ids, order) && UpTo(s, ids, order, last)
    ensures Sorted(s, ids + [last], order)
  {
    hide Key;
    assert forall i :: 0 <= i < |ids| ==> ids[i] in ids;
  }

  lemma {:induction false} ScannedSorted(s: Store, ids: seq<nat>, order: Order)
    requires Sorted(s, ids, order)
    ensures Sorted(s, Scanned(s, ids), order)
  {
    if ids != [] {
      var front, last := ids[..|ids| - 1], ids[|ids| - 1];
      SortedSplit(s, ids, order);
      hide Sorted, Key;
      ScannedSorted(s, front, order);
      var kept := Scanned(s, front);
      assert Scanned(s, ids) == kept || Scanned(s, ids) == kept + [last];
      hide Scanned;
      SortedAppend(s, kept, order, last);
    }
  }

  lemma WindowSorted(s: Store, ids: seq<nat>, order: Order, offset: nat, length: nat)
    requires Sorted(s, ids, order)
    ensures Sorted(s, Window(ids, offset, length), order)
    ensures forall gid :: gid in Window(ids, offset, length) ==> gid in ids
    ensures |Window(ids, offset, length)| ==
            if |ids| <= offset then 0 else if |ids| - offset <= length then |ids| - offset else length
    ensures offset == 0 && Window(ids, offset, length) != [] ==> Window(ids, offset, length)[0] == ids[0]
  {
    hide Key;
  }

  /** The matches behind a page, before the range and the scan. */
  lemma PageIds(s: Store, c: Criterion, range: Range, source: Option<Session>, found: nat, page: seq<nat>)
    returns (ids: seq<nat>)
    requires PageOf(s, c, range, source, found, page) && Usable(c, source)
    ensures Sorted(s, ids, OrderOf(c, source)) && |ids| == |Matching(s, c)|
    ensures forall gid :: gid in ids <==> JoinedRow(s, gid) && Accepts(c, RowOf(s, gid))
    ensures page == Scanned(s, Window(ids, LimitFor(c, range, found).offset, LimitFor(c, range, found).length))
  {
    hide Key, OrderOf, Accepts, LimitFor;
    ids :| Ordered(s, ids, OrderOf(c, source))
      && (forall gid :: gid in ids <==> JoinedRow(s, gid) && Accepts(c, RowOf(s, gid)))
      && page == Scanned(s, Window(ids, LimitFor(c, range, found).offset, LimitFor(c, range, found).length));
    DistinctSize(ids, Matching(s, c));
  }

  /** The page of a criterion that takes part: different, populated sessions that meet it, in its order. */
  lemma PageMembers(s: Store, c: Criterion, range: Range, source: Option<Session>, found: nat, page: seq<nat>)
    requires PageOf(s, c, range, source, found, page) && Usable(c, source)
    ensures forall gid :: gid in page ==>
              JoinedRow(s, gid) && Accepts(c, RowOf(s, gid)) && s.gatherings[gid].participants != []
    ensures Sorted(s, page, OrderOf(c, source))
  {
    var ids := PageIds(s, c, range, source, found, page);
    hide Key, OrderOf, Accepts, PageOf, Usable, LimitFor;
    var limit := LimitFor(c, range, found);
    WindowSorted(s, ids, OrderOf(c, source), limit.offset, limit.length);
    ScannedSorted(s, Window(ids, limit.offset, limit.length), OrderOf(c, source));
  }

  /** With vacancy-only criteria none is missing but what the range cuts off. */
  lemma PageSize(s: Store, c: Criterion, range: Range, source: Option<Session>, found: nat, page: seq<nat>)
    requires PageOf(s, c, range, source, found, page) && Usable(c, source)
    ensures var offset, length := if c.range.length != 0 then c.range.offset else range.offset,
                                  if c.range.length != 0 then c.range.length else (range.length - found) % 0x1_0000_0000;
            && |page| <= length
            && (c.vacantOnly ==>
                  |page| == if |Matching(s, c)| <= offset then 0
                            else if |Matching(s, c)| - offset <= length then |Matching(s, c)| - offset else length)
  {
    var ids := PageIds(s, c, range, source, found, page);
    var limit := LimitFor(c, range, found);
    LimitMeans(c, range, found);
    hide Key, OrderOf, Accepts, PageOf, Usable, Matching, LimitFor, Remaining;
    WindowSorted(s, ids, OrderOf(c, source), limit.offset, limit.length);
    if c.vacantOnly {
      VacantPopulated(s, c);
      hide Sorted, JoinedRow;
      AllScanned(s, Window(ids, limit.offset, limit.length));
    }
  }

  lemma LimitMeans(c: Criterion, range: Range, found: nat)
    ensures LimitFor(c, range, found).offset == if c.range.length != 0 then c.range.offset else range.offset
    ensures LimitFor(c, range, found).length ==
            if c.range.length != 0 then c.range.length else (range.length - found) % 0x1_0000_0000
  {
  }

  /** With room for one result, no match comes before it. */
  lemma PageFirst(s: Store, c: Criterion, range: Range, source: Option<Session>, found: nat, page: seq<nat>, gid: nat)
    requires PageOf(s, c, range, source, found, page) && Usable(c, source) && page != []
    requires LimitFor(c, range, found) == Range(0, 1) && JoinedRow(s, gid) && Accepts(c, RowOf(s, gid))
    ensures page[0] in s.sessions
    ensures Key(OrderOf(c, source), s.sessions[page[0]]) <= Key(OrderOf(c, source), s.sessions[gid])
  {
    var ids := PageIds(s, c, range, source, found, page);
    hide Key, OrderOf, Accepts, PageOf, Usable, Matching, LimitFor;
    assert page[0] in page && page[0] in Window(ids, 0, 1);
    assert Window(ids, 0, 1) == [ids[0]];
    FirstIsLeast(s, ids, OrderOf(c, source));
  }

  lemma VacantPopulated(s: Store, c: Criterion)
    requires c.vacantOnly
    ensures forall gid :: JoinedRow(s, gid) && Accepts(c, RowOf(s, gid)) ==> s.gatherings[gid].participants != []
  {
    hide Base, Reads;
  }

  lemma FirstIsLeast(s: Store, ids: seq<nat>, order: Order)
    requires ids != [] && Sorted(s, ids, order)
    ensures ids[0] in ids
    ensures forall gid :: gid in ids ==> Key(order, s.sessions[ids[0]]) <= Key(order, s.sessions[gid])
  {
    hide Key;
    forall gid | gid in ids ensures Key(order, s.sessions[ids[0]]) <= Key(order, s.sessions[gid]) {
      var i :| 0 <= i < |ids| && ids[i] == gid;
    }
  }

  // ---- The selection methods ------------------------------------------------------------------

  /** The request asks for one result, and this is the criterion that gives it. */
  predicate ForOne(c: Criterion, range: Range, found: nat)
  {
    c.range.length == 0 && range == Range(0, 1) && found == 0
  }

  lemma PageByKey(s: Store, c: Criterion, range: Range, source: Option<Session>, found: nat, page: seq<nat>)
    requires PageOf(s, c, range, source, found, page) && Usable(c, source)
    ensures forall i :: 0 <= i < |page| ==> page[i] in s.sessions && |s.sessions[page[i]].attribs| == |c.attribs|
    ensures forall i, j :: 0 <= i < j < |page| ==>
              Key(OrderOf(c, source), s.sessions[page[i]]) <= Key(OrderOf(c, source), s.sessions[page[j]])
    ensures ForOne(c, range, found) && page != [] ==>
              forall gid :: JoinedRow(s, gid) && Accepts(c, RowOf(s, gid)) ==>
                && |s.sessions[gid].attribs| == |c.attribs|
                && Key(OrderOf(c, source), s.sessions[page[0]]) <= Key(OrderOf(c, source), s.sessions[gid])
  {
    PageMembers(s, c, range, source, found, page);
    hide PageOf, Usable, Reads, Key, OrderOf;
    forall i | 0 <= i < |page| ensures page[i] in s.sessions && |s.sessions[page[i]].attribs| == |c.attribs| {
      assert page[i] in page;
      SameLength(c, RowOf(s, page[i]));
    }
    if ForOne(c, range, found) && page != [] {
      forall gid | JoinedRow(s, gid) && Accepts(c, RowOf(s, gid))
        ensures |s.sessions[gid].attribs| == |c.attribs|
        ensures Key(OrderOf(c, source), s.sessions[page[0]]) <= Key(OrderOf(c, source), s.sessions[gid])
      {
        SameLength(c, RowOf(s, gid));
        hide Accepts;
        PageFirst(s, c, range, source, found, page, gid);
      }
    }
  }

  lemma SameLength(c: Criterion, row: Row)
    requires Accepts(c, row)
    ensures |row.m.attribs| == |c.attribs|
  {
  }

  /** Both neighbour methods: nearer sessions first, by attribute 1 and the number in the criterion. */
  lemma NearestByAttribute(s: Store, c: Criterion, range: Range, source: Option<Session>, found: nat, page: seq<nat>)
    requires PageOf(s, c, range, source, found, page) && FieldsWellFormed(c)
    requires c.selection.NearestNeighbor? || c.selection.BroadenRange?
    ensures |c.attribs| >= 2
    ensures forall i :: 0 <= i < |page| ==> page[i] in s.sessions && |s.sessions[page[i]].attribs| >= 2
    ensures var t: int := Target(c);
            forall i, j :: 0 <= i < j < |page| ==>
              var x, y := s.sessions[page[i]], s.sessions[page[j]];
              Abs(t - x.attribs[1]) <= Abs(t - y.attribs[1])
    ensures ForOne(c, range, found) && page != [] ==>
              var t: int := Target(c);
              forall gid :: JoinedRow(s, gid) && Accepts(c, RowOf(s, gid)) ==>
                var x, y := s.sessions[page[0]], s.sessions[gid];
                |y.attribs| >= 2 && Abs(t - x.attribs[1]) <= Abs(t - y.attribs[1])
  {
    assert |c.attribs| >= 2;
    var t: int := Target(c);
    PageByKey(s, c, range, source, found, page);
    hide *;
    forall i, j | 0 <= i < j < |page|
      ensures var x, y := s.sessions[page[i]], s.sessions[page[j]];
              Abs(t - x.attribs[1]) <= Abs(t - y.attribs[1])
    {
      NearestByAttributeKey(c, source, s.sessions[page[i]]);
      NearestByAttributeKey(c, source, s.sessions[page[j]]);
    }
    if ForOne(c, range, found) && page != [] {
      forall gid | JoinedRow(s, gid) && Accepts(c, RowOf(s, gid))
        ensures var x, y := s.sessions[page[0]], s.sessions[gid];
                |y.attribs| >= 2 && Abs(t - x.attribs[1]) <= Abs(t - y.attribs[1])
      {
        NearestByAttributeKey(c, source, s.sessions[page[0]]);
        NearestByAttributeKey(c, source, s.sessions[gid]);
      }
    }
  }

  lemma NearestByAttributeKey(c: Criterion, source: Option<Session>, m: Session)
    requires (c.selection.NearestNeighbor? || c.selection.BroadenRange?) && |c.attribs| >= 2 && |m.attribs| >= 2
    ensures var t: int := Target(c);
            Key(OrderOf(c, source), m) == Abs(t - m.attribs[1])
  {
  }

  /** By the progress score of the session that is looked for. */
  lemma NearestByProgress(s: Store, c: Criterion, range: Range, source: Option<Session>, found: nat, page: seq<nat>)
    requires PageOf(s, c, range, source, found, page) && FieldsWellFormed(c)
    requires c.selection.ProgressScore? && source.Some?
    ensures forall i :: 0 <= i < |page| ==> page[i] in s.sessions
    ensures var p: int := source.value.progressScore;
            forall i, j :: 0 <= i < j < |page| ==>
              var x, y := s.sessions[page[i]], s.sessions[page[j]];
              Abs(p - x.progressScore) <= Abs(p - y.progressScore)
    ensures ForOne(c, range, found) && page != [] ==>
              var p: int := source.value.progressScore;
              forall gid :: JoinedRow(s, gid) && Accepts(c, RowOf(s, gid)) ==>
                var x, y := s.sessions[page[0]], s.sessions[gid];
                Abs(p - x.progressScore) <= Abs(p - y.progressScore)
  {
    var p: int := source.value.progressScore;
    PageByKey(s, c, range, source, found, page);
    hide *;
    forall i, j | 0 <= i < j < |page|
      ensures var x, y := s.sessions[page[i]], s.sessions[page[j]];
              Abs(p - x.progressScore) <= Abs(p - y.progressScore)
    {
      NearestByProgressKey(c, source, s.sessions[page[i]]);
      NearestByProgressKey(c, source, s.sessions[page[j]]);
    }
    if ForOne(c, range, found) && page != [] {
      forall gid | JoinedRow(s, gid) && Accepts(c, RowOf(s, gid))
        ensures var x, y := s.sessions[page[0]], s.sessions[gid];
                Abs(p - x.progressScore) <= Abs(p - y.progressScore)
      {
        NearestByProgressKey(c, source, s.sessions[page[0]]);
        NearestByProgressKey(c, source, s.sessions[gid]);
      }
    }
  }

  lemma NearestByProgressKey(c: Criterion, source: Option<Session>, m: Session)
    requires c.selection.ProgressScore? && source.Some?
    ensures var p: int := source.value.progressScore;
            Key(OrderOf(c, source), m) == Abs(p - m.progressScore)
  {
  }

  /** By attribute 1 and progress score in one sum, whose parts may cancel out. */
  lemma NearestBySum(s: Store, c: Criterion, range: Range, source: Option<Session>, found: nat, page: seq<nat>)
    requires PageOf(s, c, range, source, found, page) && FieldsWellFormed(c)
    requires c.selection.BroadenRangeWithProgressScore? && source.Some? && (|c.attribs| >= 2 ==> c.attribs[1] != "")
    ensures |c.attribs| >= 2
    ensures forall i :: 0 <= i < |page| ==> page[i] in s.sessions && |s.sessions[page[i]].attribs| >= 2
    ensures var t: int, p: int := Target(c), source.value.progressScore;
            forall i, j :: 0 <= i < j < |page| ==>
              var x, y := s.sessions[page[i]], s.sessions[page[j]];
              Abs(t - x.attribs[1] + p - x.progressScore) <= Abs(t - y.attribs[1] + p - y.progressScore)
    ensures ForOne(c, range, found) && page != [] ==>
              var t: int, p: int := Target(c), source.value.progressScore;
              forall gid :: JoinedRow(s, gid) && Accepts(c, RowOf(s, gid)) ==>
                var x, y := s.sessions[page[0]], s.sessions[gid];
                && |y.attribs| >= 2
                && Abs(t - x.attribs[1] + p - x.progressScore) <= Abs(t - y.attribs[1] + p - y.progressScore)
  {
    assert |c.attribs| >= 2;
    var t: int, p: int := Target(c), source.value.progressScore;
    PageByKey(s, c, range, source, found, page);
    hide *;
    forall i, j | 0 <= i < j < |page|
      ensures var x, y := s.sessions[page[i]], s.sessions[page[j]];
              Abs(t - x.attribs[1] + p - x.progressScore) <= Abs(t - y.attribs[1] + p - y.progressScore)
    {
      NearestBySumKey(c, source, s.sessions[page[i]]);
      NearestBySumKey(c, source, s.sessions[page[j]]);
    }
    if ForOne(c, range, found) && page != [] {
      forall gid | JoinedRow(s, gid) && Accepts(c, RowOf(s, gid))
        ensures var x, y := s.sessions[page[0]], s.sessions[gid];
                && |y.attribs| >= 2
                && Abs(t - x.attribs[1] + p - x.progressScore) <= Abs(t - y.attribs[1] + p - y.progressScore)
      {
        NearestBySumKey(c, source, s.sessions[page[0]]);
        NearestBySumKey(c, source, s.sessions[gid]);
      }
    }
  }

  lemma NearestBySumKey(c: Criterion, source: Option<Session>, m: Session)
    requires c.selection.BroadenRangeWithProgressScore? && source.Some?
    requires |c.attribs| >= 2 && c.attribs[1] != "" && |m.attribs| >= 2
    ensures var t: int, p: int := Target(c), source.value.progressScore;
            Key(OrderOf(c, source), m) == Abs(t - m.attribs[1] + p - m.progressScore)
  {
  }

  /** The number of a criterion is the one printed in its second attribute, and 0 when that is no number or too large. */
  lemma TargetMeans(c: Criterion, n: nat)
    requires |c.attribs| >= 2
    ensures c.attribs[1] == Text(n) ==> Target(c) == if n < 0x1_0000_0000 then n else 0
    ensures c.attribs[1] == "" || !AllDigits(c.attribs[1]) ==> Target(c) == 0
  {
    TextReads(n);
  }

  /** Indexing panics exactly for a well-formed criterion that needs attribute 1 and has fewer than two. */
  lemma PanicsExactly(c: Criterion, source: Option<Session>)
    ensures Panics(c, source) <==>
              && FieldsWellFormed(c) && |c.attribs| < 2
              && (|| c.selection.NearestNeighbor? || c.selection.BroadenRange?
                  || (c.selection.BroadenRangeWithProgressScore? && source.Some?))
  {
  }

  /** The progress methods need a session that is looked for. */
  lemma ProgressNeedsSource(s: Store, c: Criterion, range: Range, found: nat, page: seq<nat>)
    requires PageOf(s, c, range, None, found, page)
    requires c.selection.ProgressScore? || c.selection.BroadenRangeWithProgressScore?
    ensures page == []
  {
  }

  // ---- Which criterion wins -----------------------------------------------------------------

  ghost function Matching(s: Store, c: Criterion): (gids: set<nat>)
  {
    set gid | gid in s.gatherings && JoinedRow(s, gid) && Accepts(c, RowOf(s, gid))
  }

  /** How many matches a criterion skips when the shared range skips none. */
  function Skips(c: Criterion): (n: nat)
  {
    if c.range.length != 0 then c.range.offset else 0
  }

  /** A criterion that can contribute: it takes part, and more sessions meet it than it skips. */
  ghost predicate HasMatch(s: Store, c: Criterion, source: Option<Session>)
  {
    Usable(c, source) && |Matching(s, c)| > Skips(c)
  }

  /**
   With room for one result, the reply starts with a session of the earliest criterion that has
   a match, and ends there unless a criterion has a range of its own.
   */
  lemma EarliestWins(s: Store, cs: seq<Criterion>, source: Option<Session>, pages: seq<seq<nat>>)
    requires forall i :: 0 <= i < |cs| ==> cs[i].vacantOnly
    requires Answers(s, cs, Range(0, 1), source, pages)
    ensures Flatten(pages) == [] <==> forall i :: 0 <= i < |cs| ==> !HasMatch(s, cs[i], source)
    ensures Flatten(pages) != [] ==> exists i :: FromEarliest(s, cs, source, Flatten(pages)[0], i)
    ensures (forall i :: 0 <= i < |cs| ==> cs[i].range.length == 0) ==> |Flatten(pages)| <= 1
  {
    hide PageOf, HasMatch, Accepts, JoinedRow, Usable;
    assert pages[..|cs|] == pages;
    EarliestStarts(s, cs, source, pages, |cs|);
    if forall i :: 0 <= i < |cs| ==> cs[i].range.length == 0 {
      AtMostLength(s, cs, Range(0, 1), source, pages, |cs|);
    }
  }

  /** `results`, from the first `n` criteria, start with the earliest of them that has a match. */
  ghost predicate StartsEarliest(s: Store, cs: seq<Criterion>, source: Option<Session>, results: seq<nat>, n: nat)
  {
    if results == [] then forall i :: 0 <= i < n <= |cs| ==> !HasMatch(s, cs[i], source)
    else exists i :: 0 <= i < n && FromEarliest(s, cs, source, results[0], i)
  }

  lemma {:induction false} EarliestStarts(s: Store, cs: seq<Criterion>, source: Option<Session>,
                                          pages: seq<seq<nat>>, n: nat)
    requires forall i :: 0 <= i < |cs| ==> cs[i].vacantOnly
    requires Answers(s, cs, Range(0, 1), source, pages) && n <= |cs|
    ensures StartsEarliest(s, cs, source, Flatten(pages[..n]), n)
  {
    hide PageOf, HasMatch, FromEarliest;
    if n > 0 {
      EarliestStarts(s, cs, source, pages, n - 1);
      var before, page := Flatten(pages[..n - 1]), pages[n - 1];
      FlattenStep(pages, n - 1);
      assert PageOf(s, cs[n - 1], Range(0, 1), source, |before|, page);
      hide Flatten, Answers, StartsEarliest;
      EarliestStep(s, cs, source, before, page, n - 1);
    }
  }

  lemma EarliestStep(s: Store, cs: seq<Criterion>, source: Option<Session>, before: seq<nat>, page: seq<nat>, k: nat)
    requires k < |cs| && cs[k].vacantOnly && StartsEarliest(s, cs, source, before, k)
    requires PageOf(s, cs[k], Range(0, 1), source, |before|, page)
    ensures StartsEarliest(s, cs, source, before + page, k + 1)
  {
    hide PageOf, HasMatch, FromEarliest, Accepts, JoinedRow;
    if before == [] {
      FirstPage(s, cs[k], source, page);
      if page != [] {
        FromEarliestHere(s, cs, source, page[0], k);
        assert (before + page)[0] == page[0];
      }
    } else {
      assert (before + page)[0] == before[0];
    }
  }

  lemma FlattenStep(pages: seq<seq<nat>>, k: nat)
    requires k < |pages|
    ensures Flatten(pages[..k + 1]) == Flatten(pages[..k]) + pages[k]
  {
    assert pages[..k + 1][..k] == pages[..k];
  }

  lemma FromEarliestHere(s: Store, cs: seq<Criterion>, source: Option<Session>, gid: nat, k: nat)
    requires k < |cs| && HasMatch(s, cs[k], source) && JoinedRow(s, gid) && Accepts(cs[k], RowOf(s, gid))
    requires forall i :: 0 <= i < k ==> !HasMatch(s, cs[i], source)
    ensures FromEarliest(s, cs, source, gid, k)
  {
  }

  /** The session `gid` meets criterion `i`, and no earlier criterion can contribute. */
  ghost predicate FromEarliest(s: Store, cs: seq<Criterion>, source: Option<Session>, gid: nat, i: int)
  {
    && 0 <= i < |cs| && HasMatch(s, cs[i], source) && JoinedRow(s, gid) && Accepts(cs[i], RowOf(s, gid))
    && forall j :: 0 <= j < i ==> !HasMatch(s, cs[j], source)
  }

  lemma FirstPage(s: Store, c: Criterion, source: Option<Session>, page: seq<nat>)
    requires c.vacantOnly && PageOf(s, c, Range(0, 1), source, 0, page)
    ensures page == [] <==> !HasMatch(s, c, source)
    ensures page != [] ==> JoinedRow(s, page[0]) && Accepts(c, RowOf(s, page[0]))
  {
    if Usable(c, source) {
      var limit := LimitFor(c, Range(0, 1), 0);
      var ids :| Ordered(s, ids, OrderOf(c, source))
        && (forall gid :: gid in ids <==> JoinedRow(s, gid) && Accepts(c, RowOf(s, gid)))
        && page == Scanned(s, Window(ids, limit.offset, limit.length));
      DistinctSize(ids, Matching(s, c));
      WindowMembers(ids, limit.offset, limit.length);
      AllScanned(s, Window(ids, limit.offset, limit.length));
    }
  }

  lemma WindowMembers(ids: seq<nat>, offset: nat, length: nat)
    ensures forall gid :: gid in Window(ids, offset, length) ==> gid in ids
    ensures length > 0 ==> (Window(ids, offset, length) == [] <==> |ids| <= offset)
    ensures forall i :: 0 <= i < |Window(ids, offset, length)| ==> Window(ids, offset, length)[i] in ids
  {
  }

  lemma {:induction false} AllScanned(s: Store, ids: seq<nat>)
    requires forall gid :: gid in ids ==> gid in s.gatherings && s.gatherings[gid].participants != []
    ensures Scanned(s, ids) == ids
  {
    if ids != [] {
      AllScanned(s, ids[..|ids| - 1]);
    }
  }

  lemma {:induction false} DistinctSize(ids: seq<nat>, gids: set<nat>)
    requires forall i, j :: 0 <= i < j < |ids| ==> ids[i] != ids[j]
    requires forall gid :: gid in gids <==> gid in ids
    ensures |gids| == |ids|
  {
    if ids == [] {
      assert gids == {};
    } else {
      var front, last := ids[..|ids| - 1], ids[|ids| - 1];
      DistinctSize(front, gids - {last});
    }
  }

  // ---- A limit that wraps ---------------------------------------------------------------------

  /** A criterion that asks nothing, with a range of its own. */
  function Anything(range: Range): (c: Criterion)
  {
    Criterion(["", "", "", "", "", ""], "", "", "", "", true, 0, false, false, false, false, Random, 0, "", range)
  }

  function TwoSessions(terms: Terms, m: Session): (s: Store)
  {
    Store(map[1 := Gathering(MatchmakeSession, 1, 1, terms, true, [1]), 2 := Gathering(MatchmakeSession, 2, 2, terms, true, [2])],
          map[1 := m, 2 := m], {}, map[], 3, [])
  }

  /** A criterion with room for two of its own, and one that shares room for one: every session is returned twice. */
  lemma OwnRangeMakesLimitWrap(terms: Terms, m: Session)
    requires terms.maxParticipants > 1 && |m.attribs| == 6 && m.referGid == 0 && m.codeword == ""
    ensures var cs, pages := [Anything(Range(0, 2)), Anything(Range(0, 0))], [[1, 2], [1, 2]];
            && Answers(TwoSessions(terms, m), cs, Range(0, 1), None, pages)
            && LimitFor(cs[1], Range(0, 1), |pages[0]|).length == UINT32 - 1
            && Flatten(pages) == [1, 2, 1, 2]
  {
    hide PageOf;
    var cs: seq<Criterion>, pages: seq<seq<nat>> := [Anything(Range(0, 2)), Anything(Range(0, 0))], [[1, 2], [1, 2]];
    TwoSessionsVacant(terms, m);
    AnythingPage(TwoSessions(terms, m), Range(0, 2), 0);
    AnythingPage(TwoSessions(terms, m), Range(0, 0), 2);
    assert pages[..1] == [[1, 2]] && pages[..1][..0] == [];
    assert Flatten(pages[..1]) == [1, 2];
  }

  /** Both sessions have a vacancy and answer a criterion that asks nothing. */
  ghost predicate TwoVacancies(s: Store)
  {
    && s.gatherings.Keys == {1, 2} && s.sessions.Keys == {1, 2}
    && forall gid :: gid in s.gatherings ==> Accepts(Anything(Range(0, 0)), RowOf(s, gid))
  }

  lemma TwoSessionsVacant(terms: Terms, m: Session)
    requires terms.maxParticipants > 1 && |m.attribs| == 6 && m.referGid == 0 && m.codeword == ""
    ensures TwoVacancies(TwoSessions(terms, m))
  {
    var s, c := TwoSessions(terms, m), Anything(Range(0, 0));
    forall gid | gid in s.gatherings ensures Accepts(c, RowOf(s, gid)) {
      assert Base(c, RowOf(s, gid));
    }
  }

  lemma RangeIrrelevant(row: Row, range: Range)
    requires Accepts(Anything(Range(0, 0)), row)
    ensures Accepts(Anything(range), row) && row.g.participants != []
  {
  }

  lemma AnythingPage(s: Store, range: Range, found: nat)
    requires TwoVacancies(s)
    requires LimitFor(Anything(range), Range(0, 1), found).offset == 0
    requires LimitFor(Anything(range), Range(0, 1), found).length >= 2
    ensures PageOf(s, Anything(range), Range(0, 1), None, found, [1, 2])
  {
    hide Accepts, LimitFor;
    var c, ids := Anything(range), [1, 2];
    RangeIrrelevant(RowOf(s, 1), range);
    RangeIrrelevant(RowOf(s, 2), range);
    assert Usable(c, None);
    assert Ordered(s, ids, OrderOf(c, None));
    assert Window(ids, 0, LimitFor(c, Range(0, 1), found).length) == ids;
    AllScanned(s, ids);
  }
}
