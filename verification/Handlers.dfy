/**
 The server brought, request by request, into the states that `Safety` names as
 the exceptions to membership and slot order, and into a refusal for want of seats.
 */
module Handlers {
  import opened Participants
  import opened Tables
  import opened Actions
  import opened Departures
  import opened Invariants
  import opened Requests
  import opened Safety
  import opened Criteria
  import opened Search
  import opened Manager

  lemma NoSessions(s: Store, p: Pid, ids: seq<nat>)
    requires SessionsListing(s, p, ids)
    requires forall gid :: gid in s.gatherings ==> p !in s.gatherings[gid].participants
    ensures ids == []
  {
    if ids != [] {
      HasMember(ids);
    }
  }

  lemma HasMember(ids: seq<nat>)
    requires ids != []
    ensures exists gid :: gid in ids
  {
    assert ids[0] in ids;
  }

  function SomeOffer(terms: Terms): (offer: Offer)
  {
    Offer(true, terms, SOME_SESSION, "", 0, 0)
  }

  /** Player 1 opens a session. */
  method OpenSolo(terms: Terms) returns (m: MatchmakingManager)
    requires terms.maxParticipants <= INT32_MAX
    ensures fresh(m) && m.Valid() && m.State() == SoloStore(terms)
  {
    hide Inv, Run;
    m := new MatchmakingManager();
    var made, ended, _ := m.OpenSession(1, SomeOffer(terms), "", 1);
    NoSessions(EMPTY, 1, ended);
    assert Copies(1, 1) == [1];
  }

  /** Player 2 joins it by its id. */
  method OpenPair(terms: Terms) returns (m: MatchmakingManager)
    requires terms.maxParticipants <= INT32_MAX && terms.maxParticipants != 1
    ensures fresh(m) && m.Valid() && m.State() == PairStore(terms)
  {
    m := OpenSolo(terms);
    SoloRun(terms);
    hide SoloStore;
    assert Copies(2, 1) == [2];
    var joined, _ := m.JoinById(2, 1, "", 1);
  }

  /** The owner leaves a session that outlives its players. */
  method OwnerLeavesPair(terms: Terms) returns (m: MatchmakingManager)
    requires terms.maxParticipants <= INT32_MAX && terms.maxParticipants != 1 && SurvivesEmpty(terms)
    ensures fresh(m) && m.Valid() && m.State() == AfterOwnerLeft(terms)
  {
    m := OpenPair(terms);
    PairRun(terms);
    var left, _ := m.EndParticipation(1, 1, "");
  }

  /** Player 2 claims the ownership. */
  method GuestClaimsPair(terms: Terms) returns (m: MatchmakingManager)
    requires terms.maxParticipants <= INT32_MAX && terms.maxParticipants != 1 && terms.flags.participantsChangeOwner
    ensures fresh(m) && m.Valid() && m.State() == AfterOwnerClaim(terms)
  {
    m := OpenPair(terms);
    PairRun(terms);
    var claimed, _ := m.ClaimSession(2, 1, true);
  }

  function Seeking(seats: nat): (c: Criterion)
  {
    Anything(Range(0, 0)).(vacantParticipants := seats)
  }

  /** One player in a session with room for `free` more: it meets a criterion for that many seats, or fewer. */
  lemma SoloMatches(terms: Terms, seats: nat, free: nat)
    requires 0 < seats && terms.maxParticipants == 1 + free <= INT32_MAX
    ensures Matching(SoloStore(terms), Seeking(seats)) == if seats <= free then {1} else {}
  {
    SoloRun(terms);
    var s, c := SoloStore(terms), Seeking(seats);
    assert s.gatherings.Keys == {1};
    hide SoloStore;
    assert Base(c, RowOf(s, 1));
    assert Accepts(c, RowOf(s, 1)) <==> seats <= free;
  }

  lemma SeekingUsable(a: nat, b: nat, source: Option<Session>)
    ensures Usable(Seeking(a), source) && Usable(Seeking(b), source)
    ensures !AnyPanics([Seeking(a), Seeking(b)], source)
  {
  }

  /** A criterion for `a` seats has no match in that session's store, one for `b` seats has. */
  lemma OneMatch(terms: Terms, source: Option<Session>, a: nat, b: nat, pages: seq<seq<nat>>)
    requires 0 < b < a < 0x1_0000 && terms.maxParticipants == 1 + b
    requires Answers(SoloStore(terms), [Seeking(a), Seeking(b)], Range(0, 1), source, pages)
    ensures FirstOf(Flatten(pages)) == Some(1)
  {
    var s, cs := SoloStore(terms), [Seeking(a), Seeking(b)];
    SoloMatches(terms, a, b);
    SoloMatches(terms, b, b);
    SeekingUsable(a, b, source);
    assert HasMatch(s, cs[1], source) && !HasMatch(s, cs[0], source);
    hide Answers, HasMatch, Matching, Accepts, SoloStore;
    EarliestWins(s, cs, source, pages);
    var i :| FromEarliest(s, cs, source, Flatten(pages)[0], i);
    assert i == 1;
    MatchIsIn(s, cs[1], Flatten(pages)[0]);
  }

  lemma MatchIsIn(s: Store, c: Criterion, gid: nat)
    requires JoinedRow(s, gid) && Accepts(c, RowOf(s, gid))
    ensures gid in Matching(s, c)
  {
  }

  /** The first two steps of the request change nothing. */
  lemma NothingEnds(terms: Terms, ended: seq<nat>)
    requires terms.maxParticipants <= INT32_MAX && SessionsListing(SoloStore(terms), 2, ended)
    ensures ExitAll(SoloStore(terms), ended, 2, Leaving) == SoloStore(terms)
  {
    SoloRun(terms);
    assert SoloStore(terms).gatherings.Keys == {1};
    NoSessions(SoloStore(terms), 2, ended);
  }

  lemma SoloTooSmall(terms: Terms, a: nat, b: nat)
    requires 0 < b < a < 0x1_0000 && terms.maxParticipants == 1 + b
    ensures 1 in SoloStore(terms).sessions && !Locked(SoloStore(terms), Some(1))
    ensures Overfills(SoloStore(terms), 1, PartyOf([Seeking(a), Seeking(b)]))
  {
    SoloRun(terms);
    hide SoloStore;
    assert PartyOf([Seeking(a), Seeking(b)]) == a;
  }

  lemma SearchEndsFull(terms: Terms, a: nat, b: nat, m: Session, pages: seq<seq<nat>>, r: Result<(nat, nat)>, after: Store)
    requires 0 < b < a < 0x1_0000 && terms.maxParticipants == 1 + b
    requires SearchOutcome(SoloStore(terms), 2, [Seeking(a), Seeking(b)], terms, m, pages, r, after)
    ensures r == Err(SessionFull) && after == SoloStore(terms)
  {
    hide *;
    var s, cs := SoloStore(terms), [Seeking(a), Seeking(b)];
    SeekingUsable(a, b, Some(m));
    OutcomeAnswers(s, 2, cs, terms, m, pages, r, after);
    OneMatch(terms, Some(m), a, b, pages);
    SoloTooSmall(terms, a, b);
    OutcomeFull(s, 2, cs, terms, m, pages, r, after, 1);
  }

  /**
   Player 2 brings `a` players and asks for vacancies only; the session that the second criterion
   finds has no room for them, and the request ends there.
   */
  method VacancyNotEnough(terms: Terms, a: nat, b: nat) returns (m: MatchmakingManager, r: Result<(nat, nat)>)
    requires 0 < b < a < 0x1_0000 && terms.maxParticipants == 1 + b
    ensures fresh(m) && m.Valid() && m.State() == SoloStore(terms) && r == Err(SessionFull)
  {
    hide SearchOutcome, SoloStore, Inv, Run, ExitAll, SessionsListing, PlaysOnly, PlayingIn, Seeking;
    m := OpenSolo(terms);
    var cs := [Seeking(a), Seeking(b)];
    var answer, ended, pages, _ := m.AutoMatchmakeWithCriteria(2, cs, SomeOffer(terms), "");
    NothingEnds(terms, ended);
    var sought := SOME_SESSION.(gameMode := CanonicalGameMode(SOME_SESSION.gameMode));
    SearchEndsFull(terms, a, b, sought, pages, answer, m.State());
    r := answer;
  }
}
