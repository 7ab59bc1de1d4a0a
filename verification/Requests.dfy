/**
 What the handlers check before they change anything, and what they answer.
 */
module Requests {
  import opened Participants
  import opened Tables
  import opened Actions
  import opened Departures
  import opened Invariants

  const MESSAGE_MAX: nat := 256

  /** `MatchmakeSystemTypePersistentGathering`: the session counts towards a community. */
  const ATTACHED: nat := 5

  /** The gathering object of a request, as far as the server looks at it. */
  datatype Offer = Offer(
    isMatchmakeSession: bool,
    terms: Terms,
    session: Session,
    description: string,
    applicationBufferLength: nat,
    sessionKeyLength: nat)

  /** `CheckValidMatchmakeSession`. */
  predicate ValidSession(offer: Offer)
  {
    && |offer.description| <= 256
    && |offer.session.attribs| == 6
    && offer.session.progressScore <= 100
    && |offer.session.userPassword| <= 32
    && |offer.session.codeword| <= 256
    && offer.applicationBufferLength <= 512
    && offer.sessionKeyLength <= 512
  }

  datatype CommunityType = Open | PasswordLocked | OtherType

  /** The community object of a request, as far as the server looks at it; a date of 0 means no bound. */
  datatype Community = Community(
    terms: Terms,
    description: string,
    communityType: CommunityType,
    password: string,
    attribs: seq<nat>,
    applicationBufferLength: nat,
    startDate: nat,
    endDate: nat)

  /** `CheckValidPersistentGathering`, at the time `now`. */
  predicate ValidCommunity(c: Community, now: nat)
  {
    && |c.description| <= 256
    && !c.communityType.OtherType?
    && |c.password| <= 32
    && |c.attribs| == 6
    && c.applicationBufferLength <= 512
    && (c.startDate != 0 ==> c.startDate <= now)
    && (c.endDate != 0 ==> now <= c.endDate)
  }

  lemma InvalidCommunity(c: Community, now: nat)
    ensures !ValidCommunity(c, now) <==>
            || |c.description| > 256 || |c.password| > 32 || |c.attribs| != 6
            || c.applicationBufferLength > 512 || c.communityType.OtherType?
            || (c.startDate != 0 && c.startDate > now)
            || (c.endDate != 0 && c.endDate < now)
  {
  }

  /** What is stored of an offered session: the system password is not taken from the client. */
  function Stored(m: Session): (stored: Session)
  {
    m.(systemPasswordEnabled := false, systemPassword := "")
  }

  /** `GetMatchmakeSessionByID`: an empty session has a NULL count, which fails the scan. */
  function Loaded(s: Store, gid: nat): (r: Result<Session>)
  {
    if !Live(s, gid) || !s.gatherings[gid].kind.MatchmakeSession? || gid !in s.sessions then Err(SessionVoid)
    else if s.gatherings[gid].participants == [] then Err(Unknown)
    else Ok(s.sessions[gid])
  }

  /** `CheckGatheringForParticipation`, when a gathering to check was named. */
  function ParticipationCheck(s: Store, gid: nat, pids: seq<Pid>): (r: Result<()>)
  {
    if gid == 0 then Ok(())
    else if !Live(s, gid) then Err(SessionVoid)
    else if forall i :: 0 <= i < |pids| ==> pids[i] in s.gatherings[gid].participants then Ok(())
    else Err(NotParticipated)
  }

  /** All matchmake sessions that list `p`, registered or not, in the order the database gives them. */
  ghost predicate SessionsListing(s: Store, p: Pid, ids: seq<nat>)
  {
    && Distinct(ids)
    && forall gid :: gid in ids <==>
         gid in s.gatherings && s.gatherings[gid].kind.MatchmakeSession? && p in s.gatherings[gid].participants
  }

  /** All registered gatherings that list `p`. */
  ghost predicate GatheringsListing(s: Store, p: Pid, ids: seq<nat>)
  {
    && Distinct(ids)
    && forall gid :: gid in ids <==> Live(s, gid) && p in s.gatherings[gid].participants
  }

  // ---- Joining ----------------------------------------------------------------------------

  /** A request for no participants brings the caller alone. */
  function Party(vacant: nat): (k: nat)
    ensures k > 0
  {
    if vacant == 0 then 1 else vacant
  }

  /** The answer of JoinGathering, with its uint32 arithmetic. A maximum of 0 means no limit. */
  function JoinVerdict(s: Store, gid: nat, p: Pid, k: nat): (r: Result<nat>)
  {
    if gid !in s.gatherings then Err(SessionVoid) else
    var g := s.gatherings[gid];
    if g.terms.maxParticipants != 0 && (|g.participants| % UINT32 + k) % UINT32 > g.terms.maxParticipants
    then Err(SessionFull)
    else if p in g.participants then Err(AlreadyParticipated)
    else Ok((|g.participants| + k) % UINT32)
  }

  /** Whom JoinGatheringWithParticipants appends. */
  function Newcomers(p: Pid, guests: seq<Pid>, alreadyJoined: bool): (ps: seq<Pid>)
    ensures |guests| <= |ps| <= 1 + |guests|
    ensures !alreadyJoined ==> ps != [] && ps[0] == p
  {
    if alreadyJoined then guests else [p] + guests
  }

  /** The answer of JoinGatheringWithParticipants. A maximum of 0 means always full. */
  function GroupVerdict(s: Store, gid: nat, p: Pid, guests: seq<Pid>, alreadyJoined: bool): (r: Result<nat>)
  {
    if gid !in s.gatherings then Err(SessionVoid) else
    var g := s.gatherings[gid];
    if (|g.participants| + 1 + |guests|) % UINT32 > g.terms.maxParticipants then Err(SessionFull)
    else if alreadyJoined && p !in g.participants then Err(NotParticipated)
    else if !alreadyJoined && p in g.participants then Err(AlreadyParticipated)
    else Ok((|g.participants| + |Newcomers(p, guests, alreadyJoined)|) % UINT32)
  }

  /** On a sound row the uint32 sum of JoinGathering cannot wrap: it tests the true population. */
  lemma JoinTestExactly(s: Store, gid: nat, p: Pid, k: nat)
    requires gid in s.gatherings && RowOk(s.gatherings[gid]) && k < 0x1_0000
    ensures var g := s.gatherings[gid];
            JoinVerdict(s, gid, p, k) == Err(SessionFull) <==>
            g.terms.maxParticipants != 0 && |g.participants| + k > g.terms.maxParticipants
  {
  }

  /** So the whole answer is about the true population, and a listed player is never admitted. */
  lemma JoinVerdictMeans(s: Store, gid: nat, p: Pid, k: nat)
    requires gid in s.gatherings && RowOk(s.gatherings[gid]) && k < 0x1_0000
    ensures var g := s.gatherings[gid];
            JoinVerdict(s, gid, p, k) ==
            if g.terms.maxParticipants != 0 && |g.participants| + k > g.terms.maxParticipants then Err(SessionFull)
            else if p in g.participants then Err(AlreadyParticipated)
            else Ok((|g.participants| + k) % UINT32)
  {
    JoinTestExactly(s, gid, p, k);
  }

  /** The other join path tests the true population too, for guest lists below 2^31. */
  lemma GroupTestExactly(s: Store, gid: nat, p: Pid, guests: seq<Pid>, alreadyJoined: bool)
    requires gid in s.gatherings && RowOk(s.gatherings[gid]) && |guests| < INT32_MAX
    requires s.gatherings[gid].terms.maxParticipants != 0
    ensures var g := s.gatherings[gid];
            GroupVerdict(s, gid, p, guests, alreadyJoined) == Err(SessionFull) <==>
            |g.participants| + 1 + |guests| > g.terms.maxParticipants
  {
  }

  /** Beyond that, a group join overfills a sound gathering exactly when the uint32 sum wraps below its maximum. */
  lemma GroupTestWraps(s: Store, gid: nat, p: Pid, guests: seq<Pid>, alreadyJoined: bool)
    requires gid in s.gatherings && RowOk(s.gatherings[gid])
    ensures var g := s.gatherings[gid];
            var sum := |g.participants| + 1 + |guests|;
            sum > g.terms.maxParticipants && GroupVerdict(s, gid, p, guests, alreadyJoined) != Err(SessionFull) <==>
            sum >= UINT32 && sum % UINT32 <= g.terms.maxParticipants
  {
  }

  /** A join into a session that is populated, or by its owner, is an enabled action. */
  lemma AppendEnabled(s: Store, gid: nat, p: Pid, newcomers: seq<Pid>)
    requires Live(s, gid) && s.gatherings[gid].kind.MatchmakeSession?
    requires s.gatherings[gid].participants == [] ==> newcomers != [] && newcomers[0] == s.gatherings[gid].owner
    requires var g := s.gatherings[gid];
             g.terms.maxParticipants != 0 ==> |g.participants| + |newcomers| <= g.terms.maxParticipants
    ensures Enabled(s, Append(gid, p, newcomers))
  {
  }

  function JoinedSession(s: Store, gid: nat, m: Session, p: Pid, k: nat): (s': Store)
    requires gid in s.gatherings && m.attribs != []
  {
    var s1 := Apply(s, Append(gid, p, Copies(p, k)));
    if m.systemType == ATTACHED then Apply(s1, Count(p, m.attribs[0], gid)) else s1
  }

  function CountedAll(s: Store, ps: seq<Pid>, community: nat, gid: nat): (s': Store)
  {
    if ps == [] then s
    else Apply(CountedAll(s, ps[..|ps| - 1], community, gid), Count(ps[|ps| - 1], community, gid))
  }

  function CountActions(ps: seq<Pid>, community: nat, gid: nat): (actions: seq<Action>)
  {
    if ps == [] then []
    else CountActions(ps[..|ps| - 1], community, gid) + [Count(ps[|ps| - 1], community, gid)]
  }

  lemma {:induction false} CountedAllRuns(s: Store, ps: seq<Pid>, community: nat, gid: nat)
    ensures Run(s, CountActions(ps, community, gid), CountedAll(s, ps, community, gid))
    ensures CountedAll(s, ps, community, gid).gatherings == s.gatherings
    ensures CountedAll(s, ps, community, gid).sessions == s.sessions
  {
    if ps != [] {
      var front, p := ps[..|ps| - 1], ps[|ps| - 1];
      CountedAllRuns(s, front, community, gid);
      RunStep(s, CountActions(front, community, gid), CountedAll(s, front, community, gid), Count(p, community, gid));
    }
  }

  /** The stored participation count of a player in a community. */
  function CountOf(counts: map<(Pid, nat), nat>, p: Pid, community: nat): (n: nat)
  {
    if (p, community) in counts then counts[(p, community)] else 0
  }

  /** Counting a list raises each player's count in that community by the times the player is listed, and no other. */
  lemma {:induction false} CountedAllCounts(s: Store, ps: seq<Pid>, community: nat, gid: nat, q: Pid, c: nat)
    ensures CountOf(CountedAll(s, ps, community, gid).participations, q, c) ==
            CountOf(s.participations, q, c) + if c == community then multiset(ps)[q] else 0
  {
    if ps != [] {
      var front, p := ps[..|ps| - 1], ps[|ps| - 1];
      CountedAllCounts(s, front, community, gid, q, c);
      CountedOnce(CountedAll(s, front, community, gid), p, community, gid, q, c);
      assert CountedAll(s, ps, community, gid) == Apply(CountedAll(s, front, community, gid), Count(p, community, gid));
      hide CountedAll, Apply, CountOf;
      assert ps == front + [p];
    }
  }

  lemma CountedOnce(s: Store, p: Pid, community: nat, gid: nat, q: Pid, c: nat)
    ensures CountOf(Apply(s, Count(p, community, gid)).participations, q, c) ==
            CountOf(s.participations, q, c) + if c == community && q == p then 1 else 0
  {
  }

  lemma CountedAllEverywhere(s: Store, ps: seq<Pid>, community: nat, gid: nat)
    ensures CountedAll(s, ps, community, gid).gatherings == s.gatherings
    ensures forall q, c :: CountOf(CountedAll(s, ps, community, gid).participations, q, c) ==
              CountOf(s.participations, q, c) + if c == community then multiset(ps)[q] else 0
  {
    CountedAllRuns(s, ps, community, gid);
    forall q, c
      ensures CountOf(CountedAll(s, ps, community, gid).participations, q, c) ==
              CountOf(s.participations, q, c) + if c == community then multiset(ps)[q] else 0
    {
      CountedAllCounts(s, ps, community, gid, q, c);
    }
  }

  lemma CountedAllStep(s: Store, ps: seq<Pid>, community: nat, gid: nat, i: nat)
    requires i < |ps|
    ensures CountedAll(s, ps[..i + 1], community, gid) ==
            Apply(CountedAll(s, ps[..i], community, gid), Count(ps[i], community, gid))
  {
    assert ps[..i + 1][..i] == ps[..i];
  }

  function JoinedGroup(s: Store, gid: nat, m: Session, p: Pid, guests: seq<Pid>, alreadyJoined: bool): (s': Store)
    requires gid in s.gatherings && m.attribs != []
  {
    var s1 := Apply(s, Append(gid, p, Newcomers(p, guests, alreadyJoined)));
    if m.systemType == ATTACHED then CountedAll(s1, guests + [p], m.attribs[0], gid) else s1
  }

  // ---- Handlers as runs ---------------------------------------------------------------------

  /** `actions` lead from a sound store `s` to `t`, which is sound as well. */
  ghost predicate Leads(s: Store, actions: seq<Action>, t: Store)
  {
    Inv(s) && Run(s, actions, t) && Inv(t)
  }

  lemma LeadsNowhere(s: Store)
    requires Inv(s)
    ensures Leads(s, [], s)
  {
  }

  lemma LeadsOn(s: Store, actions: seq<Action>, t: Store, a: Action)
    requires Leads(s, actions, t) && Enabled(t, a)
    ensures Leads(s, actions + [a], Apply(t, a))
  {
    RunStep(s, actions, t, a);
    ApplyKeepsInv(t, a);
  }

  lemma LeadsThrough(s: Store, actions: seq<Action>, t: Store, more: seq<Action>, u: Store)
    requires Leads(s, actions, t) && Run(t, more, u)
    ensures Leads(s, actions + more, u)
  {
    RunConcat(s, actions, t, more, u);
    RunKeepsInv(t, more, u);
  }

  lemma LeadsSoundly(s: Store, actions: seq<Action>, t: Store)
    requires Leads(s, actions, t)
    ensures Inv(t)
  {
  }

  lemma LeadsAfter(s: Store, actions: seq<Action>, t: Store, more: seq<Action>, u: Store)
    requires Leads(s, actions, t) && Leads(t, more, u)
    ensures Leads(s, actions + more, u)
  {
    LeadsThrough(s, actions, t, more, u);
  }

  lemma EndingLeads(s: Store, ids: seq<nat>, p: Pid, how: Departure)
    requires Inv(s)
    ensures Leads(s, ExitActions(s, ids, p, how), ExitAll(s, ids, p, how))
  {
    ExitAllRuns(s, ids, p, how);
    RunKeepsInv(s, ExitActions(s, ids, p, how), ExitAll(s, ids, p, how));
  }

  /** A session row that `p` may join: somebody is there, or `p` owns it. */
  predicate Joinable(s: Store, gid: nat, p: Pid)
  {
    && Live(s, gid) && s.gatherings[gid].kind.MatchmakeSession?
    && (s.gatherings[gid].participants == [] ==> s.gatherings[gid].owner == p)
  }

  lemma CreationLeads(s: Store, actions: seq<Action>, t: Store, p: Pid, terms: Terms, m: Session)
    requires Leads(s, actions, t) && p != 0 && terms.maxParticipants <= INT32_MAX && |m.attribs| == 6
    ensures var a := CreateSession(p, terms, Stored(m));
            && Leads(s, actions + [a], Apply(t, a))
            && t.nextId !in t.gatherings
            && Joinable(Apply(t, a), t.nextId, p)
            && Apply(t, a).gatherings[t.nextId] == Gathering(MatchmakeSession, p, p, terms, true, [])
  {
    LeadsOn(s, actions, t, CreateSession(p, terms, Stored(m)));
  }

  lemma NextIsFresh(s: Store)
    requires Inv(s)
    ensures s.nextId !in s.gatherings && s.nextId !in s.sessions
  {
  }

  lemma InvalidSession(offer: Offer)
    ensures !ValidSession(offer) <==>
            || |offer.description| > 256 || |offer.session.attribs| != 6 || offer.session.progressScore > 100
            || |offer.session.userPassword| > 32 || |offer.session.codeword| > 256
            || offer.applicationBufferLength > 512 || offer.sessionKeyLength > 512
  {
  }

  lemma JoinedRows(s: Store, gid: nat, m: Session, p: Pid, k: nat)
    requires gid in s.gatherings && m.attribs != []
    ensures var g, t := s.gatherings[gid], JoinedSession(s, gid, m, p, k);
            && t.sessions == s.sessions
            && t.gatherings == s.gatherings[gid := g.(participants := g.participants + Copies(p, k))]
  {
  }

  /** The first join of a fresh session. */
  lemma FirstJoin(s: Store, gid: nat, m: Session, p: Pid, terms: Terms, k: nat)
    requires gid in s.gatherings && s.gatherings[gid] == Gathering(MatchmakeSession, p, p, terms, true, [])
    requires 0 < k < 0x1_0000 && m.attribs != [] && PlayingIn(s, p) == {}
    ensures var fits := terms.maxParticipants == 0 || k <= terms.maxParticipants;
            && JoinVerdict(s, gid, p, k) == (if fits then Ok(k) else Err(SessionFull))
            && JoinedSession(s, gid, m, p, k).sessions == s.sessions
            && JoinedSession(s, gid, m, p, k).gatherings ==
               s.gatherings[gid := Gathering(MatchmakeSession, p, p, terms, true, Copies(p, k))]
            && PlaysOnly(JoinedSession(s, gid, m, p, k), p, gid, k)
  {
    FirstVerdict(s, gid, p, k);
    SessionSeats(s, gid, m, p, k);
    JoinedRows(s, gid, m, p, k);
    hide JoinedSession, PlaysOnly, PlayingIn, JoinVerdict, Copies;
    assert [] + Copies(p, k) == Copies(p, k);
  }

  lemma FirstVerdict(s: Store, gid: nat, p: Pid, k: nat)
    requires gid in s.gatherings && s.gatherings[gid].participants == [] && k < 0x1_0000
    ensures var max := s.gatherings[gid].terms.maxParticipants;
            JoinVerdict(s, gid, p, k) == if max == 0 || k <= max then Ok(k) else Err(SessionFull)
  {
  }

  /** A new community, which its creator joins at once. */
  lemma CommunityLeads(s: Store, p: Pid, terms: Terms)
    requires Inv(s) && p != 0 && terms.maxParticipants <= INT32_MAX && |OwnedCommunities(s, p)| < CREATION_MAX
    ensures Copies(p, 1) == [p] && [] + [p] == [p]
    ensures var t := Apply(s, CreateCommunity(p, terms));
            && JoinVerdict(t, s.nextId, p, Party(1)) == Ok(1)
            && Exists(t, Append(s.nextId, p, [p]))
            && Apply(t, Append(s.nextId, p, [p])).communities == t.communities
            && Leads(s, [CreateCommunity(p, terms), Append(s.nextId, p, [p])], Apply(t, Append(s.nextId, p, [p])))
  {
    var a, b := CreateCommunity(p, terms), Append(s.nextId, p, [p]);
    LeadsNowhere(s);
    CommunityEnabled(s, p, terms);
    hide Leads, Inv, Run, OwnedCommunities, Apply, Enabled, JoinVerdict;
    LeadsOn(s, [], s, a);
    LeadsOn(s, [] + [a], Apply(s, a), b);
    assert [] + [a] + [b] == [a, b];
  }

  lemma CommunityEnabled(s: Store, p: Pid, terms: Terms)
    requires p != 0 && terms.maxParticipants <= INT32_MAX && |OwnedCommunities(s, p)| < CREATION_MAX
    ensures Copies(p, 1) == [p] && [] + [p] == [p]
    ensures var a, b := CreateCommunity(p, terms), Append(s.nextId, p, [p]);
            && Enabled(s, a) && Exists(s, a) && Exists(Apply(s, a), b) && Enabled(Apply(s, a), b)
            && JoinVerdict(Apply(s, a), s.nextId, p, Party(1)) == Ok(1)
            && Apply(Apply(s, a), b).communities == Apply(s, a).communities
  {
    hide OwnedCommunities;
  }

  lemma LeadsToRows(s: Store, actions: seq<Action>, t: Store)
    requires Leads(s, actions, t)
    ensures RowsOk(t)
  {
  }

  lemma JoinEnabled(t: Store, gid: nat, p: Pid, k: nat)
    requires RowsOk(t) && Joinable(t, gid, p) && 0 < k < 0x1_0000 && JoinVerdict(t, gid, p, k).Ok?
    ensures Enabled(t, Append(gid, p, Copies(p, k)))
  {
    assert RowOk(t.gatherings[gid]);
    JoinTestExactly(t, gid, p, k);
    AppendEnabled(t, gid, p, Copies(p, k));
  }

  function JoinActions(gid: nat, m: Session, p: Pid, k: nat): (actions: seq<Action>)
    requires m.attribs != []
  {
    [Append(gid, p, Copies(p, k))] + if m.systemType == ATTACHED then [Count(p, m.attribs[0], gid)] else []
  }

  lemma JoinLeads(s: Store, actions: seq<Action>, t: Store, gid: nat, m: Session, p: Pid, k: nat)
    requires Leads(s, actions, t) && gid in t.gatherings && Joinable(t, gid, p) && m.attribs != [] && 0 < k < 0x1_0000
    requires JoinVerdict(t, gid, p, k).Ok?
    ensures Leads(s, actions + JoinActions(gid, m, p, k), JoinedSession(t, gid, m, p, k))
  {
    hide Leads, Inv, Run, Apply, Enabled, JoinVerdict, Joinable, RowsOk;
    var a := Append(gid, p, Copies(p, k));
    LeadsToRows(s, actions, t);
    JoinEnabled(t, gid, p, k);
    LeadsOn(s, actions, t, a);
    if m.systemType == ATTACHED {
      LeadsOn(s, actions + [a], Apply(t, a), Count(p, m.attribs[0], gid));
      assert actions + [a] + [Count(p, m.attribs[0], gid)] == actions + JoinActions(gid, m, p, k);
    } else {
      assert actions + [a] == actions + JoinActions(gid, m, p, k);
    }
  }

  function GroupActions(gid: nat, m: Session, p: Pid, guests: seq<Pid>, alreadyJoined: bool): (actions: seq<Action>)
    requires m.attribs != []
  {
    [Append(gid, p, Newcomers(p, guests, alreadyJoined))]
    + if m.systemType == ATTACHED then CountActions(guests + [p], m.attribs[0], gid) else []
  }

  lemma GroupLeads(s: Store, actions: seq<Action>, t: Store, gid: nat, m: Session, p: Pid, guests: seq<Pid>,
                   alreadyJoined: bool)
    requires Leads(s, actions, t) && gid in t.gatherings && Joinable(t, gid, p) && m.attribs != [] && |guests| < INT32_MAX
    requires GroupVerdict(t, gid, p, guests, alreadyJoined).Ok?
    ensures Leads(s, actions + GroupActions(gid, m, p, guests, alreadyJoined),
                  JoinedGroup(t, gid, m, p, guests, alreadyJoined))
  {
    hide Leads, Inv, Run, Apply, Enabled, GroupVerdict, CountedAll, CountActions, RowsOk, Joinable, Newcomers;
    var newcomers := Newcomers(p, guests, alreadyJoined);
    var a := Append(gid, p, newcomers);
    LeadsToRows(s, actions, t);
    GroupEnabled(t, gid, p, guests, alreadyJoined);
    LeadsOn(s, actions, t, a);
    if m.systemType == ATTACHED {
      CountedAllRuns(Apply(t, a), guests + [p], m.attribs[0], gid);
      var more := CountActions(guests + [p], m.attribs[0], gid);
      LeadsThrough(s, actions + [a], Apply(t, a), more, CountedAll(Apply(t, a), guests + [p], m.attribs[0], gid));
      assert actions + [a] + more == actions + GroupActions(gid, m, p, guests, alreadyJoined);
    } else {
      assert actions + [a] == actions + GroupActions(gid, m, p, guests, alreadyJoined);
    }
  }

  lemma GroupEnabled(t: Store, gid: nat, p: Pid, guests: seq<Pid>, alreadyJoined: bool)
    requires RowsOk(t) && Joinable(t, gid, p) && |guests| < INT32_MAX
    requires GroupVerdict(t, gid, p, guests, alreadyJoined).Ok?
    ensures Enabled(t, Append(gid, p, Newcomers(p, guests, alreadyJoined)))
  {
    assert RowOk(t.gatherings[gid]);
    if t.gatherings[gid].terms.maxParticipants != 0 {
      GroupTestExactly(t, gid, p, guests, alreadyJoined);
    }
    AppendEnabled(t, gid, p, Newcomers(p, guests, alreadyJoined));
  }

  // ---- The effect of ending all sessions ----------------------------------------------------

  /** The registered sessions a player takes part in. */
  function PlayingIn(s: Store, p: Pid): (ids: set<nat>)
  {
    set gid | gid in s.gatherings && s.gatherings[gid].registered
           && s.gatherings[gid].kind.MatchmakeSession? && p in s.gatherings[gid].participants
  }

  lemma EndedEverywhere(s: Store, p: Pid, ids: seq<nat>)
    requires SessionsListing(s, p, ids)
    ensures PlayingIn(ExitAll(s, ids, p, Leaving), p) == {}
    ensures var t := ExitAll(s, ids, p, Leaving);
            t == s.(gatherings := t.gatherings, log := t.log) && t.gatherings.Keys == s.gatherings.Keys
  {
    var t := ExitAll(s, ids, p, Leaving);
    ExitAllRows(s, ids, p, Leaving);
    forall gid | gid in t.gatherings && t.gatherings[gid].registered
                 && t.gatherings[gid].kind.MatchmakeSession?
      ensures p !in t.gatherings[gid].participants
    {
      if gid in ids {
        ExitAllClears(s, ids, p, Leaving, gid);
      }
    }
  }

  /** A session that is still registered has lost the player's slots, if there were any. */
  lemma EndedList(s: Store, p: Pid, ids: seq<nat>, gid: nat)
    requires SessionsListing(s, p, ids)
    requires var t := ExitAll(s, ids, p, Leaving); Live(t, gid) && t.gatherings[gid].kind.MatchmakeSession?
    ensures gid in s.gatherings
    ensures ExitAll(s, ids, p, Leaving).gatherings[gid].participants == Without(s.gatherings[gid].participants, p)
  {
    ExitAllRows(s, ids, p, Leaving);
    if p !in s.gatherings[gid].participants {
      WithoutNone(s.gatherings[gid].participants, p);
    }
  }

  /** Row by row: each registered session that lists the player is left, and no other row changes. */
  lemma EndedRows(s: Store, p: Pid, ids: seq<nat>)
    requires SessionsListing(s, p, ids)
    ensures var t := ExitAll(s, ids, p, Leaving);
            && t.gatherings.Keys == s.gatherings.Keys
            && t == s.(gatherings := t.gatherings, log := t.log)
            && forall gid :: gid in s.gatherings ==>
                 var g := s.gatherings[gid];
                 if g.registered && g.kind.MatchmakeSession? && p in g.participants then LeftBy(g, p, t.gatherings[gid])
                 else t.gatherings[gid] == g
  {
    ExitAllRows(s, ids, p, Leaving);
    hide ExitAll;
    var t := ExitAll(s, ids, p, Leaving);
    forall gid | gid in s.gatherings
      ensures var g := s.gatherings[gid];
              if g.registered && g.kind.MatchmakeSession? && p in g.participants then LeftBy(g, p, t.gatherings[gid])
              else t.gatherings[gid] == g
    {
      hide LeftBy, Departed;
      ExitAllLeaves(s, ids, p, Leaving, gid);
    }
  }

  /** Row by row: a connection's end makes the player leave every registered gathering but the persistent ones that stay. */
  lemma DroppedRows(s: Store, p: Pid, ids: seq<nat>)
    requires GatheringsListing(s, p, ids)
    ensures var t := ExitAll(s, ids, p, Dropping);
            && t.gatherings.Keys == s.gatherings.Keys
            && t == s.(gatherings := t.gatherings, log := t.log)
            && forall gid :: gid in s.gatherings ==>
                 var g := s.gatherings[gid];
                 if g.registered && p in g.participants && !g.terms.flags.persistentGathering
                    && (g.kind.PersistentGathering? ==> g.terms.flags.leaveParticipation)
                 then LeftBy(g, p, t.gatherings[gid]) else t.gatherings[gid] == g
  {
    ExitAllRows(s, ids, p, Dropping);
    hide ExitAll;
    var t := ExitAll(s, ids, p, Dropping);
    forall gid | gid in s.gatherings
      ensures var g := s.gatherings[gid];
              if g.registered && p in g.participants && !g.terms.flags.persistentGathering
                 && (g.kind.PersistentGathering? ==> g.terms.flags.leaveParticipation)
              then LeftBy(g, p, t.gatherings[gid]) else t.gatherings[gid] == g
    {
      hide LeftBy, Departed;
      ExitAllLeaves(s, ids, p, Dropping, gid);
    }
  }

  /** After the end of a connection the player is left only in gatherings that outlive it. */
  lemma DisconnectedEverywhere(s: Store, p: Pid, ids: seq<nat>, gid: nat)
    requires GatheringsListing(s, p, ids)
    requires var t := ExitAll(s, ids, p, Dropping); Live(t, gid) && p in t.gatherings[gid].participants
    ensures gid in s.gatherings && StaysOnDisconnect(s.gatherings[gid])
  {
    ExitAllRows(s, ids, p, Dropping);
    if !StaysOnDisconnect(s.gatherings[gid]) {
      if gid in ids {
        ExitAllClears(s, ids, p, Dropping, gid);
      }
    }
  }

  /** `p` plays in the session `gid`, in `k` slots, and in no other registered session. */
  ghost predicate PlaysOnly(s: Store, p: Pid, gid: nat, k: nat)
  {
    PlayingIn(s, p) == {gid} && gid in s.gatherings && multiset(s.gatherings[gid].participants)[p] == k
  }

  /** A player in no session who joins one, with any company, plays there and nowhere else. */
  lemma JoinsExactlyOne(s: Store, gid: nat, p: Pid, newcomers: seq<Pid>, t: Store)
    requires PlayingIn(s, p) == {} && Live(s, gid) && s.gatherings[gid].kind.MatchmakeSession? && p in newcomers
    requires var g := s.gatherings[gid];
             t.gatherings == s.gatherings[gid := g.(participants := g.participants + newcomers)]
    ensures PlaysOnly(t, p, gid, multiset(newcomers)[p])
  {
    assert gid !in PlayingIn(s, p);
    assert p in t.gatherings[gid].participants;
    forall id ensures id in PlayingIn(t, p) ==> id == gid {
      assert id !in PlayingIn(s, p);
    }
  }

  lemma {:induction false} CopiesCount(p: Pid, k: nat)
    ensures multiset(Copies(p, k))[p] == k
  {
    if k > 0 {
      CopiesCount(p, k - 1);
      assert Copies(p, k) == Copies(p, k - 1) + [p];
    }
  }

  lemma SlotsTaken(ps: seq<Pid>, p: Pid, k: nat)
    requires p !in ps
    ensures multiset(ps + Copies(p, k))[p] == k
  {
    CopiesCount(p, k);
    assert multiset(ps + Copies(p, k)) == multiset(ps) + multiset(Copies(p, k));
  }

  /** A join with `k` local players takes `k` slots. */
  lemma SessionSeats(s: Store, gid: nat, m: Session, p: Pid, k: nat)
    requires PlayingIn(s, p) == {} && Joinable(s, gid, p) && m.attribs != [] && k > 0
    ensures var t := JoinedSession(s, gid, m, p, k);
            && PlaysOnly(t, p, gid, k)
            && t.gatherings[gid].participants == s.gatherings[gid].participants + Copies(p, k)
  {
    CopiesCount(p, k);
    assert Copies(p, k)[0] == p;
    JoinsExactlyOne(s, gid, p, Copies(p, k), JoinedSession(s, gid, m, p, k));
  }

  /** A join with guests takes one slot, and one for each time the caller is named as a guest. */
  lemma GroupSeats(s: Store, gid: nat, m: Session, p: Pid, guests: seq<Pid>)
    requires PlayingIn(s, p) == {} && Joinable(s, gid, p) && m.attribs != []
    ensures var t := JoinedGroup(s, gid, m, p, guests, false);
            && PlaysOnly(t, p, gid, 1 + multiset(guests)[p])
            && t.gatherings[gid].participants == s.gatherings[gid].participants + [p] + guests
  {
    hide CountedAll;
    var newcomers := Newcomers(p, guests, false);
    if m.systemType == ATTACHED {
      CountedAllRuns(Apply(s, Append(gid, p, newcomers)), guests + [p], m.attribs[0], gid);
    }
    JoinsExactlyOne(s, gid, p, newcomers, JoinedGroup(s, gid, m, p, guests, false));
  }

  /** `k` more players are too many for the gathering's maximum. */
  predicate Overfills(s: Store, gid: nat, k: nat)
  {
    gid in s.gatherings && var g := s.gatherings[gid];
    g.terms.maxParticipants != 0 && |g.participants| + k > g.terms.maxParticipants
  }

  /** A player in no session is refused by one exactly when the party is too large for it. */
  lemma LoneJoin(s: Store, gid: nat, p: Pid, k: nat)
    requires RowsOk(s) && PlayingIn(s, p) == {} && Joinable(s, gid, p) && k < 0x1_0000
    ensures JoinVerdict(s, gid, p, k) ==
            if Overfills(s, gid, k) then Err(SessionFull) else Ok((|s.gatherings[gid].participants| + k) % UINT32)
  {
    assert gid !in PlayingIn(s, p);
    assert RowOk(s.gatherings[gid]);
    JoinTestExactly(s, gid, p, k);
  }

  /** With guests a maximum of 0 is always full, as long as the population is below 2^32. */
  lemma LoneGroupJoin(s: Store, gid: nat, p: Pid, guests: seq<Pid>)
    requires RowsOk(s) && PlayingIn(s, p) == {} && Joinable(s, gid, p) && |guests| < INT32_MAX
    ensures var g, v := s.gatherings[gid], GroupVerdict(s, gid, p, guests, false);
            && (v.Err? ==> v.error == SessionFull)
            && (g.terms.maxParticipants != 0 || |g.participants| + 1 + |guests| < UINT32 ==>
                  v == if |g.participants| + 1 + |guests| > g.terms.maxParticipants then Err(SessionFull)
                       else Ok(|g.participants| + 1 + |guests|))
  {
    assert gid !in PlayingIn(s, p);
    assert RowOk(s.gatherings[gid]);
  }

  // ---- Game modes ---------------------------------------------------------------------------

  /** `gameMode &^ 0xC00`: bits 10 and 11, the console's region, are cleared. */
  function CanonicalGameMode(gameMode: nat): (canonical: nat)
  {
    gameMode - (gameMode / 0x400 % 4) * 0x400
  }

  /** Two game modes share a canonical form exactly when they differ at most in the region bits. */
  lemma CanonicalExactly(a: nat, b: nat)
    ensures CanonicalGameMode(a) == CanonicalGameMode(b) <==> a % 0x400 == b % 0x400 && a / 0x1000 == b / 0x1000
    ensures CanonicalGameMode(CanonicalGameMode(a)) == CanonicalGameMode(a)
  {
    CanonicalSplit(a);
    CanonicalSplit(b);
    CanonicalParts(a);
    CanonicalParts(b);
    CanonicalSplit(CanonicalGameMode(a));
  }

  /** Canonical modes have the same bits below and above the region. */
  lemma CanonicalParts(a: nat)
    ensures CanonicalGameMode(a) % 0x400 == a % 0x400 && CanonicalGameMode(a) / 0x1000 == a / 0x1000
  {
    var h, l := a / 0x1000, a % 0x400;
    CanonicalSplit(a);
    Quotients(CanonicalGameMode(a), h, 0, l);
  }

  lemma CanonicalSplit(a: nat)
    ensures CanonicalGameMode(a) == a % 0x400 + (a / 0x1000) * 0x1000
  {
    var q, l := a / 0x400, a % 0x400;
    var h, r := q / 4, q % 4;
    assert q == 4 * h + r;
    assert a == 0x400 * q + l;
    Quotients(a, h, r, l);
  }

  /** The parts of a game mode: `h` above the region bits, `r` the region, `l` below. */
  lemma Quotients(a: nat, h: nat, r: nat, l: nat)
    requires a == 0x1000 * h + 0x400 * r + l && r < 4 && l < 0x400
    ensures a / 0x1000 == h && a / 0x400 == 4 * h + r && a % 0x400 == l
  {
    assert 0x1000 * h <= a < 0x1000 * (h + 1);
    assert 0x400 * (4 * h + r) <= a < 0x400 * (4 * h + r + 1);
  }

  // ---- Auto-matchmaking -----------------------------------------------------------------------

  /** The session that auto-matchmaking settles on: a found one, or a fresh one of the caller's. */
  function Settled(s: Store, found: Option<nat>, p: Pid, terms: Terms, m: Session): (s': Store)
  {
    if found.Some? then s else Apply(s, CreateSession(p, terms, Stored(m)))
  }

  function SettledId(s: Store, found: Option<nat>): (gid: nat)
  {
    if found.Some? then found.value else s.nextId
  }

  function SettledActions(found: Option<nat>, p: Pid, terms: Terms, m: Session): (actions: seq<Action>)
  {
    if found.Some? then [] else [CreateSession(p, terms, Stored(m))]
  }

  function SettledSession(s: Store, found: Option<nat>, m: Session): (joined: Session)
    requires found.Some? ==> found.value in s.sessions
  {
    if found.Some? then s.sessions[found.value] else Stored(m)
  }

  /** Settling on a found session changes nothing; otherwise a fresh, empty session of the caller's is added. */
  lemma SettledMeans(s: Store, found: Option<nat>, p: Pid, terms: Terms, m: Session)
    requires found.Some? ==> found.value in s.sessions
    ensures var t, gid, joined := Settled(s, found, p, terms, m), SettledId(s, found), SettledSession(s, found, m);
            if found.Some? then t == s && gid == found.value && joined == s.sessions[gid]
            else
              && gid == s.nextId && joined == m.(systemPasswordEnabled := false, systemPassword := "")
              && t.gatherings == s.gatherings[gid := Gathering(MatchmakeSession, p, p, terms, true, [])]
              && t.sessions == s.sessions[gid := joined]
  {
  }

  /** A found session is registered, populated and of the right type. */
  predicate Populated(s: Store, gid: nat)
  {
    && Live(s, gid) && s.gatherings[gid].kind.MatchmakeSession? && gid in s.sessions
    && s.gatherings[gid].participants != []
  }

  lemma SettlingLeads(s: Store, actions: seq<Action>, t: Store, found: Option<nat>, p: Pid, terms: Terms, m: Session)
    requires Leads(s, actions, t) && p != 0 && terms.maxParticipants <= INT32_MAX && |m.attribs| == 6
    requires found.Some? ==> Populated(t, found.value)
    ensures var u, gid := Settled(t, found, p, terms, m), SettledId(t, found);
            && Leads(s, actions + SettledActions(found, p, terms, m), u)
            && Joinable(u, gid, p) && gid in u.gatherings
            && (found.Some? ==> u.gatherings[gid].participants != [])
            && |SettledSession(t, found, m).attribs| == 6
            && (found.None? ==> u.gatherings[gid] == Gathering(MatchmakeSession, p, p, terms, true, []))
            && (found.None? ==> gid !in t.gatherings && t.nextId !in t.gatherings)
  {
    if found.Some? {
      assert actions + [] == actions;
      assert TablesJoin(t);
    } else {
      CreationLeads(s, actions, t, p, terms, m);
    }
  }

  lemma SettlingKeepsPlay(t: Store, found: Option<nat>, p: Pid, terms: Terms, m: Session)
    requires found.None? ==> t.nextId !in t.gatherings
    requires PlayingIn(t, p) == {}
    ensures PlayingIn(Settled(t, found, p, terms, m), p) == {}
  {
    var u := Settled(t, found, p, terms, m);
    forall gid ensures gid !in PlayingIn(u, p) {
      assert gid !in PlayingIn(t, p);
    }
  }

  /** One more player fits into a session with a vacancy, and into a fresh one. */
  lemma VacancyAdmits(s: Store, gid: nat, p: Pid)
    requires RowsOk(s) && gid in s.gatherings && p !in s.gatherings[gid].participants
    requires var g := s.gatherings[gid];
             g.participants == [] || |g.participants| < g.terms.maxParticipants
    ensures JoinVerdict(s, gid, p, 1) == Ok(|s.gatherings[gid].participants| + 1)
  {
    assert RowOk(s.gatherings[gid]);
  }
}
