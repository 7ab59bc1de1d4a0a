/**
 The matchmaking manager: its tables, the database steps that change them, and
 the request handlers. The handlers hold one mutex, so each of them is atomic.

 Every handler is specified twice: by the exact store it leaves, and by the run
 of actions it amounts to, so that whatever holds of all runs holds of it.
 */
module Manager {
  import opened Collections
  import opened Participants
  import opened Tables
  import opened Actions
  import opened Departures
  import opened Invariants
  import opened Requests
  import opened Criteria
  import opened Search

  class MatchmakingManager {
    var gatherings: map<nat, Gathering>
    var sessions: map<nat, Session>
    var communities: set<nat>
    var participations: map<(Pid, nat), nat>
    var nextId: nat
    var log: seq<Event>

    function State(): (s: Store)
      reads this
    {
      Store(gatherings, sessions, communities, participations, nextId, log)
    }

    ghost predicate Valid()
      reads this
    {
      Inv(State())
    }

    constructor ()
      ensures State() == EMPTY && Valid()
    {
      gatherings, sessions, communities, participations, nextId, log := map[], map[], {}, map[], 1, [];
      new;
      EmptyInv();
    }

    // ---- Rows -----------------------------------------------------------------------------

    method RegisterGathering(owner: Pid, host: Pid, terms: Terms, kind: Kind) returns (gid: nat)
      modifies this
      ensures gid == old(nextId) && State() == NewRow(old(State()), kind, owner, host, terms)
      ensures gatherings == old(gatherings)[gid := Gathering(kind, owner, host, terms, true, [])]
      ensures nextId == gid + 1 && log == old(log) + [Registered(owner, gid)]
    {
      gid := nextId;
      gatherings := gatherings[gid := Gathering(kind, owner, host, terms, true, [])];
      nextId := nextId + 1;
      log := log + [Registered(owner, gid)];
    }

    method RemoveParticipantFromGathering(gid: nat, p: Pid) returns (r: Result<seq<Pid>>)
      modifies this
      ensures gid !in old(gatherings) ==> r == Err(SessionVoid) && State() == old(State())
      ensures gid in old(gatherings) ==>
                && r == Ok(Without(old(gatherings)[gid].participants, p))
                && State() == SetRow(old(State()), gid, old(gatherings)[gid].(participants := r.value), [])
    {
      if gid !in gatherings {
        return Err(SessionVoid);
      }
      var rest := Without(gatherings[gid].participants, p);
      gatherings := gatherings[gid := gatherings[gid].(participants := rest)];
      assert log + [] == log;
      return Ok(rest);
    }

    method UpdateSessionHost(gid: nat, owner: Pid, host: Pid) returns (r: Result<()>)
      modifies this
      ensures gid !in old(gatherings) ==> r == Err(SessionVoid) && State() == old(State())
      ensures gid in old(gatherings) ==>
                r == Ok(()) && State() == SetRow(old(State()), gid, old(gatherings)[gid].(owner := owner, host := host), [])
    {
      if gid !in gatherings {
        return Err(SessionVoid);
      }
      gatherings := gatherings[gid := gatherings[gid].(owner := owner, host := host)];
      assert log + [] == log;
      return Ok(());
    }

    method UnregisterRow(source: Pid, gid: nat) returns (r: Result<()>)
      modifies this
      ensures gid !in old(gatherings) ==> r == Err(SessionVoid) && State() == old(State())
      ensures gid in old(gatherings) ==> r == Ok(()) && State() == Apply(old(State()), Unregister(gid, source))
    {
      if gid !in gatherings {
        return Err(SessionVoid);
      }
      gatherings := gatherings[gid := gatherings[gid].(registered := false)];
      log := log + [Unregistered(source, gid)];
      return Ok(());
    }

    /** `g` is the gathering as the caller read it; `participants` the list that is left. */
    method MigrateGatheringOwnership(source: Pid, gid: nat, g: Gathering, participants: seq<Pid>)
      returns (r: Result<Pid>)
      modifies this
      ensures gid !in old(gatherings) ==> r == Err(SessionVoid) && State() == old(State())
      ensures gid in old(gatherings) ==>
                r.Ok? && exists i: nat :: StandsFirst(participants, g.owner, i, r.value)
      ensures gid in old(gatherings) ==>
                var row := old(gatherings)[gid];
                && r == Ok(FirstOther(participants, g.owner))
                && State() == if r.value == 0
                              then SetRow(old(State()), gid, row.(registered := false), [Unregistered(source, gid)])
                              else SetRow(old(State()), gid, row.(owner := r.value, host := g.host),
                                          [OwnerChanged(source, gid, g.owner, r.value)])
    {
      var unique := RemoveDuplicates(participants);
      var newOwner := 0;
      for i := 0 to |unique|
        invariant newOwner == 0 && AllAre(unique[..i], g.owner)
      {
        if unique[i] != g.owner {
          newOwner := unique[i];
          FirstOtherAt(unique, g.owner, i);
          break;
        }
      }
      assert newOwner == FirstOther(unique, g.owner) by {
        if AllAre(unique, g.owner) {
          FirstOtherAppend(unique, 0, g.owner);
        }
      }
      DedupFirstOther(participants, g.owner);
      FirstOtherMeans(participants, g.owner);
      hide FirstOther, StandsFirst;
      if newOwner == 0 {
        var unregistered := UnregisterRow(source, gid);
        if unregistered.Err? {
          return Err(unregistered.error);
        }
        return Ok(0);
      }
      var updated := UpdateSessionHost(gid, newOwner, g.host);
      if updated.Err? {
        return Err(updated.error);
      }
      log := log + [OwnerChanged(source, gid, g.owner, newOwner)];
      return Ok(newOwner);
    }

    // ---- Departures -----------------------------------------------------------------------

    /** What follows the removal of `p`, once it is logged: end, migrate, or hand the host over. */
    method SettleDeparture(gid: nat, g: Gathering, p: Pid, rest: seq<Pid>)
      requires gid in gatherings && gatherings[gid] == g.(participants := rest)
      requires g.registered && rest == Without(g.participants, p)
      modifies this
      ensures State() == SetRow(old(State()), gid, Departed(g, p), DepartureEvents(gid, g, p, Leaving)[1..])
    {
      WithoutMembers(g.participants, p);
      if g.terms.flags.persistentGathering || g.terms.flags.allowZeroUsers {
        assert log + [] == log;
        assert gatherings[gid := gatherings[gid]] == gatherings;
        return;
      }
      if rest == [] {
        var _ := UnregisterRow(p, gid);
        return;
      }
      var owner := g.owner;
      if p == g.owner {
        if !g.terms.flags.disconnectChangeOwner {
          var _ := UnregisterRow(p, gid);
          return;
        }
        var migrated := MigrateGatheringOwnership(p, gid, g, rest);
        owner := migrated.value;
        assert owner == rest[0] by {
          assert rest[0] in rest;
        }
      }
      if p == g.host && owner != 0 {
        var _ := UpdateSessionHost(gid, owner, owner);
        log := log + [HostChanged(p, gid, g.host, owner)];
      }
      assert log == old(log) + DepartureEvents(gid, g, p, Leaving)[1..];
      assert gatherings == old(gatherings)[gid := Departed(g, p)];
    }

    /** Takes `p` off the list, logs it, and settles the rest. */
    method Depart(gid: nat, g: Gathering, p: Pid, how: Departure)
      requires gid in gatherings && gatherings[gid] == g && g.registered
      modifies this
      ensures State() == SetRow(old(State()), gid, Departed(g, p), DepartureEvents(gid, g, p, how))
    {
      hide Departed, DepartureEvents;
      var removed := RemoveParticipantFromGathering(gid, p);
      log := log + [if how.Leaving? then Left(p, gid, removed.value) else Disconnected(p, gid, removed.value)];
      SettleDeparture(gid, g, p, removed.value);
      DepartureHead(gid, g, p, how);
      assert log == old(log) + DepartureEvents(gid, g, p, how);
    }

    method EndGatheringParticipation(gid: nat, p: Pid) returns (r: Result<()>)
      modifies this
      ensures !Live(old(State()), gid) ==> r == Err(SessionVoid) && State() == old(State())
      ensures Live(old(State()), gid) && p !in old(gatherings)[gid].participants ==>
                r == Err(NotParticipated) && State() == old(State())
      ensures Live(old(State()), gid) && p in old(gatherings)[gid].participants ==>
                r == Ok(()) && State() == Apply(old(State()), Exit(gid, p, Leaving))
      ensures r.Ok? ==>
                gid in old(gatherings) && gid in gatherings && gatherings == old(gatherings)[gid := gatherings[gid]]
      ensures r.Ok? ==>
                var g, g' := old(gatherings)[gid], gatherings[gid];
                var lasts := g.terms.flags.persistentGathering || g.terms.flags.allowZeroUsers;
                var rest := Without(g.participants, p);
                && g'.participants == rest && g'.kind == g.kind && g'.terms == g.terms
                && (lasts ==> g'.registered && g'.owner == g.owner && g'.host == g.host)
                && (!lasts && rest == [] ==> !g'.registered)
                && (!lasts && rest != [] && p != g.owner ==>
                      && g'.registered && g'.owner == g.owner
                      && g'.host == if p == g.host && g.owner != 0 then g.owner else g.host)
                && (!lasts && rest != [] && p == g.owner ==>
                      && (g'.registered <==> g.terms.flags.disconnectChangeOwner && rest[0] != 0)
                      && (g'.registered ==> g'.owner == rest[0] && g'.host == if p == g.host then rest[0] else g.host))
      ensures r.Ok? ==>
                var g, g' := old(gatherings)[gid], gatherings[gid];
                log == old(log) + [Left(p, gid, g'.participants)]
                       + (if g'.registered then [] else [Unregistered(p, gid)])
                       + (if g'.owner == g.owner then [] else [OwnerChanged(p, gid, g.owner, g'.owner)])
                       + (if g'.host == g.host then [] else [HostChanged(p, gid, g.host, g'.host)])
    {
      if gid !in gatherings || !gatherings[gid].registered {
        return Err(SessionVoid);
      }
      var g := gatherings[gid];
      if p !in g.participants {
        return Err(NotParticipated);
      }
      hide Departed, DepartureEvents, Without, LeftBy;
      Depart(gid, g, p, Leaving);
      DepartedOnColumns(g, p);
      DepartureIsLogged(gid, g, p, Leaving);
      return Ok(());
    }

    /** The rows a query returns, in whatever order the database gives them. */
    method SelectGatherings(wanted: set<nat>) returns (ids: seq<nat>)
      ensures Distinct(ids) && forall gid :: gid in ids <==> gid in wanted
    {
      ids := [];
      var left := wanted;
      while left != {}
        invariant Distinct(ids) && left <= wanted
        invariant forall gid :: gid in ids <==> gid in wanted && gid !in left
        decreases left
      {
        var gid :| gid in left;
        left := left - {gid};
        ids := ids + [gid];
      }
    }

    method EndMatchmakeSessionsParticipation(p: Pid) returns (ghost ended: seq<nat>)
      modifies this
      ensures SessionsListing(old(State()), p, ended)
      ensures State() == ExitAll(old(State()), ended, p, Leaving)
    {
      var ids := SelectGatherings(
        set gid | gid in gatherings && gatherings[gid].kind.MatchmakeSession? && p in gatherings[gid].participants);
      for i := 0 to |ids|
        invariant State() == ExitAll(old(State()), ids[..i], p, Leaving)
      {
        assert ids[..i + 1][..i] == ids[..i];
        var _ := EndGatheringParticipation(ids[i], p);
      }
      assert ids[..|ids|] == ids;
      ended := ids;
    }

    /** One round of the disconnect loop, for a row as the query returned it. */
    method DisconnectFrom(gid: nat, g: Gathering, p: Pid)
      requires gid in gatherings && gatherings[gid] == g && g.registered && p in g.participants
      modifies this
      ensures State() == ExitOne(old(State()), gid, p, Dropping)
      ensures g.terms.flags.persistentGathering || (g.kind.PersistentGathering? && !g.terms.flags.leaveParticipation) ==>
                State() == old(State())
      ensures !g.terms.flags.persistentGathering && (g.kind.PersistentGathering? ==> g.terms.flags.leaveParticipation) ==>
                && gid in gatherings && gatherings == old(gatherings)[gid := gatherings[gid]]
                && LeftBy(g, p, gatherings[gid])
                && log[..|old(log)|] == old(log)
                && DepartureLogged(gid, g, p, gatherings[gid], Dropping, log[|old(log)|..])
    {
      if g.terms.flags.persistentGathering || (g.kind.PersistentGathering? && !g.terms.flags.leaveParticipation) {
        return;
      }
      hide Departed, DepartureEvents, Without, LeftBy, DepartureLogged;
      Depart(gid, g, p, Dropping);
      DepartedOnColumns(g, p);
      DepartureIsLogged(gid, g, p, Dropping);
    }

    method DisconnectParticipant(p: Pid) returns (ghost dropped: seq<nat>)
      modifies this
      ensures GatheringsListing(old(State()), p, dropped)
      ensures State() == ExitAll(old(State()), dropped, p, Dropping)
    {
      var ids := SelectGatherings(
        set gid | gid in gatherings && gatherings[gid].registered && p in gatherings[gid].participants);
      var rows := gatherings;
      ghost var s := State();
      hide ExitOne, Departed, Departs;
      for i := 0 to |ids|
        invariant State() == ExitAll(s, ids[..i], p, Dropping)
        invariant rows == s.gatherings
        invariant forall gid :: gid in ids ==> gid in rows && rows[gid].registered && p in rows[gid].participants
        invariant Distinct(ids)
      {
        var gid, g := ids[i], rows[ids[i]];
        assert ids[..i + 1][..i] == ids[..i];
        assert gid in gatherings && gatherings[gid] == g by {
          ExitAllRows(s, ids[..i], p, Dropping);
          assert gid !in ids[..i];
        }
        DisconnectFrom(gid, g, p);
      }
      assert ids[..|ids|] == ids;
      dropped := ids;
    }

    // ---- Joining --------------------------------------------------------------------------

    /** Local players beside the main one are represented by repeating its PID. */
    method Repeated(p: Pid, k: nat) returns (newcomers: seq<Pid>)
      ensures newcomers == Copies(p, k)
    {
      newcomers := [];
      for i := 0 to k
        invariant newcomers == Copies(p, i)
      {
        newcomers := newcomers + [p];
      }
    }

    method JoinGathering(gid: nat, p: Pid, vacant: nat) returns (r: Result<nat>)
      modifies this
      ensures r == JoinVerdict(old(State()), gid, p, Party(vacant))
      ensures State() == if r.Ok? then Apply(old(State()), Append(gid, p, Copies(p, Party(vacant))))
                         else old(State())
      ensures gid !in old(gatherings) ==> r == Err(SessionVoid)
      ensures gid in old(gatherings) && p in old(gatherings)[gid].participants ==> r.Err?
      ensures gid in old(gatherings) ==>
                var g, k := old(gatherings)[gid], if vacant == 0 then 1 else vacant;
                var fits := g.terms.maxParticipants == 0 || |g.participants| + k <= g.terms.maxParticipants;
                g.terms.maxParticipants == 0 || |g.participants| + k < 0x1_0000_0000 ==>
                  && (r == Err(SessionFull) <==> !fits)
                  && (r == Err(AlreadyParticipated) <==> fits && p in g.participants)
                  && (r.Ok? <==> fits && p !in g.participants)
      ensures r.Ok? ==>
                var g, k := old(gatherings)[gid], if vacant == 0 then 1 else vacant;
                var total := g.participants + Copies(p, k);
                && gatherings == old(gatherings)[gid := g.(participants := total)] && multiset(total)[p] == k
                && log == old(log) + [Joined(p, gid, Copies(p, k), total)] && r.value == |total| % UINT32
    {
      var k := if vacant == 0 then 1 else vacant;
      if gid !in gatherings {
        return Err(SessionVoid);
      }
      var g := gatherings[gid];
      if g.terms.maxParticipants != 0 {
        if (|g.participants| % UINT32 + k) % UINT32 > g.terms.maxParticipants {
          return Err(SessionFull);
        }
      }
      if p in g.participants {
        return Err(AlreadyParticipated);
      }
      var newcomers := Repeated(p, k);
      var total := g.participants + newcomers;
      gatherings := gatherings[gid := g.(participants := total)];
      log := log + [Joined(p, gid, newcomers, total)];
      SlotsTaken(g.participants, p, k);
      hide Copies;
      return Ok(|total| % UINT32);
    }

    method AppendAll(callers: seq<Pid>, guests: seq<Pid>) returns (newcomers: seq<Pid>)
      ensures newcomers == callers + guests
    {
      newcomers := callers;
      for i := 0 to |guests|
        invariant newcomers == callers + guests[..i]
      {
        newcomers := newcomers + [guests[i]];
      }
      assert guests[..|guests|] == guests;
    }

    method JoinGatheringWithParticipants(gid: nat, p: Pid, guests: seq<Pid>, alreadyJoined: bool)
      returns (r: Result<nat>)
      modifies this
      ensures r == GroupVerdict(old(State()), gid, p, guests, alreadyJoined)
      ensures State() == if r.Ok? then Apply(old(State()), Append(gid, p, Newcomers(p, guests, alreadyJoined)))
                         else old(State())
      ensures gid !in old(gatherings) ==> r == Err(SessionVoid)
      ensures gid in old(gatherings) && |old(gatherings)[gid].participants| + 1 + |guests| < UINT32 ==>
                var g := old(gatherings)[gid];
                var fits := |g.participants| + 1 + |guests| <= g.terms.maxParticipants;
                && (r == Err(SessionFull) <==> !fits)
                && (r == Err(NotParticipated) <==> fits && alreadyJoined && p !in g.participants)
                && (r == Err(AlreadyParticipated) <==> fits && !alreadyJoined && p in g.participants)
                && (r.Ok? <==> fits && (alreadyJoined <==> p in g.participants))
      ensures r.Ok? ==>
                var g := old(gatherings)[gid];
                var newcomers := (if p in g.participants then [] else [p]) + guests;
                var total := g.participants + newcomers;
                && gatherings == old(gatherings)[gid := g.(participants := total)]
                && log == old(log) + [Joined(p, gid, newcomers, total)] && r.value == |total| % UINT32
                && (alreadyJoined <==> p in g.participants)
    {
      if gid !in gatherings {
        return Err(SessionVoid);
      }
      var g := gatherings[gid];
      if (|g.participants| + 1 + |guests|) % UINT32 > g.terms.maxParticipants {
        return Err(SessionFull);
      }
      var newcomers := [];
      if alreadyJoined {
        if p !in g.participants {
          return Err(NotParticipated);
        }
      } else {
        if p in g.participants {
          return Err(AlreadyParticipated);
        }
        newcomers := [p];
      }
      newcomers := AppendAll(newcomers, guests);
      assert newcomers == Newcomers(p, guests, alreadyJoined) by {
        assert [] + guests == guests;
      }
      hide Newcomers;
      var total := g.participants + newcomers;
      gatherings := gatherings[gid := g.(participants := total)];
      log := log + [Joined(p, gid, newcomers, total)];
      return Ok(|total| % UINT32);
    }

    /** The counter is stored before it is scanned into a uint32, which fails beyond 2^32 - 1. */
    method UpdateParticipationCount(p: Pid, community: nat) returns (r: Result<nat>)
      modifies this
      ensures var n := Bumped(old(State()), p, community);
              && r == (if n < UINT32 then Ok(n) else Err(Unknown))
              && State() == old(State()).(participations := old(participations)[(p, community) := n])
      ensures CountOf(participations, p, community) == CountOf(old(participations), p, community) + 1
      ensures r == if CountOf(participations, p, community) < 0x1_0000_0000
                   then Ok(CountOf(participations, p, community)) else Err(Unknown)
    {
      var n := 1;
      if (p, community) in participations {
        n := participations[(p, community)] + 1;
      }
      participations := participations[(p, community) := n];
      return if n < UINT32 then Ok(n) else Err(Unknown);
    }

    method CountParticipation(p: Pid, community: nat, gid: nat)
      modifies this
      ensures State() == Apply(old(State()), Count(p, community, gid))
      ensures var n := CountOf(old(participations), p, community) + 1;
              && participations == old(participations)[(p, community) := n]
              && log == if n < 0x1_0000_0000 then old(log) + [Participated(p, community, gid, n)] else old(log)
    {
      var n := UpdateParticipationCount(p, community);
      if n.Ok? {
        log := log + [Participated(p, community, gid, n.value)];
      } else {
        assert log + [] == log;
      }
    }

    method JoinMatchmakeSession(gid: nat, m: Session, p: Pid, vacant: nat) returns (r: Result<nat>)
      requires m.attribs != []
      modifies this
      ensures r == JoinVerdict(old(State()), gid, p, Party(vacant))
      ensures State() == if r.Ok? then JoinedSession(old(State()), gid, m, p, Party(vacant)) else old(State())
      ensures r.Ok? ==>
                && gid in old(gatherings)
                && var g, k := old(gatherings)[gid], if vacant == 0 then 1 else vacant;
                   && p !in g.participants
                   && gatherings == old(gatherings)[gid := g.(participants := g.participants + Copies(p, k))]
      ensures r.Ok? ==>
                forall q, c :: CountOf(participations, q, c) ==
                  CountOf(old(participations), q, c) + if m.systemType == 5 && c == m.attribs[0] && q == p then 1 else 0
    {
      r := JoinGathering(gid, p, vacant);
      if r.Ok? && m.systemType == ATTACHED {
        CountParticipation(p, m.attribs[0], gid);
      }
    }

    method JoinMatchmakeSessionWithParticipants(gid: nat, m: Session, p: Pid, guests: seq<Pid>, alreadyJoined: bool)
      returns (r: Result<nat>)
      requires m.attribs != []
      modifies this
      ensures r == GroupVerdict(old(State()), gid, p, guests, alreadyJoined)
      ensures State() == if r.Ok? then JoinedGroup(old(State()), gid, m, p, guests, alreadyJoined) else old(State())
      ensures r.Ok? ==>
                && gid in old(gatherings)
                && var g := old(gatherings)[gid];
                   && (alreadyJoined <==> p in g.participants)
                   && gatherings == old(gatherings)[gid := g.(participants :=
                        g.participants + ((if p in g.participants then [] else [p]) + guests))]
      ensures r.Ok? ==>
                forall q, c :: CountOf(participations, q, c) ==
                  CountOf(old(participations), q, c)
                  + if m.systemType == 5 && c == m.attribs[0] then multiset(guests + [p])[q] else 0
    {
      hide GroupVerdict, Newcomers, CountOf;
      r := JoinGatheringWithParticipants(gid, p, guests, alreadyJoined);
      if r.Ok? && m.systemType == ATTACHED {
        var list := guests + [p];
        ghost var s := State();
        CountedAllEverywhere(s, list, m.attribs[0], gid);
        for i := 0 to |list|
          invariant State() == CountedAll(s, list[..i], m.attribs[0], gid)
        {
          CountedAllStep(s, list, m.attribs[0], gid, i);
          hide CountedAll, Apply;
          CountParticipation(list[i], m.attribs[0], gid);
        }
        assert list[..|list|] == list;
        hide CountedAll;
      }
    }

    // ---- New rows -------------------------------------------------------------------------

    method CreateMatchmakeSession(p: Pid, terms: Terms, m: Session) returns (gid: nat)
      modifies this
      ensures gid == old(nextId) && State() == Apply(old(State()), CreateSession(p, terms, Stored(m)))
      ensures gatherings == old(gatherings)[gid := Gathering(MatchmakeSession, p, p, terms, true, [])]
      ensures sessions == old(sessions)[gid := m.(systemPasswordEnabled := false, systemPassword := "")]
    {
      gid := RegisterGathering(p, p, terms, MatchmakeSession);
      sessions := sessions[gid := Stored(m)];
    }

    method CreatePersistentGathering(p: Pid, terms: Terms) returns (gid: nat)
      modifies this
      ensures gid == old(nextId) && State() == Apply(old(State()), CreateCommunity(p, terms))
      ensures gatherings == old(gatherings)[gid := Gathering(PersistentGathering, p, 0, terms, true, [])]
      ensures communities == old(communities) + {gid}
    {
      gid := RegisterGathering(p, 0, terms, PersistentGathering);
      communities := communities + {gid};
    }

    method CheckGatheringForParticipation(gid: nat, pids: seq<Pid>) returns (r: Result<()>)
      ensures r == ParticipationCheck(State(), gid, pids)
      ensures r.Ok? <==>
                || gid == 0
                || (gid in gatherings && gatherings[gid].registered
                    && forall q :: q in pids ==> q in gatherings[gid].participants)
      ensures r == Err(SessionVoid) <==> gid != 0 && (gid !in gatherings || !gatherings[gid].registered)
      ensures r.Err? ==> r.error in {SessionVoid, NotParticipated}
    {
      if gid == 0 {
        return Ok(());
      }
      if gid !in gatherings || !gatherings[gid].registered {
        return Err(SessionVoid);
      }
      for i := 0 to |pids|
        invariant forall j :: 0 <= j < i ==> pids[j] in gatherings[gid].participants
      {
        if pids[i] !in gatherings[gid].participants {
          return Err(NotParticipated);
        }
      }
      return Ok(());
    }

    // ---- Handlers: leaving and hosting ------------------------------------------------------

    /** MatchMakingExt::EndParticipation. */
    method EndParticipation(p: Pid, gid: nat, message: string) returns (r: Result<()>, ghost actions: seq<Action>)
      requires Valid()
      modifies this
      ensures Leads(old(State()), actions, State())
      ensures r == if |message| > 256 then Err(InvalidArgument)
                   else if gid !in old(gatherings) || !old(gatherings)[gid].registered then Err(SessionVoid)
                   else if p !in old(gatherings)[gid].participants then Err(NotParticipated)
                   else Ok(())
      ensures r.Ok? ==> gid in gatherings && LeftBy(old(gatherings)[gid], p, gatherings[gid])
      ensures State() == if r.Ok? then Apply(old(State()), Exit(gid, p, Leaving)) else old(State())
    {
      hide Leads, Inv, Run;
      LeadsNowhere(State());
      if |message| > MESSAGE_MAX {
        return Err(InvalidArgument), [];
      }
      r := EndGatheringParticipation(gid, p);
      actions := [];
      if r.Ok? {
        LeadsOn(old(State()), [], old(State()), Exit(gid, p, Leaving));
        actions := [] + [Exit(gid, p, Leaving)];
      }
    }

    /** The end of a connection. */
    method ConnectionEnded(p: Pid) returns (ghost dropped: seq<nat>, ghost actions: seq<Action>)
      requires Valid()
      modifies this
      ensures Leads(old(State()), actions, State())
      ensures GatheringsListing(old(State()), p, dropped)
      ensures State() == ExitAll(old(State()), dropped, p, Dropping)
      ensures gatherings.Keys == old(gatherings).Keys
      ensures forall gid :: gid in old(gatherings) ==>
                var g := old(gatherings)[gid];
                if g.registered && p in g.participants && !g.terms.flags.persistentGathering
                   && (g.kind.PersistentGathering? ==> g.terms.flags.leaveParticipation)
                then LeftBy(g, p, gatherings[gid]) else gatherings[gid] == g
      ensures forall gid :: Live(State(), gid) && p in gatherings[gid].participants ==>
                gid in old(gatherings) && StaysOnDisconnect(old(gatherings)[gid])
    {
      dropped := DisconnectParticipant(p);
      actions := ExitActions(old(State()), dropped, p, Dropping);
      EndingLeads(old(State()), dropped, p, Dropping);
      DroppedRows(old(State()), p, dropped);
      forall gid | Live(State(), gid) && p in gatherings[gid].participants
        ensures gid in old(gatherings) && StaysOnDisconnect(old(gatherings)[gid])
      {
        DisconnectedEverywhere(old(State()), p, dropped, gid);
      }
    }

    /** What a participant may claim: the host's seat, or with `takeOwnership` the owner's as well. */
    method ClaimSession(p: Pid, gid: nat, takeOwnership: bool) returns (r: Result<()>, ghost actions: seq<Action>)
      requires Valid() && p != 0
      modifies this
      ensures Leads(old(State()), actions, State())
      ensures !Live(old(State()), gid) ==> r == Err(SessionVoid)
      ensures Live(old(State()), gid) ==> var g := old(gatherings)[gid];
                r == if p !in g.participants then Err(PermissionDenied)
                     else if takeOwnership && !g.terms.flags.participantsChangeOwner then Err(InvalidOperation)
                     else Ok(())
      ensures State() == if r.Ok? then Apply(old(State()), Claim(gid, p, takeOwnership)) else old(State())
      ensures r.Ok? ==>
                && gid in old(gatherings) && gid in gatherings
                && var g := old(gatherings)[gid];
                   && gatherings == old(gatherings)[gid := g.(host := p, owner := if takeOwnership then p else g.owner)]
                   && log == old(log) + [HostChanged(p, gid, g.host, p)]
                             + if takeOwnership then [OwnerChanged(p, gid, g.owner, p)] else []
    {
      hide Leads, Inv, Run;
      LeadsNowhere(State());
      actions := [];
      if gid !in gatherings || !gatherings[gid].registered {
        return Err(SessionVoid), [];
      }
      var g := gatherings[gid];
      if p !in g.participants {
        return Err(PermissionDenied), [];
      }
      if !takeOwnership {
        r := UpdateSessionHost(gid, g.owner, p);
        log := log + [HostChanged(p, gid, g.host, p)];
        assert g.(owner := g.owner, host := p) == g.(host := p);
      } else {
        if !g.terms.flags.participantsChangeOwner {
          return Err(InvalidOperation), [];
        }
        r := UpdateSessionHost(gid, p, p);
        log := log + [HostChanged(p, gid, g.host, p)];
        log := log + [OwnerChanged(p, gid, g.owner, p)];
        assert log == old(log) + [HostChanged(p, gid, g.host, p), OwnerChanged(p, gid, g.owner, p)];
      }
      assert State() == Apply(old(State()), Claim(gid, p, takeOwnership));
      LeadsOn(old(State()), [], old(State()), Claim(gid, p, takeOwnership));
      actions := [] + [Claim(gid, p, takeOwnership)];
    }

    /** MatchMaking::UpdateSessionHostV1: whether the owner changes too is decided by the flag. */
    method UpdateSessionHostV1(p: Pid, gid: nat) returns (r: Result<()>, ghost actions: seq<Action>)
      requires Valid() && p != 0
      modifies this
      ensures Leads(old(State()), actions, State())
      ensures r == if !Live(old(State()), gid) then Err(SessionVoid)
                   else if p !in old(gatherings)[gid].participants then Err(PermissionDenied)
                   else Ok(())
      ensures r.Ok? ==> State() == Apply(old(State()),
                Claim(gid, p, old(gatherings)[gid].terms.flags.participantsChangeOwner))
      ensures r.Ok? ==>
                && gid in old(gatherings)
                && var g := old(gatherings)[gid];
                   gatherings == old(gatherings)[gid := if g.terms.flags.participantsChangeOwner then g.(owner := p, host := p)
                                                        else g.(host := p)]
      ensures r.Err? ==> State() == old(State())
    {
      r, actions := ClaimSession(p, gid, gid in gatherings && gatherings[gid].terms.flags.participantsChangeOwner);
    }

    /** MatchMaking::UpdateSessionURL changes the host only. */
    method UpdateSessionURL(p: Pid, gid: nat) returns (r: Result<()>, ghost actions: seq<Action>)
      requires Valid() && p != 0
      modifies this
      ensures Leads(old(State()), actions, State())
      ensures r == if !Live(old(State()), gid) then Err(SessionVoid)
                   else if p !in old(gatherings)[gid].participants then Err(PermissionDenied)
                   else Ok(())
      ensures State() == if r.Ok? then Apply(old(State()), Claim(gid, p, false)) else old(State())
      ensures r.Ok? ==>
                gid in old(gatherings) && gatherings == old(gatherings)[gid := old(gatherings)[gid].(host := p)]
    {
      r, actions := ClaimSession(p, gid, false);
    }

    /** MatchMaking::UnregisterGathering, for the owner only. */
    method UnregisterGathering(p: Pid, gid: nat) returns (r: Result<()>, ghost actions: seq<Action>)
      requires Valid()
      modifies this
      ensures Leads(old(State()), actions, State())
      ensures r == if !Live(old(State()), gid) then Err(SessionVoid)
                   else if old(gatherings)[gid].owner != p then Err(PermissionDenied) else Ok(())
      ensures State() == if r.Ok? then Apply(old(State()), Unregister(gid, p)) else old(State())
      ensures r.Ok? ==>
                && gid in old(gatherings)
                && gatherings == old(gatherings)[gid := old(gatherings)[gid].(registered := false)]
                && log == old(log) + [Unregistered(p, gid)]
    {
      hide Leads, Inv, Run;
      LeadsNowhere(State());
      actions := [];
      if gid !in gatherings || !gatherings[gid].registered {
        return Err(SessionVoid), [];
      }
      if gatherings[gid].owner != p {
        return Err(PermissionDenied), [];
      }
      r := UnregisterRow(p, gid);
      LeadsOn(old(State()), [], old(State()), Unregister(gid, p));
      actions := [] + [Unregister(gid, p)];
    }

    // ---- Handlers: creating -----------------------------------------------------------------

    /** `CreateCommunity`, handled at the time `now`. */
    method OpenCommunity(p: Pid, community: Community, now: nat) returns (r: Result<nat>, ghost actions: seq<Action>)
      requires Valid() && p != 0 && community.terms.maxParticipants <= INT32_MAX
      modifies this
      ensures Leads(old(State()), actions, State())
      ensures r == if !ValidCommunity(community, now) then Err(InvalidArgument)
                   else if |OwnedCommunities(old(State()), p)| >= CREATION_MAX then Err(CreationMax)
                   else Ok(old(nextId))
      ensures r == Err(InvalidArgument) <==>
                || |community.description| > 256 || |community.password| > 32 || |community.attribs| != 6
                || community.applicationBufferLength > 512 || community.communityType.OtherType?
                || (community.startDate != 0 && community.startDate > now)
                || (community.endDate != 0 && community.endDate < now)
      ensures r == Err(CreationMax) <==>
                && r != Err(InvalidArgument)
                && |set gid | gid in old(gatherings) && gid in old(communities)
                        && old(gatherings)[gid].registered && old(gatherings)[gid].owner == p| >= 4
      ensures r.Ok? ==>
                && r.value !in old(gatherings) && communities == old(communities) + {r.value}
                && gatherings == old(gatherings)[r.value :=
                     Gathering(PersistentGathering, p, 0, community.terms, true, [p])]
      ensures r.Ok? ==>
                State() == Apply(Apply(old(State()), CreateCommunity(p, community.terms)), Append(r.value, p, [p]))
      ensures r.Err? ==> State() == old(State())
    {
      hide Leads, Inv, Run, ValidCommunity, OwnedCommunities, Apply, Enabled, JoinVerdict;
      ghost var s0 := State();
      NextIsFresh(State());
      LeadsNowhere(State());
      InvalidCommunity(community, now);
      OwnsExactly(State(), p);
      var terms := community.terms;
      if !ValidCommunity(community, now) {
        return Err(InvalidArgument), [];
      }
      if |OwnedCommunities(State(), p)| >= CREATION_MAX {
        return Err(CreationMax), [];
      }
      CommunityLeads(s0, p, terms);
      var gid := CreatePersistentGathering(p, terms);
      var joined := JoinGathering(gid, p, 1);
      return Ok(gid), [CreateCommunity(p, terms), Append(gid, p, [p])];
    }

    /** MatchmakeExtension::CreateMatchmakeSession: leave everything, register, join with the party. */
    method OpenSession(p: Pid, offer: Offer, message: string, count: nat)
      returns (r: Result<(nat, nat)>, ghost ended: seq<nat>, ghost actions: seq<Action>)
      requires Valid() && p != 0 && count < 0x1_0000 && offer.terms.maxParticipants <= INT32_MAX
      modifies this
      ensures Leads(old(State()), actions, State())
      ensures |message| > MESSAGE_MAX ==> r == Err(InvalidArgument) && State() == old(State())
      ensures |message| <= MESSAGE_MAX ==> SessionsListing(old(State()), p, ended)
      ensures |message| <= MESSAGE_MAX && !(offer.isMatchmakeSession && ValidSession(offer)) ==>
                r == Err(InvalidArgument) && State() == ExitAll(old(State()), ended, p, Leaving)
      ensures |message| <= MESSAGE_MAX && offer.isMatchmakeSession && ValidSession(offer) ==>
                var m, gid := Stored(offer.session), old(nextId);
                var s := Apply(ExitAll(old(State()), ended, p, Leaving), CreateSession(p, offer.terms, m));
                var v := JoinVerdict(s, gid, p, Party(count));
                && gid in s.gatherings
                && r == (if v.Ok? then Ok((gid, v.value)) else Err(v.error))
                && State() == if v.Ok? then JoinedSession(s, gid, m, p, Party(count)) else s
      ensures r == Err(InvalidArgument) <==>
                || |message| > 256 || !offer.isMatchmakeSession
                || |offer.description| > 256 || |offer.session.attribs| != 6 || offer.session.progressScore > 100
                || |offer.session.userPassword| > 32 || |offer.session.codeword| > 256
                || offer.applicationBufferLength > 512 || offer.sessionKeyLength > 512
      ensures r != Err(InvalidArgument) ==>
                var gid, k := old(nextId), if count == 0 then 1 else count;
                var fits := offer.terms.maxParticipants == 0 || k <= offer.terms.maxParticipants;
                && gid !in old(gatherings) && gid in gatherings
                && r == (if fits then Ok((gid, k)) else Err(SessionFull))
                && gatherings[gid] ==
                   Gathering(MatchmakeSession, p, p, offer.terms, true, if fits then Copies(p, k) else [])
                && sessions == old(sessions)[gid :=
                     offer.session.(systemPasswordEnabled := false, systemPassword := "")]
                && (fits ==> PlaysOnly(State(), p, gid, k))
    {
      hide Leads, Inv, Run, ExitAll, ExitActions, JoinVerdict, JoinedSession, JoinActions, ValidSession, PlaysOnly,
           PlayingIn, SessionsListing;
      InvalidSession(offer);
      NextIsFresh(State());
      ghost var s0 := State();
      LeadsNowhere(s0);
      if |message| > MESSAGE_MAX {
        return Err(InvalidArgument), [], [];
      }
      ended := EndMatchmakeSessionsParticipation(p);
      ghost var s1 := State();
      actions := ExitActions(s0, ended, p, Leaving);
      EndingLeads(s0, ended, p, Leaving);
      EndedEverywhere(s0, p, ended);
      if !offer.isMatchmakeSession || !ValidSession(offer) {
        return Err(InvalidArgument), ended, actions;
      }
      var m := Stored(offer.session);
      var gid := CreateMatchmakeSession(p, offer.terms, offer.session);
      CreationLeads(s0, actions, s1, p, offer.terms, offer.session);
      actions := actions + [CreateSession(p, offer.terms, m)];
      ghost var s2 := State();
      SettlingKeepsPlay(s1, None, p, offer.terms, offer.session);
      FirstJoin(s2, gid, m, p, offer.terms, Party(count));
      var joined := JoinMatchmakeSession(gid, m, p, count);
      if joined.Err? {
        return Err(joined.error), ended, actions;
      }
      JoinLeads(s0, actions, s2, gid, m, p, Party(count));
      return Ok((gid, joined.value)), ended, actions + JoinActions(gid, m, p, Party(count));
    }

    /** MatchmakeExtension::CreateMatchmakeSessionWithParam: the caller brings other players along. */
    method OpenSessionWithParam(p: Pid, offer: Offer, message: string, guests: seq<Pid>, gidCheck: nat)
      returns (r: Result<nat>, ghost ended: seq<nat>, ghost actions: seq<Action>)
      requires Valid() && p != 0 && |guests| < INT32_MAX && offer.terms.maxParticipants <= INT32_MAX
      modifies this
      ensures Leads(old(State()), actions, State())
      ensures var check := ParticipationCheck(old(State()), gidCheck, guests + [p]);
              if !ValidSession(offer) || |message| > MESSAGE_MAX then
                r == Err(InvalidArgument) && State() == old(State())
              else if check.Err? then
                r == Err(check.error) && State() == old(State())
              else
                var m, gid := Stored(offer.session), old(nextId);
                var s := Apply(ExitAll(old(State()), ended, p, Leaving), CreateSession(p, offer.terms, m));
                && SessionsListing(old(State()), p, ended)
                && gid in s.gatherings
                && r == GroupVerdict(s, gid, p, guests, false)
                && State() == if r.Ok? then JoinedGroup(s, gid, m, p, guests, false) else s
    {
      hide Leads, Inv, Run, ExitAll, ExitActions, GroupVerdict, JoinedGroup, GroupActions;
      ghost var s0 := State();
      LeadsNowhere(s0);
      if !ValidSession(offer) || |message| > MESSAGE_MAX {
        return Err(InvalidArgument), [], [];
      }
      var check := CheckGatheringForParticipation(gidCheck, guests + [p]);
      if check.Err? {
        return Err(check.error), [], [];
      }
      ended := EndMatchmakeSessionsParticipation(p);
      ghost var s1 := State();
      actions := ExitActions(s0, ended, p, Leaving);
      EndingLeads(s0, ended, p, Leaving);
      ExitAllRows(s0, ended, p, Leaving);
      var m := Stored(offer.session);
      var gid := CreateMatchmakeSession(p, offer.terms, offer.session);
      CreationLeads(s0, actions, s1, p, offer.terms, offer.session);
      actions := actions + [CreateSession(p, offer.terms, m)];
      ghost var s2 := State();
      r := JoinMatchmakeSessionWithParticipants(gid, m, p, guests, false);
      if r.Ok? {
        GroupLeads(s0, actions, s2, gid, m, p, guests, false);
        actions := actions + GroupActions(gid, m, p, guests, false);
      }
    }

    // ---- Handlers: joining by id ------------------------------------------------------------

    /** MatchmakeExtension::JoinMatchmakeSession (`count` 1) and JoinMatchmakeSessionEx. */
    method JoinById(p: Pid, gid: nat, message: string, count: nat)
      returns (r: Result<nat>, ghost actions: seq<Action>)
      requires Valid() && count < 0x1_0000
      modifies this
      ensures Leads(old(State()), actions, State())
      ensures var m := Loaded(old(State()), gid);
              r == if |message| > MESSAGE_MAX then Err(InvalidArgument)
                   else if m.Err? then Err(m.error)
                   else if m.value.userPasswordEnabled || m.value.systemPasswordEnabled then Err(PermissionDenied)
                   else if !m.value.openParticipation then Err(PermissionDenied)
                   else JoinVerdict(old(State()), gid, p, Party(count))
      ensures r.Ok? ==>
                && gid in old(sessions) && gid in old(gatherings) && old(sessions)[gid].attribs != []
                && State() == JoinedSession(old(State()), gid, old(sessions)[gid], p, Party(count))
      ensures r.Err? ==> State() == old(State())
      ensures var void := gid !in old(gatherings) || !old(gatherings)[gid].registered
                          || !old(gatherings)[gid].kind.MatchmakeSession?;
              && (|message| > 256 ==> r == Err(InvalidArgument))
              && (|message| <= 256 && void ==> r == Err(SessionVoid))
              && (|message| <= 256 && !void && old(gatherings)[gid].participants == [] ==> r == Err(Unknown))
              && (|message| <= 256 && !void && old(gatherings)[gid].participants != [] ==>
                    && gid in old(sessions)
                    && var g, m, k := old(gatherings)[gid], old(sessions)[gid], if count == 0 then 1 else count;
                       var fits := g.terms.maxParticipants == 0 || |g.participants| + k <= g.terms.maxParticipants;
                       r == if m.userPasswordEnabled || m.systemPasswordEnabled || !m.openParticipation then Err(PermissionDenied)
                            else if !fits then Err(SessionFull)
                            else if p in g.participants then Err(AlreadyParticipated)
                            else Ok((|g.participants| + k) % UINT32))
      ensures r.Ok? ==>
                && gid in old(gatherings)
                && var g, k := old(gatherings)[gid], if count == 0 then 1 else count;
                   var total := g.participants + Copies(p, k);
                   gatherings == old(gatherings)[gid := g.(participants := total)] && multiset(total)[p] == k
    {
      hide Leads, Run, JoinVerdict, JoinedSession, JoinActions;
      ghost var s0 := State();
      LeadsNowhere(s0);
      actions := [];
      if |message| > MESSAGE_MAX {
        return Err(InvalidArgument), [];
      }
      var m := Loaded(State(), gid);
      if m.Err? {
        return Err(m.error), [];
      }
      if m.value.userPasswordEnabled || m.value.systemPasswordEnabled {
        return Err(PermissionDenied), [];
      }
      if !m.value.openParticipation {
        return Err(PermissionDenied), [];
      }
      assert TablesJoin(s0);
      JoinVerdictMeans(s0, gid, p, Party(count));
      hide Inv;
      r := JoinMatchmakeSession(gid, m.value, p, count);
      if r.Ok? {
        CopiesCount(p, Party(count));
        JoinLeads(s0, [], s0, gid, m.value, p, Party(count));
        actions := [] + JoinActions(gid, m.value, p, Party(count));
      }
    }

    /** MatchmakeExtension::JoinMatchmakeSessionWithParam. */
    method JoinByIdWithParam(p: Pid, gid: nat, message: string, guests: seq<Pid>, alreadyJoined: bool, gidCheck: nat,
                             userPassword: string, systemPassword: string)
      returns (r: Result<nat>, ghost actions: seq<Action>)
      requires Valid() && |guests| < INT32_MAX
      modifies this
      ensures Leads(old(State()), actions, State())
      ensures var check, m := ParticipationCheck(old(State()), gidCheck, guests + [p]), Loaded(old(State()), gid);
              r == if |message| > MESSAGE_MAX then Err(InvalidArgument)
                   else if check.Err? then Err(check.error)
                   else if m.Err? then Err(m.error)
                   else if m.value.userPasswordEnabled && userPassword != m.value.userPassword then Err(InvalidPassword)
                   else if m.value.systemPasswordEnabled && systemPassword != m.value.systemPassword then Err(InvalidPassword)
                   else if !m.value.openParticipation then Err(PermissionDenied)
                   else GroupVerdict(old(State()), gid, p, guests, alreadyJoined)
      ensures r.Ok? ==>
                && gid in old(sessions) && gid in old(gatherings) && old(sessions)[gid].attribs != []
                && State() == JoinedGroup(old(State()), gid, old(sessions)[gid], p, guests, alreadyJoined)
      ensures r.Err? ==> State() == old(State())
    {
      hide Leads, Run, GroupVerdict, JoinedGroup, GroupActions;
      ghost var s0 := State();
      LeadsNowhere(s0);
      actions := [];
      if |message| > MESSAGE_MAX {
        return Err(InvalidArgument), [];
      }
      var check := CheckGatheringForParticipation(gidCheck, guests + [p]);
      if check.Err? {
        return Err(check.error), [];
      }
      var m := Loaded(State(), gid);
      if m.Err? {
        return Err(m.error), [];
      }
      if m.value.userPasswordEnabled && userPassword != m.value.userPassword {
        return Err(InvalidPassword), [];
      }
      if m.value.systemPasswordEnabled && systemPassword != m.value.systemPassword {
        return Err(InvalidPassword), [];
      }
      if !m.value.openParticipation {
        return Err(PermissionDenied), [];
      }
      assert TablesJoin(s0);
      hide Inv;
      r := JoinMatchmakeSessionWithParticipants(gid, m.value, p, guests, alreadyJoined);
      if r.Ok? {
        GroupLeads(s0, [], s0, gid, m.value, p, guests, alreadyJoined);
        actions := [] + GroupActions(gid, m.value, p, guests, alreadyJoined);
      }
    }

    // ---- Handlers: auto-matchmaking -----------------------------------------------------------

    /**
     MatchmakeExtension::AutoMatchmake_Postpone: leave everything, find the closest session or
     open one, and join it. It cannot fail on a valid session, and the player ends up, once,
     in exactly one registered session.
     */
    method AutoMatchmake(p: Pid, offer: Offer, message: string, friends: set<Pid>)
      returns (r: Result<(nat, nat)>, ghost ended: seq<nat>, ghost found: Option<nat>, ghost actions: seq<Action>)
      requires Valid() && p != 0 && offer.terms.maxParticipants <= INT32_MAX
      modifies this
      ensures Leads(old(State()), actions, State())
      ensures |message| > MESSAGE_MAX ==> r == Err(InvalidArgument) && State() == old(State())
      ensures |message| <= MESSAGE_MAX ==> SessionsListing(old(State()), p, ended)
      ensures |message| <= MESSAGE_MAX && !(offer.isMatchmakeSession && ValidSession(offer)) ==>
                r == Err(InvalidArgument) && State() == ExitAll(old(State()), ended, p, Leaving)
      ensures |message| <= MESSAGE_MAX && offer.isMatchmakeSession && ValidSession(offer) ==>
                && r.Ok?
                && PlaysOnly(State(), p, r.value.0, 1)
                && r.value.1 == |gatherings[r.value.0].participants|
      ensures |message| <= MESSAGE_MAX && offer.isMatchmakeSession && ValidSession(offer) ==>
                var s := ExitAll(old(State()), ended, p, Leaving);
                && (found.None? <==> forall gid :: !Candidate(s, gid, offer.terms, offer.session, friends))
                && (found.Some? ==> Candidate(s, found.value, offer.terms, offer.session, friends))
                && (found.Some? ==> forall gid :: Candidate(s, gid, offer.terms, offer.session, friends) ==>
                      && found.value in old(sessions) && gid in old(sessions)
                      && |old(sessions)[found.value].attribs| >= 6 && |old(sessions)[gid].attribs| >= 6
                      && var want := offer.session.attribs[1];
                         var have, other := old(sessions)[found.value].attribs[1], old(sessions)[gid].attribs[1];
                         (if want < have then have - want else want - have)
                         <= if want < other then other - want else want - other)
                && r.value.0 == SettledId(s, found)
                && r.value.0 in Settled(s, found, p, offer.terms, offer.session).gatherings
                && SettledSession(s, found, offer.session).attribs != []
                && State() == JoinedSession(Settled(s, found, p, offer.terms, offer.session), r.value.0,
                                            SettledSession(s, found, offer.session), p, 1)
    {
      hide Leads, Inv, Run, ExitAll, ExitActions, JoinVerdict, JoinedSession, JoinActions, PlayingIn, Distance,
           SessionsListing, CountOf, PlaysOnly;
      ghost var s0 := State();
      LeadsNowhere(s0);
      found := None;
      if |message| > MESSAGE_MAX {
        return Err(InvalidArgument), [], None, [];
      }
      ended := EndMatchmakeSessionsParticipation(p);
      ghost var s1 := State();
      actions := ExitActions(s0, ended, p, Leaving);
      EndingLeads(s0, ended, p, Leaving);
      if !offer.isMatchmakeSession || !ValidSession(offer) {
        return Err(InvalidArgument), ended, None, actions;
      }
      var hit := FindMatchmakeSession(State(), offer.terms, offer.session, friends);
      found := hit;
      SettlingLeads(s0, actions, s1, hit, p, offer.terms, offer.session);
      EndedEverywhere(s0, p, ended);
      SettlingKeepsPlay(s1, hit, p, offer.terms, offer.session);
      actions := actions + SettledActions(hit, p, offer.terms, offer.session);
      var gid, m := SettleOn(hit, p, offer.terms, offer.session);
      ghost var s2 := State();
      var joined := JoinMatchmakeSession(gid, m, p, 1);
      assert joined == Ok(|s2.gatherings[gid].participants| + 1) by {
        LeadsToRows(s0, actions, s2);
        NotPlaying(s2, p, gid);
        VacancyAdmits(s2, gid, p);
      }
      JoinLeads(s0, actions, s2, gid, m, p, 1);
      SessionSeats(s2, gid, m, p, 1);
      return Ok((gid, joined.value)), ended, found, actions + JoinActions(gid, m, p, 1);
    }

    /** MatchmakeExtension::AutoMatchmakeWithSearchCriteria_Postpone. */
    method AutoMatchmakeWithCriteria(p: Pid, cs: seq<Criterion>, offer: Offer, message: string)
      returns (r: Result<(nat, nat)>, ghost ended: seq<nat>, ghost pages: seq<seq<nat>>, ghost actions: seq<Action>)
      requires Valid() && p != 0 && offer.terms.maxParticipants <= INT32_MAX
      modifies this
      ensures Leads(old(State()), actions, State())
      ensures |message| > MESSAGE_MAX || |cs| > 2 ==> r == Err(InvalidArgument) && State() == old(State())
      ensures |message| <= MESSAGE_MAX && |cs| <= 2 ==>
                && SessionsListing(old(State()), p, ended)
                && var s := ExitAll(old(State()), ended, p, Leaving);
                   var m := offer.session.(gameMode := CanonicalGameMode(offer.session.gameMode));
                   if !offer.isMatchmakeSession || !ValidSession(offer) then r == Err(InvalidArgument) && State() == s
                   else SearchOutcome(s, p, cs, offer.terms, m, pages, r, State())
      ensures r.Ok? ==> PlaysOnly(State(), p, r.value.0, PartyOf(cs))
      ensures |message| <= MESSAGE_MAX && |cs| <= 2 && r.Err? ==> PlayingIn(State(), p) == {}
    {
      hide Leads, Inv, Run, ExitAll, ExitActions, SearchOutcome, PartyOf, SessionsListing, ValidSession, PlayingIn,
           PlaysOnly, CanonicalGameMode;
      ghost var s0 := State();
      LeadsNowhere(s0);
      if |message| > MESSAGE_MAX || |cs| > 2 {
        return Err(InvalidArgument), [], [], [];
      }
      ended := EndMatchmakeSessionsParticipation(p);
      ghost var s1 := State();
      EndingLeads(s0, ended, p, Leaving);
      EndedEverywhere(s0, p, ended);
      if !offer.isMatchmakeSession || !ValidSession(offer) {
        return Err(InvalidArgument), ended, [], ExitActions(s0, ended, p, Leaving);
      }
      var m := offer.session.(gameMode := CanonicalGameMode(offer.session.gameMode));
      OfferedAttributes(offer);
      LeadsSoundly(s0, ExitActions(s0, ended, p, Leaving), s1);
      ghost var more;
      r, pages, more := SearchOrOpen(p, cs, offer.terms, m);
      LeadsAfter(s0, ExitActions(s0, ended, p, Leaving), s1, more, State());
      actions := ExitActions(s0, ended, p, Leaving) + more;
    }

    /** Search, check the password of what is found, or open a session, and join, for a player who plays nowhere. */
    method SearchOrOpen(p: Pid, cs: seq<Criterion>, terms: Terms, m: Session)
      returns (r: Result<(nat, nat)>, ghost pages: seq<seq<nat>>, ghost actions: seq<Action>)
      requires Valid() && p != 0 && terms.maxParticipants <= INT32_MAX && |m.attribs| == 6
      requires PlayingIn(State(), p) == {}
      modifies this
      ensures Leads(old(State()), actions, State())
      ensures SearchOutcome(old(State()), p, cs, terms, m, pages, r, State())
      ensures r.Ok? ==> PlaysOnly(State(), p, r.value.0, PartyOf(cs))
      ensures r.Err? ==> PlayingIn(State(), p) == {}
    {
      hide Leads, Inv, Run, JoinVerdict, JoinedSession, JoinActions, Answers, AnyPanics, SearchOutcome, Flatten, Overfills,
           PartyOf, SettledId, Apply, Stored, CountOf, Settled, SettledActions, Joinable, Populated, PlayingIn, RowsOk,
           PlaysOnly;
      ghost var s := State();
      LeadsNowhere(s);
      var reply;
      reply, pages := FindBySearchCriteria(State(), cs, Range(0, 1), Some(m));
      if reply.IndexPanic? {
        OutcomeCrash(s, p, cs, terms, m, pages);
        return Err(Crash), pages, [];
      }
      AnswersPopulated(s, cs, Some(m), pages);
      var found := FirstOf(reply.gids);
      SettlingLeads(s, [], s, found, p, terms, m);
      SettlingKeepsPlay(s, found, p, terms, m);
      SessionKnown(s, found);
      if found.Some? && (sessions[found.value].userPasswordEnabled || sessions[found.value].systemPasswordEnabled) {
        OutcomeLocked(s, p, cs, terms, m, pages);
        return Err(PermissionDenied), pages, [];
      }
      var gid, joined := SettleOn(found, p, terms, m);
      actions := [] + SettledActions(found, p, terms, m);
      ghost var t := State();
      var vacant := if |cs| > 0 then cs[0].vacantParticipants % 0x1_0000 else 1;
      LeadsToRows(s, actions, t);
      PartyIs(cs);
      LoneJoin(t, gid, p, Party(vacant));
      var v := JoinMatchmakeSession(gid, joined, p, vacant);
      OutcomeJoined(s, p, cs, terms, m, pages, v, State());
      if v.Err? {
        return Err(v.error), pages, actions;
      }
      SessionSeats(t, gid, joined, p, Party(vacant));
      JoinLeads(s, actions, t, gid, joined, p, Party(vacant));
      return Ok((gid, v.value)), pages, actions + JoinActions(gid, joined, p, Party(vacant));
    }

    /** MatchmakeExtension::AutoMatchmakeWithParam_Postpone: the caller brings other players along. */
    method AutoMatchmakeWithParam(p: Pid, cs: seq<Criterion>, offer: Offer, message: string, guests: seq<Pid>, gidCheck: nat)
      returns (r: Result<(nat, nat)>, ghost ended: seq<nat>, ghost pages: seq<seq<nat>>, ghost actions: seq<Action>)
      requires Valid() && p != 0 && |guests| < INT32_MAX && offer.terms.maxParticipants <= INT32_MAX
      modifies this
      ensures Leads(old(State()), actions, State())
      ensures var check := ParticipationCheck(old(State()), gidCheck, guests + [p]);
              if !ValidSession(offer) || |message| > MESSAGE_MAX then r == Err(InvalidArgument) && State() == old(State())
              else if check.Err? then r == Err(check.error) && State() == old(State())
              else
                && SessionsListing(old(State()), p, ended)
                && GroupOutcome(ExitAll(old(State()), ended, p, Leaving), p, cs, offer.terms, offer.session, guests, pages,
                                r, State())
      ensures r.Ok? ==> PlaysOnly(State(), p, r.value.0, 1 + multiset(guests)[p])
      ensures ValidSession(offer) && |message| <= MESSAGE_MAX
              && ParticipationCheck(old(State()), gidCheck, guests + [p]).Ok? && r.Err? ==>
                PlayingIn(State(), p) == {} && r.error in {Crash, PermissionDenied, SessionFull}
    {
      hide Leads, Inv, Run, ExitAll, ExitActions, GroupVerdict, JoinedGroup, GroupActions, Answers, AnyPanics,
           SessionsListing, Settled, SettledActions, Joinable, Populated, ValidSession, ParticipationCheck, PlayingIn,
           RowsOk, PlaysOnly, CountOf, GroupOutcome, Flatten, SettledId, Apply, Stored;
      ghost var s0 := State();
      LeadsNowhere(s0);
      pages := [];
      if !ValidSession(offer) || |message| > MESSAGE_MAX {
        return Err(InvalidArgument), [], [], [];
      }
      var check := CheckGatheringForParticipation(gidCheck, guests + [p]);
      if check.Err? {
        return Err(check.error), [], [], [];
      }
      ended := EndMatchmakeSessionsParticipation(p);
      ghost var s1 := State();
      actions := ExitActions(s0, ended, p, Leaving);
      EndingLeads(s0, ended, p, Leaving);
      EndedEverywhere(s0, p, ended);
      var m := offer.session;
      OfferedAttributes(offer);
      var reply;
      reply, pages := FindBySearchCriteria(State(), cs, Range(0, 1), Some(m));
      if reply.IndexPanic? {
        GroupCrash(s1, p, cs, offer.terms, m, guests, pages);
        return Err(Crash), ended, pages, actions;
      }
      AnswersPopulated(s1, cs, Some(m), pages);
      var found := FirstOf(reply.gids);
      SettlingLeads(s0, actions, s1, found, p, offer.terms, m);
      SettlingKeepsPlay(s1, found, p, offer.terms, m);
      SessionKnown(s1, found);
      if found.Some? && (sessions[found.value].userPasswordEnabled || sessions[found.value].systemPasswordEnabled) {
        GroupLocked(s1, p, cs, offer.terms, m, guests, pages);
        return Err(PermissionDenied), ended, pages, actions;
      }
      var gid, joined := SettleOn(found, p, offer.terms, m);
      actions := actions + SettledActions(found, p, offer.terms, m);
      ghost var s2 := State();
      LeadsToRows(s0, actions, s2);
      LoneGroupJoin(s2, gid, p, guests);
      var v := JoinMatchmakeSessionWithParticipants(gid, joined, p, guests, false);
      GroupJoined(s1, p, cs, offer.terms, m, guests, pages, v, State());
      if v.Err? {
        return Err(v.error), ended, pages, actions;
      }
      GroupSeats(s2, gid, joined, p, guests);
      GroupLeads(s0, actions, s2, gid, joined, p, guests, false);
      return Ok((gid, v.value)), ended, pages, actions + GroupActions(gid, joined, p, guests, false);
    }

    /** Take the session that was found, or open the one that was asked for. */
    method SettleOn(found: Option<nat>, p: Pid, terms: Terms, m: Session) returns (gid: nat, joined: Session)
      requires found.Some? ==> found.value in sessions
      modifies this
      ensures State() == Settled(old(State()), found, p, terms, m)
      ensures gid == SettledId(old(State()), found) && joined == SettledSession(old(State()), found, m)
    {
      if found.Some? {
        gid, joined := found.value, sessions[found.value];
      } else {
        joined := Stored(m);
        gid := CreateMatchmakeSession(p, terms, m);
      }
    }
  }

  /** The reply and the new store of a search that is made in the store `s`, for the session `m`. */
  ghost predicate SearchOutcome(s: Store, p: Pid, cs: seq<Criterion>, terms: Terms, m: Session, pages: seq<seq<nat>>,
                                r: Result<(nat, nat)>, after: Store)
  {
    if AnyPanics(cs, Some(m)) then r == Err(Crash) && after == s
    else
      var found := FirstOf(Flatten(pages));
      && Answers(s, cs, Range(0, 1), Some(m), pages)
      && (found.Some? ==> Populated(s, found.value))
      && var joined := SettledSession(s, found, m);
         if Locked(s, found) then
           r == Err(PermissionDenied) && after == s
         else
           var t, gid, k := Settled(s, found, p, terms, m), SettledId(s, found), PartyOf(cs);
           && gid in t.gatherings && joined.attribs != []
           && r == (if Overfills(t, gid, k) then Err(SessionFull)
                    else Ok((gid, (|t.gatherings[gid].participants| + k) % UINT32)))
           && after == if r.Err? then t else JoinedSession(t, gid, joined, p, k)
  }

  lemma OutcomeCrash(s: Store, p: Pid, cs: seq<Criterion>, terms: Terms, m: Session, pages: seq<seq<nat>>)
    requires AnyPanics(cs, Some(m))
    ensures SearchOutcome(s, p, cs, terms, m, pages, Err(Crash), s)
  {
  }

  /** The search found a session with a password. */
  predicate Locked(s: Store, found: Option<nat>)
    requires found.Some? ==> found.value in s.sessions
  {
    found.Some? && (s.sessions[found.value].userPasswordEnabled || s.sessions[found.value].systemPasswordEnabled)
  }

  lemma OutcomeLocked(s: Store, p: Pid, cs: seq<Criterion>, terms: Terms, m: Session, pages: seq<seq<nat>>)
    requires !AnyPanics(cs, Some(m)) && Answers(s, cs, Range(0, 1), Some(m), pages)
    requires var found := FirstOf(Flatten(pages)); (found.Some? ==> Populated(s, found.value)) && Locked(s, found)
    ensures SearchOutcome(s, p, cs, terms, m, pages, Err(PermissionDenied), s)
  {
    hide AnyPanics, Answers, Flatten;
  }

  lemma OutcomeJoined(s: Store, p: Pid, cs: seq<Criterion>, terms: Terms, m: Session, pages: seq<seq<nat>>,
                      v: Result<nat>, after: Store)
    requires !AnyPanics(cs, Some(m)) && Answers(s, cs, Range(0, 1), Some(m), pages)
    requires var found := FirstOf(Flatten(pages));
             && (found.Some? ==> Populated(s, found.value)) && !Locked(s, found)
             && var t, gid, k := Settled(s, found, p, terms, m), SettledId(s, found), PartyOf(cs);
                && gid in t.gatherings && SettledSession(s, found, m).attribs != []
                && v == (if Overfills(t, gid, k) then Err(SessionFull)
                         else Ok((|t.gatherings[gid].participants| + k) % UINT32))
                && after == if v.Err? then t else JoinedSession(t, gid, SettledSession(s, found, m), p, k)
    ensures SearchOutcome(s, p, cs, terms, m, pages,
                          if v.Ok? then Ok((SettledId(s, FirstOf(Flatten(pages))), v.value)) else Err(v.error), after)
  {
    hide AnyPanics, Answers, Flatten, Settled, Overfills, JoinedSession, PartyOf;
  }

  lemma OutcomeAnswers(s: Store, p: Pid, cs: seq<Criterion>, terms: Terms, m: Session, pages: seq<seq<nat>>,
                       r: Result<(nat, nat)>, after: Store)
    requires SearchOutcome(s, p, cs, terms, m, pages, r, after) && !AnyPanics(cs, Some(m))
    ensures Answers(s, cs, Range(0, 1), Some(m), pages)
  {
    hide AnyPanics, Answers, Flatten;
  }

  /** The answer on the columns, when nothing is found: a fresh session, which the caller's party may be too large for. */
  lemma OpenedOnColumns(s: Store, p: Pid, cs: seq<Criterion>, terms: Terms, m: Session, pages: seq<seq<nat>>,
                        r: Result<(nat, nat)>, after: Store)
    requires SearchOutcome(s, p, cs, terms, m, pages, r, after) && !AnyPanics(cs, Some(m)) && Flatten(pages) == []
    ensures r.Err? <==> r == Err(SessionFull)
    ensures r == Err(SessionFull) <==> terms.maxParticipants != 0 && PartyOf(cs) > terms.maxParticipants
    ensures r.Ok? ==>
              && r.value == (s.nextId, PartyOf(cs))
              && after.gatherings == s.gatherings[s.nextId :=
                   Gathering(MatchmakeSession, p, p, terms, true, Copies(p, PartyOf(cs)))]
  {
    hide AnyPanics, Answers, Flatten, PartyOf;
    assert [] + Copies(p, PartyOf(cs)) == Copies(p, PartyOf(cs));
  }

  /** The answer on the columns of the session that is found: refused exactly for a password, or for want of room. */
  lemma FoundOnColumns(s: Store, p: Pid, cs: seq<Criterion>, terms: Terms, m: Session, pages: seq<seq<nat>>,
                       r: Result<(nat, nat)>, after: Store)
    requires SearchOutcome(s, p, cs, terms, m, pages, r, after) && !AnyPanics(cs, Some(m)) && Flatten(pages) != []
    ensures var gid := Flatten(pages)[0];
            && gid in s.gatherings && gid in s.sessions
            && var g, row := s.gatherings[gid], s.sessions[gid];
               && (r == Err(PermissionDenied) <==> row.userPasswordEnabled || row.systemPasswordEnabled)
               && (r == Err(SessionFull) <==>
                     && !row.userPasswordEnabled && !row.systemPasswordEnabled
                     && g.terms.maxParticipants != 0 && |g.participants| + PartyOf(cs) > g.terms.maxParticipants)
               && (r.Ok? ==>
                     && r.value == (gid, (|g.participants| + PartyOf(cs)) % 0x1_0000_0000)
                     && after.gatherings == s.gatherings[gid :=
                          g.(participants := g.participants + Copies(p, PartyOf(cs)))])
    ensures r.Err? ==> r.error in {PermissionDenied, SessionFull}
  {
    hide AnyPanics, Answers, Flatten, PartyOf;
  }

  /** The party is what the first criterion says, cut to 16 bits, and at least the caller. */
  lemma PartyOnColumns(cs: seq<Criterion>)
    ensures PartyOf(cs) == if cs == [] || cs[0].vacantParticipants % 0x1_0000 == 0 then 1
                           else cs[0].vacantParticipants % 0x1_0000
  {
  }

  /** A session that is found, open, and too small. */
  lemma OutcomeFull(s: Store, p: Pid, cs: seq<Criterion>, terms: Terms, m: Session, pages: seq<seq<nat>>,
                    r: Result<(nat, nat)>, after: Store, gid: nat)
    requires SearchOutcome(s, p, cs, terms, m, pages, r, after) && !AnyPanics(cs, Some(m))
    requires FirstOf(Flatten(pages)) == Some(gid) && gid in s.sessions && !Locked(s, Some(gid))
    requires Overfills(s, gid, PartyOf(cs))
    ensures r == Err(SessionFull) && after == s
  {
    hide AnyPanics, Answers, Flatten, Overfills, JoinedSession, PartyOf;
  }

  /** The same for a search by a caller who brings guests. */
  ghost predicate GroupOutcome(s: Store, p: Pid, cs: seq<Criterion>, terms: Terms, m: Session, guests: seq<Pid>,
                               pages: seq<seq<nat>>, r: Result<(nat, nat)>, after: Store)
  {
    if AnyPanics(cs, Some(m)) then r == Err(Crash) && after == s
    else
      var found := FirstOf(Flatten(pages));
      && Answers(s, cs, Range(0, 1), Some(m), pages)
      && (found.Some? ==> Populated(s, found.value))
      && var joined := SettledSession(s, found, m);
         if Locked(s, found) then r == Err(PermissionDenied) && after == s
         else
           var t, gid := Settled(s, found, p, terms, m), SettledId(s, found);
           var v := GroupVerdict(t, gid, p, guests, false);
           && gid in t.gatherings && joined.attribs != []
           && r == (if v.Ok? then Ok((gid, v.value)) else Err(v.error))
           && after == if v.Ok? then JoinedGroup(t, gid, joined, p, guests, false) else t
  }

  lemma GroupCrash(s: Store, p: Pid, cs: seq<Criterion>, terms: Terms, m: Session, guests: seq<Pid>, pages: seq<seq<nat>>)
    requires AnyPanics(cs, Some(m))
    ensures GroupOutcome(s, p, cs, terms, m, guests, pages, Err(Crash), s)
  {
  }

  lemma GroupLocked(s: Store, p: Pid, cs: seq<Criterion>, terms: Terms, m: Session, guests: seq<Pid>, pages: seq<seq<nat>>)
    requires !AnyPanics(cs, Some(m)) && Answers(s, cs, Range(0, 1), Some(m), pages)
    requires var found := FirstOf(Flatten(pages)); (found.Some? ==> Populated(s, found.value)) && Locked(s, found)
    ensures GroupOutcome(s, p, cs, terms, m, guests, pages, Err(PermissionDenied), s)
  {
    hide AnyPanics, Answers, Flatten;
  }

  lemma GroupJoined(s: Store, p: Pid, cs: seq<Criterion>, terms: Terms, m: Session, guests: seq<Pid>,
                    pages: seq<seq<nat>>, v: Result<nat>, after: Store)
    requires !AnyPanics(cs, Some(m)) && Answers(s, cs, Range(0, 1), Some(m), pages)
    requires var found := FirstOf(Flatten(pages));
             && (found.Some? ==> Populated(s, found.value)) && !Locked(s, found)
             && var t, gid, joined := Settled(s, found, p, terms, m), SettledId(s, found), SettledSession(s, found, m);
                && gid in t.gatherings && joined.attribs != []
                && v == GroupVerdict(t, gid, p, guests, false)
                && after == if v.Ok? then JoinedGroup(t, gid, joined, p, guests, false) else t
    ensures GroupOutcome(s, p, cs, terms, m, guests, pages,
                         if v.Ok? then Ok((SettledId(s, FirstOf(Flatten(pages))), v.value)) else Err(v.error), after)
  {
    hide AnyPanics, Answers, Flatten, Settled, GroupVerdict, JoinedGroup;
  }

  /** The answer on the columns of the first session found, or of the fresh one, where a maximum of 0 is always full. */
  lemma GroupOutcomeOnColumns(s: Store, p: Pid, cs: seq<Criterion>, terms: Terms, m: Session, guests: seq<Pid>,
                              pages: seq<seq<nat>>, r: Result<(nat, nat)>, after: Store)
    requires GroupOutcome(s, p, cs, terms, m, guests, pages, r, after) && !AnyPanics(cs, Some(m))
    requires PlayingIn(s, p) == {} && 1 + |guests| < 0x1_0000_0000
    ensures Flatten(pages) == [] ==>
              && (r == Err(SessionFull) <==> 1 + |guests| > terms.maxParticipants)
              && (r.Ok? ==> r.value == (s.nextId, 1 + |guests|) && after.gatherings == s.gatherings[s.nextId :=
                    Gathering(MatchmakeSession, p, p, terms, true, [p] + guests)])
    ensures Flatten(pages) != [] ==>
              var gid := Flatten(pages)[0];
              && gid in s.gatherings && gid in s.sessions
              && var g, row := s.gatherings[gid], s.sessions[gid];
                 && (r == Err(PermissionDenied) <==> row.userPasswordEnabled || row.systemPasswordEnabled)
                 && (|g.participants| + 1 + |guests| < 0x1_0000_0000 ==>
                       (r == Err(SessionFull) <==>
                          && !row.userPasswordEnabled && !row.systemPasswordEnabled
                          && |g.participants| + 1 + |guests| > g.terms.maxParticipants))
                 && (r.Ok? ==> r.value.0 == gid && after.gatherings == s.gatherings[gid :=
                       g.(participants := g.participants + ([p] + guests))])
    ensures r.Err? ==> r.error in {PermissionDenied, SessionFull}
  {
    var found := FirstOf(Flatten(pages));
    var t, gid, joined := Settled(s, found, p, terms, m), SettledId(s, found), SettledSession(s, found, m);
    SettledMeans(s, found, p, terms, m);
    if !Locked(s, found) {
      if found.Some? {
        NotPlaying(s, p, gid);
      }
      GroupJoinOnColumns(t, gid, joined, p, guests);
    }
    hide AnyPanics, Answers, Flatten, JoinedGroup, PlayingIn, GroupVerdict, Settled, SettledSession;
    assert [] + ([p] + guests) == [p] + guests;
  }

  lemma GroupJoinOnColumns(t: Store, gid: nat, joined: Session, p: Pid, guests: seq<Pid>)
    requires gid in t.gatherings && joined.attribs != [] && p !in t.gatherings[gid].participants
    ensures var g, v := t.gatherings[gid], GroupVerdict(t, gid, p, guests, false);
            && (v.Err? ==> v.error == SessionFull)
            && (|g.participants| + 1 + |guests| < 0x1_0000_0000 ==>
                  v == if |g.participants| + 1 + |guests| > g.terms.maxParticipants then Err(SessionFull)
                       else Ok(|g.participants| + 1 + |guests|))
            && JoinedGroup(t, gid, joined, p, guests, false).gatherings ==
               t.gatherings[gid := g.(participants := g.participants + ([p] + guests))]
  {
    GroupRows(t, gid, joined, p, guests);
    hide JoinedGroup;
  }

  lemma GroupRows(s: Store, gid: nat, m: Session, p: Pid, guests: seq<Pid>)
    requires gid in s.gatherings && m.attribs != []
    ensures var g := s.gatherings[gid];
            JoinedGroup(s, gid, m, p, guests, false).gatherings ==
            s.gatherings[gid := g.(participants := g.participants + ([p] + guests))]
  {
    var s1 := Apply(s, Append(gid, p, [p] + guests));
    CountedAllRuns(s1, guests + [p], m.attribs[0], gid);
  }

  /** The joined row: the caller comes last in the session that was found, or is alone in a fresh one. */
  lemma MatchedOnColumns(s0: Store, ended: seq<nat>, p: Pid, found: Option<nat>, terms: Terms, m: Session)
    requires SessionsListing(s0, p, ended) && m.attribs != []
    requires var s := ExitAll(s0, ended, p, Leaving);
             found.Some? ==> Populated(s, found.value) && s.sessions[found.value].attribs != []
    ensures var s := ExitAll(s0, ended, p, Leaving);
            var t, gid, joined := Settled(s, found, p, terms, m), SettledId(s, found), SettledSession(s, found, m);
            && gid in t.gatherings && joined.attribs != []
            && var after := JoinedSession(t, gid, joined, p, 1);
               && gid in after.gatherings && gid in after.sessions
               && (found.None? ==>
                     && gid == s0.nextId && after.gatherings[gid] == Gathering(MatchmakeSession, p, p, terms, true, [p])
                     && after.sessions[gid] == m.(systemPasswordEnabled := false, systemPassword := ""))
               && (found.Some? ==>
                     && gid == found.value && gid in s0.gatherings
                     && after.gatherings[gid].participants == Without(s0.gatherings[gid].participants, p) + [p]
                     && after.sessions == s0.sessions)
  {
    var s := ExitAll(s0, ended, p, Leaving);
    EndedEverywhere(s0, p, ended);
    if found.Some? {
      EndedList(s0, p, ended, found.value);
    }
    hide ExitAll, SessionsListing, JoinedSession;
    SettledMeans(s, found, p, terms, m);
    JoinedRows(Settled(s, found, p, terms, m), SettledId(s, found), SettledSession(s, found, m), p, 1);
    assert Copies(p, 1) == [p] && [] + [p] == [p];
  }

  /** How many local players the caller brings: what the first criterion says, or one. */
  function PartyOf(cs: seq<Criterion>): (k: nat)
    ensures 0 < k < 0x1_0000
  {
    Party(if cs == [] then 1 else cs[0].vacantParticipants % 0x1_0000)
  }

  /**
   With vacancy-only criteria, a found session is too small for the caller's party only when it was
   found through a later criterion that asks for fewer seats than the first one.
   */
  lemma VacancyMayNotSuffice(s: Store, cs: seq<Criterion>, source: Option<Session>, pages: seq<seq<nat>>)
    requires forall i :: 0 <= i < |cs| ==> cs[i].vacantOnly
    requires Answers(s, cs, Range(0, 1), source, pages) && Flatten(pages) != []
    ensures var gid, k := Flatten(pages)[0], PartyOf(cs);
            && gid in s.gatherings
            && (Overfills(s, gid, k) <==> |s.gatherings[gid].participants| + k > s.gatherings[gid].terms.maxParticipants)
            && (Overfills(s, gid, k) ==>
                  exists i :: 0 < i < |cs| && FromEarliest(s, cs, source, gid, i) && Seats(cs[i]) < k)
    ensures (forall i :: 0 <= i < |cs| ==> Seats(cs[i]) >= PartyOf(cs)) ==> !Overfills(s, Flatten(pages)[0], PartyOf(cs))
  {
    hide Answers, HasMatch, FromEarliest, Seats;
    EarliestWins(s, cs, source, pages);
    var gid := Flatten(pages)[0];
    var i :| FromEarliest(s, cs, source, gid, i);
    SeatsTaken(s, cs, source, gid, i);
    SeatsOfFirst(cs);
  }

  lemma SeatsTaken(s: Store, cs: seq<Criterion>, source: Option<Session>, gid: nat, i: int)
    requires FromEarliest(s, cs, source, gid, i) && forall j :: 0 <= j < |cs| ==> cs[j].vacantOnly
    ensures 0 <= i < |cs| && gid in s.gatherings
    ensures |s.gatherings[gid].participants| + Seats(cs[i]) <= s.gatherings[gid].terms.maxParticipants
    ensures s.gatherings[gid].participants != []
  {
    hide HasMatch, Base, Reads;
  }

  lemma SeatsOfFirst(cs: seq<Criterion>)
    ensures cs != [] ==> PartyOf(cs) <= Seats(cs[0])
  {
  }

  lemma PartyIs(cs: seq<Criterion>)
    ensures PartyOf(cs) == Party(if |cs| > 0 then cs[0].vacantParticipants % 0x1_0000 else 1)
  {
  }

  function FirstOf(gids: seq<nat>): (first: Option<nat>)
  {
    if gids == [] then None else Some(gids[0])
  }

  lemma OfferedAttributes(offer: Offer)
    requires ValidSession(offer)
    ensures |offer.session.attribs| == 6
  {
  }

  lemma SessionKnown(s: Store, found: Option<nat>)
    requires found.Some? ==> Populated(s, found.value)
    ensures found.Some? ==> found.value in s.sessions && found.value in s.gatherings
  {
  }

  /** Whatever a search by criteria returns is a registered, populated session. */
  lemma AnswersPopulated(s: Store, cs: seq<Criterion>, source: Option<Session>, pages: seq<seq<nat>>)
    requires Answers(s, cs, Range(0, 1), source, pages)
    ensures forall gid :: gid in Flatten(pages) ==> Populated(s, gid)
  {
    forall i | 0 <= i < |pages| ensures forall gid :: gid in pages[i] ==> Populated(s, gid) {
      PagePopulated(s, cs[i], Range(0, 1), source, |Flatten(pages[..i])|, pages[i]);
    }
    FlattenMembers(pages);
  }

  lemma {:induction false} FlattenMembers(pages: seq<seq<nat>>)
    ensures forall gid :: gid in Flatten(pages) ==> exists i :: 0 <= i < |pages| && gid in pages[i]
  {
    if pages != [] {
      var front := pages[..|pages| - 1];
      FlattenMembers(front);
      forall gid | gid in Flatten(pages) ensures exists i :: 0 <= i < |pages| && gid in pages[i] {
        if gid in Flatten(front) {
          var i :| 0 <= i < |front| && gid in front[i];
          assert pages[i] == front[i];
        } else {
          assert gid in pages[|pages| - 1];
        }
      }
    }
  }

  lemma PagePopulated(s: Store, c: Criterion, range: Range, source: Option<Session>, found: nat, page: seq<nat>)
    requires PageOf(s, c, range, source, found, page)
    ensures forall gid :: gid in page ==> Populated(s, gid)
  {
    hide Accepts, Ordered, FieldsWellFormed;
    if Usable(c, source) {
      var ids: seq<nat> :|
        && Ordered(s, ids, OrderOf(c, source))
        && (forall gid :: gid in ids <==> JoinedRow(s, gid) && Accepts(c, RowOf(s, gid)))
        && page == Scanned(s, Window(ids, LimitFor(c, range, found).offset, LimitFor(c, range, found).length));
      forall gid | gid in page ensures Populated(s, gid) {
        AcceptsBase(c, RowOf(s, gid));
      }
    }
  }

  lemma AcceptsBase(c: Criterion, row: Row)
    requires Accepts(c, row)
    ensures Base(c, row)
  {
  }

  lemma NotPlaying(s: Store, p: Pid, gid: nat)
    requires PlayingIn(s, p) == {} && Live(s, gid) && s.gatherings[gid].kind.MatchmakeSession?
    ensures p !in s.gatherings[gid].participants
  {
    assert gid !in PlayingIn(s, p);
  }

  lemma OwnsExactly(s: Store, p: Pid)
    ensures OwnedCommunities(s, p) == set gid | gid in s.gatherings && gid in s.communities
              && s.gatherings[gid].registered && s.gatherings[gid].owner == p
  {
  }

  lemma DepartureHead(gid: nat, g: Gathering, p: Pid, how: Departure)
    ensures var es := DepartureEvents(gid, g, p, how);
            && es == [if how.Leaving? then Left(p, gid, Without(g.participants, p))
                      else Disconnected(p, gid, Without(g.participants, p))]
                     + DepartureEvents(gid, g, p, Leaving)[1..]
  {
  }
}
