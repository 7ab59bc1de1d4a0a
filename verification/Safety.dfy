/**
 The guarantees of the matchmaking service, for every reachable state and every run.
 */
module Safety {
  import opened Participants
  import opened Tables
  import opened Actions
  import opened Replay
  import opened Invariants
  import opened Requests

  /** A reachable, registered, non-empty matchmake session. */
  ghost predicate LiveSession(t: Store, gid: nat)
  {
    Reachable(t) && Live(t, gid) && t.gatherings[gid].kind.MatchmakeSession? && t.gatherings[gid].participants != []
  }

  /** A handler leads from a reachable store to a reachable store. */
  lemma HandlersStayReachable(s: Store, actions: seq<Action>, t: Store)
    requires Reachable(s) && Leads(s, actions, t)
    ensures Reachable(t)
  {
    var before :| Run(EMPTY, before, s);
    RunConcat(EMPTY, before, s, actions, t);
  }

  // ---- The log ----------------------------------------------------------------------------

  /** Replaying the tracking log rebuilds every gathering, and every logged old value and total agrees. */
  lemma LogRebuildsGatherings(t: Store)
    requires Reachable(t)
    ensures Replayed(Kinds(t), map[], t.log) == Some(AllViews(t))
  {
    ReachableInv(t);
  }

  /** Community participations are numbered without gaps, and the counter is their number. */
  lemma CountsMatchLog(t: Store, p: Pid, community: nat)
    requires Reachable(t)
    ensures var n := if (p, community) in t.participations then t.participations[(p, community)] else 0;
            n < UINT32 ==> Numbers(t.log, p, community) == OneTo(n)
    ensures |Numbers(t.log, p, community)| < UINT32
    ensures forall i :: 0 <= i < |Numbers(t.log, p, community)| ==> Numbers(t.log, p, community)[i] == i + 1
  {
    ReachableInv(t);
    assert NumberedFor(t, p, community);
  }

  // ---- Membership -------------------------------------------------------------------------

  ghost predicate OwnerAndHostPresent(terms: Terms)
  {
    forall t, gid :: LiveSession(t, gid) && t.gatherings[gid].terms == terms ==>
      t.gatherings[gid].owner in t.gatherings[gid].participants &&
      t.gatherings[gid].host in t.gatherings[gid].participants
  }

  ghost predicate OwnerFirst(terms: Terms)
  {
    forall t, gid :: LiveSession(t, gid) && t.gatherings[gid].terms == terms ==>
      t.gatherings[gid].participants[0] == t.gatherings[gid].owner
  }

  /** Owner and host always play in the session, exactly for these terms. */
  lemma MembershipExactly(terms: Terms)
    requires terms.maxParticipants <= INT32_MAX
    ensures OwnerAndHostPresent(terms) <==> !SurvivesEmpty(terms) || terms.maxParticipants == 1
  {
    if !SurvivesEmpty(terms) || terms.maxParticipants == 1 {
      forall t, gid | LiveSession(t, gid) && t.gatherings[gid].terms == terms
        ensures t.gatherings[gid].owner in t.gatherings[gid].participants
        ensures t.gatherings[gid].host in t.gatherings[gid].participants
      {
        ReachableInv(t);
        assert RowOk(t.gatherings[gid]);
        assert t.gatherings[gid].participants[0] in t.gatherings[gid].participants;
      }
    } else {
      OwnerLeaves(terms);
      assert LiveSession(AfterOwnerLeft(terms), 1);
    }
  }

  /** The owner keeps the first slot, exactly for these terms. */
  lemma SlotOrderExactly(terms: Terms)
    requires terms.maxParticipants <= INT32_MAX
    ensures OwnerFirst(terms) <==>
            (!SurvivesEmpty(terms) && !terms.flags.participantsChangeOwner) || terms.maxParticipants == 1
  {
    if (!SurvivesEmpty(terms) && !terms.flags.participantsChangeOwner) || terms.maxParticipants == 1 {
      forall t, gid | LiveSession(t, gid) && t.gatherings[gid].terms == terms
        ensures t.gatherings[gid].participants[0] == t.gatherings[gid].owner
      {
        ReachableInv(t);
        assert RowOk(t.gatherings[gid]);
        assert t.gatherings[gid].participants[0] in t.gatherings[gid].participants;
      }
    } else if SurvivesEmpty(terms) {
      OwnerLeaves(terms);
      assert LiveSession(AfterOwnerLeft(terms), 1);
    } else {
      OwnershipClaimed(terms);
      assert LiveSession(AfterOwnerClaim(terms), 1);
    }
  }

  const SOME_SESSION := Session(0, [0, 0, 0, 0, 0, 0], true, 0, 0, 0, "", false, "", false, "")

  /** Player 1 has opened a session, as the server's first gathering. */
  function SoloStore(terms: Terms): (s: Store)
  {
    Apply(Apply(EMPTY, CreateSession(1, terms, SOME_SESSION)), Append(1, 1, [1]))
  }

  /** Player 2 has joined it. */
  function PairStore(terms: Terms): (s: Store)
  {
    Apply(SoloStore(terms), Append(1, 2, [2]))
  }

  /** Then the owner leaves, or player 2 claims the ownership; `Handlers` brings the server into these states. */
  function AfterOwnerLeft(terms: Terms): (s: Store)
  {
    Apply(PairStore(terms), Exit(1, 1, Leaving))
  }

  function AfterOwnerClaim(terms: Terms): (s: Store)
  {
    Apply(PairStore(terms), Claim(1, 2, true))
  }

  lemma StepReachable(s: Store, a: Action)
    requires Reachable(s) && Enabled(s, a)
    ensures Reachable(Apply(s, a))
  {
    var actions :| Run(EMPTY, actions, s);
    RunStep(EMPTY, actions, s, a);
  }

  lemma SoloRun(terms: Terms)
    requires terms.maxParticipants <= INT32_MAX
    ensures var s := SoloStore(terms);
            && Reachable(s) && 1 in s.gatherings && 1 in s.sessions && s.sessions[1] == SOME_SESSION
            && s.gatherings[1] == Gathering(MatchmakeSession, 1, 1, terms, true, [1])
  {
    assert Run(EMPTY, [], EMPTY);
    StepReachable(EMPTY, CreateSession(1, terms, SOME_SESSION));
    StepReachable(Apply(EMPTY, CreateSession(1, terms, SOME_SESSION)), Append(1, 1, [1]));
  }

  lemma PairRun(terms: Terms)
    requires terms.maxParticipants <= INT32_MAX && terms.maxParticipants != 1
    ensures var s := PairStore(terms);
            Reachable(s) && 1 in s.gatherings && s.gatherings[1] == Gathering(MatchmakeSession, 1, 1, terms, true, [1, 2])
  {
    SoloRun(terms);
    StepReachable(SoloStore(terms), Append(1, 2, [2]));
  }

  lemma OwnerLeaves(terms: Terms)
    requires terms.maxParticipants <= INT32_MAX && terms.maxParticipants != 1 && SurvivesEmpty(terms)
    ensures var t := AfterOwnerLeft(terms);
            LiveSession(t, 1) && t.gatherings[1] == Gathering(MatchmakeSession, 1, 1, terms, true, [2])
  {
    PairRun(terms);
    var s := PairStore(terms);
    assert AfterOwnerLeft(terms) == Apply(s, Exit(1, 1, Leaving));
    hide PairStore, AfterOwnerLeft;
    PairLosesOwner(s, terms);
    StepReachable(s, Exit(1, 1, Leaving));
  }

  lemma PairLosesOwner(s: Store, terms: Terms)
    requires 1 in s.gatherings && s.gatherings[1] == Gathering(MatchmakeSession, 1, 1, terms, true, [1, 2])
    requires SurvivesEmpty(terms)
    ensures Enabled(s, Exit(1, 1, Leaving)) && 1 in Apply(s, Exit(1, 1, Leaving)).gatherings
    ensures Apply(s, Exit(1, 1, Leaving)).gatherings[1] == Gathering(MatchmakeSession, 1, 1, terms, true, [2])
  {
    assert [1, 2][..1] == [1] && [1][..0] == [];
    assert Without([1, 2], 1) == [2];
    hide DepartureEvents, Without;
  }

  lemma OwnershipClaimed(terms: Terms)
    requires terms.maxParticipants <= INT32_MAX && terms.maxParticipants != 1 && terms.flags.participantsChangeOwner
    ensures var t := AfterOwnerClaim(terms);
            LiveSession(t, 1) && t.gatherings[1] == Gathering(MatchmakeSession, 2, 2, terms, true, [1, 2])
  {
    PairRun(terms);
    StepReachable(PairStore(terms), Claim(1, 2, true));
  }

  /**
   One departure. Owner and host stay among the players of an ordinary session that
   lives on, exactly unless its host leaves while the owner, another player, has PID 0.
   */
  lemma DepartureKeepsMembership(g: Gathering, p: Pid)
    requires Ordinary(g) && g.registered
    requires g.owner in g.participants && g.host in g.participants && p in g.participants
    requires Departed(g, p).registered
    ensures var g' := Departed(g, p);
            g'.owner in g'.participants && g'.host in g'.participants
            <==> !(p == g.host && p != g.owner && g.owner == 0)
  {
    WithoutMembers(g.participants, p);
    var rest := Without(g.participants, p);
    assert rest[0] in rest;
  }

  /** The exception can only come about when a connection carries PID 0: its session keeps a departed host. */
  lemma NobodyMustNotConnect(terms: Terms)
    requires !SurvivesEmpty(terms)
    ensures var s1 := Apply(EMPTY, CreateSession(0, terms, SOME_SESSION));
            var s2 := Apply(s1, Append(1, 0, [0]));
            var s3 := Apply(s2, Append(1, 5, [5]));
            var s4 := Apply(s3, Claim(1, 5, false));
            var g, t := s4.gatherings[1], Apply(s4, Exit(1, 5, Leaving));
            && 5 == g.host && 5 != g.owner && g.owner == 0
            && Live(t, 1) && t.gatherings[1].participants == [0] && t.gatherings[1].host == 5
  {
    assert Without([0, 5], 5) == [0] by {
      assert [0, 5][..1] == [0] && [0][..0] == [];
    }
    assert [] + [0] + [5] == [0, 5];
  }

  /** And it never does otherwise: in every reachable store no gathering is owned by PID 0. */
  lemma OwnersAreSomebody(t: Store, gid: nat)
    requires Reachable(t) && gid in t.gatherings
    ensures t.gatherings[gid].owner != 0
  {
    ReachableInv(t);
    assert RowOk(t.gatherings[gid]);
  }

  // ---- Capacity ---------------------------------------------------------------------------

  lemma CapacityHeld(t: Store, gid: nat)
    requires Reachable(t) && gid in t.gatherings && t.gatherings[gid].terms.maxParticipants != 0
    ensures |t.gatherings[gid].participants| <= t.gatherings[gid].terms.maxParticipants <= INT32_MAX
  {
    ReachableInv(t);
  }

  // ---- The end of a gathering -------------------------------------------------------------

  /** Once unregistered, a gathering is never registered again and nothing in it changes. */
  lemma {:induction false} UnregisteredIsFinal(s: Store, actions: seq<Action>, t: Store, gid: nat)
    requires Inv(s) && Run(s, actions, t)
    requires gid in s.gatherings && !s.gatherings[gid].registered
    ensures gid in t.gatherings && t.gatherings[gid] == s.gatherings[gid]
    decreases |actions|
  {
    if actions != [] {
      ApplyKeepsInv(s, actions[0]);
      ApplyKeepsFrozen(s, actions[0], gid);
      UnregisteredIsFinal(Apply(s, actions[0]), actions[1..], t, gid);
    }
  }

  // ---- Communities ------------------------------------------------------------------------

  lemma CreationMaxHeld(t: Store, p: Pid)
    requires Reachable(t)
    ensures |set gid | gid in t.gatherings && t.gatherings[gid].kind.PersistentGathering?
                    && t.gatherings[gid].registered && t.gatherings[gid].owner == p| <= 4
  {
    ReachableInv(t);
    assert OwnedCommunities(t, p) == set gid | gid in t.gatherings && t.gatherings[gid].kind.PersistentGathering?
                    && t.gatherings[gid].registered && t.gatherings[gid].owner == p;
  }

  /** A community belongs to its creator for good, and nobody else ever takes part in it. */
  lemma {:induction false} CommunityStaysWithCreator(s: Store, actions: seq<Action>, t: Store, gid: nat)
    requires Inv(s) && Run(s, actions, t) && gid in s.communities
    ensures gid in t.gatherings && gid in s.gatherings && t.gatherings[gid].owner == s.gatherings[gid].owner
    ensures forall q :: q in t.gatherings[gid].participants ==> q == s.gatherings[gid].owner
    decreases |actions|
  {
    if actions == [] {
      assert RowOk(s.gatherings[gid]);
    } else {
      ApplyKeepsInv(s, actions[0]);
      ApplyKeepsFrozen(s, actions[0], gid);
      CommunityOwnerFixed(s, actions[0], gid);
      CommunityStaysWithCreator(Apply(s, actions[0]), actions[1..], t, gid);
    }
  }
}
