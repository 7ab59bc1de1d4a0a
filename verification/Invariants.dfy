/**
 What every action keeps, and therefore what every run of the handlers keeps.
 */
module Invariants {
  import opened Collections
  import opened Participants
  import opened Tables
  import opened Actions
  import opened Replay

  /** Sessions whose membership the server manages: they end with their last player. */
  predicate Ordinary(g: Gathering)
  {
    g.kind.MatchmakeSession? && !SurvivesEmpty(g.terms)
  }

  /** A session with a single slot, which only its creator can take. */
  predicate Solo(g: Gathering)
  {
    g.kind.MatchmakeSession? && g.terms.maxParticipants == 1
  }

  ghost predicate RowOk(g: Gathering)
  {
    && g.owner != 0
    && g.terms.maxParticipants <= INT32_MAX
    && (g.terms.maxParticipants != 0 ==> |g.participants| <= g.terms.maxParticipants)
    && (Ordinary(g) && g.registered ==>
          if g.participants == [] then g.host == g.owner
          else g.owner in g.participants && g.host in g.participants)
    && (Ordinary(g) && g.registered && g.participants != [] && !g.terms.flags.participantsChangeOwner ==>
          g.participants[0] == g.owner)
    && (g.kind.PersistentGathering? || Solo(g) ==> forall q :: q in g.participants ==> q == g.owner)
    && (Solo(g) ==> g.host == g.owner)
  }

  ghost predicate RowsOk(s: Store)
  {
    forall gid :: gid in s.gatherings ==> gid < s.nextId && RowOk(s.gatherings[gid])
  }

  /** `matchmake_sessions` and `persistent_gatherings` are 1:1 with the gatherings of their type. */
  ghost predicate TablesJoin(s: Store)
  {
    && (forall gid :: gid in s.sessions <==> gid in s.gatherings && s.gatherings[gid].kind.MatchmakeSession?)
    && (forall gid :: gid in s.communities <==> gid in s.gatherings && s.gatherings[gid].kind.PersistentGathering?)
    && (forall gid :: gid in s.sessions ==> |s.sessions[gid].attribs| == 6)
  }

  ghost predicate CreationCapped(s: Store)
  {
    forall p :: |OwnedCommunities(s, p)| <= CREATION_MAX
  }

  /** The counts logged for one player and community, oldest first. */
  function Numbers(log: seq<Event>, p: Pid, community: nat): (ns: seq<nat>)
  {
    if log == [] then [] else
    var front, e := Numbers(log[..|log| - 1], p, community), log[|log| - 1];
    if e.Participated? && e.source == p && e.community == community then front + [e.count] else front
  }

  function OneTo(n: nat): (ns: seq<nat>)
    ensures |ns| == n && forall i :: 0 <= i < n ==> ns[i] == i + 1
  {
    seq(n, i => i + 1)
  }

  /** Participation counts are logged 1, 2, 3, ...; a count beyond uint32 is stored but not logged. */
  predicate NumberedFor(s: Store, p: Pid, community: nat)
  {
    var n := Bumped(s, p, community) - 1;
    Numbers(s.log, p, community) == OneTo(if n < UINT32 then n else UINT32 - 1)
  }

  ghost predicate Numbered(s: Store)
  {
    forall p, community :: NumberedFor(s, p, community)
  }

  ghost predicate Inv(s: Store)
  {
    RowsOk(s) && TablesJoin(s) && CreationCapped(s) && Numbered(s) && Faithful(s)
  }

  // ---- One row --------------------------------------------------------------------------

  lemma DepartedKeepsRow(g: Gathering, p: Pid)
    requires RowOk(g) && g.registered && p in g.participants
    ensures RowOk(Departed(g, p))
    ensures p !in Departed(g, p).participants
    ensures g.kind.PersistentGathering? ==> Departed(g, p).owner == g.owner
  {
    WithoutMembers(g.participants, p);
    var rest := Without(g.participants, p);
    if rest != [] {
      assert rest[0] in rest;
    }
  }

  lemma AppendKeepsRow(g: Gathering, newcomers: seq<Pid>)
    requires RowOk(g) && g.registered
    requires g.terms.maxParticipants != 0 ==> |g.participants| + |newcomers| <= g.terms.maxParticipants
    requires g.participants == [] ==> newcomers != [] && newcomers[0] == g.owner
    requires g.kind.PersistentGathering? ==> forall q :: q in newcomers ==> q == g.owner
    ensures RowOk(g.(participants := g.participants + newcomers))
  {
    if g.participants == [] {
      assert newcomers[0] in newcomers;
    }
  }

  // ---- Rows and tables ------------------------------------------------------------------

  lemma ApplyKeepsRow(s: Store, a: Action, gid: nat)
    requires RowsOk(s) && Enabled(s, a) && gid in Apply(s, a).gatherings
    ensures gid < Apply(s, a).nextId && RowOk(Apply(s, a).gatherings[gid])
  {
    if gid in s.gatherings {
      assert gid < s.nextId && RowOk(s.gatherings[gid]);
      match a
      case Append(id, _, newcomers) => if id == gid { AppendKeepsRow(s.gatherings[gid], newcomers); }
      case Exit(id, p, _) => if id == gid { DepartedKeepsRow(s.gatherings[gid], p); }
      case _ =>
    }
  }

  lemma ApplyKeepsRows(s: Store, a: Action)
    requires RowsOk(s) && Enabled(s, a)
    ensures RowsOk(Apply(s, a))
  {
    forall gid | gid in Apply(s, a).gatherings
      ensures gid < Apply(s, a).nextId && RowOk(Apply(s, a).gatherings[gid])
    {
      ApplyKeepsRow(s, a, gid);
    }
  }

  lemma ApplyKeepsTables(s: Store, a: Action)
    requires RowsOk(s) && TablesJoin(s) && Enabled(s, a)
    ensures TablesJoin(Apply(s, a))
  {
    var t := Apply(s, a);
    forall gid
      ensures gid in t.sessions <==> gid in t.gatherings && t.gatherings[gid].kind.MatchmakeSession?
      ensures gid in t.communities <==> gid in t.gatherings && t.gatherings[gid].kind.PersistentGathering?
      ensures gid in t.sessions ==> |t.sessions[gid].attribs| == 6
    {
      if gid in s.gatherings {
        ApplyKeepsFrozen(s, a, gid);
      }
    }
  }

  /** What no action changes in a row that exists: its type and terms; and a dead row not at all. */
  lemma ApplyKeepsFrozen(s: Store, a: Action, gid: nat)
    requires RowsOk(s) && Enabled(s, a) && gid in s.gatherings
    ensures gid in Apply(s, a).gatherings
    ensures Apply(s, a).gatherings[gid].kind == s.gatherings[gid].kind
    ensures Apply(s, a).gatherings[gid].terms == s.gatherings[gid].terms
    ensures !s.gatherings[gid].registered ==> Apply(s, a).gatherings[gid] == s.gatherings[gid]
  {
  }

  // ---- The creation cap -----------------------------------------------------------------

  lemma ApplyKeepsOthersCommunities(s: Store, a: Action, q: Pid)
    requires RowsOk(s) && TablesJoin(s) && Enabled(s, a)
    requires !(a.CreateCommunity? && q == a.p)
    ensures OwnedCommunities(Apply(s, a), q) <= OwnedCommunities(s, q)
  {
    var t := Apply(s, a);
    forall gid | gid in OwnedCommunities(t, q) ensures gid in OwnedCommunities(s, q) {
      if gid in s.gatherings {
        ApplyKeepsFrozen(s, a, gid);
        CommunityOwnerFixed(s, a, gid);
      }
    }
  }

  lemma CreationAddsOne(s: Store, a: Action)
    requires a.CreateCommunity? && RowsOk(s)
    ensures OwnedCommunities(Apply(s, a), a.p) <= OwnedCommunities(s, a.p) + {s.nextId}
    ensures |OwnedCommunities(Apply(s, a), a.p)| <= |OwnedCommunities(s, a.p)| + 1
  {
    SubsetSize(OwnedCommunities(Apply(s, a), a.p), OwnedCommunities(s, a.p) + {s.nextId});
  }

  lemma ApplyKeepsCap(s: Store, a: Action)
    requires RowsOk(s) && TablesJoin(s) && CreationCapped(s) && Enabled(s, a)
    ensures CreationCapped(Apply(s, a))
  {
    hide Apply, OwnedCommunities, RowsOk, TablesJoin;
    forall q ensures |OwnedCommunities(Apply(s, a), q)| <= CREATION_MAX {
      if a.CreateCommunity? && q == a.p {
        CreationAddsOne(s, a);
      } else {
        ApplyKeepsOthersCommunities(s, a, q);
        SubsetSize(OwnedCommunities(Apply(s, a), q), OwnedCommunities(s, q));
      }
    }
  }

  /** A community's only possible participant is its owner, so its ownership never moves. */
  lemma CommunityOwnerFixed(s: Store, a: Action, gid: nat)
    requires RowsOk(s) && Enabled(s, a)
    requires gid in s.gatherings && s.gatherings[gid].kind.PersistentGathering?
    ensures gid in Apply(s, a).gatherings
    ensures Apply(s, a).gatherings[gid].owner == s.gatherings[gid].owner
  {
    if a.Exit? && a.gid == gid {
      DepartedKeepsRow(s.gatherings[gid], a.p);
    }
  }

  // ---- Participation numbers ------------------------------------------------------------

  lemma {:induction false} NumbersConcat(a: seq<Event>, b: seq<Event>, p: Pid, community: nat)
    ensures Numbers(a + b, p, community) == Numbers(a, p, community) + Numbers(b, p, community)
    decreases |b|
  {
    if b == [] {
      assert a + b == a;
    } else {
      NumbersConcat(a, b[..|b| - 1], p, community);
      assert (a + b)[..|a + b| - 1] == a + b[..|b| - 1];
    }
  }

  lemma {:induction false} NoNumbers(es: seq<Event>, p: Pid, community: nat)
    requires forall i :: 0 <= i < |es| ==> !es[i].Participated?
    ensures Numbers(es, p, community) == []
    decreases |es|
  {
    if es != [] {
      NoNumbers(es[..|es| - 1], p, community);
    }
  }

  /** The rows an action appends to the log. */
  function NewEvents(s: Store, a: Action): (es: seq<Event>)
    requires Enabled(s, a)
  {
    Apply(s, a).log[|s.log|..]
  }

  lemma ApplyAppends(s: Store, a: Action)
    requires Enabled(s, a)
    ensures Apply(s, a).log == s.log + NewEvents(s, a)
    ensures !a.Count? ==> forall i :: 0 <= i < |NewEvents(s, a)| ==> !NewEvents(s, a)[i].Participated?
    ensures !a.Count? ==> Apply(s, a).participations == s.participations
  {
  }

  lemma NumbersOne(e: Event, p: Pid, community: nat)
    ensures Numbers([e], p, community) ==
            if e.Participated? && e.source == p && e.community == community then [e.count] else []
  {
    assert [e][..0] == [];
  }

  lemma CountKeepsNumbers(s: Store, a: Action, p: Pid, community: nat)
    requires NumberedFor(s, p, community) && a.Count?
    ensures NumberedFor(Apply(s, a), p, community)
  {
    var n := Bumped(s, a.p, a.community);
    if n < UINT32 {
      var e := Participated(a.p, a.community, a.gid, n);
      assert Apply(s, a).log == s.log + [e];
      NumbersConcat(s.log, [e], p, community);
      NumbersOne(e, p, community);
    } else {
      assert Apply(s, a).log == s.log;
    }
  }

  lemma ApplyKeepsNumbers(s: Store, a: Action, p: Pid, community: nat)
    requires NumberedFor(s, p, community) && Enabled(s, a)
    ensures NumberedFor(Apply(s, a), p, community)
  {
    hide Apply, Enabled, Numbers, NewEvents;
    if a.Count? {
      CountKeepsNumbers(s, a, p, community);
    } else {
      ApplyAppends(s, a);
      NumbersConcat(s.log, NewEvents(s, a), p, community);
      NoNumbers(NewEvents(s, a), p, community);
      assert Numbers(s.log, p, community) + [] == Numbers(s.log, p, community);
    }
  }

  // ---- The log --------------------------------------------------------------------------

  /** Replaying the rows of a departure takes the row's view before it to its view after it. */
  lemma DepartureReplays(gid: nat, g: Gathering, p: Pid, how: Departure)
    requires RowOk(g) && g.registered && p in g.participants
    ensures ReplayedView(ViewOf(g), DepartureEvents(gid, g, p, how)) == Some(ViewOf(Departed(g, p)))
  {
    WithoutMembers(g.participants, p);
    var g' := Departed(g, p);
    var v1 := ViewOf(g).(participants := g'.participants);
    var es := DepartureEvents(gid, g, p, how);
    var tail := es[1..];
    assert es == [es[0]] + tail;
    ReplayedViewCons(ViewOf(g), es[0], tail);
    if !g'.registered {
      assert tail == [Unregistered(p, gid)] + [];
      ReplayedViewCons(v1, tail[0], []);
    } else if g'.owner != g.owner {
      var v2 := v1.(owner := g'.owner);
      assert tail == [OwnerChanged(p, gid, g.owner, g'.owner)] + tail[1..];
      ReplayedViewCons(v1, tail[0], tail[1..]);
      if g'.host != g.host {
        assert tail[1..] == [HostChanged(p, gid, g.host, g'.host)] + [];
        ReplayedViewCons(v2, tail[1], []);
      }
    } else if g'.host != g.host {
      assert tail == [HostChanged(p, gid, g.host, g'.host)] + [];
      ReplayedViewCons(v1, tail[0], []);
    }
  }

  /** The rows logged by an action on one gathering are about that gathering, and replay its change. */
  lemma RowActionView(s: Store, a: Action)
    requires RowsOk(s) && Enabled(s, a)
    requires a.Append? || a.Claim? || a.Unregister?
    ensures ReplayedView(ViewOf(s.gatherings[a.gid]), NewEvents(s, a)) == Some(ViewOf(Apply(s, a).gatherings[a.gid]))
  {
    var es, g := NewEvents(s, a), s.gatherings[a.gid];
    if a.Claim? && a.takeOwnership {
      assert es == [es[0]] + ([es[1]] + []);
      ReplayedViewCons(ViewOf(g), es[0], [es[1]]);
      ReplayedViewCons(ViewOf(g).(host := a.p), es[1], []);
    } else {
      assert es == [es[0]] + [];
      ReplayedViewCons(ViewOf(g), es[0], []);
    }
  }

  lemma RowActionFrame(s: Store, a: Action)
    requires Enabled(s, a)
    requires a.Append? || a.Exit? || a.Claim? || a.Unregister?
    ensures a.gid in Apply(s, a).gatherings
    ensures AllViews(Apply(s, a)) == AllViews(s)[a.gid := ViewOf(Apply(s, a).gatherings[a.gid])]
    ensures forall i :: 0 <= i < |NewEvents(s, a)| ==>
              NewEvents(s, a)[i].gid == a.gid && !NewEvents(s, a)[i].Participated? && !NewEvents(s, a)[i].Registered?
  {
  }

  lemma RowActionReplays(s: Store, a: Action)
    requires RowsOk(s) && Enabled(s, a)
    requires a.Append? || a.Exit? || a.Claim? || a.Unregister?
    ensures Replayed(Kinds(Apply(s, a)), AllViews(s), NewEvents(s, a)) == Some(AllViews(Apply(s, a)))
  {
    RowActionFrame(s, a);
    if a.Exit? {
      DepartureReplays(a.gid, s.gatherings[a.gid], a.p, a.how);
      assert NewEvents(s, a) == DepartureEvents(a.gid, s.gatherings[a.gid], a.p, a.how);
    } else {
      RowActionView(s, a);
    }
    hide Apply, NewEvents, Departed, DepartureEvents, Replayed, ReplayedView, Kinds;
    ReplayOneGathering(Kinds(Apply(s, a)), AllViews(s), a.gid, NewEvents(s, a));
  }

  lemma ApplyReplays(s: Store, a: Action)
    requires RowsOk(s) && Enabled(s, a)
    ensures Replayed(Kinds(Apply(s, a)), AllViews(s), NewEvents(s, a)) == Some(AllViews(Apply(s, a)))
  {
    var t, es := Apply(s, a), NewEvents(s, a);
    match a
    case CreateSession(_, _, _) => CreationReplays(s, a);
    case CreateCommunity(_, _) => CreationReplays(s, a);
    case Count(_, _, _) =>
      if es != [] {
        assert es[1..] == [];
      }
    case EditSession(_, _) =>
    case _ => RowActionReplays(s, a);
  }

  lemma CreationReplays(s: Store, a: Action)
    requires RowsOk(s) && Enabled(s, a) && (a.CreateSession? || a.CreateCommunity?)
    ensures Replayed(Kinds(Apply(s, a)), AllViews(s), NewEvents(s, a)) == Some(AllViews(Apply(s, a)))
  {
    var t, es := Apply(s, a), NewEvents(s, a);
    assert es == [Registered(a.p, s.nextId)] && es[1..] == [];
    ViewsUpdate(s, s.nextId, t.gatherings[s.nextId]);
  }

  lemma ApplyKeepsFaithful(s: Store, a: Action)
    requires RowsOk(s) && Faithful(s) && Enabled(s, a)
    ensures Faithful(Apply(s, a))
  {
    var t := Apply(s, a);
    forall gid | gid in Kinds(s) ensures gid in Kinds(t) && Kinds(t)[gid] == Kinds(s)[gid] {
      ApplyKeepsFrozen(s, a, gid);
    }
    ReplayMoreKinds(Kinds(s), Kinds(t), map[], s.log);
    ApplyAppends(s, a);
    ReplayConcat(Kinds(t), map[], s.log, NewEvents(s, a));
    ApplyReplays(s, a);
  }

  // ---- Every action, every run ----------------------------------------------------------

  lemma ApplyKeepsInv(s: Store, a: Action)
    requires Inv(s) && Enabled(s, a)
    ensures Inv(Apply(s, a))
  {
    ApplyKeepsRows(s, a);
    ApplyKeepsTables(s, a);
    ApplyKeepsCap(s, a);
    forall p, community ensures NumberedFor(Apply(s, a), p, community) {
      ApplyKeepsNumbers(s, a, p, community);
    }
    ApplyKeepsFaithful(s, a);
  }

  lemma EmptyInv()
    ensures Inv(EMPTY)
  {
    forall p ensures |OwnedCommunities(EMPTY, p)| <= CREATION_MAX {
      assert OwnedCommunities(EMPTY, p) == {};
    }
    assert AllViews(EMPTY) == map[];
  }

  lemma {:induction false} RunKeepsInv(s: Store, actions: seq<Action>, t: Store)
    requires Inv(s) && Run(s, actions, t)
    ensures Inv(t)
    decreases |actions|
  {
    if actions != [] {
      ApplyKeepsInv(s, actions[0]);
      RunKeepsInv(Apply(s, actions[0]), actions[1..], t);
    }
  }

  lemma ReachableInv(t: Store)
    requires Reachable(t)
    ensures Inv(t)
  {
    var actions :| Run(EMPTY, actions, t);
    EmptyInv();
    RunKeepsInv(EMPTY, actions, t);
  }
}
