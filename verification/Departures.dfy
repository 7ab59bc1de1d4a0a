/**
 Departures from many gatherings at once: the loops of DisconnectParticipant and
 EndMatchmakeSessionsParticipation, which visit the rows in whatever order the
 database returns them.
 */
module Departures {
  import opened Participants
  import opened Tables
  import opened Actions

  /** What the source promises of a registered gathering `g` that `p` leaves: `g'` is its row afterwards. */
  ghost predicate LeftBy(g: Gathering, p: Pid, g': Gathering)
  {
    var lasts := g.terms.flags.persistentGathering || g.terms.flags.allowZeroUsers;
    var rest := g'.participants;
    && rest == Without(g.participants, p) && g'.kind == g.kind && g'.terms == g.terms
    && (lasts ==> g'.registered)
    && (!lasts && rest == [] ==> !g'.registered)
    && (!lasts && rest != [] && p != g.owner ==> g'.registered)
    && (!lasts && rest != [] && p == g.owner ==>
          (g'.registered <==> g.terms.flags.disconnectChangeOwner && rest[0] != 0))
    && g'.owner == (if !lasts && g'.registered && p == g.owner then rest[0] else g.owner)
    && g'.host == (if !lasts && g'.registered && p == g.host && g'.owner != 0 then g'.owner else g.host)
  }

  lemma DepartedOnColumns(g: Gathering, p: Pid)
    requires g.registered
    ensures LeftBy(g, p, Departed(g, p))
    ensures var g', rest := Departed(g, p), Without(g.participants, p);
            var lasts := g.terms.flags.persistentGathering || g.terms.flags.allowZeroUsers;
            && g'.participants == rest && g'.kind == g.kind && g'.terms == g.terms
            && (lasts ==> g'.registered && g'.owner == g.owner && g'.host == g.host)
            && (!lasts && rest == [] ==> !g'.registered)
            && (!lasts && rest != [] && p != g.owner ==>
                  && g'.registered && g'.owner == g.owner
                  && g'.host == if p == g.host && g.owner != 0 then g.owner else g.host)
            && (!lasts && rest != [] && p == g.owner ==>
                  && (g'.registered <==> g.terms.flags.disconnectChangeOwner && rest[0] != 0)
                  && (g'.registered ==> g'.owner == rest[0] && g'.host == if p == g.host then rest[0] else g.host))
  {
  }

  /** The tracking rows of a departure, read off the row before and after it. */
  ghost predicate DepartureLogged(gid: nat, g: Gathering, p: Pid, g': Gathering, how: Departure, es: seq<Event>)
  {
    es == [if how.Leaving? then Left(p, gid, g'.participants) else Disconnected(p, gid, g'.participants)]
          + (if g'.registered then [] else [Unregistered(p, gid)])
          + (if g'.owner == g.owner then [] else [OwnerChanged(p, gid, g.owner, g'.owner)])
          + (if g'.host == g.host then [] else [HostChanged(p, gid, g.host, g'.host)])
  }

  lemma DepartureIsLogged(gid: nat, g: Gathering, p: Pid, how: Departure)
    requires g.registered
    ensures DepartureLogged(gid, g, p, Departed(g, p), how, DepartureEvents(gid, g, p, how))
  {
    hide Departed;
  }

  predicate Departs(g: Gathering, p: Pid, how: Departure)
  {
    g.registered && p in g.participants && (how.Dropping? ==> !StaysOnDisconnect(g))
  }

  function ExitOne(s: Store, gid: nat, p: Pid, how: Departure): (s': Store)
  {
    if gid in s.gatherings && Departs(s.gatherings[gid], p, how) then Apply(s, Exit(gid, p, how)) else s
  }

  /** The gatherings `ids`, visited in this order. */
  function ExitAll(s: Store, ids: seq<nat>, p: Pid, how: Departure): (s': Store)
  {
    if ids == [] then s
    else ExitOne(ExitAll(s, ids[..|ids| - 1], p, how), ids[|ids| - 1], p, how)
  }

  ghost predicate Distinct(ids: seq<nat>)
  {
    forall i, j :: 0 <= i < j < |ids| ==> ids[i] != ids[j]
  }

  function ExitActions(s: Store, ids: seq<nat>, p: Pid, how: Departure): (actions: seq<Action>)
  {
    if ids == [] then [] else
    var front, gid := ids[..|ids| - 1], ids[|ids| - 1];
    var t := ExitAll(s, front, p, how);
    ExitActions(s, front, p, how) +
    if gid in t.gatherings && Departs(t.gatherings[gid], p, how) then [Exit(gid, p, how)] else []
  }

  lemma {:induction false} ExitAllRuns(s: Store, ids: seq<nat>, p: Pid, how: Departure)
    ensures Run(s, ExitActions(s, ids, p, how), ExitAll(s, ids, p, how))
    decreases |ids|
  {
    if ids != [] {
      var front, gid := ids[..|ids| - 1], ids[|ids| - 1];
      ExitAllRuns(s, front, p, how);
      var t, actions := ExitAll(s, front, p, how), ExitActions(s, front, p, how);
      if gid in t.gatherings && Departs(t.gatherings[gid], p, how) {
        RunStep(s, actions, t, Exit(gid, p, how));
      } else {
        assert actions + [] == actions;
      }
    }
  }

  lemma ExitOneRow(s: Store, gid: nat, p: Pid, how: Departure)
    ensures ExitOne(s, gid, p, how).gatherings ==
            if gid in s.gatherings && Departs(s.gatherings[gid], p, how)
            then s.gatherings[gid := Departed(s.gatherings[gid], p)] else s.gatherings
    ensures ExitOne(s, gid, p, how) ==
            s.(gatherings := ExitOne(s, gid, p, how).gatherings, log := ExitOne(s, gid, p, how).log)
  {
  }

  /** The rows do not depend on the order of the visits: each named gathering departs on its own. */
  lemma {:induction false} ExitAllRows(s: Store, ids: seq<nat>, p: Pid, how: Departure)
    requires Distinct(ids)
    ensures ExitAll(s, ids, p, how).gatherings == map gid | gid in s.gatherings ::
              if gid in ids && Departs(s.gatherings[gid], p, how) then Departed(s.gatherings[gid], p)
              else s.gatherings[gid]
    ensures ExitAll(s, ids, p, how) ==
            s.(gatherings := ExitAll(s, ids, p, how).gatherings, log := ExitAll(s, ids, p, how).log)
    decreases |ids|
  {
    hide ExitOne, Departed, Departs;
    if ids != [] {
      var front, gid := ids[..|ids| - 1], ids[|ids| - 1];
      ExitAllRows(s, front, p, how);
      ExitOneRow(ExitAll(s, front, p, how), gid, p, how);
      assert ids == front + [gid] && gid !in front;
    }
  }

  /** In particular each row is as if `p` had left that gathering alone. */
  lemma ExitAllLeaves(s: Store, ids: seq<nat>, p: Pid, how: Departure, gid: nat)
    requires Distinct(ids) && gid in s.gatherings
    ensures var g, t := s.gatherings[gid], ExitAll(s, ids, p, how);
            && t.gatherings.Keys == s.gatherings.Keys
            && (gid in ids && Departs(g, p, how) ==> LeftBy(g, p, t.gatherings[gid]))
            && (!(gid in ids && Departs(g, p, how)) ==> t.gatherings[gid] == g)
  {
    ExitAllRows(s, ids, p, how);
    if Departs(s.gatherings[gid], p, how) {
      DepartedOnColumns(s.gatherings[gid], p);
    }
  }

  /** After the loop, the player is in none of the visited gatherings that were open to departure. */
  lemma ExitAllClears(s: Store, ids: seq<nat>, p: Pid, how: Departure, gid: nat)
    requires Distinct(ids) && gid in ids && gid in s.gatherings
    requires how.Dropping? ==> !StaysOnDisconnect(s.gatherings[gid])
    ensures var t := ExitAll(s, ids, p, how);
            gid in t.gatherings && (t.gatherings[gid].registered ==> p !in t.gatherings[gid].participants)
  {
    ExitAllRows(s, ids, p, how);
    WithoutMembers(s.gatherings[gid].participants, p);
  }

  /** Everybody else keeps their slots: order and multiplicity survive another player's departure. */
  lemma ExitAllKeepsOthers(s: Store, ids: seq<nat>, p: Pid, how: Departure, gid: nat)
    requires Distinct(ids) && gid in s.gatherings
    ensures gid in ExitAll(s, ids, p, how).gatherings
    ensures var ps, qs := s.gatherings[gid].participants, ExitAll(s, ids, p, how).gatherings[gid].participants;
            qs == ps || qs == Without(ps, p)
    ensures var ps, qs := s.gatherings[gid].participants, ExitAll(s, ids, p, how).gatherings[gid].participants;
            forall q :: q != p ==> multiset(qs)[q] == multiset(ps)[q]
  {
    ExitAllRows(s, ids, p, how);
    WithoutCounts(s.gatherings[gid].participants, p);
  }
}
