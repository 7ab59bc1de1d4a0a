/**
 The atomic changes that the handlers are made of, as functions on the store,
 with the guard under which the handlers perform each of them.
 */
module Actions {
  import opened Participants
  import opened Tables

  /** `PersistentGatheringCreationMax`. */
  const CREATION_MAX: nat := 4

  /** How a player goes: by leaving, or because the connection ended. */
  datatype Departure = Leaving | Dropping

  datatype Action =
    | CreateSession(p: Pid, terms: Terms, session: Session)
    | CreateCommunity(p: Pid, terms: Terms)
    | Append(gid: nat, p: Pid, newcomers: seq<Pid>)
    | Exit(gid: nat, p: Pid, how: Departure)
    | Claim(gid: nat, p: Pid, takeOwnership: bool)
    | Unregister(gid: nat, p: Pid)
    | Count(p: Pid, community: nat, gid: nat)
    | EditSession(gid: nat, session: Session)

  /** Either persistence flag keeps a gathering alive, whoever leaves it. */
  predicate SurvivesEmpty(terms: Terms)
  {
    terms.flags.persistentGathering || terms.flags.allowZeroUsers
  }

  /** What becomes of a gathering when `p` departs. */
  function Departed(g: Gathering, p: Pid): (g': Gathering)
  {
    var rest := Without(g.participants, p);
    var g1 := g.(participants := rest);
    if SurvivesEmpty(g.terms) then g1
    else if rest == [] then g1.(registered := false)
    else if p != g.owner then
      if p == g.host && g.owner != 0 then g1.(host := g.owner) else g1
    else if !g.terms.flags.disconnectChangeOwner || rest[0] == 0 then g1.(registered := false)
    else g1.(owner := rest[0], host := if p == g.host then rest[0] else g.host)
  }

  /** The tracking rows that go with `Departed`. */
  function DepartureEvents(gid: nat, g: Gathering, p: Pid, how: Departure): (es: seq<Event>)
  {
    var g' := Departed(g, p);
    [if how.Leaving? then Left(p, gid, g'.participants) else Disconnected(p, gid, g'.participants)]
    + (if g.registered && !g'.registered then [Unregistered(p, gid)] else [])
    + (if g'.owner != g.owner then [OwnerChanged(p, gid, g.owner, g'.owner)] else [])
    + (if g'.host != g.host then [HostChanged(p, gid, g.host, g'.host)] else [])
  }

  /** A connection's end leaves these gatherings alone. */
  predicate StaysOnDisconnect(g: Gathering)
  {
    g.terms.flags.persistentGathering
    || (g.kind.PersistentGathering? && !g.terms.flags.leaveParticipation)
  }

  function NewRow(s: Store, kind: Kind, owner: Pid, host: Pid, terms: Terms): (s': Store)
  {
    s.(gatherings := s.gatherings[s.nextId := Gathering(kind, owner, host, terms, true, [])],
       nextId := s.nextId + 1,
       log := s.log + [Registered(owner, s.nextId)])
  }

  function SetRow(s: Store, gid: nat, g: Gathering, es: seq<Event>): (s': Store)
  {
    s.(gatherings := s.gatherings[gid := g], log := s.log + es)
  }

  function Bumped(s: Store, p: Pid, community: nat): (n: nat)
  {
    1 + if (p, community) in s.participations then s.participations[(p, community)] else 0
  }

  /** Registered communities owned by `p`. */
  function OwnedCommunities(s: Store, p: Pid): (ids: set<nat>)
  {
    set gid | gid in s.gatherings && gid in s.communities
           && s.gatherings[gid].registered && s.gatherings[gid].owner == p
  }

  /** Whether the action's gathering exists; the functions below need no more. */
  predicate Exists(s: Store, a: Action)
  {
    match a
    case Append(gid, _, _) => gid in s.gatherings
    case Exit(gid, _, _) => gid in s.gatherings
    case Claim(gid, _, _) => gid in s.gatherings
    case Unregister(gid, _) => gid in s.gatherings
    case _ => true
  }

  function Apply(s: Store, a: Action): (s': Store)
    requires Exists(s, a)
  {
    match a
    case CreateSession(p, terms, session) =>
      NewRow(s, MatchmakeSession, p, p, terms).(sessions := s.sessions[s.nextId := session])
    case CreateCommunity(p, terms) =>
      NewRow(s, PersistentGathering, p, 0, terms).(communities := s.communities + {s.nextId})
    case Append(gid, p, newcomers) =>
      var g := s.gatherings[gid];
      var total := g.participants + newcomers;
      SetRow(s, gid, g.(participants := total), [Joined(p, gid, newcomers, total)])
    case Exit(gid, p, how) =>
      var g := s.gatherings[gid];
      SetRow(s, gid, Departed(g, p), DepartureEvents(gid, g, p, how))
    case Claim(gid, p, takeOwnership) =>
      var g := s.gatherings[gid];
      var hostEvent := HostChanged(p, gid, g.host, p);
      if takeOwnership then
        SetRow(s, gid, g.(owner := p, host := p), [hostEvent, OwnerChanged(p, gid, g.owner, p)])
      else
        SetRow(s, gid, g.(host := p), [hostEvent])
    case Unregister(gid, p) =>
      SetRow(s, gid, s.gatherings[gid].(registered := false), [Unregistered(p, gid)])
    case Count(p, community, gid) =>
      var n := Bumped(s, p, community);
      s.(participations := s.participations[(p, community) := n],
         log := s.log + if n < UINT32 then [Participated(p, community, gid, n)] else [])
    case EditSession(gid, session) =>
      s.(sessions := s.sessions[gid := session])
  }

  /** The guard under which the handlers perform an action. */
  predicate Enabled(s: Store, a: Action)
  {
    match a
    case CreateSession(p, terms, session) =>
      p != 0 && terms.maxParticipants <= INT32_MAX && |session.attribs| == 6
    case CreateCommunity(p, terms) =>
      p != 0 && terms.maxParticipants <= INT32_MAX && |OwnedCommunities(s, p)| < CREATION_MAX
    case Append(gid, p, newcomers) =>
      && Live(s, gid)
      && var g := s.gatherings[gid];
         && (g.terms.maxParticipants != 0 ==> |g.participants| + |newcomers| <= g.terms.maxParticipants)
         && (g.participants == [] ==> newcomers != [] && newcomers[0] == g.owner)
         && (g.kind.PersistentGathering? ==> forall q :: q in newcomers ==> q == g.owner)
    case Exit(gid, p, how) =>
      Live(s, gid) && p in s.gatherings[gid].participants
    case Claim(gid, p, takeOwnership) =>
      && p != 0 && Live(s, gid) && p in s.gatherings[gid].participants
      && (takeOwnership ==> s.gatherings[gid].terms.flags.participantsChangeOwner)
    case Unregister(gid, p) =>
      Live(s, gid) && p == s.gatherings[gid].owner
    case Count(_, _, _) => true
    case EditSession(gid, session) =>
      gid in s.sessions && |session.attribs| == |s.sessions[gid].attribs|
  }

  /** `t` is reached from `s` by performing `actions`, each one enabled in its turn. */
  ghost predicate Run(s: Store, actions: seq<Action>, t: Store)
    decreases |actions|
  {
    if actions == [] then s == t
    else Enabled(s, actions[0]) && Run(Apply(s, actions[0]), actions[1..], t)
  }

  ghost predicate Reachable(t: Store)
  {
    exists actions :: Run(EMPTY, actions, t)
  }

  lemma {:induction false} RunConcat(s: Store, a: seq<Action>, t: Store, b: seq<Action>, u: Store)
    requires Run(s, a, t) && Run(t, b, u)
    ensures Run(s, a + b, u)
    decreases |a|
  {
    if a == [] {
      assert a + b == b;
    } else {
      RunConcat(Apply(s, a[0]), a[1..], t, b, u);
      assert (a + b)[1..] == a[1..] + b;
    }
  }

  lemma RunStep(s: Store, actions: seq<Action>, t: Store, a: Action)
    requires Run(s, actions, t) && Enabled(t, a)
    ensures Run(s, actions + [a], Apply(t, a))
  {
    var u := Apply(t, a);
    assert Run(u, [], u);
    assert [a][1..] == [];
    assert Run(t, [a], u);
    RunConcat(s, actions, t, [a], u);
  }
}
