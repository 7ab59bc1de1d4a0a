/**
 Replaying the tracking log. The log alone, with the type of each gathering,
 determines every gathering's owner, host, participants and registered bit.
 The replay also checks each row it reads: a logged total or old value must be
 the value replayed so far, and nothing may follow an unregistration.
 */
module Replay {
  import opened Participants
  import opened Tables

  /** What the log says about one gathering. */
  datatype View = View(owner: Pid, host: Pid, participants: seq<Pid>, registered: bool)

  type Views = map<nat, View>

  /** A tracking row about an existing gathering; None when it contradicts the view so far. */
  function StepView(v: View, e: Event): (r: Option<View>)
  {
    if !v.registered then None else
    match e
    case Joined(_, _, newcomers, total) =>
      if total == v.participants + newcomers then Some(v.(participants := total)) else None
    case Left(p, _, total) =>
      if p in v.participants && total == Without(v.participants, p) then Some(v.(participants := total)) else None
    case Disconnected(p, _, total) =>
      if p in v.participants && total == Without(v.participants, p) then Some(v.(participants := total)) else None
    case Unregistered(_, _) => Some(v.(registered := false))
    case HostChanged(_, _, oldHost, newHost) =>
      if oldHost == v.host then Some(v.(host := newHost)) else None
    case OwnerChanged(_, _, oldOwner, newOwner) =>
      if oldOwner == v.owner then Some(v.(owner := newOwner)) else None
    case _ => None
  }

  /** One tracking row. */
  function Step(kinds: map<nat, Kind>, m: Views, e: Event): (r: Option<Views>)
  {
    if e.Participated? then Some(m)
    else if e.Registered? then
      if e.gid in m || e.gid !in kinds then None
      else Some(m[e.gid := View(e.source, if kinds[e.gid].MatchmakeSession? then e.source else 0, [], true)])
    else if e.gid !in m then None
    else
      var v := StepView(m[e.gid], e);
      if v.None? then None else Some(m[e.gid := v.value])
  }

  function Replayed(kinds: map<nat, Kind>, m: Views, log: seq<Event>): (r: Option<Views>)
    decreases |log|
  {
    if log == [] then Some(m) else
    var next := Step(kinds, m, log[0]);
    if next.None? then None else Replayed(kinds, next.value, log[1..])
  }

  lemma {:induction false} ReplayConcat(kinds: map<nat, Kind>, m: Views, a: seq<Event>, b: seq<Event>)
    requires Replayed(kinds, m, a).Some?
    ensures Replayed(kinds, m, a + b) == Replayed(kinds, Replayed(kinds, m, a).value, b)
    decreases |a|
  {
    if a == [] {
      assert a + b == b;
    } else {
      ReplayConcat(kinds, Step(kinds, m, a[0]).value, a[1..], b);
      assert (a + b)[0] == a[0] && (a + b)[1..] == a[1..] + b;
    }
  }

  function ReplayedView(v: View, es: seq<Event>): (r: Option<View>)
    decreases |es|
  {
    if es == [] then Some(v) else
    var next := StepView(v, es[0]);
    if next.None? then None else ReplayedView(next.value, es[1..])
  }

  lemma ReplayedViewCons(v: View, e: Event, es: seq<Event>)
    requires StepView(v, e).Some?
    ensures ReplayedView(v, [e] + es) == ReplayedView(StepView(v, e).value, es)
  {
    assert ([e] + es)[1..] == es;
  }

  /** Rows about one existing gathering touch its view only. */
  lemma {:induction false} ReplayOneGathering(kinds: map<nat, Kind>, m: Views, gid: nat, es: seq<Event>)
    requires gid in m && ReplayedView(m[gid], es).Some?
    requires forall i :: 0 <= i < |es| ==> es[i].gid == gid && !es[i].Participated? && !es[i].Registered?
    ensures Replayed(kinds, m, es) == Some(m[gid := ReplayedView(m[gid], es).value])
    decreases |es|
  {
    if es == [] {
      assert m[gid := m[gid]] == m;
    } else {
      var v := StepView(m[gid], es[0]).value;
      ReplayOneGathering(kinds, m[gid := v], gid, es[1..]);
      var w := ReplayedView(v, es[1..]).value;
      assert m[gid := v][gid := w] == m[gid := w];
    }
  }

  /** Learning the types of further gatherings does not change a successful replay. */
  lemma {:induction false} ReplayMoreKinds(kinds: map<nat, Kind>, more: map<nat, Kind>, m: Views, log: seq<Event>)
    requires Replayed(kinds, m, log).Some?
    requires forall gid :: gid in kinds ==> gid in more && more[gid] == kinds[gid]
    ensures Replayed(more, m, log) == Replayed(kinds, m, log)
    decreases |log|
  {
    if log != [] {
      assert Step(more, m, log[0]) == Step(kinds, m, log[0]);
      ReplayMoreKinds(kinds, more, Step(kinds, m, log[0]).value, log[1..]);
    }
  }

  function ViewOf(g: Gathering): (v: View)
  {
    View(g.owner, g.host, g.participants, g.registered)
  }

  function Kinds(s: Store): (kinds: map<nat, Kind>)
  {
    map gid | gid in s.gatherings :: s.gatherings[gid].kind
  }

  function AllViews(s: Store): (m: Views)
  {
    map gid | gid in s.gatherings :: ViewOf(s.gatherings[gid])
  }

  lemma ViewsUpdate(s: Store, gid: nat, g: Gathering)
    ensures AllViews(s.(gatherings := s.gatherings[gid := g])) == AllViews(s)[gid := ViewOf(g)]
  {
  }

  /** The log is faithful: replaying it from nothing rebuilds the gatherings table. */
  ghost predicate Faithful(s: Store)
  {
    Replayed(Kinds(s), map[], s.log) == Some(AllViews(s))
  }
}
