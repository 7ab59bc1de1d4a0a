/**
 Participant lists. A gathering keeps its participants in an ordered list with
 repeats: a console that brings k local players occupies k slots with one PID.
 */
module Participants {

  type Pid = nat

  /** `array_remove(ps, p)`: every copy of `p` goes, everything else stays in place. */
  function Without(ps: seq<Pid>, p: Pid): (rest: seq<Pid>)
  {
    if ps == [] then [] else
    var front := Without(ps[..|ps| - 1], p);
    if ps[|ps| - 1] == p then front else front + [ps[|ps| - 1]]
  }

  /** The slots of `ps` not held by `p`, in increasing order. */
  ghost function KeptSlots(ps: seq<Pid>, p: Pid): (slots: seq<nat>)
    ensures forall i :: 0 <= i < |slots| ==> slots[i] < |ps| && ps[slots[i]] != p
    ensures forall i, j :: 0 <= i < j < |slots| ==> slots[i] < slots[j]
    ensures forall k :: 0 <= k < |ps| && ps[k] != p ==> k in slots
  {
    if ps == [] then [] else
    var front := KeptSlots(ps[..|ps| - 1], p);
    if ps[|ps| - 1] == p then front else front + [|ps| - 1]
  }

  /** Removal keeps exactly the other players' slots, in their old order. */
  lemma {:induction false} WithoutKeepsOrder(ps: seq<Pid>, p: Pid)
    ensures |Without(ps, p)| == |KeptSlots(ps, p)|
    ensures forall i :: 0 <= i < |Without(ps, p)| ==> Without(ps, p)[i] == ps[KeptSlots(ps, p)[i]]
  {
    if ps != [] {
      WithoutKeepsOrder(ps[..|ps| - 1], p);
    }
  }

  /** Removal drops all copies of `p` and keeps the multiplicity of everybody else. */
  lemma {:induction false} WithoutCounts(ps: seq<Pid>, p: Pid)
    ensures multiset(Without(ps, p)) == multiset(ps)[p := 0]
    ensures |Without(ps, p)| == |ps| - multiset(ps)[p]
  {
    if ps != [] {
      var front, x := ps[..|ps| - 1], ps[|ps| - 1];
      WithoutCounts(front, p);
      assert ps == front + [x];
      assert Without(ps, p) == if x == p then Without(front, p) else Without(front, p) + [x];
      hide Without;
      assert multiset(ps) == multiset(front) + multiset{x};
    }
  }

  lemma {:induction false} WithoutMembers(ps: seq<Pid>, p: Pid)
    ensures p !in Without(ps, p)
    ensures |Without(ps, p)| <= |ps|
    ensures forall q :: q != p ==> (q in ps <==> q in Without(ps, p))
    ensures Without(ps, p) != [] && ps[0] != p ==> Without(ps, p)[0] == ps[0]
  {
    if ps != [] {
      var front := ps[..|ps| - 1];
      WithoutMembers(front, p);
      assert ps == front + [ps[|ps| - 1]];
      assert front != [] ==> front[0] in front && front[0] == ps[0];
    }
  }

  lemma {:induction false} WithoutNone(ps: seq<Pid>, p: Pid)
    requires p !in ps
    ensures Without(ps, p) == ps
  {
    if ps != [] {
      WithoutNone(ps[..|ps| - 1], p);
    }
  }

  function Copies(p: Pid, k: nat): (ps: seq<Pid>)
    ensures |ps| == k && forall i :: 0 <= i < k ==> ps[i] == p
  {
    seq(k, _ => p)
  }

  /** A console that joins with k players and then leaves restores the list it found. */
  lemma {:induction false} JoinThenLeave(ps: seq<Pid>, p: Pid, k: nat)
    requires p !in ps
    ensures Without(ps + Copies(p, k), p) == ps
  {
    if k == 0 {
      assert ps + Copies(p, 0) == ps;
      WithoutNone(ps, p);
    } else {
      JoinThenLeave(ps, p, k - 1);
      var whole := ps + Copies(p, k);
      assert whole[..|whole| - 1] == ps + Copies(p, k - 1);
    }
  }

  /** First occurrences, in order. */
  function Dedup(ps: seq<Pid>): (ds: seq<Pid>)
  {
    if ps == [] then [] else
    var front, x := ps[..|ps| - 1], ps[|ps| - 1];
    if x in front then Dedup(front) else Dedup(front) + [x]
  }

  lemma {:induction false} DedupMeaning(ps: seq<Pid>)
    ensures forall q :: q in Dedup(ps) <==> q in ps
    ensures forall i, j :: 0 <= i < j < |Dedup(ps)| ==> Dedup(ps)[i] != Dedup(ps)[j]
    ensures ps != [] ==> Dedup(ps) != [] && Dedup(ps)[0] == ps[0]
  {
    if ps != [] {
      var front, x := ps[..|ps| - 1], ps[|ps| - 1];
      DedupMeaning(front);
      assert ps == front + [x];
    }
  }

  method RemoveDuplicates(items: seq<Pid>) returns (list: seq<Pid>)
    ensures list == Dedup(items)
    ensures forall q :: q in list <==> q in items
    ensures forall i, j :: 0 <= i < j < |list| ==> list[i] != list[j]
  {
    var allKeys: set<Pid> := {};
    list := [];
    for i := 0 to |items|
      invariant allKeys == set q | q in items[..i]
      invariant list == Dedup(items[..i])
    {
      var item := items[i];
      assert items[..i + 1][..i] == items[..i];
      assert items[..i + 1] == items[..i] + [item];
      if item !in allKeys {
        allKeys := allKeys + {item};
        list := list + [item];
      }
    }
    assert items[..|items|] == items;
    DedupMeaning(items);
  }

  /** The first entry that differs from `owner`, or 0 when there is none. */
  function FirstOther(ps: seq<Pid>, owner: Pid): (q: Pid)
    ensures q != 0 ==> q in ps && q != owner
  {
    if ps == [] then 0 else if ps[0] != owner then ps[0] else FirstOther(ps[1..], owner)
  }

  /** `q` is the entry at `i`, after a run of entries that are all `owner`; 0 when that run is the whole list. */
  predicate StandsFirst(ps: seq<Pid>, owner: Pid, i: nat, q: Pid)
  {
    && i <= |ps| && (forall j :: 0 <= j < i ==> ps[j] == owner)
    && if i < |ps| then ps[i] != owner && q == ps[i] else q == 0
  }

  lemma {:induction false} FirstOtherMeans(ps: seq<Pid>, owner: Pid)
    ensures exists i: nat :: StandsFirst(ps, owner, i, FirstOther(ps, owner))
  {
    if ps == [] || ps[0] != owner {
      assert StandsFirst(ps, owner, 0, FirstOther(ps, owner));
    } else {
      FirstOtherMeans(ps[1..], owner);
      var k: nat :| StandsFirst(ps[1..], owner, k, FirstOther(ps[1..], owner));
      assert StandsFirst(ps, owner, k + 1, FirstOther(ps, owner));
    }
  }

  predicate AllAre(ps: seq<Pid>, owner: Pid)
  {
    forall i :: 0 <= i < |ps| ==> ps[i] == owner
  }

  lemma {:induction false} FirstOtherAppend(ps: seq<Pid>, x: Pid, owner: Pid)
    ensures AllAre(ps, owner) ==> FirstOther(ps, owner) == 0
    ensures FirstOther(ps + [x], owner) ==
            if !AllAre(ps, owner) then FirstOther(ps, owner) else if x != owner then x else 0
  {
    if ps == [] {
      assert ps + [x] == [x] && [x][1..] == [];
    } else {
      FirstOtherAppend(ps[1..], x, owner);
      assert (ps + [x])[1..] == ps[1..] + [x];
      assert AllAre(ps, owner) <==> ps[0] == owner && AllAre(ps[1..], owner) by {
        if ps[0] == owner && AllAre(ps[1..], owner) {
          assert forall i :: 1 <= i < |ps| ==> ps[i] == ps[1..][i - 1];
        }
      }
    }
  }

  lemma {:induction false} FirstOtherAt(ps: seq<Pid>, owner: Pid, k: nat)
    requires k < |ps| && ps[k] != owner && AllAre(ps[..k], owner)
    ensures FirstOther(ps, owner) == ps[k]
  {
    if k > 0 {
      assert ps[0] == ps[..k][0];
      var tail := ps[1..][..k - 1];
      forall i | 0 <= i < |tail| ensures tail[i] == owner {
        assert tail[i] == ps[..k][i + 1];
      }
      FirstOtherAt(ps[1..], owner, k - 1);
    }
  }

  /** Dropping repeats does not change who the first other player is. */
  lemma {:induction false} DedupFirstOther(ps: seq<Pid>, owner: Pid)
    ensures FirstOther(Dedup(ps), owner) == FirstOther(ps, owner)
    ensures AllAre(Dedup(ps), owner) <==> AllAre(ps, owner)
  {
    if ps != [] {
      var front, x := ps[..|ps| - 1], ps[|ps| - 1];
      assert ps == front + [x];
      DedupFirstOther(front, owner);
      FirstOtherAppend(front, x, owner);
      FirstOtherAppend(Dedup(front), x, owner);
      assert AllAre(ps, owner) <==> AllAre(front, owner) && x == owner;
      assert AllAre(Dedup(front) + [x], owner) <==> AllAre(Dedup(front), owner) && x == owner by {
        assert (Dedup(front) + [x])[|Dedup(front)|] == x;
        assert forall i :: 0 <= i < |Dedup(front)| ==> (Dedup(front) + [x])[i] == Dedup(front)[i];
      }
    }
  }
}
