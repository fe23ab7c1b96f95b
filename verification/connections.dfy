/**
 * The connection registry (`connections`): websockets join when accepted,
 * leave on disconnect, and are dropped when a broadcast to them fails.
 */
module Connections {
  import opened Seqs

  /** A live websocket, identified by an opaque handle. */
  type Conn = nat

  predicate Distinct(a: Conn, b: Conn)
  {
    a != b
  }

  /** The registry without `c`. */
  function Erase(s: seq<Conn>, c: Conn): (r: seq<Conn>)
    ensures forall d :: d in r <==> d in s && d != c
  {
    Filter(s, {c})
  }

  /** One send of `frame` to each member of `s`, in order. */
  function SendAll(s: seq<Conn>, frame: string): (r: seq<(Conn, string)>)
    ensures |r| == |s|
    ensures forall i :: 0 <= i < |r| ==> r[i] == (s[i], frame)
  {
    if s == [] then [] else SendAll(s[..|s| - 1], frame) + [(s[|s| - 1], frame)]
  }

  /** The members whose send did not fail, in their original order. */
  function Survivors(s: seq<Conn>, failing: set<Conn>): (r: seq<Conn>)
    ensures forall d :: d in r <==> d in s && d !in failing
  {
    Filter(s, failing)
  }

  class ConnectionRegistry {
    var members: seq<Conn>

    /** Handles are unique: each accepted websocket is appended once. */
    ghost predicate Valid()
      reads this
    {
      Pairwise(members, Distinct)
    }

    /** The registry starts empty. */
    constructor ()
      ensures Valid() && members == []
    {
      members := [];
    }

    /** `connections.append(websocket)` right after the handshake; a new websocket is never already a member. */
    method Add(c: Conn)
      requires Valid() && c !in members
      modifies this
      ensures Valid()
      ensures members == old(members) + [c]
    {
      forall x, y | x in members && y in [c] ensures Distinct(x, y) { }
      PairwiseAppend(members, [c], Distinct);
      members := members + [c];
    }

    /** `if websocket in connections: connections.remove(websocket)`: removal that is a no-op for a non-member. */
    method Remove(c: Conn)
      requires Valid()
      modifies this
      ensures Valid()
      ensures members == Erase(old(members), c)
    {
      FilterPairwise(members, {c}, Distinct);
      if c in members {
        RemoveFirstIsErase(members, c);
        members := RemoveFirst(members, c);
      } else {
        FilterKeepsAll(members, {c});
      }
    }

    /**
     * Send `frame` to every member of a snapshot of the registry, in order,
     * and return each send as a (member, frame) pair; a member whose send fails is
     * removed from the live registry (guarded by `in`) and the others are
     * still tried.
     */
    method Broadcast(frame: string, failing: set<Conn>) returns (sends: seq<(Conn, string)>)
      requires Valid()
      modifies this
      ensures Valid()
      ensures |sends| == |old(members)|
      ensures forall i :: 0 <= i < |sends| ==> sends[i] == (old(members)[i], frame)
      ensures members == Survivors(old(members), failing)
    {
      var snapshot := members;
      sends := [];
      var i := 0;
      while i < |snapshot|
        invariant 0 <= i <= |snapshot|
        invariant sends == SendAll(snapshot[..i], frame)
        invariant members == Survivors(snapshot[..i], failing) + snapshot[i..]
      {
        var c := snapshot[i];
        PrefixExtend(snapshot, i);
        sends := sends + [(c, frame)];
        assert snapshot[..i + 1][..i] == snapshot[..i];
        BroadcastStep(snapshot, i, failing);
        if c in failing && c in members {
          members := RemoveFirst(members, c);
        }
        assert members == Survivors(snapshot[..i + 1], failing) + snapshot[i + 1..];
        i := i + 1;
      }
      assert snapshot[..i] == snapshot;
      SurvivorsDistinct(snapshot, failing);
    }
  }

  /**
   * One step of the broadcast loop: the `i`-th member of the snapshot is
   * still registered, and removing it when its send failed extends the
   * filtered prefix by one.
   */
  lemma BroadcastStep(snapshot: seq<Conn>, i: nat, failing: set<Conn>)
    requires Pairwise(snapshot, Distinct) && i < |snapshot|
    ensures var live := Survivors(snapshot[..i], failing) + snapshot[i..];
      var c := snapshot[i];
      c in live &&
      (if c in failing then RemoveFirst(live, c) else live) == Survivors(snapshot[..i + 1], failing) + snapshot[i + 1..]
  {
    PairwiseNotBefore(snapshot, i, Distinct);
    FilterStep(snapshot, i, failing);
  }

  /** The survivors of a broadcast are still pairwise distinct. */
  lemma SurvivorsDistinct(s: seq<Conn>, failing: set<Conn>)
    requires Pairwise(s, Distinct)
    ensures Pairwise(Survivors(s, failing), Distinct)
  {
    FilterPairwise(s, failing, Distinct);
  }

  /** Without duplicates, `list.remove` drops every occurrence. */
  lemma {:induction false} RemoveFirstIsErase(s: seq<Conn>, c: Conn)
    requires Pairwise(s, Distinct) && c in s
    ensures RemoveFirst(s, c) == Erase(s, c)
  {
    var tail := s[1..];
    assert Pairwise(tail, Distinct) by {
      forall i, j | 0 <= i < j < |tail| ensures Distinct(tail[i], tail[j]) {
        assert Distinct(s[i + 1], s[j + 1]);
      }
    }
    assert s == [s[0]] + tail;
    if s[0] == c {
      forall x | x in tail ensures x != c {
        var j :| 0 <= j < |tail| && tail[j] == x;
        assert Distinct(s[0], s[j + 1]);
      }
      FilterKeepsAll(tail, {c});
    } else {
      RemoveFirstIsErase(tail, c);
    }
  }

  /** Removing a connection twice is removing it once: disconnect after a failed send is a no-op. */
  lemma EraseIdempotent(s: seq<Conn>, c: Conn)
    ensures Erase(Erase(s, c), c) == Erase(s, c)
    ensures c !in s ==> Erase(s, c) == s
  {
    FilterIdempotent(s, {c});
    if c !in s {
      FilterKeepsAll(s, {c});
    }
  }

  /** The survivors of a broadcast keep their relative order. */
  lemma SurvivorsKeepOrder(a: seq<Conn>, b: seq<Conn>, failing: set<Conn>)
    ensures Survivors(a + b, failing) == Survivors(a, failing) + Survivors(b, failing)
  {
    FilterAppend(a, b, failing);
  }
}
