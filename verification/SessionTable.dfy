/** The table of live sessions and the cyclic session identifier allocator (server/server.go). */
module SessionTable {
  import opened Basics

  /** The number of identifiers, 1 to 65535. */
  const IDS: int := 0xffff

  /** The identifier j places after start on the cycle 1, 2, ..., 65535, 1, ... */
  function Cyclic(start: uint16, j: nat): uint16
    requires start != 0
  {
    (start - 1 + j) % IDS + 1
  }

  /** Every identifier comes up within one turn of the cycle. */
  lemma CycleCovers(start: uint16, id: uint16) returns (j: nat)
    requires start != 0 && id != 0
    ensures j < IDS && Cyclic(start, j) == id
  {
    j := if id >= start then id - start else id - start + IDS;
  }

  function Ids(n: nat): (s: set<int>)
    ensures forall x :: x in s <==> 1 <= x <= n
    ensures |s| == n
  {
    if n == 0 then {} else Ids(n - 1) + {n}
  }

  lemma {:induction false} SubsetSize<T>(a: set<T>, b: set<T>)
    requires a <= b
    ensures |a| <= |b|
    ensures |a| == |b| ==> a == b
  {
    if a != {} {
      var x :| x in a;
      SubsetSize(a - {x}, b - {x});
    }
  }

  /** Every identifier is in use exactly when as many are in use as there are. */
  lemma Exhausted(used: set<int>, n: nat)
    requires n == IDS && forall x | x in used :: 1 <= x <= n
    ensures (forall x | 1 <= x <= n :: x in used) <==> |used| >= n
  {
    var all := Ids(n);
    hide Ids;
    SubsetSize(used, all);
    if forall x | 1 <= x <= n :: x in used {
      SubsetSize(all, used);
    }
  }

  class Table<S(0)> {
    var sessions: map<uint16, S>
    var nextId: uint16
    const maxSessions: int

    ghost predicate Valid()
      reads this
    {
      nextId != 0 && 0 !in sessions
    }

    /** id is j places after start on the cycle and every identifier before it is in use. */
    ghost predicate FirstFree(start: uint16, j: nat, id: uint16)
      requires start != 0
      reads this
    {
      j < IDS && id == Cyclic(start, j) && forall i: nat | i < j :: Cyclic(start, i) in sessions
    }

    constructor (max: int)
      ensures Valid() && sessions == map[] && maxSessions == max
    {
      sessions, nextId, maxSessions := map[], 1, max;
    }

    /** The scan over the 16-bit space. It finds the first free identifier at or after nextId in cyclic order
        and fails only when all 65535 are in use. */
    method AllocateId() returns (id: uint16, ok: bool)
      requires Valid()
      modifies this`nextId
      ensures Valid()
      ensures ok ==> id != 0 && id !in sessions
      ensures ok ==> exists j: nat :: FirstFree(old(nextId), j, id) && nextId == Cyclic(id, 1)
      ensures !ok ==> forall x: uint16 | x != 0 :: x in sessions
    {
      ghost var start := nextId;
      for k := 0 to 0x1_0000
        invariant nextId == Cyclic(start, k)
        invariant forall i: nat | i < k :: Cyclic(start, i) in sessions
      {
        id := nextId;
        nextId := (nextId + 1) % 0x1_0000;
        if nextId == 0 {
          nextId := 1;
        }
        assert k == IDS ==> Cyclic(start, 0) == id;
        if id !in sessions && id != 0 {
          assert FirstFree(start, k, id);
          return id, true;
        }
      }
      forall x: uint16 | x != 0 ensures x in sessions {
        var j := CycleCovers(start, x);
      }
      return 0, false;
    }

    /** Registers a session, or refuses it: None is ErrMaxClients. A session is refused exactly when the
        configured number, or every identifier, is in use. */
    method AllocateSession(sess: S) returns (id: Option<uint16>)
      requires Valid()
      modifies this
      ensures Valid()
      ensures id == None <==> |old(sessions)| >= maxSessions || |old(sessions)| >= IDS
      ensures id == None ==> sessions == old(sessions)
      ensures id != None ==> id.value !in old(sessions) && id.value != 0 && sessions == old(sessions)[id.value := sess]
    {
      if |sessions| >= maxSessions {
        return None;
      }
      var n, ok := AllocateId();
      Exhausted(sessions.Keys, IDS);
      if !ok {
        return None;
      }
      sessions := sessions[n := sess];
      id := Some(n);
    }

    method RemoveSession(id: uint16)
      requires Valid()
      modifies this`sessions
      ensures Valid() && sessions == old(sessions) - {id}
    {
      sessions := sessions - {id};
    }
  }
}
