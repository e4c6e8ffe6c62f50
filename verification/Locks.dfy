/** The lock manager (server/locks.go) and IVI-6.1 Table 22 for any number of sessions. */
module Locks {
  import opened Basics

  type SessionId = uint16

  /** A lock string is the payload of an AsyncLock message. */
  type LockString = seq<byte>

  datatype LockResult = LockFailure | LockGranted | LockReleasedShared | LockError

  datatype LockState = Unlocked | ExclusiveLocked | SharedLocked | BothLocked

  /** Who holds what. The key is the shared lock string. */
  datatype Locks = Locks(exclusive: Option<SessionId>, key: LockString, shared: set<SessionId>)

  const NO_LOCKS := Locks(None, [], {})

  function StateOf(m: Locks): LockState {
    if m.exclusive.Some? then (if m.shared != {} then BothLocked else ExclusiveLocked)
    else if m.shared != {} then SharedLocked
    else Unlocked
  }

  predicate Holds(m: Locks, id: SessionId) {
    m.exclusive == Some(id) || id in m.shared
  }

  // ---------------------------------------------------------------- the operations on values

  datatype Op = Exclusive | Shared(key: LockString) | Release | ReleaseAll

  /** A request with an empty string asks for the exclusive lock. */
  function RequestOp(lockString: LockString): Op {
    if lockString == [] then Exclusive else Shared(lockString)
  }

  predicate IsRequest(op: Op) { op.Exclusive? || (op.Shared? && op.key != []) }

  function TryExclusive(m: Locks, id: SessionId): (Locks, LockResult) {
    if m.exclusive.Some? then
      (m, if m.exclusive.value == id then LockError else LockFailure)
    else if m.shared != {} && id !in m.shared then (m, LockFailure)
    else (m.(exclusive := Some(id)), LockGranted)
  }

  function TryShared(m: Locks, id: SessionId, key: LockString): (Locks, LockResult) {
    if id in m.shared then (m, LockError)
    else if m.shared != {} then
      if m.key != key then (m, LockFailure) else (m.(shared := m.shared + {id}), LockGranted)
    else if m.exclusive.Some? then
      (m, if m.exclusive.value != id then LockFailure else LockError)
    else (m.(key := key, shared := {id}), LockGranted)
  }

  function DropShared(m: Locks, id: SessionId): Locks {
    var rest := m.shared - {id};
    m.(shared := rest, key := if rest == {} then [] else m.key)
  }

  function DoRelease(m: Locks, id: SessionId): (Locks, LockResult) {
    if m.exclusive == Some(id) then (m.(exclusive := None), LockGranted)
    else if id in m.shared then (DropShared(m, id), LockReleasedShared)
    else (m, LockError)
  }

  function DoReleaseAll(m: Locks, id: SessionId): Locks {
    var n := if m.exclusive == Some(id) then m.(exclusive := None) else m;
    if id in n.shared then DropShared(n, id) else n
  }

  function Apply(m: Locks, id: SessionId, op: Op): (Locks, LockResult) {
    match op
    case Exclusive => TryExclusive(m, id)
    case Shared(key) => TryShared(m, id, key)
    case Release => DoRelease(m, id)
    case ReleaseAll => (DoReleaseAll(m, id), LockGranted)
  }

  // ---------------------------------------------------------------- the manager object

  class LockManager {
    var exclusive: SessionId
    var hasExclusive: bool
    var key: LockString
    var shared: map<SessionId, bool>
    /** Whether a waiting request has left a channel to be closed by the next change of state. */
    var changed: bool

    ghost function View(): Locks
      reads this
    {
      Locks(if hasExclusive then Some(exclusive) else None, key, shared.Keys)
    }

    ghost predicate Valid()
      reads this
    {
      && (forall id | id in shared :: shared[id])
      && Inv(View())
    }

    constructor ()
      ensures Valid() && View() == NO_LOCKS && !changed
    {
      exclusive, hasExclusive, key, shared, changed := 0, false, [], map[], false;
    }

    method State() returns (s: LockState)
      ensures s == StateOf(View())
    {
      if hasExclusive && |shared| > 0 {
        s := BothLocked;
      } else if hasExclusive {
        s := ExclusiveLocked;
      } else if |shared| > 0 {
        s := SharedLocked;
      } else {
        assert shared.Keys == {};
        s := Unlocked;
      }
    }

    method TryRequest(id: SessionId, lockString: LockString) returns (r: LockResult)
      requires Valid()
      modifies this
      ensures Valid()
      ensures (View(), r) == Apply(old(View()), id, RequestOp(lockString))
      ensures changed == (old(changed) && View() == old(View()))
    {
      InvPreserved(View(), id, RequestOp(lockString));
      if lockString == [] {
        r := TryExclusiveLocked(id);
      } else {
        r := TrySharedLocked(id, lockString);
      }
    }

    method TryExclusiveLocked(id: SessionId) returns (r: LockResult)
      requires Valid()
      modifies this
      ensures (View(), r) == TryExclusive(old(View()), id)
      ensures var m := old(View());
              View() == if r == LockGranted then Locks(Some(id), m.key, m.shared) else m
      ensures shared == old(shared)
      ensures changed == (old(changed) && View() == old(View()))
    {
      if hasExclusive {
        return if exclusive == id then LockError else LockFailure;
      }
      if |shared| > 0 && !(id in shared && shared[id]) {
        return LockFailure;
      }
      assert |shared| == 0 ==> shared.Keys == {};
      hasExclusive, exclusive, changed := true, id, false;
      r := LockGranted;
    }

    method TrySharedLocked(id: SessionId, k: LockString) returns (r: LockResult)
      requires Valid()
      modifies this
      ensures (View(), r) == TryShared(old(View()), id, k)
      ensures var m := old(View());
              View() == if r == LockGranted then Locks(m.exclusive, k, m.shared + {id}) else m
      ensures forall i | i in shared :: shared[i]
      ensures changed == (old(changed) && View() == old(View()))
    {
      if id in shared && shared[id] {
        return LockError;
      }
      if |shared| > 0 {
        if key != k {
          return LockFailure;
        }
        assert shared[id := true].Keys == shared.Keys + {id};
        shared, changed := shared[id := true], false;
        return LockGranted;
      }
      assert shared.Keys == {};
      if hasExclusive && exclusive != id {
        return LockFailure;
      }
      if hasExclusive && exclusive == id {
        return LockError;
      }
      key, shared, changed := k, shared[id := true], false;
      assert shared.Keys == {id};
      r := LockGranted;
    }

    method Release(id: SessionId) returns (r: LockResult)
      requires Valid()
      modifies this
      ensures Valid()
      ensures (View(), r) == DoRelease(old(View()), id)
      ensures changed == (old(changed) && View() == old(View()))
    {
      InvPreserved(View(), id, Op.Release);
      if hasExclusive && exclusive == id {
        hasExclusive, exclusive, changed := false, 0, false;
        return LockGranted;
      }
      if id in shared && shared[id] {
        DeleteShared(id);
        changed := false;
        return LockReleasedShared;
      }
      r := LockError;
    }

    method DeleteShared(id: SessionId)
      requires id in shared && forall i | i in shared :: shared[i]
      modifies this`shared, this`key
      ensures View() == DropShared(old(View()), id)
      ensures forall i | i in shared :: shared[i]
    {
      shared := shared - {id};
      if |shared| == 0 {
        key := [];
        assert shared.Keys == {};
      }
    }

    method ReleaseAll(id: SessionId)
      requires Valid()
      modifies this
      ensures Valid()
      ensures View() == DoReleaseAll(old(View()), id)
      ensures changed == (old(changed) && View() == old(View()))
    {
      InvPreserved(View(), id, Op.ReleaseAll);
      var released := false;
      if hasExclusive && exclusive == id {
        hasExclusive, exclusive, released := false, 0, true;
      }
      if id in shared && shared[id] {
        DeleteShared(id);
        released := true;
      }
      if released {
        changed := false;
      }
    }

    /** The values of an AsyncLockInfoResponse: the exclusive flag and how many clients hold a lock. */
    method Info() returns (exclusiveGranted: bool, clientsHolding: nat)
      requires Valid()
      ensures exclusiveGranted == View().exclusive.Some?
      ensures clientsHolding == if View().shared != {} then |View().shared| else if exclusiveGranted then 1 else 0
      ensures clientsHolding == |set id: SessionId | id in Candidates() && Holds(View(), id)|
    {
      var holders: map<SessionId, bool> := map[];
      var todo := shared.Keys;
      while todo != {}
        invariant todo <= shared.Keys
        invariant holders.Keys == shared.Keys - todo
        decreases |todo|
      {
        var id :| id in todo;
        holders := holders[id := true];
        todo := todo - {id};
      }
      if hasExclusive {
        holders := holders[exclusive := true];
      }
      assert holders.Keys == Candidates();
      assert holders.Keys == set id: SessionId | id in Candidates() && Holds(View(), id);
      if shared.Keys == {} && hasExclusive {
        assert holders.Keys == {exclusive};
      } else {
        assert holders.Keys == shared.Keys;
      }
      return hasExclusive, |holders|;
    }

    ghost function Candidates(): set<SessionId>
      reads this
    {
      shared.Keys + (if hasExclusive then {exclusive} else {})
    }

    method Held(id: SessionId) returns (r: bool)
      requires Valid()
      ensures r == Holds(View(), id)
    {
      r := (hasExclusive && exclusive == id) || (id in shared && shared[id]);
    }
  }

  // ---------------------------------------------------------------- every reachable state

  /** The key is set exactly when the shared lock is held, and an exclusive holder that coexists with
      shared holders is one of them. */
  ghost predicate Inv(m: Locks) {
    && (m.key == [] <==> m.shared == {})
    && (m.exclusive.Some? && m.shared != {} ==> m.exclusive.value in m.shared)
  }

  datatype Call = Call(id: SessionId, op: Op)

  /** Shared requests carry a non-empty key. */
  ghost predicate CallOk(c: Call) { c.op.Shared? ==> c.op.key != [] }

  function Run(m: Locks, calls: seq<Call>): Locks
    decreases |calls|
  {
    if calls == [] then m else Run(Apply(m, calls[0].id, calls[0].op).0, calls[1..])
  }

  lemma InvPreserved(m: Locks, id: SessionId, op: Op)
    requires Inv(m) && CallOk(Call(id, op))
    ensures Inv(Apply(m, id, op).0)
  {
    if id in m.shared {
      assert m.shared - {id} == {} ==> m.shared == {id};
    }
  }

  lemma {:induction false} RunInv(m: Locks, calls: seq<Call>)
    requires Inv(m) && forall c | c in calls :: CallOk(c)
    ensures Inv(Run(m, calls))
    decreases |calls|
  {
    if calls != [] {
      InvPreserved(m, calls[0].id, calls[0].op);
      RunInv(Apply(m, calls[0].id, calls[0].op).0, calls[1..]);
    }
  }

  // ---------------------------------------------------------------- Table 22

  /** What Table 22 distinguishes about the client that makes the request. */
  datatype Role = Role(hasExclusive: bool, hasShared: bool, otherShared: bool, rightKey: bool)

  function RoleOf(m: Locks, id: SessionId, key: LockString): Role {
    Role(m.exclusive == Some(id), id in m.shared, m.shared - {id} != {}, key == m.key)
  }

  /** Table 22: the answer and the new state for each state, request and role. */
  function Table22(s: LockState, op: Op, r: Role): (LockState, LockResult) {
    match (s, op)
    case (Unlocked, Shared(_)) => (SharedLocked, LockGranted)
    case (Unlocked, Exclusive) => (ExclusiveLocked, LockGranted)
    case (ExclusiveLocked, Shared(_)) => (ExclusiveLocked, if r.hasExclusive then LockError else LockFailure)
    case (ExclusiveLocked, Exclusive) => (ExclusiveLocked, if r.hasExclusive then LockError else LockFailure)
    case (ExclusiveLocked, Release) =>
      if r.hasExclusive then (Unlocked, LockGranted) else (ExclusiveLocked, LockError)
    case (SharedLocked, Shared(_)) =>
      (SharedLocked, if r.hasShared then LockError else if r.rightKey then LockGranted else LockFailure)
    case (SharedLocked, Exclusive) =>
      if r.hasShared then (BothLocked, LockGranted) else (SharedLocked, LockFailure)
    case (SharedLocked, Release) =>
      if !r.hasShared then (SharedLocked, LockError)
      else (if r.otherShared then SharedLocked else Unlocked, LockReleasedShared)
    case (BothLocked, Shared(_)) =>
      (BothLocked, if r.hasShared then LockError else if r.rightKey then LockGranted else LockFailure)
    case (BothLocked, Exclusive) => (BothLocked, if r.hasExclusive then LockError else LockFailure)
    case (BothLocked, Release) =>
      if r.hasExclusive then (SharedLocked, LockGranted)
      else if r.hasShared then (BothLocked, LockReleasedShared)
      else (BothLocked, LockError)
    case (_, _) => (s, LockError)
  }

  /** In every reachable state, with any number of sessions, every request and release answers and moves as
      Table 22 says. */
  lemma RefinesTable22(calls: seq<Call>, id: SessionId, op: Op)
    requires (forall c | c in calls :: CallOk(c)) && CallOk(Call(id, op)) && !op.ReleaseAll?
    ensures var m := Run(NO_LOCKS, calls);
            var (n, result) := Apply(m, id, op);
            (StateOf(n), result) == Table22(StateOf(m), op, RoleOf(m, id, if op.Shared? then op.key else []))
  {
    RunInv(NO_LOCKS, calls);
    Table22Step(Run(NO_LOCKS, calls), id, op);
  }

  lemma Table22Step(m: Locks, id: SessionId, op: Op)
    requires Inv(m) && CallOk(Call(id, op)) && !op.ReleaseAll?
    ensures (StateOf(Apply(m, id, op).0), Apply(m, id, op).1)
         == Table22(StateOf(m), op, RoleOf(m, id, if op.Shared? then op.key else []))
  {
    match op
    case Exclusive =>
    case Shared(key) =>
      assert id in m.shared + {id};
    case Release =>
      if m.exclusive.Some? && m.exclusive.value != id && id in m.shared {
        assert m.exclusive.value in m.shared - {id};
      }
  }

  // ---------------------------------------------------------------- error or failure

  ghost predicate ByOthers(calls: seq<Call>, id: SessionId) {
    forall c | c in calls :: c.id != id && CallOk(c)
  }

  lemma ErrorSurvivesOne(m: Locks, id: SessionId, op: Op, c: Call)
    requires Inv(m) && CallOk(Call(id, op)) && CallOk(c) && c.id != id
    requires Apply(m, id, op).1 == LockError
    ensures Apply(Apply(m, c.id, c.op).0, id, op).1 == LockError
  {
  }

  /** A request or release answered LockError is still answered so after anything other sessions do. */
  lemma {:induction false} ErrorIsStable(m: Locks, id: SessionId, op: Op, calls: seq<Call>)
    requires Inv(m) && CallOk(Call(id, op)) && ByOthers(calls, id)
    requires Apply(m, id, op).1 == LockError
    ensures Apply(Run(m, calls), id, op).1 == LockError
    decreases |calls|
  {
    if calls != [] {
      var c := calls[0];
      InvPreserved(m, c.id, c.op);
      ErrorSurvivesOne(m, id, op, c);
      ErrorIsStable(Apply(m, c.id, c.op).0, id, op, calls[1..]);
    }
  }

  ghost predicate OnlyHolder(m: Locks, id: SessionId) {
    m.shared <= {id} && (m.exclusive == None || m.exclusive == Some(id))
  }

  /** A request that failed leaves everything as it was, and every other session holding nothing is enough
      for the same request to be granted. */
  lemma FailureIsTemporary(m: Locks, id: SessionId, op: Op, n: Locks)
    requires Inv(m) && Inv(n) && IsRequest(op) && Apply(m, id, op).1 == LockFailure
    requires OnlyHolder(n, id) && (id in m.shared <==> id in n.shared) && n.exclusive == None
    ensures Apply(m, id, op).0 == m
    ensures Apply(n, id, op).1 == LockGranted
  {
    assert n.shared == {} || n.shared == {id};
  }

  function ReleaseCalls(ids: seq<SessionId>): seq<Call> {
    seq(|ids|, i requires 0 <= i < |ids| => Call(ids[i], Op.ReleaseAll))
  }

  lemma {:induction false} RunReleaseAll(m: Locks, id: SessionId, ids: seq<SessionId>)
    requires Inv(m) && id !in ids
    ensures var n := Run(m, ReleaseCalls(ids));
            && n.shared == m.shared - (set i | i in ids)
            && n.exclusive == (if m.exclusive.Some? && m.exclusive.value in ids then None else m.exclusive)
    decreases |ids|
  {
    if ids != [] {
      var step := DoReleaseAll(m, ids[0]);
      InvPreserved(m, ids[0], Op.ReleaseAll);
      RunReleaseAll(step, id, ids[1..]);
      assert ReleaseCalls(ids)[1..] == ReleaseCalls(ids[1..]);
    }
  }

  /** Once every other holder has released everything, in any order, a failed request is granted. */
  lemma FailureEndsWhenOthersRelease(m: Locks, id: SessionId, op: Op, ids: seq<SessionId>)
    requires Inv(m) && IsRequest(op) && Apply(m, id, op).1 == LockFailure
    requires id !in ids && forall other | other != id && Holds(m, other) :: other in ids
    ensures Apply(m, id, op).0 == m
    ensures Apply(Run(m, ReleaseCalls(ids)), id, op).1 == LockGranted
  {
    RunReleaseAll(m, id, ids);
    RunInv(m, ReleaseCalls(ids));
    FailureIsTemporary(m, id, op, Run(m, ReleaseCalls(ids)));
  }

  lemma {:induction false} ListOf(s: set<SessionId>) returns (ids: seq<SessionId>)
    ensures forall i :: i in ids <==> i in s
  {
    if s == {} {
      ids := [];
    } else {
      var x :| x in s;
      ids := ListOf(s - {x});
      ids := [x] + ids;
    }
  }

  /** The split between the two refusals is exact: a request is answered LockError if and only if nothing
      the other sessions do can lead to its being granted. */
  lemma ErrorMeansWaitingCannotHelp(m: Locks, id: SessionId, op: Op)
    requires Inv(m) && IsRequest(op)
    ensures Apply(m, id, op).1 == LockError
       <==> !exists calls :: ByOthers(calls, id) && Apply(Run(m, calls), id, op).1 == LockGranted
  {
    match Apply(m, id, op).1
    case LockError =>
      forall calls | ByOthers(calls, id)
        ensures Apply(Run(m, calls), id, op).1 == LockError
      {
        ErrorIsStable(m, id, op, calls);
      }
    case LockFailure =>
      var others := (m.shared + (if m.exclusive.Some? then {m.exclusive.value} else {})) - {id};
      var ids := ListOf(others);
      FailureEndsWhenOthersRelease(m, id, op, ids);
      assert ByOthers(ReleaseCalls(ids), id);
    case LockGranted =>
      assert Run(m, []) == m;
      assert ByOthers([], id);
    case LockReleasedShared =>
  }

  // ---------------------------------------------------------------- closing a session

  /** Release repeated until it is refused, counting the releases that succeeded. */
  function ReleaseUntilError(m: Locks, id: SessionId): (Locks, nat)
    decreases |m.shared| + if m.exclusive.Some? then 1 else 0
  {
    var (n, r) := DoRelease(m, id);
    if r == LockError then (m, 0)
    else var (k, count) := ReleaseUntilError(n, id); (k, count + 1)
  }

  /** ReleaseAll leaves what repeated releases leave, which takes one release per lock held, at most two. */
  lemma ReleaseAllIsRepeatedRelease(m: Locks, id: SessionId)
    ensures ReleaseUntilError(m, id).0 == DoReleaseAll(m, id)
    ensures ReleaseUntilError(m, id).1
         == (if m.exclusive == Some(id) then 1 else 0) + (if id in m.shared then 1 else 0)
    ensures !Holds(DoReleaseAll(m, id), id)
  {
    var n := DoRelease(m, id).0;
    if Holds(m, id) {
      var k := DoRelease(n, id).0;
      if Holds(n, id) {
        assert ReleaseUntilError(k, id) == (k, 0);
      } else {
        assert ReleaseUntilError(n, id) == (n, 0);
      }
    }
  }

  /** What one session does never takes a lock from another. */
  lemma {:induction false} OthersKeepTheirLocks(m: Locks, id: SessionId, calls: seq<Call>)
    requires Inv(m) && ByOthers(calls, id)
    ensures var n := Run(m, calls);
            (n.exclusive == Some(id) <==> m.exclusive == Some(id)) && (id in n.shared <==> id in m.shared)
    decreases |calls|
  {
    if calls != [] {
      InvPreserved(m, calls[0].id, calls[0].op);
      OthersKeepTheirLocks(Apply(m, calls[0].id, calls[0].op).0, id, calls[1..]);
    }
  }

  // ---------------------------------------------------------------- what a session was told is what it holds

  /** The answer to the last of these calls, from an unlocked start. */
  function LastAnswer(calls: seq<Call>): LockResult
    requires calls != []
  {
    var c := calls[|calls| - 1];
    Apply(Run(NO_LOCKS, calls[..|calls| - 1]), c.id, c.op).1
  }

  /** By the answers alone: the session was granted the exclusive lock, and no release of its own was answered with
      that lock's release since. */
  predicate ToldExclusive(calls: seq<Call>, id: SessionId) {
    if calls == [] then false
    else
      var before, c := ToldExclusive(calls[..|calls| - 1], id), calls[|calls| - 1];
      if c.id != id then before
      else match c.op
        case Exclusive => before || LastAnswer(calls) == LockGranted
        case Shared(_) => before
        case Release => before && LastAnswer(calls) != LockGranted
        case ReleaseAll => false
  }

  /** By the answers alone: the lock string under which the session was granted the shared lock, if it still has it. */
  function ToldShared(calls: seq<Call>, id: SessionId): Option<LockString> {
    if calls == [] then None
    else
      var before, c := ToldShared(calls[..|calls| - 1], id), calls[|calls| - 1];
      if c.id != id then before
      else match c.op
        case Exclusive => before
        case Shared(key) => if LastAnswer(calls) == LockGranted then Some(key) else before
        case Release => if LastAnswer(calls) == LockReleasedShared then None else before
        case ReleaseAll => None
  }

  lemma {:induction false} RunSnoc(m: Locks, calls: seq<Call>, c: Call)
    ensures Run(m, calls + [c]) == Apply(Run(m, calls), c.id, c.op).0
    decreases |calls|
  {
    hide Apply;
    if calls == [] {
      assert [c][1..] == [] && calls + [c] == [c];
    } else {
      RunSnoc(Apply(m, calls[0].id, calls[0].op).0, calls[1..], c);
      assert (calls + [c])[1..] == calls[1..] + [c];
    }
  }

  /** What each answer means for the whole table of locks. */
  lemma AnswersExactly(m: Locks, id: SessionId, op: Op)
    requires Inv(m) && CallOk(Call(id, op))
    ensures var (n, r) := Apply(m, id, op);
            match op
            case Exclusive => n == if r == LockGranted then Locks(Some(id), m.key, m.shared) else m
            case Shared(key) => n == if r == LockGranted then Locks(m.exclusive, key, m.shared + {id}) else m
            case Release =>
              && (r == LockGranted ==> m.exclusive == Some(id) && n == Locks(None, m.key, m.shared))
              && (r == LockReleasedShared ==>
                    && m.exclusive != Some(id) && id in m.shared
                    && n == Locks(m.exclusive, if m.shared == {id} then [] else m.key, m.shared - {id}))
              && (r == LockError ==> n == m && !Holds(m, id))
              && r != LockFailure
            case ReleaseAll =>
              && n.exclusive == (if m.exclusive == Some(id) then None else m.exclusive)
              && n.shared == m.shared - {id} && n.key == if n.shared == {} then [] else m.key
  {
    if id in m.shared {
      assert m.shared - {id} == {} <==> m.shared == {id};
    } else {
      assert m.shared - {id} == m.shared;
    }
  }

  /** What one operation does to the locks of the session that calls it and to those of any session. */
  lemma Effect(m: Locks, c: Call, id: SessionId)
    requires Inv(m) && CallOk(c)
    ensures var (n, r) := Apply(m, c.id, c.op);
            && (n.exclusive == Some(id) <==>
                  if c.id != id then m.exclusive == Some(id)
                  else match c.op
                    case Exclusive => m.exclusive == Some(id) || r == LockGranted
                    case Shared(_) => m.exclusive == Some(id)
                    case Release => m.exclusive == Some(id) && r != LockGranted
                    case ReleaseAll => false)
            && (id in n.shared <==>
                  if c.id != id then id in m.shared
                  else match c.op
                    case Exclusive => id in m.shared
                    case Shared(_) => id in m.shared || r == LockGranted
                    case Release => id in m.shared && r != LockReleasedShared
                    case ReleaseAll => false)
  {
  }

  /** The key changes only with the first holder and the last. */
  lemma KeyEffect(m: Locks, c: Call)
    requires Inv(m) && CallOk(c)
    ensures var (n, r) := Apply(m, c.id, c.op);
            && (c.op.Shared? && r == LockGranted ==> n.key == c.op.key && (m.shared != {} ==> m.key == c.op.key))
            && (n.shared != {} && m.shared != {} ==> n.key == m.key)
            && (n.shared != {} && m.shared == {} ==> c.op.Shared? && r == LockGranted && n.shared == {c.id})
  {
    var n := Apply(m, c.id, c.op).0;
    assert n.shared <= m.shared + {c.id};
  }

  /** In every run, a session holds exactly the locks it was told it was granted and has not been told it released, and
      every shared holder was granted the lock under the key now in force. */
  lemma {:induction false} ToldIsHeld(calls: seq<Call>, id: SessionId)
    requires forall c | c in calls :: CallOk(c)
    ensures var m := Run(NO_LOCKS, calls);
            && (m.exclusive == Some(id) <==> ToldExclusive(calls, id))
            && (id in m.shared <==> ToldShared(calls, id).Some?)
            && (id in m.shared ==> ToldShared(calls, id) == Some(m.key))
  {
    if calls != [] {
      var prefix, c := calls[..|calls| - 1], calls[|calls| - 1];
      assert calls == prefix + [c];
      ToldIsHeld(prefix, id);
      RunInv(NO_LOCKS, prefix);
      RunSnoc(NO_LOCKS, prefix, c);
      Effect(Run(NO_LOCKS, prefix), c, id);
      KeyEffect(Run(NO_LOCKS, prefix), c);
      hide Run, Apply, Inv;
      var n := Apply(Run(NO_LOCKS, prefix), c.id, c.op).0;
      assert id in n.shared ==> n.shared != {};
    }
  }

  /** Hence, by the answers alone: never two exclusive holders, never two lock strings among shared holders, and an
      exclusive holder beside shared ones is one of them. */
  lemma AnswersExclude(calls: seq<Call>, a: SessionId, b: SessionId)
    requires forall c | c in calls :: CallOk(c)
    ensures ToldExclusive(calls, a) && ToldExclusive(calls, b) ==> a == b
    ensures ToldShared(calls, a).Some? && ToldShared(calls, b).Some? ==> ToldShared(calls, a) == ToldShared(calls, b)
    ensures ToldExclusive(calls, a) && ToldShared(calls, b).Some? ==> ToldShared(calls, a).Some?
  {
    ToldIsHeld(calls, a);
    ToldIsHeld(calls, b);
    RunInv(NO_LOCKS, calls);
    hide Run, ToldExclusive, ToldShared;
  }
}
