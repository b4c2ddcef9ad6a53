/** What every run of broker operations keeps, and what publishing through the indexes therefore does. */
module BrokerRuns {
  import opened Events
  import opened Index
  import opened Sequences
  import opened Wrappers
  import opened BrokerModel

  datatype Op =
    | SubscribeNew(sid: string, uid: string)
    | SubscribeExternal(sid: string, uid: string, id: nat, counter: nat)
    | Rotate(id: nat, sid: string)
    | UpdateUser(was: string, now: string)
    | UpdateSessionPage(sid: string, page: string, selectors: set<string>, fragmentIDs: set<string>)
    | Change(ids: set<nat>, change: Change)
    | Remove(id: nat)
    | Receive(id: nat)

  function Step(s: State, op: Op): State {
    match op
    case SubscribeNew(sid, uid) => BrokerModel.SubscribeNew(s, sid, uid)
    case SubscribeExternal(sid, uid, id, counter) => BrokerModel.SubscribeExternal(s, sid, uid, id, counter)
    case Rotate(id, sid) => BrokerModel.Rotate(s, id, sid)
    case UpdateUser(was, now) => BrokerModel.UpdateUser(s, was, now)
    case UpdateSessionPage(sid, page, sels, frags) => BrokerModel.UpdateSessionPage(s, sid, page, sels, frags)
    case Change(ids, change) => Amend(s, ids, change)
    case Remove(id) => BrokerModel.Remove(s, id)
    case Receive(id) => BrokerModel.Receive(s, id)
  }

  /** A session may be given to a user only if no other user lists it. */
  predicate OwnedBy(s: State, sid: string, uid: string) {
    forall u | u in s.users && sid in At(s.users, u) :: u == uid
  }

  /** What the broker relies on its callers for. A page change or an offer is always legal. */
  predicate Legal(s: State, op: Op) {
    match op
    case SubscribeNew(sid, uid) =>
      sid != "" && uid != "" && OwnedBy(s, sid, uid) && s.nextID < MAX_ID
    case SubscribeExternal(sid, uid, id, counter) =>
      && sid != "" && uid != "" && OwnedBy(s, sid, uid)
      && id !in s.conns && id !in s.closed
      && s.nextID <= counter && id <= counter <= MAX_ID
    case Rotate(id, sid) =>
      sid != "" && (id in s.conns ==> OwnedBy(s, sid, s.conns[id].meta.userID))
    case UpdateUser(was, now) => was != "" && now != "" && was != now
    case Change(ids, change) => change.Offered? || change.Paged?
    case _ => true
  }

  ghost predicate LegalRun(s: State, ops: seq<Op>)
    decreases |ops|
  {
    ops == [] || (Legal(s, ops[0]) && LegalRun(Step(s, ops[0]), ops[1..]))
  }

  function Run(s: State, ops: seq<Op>): State
    decreases |ops|
  {
    if ops == [] then s else Run(Step(s, ops[0]), ops[1..])
  }

  /// Every operation keeps the invariant

  lemma RegisterKeepsSessions(s: State, sid: string, uid: string, id: nat)
    requires SessionsExact(s) && id !in s.conns
    ensures SessionsExact(Register(s, sid, uid, id))
  {
    AtAddTo(s.sessions, sid, id);
  }

  lemma RegisterKeepsUsers(s: State, sid: string, uid: string, id: nat)
    requires UsersCover(s) && OneOwner(s) && OwnedBy(s, sid, uid)
    ensures UsersCover(Register(s, sid, uid, id)) && OneOwner(Register(s, sid, uid, id))
  {
    AtAddTo(s.users, uid, sid);
  }

  lemma RegisterKeepsInv(s: State, sid: string, uid: string, id: nat)
    requires Inv(s) && sid != "" && uid != "" && OwnedBy(s, sid, uid)
    requires id !in s.conns && id !in s.closed && id <= s.nextID
    ensures Inv(Register(s, sid, uid, id))
  {
    RegisterKeepsSessions(s, sid, uid, id);
    RegisterKeepsUsers(s, sid, uid, id);
  }

  lemma RotateKeepsSessions(s: State, id: nat, sid: string)
    requires SessionsExact(s) && Bounded(s)
    ensures SessionsExact(BrokerModel.Rotate(s, id, sid))
  {
    if id in s.conns && s.conns[id].meta.sessionID != sid {
      var m := s.conns[id].meta;
      AtRemoveFrom(s.sessions, m.sessionID, id);
      AtAddTo(RemoveFrom(s.sessions, m.sessionID, id), sid, id);
    }
  }

  lemma RotateKeepsCover(s: State, id: nat, sid: string)
    requires UsersCover(s) && Bounded(s)
    ensures UsersCover(BrokerModel.Rotate(s, id, sid))
  {
    if id in s.conns && s.conns[id].meta.sessionID != sid {
      AtAddTo(s.users, s.conns[id].meta.userID, sid);
    }
  }

  lemma RotateKeepsOwner(s: State, id: nat, sid: string)
    requires OneOwner(s) && Legal(s, Rotate(id, sid))
    ensures OneOwner(BrokerModel.Rotate(s, id, sid))
  {
    if id in s.conns && s.conns[id].meta.sessionID != sid {
      AtAddTo(s.users, s.conns[id].meta.userID, sid);
    }
  }

  lemma RotateKeepsInv(s: State, id: nat, sid: string)
    requires Inv(s) && Legal(s, Rotate(id, sid))
    ensures Inv(BrokerModel.Rotate(s, id, sid))
  {
    RotateKeepsSessions(s, id, sid);
    RotateKeepsCover(s, id, sid);
    RotateKeepsOwner(s, id, sid);
  }

  lemma UpdateUserKeepsUsers(s: State, was: string, now: string)
    requires UsersCover(s) && OneOwner(s) && was != now
    ensures UsersCover(BrokerModel.UpdateUser(s, was, now)) && OneOwner(BrokerModel.UpdateUser(s, was, now))
  {
    AtMoveKey(s.users, was, now);
  }

  lemma UpdateUserKeepsRest(s: State, was: string, now: string)
    requires SessionsExact(s) && Bounded(s) && ClosedOnce(s) && now != ""
    ensures var t := BrokerModel.UpdateUser(s, was, now); SessionsExact(t) && Bounded(t) && ClosedOnce(t)
  {
  }

  lemma UpdateUserKeepsInv(s: State, was: string, now: string)
    requires Inv(s) && Legal(s, UpdateUser(was, now))
    ensures Inv(BrokerModel.UpdateUser(s, was, now))
  {
    UpdateUserKeepsUsers(s, was, now);
    UpdateUserKeepsRest(s, was, now);
  }

  /** A session with at most one listed connection is left by that connection alone. */
  lemma LastOfSession(s: State, id: nat, other: nat)
    requires SessionsExact(s) && id in s.conns && other in s.conns && id != other
    requires s.conns[id].meta.sessionID == s.conns[other].meta.sessionID
    ensures |At(s.sessions, s.conns[id].meta.sessionID)| > 1
  {
    var ids := At(s.sessions, s.conns[id].meta.sessionID);
    assert {id, other} <= ids;
    assert |ids - {id, other}| == |ids| - 2;
  }

  lemma RemoveKeepsInv(s: State, id: nat)
    requires Inv(s)
    ensures Inv(BrokerModel.Remove(s, id))
  {
    if id in s.conns {
      var m := s.conns[id].meta;
      AtRemoveFrom(s.sessions, m.sessionID, id);
      AtRemoveFrom(s.users, m.userID, m.sessionID);
      forall other | other in s.conns && other != id && s.conns[other].meta.sessionID == m.sessionID
        ensures |At(s.sessions, m.sessionID)| > 1
      {
        LastOfSession(s, id, other);
      }
    }
  }

  lemma AmendKeepsInv(s: State, ids: set<nat>, change: Change)
    requires Inv(s) && (change.Offered? || change.Paged?)
    ensures Inv(Amend(s, ids, change))
  {
  }

  lemma ReceiveKeepsInv(s: State, id: nat)
    requires Inv(s)
    ensures Inv(BrokerModel.Receive(s, id))
  {
  }

  lemma StepKeepsInv(s: State, op: Op)
    requires Inv(s) && Legal(s, op)
    ensures Inv(Step(s, op))
  {
    match op
    case SubscribeNew(sid, uid) =>
      RegisterKeepsInv(s.(nextID := NextID(s)), sid, uid, NextID(s));
    case SubscribeExternal(sid, uid, id, counter) =>
      RegisterKeepsInv(s.(nextID := counter), sid, uid, id);
    case Rotate(id, sid) => RotateKeepsInv(s, id, sid);
    case UpdateUser(was, now) => UpdateUserKeepsInv(s, was, now);
    case UpdateSessionPage(sid, page, sels, frags) =>
      AmendKeepsInv(s, At(s.sessions, sid), Paged(page, sels, frags));
    case Change(ids, change) => AmendKeepsInv(s, ids, change);
    case Remove(id) => RemoveKeepsInv(s, id);
    case Receive(id) => ReceiveKeepsInv(s, id);
  }

  lemma {:induction false} RunKeepsInv(s: State, ops: seq<Op>)
    requires Inv(s) && LegalRun(s, ops)
    ensures Inv(Run(s, ops))
    decreases |ops|
  {
    if ops != [] {
      StepKeepsInv(s, ops[0]);
      RunKeepsInv(Step(s, ops[0]), ops[1..]);
    }
  }

  /// Publishing through the indexes

  /** For the two indexes to deliver a user's events to exactly that user's connections. */
  ghost predicate IndexExactFor(s: State, u: string) {
    forall id | id in s.conns :: s.conns[id].meta.sessionID in At(s.users, u) <==> s.conns[id].meta.userID == u
  }

  /**
   Following the indexes finds, for every choice of active sessions and filter, just the connections
   that a linear scan finds, if and only if the user index lists the sessions of that user's
   connections and of no one else's.
   */
  lemma IndexedIsScanIff(s: State, u: string)
    requires SessionsExact(s)
    ensures (forall opts :: Indexed(s, {u}, opts) == Addressed(s, {u}, opts)) <==> IndexExactFor(s, u)
  {
    if IndexExactFor(s, u) {
      forall opts ensures Indexed(s, {u}, opts) == Addressed(s, {u}, opts) {
        forall id | id in Addressed(s, {u}, opts) ensures id in Indexed(s, {u}, opts) {
          assert Routed(s, u, s.conns[id].meta.sessionID, id);
        }
      }
    }
    if forall opts :: Indexed(s, {u}, opts) == Addressed(s, {u}, opts) {
      var all := Options(None, None);
      assert Indexed(s, {u}, all) == Addressed(s, {u}, all);
      forall id | id in s.conns
        ensures s.conns[id].meta.sessionID in At(s.users, u) <==> s.conns[id].meta.userID == u
      {
        assert id in Addressed(s, {u}, all) <==> s.conns[id].meta.userID == u;
        if s.conns[id].meta.sessionID in At(s.users, u) {
          assert Routed(s, u, s.conns[id].meta.sessionID, id);
          assert id in Indexed(s, {u}, all);
        }
      }
    }
  }

  lemma InvGivesExactIndex(s: State, u: string)
    requires Inv(s)
    ensures IndexExactFor(s, u)
  {
  }

  lemma IndexedIsScan(s: State, uids: set<string>, opts: Options)
    requires Inv(s)
    ensures Indexed(s, uids, opts) == Addressed(s, uids, opts)
  {
    forall id | id in Addressed(s, uids, opts) ensures id in Indexed(s, uids, opts) {
      assert Routed(s, s.conns[id].meta.userID, s.conns[id].meta.sessionID, id);
    }
  }

  /** The nested loops reach a connection along one path only: nothing is offered twice. */
  lemma OneRoute(s: State, u: string, sid: string, v: string, tid: string, id: nat)
    requires Inv(s) && Routed(s, u, sid, id) && Routed(s, v, tid, id)
    ensures u == v == s.conns[id].meta.userID && sid == tid == s.conns[id].meta.sessionID
  {
  }

  /**
   In every reachable state, indexed delivery is the linear scan, the user index separates each user's sessions
   from all others, and no connection is reached twice.
   */
  lemma DeliveryInEveryReachableState(bufSize: int, ops: seq<Op>, uids: set<string>, opts: Options)
    requires LegalRun(Init(bufSize), ops)
    ensures var s := Run(Init(bufSize), ops);
            && Indexed(s, uids, opts) == Addressed(s, uids, opts)
            && (forall u :: IndexExactFor(s, u))
            && forall u, sid, v, tid, id | Routed(s, u, sid, id) && Routed(s, v, tid, id) :: u == v && sid == tid
  {
    RunKeepsInv(Init(bufSize), ops);
    var s := Run(Init(bufSize), ops);
    IndexedIsScan(s, uids, opts);
    forall u ensures IndexExactFor(s, u) {
      InvGivesExactIndex(s, u);
    }
    forall u, sid, v, tid, id | Routed(s, u, sid, id) && Routed(s, v, tid, id) ensures u == v && sid == tid {
      OneRoute(s, u, sid, v, tid, id);
    }
  }

  /** Closing one of several connections of a session leaves the others' deliveries unchanged. */
  lemma RemoveKeepsOthersRoutable(s: State, id: nat, uids: set<string>, opts: Options)
    requires Inv(s)
    ensures Indexed(BrokerModel.Remove(s, id), uids, opts) == Indexed(s, uids, opts) - {id}
  {
    RemoveKeepsInv(s, id);
    IndexedIsScan(s, uids, opts);
    IndexedIsScan(BrokerModel.Remove(s, id), uids, opts);
    if id !in s.conns {
      assert id !in Addressed(s, uids, opts);
    }
  }

  /// What rotation leaves behind

  predicate Lists(conns: map<nat, Conn>, u: string, sid: string, id: nat) {
    id in conns && conns[id].meta.userID == u && conns[id].meta.sessionID == sid
  }

  /** Every listed session still has a connection of that user. */
  ghost predicate UsersExact(s: State) {
    forall u, sid | sid in At(s.users, u) :: exists id :: Lists(s.conns, u, sid, id)
  }

  /** A rotation keeps the user index exact just when it leaves no session without connections. */
  lemma RotateExactIff(s: State, id: nat, sid: string)
    requires Inv(s) && UsersExact(s) && Legal(s, Rotate(id, sid))
    ensures UsersExact(BrokerModel.Rotate(s, id, sid)) <==>
            id !in s.conns || s.conns[id].meta.sessionID == sid
            || |At(s.sessions, s.conns[id].meta.sessionID)| > 1
  {
    if id in s.conns && s.conns[id].meta.sessionID != sid {
      var m := s.conns[id].meta;
      var ids := At(s.sessions, m.sessionID);
      AtAddTo(s.users, m.userID, sid);
      if |ids| > 1 {
        RotateSharedKeepsExact(s, id, sid);
      } else {
        RotateLastLeavesName(s, id, sid);
      }
    }
  }

  lemma RotateLastLeavesName(s: State, id: nat, sid: string)
    requires Inv(s) && id in s.conns && s.conns[id].meta.sessionID != sid
    requires |At(s.sessions, s.conns[id].meta.sessionID)| <= 1
    ensures !UsersExact(BrokerModel.Rotate(s, id, sid))
  {
    var m := s.conns[id].meta;
    var t := BrokerModel.Rotate(s, id, sid);
    AtAddTo(s.users, m.userID, sid);
    assert m.sessionID in At(t.users, m.userID);
    forall other | Lists(t.conns, m.userID, m.sessionID, other) ensures false {
      assert other != id && other in s.conns;
      LastOfSession(s, id, other);
    }
  }

  lemma RotateSharedKeepsExact(s: State, id: nat, sid: string)
    requires Inv(s) && UsersExact(s) && id in s.conns && s.conns[id].meta.sessionID != sid
    requires |At(s.sessions, s.conns[id].meta.sessionID)| > 1
    ensures UsersExact(BrokerModel.Rotate(s, id, sid))
  {
    var m := s.conns[id].meta;
    var t := BrokerModel.Rotate(s, id, sid);
    AtAddTo(s.users, m.userID, sid);
    var ids := At(s.sessions, m.sessionID);
    assert |ids - {id}| == |ids| - 1;
    var other :| other in ids - {id};
    assert Lists(t.conns, m.userID, m.sessionID, other);
    forall u, x | x in At(t.users, u) ensures exists w :: Lists(t.conns, u, x, w) {
      if u == m.userID && x == sid {
        assert Lists(t.conns, u, x, id);
      } else {
        var w :| Lists(s.conns, u, x, w);
        if w != id {
          assert Lists(t.conns, u, x, w);
        }
      }
    }
  }

  lemma AmendKeepsExact(s: State, ids: set<nat>, change: Change)
    requires UsersExact(s) && (change.Offered? || change.Paged?)
    ensures UsersExact(Amend(s, ids, change))
  {
    forall u, x | x in At(s.users, u) ensures exists w :: Lists(Amend(s, ids, change).conns, u, x, w) {
      var w :| Lists(s.conns, u, x, w);
      assert Lists(Amend(s, ids, change).conns, u, x, w);
    }
  }

  lemma RegisterKeepsExact(s: State, sid: string, uid: string, id: nat)
    requires UsersExact(s) && id !in s.conns
    ensures UsersExact(Register(s, sid, uid, id))
  {
    var t := Register(s, sid, uid, id);
    AtAddTo(s.users, uid, sid);
    forall u, x | x in At(t.users, u) ensures exists w :: Lists(t.conns, u, x, w) {
      if u == uid && x == sid {
        assert Lists(t.conns, u, x, id);
      } else {
        var w :| Lists(s.conns, u, x, w);
        assert Lists(t.conns, u, x, w);
      }
    }
  }

  lemma UpdateUserKeepsExact(s: State, was: string, now: string)
    requires UsersExact(s) && was != now
    ensures UsersExact(BrokerModel.UpdateUser(s, was, now))
  {
    var t := BrokerModel.UpdateUser(s, was, now);
    AtMoveKey(s.users, was, now);
    forall u, x | x in At(t.users, u) ensures exists w :: Lists(t.conns, u, x, w) {
      var from := if u == now && x !in At(s.users, now) then was else u;
      var w :| Lists(s.conns, from, x, w);
      assert Lists(t.conns, u, x, w);
    }
  }

  lemma RemoveKeepsExact(s: State, id: nat)
    requires Inv(s) && UsersExact(s)
    ensures UsersExact(BrokerModel.Remove(s, id))
  {
    if id in s.conns {
      var m := s.conns[id].meta;
      var t := BrokerModel.Remove(s, id);
      var ids := At(s.sessions, m.sessionID);
      AtRemoveFrom(s.users, m.userID, m.sessionID);
      forall u, x | x in At(t.users, u) ensures exists w :: Lists(t.conns, u, x, w) {
        var w :| Lists(s.conns, u, x, w);
        if w != id {
          assert Lists(t.conns, u, x, w);
        } else {
          assert |ids - {id}| == |ids| - 1;
          var other :| other in ids - {id};
          assert Lists(t.conns, u, x, other);
        }
      }
    }
  }

  lemma ReceiveKeepsExact(s: State, id: nat)
    requires UsersExact(s)
    ensures UsersExact(BrokerModel.Receive(s, id))
  {
    var t := BrokerModel.Receive(s, id);
    forall u, x | x in At(s.users, u) ensures exists w :: Lists(t.conns, u, x, w) {
      var w :| Lists(s.conns, u, x, w);
      assert Lists(t.conns, u, x, w);
    }
  }

  lemma OtherStepKeepsExact(s: State, op: Op)
    requires Inv(s) && UsersExact(s) && Legal(s, op) && !op.Rotate?
    ensures UsersExact(Step(s, op))
  {
    match op
    case SubscribeNew(sid, uid) => RegisterKeepsExact(s.(nextID := NextID(s)), sid, uid, NextID(s));
    case SubscribeExternal(sid, uid, id, counter) => RegisterKeepsExact(s.(nextID := counter), sid, uid, id);
    case UpdateUser(was, now) => UpdateUserKeepsExact(s, was, now);
    case UpdateSessionPage(sid, page, sels, frags) =>
      AmendKeepsExact(s, At(s.sessions, sid), Paged(page, sels, frags));
    case Change(ids, change) => AmendKeepsExact(s, ids, change);
    case Remove(id) => RemoveKeepsExact(s, id);
    case Receive(id) => ReceiveKeepsExact(s, id);
  }

  /** The operation leaves no session name without a connection: only a last connection's rotation does. */
  predicate KeepsNames(s: State, op: Op) {
    op.Rotate? ==>
      op.id !in s.conns || s.conns[op.id].meta.sessionID == op.sid
      || |At(s.sessions, s.conns[op.id].meta.sessionID)| > 1
  }

  /** An operation keeps the user index exact if and only if it is no rotation of a session's last connection. */
  lemma StepExactIff(s: State, op: Op)
    requires Inv(s) && UsersExact(s) && Legal(s, op)
    ensures UsersExact(Step(s, op)) <==> KeepsNames(s, op)
  {
    if op.Rotate? {
      RotateExactIff(s, op.id, op.sid);
    } else {
      OtherStepKeepsExact(s, op);
    }
  }

  predicate NamesKept(s: State, ops: seq<Op>)
    decreases |ops|
  {
    ops == [] || (KeepsNames(s, ops[0]) && NamesKept(Step(s, ops[0]), ops[1..]))
  }

  lemma {:induction false} RunKeepsExact(s: State, ops: seq<Op>)
    requires Inv(s) && UsersExact(s) && LegalRun(s, ops) && NamesKept(s, ops)
    ensures UsersExact(Run(s, ops))
    decreases |ops|
  {
    if ops != [] {
      StepKeepsInv(s, ops[0]);
      StepExactIff(s, ops[0]);
      RunKeepsExact(Step(s, ops[0]), ops[1..]);
    }
  }

  lemma DrainedIsEmpty(s: State)
    requires Inv(s) && UsersExact(s) && s.conns.Keys == {}
    ensures s.sessions == map[] && s.users == map[]
  {
    assert forall sid, id :: id !in At(s.sessions, sid);
    assert forall sid :: At(s.sessions, sid) == {};
    assert forall u, sid :: sid !in At(s.users, u);
    assert forall u :: At(s.users, u) == {};
    assert forall sid | sid in s.sessions :: At(s.sessions, sid) == s.sessions[sid];
    assert forall u | u in s.users :: At(s.users, u) == s.users[u];
  }

  /** Unless a last connection rotates away, nothing is left in any index once every connection is gone. */
  lemma NothingLeftBehind(bufSize: int, ops: seq<Op>)
    requires LegalRun(Init(bufSize), ops) && NamesKept(Init(bufSize), ops)
    requires Run(Init(bufSize), ops).conns == map[]
    ensures Run(Init(bufSize), ops).sessions == map[] && Run(Init(bufSize), ops).users == map[]
  {
    RunKeepsInv(Init(bufSize), ops);
    RunKeepsExact(Init(bufSize), ops);
    DrainedIsEmpty(Run(Init(bufSize), ops));
  }

  /** The previous theorem needs its hypothesis: the name a connection rotated away from outlives the connection. */
  lemma RotatedNameStays(s: State, id: nat, sid: string)
    requires Inv(s) && id in s.conns && s.conns[id].meta.sessionID != sid
    ensures var t := BrokerModel.Remove(BrokerModel.Rotate(s, id, sid), id);
            && t.conns.Keys == s.conns.Keys - {id}
            && s.conns[id].meta.sessionID in At(t.users, s.conns[id].meta.userID)
  {
    var m := s.conns[id].meta;
    AtAddTo(s.users, m.userID, sid);
    AtRemoveFrom(AddTo(s.users, m.userID, sid), m.userID, sid);
  }

  /// Identifiers and channels

  function Subscriptions(ops: seq<Op>): nat {
    if ops == [] then 0
    else (if ops[0].SubscribeNew? || ops[0].SubscribeExternal? then 1 else 0) + Subscriptions(ops[1..])
  }

  function Added(s: State, op: Op): set<nat> {
    match op
    case SubscribeNew(_, _) => {NextID(s)}
    case SubscribeExternal(_, _, id, _) => {id}
    case _ => {}
  }

  function Dropped(s: State, op: Op): set<nat> {
    if op.Remove? && op.id in s.conns then {op.id} else {}
  }

  lemma StepKeys(s: State, op: Op)
    ensures Step(s, op).conns.Keys == s.conns.Keys + Added(s, op) - Dropped(s, op)
  {
  }

  lemma AddedIsFresh(s: State, op: Op)
    requires Bounded(s) && Legal(s, op)
    ensures Added(s, op) !! s.conns.Keys
  {
  }

  lemma StepCloses(s: State, op: Op)
    ensures s.closed <= Step(s, op).closed && |Step(s, op).closed| == |s.closed| + |Dropped(s, op)|
  {
  }

  lemma CountKeys<K, V>(a: map<K, V>, b: map<K, V>, added: set<K>, dropped: set<K>)
    requires added !! a.Keys && dropped <= a.Keys && b.Keys == a.Keys + added - dropped
    ensures |b| == |a| + |added| - |dropped|
  {
    assert |a.Keys + added| == |a.Keys| + |added|;
    assert |a.Keys + added - dropped| == |a.Keys + added| - |dropped|;
  }

  /**
   Every channel ever made is live or was closed exactly once: the connections and the closed channels
   together number the subscriptions, no identifier is closed twice, and none is live and closed.
   */
  lemma {:induction false} EachChannelClosedOnce(s: State, ops: seq<Op>)
    requires Inv(s) && LegalRun(s, ops)
    ensures var t := Run(s, ops);
            && |t.conns| + |t.closed| == |s.conns| + |s.closed| + Subscriptions(ops)
            && s.closed <= t.closed
            && (forall i, j | 0 <= i < j < |t.closed| :: t.closed[i] != t.closed[j])
            && (forall id | id in t.closed :: id !in t.conns)
    decreases |ops|
  {
    if ops != [] {
      StepKeepsInv(s, ops[0]);
      var t := Step(s, ops[0]);
      StepKeys(s, ops[0]);
      AddedIsFresh(s, ops[0]);
      StepCloses(s, ops[0]);
      CountKeys(s.conns, t.conns, Added(s, ops[0]), Dropped(s, ops[0]));
      EachChannelClosedOnce(t, ops[1..]);
    }
  }

  /** The next identifier exceeds every identifier ever registered, unless the 64-bit counter wraps around. */
  lemma AllocationExceedsIff(s: State)
    requires Inv(s)
    ensures (forall id | id in s.conns || id in s.closed :: id < NextID(s)) <==>
            s.nextID < MAX_ID || (s.conns == map[] && s.closed == [])
  {
    if s.nextID == MAX_ID {
      assert NextID(s) == 0;
      if s.conns != map[] {
        var id :| id in s.conns;
      } else if s.closed != [] {
        assert s.closed[0] in s.closed;
      }
    }
  }

  /// What becomes of each connection

  /** The operation offers an event to the connection. */
  predicate Offers(op: Op, id: nat) {
    op.Change? && op.change.Offered? && id in op.ids
  }

  /** A waiting event leaves a connection only by being received, and only an offer adds one. */
  lemma StepKeepsQueue(s: State, op: Op, id: nat)
    requires Bounded(s) && Legal(s, op) && id in s.conns && op != Op.Remove(id)
    ensures var t, queue := Step(s, op), s.conns[id].queue;
            && id in t.conns && t.buf == s.buf
            && t.conns[id].queue ==
               if Offers(op, id) then (if |queue| < s.buf then queue + [op.change.e] else queue)
               else if op == Op.Receive(id) && queue != [] then queue[1..]
               else queue
  {
  }

  /** The session changes by rotation only, and the user by re-association only. */
  lemma StepKeepsOwner(s: State, op: Op, id: nat)
    requires Bounded(s) && Legal(s, op) && id in s.conns && op != Op.Remove(id)
    ensures var was, m := s.conns[id].meta, Step(s, op).conns[id].meta;
            && m.id == id
            && m.sessionID == (if op.Rotate? && op.id == id then op.sid else was.sessionID)
            && m.userID == (if op.UpdateUser? && was.userID == op.was then op.now else was.userID)
  {
  }

  /** The page context changes by being set, for the connection itself or for its session. */
  lemma StepKeepsPage(s: State, op: Op, id: nat)
    requires SessionsExact(s) && Bounded(s) && Legal(s, op) && id in s.conns && op != Op.Remove(id)
    ensures var was, m := s.conns[id].meta, Step(s, op).conns[id].meta;
            (m.page, m.selectors, m.fragmentIDs) ==
            if op.UpdateSessionPage? && was.sessionID == op.sid then (op.page, op.selectors, op.fragmentIDs)
            else if op.Change? && op.change.Paged? && id in op.ids
            then (op.change.page, op.change.selectors, op.change.fragmentIDs)
            else (was.page, was.selectors, was.fragmentIDs)
  {
  }

  /** A new connection has the session and user it subscribed with, no page yet, and nothing waiting. */
  lemma NewConnection(s: State, op: Op, id: nat)
    requires Bounded(s) && Legal(s, op) && id in Step(s, op).conns && id !in s.conns
    ensures op.SubscribeNew? || (op.SubscribeExternal? && op.id == id)
    ensures Step(s, op).conns[id] == Conn(Meta(id, op.sid, op.uid, "", {}, {}), [])
  {
  }

  /** The events that a connection's channel accepted during a run, and those taken out of it. */
  function Accepted(s: State, ops: seq<Op>, id: nat): seq<Event>
    decreases |ops|
  {
    if ops == [] then [] else AcceptedNow(s, ops[0], id) + Accepted(Step(s, ops[0]), ops[1..], id)
  }

  function Taken(s: State, ops: seq<Op>, id: nat): seq<Event>
    decreases |ops|
  {
    if ops == [] then [] else TakenNow(s, ops[0], id) + Taken(Step(s, ops[0]), ops[1..], id)
  }

  function AcceptedNow(s: State, op: Op, id: nat): seq<Event> {
    if Offers(op, id) && id in s.conns && |s.conns[id].queue| < s.buf then [op.change.e] else []
  }

  function TakenNow(s: State, op: Op, id: nat): seq<Event> {
    if op == Op.Receive(id) && id in s.conns && s.conns[id].queue != [] then [s.conns[id].queue[0]] else []
  }

  lemma StepConserves(s: State, op: Op, id: nat)
    requires Bounded(s) && Legal(s, op) && id in s.conns && op != Op.Remove(id)
    ensures id in Step(s, op).conns
    ensures s.conns[id].queue + AcceptedNow(s, op, id) == TakenNow(s, op, id) + Step(s, op).conns[id].queue
  {
    StepKeepsQueue(s, op, id);
  }

  lemma Interlace<T>(q: seq<T>, a: seq<T>, more: seq<T>, t: seq<T>, r: seq<T>, later: seq<T>, end: seq<T>)
    requires q + a == t + r && r + more == later + end
    ensures q + (a + more) == t + later + end
  {
    Assoc3(q, a, more);
    Assoc3(t, r, more);
    Assoc3(t, later, end);
  }

  /**
   Through every run, rotations, re-associations and other connections' operations included, a connection's events
   are conserved in order: what waited and what was accepted is what was taken and what still waits.
   */
  lemma {:induction false} QueueConserved(s: State, ops: seq<Op>, id: nat)
    requires Inv(s) && LegalRun(s, ops) && id in s.conns && Op.Remove(id) !in ops
    ensures id in Run(s, ops).conns
    ensures s.conns[id].queue + Accepted(s, ops, id) == Taken(s, ops, id) + Run(s, ops).conns[id].queue
    decreases |ops|
  {
    if ops != [] {
      var t := Step(s, ops[0]);
      assert ops[0] in ops && forall op | op in ops[1..] :: op in ops;
      StepKeepsInv(s, ops[0]);
      StepConserves(s, ops[0], id);
      QueueConserved(t, ops[1..], id);
      Interlace(s.conns[id].queue, AcceptedNow(s, ops[0], id), Accepted(t, ops[1..], id),
                TakenNow(s, ops[0], id), t.conns[id].queue, Taken(t, ops[1..], id), Run(s, ops).conns[id].queue);
    }
  }

  /// Who is offered an event, connection by connection

  /** Spelled out for one connection: user, active session, filter, and room in the channel. */
  lemma OfferedExactly(s: State, uids: set<string>, opts: Options, e: Event, id: nat)
    requires id in s.conns
    ensures var t, c := Amend(s, Addressed(s, uids, opts), Offered(e)), s.conns[id];
            id in t.conns && t.conns[id].meta == c.meta
            && t.conns[id].queue ==
               if c.meta.userID in uids && (opts.active.Some? ==> c.meta.sessionID in opts.active.value)
                  && (opts.filter.Some? ==> opts.filter.value(c.meta)) && |c.queue| < s.buf
               then c.queue + [e] else c.queue
  {
  }

  function Count(ids: seq<nat>, id: nat): nat {
    if ids == [] then 0 else (if ids[0] == id then 1 else 0) + Count(ids[1..], id)
  }

  function Copies(e: Event, n: nat): seq<Event> {
    if n == 0 then [] else [e] + Copies(e, n - 1)
  }

  /** Publishing to a list of connections offers the event as often as the list names the connection. */
  lemma {:induction false} OfferedAsOftenAsNamed(s: State, ids: seq<nat>, e: Event, id: nat)
    requires id in s.conns && |s.conns[id].queue| <= s.buf
    ensures var t, room := OfferEach(s, ids, e), s.buf - |s.conns[id].queue|;
            id in t.conns && t.conns[id].meta == s.conns[id].meta
            && t.conns[id].queue ==
               s.conns[id].queue + Copies(e, if Count(ids, id) < room then Count(ids, id) else room)
    decreases |ids|
  {
    if ids != [] {
      OfferedAsOftenAsNamed(Amend(s, {ids[0]}, Offered(e)), ids[1..], e, id);
      if ids[0] == id && |s.conns[id].queue| < s.buf {
        var room := s.buf - |s.conns[id].queue|;
        var more := Count(ids[1..], id);
        Assoc3(s.conns[id].queue, [e], Copies(e, if more < room - 1 then more else room - 1));
      }
    }
  }

  lemma AddressedAfterUpdate(s: State, was: string, now: string, u: string, active: Option<set<string>>)
    requires was != now
    ensures var opts := Options(active, None);
            Addressed(BrokerModel.UpdateUser(s, was, now), {u}, opts) ==
            if u == now then Addressed(s, {was, now}, opts) else if u == was then {} else Addressed(s, {u}, opts)
  {
    var t := BrokerModel.UpdateUser(s, was, now);
    forall id | id in s.conns
      ensures id in t.conns && t.conns[id].meta.sessionID == s.conns[id].meta.sessionID
      ensures t.conns[id].meta.userID == if s.conns[id].meta.userID == was then now else s.conns[id].meta.userID
    {
    }
  }

  /** After a re-association the new user is reached where either was before, and the old one nowhere. */
  lemma UpdateUserMovesDelivery(s: State, was: string, now: string, u: string, active: Option<set<string>>)
    requires Inv(s) && Legal(s, UpdateUser(was, now))
    ensures var opts := Options(active, None);
            Indexed(BrokerModel.UpdateUser(s, was, now), {u}, opts) ==
            if u == now then Indexed(s, {was, now}, opts) else if u == was then {} else Indexed(s, {u}, opts)
  {
    var opts := Options(active, None);
    UpdateUserKeepsInv(s, was, now);
    IndexedIsScan(BrokerModel.UpdateUser(s, was, now), {u}, opts);
    IndexedIsScan(s, {was, now}, opts);
    IndexedIsScan(s, {u}, opts);
    AddressedAfterUpdate(s, was, now, u, active);
  }
}
