/**
 The publish/subscribe broker as mutable objects. Each method is one critical section of the source and is
 proved to do to the real maps and channels what the function of the same name in BrokerModel says.
 `model` is the value those maps and objects stand for.
 */
module Broker {
  import opened Events
  import opened Index
  import opened Wrappers
  import opened BrokerModel
  import BrokerRuns

  class Connection {
    const id: nat
    var sessionID: string
    var userID: string
    var page: string
    var selectors: set<string>
    var fragmentIDs: set<string>
    var queue: seq<Event>  // the bounded channel
    var closed: bool

    constructor (id: nat, sid: string, uid: string)
      ensures this.id == id && !closed && Rec() == FreshConn(id, sid, uid)
    {
      this.id := id;
      sessionID, userID, page := sid, uid, "";
      selectors, fragmentIDs, queue, closed := {}, {}, [], false;
    }

    function Info(): Meta
      reads this
    {
      Meta(id, sessionID, userID, page, selectors, fragmentIDs)
    }

    function Rec(): Conn
      reads this
    {
      Conn(Info(), queue)
    }

    /** Sending on a closed channel would panic, hence the precondition. */
    method Change(change: Change, buf: nat)
      requires !closed
      modifies this
      ensures !closed && Rec() == Apply(change, old(Rec()), buf)
    {
      match change {
        case Offered(e) =>
          if |queue| < buf {
            queue := queue + [e];
          }
        case Rehomed(was, now) =>
          if userID == was {
            userID := now;
          }
        case Moved(sid) =>
          sessionID := sid;
        case Paged(p, sels, frags) =>
          page, selectors, fragmentIDs := p, sels, frags;
      }
    }
  }

  class Broker {
    var connections: map<nat, Connection>
    var sessions: map<string, set<nat>>
    var users: map<string, set<string>>
    var nextID: nat
    const buf: nat
    ghost var model: State

    ghost predicate Valid()
      reads this, connections.Values
    {
      && sessions == model.sessions && users == model.users && nextID == model.nextID && buf == model.buf
      && nextID <= MAX_ID
      && connections.Keys == model.conns.Keys
      && forall id | id in connections ::
          connections[id].id == id && !connections[id].closed && connections[id].Rec() == model.conns[id]
    }

    constructor (bufSize: int)
      ensures Valid() && model == Init(bufSize) && buf == if bufSize > 0 then bufSize else 32
      ensures connections == map[] && sessions == map[] && users == map[] && nextID == 0
    {
      connections, sessions, users, nextID := map[], map[], map[], 0;
      buf := if bufSize <= 0 then 32 else bufSize;
      model := Init(bufSize);
    }

    method Register(sid: string, uid: string, id: nat) returns (c: Connection)
      requires Valid()
      modifies this
      ensures Valid() && model == BrokerModel.Register(old(model), sid, uid, id)
      ensures fresh(c) && connections == old(connections)[id := c] && nextID == old(nextID)
    {
      c := new Connection(id, sid, uid);
      connections := connections[id := c];
      sessions := AddTo(sessions, sid, id);
      users := AddTo(users, uid, sid);
      model := BrokerModel.Register(model, sid, uid, id);
    }

    method SubscribeWithIDs(sid: string, uid: string) returns (id: nat, c: Connection)
      requires Valid()
      modifies this
      ensures Valid() && model == SubscribeNew(old(model), sid, uid)
      ensures id == NextID(old(model)) && fresh(c) && connections == old(connections)[id := c]
    {
      nextID := (nextID + 1) % (MAX_ID + 1);
      model := model.(nextID := nextID);
      id := nextID;
      c := Register(sid, uid, id);
    }

    /**
     The compare-and-swap loop. Between the load and the swap other calls may raise the counter by any
     amount; each failed swap therefore means progress, and the loop ends with the counter at least `id`.
     */
    method SubscribeWithConnectionID(sid: string, uid: string, id: nat) returns (c: Connection)
      requires Valid() && id <= MAX_ID
      modifies this
      ensures Valid() && model == SubscribeExternal(old(model), sid, uid, id, nextID)
      ensures id <= nextID && old(nextID) <= nextID
      ensures fresh(c) && connections == old(connections)[id := c]
    {
      c := Register(sid, uid, id);
      ghost var registered := model;
      while nextID < id
        invariant Valid() && model == registered.(nextID := nextID)
        invariant old(nextID) <= nextID && connections == old(connections)[id := c]
        decreases id - nextID
      {
        var cur := nextID;
        var raised :| cur <= raised <= MAX_ID;
        nextID := raised;  // concurrent subscriptions
        if nextID == cur {
          nextID := id;
        }
        model := model.(nextID := nextID);
      }
    }

    method UpdateConnectionSessionID(id: nat, sid: string) returns (known: bool)
      requires Valid()
      modifies this`model, this`sessions, this`users, connections.Values
      ensures Valid() && model == Rotate(old(model), id, sid)
      ensures known <==> id in connections
    {
      if id !in connections {
        return false;
      }
      var was, uid := connections[id].sessionID, connections[id].userID;
      if was == sid {
        return true;
      }
      ChangeOne(id, Moved(sid));
      Relist(id, was, sid, uid);
      return true;
    }

    /** Index updates of a rotation. The old session name stays in the user index. */
    method Relist(id: nat, was: string, sid: string, uid: string)
      requires Valid()
      modifies this`model, this`sessions, this`users
      ensures Valid()
      ensures model == old(model).(
        sessions := AddTo(if was != "" then RemoveFrom(old(sessions), was, id) else old(sessions), sid, id),
        users := if uid != "" then AddTo(old(users), uid, sid) else old(users))
    {
      if was != "" {
        sessions := RemoveFrom(sessions, was, id);
      }
      sessions := AddTo(sessions, sid, id);
      if uid != "" {
        users := AddTo(users, uid, sid);
      }
      model := model.(sessions := sessions, users := users);
    }

    method UpdateUserID(was: string, now: string)
      requires Valid()
      modifies this`model, this`users, connections.Values
      ensures Valid() && model == UpdateUser(old(model), was, now)
    {
      ChangeAll(connections.Keys, Rehomed(was, now));
      if was in users {
        users := users[now := At(users, now) + users[was]] - {was};
      }
      model := model.(users := users);
    }

    method UpdateConnectionPage(id: nat, page: string, selectors: set<string>, fragmentIDs: set<string>)
        returns (known: bool)
      requires Valid()
      modifies this`model, connections.Values
      ensures Valid() && model == Amend(old(model), {id}, Paged(page, selectors, fragmentIDs))
      ensures known <==> id in connections
    {
      ChangeAll({id}, Paged(page, selectors, fragmentIDs));
      known := id in connections;
    }

    method UpdateSessionPage(sid: string, page: string, selectors: set<string>, fragmentIDs: set<string>)
        returns (known: bool)
      requires Valid()
      modifies this`model, connections.Values
      ensures Valid() && model == BrokerModel.UpdateSessionPage(old(model), sid, page, selectors, fragmentIDs)
      ensures known <==> sid in sessions
    {
      known := sid in sessions;
      ChangeAll(At(sessions, sid), Paged(page, selectors, fragmentIDs));
    }

    /** Removing an unknown connection does nothing, so no channel is closed again. */
    method RemoveConnection(id: nat)
      requires Valid()
      modifies this, connections.Values
      ensures Valid() && model == Remove(old(model), id) && connections == old(connections) - {id}
      ensures id in old(connections) ==> old(connections)[id].closed && !old(connections[id].closed)
    {
      if id !in connections {
        return;
      }
      var c := connections[id];
      var sid, uid := c.sessionID, c.userID;
      connections := connections - {id};
      model := model.(conns := model.conns - {id}, closed := model.closed + [id]);
      Unlist(sid, uid, id);
      c.closed := true;
    }

    /** The user index forgets the session with its last connection only: other tabs may share it. */
    method Unlist(sid: string, uid: string, id: nat)
      requires Valid()
      modifies this`model, this`sessions, this`users
      ensures Valid()
      ensures model == old(model).(
        users := if |At(old(sessions), sid)| <= 1 then RemoveFrom(old(users), uid, sid) else old(users),
        sessions := RemoveFrom(old(sessions), sid, id))
    {
      if |At(sessions, sid)| <= 1 {
        users := RemoveFrom(users, uid, sid);
      }
      sessions := RemoveFrom(sessions, sid, id);
      model := model.(users := users, sessions := sessions);
    }

    /// Changing connections through the heap

    method ChangeOne(id: nat, change: Change)
      requires Valid() && id in connections
      modifies this`model, connections[id]
      ensures Valid() && model == Amend(old(model), {id}, change)
    {
      connections[id].Change(change, buf);
      model := Amend(model, {id}, change);
    }

    method ChangeIfKnown(id: nat, change: Change)
      requires Valid()
      modifies this`model, connections.Values
      ensures Valid() && model == Amend(old(model), {id}, change)
    {
      if id in connections {
        ChangeOne(id, change);
      } else {
        AmendUnknown(model, {id}, change);
      }
    }

    /** A loop over identifiers, in any order, skipping unknown ones. */
    method ChangeAll(ids: set<nat>, change: Change)
      requires Valid()
      modifies this`model, connections.Values
      ensures Valid() && model == Amend(old(model), ids, change)
    {
      ghost var s := model;
      var todo := ids;
      ghost var done: set<nat> := {};
      AmendNone(s, change);
      while todo != {}
        invariant todo !! done && todo + done == ids
        invariant Valid() && model == Amend(s, done, change)
        decreases todo
      {
        var id :| id in todo;
        AmendCompose(s, done, {id}, done + {id}, change);
        ChangeIfKnown(id, change);
        todo, done := todo - {id}, done + {id};
      }
    }

    /// Publishing

    method Publish(e: Event)
      requires Valid()
      modifies this`model, connections.Values
      ensures Valid() && model == Amend(old(model), old(model).conns.Keys, Offered(e))
    {
      ChangeAll(connections.Keys, Offered(e));
    }

    method PublishToConnection(id: nat, e: Event) returns (sent: bool)
      requires Valid()
      modifies this`model, connections.Values
      ensures Valid() && model == Amend(old(model), {id}, Offered(e))
      ensures sent <==> id in connections && |old(model).conns[id].queue| < buf
    {
      sent := id in connections && |connections[id].queue| < buf;
      ChangeAll({id}, Offered(e));
    }

    /** A list may name a connection several times, and then offers the event that often. */
    method PublishToConnections(ids: seq<nat>, e: Event)
      requires Valid()
      modifies this`model, connections.Values
      ensures Valid() && model == OfferEach(old(model), ids, e)
    {
      ghost var s := model;
      for i := 0 to |ids|
        invariant Valid() && OfferEach(model, ids[i..], e) == OfferEach(s, ids, e)
      {
        assert ids[i..][1..] == ids[i + 1..];
        ChangeAll({ids[i]}, Offered(e));
      }
    }

    method OfferIfAccepted(id: nat, e: Event, filter: Option<Meta -> bool>)
      requires Valid()
      modifies this`model, connections.Values
      ensures Valid() && model == Amend(old(model), Selected(old(model), {id}, filter), Offered(e))
    {
      if id in connections && (filter.None? || filter.value(connections[id].Info())) {
        assert Selected(model, {id}, filter) == {id};
        ChangeOne(id, Offered(e));
      } else {
        assert Selected(model, {id}, filter) == {};
        AmendNone(model, Offered(e));
      }
    }

    /** The innermost loop of user-scoped publishing. */
    method PublishToSession(sid: string, e: Event, filter: Option<Meta -> bool>)
      requires Valid()
      modifies this`model, connections.Values
      ensures Valid() && model == Amend(old(model), Selected(old(model), At(sessions, sid), filter), Offered(e))
    {
      ghost var s := model;
      var ids := At(sessions, sid);
      ghost var done: set<nat> := {};
      AmendNone(s, Offered(e));
      while ids != {}
        invariant ids !! done && ids + done == At(sessions, sid)
        invariant Valid() && model == Amend(s, Selected(s, done, filter), Offered(e))
        decreases ids
      {
        var id :| id in ids;
        SelectedMore(s, done, id, filter, e);
        OfferIfAccepted(id, e, filter);
        ids, done := ids - {id}, done + {id};
      }
    }

    /**
     Publishing to one user through the user and session indexes: the nested loops do exactly what one scan
     over all connections would do.
     */
    method PublishToUserWithOptions(uid: string, e: Event, opts: Options)
      requires Valid() && Inv(model)
      modifies this`model, connections.Values
      ensures Valid() && model == Amend(old(model), Addressed(old(model), {uid}, opts), Offered(e))
    {
      ghost var s := model;
      var todo := At(users, uid);
      ghost var done: set<string> := {};
      AmendNone(s, Offered(e));
      InSessionsAll(s, uid, opts);
      while todo != {}
        invariant todo !! done && todo + done == At(users, uid)
        invariant Valid() && model == Amend(s, InSessions(s, done, opts), Offered(e))
        decreases todo
      {
        var sid :| sid in todo;
        if opts.active.None? || sid in opts.active.value {
          InSessionsMore(s, done, sid, opts, e);
          PublishToSession(sid, e, opts.filter);
        } else {
          InSessionsSkip(s, done, sid, opts);
        }
        todo, done := todo - {sid}, done + {sid};
      }
    }

    /** Publishing to a list of users, duplicates and unknown users included. */
    method PublishToUsersWithOptions(uids: seq<string>, e: Event, opts: Options)
      requires Valid() && Inv(model)
      modifies this`model, connections.Values
      ensures Valid() && model == Amend(old(model), Addressed(old(model), Elements(uids), opts), Offered(e))
    {
      ghost var s := model;
      var wanted := Elements(uids);
      var todo := users.Keys;
      ghost var done: set<string> := {};
      AmendNone(s, Offered(e));
      AddressedAll(s, wanted, opts);
      while todo != {}
        invariant todo !! done && todo + done == users.Keys
        invariant Valid() && model == Amend(s, Addressed(s, done * wanted, opts), Offered(e))
        decreases todo
      {
        var u :| u in todo;
        PublishIfWanted(u, wanted, e, opts, s, done);
        todo, done := todo - {u}, done + {u};
      }
    }

    /** One round of the loop over the user index; `s` is the state before the loop. */
    method PublishIfWanted(u: string, wanted: set<string>, e: Event, opts: Options, ghost s: State, ghost done: set<string>)
      requires Valid() && Inv(s) && u !in done
      requires model == Amend(s, Addressed(s, done * wanted, opts), Offered(e))
      modifies this`model, connections.Values
      ensures Valid() && model == Amend(s, Addressed(s, (done + {u}) * wanted, opts), Offered(e))
    {
      AddressedStep(s, done, wanted, u, opts, e);
      if u in wanted {
        assert {u} * wanted == {u};
        BrokerRuns.AmendKeepsInv(s, Addressed(s, done * wanted, opts), Offered(e));
        PublishToUserWithOptions(u, e, opts);
      } else {
        assert (done + {u}) * wanted == done * wanted;
      }
    }

    /** The stream handler takes the oldest waiting event from a connection's channel. */
    method TakeFrom(id: nat) returns (e: Option<Event>)
      requires Valid()
      modifies this`model, connections.Values
      ensures Valid() && model == Receive(old(model), id)
      ensures e == if id in connections && old(model).conns[id].queue != []
                   then Some(old(model).conns[id].queue[0]) else None
    {
      if id !in connections || connections[id].queue == [] {
        return None;
      }
      var c := connections[id];
      e := Some(c.queue[0]);
      c.queue := c.queue[1..];
      model := Receive(model, id);
    }
  }
}
