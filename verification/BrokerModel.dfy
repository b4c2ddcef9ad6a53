/**
 The broker's state as a value, and every operation on it as a function from state to state.
 The class in Broker.dfy is proved against these functions.
 */
module BrokerModel {
  import opened Events
  import opened Index
  import opened Wrappers

  /** The largest value of the source's 64-bit connection identifiers. */
  const MAX_ID: nat := 0xFFFF_FFFF_FFFF_FFFF

  /** What a publishing filter may look at: everything about a connection but its channel. */
  datatype Meta = Meta(id: nat, sessionID: string, userID: string, page: string,
                       selectors: set<string>, fragmentIDs: set<string>)

  /** A registered connection: routing data and the events waiting in its bounded channel. */
  datatype Conn = Conn(meta: Meta, queue: seq<Event>)

  /** `closed` lists the identifiers whose channel was closed, in order. */
  datatype State = State(conns: map<nat, Conn>, sessions: map<string, set<nat>>,
                         users: map<string, set<string>>, nextID: nat, buf: nat, closed: seq<nat>)

  /** Publishing options: `None` is the source's nil map, respectively nil predicate. */
  datatype Options = Options(active: Option<set<string>>, filter: Option<Meta -> bool>)

  /// Changes to single connections

  datatype Change =
    | Offered(e: Event)
    | Rehomed(was: string, now: string)
    | Moved(sid: string)
    | Paged(page: string, selectors: set<string>, fragmentIDs: set<string>)

  /** One connection after a change; an offer is a non-blocking send, which a full channel drops. */
  function Apply(change: Change, c: Conn, buf: nat): Conn {
    match change
    case Offered(e) => if |c.queue| < buf then c.(queue := c.queue + [e]) else c
    case Rehomed(was, now) => if c.meta.userID == was then c.(meta := c.meta.(userID := now)) else c
    case Moved(sid) => c.(meta := c.meta.(sessionID := sid))
    case Paged(page, selectors, fragmentIDs) =>
      c.(meta := c.meta.(page := page, selectors := selectors, fragmentIDs := fragmentIDs))
  }

  /** The reference meaning of every broadcast change: scan all connections, change those in `ids` once. */
  function Amend(s: State, ids: set<nat>, change: Change): State {
    s.(conns := map id | id in s.conns :: if id in ids then Apply(change, s.conns[id], s.buf) else s.conns[id])
  }

  /// Operations

  function Init(bufSize: int): State {
    State(map[], map[], map[], 0, if bufSize <= 0 then 32 else bufSize, [])
  }

  function FreshConn(id: nat, sid: string, uid: string): Conn {
    Conn(Meta(id, sid, uid, "", {}, {}), [])
  }

  /** The critical section shared by both ways of subscribing. */
  function Register(s: State, sid: string, uid: string, id: nat): State {
    s.(conns := s.conns[id := FreshConn(id, sid, uid)],
       sessions := AddTo(s.sessions, sid, id),
       users := AddTo(s.users, uid, sid))
  }

  /** The identifier counter is a 64-bit word and wraps around. */
  function NextID(s: State): nat {
    (s.nextID + 1) % (MAX_ID + 1)
  }

  function SubscribeNew(s: State, sid: string, uid: string): State {
    Register(s.(nextID := NextID(s)), sid, uid, NextID(s))
  }

  /** A completed call with an external identifier; `counter` is where the compare-and-swap loop left the counter. */
  function SubscribeExternal(s: State, sid: string, uid: string, id: nat, counter: nat): State {
    Register(s, sid, uid, id).(nextID := counter)
  }

  function Rotate(s: State, id: nat, sid: string): State {
    if id !in s.conns || s.conns[id].meta.sessionID == sid then s
    else
      var m := s.conns[id].meta;
      var left := if m.sessionID != "" then RemoveFrom(s.sessions, m.sessionID, id) else s.sessions;
      Amend(s, {id}, Moved(sid)).(
        sessions := AddTo(left, sid, id),
        users := if m.userID != "" then AddTo(s.users, m.userID, sid) else s.users)
  }

  function UpdateUser(s: State, was: string, now: string): State {
    Amend(s, s.conns.Keys, Rehomed(was, now)).(users := MoveKey(s.users, was, now))
  }

  function UpdateSessionPage(s: State, sid: string, page: string, selectors: set<string>,
                             fragmentIDs: set<string>): State {
    Amend(s, At(s.sessions, sid), Paged(page, selectors, fragmentIDs))
  }

  function Remove(s: State, id: nat): State {
    if id !in s.conns then s
    else
      var m := s.conns[id].meta;
      s.(conns := s.conns - {id},
         users := if |At(s.sessions, m.sessionID)| <= 1 then RemoveFrom(s.users, m.userID, m.sessionID) else s.users,
         sessions := RemoveFrom(s.sessions, m.sessionID, id),
         closed := s.closed + [id])
  }

  /** The stream handler's goroutine takes the oldest waiting event. */
  function Receive(s: State, id: nat): State {
    if id !in s.conns || s.conns[id].queue == [] then s
    else s.(conns := s.conns[id := s.conns[id].(queue := s.conns[id].queue[1..])])
  }

  /** Offers along a list of identifiers, which may repeat and may be unknown. */
  function OfferEach(s: State, ids: seq<nat>, e: Event): State
    decreases |ids|
  {
    if ids == [] then s else OfferEach(Amend(s, {ids[0]}, Offered(e)), ids[1..], e)
  }

  /// Who is addressed

  predicate Accepts(filter: Option<Meta -> bool>, m: Meta) {
    filter.Some? ==> filter.value(m)
  }

  predicate Active(active: Option<set<string>>, sid: string) {
    active.Some? ==> sid in active.value
  }

  predicate Passes(m: Meta, opts: Options) {
    Active(opts.active, m.sessionID) && Accepts(opts.filter, m)
  }

  /** Connections of the given users that pass, found by looking at every connection. */
  function Addressed(s: State, uids: set<string>, opts: Options): set<nat> {
    set id | id in s.conns && s.conns[id].meta.userID in uids && Passes(s.conns[id].meta, opts)
  }

  /** Those of `ids` that are live and accepted. */
  function Selected(s: State, ids: set<nat>, filter: Option<Meta -> bool>): set<nat> {
    set id | id in ids && id in s.conns && Accepts(filter, s.conns[id].meta)
  }

  /** Live connections whose session is among `sids` and that pass. */
  function InSessions(s: State, sids: set<string>, opts: Options): set<nat> {
    set id | id in s.conns && s.conns[id].meta.sessionID in sids && Passes(s.conns[id].meta, opts)
  }

  /** The user index, then the session index, lead from `u` through `sid` to the live connection `id`. */
  predicate Routed(s: State, u: string, sid: string, id: nat) {
    sid in At(s.users, u) && id in At(s.sessions, sid) && id in s.conns
  }

  /** The connections that the two indexes lead to, session by session. */
  function Indexed(s: State, uids: set<string>, opts: Options): set<nat> {
    set u, sid, id | u in uids && sid in At(s.users, u) && id in At(s.sessions, sid) && Routed(s, u, sid, id)
                     && Active(opts.active, sid) && Accepts(opts.filter, s.conns[id].meta) :: id
  }

  /// The inductive invariant

  /** The session index lists each live connection under its own session, and nothing else. */
  ghost predicate SessionsExact(s: State) {
    && NoEmpty(s.sessions)
    && forall sid, id :: id in At(s.sessions, sid) <==> id in s.conns && s.conns[id].meta.sessionID == sid
  }

  /** The user index knows the session of each live connection; after rotations it may know more names. */
  ghost predicate UsersCover(s: State) {
    && NoEmpty(s.users)
    && forall id | id in s.conns :: s.conns[id].meta.sessionID in At(s.users, s.conns[id].meta.userID)
  }

  /** No session name is listed under two users. */
  ghost predicate OneOwner(s: State) {
    forall u, v, sid | sid in At(s.users, u) && sid in At(s.users, v) :: u == v
  }

  ghost predicate Bounded(s: State) {
    && s.nextID <= MAX_ID
    && s.buf > 0
    && (forall id | id in s.conns :: s.conns[id].meta.id == id && id <= s.nextID && |s.conns[id].queue| <= s.buf)
    && (forall id | id in s.conns :: s.conns[id].meta.sessionID != "" && s.conns[id].meta.userID != "")
  }

  /** No channel was closed twice, and a live connection's channel is open. */
  ghost predicate ClosedOnce(s: State) {
    && (forall i, j | 0 <= i < j < |s.closed| :: s.closed[i] != s.closed[j])
    && (forall i | 0 <= i < |s.closed| :: s.closed[i] !in s.conns && s.closed[i] <= s.nextID)
  }

  ghost predicate Inv(s: State) {
    SessionsExact(s) && UsersCover(s) && OneOwner(s) && Bounded(s) && ClosedOnce(s)
  }

  /// Composing scans

  lemma AmendNone(s: State, change: Change)
    ensures Amend(s, {}, change) == s
  {
    assert Amend(s, {}, change).conns == s.conns;
  }

  lemma AmendUnknown(s: State, ids: set<nat>, change: Change)
    requires ids !! s.conns.Keys
    ensures Amend(s, ids, change) == s
  {
    assert Amend(s, ids, change).conns == s.conns;
  }

  /** Changing two disjoint groups in turn is changing their union at once. */
  lemma AmendCompose(s: State, a: set<nat>, b: set<nat>, c: set<nat>, change: Change)
    requires a !! b && forall id | id in s.conns :: id in c <==> id in a || id in b
    ensures Amend(Amend(s, a, change), b, change) == Amend(s, c, change)
  {
    assert Amend(Amend(s, a, change), b, change).conns == Amend(s, c, change).conns;
  }

  lemma SelectedMore(s: State, done: set<nat>, id: nat, filter: Option<Meta -> bool>, e: Event)
    requires id !in done
    ensures var t := Amend(s, Selected(s, done, filter), Offered(e));
            Amend(t, Selected(t, {id}, filter), Offered(e)) == Amend(s, Selected(s, done + {id}, filter), Offered(e))
  {
    var t := Amend(s, Selected(s, done, filter), Offered(e));
    AmendCompose(s, Selected(s, done, filter), Selected(t, {id}, filter), Selected(s, done + {id}, filter), Offered(e));
  }

  lemma InSessionsMore(s: State, done: set<string>, sid: string, opts: Options, e: Event)
    requires sid !in done && SessionsExact(s) && Active(opts.active, sid)
    ensures var t := Amend(s, InSessions(s, done, opts), Offered(e));
            Amend(t, Selected(t, At(s.sessions, sid), opts.filter), Offered(e))
            == Amend(s, InSessions(s, done + {sid}, opts), Offered(e))
  {
    var t := Amend(s, InSessions(s, done, opts), Offered(e));
    AmendCompose(s, InSessions(s, done, opts), Selected(t, At(s.sessions, sid), opts.filter),
                 InSessions(s, done + {sid}, opts), Offered(e));
  }

  lemma InSessionsSkip(s: State, done: set<string>, sid: string, opts: Options)
    requires !Active(opts.active, sid)
    ensures InSessions(s, done + {sid}, opts) == InSessions(s, done, opts)
  {
  }

  lemma InSessionsAll(s: State, uid: string, opts: Options)
    requires UsersCover(s) && OneOwner(s)
    ensures InSessions(s, At(s.users, uid), opts) == Addressed(s, {uid}, opts)
  {
  }

  lemma AddressedStep(s: State, done: set<string>, wanted: set<string>, u: string, opts: Options, e: Event)
    requires u !in done
    ensures var t := Amend(s, Addressed(s, done * wanted, opts), Offered(e));
            Amend(t, Addressed(t, {u} * wanted, opts), Offered(e))
            == Amend(s, Addressed(s, (done + {u}) * wanted, opts), Offered(e))
  {
    var t := Amend(s, Addressed(s, done * wanted, opts), Offered(e));
    AmendCompose(s, Addressed(s, done * wanted, opts), Addressed(t, {u} * wanted, opts),
                 Addressed(s, (done + {u}) * wanted, opts), Offered(e));
  }

  lemma AddressedAll(s: State, wanted: set<string>, opts: Options)
    requires UsersCover(s)
    ensures Addressed(s, s.users.Keys * wanted, opts) == Addressed(s, wanted, opts)
  {
  }
}
