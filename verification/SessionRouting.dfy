/**
 The session manager and the broker together, under every interleaving of the manager's critical sections with
 broker operations: when a connection is reached by publishes restricted to the user's active sessions. A handler
 whose request names the connection moves it to the new session in a critical section of its own, some time after
 the manager rotated; other connections that share the old session are left behind.
 */
module SessionRouting {
  import opened Histories
  import opened Text
  import opened Wrappers
  import SM = SessionModel
  import SR = SessionRequests
  import SI = SessionInterleaving
  import BM = BrokerModel
  import BR = BrokerRuns
  import RC = RequestCookies

  /** The two components, and the tokens that the followed connection has left behind. */
  datatype World = World(m: SI.World, b: BM.State, past: set<string>)

  /** What stays fixed: configuration, hash, the application's name for the user, the user and the connection. */
  datatype Setting = Setting(cfg: SM.Config, hash: string -> string, userKey: string, userID: Int64, conn: nat)

  datatype Step =
    | Manage(step: SI.Step)    // any critical section of the manager, of any request
    | Follow(session: string)  // a handler's broker update, for a request that names the connection
    | BrokerStep(op: BR.Op)

  function Current(g: Setting, w: World): string
    requires g.conn in w.b.conns
  {
    w.b.conns[g.conn].meta.sessionID
  }

  /**
   What can happen: any step of the manager, a handler that follows to any token at any time, and any broker
   operation of another connection or user. The connection stays open and stays the user's.
   */
  predicate Can(g: Setting, w: World, step: Step) {
    match step
    case Manage(s) => SI.InPhase(w.m, s)
    case Follow(session) => BR.Legal(w.b, BR.Rotate(g.conn, session))
    case BrokerStep(op) =>
      && BR.Legal(w.b, op)
      && (match op
          case Rotate(id, _) => id != g.conn
          case Remove(id) => id != g.conn
          case UpdateUser(was, _) => was != g.userKey
          case _ => true)
  }

  function Next(g: Setting, w: World, step: Step): World
    requires g.conn in w.b.conns && Can(g, w, step)
  {
    match step
    case Manage(s) => w.(m := SI.Next(g.cfg, g.hash, w.m, s))
    case Follow(session) =>
      w.(b := RC.Rerouted(w.b, Some(g.conn), session),
         past := if session == Current(g, w) then w.past else w.past + {Current(g, w)})
    case BrokerStep(op) => w.(b := BR.Step(w.b, op))
  }

  ghost predicate Sound(g: Setting, w: World) {
    && g.userID != 0 && SI.WorldInv(g.cfg, g.hash, w.m) && BM.Inv(w.b)
    && g.conn in w.b.conns && w.b.conns[g.conn].meta.userID == g.userKey
  }

  function Active(g: Setting, w: World): set<string> {
    SM.ActiveSessions(w.m.s, g.userID)
  }

  /** The connection's session is one of the user's active sessions. */
  ghost predicate Linked(g: Setting, w: World) {
    Sound(g, w) && Current(g, w) in Active(g, w)
  }

  /// What a step does

  /** The step lists the token for the user. */
  predicate Gains(g: Setting, w: World, step: Step, t: string)
    requires Can(g, w, step)
  {
    step.Manage? && SI.Written(g.hash, w.m, step.step) == Some((g.hash(t), t, g.userID))
  }

  /** The step removes the token's entry, or files something else in its place. */
  predicate Loses(g: Setting, w: World, step: Step, t: string)
    requires Can(g, w, step)
  {
    step.Manage? && !Gains(g, w, step, t)
    && (SI.Removes(g.cfg, g.hash, w.m, step.step, g.hash(t)) || SI.Writes(g.hash, w.m, step.step, g.hash(t)))
  }

  /** The step makes the connection's session an active one: it lists it, or moves the connection to one. */
  predicate Links(g: Setting, w: World, step: Step)
    requires g.conn in w.b.conns && Can(g, w, step)
  {
    match step
    case Manage(_) => Gains(g, w, step, Current(g, w))
    case Follow(session) => session in Active(g, w)
    case BrokerStep(_) => false
  }

  /** The step ends the connection's session without it, or moves the connection to a session that is not active. */
  predicate Strands(g: Setting, w: World, step: Step)
    requires g.conn in w.b.conns && Can(g, w, step)
  {
    match step
    case Manage(_) => Loses(g, w, step, Current(g, w))
    case Follow(session) => session !in Active(g, w)
    case BrokerStep(_) => false
  }

  /** Operations on other connections and users leave a connection's user and session alone. */
  lemma BystanderUnchanged(g: Setting, b: BM.State, op: BR.Op)
    requires BM.Bounded(b) && BR.Legal(b, op) && g.conn in b.conns && b.conns[g.conn].meta.userID == g.userKey
    requires op.Rotate? ==> op.id != g.conn
    requires op.Remove? ==> op.id != g.conn
    requires op.UpdateUser? ==> op.was != g.userKey
    ensures var t := BR.Step(b, op);
            && g.conn in t.conns && t.conns[g.conn].meta.userID == g.userKey
            && t.conns[g.conn].meta.sessionID == b.conns[g.conn].meta.sessionID
  {
  }

  /** Renaming the session of one connection changes nothing else about it. */
  lemma RotatedConnection(b: BM.State, id: nat, sid: string)
    requires id in b.conns
    ensures var t := BM.Rotate(b, id, sid);
            id in t.conns && t.conns[id].meta == b.conns[id].meta.(sessionID := sid)
  {
  }

  lemma NextKeepsSound(g: Setting, w: World, step: Step)
    requires Sound(g, w) && Can(g, w, step)
    ensures Sound(g, Next(g, w, step))
    ensures Current(g, Next(g, w, step)) == if step.Follow? then step.session else Current(g, w)
  {
    match step
    case Manage(s) => SI.NextKeepsInv(g.cfg, g.hash, w.m, s);
    case Follow(session) =>
      BR.RotateKeepsInv(w.b, g.conn, session);
      RotatedConnection(w.b, g.conn, session);
    case BrokerStep(op) =>
      BR.StepKeepsInv(w.b, op);
      BystanderUnchanged(g, w.b, op);
  }

  lemma ActiveIsOwned(g: Setting, w: World, t: string)
    requires Sound(g, w)
    ensures t in Active(g, w) <==> SM.Owns(w.m.s, g.hash, g.userID, t)
  {
  }

  /** A token is active after a step if the step lists it, or if it was active and the step does not end that. */
  lemma NextActiveIff(g: Setting, w: World, step: Step, t: string)
    requires Sound(g, w) && Can(g, w, step)
    ensures t in Active(g, Next(g, w, step)) <==> Gains(g, w, step, t) || (t in Active(g, w) && !Loses(g, w, step, t))
  {
    NextKeepsSound(g, w, step);
    if step.Manage? {
      SI.OwnsIff(g.cfg, g.hash, w.m, step.step, g.userID, t);
      ActiveIsOwned(g, w, t);
      ActiveIsOwned(g, Next(g, w, step), t);
    }
  }

  /** The connection is linked after a step if the step links it, or if it was linked and is not stranded. */
  lemma NextLinkedIff(g: Setting, w: World, step: Step)
    requires Sound(g, w) && Can(g, w, step)
    ensures Linked(g, Next(g, w, step)) <==> Links(g, w, step) || (Linked(g, w) && !Strands(g, w, step))
  {
    NextKeepsSound(g, w, step);
    NextActiveIff(g, w, step, Current(g, Next(g, w, step)));
  }

  /// Who is reached

  /** Publishing to the followed user, restricted to the given sessions, goes through the broker's indexes. */
  function Reached(g: Setting, b: BM.State, active: set<string>): set<nat> {
    BM.Indexed(b, {g.userKey}, BM.Options(Some(active), None))
  }

  lemma ReachedIffActive(g: Setting, b: BM.State, active: set<string>)
    requires BM.Inv(b) && g.conn in b.conns && b.conns[g.conn].meta.userID == g.userKey
    ensures g.conn in Reached(g, b, active) <==> b.conns[g.conn].meta.sessionID in active
  {
    BR.IndexedIsScan(b, {g.userKey}, BM.Options(Some(active), None));
  }

  /// Whole runs

  ghost predicate Took(g: Setting, w: World, step: Step, v: World) {
    g.conn in w.b.conns && Can(g, w, step) && v == Next(g, w, step)
  }

  /** A run with all its states. */
  ghost predicate IsRun(g: Setting, ws: seq<World>, steps: seq<Step>) {
    |ws| == |steps| + 1 && forall i | 0 <= i < |steps| :: Took(g, ws[i], steps[i], ws[i + 1])
  }

  ghost predicate TookAt(g: Setting, ws: seq<World>, steps: seq<Step>, i: nat) {
    i < |steps| && i + 1 < |ws| && Took(g, ws[i], steps[i], ws[i + 1])
  }

  ghost function GainsAt(g: Setting, ws: seq<World>, steps: seq<Step>, t: string): nat -> bool {
    (i: nat) => TookAt(g, ws, steps, i) && Gains(g, ws[i], steps[i], t)
  }

  ghost function LosesAt(g: Setting, ws: seq<World>, steps: seq<Step>, t: string): nat -> bool {
    (i: nat) => TookAt(g, ws, steps, i) && Loses(g, ws[i], steps[i], t)
  }

  ghost function LinksAt(g: Setting, ws: seq<World>, steps: seq<Step>): nat -> bool {
    (i: nat) => TookAt(g, ws, steps, i) && Links(g, ws[i], steps[i])
  }

  ghost function StrandsAt(g: Setting, ws: seq<World>, steps: seq<Step>): nat -> bool {
    (i: nat) => TookAt(g, ws, steps, i) && Strands(g, ws[i], steps[i])
  }

  lemma {:induction false} RunKeepsSound(g: Setting, ws: seq<World>, steps: seq<Step>, first: nat, later: nat)
    requires IsRun(g, ws, steps) && first <= later < |ws| && Sound(g, ws[first])
    ensures Sound(g, ws[later])
    decreases later
  {
    if first < later {
      RunKeepsSound(g, ws, steps, first, later - 1);
      assert TookAt(g, ws, steps, later - 1);
      NextKeepsSound(g, ws[later - 1], steps[later - 1]);
    }
  }

  /** A token is active at a later moment if it was or became so, and whatever ended that was made good. */
  lemma ActiveIff(g: Setting, ws: seq<World>, steps: seq<Step>, t: string, first: nat, later: nat)
    requires IsRun(g, ws, steps) && first <= later < |ws| && Sound(g, ws[first])
    ensures t in Active(g, ws[later]) <==>
            LastWord(t in Active(g, ws[first]), GainsAt(g, ws, steps, t), LosesAt(g, ws, steps, t), first, later)
  {
    var holds := (i: nat) => i < |ws| && t in Active(g, ws[i]);
    var up, down := GainsAt(g, ws, steps, t), LosesAt(g, ws, steps, t);
    forall k | first <= k < later ensures !(up(k) && down(k)) && (holds(k + 1) <==> up(k) || (holds(k) && !down(k))) {
      RunKeepsSound(g, ws, steps, first, k);
      assert TookAt(g, ws, steps, k);
      NextActiveIff(g, ws[k], steps[k], t);
    }
    StepsDecide(holds, up, down, first, later);
  }

  lemma LinkedIff(g: Setting, ws: seq<World>, steps: seq<Step>, first: nat, later: nat)
    requires IsRun(g, ws, steps) && first <= later < |ws| && Sound(g, ws[first])
    ensures Linked(g, ws[later]) <==>
            LastWord(Linked(g, ws[first]), LinksAt(g, ws, steps), StrandsAt(g, ws, steps), first, later)
  {
    var holds := (i: nat) => i < |ws| && Linked(g, ws[i]);
    var up, down := LinksAt(g, ws, steps), StrandsAt(g, ws, steps);
    forall k | first <= k < later ensures !(up(k) && down(k)) && (holds(k + 1) <==> up(k) || (holds(k) && !down(k))) {
      RunKeepsSound(g, ws, steps, first, k);
      assert TookAt(g, ws, steps, k);
      NextLinkedIff(g, ws[k], steps[k]);
    }
    StepsDecide(holds, up, down, first, later);
  }

  ghost predicate IsReached(g: Setting, w: World) {
    g.conn in Reached(g, w.b, Active(g, w))
  }

  lemma ReachedIfLinked(g: Setting, w: World)
    requires Sound(g, w)
    ensures IsReached(g, w) <==> Linked(g, w)
  {
    ReachedIffActive(g, w.b, Active(g, w));
  }

  /**
   At every later moment of any run, a publish restricted to the user's active sessions reaches the connection if
   and only if it was linked or some step linked it, and every step that stranded it was followed by one that
   linked it again.
   */
  lemma ReachedIff(g: Setting, ws: seq<World>, steps: seq<Step>, first: nat, later: nat)
    requires IsRun(g, ws, steps) && first <= later < |ws| && Sound(g, ws[first])
    ensures IsReached(g, ws[later]) <==>
            LastWord(Linked(g, ws[first]), LinksAt(g, ws, steps), StrandsAt(g, ws, steps), first, later)
  {
    LinkedIff(g, ws, steps, first, later);
    RunKeepsSound(g, ws, steps, first, later);
    ReachedIfLinked(g, ws[later]);
  }

  /** A handler's move links the connection if and only if the token it moves to is active then. */
  lemma FollowedIff(g: Setting, ws: seq<World>, steps: seq<Step>, t: string, listed: nat, followed: nat)
    requires IsRun(g, ws, steps) && listed <= followed < |steps| && Sound(g, ws[listed]) && t in Active(g, ws[listed])
    requires steps[followed] == Follow(t)
    ensures Sound(g, ws[followed + 1])
    ensures Linked(g, ws[followed + 1]) <==>
            LastWord(true, GainsAt(g, ws, steps, t), LosesAt(g, ws, steps, t), listed, followed)
  {
    RunKeepsSound(g, ws, steps, listed, followed);
    ActiveIff(g, ws, steps, t, listed, followed);
    assert TookAt(g, ws, steps, followed);
    NextLinkedIff(g, ws[followed], steps[followed]);
    RunKeepsSound(g, ws, steps, followed, followed + 1);
  }

  /**
   A rotation has listed its new token at one moment, and a handler follows to that token then or later. The
   connection is linked then if and only if the token did not stop being active, or became active again, in between;
   and it is reached at every later moment if and only if whatever stranded it since was made good.
   */
  lemma RotatedConnectionReachedIff(g: Setting, ws: seq<World>, steps: seq<Step>, t: string, listed: nat, followed: nat,
                                    later: nat)
    requires IsRun(g, ws, steps) && listed <= followed < later < |ws|
    requires Sound(g, ws[listed]) && t in Active(g, ws[listed]) && steps[followed] == Follow(t)
    ensures Linked(g, ws[followed + 1]) <==>
            LastWord(true, GainsAt(g, ws, steps, t), LosesAt(g, ws, steps, t), listed, followed)
    ensures IsReached(g, ws[later]) <==>
            LastWord(Linked(g, ws[followed + 1]), LinksAt(g, ws, steps), StrandsAt(g, ws, steps), followed + 1, later)
  {
    FollowedIff(g, ws, steps, t, listed, followed);
    ReachedIff(g, ws, steps, followed + 1, later);
  }

  /// Reading the active sessions before publishing

  ghost predicate FollowsIn(steps: seq<Step>, read: nat, published: nat) {
    exists i :: read <= i < published && i < |steps| && steps[i].Follow?
  }

  lemma {:induction false} CurrentStays(g: Setting, ws: seq<World>, steps: seq<Step>, read: nat, published: nat)
    requires IsRun(g, ws, steps) && read <= published < |ws| && Sound(g, ws[read]) && !FollowsIn(steps, read, published)
    ensures Sound(g, ws[published]) && Current(g, ws[published]) == Current(g, ws[read])
    decreases published
  {
    if read < published {
      CurrentStays(g, ws, steps, read, published - 1);
      assert TookAt(g, ws, steps, published - 1);
      NextKeepsSound(g, ws[published - 1], steps[published - 1]);
    }
  }

  /**
   The active sessions are read at one moment and the publish takes the broker's lock at a later one: the connection
   is reached if and only if its session at the later moment was active at the earlier one. If no handler moved it
   in between, that is if and only if it was linked when the sessions were read.
   */
  lemma ReachedAtTwoMoments(g: Setting, ws: seq<World>, steps: seq<Step>, read: nat, published: nat)
    requires IsRun(g, ws, steps) && read <= published < |ws| && Sound(g, ws[read])
    ensures Sound(g, ws[published])
    ensures g.conn in Reached(g, ws[published].b, Active(g, ws[read])) <==>
            Current(g, ws[published]) in Active(g, ws[read])
    ensures !FollowsIn(steps, read, published) ==>
              (g.conn in Reached(g, ws[published].b, Active(g, ws[read])) <==> Linked(g, ws[read]))
  {
    RunKeepsSound(g, ws, steps, read, published);
    ReachedIffActive(g, ws[published].b, Active(g, ws[read]));
    if !FollowsIn(steps, read, published) {
      CurrentStays(g, ws, steps, read, published);
    }
  }

  /// Superseded tokens

  /** The connection moves to another session, which it had left before, respectively had not. */
  predicate MovesTo(g: Setting, w: World, step: Step, before: bool)
    requires g.conn in w.b.conns
  {
    step.Follow? && step.session != Current(g, w) && (step.session in w.past) == before
  }

  ghost function MovesAt(g: Setting, ws: seq<World>, steps: seq<Step>, before: bool): nat -> bool {
    (i: nat) => TookAt(g, ws, steps, i) && MovesTo(g, ws[i], steps[i], before)
  }

  ghost predicate AtPast(g: Setting, w: World) {
    g.conn in w.b.conns && Current(g, w) in w.past
  }

  lemma NextAtPastIff(g: Setting, w: World, step: Step)
    requires Sound(g, w) && Can(g, w, step)
    ensures AtPast(g, Next(g, w, step)) <==> MovesTo(g, w, step, true) || (AtPast(g, w) && !MovesTo(g, w, step, false))
  {
    NextKeepsSound(g, w, step);
  }

  lemma AtPastIff(g: Setting, ws: seq<World>, steps: seq<Step>, first: nat, later: nat)
    requires IsRun(g, ws, steps) && first <= later < |ws| && Sound(g, ws[first])
    ensures AtPast(g, ws[later]) <==>
            LastWord(AtPast(g, ws[first]), MovesAt(g, ws, steps, true), MovesAt(g, ws, steps, false), first, later)
  {
    var holds := (i: nat) => i < |ws| && AtPast(g, ws[i]);
    var up, down := MovesAt(g, ws, steps, true), MovesAt(g, ws, steps, false);
    forall k | first <= k < later ensures !(up(k) && down(k)) && (holds(k + 1) <==> up(k) || (holds(k) && !down(k))) {
      RunKeepsSound(g, ws, steps, first, k);
      assert TookAt(g, ws, steps, k);
      NextAtPastIff(g, ws[k], steps[k]);
    }
    StepsDecide(holds, up, down, first, later);
  }

  /** A token routes to the connection that left it behind. */
  ghost predicate PastTokenRoutes(g: Setting, w: World) {
    exists t :: t in w.past && g.conn in Reached(g, w.b, {t})
  }

  /**
   A token routes to the connection if and only if the connection is at that session. So a token that it left
   behind routes to it again if and only if a handler moved it back to such a token, and no handler moved it on to
   a token that it had not left since.
   */
  lemma SupersededIff(g: Setting, ws: seq<World>, steps: seq<Step>, first: nat, later: nat)
    requires IsRun(g, ws, steps) && first <= later < |ws| && Sound(g, ws[first])
    ensures PastTokenRoutes(g, ws[later]) <==>
            LastWord(AtPast(g, ws[first]), MovesAt(g, ws, steps, true), MovesAt(g, ws, steps, false), first, later)
  {
    AtPastIff(g, ws, steps, first, later);
    RunKeepsSound(g, ws, steps, first, later);
    PastRoutesIffAtPast(g, ws[later]);
  }

  lemma PastRoutesIffAtPast(g: Setting, w: World)
    requires Sound(g, w)
    ensures PastTokenRoutes(g, w) <==> AtPast(g, w)
  {
    forall t ensures g.conn in Reached(g, w.b, {t}) <==> t == Current(g, w) {
      ReachedIffActive(g, w.b, {t});
    }
  }

  /// Undisturbed rotations, and the tabs that they leave behind

  /** Which tokens a stored answer leaves listed for the user. */
  lemma StoreOwnsIff(s: SM.State, g: Setting, token: string, now: int, identity: SM.Identity, session: string,
                     t: string)
    requires SM.Inv(s, g.hash) && g.userID != 0
    requires g.hash(token) == g.hash(t) ==> token == t
    requires SR.Rotates(token, session) ==> g.hash(session) != g.hash(token)
    requires SR.Rotates(token, session) && g.hash(session) == g.hash(t) ==> session == t
    ensures SM.Owns(SR.Store(s, g.cfg, g.hash, token, now, identity, session), g.hash, g.userID, t) <==>
            if SR.Rotates(token, session) && t == session then identity.id == g.userID
            else if token == t then !SR.Rotates(token, session) && identity.id == g.userID
            else SM.Owns(s, g.hash, g.userID, t)
  {
  }

  /**
   A rotation by a request naming one connection, undisturbed, seen from another connection of that user that was
   reached before: it is reached afterwards if and only if its session is not the rotated token. Tabs that share a
   session cookie fail this.
   */
  lemma SiblingReachedIff(g: Setting, m: SM.State, b: BM.State, token: string, session: string, profile: string,
                          now: int, named: nat)
    requires SM.Inv(m, g.hash) && BM.Inv(b) && g.userID != 0 && SR.Rotates(token, session)
    requires g.conn in b.conns && b.conns[g.conn].meta.userID == g.userKey && named != g.conn
    requires BR.Legal(b, BR.Rotate(named, session)) && g.hash(session) != g.hash(token)
    requires g.conn in Reached(g, b, SM.ActiveSessions(m, g.userID))
    requires g.hash(token) == g.hash(b.conns[g.conn].meta.sessionID) ==> token == b.conns[g.conn].meta.sessionID
    requires g.hash(session) != g.hash(b.conns[g.conn].meta.sessionID)
    ensures var n := SR.Store(m, g.cfg, g.hash, token, now, SM.Identity(g.userID, profile), session);
            var c := RC.Rerouted(b, Some(named), session);
            g.conn in Reached(g, c, SM.ActiveSessions(n, g.userID)) <==> b.conns[g.conn].meta.sessionID != token
  {
    var identity, t := SM.Identity(g.userID, profile), b.conns[g.conn].meta.sessionID;
    var n := SR.Store(m, g.cfg, g.hash, token, now, identity, session);
    var c := RC.Rerouted(b, Some(named), session);
    SR.StoreKeepsInv(m, g.cfg, g.hash, token, now, identity, session);
    BR.RotateKeepsInv(b, named, session);
    BystanderUnchanged(g, b, BR.Rotate(named, session));
    StoreOwnsIff(m, g, token, now, identity, session, t);
    ReachedIffActive(g, b, SM.ActiveSessions(m, g.userID));
    ReachedIffActive(g, c, SM.ActiveSessions(n, g.userID));
  }

  /** The connection that the request names is reached afterwards, and the rotated token is not active any more. */
  lemma NamedIsReached(g: Setting, m: SM.State, b: BM.State, token: string, session: string, profile: string, now: int)
    requires SM.Inv(m, g.hash) && BM.Inv(b) && g.userID != 0 && SR.Rotates(token, session)
    requires g.conn in b.conns && b.conns[g.conn].meta.userID == g.userKey
    requires BR.Legal(b, BR.Rotate(g.conn, session)) && g.hash(session) != g.hash(token)
    ensures var n := SR.Store(m, g.cfg, g.hash, token, now, SM.Identity(g.userID, profile), session);
            var c := RC.Rerouted(b, Some(g.conn), session);
            && g.conn in Reached(g, c, SM.ActiveSessions(n, g.userID)) && token !in SM.ActiveSessions(n, g.userID)
  {
    var identity := SM.Identity(g.userID, profile);
    var c := RC.Rerouted(b, Some(g.conn), session);
    SR.RotationMovesIndex(m, g.cfg, g.hash, token, now, identity, session);
    BR.RotateKeepsInv(b, g.conn, session);
    RotatedConnection(b, g.conn, session);
    ReachedIffActive(g, c, SM.ActiveSessions(SR.Store(m, g.cfg, g.hash, token, now, identity, session), g.userID));
  }

  /// Schedules that lose the connection

  ghost predicate RunsTo(g: Setting, w: World, ws: seq<World>, steps: seq<Step>, v: World) {
    IsRun(g, ws, steps) && ws[0] == w && ws[|steps|] == v
  }

  /** Some run leads from one state to the other. */
  ghost predicate Leads(g: Setting, w: World, v: World) {
    exists ws, steps :: RunsTo(g, w, ws, steps, v)
  }

  lemma LeadsNowhere(g: Setting, w: World)
    ensures Leads(g, w, w)
  {
    assert RunsTo(g, w, [w], [], w);
  }

  lemma LeadsOn(g: Setting, w: World, v: World, step: Step)
    requires Leads(g, w, v) && Sound(g, v) && Can(g, v, step)
    ensures Leads(g, w, Next(g, v, step)) && Sound(g, Next(g, v, step))
  {
    var ws, steps :| RunsTo(g, w, ws, steps, v);
    var u := Next(g, v, step);
    var vs, more := ws + [u], steps + [step];
    forall i | 0 <= i < |more| ensures Took(g, vs[i], more[i], vs[i + 1]) {
      if i < |steps| {
        assert Took(g, ws[i], steps[i], ws[i + 1]);
      }
    }
    assert RunsTo(g, w, vs, more, u);
    NextKeepsSound(g, v, step);
  }

  lemma {:induction false} LeadsManaging(g: Setting, w: World, v: World, steps: seq<SI.Step>)
    requires Leads(g, w, v) && Sound(g, v) && SI.IsRun(g.cfg, g.hash, v.m, steps)
    ensures var u := v.(m := SI.After(g.cfg, g.hash, v.m, steps)); Leads(g, w, u) && Sound(g, u)
    decreases |steps|
  {
    if steps != [] {
      LeadsOn(g, w, v, Manage(steps[0]));
      LeadsManaging(g, w, Next(g, v, Manage(steps[0])), steps[1..]);
    }
  }

  /** An undisturbed positive validation of the user's token, with or without a rotation. */
  lemma Confirmed(g: Setting, w: World, token: string, session: string) returns (v: World)
    requires Sound(g, w) && (SR.Rotates(token, session) ==> g.hash(session) != g.hash(token))
    ensures Leads(g, w, v) && Sound(g, v) && v.b == w.b && v.past == w.past
    ensures SR.Rotates(token, session) ==> session in Active(g, v) && token !in Active(g, v)
    ensures !SR.Rotates(token, session) ==> token in Active(g, v)
  {
    var identity := SM.Identity(g.userID, "");
    var steps := SI.UndisturbedIsStore(g.cfg, g.hash, w.m, token, identity, session);
    LeadsNowhere(g, w);
    LeadsManaging(g, w, w, steps);
    v := w.(m := SI.After(g.cfg, g.hash, w.m, steps));
    StoreOwnsIff(w.m.s, g, token, w.m.clock, identity, session, token);
    ActiveIsOwned(g, v, token);
    if SR.Rotates(token, session) {
      StoreOwnsIff(w.m.s, g, token, w.m.clock, identity, session, session);
      ActiveIsOwned(g, v, session);
    }
  }

  /** No other user is known to the broker, so any token may be followed to. */
  ghost predicate Alone(g: Setting, w: World) {
    Sound(g, w) && w.b.users.Keys == {g.userKey}
  }

  lemma Followed(g: Setting, w: World, session: string) returns (v: World)
    requires Alone(g, w) && session != "" && session != Current(g, w)
    ensures Leads(g, w, v) && Alone(g, v) && v.m == w.m
    ensures Current(g, v) == session && v.past == w.past + {Current(g, w)}
  {
    v := Next(g, w, Follow(session));
    LeadsNowhere(g, w);
    LeadsOn(g, w, w, Follow(session));
    NextKeepsSound(g, w, Follow(session));
  }

  /**
   Between the two critical sections of a rotation, a publish misses the connection that the request names: it is
   reached before the manager rotates and after the handler follows, but not in between.
   */
  lemma MissedBetweenLocks(g: Setting, w: World, a: string, b: string) returns (rotated: World, followed: World)
    requires Alone(g, w) && Linked(g, w) && Current(g, w) == a && SR.Rotates(a, b) && g.hash(a) != g.hash(b)
    ensures Leads(g, w, rotated) && Leads(g, rotated, followed)
    ensures IsReached(g, w) && !IsReached(g, rotated) && IsReached(g, followed)
    ensures Alone(g, followed) && Linked(g, followed) && Current(g, followed) == b
    ensures followed.past == w.past + {a} && a !in Active(g, followed)
  {
    rotated := Confirmed(g, w, a, b);
    followed := Followed(g, rotated, b);
    ReachedIffActive(g, w.b, Active(g, w));
    ReachedIffActive(g, rotated.b, Active(g, rotated));
    ReachedIffActive(g, followed.b, Active(g, followed));
  }

  /**
   Two requests share the answer that rotates `a` to `b`. One handler follows at once; a later request rotates `b` to
   `c`, and its handler follows, too; then the other handler follows to `b`. Every rotation named the connection, yet
   it is lost to publishes, and the superseded `b` routes to it.
   */
  lemma LateHandlerLoses(g: Setting, w: World, a: string, b: string, c: string)
      returns (first: World, second: World, third: World, fourth: World, v: World)
    requires Alone(g, w) && Linked(g, w) && Current(g, w) == a && SR.Rotates(a, b) && SR.Rotates(b, c)
    requires g.hash(a) != g.hash(b) && g.hash(b) != g.hash(c)
    ensures Leads(g, w, first) && Leads(g, first, second) && Leads(g, second, third) && Leads(g, third, fourth)
    ensures Linked(g, second) && Current(g, second) == b && IsReached(g, second)
    ensures Linked(g, fourth) && Current(g, fourth) == c && IsReached(g, fourth)
    ensures Can(g, fourth, Follow(b)) && v == Next(g, fourth, Follow(b))
    ensures !IsReached(g, v) && b in v.past && g.conn in Reached(g, v.b, {b})
  {
    first, second := MissedBetweenLocks(g, w, a, b);
    third, fourth := MissedBetweenLocks(g, second, b, c);
    v := LateFollow(g, fourth, b);
  }

  lemma LateFollow(g: Setting, w: World, b: string) returns (v: World)
    requires Alone(g, w) && b != "" && b in w.past && b !in Active(g, w)
    ensures Can(g, w, Follow(b)) && v == Next(g, w, Follow(b))
    ensures !IsReached(g, v) && b in v.past && g.conn in Reached(g, v.b, {b})
  {
    v := Next(g, w, Follow(b));
    NextKeepsSound(g, w, Follow(b));
    ReachedIffActive(g, v.b, Active(g, v));
    ReachedIffActive(g, v.b, {b});
  }

  /// From the start

  lemma OpenTab(b: BM.State, sid: string, uid: string)
    requires BM.Inv(b) && b.closed == [] && b.nextID < BM.MAX_ID && sid != "" && uid != "" && b.users.Keys <= {uid}
    ensures var t := BM.SubscribeNew(b, sid, uid);
            && BM.Inv(t) && t.closed == [] && t.nextID == b.nextID + 1 && t.users.Keys == {uid}
            && t.conns == b.conns[b.nextID + 1 := BM.FreshConn(b.nextID + 1, sid, uid)]
  {
    BR.StepKeepsInv(b, BR.Op.SubscribeNew(sid, uid));
  }

  function OneTab(sid: string, uid: string): BM.State {
    BM.SubscribeNew(BM.Init(32), sid, uid)
  }

  /** A session whose one connection is open and whose token was just confirmed. */
  lemma LoggedIn(cfg: SM.Config, hash: string -> string, clock: int, a: string, uid: string)
      returns (g: Setting, w: World)
    requires a != "" && uid != ""
    ensures g == Setting(cfg, hash, uid, 1, 1) && Leads(g, World(SI.Start(clock), OneTab(a, uid), {}), w)
    ensures Alone(g, w) && Linked(g, w) && Current(g, w) == a && w.past == {}
  {
    g := Setting(cfg, hash, uid, 1, 1);
    OpenTab(BM.Init(32), a, uid);
    w := Confirmed(g, World(SI.Start(clock), OneTab(a, uid), {}), a, "");
  }

  /** Both schedules start from a fresh manager and a fresh broker. */
  lemma SchedulesFromTheStart(cfg: SM.Config, hash: string -> string, clock: int, a: string, b: string, c: string,
                              uid: string) returns (g: Setting, w: World, rotated: World, late: World)
    requires a != "" && uid != "" && SR.Rotates(a, b) && SR.Rotates(b, c)
    requires hash(a) != hash(b) && hash(b) != hash(c)
    ensures g == Setting(cfg, hash, uid, 1, 1) && Leads(g, World(SI.Start(clock), OneTab(a, uid), {}), w)
    ensures IsReached(g, w) && Leads(g, w, rotated) && !IsReached(g, rotated)
    ensures Leads(g, w, late) && !IsReached(g, late) && b in late.past && g.conn in Reached(g, late.b, {b})
  {
    g, w := LoggedIn(cfg, hash, clock, a, uid);
    var first, second, third, fourth, v := LateHandlerLoses(g, w, a, b, c);
    var followed;
    rotated, followed := MissedBetweenLocks(g, w, a, b);
    late := v;
    LeadsThen(g, w, first, second);
    LeadsThen(g, w, second, third);
    LeadsThen(g, w, third, fourth);
    LeadsOn(g, w, fourth, Follow(b));
  }

  lemma LeadsThen(g: Setting, w: World, u: World, v: World)
    requires Leads(g, w, u) && Leads(g, u, v)
    ensures Leads(g, w, v)
  {
    var ws, steps :| RunsTo(g, w, ws, steps, u);
    var us, more :| RunsTo(g, u, us, more, v);
    var vs, all := ws[..|steps|] + us, steps + more;
    forall i | 0 <= i < |all| ensures Took(g, vs[i], all[i], vs[i + 1]) {
      if i < |steps| {
        assert Took(g, ws[i], steps[i], ws[i + 1]);
      } else {
        assert Took(g, us[i - |steps|], more[i - |steps|], us[i - |steps| + 1]);
      }
    }
    assert RunsTo(g, w, vs, all, v);
  }

  /** Two connections of one user, opened with one session cookie. */
  function TwoTabs(sid: string, uid: string): BM.State {
    BM.SubscribeNew(OneTab(sid, uid), sid, uid)
  }

  /** One confirmed session. */
  function OneSession(cfg: SM.Config, hash: string -> string, token: string): SM.State {
    SR.Store(SM.EMPTY, cfg, hash, token, 0, SM.Identity(1, ""), "")
  }

  lemma TwoTabsAreReached(g: Setting, a: string)
    requires a != "" && g.userKey != "" && g.userID == 1 && g.conn in {1, 2}
    ensures var m, b := OneSession(g.cfg, g.hash, a), TwoTabs(a, g.userKey);
            && SM.Inv(m, g.hash) && BM.Inv(b) && b.users.Keys == {g.userKey}
            && g.conn in b.conns && b.conns[g.conn].meta.userID == g.userKey && b.conns[g.conn].meta.sessionID == a
            && g.conn in Reached(g, b, SM.ActiveSessions(m, 1))
  {
    OpenTab(BM.Init(32), a, g.userKey);
    OpenTab(OneTab(a, g.userKey), a, g.userKey);
    SR.StoreKeepsInv(SM.EMPTY, g.cfg, g.hash, a, 0, SM.Identity(1, ""), "");
    assert SM.Owns(OneSession(g.cfg, g.hash, a), g.hash, 1, a);
    ReachedIffActive(g, TwoTabs(a, g.userKey), SM.ActiveSessions(OneSession(g.cfg, g.hash, a), 1));
  }

  /** The first tab's request rotates the session: both tabs were reached before, and only the first is afterwards. */
  lemma SiblingIsLeftBehind(cfg: SM.Config, hash: string -> string, a: string, b: string, uid: string)
    requires a != "" && uid != "" && SR.Rotates(a, b) && hash(a) != hash(b)
    ensures var g, h := Setting(cfg, hash, uid, 1, 1), Setting(cfg, hash, uid, 1, 2);
            var m, tabs := OneSession(cfg, hash, a), TwoTabs(a, uid);
            var n, after := SR.Store(m, cfg, hash, a, 0, SM.Identity(1, ""), b), RC.Rerouted(tabs, Some(1), b);
            && 1 in Reached(g, tabs, SM.ActiveSessions(m, 1)) && 2 in Reached(h, tabs, SM.ActiveSessions(m, 1))
            && 1 in Reached(g, after, SM.ActiveSessions(n, 1)) && 2 !in Reached(h, after, SM.ActiveSessions(n, 1))
  {
    var g, h := Setting(cfg, hash, uid, 1, 1), Setting(cfg, hash, uid, 1, 2);
    TwoTabsAreReached(g, a);
    TwoTabsAreReached(h, a);
    NamedIsReached(g, OneSession(cfg, hash, a), TwoTabs(a, uid), a, b, "", 0);
    SiblingReachedIff(h, OneSession(cfg, hash, a), TwoTabs(a, uid), a, b, "", 0, 1);
  }
}
