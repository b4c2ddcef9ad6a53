/**
 CSRF tokens when every operation of the session manager runs undisturbed: the accepted value is then the
 latest one set on the session's chain of rotations, and no other cached session accepts it.
 */
module CsrfChain {
  import opened Wrappers
  import opened SessionModel
  import opened SessionRequests

  datatype Op =
    | Confirm(token: string, identity: Identity, session: string, now: int)  // a positive validation, with its rotation
    | Remove(token: string)                                                 // a refusal, or `Destroy`
    | Issue(token: string, value: string, now: int)
    | Anonymous(token: string, now: int)
    | TouchEntry(h: string, now: int)
    | EvictExpired(now: int)

  /** The chain of a session, as recorded: what was set where, and what moved where. */
  datatype Event = Set(h: string, value: string, at: int) | Moved(from: string, to: string)

  datatype World = World(s: State, log: seq<Event>)

  function Next(cfg: Config, hash: string -> string, w: World, op: Op): World {
    match op
    case Confirm(token, identity, session, now) =>
      w.(s := Store(w.s, cfg, hash, token, now, identity, session),
         log := if Rotates(token, session) then w.log + [Moved(hash(token), hash(session))] else w.log)
    case Remove(token) => w.(s := RemoveIdentity(w.s, hash(token)))
    case Issue(token, value, now) =>
      if hash(token) in w.s.cache
      then World(SetCsrf(w.s, cfg, hash(token), value, now), w.log + [Set(hash(token), value, now)])
      else w
    case Anonymous(token, now) => w.(s := CreateAnonymous(w.s, cfg, hash, token, now))
    case TouchEntry(h, now) => w.(s := Touch(w.s, h, now))
    case EvictExpired(now) => w.(s := Evict(w.s, cfg, now))
  }

  /** Random values are distinct. */
  predicate Legal(w: World, op: Op) {
    op.Issue? ==> forall e | e in w.log && e.Set? :: e.value != op.value
  }

  ghost predicate LegalRun(cfg: Config, hash: string -> string, w: World, ops: seq<Op>)
    decreases |ops|
  {
    ops == [] || (Legal(w, ops[0]) && LegalRun(cfg, hash, Next(cfg, hash, w, ops[0]), ops[1..]))
  }

  function Run(cfg: Config, hash: string -> string, w: World, ops: seq<Op>): World
    decreases |ops|
  {
    if ops == [] then w else Run(cfg, hash, Next(cfg, hash, w, ops[0]), ops[1..])
  }

  const START := World(EMPTY, [])

  /**
   The latest setting on the chain that ends in `h`, found by walking the record backwards: a move into `h`
   continues with the session it came from.
   */
  function Latest(log: seq<Event>, h: string): Option<(string, int)> {
    if log == [] then None
    else
      var before := log[..|log| - 1];
      match log[|log| - 1]
      case Set(g, value, at) => if g == h then Some((value, at)) else Latest(before, h)
      case Moved(from, to) => if to == h then Latest(before, from) else Latest(before, h)
  }

  ghost predicate IsLatest(cfg: Config, w: World, h: string) {
    Carried(w.s, h).Some? ==>
      Latest(w.log, h) == Some((Carried(w.s, h).value.value, Carried(w.s, h).value.expiresAt - cfg.csrfMaxAge))
  }

  /** No two cached sessions hold the same value. */
  ghost predicate Unshared(s: State) {
    forall g, h | Carried(s, g).Some? && Carried(s, h).Some? && Carried(s, g).value.value == Carried(s, h).value.value ::
      g == h
  }

  ghost predicate Inv(cfg: Config, w: World) {
    (forall h :: IsLatest(cfg, w, h)) && Unshared(w.s)
  }

  lemma LatestAppend(log: seq<Event>, e: Event, h: string)
    ensures Latest(log + [e], h) ==
            match e
            case Set(g, value, at) => if g == h then Some((value, at)) else Latest(log, h)
            case Moved(from, to) => if to == h then Latest(log, from) else Latest(log, h)
  {
    assert (log + [e])[..|log|] == log;
  }

  lemma {:induction false} LatestWasSet(log: seq<Event>, h: string)
    requires Latest(log, h).Some?
    ensures exists g :: Set(g, Latest(log, h).value.0, Latest(log, h).value.1) in log
    decreases |log|
  {
    var before, last := log[..|log| - 1], log[|log| - 1];
    if last.Set? && last.h == h {
      assert Set(h, last.value, last.at) in log;
    } else {
      var from := if last.Moved? && last.to == h then last.from else h;
      LatestWasSet(before, from);
      var g :| Set(g, Latest(before, from).value.0, Latest(before, from).value.1) in before;
      assert Set(g, Latest(log, h).value.0, Latest(log, h).value.1) in log;
    }
  }

  /// The three ways in which CSRF tokens change

  /** Tokens stay or go. */
  lemma SomeGo(cfg: Config, w: World, t: State)
    requires Inv(cfg, w) && forall g :: Carried(t, g) == None || Carried(t, g) == Carried(w.s, g)
    ensures Inv(cfg, World(t, w.log))
  {
    forall g ensures IsLatest(cfg, World(t, w.log), g) {
      assert IsLatest(cfg, w, g);
    }
  }

  /** One token moves, with the record saying so; should the hashes collide, it goes. */
  lemma OneMoves(cfg: Config, w: World, t: State, h: string, k: string)
    requires Inv(cfg, w)
    requires forall g :: Carried(t, g) == if g == h then None else if g == k then Carried(w.s, h) else Carried(w.s, g)
    ensures Inv(cfg, World(t, w.log + [Moved(h, k)]))
  {
    forall g ensures IsLatest(cfg, World(t, w.log + [Moved(h, k)]), g) {
      LatestAppend(w.log, Moved(h, k), g);
      assert IsLatest(cfg, w, h) && IsLatest(cfg, w, g);
    }
  }

  /** One new value is set. */
  lemma OneIsSet(cfg: Config, w: World, t: State, h: string, value: string, at: int)
    requires Inv(cfg, w) && forall e | e in w.log && e.Set? :: e.value != value
    requires forall g :: Carried(t, g) == if g == h then Some(Csrf(value, at + cfg.csrfMaxAge)) else Carried(w.s, g)
    ensures Inv(cfg, World(t, w.log + [Set(h, value, at)]))
  {
    forall g ensures IsLatest(cfg, World(t, w.log + [Set(h, value, at)]), g) {
      LatestAppend(w.log, Set(h, value, at), g);
      assert IsLatest(cfg, w, g);
    }
    forall g | Carried(w.s, g).Some? ensures Carried(w.s, g).value.value != value {
      assert IsLatest(cfg, w, g);
      LatestWasSet(w.log, g);
    }
  }

  lemma ConfirmCsrf(s: State, cfg: Config, hash: string -> string, op: Op, g: string)
    requires op.Confirm?
    ensures var t := Store(s, cfg, hash, op.token, op.now, op.identity, op.session);
            var h, k := hash(op.token), hash(op.session);
            Carried(t, g) ==
            if Rotates(op.token, op.session)
            then (if g == h then None else if g == k then Carried(s, h) else Carried(s, g))
            else Carried(s, g)
  {
  }

  lemma NextKeepsInv(cfg: Config, hash: string -> string, w: World, op: Op)
    requires Inv(cfg, w) && Legal(w, op)
    ensures Inv(cfg, Next(cfg, hash, w, op))
  {
    match op
    case Confirm(token, identity, session, now) =>
      var t := Store(w.s, cfg, hash, token, now, identity, session);
      forall g {
        ConfirmCsrf(w.s, cfg, hash, op, g);
      }
      if Rotates(token, session) {
        OneMoves(cfg, w, t, hash(token), hash(session));
      } else {
        SomeGo(cfg, w, t);
      }
    case Issue(token, value, now) =>
      if hash(token) in w.s.cache {
        OneIsSet(cfg, w, SetCsrf(w.s, cfg, hash(token), value, now), hash(token), value, now);
      }
    case Remove(token) => SomeGo(cfg, w, RemoveIdentity(w.s, hash(token)));
    case Anonymous(token, now) => SomeGo(cfg, w, CreateAnonymous(w.s, cfg, hash, token, now));
    case TouchEntry(h, now) => SomeGo(cfg, w, Touch(w.s, h, now));
    case EvictExpired(now) => SomeGo(cfg, w, Evict(w.s, cfg, now));
  }

  lemma {:induction false} RunKeepsInv(cfg: Config, hash: string -> string, w: World, ops: seq<Op>)
    requires Inv(cfg, w) && LegalRun(cfg, hash, w, ops)
    ensures Inv(cfg, Run(cfg, hash, w, ops))
    decreases |ops|
  {
    if ops != [] {
      NextKeepsInv(cfg, hash, w, ops[0]);
      RunKeepsInv(cfg, hash, Next(cfg, hash, w, ops[0]), ops[1..]);
    }
  }

  /**
   An accepted value is the latest one set on the session's chain, set at most the CSRF lifetime ago, and the
   sessions that accept it at any time are that one session.
   */
  lemma AcceptedIsLatest(cfg: Config, hash: string -> string, ops: seq<Op>, h: string, value: string, t: int)
    requires LegalRun(cfg, hash, START, ops)
    requires SessionModel.Accepts(Run(cfg, hash, START, ops).s, h, value, t)
    ensures var w := Run(cfg, hash, START, ops);
            && (exists at :: Latest(w.log, h) == Some((value, at)) && t - at <= cfg.csrfMaxAge)
            && forall g, u | SessionModel.Accepts(w.s, g, value, u) :: g == h
  {
    RunKeepsInv(cfg, hash, START, ops);
    var w := Run(cfg, hash, START, ops);
    assert IsLatest(cfg, w, h);
    assert Latest(w.log, h) == Some((value, Carried(w.s, h).value.expiresAt - cfg.csrfMaxAge));
    forall g, u | SessionModel.Accepts(w.s, g, value, u) ensures g == h {
      assert Carried(w.s, g).Some? && Carried(w.s, h).Some?;
    }
  }
}
