/**
 The session manager under concurrency. Each critical section is one step; any number of validations are in
 flight at once, between reading the clock, the remote answer and the cache writes; the clock, the validator
 and the scheduler are adversaries.
 */
module SessionInterleaving {
  import opened GoTime
  import opened Histories
  import opened Text
  import opened Wrappers
  import opened SessionModel
  import opened SessionRequests

  /** How far a validation has come. `readAt` is the clock value it will record as its time of validation. */
  datatype Phase =
    | Started(readAt: int)
    | Asked(readAt: int, askedAt: int)
    | Refused
    | Granted(readAt: int, identity: Identity, session: string)
    | Carrying(readAt: int, identity: Identity, session: string, csrf: Option<Csrf>)
    | Moving(readAt: int, identity: Identity, session: string, csrf: Option<Csrf>)
    | Retiring
    | Finished

  datatype Request = Request(token: string, phase: Phase)

  /** What happened, for the record: positive answers, issued CSRF tokens, and entries moved by rotation. */
  datatype Event =
    | Grant(token: string, session: string, identity: Identity, readAt: int, askedAt: int, answeredAt: int)
    | Issue(h: string, value: string, at: int)
    | Moved(from: string, to: string)

  datatype World = World(clock: int, s: State, reqs: seq<Request>, log: seq<Event>)

  datatype Step =
    | Tick(delta: nat)
    | Begin(token: string)                                  // reads the clock; the cache has missed or is bypassed
    | Ask(r: nat)
    | AnswerYes(r: nat, identity: Identity, session: string)
    | AnswerNo(r: nat)
    | GiveUp(r: nat)                                        // validator or role error
    | DropRefused(r: nat)
    | Carry(r: nat)                                         // copies the CSRF token under the read lock
    | StoreEntry(r: nat)
    | MoveEntry(r: nat)
    | Retire(r: nat)
    | TouchEntry(h: string, now: int)                       // `now` was read earlier
    | IssueCsrf(token: string, value: string)
    | AddAnonymous(token: string, now: int)
    | Destroy(token: string)
    | EvictExpired(now: int)

  predicate InPhase(w: World, step: Step) {
    match step
    case Ask(r) => r < |w.reqs| && w.reqs[r].phase.Started?
    case AnswerYes(r, _, _) => r < |w.reqs| && w.reqs[r].phase.Asked?
    case AnswerNo(r) => r < |w.reqs| && w.reqs[r].phase.Asked?
    case GiveUp(r) => r < |w.reqs| && (w.reqs[r].phase.Asked? || w.reqs[r].phase.Granted?)
    case DropRefused(r) => r < |w.reqs| && w.reqs[r].phase.Refused?
    case Carry(r) => r < |w.reqs| && w.reqs[r].phase.Granted?
    case StoreEntry(r) => r < |w.reqs| && w.reqs[r].phase.Carrying?
    case MoveEntry(r) => r < |w.reqs| && w.reqs[r].phase.Moving?
    case Retire(r) => r < |w.reqs| && w.reqs[r].phase.Retiring?
    case TouchEntry(_, now) => now <= w.clock
    case AddAnonymous(_, now) => now <= w.clock
    case EvictExpired(now) => now <= w.clock
    case _ => true
  }

  function To(w: World, r: nat, phase: Phase): World
    requires r < |w.reqs|
  {
    w.(reqs := w.reqs[r := w.reqs[r].(phase := phase)])
  }

  function Next(cfg: Config, hash: string -> string, w: World, step: Step): World
    requires InPhase(w, step)
  {
    match step
    case Tick(delta) => w.(clock := w.clock + delta)
    case Begin(token) => w.(reqs := w.reqs + [Request(token, Started(w.clock))])
    case Ask(r) => To(w, r, Asked(w.reqs[r].phase.readAt, w.clock))
    case AnswerYes(r, identity, session) =>
      var p := w.reqs[r].phase;
      To(w, r, Granted(p.readAt, identity, session)).(
        log := w.log + [Grant(w.reqs[r].token, session, identity, p.readAt, p.askedAt, w.clock)])
    case AnswerNo(r) => To(w, r, Refused)
    case GiveUp(r) => To(w, r, Finished)
    case DropRefused(r) => To(w, r, Finished).(s := RemoveIdentity(w.s, hash(w.reqs[r].token)))
    case Carry(r) =>
      var p := w.reqs[r].phase;
      To(w, r, Carrying(p.readAt, p.identity, p.session, Carried(w.s, hash(w.reqs[r].token))))
    case StoreEntry(r) =>
      var token, p := w.reqs[r].token, w.reqs[r].phase;
      To(w, r, if Rotates(token, p.session) then Moving(p.readAt, p.identity, p.session, p.csrf) else Finished).(
        s := SetIdentity(w.s, hash(token), token, p.identity.id,
                         NewEntry(p.identity, token, cfg, p.readAt, p.csrf)))
    case MoveEntry(r) =>
      var token, p := w.reqs[r].token, w.reqs[r].phase;
      To(w, r, Retiring).(
        s := SetIdentity(w.s, hash(p.session), p.session, p.identity.id,
                         NewEntry(p.identity, p.session, cfg, p.readAt, p.csrf)),
        log := w.log + [Moved(hash(token), hash(p.session))])
    case Retire(r) => To(w, r, Finished).(s := RemoveIdentity(w.s, hash(w.reqs[r].token)))
    case TouchEntry(h, now) => w.(s := Touch(w.s, h, now))
    case IssueCsrf(token, value) =>
      var h := hash(token);
      if token == "" || h !in w.s.cache then w
      else w.(s := SetCsrf(w.s, cfg, h, value, w.clock), log := w.log + [Issue(h, value, w.clock)])
    case AddAnonymous(token, now) => w.(s := CreateAnonymous(w.s, cfg, hash, token, now))
    case Destroy(token) => if token == "" then w else w.(s := RemoveIdentity(w.s, hash(token)))
    case EvictExpired(now) => w.(s := Evict(w.s, cfg, now))
  }

  ghost predicate IsRun(cfg: Config, hash: string -> string, w: World, steps: seq<Step>)
    decreases |steps|
  {
    steps == [] || (InPhase(w, steps[0]) && IsRun(cfg, hash, Next(cfg, hash, w, steps[0]), steps[1..]))
  }

  function After(cfg: Config, hash: string -> string, w: World, steps: seq<Step>): World
    requires IsRun(cfg, hash, w, steps)
    decreases |steps|
  {
    if steps == [] then w else After(cfg, hash, Next(cfg, hash, w, steps[0]), steps[1..])
  }

  lemma {:induction false} RunSnoc(cfg: Config, hash: string -> string, w: World, steps: seq<Step>, step: Step)
    requires IsRun(cfg, hash, w, steps) && InPhase(After(cfg, hash, w, steps), step)
    ensures IsRun(cfg, hash, w, steps + [step])
    ensures After(cfg, hash, w, steps + [step]) == Next(cfg, hash, After(cfg, hash, w, steps), step)
    decreases |steps|
  {
    if steps == [] {
      assert [] + [step] == [step] && [step][1..] == [];
    } else {
      assert (steps + [step])[0] == steps[0] && (steps + [step])[1..] == steps[1..] + [step];
      RunSnoc(cfg, hash, Next(cfg, hash, w, steps[0]), steps[1..], step);
    }
  }

  function Start(clock: int): World {
    World(clock, EMPTY, [], [])
  }

  /// Provenance

  /** An answer vouches for the token it was asked about and for the token it rotates to. */
  predicate Vouches(g: Event, token: string) {
    g.Grant? && (g.token == token || (Rotates(g.token, g.session) && g.session == token))
  }

  ghost predicate Backed(log: seq<Event>, token: string, identity: Identity, readAt: int) {
    exists g :: g in log && Vouches(g, token) && g.identity == identity && g.readAt == readAt
  }

  /** `value` was issued at time `at` for `h`, or for a hash from which moves in the log lead to `h`. */
  predicate OnChain(log: seq<Event>, h: string, value: string, at: int) {
    if log == [] then false
    else
      var last, before := log[|log| - 1], log[..|log| - 1];
      || OnChain(before, h, value, at)
      || last == Issue(h, value, at)
      || (last.Moved? && last.to == h && OnChain(before, last.from, value, at))
  }

  ghost predicate Traced(cfg: Config, log: seq<Event>, h: string, csrf: Option<Csrf>) {
    csrf.Some? ==> OnChain(log, h, csrf.value.value, csrf.value.expiresAt - cfg.csrfMaxAge)
  }

  ghost predicate LogSound(w: World) {
    forall g | g in w.log && g.Grant? :: g.readAt <= g.askedAt <= g.answeredAt <= w.clock
  }

  ghost predicate EntrySound(cfg: Config, log: seq<Event>, h: string, e: Entry) {
    && (match e.identity
        case Some(identity) => Backed(log, e.token, identity, e.validatedAt)
        case None => e.validatedAt == ZERO_TIME)
    && Traced(cfg, log, h, e.csrf)
  }

  ghost predicate WasAnswered(log: seq<Event>, token: string, session: string, identity: Identity, readAt: int) {
    exists g :: g in log && g.Grant? && g.token == token && g.session == session && g.identity == identity
                && g.readAt == readAt
  }

  ghost predicate RequestSound(cfg: Config, hash: string -> string, clock: int, log: seq<Event>, req: Request) {
    match req.phase
    case Started(readAt) => readAt <= clock
    case Asked(readAt, askedAt) => readAt <= askedAt <= clock
    case Granted(readAt, identity, session) =>
      WasAnswered(log, req.token, session, identity, readAt)
    case Carrying(readAt, identity, session, csrf) =>
      && WasAnswered(log, req.token, session, identity, readAt)
      && Traced(cfg, log, hash(req.token), csrf)
    case Moving(readAt, identity, session, csrf) =>
      && WasAnswered(log, req.token, session, identity, readAt)
      && Rotates(req.token, session) && Traced(cfg, log, hash(req.token), csrf)
    case _ => true
  }

  ghost predicate WorldInv(cfg: Config, hash: string -> string, w: World) {
    && Inv(w.s, hash) && LogSound(w)
    && (forall h | h in w.s.cache :: EntrySound(cfg, w.log, h, w.s.cache[h]))
    && (forall i | 0 <= i < |w.reqs| :: RequestSound(cfg, hash, w.clock, w.log, w.reqs[i]))
  }

  /// The record only grows

  lemma OnChainGrows(log: seq<Event>, e: Event, h: string, value: string, at: int)
    requires OnChain(log, h, value, at)
    ensures OnChain(log + [e], h, value, at)
  {
    assert (log + [e])[..|log|] == log;
  }

  lemma TracedGrows(cfg: Config, log: seq<Event>, e: Event, h: string, csrf: Option<Csrf>)
    requires Traced(cfg, log, h, csrf)
    ensures Traced(cfg, log + [e], h, csrf)
  {
    if csrf.Some? {
      OnChainGrows(log, e, h, csrf.value.value, csrf.value.expiresAt - cfg.csrfMaxAge);
    }
  }

  lemma EntryGrows(cfg: Config, log: seq<Event>, e: Event, h: string, entry: Entry)
    requires EntrySound(cfg, log, h, entry)
    ensures EntrySound(cfg, log + [e], h, entry)
  {
    TracedGrows(cfg, log, e, h, entry.csrf);
    if entry.identity.Some? {
      var g :| g in log && Vouches(g, entry.token) && g.identity == entry.identity.value && g.readAt == entry.validatedAt;
      assert g in log + [e];
    }
  }

  lemma RequestGrows(cfg: Config, hash: string -> string, clock: int, log: seq<Event>, e: Event, req: Request)
    requires RequestSound(cfg, hash, clock, log, req)
    ensures RequestSound(cfg, hash, clock, log + [e], req)
  {
    var p := req.phase;
    if p.Granted? || p.Carrying? || p.Moving? {
      var g :| g in log && g.Grant? && g.token == req.token && g.session == p.session && g.identity == p.identity
               && g.readAt == p.readAt;
      assert g in log + [e];
    }
    if p.Carrying? || p.Moving? {
      TracedGrows(cfg, log, e, hash(req.token), p.csrf);
    }
  }

  /** Writing one more event that is itself in order. */
  lemma LogGrows(cfg: Config, hash: string -> string, w: World, e: Event)
    requires WorldInv(cfg, hash, w) && (e.Grant? ==> e.readAt <= e.askedAt <= e.answeredAt <= w.clock)
    ensures WorldInv(cfg, hash, w.(log := w.log + [e]))
  {
    forall h | h in w.s.cache ensures EntrySound(cfg, w.log + [e], h, w.s.cache[h]) {
      EntryGrows(cfg, w.log, e, h, w.s.cache[h]);
    }
    forall i | 0 <= i < |w.reqs| ensures RequestSound(cfg, hash, w.clock, w.log + [e], w.reqs[i]) {
      RequestGrows(cfg, hash, w.clock, w.log, e, w.reqs[i]);
    }
  }

  /// Each kind of change keeps the invariant

  lemma PhaseChange(cfg: Config, hash: string -> string, w: World, r: nat, phase: Phase)
    requires WorldInv(cfg, hash, w) && r < |w.reqs|
    requires RequestSound(cfg, hash, w.clock, w.log, w.reqs[r].(phase := phase))
    ensures WorldInv(cfg, hash, To(w, r, phase))
  {
  }

  lemma RemoveEntry(cfg: Config, hash: string -> string, w: World, h: string)
    requires WorldInv(cfg, hash, w)
    ensures WorldInv(cfg, hash, w.(s := RemoveIdentity(w.s, h)))
  {
    RemoveKeepsInv(w.s, hash, h);
  }

  lemma SetEntry(cfg: Config, hash: string -> string, w: World, h: string, token: string, userID: Int64, e: Entry)
    requires WorldInv(cfg, hash, w) && Legal(hash, h, token, userID, e)
    requires EntrySound(cfg, w.log, h, e.(token := token))
    ensures WorldInv(cfg, hash, w.(s := SetIdentity(w.s, h, token, userID, e)))
  {
    SetKeepsInv(w.s, hash, h, token, userID, e);
  }

  lemma AnswerKeepsInv(cfg: Config, hash: string -> string, w: World, r: nat, identity: Identity, session: string)
    requires WorldInv(cfg, hash, w) && InPhase(w, AnswerYes(r, identity, session))
    ensures WorldInv(cfg, hash, Next(cfg, hash, w, AnswerYes(r, identity, session)))
  {
    var p := w.reqs[r].phase;
    var g := Grant(w.reqs[r].token, session, identity, p.readAt, p.askedAt, w.clock);
    assert RequestSound(cfg, hash, w.clock, w.log, w.reqs[r]);
    LogGrows(cfg, hash, w, g);
    assert g in w.log + [g];
    PhaseChange(cfg, hash, w.(log := w.log + [g]), r, Granted(p.readAt, identity, session));
  }

  lemma CarryKeepsInv(cfg: Config, hash: string -> string, w: World, r: nat)
    requires WorldInv(cfg, hash, w) && InPhase(w, Carry(r))
    ensures WorldInv(cfg, hash, Next(cfg, hash, w, Carry(r)))
  {
    var p, h := w.reqs[r].phase, hash(w.reqs[r].token);
    assert RequestSound(cfg, hash, w.clock, w.log, w.reqs[r]);
    assert h in w.s.cache ==> EntrySound(cfg, w.log, h, w.s.cache[h]);
    PhaseChange(cfg, hash, w, r, Carrying(p.readAt, p.identity, p.session, Carried(w.s, h)));
  }

  lemma StoreKeepsWorld(cfg: Config, hash: string -> string, w: World, r: nat)
    requires WorldInv(cfg, hash, w) && InPhase(w, StoreEntry(r))
    ensures WorldInv(cfg, hash, Next(cfg, hash, w, StoreEntry(r)))
  {
    var token, p := w.reqs[r].token, w.reqs[r].phase;
    assert RequestSound(cfg, hash, w.clock, w.log, w.reqs[r]);
    var g :| g in w.log && g.Grant? && g.token == token && g.session == p.session && g.identity == p.identity
             && g.readAt == p.readAt;
    assert Vouches(g, token);
    var next := if Rotates(token, p.session) then Moving(p.readAt, p.identity, p.session, p.csrf) else Finished;
    PhaseChange(cfg, hash, w, r, next);
    SetEntry(cfg, hash, To(w, r, next), hash(token), token, p.identity.id, NewEntry(p.identity, token, cfg, p.readAt, p.csrf));
  }

  lemma MoveKeepsWorld(cfg: Config, hash: string -> string, w: World, r: nat)
    requires WorldInv(cfg, hash, w) && InPhase(w, MoveEntry(r))
    ensures WorldInv(cfg, hash, Next(cfg, hash, w, MoveEntry(r)))
  {
    var token, p := w.reqs[r].token, w.reqs[r].phase;
    assert RequestSound(cfg, hash, w.clock, w.log, w.reqs[r]);
    var g :| g in w.log && g.Grant? && g.token == token && g.session == p.session && g.identity == p.identity
             && g.readAt == p.readAt;
    var moved := Moved(hash(token), hash(p.session));
    LogGrows(cfg, hash, w, moved);
    var v := w.(log := w.log + [moved]);
    assert g in v.log && Vouches(g, p.session);
    assert v.log[..|v.log| - 1] == w.log;
    PhaseChange(cfg, hash, v, r, Retiring);
    SetEntry(cfg, hash, To(v, r, Retiring), hash(p.session), p.session, p.identity.id,
             NewEntry(p.identity, p.session, cfg, p.readAt, p.csrf));
  }

  lemma IssueKeepsInv(cfg: Config, hash: string -> string, w: World, token: string, value: string)
    requires WorldInv(cfg, hash, w)
    ensures WorldInv(cfg, hash, Next(cfg, hash, w, IssueCsrf(token, value)))
  {
    var h := hash(token);
    if token != "" && h in w.s.cache {
      var e := Issue(h, value, w.clock);
      LogGrows(cfg, hash, w, e);
      SetCsrfKeepsInv(w.s, hash, cfg, h, value, w.clock);
      assert (w.log + [e])[..|w.log|] == w.log;
      assert EntrySound(cfg, w.log + [e], h, w.s.cache[h]);
    }
  }

  lemma TickKeepsInv(cfg: Config, hash: string -> string, w: World, delta: nat)
    requires WorldInv(cfg, hash, w)
    ensures WorldInv(cfg, hash, w.(clock := w.clock + delta))
  {
    forall i | 0 <= i < |w.reqs| ensures RequestSound(cfg, hash, w.clock + delta, w.log, w.reqs[i]) {
      assert RequestSound(cfg, hash, w.clock, w.log, w.reqs[i]);
    }
  }

  lemma BeginKeepsInv(cfg: Config, hash: string -> string, w: World, token: string)
    requires WorldInv(cfg, hash, w)
    ensures WorldInv(cfg, hash, Next(cfg, hash, w, Begin(token)))
  {
  }

  lemma TouchKeepsWorld(cfg: Config, hash: string -> string, w: World, h: string, now: int)
    requires WorldInv(cfg, hash, w)
    ensures WorldInv(cfg, hash, w.(s := Touch(w.s, h, now)))
  {
    TouchKeepsInv(w.s, hash, h, now);
    assert h in w.s.cache ==> EntrySound(cfg, w.log, h, w.s.cache[h]);
  }

  lemma EvictKeepsWorld(cfg: Config, hash: string -> string, w: World, now: int)
    requires WorldInv(cfg, hash, w)
    ensures WorldInv(cfg, hash, w.(s := Evict(w.s, cfg, now)))
  {
    EvictKeepsInv(w.s, hash, cfg, now);
  }

  lemma AnonymousKeepsWorld(cfg: Config, hash: string -> string, w: World, token: string, now: int)
    requires WorldInv(cfg, hash, w)
    ensures WorldInv(cfg, hash, w.(s := CreateAnonymous(w.s, cfg, hash, token, now)))
  {
    SetEntry(cfg, hash, w, hash(token), token, 0, Entry(None, token, ZERO_TIME, now, now + cfg.maxAge, None));
  }

  lemma NextKeepsInv(cfg: Config, hash: string -> string, w: World, step: Step)
    requires WorldInv(cfg, hash, w) && InPhase(w, step)
    ensures WorldInv(cfg, hash, Next(cfg, hash, w, step))
  {
    match step
    case Tick(delta) => TickKeepsInv(cfg, hash, w, delta);
    case Begin(token) => BeginKeepsInv(cfg, hash, w, token);
    case Ask(r) =>
      assert RequestSound(cfg, hash, w.clock, w.log, w.reqs[r]);
      PhaseChange(cfg, hash, w, r, Asked(w.reqs[r].phase.readAt, w.clock));
    case AnswerYes(r, identity, session) => AnswerKeepsInv(cfg, hash, w, r, identity, session);
    case AnswerNo(r) => PhaseChange(cfg, hash, w, r, Refused);
    case GiveUp(r) => PhaseChange(cfg, hash, w, r, Finished);
    case DropRefused(r) =>
      RemoveEntry(cfg, hash, w, hash(w.reqs[r].token));
      PhaseChange(cfg, hash, w.(s := RemoveIdentity(w.s, hash(w.reqs[r].token))), r, Finished);
    case Carry(r) => CarryKeepsInv(cfg, hash, w, r);
    case StoreEntry(r) => StoreKeepsWorld(cfg, hash, w, r);
    case MoveEntry(r) => MoveKeepsWorld(cfg, hash, w, r);
    case Retire(r) =>
      RemoveEntry(cfg, hash, w, hash(w.reqs[r].token));
      PhaseChange(cfg, hash, w.(s := RemoveIdentity(w.s, hash(w.reqs[r].token))), r, Finished);
    case IssueCsrf(token, value) => IssueKeepsInv(cfg, hash, w, token, value);
    case Destroy(token) => RemoveEntry(cfg, hash, w, hash(token));
    case TouchEntry(h, now) => TouchKeepsWorld(cfg, hash, w, h, now);
    case AddAnonymous(token, now) => AnonymousKeepsWorld(cfg, hash, w, token, now);
    case EvictExpired(now) => EvictKeepsWorld(cfg, hash, w, now);
  }

  lemma {:induction false} RunKeepsInv(cfg: Config, hash: string -> string, w: World, steps: seq<Step>)
    requires WorldInv(cfg, hash, w) && IsRun(cfg, hash, w, steps)
    ensures WorldInv(cfg, hash, After(cfg, hash, w, steps))
    decreases |steps|
  {
    if steps != [] {
      NextKeepsInv(cfg, hash, w, steps[0]);
      RunKeepsInv(cfg, hash, Next(cfg, hash, w, steps[0]), steps[1..]);
    }
  }

  /// Which entries a step writes and removes

  /** The entry that a step writes: where it is filed, its token, and its user. */
  function Written(hash: string -> string, w: World, step: Step): Option<(string, string, Int64)>
    requires InPhase(w, step)
  {
    match step
    case StoreEntry(r) => Some((hash(w.reqs[r].token), w.reqs[r].token, w.reqs[r].phase.identity.id))
    case MoveEntry(r) =>
      var p := w.reqs[r].phase;
      Some((hash(p.session), p.session, p.identity.id))
    case AddAnonymous(token, _) => Some((hash(token), token, 0))
    case _ => None
  }

  predicate Writes(hash: string -> string, w: World, step: Step, h: string)
    requires InPhase(w, step)
  {
    Written(hash, w, step).Some? && Written(hash, w, step).value.0 == h
  }

  predicate Removes(cfg: Config, hash: string -> string, w: World, step: Step, h: string)
    requires InPhase(w, step)
  {
    match step
    case DropRefused(r) => hash(w.reqs[r].token) == h
    case Retire(r) => hash(w.reqs[r].token) == h
    case Destroy(token) => token != "" && hash(token) == h
    case EvictExpired(now) => h in w.s.cache && Due(w.s.cache[h], cfg, now)
    case _ => false
  }

  /** A session is known after a step if the step writes its entry, or if it was known and is not removed. */
  lemma KnownIff(cfg: Config, hash: string -> string, w: World, step: Step, h: string)
    requires InPhase(w, step)
    ensures h in Next(cfg, hash, w, step).s.cache <==>
            Writes(hash, w, step, h) || (h in w.s.cache && !Removes(cfg, hash, w, step, h))
  {
  }

  /** The same for being listed as a session of a user. */
  lemma OwnsIff(cfg: Config, hash: string -> string, w: World, step: Step, userID: Int64, t: string)
    requires InPhase(w, step) && userID != 0
    ensures Owns(Next(cfg, hash, w, step).s, hash, userID, t) <==>
            Written(hash, w, step) == Some((hash(t), t, userID))
            || (Owns(w.s, hash, userID, t) && !Removes(cfg, hash, w, step, hash(t)) && !Writes(hash, w, step, hash(t)))
  {
  }

  lemma {:induction false} RunPrefix(cfg: Config, hash: string -> string, w: World, steps: seq<Step>, k: nat)
    requires IsRun(cfg, hash, w, steps) && k < |steps|
    ensures IsRun(cfg, hash, w, steps[..k]) && InPhase(After(cfg, hash, w, steps[..k]), steps[k])
    ensures IsRun(cfg, hash, w, steps[..k + 1])
    ensures After(cfg, hash, w, steps[..k + 1]) == Next(cfg, hash, After(cfg, hash, w, steps[..k]), steps[k])
    decreases k
  {
    if k > 0 {
      RunPrefix(cfg, hash, Next(cfg, hash, w, steps[0]), steps[1..], k - 1);
      assert steps[..k][1..] == steps[1..][..k - 1] && steps[..k + 1][1..] == steps[1..][..k];
    } else {
      assert steps[..1][1..] == [];
    }
  }

  ghost function WritesAt(cfg: Config, hash: string -> string, w: World, steps: seq<Step>, h: string): nat -> bool {
    (k: nat) => k < |steps| && IsRun(cfg, hash, w, steps[..k]) && InPhase(After(cfg, hash, w, steps[..k]), steps[k])
         && Writes(hash, After(cfg, hash, w, steps[..k]), steps[k], h)
  }

  ghost function RemovesAt(cfg: Config, hash: string -> string, w: World, steps: seq<Step>, h: string): nat -> bool {
    (k: nat) => k < |steps| && IsRun(cfg, hash, w, steps[..k]) && InPhase(After(cfg, hash, w, steps[..k]), steps[k])
         && Removes(cfg, hash, After(cfg, hash, w, steps[..k]), steps[k], h)
  }

  ghost function KnownAt(cfg: Config, hash: string -> string, w: World, steps: seq<Step>, h: string): nat -> bool {
    (k: nat) => k <= |steps| && IsRun(cfg, hash, w, steps[..k]) && h in After(cfg, hash, w, steps[..k]).s.cache
  }

  /**
   A session is known after a run if and only if it was known before or was written, and whatever removed it, be
   it a refusal, a rotation away from it, a logout or an eviction, was followed by a step that wrote it again.
   */
  lemma KnownLaterIff(cfg: Config, hash: string -> string, w: World, steps: seq<Step>, h: string)
    requires IsRun(cfg, hash, w, steps)
    ensures h in After(cfg, hash, w, steps).s.cache <==>
            LastWord(h in w.s.cache, WritesAt(cfg, hash, w, steps, h), RemovesAt(cfg, hash, w, steps, h), 0, |steps|)
  {
    var known := KnownAt(cfg, hash, w, steps, h);
    var up, down := WritesAt(cfg, hash, w, steps, h), RemovesAt(cfg, hash, w, steps, h);
    forall k | 0 <= k < |steps|
      ensures !(up(k) && down(k)) && (known(k + 1) <==> up(k) || (known(k) && !down(k)))
    {
      RunPrefix(cfg, hash, w, steps, k);
      KnownIff(cfg, hash, After(cfg, hash, w, steps[..k]), steps[k], h);
    }
    assert steps[..|steps|] == steps && steps[..0] == [];
    assert known(0) <==> h in w.s.cache;
    StepsDecide(known, up, down, 0, |steps|);
  }

  /// Undisturbed validations

  function Asking(token: string, identity: Identity, session: string, r: nat): seq<Step> {
    [Begin(token), Ask(r), AnswerYes(r, identity, session), Carry(r)]
  }

  /** A validation up to the copy of the CSRF token. */
  lemma AskedAndCarried(cfg: Config, hash: string -> string, w: World, token: string, identity: Identity,
                        session: string)
      returns (steps: seq<Step>)
    ensures steps == Asking(token, identity, session, |w.reqs|) && IsRun(cfg, hash, w, steps)
    ensures var v := After(cfg, hash, w, steps);
            && v.s == w.s && v.clock == w.clock
            && v.reqs == w.reqs + [Request(token, Carrying(w.clock, identity, session, Carried(w.s, hash(token))))]
  {
    var r := |w.reqs|;
    steps := [];
    RunSnoc(cfg, hash, w, steps, Begin(token));
    steps := steps + [Begin(token)];
    RunSnoc(cfg, hash, w, steps, Ask(r));
    steps := steps + [Ask(r)];
    RunSnoc(cfg, hash, w, steps, AnswerYes(r, identity, session));
    steps := steps + [AnswerYes(r, identity, session)];
    RunSnoc(cfg, hash, w, steps, Carry(r));
    steps := steps + [Carry(r)];
  }

  /** When nothing interleaves, a positive validation with its rotation does what `Store` says. */
  lemma UndisturbedIsStore(cfg: Config, hash: string -> string, w: World, token: string, identity: Identity,
                           session: string)
      returns (steps: seq<Step>)
    ensures IsRun(cfg, hash, w, steps) && After(cfg, hash, w, steps).clock == w.clock
    ensures After(cfg, hash, w, steps).s == Store(w.s, cfg, hash, token, w.clock, identity, session)
  {
    var r := |w.reqs|;
    steps := AskedAndCarried(cfg, hash, w, token, identity, session);
    RunSnoc(cfg, hash, w, steps, StoreEntry(r));
    steps := steps + [StoreEntry(r)];
    if Rotates(token, session) {
      RunSnoc(cfg, hash, w, steps, MoveEntry(r));
      steps := steps + [MoveEntry(r)];
      RunSnoc(cfg, hash, w, steps, Retire(r));
      steps := steps + [Retire(r)];
    }
  }

  /// Bounded staleness

  /**
   Whatever interleaves, a cache hit at time `t` rests on a positive answer for that very token, or for the
   token it was rotated from, with the same identity, requested less than the cache lifetime before `t`.
   */
  lemma HitIsBacked(cfg: Config, hash: string -> string, clock: int, steps: seq<Step>, h: string, t: int)
    requires ValidConfig(cfg) && IsRun(cfg, hash, Start(clock), steps)
    requires Hit(After(cfg, hash, Start(clock), steps).s, cfg, h, t) && t >= 0
    ensures var w := After(cfg, hash, Start(clock), steps);
            && hash(w.s.cache[h].token) == h
            && exists g :: g in w.log && Vouches(g, w.s.cache[h].token) && w.s.cache[h].identity == Some(g.identity)
                           && t - g.askedAt < cfg.identityTTL && g.askedAt <= g.answeredAt <= w.clock
  {
    RunKeepsInv(cfg, hash, Start(clock), steps);
    var w := After(cfg, hash, Start(clock), steps);
    var e := w.s.cache[h];
    assert EntrySound(cfg, w.log, h, e);
    if e.identity.None? {
      AnonymousNeverHits(e, cfg, t);
    } else {
      var g :| g in w.log && Vouches(g, e.token) && g.identity == e.identity.value && g.readAt == e.validatedAt;
      assert t - g.askedAt <= t - e.validatedAt < cfg.identityTTL;
    }
  }

  /**
   Revocation: once auth_app grants a token nothing more from `revoked` on, no check of the entry for that token
   succeeds at or after `revoked` plus the cache lifetime, even if a slow older validation writes its answer
   after a newer one was refused.
   */
  lemma RevokedStopsHitting(cfg: Config, hash: string -> string, clock: int, steps: seq<Step>, h: string,
                            revoked: int, t: int)
    requires ValidConfig(cfg) && IsRun(cfg, hash, Start(clock), steps) && t >= 0
    requires var w := After(cfg, hash, Start(clock), steps);
             h in w.s.cache ==> forall g | g in w.log && Vouches(g, w.s.cache[h].token) :: g.answeredAt < revoked
    requires t >= revoked + cfg.identityTTL
    ensures !Hit(After(cfg, hash, Start(clock), steps).s, cfg, h, t)
  {
    if Hit(After(cfg, hash, Start(clock), steps).s, cfg, h, t) {
      HitIsBacked(cfg, hash, clock, steps, h, t);
    }
  }

  /** At every release of the lock the user index is exactly the one the cache determines. */
  lemma IndexAlwaysExact(cfg: Config, hash: string -> string, clock: int, steps: seq<Step>)
    requires IsRun(cfg, hash, Start(clock), steps)
    ensures var s := After(cfg, hash, Start(clock), steps).s; s.sessions == Reindexed(s.cache)
  {
    RunKeepsInv(cfg, hash, Start(clock), steps);
    IndexIsDetermined(After(cfg, hash, Start(clock), steps).s, hash);
  }

  /// CSRF lineage

  /** What is on a chain was issued, under that value and at that time. */
  lemma {:induction false} OnChainWasIssued(log: seq<Event>, h: string, value: string, at: int)
    requires OnChain(log, h, value, at)
    ensures exists from :: Issue(from, value, at) in log
    decreases |log|
  {
    var last, before := log[|log| - 1], log[..|log| - 1];
    if last == Issue(h, value, at) {
      assert Issue(h, value, at) in log;
    } else {
      var from := if OnChain(before, h, value, at) then h else last.from;
      OnChainWasIssued(before, from, value, at);
      var x :| Issue(x, value, at) in before;
      assert Issue(x, value, at) in log;
    }
  }

  /**
   Under any interleaving, a CSRF value accepted at time `t` was issued for that session or for one it was
   rotated from, at most the CSRF lifetime earlier.
   */
  lemma AcceptedWasIssued(cfg: Config, hash: string -> string, clock: int, steps: seq<Step>, h: string,
                          value: string, t: int)
    requires IsRun(cfg, hash, Start(clock), steps)
    requires Accepts(After(cfg, hash, Start(clock), steps).s, h, value, t)
    ensures exists at :: OnChain(After(cfg, hash, Start(clock), steps).log, h, value, at) && t - at <= cfg.csrfMaxAge
  {
    RunKeepsInv(cfg, hash, Start(clock), steps);
    var w := After(cfg, hash, Start(clock), steps);
    var c := w.s.cache[h].csrf.value;
    assert EntrySound(cfg, w.log, h, w.s.cache[h]);
    assert OnChain(w.log, h, value, c.expiresAt - cfg.csrfMaxAge);
  }
}
