/**
 The role cache under concurrency: reading the clock, the provider's answer and the cache write are separate
 steps, and invalidations fall in between.
 */
module RoleCache {
  import opened Text
  import opened SessionModel
  import Requests = SessionRequests

  datatype Phase =
    | Started(readAt: int)
    | Asked(readAt: int, askedAt: int)
    | Supplied(readAt: int, roles: seq<string>)
    | Finished

  datatype Request = Request(userID: Int64, phase: Phase)

  /** An answer of the local role provider. */
  datatype Answer = Answer(userID: Int64, roles: seq<string>, readAt: int, askedAt: int, answeredAt: int)

  /** `writers` records, beside the source's state, which request stored each entry. */
  datatype World = World(clock: int, roles: map<Int64, RoleEntry>, writers: map<Int64, nat>, reqs: seq<Request>,
                         log: seq<Answer>)

  datatype Step =
    | Tick(delta: nat)
    | Begin(userID: Int64)
    | Ask(r: nat)
    | Supply(r: nat, roles: seq<string>)
    | Fail(r: nat)
    | Store(r: nat)
    | Invalidate(userID: Int64)
    | InvalidateAll
    | Sweep(now: int)

  predicate InPhase(w: World, step: Step) {
    match step
    case Ask(r) => r < |w.reqs| && w.reqs[r].phase.Started?
    case Supply(r, _) => r < |w.reqs| && w.reqs[r].phase.Asked?
    case Fail(r) => r < |w.reqs| && w.reqs[r].phase.Asked?
    case Store(r) => r < |w.reqs| && w.reqs[r].phase.Supplied?
    case _ => true
  }

  function To(w: World, r: nat, phase: Phase): World
    requires r < |w.reqs|
  {
    w.(reqs := w.reqs[r := w.reqs[r].(phase := phase)])
  }

  function Next(cfg: Config, w: World, step: Step): World
    requires InPhase(w, step)
  {
    match step
    case Tick(delta) => w.(clock := w.clock + delta)
    case Begin(userID) => w.(reqs := w.reqs + [Request(userID, Started(w.clock))])
    case Ask(r) => To(w, r, Asked(w.reqs[r].phase.readAt, w.clock))
    case Supply(r, roles) =>
      var p := w.reqs[r].phase;
      To(w, r, Phase.Supplied(p.readAt, roles)).(
        log := w.log + [Answer(w.reqs[r].userID, roles, p.readAt, p.askedAt, w.clock)])
    case Fail(r) => To(w, r, Finished)
    case Store(r) =>
      var p := w.reqs[r].phase;
      var u := w.reqs[r].userID;
      To(w, r, Finished).(roles := w.roles[u := RoleEntry(p.roles, p.readAt + cfg.roleTTL)],
                         writers := w.writers[u := r])
    case Invalidate(userID) => w.(roles := w.roles - {userID})
    case InvalidateAll => w.(roles := map[])
    case Sweep(now) => w.(roles := CurrentRoles(w.roles, now))
  }

  ghost predicate IsRun(cfg: Config, w: World, steps: seq<Step>)
    decreases |steps|
  {
    steps == [] || (InPhase(w, steps[0]) && IsRun(cfg, Next(cfg, w, steps[0]), steps[1..]))
  }

  function After(cfg: Config, w: World, steps: seq<Step>): World
    requires IsRun(cfg, w, steps)
    decreases |steps|
  {
    if steps == [] then w else After(cfg, Next(cfg, w, steps[0]), steps[1..])
  }

  function Start(clock: int): World {
    World(clock, map[], map[], [], [])
  }

  ghost predicate Backed(log: seq<Answer>, userID: Int64, roles: seq<string>, readAt: int) {
    exists a :: a in log && a.userID == userID && a.roles == roles && a.readAt == readAt
  }

  ghost predicate RequestSound(w: World, req: Request) {
    match req.phase
    case Started(readAt) => readAt <= w.clock
    case Asked(readAt, askedAt) => readAt <= askedAt <= w.clock
    case Supplied(readAt, roles) => Backed(w.log, req.userID, roles, readAt)
    case Finished => true
  }

  ghost predicate Inv(cfg: Config, w: World) {
    && (forall a | a in w.log :: a.readAt <= a.askedAt <= a.answeredAt <= w.clock)
    && (forall u | u in w.roles :: Backed(w.log, u, w.roles[u].roles, w.roles[u].expiresAt - cfg.roleTTL))
    && (forall i | 0 <= i < |w.reqs| :: RequestSound(w, w.reqs[i]))
  }

  lemma BackedGrows(log: seq<Answer>, a: Answer, userID: Int64, roles: seq<string>, readAt: int)
    requires Backed(log, userID, roles, readAt)
    ensures Backed(log + [a], userID, roles, readAt)
  {
    var b :| b in log && b.userID == userID && b.roles == roles && b.readAt == readAt;
    assert b in log + [a];
  }

  lemma SupplyKeepsInv(cfg: Config, w: World, r: nat, roles: seq<string>)
    requires Inv(cfg, w) && InPhase(w, Supply(r, roles))
    ensures Inv(cfg, Next(cfg, w, Supply(r, roles)))
  {
    var v, p := Next(cfg, w, Supply(r, roles)), w.reqs[r].phase;
    assert RequestSound(w, w.reqs[r]);
    var a := Answer(w.reqs[r].userID, roles, p.readAt, p.askedAt, w.clock);
    assert a in v.log;
    forall u | u in v.roles ensures Backed(v.log, u, v.roles[u].roles, v.roles[u].expiresAt - cfg.roleTTL) {
      BackedGrows(w.log, a, u, w.roles[u].roles, w.roles[u].expiresAt - cfg.roleTTL);
    }
    forall i | 0 <= i < |v.reqs| ensures RequestSound(v, v.reqs[i]) {
      assert RequestSound(w, w.reqs[i]);
      if i != r && w.reqs[i].phase.Supplied? {
        BackedGrows(w.log, a, w.reqs[i].userID, w.reqs[i].phase.roles, w.reqs[i].phase.readAt);
      }
    }
  }

  lemma NextKeepsInv(cfg: Config, w: World, step: Step)
    requires Inv(cfg, w) && InPhase(w, step)
    ensures Inv(cfg, Next(cfg, w, step))
  {
    if step.Supply? {
      SupplyKeepsInv(cfg, w, step.r, step.roles);
    } else {
      var v := Next(cfg, w, step);
      forall i | 0 <= i < |v.reqs| ensures RequestSound(v, v.reqs[i]) {
        assert i < |w.reqs| ==> RequestSound(w, w.reqs[i]);
      }
    }
  }

  lemma {:induction false} RunKeepsInv(cfg: Config, w: World, steps: seq<Step>)
    requires Inv(cfg, w) && IsRun(cfg, w, steps)
    ensures Inv(cfg, After(cfg, w, steps))
    decreases |steps|
  {
    if steps != [] {
      NextKeepsInv(cfg, w, steps[0]);
      RunKeepsInv(cfg, Next(cfg, w, steps[0]), steps[1..]);
    }
  }

  /** Roles served from the cache at time `t` were supplied for that user, on a request less than the lifetime old. */
  lemma RoleHitIsBacked(cfg: Config, clock: int, steps: seq<Step>, userID: Int64, t: int)
    requires IsRun(cfg, Start(clock), steps)
    requires var w := After(cfg, Start(clock), steps); userID in w.roles && t < w.roles[userID].expiresAt
    ensures var w := After(cfg, Start(clock), steps);
            exists a :: a in w.log && a.userID == userID && a.roles == w.roles[userID].roles
                         && t - a.askedAt < cfg.roleTTL
  {
    RunKeepsInv(cfg, Start(clock), steps);
    var w := After(cfg, Start(clock), steps);
    var e := w.roles[userID];
    var a :| a in w.log && a.userID == userID && a.roles == e.roles && a.readAt == e.expiresAt - cfg.roleTTL;
    assert t - a.askedAt <= t - a.readAt < cfg.roleTTL;
  }

  /// When an invalidation holds

  lemma {:induction false} RunSnoc(cfg: Config, w: World, steps: seq<Step>, step: Step)
    requires IsRun(cfg, w, steps) && InPhase(After(cfg, w, steps), step)
    ensures IsRun(cfg, w, steps + [step])
    ensures After(cfg, w, steps + [step]) == Next(cfg, After(cfg, w, steps), step)
    decreases |steps|
  {
    if steps == [] {
      assert [] + [step] == [step] && [step][1..] == [];
    } else {
      assert (steps + [step])[0] == steps[0] && (steps + [step])[1..] == steps[1..] + [step];
      RunSnoc(cfg, Next(cfg, w, steps[0]), steps[1..], step);
    }
  }

  /** A resolution for the user was asked and has not finished. */
  predicate InFlight(w: World, userID: Int64) {
    exists r :: 0 <= r < |w.reqs| && Pending(w, r, userID)
  }

  predicate Pending(w: World, r: nat, userID: Int64) {
    r < |w.reqs| && w.reqs[r].userID == userID && (w.reqs[r].phase.Asked? || w.reqs[r].phase.Supplied?)
  }

  /** After every run, roles of the user in the cache come from a request that was asked during the run. */
  ghost predicate OnlyNewAnswers(cfg: Config, v: World, userID: Int64) {
    forall steps | IsRun(cfg, v, steps) :: WrittenBy(After(cfg, v, steps), userID, steps)
  }

  ghost predicate WrittenBy(w: World, userID: Int64, asked: seq<Step>) {
    userID in w.roles ==> userID in w.writers && Ask(w.writers[userID]) in asked
  }

  ghost predicate AllAskedIn(w: World, userID: Int64, asked: seq<Step>) {
    WrittenBy(w, userID, asked) && forall r | 0 <= r < |w.reqs| && Pending(w, r, userID) :: Ask(r) in asked
  }

  lemma StepAsks(cfg: Config, w: World, userID: Int64, asked: seq<Step>, step: Step)
    requires InPhase(w, step) && AllAskedIn(w, userID, asked)
    ensures AllAskedIn(Next(cfg, w, step), userID, asked + [step])
  {
    var v := Next(cfg, w, step);
    forall r | 0 <= r < |v.reqs| && Pending(v, r, userID) ensures Ask(r) in asked + [step] {
      assert step != Ask(r) ==> Pending(w, r, userID);
    }
    if step.Store? && w.reqs[step.r].userID == userID {
      assert Pending(w, step.r, userID);
    }
  }

  lemma {:induction false} RunAsks(cfg: Config, w: World, userID: Int64, asked: seq<Step>, steps: seq<Step>)
    requires IsRun(cfg, w, steps) && AllAskedIn(w, userID, asked)
    ensures AllAskedIn(After(cfg, w, steps), userID, asked + steps)
    decreases |steps|
  {
    if steps == [] {
      assert asked + steps == asked;
    } else {
      StepAsks(cfg, w, userID, asked, steps[0]);
      RunAsks(cfg, Next(cfg, w, steps[0]), userID, asked + [steps[0]], steps[1..]);
      assert asked + [steps[0]] + steps[1..] == asked + steps;
    }
  }

  /** A pending resolution stores an answer that was asked for before. */
  lemma PendingIsStored(cfg: Config, w: World, r: nat, roles: seq<string>) returns (steps: seq<Step>)
    requires r < |w.reqs| && Pending(w, r, w.reqs[r].userID)
    ensures IsRun(cfg, w, steps) && w.reqs[r].userID in After(cfg, w, steps).roles
    ensures After(cfg, w, steps).writers == w.writers[w.reqs[r].userID := r] && Ask(r) !in steps
    ensures w.reqs[r].phase.Asked? ==> After(cfg, w, steps).roles[w.reqs[r].userID].roles == roles
  {
    steps := [];
    if w.reqs[r].phase.Asked? {
      RunSnoc(cfg, w, [], Supply(r, roles));
      steps := [] + [Supply(r, roles)];
    }
    RunSnoc(cfg, w, steps, Store(r));
    steps := steps + [Store(r)];
  }

  /**
   After an invalidation the user's cached roles always stem from a later request to the provider, if and only
   if no resolution for that user was in flight when it happened.
   */
  lemma InvalidationHoldsIff(cfg: Config, w: World, v: World, userID: Int64)
    requires v == Next(cfg, w, Invalidate(userID)) || v == Next(cfg, w, InvalidateAll)
    ensures OnlyNewAnswers(cfg, v, userID) <==> !InFlight(w, userID)
  {
    if InFlight(w, userID) {
      var r :| 0 <= r < |w.reqs| && Pending(w, r, userID);
      var steps := PendingIsStored(cfg, v, r, []);
      assert !WrittenBy(After(cfg, v, steps), userID, steps);
    } else {
      forall steps | IsRun(cfg, v, steps) ensures WrittenBy(After(cfg, v, steps), userID, steps) {
        forall r | 0 <= r < |v.reqs| ensures !Pending(v, r, userID) {
          assert Pending(v, r, userID) == Pending(w, r, userID);
        }
        RunAsks(cfg, v, userID, [], steps);
        assert [] + steps == steps;
      }
    }
  }

  /** From the start: a resolution is asked, the roles are invalidated, and the older answer is cached afterwards. */
  lemma InvalidationCanBeUndone(cfg: Config, clock: int, userID: Int64, roles: seq<string>)
      returns (before: seq<Step>, more: seq<Step>)
    ensures before == [Begin(userID), Ask(0), Invalidate(userID)] && IsRun(cfg, Start(clock), before)
    ensures var v := After(cfg, Start(clock), before);
            && userID !in v.roles && IsRun(cfg, v, more) && Ask(0) !in more
            && userID in After(cfg, v, more).roles && After(cfg, v, more).roles[userID].roles == roles
  {
    var w := Start(clock);
    before := [];
    RunSnoc(cfg, w, before, Begin(userID));
    before := before + [Begin(userID)];
    RunSnoc(cfg, w, before, Ask(0));
    before := before + [Ask(0)];
    RunSnoc(cfg, w, before, Invalidate(userID));
    before := before + [Invalidate(userID)];
    more := PendingIsStored(cfg, After(cfg, w, before), 0, roles);
  }

  /** When nothing interleaves, a resolution stores what `ResolveRoles` says. */
  lemma UndisturbedIsResolve(w: World, c: Requests.Context, s: State, userID: Int64) returns (steps: seq<Step>)
    requires c.provider.Gives? && c.times.roles == w.clock && s.roles == w.roles
    requires !(userID in w.roles && w.clock < w.roles[userID].expiresAt)
    ensures IsRun(c.cfg, w, steps) && After(c.cfg, w, steps).roles == Requests.ResolveRoles(s, c, userID).0.roles
  {
    var r := |w.reqs|;
    steps := [];
    RunSnoc(c.cfg, w, steps, Begin(userID));
    steps := steps + [Begin(userID)];
    RunSnoc(c.cfg, w, steps, Ask(r));
    steps := steps + [Ask(r)];
    RunSnoc(c.cfg, w, steps, Supply(r, c.provider.roles));
    steps := steps + [Supply(r, c.provider.roles)];
    RunSnoc(c.cfg, w, steps, Store(r));
    steps := steps + [Store(r)];
  }
}
