/**
 CSRF tokens under concurrency: exactly when an issued token lasts, and exactly when the accepted token is the
 latest one of its session's chain of rotations.
 */
module CsrfInterleaving {
  import opened Text
  import opened Wrappers
  import opened SessionModel
  import opened SessionRequests
  import opened SessionInterleaving
  import Chain = CsrfChain

  /** Random values are distinct. */
  predicate NewValue(log: seq<Event>, value: string) {
    forall e | e in log && e.Issue? :: e.value != value
  }

  /** What a validation holds was issued before, so it is not a new value. */
  lemma HeldIsOld(cfg: Config, hash: string -> string, w: World, r: nat, value: string)
    requires WorldInv(cfg, hash, w) && NewValue(w.log, value) && r < |w.reqs|
    requires w.reqs[r].phase.Carrying? || w.reqs[r].phase.Moving?
    ensures w.reqs[r].phase.csrf.Some? ==> w.reqs[r].phase.csrf.value.value != value
  {
    var req := w.reqs[r];
    assert RequestSound(cfg, hash, w.clock, w.log, req);
    if req.phase.csrf.Some? {
      var c := req.phase.csrf.value;
      OnChainWasIssued(w.log, hash(req.token), c.value, c.expiresAt - cfg.csrfMaxAge);
    }
  }

  /// Does an issued token last?

  /** A validation that has copied a CSRF token, or its absence, and has yet to write it to the entry `h`. */
  predicate WillWrite(hash: string -> string, req: Request, h: string) {
    match req.phase
    case Carrying(_, _, session, _) => hash(req.token) == h || (Rotates(req.token, session) && hash(session) == h)
    case Moving(_, _, session, _) => hash(session) == h
    case _ => false
  }

  predicate Undisturbed(hash: string -> string, w: World, h: string) {
    forall r | 0 <= r < |w.reqs| :: !WillWrite(hash, w.reqs[r], h)
  }

  /** The step neither issues another token for the entry, nor removes or replaces it, nor starts rotating into it. */
  predicate LeavesEntry(cfg: Config, hash: string -> string, w: World, step: Step, h: string)
    requires InPhase(w, step)
  {
    && !Removes(cfg, hash, w, step, h)
    && (match step
        case IssueCsrf(token, _) => hash(token) != h
        case AddAnonymous(token, _) => hash(token) != h
        case Carry(r) => !(Rotates(w.reqs[r].token, w.reqs[r].phase.session) && hash(w.reqs[r].phase.session) == h)
        case _ => true)
  }

  ghost predicate LeavesEntryThroughout(cfg: Config, hash: string -> string, w: World, steps: seq<Step>, h: string)
    requires IsRun(cfg, hash, w, steps)
    decreases |steps|
  {
    steps == [] || (LeavesEntry(cfg, hash, w, steps[0], h)
                    && LeavesEntryThroughout(cfg, hash, Next(cfg, hash, w, steps[0]), steps[1..], h))
  }

  predicate Has(s: State, h: string, c: Csrf) {
    h in s.cache && s.cache[h].csrf == Some(c)
  }

  /** The token stays in the entry, however the run goes on that leaves the entry alone. */
  ghost predicate Lasts(cfg: Config, hash: string -> string, v: World, h: string, c: Csrf) {
    forall steps | IsRun(cfg, hash, v, steps) && LeavesEntryThroughout(cfg, hash, v, steps, h) ::
      Has(After(cfg, hash, v, steps).s, h, c)
  }

  /** The entry has the token, and every validation that will write to it has copied that very token. */
  ghost predicate Settled(hash: string -> string, w: World, h: string, c: Csrf) {
    && Has(w.s, h, c)
    && forall r | 0 <= r < |w.reqs| && WillWrite(hash, w.reqs[r], h) :: w.reqs[r].phase.csrf == Some(c)
  }

  lemma StepKeepsSettled(cfg: Config, hash: string -> string, w: World, step: Step, h: string, c: Csrf)
    requires InPhase(w, step) && LeavesEntry(cfg, hash, w, step, h) && Settled(hash, w, h, c)
    ensures Settled(hash, Next(cfg, hash, w, step), h, c)
  {
    var v := Next(cfg, hash, w, step);
    forall r | 0 <= r < |v.reqs| && WillWrite(hash, v.reqs[r], h) ensures v.reqs[r].phase.csrf == Some(c) {
      if r < |w.reqs| && !(step.Carry? && step.r == r) {
        assert WillWrite(hash, w.reqs[r], h);
      }
    }
  }

  lemma {:induction false} RunKeepsSettled(cfg: Config, hash: string -> string, w: World, steps: seq<Step>, h: string,
                                           c: Csrf)
    requires IsRun(cfg, hash, w, steps) && LeavesEntryThroughout(cfg, hash, w, steps, h) && Settled(hash, w, h, c)
    ensures Settled(hash, After(cfg, hash, w, steps), h, c)
    decreases |steps|
  {
    if steps != [] {
      StepKeepsSettled(cfg, hash, w, steps[0], h, c);
      RunKeepsSettled(cfg, hash, Next(cfg, hash, w, steps[0]), steps[1..], h, c);
    }
  }

  lemma LeavesSnoc(cfg: Config, hash: string -> string, w: World, steps: seq<Step>, step: Step, h: string)
    requires IsRun(cfg, hash, w, steps) && LeavesEntryThroughout(cfg, hash, w, steps, h)
    requires InPhase(After(cfg, hash, w, steps), step)
    requires LeavesEntry(cfg, hash, After(cfg, hash, w, steps), step, h)
    ensures IsRun(cfg, hash, w, steps + [step]) && LeavesEntryThroughout(cfg, hash, w, steps + [step], h)
    decreases |steps|
  {
    RunSnoc(cfg, hash, w, steps, step);
    if steps == [] {
      assert [] + [step] == [step] && [step][1..] == [];
    } else {
      assert (steps + [step])[0] == steps[0] && (steps + [step])[1..] == steps[1..] + [step];
      LeavesSnoc(cfg, hash, Next(cfg, hash, w, steps[0]), steps[1..], step, h);
    }
  }

  /** One or two steps of a validation that will write to the entry put its own copy there. */
  lemma CopyIsWritten(cfg: Config, hash: string -> string, w: World, r: nat, h: string) returns (steps: seq<Step>)
    requires r < |w.reqs| && WillWrite(hash, w.reqs[r], h)
    ensures IsRun(cfg, hash, w, steps) && LeavesEntryThroughout(cfg, hash, w, steps, h)
    ensures h in After(cfg, hash, w, steps).s.cache
    ensures After(cfg, hash, w, steps).s.cache[h].csrf == w.reqs[r].phase.csrf
  {
    steps := [];
    if w.reqs[r].phase.Carrying? {
      LeavesSnoc(cfg, hash, w, [], StoreEntry(r), h);
      RunSnoc(cfg, hash, w, [], StoreEntry(r));
      steps := [] + [StoreEntry(r)];
      if hash(w.reqs[r].token) == h {
        return;
      }
    }
    LeavesSnoc(cfg, hash, w, steps, MoveEntry(r), h);
    RunSnoc(cfg, hash, w, steps, MoveEntry(r));
    steps := steps + [MoveEntry(r)];
  }

  /**
   A newly issued token stays in its entry through every run that leaves the entry alone, if and only if no
   validation has copied an older token and has yet to write it there, be it to renew the entry or to rotate
   into it.
   */
  lemma IssueLastsIff(cfg: Config, hash: string -> string, w: World, v: World, token: string, value: string)
    requires WorldInv(cfg, hash, w) && NewValue(w.log, value)
    requires token != "" && hash(token) in w.s.cache && v == Next(cfg, hash, w, IssueCsrf(token, value))
    ensures Lasts(cfg, hash, v, hash(token), Csrf(value, w.clock + cfg.csrfMaxAge)) <==>
            Undisturbed(hash, w, hash(token))
  {
    var h, c := hash(token), Csrf(value, w.clock + cfg.csrfMaxAge);
    if Undisturbed(hash, w, h) {
      assert Settled(hash, v, h, c);
      forall steps | IsRun(cfg, hash, v, steps) && LeavesEntryThroughout(cfg, hash, v, steps, h)
        ensures Has(After(cfg, hash, v, steps).s, h, c)
      {
        RunKeepsSettled(cfg, hash, v, steps, h, c);
      }
    } else {
      var r :| 0 <= r < |w.reqs| && WillWrite(hash, w.reqs[r], h);
      HeldIsOld(cfg, hash, w, r, value);
      var steps := CopyIsWritten(cfg, hash, v, r, h);
      assert !Has(After(cfg, hash, v, steps).s, h, c);
    }
  }

  /// Is the accepted token the latest of its chain?

  /** The record of settings and moves, without the validator's answers. */
  function Record(log: seq<Event>): seq<Chain.Event> {
    if log == [] then []
    else
      Record(log[..|log| - 1])
      + (match log[|log| - 1]
         case Issue(h, value, at) => [Chain.Set(h, value, at)]
         case Moved(from, to) => [Chain.Event.Moved(from, to)]
         case Grant(_, _, _, _, _, _) => [])
  }

  function Latest(log: seq<Event>, h: string): Option<(string, int)> {
    Chain.Latest(Record(log), h)
  }

  lemma LatestAppend(log: seq<Event>, e: Event, h: string)
    ensures Latest(log + [e], h) ==
            match e
            case Issue(g, value, at) => if g == h then Some((value, at)) else Latest(log, h)
            case Moved(from, to) => if to == h then Latest(log, from) else Latest(log, h)
            case Grant(_, _, _, _, _, _) => Latest(log, h)
  {
    assert (log + [e])[..|log|] == log;
    match e
    case Issue(g, value, at) => Chain.LatestAppend(Record(log), Chain.Set(g, value, at), h);
    case Moved(from, to) => Chain.LatestAppend(Record(log), Chain.Event.Moved(from, to), h);
    case Grant(_, _, _, _, _, _) => assert Record(log) + [] == Record(log);
  }

  /** The value of a token, and when it was set. */
  function Setting(cfg: Config, c: Csrf): (string, int) {
    (c.value, c.expiresAt - cfg.csrfMaxAge)
  }

  ghost predicate IsLatest(cfg: Config, log: seq<Event>, h: string, csrf: Option<Csrf>) {
    csrf.Some? ==> Latest(log, h) == Some(Setting(cfg, csrf.value))
  }

  /** Every cached token is the latest of its chain. */
  ghost predicate AllLatest(cfg: Config, w: World) {
    forall h :: IsLatest(cfg, w.log, h, Carried(w.s, h))
  }

  /** A validation of the session `h` that has copied its token and has yet to write it somewhere. */
  predicate Holds(hash: string -> string, req: Request, h: string) {
    (req.phase.Carrying? || req.phase.Moving?) && hash(req.token) == h && req.phase.csrf.Some?
  }

  ghost predicate LatestInv(cfg: Config, hash: string -> string, w: World) {
    && AllLatest(cfg, w)
    && forall r, h | 0 <= r < |w.reqs| && Holds(hash, w.reqs[r], h) :: IsLatest(cfg, w.log, h, w.reqs[r].phase.csrf)
  }

  /**
   The step makes no copied token outdated: no token is issued for a session while a validation holds an older
   one of it, and no session is rotated into while a validation holds another token of it.
   */
  ghost predicate Calm(cfg: Config, hash: string -> string, w: World, step: Step)
    requires InPhase(w, step)
  {
    match step
    case IssueCsrf(token, _) =>
      token != "" && hash(token) in w.s.cache ==> forall q | 0 <= q < |w.reqs| :: !Holds(hash, w.reqs[q], hash(token))
    case MoveEntry(r) =>
      forall q | 0 <= q < |w.reqs| && q != r && Holds(hash, w.reqs[q], hash(w.reqs[r].phase.session)) ::
        Latest(w.log, hash(w.reqs[r].token)) == Some(Setting(cfg, w.reqs[q].phase.csrf.value))
    case _ => true
  }

  predicate Distinct(w: World, step: Step) {
    step.IssueCsrf? ==> NewValue(w.log, step.value)
  }

  ghost predicate CalmRun(cfg: Config, hash: string -> string, w: World, steps: seq<Step>)
    requires IsRun(cfg, hash, w, steps)
    decreases |steps|
  {
    steps == [] || (Calm(cfg, hash, w, steps[0]) && CalmRun(cfg, hash, Next(cfg, hash, w, steps[0]), steps[1..]))
  }

  /** Whatever a single step does to the cache, the entries are the latest. */
  lemma EntriesStayLatest(cfg: Config, hash: string -> string, w: World, step: Step)
    requires LatestInv(cfg, hash, w) && InPhase(w, step)
    ensures AllLatest(cfg, Next(cfg, hash, w, step))
  {
    var v := Next(cfg, hash, w, step);
    forall h ensures IsLatest(cfg, v.log, h, Carried(v.s, h)) {
      assert IsLatest(cfg, w.log, h, Carried(w.s, h));
      EntryStaysLatest(cfg, hash, w, step, h);
    }
  }

  lemma EntryStaysLatest(cfg: Config, hash: string -> string, w: World, step: Step, h: string)
    requires LatestInv(cfg, hash, w) && InPhase(w, step) && IsLatest(cfg, w.log, h, Carried(w.s, h))
    ensures IsLatest(cfg, Next(cfg, hash, w, step).log, h, Carried(Next(cfg, hash, w, step).s, h))
  {
    match step
    case AnswerYes(r, identity, session) =>
      var p := w.reqs[r].phase;
      LatestAppend(w.log, Grant(w.reqs[r].token, session, identity, p.readAt, p.askedAt, w.clock), h);
    case IssueCsrf(token, value) => LatestAppend(w.log, Issue(hash(token), value, w.clock), h);
    case StoreEntry(r) =>
      var token, p := w.reqs[r].token, w.reqs[r].phase;
      HolderIsLatest(cfg, hash, w, r);
      CarriedAfterSet(w.s, hash(token), token, p.identity.id, NewEntry(p.identity, token, cfg, p.readAt, p.csrf), h);
    case MoveEntry(r) => MoveStaysLatest(cfg, hash, w, r, h);
    case _ => CarriedElsewhere(cfg, hash, w, step, h);
  }

  lemma CarriedAfterSet(s: State, h: string, token: string, userID: Int64, e: Entry, g: string)
    ensures Carried(SetIdentity(s, h, token, userID, e), g) == if g == h then e.csrf else Carried(s, g)
  {
  }

  lemma MoveStaysLatest(cfg: Config, hash: string -> string, w: World, r: nat, h: string)
    requires LatestInv(cfg, hash, w) && InPhase(w, MoveEntry(r)) && IsLatest(cfg, w.log, h, Carried(w.s, h))
    ensures var v := Next(cfg, hash, w, MoveEntry(r)); IsLatest(cfg, v.log, h, Carried(v.s, h))
  {
    var token, p := w.reqs[r].token, w.reqs[r].phase;
    HolderIsLatest(cfg, hash, w, r);
    LatestAppend(w.log, Moved(hash(token), hash(p.session)), h);
    CarriedAfterSet(w.s, hash(p.session), p.session, p.identity.id,
                    NewEntry(p.identity, p.session, cfg, p.readAt, p.csrf), h);
  }

  /** All other steps leave an entry's token, or take it away, and record nothing. */
  lemma CarriedElsewhere(cfg: Config, hash: string -> string, w: World, step: Step, h: string)
    requires InPhase(w, step)
    requires !step.AnswerYes? && !step.IssueCsrf? && !step.StoreEntry? && !step.MoveEntry?
    ensures Next(cfg, hash, w, step).log == w.log
    ensures var csrf := Carried(Next(cfg, hash, w, step).s, h); csrf == None || csrf == Carried(w.s, h)
  {
  }

  lemma HolderIsLatest(cfg: Config, hash: string -> string, w: World, r: nat)
    requires LatestInv(cfg, hash, w) && r < |w.reqs| && (w.reqs[r].phase.Carrying? || w.reqs[r].phase.Moving?)
    ensures IsLatest(cfg, w.log, hash(w.reqs[r].token), w.reqs[r].phase.csrf)
  {
    assert w.reqs[r].phase.csrf.Some? ==> Holds(hash, w.reqs[r], hash(w.reqs[r].token));
  }

  lemma HolderStaysLatest(cfg: Config, hash: string -> string, w: World, step: Step, q: nat, h: string)
    requires LatestInv(cfg, hash, w) && InPhase(w, step) && Calm(cfg, hash, w, step)
    requires q < |Next(cfg, hash, w, step).reqs| && Holds(hash, Next(cfg, hash, w, step).reqs[q], h)
    ensures IsLatest(cfg, Next(cfg, hash, w, step).log, h, Next(cfg, hash, w, step).reqs[q].phase.csrf)
  {
    if step.Carry? && step.r == q {
      assert IsLatest(cfg, w.log, h, Carried(w.s, h));
    } else {
      assert q < |w.reqs| && Holds(hash, w.reqs[q], h);
      HolderIsLatest(cfg, hash, w, q);
      match step
      case AnswerYes(r, identity, session) =>
        var p := w.reqs[r].phase;
        LatestAppend(w.log, Grant(w.reqs[r].token, session, identity, p.readAt, p.askedAt, w.clock), h);
      case IssueCsrf(token, value) => LatestAppend(w.log, Issue(hash(token), value, w.clock), h);
      case MoveEntry(r) =>
        LatestAppend(w.log, Moved(hash(w.reqs[r].token), hash(w.reqs[r].phase.session)), h);
      case _ =>
    }
  }

  lemma CalmKeepsLatest(cfg: Config, hash: string -> string, w: World, step: Step)
    requires LatestInv(cfg, hash, w) && InPhase(w, step) && Calm(cfg, hash, w, step)
    ensures LatestInv(cfg, hash, Next(cfg, hash, w, step))
  {
    EntriesStayLatest(cfg, hash, w, step);
    var v := Next(cfg, hash, w, step);
    forall q, h | 0 <= q < |v.reqs| && Holds(hash, v.reqs[q], h) ensures IsLatest(cfg, v.log, h, v.reqs[q].phase.csrf) {
      HolderStaysLatest(cfg, hash, w, step, q, h);
    }
  }

  lemma {:induction false} CalmRunKeepsLatest(cfg: Config, hash: string -> string, w: World, steps: seq<Step>)
    requires LatestInv(cfg, hash, w) && IsRun(cfg, hash, w, steps) && CalmRun(cfg, hash, w, steps)
    ensures LatestInv(cfg, hash, After(cfg, hash, w, steps))
    decreases |steps|
  {
    if steps != [] {
      CalmKeepsLatest(cfg, hash, w, steps[0]);
      CalmRunKeepsLatest(cfg, hash, Next(cfg, hash, w, steps[0]), steps[1..]);
    }
  }

  /**
   In every interleaved run of calm steps, an accepted value is the latest one set on the session's chain of
   rotations, and was set at most the CSRF lifetime ago.
   */
  lemma AcceptedIsLatest(cfg: Config, hash: string -> string, clock: int, steps: seq<Step>, h: string, value: string,
                         t: int)
    requires IsRun(cfg, hash, Start(clock), steps) && CalmRun(cfg, hash, Start(clock), steps)
    requires Accepts(After(cfg, hash, Start(clock), steps).s, h, value, t)
    ensures exists at :: Latest(After(cfg, hash, Start(clock), steps).log, h) == Some((value, at))
                         && t - at <= cfg.csrfMaxAge
  {
    CalmRunKeepsLatest(cfg, hash, Start(clock), steps);
    var w := After(cfg, hash, Start(clock), steps);
    assert IsLatest(cfg, w.log, h, Carried(w.s, h));
    assert Latest(w.log, h) == Some((value, Carried(w.s, h).value.expiresAt - cfg.csrfMaxAge));
  }

  /** After any calm run and one more step, whatever it is, every cached token is the latest of its chain. */
  ghost predicate AlwaysLatest(cfg: Config, hash: string -> string, v: World) {
    forall steps, last | IsRun(cfg, hash, v, steps) && CalmRun(cfg, hash, v, steps)
                         && InPhase(After(cfg, hash, v, steps), last) ::
      AllLatest(cfg, Next(cfg, hash, After(cfg, hash, v, steps), last))
  }

  /** A validation that holds an outdated token writes it to an entry in its next step. */
  lemma OutdatedIsWritten(cfg: Config, hash: string -> string, v: World, q: nat, h: string)
    requires q < |v.reqs| && Holds(hash, v.reqs[q], h) && !IsLatest(cfg, v.log, h, v.reqs[q].phase.csrf)
    ensures !AlwaysLatest(cfg, hash, v)
  {
    var last := if v.reqs[q].phase.Carrying? then StoreEntry(q) else MoveEntry(q);
    var u, g := Next(cfg, hash, v, last), if v.reqs[q].phase.Carrying? then h else hash(v.reqs[q].phase.session);
    if v.reqs[q].phase.Moving? {
      LatestAppend(v.log, Moved(h, g), g);
    }
    assert Carried(u.s, g) == v.reqs[q].phase.csrf;
    assert !IsLatest(cfg, u.log, g, Carried(u.s, g));
    assert IsRun(cfg, hash, v, []) && CalmRun(cfg, hash, v, []) && After(cfg, hash, v, []) == v;
  }

  /** A disturbing step leaves a validation with an outdated token. */
  lemma DisturbedHolder(cfg: Config, hash: string -> string, w: World, step: Step) returns (q: nat, h: string)
    requires WorldInv(cfg, hash, w) && LatestInv(cfg, hash, w) && InPhase(w, step) && Distinct(w, step)
    requires !Calm(cfg, hash, w, step)
    ensures var v := Next(cfg, hash, w, step);
            q < |v.reqs| && Holds(hash, v.reqs[q], h) && !IsLatest(cfg, v.log, h, v.reqs[q].phase.csrf)
  {
    match step
    case IssueCsrf(token, value) =>
      h := hash(token);
      q :| 0 <= q < |w.reqs| && Holds(hash, w.reqs[q], h);
      HeldIsOld(cfg, hash, w, q, value);
      LatestAppend(w.log, Issue(h, value, w.clock), h);
    case MoveEntry(r) =>
      h := hash(w.reqs[r].phase.session);
      q :| 0 <= q < |w.reqs| && q != r && Holds(hash, w.reqs[q], h)
           && Latest(w.log, hash(w.reqs[r].token)) != Some(Setting(cfg, w.reqs[q].phase.csrf.value));
      LatestAppend(w.log, Moved(hash(w.reqs[r].token), h), h);
  }

  /** The condition is exact: a step leaves all cached tokens the latest for good, if and only if it is calm. */
  lemma CalmIff(cfg: Config, hash: string -> string, w: World, step: Step, v: World)
    requires WorldInv(cfg, hash, w) && LatestInv(cfg, hash, w) && InPhase(w, step) && Distinct(w, step)
    requires v == Next(cfg, hash, w, step)
    ensures AlwaysLatest(cfg, hash, v) <==> Calm(cfg, hash, w, step)
  {
    if Calm(cfg, hash, w, step) {
      CalmKeepsLatest(cfg, hash, w, step);
      forall steps, last | IsRun(cfg, hash, v, steps) && CalmRun(cfg, hash, v, steps)
                           && InPhase(After(cfg, hash, v, steps), last)
        ensures AllLatest(cfg, Next(cfg, hash, After(cfg, hash, v, steps), last))
      {
        CalmRunKeepsLatest(cfg, hash, v, steps);
        EntriesStayLatest(cfg, hash, After(cfg, hash, v, steps), last);
      }
    } else {
      var q, h := DisturbedHolder(cfg, hash, w, step);
      OutdatedIsWritten(cfg, hash, v, q, h);
    }
  }

  /// A run in which the latest token is lost

  function LosingRun(clock: int, token: string, identity: Identity, older: string, newer: string): seq<Step> {
    [AddAnonymous(token, clock), IssueCsrf(token, older), Begin(token), Ask(0), AnswerYes(0, identity, ""), Carry(0),
     IssueCsrf(token, newer), StoreEntry(0)]
  }

  /** The first six steps: the validation holds a copy of the older token. */
  lemma OlderIsCopied(cfg: Config, hash: string -> string, clock: int, token: string, all: seq<Step>,
                      identity: Identity, older: string, newer: string)
    requires token != "" && all == LosingRun(clock, token, identity, older, newer)
    ensures IsRun(cfg, hash, Start(clock), all[..6])
    ensures var v := After(cfg, hash, Start(clock), all[..6]);
            v.clock == clock && Progress(hash, token, Csrf(older, clock + cfg.csrfMaxAge), 6, v)
  {
    var c := Csrf(older, clock + cfg.csrfMaxAge);
    for i := 0 to 6
      invariant IsRun(cfg, hash, Start(clock), all[..i])
      invariant var v := After(cfg, hash, Start(clock), all[..i]); v.clock == clock && Progress(hash, token, c, i, v)
    {
      OneProgress(cfg, hash, After(cfg, hash, Start(clock), all[..i]), clock, token, all, identity, older, newer, i);
      RunSnoc(cfg, hash, Start(clock), all[..i], all[i]);
      assert all[..i + 1] == all[..i] + [all[i]];
    }
  }

  lemma OneProgress(cfg: Config, hash: string -> string, v: World, clock: int, token: string, all: seq<Step>,
                    identity: Identity, older: string, newer: string, i: nat)
    requires token != "" && all == LosingRun(clock, token, identity, older, newer) && i < 6
    requires v.clock == clock && Progress(hash, token, Csrf(older, clock + cfg.csrfMaxAge), i, v)
    ensures InPhase(v, all[i]) && Next(cfg, hash, v, all[i]).clock == clock
    ensures Progress(hash, token, Csrf(older, clock + cfg.csrfMaxAge), i + 1, Next(cfg, hash, v, all[i]))
  {
  }

  /**
   From the start: a session has a token, a validation copies it, a newer one is issued, and the validation then
   stores its copy. The older value is accepted and the newer one refused.
   */
  lemma IssueCanBeLost(cfg: Config, hash: string -> string, clock: int, token: string, identity: Identity,
                       older: string, newer: string)
    requires ValidConfig(cfg) && token != "" && older != newer
    ensures var steps := LosingRun(clock, token, identity, older, newer);
            && IsRun(cfg, hash, Start(clock), steps)
            && Accepts(After(cfg, hash, Start(clock), steps).s, hash(token), older, clock)
            && !Accepts(After(cfg, hash, Start(clock), steps).s, hash(token), newer, clock)
  {
    var all := LosingRun(clock, token, identity, older, newer);
    OlderIsCopied(cfg, hash, clock, token, all, identity, older, newer);
    var v := After(cfg, hash, Start(clock), all[..6]);
    RunSnoc(cfg, hash, Start(clock), all[..6], all[6]);
    assert all[..7] == all[..6] + [all[6]];
    RunSnoc(cfg, hash, Start(clock), all[..7], all[7]);
    assert all == all[..7] + [all[7]];
    CopyOverwrites(cfg, hash, v, clock, token, older, newer);
  }

  lemma CopyOverwrites(cfg: Config, hash: string -> string, v: World, clock: int, token: string, older: string,
                       newer: string)
    requires ValidConfig(cfg) && token != "" && older != newer && v.clock == clock
    requires Progress(hash, token, Csrf(older, clock + cfg.csrfMaxAge), 6, v)
    ensures var u := Next(cfg, hash, v, IssueCsrf(token, newer));
            InPhase(u, StoreEntry(0))
            && Accepts(Next(cfg, hash, u, StoreEntry(0)).s, hash(token), older, clock)
            && !Accepts(Next(cfg, hash, u, StoreEntry(0)).s, hash(token), newer, clock)
  {
  }

  /** Where the losing run is after `i` steps, up to the copy. */
  ghost predicate Progress(hash: string -> string, token: string, c: Csrf, i: nat, v: World) {
    && (i >= 1 ==> hash(token) in v.s.cache)
    && (i >= 2 ==> Carried(v.s, hash(token)) == Some(c))
    && (if i <= 2 then v.reqs == []
        else |v.reqs| == 1 && v.reqs[0].token == token
             && (match i
                 case 3 => v.reqs[0].phase.Started?
                 case 4 => v.reqs[0].phase.Asked?
                 case 5 => v.reqs[0].phase.Granted? && v.reqs[0].phase.session == ""
                 case _ =>
                   v.reqs[0].phase.Carrying? && v.reqs[0].phase.session == "" && v.reqs[0].phase.csrf == Some(c)))
  }
}
