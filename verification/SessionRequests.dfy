/**
 Whole calls of the session manager when nothing interleaves: role resolution, the cache check, validation
 with rotation, and making a cookie token known. The remote services' answers are parameters.
 */
module SessionRequests {
  import opened GoTime
  import opened Index
  import opened Text
  import opened Wrappers
  import opened SessionModel

  /** The local role provider: absent, failing, or answering. */
  datatype Provider = NoProvider | Unavailable | Gives(roles: seq<string>)

  /** auth_app's answer: an error, or perhaps a user, with perhaps new tokens. */
  datatype Answer = Failed | Answered(user: Option<Identity>, session: string, refresh: string)

  datatype User = User(identity: Identity, roles: seq<string>)

  datatype Outcome = Error | Outcome(user: Option<User>, session: string, refresh: string)

  /** The clock readings of one call, in the order they are taken. */
  datatype Times = Times(first: int, second: int, third: int, fourth: int, roles: int)

  /** Everything one call depends on beside the state. */
  datatype Context = Context(cfg: Config, hash: string -> string, times: Times, answer: Answer, provider: Provider)

  function ResolveRoles(s: State, c: Context, uid: Int64): (State, Option<seq<string>>) {
    if c.provider.NoProvider? then (s, Some([]))
    else if uid in s.roles && c.times.roles < s.roles[uid].expiresAt then (s, Some(s.roles[uid].roles))
    else
      match c.provider
      case Gives(roles) =>
        (s.(roles := s.roles[uid := RoleEntry(roles, c.times.roles + c.cfg.roleTTL)]), Some(roles))
      case _ => (s, None)
  }

  /** Under the denying policy a failing provider yields a user without roles, otherwise no user. */
  function BuildUser(s: State, c: Context, identity: Identity): (State, Option<User>) {
    var (t, roles) := ResolveRoles(s, c, identity.id);
    match roles
    case Some(r) => (t, Some(User(identity, r)))
    case None => (t, if c.cfg.denyRolesOnError then Some(User(identity, [])) else None)
  }

  datatype Lookup = Miss | Found(user: Option<User>) | RolesFailed

  function CachedUser(s: State, c: Context, h: string, now: int): (State, Lookup) {
    if !Hit(s, c.cfg, h, now) then (s, Miss)
    else
      match s.cache[h].identity
      case None => (Touch(s, h, now), Found(None))
      case Some(identity) =>
        var (t, user) := BuildUser(s, c, identity);
        if user.None? then (t, RolesFailed) else (Touch(t, h, now), Found(user))
  }

  function NewEntry(identity: Identity, token: string, cfg: Config, now: int, csrf: Option<Csrf>): Entry {
    Entry(Some(identity), token, now, now, now + cfg.maxAge, csrf)
  }

  /** The CSRF token that validation carries over. */
  function Carried(s: State, h: string): Option<Csrf> {
    if h in s.cache then s.cache[h].csrf else None
  }

  predicate Rotates(token: string, session: string) {
    session != "" && session != token
  }

  /** Caching a positive answer: the entry is renewed, and on rotation moved to the new token. */
  function Store(s: State, cfg: Config, hash: string -> string, token: string, now: int, identity: Identity,
                 session: string): State {
    var h := hash(token);
    var csrf := Carried(s, h);
    var t := SetIdentity(s, h, token, identity.id, NewEntry(identity, token, cfg, now, csrf));
    if !Rotates(token, session) then t
    else RemoveIdentity(
           SetIdentity(t, hash(session), session, identity.id, NewEntry(identity, session, cfg, now, csrf)), h)
  }

  function ValidateAndCache(s: State, c: Context, token: string, now: int): (State, Outcome) {
    match c.answer
    case Failed => (s, Error)
    case Answered(None, _, _) => (RemoveIdentity(s, c.hash(token)), Outcome(None, "", ""))
    case Answered(Some(identity), session, refresh) =>
      var (t, user) := BuildUser(s, c, identity);
      if user.None? then (t, Error)
      else (Store(t, c.cfg, c.hash, token, now, identity, session), Outcome(user, session, refresh))
  }

  function Validate(s: State, c: Context, token: string, bypass: bool): (State, Outcome) {
    var h := c.hash(token);
    if token == "" then (s, Error)
    else if bypass then ValidateAndCache(s, c, token, c.times.first)
    else
      match CachedUser(s, c, h, c.times.first)
      case (t, RolesFailed) => (t, Error)
      case (t, Found(user)) => (t, Outcome(user, "", ""))
      case (_, Miss) =>
        match CachedUser(s, c, h, c.times.second)
        case (t, RolesFailed) => (t, Error)
        case (t, Found(user)) => (t, Outcome(user, "", ""))
        case (_, Miss) => ValidateAndCache(s, c, token, c.times.third)
  }

  function CreateAnonymous(s: State, cfg: Config, hash: string -> string, token: string, now: int): State {
    SetIdentity(s, hash(token), token, 0, Entry(None, token, ZERO_TIME, now, now + cfg.maxAge, None))
  }

  /** `anonymous` is the random token that would be generated. */
  function EnsureKnown(s: State, c: Context, token: string, anonymous: string): (State, Outcome) {
    if c.hash(token) in s.cache then (s, Outcome(None, "", ""))
    else
      match Validate(s, c, token, false)
      case (t, Error) => (t, Error)
      case (t, Outcome(Some(user), session, refresh)) => (t, Outcome(Some(user), session, refresh))
      case (t, Outcome(None, _, _)) =>
        (CreateAnonymous(t, c.cfg, c.hash, anonymous, c.times.fourth), Outcome(None, anonymous, ""))
  }

  /// The index survives every call

  lemma StoreKeepsInv(s: State, cfg: Config, hash: string -> string, token: string, now: int, identity: Identity,
                      session: string)
    requires Inv(s, hash)
    ensures Inv(Store(s, cfg, hash, token, now, identity, session), hash)
  {
    var h := hash(token);
    var csrf := Carried(s, h);
    var e := NewEntry(identity, token, cfg, now, csrf);
    SetKeepsInv(s, hash, h, token, identity.id, e);
    var t := SetIdentity(s, h, token, identity.id, e);
    if Rotates(token, session) {
      var f := NewEntry(identity, session, cfg, now, csrf);
      SetKeepsInv(t, hash, hash(session), session, identity.id, f);
      RemoveKeepsInv(SetIdentity(t, hash(session), session, identity.id, f), hash, h);
    }
  }

  /** Roles are cached apart from identities. */
  lemma BuildUserKeepsCaches(s: State, c: Context, identity: Identity)
    ensures BuildUser(s, c, identity).0.cache == s.cache && BuildUser(s, c, identity).0.sessions == s.sessions
  {
  }

  lemma CachedUserKeepsInv(s: State, c: Context, h: string, now: int)
    requires Inv(s, c.hash)
    ensures Inv(CachedUser(s, c, h, now).0, c.hash)
  {
    if Hit(s, c.cfg, h, now) && s.cache[h].identity.Some? {
      BuildUserKeepsCaches(s, c, s.cache[h].identity.value);
      var t := BuildUser(s, c, s.cache[h].identity.value).0;
      assert Inv(t, c.hash) by {
        assert t.cache == s.cache && t.sessions == s.sessions;
        assert forall u, x :: Owns(t, c.hash, u, x) <==> Owns(s, c.hash, u, x);
      }
      TouchKeepsInv(t, c.hash, h, now);
    } else {
      TouchKeepsInv(s, c.hash, h, now);
    }
  }

  lemma ValidateAndCacheKeepsInv(s: State, c: Context, token: string, now: int)
    requires Inv(s, c.hash)
    ensures Inv(ValidateAndCache(s, c, token, now).0, c.hash)
  {
    match c.answer
    case Failed =>
    case Answered(None, _, _) => RemoveKeepsInv(s, c.hash, c.hash(token));
    case Answered(Some(identity), session, _) =>
      BuildUserKeepsCaches(s, c, identity);
      var t := BuildUser(s, c, identity).0;
      assert forall u, x :: Owns(t, c.hash, u, x) <==> Owns(s, c.hash, u, x);
      StoreKeepsInv(t, c.cfg, c.hash, token, now, identity, session);
  }

  lemma ValidateKeepsInv(s: State, c: Context, token: string, bypass: bool)
    requires Inv(s, c.hash)
    ensures Inv(Validate(s, c, token, bypass).0, c.hash)
  {
    CachedUserKeepsInv(s, c, c.hash(token), c.times.first);
    CachedUserKeepsInv(s, c, c.hash(token), c.times.second);
    ValidateAndCacheKeepsInv(s, c, token, c.times.first);
    ValidateAndCacheKeepsInv(s, c, token, c.times.third);
  }

  lemma EnsureKnownKeepsInv(s: State, c: Context, token: string, anonymous: string)
    requires Inv(s, c.hash)
    ensures Inv(EnsureKnown(s, c, token, anonymous).0, c.hash)
  {
    ValidateKeepsInv(s, c, token, false);
    var t := Validate(s, c, token, false).0;
    SetKeepsInv(t, c.hash, c.hash(anonymous), anonymous, 0,
                Entry(None, anonymous, ZERO_TIME, c.times.fourth, c.times.fourth + c.cfg.maxAge, None));
  }

  /// What a call promises its caller

  /** A failing validator or role provider never changes which sessions are cached or listed. */
  lemma ErrorChangesNothing(s: State, c: Context, token: string, anonymous: string)
    requires EnsureKnown(s, c, token, anonymous).1 == Error
    ensures var t := EnsureKnown(s, c, token, anonymous).0; t.cache == s.cache && t.sessions == s.sessions
  {
  }

  /** The token a request carries after a call: the new one if there is one. */
  function Effective(token: string, o: Outcome): string
    requires o.Outcome?
  {
    if o.session != "" then o.session else token
  }

  /** After a successful call the manager knows the token that the request then carries. */
  lemma EnsureKnownKnows(s: State, c: Context, token: string, anonymous: string)
    requires EnsureKnown(s, c, token, anonymous).1.Outcome?
    requires c.answer.Answered? && Rotates(token, c.answer.session) ==> c.hash(c.answer.session) != c.hash(token)
    requires anonymous != ""
    ensures var (t, o) := EnsureKnown(s, c, token, anonymous); c.hash(Effective(token, o)) in t.cache
  {
  }

  /** Rotation leaves exactly one of the two tokens listed for the user. */
  lemma RotationMovesIndex(s: State, cfg: Config, hash: string -> string, token: string, now: int,
                           identity: Identity, session: string)
    requires Inv(s, hash) && identity.id != 0 && Rotates(token, session) && hash(session) != hash(token)
    ensures var t := Store(s, cfg, hash, token, now, identity, session);
            session in At(t.sessions, identity.id) && forall u :: token !in At(t.sessions, u)
  {
    StoreKeepsInv(s, cfg, hash, token, now, identity, session);
    var t := Store(s, cfg, hash, token, now, identity, session);
    assert Owns(t, hash, identity.id, session);
    forall u ensures token !in At(t.sessions, u) {
      assert !Owns(t, hash, u, token);
    }
  }

  /// Answers, case by case

  /** The roles that a user gets, or nothing if they are unavailable, by provider, cached entry and policy. */
  predicate RolesUnavailable(s: State, c: Context, uid: Int64) {
    c.provider.Unavailable? && !(uid in s.roles && c.times.roles < s.roles[uid].expiresAt)
  }

  /**
   Without a provider there are no roles; an entry serves until it expires, and never afterwards; then the provider
   is asked, and its answer is kept for the role lifetime. A failing provider changes nothing.
   */
  lemma ResolveRolesExactly(s: State, c: Context, uid: Int64)
    ensures var (t, roles) := ResolveRoles(s, c, uid);
            && (roles.None? <==> RolesUnavailable(s, c, uid))
            && (c.provider == NoProvider ==> roles == Some([]) && t == s)
            && (c.provider != NoProvider && uid in s.roles && c.times.roles < s.roles[uid].expiresAt ==>
                  roles == Some(s.roles[uid].roles) && t == s)
            && (c.provider.Gives? && !(uid in s.roles && c.times.roles < s.roles[uid].expiresAt) ==>
                  roles == Some(c.provider.roles) && t.cache == s.cache && t.sessions == s.sessions
                  && t.roles == s.roles[uid := RoleEntry(c.provider.roles, c.times.roles + c.cfg.roleTTL)])
            && (RolesUnavailable(s, c, uid) ==> t == s)
  {
  }

  /** Unavailable roles are an error under the returning policy, and no roles under the denying one. */
  lemma BuildUserExactly(s: State, c: Context, identity: Identity)
    ensures var (t, user) := BuildUser(s, c, identity);
            && t == ResolveRoles(s, c, identity.id).0
            && (user == None <==> RolesUnavailable(s, c, identity.id) && !c.cfg.denyRolesOnError)
            && (user.Some? ==>
                  user.value.identity == identity
                  && user.value.roles ==
                     if RolesUnavailable(s, c, identity.id) then [] else ResolveRoles(s, c, identity.id).1.value)
  {
  }

  /** The first of the two cache checks that hits, if any. */
  predicate CacheAnswers(s: State, c: Context, token: string, now: int) {
    c.hash(token) in s.cache && Fresh(s.cache[c.hash(token)], c.cfg, now)
  }

  /** A cached entry answers without the validator, with the cached identity, its roles, and no new tokens. */
  lemma CachedAnswer(s: State, c: Context, token: string)
    requires token != "" && (CacheAnswers(s, c, token, c.times.first) || CacheAnswers(s, c, token, c.times.second))
    ensures var o := Validate(s, c, token, false).1;
            match s.cache[c.hash(token)].identity
            case None => o == Outcome(None, "", "")
            case Some(identity) =>
              if RolesUnavailable(s, c, identity.id) && !c.cfg.denyRolesOnError then o == Error
              else o == Outcome(BuildUser(s, c, identity).1, "", "")
  {
    var h := c.hash(token);
    if s.cache[h].identity.Some? {
      BuildUserExactly(s, c, s.cache[h].identity.value);
    }
  }

  /** Otherwise the validator decides; so it does when the cache is bypassed. */
  lemma ValidatorsAnswer(s: State, c: Context, token: string, bypass: bool)
    requires token != ""
    requires bypass || (!CacheAnswers(s, c, token, c.times.first) && !CacheAnswers(s, c, token, c.times.second))
    ensures var (t, o) := Validate(s, c, token, bypass);
            var now := if bypass then c.times.first else c.times.third;
            match c.answer
            case Failed => o == Error && t == s
            case Answered(None, _, _) => o == Outcome(None, "", "") && c.hash(token) !in t.cache
            case Answered(Some(identity), session, refresh) =>
              if RolesUnavailable(s, c, identity.id) && !c.cfg.denyRolesOnError then o == Error && t == s
              else o == Outcome(BuildUser(s, c, identity).1, session, refresh)
                   && t == Store(BuildUser(s, c, identity).0, c.cfg, c.hash, token, now, identity, session)
  {
    if c.answer.Answered? && c.answer.user.Some? {
      BuildUserExactly(s, c, c.answer.user.value);
      ResolveRolesExactly(s, c, c.answer.user.value.id);
    }
  }

  /** The error for a session that is not known: no token, no answer, or a confirmed user without available roles. */
  lemma UnknownFailsIff(s: State, c: Context, token: string, anonymous: string)
    requires c.hash(token) !in s.cache
    ensures EnsureKnown(s, c, token, anonymous).1 == Error <==>
            token == "" || c.answer == Failed
            || (c.answer.user.Some? && !c.cfg.denyRolesOnError && c.provider == Unavailable
                && !(c.answer.user.value.id in s.roles && c.times.roles < s.roles[c.answer.user.value.id].expiresAt))
  {
    if token != "" {
      ValidatorsAnswer(s, c, token, false);
    }
  }

  /** A known session is left alone; an unknown one is confirmed, or replaced by a new anonymous one. */
  lemma EnsureKnownAnswer(s: State, c: Context, token: string, anonymous: string)
    requires EnsureKnown(s, c, token, anonymous).1.Outcome?
    ensures var (t, o) := EnsureKnown(s, c, token, anonymous);
            if c.hash(token) in s.cache then t == s && o.session == "" && o.refresh == ""
            else if c.answer.user.Some? then o.session == c.answer.session && o.refresh == c.answer.refresh
            else o.session == anonymous && o.refresh == "" && c.hash(anonymous) in t.cache
  {
    if c.hash(token) !in s.cache {
      ValidatorsAnswer(s, c, token, false);
    }
  }

  /// What a stored answer is good for

  /** The token that the session has after a positive answer: the new one if one was given. */
  function TokenAfter(token: string, session: string): string {
    if session != "" then session else token
  }

  /**
   After a positive answer at `now`, the session's entry holds the identity and token, answers cache checks within
   the idle limit and the cache lifetime from `now`, and is refused after that.
   */
  lemma StoredAnswers(s: State, cfg: Config, hash: string -> string, token: string, now: int, identity: Identity,
                      session: string, later: int)
    requires ValidConfig(cfg) && now <= later
    requires session == "" || session == token || hash(session) != hash(token)
    ensures var t, h := Store(s, cfg, hash, token, now, identity, session), hash(TokenAfter(token, session));
            && h in t.cache && t.cache[h].identity == Some(identity) && t.cache[h].token == TokenAfter(token, session)
            && t.cache[h].expiresAt == now + cfg.maxAge
            && (Hit(t, cfg, h, later) <==> later - now < cfg.idle && later - now < cfg.identityTTL)
            && (session != "" && session != token ==> hash(token) !in t.cache)
  {
  }

  /** An anonymous session is kept until its end or its idle limit, and holds no CSRF token yet. */
  lemma AnonymousIsKept(s: State, cfg: Config, hash: string -> string, token: string, now: int, later: int)
    requires ValidConfig(cfg) && now <= later
    ensures var t, h := CreateAnonymous(s, cfg, hash, token, now), hash(token);
            && h in t.cache && t.cache[h].identity == None && t.cache[h].csrf == None
            && (h in Evict(t, cfg, later).cache <==> later - now < cfg.maxAge && later - now <= cfg.idle)
  {
    EvictExactly(CreateAnonymous(s, cfg, hash, token, now), cfg, later, hash(token));
  }
}
