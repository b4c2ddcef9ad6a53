/**
 The session manager as a mutable object. Each method is one critical section, or a sequence of them, and does
 to the fields what the function of the same name in SessionModel or SessionRequests says.
 */
module SessionManager {
  import opened GoTime
  import opened Index
  import opened Text
  import opened Wrappers
  import opened SessionModel
  import Requests = SessionRequests

  class Manager {
    const cfg: Config
    const hash: string -> string
    var identityCache: map<string, Entry>
    var userSessions: map<Int64, set<string>>
    var roleCache: map<Int64, RoleEntry>

    ghost function View(): State
      reads this
    {
      State(identityCache, userSessions, roleCache)
    }

    /** What holds whenever the lock is free. */
    ghost predicate Valid()
      reads this
    {
      ValidConfig(cfg) && Inv(View(), hash)
    }

    constructor (config: Config, hash: string -> string)
      requires FitsInt64(config)
      ensures Valid() && View() == EMPTY && cfg == Normalized(config) && this.hash == hash
    {
      cfg := Normalized(config);
      this.hash := hash;
      identityCache, userSessions, roleCache := map[], map[], map[];
    }

    /// Critical sections

    method RemoveIdentityLocked(h: string)
      requires Valid()
      modifies this`identityCache, this`userSessions
      ensures Valid() && View() == RemoveIdentity(old(View()), h)
    {
      RemoveKeepsInv(View(), hash, h);
      if h !in identityCache {
        return;
      }
      var e := identityCache[h];
      identityCache := identityCache - {h};
      if e.identity.None? {
        return;
      }
      userSessions := RemoveFrom(userSessions, e.identity.value.id, e.token);
    }

    method SetIdentity(h: string, token: string, userID: Int64, e: Entry)
      requires Valid() && Legal(hash, h, token, userID, e)
      modifies this`identityCache, this`userSessions
      ensures Valid() && View() == SessionModel.SetIdentity(old(View()), h, token, userID, e)
    {
      SetKeepsInv(View(), hash, h, token, userID, e);
      RemoveIdentityLocked(h);
      identityCache := identityCache[h := e.(token := token)];
      if userID != 0 {
        userSessions := AddTo(userSessions, userID, token);
      }
    }

    method Touch(h: string, now: int)
      requires Valid()
      modifies this`identityCache
      ensures Valid() && View() == SessionModel.Touch(old(View()), h, now)
    {
      TouchKeepsInv(View(), hash, h, now);
      if h in identityCache && now < identityCache[h].expiresAt {
        identityCache := identityCache[h := identityCache[h].(lastActivity := now)];
      }
    }

    /** `value` is the random token that would be generated. */
    method SetCsrfToken(token: string, value: string, now: int) returns (ok: bool)
      requires Valid()
      modifies this`identityCache
      ensures Valid()
      ensures View() == if token == "" then old(View()) else SetCsrf(old(View()), cfg, hash(token), value, now)
      ensures ok <==> token != "" && hash(token) in old(identityCache)
    {
      if token == "" {
        return false;
      }
      var h := hash(token);
      SetCsrfKeepsInv(View(), hash, cfg, h, value, now);
      if h !in identityCache {
        return false;
      }
      identityCache := identityCache[h := identityCache[h].(csrf := Some(Csrf(value, now + cfg.csrfMaxAge)))];
      return true;
    }

    method CheckCsrf(value: string, token: string, now: int) returns (answer: CsrfAnswer)
      ensures answer == SessionModel.CheckCsrf(View(), hash(token), value, now)
    {
      var h := hash(token);
      if h !in identityCache {
        return NoSession;
      }
      var csrf := identityCache[h].csrf;
      if csrf.None? {
        return NoToken;
      }
      if now > csrf.value.expiresAt {
        return Expired;
      }
      return Compared(value == csrf.value.value);
    }

    method Destroy(token: string)
      requires Valid()
      modifies this`identityCache, this`userSessions
      ensures Valid()
      ensures View() == if token == "" then old(View()) else RemoveIdentity(old(View()), hash(token))
    {
      if token != "" {
        RemoveIdentityLocked(hash(token));
      }
    }

    function HasSession(token: string): bool
      reads this
    {
      hash(token) in identityCache
    }

    /** The janitor's loop deletes from the maps it ranges over; what is left does not depend on the order. */
    method EvictExpired(now: int)
      requires Valid()
      modifies this
      ensures Valid() && View() == Evict(old(View()), cfg, now)
    {
      ghost var s := View();
      var todo := identityCache.Keys;
      while todo != {}
        invariant Valid() && todo <= identityCache.Keys && roleCache == s.roles
        invariant forall h | h in identityCache :: h in s.cache && identityCache[h] == s.cache[h]
        invariant forall h | h in s.cache :: h in identityCache <==> h in todo || !Due(s.cache[h], cfg, now)
        decreases todo
      {
        var h :| h in todo;
        if Due(identityCache[h], cfg, now) {
          RemoveIdentityLocked(h);
        }
        todo := todo - {h};
      }
      assert identityCache == Evict(s, cfg, now).cache;
      IndexIsDetermined(View(), hash);
      EvictRoles(now);
    }

    method EvictRoles(now: int)
      modifies this`roleCache
      ensures roleCache == CurrentRoles(old(roleCache), now)
    {
      ghost var roles := roleCache;
      var todo := roleCache.Keys;
      ghost var done: set<Int64> := {};
      while todo != {}
        invariant todo !! done && todo + done == roles.Keys && todo <= roleCache.Keys <= roles.Keys
        invariant forall u | u in roleCache :: roleCache[u] == roles[u]
        invariant forall u | u in done :: u in roleCache <==> now < roles[u].expiresAt
        decreases todo
      {
        var u :| u in todo;
        if now >= roleCache[u].expiresAt {
          roleCache := roleCache - {u};
        }
        todo, done := todo - {u}, done + {u};
      }
      assert roleCache.Keys == CurrentRoles(roles, now).Keys;
    }

    /// Whole calls

    method ResolveRoles(uid: Int64, c: Requests.Context) returns (roles: Option<seq<string>>)
      requires Valid() && c.cfg == cfg
      modifies this`roleCache
      ensures Valid() && (View(), roles) == Requests.ResolveRoles(old(View()), c, uid)
    {
      if c.provider.NoProvider? {
        return Some([]);
      }
      if uid in roleCache && c.times.roles < roleCache[uid].expiresAt {
        return Some(roleCache[uid].roles);
      }
      if c.provider.Unavailable? {
        return None;
      }
      roleCache := roleCache[uid := RoleEntry(c.provider.roles, c.times.roles + cfg.roleTTL)];
      return Some(c.provider.roles);
    }

    method BuildUser(identity: Identity, c: Requests.Context) returns (user: Option<Requests.User>)
      requires Valid() && c.cfg == cfg
      modifies this`roleCache
      ensures Valid() && (View(), user) == Requests.BuildUser(old(View()), c, identity)
    {
      var roles := ResolveRoles(identity.id, c);
      if roles.None? {
        if !cfg.denyRolesOnError {
          return None;
        }
        roles := Some([]);
      }
      return Some(Requests.User(identity, roles.value));
    }

    method CachedUser(h: string, now: int, c: Requests.Context) returns (found: Requests.Lookup)
      requires Valid() && c.cfg == cfg
      modifies this`identityCache, this`roleCache
      ensures Valid() && (View(), found) == Requests.CachedUser(old(View()), c, h, now)
    {
      if h !in identityCache || !Fresh(identityCache[h], cfg, now) {
        return Requests.Miss;
      }
      var user := None;
      if identityCache[h].identity.Some? {
        user := BuildUser(identityCache[h].identity.value, c);
        if user.None? {
          return Requests.RolesFailed;
        }
      }
      Touch(h, now);
      return Requests.Found(user);
    }

    method Store(token: string, now: int, identity: Identity, session: string)
      requires Valid()
      modifies this`identityCache, this`userSessions
      ensures Valid() && View() == Requests.Store(old(View()), cfg, hash, token, now, identity, session)
    {
      var h := hash(token);
      var csrf := if h in identityCache then identityCache[h].csrf else None;
      SetIdentity(h, token, identity.id, Requests.NewEntry(identity, token, cfg, now, csrf));
      if session != "" && session != token {
        SetIdentity(hash(session), session, identity.id, Requests.NewEntry(identity, session, cfg, now, csrf));
        RemoveIdentityLocked(h);
      }
    }

    method ValidateAndCache(token: string, now: int, c: Requests.Context) returns (o: Requests.Outcome)
      requires Valid() && c.cfg == cfg && c.hash == hash
      modifies this
      ensures Valid() && (View(), o) == Requests.ValidateAndCache(old(View()), c, token, now)
    {
      if c.answer.Failed? {
        return Requests.Error;
      }
      if c.answer.user.None? {
        RemoveIdentityLocked(hash(token));
        return Requests.Outcome.Outcome(None, "", "");
      }
      var user := BuildUser(c.answer.user.value, c);
      if user.None? {
        return Requests.Error;
      }
      Store(token, now, c.answer.user.value, c.answer.session);
      return Requests.Outcome.Outcome(user, c.answer.session, c.answer.refresh);
    }

    method Validate(token: string, bypass: bool, c: Requests.Context) returns (o: Requests.Outcome)
      requires Valid() && c.cfg == cfg && c.hash == hash
      modifies this
      ensures Valid() && (View(), o) == Requests.Validate(old(View()), c, token, bypass)
    {
      if token == "" {
        return Requests.Error;
      }
      if bypass {
        o := ValidateAndCache(token, c.times.first, c);
        return;
      }
      var found := CachedUser(hash(token), c.times.first, c);
      if found.Miss? {
        found := CachedUser(hash(token), c.times.second, c);
      }
      match found {
        case RolesFailed => o := Requests.Error;
        case Found(user) => o := Requests.Outcome.Outcome(user, "", "");
        case Miss => o := ValidateAndCache(token, c.times.third, c);
      }
    }

    method CreateAnonymous(token: string, now: int)
      requires Valid()
      modifies this`identityCache, this`userSessions
      ensures Valid() && View() == Requests.CreateAnonymous(old(View()), cfg, hash, token, now)
    {
      SetIdentity(hash(token), token, 0, Entry(None, token, ZERO_TIME, now, now + cfg.maxAge, None));
    }

    method EnsureKnown(token: string, anonymous: string, c: Requests.Context) returns (o: Requests.Outcome)
      requires Valid() && c.cfg == cfg && c.hash == hash
      modifies this
      ensures Valid() && (View(), o) == Requests.EnsureKnown(old(View()), c, token, anonymous)
    {
      if HasSession(token) {
        return Requests.Outcome.Outcome(None, "", "");
      }
      o := Validate(token, false, c);
      if o.Outcome? && o.user.None? {
        CreateAnonymous(anonymous, c.times.fourth);
        o := Requests.Outcome.Outcome(None, anonymous, "");
      }
    }
  }
}
