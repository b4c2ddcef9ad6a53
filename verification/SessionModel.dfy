/**
 The session manager's caches as a value, and each critical section as a function on it. Times and durations
 are integers in nanoseconds since 1970; the hash of a token is an arbitrary function given by the context.
 */
module SessionModel {
  import opened GoTime
  import opened Index
  import opened Text
  import opened Wrappers

  datatype Config = Config(maxAge: int, idle: int, identityTTL: int, csrfMaxAge: int, roleTTL: int,
                           denyRolesOnError: bool)

  /** Missing or senseless durations are replaced; afterwards all are positive and no identity outlives a session. */
  function Normalized(c: Config): (n: Config)
    ensures ValidConfig(n) || !FitsInt64(c)
    ensures ValidConfig(c) ==> n == c
    ensures n.maxAge == if c.maxAge > 0 then c.maxAge else 86_400_000_000_000
    ensures n.idle == if c.idle > 0 then c.idle else n.maxAge
    ensures n.identityTTL == if 0 < c.identityTTL <= n.maxAge then c.identityTTL else n.maxAge
    ensures n.csrfMaxAge == if c.csrfMaxAge > 0 then c.csrfMaxAge else 1_200_000_000_000
    ensures n.roleTTL == if c.roleTTL > 0 then c.roleTTL else 120_000_000_000
  {
    var maxAge := if c.maxAge <= 0 then 24 * 60 * MINUTE else c.maxAge;
    Config(maxAge,
           if c.idle <= 0 then maxAge else c.idle,
           if c.identityTTL <= 0 || c.identityTTL > maxAge then maxAge else c.identityTTL,
           if c.csrfMaxAge <= 0 then 20 * MINUTE else c.csrfMaxAge,
           if c.roleTTL <= 0 then 2 * MINUTE else c.roleTTL,
           c.denyRolesOnError)
  }

  predicate FitsInt64(c: Config) {
    c.maxAge <= MAX_INT64 && c.idle <= MAX_INT64 && c.csrfMaxAge <= MAX_INT64 && c.roleTTL <= MAX_INT64
  }

  predicate ValidConfig(c: Config) {
    && 0 < c.maxAge <= MAX_INT64 && 0 < c.idle <= MAX_INT64 && 0 < c.identityTTL <= c.maxAge
    && 0 < c.csrfMaxAge <= MAX_INT64 && 0 < c.roleTTL <= MAX_INT64
  }

  /// State

  datatype Identity = Identity(id: Int64, profile: string)
  datatype Csrf = Csrf(value: string, expiresAt: int)
  datatype Entry = Entry(identity: Option<Identity>, token: string, validatedAt: int, lastActivity: int,
                         expiresAt: int, csrf: Option<Csrf>)
  datatype RoleEntry = RoleEntry(roles: seq<string>, expiresAt: int)

  /** `cache` is keyed by token hash, `sessions` lists tokens by user. */
  datatype State = State(cache: map<string, Entry>, sessions: map<Int64, set<string>>, roles: map<Int64, RoleEntry>)

  const EMPTY := State(map[], map[], map[])

  /** The tokens listed for a user. */
  function ActiveSessions(s: State, userID: Int64): set<string> {
    At(s.sessions, userID)
  }

  /// Critical sections

  function RemoveIdentity(s: State, h: string): State {
    if h !in s.cache then s
    else
      var e := s.cache[h];
      s.(cache := s.cache - {h},
         sessions := if e.identity.None? then s.sessions else RemoveFrom(s.sessions, e.identity.value.id, e.token))
  }

  function SetIdentity(s: State, h: string, token: string, userID: Int64, e: Entry): State {
    var t := RemoveIdentity(s, h);
    t.(cache := t.cache[h := e.(token := token)],
       sessions := if userID != 0 then AddTo(t.sessions, userID, token) else t.sessions)
  }

  /** The freshness test of the identity cache at time `now`. */
  predicate Fresh(e: Entry, cfg: Config, now: int) {
    now < e.expiresAt && Sub(now, e.lastActivity) < cfg.idle && Sub(now, e.validatedAt) < cfg.identityTTL
  }

  predicate Hit(s: State, cfg: Config, h: string, now: int) {
    h in s.cache && Fresh(s.cache[h], cfg, now)
  }

  /** The second critical section of a hit: recording activity, if the entry is still there and not expired. */
  function Touch(s: State, h: string, now: int): State {
    if h in s.cache && now < s.cache[h].expiresAt
    then s.(cache := s.cache[h := s.cache[h].(lastActivity := now)])
    else s
  }

  /** A cached entry answers before its expiry, within the idle limit and within the cache lifetime, at no other time. */
  lemma HitIff(s: State, cfg: Config, h: string, now: int)
    requires ValidConfig(cfg)
    ensures Hit(s, cfg, h, now) <==>
            h in s.cache && now < s.cache[h].expiresAt && now - s.cache[h].lastActivity < cfg.idle
            && now - s.cache[h].validatedAt < cfg.identityTTL
  {
  }

  /** Activity is not recorded for an entry that is gone or expired, nor for any other. */
  lemma TouchExactly(s: State, h: string, now: int, g: string)
    ensures Touch(s, h, now).cache.Keys == s.cache.Keys
    ensures Touch(s, h, now).sessions == s.sessions && Touch(s, h, now).roles == s.roles
    ensures g in s.cache ==>
              Touch(s, h, now).cache[g] ==
              if g == h && now < s.cache[g].expiresAt then s.cache[g].(lastActivity := now) else s.cache[g]
  {
  }

  /** A hit slides the idle limit, but neither the cache lifetime nor the end of the session. */
  lemma TouchSlides(s: State, cfg: Config, h: string, now: int, later: int)
    requires ValidConfig(cfg) && Hit(s, cfg, h, now) && now <= later
    ensures Hit(Touch(s, h, now), cfg, h, later) <==>
            later < s.cache[h].expiresAt && later - now < cfg.idle && later - s.cache[h].validatedAt < cfg.identityTTL
    ensures Touch(s, h, now) == s.(cache := s.cache[h := Touch(s, h, now).cache[h]])
  {
  }

  function SetCsrf(s: State, cfg: Config, h: string, value: string, now: int): State {
    if h in s.cache then s.(cache := s.cache[h := s.cache[h].(csrf := Some(Csrf(value, now + cfg.csrfMaxAge)))]) else s
  }

  datatype CsrfAnswer = NoSession | NoToken | Expired | Compared(equal: bool)

  function CheckCsrf(s: State, h: string, value: string, now: int): CsrfAnswer {
    if h !in s.cache then NoSession
    else
      match s.cache[h].csrf
      case None => NoToken
      case Some(c) => if now > c.expiresAt then Expired else Compared(value == c.value)
  }

  /** A CSRF token that was set answers until its lifetime is over, to its own value only; other sessions are as before. */
  lemma SetThenCheck(s: State, cfg: Config, h: string, issued: string, at: int, g: string, value: string, now: int)
    requires h in s.cache
    ensures CheckCsrf(SetCsrf(s, cfg, h, issued, at), g, value, now) ==
            if g != h then CheckCsrf(s, g, value, now)
            else if now - at > cfg.csrfMaxAge then Expired
            else Compared(value == issued)
  {
  }

  /** The refusals tell an unknown session from one without a token. */
  lemma CheckRefusals(s: State, h: string, value: string, now: int)
    ensures CheckCsrf(s, h, value, now) == NoSession <==> h !in s.cache
    ensures CheckCsrf(s, h, value, now) == NoToken <==> h in s.cache && s.cache[h].csrf == None
  {
  }

  predicate Accepts(s: State, h: string, value: string, now: int) {
    CheckCsrf(s, h, value, now) == Compared(true)
  }

  /** Eviction uses a strict comparison where the cache check does not. */
  predicate Due(e: Entry, cfg: Config, now: int) {
    now >= e.expiresAt || Sub(now, e.lastActivity) > cfg.idle
  }

  function Evict(s: State, cfg: Config, now: int): State {
    var kept := map h | h in s.cache && !Due(s.cache[h], cfg, now) :: s.cache[h];
    State(kept, Reindexed(kept), CurrentRoles(s.roles, now))
  }

  function CurrentRoles(roles: map<Int64, RoleEntry>, now: int): map<Int64, RoleEntry> {
    map u | u in roles && now < roles[u].expiresAt :: roles[u]
  }

  /** The index that a cache determines: for each non-zero user, the tokens of its cached entries. */
  function Reindexed(cache: map<string, Entry>): map<Int64, set<string>> {
    map u | u in UserIDs(cache) :: TokensOf(cache, u)
  }

  function UserIDs(cache: map<string, Entry>): set<Int64> {
    set h | h in cache && cache[h].identity.Some? && cache[h].identity.value.id != 0 :: cache[h].identity.value.id
  }

  function TokensOf(cache: map<string, Entry>, u: Int64): set<string> {
    set h | h in cache && BelongsTo(cache[h], u) :: cache[h].token
  }

  predicate BelongsTo(e: Entry, u: Int64) {
    u != 0 && e.identity.Some? && e.identity.value.id == u
  }

  /// The index invariant

  /** Each entry is filed under the hash of its own token. */
  ghost predicate Keyed(s: State, hash: string -> string) {
    forall h | h in s.cache :: hash(s.cache[h].token) == h
  }

  /** A token is listed for a user just when its entry is cached with that user's identity. */
  ghost predicate IndexExact(s: State, hash: string -> string) {
    && NoEmpty(s.sessions)
    && forall u, t :: t in At(s.sessions, u) <==> Owns(s, hash, u, t)
  }

  predicate Owns(s: State, hash: string -> string, u: Int64, t: string) {
    hash(t) in s.cache && s.cache[hash(t)].token == t && BelongsTo(s.cache[hash(t)], u)
  }

  ghost predicate Inv(s: State, hash: string -> string) {
    Keyed(s, hash) && IndexExact(s, hash)
  }

  /** What setting an identity relies on: the key is the token's hash, and zero stands for no user. */
  predicate Legal(hash: string -> string, h: string, token: string, userID: Int64, e: Entry) {
    hash(token) == h && userID == (if e.identity.Some? then e.identity.value.id else 0)
  }

  lemma RemoveKeepsInv(s: State, hash: string -> string, h: string)
    requires Inv(s, hash)
    ensures Inv(RemoveIdentity(s, h), hash)
  {
    if h in s.cache && s.cache[h].identity.Some? {
      AtRemoveFrom(s.sessions, s.cache[h].identity.value.id, s.cache[h].token);
    }
  }

  lemma SetKeepsInv(s: State, hash: string -> string, h: string, token: string, userID: Int64, e: Entry)
    requires Inv(s, hash) && Legal(hash, h, token, userID, e)
    ensures Inv(SetIdentity(s, h, token, userID, e), hash)
  {
    RemoveKeepsInv(s, hash, h);
    AtAddTo(RemoveIdentity(s, h).sessions, userID, token);
  }

  /** Overwriting activity times or CSRF tokens in place touches neither keys nor the index. */
  lemma TouchKeepsInv(s: State, hash: string -> string, h: string, now: int)
    requires Inv(s, hash)
    ensures Inv(Touch(s, h, now), hash)
  {
  }

  lemma SetCsrfKeepsInv(s: State, hash: string -> string, cfg: Config, h: string, value: string, now: int)
    requires Inv(s, hash)
    ensures Inv(SetCsrf(s, cfg, h, value, now), hash)
  {
  }

  /** The invariant leaves the index no freedom: it is the one the cache determines. */
  lemma IndexIsDetermined(s: State, hash: string -> string)
    requires Keyed(s, hash)
    ensures IndexExact(s, hash) <==> s.sessions == Reindexed(s.cache)
  {
    forall u, t ensures t in At(Reindexed(s.cache), u) <==> Owns(s, hash, u, t) {
      if Owns(s, hash, u, t) {
        assert hash(t) in s.cache && BelongsTo(s.cache[hash(t)], u);
        assert u in UserIDs(s.cache);
      }
    }
    forall u | u in UserIDs(s.cache) ensures TokensOf(s.cache, u) != {} {
      var h :| h in s.cache && BelongsTo(s.cache[h], u);
      assert s.cache[h].token in TokensOf(s.cache, u);
    }
    if IndexExact(s, hash) {
      forall u ensures At(s.sessions, u) == At(Reindexed(s.cache), u) {
      }
      SameIndex(s.sessions, Reindexed(s.cache));
    }
  }

  lemma SameIndex<K(!new), V>(a: map<K, set<V>>, b: map<K, set<V>>)
    requires NoEmpty(a) && NoEmpty(b) && forall k :: At(a, k) == At(b, k)
    ensures a == b
  {
    forall k ensures k in a <==> k in b {
      assert At(a, k) == At(b, k);
    }
    assert a.Keys == b.Keys;
    forall k | k in a ensures a[k] == b[k] {
      assert At(a, k) == At(b, k);
    }
  }

  lemma EvictKeepsInv(s: State, hash: string -> string, cfg: Config, now: int)
    requires Inv(s, hash)
    ensures Inv(Evict(s, cfg, now), hash)
  {
    IndexIsDetermined(Evict(s, cfg, now), hash);
  }

  /// What eviction may and must remove

  /** An entry that is due would be refused by the cache check, now and at any later time. */
  lemma DueStaysRefused(e: Entry, cfg: Config, now: int, later: int)
    requires ValidConfig(cfg) && Due(e, cfg, now) && now <= later
    ensures !Fresh(e, cfg, later)
  {
  }

  lemma EvictExactly(s: State, cfg: Config, now: int, h: string)
    requires ValidConfig(cfg) && h in s.cache
    ensures h !in Evict(s, cfg, now).cache ==> forall later | now <= later :: !Hit(s, cfg, h, later)
    ensures h in Evict(s, cfg, now).cache <==>
            now < s.cache[h].expiresAt && Sub(now, s.cache[h].lastActivity) <= cfg.idle
    ensures h in Evict(s, cfg, now).cache ==> Evict(s, cfg, now).cache[h] == s.cache[h]
  {
    if h !in Evict(s, cfg, now).cache {
      forall later | now <= later ensures !Hit(s, cfg, h, later) {
        DueStaysRefused(s.cache[h], cfg, now, later);
      }
    }
  }

  /** Role entries go when they expire, and not before. */
  lemma EvictRolesExactly(s: State, cfg: Config, now: int, u: Int64)
    ensures u in Evict(s, cfg, now).roles <==> u in s.roles && now < s.roles[u].expiresAt
    ensures u in Evict(s, cfg, now).roles ==> Evict(s, cfg, now).roles[u] == s.roles[u]
  {
  }

  /** An anonymous entry, whose validation time is Go's zero time, never answers a cache check. */
  lemma AnonymousNeverHits(e: Entry, cfg: Config, now: int)
    requires ValidConfig(cfg) && e.validatedAt == ZERO_TIME && now >= 0
    ensures !Fresh(e, cfg, now)
  {
  }
}
