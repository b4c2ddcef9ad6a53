/** The HTTP side of sessions: reading and rewriting request cookies, and when a request may go on. */
module RequestCookies {
  import opened Wrappers
  import opened SessionModel
  import opened SessionRequests
  import BrokerModel
  import Broker
  import SessionManager

  datatype Cookie = Cookie(name: string, value: string)

  /** The value of the first cookie of that name. */
  function First(cookies: seq<Cookie>, name: string): Option<string> {
    if cookies == [] then None
    else if cookies[0].name == name then Some(cookies[0].value)
    else First(cookies[1..], name)
  }

  /** The cookies of one name, and all others in order. */
  function Named(cookies: seq<Cookie>, name: string): seq<Cookie> {
    if cookies == [] then []
    else (if cookies[0].name == name then [cookies[0]] else []) + Named(cookies[1..], name)
  }

  function Others(cookies: seq<Cookie>, names: set<string>): seq<Cookie> {
    if cookies == [] then []
    else if cookies[0].name in names then Others(cookies[1..], names)
    else [cookies[0]] + Others(cookies[1..], names)
  }

  /** The first cookie of that name gets the value, later ones go, and a missing one is appended. */
  function Replaced(cookies: seq<Cookie>, name: string, value: string): seq<Cookie> {
    if cookies == [] then [Cookie(name, value)]
    else if cookies[0].name == name then [Cookie(name, value)] + Others(cookies[1..], {name})
    else [cookies[0]] + Replaced(cookies[1..], name, value)
  }

  const REFRESH := "_refresh"

  /** The cookies after a rotation was handed to the client; without a new session nothing changes. */
  function Rewritten(cookies: seq<Cookie>, name: string, session: string, refresh: string): seq<Cookie> {
    if session == "" then cookies
    else
      var first := Replaced(cookies, name, session);
      if refresh == "" then first else Replaced(first, name + REFRESH, refresh)
  }

  /** The cookies set on the response. */
  function Issued(name: string, session: string, refresh: string): seq<Cookie> {
    if session == "" then []
    else [Cookie(name, session)] + (if refresh == "" then [] else [Cookie(name + REFRESH, refresh)])
  }

  function RequestTokens(cookies: seq<Cookie>, name: string): Option<(string, string)> {
    match First(cookies, name)
    case None => None
    case Some(value) =>
      if value == "" then None
      else
        match First(cookies, name + REFRESH)
        case None => Some((value, ""))
        case Some(refresh) => Some((value, refresh))
  }

  /// What rewriting does

  lemma {:induction false} OthersTwice(cookies: seq<Cookie>, few: set<string>, many: set<string>)
    requires few <= many
    ensures Others(Others(cookies, few), many) == Others(cookies, many)
    decreases |cookies|
  {
    if cookies != [] {
      OthersTwice(cookies[1..], few, many);
      if cookies[0].name !in few {
        assert ([cookies[0]] + Others(cookies[1..], few))[1..] == Others(cookies[1..], few);
      }
    }
  }

  lemma {:induction false} OthersHasNone(cookies: seq<Cookie>, name: string, names: set<string>)
    requires name in names
    ensures Named(Others(cookies, names), name) == []
    decreases |cookies|
  {
    if cookies != [] {
      OthersHasNone(cookies[1..], name, names);
      if cookies[0].name !in names {
        assert Others(cookies, names)[1..] == Others(cookies[1..], names);
      }
    }
  }

  lemma {:induction false} OthersKeepsNamed(cookies: seq<Cookie>, name: string, names: set<string>)
    requires name !in names
    ensures Named(Others(cookies, names), name) == Named(cookies, name)
    decreases |cookies|
  {
    if cookies != [] {
      OthersKeepsNamed(cookies[1..], name, names);
      if cookies[0].name !in names {
        assert Others(cookies, names)[1..] == Others(cookies[1..], names);
      }
    }
  }

  /** Exactly one cookie of that name is left, with the new value; all others keep value and order. */
  lemma {:induction false} ReplacedExactly(cookies: seq<Cookie>, name: string, value: string, names: set<string>)
    requires name in names
    ensures Named(Replaced(cookies, name, value), name) == [Cookie(name, value)]
    ensures First(Replaced(cookies, name, value), name) == Some(value)
    ensures Others(Replaced(cookies, name, value), names) == Others(cookies, names)
    decreases |cookies|
  {
    var r := Replaced(cookies, name, value);
    if cookies == [] {
      assert r[1..] == [];
    } else if cookies[0].name == name {
      assert r[1..] == Others(cookies[1..], {name});
      OthersHasNone(cookies[1..], name, {name});
      OthersTwice(cookies[1..], {name}, names);
    } else {
      assert r[1..] == Replaced(cookies[1..], name, value);
      ReplacedExactly(cookies[1..], name, value, names);
    }
  }

  lemma {:induction false} ReplacedKeepsNamed(cookies: seq<Cookie>, name: string, value: string, other: string)
    requires other != name
    ensures Named(Replaced(cookies, name, value), other) == Named(cookies, other)
    decreases |cookies|
  {
    var r := Replaced(cookies, name, value);
    if cookies == [] {
      assert r[1..] == [];
    } else if cookies[0].name == name {
      assert r[1..] == Others(cookies[1..], {name});
      OthersKeepsNamed(cookies[1..], other, {name});
    } else {
      assert r[1..] == Replaced(cookies[1..], name, value);
      ReplacedKeepsNamed(cookies[1..], name, value, other);
    }
  }

  lemma FirstIsNamed(cookies: seq<Cookie>, name: string)
    ensures First(cookies, name) == if Named(cookies, name) == [] then None else Some(Named(cookies, name)[0].value)
  {
  }

  /**
   A rotation leaves exactly one session cookie, holding the new token; a new refresh token likewise; and every
   cookie with another name keeps its value and its place among the others.
   */
  lemma RewrittenExactly(cookies: seq<Cookie>, name: string, session: string, refresh: string)
    requires session != ""
    ensures var r := Rewritten(cookies, name, session, refresh);
            && Named(r, name) == [Cookie(name, session)] && First(r, name) == Some(session)
            && Named(r, name + REFRESH) ==
               (if refresh != "" then [Cookie(name + REFRESH, refresh)] else Named(cookies, name + REFRESH))
            && Others(r, {name, name + REFRESH}) == Others(cookies, {name, name + REFRESH})
  {
    var names := {name, name + REFRESH};
    var first := Replaced(cookies, name, session);
    assert |name + REFRESH| > |name|;
    ReplacedExactly(cookies, name, session, names);
    ReplacedKeepsNamed(cookies, name, session, name + REFRESH);
    if refresh != "" {
      ReplacedExactly(first, name + REFRESH, refresh, names);
      ReplacedKeepsNamed(first, name + REFRESH, refresh, name);
      FirstIsNamed(Replaced(first, name + REFRESH, refresh), name);
    }
  }

  /** Without a new session nothing is rewritten and nothing is set on the response. */
  lemma NothingWithoutSession(cookies: seq<Cookie>, name: string, refresh: string)
    ensures Rewritten(cookies, name, "", refresh) == cookies && Issued(name, "", refresh) == []
  {
  }

  /** The response sets the new session cookie once, and the refresh cookie only if there is a new refresh token. */
  lemma IssuedExactly(name: string, session: string, refresh: string)
    requires session != ""
    ensures var issued := Issued(name, session, refresh);
            && First(issued, name) == Some(session)
            && First(issued, name + REFRESH) == (if refresh != "" then Some(refresh) else None)
            && |issued| == (if refresh != "" then 2 else 1)
  {
    assert |name + REFRESH| > |name|;
    assert forall rest: seq<Cookie> :: ([Cookie(name, session)] + rest)[1..] == rest;
  }

  /** A request has tokens if its first session cookie has a value; the refresh token is its first refresh cookie's. */
  lemma RequestTokensExactly(cookies: seq<Cookie>, name: string)
    ensures RequestTokens(cookies, name).Some? <==>
            exists i :: 0 <= i < |cookies| && IsFirst(cookies, name, i) && cookies[i].value != ""
    ensures forall i | 0 <= i < |cookies| && IsFirst(cookies, name, i) && cookies[i].value != "" ::
              RequestTokens(cookies, name).value.0 == cookies[i].value
    ensures RequestTokens(cookies, name).Some? ==>
              RequestTokens(cookies, name).value.1 ==
              (if First(cookies, name + REFRESH).Some? then First(cookies, name + REFRESH).value else "")
  {
    FirstIs(cookies, name);
  }

  predicate IsFirst(cookies: seq<Cookie>, name: string, i: nat)
    requires i < |cookies|
  {
    cookies[i].name == name && forall j | 0 <= j < i :: cookies[j].name != name
  }

  lemma {:induction false} FirstIs(cookies: seq<Cookie>, name: string)
    ensures First(cookies, name) == None <==> forall i | 0 <= i < |cookies| :: cookies[i].name != name
    ensures First(cookies, name).Some? ==>
              exists i :: 0 <= i < |cookies| && IsFirst(cookies, name, i) && First(cookies, name) == Some(cookies[i].value)
    ensures forall i | 0 <= i < |cookies| && IsFirst(cookies, name, i) :: First(cookies, name) == Some(cookies[i].value)
    decreases |cookies|
  {
    if cookies != [] {
      if cookies[0].name == name {
        assert IsFirst(cookies, name, 0);
      } else {
        var rest := cookies[1..];
        FirstIs(rest, name);
        assert forall i | 0 < i < |cookies| :: cookies[i] == rest[i - 1];
        forall i | 0 <= i < |cookies| && IsFirst(cookies, name, i)
          ensures First(cookies, name) == Some(cookies[i].value)
        {
          assert IsFirst(rest, name, i - 1);
        }
        if First(rest, name).Some? {
          var k :| 0 <= k < |rest| && IsFirst(rest, name, k) && First(rest, name) == Some(rest[k].value);
          assert IsFirst(cookies, name, k + 1);
        }
      }
    }
  }

  /// The handlers

  /** What becomes of a request: passed on, sent to the login page, or refused with an error status. */
  datatype Reply = Continue(user: Option<User>) | Redirect | Refuse

  /** A request with the cookies its response sets. */
  class Exchange {
    var cookies: seq<Cookie>
    var issued: seq<Cookie>
    const connection: Option<nat>  // the parsed connection header

    constructor (cookies: seq<Cookie>, connection: Option<nat>)
      ensures this.cookies == cookies && issued == [] && this.connection == connection
    {
      this.cookies, issued := cookies, [];
      this.connection := connection;
    }

    /** One pass with a flag that says whether the cookie was replaced already. */
    method ReplaceCookie(name: string, value: string)
      modifies this`cookies
      ensures cookies == Replaced(old(cookies), name, value)
    {
      var was, now, replaced := cookies, [], false;
      for i := 0 to |was|
        invariant Replaced(was, name, value) == now + Rest(was, i, name, value, replaced)
      {
        RestStep(was, i, name, value, replaced);
        if was[i].name == name {
          if !replaced {
            now := now + [Cookie(name, value)];
            replaced := true;
          }
        } else {
          now := now + [was[i]];
        }
      }
      if !replaced {
        now := now + [Cookie(name, value)];
      }
      cookies := now;
    }

    method SetCookies(name: string, session: string, refresh: string)
      modifies this
      ensures cookies == Rewritten(old(cookies), name, session, refresh)
      ensures issued == old(issued) + Issued(name, session, refresh)
    {
      if session == "" {
        return;
      }
      issued := issued + [Cookie(name, session)];
      ReplaceCookie(name, session);
      if refresh != "" {
        issued := issued + [Cookie(name + REFRESH, refresh)];
        ReplaceCookie(name + REFRESH, refresh);
      }
    }
  }

  /** The broker's state once the connection named by the request follows the rotation. */
  function Rerouted(b: BrokerModel.State, connection: Option<nat>, session: string): BrokerModel.State {
    if session != "" && connection.Some? then BrokerModel.Rotate(b, connection.value, session) else b
  }

  /** Without a named connection or a new session the broker is left alone. */
  lemma ReroutedOnlyNamed(b: BrokerModel.State, connection: Option<nat>, session: string)
    ensures connection == None || session == "" ==> Rerouted(b, connection, session) == b
    ensures connection.Some? && connection.value in b.conns && session != "" ==>
              connection.value in Rerouted(b, connection, session).conns
              && Rerouted(b, connection, session).conns[connection.value].meta.sessionID == session
    ensures forall id | id in b.conns && connection != Some(id) ::
              id in Rerouted(b, connection, session).conns && Rerouted(b, connection, session).conns[id] == b.conns[id]
  {
  }

  method SetRotatedSessionCookies(x: Exchange, b: Broker.Broker, name: string, session: string, refresh: string)
    requires b.Valid()
    modifies x, b, b.connections.Values
    ensures x.cookies == Rewritten(old(x.cookies), name, session, refresh)
    ensures x.issued == old(x.issued) + Issued(name, session, refresh)
    ensures b.Valid() && b.model == Rerouted(old(b.model), x.connection, session)
  {
    if session != "" && x.connection.Some? {
      var _ := b.UpdateConnectionSessionID(x.connection.value, session);
    }
    x.SetCookies(name, session, refresh);
  }

  /** New tokens were handed on: to the request, to the response, and to the broker. */
  ghost predicate Handed(o: Outcome, connection: Option<nat>, name: string, was: seq<Cookie>, now: seq<Cookie>,
                         issuedBefore: seq<Cookie>, issued: seq<Cookie>, b: BrokerModel.State, t: BrokerModel.State)
    requires o.Outcome?
  {
    && now == Rewritten(was, name, o.session, o.refresh)
    && issued == issuedBefore + Issued(name, o.session, o.refresh)
    && t == Rerouted(b, connection, o.session)
  }

  /** What one call of the session manager depends on, for this manager and token. */
  ghost predicate Fits(c: Context, m: SessionManager.Manager, cookies: seq<Cookie>, name: string) {
    && c.cfg == m.cfg && c.hash == m.hash
    && (c.answer.Answered? && First(cookies, name).Some? && Rotates(First(cookies, name).value, c.answer.session) ==>
          c.hash(c.answer.session) != c.hash(First(cookies, name).value))
  }

  /**
   A request goes on only with a session token that the manager knows, so that a CSRF token can be set for it;
   a refused request leaves the identity cache, the user index, the routing and all cookies as they were.
   */
  method EnsureSessionKnown(m: SessionManager.Manager, b: Broker.Broker, x: Exchange, name: string, c: Context,
                            anonymous: string) returns (reply: Reply)
    requires m.Valid() && b.Valid() && Fits(c, m, x.cookies, name) && anonymous != ""
    modifies m, x, b, b.connections.Values
    ensures m.Valid() && b.Valid()
    ensures match RequestTokens(old(x.cookies), name)
            case None => reply == Refuse && m.View() == old(m.View())
            case Some((token, _)) =>
              var (t, o) := EnsureKnown(old(m.View()), c, token, anonymous);
              m.View() == t && (reply == if o.Error? then Refuse else Continue(None))
              && (o.Outcome? ==> Handed(o, x.connection, name, old(x.cookies), x.cookies, old(x.issued), x.issued,
                                        old(b.model), b.model))
    ensures c.answer.Failed? && !(RequestTokens(old(x.cookies), name).Some?
                                  && c.hash(RequestTokens(old(x.cookies), name).value.0) in old(m.identityCache)) ==>
              reply == Refuse && x.cookies == old(x.cookies) && x.issued == old(x.issued)
    ensures reply.Continue? ==>
              First(x.cookies, name).Some? && First(x.cookies, name).value != "" && m.HasSession(First(x.cookies, name).value)
    ensures !reply.Continue? ==>
              x.cookies == old(x.cookies) && x.issued == old(x.issued) && b.model == old(b.model)
              && m.identityCache == old(m.identityCache) && m.userSessions == old(m.userSessions)
  {
    var tokens := RequestTokens(x.cookies, name);
    if tokens.None? {
      return Refuse;
    }
    var token := tokens.value.0;
    ghost var s := m.View();
    if c.hash(token) !in m.identityCache {
      UnknownFailsIff(s, c, token, anonymous);
    }
    var o := m.EnsureKnown(token, anonymous, c);
    if o.Error? {
      ErrorChangesNothing(s, c, token, anonymous);
      return Refuse;
    }
    EnsureKnownKnows(s, c, token, anonymous);
    if o.session != "" {
      RewrittenExactly(x.cookies, name, o.session, o.refresh);
    }
    SetRotatedSessionCookies(x, b, name, o.session, o.refresh);
    return Continue(None);
  }

  /** Only requests with a user go on; with the cache bypassed it is the user auth_app just confirmed. */
  method RequireAuth(m: SessionManager.Manager, b: Broker.Broker, x: Exchange, name: string, c: Context, bypass: bool)
    returns (reply: Reply)
    requires m.Valid() && b.Valid() && c.cfg == m.cfg && c.hash == m.hash
    modifies m, x, b, b.connections.Values
    ensures m.Valid() && b.Valid()
    ensures match RequestTokens(old(x.cookies), name)
            case None => reply == Redirect && m.View() == old(m.View())
            case Some((token, _)) =>
              var (t, o) := Validate(old(m.View()), c, token, bypass);
              m.View() == t
              && (reply == if o.Error? then Refuse else if o.user.None? then Redirect else Continue(o.user))
              && (reply.Continue? ==> Handed(o, x.connection, name, old(x.cookies), x.cookies, old(x.issued), x.issued,
                                             old(b.model), b.model))
    ensures reply.Continue? ==> reply.user.Some? && RequestTokens(old(x.cookies), name).Some?
    ensures reply.Continue? ==>
              UserIsKnown(old(m.View()), c, RequestTokens(old(x.cookies), name).value.0, bypass, reply.user.value)
    ensures !reply.Continue? ==> x.cookies == old(x.cookies) && x.issued == old(x.issued) && b.model == old(b.model)
  {
    var tokens := RequestTokens(x.cookies, name);
    if tokens.None? {
      return Redirect;
    }
    ghost var s := m.View();
    var o := m.Validate(tokens.value.0, bypass, c);
    if o.Error? {
      return Refuse;
    }
    if o.user.None? {
      return Redirect;
    }
    ValidatedUserIsKnown(s, c, tokens.value.0, bypass);
    SetRotatedSessionCookies(x, b, name, o.session, o.refresh);
    return Continue(o.user);
  }

  /** Where a validated user comes from: this call's answer, or a fresh cache entry when the cache may be used. */
  ghost predicate UserIsKnown(s: State, c: Context, token: string, bypass: bool, user: User) {
    || (c.answer.Answered? && c.answer.user == Some(user.identity))
    || (!bypass && (Hit(s, c.cfg, c.hash(token), c.times.first) || Hit(s, c.cfg, c.hash(token), c.times.second))
        && s.cache[c.hash(token)].identity == Some(user.identity))
  }

  lemma ValidatedUserIsKnown(s: State, c: Context, token: string, bypass: bool)
    requires Validate(s, c, token, bypass).1.Outcome? && Validate(s, c, token, bypass).1.user.Some?
    ensures UserIsKnown(s, c, token, bypass, Validate(s, c, token, bypass).1.user.value)
  {
  }

  /** What the pass will still add from position `i` on. */
  function Rest(was: seq<Cookie>, i: nat, name: string, value: string, replaced: bool): seq<Cookie>
    requires i <= |was|
  {
    if replaced then Others(was[i..], {name}) else Replaced(was[i..], name, value)
  }

  lemma RestStep(was: seq<Cookie>, i: nat, name: string, value: string, replaced: bool)
    requires i < |was|
    ensures Rest(was, i, name, value, replaced) ==
            (if was[i].name != name then [was[i]] + Rest(was, i + 1, name, value, replaced)
             else if replaced then Rest(was, i + 1, name, value, true)
             else [Cookie(name, value)] + Rest(was, i + 1, name, value, true))
  {
    assert was[i..][0] == was[i] && was[i..][1..] == was[i + 1..];
  }
}
