/** Looking up a request path among route keys, with `{name}` placeholders for numeric segments. */
module Routing {
  import opened Text
  import opened Wrappers

  /// Slashes and segments

  function TrimLeft(s: string): string {
    if s != "" && s[0] == '/' then TrimLeft(s[1..]) else s
  }

  function TrimRight(s: string): string {
    if s != "" && s[|s| - 1] == '/' then TrimRight(s[..|s| - 1]) else s
  }

  /** `strings.Trim(s, "/")`. */
  function Trim(s: string): string {
    TrimRight(TrimLeft(s))
  }

  predicate EndsInSlash(s: string) {
    s != "" && s[|s| - 1] == '/'
  }

  /** `strings.TrimSuffix(s, "/")`. */
  function TrimSuffix(s: string): string {
    if EndsInSlash(s) then s[..|s| - 1] else s
  }

  function Segments(s: string): (parts: seq<string>)
    ensures parts != [] && forall i | 0 <= i < |parts| :: '/' !in parts[i]
  {
    Split(Trim(s), '/')
  }

  /** The same path with its trailing slash added or taken away. */
  function Toggled(path: string): string {
    if EndsInSlash(path) then path[..|path| - 1] else path + "/"
  }

  lemma {:induction false} TrimLeftSlash(s: string)
    ensures TrimLeft(s + "/") == if TrimLeft(s) == "" then "" else TrimLeft(s) + "/"
    decreases |s|
  {
    if s == "" {
      assert ("" + "/")[1..] == "";
    } else {
      assert (s + "/")[1..] == s[1..] + "/";
      if s[0] == '/' {
        TrimLeftSlash(s[1..]);
      }
    }
  }

  /** Trimming does not see one trailing slash more or less. */
  lemma TrimSlash(s: string)
    ensures Trim(s + "/") == Trim(s)
  {
    TrimLeftSlash(s);
    var t := TrimLeft(s);
    if t != "" {
      assert (t + "/")[..|t + "/"| - 1] == t;
    }
  }

  lemma TrimToggled(path: string)
    ensures Trim(Toggled(path)) == Trim(path) && Trim(TrimSuffix(path)) == Trim(path)
  {
    TrimSlash(path);
    if EndsInSlash(path) {
      var s := path[..|path| - 1];
      assert path == s + "/";
      TrimSlash(s);
    }
  }

  /// Matching one key

  predicate Placeholder(segment: string) {
    segment != "" && segment[0] == '{' && segment[|segment| - 1] == '}'
  }

  /** A segment stands for itself, and a placeholder also for any 64-bit decimal. */
  predicate Stands(segment: string, part: string) {
    segment == part || (Placeholder(segment) && ParseInt64(part).Some?)
  }

  /** The comparison of the dynamic pass, segment by segment. */
  predicate KeyMatches(key: string, path: string) {
    var k, p := Segments(TrimSuffix(key)), Segments(path);
    |k| == |p| && forall i | 0 <= i < |k| :: Stands(k[i], p[i])
  }

  /** The path is the key with each segment left as it is or, if a placeholder, replaced by a decimal. */
  ghost predicate IsInstance(key: string, path: string) {
    exists parts :: IsSubstitution(Segments(key), parts) && Trim(path) == Join(parts, '/')
  }

  ghost predicate IsSubstitution(segments: seq<string>, parts: seq<string>) {
    |parts| == |segments| && forall i | 0 <= i < |parts| :: Stands(segments[i], parts[i])
  }

  lemma DecimalsHaveNoSlash(s: string)
    requires ParseInt64(s).Some?
    ensures '/' !in s
  {
    var signed := s[0] == '-' || s[0] == '+';
    var digits := if signed then s[1..] else s;
    forall i | 0 <= i < |s| ensures s[i] != '/' {
      if !signed || i > 0 {
        assert IsDigit(digits[if signed then i - 1 else i]);
      }
    }
  }

  /** The dynamic pass finds a key exactly when the path is an instance of it. */
  lemma MatchIsSubstitution(key: string, path: string)
    ensures KeyMatches(key, path) <==> IsInstance(key, path)
  {
    TrimToggled(key);
    var k := Segments(key);
    if KeyMatches(key, path) {
      JoinSplit(Trim(path), '/');
      assert IsSubstitution(k, Segments(path));
    }
    if IsInstance(key, path) {
      var parts :| IsSubstitution(k, parts) && Trim(path) == Join(parts, '/');
      forall i | 0 <= i < |parts| ensures '/' !in parts[i] {
        assert Stands(k[i], parts[i]);
        if k[i] != parts[i] {
          DecimalsHaveNoSlash(parts[i]);
        }
      }
      SplitJoin(parts, '/');
    }
  }

  /** Toggling the trailing slash of the path never changes what matches dynamically. */
  lemma SlashNeverMatters(key: string, path: string)
    ensures KeyMatches(key, Toggled(path)) == KeyMatches(key, path)
  {
    TrimToggled(path);
  }

  /** A placeholder, other than itself, stands for signed and unsigned decimals that fit 64 bits, and for nothing else. */
  lemma PlaceholderStandsFor(name: string, part: string)
    requires part != "{" + name + "}"
    ensures Stands("{" + name + "}", part) <==> exists sign, zeros, n :: IsInteger(part, sign, zeros, n)
  {
    var segment := "{" + name + "}";
    assert segment[0] == '{' && segment[|segment| - 1] == '}';
    ParseInt64Iff(part);
  }

  /** Any other segment stands for itself only. */
  lemma LiteralStandsForItself(segment: string, part: string)
    requires segment == "" || segment[0] != '{' || segment[|segment| - 1] != '}'
    ensures Stands(segment, part) <==> segment == part
  {
  }

  /// The lookup

  method MatchesKey(key: string, reqParts: seq<string>) returns (matched: bool)
    ensures matched <==> IsSubstitution(Segments(TrimSuffix(key)), reqParts)
  {
    var keyParts := Segments(TrimSuffix(key));
    if |keyParts| != |reqParts| {
      return false;
    }
    matched := true;
    for i := 0 to |keyParts|
      invariant matched && forall j | 0 <= j < i :: Stands(keyParts[j], reqParts[j])
    {
      var kp := keyParts[i];
      if kp == reqParts[i] {
        continue;
      }
      if Placeholder(kp) {
        if ParseInt64(reqParts[i]).None? {
          matched := false;
          break;
        }
        continue;
      }
      matched := false;
      break;
    }
  }

  /** What a lookup may return: Go's map order decides between several dynamic matches. */
  ghost predicate IsResult(keys: set<string>, path: string, r: Option<string>) {
    if path in keys then r == Some(path)
    else if Toggled(path) in keys then r == Some(Toggled(path))
    else if exists key :: key in keys && KeyMatches(key, path) then r.Some? && r.value in keys && KeyMatches(r.value, path)
    else r == None
  }

  /** The path itself wins, then the path with its last slash added or removed, then any instance; else nothing is found. */
  lemma LookupOrder(keys: set<string>, path: string, r: Option<string>)
    requires IsResult(keys, path, r)
    ensures r.Some? ==> r.value in keys
    ensures path in keys ==> r == Some(path)
    ensures path !in keys && !EndsInSlash(path) && path + "/" in keys ==> r == Some(path + "/")
    ensures path !in keys && EndsInSlash(path) && path[..|path| - 1] in keys ==> r == Some(path[..|path| - 1])
    ensures r.Some? ==> r.value in {path, Toggled(path)} || IsInstance(r.value, path)
    ensures r == None <==> path !in keys && Toggled(path) !in keys && forall key | key in keys :: !IsInstance(key, path)
  {
    forall key {
      MatchIsSubstitution(key, path);
    }
  }

  /** The path that is looked up: that of the parsed URL, or the given text if it is no URL. */
  function PathOf(given: string, parsed: Option<string>): string {
    match parsed
    case Some(path) => path
    case None => given
  }

  /** `parsed` is what URL parsing makes of the given text. */
  method MatchRoute(keys: set<string>, given: string, parsed: Option<string>) returns (r: Option<string>)
    ensures IsResult(keys, if parsed.Some? then parsed.value else given, r)
    ensures IsResult(keys, PathOf(given, parsed), r)
  {
    var path := given;
    if parsed.Some? {
      path := parsed.value;
    }
    if path in keys {
      return Some(path);
    }
    var candidates := [path, Toggled(path)];
    for i := 0 to 2
      invariant forall j | 0 <= j < i :: candidates[j] !in keys
    {
      if candidates[i] in keys {
        return Some(candidates[i]);
      }
    }
    assert candidates[1] == Toggled(path);
    for i := 0 to 2
      invariant i > 0 ==> forall key | key in keys :: !KeyMatches(key, path)
    {
      TrimToggled(path);
      r := MatchDynamic(keys, path, Segments(candidates[i]));
      if r.Some? {
        return;
      }
    }
    return None;
  }

  /** One pass over the routes, in any order. */
  method MatchDynamic(keys: set<string>, ghost path: string, reqParts: seq<string>) returns (r: Option<string>)
    requires reqParts == Segments(path)
    ensures match r
            case Some(key) => key in keys && KeyMatches(key, path)
            case None => forall key | key in keys :: !KeyMatches(key, path)
  {
    var todo := keys;
    while todo != {}
      invariant todo <= keys && forall key | key in keys - todo :: !KeyMatches(key, path)
      decreases todo
    {
      var key :| key in todo;
      var matched := MatchesKey(key, reqParts);
      if matched {
        return Some(key);
      }
      todo := todo - {key};
    }
    return None;
  }

  /// Trailing slashes

  ghost predicate AtMostOneMatch(keys: set<string>, path: string) {
    forall a, b | a in keys && b in keys && KeyMatches(a, path) && KeyMatches(b, path) :: a == b
  }

  ghost predicate SameWithSlash(keys: set<string>, path: string) {
    forall a, b | IsResult(keys, path, a) && IsResult(keys, path + "/", b) :: a == b
  }

  /**
   A path and the same path with a slash always resolve to the same key, if and only if they are not both keys
   and, when neither is, at most one key matches.
   */
  lemma SameWithSlashIff(keys: set<string>, path: string)
    requires !EndsInSlash(path)
    ensures SameWithSlash(keys, path) <==>
            !(path in keys && path + "/" in keys)
            && (path in keys || path + "/" in keys || AtMostOneMatch(keys, path))
  {
    var slashed := path + "/";
    assert Toggled(path) == slashed && Toggled(slashed) == path;
    forall key {
      SlashNeverMatters(key, path);
    }
    if path in keys && slashed in keys {
      assert IsResult(keys, path, Some(path)) && IsResult(keys, slashed, Some(slashed));
      assert Some(path) != Some(slashed);
    } else if path !in keys && slashed !in keys && !AtMostOneMatch(keys, path) {
      var a, b :| a in keys && b in keys && KeyMatches(a, path) && KeyMatches(b, path) && a != b;
      assert IsResult(keys, path, Some(a)) && IsResult(keys, slashed, Some(b));
    }
  }
}
