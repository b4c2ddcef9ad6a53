/** Validation tags: the comma-rejoining parser of rule lists, and the collection of field errors. */
module TagParser {
  import opened Sequences
  import opened Text
  import opened Wrappers

  /** A rule of a tag; `None` is a rule written without a colon. */
  datatype Rule = Rule(key: string, param: Option<string>)

  /// Printing

  function PrintRule(r: Rule): string {
    match r.param
    case None => r.key
    case Some(p) => r.key + ":" + p
  }

  function PrintAll(rules: seq<Rule>): seq<string> {
    if rules == [] then [] else [PrintRule(rules[0])] + PrintAll(rules[1..])
  }

  function Print(rules: seq<Rule>): string {
    Join(PrintAll(rules), ',')
  }

  /// Parsing

  /** A parameter takes in the following pieces as long as they hold no colon. */
  function Absorb(param: string, rest: seq<string>): (r: (string, seq<string>))
    ensures |r.1| <= |rest|
    decreases |rest|
  {
    if rest != [] && ':' !in rest[0] then Absorb(param + "," + rest[0], rest[1..]) else (param, rest)
  }

  function ParsePieces(pieces: seq<string>): seq<Rule>
    decreases |pieces|
  {
    if pieces == [] then []
    else
      var i := IndexOf(pieces[0], ':');
      if i == |pieces[0]| then [Rule(pieces[0], None)] + ParsePieces(pieces[1..])
      else
        var (param, rest) := Absorb(pieces[0][i + 1..], pieces[1..]);
        [Rule(pieces[0][..i], Some(param))] + ParsePieces(rest)
  }

  function Parse(tag: string): seq<Rule> {
    ParsePieces(Split(tag, ','))
  }

  /** The source's loop over the pieces, whose index the rejoining of parameters advances, too. */
  method ParseTag(tag: string) returns (rules: seq<Rule>)
    ensures rules == Parse(tag)
  {
    var pieces := Split(tag, ',');
    rules := [];
    var i := 0;
    while i < |pieces|
      invariant i <= |pieces| && rules + ParsePieces(pieces[i..]) == ParsePieces(pieces)
    {
      var rule, next := ParseOne(pieces, i);
      Assoc3(rules, [rule], ParsePieces(pieces[next..]));
      rules := rules + [rule];
      i := next;
    }
  }

  /** The rule that starts at piece `start`, and where the next one starts. */
  method ParseOne(pieces: seq<string>, start: nat) returns (rule: Rule, next: nat)
    requires start < |pieces|
    ensures start < next <= |pieces|
    ensures ParsePieces(pieces[start..]) == [rule] + ParsePieces(pieces[next..])
  {
    var text, i := pieces[start], start;
    assert pieces[start..][0] == text && pieces[start..][1..] == pieces[start + 1..];
    var colon := IndexOf(text, ':');
    if colon == |text| {
      return Rule(text, None), start + 1;
    }
    var param := text[colon + 1..];
    while i + 1 < |pieces| && ':' !in pieces[i + 1]
      invariant start <= i < |pieces|
      invariant Absorb(param, pieces[i + 1..]) == Absorb(text[colon + 1..], pieces[start + 1..])
    {
      i := i + 1;
      assert pieces[i..][0] == pieces[i] && pieces[i..][1..] == pieces[i + 1..];
      param := param + "," + pieces[i];
    }
    return Rule(text[..colon], Some(param)), i + 1;
  }

  /// Printing undoes parsing, always

  lemma JoinCons(a: string, rest: seq<string>)
    ensures Join([a] + rest, ',') == if rest == [] then a else a + "," + Join(rest, ',')
  {
    assert ([a] + rest)[1..] == rest;
  }

  lemma {:induction false} AbsorbKeepsText(head: string, param: string, rest: seq<string>)
    ensures var (p, r) := Absorb(param, rest); Join([head + param] + rest, ',') == Join([head + p] + r, ',')
    decreases |rest|
  {
    if rest != [] && ':' !in rest[0] {
      AbsorbKeepsText(head, param + "," + rest[0], rest[1..]);
      JoinCons(head + param, rest);
      JoinCons(rest[0], rest[1..]);
      JoinCons(head + (param + "," + rest[0]), rest[1..]);
      assert rest == [rest[0]] + rest[1..];
      JoinAssoc(head, param, rest[0], Join(rest[1..], ','));
    }
  }

  lemma JoinAssoc(a: string, b: string, c: string, d: string)
    ensures a + b + "," + c == a + (b + "," + c)
    ensures a + b + "," + (c + "," + d) == a + (b + "," + c) + "," + d
    ensures b + "," + (c + "," + d) == b + "," + c + "," + d
  {
  }

  lemma {:induction false} PrintParsePieces(pieces: seq<string>)
    ensures Print(ParsePieces(pieces)) == Join(pieces, ',') && (pieces != [] ==> ParsePieces(pieces) != [])
    decreases |pieces|
  {
    if pieces != [] {
      var i := IndexOf(pieces[0], ':');
      assert pieces == [pieces[0]] + pieces[1..];
      if i == |pieces[0]| {
        PrintParsePieces(pieces[1..]);
        PrintFirst(Rule(pieces[0], None), pieces[1..]);
      } else {
        var head := pieces[0][..i] + ":";
        var (param, rest) := Absorb(pieces[0][i + 1..], pieces[1..]);
        AbsorbKeepsText(head, pieces[0][i + 1..], pieces[1..]);
        assert pieces[0] == head + pieces[0][i + 1..];
        PrintParsePieces(rest);
        PrintFirst(Rule(pieces[0][..i], Some(param)), rest);
      }
    }
  }

  lemma PrintFirst(r: Rule, rest: seq<string>)
    requires Print(ParsePieces(rest)) == Join(rest, ',') && (rest != [] ==> ParsePieces(rest) != [])
    ensures Print([r] + ParsePieces(rest)) == Join([PrintRule(r)] + rest, ',')
  {
    var rules := ParsePieces(rest);
    assert ([r] + rules)[1..] == rules;
    JoinCons(PrintRule(r), PrintAll(rules));
    JoinCons(PrintRule(r), rest);
  }

  /** Whatever the tag, printing the rules parsed from it gives it back exactly. */
  lemma PrintUndoesParse(tag: string)
    ensures Print(Parse(tag)) == tag
  {
    PrintParsePieces(Split(tag, ','));
    JoinSplit(tag, ',');
  }

  /// Parsing undoes printing, exactly for canonical lists

  predicate PlainKey(key: string) {
    ',' !in key && ':' !in key
  }

  /** After its first comma piece a parameter holds no colon. */
  predicate Tame(param: string) {
    forall i | 0 < i < |Split(param, ',')| :: ':' !in Split(param, ',')[i]
  }

  predicate CanonicalRule(r: Rule) {
    PlainKey(r.key) && (r.param.Some? ==> Tame(r.param.value))
  }

  /** No bare rule follows a parameterised one. */
  predicate Canonical(rules: seq<Rule>) {
    && (forall i | 0 <= i < |rules| :: CanonicalRule(rules[i]))
    && (forall i | 0 <= i < |rules| - 1 :: rules[i].param.Some? ==> rules[i + 1].param.Some?)
  }

  /** What absorbing does: it takes the longest run of pieces without a colon. */
  lemma {:induction false} AbsorbRun(param: string, run: seq<string>, rest: seq<string>)
    requires (forall i | 0 <= i < |run| :: ':' !in run[i]) && (rest != [] ==> ':' in rest[0])
    ensures Absorb(param, run + rest) == (Join([param] + run, ','), rest)
    decreases |run|
  {
    if run == [] {
      assert [] + rest == rest && [param] + run == [param];
    } else {
      assert (run + rest)[0] == run[0] && (run + rest)[1..] == run[1..] + rest;
      AbsorbRun(param + "," + run[0], run[1..], rest);
      assert run == [run[0]] + run[1..];
      JoinCons(param, run);
      JoinCons(run[0], run[1..]);
      JoinCons(param + "," + run[0], run[1..]);
      JoinAssoc("", param, run[0], Join(run[1..], ','));
    }
  }

  lemma {:induction false} RunOf(rest: seq<string>) returns (k: nat)
    ensures k <= |rest| && (forall i | 0 <= i < k :: ':' !in rest[i]) && (k < |rest| ==> ':' in rest[k])
    decreases |rest|
  {
    if rest == [] || ':' in rest[0] {
      k := 0;
    } else {
      k := RunOf(rest[1..]);
      k := k + 1;
    }
  }

  predicate CommaFree(pieces: seq<string>) {
    forall i | 0 <= i < |pieces| :: ',' !in pieces[i]
  }

  /** What the parser returns is canonical. */
  lemma {:induction false} ParseIsCanonical(pieces: seq<string>)
    requires CommaFree(pieces)
    ensures Canonical(ParsePieces(pieces)) && (pieces != [] ==> ParsePieces(pieces) != [])
    decreases |pieces|
  {
    if pieces != [] {
      var i := IndexOf(pieces[0], ':');
      if i == |pieces[0]| {
        assert pieces[0][..i] == pieces[0];
        ParseIsCanonical(pieces[1..]);
      } else {
        var k := RunOf(pieces[1..]);
        ParamIsTame(pieces, i, k);
        var rest := pieces[1..][k..];
        ParseIsCanonical(rest);
        if rest != [] {
          HasColon(rest[0]);
        }
      }
    }
  }

  lemma HasColon(s: string)
    requires ':' in s
    ensures IndexOf(s, ':') < |s|
  {
    assert s[..|s|] == s;
  }

  lemma ParamIsTame(pieces: seq<string>, i: nat, k: nat)
    requires pieces != [] && CommaFree(pieces) && i < |pieces[0]| && k <= |pieces| - 1
    requires (forall j | 0 <= j < k :: ':' !in pieces[1..][j]) && (k < |pieces| - 1 ==> ':' in pieces[1..][k])
    ensures var (param, rest) := Absorb(pieces[0][i + 1..], pieces[1..]);
            Tame(param) && rest == pieces[1..][k..]
  {
    var run, rest, first := pieces[1..][..k], pieces[1..][k..], pieces[0][i + 1..];
    assert run + rest == pieces[1..];
    AbsorbRun(first, run, rest);
    forall j | 0 <= j < |[first] + run| ensures ',' !in ([first] + run)[j] {
      if j > 0 {
        assert ([first] + run)[j] == pieces[j];
      }
    }
    SplitJoin([first] + run, ',');
  }

  /// The pieces of a canonical list

  function Pieces(r: Rule): (pieces: seq<string>)
    ensures pieces != []
  {
    match r.param
    case None => [r.key]
    case Some(p) => [r.key + ":" + Split(p, ',')[0]] + Split(p, ',')[1..]
  }

  function Flat(rules: seq<Rule>): seq<string> {
    if rules == [] then [] else Pieces(rules[0]) + Flat(rules[1..])
  }

  lemma {:induction false} JoinConcat(a: seq<string>, b: seq<string>)
    requires a != [] && b != []
    ensures Join(a + b, ',') == Join(a, ',') + "," + Join(b, ',')
    decreases |a|
  {
    assert a == [a[0]] + a[1..] && a + b == [a[0]] + (a[1..] + b);
    JoinCons(a[0], a[1..] + b);
    JoinCons(a[0], a[1..]);
    if |a| > 1 {
      JoinConcat(a[1..], b);
      JoinAssoc("", a[0], Join(a[1..], ','), Join(b, ','));
    } else {
      assert a[1..] + b == b;
    }
  }

  lemma JoinPieces(r: Rule)
    ensures Join(Pieces(r), ',') == PrintRule(r)
  {
    if r.param.Some? {
      var p := r.param.value;
      var s := Split(p, ',');
      JoinSplit(p, ',');
      JoinCons(r.key + ":" + s[0], s[1..]);
      JoinCons(s[0], s[1..]);
      assert s == [s[0]] + s[1..];
      JoinKey(r.key, s[0], Join(s[1..], ','));
    }
  }

  lemma JoinKey(key: string, a: string, b: string)
    ensures key + ":" + a + "," + b == key + ":" + (a + "," + b)
  {
  }

  lemma {:induction false} JoinFlat(rules: seq<Rule>)
    ensures Join(Flat(rules), ',') == Print(rules) && (rules != [] ==> Flat(rules) != [])
    decreases |rules|
  {
    if rules != [] {
      JoinFlat(rules[1..]);
      JoinPieces(rules[0]);
      JoinCons(PrintRule(rules[0]), PrintAll(rules[1..]));
      if |rules| > 1 {
        JoinConcat(Pieces(rules[0]), Flat(rules[1..]));
      } else {
        assert Flat(rules) == Pieces(rules[0]);
      }
    }
  }

  lemma {:induction false} FlatIsCommaFree(rules: seq<Rule>)
    requires Canonical(rules)
    ensures CommaFree(Flat(rules))
    decreases |rules|
  {
    if rules != [] {
      FlatIsCommaFree(rules[1..]);
      assert CanonicalRule(rules[0]);
    }
  }

  lemma ParseFirst(r: Rule, rest: seq<string>)
    requires CanonicalRule(r) && (r.param.Some? && rest != [] ==> ':' in rest[0])
    ensures ParsePieces(Pieces(r) + rest) == [r] + ParsePieces(rest)
  {
    match r.param
    case None =>
      NoColon(r.key);
      assert ([r.key] + rest)[1..] == rest;
    case Some(p) => ParseFirstParam(r.key, p, rest);
  }

  lemma ParseFirstParam(key: string, p: string, rest: seq<string>)
    requires PlainKey(key) && Tame(p) && (rest != [] ==> ':' in rest[0])
    ensures var r := Rule(key, Some(p)); ParsePieces(Pieces(r) + rest) == [r] + ParsePieces(rest)
  {
    var s := Split(p, ',');
    var first, more := key + ":" + s[0], s[1..] + rest;
    Assoc3([first], s[1..], rest);
    KeyOf(key, s[0]);
    AbsorbRun(s[0], s[1..], rest);
    assert [s[0]] + s[1..] == s;
    JoinSplit(p, ',');
    ParseParam(first, more, |key|, p, rest);
  }

  lemma KeyOf(key: string, text: string)
    requires ':' !in key
    ensures var first := key + ":" + text;
            IndexOf(first, ':') == |key| < |first| && first[..|key|] == key && first[|key| + 1..] == text
  {
    IndexOfFirst(key, ':', text);
  }

  lemma ParseParam(first: string, more: seq<string>, i: nat, param: string, rest: seq<string>)
    requires IndexOf(first, ':') == i < |first| && Absorb(first[i + 1..], more) == (param, rest)
    ensures ParsePieces([first] + more) == [Rule(first[..i], Some(param))] + ParsePieces(rest)
  {
    assert ([first] + more)[1..] == more;
  }

  lemma TailIsCanonical(rules: seq<Rule>)
    requires Canonical(rules) && rules != []
    ensures CanonicalRule(rules[0]) && Canonical(rules[1..])
  {
    var tail := rules[1..];
    forall i | 0 <= i < |tail| ensures CanonicalRule(tail[i]) {
      assert tail[i] == rules[i + 1];
    }
    forall i | 0 <= i < |tail| - 1 && tail[i].param.Some? ensures tail[i + 1].param.Some? {
      assert tail[i] == rules[i + 1] && tail[i + 1] == rules[(i + 1) + 1];
    }
  }

  lemma {:induction false} ParseFlat(rules: seq<Rule>)
    requires Canonical(rules)
    ensures ParsePieces(Flat(rules)) == rules
    decreases |rules|
  {
    if rules != [] {
      TailIsCanonical(rules);
      ParseFlat(rules[1..]);
      if rules[0].param.Some? {
        NextHasColon(rules);
      }
      ParseFirst(rules[0], Flat(rules[1..]));
      assert rules == [rules[0]] + rules[1..];
    }
  }

  lemma NoColon(key: string)
    requires ':' !in key
    ensures IndexOf(key, ':') == |key|
  {
  }

  lemma NextHasColon(rules: seq<Rule>)
    requires Canonical(rules) && rules != [] && rules[0].param.Some?
    ensures var rest := Flat(rules[1..]); rest != [] ==> ':' in rest[0]
  {
    if |rules| > 1 {
      var next := rules[1];
      assert rules[0 + 1].param.Some?;
      var first := next.key + ":" + Split(next.param.value, ',')[0];
      assert first[|next.key|] == ':';
      assert Flat(rules[1..])[0] == first;
    }
  }

  /** A printed rule list is parsed back exactly when it is not empty and canonical. */
  lemma ParseUndoesPrintIff(rules: seq<Rule>)
    ensures Parse(Print(rules)) == rules <==> rules != [] && Canonical(rules)
  {
    ParseIsCanonical(Split(Print(rules), ','));
    if rules != [] && Canonical(rules) {
      JoinFlat(rules);
      FlatIsCommaFree(rules);
      SplitJoin(Flat(rules), ',');
      ParseFlat(rules);
    }
  }
}
