/**
 What a refresh plan is: the closure of the roots over invalidation edges, what pruning by dominance leaves of
 it in any order of visits, and the order of the result.
 */
module FragmentModel {
  import opened Index
  import opened Text

  datatype Kind = RouteContent | PageComponent | Custom

  /** `renderable` says whether a custom fragment has a render function. */
  datatype Spec = Spec(id: string, selector: string, kind: Kind, invalidates: seq<string>,
                       dominates: seq<string>, isLayout: bool, order: int, renderable: bool)

  /** The fragments registered for one route, by identifier. */
  type Fragments = map<string, Spec>

  /// Paths in a graph given by its adjacency lists

  type Graph = map<string, seq<string>>

  function Invalidation(fs: Fragments): Graph {
    map id | id in fs :: fs[id].invalidates
  }

  function Dominance(fs: Fragments): Graph {
    map id | id in fs :: fs[id].dominates
  }

  predicate Edge(g: Graph, a: string, b: string) {
    a in g && b in g && b in g[a]
  }

  predicate IsPath(g: Graph, p: seq<string>) {
    && p != [] && p[0] in g
    && forall i | 0 <= i < |p| - 1 :: Edge(g, p[i], p[i + 1])
  }

  ghost predicate Leads(g: Graph, from: set<string>, x: string) {
    exists p :: IsPath(g, p) && p[0] in from && p[|p| - 1] == x
  }

  lemma LeadsStart(g: Graph, from: set<string>, x: string)
    requires x in g && x in from
    ensures Leads(g, from, x)
  {
    assert IsPath(g, [x]) && [x][0] in from;
  }

  lemma LeadsThen(g: Graph, from: set<string>, x: string, y: string)
    requires Leads(g, from, x) && Edge(g, x, y)
    ensures Leads(g, from, y)
  {
    var p :| IsPath(g, p) && p[0] in from && p[|p| - 1] == x;
    var q := p + [y];
    forall i | 0 <= i < |q| - 1 ensures Edge(g, q[i], q[i + 1]) {
      if i < |p| - 1 {
        assert Edge(g, p[i], p[i + 1]);
      }
    }
    assert IsPath(g, q) && q[0] in from && q[|q| - 1] == y;
  }

  lemma LeadsFrom(g: Graph, from: set<string>, x: string, y: string)
    requires x in from && x in g && Leads(g, {x}, y)
    ensures Leads(g, from, y)
  {
    var p :| IsPath(g, p) && p[0] in {x} && p[|p| - 1] == y;
    assert p[0] in from;
  }

  lemma EdgeThenLeads(g: Graph, x: string, y: string, z: string)
    requires Edge(g, x, y) && Leads(g, {y}, z)
    ensures Leads(g, {x}, z)
  {
    var p :| IsPath(g, p) && p[0] in {y} && p[|p| - 1] == z;
    var q := [x] + p;
    forall i | 0 <= i < |q| - 1 ensures Edge(g, q[i], q[i + 1]) {
      if i > 0 {
        assert Edge(g, p[i - 1], p[i]);
      }
    }
    assert IsPath(g, q) && q[0] in {x} && q[|q| - 1] == z;
  }

  /** Registered fragments reachable from the registered roots through registered fragments. */
  ghost function Closure(fs: Fragments, roots: set<string>): set<string> {
    set x | x in fs && Leads(Invalidation(fs), roots, x)
  }

  ghost predicate ClosedAt(fs: Fragments, x: string, s: set<string>) {
    forall y | Edge(Invalidation(fs), x, y) :: y in s
  }

  /** A set that contains the roots and is closed under edges contains all that is reachable. */
  lemma {:induction false} PathStaysInside(fs: Fragments, p: seq<string>, s: set<string>)
    requires IsPath(Invalidation(fs), p) && p[0] in s && forall x | x in s :: ClosedAt(fs, x, s)
    ensures p[|p| - 1] in s
    decreases |p|
  {
    if |p| > 1 {
      var q := p[..|p| - 1];
      forall i | 0 <= i < |q| - 1 ensures Edge(Invalidation(fs), q[i], q[i + 1]) {
        assert Edge(Invalidation(fs), p[i], p[i + 1]);
      }
      PathStaysInside(fs, q, s);
      assert Edge(Invalidation(fs), p[|p| - 2], p[|p| - 1]);
    }
  }

  lemma ClosureIsLeast(fs: Fragments, roots: set<string>, s: set<string>)
    requires s <= fs.Keys && forall x | x in roots && x in fs :: x in s
    requires forall x | x in s :: ClosedAt(fs, x, s) && Leads(Invalidation(fs), roots, x)
    ensures s == Closure(fs, roots)
  {
    forall x | x in Closure(fs, roots) ensures x in s {
      var p :| IsPath(Invalidation(fs), p) && p[0] in roots && p[|p| - 1] == x;
      PathStaysInside(fs, p, s);
    }
  }

  /** The closure holds the registered roots, and with each fragment the registered ones that it invalidates. */
  lemma ClosureIsClosed(fs: Fragments, roots: set<string>, x: string, y: string)
    requires y in fs
    ensures y in roots ==> y in Closure(fs, roots)
    ensures x in Closure(fs, roots) && y in fs[x].invalidates ==> y in Closure(fs, roots)
  {
    if y in roots {
      LeadsStart(Invalidation(fs), roots, y);
    }
    if x in Closure(fs, roots) && y in fs[x].invalidates {
      LeadsThen(Invalidation(fs), roots, x, y);
    }
  }

  /** More roots can only reach more. */
  lemma ClosureMonotone(fs: Fragments, few: set<string>, many: set<string>)
    requires few <= many
    ensures Closure(fs, few) <= Closure(fs, many)
  {
    forall x | x in Closure(fs, few) ensures x in Closure(fs, many) {
      var p :| IsPath(Invalidation(fs), p) && p[0] in few && p[|p| - 1] == x;
      assert p[0] in many;
    }
  }

  /// Pruning

  /** A list of all elements of a set, each once. */
  ghost predicate IsOrder(order: seq<string>, s: set<string>) {
    && (forall x :: x in order <==> x in s)
    && (forall i, j | 0 <= i < j < |order| :: order[i] != order[j])
  }

  lemma OrderAppend(order: seq<string>, s: set<string>, x: string)
    requires IsOrder(order, s) && x !in s
    ensures IsOrder(order + [x], s + {x})
  {
    forall i, j | 0 <= i < j < |order| + 1 ensures (order + [x])[i] != (order + [x])[j] {
      if j == |order| {
        assert order[i] in order;
      }
    }
  }

  /** Deleting along an order: an entry still present when it is reached deletes what it dominates. */
  function PruneAlong(fs: Fragments, kept: set<string>, order: seq<string>): set<string>
    requires forall x | x in kept :: x in fs
    decreases |order|
  {
    if order == [] then kept
    else if order[0] in kept then PruneAlong(fs, kept - Elements(fs[order[0]].dominates), order[1..])
    else PruneAlong(fs, kept, order[1..])
  }

  lemma {:induction false} PruneAlongShrinks(fs: Fragments, kept: set<string>, order: seq<string>)
    requires forall x | x in kept :: x in fs
    ensures PruneAlong(fs, kept, order) <= kept
    decreases |order|
  {
    if order != [] {
      PruneAlongShrinks(fs, if order[0] in kept then kept - Elements(fs[order[0]].dominates) else kept, order[1..]);
    }
  }

  lemma {:induction false} PruneAlongAppend(fs: Fragments, kept: set<string>, a: seq<string>, b: seq<string>)
    requires forall x | x in kept :: x in fs
    ensures PruneAlong(fs, kept, a) <= kept
    ensures PruneAlong(fs, kept, a + b) == PruneAlong(fs, PruneAlong(fs, kept, a), b)
    decreases |a|
  {
    PruneAlongShrinks(fs, kept, a);
    if a == [] {
      assert a + b == b;
    } else {
      assert (a + b)[1..] == a[1..] + b;
      PruneAlongAppend(fs, if a[0] in kept then kept - Elements(fs[a[0]].dominates) else kept, a[1..], b);
    }
  }

  predicate Dominates(fs: Fragments, a: string, b: string) {
    a in fs && b in fs[a].dominates
  }

  /// What holds for every order

  /** An entry that survives was visited and has deleted what it dominates; nothing deleted comes back. */
  lemma {:induction false} SurvivorDeletes(fs: Fragments, kept: set<string>, order: seq<string>, a: string, b: string)
    requires forall x | x in kept :: x in fs
    requires a in order && a in PruneAlong(fs, kept, order) && Dominates(fs, a, b)
    ensures b !in PruneAlong(fs, kept, order)
    decreases |order|
  {
    PruneAlongShrinks(fs, kept, order);
    var next := if order[0] in kept then kept - Elements(fs[order[0]].dominates) else kept;
    PruneAlongShrinks(fs, next, order[1..]);
    if order[0] != a {
      SurvivorDeletes(fs, next, order[1..], a, b);
    }
  }

  /** No kept fragment is dominated by a kept fragment, itself included. */
  lemma NoKeptDominated(fs: Fragments, all: set<string>, order: seq<string>, a: string, b: string)
    requires all <= fs.Keys && IsOrder(order, all)
    requires a in PruneAlong(fs, all, order) && b in PruneAlong(fs, all, order)
    ensures !Dominates(fs, a, b)
  {
    PruneAlongShrinks(fs, all, order);
    if Dominates(fs, a, b) {
      SurvivorDeletes(fs, all, order, a, b);
    }
  }

  ghost predicate Irreflexive(fs: Fragments, all: set<string>) {
    forall a | a in all :: !Dominates(fs, a, a)
  }

  ghost predicate Transitive(fs: Fragments, all: set<string>) {
    forall a, b, c | a in all && b in all && c in all && Dominates(fs, a, b) && Dominates(fs, b, c) :: Dominates(fs, a, c)
  }

  /** Every dropped fragment is reached by a chain of dominance from a kept one. */
  lemma {:induction false} DroppedHasKeptDominator(fs: Fragments, all: set<string>, kept: set<string>, order: seq<string>, x: string)
    requires kept <= all <= fs.Keys && Irreflexive(fs, all)
    requires x in kept
    ensures exists k :: k in PruneAlong(fs, kept, order) && Leads(Dominance(fs), {k}, x)
    decreases |order|
  {
    if order == [] {
      LeadsStart(Dominance(fs), {x}, x);
    } else if order[0] !in kept {
      DroppedHasKeptDominator(fs, all, kept, order[1..], x);
    } else {
      var a := order[0];
      var next := kept - Elements(fs[a].dominates);
      if x in next {
        DroppedHasKeptDominator(fs, all, next, order[1..], x);
      } else {
        assert !Dominates(fs, a, a);
        DroppedHasKeptDominator(fs, all, next, order[1..], a);
        var k :| k in PruneAlong(fs, next, order[1..]) && Leads(Dominance(fs), {k}, a);
        LeadsThen(Dominance(fs), {k}, a, x);
      }
    }
  }

  /// When the order does not matter

  ghost function Undominated(fs: Fragments, all: set<string>): set<string> {
    set x | x in all && forall y | y in all :: !Dominates(fs, y, x)
  }

  /** Every dominated fragment is dominated directly by one that nothing dominates. */
  ghost predicate Covered(fs: Fragments, all: set<string>) {
    forall x | x in all && x !in Undominated(fs, all) :: exists u :: u in Undominated(fs, all) && Dominates(fs, u, x)
  }

  lemma {:induction false} UndominatedSurvives(fs: Fragments, all: set<string>, kept: set<string>, order: seq<string>, u: string)
    requires kept <= all <= fs.Keys && u in kept && u in Undominated(fs, all)
    ensures u in PruneAlong(fs, kept, order)
    decreases |order|
  {
    if order != [] {
      assert order[0] in kept ==> !Dominates(fs, order[0], u);
      UndominatedSurvives(fs, all, if order[0] in kept then kept - Elements(fs[order[0]].dominates) else kept, order[1..], u);
    }
  }

  lemma CoveredGivesUndominated(fs: Fragments, all: set<string>, order: seq<string>)
    requires all <= fs.Keys && IsOrder(order, all) && Covered(fs, all)
    ensures PruneAlong(fs, all, order) == Undominated(fs, all)
  {
    PruneAlongShrinks(fs, all, order);
    forall x | x in all ensures x in PruneAlong(fs, all, order) <==> x in Undominated(fs, all) {
      if x in Undominated(fs, all) {
        UndominatedSurvives(fs, all, all, order, x);
      } else {
        var u :| u in Undominated(fs, all) && Dominates(fs, u, x);
        UndominatedSurvives(fs, all, all, order, u);
        SurvivorDeletes(fs, all, order, u, x);
      }
    }
  }

  /** The last entry that is visited survives. */
  lemma {:induction false} LastVisitedSurvives(fs: Fragments, kept: set<string>, order: seq<string>)
    requires kept <= fs.Keys && Irreflexive(fs, kept)
    requires exists x :: x in order && x in kept
    ensures exists x :: x in order && x in PruneAlong(fs, kept, order)
    decreases |order|
  {
    var a := order[0];
    if a !in kept {
      var x :| x in order && x in kept;
      assert x in order[1..];
      LastVisitedSurvives(fs, kept, order[1..]);
    } else {
      var next := kept - Elements(fs[a].dominates);
      assert !Dominates(fs, a, a);
      if exists x :: x in order[1..] && x in next {
        LastVisitedSurvives(fs, next, order[1..]);
      } else {
        NothingVisited(fs, next, order[1..]);
        assert a in order && a in PruneAlong(fs, kept, order);
      }
    }
  }

  lemma {:induction false} NothingVisited(fs: Fragments, kept: set<string>, order: seq<string>)
    requires kept <= fs.Keys && forall x | x in order :: x !in kept
    ensures PruneAlong(fs, kept, order) == kept
    decreases |order|
  {
    if order != [] {
      assert order[0] in order;
      NothingVisited(fs, kept, order[1..]);
    }
  }

  /** Some order of any finite set. */
  ghost function SomeOrder(s: set<string>): (order: seq<string>)
    ensures IsOrder(order, s)
  {
    if s == {} then []
    else
      var x :| x in s;
      OrderAppend(SomeOrder(s - {x}), s - {x}, x);
      assert s - {x} + {x} == s;
      SomeOrder(s - {x}) + [x]
  }

  lemma OrderConcat(a: seq<string>, s: set<string>, b: seq<string>, t: set<string>)
    requires IsOrder(a, s) && IsOrder(b, t) && s !! t
    ensures IsOrder(a + b, s + t)
  {
    forall i, j | 0 <= i < j < |a + b| ensures (a + b)[i] != (a + b)[j] {
      if i < |a| <= j {
        assert a[i] in a && b[j - |a|] in b;
      }
    }
  }

  /** Where an order of three parts gets, if the last part visits only what is gone by then. */
  lemma PruneInParts(fs: Fragments, all: set<string>, first: seq<string>, second: seq<string>, third: seq<string>)
    requires all <= fs.Keys && forall x | x in third :: x !in PruneAlong(fs, all, first)
    ensures PruneAlong(fs, all, first) <= all
    ensures PruneAlong(fs, all, first + second + third) == PruneAlong(fs, PruneAlong(fs, all, first), second)
  {
    PruneAlongAppend(fs, all, first, second);
    PruneAlongAppend(fs, all, first + second, third);
    var left := PruneAlong(fs, all, first);
    PruneAlongShrinks(fs, left, second);
    NothingVisited(fs, PruneAlong(fs, left, second), third);
  }

  /** An order that first visits what nothing dominates, and then the rest of what survives that. */
  lemma UndominatedFirst(fs: Fragments, all: set<string>) returns (order: seq<string>, w: string)
    requires all <= fs.Keys && Irreflexive(fs, all) && !Covered(fs, all)
    ensures IsOrder(order, all)
    ensures w in PruneAlong(fs, all, order) && w !in Undominated(fs, all)
  {
    var top := Undominated(fs, all);
    var first := SomeOrder(top);
    var left := PruneAlong(fs, all, first);
    PruneAlongShrinks(fs, all, first);
    forall u | u in top ensures u in left {
      UndominatedSurvives(fs, all, all, first, u);
    }
    var rest := left - top;
    var second, third := SomeOrder(rest), SomeOrder(all - left);
    OrderInParts(all, top, left, first, second, third);
    order := first + second + third;

    var x :| x in all && x !in top && forall u | u in top :: !Dominates(fs, u, x);
    NotDominatedStays(fs, all, first, x);
    assert x in second && x in left;
    LastVisitedSurvives(fs, left, second);
    w :| w in second && w in PruneAlong(fs, left, second);
    PruneInParts(fs, all, first, second, third);
  }

  lemma OrderInParts(all: set<string>, top: set<string>, left: set<string>, a: seq<string>, b: seq<string>, c: seq<string>)
    requires top <= left <= all && IsOrder(a, top) && IsOrder(b, left - top) && IsOrder(c, all - left)
    ensures IsOrder(a + b + c, all)
  {
    OrderConcat(a, top, b, left - top);
    OrderConcat(a + b, top + (left - top), c, all - left);
    assert top + (left - top) + (all - left) == all;
  }

  lemma {:induction false} NotDominatedStays(fs: Fragments, kept: set<string>, order: seq<string>, x: string)
    requires kept <= fs.Keys && x in kept && forall u | u in order :: !Dominates(fs, u, x)
    ensures x in PruneAlong(fs, kept, order)
    decreases |order|
  {
    if order != [] {
      assert order[0] in order;
      NotDominatedStays(fs, if order[0] in kept then kept - Elements(fs[order[0]].dominates) else kept, order[1..], x);
    }
  }

  /** A dominated fragment is dropped by an order that visits its dominator first. */
  lemma DominatorFirst(fs: Fragments, all: set<string>, w: string) returns (order: seq<string>)
    requires all <= fs.Keys && w in all && w !in Undominated(fs, all)
    ensures IsOrder(order, all) && w !in PruneAlong(fs, all, order)
  {
    var y :| y in all && Dominates(fs, y, w);
    var rest := SomeOrder(all - {y});
    order := [y] + rest;
    assert IsOrder([y], {y});
    OrderConcat([y], {y}, rest, all - {y});
    assert {y} + (all - {y}) == all;
    assert order[0] == y && order[1..] == rest;
    PruneAlongShrinks(fs, all - Elements(fs[y].dominates), rest);
  }

  ghost predicate OrderIrrelevant(fs: Fragments, all: set<string>)
    requires all <= fs.Keys
  {
    forall a, b | IsOrder(a, all) && IsOrder(b, all) :: PruneAlong(fs, all, a) == PruneAlong(fs, all, b)
  }

  /** Fragments that no other fragment dominates; they may dominate themselves. */
  ghost function Unrivalled(fs: Fragments, all: set<string>): set<string> {
    set x | x in all && forall y | y in all && y != x :: !Dominates(fs, y, x)
  }

  /** Every fragment that is dominated at all is dominated directly by an unrivalled one. */
  ghost predicate UnrivalledCover(fs: Fragments, all: set<string>) {
    forall x | x in all && x !in Undominated(fs, all) :: exists u :: u in Unrivalled(fs, all) && Dominates(fs, u, x)
  }

  /** An unrivalled entry is always reached, and then deletes what it dominates. */
  lemma {:induction false} UnrivalledDeletes(fs: Fragments, all: set<string>, kept: set<string>, order: seq<string>,
                                             u: string, x: string)
    requires kept <= all <= fs.Keys && u in kept && u in Unrivalled(fs, all) && u in order && Dominates(fs, u, x)
    ensures x !in PruneAlong(fs, kept, order)
    decreases |order|
  {
    var next := if order[0] in kept then kept - Elements(fs[order[0]].dominates) else kept;
    PruneAlongShrinks(fs, next, order[1..]);
    if order[0] != u {
      assert order[0] in kept ==> !Dominates(fs, order[0], u);
      UnrivalledDeletes(fs, all, next, order[1..], u, x);
    }
  }

  /** Self-domination does not matter where every dominated fragment has an unrivalled dominator. */
  lemma UnrivalledCoverGivesUndominated(fs: Fragments, all: set<string>, order: seq<string>)
    requires all <= fs.Keys && IsOrder(order, all) && UnrivalledCover(fs, all)
    ensures PruneAlong(fs, all, order) == Undominated(fs, all)
  {
    PruneAlongShrinks(fs, all, order);
    forall x | x in all ensures x in PruneAlong(fs, all, order) <==> x in Undominated(fs, all) {
      if x in Undominated(fs, all) {
        UndominatedSurvives(fs, all, all, order, x);
      } else {
        var u :| u in Unrivalled(fs, all) && Dominates(fs, u, x);
        UnrivalledDeletes(fs, all, all, order, u, x);
      }
    }
  }

  /** Two fragments that dominate each other. */
  function Rivals(a: string, b: string): Fragments {
    map[a := Spec(a, a, Custom, [], [b], false, 0, true), b := Spec(b, b, Custom, [], [a], false, 0, true)]
  }

  /** Of two rivals, whichever is visited first stays. */
  lemma FirstRivalStays(a: string, b: string)
    requires a != b
    ensures IsOrder([a, b], Rivals(a, b).Keys) && IsOrder([b, a], Rivals(a, b).Keys)
    ensures PruneAlong(Rivals(a, b), {a, b}, [a, b]) == {a} && PruneAlong(Rivals(a, b), {a, b}, [b, a]) == {b}
  {
    RivalsInTurn(Rivals(a, b), a, b);
    RivalsInTurn(Rivals(a, b), b, a);
  }

  lemma RivalsInTurn(fs: Fragments, a: string, b: string)
    requires a != b && fs.Keys == {a, b} && fs[a].dominates == [b]
    ensures PruneAlong(fs, {a, b}, [a, b]) == {a}
  {
    assert Elements([b]) == {b} && {a, b} - {b} == {a};
    assert [a, b][1..] == [b] && [b][1..] == [];
    assert PruneAlong(fs, {a}, [b]) == PruneAlong(fs, {a}, []);
  }

  /** Self-dominating fragments or not, pruning is the same for every order only if it always keeps the undominated ones. */
  lemma OneOutcomeIff(fs: Fragments, all: set<string>)
    requires all <= fs.Keys
    ensures OrderIrrelevant(fs, all) <==>
            forall a | IsOrder(a, all) :: PruneAlong(fs, all, a) == Undominated(fs, all)
  {
    if OrderIrrelevant(fs, all) {
      forall a | IsOrder(a, all) ensures PruneAlong(fs, all, a) == Undominated(fs, all) {
        PruneAlongShrinks(fs, all, a);
        forall w | w in all ensures w in PruneAlong(fs, all, a) <==> w in Undominated(fs, all) {
          if w in Undominated(fs, all) {
            UndominatedSurvives(fs, all, all, a, w);
          } else {
            var b := DominatorFirst(fs, all, w);
            assert PruneAlong(fs, all, a) == PruneAlong(fs, all, b);
          }
        }
      }
    }
  }

  /**
   The exact condition under which Go's unspecified map order cannot show: no fragment dominates itself, and
   pruning keeps the same fragments for every order if and only if every dominated fragment is dominated
   directly by an undominated one. What is kept is then exactly the undominated fragments.
   */
  lemma OrderIrrelevantIff(fs: Fragments, all: set<string>)
    requires all <= fs.Keys && Irreflexive(fs, all)
    ensures OrderIrrelevant(fs, all) <==> Covered(fs, all)
    ensures Covered(fs, all) ==> forall a | IsOrder(a, all) :: PruneAlong(fs, all, a) == Undominated(fs, all)
  {
    if Covered(fs, all) {
      forall a | IsOrder(a, all) ensures PruneAlong(fs, all, a) == Undominated(fs, all) {
        CoveredGivesUndominated(fs, all, a);
      }
    } else {
      var a, w := UndominatedFirst(fs, all);
      PruneAlongShrinks(fs, all, a);
      var b := DominatorFirst(fs, all, w);
      assert PruneAlong(fs, all, a) != PruneAlong(fs, all, b);
    }
  }

  /** A transitive dominance without self-domination always meets that condition. */
  lemma TransitiveIsCovered(fs: Fragments, all: set<string>)
    requires all <= fs.Keys && Irreflexive(fs, all) && Transitive(fs, all)
    ensures Covered(fs, all)
  {
    forall x | x in all && x !in Undominated(fs, all)
      ensures exists u :: u in Undominated(fs, all) && Dominates(fs, u, x)
    {
      var y :| y in all && Dominates(fs, y, x);
      TopDominator(fs, all, x, y);
    }
  }

  ghost function Dominators(fs: Fragments, all: set<string>, x: string): set<string> {
    set y | y in all && Dominates(fs, y, x)
  }

  lemma {:induction false} TopDominator(fs: Fragments, all: set<string>, x: string, y: string)
    requires all <= fs.Keys && Irreflexive(fs, all) && Transitive(fs, all)
    requires x in all && y in all && Dominates(fs, y, x)
    ensures exists u :: u in Undominated(fs, all) && Dominates(fs, u, x)
    decreases Dominators(fs, all, y)
  {
    if y !in Undominated(fs, all) {
      var z :| z in all && Dominates(fs, z, y);
      assert z in Dominators(fs, all, y) && z !in Dominators(fs, all, z);
      TopDominator(fs, all, x, z);
    }
  }

  /// Sorting

  predicate Before(a: Spec, b: Spec) {
    a.order < b.order || (a.order == b.order && Less(a.selector, b.selector))
  }

  ghost predicate Sorted(fs: Fragments, ids: seq<string>) {
    && (forall x | x in ids :: x in fs)
    && forall i, j | 0 <= i < j < |ids| :: !Before(fs[ids[j]], fs[ids[i]])
  }

  /** No two of these fragments share both order and selector. */
  ghost predicate DistinctKeys(fs: Fragments, s: set<string>) {
    forall a, b | a in s && b in s && a != b && a in fs && b in fs ::
      fs[a].order != fs[b].order || fs[a].selector != fs[b].selector
  }

  function Specs(fs: Fragments, ids: seq<string>): (specs: seq<Spec>)
    requires forall x | x in ids :: x in fs
    ensures |specs| == |ids| && forall i | 0 <= i < |ids| :: specs[i] == fs[ids[i]]
  {
    if ids == [] then [] else [fs[ids[0]]] + Specs(fs, ids[1..])
  }

  /** A list of each fragment in `s` once, sorted. */
  ghost predicate IsSortOf(fs: Fragments, s: set<string>, ids: seq<string>) {
    IsOrder(ids, s) && Sorted(fs, ids)
  }

  /** What sorted means: orders ascend, and selectors ascend among equal orders. */
  lemma ListingAscends(fs: Fragments, s: set<string>, planned: seq<Spec>, i: nat, j: nat)
    requires IsListing(fs, s, planned) && i < j < |planned|
    ensures planned[i].order <= planned[j].order
    ensures planned[i].order == planned[j].order ==> !Less(planned[j].selector, planned[i].selector)
  {
    var ids :| IsSortOf(fs, s, ids) && planned == Specs(fs, ids);
    assert planned[i] == fs[ids[i]] && planned[j] == fs[ids[j]];
  }

  lemma {:induction false} SortIsUnique(fs: Fragments, s: set<string>, a: seq<string>, b: seq<string>)
    requires IsSortOf(fs, s, a) && IsSortOf(fs, s, b) && DistinctKeys(fs, s)
    ensures a == b
    decreases |a|
  {
    if a == [] {
      OrderLength(a, s);
      OrderLength(b, s);
    } else {
      assert a[0] in a;
      SameFirst(fs, s, a, b);
      TailIsSort(fs, s, a);
      TailIsSort(fs, s, b);
      SortIsUnique(fs, s - {a[0]}, a[1..], b[1..]);
      assert a == [a[0]] + a[1..] && b == [b[0]] + b[1..];
    }
  }

  lemma SameFirst(fs: Fragments, s: set<string>, a: seq<string>, b: seq<string>)
    requires IsSortOf(fs, s, a) && IsSortOf(fs, s, b) && DistinctKeys(fs, s) && a != []
    ensures b != [] && a[0] == b[0]
  {
    assert a[0] in a && a[0] in b;
    assert b[0] in b && b[0] in a;
    var i :| 0 <= i < |b| && b[i] == a[0];
    var j :| 0 <= j < |a| && a[j] == b[0];
    LessTotal(fs[a[0]].selector, fs[b[0]].selector);
  }

  lemma TailIsSort(fs: Fragments, s: set<string>, a: seq<string>)
    requires IsSortOf(fs, s, a) && a != []
    ensures IsSortOf(fs, s - {a[0]}, a[1..])
  {
    assert a == [a[0]] + a[1..];
    forall x ensures x in a[1..] <==> x in s - {a[0]} {
      assert x in a <==> x == a[0] || x in a[1..];
      if x in a[1..] {
        var k :| 0 <= k < |a| - 1 && a[1..][k] == x;
        assert a[k + 1] == x;
      }
    }
  }

  function Insert(fs: Fragments, ids: seq<string>, x: string): seq<string>
    requires x in fs && forall y | y in ids :: y in fs
  {
    if ids == [] || Before(fs[x], fs[ids[0]]) then [x] + ids else [ids[0]] + Insert(fs, ids[1..], x)
  }

  function Sort(fs: Fragments, ids: seq<string>): (sorted: seq<string>)
    requires forall y | y in ids :: y in fs
    ensures forall y :: y in sorted <==> y in ids
    ensures |sorted| == |ids|
  {
    if ids == [] then []
    else
      var rest := Sort(fs, ids[1..]);
      InsertElements(fs, rest, ids[0]);
      assert ids == [ids[0]] + ids[1..];
      Insert(fs, rest, ids[0])
  }

  lemma {:induction false} InsertElements(fs: Fragments, ids: seq<string>, x: string)
    requires x in fs && forall y | y in ids :: y in fs
    ensures forall y :: y in Insert(fs, ids, x) <==> y == x || y in ids
    ensures |Insert(fs, ids, x)| == |ids| + 1
  {
    if ids != [] && !Before(fs[x], fs[ids[0]]) {
      InsertElements(fs, ids[1..], x);
      assert ids == [ids[0]] + ids[1..];
    }
  }

  lemma BeforeTrans(x: Spec, y: Spec, z: Spec)
    requires Before(x, y) && !Before(z, y)
    ensures !Before(z, x)
  {
    if Before(z, x) {
      if z.order == x.order == y.order {
        LessTransitive(z.selector, x.selector, y.selector);
      }
    }
  }

  lemma {:induction false} InsertSorts(fs: Fragments, ids: seq<string>, x: string)
    requires x in fs && Sorted(fs, ids)
    ensures Sorted(fs, Insert(fs, ids, x))
  {
    InsertElements(fs, ids, x);
    if ids != [] {
      if Before(fs[x], fs[ids[0]]) {
        forall j | 0 <= j < |ids| ensures !Before(fs[ids[j]], fs[x]) {
          LessTotal(fs[ids[0]].selector, fs[ids[0]].selector);
          BeforeTrans(fs[x], fs[ids[0]], fs[ids[j]]);
        }
      } else {
        InsertElements(fs, ids[1..], x);
        InsertSorts(fs, ids[1..], x);
        var rest := Insert(fs, ids[1..], x);
        forall j | 0 <= j < |rest| ensures !Before(fs[rest[j]], fs[ids[0]]) {
          if rest[j] != x {
            assert rest[j] in rest && rest[j] in ids[1..];
            var k :| 0 <= k < |ids| - 1 && ids[1..][k] == rest[j];
            assert ids[k + 1] == rest[j];
          }
        }
      }
    }
  }

  lemma {:induction false} SortSorts(fs: Fragments, ids: seq<string>)
    requires forall y | y in ids :: y in fs
    ensures Sorted(fs, Sort(fs, ids))
  {
    if ids != [] {
      SortSorts(fs, ids[1..]);
      InsertSorts(fs, Sort(fs, ids[1..]), ids[0]);
    }
  }

  /** Equally long lists of the same elements: if one repeats nothing, neither does the other. */
  lemma {:induction false} NoRepeats(a: seq<string>, b: seq<string>, s: set<string>)
    requires IsOrder(a, s) && |b| == |a| && forall x :: x in b <==> x in s
    ensures IsOrder(b, s)
  {
    OrderLength(a, s);
    forall i, j | 0 <= i < j < |b| ensures b[i] != b[j] {
      if b[i] == b[j] {
        var c := b[..j] + b[j + 1..];
        forall x | x in s ensures x in c {
          assert x in b;
          var k :| 0 <= k < |b| && b[k] == x;
          if k < j {
            assert c[k] == x;
          } else if k > j {
            assert c[k - 1] == x;
          } else {
            assert c[i] == x;
          }
        }
        FewElements(c, s);
      }
    }
  }

  lemma {:induction false} OrderLength(a: seq<string>, s: set<string>)
    requires IsOrder(a, s)
    ensures |a| == |s|
    decreases |a|
  {
    if a == [] {
      assert s == {};
    } else {
      assert a == [a[0]] + a[1..] && a[0] in a;
      assert forall x :: x in a[1..] <==> x in s - {a[0]} by {
        forall x ensures x in a[1..] <==> x in s - {a[0]} {
          if x in a[1..] {
            var k :| 0 <= k < |a| - 1 && a[1..][k] == x;
            assert a[k + 1] == x;
          }
        }
      }
      OrderLength(a[1..], s - {a[0]});
    }
  }

  lemma {:induction false} FewElements(c: seq<string>, s: set<string>)
    requires forall x | x in s :: x in c
    ensures |s| <= |c|
    decreases |c|
  {
    if c == [] {
      assert s == {};
    } else {
      assert c == [c[0]] + c[1..];
      FewElements(c[1..], s - {c[0]});
    }
  }

  lemma SortIsSort(fs: Fragments, s: set<string>, ids: seq<string>)
    requires s <= fs.Keys && IsOrder(ids, s)
    ensures IsSortOf(fs, s, Sort(fs, ids))
  {
    SortSorts(fs, ids);
    NoRepeats(ids, Sort(fs, ids), s);
  }

  /// Plans

  /** What a plan may be: a sort of what some order of pruning leaves of the closure. */
  ghost predicate IsPlan(fs: Fragments, roots: set<string>, ids: seq<string>) {
    exists order :: IsOrder(order, Closure(fs, roots))
                    && IsSortOf(fs, PruneAlong(fs, Closure(fs, roots), order), ids)
  }

  /** What the planner returns: the specifications along such a list. */
  ghost predicate IsPlanned(fs: Fragments, roots: set<string>, planned: seq<Spec>) {
    exists ids :: IsPlan(fs, roots, ids) && (forall x | x in ids :: x in fs) && planned == Specs(fs, ids)
  }

  /** All specifications of a set of fragments, sorted. */
  ghost predicate IsListing(fs: Fragments, s: set<string>, planned: seq<Spec>) {
    exists ids :: IsSortOf(fs, s, ids) && planned == Specs(fs, ids)
  }

  /** Plans ascend in the same way. */
  lemma PlanAscends(fs: Fragments, roots: set<string>, planned: seq<Spec>, i: nat, j: nat)
    requires IsPlanned(fs, roots, planned) && i < j < |planned|
    ensures planned[i].order <= planned[j].order
    ensures planned[i].order == planned[j].order ==> !Less(planned[j].selector, planned[i].selector)
  {
    var ids :| IsPlan(fs, roots, ids) && (forall x | x in ids :: x in fs) && planned == Specs(fs, ids);
    var order :| IsOrder(order, Closure(fs, roots)) && IsSortOf(fs, PruneAlong(fs, Closure(fs, roots), order), ids);
    assert IsListing(fs, PruneAlong(fs, Closure(fs, roots), order), planned);
    ListingAscends(fs, PruneAlong(fs, Closure(fs, roots), order), planned, i, j);
  }

  /** Without roots, or without registered fragments, the empty plan is the only one. */
  lemma NothingToPlan(fs: Fragments, roots: set<string>)
    requires fs == map[] || roots == {}
    ensures IsPlan(fs, roots, []) && forall ids | IsPlan(fs, roots, ids) :: ids == []
  {
    assert Closure(fs, roots) == {};
    assert IsOrder([], {}) && IsSortOf(fs, PruneAlong(fs, {}, []), []);
    forall ids | IsPlan(fs, roots, ids) ensures ids == [] {
      var order :| IsOrder(order, {}) && IsSortOf(fs, PruneAlong(fs, {}, order), ids);
      PruneAlongShrinks(fs, {}, order);
      OrderLength(ids, {});
    }
  }

  lemma PlanOfOrder(fs: Fragments, roots: set<string>, order: seq<string>) returns (ids: seq<string>)
    requires IsOrder(order, Closure(fs, roots))
    ensures IsPlan(fs, roots, ids) && IsSortOf(fs, PruneAlong(fs, Closure(fs, roots), order), ids)
  {
    var kept := PruneAlong(fs, Closure(fs, roots), order);
    PruneAlongShrinks(fs, Closure(fs, roots), order);
    SortIsSort(fs, kept, SomeOrder(kept));
    ids := Sort(fs, SomeOrder(kept));
  }

  ghost predicate OnePlan(fs: Fragments, roots: set<string>) {
    forall a, b | IsPlan(fs, roots, a) && IsPlan(fs, roots, b) :: a == b
  }

  /**
   The plan is a function of the set of roots if and only if dominance is covered on the closure; it is then
   the sorted list of the undominated fragments.
   */
  lemma OnePlanIff(fs: Fragments, roots: set<string>)
    requires Irreflexive(fs, Closure(fs, roots)) && DistinctKeys(fs, Closure(fs, roots))
    ensures OnePlan(fs, roots) <==> Covered(fs, Closure(fs, roots))
    ensures Covered(fs, Closure(fs, roots)) ==>
              forall a | IsPlan(fs, roots, a) :: IsSortOf(fs, Undominated(fs, Closure(fs, roots)), a)
  {
    var all := Closure(fs, roots);
    OrderIrrelevantIff(fs, all);
    if Covered(fs, all) {
      forall a, b | IsPlan(fs, roots, a) && IsPlan(fs, roots, b) ensures a == b {
        SortIsUnique(fs, Undominated(fs, all), a, b);
      }
    } else {
      var x, y :| IsOrder(x, all) && IsOrder(y, all) && PruneAlong(fs, all, x) != PruneAlong(fs, all, y);
      var a := PlanOfOrder(fs, roots, x);
      var b := PlanOfOrder(fs, roots, y);
      var w :| w in PruneAlong(fs, all, x) <==> w !in PruneAlong(fs, all, y);
      assert w in a <==> w !in b;
    }
  }

  /// Refresh policies

  const PAGE := "page-content"
  const NAVBAR := "navbar-content"
  const FLOAT := "float-selection"

  datatype Policy = PageOnly | PageAndNavbar | PageAndLayout

  function RootsForPolicy(policy: Policy): seq<string> {
    match policy
    case PageAndNavbar => [PAGE, NAVBAR]
    case PageAndLayout => [PAGE, NAVBAR, FLOAT]
    case PageOnly => [PAGE]
  }

  /** A wider policy refreshes at least what a narrower one does, before pruning. */
  lemma PoliciesNested(fs: Fragments)
    ensures "page-content" in fs ==> "page-content" in Closure(fs, Elements(RootsForPolicy(PageOnly)))
    ensures "navbar-content" in fs ==> "navbar-content" in Closure(fs, Elements(RootsForPolicy(PageAndNavbar)))
    ensures "float-selection" in fs ==> "float-selection" in Closure(fs, Elements(RootsForPolicy(PageAndLayout)))
    ensures Closure(fs, Elements(RootsForPolicy(PageAndLayout))) ==
            Closure(fs, {"page-content", "navbar-content", "float-selection"})
    ensures Closure(fs, Elements(RootsForPolicy(PageAndNavbar))) == Closure(fs, {"page-content", "navbar-content"})
    ensures Closure(fs, Elements(RootsForPolicy(PageOnly))) == Closure(fs, {"page-content"})
    ensures Closure(fs, Elements(RootsForPolicy(PageOnly))) <= Closure(fs, Elements(RootsForPolicy(PageAndNavbar)))
    ensures Closure(fs, Elements(RootsForPolicy(PageAndNavbar))) <= Closure(fs, Elements(RootsForPolicy(PageAndLayout)))
  {
    if PAGE in fs {
      ClosureIsClosed(fs, {PAGE}, PAGE, PAGE);
    }
    if NAVBAR in fs {
      ClosureIsClosed(fs, {PAGE, NAVBAR}, NAVBAR, NAVBAR);
    }
    if FLOAT in fs {
      ClosureIsClosed(fs, {PAGE, NAVBAR, FLOAT}, FLOAT, FLOAT);
    }
    assert Elements([PAGE]) == {PAGE} && Elements([PAGE, NAVBAR]) == {PAGE, NAVBAR};
    assert Elements([PAGE, NAVBAR, FLOAT]) == {PAGE, NAVBAR, FLOAT};
    ClosureMonotone(fs, Elements([PAGE]), Elements([PAGE, NAVBAR]));
    ClosureMonotone(fs, Elements([PAGE, NAVBAR]), Elements([PAGE, NAVBAR, FLOAT]));
  }
}
