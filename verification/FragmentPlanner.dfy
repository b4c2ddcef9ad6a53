/** The refresh planner as the source runs it. */
module FragmentPlanner {
  import opened FragmentModel
  import opened Index

  /** What was scheduled since `before` is reachable from `id`, and its dependencies are scheduled, too. */
  ghost predicate Found(fs: Fragments, id: string, before: set<string>, now: set<string>) {
    forall x | x in now - before :: ClosedAt(fs, x, now) && Leads(Invalidation(fs), {id}, x)
  }

  lemma FoundMore(fs: Fragments, id: string, before: set<string>, mid: set<string>, now: set<string>)
    requires before <= mid <= now && Found(fs, id, before, mid) && Found(fs, id, mid, now)
    ensures Found(fs, id, before, now)
  {
    forall x | x in mid - before ensures ClosedAt(fs, x, now) {
      assert ClosedAt(fs, x, mid);
    }
  }

  /** The planner's working set, shared by the recursive visits. */
  class Scheduler {
    const fragments: Fragments
    var scheduled: set<string>

    constructor (fragments: Fragments)
      ensures this.fragments == fragments && scheduled == {}
    {
      this.fragments := fragments;
      scheduled := {};
    }

    /** Depth-first search; it terminates on cycles because each visit schedules one more fragment. */
    method Visit(id: string)
      requires scheduled <= fragments.Keys
      modifies this
      ensures old(scheduled) <= scheduled <= fragments.Keys
      ensures id in fragments ==> id in scheduled
      ensures Found(fragments, id, old(scheduled), scheduled)
      decreases fragments.Keys - scheduled, 0
    {
      if id in scheduled || id !in fragments {
        return;
      }
      var deps := fragments[id].invalidates;
      scheduled := scheduled + {id};
      LeadsStart(Invalidation(fragments), {id}, id);
      for i := 0 to |deps|
        invariant old(scheduled) + {id} <= scheduled <= fragments.Keys
        invariant forall j | 0 <= j < i && deps[j] in fragments :: deps[j] in scheduled
        invariant Found(fragments, id, old(scheduled) + {id}, scheduled)
      {
        ghost var before := scheduled;
        VisitNext(id, deps[i]);
        FoundMore(fragments, id, old(scheduled) + {id}, before, scheduled);
      }
      assert ClosedAt(fragments, id, scheduled);
    }

    /** Visiting one dependency of `id`. */
    method VisitNext(id: string, dep: string)
      requires scheduled <= fragments.Keys
      requires id in fragments && dep in fragments[id].invalidates
      modifies this
      ensures old(scheduled) <= scheduled <= fragments.Keys
      ensures dep in fragments ==> dep in scheduled
      ensures Found(fragments, id, old(scheduled), scheduled)
      decreases fragments.Keys - scheduled, 1
    {
      Visit(dep);
      forall x | x in scheduled - old(scheduled) ensures Leads(Invalidation(fragments), {id}, x) {
        EdgeThenLeads(Invalidation(fragments), id, dep, x);
      }
    }

    /** The loop over the roots. What is scheduled is exactly what the roots reach. */
    method ScheduleAll(roots: seq<string>)
      requires scheduled == {}
      modifies this
      ensures scheduled == Closure(fragments, Elements(roots))
    {
      for i := 0 to |roots|
        invariant scheduled <= fragments.Keys
        invariant forall j | 0 <= j < i && roots[j] in fragments :: roots[j] in scheduled
        invariant forall x | x in scheduled ::
                    ClosedAt(fragments, x, scheduled) && Leads(Invalidation(fragments), Elements(roots), x)
      {
        VisitRoot(roots, i);
      }
      ClosureIsLeast(fragments, Elements(roots), scheduled);
    }

    method VisitRoot(roots: seq<string>, i: nat)
      requires scheduled <= fragments.Keys && i < |roots|
      requires forall x | x in scheduled ::
                 ClosedAt(fragments, x, scheduled) && Leads(Invalidation(fragments), Elements(roots), x)
      modifies this
      ensures old(scheduled) <= scheduled <= fragments.Keys
      ensures roots[i] in fragments ==> roots[i] in scheduled
      ensures forall x | x in scheduled ::
                ClosedAt(fragments, x, scheduled) && Leads(Invalidation(fragments), Elements(roots), x)
    {
      ghost var before := scheduled;
      Visit(roots[i]);
      forall x | x in scheduled
        ensures ClosedAt(fragments, x, scheduled) && Leads(Invalidation(fragments), Elements(roots), x)
      {
        if x in before {
          assert ClosedAt(fragments, x, before);
        } else {
          assert Leads(Invalidation(fragments), {roots[i]}, x);
          LeadsFrom(Invalidation(fragments), Elements(roots), roots[i], x);
        }
      }
    }

    /**
     The pruning loop. Go visits each entry of a map at most once, in any order, and never one that was
     deleted before it was reached; `order` is the order this run happened to take.
     */
    method Prune() returns (ghost order: seq<string>)
      requires scheduled <= fragments.Keys
      modifies this
      ensures IsOrder(order, old(scheduled))
      ensures scheduled == PruneAlong(fragments, old(scheduled), order)
    {
      ghost var all := scheduled;
      var todo := scheduled;
      order := [];
      while todo != {}
        invariant todo <= all && IsOrder(order, all - todo)
        invariant scheduled == PruneAlong(fragments, all, order) && scheduled <= all
        decreases todo
      {
        var id :| id in todo;
        PruneAlongAppend(fragments, all, order, [id]);
        OrderAppend(order, all - todo, id);
        if id in scheduled {
          scheduled := scheduled - Elements(fragments[id].dominates);
        }
        order := order + [id];
        todo := todo - {id};
        assert IsOrder(order, all - todo) by { assert all - todo == (all - (todo + {id})) + {id}; }
      }
    }
  }

  lemma PlannedAlong(fs: Fragments, roots: set<string>, order: seq<string>, planned: seq<Spec>)
    requires IsOrder(order, Closure(fs, roots))
    requires IsListing(fs, PruneAlong(fs, Closure(fs, roots), order), planned)
    ensures IsPlanned(fs, roots, planned)
  {
    var ids :| IsSortOf(fs, PruneAlong(fs, Closure(fs, roots), order), ids) && planned == Specs(fs, ids);
    assert IsPlan(fs, roots, ids);
  }

  class Planner {
    const registry: map<string, Fragments>

    constructor (registry: map<string, Fragments>)
      ensures this.registry == registry
    {
      this.registry := registry;
    }

    /** Reading the registry: an unknown route has no fragments. */
    function FragmentsOf(routeKey: string): Fragments {
      if routeKey in registry then registry[routeKey] else map[]
    }

    method Plan(routeKey: string, roots: seq<string>) returns (planned: seq<Spec>)
      ensures routeKey in registry ==> IsPlanned(registry[routeKey], Elements(roots), planned)
      ensures routeKey !in registry ==> planned == []
      ensures IsPlanned(FragmentsOf(routeKey), Elements(roots), planned)
    {
      var fragments := FragmentsOf(routeKey);
      if |fragments| == 0 || |roots| == 0 {
        NothingToPlan(fragments, Elements(roots));
        assert Specs(fragments, []) == [];
        return [];
      }
      var work := new Scheduler(fragments);
      work.ScheduleAll(roots);
      ghost var order := work.Prune();
      PruneAlongShrinks(fragments, Closure(fragments, Elements(roots)), order);
      planned := Listed(fragments, work.scheduled);
      PlannedAlong(fragments, Elements(roots), order, planned);
    }

    /** Every fragment registered for the route, sorted. */
    method AllFragments(routeKey: string) returns (planned: seq<Spec>)
      ensures routeKey in registry ==> IsListing(registry[routeKey], registry[routeKey].Keys, planned)
      ensures routeKey !in registry ==> planned == []
      ensures IsListing(FragmentsOf(routeKey), FragmentsOf(routeKey).Keys, planned)
    {
      planned := Listed(FragmentsOf(routeKey), FragmentsOf(routeKey).Keys);
    }

    /** Collecting in any order, then sorting. */
    method Listed(fragments: Fragments, s: set<string>) returns (planned: seq<Spec>)
      requires s <= fragments.Keys
      ensures IsListing(fragments, s, planned)
    {
      var todo := s;
      var list: seq<string> := [];
      while todo != {}
        invariant todo <= s && IsOrder(list, s - todo)
        decreases todo
      {
        var id :| id in todo;
        OrderAppend(list, s - todo, id);
        assert s - (todo - {id}) == s - todo + {id};
        list, todo := list + [id], todo - {id};
      }
      assert s - {} == s;
      SortIsSort(fragments, s, list);
      planned := Specs(fragments, Sort(fragments, list));
    }
  }
}
