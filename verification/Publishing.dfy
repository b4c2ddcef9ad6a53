/**
 The publishing pipeline: which selectors a page shows, and how a planned set of fragments is rendered and
 published, one event each, to the connections of a user.
 */
module Publishing {
  import opened Events
  import opened FragmentModel
  import opened FragmentPlanner
  import opened Index
  import opened Routing
  import opened Sequences
  import opened Wrappers
  import BM = BrokerModel
  import BR = BrokerRuns
  import B = Broker

  const MAX_FRAGMENT_SIZE: nat := 8 * 1024 * 1024
  const DEFAULT_SELECTOR := "#page-content"

  datatype Global = Global(id: string, selector: string)

  /**
   The application: its planner, if any, the selectors of its registered components by route, global fragments, and
   what URL parsing makes of a text.
   */
  datatype App = App(routes: set<string>, planner: Option<Planner>, components: map<string, set<string>>,
                     globals: seq<Global>, parse: string -> Option<string>)

  /**
   One publish: the user it is for, the rendered fragments, the encoding of a payload, and the user's active
   sessions, which are read anew for each fragment.
   */
  datatype Job = Job(userID: string, active: Spec -> Option<set<string>>, rawPath: string,
                     render: Spec -> Option<string>, encode: (string, string) -> string)

  ghost predicate Resolves(app: App, raw: string, r: Option<string>) {
    IsResult(app.routes, PathOf(raw, app.parse(raw)), r)
  }

  /** The fragments registered for a route key. */
  function Registered(app: App, key: string): Fragments {
    if app.planner.Some? then app.planner.value.FragmentsOf(key) else map[]
  }

  /// What a page shows

  function Selectors(fs: Fragments): set<string> {
    set id | id in fs :: fs[id].selector
  }

  function FragmentIDs(fs: Fragments): set<string> {
    set id | id in fs :: fs[id].id
  }

  function GlobalSelectors(globals: seq<Global>): set<string> {
    set g | g in globals :: g.selector
  }

  function GlobalIDs(globals: seq<Global>): set<string> {
    set g | g in globals :: g.id
  }

  function PageSelectors(app: App, r: Option<string>): set<string> {
    (if r.Some? && app.planner.Some? then Selectors(Registered(app, r.value)) else {DEFAULT_SELECTOR})
    + GlobalSelectors(app.globals)
  }

  function PageFragmentIDs(app: App, r: Option<string>): set<string> {
    (if r.Some? && app.planner.Some? then FragmentIDs(Registered(app, r.value)) else {})
    + GlobalIDs(app.globals)
  }

  /** The two sets belong to a route key that the lookup may give. */
  ghost predicate IsPageOf(app: App, path: string, selectors: set<string>, fragmentIDs: set<string>) {
    exists r :: Resolves(app, path, r) && selectors == PageSelectors(app, r) && fragmentIDs == PageFragmentIDs(app, r)
  }

  /** The two sets of a page, collected in loops. */
  method FragmentsForPage(app: App, path: string) returns (selectors: set<string>, fragmentIDs: set<string>)
    ensures IsPageOf(app, path, selectors, fragmentIDs)
  {
    var key := MatchRoute(app.routes, path, app.parse(path));
    if key.Some? && app.planner.Some? {
      selectors, fragmentIDs := RegisteredOn(app.planner.value, key.value);
    } else {
      selectors, fragmentIDs := {DEFAULT_SELECTOR}, {};
    }
    ghost var pageSelectors, pageIDs := selectors, fragmentIDs;
    for i := 0 to |app.globals|
      invariant selectors == pageSelectors + GlobalSelectors(app.globals[..i])
      invariant fragmentIDs == pageIDs + GlobalIDs(app.globals[..i])
    {
      assert app.globals[..i + 1] == app.globals[..i] + [app.globals[i]];
      selectors := selectors + {app.globals[i].selector};
      fragmentIDs := fragmentIDs + {app.globals[i].id};
    }
    assert app.globals[..|app.globals|] == app.globals;
    assert Resolves(app, path, key);
  }

  method RegisteredOn(planner: Planner, key: string) returns (selectors: set<string>, fragmentIDs: set<string>)
    ensures selectors == Selectors(planner.FragmentsOf(key)) && fragmentIDs == FragmentIDs(planner.FragmentsOf(key))
  {
    var all := planner.AllFragments(key);
    selectors, fragmentIDs := Collect(all);
    ListCovers(planner.FragmentsOf(key), all);
  }

  method Collect(all: seq<Spec>) returns (selectors: set<string>, fragmentIDs: set<string>)
    ensures selectors == SelectorsUpTo(all, |all|) && fragmentIDs == IDsUpTo(all, |all|)
  {
    selectors, fragmentIDs := {}, {};
    for i := 0 to |all|
      invariant selectors == SelectorsUpTo(all, i) && fragmentIDs == IDsUpTo(all, i)
    {
      selectors, fragmentIDs := selectors + {all[i].selector}, fragmentIDs + {all[i].id};
    }
  }

  /** A list of all specifications has every selector and every identifier. */
  lemma ListCovers(fs: Fragments, all: seq<Spec>)
    requires IsListing(fs, fs.Keys, all)
    ensures SelectorsUpTo(all, |all|) == Selectors(fs) && IDsUpTo(all, |all|) == FragmentIDs(fs)
  {
    var ids :| IsSortOf(fs, fs.Keys, ids) && all == Specs(fs, ids);
    SelectorsCover(fs, ids, all);
    FragmentIDsCover(fs, ids, all);
  }

  lemma SpecAt(fs: Fragments, ids: seq<string>, all: seq<Spec>, id: string) returns (j: nat)
    requires IsSortOf(fs, fs.Keys, ids) && all == Specs(fs, ids) && id in fs
    ensures j < |all| && all[j] == fs[id]
  {
    assert id in ids;
    j :| 0 <= j < |ids| && ids[j] == id;
  }

  lemma SelectorsCover(fs: Fragments, ids: seq<string>, all: seq<Spec>)
    requires IsSortOf(fs, fs.Keys, ids) && all == Specs(fs, ids)
    ensures SelectorsUpTo(all, |all|) == Selectors(fs)
  {
    forall x | x in Selectors(fs) ensures x in SelectorsUpTo(all, |all|) {
      var id :| id in fs && fs[id].selector == x;
      var j := SpecAt(fs, ids, all, id);
      assert all[j].selector == x;
    }
    forall j | 0 <= j < |all| ensures all[j].selector in Selectors(fs) {
      assert ids[j] in ids && all[j] == fs[ids[j]];
    }
  }

  lemma FragmentIDsCover(fs: Fragments, ids: seq<string>, all: seq<Spec>)
    requires IsSortOf(fs, fs.Keys, ids) && all == Specs(fs, ids)
    ensures IDsUpTo(all, |all|) == FragmentIDs(fs)
  {
    forall x | x in FragmentIDs(fs) ensures x in IDsUpTo(all, |all|) {
      var id :| id in fs && fs[id].id == x;
      var j := SpecAt(fs, ids, all, id);
      assert all[j].id == x;
    }
    forall j | 0 <= j < |all| ensures all[j].id in FragmentIDs(fs) {
      assert ids[j] in ids && all[j] == fs[ids[j]];
    }
  }

  function SelectorsUpTo(all: seq<Spec>, n: nat): set<string>
    requires n <= |all|
  {
    set j | 0 <= j < n :: all[j].selector
  }

  function IDsUpTo(all: seq<Spec>, n: nat): set<string>
    requires n <= |all|
  {
    set j | 0 <= j < n :: all[j].id
  }

  /// Publishing one fragment

  /** The event for a planned fragment, or nothing if it cannot be rendered, is too large, or has no addressee. */
  function EventFor(app: App, job: Job, key: string, spec: Spec): Option<Event> {
    if !Renderable(app, key, spec) then None
    else
      match job.render(spec)
      case None => None
      case Some(html) =>
        if |html| > MAX_FRAGMENT_SIZE || job.userID == "" then None
        else Some(Event("", "app-event", job.encode(spec.selector, html), 0))
  }

  predicate Renderable(app: App, key: string, spec: Spec) {
    match spec.kind
    case RouteContent => true
    case PageComponent => key in app.components && spec.selector in app.components[key]
    case Custom => spec.renderable
  }

  /** A connection whose page is unknown gets everything; otherwise the page must show the selector. */
  predicate ShownOn(selector: string, m: BM.Meta) {
    m.page == "" || selector in m.selectors
  }

  function FilterFor(selector: string): BM.Meta -> bool {
    m => ShownOn(selector, m)
  }

  function OptionsFor(job: Job, spec: Spec): BM.Options {
    BM.Options(job.active(spec), Some(FilterFor(spec.selector)))
  }

  function PublishOne(b: BM.State, job: Job, spec: Spec, e: Event): BM.State {
    BM.Amend(b, BM.Addressed(b, {job.userID}, OptionsFor(job, spec)), BM.Offered(e))
  }

  /** Publishing the fragments of a list, in order, as long as each has an event. */
  function PublishList(b: BM.State, app: App, job: Job, key: string, list: seq<Spec>): BM.State
    decreases |list|
  {
    if list == [] then b
    else
      match EventFor(app, job, key, list[0])
      case None => b
      case Some(e) => PublishList(PublishOne(b, job, list[0], e), app, job, key, list[1..])
  }

  /** The events of a list up to its first fragment without one. */
  function EventList(app: App, job: Job, key: string, list: seq<Spec>): (events: seq<Event>)
    ensures |events| <= |list|
    ensures forall i | 0 <= i < |events| :: EventFor(app, job, key, list[i]) == Some(events[i])
    ensures |events| < |list| ==> EventFor(app, job, key, list[|events|]).None?
    decreases |list|
  {
    if list == [] then []
    else
      match EventFor(app, job, key, list[0])
      case None => []
      case Some(e) => [e] + EventList(app, job, key, list[1..])
  }

  /** One fragment: filtered by page, restricted to active sessions, through the broker's indexes. */
  method PublishFragment(app: App, job: Job, broker: B.Broker, key: string, spec: Spec) returns (ok: bool)
    requires broker.Valid() && BM.Inv(broker.model)
    modifies broker, broker.connections.Values
    ensures broker.Valid() && BM.Inv(broker.model) && broker.connections == old(broker.connections)
    ensures match EventFor(app, job, key, spec)
            case None => !ok && broker.model == old(broker.model)
            case Some(e) => ok && broker.model == PublishOne(old(broker.model), job, spec, e)
  {
    var event := EventFor(app, job, key, spec);
    if event.None? {
      return false;
    }
    ghost var b := broker.model;
    var opts := OptionsFor(job, spec);
    BR.AmendKeepsInv(b, BM.Addressed(b, {job.userID}, opts), BM.Offered(event.value));
    broker.PublishToUserWithOptions(job.userID, event.value, opts);
    return true;
  }

  /**
   Rendering and publishing a plan with early abort. `localized` says whether the request's locale could be set;
   `key` is the route that was found and `ids` the plan.
   */
  method PublishFragmentScope(app: App, job: Job, broker: B.Broker, roots: seq<string>, localized: bool)
      returns (ok: bool, ghost key: Option<string>, ghost ids: seq<string>)
    requires broker.Valid() && BM.Inv(broker.model) && app.planner.Some?
    modifies broker, broker.connections.Values
    ensures broker.Valid() && BM.Inv(broker.model) && Resolves(app, job.rawPath, key)
    ensures key.None? || !localized ==> !ok && broker.model == old(broker.model)
    ensures key.Some? && localized ==>
              var fs := Registered(app, key.value);
              && IsPlan(fs, Elements(roots), ids) && (forall x | x in ids :: x in fs)
              && broker.model == PublishList(old(broker.model), app, job, key.value, Specs(fs, ids))
              && (ok <==> |EventList(app, job, key.value, Specs(fs, ids))| == |ids|)
  {
    var found := MatchRoute(app.routes, job.rawPath, app.parse(job.rawPath));
    key, ids := found, [];
    if found.None? || !localized {
      return false, key, ids;
    }
    var plan := app.planner.value.Plan(found.value, roots);
    ghost var fs := Registered(app, found.value);
    ids :| IsPlan(fs, Elements(roots), ids) && (forall x | x in ids :: x in fs) && plan == Specs(fs, ids);
    ok := PublishPlan(app, job, broker, found.value, plan);
  }

  method PublishPlan(app: App, job: Job, broker: B.Broker, key: string, plan: seq<Spec>) returns (ok: bool)
    requires broker.Valid() && BM.Inv(broker.model)
    modifies broker, broker.connections.Values
    ensures broker.Valid() && BM.Inv(broker.model)
    ensures broker.model == PublishList(old(broker.model), app, job, key, plan)
    ensures ok <==> |EventList(app, job, key, plan)| == |plan|
  {
    ghost var b := broker.model;
    for i := 0 to |plan|
      invariant broker.Valid() && BM.Inv(broker.model) && broker.connections == old(broker.connections)
      invariant PublishList(broker.model, app, job, key, plan[i..]) == PublishList(b, app, job, key, plan)
      invariant |EventList(app, job, key, plan)| == i + |EventList(app, job, key, plan[i..])|
    {
      assert plan[i..][0] == plan[i] && plan[i..][1..] == plan[i + 1..];
      var sent := PublishFragment(app, job, broker, key, plan[i]);
      if !sent {
        return false;
      }
    }
    return true;
  }

  /// Who receives what

  /** Belongs to the user, and its session is active when the fragment is published. */
  predicate Targeted(job: Job, spec: Spec, m: BM.Meta) {
    m.userID == job.userID && BM.Active(job.active(spec), m.sessionID)
  }

  lemma OneDelivery(b: BM.State, job: Job, spec: Spec, e: Event, id: nat)
    requires id in b.conns
    ensures var t := PublishOne(b, job, spec, e);
            && id in t.conns && t.buf == b.buf && t.conns[id].meta == b.conns[id].meta
            && t.conns[id].queue ==
               (if Targeted(job, spec, b.conns[id].meta) && ShownOn(spec.selector, b.conns[id].meta)
                   && |b.conns[id].queue| < b.buf
                then b.conns[id].queue + [e] else b.conns[id].queue)
  {
    assert BM.Accepts(OptionsFor(job, spec).filter, b.conns[id].meta) <==> ShownOn(spec.selector, b.conns[id].meta);
  }

  predicate AllShown(list: seq<Spec>, m: BM.Meta) {
    forall i | 0 <= i < |list| :: ShownOn(list[i].selector, m)
  }

  predicate AllTargeted(job: Job, list: seq<Spec>, m: BM.Meta) {
    forall i | 0 <= i < |list| :: Targeted(job, list[i], m)
  }

  predicate NoneTargeted(job: Job, list: seq<Spec>, m: BM.Meta) {
    forall i | 0 <= i < |list| :: !Targeted(job, list[i], m)
  }

  lemma TailIsShown(job: Job, list: seq<Spec>, m: BM.Meta)
    requires list != [] && AllShown(list, m) && AllTargeted(job, list, m)
    ensures AllShown(list[1..], m) && AllTargeted(job, list[1..], m)
    ensures ShownOn(list[0].selector, m) && Targeted(job, list[0], m)
  {
  }

  lemma TailIsNotTargeted(job: Job, list: seq<Spec>, m: BM.Meta)
    requires list != [] && NoneTargeted(job, list, m)
    ensures !Targeted(job, list[0], m) && NoneTargeted(job, list[1..], m)
  {
  }

  /** A bounded queue after offers of a list of events: it takes them until it is full. */
  function Filled(queue: seq<Event>, events: seq<Event>, buf: nat): (r: seq<Event>)
    requires |queue| <= buf
    ensures |queue| + |events| <= buf ==> r == queue + events
  {
    queue + events[..if |queue| + |events| <= buf then |events| else buf - |queue|]
  }

  lemma FilledStep(queue: seq<Event>, e: Event, events: seq<Event>, buf: nat)
    requires |queue| <= buf
    ensures Filled(queue, [e] + events, buf) == Filled(if |queue| < buf then queue + [e] else queue, events, buf)
  {
    if |queue| < buf {
      var n := if |queue| + 1 + |events| <= buf then |events| else buf - |queue| - 1;
      assert ([e] + events)[..n + 1] == [e] + events[..n];
      Assoc3(queue, [e], events[..n]);
    }
  }

  /** A targeted connection that shows every fragment receives the list's events, in order, as far as it has room. */
  lemma {:induction false} ListDelivery(b: BM.State, app: App, job: Job, key: string, list: seq<Spec>, id: nat)
    requires id in b.conns && AllTargeted(job, list, b.conns[id].meta) && AllShown(list, b.conns[id].meta)
    requires |b.conns[id].queue| <= b.buf
    ensures var t := PublishList(b, app, job, key, list);
            id in t.conns && t.conns[id].queue == Filled(b.conns[id].queue, EventList(app, job, key, list), b.buf)
    decreases |list|
  {
    if list != [] {
      match EventFor(app, job, key, list[0]) {
        case None =>
        case Some(e) =>
          var t := PublishOne(b, job, list[0], e);
          OneDelivery(b, job, list[0], e, id);
          TailIsShown(job, list, b.conns[id].meta);
          ListDelivery(t, app, job, key, list[1..], id);
          FilledStep(b.conns[id].queue, e, EventList(app, job, key, list[1..]), b.buf);
      }
    }
  }

  /** A connection of another user or of an inactive session receives nothing. */
  lemma {:induction false} OthersGetNothing(b: BM.State, app: App, job: Job, key: string, list: seq<Spec>, id: nat)
    requires id in b.conns && NoneTargeted(job, list, b.conns[id].meta)
    ensures var t := PublishList(b, app, job, key, list); id in t.conns && t.conns[id] == b.conns[id]
    decreases |list|
  {
    if list != [] {
      match EventFor(app, job, key, list[0]) {
        case None =>
        case Some(e) =>
          OneDelivery(b, job, list[0], e, id);
          TailIsNotTargeted(job, list, b.conns[id].meta);
          OthersGetNothing(PublishOne(b, job, list[0], e), app, job, key, list[1..], id);
      }
    }
  }

  /** The path is registered, with or without its slash, or at most one key matches it. */
  ghost predicate UniqueRoute(app: App, raw: string) {
    var path := PathOf(raw, app.parse(raw));
    path in app.routes || Toggled(path) in app.routes || AtMostOneMatch(app.routes, path)
  }

  /** Every fragment of a plan is shown on a page that was set up for the same path. */
  lemma PlannedIsShown(app: App, path: string, key: string, pageKey: Option<string>, roots: set<string>,
                       ids: seq<string>, m: BM.Meta, i: nat)
    requires app.planner.Some? && UniqueRoute(app, path)
    requires Resolves(app, path, Some(key)) && Resolves(app, path, pageKey)
    requires IsPlan(Registered(app, key), roots, ids) && i < |ids|
    requires m.page == "" || m.selectors == PageSelectors(app, pageKey)
    ensures ids[i] in Registered(app, key) && ShownOn(Registered(app, key)[ids[i]].selector, m)
  {
    var fs := Registered(app, key);
    var order :| IsOrder(order, Closure(fs, roots)) && IsSortOf(fs, PruneAlong(fs, Closure(fs, roots), order), ids);
    assert ids[i] in ids;
    PruneAlongShrinks(fs, Closure(fs, roots), order);
    assert pageKey == Some(key);
  }

  /**
   End to end: each connection of the user with an active session, whose page context was computed for the same
   path or is unknown, receives the plan's events in plan order, as far as its channel has room: all of them if
   publishing succeeded, and otherwise those before the first fragment that failed.
   */
  lemma PageReceivesThePlan(b: BM.State, app: App, job: Job, key: string, pageKey: Option<string>,
                            roots: set<string>, plan: seq<Spec>, id: nat)
    requires app.planner.Some? && UniqueRoute(app, job.rawPath)
    requires Resolves(app, job.rawPath, Some(key)) && Resolves(app, job.rawPath, pageKey)
    requires IsPlanned(Registered(app, key), roots, plan)
    requires id in b.conns && AllTargeted(job, plan, b.conns[id].meta)
    requires b.conns[id].meta.page == "" || b.conns[id].meta.selectors == PageSelectors(app, pageKey)
    requires |b.conns[id].queue| <= b.buf
    ensures var t := PublishList(b, app, job, key, plan);
            id in t.conns && t.conns[id].queue == Filled(b.conns[id].queue, EventList(app, job, key, plan), b.buf)
  {
    PlanIsShown(app, job.rawPath, key, pageKey, roots, plan, b.conns[id].meta);
    ListDelivery(b, app, job, key, plan, id);
  }

  lemma PlanIsShown(app: App, path: string, key: string, pageKey: Option<string>, roots: set<string>,
                    plan: seq<Spec>, m: BM.Meta)
    requires app.planner.Some? && UniqueRoute(app, path)
    requires Resolves(app, path, Some(key)) && Resolves(app, path, pageKey)
    requires IsPlanned(Registered(app, key), roots, plan)
    requires m.page == "" || m.selectors == PageSelectors(app, pageKey)
    ensures AllShown(plan, m)
  {
    var fs := Registered(app, key);
    var ids :| IsPlan(fs, roots, ids) && (forall x | x in ids :: x in fs) && plan == Specs(fs, ids);
    forall i | 0 <= i < |plan| ensures ShownOn(plan[i].selector, m) {
      PlannedIsShown(app, path, key, pageKey, roots, ids, m, i);
    }
  }

  /// From page setup to delivery

  /** The operation neither closes the connection nor sets its page again. */
  predicate LeavesPage(b: BM.State, op: BR.Op, id: nat) {
    match op
    case Remove(gone) => gone != id
    case UpdateSessionPage(sid, _, _, _) => id !in At(b.sessions, sid)
    case Change(ids, change) => change.Paged? ==> id !in ids
    case _ => true
  }

  ghost predicate RunLeavesPage(b: BM.State, ops: seq<BR.Op>, id: nat)
    decreases |ops|
  {
    ops == [] || (BR.Legal(b, ops[0]) && LeavesPage(b, ops[0], id) && RunLeavesPage(BR.Step(b, ops[0]), ops[1..], id))
  }

  predicate ShowsPage(b: BM.State, id: nat, page: string, selectors: set<string>) {
    id in b.conns && b.conns[id].meta.page == page && b.conns[id].meta.selectors == selectors
  }

  lemma StepLeavesPage(b: BM.State, op: BR.Op, id: nat, page: string, selectors: set<string>)
    requires BM.Bounded(b) && BR.Legal(b, op) && LeavesPage(b, op, id) && ShowsPage(b, id, page, selectors)
    ensures ShowsPage(BR.Step(b, op), id, page, selectors)
  {
  }

  lemma {:induction false} PageLasts(b: BM.State, ops: seq<BR.Op>, id: nat, page: string, selectors: set<string>)
    requires BM.Inv(b) && RunLeavesPage(b, ops, id) && ShowsPage(b, id, page, selectors)
    ensures BM.Inv(BR.Run(b, ops)) && ShowsPage(BR.Run(b, ops), id, page, selectors)
    decreases |ops|
  {
    if ops != [] {
      StepLeavesPage(b, ops[0], id, page, selectors);
      BR.StepKeepsInv(b, ops[0]);
      PageLasts(BR.Step(b, ops[0]), ops[1..], id, page, selectors);
    }
  }

  /** Setting the page context of one connection to what the page shows. */
  lemma SetUpShowsPage(b: BM.State, app: App, path: string, pageKey: Option<string>, id: nat)
    requires BM.Inv(b) && id in b.conns
    ensures var t := BM.Amend(b, {id}, BM.Paged(path, PageSelectors(app, pageKey), PageFragmentIDs(app, pageKey)));
            && BM.Inv(t) && ShowsPage(t, id, path, PageSelectors(app, pageKey))
            && t.conns[id].meta.fragmentIDs == PageFragmentIDs(app, pageKey)
  {
    BR.AmendKeepsInv(b, {id}, BM.Paged(path, PageSelectors(app, pageKey), PageFragmentIDs(app, pageKey)));
  }

  /**
   Once a connection was set up for a page, by what the page shows, any run of broker operations that does not
   set its page again leaves it receiving the plans published for the same path, as far as its channel has room.
   */
  lemma SetUpPageReceivesThePlan(b: BM.State, v: BM.State, app: App, job: Job, key: string, pageKey: Option<string>,
                                 page: string, shown: set<string>, ops: seq<BR.Op>, roots: set<string>,
                                 plan: seq<Spec>, id: nat)
    requires BM.Inv(b) && ShowsPage(b, id, page, shown)
    requires RunLeavesPage(b, ops, id) && v == BR.Run(b, ops)
    requires app.planner.Some? && UniqueRoute(app, job.rawPath)
    requires Resolves(app, job.rawPath, Some(key)) && Resolves(app, job.rawPath, pageKey)
    requires IsPlanned(Registered(app, key), roots, plan) && shown == PageSelectors(app, pageKey)
    requires id in v.conns ==> AllTargeted(job, plan, v.conns[id].meta)
    ensures id in v.conns && |v.conns[id].queue| <= v.buf
    ensures var t := PublishList(v, app, job, key, plan);
            id in t.conns && t.conns[id].queue == Filled(v.conns[id].queue, EventList(app, job, key, plan), v.buf)
  {
    PageLasts(b, ops, id, page, shown);
    PageReceivesThePlan(v, app, job, key, pageKey, roots, plan, id);
  }

  /// Broker operations between the fragments of a plan

  /** The broker after one fragment of a plan. */
  function AfterOne(b: BM.State, app: App, job: Job, key: string, spec: Spec): BM.State {
    match EventFor(app, job, key, spec)
    case None => b
    case Some(e) => PublishOne(b, job, spec, e)
  }

  /** One round: operations that leave the connection's page, and then one fragment. */
  ghost predicate Round(app: App, job: Job, key: string, spec: Spec, id: nat, t: BM.State, ops: seq<BR.Op>, u: BM.State,
                        v: BM.State) {
    RunLeavesPage(t, ops, id) && u == BR.Run(t, ops) && v == AfterOne(u, app, job, key, spec)
  }

  /** A plan whose fragments are published with operations in between; `us` and `ts` are the states around each. */
  ghost predicate Interleaved(app: App, job: Job, key: string, plan: seq<Spec>, id: nat, between: seq<seq<BR.Op>>,
                              us: seq<BM.State>, ts: seq<BM.State>) {
    && |plan| == |between| == |us| && |ts| == |plan| + 1
    && forall i | 0 <= i < |plan| :: Round(app, job, key, plan[i], id, ts[i], between[i], us[i], ts[i + 1])
  }

  lemma AfterOneKeepsPage(b: BM.State, app: App, job: Job, key: string, spec: Spec, id: nat, page: string,
                          shown: set<string>)
    requires BM.Inv(b) && ShowsPage(b, id, page, shown)
    ensures var t := AfterOne(b, app, job, key, spec); BM.Inv(t) && ShowsPage(t, id, page, shown)
  {
    match EventFor(app, job, key, spec)
    case None =>
    case Some(e) =>
      OneDelivery(b, job, spec, e, id);
      BR.AmendKeepsInv(b, BM.Addressed(b, {job.userID}, OptionsFor(job, spec)), BM.Offered(e));
  }

  lemma RoundKeepsPage(app: App, job: Job, key: string, spec: Spec, id: nat, t: BM.State, ops: seq<BR.Op>, u: BM.State,
                       v: BM.State, page: string, shown: set<string>)
    requires Round(app, job, key, spec, id, t, ops, u, v) && BM.Inv(t) && ShowsPage(t, id, page, shown)
    ensures BM.Inv(u) && ShowsPage(u, id, page, shown) && BM.Inv(v) && ShowsPage(v, id, page, shown)
  {
    PageLasts(t, ops, id, page, shown);
    AfterOneKeepsPage(u, app, job, key, spec, id, page, shown);
  }

  lemma {:induction false} PageLastsThroughout(app: App, job: Job, key: string, plan: seq<Spec>, id: nat,
                                               between: seq<seq<BR.Op>>, us: seq<BM.State>, ts: seq<BM.State>,
                                               page: string, shown: set<string>, i: nat)
    requires Interleaved(app, job, key, plan, id, between, us, ts) && i < |ts|
    requires BM.Inv(ts[0]) && ShowsPage(ts[0], id, page, shown)
    ensures BM.Inv(ts[i]) && ShowsPage(ts[i], id, page, shown)
    decreases i
  {
    if i > 0 {
      var k := i - 1;
      PageLastsThroughout(app, job, key, plan, id, between, us, ts, page, shown, k);
      assert Round(app, job, key, plan[k], id, ts[k], between[k], us[k], ts[k + 1]);
      RoundKeepsPage(app, job, key, plan[k], id, ts[k], between[k], us[k], ts[k + 1], page, shown);
    }
  }

  lemma RoundDelivers(app: App, job: Job, key: string, spec: Spec, e: Event, id: nat, t: BM.State, ops: seq<BR.Op>,
                      u: BM.State, v: BM.State, page: string, shown: set<string>)
    requires Round(app, job, key, spec, id, t, ops, u, v) && BM.Inv(t) && ShowsPage(t, id, page, shown)
    requires (page == "" || spec.selector in shown) && EventFor(app, job, key, spec) == Some(e)
    ensures Offer(job, spec, e, id, u, v)
  {
    RoundKeepsPage(app, job, key, spec, id, t, ops, u, v, page, shown);
    OneDelivery(u, job, spec, e, id);
  }

  /** The event was appended to the connection's queue if it was targeted and there was room; nothing else was. */
  predicate Offer(job: Job, spec: Spec, e: Event, id: nat, u: BM.State, v: BM.State) {
    && id in u.conns && id in v.conns
    && v.conns[id].queue ==
       if Targeted(job, spec, u.conns[id].meta) && |u.conns[id].queue| < u.buf then u.conns[id].queue + [e]
       else u.conns[id].queue
  }

  /**
   Whatever operations that leave the page run before each fragment, the connection is offered the plan's events one
   by one, in plan order, up to the first fragment that fails: each is appended to its queue as it is then, if there
   is room.
   */
  lemma InterleavedDelivery(app: App, job: Job, key: string, pageKey: Option<string>, page: string, shown: set<string>,
                            roots: set<string>, plan: seq<Spec>, id: nat, between: seq<seq<BR.Op>>, us: seq<BM.State>,
                            ts: seq<BM.State>, i: nat)
    requires Interleaved(app, job, key, plan, id, between, us, ts)
    requires BM.Inv(ts[0]) && ShowsPage(ts[0], id, page, shown) && shown == PageSelectors(app, pageKey)
    requires app.planner.Some? && UniqueRoute(app, job.rawPath)
    requires Resolves(app, job.rawPath, Some(key)) && Resolves(app, job.rawPath, pageKey)
    requires IsPlanned(Registered(app, key), roots, plan) && i < |EventList(app, job, key, plan)|
    ensures Offer(job, plan[i], EventList(app, job, key, plan)[i], id, us[i], ts[i + 1])
  {
    PageLastsThroughout(app, job, key, plan, id, between, us, ts, page, shown, i);
    PlanIsShown(app, job.rawPath, key, pageKey, roots, plan, ts[i].conns[id].meta);
    assert ShownOn(plan[i].selector, ts[i].conns[id].meta);
    RoundDelivers(app, job, key, plan[i], EventList(app, job, key, plan)[i], id, ts[i], between[i], us[i], ts[i + 1],
                  page, shown);
  }

  /// Who receives nothing, and what is sent

  /**
   One fragment's event, connection by connection: it is added for the user, in an active session, on a page that is
   unknown or shows the selector, if there is room; and in no other case.
   */
  lemma DeliveredExactly(b: BM.State, job: Job, spec: Spec, e: Event, id: nat)
    requires id in b.conns
    ensures var t, c := PublishOne(b, job, spec, e), b.conns[id];
            id in t.conns && t.conns[id].meta == c.meta
            && t.conns[id].queue ==
               if c.meta.userID == job.userID && (job.active(spec).Some? ==> c.meta.sessionID in job.active(spec).value)
                  && (c.meta.page == "" || spec.selector in c.meta.selectors) && |c.queue| < b.buf
               then c.queue + [e] else c.queue
  {
    OneDelivery(b, job, spec, e, id);
  }

  /** A connection whose page shows none of the selectors receives nothing, whoever its user is. */
  lemma {:induction false} OtherPagesGetNothing(b: BM.State, app: App, job: Job, key: string, list: seq<Spec>, id: nat)
    requires id in b.conns && b.conns[id].meta.page != ""
    requires forall i | 0 <= i < |list| :: list[i].selector !in b.conns[id].meta.selectors
    ensures var t := PublishList(b, app, job, key, list); id in t.conns && t.conns[id] == b.conns[id]
    decreases |list|
  {
    if list != [] {
      match EventFor(app, job, key, list[0]) {
        case None =>
        case Some(e) =>
          DeliveredExactly(b, job, list[0], e, id);
          assert forall i | 0 <= i < |list| - 1 :: list[1..][i] == list[i + 1];
          OtherPagesGetNothing(PublishOne(b, job, list[0], e), app, job, key, list[1..], id);
      }
    }
  }

  /**
   A fragment has an event if it can be rendered, within 8 MiB, for a user: route content always can be, a component
   if it is registered under the route and the selector, a custom fragment if it has a render function. The event
   carries the selector and the rendered text.
   */
  lemma EventForExactly(app: App, job: Job, key: string, spec: Spec)
    ensures EventFor(app, job, key, spec).Some? <==>
            && (spec.kind.PageComponent? ==> key in app.components && spec.selector in app.components[key])
            && (spec.kind.Custom? ==> spec.renderable)
            && job.render(spec).Some? && |job.render(spec).value| <= 8_388_608 && job.userID != ""
    ensures EventFor(app, job, key, spec).Some? ==>
              EventFor(app, job, key, spec).value ==
              Event("", "app-event", job.encode(spec.selector, job.render(spec).value), 0)
  {
  }

  /**
   What a page shows: the selectors registered for its route, or the page content if there is no route or no planner,
   and in any case those of the global fragments; likewise the identifiers, of which the default has none.
   */
  lemma PageShowsExactly(app: App, r: Option<string>, x: string)
    ensures x in PageSelectors(app, r) <==>
            (exists g :: g in app.globals && g.selector == x)
            || (if r.Some? && app.planner.Some?
                then exists id :: id in app.planner.value.FragmentsOf(r.value)
                                  && app.planner.value.FragmentsOf(r.value)[id].selector == x
                else x == "#page-content")
    ensures x in PageFragmentIDs(app, r) <==>
            (exists g :: g in app.globals && g.id == x)
            || (r.Some? && app.planner.Some?
                && exists id :: id in app.planner.value.FragmentsOf(r.value)
                                && app.planner.value.FragmentsOf(r.value)[id].id == x)
  {
  }
}
