/** Many tenants reconciled at once in one namespace: every interleaving of their steps looks, to
    each tenant, like a run of its own machine on its own package. */
module Isolation {
  import opened Options
  import opened Strings
  import opened Protocol
  import opened Safety
  import opened Naming

  // ---------- the shared world ----------

  datatype Worker = Worker(tenant: Tenant, pc: PC)

  /** One store, and for each tenant its object and its run. */
  datatype World = World(store: Store, workers: map<string, Worker>)

  datatype WorldEvent = WorldEvent(who: string, event: Event)

  function WorkerOf(w: World, t: string): Worker {
    if t in w.workers then w.workers[t] else Worker(Gone, Idle)
  }

  /** The machine of one tenant, on the shared store. */
  function Inside(w: World, t: string): State {
    State(w.store, WorkerOf(w, t).tenant, WorkerOf(w, t).pc)
  }

  ghost function WorldStep(w: World, e: WorldEvent): Option<World> {
    match Step(PackageName(e.who), Inside(w, e.who), e.event)
    case None => None
    case Some(s) => Some(World(s.store, w.workers[e.who := Worker(s.tenant, s.pc)]))
  }

  ghost function WorldRun(w: World, evs: seq<WorldEvent>): Option<World>
    decreases |evs|
  {
    if evs == [] then Some(w)
    else
      match WorldStep(w, evs[0])
      case None => None
      case Some(w') => WorldRun(w', evs[1..])
  }

  // ---------- one tenant's view ----------

  /** The revisions of one package. */
  function View(store: Store, p: string): Store {
    map n | n in store && store[n].pkg == p :: store[n]
  }

  function Project(w: World, t: string): State {
    Inside(w, t).(store := View(w.store, PackageName(t)))
  }

  function ProjectAnswer(a: ListAnswer, store: Store, p: string): ListAnswer {
    match a
    case Items(order) => Items(Matching(p, store, order))
    case NotFound => NotFound
  }

  /** The call as one tenant sees it: of a list, only its own package's revisions. */
  function ProjectCall(c: Call, store: Store, p: string): Call {
    match c
    case ListDoomed(a) => ListDoomed(ProjectAnswer(a, store, p))
    case ListRevisions(a) => ListRevisions(ProjectAnswer(a, store, p))
    case _ => c
  }

  function ProjectEvent(e: Event, store: Store, p: string): Event {
    e.(call := ProjectCall(e.call, store, p))
  }

  /** The events of one tenant, as it sees them. */
  ghost function ProjectEvents(w: World, evs: seq<WorldEvent>, t: string): seq<Event>
    decreases |evs|
  {
    if evs == [] || WorldStep(w, evs[0]).None? then []
    else
      (if evs[0].who == t then [ProjectEvent(evs[0].event, w.store, PackageName(t))] else [])
      + ProjectEvents(WorldStep(w, evs[0]).value, evs[1..], t)
  }

  /** What a run holds or is about to delete belongs to its own package. */
  ghost predicate Owns(p: string, s: State) {
    match s.pc
    case Holding(_, _, pr, _) => pr.name in s.store && s.store[pr.name].pkg == p && pr.pkg == p
    case Deleting(todo) => NoDuplicates(todo) && forall n :: n in todo ==> n in s.store && s.store[n].pkg == p
    case _ => true
  }

  ghost predicate AllOwn(w: World) {
    forall t :: t in w.workers ==> Owns(PackageName(t), Inside(w, t))
  }

  // ---------- a step in the shared store is a step in the view ----------

  lemma {:induction false} MatchingFixed(p: string, store: Store, names: seq<string>)
    requires forall n :: n in names ==> n in store && store[n].pkg == p
    ensures Matching(p, store, names) == names
    decreases |names|
  {
    if names != [] {
      assert names[0] in names && forall n :: n in names[1..] ==> n in names;
      MatchingFixed(p, store, names[1..]);
    }
  }

  lemma MatchingOfView(p: string, store: Store, order: seq<string>)
    ensures Matching(p, View(store, p), Matching(p, store, order)) == Matching(p, store, order)
  {
    MatchingMembers(p, store, order);
    MatchingFixed(p, View(store, p), Matching(p, store, order));
  }

  lemma ListingOfView(p: string, store: Store, order: seq<string>)
    requires IsListing(order, store)
    ensures IsListing(Matching(p, store, order), View(store, p))
  {
    MatchingMembers(p, store, order);
    forall n ensures n in Elements(Matching(p, store, order)) <==> n in View(store, p).Keys {
      assert n in order <==> n in Elements(order);
    }
  }

  lemma {:induction false} LatestFromView(p: string, store: Store, names: seq<string>, best: Handle, bestNumber: nat)
    requires forall n :: n in names ==> n in store && store[n].pkg == p
    ensures LatestFrom(store, names, best, bestNumber) == LatestFrom(View(store, p), names, best, bestNumber)
    decreases |names|
  {
    if names != [] {
      assert names[0] in names && names[0] in View(store, p);
      assert forall n :: n in names[1..] ==> n in names;
      if store[names[0]].number > bestNumber {
        LatestFromView(p, store, names[1..], HandleOf(store, names[0]), store[names[0]].number);
      } else {
        LatestFromView(p, store, names[1..], best, bestNumber);
      }
    }
  }

  lemma {:induction false} LatestIsOwn(p: string, store: Store, names: seq<string>)
    requires forall n :: n in names ==> n in store && store[n].pkg == p
    ensures var h := Latest(store, names); h == NO_HANDLE || (h.name in names && h.pkg == p)
  {
    var k := LatestFromIsFirstMaximum(store, names, NO_HANDLE, 0);
  }

  /** The effects of one step on the store: none, one own revision put, or one own revision removed. */
  ghost predicate OwnEffect(p: string, before: Store, after: Store) {
    || after == before
    || (exists n :: n in after && (n !in before || before[n].pkg == p) && after[n].pkg == p && after == before[n := after[n]])
    || (exists n :: n in before && before[n].pkg == p && after == before - {n})
  }

  lemma DoHasOwnEffect(p: string, s: State, c: Call)
    requires Owns(p, s) && Do(p, s, c).Some?
    ensures OwnEffect(p, s.store, Do(p, s, c).value.store)
  {
    var s' := Do(p, s, c).value;
    if c.CreateRevision? {
      assert c.name in s'.store && s'.store == s.store[c.name := s'.store[c.name]];
    } else if c.DeleteRevision? {
      assert s.pc.todo[0] in s.pc.todo;
    } else if s'.store != s.store {
      assert s.pc.Holding?;
      var n := s.pc.pr.name;
      assert n in s'.store && s'.store == s.store[n := s'.store[n]];
    }
  }

  /** No step for one package is seen in the view of another. */
  lemma OthersUnchanged(p: string, before: Store, after: Store, q: string)
    requires OwnEffect(p, before, after) && p != q
    ensures View(after, q) == View(before, q)
    ensures forall n :: n in before && before[n].pkg == q ==> n in after && after[n] == before[n]
  {
  }

  lemma ListProjects(p: string, s: State, c: Call)
    requires (c.ListDoomed? || c.ListRevisions?) && Do(p, s, c).Some?
    ensures Do(p, s.(store := View(s.store, p)), ProjectCall(c, s.store, p))
            == Some(Do(p, s, c).value.(store := View(s.store, p)))
    ensures Owns(p, Do(p, s, c).value)
  {
    var a := if c.ListDoomed? then c.doomed else c.answer;
    var names := Doomed(p, s.store, a);
    if a.Items? {
      MatchingMembers(p, s.store, a.order);
      MatchingOfView(p, s.store, a.order);
      ListingOfView(p, s.store, a.order);
    }
    LatestFromView(p, s.store, names, NO_HANDLE, 0);
    LatestIsOwn(p, s.store, names);
  }

  lemma ViewPut(store: Store, p: string, n: string, r: Revision)
    requires r.pkg == p
    ensures View(store[n := r], p) == View(store, p)[n := r]
  {
  }

  lemma ViewRemove(store: Store, p: string, n: string)
    requires n in store && store[n].pkg == p
    ensures View(store - {n}, p) == View(store, p) - {n}
  {
  }

  lemma DeleteProjects(p: string, s: State)
    requires Owns(p, s) && Do(p, s, DeleteRevision).Some?
    ensures Do(p, s.(store := View(s.store, p)), DeleteRevision)
            == Some(Do(p, s, DeleteRevision).value.(store := View(Do(p, s, DeleteRevision).value.store, p)))
    ensures Owns(p, Do(p, s, DeleteRevision).value)
  {
    var n := s.pc.todo[0];
    assert n in s.pc.todo;
    ViewRemove(s.store, p, n);
    assert forall m :: m in s.pc.todo[1..] ==> m in s.pc.todo && m != n;
  }

  lemma CreateProjects(p: string, s: State, c: Call)
    requires Owns(p, s) && c.CreateRevision? && Do(p, s, c).Some?
    ensures Do(p, s.(store := View(s.store, p)), c)
            == Some(Do(p, s, c).value.(store := View(Do(p, s, c).value.store, p)))
    ensures Owns(p, Do(p, s, c).value)
  {
    var s' := Do(p, s, c).value;
    ViewPut(s.store, p, c.name, s'.store[c.name]);
  }

  lemma HoldingProjects(p: string, s: State, c: Call)
    requires Owns(p, s) && s.pc.Holding? && DoHolding(s, c).Some?
    ensures DoHolding(s.(store := View(s.store, p)), c)
            == Some(DoHolding(s, c).value.(store := View(DoHolding(s, c).value.store, p)))
    ensures Owns(p, DoHolding(s, c).value)
  {
    var n := s.pc.pr.name;
    var s' := DoHolding(s, c).value;
    assert s'.store == s.store[n := s'.store[n]];
    ViewPut(s.store, p, n, s'.store[n]);
    assert n in View(s.store, p) && View(s.store, p)[n] == s.store[n];
    if s'.store == s.store {
      assert View(s'.store, p) == View(s.store, p);
    }
  }

  lemma DoProjects(p: string, s: State, c: Call)
    requires Owns(p, s) && Do(p, s, c).Some?
    ensures Do(p, s.(store := View(s.store, p)), ProjectCall(c, s.store, p))
            == Some(Do(p, s, c).value.(store := View(Do(p, s, c).value.store, p)))
    ensures Owns(p, Do(p, s, c).value)
  {
    match c
    case ListDoomed(_) => ListProjects(p, s, c);
    case ListRevisions(_) => ListProjects(p, s, c);
    case DeleteRevision => DeleteProjects(p, s);
    case CreateRevision(_, _) => CreateProjects(p, s, c);
    case ReadResources | Compare | WriteResources | GetDraft | Propose | CheckApproval | Approve | Report =>
      HoldingProjects(p, s, c);
    case _ =>
  }

  /** A step on the shared store is, seen through the view, a step of the tenant's own machine. */
  lemma StepProjects(p: string, s: State, e: Event)
    requires Owns(p, s) && Step(p, s, e).Some?
    ensures Step(p, s.(store := View(s.store, p)), ProjectEvent(e, s.store, p))
            == Some(Step(p, s, e).value.(store := View(Step(p, s, e).value.store, p)))
    ensures Owns(p, Step(p, s, e).value) && OwnEffect(p, s.store, Step(p, s, e).value.store)
  {
    if e.answer != Failed {
      DoProjects(p, s, e.call);
      DoHasOwnEffect(p, s, e.call);
    }
  }

  /** The events of one run, or of many, as the package sees them. */
  ghost function ProjectRun(p: string, s: State, evs: seq<Event>): seq<Event>
    decreases |evs|
  {
    if evs == [] || Step(p, s, evs[0]).None? then []
    else [ProjectEvent(evs[0], s.store, p)] + ProjectRun(p, Step(p, s, evs[0]).value, evs[1..])
  }

  /** A run over a store that holds other packages too is, through the view, a run over its own. */
  lemma {:induction false} RunProjects(p: string, s: State, evs: seq<Event>)
    requires Owns(p, s) && Run(p, s, evs).Some?
    ensures Run(p, s.(store := View(s.store, p)), ProjectRun(p, s, evs))
            == Some(Run(p, s, evs).value.(store := View(Run(p, s, evs).value.store, p)))
    decreases |evs|
  {
    if evs != [] {
      StepProjects(p, s, evs[0]);
      var s' := Step(p, s, evs[0]).value;
      RunProjects(p, s', evs[1..]);
      var first, rest := ProjectEvent(evs[0], s.store, p), ProjectRun(p, s', evs[1..]);
      assert ([first] + rest)[0] == first && ([first] + rest)[1..] == rest;
    }
  }

  /** And its lists are as true in the view. */
  lemma {:induction false} TruthProjects(p: string, s: State, evs: seq<Event>)
    requires Owns(p, s) && TruthfulRun(p, s, evs)
    ensures TruthfulRun(p, s.(store := View(s.store, p)), ProjectRun(p, s, evs))
    decreases |evs|
  {
    if evs != [] {
      StepProjects(p, s, evs[0]);
      var s' := Step(p, s, evs[0]).value;
      TruthProjects(p, s', evs[1..]);
      TruthOfOne(p, s.store, evs[0]);
      TruthfulCons(p, s.(store := View(s.store, p)), ProjectEvent(evs[0], s.store, p), s'.(store := View(s'.store, p)),
                   ProjectRun(p, s', evs[1..]));
    }
  }

  lemma TruthOfOne(p: string, store: Store, e: Event)
    requires e.call == ListRevisions(NotFound) || e.call == ListDoomed(NotFound) ==> store == map[]
    ensures ProjectEvent(e, store, p).call == ListRevisions(NotFound) || ProjectEvent(e, store, p).call == ListDoomed(NotFound)
            ==> View(store, p) == map[]
  {
  }

  /** The view of a run has an event for each of its events, answered alike. */
  lemma {:induction false} ProjectedEvents(p: string, s: State, evs: seq<Event>, i: nat)
    requires Run(p, s, evs).Some? && i < |evs|
    ensures |ProjectRun(p, s, evs)| == |evs|
    ensures ProjectRun(p, s, evs)[i].answer == evs[i].answer
    ensures evs[i].call == Report || evs[i].call == Compare ==> ProjectRun(p, s, evs)[i].call == evs[i].call
    decreases |evs|
  {
    var s' := Step(p, s, evs[0]).value;
    if i > 0 {
      ProjectedEvents(p, s', evs[1..], i - 1);
    } else if |evs| > 1 {
      ProjectedEvents(p, s', evs[1..], 0);
    }
  }

  // ---------- interleavings ----------

  lemma OwnsIsStable(q: string, s: State, after: Store)
    requires Owns(q, s)
    requires forall n :: n in s.store && s.store[n].pkg == q ==> n in after && after[n] == s.store[n]
    ensures Owns(q, s.(store := after))
  {
  }

  lemma WorldStepProjects(w: World, e: WorldEvent, t: string)
    requires AllOwn(w) && WorldStep(w, e).Some?
    ensures AllOwn(WorldStep(w, e).value)
    ensures var w' := WorldStep(w, e).value;
            if e.who == t
            then Step(PackageName(t), Project(w, t), ProjectEvent(e.event, w.store, PackageName(t))) == Some(Project(w', t))
            else Project(w', t) == Project(w, t)
  {
    var p, w' := PackageName(e.who), WorldStep(w, e).value;
    assert Owns(p, Inside(w, e.who));
    StepProjects(p, Inside(w, e.who), e.event);
    forall u | u in w'.workers && u != e.who ensures Owns(PackageName(u), Inside(w', u)) {
      PackageNamesDiffer(e.who, u);
      OthersUnchanged(p, w.store, w'.store, PackageName(u));
      OwnsIsStable(PackageName(u), Inside(w, u), w'.store);
    }
    if e.who != t {
      PackageNamesDiffer(e.who, t);
      OthersUnchanged(p, w.store, w'.store, PackageName(t));
    }
  }

  /** Isolation. For every interleaving of the steps of any tenants, with any calls failing, what one
      tenant sees is a run of its own machine on its own package. */
  lemma {:induction false} TenantsAreIsolated(w: World, evs: seq<WorldEvent>, t: string)
    requires AllOwn(w) && WorldRun(w, evs).Some?
    ensures Run(PackageName(t), Project(w, t), ProjectEvents(w, evs, t)) == Some(Project(WorldRun(w, evs).value, t))
    decreases |evs|
  {
    if evs != [] {
      WorldStepProjects(w, evs[0], t);
      var w' := WorldStep(w, evs[0]).value;
      TenantsAreIsolated(w', evs[1..], t);
      if evs[0].who == t {
        var first, rest := ProjectEvent(evs[0].event, w.store, PackageName(t)), ProjectEvents(w', evs[1..], t);
        assert ([first] + rest)[0] == first && ([first] + rest)[1..] == rest;
      } else {
        assert ProjectEvents(w, evs, t) == ProjectEvents(w', evs[1..], t);
      }
    }
  }

  lemma {:induction false} WorldRunOwns(w: World, evs: seq<WorldEvent>)
    requires AllOwn(w) && WorldRun(w, evs).Some?
    ensures AllOwn(WorldRun(w, evs).value)
    decreases |evs|
  {
    if evs != [] {
      WorldStepProjects(w, evs[0], evs[0].who);
      WorldRunOwns(WorldStep(w, evs[0]).value, evs[1..]);
    }
  }

  /** So whatever is proved of one machine holds for every tenant in every interleaving: here, the
      safety of its package, from any store that holds no revision of it yet. */
  lemma EveryTenantIsSafe(store: Store, evs: seq<WorldEvent>, t: string)
    requires View(store, PackageName(t)) == map[]
    requires WorldRun(World(store, map[]), evs).Some?
    requires TrustedRun(PackageName(t), INITIAL, ProjectEvents(World(store, map[]), evs, t))
    ensures Inv(PackageName(t), Project(WorldRun(World(store, map[]), evs).value, t))
  {
    var w := World(store, map[]);
    TenantsAreIsolated(w, evs, t);
    assert Project(w, t) == INITIAL;
    InitialInv(PackageName(t));
    RunKeepsInv(PackageName(t), INITIAL, ProjectEvents(w, evs, t));
  }
}
