/** One run of the tenant reconciler (internal/controllers/tenant/reconciler.go), with its early
    returns, over a package store and a Kubernetes API whose calls may fail. The run is proved to
    take the machine of Protocol from idle to idle, so the theorems of Safety, Convergence, Deletion
    and Isolation are theorems about this code. */
module Reconciler {
  import opened Options
  import opened Strings
  import opened Documents
  import opened SliceScan
  import opened AppResource
  import opened Protocol
  import opened Porch
  import opened PkgRev
  import opened Naming
  import opened TenantPackage

  /** The condition that a reconcile gives its tenant; none when there is nothing to say. */
  datatype Condition = Available | Unavailable | Unknown | NothingToDo

  /** The Kubernetes API, as far as one tenant object goes: its metadata and its condition. Its faults are
      calls that fail and calls whose answer is lost. */
  class Cluster {
    var tenant: Tenant
    var condition: Condition
    ghost var faults: nat

    constructor ()
      ensures tenant == Gone && condition == NothingToDo && faults == 0
    {
      tenant, condition, faults := Gone, NothingToDo, 0;
    }

    method Get() returns (err: bool, cr: Tenant)
      modifies this`faults
      ensures faults == old(faults) + if err then 1 else 0
      ensures !err ==> cr == tenant
    {
      err := *;
      cr := tenant;
      faults := faults + if err then 1 else 0;
    }

    /** Adds the finalizer; no call is made when it is there. */
    method AddFinalizer() returns (err: bool, ghost answer: Answer)
      modifies this`tenant, this`faults
      ensures faults == old(faults) + if err then 1 else 0
      ensures answer == Failed ==> err && tenant == old(tenant)
      ensures answer != Failed ==>
                && old(tenant).Present? && tenant == old(tenant).(finalizer := true)
                && (err <==> answer == Lost)
      ensures old(tenant).Present? && old(tenant).finalizer ==> answer == Done
    {
      var outcome: Answer := *;
      if tenant.Gone? { outcome := Failed; }
      if tenant.Present? && tenant.finalizer { outcome := Done; }
      answer := outcome;
      if outcome != Failed { tenant := tenant.(finalizer := true); }
      err := outcome != Done;
      faults := faults + if err then 1 else 0;
    }

    /** Removes the finalizer; an object marked for deletion goes with its last finalizer. */
    method RemoveFinalizer() returns (err: bool, ghost answer: Answer)
      modifies this`tenant, this`faults
      ensures faults == old(faults) + if err then 1 else 0
      ensures answer == Failed ==> err && tenant == old(tenant)
      ensures answer != Failed ==>
                && old(tenant).Present?
                && tenant == (if old(tenant).deleting then Gone else Present(false, false))
                && (err <==> answer == Lost)
    {
      var outcome: Answer := *;
      if tenant.Gone? { outcome := Failed; }
      answer := outcome;
      if outcome != Failed { tenant := if tenant.deleting then Gone else Present(false, false); }
      err := outcome != Done;
      faults := faults + if err then 1 else 0;
    }

    /** Updates the status with a condition. */
    method UpdateStatus(condition: Condition) returns (err: bool, ghost answer: Answer)
      modifies this`condition, this`faults
      ensures faults == old(faults) + if err then 1 else 0
      ensures answer == Failed ==> err && this.condition == old(this.condition)
      ensures answer != Failed ==> this.condition == condition && (err <==> answer == Lost)
    {
      var outcome: Answer := *;
      answer := outcome;
      if outcome != Failed { this.condition := condition; }
      err := outcome != Done;
      faults := faults + if err then 1 else 0;
    }
  }

  /** The deletion branch of `Reconcile`: nothing is left to say once the finalizer was removed, and the
      tenant is Unavailable when a call went wrong. */
  method ReconcileDeletion(cluster: Cluster, pr: PackageRevision) returns (condition: Condition, ghost evs: seq<Event>)
    modifies cluster`tenant, cluster`faults, pr.server
    ensures Leads(pr.packageName, Over(old(pr.server.objects), old(cluster.tenant), ListingDoomed), evs,
                  Over(pr.server.objects, cluster.tenant, Idle))
    ensures evs != [] && condition == (if evs[|evs| - 1].answer == Done then NothingToDo else Unavailable)
    ensures condition == NothingToDo ==> evs[|evs| - 1].call == RemoveFinalizer
    ensures old(pr.server.faults) <= pr.server.faults && old(cluster.faults) <= cluster.faults
    ensures pr.server.faults == old(pr.server.faults) && cluster.faults == old(cluster.faults) ==>
              && condition == NothingToDo && FaultFree(evs)
              && TruthfulRun(pr.packageName, Over(old(pr.server.objects), old(cluster.tenant), ListingDoomed), evs)
              && pr.server.objects == Others(old(pr.server.objects), pr.packageName)
              && old(cluster.tenant).Present? && cluster.tenant == (if old(cluster.tenant).deleting then Gone else Present(false, false))
  {
    ghost var start := Over(pr.server.objects, cluster.tenant, ListingDoomed);
    var err;
    err, evs := pr.Delete(cluster.tenant);
    if err {
      return Unavailable, evs;
    }
    ghost var emptied := Over(pr.server.objects, cluster.tenant, Deleting([]));
    ghost var answer;
    err, answer := cluster.RemoveFinalizer();
    ghost var remove := Event(RemoveFinalizer, answer);
    LeadsOn(pr.packageName, start, evs, emptied, remove, Over(pr.server.objects, cluster.tenant, Idle));
    if TruthfulRun(pr.packageName, start, evs) {
      TruthfulOne(pr.packageName, emptied, remove);
      TruthfulAppend(pr.packageName, start, evs, [remove]);
    }
    evs := evs + [remove];
    condition := if err then Unavailable else NothingToDo;
  }

  /** The comparison of the wanted with the actual package. `IsEqual` clears annotations on its
      private copy and on the fresh actual nodes only. */
  method ComparePackages(package: Resources, pr: PackageRevision) returns (verdict: Option<Verdict>)
    ensures verdict == CompareWith(Views(package.resources), pr.prr)
    ensures Views(package.resources) == old(Views(package.resources))
  {
    ghost var want := Views(package.resources);
    var err, actual := pr.GetResources();
    if err {
      return None;
    }
    var nodes := actual.Get();
    assert Views(package.resources) == want;
    var v := CompareWithNodes(package, nodes);
    verdict := Some(v);
  }

  /** `IsEqual` on the slice of the actual nodes. */
  method CompareWithNodes(package: Resources, nodes: seq<RNode>) returns (verdict: Verdict)
    requires Apart(package.resources, nodes)
    modifies nodes
    ensures verdict == old(IsEqualVerdict(Map(Cleared, Views(package.resources)), Map(Cleared, Views(nodes))))
    ensures Views(package.resources) == old(Views(package.resources))
  {
    TextsAreCleared(nodes);
    TextsAreCleared(package.resources);
    var arnl := new RNode[|nodes|](i requires 0 <= i < |nodes| => nodes[i]);
    assert arnl[..|nodes|] == nodes;
    verdict := package.IsEqual(arnl, |nodes|);
  }

  lemma TextsAreCleared(nodes: seq<RNode>)
    ensures Texts(nodes) == Map(Cleared, Views(nodes))
  {
  }

  /** The branch of `Reconcile` for a package that is not up to date. */
  method BringUpToDate(package: Resources, pr: PackageRevision, ghost tenant: Tenant)
    returns (err: bool, ghost evs: seq<Event>)
    modifies pr, pr.server
    ensures var want := old(Views(package.resources));
            Leads(pr.packageName,
                  Over(old(pr.server.objects), tenant,
                       old(pr.Held(if pr.pr.lifecycle != Draft then CreatingNext else Writing, Views(package.resources)))), evs,
                  Over(pr.server.objects, tenant, if err then Idle else pr.Held(ApprovalStage(pr.pr.lifecycle), want)))
    ensures Accounted(pr.server, err, evs)
    ensures old(Holds(pr.server, pr.pr)) && !err ==> Holds(pr.server, pr.pr)
  {
    ghost var want := Views(package.resources);
    if pr.pr.lifecycle != Draft {
      ghost var start := Over(pr.server.objects, tenant, pr.Held(CreatingNext, want));
      ghost var creation, update;
      err, creation := pr.Create(tenant, want);
      if err {
        return err, creation;
      }
      ghost var created := Over(pr.server.objects, tenant, pr.Held(Writing, want));
      assert Views(package.resources) == want;
      err, update := pr.Update(package, tenant);
      LeadsThrough(pr.packageName, start, creation, created, update,
                   Over(pr.server.objects, tenant, if err then Idle else pr.Held(ApprovalStage(pr.pr.lifecycle), want)));
      evs := creation + update;
    } else {
      err, evs := pr.Update(package, tenant);
    }
  }

  /** The comparison has no answer: the files do not parse, or it panics. */
  ghost predicate NoAnswer(want: seq<Node>, files: Files) {
    CompareWith(want, files) == None || CompareWith(want, files) == Some(Panic)
  }

  /** Some revision of the package cannot be compared with what is wanted. */
  ghost predicate Incomparable(objects: Objects, p: string, want: seq<Node>) {
    exists n :: n in objects && objects[n].pkg == p && NoAnswer(want, objects[n].files)
  }

  /** How a live run ends when the server made no fault: at its report, or at a comparison without an
      answer. */
  twostate predicate LiveEnd(server: Server, p: string, want: seq<Node>, condition: Condition, evs: seq<Event>)
    reads server
  {
    && old(server.faults) <= server.faults
    && (server.faults == old(server.faults) ==>
          && FaultFree(evs)
          && (condition == Available || (condition == Unknown && EndsInCompare(evs) && Incomparable(server.objects, p, want))))
  }

  /** From the comparison on. */
  method Settle(package: Resources, pr: PackageRevision, ghost tenant: Tenant)
    returns (condition: Condition, ghost evs: seq<Event>)
    modifies pr, pr.server
    ensures Leads(pr.packageName, Over(old(pr.server.objects), tenant, old(pr.Held(Comparing, Views(package.resources)))), evs,
                  Over(pr.server.objects, tenant, if condition == Available then pr.Held(Reporting, old(Views(package.resources))) else Idle))
    ensures old(pr.HoldsFiles()) ==> LiveEnd(pr.server, pr.packageName, old(Views(package.resources)), condition, evs)
  {
    ghost var want := Views(package.resources);
    ghost var start := Over(pr.server.objects, tenant, pr.Held(Comparing, want));
    var verdict := ComparePackages(package, pr);
    ghost var compare := Event(Compare, Done);
    ghost var compared := Over(pr.server.objects, tenant, Compared(pr.Held(Comparing, want)));
    LeadsOne(pr.packageName, start, compare, compared);
    if verdict == None || verdict.value == Panic {
      return Unknown, [compare];
    }
    ghost var before, upToDate := [compare], compared;
    if !verdict.value.equal {
      ghost var update;
      var err;
      assert Views(package.resources) == want;
      err, update := BringUpToDate(package, pr, tenant);
      ghost var updated := Over(pr.server.objects, tenant, if err then Idle else pr.Held(ApprovalStage(pr.pr.lifecycle), want));
      LeadsThrough(pr.packageName, start, [compare], compared, update, updated);
      before, upToDate := [compare] + update, updated;
      if err {
        return Unknown, before;
      }
    }
    ghost var approval;
    condition, approval := Conclude(pr, tenant, want);
    ghost var ready := Over(pr.server.objects, tenant, if condition == Available then pr.Held(Reporting, want) else Idle);
    LeadsThrough(pr.packageName, start, before, upToDate, approval, ready);
    evs := before + approval;
  }

  /** The last part of `Reconcile`: the condition is Available only when approval succeeded. */
  method Conclude(pr: PackageRevision, ghost tenant: Tenant, ghost want: seq<Node>)
    returns (condition: Condition, ghost evs: seq<Event>)
    modifies pr, pr.server
    ensures Leads(pr.packageName, Over(old(pr.server.objects), tenant, old(pr.Held(ApprovalStage(pr.pr.lifecycle), want))), evs,
                  Over(pr.server.objects, tenant, if condition == Available then pr.Held(Reporting, want) else Idle))
    ensures condition == Available || condition == Unknown
    ensures old(Holds(pr.server, pr.pr)) ==> Accounted(pr.server, condition != Available, evs)
  {
    var err;
    err, evs := pr.Approve(tenant, want);
    condition := if err then Unknown else Available;
  }

  /** The live branch of `Reconcile`, once the wanted package is built. */
  method ReconcileLive(package: Resources, pr: PackageRevision, ghost tenant: Tenant)
    returns (condition: Condition, ghost evs: seq<Event>)
    requires pr.prr == map[]
    modifies pr, pr.server
    ensures Leads(pr.packageName, Over(old(pr.server.objects), tenant, Listing(old(Views(package.resources)))), evs,
                  Over(pr.server.objects, tenant, if condition == Available then pr.Held(Reporting, old(Views(package.resources))) else Idle))
    ensures LiveEnd(pr.server, pr.packageName, old(Views(package.resources)), condition, evs)
    ensures pr.server.faults == old(pr.server.faults) && IsLiveTenant(tenant) ==>
              TruthfulRun(pr.packageName, Over(old(pr.server.objects), tenant, Listing(old(Views(package.resources)))), evs)
  {
    ghost var want := Views(package.resources);
    ghost var start := Over(pr.server.objects, tenant, Listing(want));
    ghost var selection, rest;
    var err;
    err, selection := pr.GetOrCreate(tenant, want);
    if err {
      return Unknown, selection;
    }
    ghost var selected := Over(pr.server.objects, tenant, pr.Held(Comparing, want));
    assert Views(package.resources) == want;
    condition, rest := Settle(package, pr, tenant);
    LeadsThrough(pr.packageName, start, selection, selected, rest,
                 Over(pr.server.objects, tenant, if condition == Available then pr.Held(Reporting, want) else Idle));
    evs := selection + rest;
    if pr.server.faults == old(pr.server.faults) && IsLiveTenant(tenant) {
      NoMoreLists(pr.packageName, selected, rest,
                  Over(pr.server.objects, tenant, if condition == Available then pr.Held(Reporting, want) else Idle));
      TruthfulAppend(pr.packageName, start, selection, rest);
    }
  }

  /** `createSourcePackage` and `createNewPackage`, merged: the package is built from the files the
      server holds of the source, when they can be read, parsed and retargeted. */
  method BuildFromServer(server: Server, name: string, source: string, sourceRevision: string, retarget: Node -> Option<Node>)
    returns (package: Option<Resources>)
    modifies server`faults
    ensures package.Some? ==>
              BuildsFor(BuildPackage(Views(package.value.resources)), name, source, FilesIn(server.objects, sourceRevision), retarget)
    ensures old(server.faults) <= server.faults
    ensures server.faults == old(server.faults) ==>
              (package.Some? <==> SourceDocuments(FilesIn(server.objects, sourceRevision), retarget).Some?)
  {
    var readErr, read := server.GetResources(sourceRevision);
    if readErr {
      return None;
    }
    package := BuildWanted(name, source, Some(read), retarget);
  }

  /** The part of `Reconcile` for a tenant that is not being deleted, up to its status update. */
  method ReconcilePackage(server: Server, pr: PackageRevision, name: string, source: string, sourceRevision: string,
                          retarget: Node -> Option<Node>, ghost tenant: Tenant)
    returns (condition: Condition, ghost build: Event, ghost evs: seq<Event>, ghost c: State, ghost want: seq<Node>)
    requires pr.server == server && pr.prr == map[]
    modifies pr, server
    ensures build.call.BuildPackage?
    ensures build.answer != Failed ==>
              BuildsFor(build.call, name, source, FilesIn(old(server.objects), sourceRevision), retarget)
    ensures Step(pr.packageName, Over(old(server.objects), tenant, Building), build) == Some(c)
    ensures Leads(pr.packageName, c, evs, Over(server.objects, tenant, if condition == Available then pr.Held(Reporting, want) else Idle))
    ensures old(server.faults) <= server.faults
    ensures server.faults == old(server.faults) ==>
              if SourceDocuments(FilesIn(old(server.objects), sourceRevision), retarget) == None then
                condition == Unknown && evs == [] && server.objects == old(server.objects)
              else
                && build.answer == Done && LiveEnd(server, pr.packageName, build.call.desired, condition, evs)
                && (IsLiveTenant(tenant) ==> TruthfulRun(pr.packageName, c, evs))
  {
    ghost var building := Over(server.objects, tenant, Building);
    var package := BuildFromServer(server, name, source, sourceRevision, retarget);
    if package == None {
      c := Over(server.objects, tenant, Idle);
      LeadsNowhere(pr.packageName, c);
      BuildStep(pr.packageName, building, []);
      return Unknown, Event(BuildPackage([]), Failed), [], c, [];
    }
    want := Views(package.value.resources);
    build := Event(BuildPackage(want), Done);
    c := Over(server.objects, tenant, Listing(want));
    BuildStep(pr.packageName, building, want);
    condition, evs := ReconcileLive(package.value, pr, tenant);
  }

  lemma BuildStep(p: string, s: State, want: seq<Node>)
    requires s.pc == Building
    ensures Step(p, s, Event(BuildPackage(want), Done)) == Some(s.(pc := Listing(want)))
    ensures Step(p, s, Event(BuildPackage(want), Failed)) == Some(s.(pc := Idle))
  {
  }

  function FilesIn(objects: Objects, name: string): Option<Files> {
    if name in objects then Some(objects[name].files) else None
  }

  /** The call builds the package that these files of the source and this tenant make. */
  ghost predicate BuildsFor(c: Call, name: string, source: string, files: Option<Files>, retarget: Node -> Option<Node>) {
    c.BuildPackage? ==>
      SourceDocuments(files, retarget).Some? && IsTenantPackage(name, source, SourceDocuments(files, retarget).value, c.desired)
  }

  /** All packages built are those. */
  ghost predicate AllBuildFor(evs: seq<Event>, name: string, source: string, files: Option<Files>, retarget: Node -> Option<Node>) {
    forall i :: 0 <= i < |evs| && evs[i].answer != Failed ==> BuildsFor(evs[i].call, name, source, files, retarget)
  }

  lemma BuildBetween(p: string, a: State, evs: seq<Event>, b: State, build: Event, c: State, evs': seq<Event>, d: State)
    requires Leads(p, a, evs, b) && Step(p, b, build) == Some(c) && Leads(p, c, evs', d)
    ensures Run(p, a, evs + [build] + evs') == Some(d)
    ensures FaultFree(evs) && FaultFree([build]) && FaultFree(evs') ==> FaultFree(evs + [build] + evs')
    ensures build.call.BuildPackage? && TruthfulRun(p, a, evs) && TruthfulRun(p, c, evs') ==>
              TruthfulRun(p, a, evs + [build] + evs')
  {
    RunAppend(p, a, evs, [build]);
    RunOne(p, b, build);
    RunAppend(p, a, evs + [build], evs');
    if build.call.BuildPackage? && TruthfulRun(p, a, evs) && TruthfulRun(p, c, evs') {
      TruthfulOne(p, b, build);
      TruthfulAppend(p, a, evs, [build]);
      TruthfulAppend(p, a, evs + [build], evs');
    }
  }

  lemma ReportLast(p: string, a: State, evs: seq<Event>, b: State, answer: Answer)
    requires Run(p, a, evs) == Some(b) && b.pc.Holding? && b.pc.stage == Reporting
    ensures Run(p, a, evs + [Event(Report, answer)]) == Some(b.(pc := Idle))
  {
    RunAppend(p, a, evs, [Event(Report, answer)]);
    RunOne(p, b, Event(Report, answer));
  }

  /** What comes of a reconcile without a fault. A tenant that is gone is left alone. One marked for
      deletion is gone at the end, with every revision of its package. A live tenant becomes Available,
      unless its source cannot be parsed or retargeted, which changes nothing, or a revision of its
      package cannot be compared with what is wanted. */
  ghost predicate Expected(p: string, before: Objects, tenant: Tenant, after: Objects, tenant': Tenant, documents: Option<seq<Node>>,
                           name: string, source: string, condition: Condition, evs: seq<Event>)
  {
    match tenant
    case Gone =>
      condition == NothingToDo && after == before && tenant' == Gone && FaultFree(evs) && TruthfulRun(p, Over(before, tenant, Idle), evs)
    case Present(true, _) =>
      condition == NothingToDo && after == Others(before, p) && tenant' == Gone && FaultFree(evs) && TruthfulRun(p, Over(before, tenant, Idle), evs)
    case Present(false, _) =>
      && tenant' == Present(false, true)
      && match documents
         case None => condition == Unknown && after == before
         case Some(docs) =>
           && FaultFree(evs) && TruthfulRun(p, Over(before, tenant, Idle), evs)
           && (condition == Available
               || (condition == Unknown && EndsInCompare(evs)
                   && exists want :: IsTenantPackage(name, source, docs, want) && Incomparable(after, p, want)))
  }

  lemma ExpectedReport(p: string, before: Objects, tenant: Tenant, after: Objects, tenant': Tenant, documents: Option<seq<Node>>,
                       name: string, source: string, evs: seq<Event>, pc: PC)
    requires Run(p, Over(before, tenant, Idle), evs) == Some(Over(after, tenant', pc)) && pc.Holding? && pc.stage == Reporting
    requires Expected(p, before, tenant, after, tenant', documents, name, source, Available, evs)
    ensures Expected(p, before, tenant, after, tenant', documents, name, source, Available, evs + [Event(Report, Done)])
  {
    TruthfulOne(p, Over(after, tenant', pc), Event(Report, Done));
    if TruthfulRun(p, Over(before, tenant, Idle), evs) { TruthfulAppend(p, Over(before, tenant, Idle), evs, [Event(Report, Done)]); }
  }

  /** The first two calls of `Reconcile`: the tenant is read and gets its finalizer. */
  method Enter(cluster: Cluster, ghost p: string, ghost objects: Objects) returns (entered: bool, cr: Tenant, condition: Condition, ghost evs: seq<Event>)
    modifies cluster`tenant, cluster`faults
    ensures entered ==> cr == old(cluster.tenant) && cr.Present? && cluster.tenant == cr.(finalizer := true)
    ensures Leads(p, Over(objects, old(cluster.tenant), Idle), evs,
                  Over(objects, cluster.tenant, if !entered then Idle else if cr.deleting then ListingDoomed else Building))
    ensures condition == NothingToDo || condition == Unknown
    ensures old(cluster.faults) <= cluster.faults
    ensures cluster.faults == old(cluster.faults) ==>
              FaultFree(evs) && TruthfulRun(p, Over(objects, old(cluster.tenant), Idle), evs) && (entered <==> old(cluster.tenant).Present?) && (!entered ==> condition == NothingToDo && cluster.tenant == Gone)
  {
    ghost var start := Over(objects, cluster.tenant, Idle);
    entered := false;
    var err;
    err, cr := cluster.Get();
    ghost var get := Event(GetTenant, if err then Failed else Done);
    if err || cr.Gone? {
      LeadsOne(p, start, get, start);
      return false, cr, NothingToDo, [get];
    }
    ghost var begun := Over(objects, cluster.tenant, Begun(cr.deleting));
    LeadsOne(p, start, get, begun);
    ghost var answer;
    err, answer := cluster.AddFinalizer();
    ghost var add := Event(AddFinalizer, answer);
    LeadsOn(p, start, [get], begun, add,
            Over(objects, cluster.tenant, if err then Idle else if cr.deleting then ListingDoomed else Building));
    entered, condition, evs := !err, Unknown, [get] + [add];
  }

  /** `Reconcile` up to its status update; the machine is then at its report or idle. */
  method Advance(cluster: Cluster, server: Server, name: string, source: string, sourceRevision: string, retarget: Node -> Option<Node>)
    returns (condition: Condition, ghost evs: seq<Event>, ghost pc: PC)
    modifies cluster`tenant, cluster`faults, server
    ensures Run(PackageName(name), Over(old(server.objects), old(cluster.tenant), Idle), evs)
            == Some(Over(server.objects, cluster.tenant, pc))
    ensures if condition == Available then pc.Holding? && pc.stage == Reporting else pc == Idle
    ensures AllBuildFor(evs, name, source, FilesIn(old(server.objects), sourceRevision), retarget)
    ensures old(server.faults) <= server.faults && old(cluster.faults) <= cluster.faults
    ensures server.faults == old(server.faults) && cluster.faults == old(cluster.faults) ==>
              Expected(PackageName(name), old(server.objects), old(cluster.tenant), server.objects, cluster.tenant,
                       SourceDocuments(FilesIn(old(server.objects), sourceRevision), retarget), name, source, condition, evs)
  {
    ghost var p, start := PackageName(name), Over(server.objects, cluster.tenant, Idle);
    pc := Idle;
    var entered, cr;
    entered, cr, condition, evs := Enter(cluster, p, server.objects);
    if !entered {
      return;
    }
    var pr := new PackageRevision(server, PackageName(name));
    ghost var ready := Over(server.objects, cluster.tenant, if cr.deleting then ListingDoomed else Building);
    if cr.deleting {
      ghost var rest;
      condition, rest := ReconcileDeletion(cluster, pr);
      LeadsThrough(p, start, evs, ready, rest, Over(server.objects, cluster.tenant, Idle));
      if TruthfulRun(p, start, evs) && TruthfulRun(p, ready, rest) { TruthfulAppend(p, start, evs, rest); }
      evs := evs + rest;
    } else {
      condition, evs, pc := AdvanceLive(pr, name, source, sourceRevision, retarget, cluster.tenant, start, evs);
    }
  }

  /** The same for a live tenant that has its finalizer. */
  method AdvanceLive(pr: PackageRevision, name: string, source: string, sourceRevision: string, retarget: Node -> Option<Node>,
                     ghost tenant: Tenant, ghost start: State, ghost before: seq<Event>)
    returns (condition: Condition, ghost evs: seq<Event>, ghost pc: PC)
    requires pr.packageName == PackageName(name) && pr.prr == map[]
    requires Leads(pr.packageName, start, before, Over(pr.server.objects, tenant, Building))
    modifies pr, pr.server
    ensures Run(pr.packageName, start, evs) == Some(Over(pr.server.objects, tenant, pc))
    ensures if condition == Available then pc.Holding? && pc.stage == Reporting else pc == Idle
    ensures AllBuildFor(evs, name, source, FilesIn(old(pr.server.objects), sourceRevision), retarget)
    ensures old(pr.server.faults) <= pr.server.faults
    ensures pr.server.faults == old(pr.server.faults) ==>
              match SourceDocuments(FilesIn(old(pr.server.objects), sourceRevision), retarget)
              case None => condition == Unknown && pr.server.objects == old(pr.server.objects)
              case Some(docs) =>
                && (FaultFree(before) ==> FaultFree(evs))
                && (IsLiveTenant(tenant) && TruthfulRun(pr.packageName, start, before) ==> TruthfulRun(pr.packageName, start, evs))
                && (condition == Available
                    || (condition == Unknown && EndsInCompare(evs)
                        && exists want :: IsTenantPackage(name, source, docs, want) && Incomparable(pr.server.objects, pr.packageName, want)))
  {
    ghost var p, files, ready := pr.packageName, FilesIn(pr.server.objects, sourceRevision), Over(pr.server.objects, tenant, Building);
    ghost var build, rest, built, want;
    condition, build, rest, built, want := ReconcilePackage(pr.server, pr, name, source, sourceRevision, retarget, tenant);
    pc := if condition == Available then pr.Held(Reporting, want) else Idle;
    BuildBetween(p, start, before, ready, build, built, rest, Over(pr.server.objects, tenant, pc));
    OnlyBuild(before, build, rest, name, source, files, retarget);
    evs := before + [build] + rest;
  }

  lemma OnlyBuild(before: seq<Event>, build: Event, after: seq<Event>, name: string, source: string, files: Option<Files>, retarget: Node -> Option<Node>)
    requires NoBuilds(before) && NoBuilds(after)
    requires build.answer != Failed ==> BuildsFor(build.call, name, source, files, retarget)
    ensures AllBuildFor(before + [build] + after, name, source, files, retarget)
  {
    var all := before + [build] + after;
    forall i | 0 <= i < |all| && all[i].answer != Failed ensures BuildsFor(all[i].call, name, source, files, retarget) {
      assert all[i] == if i < |before| then before[i] else if i == |before| then build else after[i - |before| - 1];
    }
  }

  /** `Reconcile`. Whatever the calls answer, the run takes the tenant's machine from idle to idle. The
      packages it builds are the merge of the generated sub-package and the source's, read from the
      server and retargeted. The tenant becomes Available only by a report, the last event, and not
      by one that failed. */
  method Reconcile(cluster: Cluster, server: Server, name: string, source: string, sourceRevision: string, retarget: Node -> Option<Node>)
    returns (condition: Condition, ghost evs: seq<Event>)
    modifies cluster, server
    ensures Run(PackageName(name), Over(old(server.objects), old(cluster.tenant), Idle), evs)
            == Some(Over(server.objects, cluster.tenant, Idle))
    ensures AllBuildFor(evs, name, source, FilesIn(old(server.objects), sourceRevision), retarget)
    ensures cluster.condition == old(cluster.condition) || cluster.condition == condition
    ensures condition == Available ==>
              && evs != [] && evs[|evs| - 1].call == Report
              && (evs[|evs| - 1].answer == Failed ==> cluster.condition == old(cluster.condition))
    ensures condition == NothingToDo ==> cluster.condition == old(cluster.condition)
    ensures old(server.faults) <= server.faults && old(cluster.faults) <= cluster.faults
    ensures server.faults == old(server.faults) && cluster.faults == old(cluster.faults) ==>
              && Expected(PackageName(name), old(server.objects), old(cluster.tenant), server.objects, cluster.tenant,
                          SourceDocuments(FilesIn(old(server.objects), sourceRevision), retarget), name, source, condition, evs)
              && (condition != NothingToDo ==> cluster.condition == condition)
  {
    ghost var start, before, files := Over(server.objects, cluster.tenant, Idle), server.objects, FilesIn(server.objects, sourceRevision);
    ghost var pc;
    condition, evs, pc := Advance(cluster, server, name, source, sourceRevision, retarget);
    if condition != NothingToDo {
      var err;
      ghost var answer;
      err, answer := cluster.UpdateStatus(condition);
      if condition == Available {
        ReportLast(PackageName(name), start, evs, Over(server.objects, cluster.tenant, pc), answer);
        if server.faults == old(server.faults) && cluster.faults == old(cluster.faults) {
          ExpectedReport(PackageName(name), before, start.tenant, server.objects, cluster.tenant,
                         SourceDocuments(files, retarget), name, source, evs, pc);
        }
        evs := evs + [Event(Report, answer)];
      }
    }
  }
}
