/** One tenant among others: what the code reports and where runs converge, over a package store that
    holds any other packages and is used by any other tenants meanwhile. */
module Tenancy {
  import opened Options
  import opened Strings
  import opened Documents
  import opened PkgUtil
  import opened Protocol
  import opened Safety
  import opened Quiescence
  import opened Judgement
  import opened Convergence
  import opened Liveness
  import opened Merging
  import opened TenantPackage
  import opened Porch
  import opened PkgRev
  import opened Reconciler
  import opened Naming
  import opened Isolation

  /** What a package sees of a state. */
  function InView(p: string, s: State): State {
    s.(store := View(s.store, p))
  }

  lemma ProjectedReport(p: string, a: State, evs: seq<Event>)
    requires Run(p, a, evs).Some? && EndsInReport(evs)
    ensures EndsInReport(ProjectRun(p, a, evs))
  {
    ProjectedEvents(p, a, evs, |evs| - 1);
  }

  /** Such runs do not end at their comparison either, when it is right. */
  lemma ComparisonInServer(p: string, a: State, evs: seq<Event>, want: seq<Node>)
    requires a.pc == Idle && Inv(p, InView(p, a)) && TopInv(InView(p, a), want) && Run(p, a, evs).Some?
    requires AimedRun(p, InView(p, a), ProjectRun(p, a, evs), want)
    requires EndsInCompare(evs)
    ensures Run(p, a, evs).value.pc != Idle
  {
    RunProjects(p, a, evs);
    ProjectedEvents(p, a, evs, |evs| - 1);
    ComparisonIsNotTheEnd(p, InView(p, a), ProjectRun(p, a, evs), want);
  }

  /** Runs over a server that holds anything else, ending in a report that took effect, whatever failed
      in them or before: the highest revision of the tenant's package is Published now and holds exactly
      the documents asked for, when the comparison with the highest one found was right. */
  lemma ReportInServer(p: string, a: State, evs: seq<Event>, want: seq<Node>)
    requires a.pc == Idle && Inv(p, InView(p, a)) && TopInv(InView(p, a), want) && Run(p, a, evs).Some?
    requires AimedRun(p, InView(p, a), ProjectRun(p, a, evs), want)
    requires EndsInReport(evs)
    ensures Converged(View(Run(p, a, evs).value.store, p), want)
  {
    RunProjects(p, a, evs);
    ProjectedReport(p, a, evs);
    ReportMeansConverged(p, InView(p, a), ProjectRun(p, a, evs), want);
  }

  /** Convergence inside an interleaving. Whatever other tenants do in between, once this tenant's own
      calls have gone without a fault fourteen times its package holds what is wanted, and keeps it. */
  lemma TenantConverges(w: World, evs: seq<WorldEvent>, t: string, want: seq<Node>)
    requires AllOwn(w) && WorldRun(w, evs).Some? && ReadyFor(PackageName(t), Project(w, t), want)
    requires var own := ProjectEvents(w, evs, t);
             && AimedRun(PackageName(t), Project(w, t), own, want) && NoUserCalls(own)
             && |own| >= 14 && FaultFree(own[..14])
    ensures Converged(View(WorldRun(w, evs).value.store, PackageName(t)), want)
    ensures |View(WorldRun(w, evs).value.store, PackageName(t))|
            == |View(w.store, PackageName(t))| + (if NeedsNew(View(w.store, PackageName(t)), want) then 1 else 0)
  {
    TenantsAreIsolated(w, evs, t);
    ConvergedForGood(PackageName(t), Project(w, t), ProjectEvents(w, evs, t), want);
  }

  /** After every interleaved history, of packages of any kind, a tenant between two runs is in a state
      from which it converges exactly as the comparison with its highest revision is right. */
  lemma TenantIsReady(store: Store, history: seq<WorldEvent>, t: string)
    requires View(store, PackageName(t)) == map[]
    requires WorldRun(World(store, map[]), history).Some?
    requires TrustedRun(PackageName(t), INITIAL, ProjectEvents(World(store, map[]), history, t))
    requires var s := Project(WorldRun(World(store, map[]), history).value, t);
             s.pc == Idle && s.tenant.Present? && !s.tenant.deleting
    ensures AllOwn(WorldRun(World(store, map[]), history).value)
    ensures Ready(PackageName(t), Project(WorldRun(World(store, map[]), history).value, t))
  {
    var w := World(store, map[]);
    TenantsAreIsolated(w, history, t);
    WorldRunOwns(w, history);
    assert Project(w, t) == INITIAL;
    HistoryIsReady(PackageName(t), ProjectEvents(w, history, t));
  }

  // ---------- the tenant's own package ----------

  /** New Drafts hold files that can be read. */
  ghost predicate ReadableDrafts(evs: seq<Event>) {
    forall i :: 0 <= i < |evs| && evs[i].answer != Failed && evs[i].call.CreateRevision? ==> Readable(evs[i].call.content)
  }

  /** All packages built are a tenant's, from these documents of its source. */
  ghost predicate BuildsTenant(evs: seq<Event>, tenant: string, source: string, documents: seq<Node>) {
    forall i :: 0 <= i < |evs| && evs[i].answer != Failed && evs[i].call.BuildPackage? ==>
      IsTenantPackage(tenant, source, documents, evs[i].call.desired)
  }

  /** The source can be asked for: its documents are KRM documents, different from each other and from
      the generated ones. */
  ghost predicate GoodSource(tenant: string, source: string, documents: seq<Node>) {
    InContents(documents) && (source == "namespace" || DistinctSource(tenant, documents))
  }

  /** Runs that build a tenant's package aim at it, whichever way the Go maps are walked. */
  lemma TenantAims(p: string, s: State, evs: seq<Event>, tenant: string, source: string, documents: seq<Node>, want: seq<Node>)
    requires TrustedRun(p, s, evs) && ReadableDrafts(evs) && BuildsTenant(evs, tenant, source, documents)
    requires GoodSource(tenant, source, documents) && IsTenantPackage(tenant, source, documents, want)
    ensures AimedRun(p, s, evs, want)
  {
    forall i | 0 <= i < |evs| && evs[i].answer != Failed
      ensures Admissible(evs[i].call) && AimsAtDocuments(evs[i].call, want)
    {
      if evs[i].call.BuildPackage? {
        WantedPackageIff(tenant, source, documents, evs[i].call.desired);
        WalksAskTheSame(tenant, source, documents, evs[i].call.desired, want);
      }
    }
  }

  lemma {:induction false} ProjectedBuilds(p: string, s: State, evs: seq<Event>, tenant: string, source: string, documents: seq<Node>)
    requires BuildsTenant(evs, tenant, source, documents)
    ensures BuildsTenant(ProjectRun(p, s, evs), tenant, source, documents)
    decreases |evs|
  {
    if evs != [] && Step(p, s, evs[0]).Some? {
      var rest := ProjectRun(p, Step(p, s, evs[0]).value, evs[1..]);
      assert forall i :: 0 <= i < |evs[1..]| ==> evs[1..][i] == evs[i + 1];
      ProjectedBuilds(p, Step(p, s, evs[0]).value, evs[1..], tenant, source, documents);
      var all := [ProjectEvent(evs[0], s.store, p)] + rest;
      forall i | 0 <= i < |all| && all[i].answer != Failed && all[i].call.BuildPackage?
        ensures IsTenantPackage(tenant, source, documents, all[i].call.desired)
      {
        assert i > 0 ==> all[i] == rest[i - 1];
      }
    }
  }

  /** The documents of a tenant's package: its Kptfile, the generated ones and the source's. */
  ghost predicate HoldsTenantPackage(store: Store, tenant: string, source: string, documents: seq<Node>) {
    exists top :: IsTop(store, top) && store[top].lifecycle == Published
                  && HasTexts(store[top].files, TenantSources(tenant, source, documents))
  }

  /** The files hold exactly these documents, annotations aside. */
  ghost predicate HasTexts(files: Files, docs: seq<Node>) {
    Read(files).Some? && multiset(Map(Cleared, Read(files).value)) == multiset(Map(Cleared, docs))
  }

  lemma ConvergedHolds(store: Store, tenant: string, source: string, documents: seq<Node>, want: seq<Node>)
    requires Converged(store, want) && IsTenantPackage(tenant, source, documents, want)
    ensures HoldsTenantPackage(store, tenant, source, documents)
  {
    var order :| IsWalk(tenant, source, documents, order) && want == TenantMerged(tenant, source, documents, order);
    TenantTexts(tenant, source, documents, order);
    var top :| IsTop(store, top) && store[top].lifecycle == Published && SameDocuments(want, store[top].files);
    assert HasTexts(store[top].files, TenantSources(tenant, source, documents));
  }

  /** The runs of the code's contract aim at the tenant's package. */
  lemma CallAims(tenant: string, a: State, evs: seq<Event>, source: string, files: Option<Files>, retarget: Node -> Option<Node>, want: seq<Node>)
    requires KeepsAnnotations(retarget) && SourceDocuments(files, retarget).Some?
    requires source == "namespace" || DistinctSource(tenant, SourceDocuments(files, retarget).value)
    requires IsTenantPackage(tenant, source, SourceDocuments(files, retarget).value, want)
    requires var p := PackageName(tenant);
             && Run(p, a, evs).Some?
             && TrustedRun(p, InView(p, a), ProjectRun(p, a, evs)) && ReadableDrafts(ProjectRun(p, a, evs))
    requires AllBuildFor(evs, tenant, source, files, retarget)
    ensures var p := PackageName(tenant); AimedRun(p, InView(p, a), ProjectRun(p, a, evs), want)
  {
    var p, documents := PackageName(tenant), SourceDocuments(files, retarget).value;
    SourceInContents(files, retarget);
    assert BuildsTenant(evs, tenant, source, documents) by {
      assert forall i :: 0 <= i < |evs| && evs[i].answer != Failed ==> BuildsFor(evs[i].call, tenant, source, files, retarget);
    }
    ProjectedBuilds(p, a, evs, tenant, source, documents);
    TenantAims(p, InView(p, a), ProjectRun(p, a, evs), tenant, source, documents, want);
  }

  /** What it means that `Reconciler.Reconcile` made a tenant Available, for the states and events of
      its contract, when the comparison with the highest revision it found is right for the tenant's
      package: the highest revision of the tenant's package is Published and holds exactly the package's
      Kptfile, the generated documents and the source's, retargeted to the tenant. */
  lemma AvailableMeansConverged(tenant: string, a: State, evs: seq<Event>, source: string, files: Option<Files>, retarget: Node -> Option<Node>, want: seq<Node>)
    requires KeepsAnnotations(retarget) && SourceDocuments(files, retarget).Some?
    requires source == "namespace" || DistinctSource(tenant, SourceDocuments(files, retarget).value)
    requires IsTenantPackage(tenant, source, SourceDocuments(files, retarget).value, want)
    requires var p := PackageName(tenant);
             && a.pc == Idle && Inv(p, InView(p, a)) && TopInv(InView(p, a), want) && Run(p, a, evs).Some?
             && TrustedRun(p, InView(p, a), ProjectRun(p, a, evs)) && ReadableDrafts(ProjectRun(p, a, evs))
    requires AllBuildFor(evs, tenant, source, files, retarget)
    requires EndsInReport(evs)
    ensures var p := PackageName(tenant);
            HoldsTenantPackage(View(Run(p, a, evs).value.store, p), tenant, source, SourceDocuments(files, retarget).value)
  {
    var p, documents := PackageName(tenant), SourceDocuments(files, retarget).value;
    CallAims(tenant, a, evs, source, files, retarget, want);
    ReportInServer(p, a, evs, want);
    ConvergedHolds(View(Run(p, a, evs).value.store, p), tenant, source, documents, want);
  }

  /** A tenant among others converges to that package, once its own calls have gone without a fault
      fourteen times, and keeps it. */
  lemma TenantGetsItsPackage(w: World, evs: seq<WorldEvent>, t: string, source: string, documents: seq<Node>, want: seq<Node>)
    requires GoodSource(t, source, documents) && IsTenantPackage(t, source, documents, want)
    requires AllOwn(w) && WorldRun(w, evs).Some? && ReadyFor(PackageName(t), Project(w, t), want)
    requires var own := ProjectEvents(w, evs, t);
             && TrustedRun(PackageName(t), Project(w, t), own) && ReadableDrafts(own) && BuildsTenant(own, t, source, documents)
             && NoUserCalls(own) && |own| >= 14 && FaultFree(own[..14])
    ensures HoldsTenantPackage(View(WorldRun(w, evs).value.store, PackageName(t)), t, source, documents)
  {
    TenantAims(PackageName(t), Project(w, t), ProjectEvents(w, evs, t), t, source, documents, want);
    TenantConverges(w, evs, t, want);
    ConvergedHolds(View(WorldRun(w, evs).value.store, PackageName(t)), t, source, documents, want);
  }

  // ---------- the code ----------

  /** What a call of `Reconcile` is trusted with: the server's answers and the files of new Drafts, and
      that the comparison with the highest revision is right for the tenant's package. */
  ghost predicate FairCall(p: string, a: State, evs: seq<Event>, want: seq<Node>) {
    && Inv(p, InView(p, a)) && TopInv(InView(p, a), want)
    && TrustedRun(p, InView(p, a), ProjectRun(p, a, evs)) && ReadableDrafts(ProjectRun(p, a, evs))
  }

  /** What is left of that trust when no call goes wrong: the files of new Drafts, that the package has
      room, and the comparison. */
  ghost predicate FairPackage(p: string, a: State, evs: seq<Event>, want: seq<Node>) {
    && Inv(p, InView(p, a)) && TopInv(InView(p, a), want)
    && HasRoom(p, InView(p, a), ProjectRun(p, a, evs)) && ReadableDrafts(ProjectRun(p, a, evs))
  }

  lemma TruthfulIsFair(p: string, a: State, evs: seq<Event>, want: seq<Node>)
    requires a.pc == Idle && FairPackage(p, a, evs, want) && TruthfulRun(p, a, evs)
    ensures FairCall(p, a, evs, want)
  {
    TruthProjects(p, a, evs);
    TruthfulIsTrusted(p, InView(p, a), ProjectRun(p, a, evs));
  }

  /** A reconcile of a live tenant without a fault ends at its report. */
  lemma FaultFreeCallReports(tenant: string, a: State, evs: seq<Event>, source: string, files: Option<Files>, retarget: Node -> Option<Node>, want: seq<Node>)
    requires KeepsAnnotations(retarget) && SourceDocuments(files, retarget).Some?
    requires source == "namespace" || DistinctSource(tenant, SourceDocuments(files, retarget).value)
    requires IsTenantPackage(tenant, source, SourceDocuments(files, retarget).value, want)
    requires var p := PackageName(tenant);
             a.pc == Idle && FairCall(p, a, evs, want) && Run(p, a, evs).Some? && Run(p, a, evs).value.pc == Idle
    requires AllBuildFor(evs, tenant, source, files, retarget)
    ensures !EndsInCompare(evs)
  {
    if EndsInCompare(evs) {
      CallAims(tenant, a, evs, source, files, retarget, want);
      ComparisonInServer(PackageName(tenant), a, evs, want);
    }
  }

  /** `Reconcile`, called for a tenant whose source has distinct documents: if the tenant becomes
      Available, its package is there. And it does become Available, and its package is there, whenever
      it is live and no call went wrong. */
  method ReconcileTenant(cluster: Cluster, server: Server, name: string, source: string, sourceRevision: string,
                         retarget: Node -> Option<Node>, ghost documents: seq<Node>, ghost want: seq<Node>)
    returns (condition: Condition, ghost evs: seq<Event>)
    requires KeepsAnnotations(retarget) && SourceDocuments(FilesIn(server.objects, sourceRevision), retarget) == Some(documents)
    requires (source == "namespace" || DistinctSource(name, documents)) && IsTenantPackage(name, source, documents, want)
    modifies cluster, server
    ensures FairCall(PackageName(name), Over(old(server.objects), old(cluster.tenant), Idle), evs, want) ==>
            cluster.condition == Available && old(cluster.condition) != Available ==>
              HoldsTenantPackage(View(SeenStore(server.objects), PackageName(name)), name, source, documents)
    ensures FairPackage(PackageName(name), Over(old(server.objects), old(cluster.tenant), Idle), evs, want) ==>
            old(cluster.tenant).Present? && !old(cluster.tenant).deleting
            && server.faults == old(server.faults) && cluster.faults == old(cluster.faults) ==>
              && cluster.condition == Available
              && HoldsTenantPackage(View(SeenStore(server.objects), PackageName(name)), name, source, documents)
  {
    ghost var a, files := Over(server.objects, cluster.tenant, Idle), FilesIn(server.objects, sourceRevision);
    condition, evs := Reconcile(cluster, server, name, source, sourceRevision, retarget);
    if FairPackage(PackageName(name), a, evs, want) && TruthfulRun(PackageName(name), a, evs) {
      TruthfulIsFair(PackageName(name), a, evs, want);
    }
    if FairCall(PackageName(name), a, evs, want) {
      FaultFreeCallReports(name, a, evs, source, files, retarget, want);
      if EndsInReport(evs) { AvailableMeansConverged(name, a, evs, source, files, retarget, want); }
    }
  }
}
