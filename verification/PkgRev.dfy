/** The package revision client (pkg/pkgrev/pkgrev.go, pkg/pkgrev/util.go): an object that remembers
    the revision and the resources it works on. Each method is proved to take the machine of
    Protocol along some events, so every theorem about runs holds of this code. */
module PkgRev {
  import opened Options
  import opened Strings
  import opened Numerals
  import opened Documents
  import opened PkgUtil
  import opened AppResource
  import opened Protocol
  import opened Porch

  /** No package is built among these events. */
  ghost predicate NoBuilds(evs: seq<Event>) {
    forall i :: 0 <= i < |evs| ==> !evs[i].call.BuildPackage?
  }

  /** The events lead the machine of package `p` from one state to the other, and build no package. */
  ghost predicate Leads(p: string, a: State, evs: seq<Event>, b: State) {
    Run(p, a, evs) == Some(b) && NoBuilds(evs)
  }

  lemma LeadsNowhere(p: string, a: State)
    ensures Leads(p, a, [], a)
  {
  }

  lemma LeadsOne(p: string, a: State, e: Event, b: State)
    requires Step(p, a, e) == Some(b) && !e.call.BuildPackage?
    ensures Leads(p, a, [e], b)
  {
    RunOne(p, a, e);
  }

  lemma LeadsOn(p: string, a: State, evs: seq<Event>, b: State, e: Event, c: State)
    requires Leads(p, a, evs, b) && Step(p, b, e) == Some(c) && !e.call.BuildPackage?
    ensures Leads(p, a, evs + [e], c)
    ensures FaultFree(evs) && e.answer == Done && !IsUserCall(e.call) ==> FaultFree(evs + [e])
  {
    RunAppend(p, a, evs, [e]);
    RunOne(p, b, e);
  }

  lemma LeadsThrough(p: string, a: State, evs: seq<Event>, b: State, evs': seq<Event>, c: State)
    requires Leads(p, a, evs, b) && Leads(p, b, evs', c)
    ensures Leads(p, a, evs + evs', c)
    ensures FaultFree(evs) && FaultFree(evs') ==> FaultFree(evs + evs')
  {
    RunAppend(p, a, evs, evs');
  }

  /** The count of the server's faults never falls. When it did not rise either, there was no error, and
      every call was answered. */
  twostate predicate Accounted(server: Server, err: bool, evs: seq<Event>)
    reads server
  {
    && old(server.faults) <= server.faults
    && (server.faults == old(server.faults) ==> !err && FaultFree(evs))
  }

  predicate IsLiveTenant(tenant: Tenant) {
    tenant.Present? && !tenant.deleting
  }

  /** Where a run lists no more: it has listed the revisions, or has not built its package yet. */
  predicate PastListing(s: State) {
    || s.pc.Deleting?
    || (s.pc == Idle && s.tenant.Gone?)
    || (IsLiveTenant(s.tenant)
        && (s.pc.Holding? || s.pc.CreatingFirst? || s.pc == Idle || s.pc == Begun(false) || s.pc == Building))
  }

  lemma StaysPastListing(p: string, s: State, e: Event)
    requires PastListing(s) && e.answer == Done && !IsUserCall(e.call) && !e.call.BuildPackage? && Step(p, s, e).Some?
    requires s.pc.Deleting? ==> s.tenant.Present?
    ensures !e.call.ListRevisions? && !e.call.ListDoomed?
    ensures var s' := Step(p, s, e).value; PastListing(s') && (s'.pc.Deleting? ==> s'.tenant.Present?)
  {
  }

  lemma {:induction false} NoMoreLists(p: string, s: State, evs: seq<Event>, s': State)
    requires PastListing(s) && Leads(p, s, evs, s') && FaultFree(evs)
    requires s.pc.Deleting? ==> s.tenant.Present?
    ensures TruthfulRun(p, s, evs)
    decreases |evs|
  {
    if evs != [] {
      StaysPastListing(p, s, evs[0]);
      assert forall i :: 0 <= i < |evs[1..]| ==> evs[1..][i] == evs[i + 1];
      NoMoreLists(p, Step(p, s, evs[0]).value, evs[1..], s');
    }
  }

  /** The object is what the server holds under its name. */
  ghost predicate Holds(server: Server, o: Object)
    reads server
  {
    o.name in server.objects && o == ObjectAt(server.objects, o.name)
  }

  /** The state of the machine over the given objects. */
  function Over(objects: Objects, tenant: Tenant, pc: PC): State {
    State(SeenStore(objects), tenant, pc)
  }

  /** Creating an object is the machine creating the next revision. */
  lemma SeenCreate(p: string, objects: Objects, tenant: Tenant, pc: PC, o: Object, content: Files)
    requires pc.Holding? && pc.stage == CreatingNext
    requires o.pkg == p && o.lifecycle == Draft && o.name != "" && o.name !in objects
    requires GetRevisionNumber(o.revision) == Next(pc.pr.number)
    ensures Do(p, Over(objects, tenant, pc), CreateRevision(o.name, content))
            == Some(Over(objects[o.name := Stored(p, o.revision, Draft, content)], tenant,
                         Holding(ReadNew, pc.want, SeenObject(o), pc.files)))
  {
    SeenPut(objects, o.name, Stored(p, o.revision, Draft, content));
  }

  lemma LeadsToCreated(p: string, before: Objects, after: Objects, tenant: Tenant, pc: PC, o: Object, content: Files, answer: Answer)
    requires pc.Holding? && pc.stage == CreatingNext
    requires answer == Failed ==> after == before
    requires answer != Failed ==>
               && o.pkg == p && o.lifecycle == Draft && o.name != "" && o.name !in before
               && GetRevisionNumber(o.revision) == Next(pc.pr.number)
               && after == before[o.name := Stored(p, o.revision, Draft, content)]
    ensures Leads(p, Over(before, tenant, pc), [Event(CreateRevision(o.name, content), answer)],
                  Over(after, tenant, if answer == Done then Holding(ReadNew, pc.want, SeenObject(o), pc.files) else Idle))
  {
    if answer != Failed { SeenCreate(p, before, tenant, pc, o, content); }
    LeadsOne(p, Over(before, tenant, pc), Event(CreateRevision(o.name, content), answer),
             Over(after, tenant, if answer == Done then Holding(ReadNew, pc.want, SeenObject(o), pc.files) else Idle));
  }

  lemma LeadsToFirst(p: string, before: Objects, after: Objects, tenant: Tenant, want: seq<Node>, o: Object, content: Files, answer: Answer)
    requires answer == Failed ==> after == before
    requires answer != Failed ==>
               && o.pkg == p && o.lifecycle == Draft && o.name != "" && o.name !in before
               && GetRevisionNumber(o.revision) == 1
               && after == before[o.name := Stored(p, o.revision, Draft, content)]
    ensures Leads(p, Over(before, tenant, CreatingFirst(want)), [Event(CreateRevision(o.name, content), answer)],
                  Over(after, tenant, if answer == Done then Holding(ReadLatest, want, SeenObject(o), map[]) else Idle))
  {
    if answer != Failed { SeenPut(before, o.name, Stored(p, o.revision, Draft, content)); }
    LeadsOne(p, Over(before, tenant, CreatingFirst(want)), Event(CreateRevision(o.name, content), answer),
             Over(after, tenant, if answer == Done then Holding(ReadLatest, want, SeenObject(o), map[]) else Idle));
  }

  /** `updatePackageRevisionApproval(..., Published)`. */
  method UpdateApproval(server: Server, name: string, ghost p: string, ghost tenant: Tenant, ghost pc: PC)
    returns (err: bool, ghost evs: seq<Event>)
    requires pc.Holding? && pc.stage == CheckingApproval && pc.pr.name == name
    modifies server
    ensures Leads(p, Over(old(server.objects), tenant, pc), evs,
                  Over(server.objects, tenant, if err then Idle else Moved(Reporting, pc)))
    ensures old(name in server.objects && server.objects[name].lifecycle == Draft) || Accounted(server, err, evs)
  {
    var getErr, pr := server.Get(name);
    ghost var start := Over(server.objects, tenant, pc);
    LeadsNowhere(p, start);
    if getErr {
      evs := [Event(CheckApproval, Failed)];
      LeadsOn(p, start, [], start, evs[0], Over(server.objects, tenant, Idle));
      return true, evs;
    }
    ghost var check := Event(CheckApproval, Done);
    SeenCheck(p, server.objects, tenant, pc);
    match pr.lifecycle {
      case Draft =>
        LeadsOn(p, start, [], start, check, Over(server.objects, tenant, Idle));
        return true, [check];
      case Published =>
        LeadsOn(p, start, [], start, check, Over(server.objects, tenant, Moved(Reporting, pc)));
        return false, [check];
      case Proposed =>
    }
    ghost var checked := Over(server.objects, tenant, Moved(Approving, pc));
    LeadsOn(p, start, [], start, check, checked);
    ghost var approve;
    err, approve := PutApproval(server, pr, p, tenant, Moved(Approving, pc));
    LeadsThrough(p, start, [check], checked, approve, Over(server.objects, tenant, if err then Idle else Moved(Reporting, pc)));
    evs := [check] + approve;
  }

  /** The check before approval, as the machine makes it. */
  lemma SeenCheck(p: string, objects: Objects, tenant: Tenant, pc: PC)
    requires pc.Holding? && pc.stage == CheckingApproval && pc.pr.name in objects
    ensures Do(p, Over(objects, tenant, pc), CheckApproval)
            == Some(Over(objects, tenant, match objects[pc.pr.name].lifecycle
                                          case Draft => Idle
                                          case Proposed => Moved(Approving, pc)
                                          case Published => Moved(Reporting, pc)))
  {
    SeenObjectAt(objects, pc.pr.name);
  }

  /** The update of the approval subresource. */
  method PutApproval(server: Server, pr: Object, ghost p: string, ghost tenant: Tenant, ghost pc: PC)
    returns (err: bool, ghost evs: seq<Event>)
    requires pc.Holding? && pc.stage == Approving && pc.pr.name == pr.name
    requires pr.name in server.objects && pr == ObjectAt(server.objects, pr.name)
    modifies server
    ensures Leads(p, Over(old(server.objects), tenant, pc), evs,
                  Over(server.objects, tenant, if err then Idle else Moved(Reporting, pc)))
    ensures Accounted(server, err, evs)
  {
    ghost var start, before := Over(server.objects, tenant, pc), server.objects;
    ghost var answer;
    err, answer := server.Update(pr.(lifecycle := Published));
    if answer != Failed {
      SeenPut(before, pr.name, Stored(pr.pkg, pr.revision, Published, before[pr.name].files));
    }
    evs := [Event(Approve, answer)];
    LeadsOne(p, start, evs[0], Over(server.objects, tenant, if err then Idle else Moved(Reporting, pc)));
  }

  lemma MatchingGrows(p: string, store: Store, order: seq<string>, i: nat)
    requires i < |order| && order[i] in store
    ensures Matching(p, store, order[..i + 1])
            == Matching(p, store, order[..i]) + if store[order[i]].pkg == p then [order[i]] else []
  {
    assert order[..i + 1] == order[..i] + [order[i]];
    MatchingAppend(p, store, order[..i], [order[i]]);
    assert [order[i]][1..] == [];
  }

  lemma {:induction false} MatchingAppend(p: string, store: Store, a: seq<string>, b: seq<string>)
    ensures Matching(p, store, a + b) == Matching(p, store, a) + Matching(p, store, b)
    decreases |a|
  {
    if a == [] {
      assert a + b == b;
    } else {
      assert (a + b)[0] == a[0] && (a + b)[1..] == a[1..] + b;
      MatchingAppend(p, store, a[1..], b);
      AppendAssociates(if a[0] in store && store[a[0]].pkg == p then [a[0]] else [], Matching(p, store, a[1..]), Matching(p, store, b));
    }
  }

  /** The objects of other packages. */
  function Others(objects: Objects, p: string): Objects {
    map n | n in objects && objects[n].pkg != p :: objects[n]
  }

  /** The package's own among these names. */
  function OwnIn(objects: Objects, p: string, names: seq<string>): set<string> {
    set n | n in names && n in objects && objects[n].pkg == p
  }

  lemma OwnGrows(objects: Objects, p: string, order: seq<string>, i: nat)
    requires i < |order| && order[i] in objects
    ensures OwnIn(objects, p, order[..i + 1])
            == OwnIn(objects, p, order[..i]) + if objects[order[i]].pkg == p then {order[i]} else {}
  {
    assert order[..i + 1] == order[..i] + [order[i]];
  }

  /** A true list names all of the package's own. */
  lemma ListedOthers(objects: Objects, p: string, order: seq<string>, a: ListAnswer)
    requires a.Items? ==> order == a.order && IsListing(order, SeenStore(objects))
    ensures a.Items? || objects == map[] ==> objects - OwnIn(objects, p, order) == Others(objects, p)
  {
    if a.Items? {
      assert forall n :: n in objects <==> n in Elements(order);
    }
  }

  class PackageRevision {
    const server: Server
    const packageName: string
    var pr: Object
    var prr: Files

    constructor (server: Server, packageName: string)
      ensures this.server == server && this.packageName == packageName
      ensures pr == NO_OBJECT && prr == map[]
    {
      this.server, this.packageName := server, packageName;
      pr, prr := NO_OBJECT, map[];
    }

    /** Where the machine is when this object holds its revision at the given stage. */
    ghost function Held(stage: Stage, want: seq<Node>): PC
      reads this
    {
      Holding(stage, want, SeenObject(pr), prr)
    }

    /** The server holds the revision in hand, with the files in hand. */
    ghost predicate HoldsFiles()
      reads this, server
    {
      Holds(server, pr) && pr.pkg == packageName && prr == server.objects[pr.name].files
    }

    /** `getPackageRevisionResources`: reads the files of the revision in hand. */
    method GetPackageRevisionResources(ghost tenant: Tenant, ghost want: seq<Node>, ghost stage: Stage)
      returns (err: bool, ghost evs: seq<Event>)
      requires stage == ReadLatest || stage == ReadNew
      modifies this`prr, server`faults
      ensures Leads(packageName, Over(server.objects, tenant, old(Held(stage, want))), evs,
                    Over(server.objects, tenant,
                         if err then Idle else Held(if stage == ReadLatest then Comparing else Writing, want)))
      ensures !err ==> |evs| == 1 && pr.name in server.objects && prr == server.objects[pr.name].files
      ensures Accounted(server, err, evs)
    {
      ghost var start := Over(server.objects, tenant, Held(stage, want));
      var files;
      err, files := server.GetResources(pr.name);
      evs := [Event(ReadResources, if err then Failed else Done)];
      if !err {
        prr := files;
        SeenObjectAt(server.objects, pr.name);
      }
      RunOne(packageName, start, evs[0]);
    }

    /** `Create`: the next revision, with its resources read into this object. */
    method Create(ghost tenant: Tenant, ghost want: seq<Node>) returns (err: bool, ghost evs: seq<Event>)
      modifies this, server
      ensures Leads(packageName, Over(old(server.objects), tenant, old(Held(CreatingNext, want))), evs,
                    Over(server.objects, tenant, if err then Idle else Held(Writing, want)))
      ensures !err ==> pr == Object(pr.name, packageName, GetNewRevision(old(pr.revision)), Draft) && Holds(server, pr)
      ensures Accounted(server, err, evs)
    {
      ghost var start := Over(server.objects, tenant, Held(CreatingNext, want));
      ghost var create, read;
      err, create := CreateNext(tenant, want);
      if err {
        return err, create;
      }
      ghost var created := Over(server.objects, tenant, Held(ReadNew, want));
      err, read := GetPackageRevisionResources(tenant, want, ReadNew);
      LeadsThrough(packageName, start, create, created, read, Over(server.objects, tenant, if err then Idle else Held(Writing, want)));
      evs := create + read;
    }

    /** The call that creates the next revision. */
    method CreateNext(ghost tenant: Tenant, ghost want: seq<Node>) returns (err: bool, ghost evs: seq<Event>)
      modifies this`pr, server
      ensures Leads(packageName, Over(old(server.objects), tenant, old(Held(CreatingNext, want))), evs,
                    Over(server.objects, tenant, if err then Idle else Held(ReadNew, want)))
      ensures !err ==> pr == Object(pr.name, packageName, GetNewRevision(old(pr.revision)), Draft) && Holds(server, pr)
      ensures Accounted(server, err, evs)
    {
      ghost var pc := Held(CreatingNext, want);
      var revision := NextRevision(pr.revision, pc.pr.number);
      err, evs := CreateNumbered(revision, tenant, pc);
    }

    method NextRevision(revision: string, ghost n: nat) returns (next: string)
      requires n == GetRevisionNumber(revision)
      ensures next == GetNewRevision(revision) && GetRevisionNumber(next) == Next(n)
    {
      next := GetNewRevision(revision);
      NextNumber(revision);
    }

    method CreateNumbered(revision: string, ghost tenant: Tenant, ghost pc: PC) returns (err: bool, ghost evs: seq<Event>)
      requires pc.Holding? && pc.stage == CreatingNext && GetRevisionNumber(revision) == Next(pc.pr.number)
      modifies this`pr, server
      ensures Leads(packageName, Over(old(server.objects), tenant, pc), evs,
                    Over(server.objects, tenant, if err then Idle else Holding(ReadNew, pc.want, SeenObject(pr), pc.files)))
      ensures !err ==> pr == Object(pr.name, packageName, revision, Draft) && Holds(server, pr)
      ensures Accounted(server, err, evs)
    {
      ghost var before := server.objects;
      var o;
      ghost var content, answer;
      err, o, content, answer := server.Create(packageName, revision);
      evs := [Event(CreateRevision(o.name, content), answer)];
      LeadsToCreated(packageName, before, server.objects, tenant, pc, o, content, answer);
      if !err {
        pr := o;
      }
    }

    /** `Delete`: every listed revision of the package, in list order, until one fails. Without a fault
        the revisions left in the server are those of other packages. */
    method Delete(ghost tenant: Tenant) returns (err: bool, ghost evs: seq<Event>)
      modifies server
      ensures Leads(packageName, Over(old(server.objects), tenant, ListingDoomed), evs,
                    Over(server.objects, tenant, if err then Idle else Deleting([])))
      ensures Accounted(server, err, evs)
      ensures err ==> evs != [] && evs[|evs| - 1].answer != Done
      ensures server.faults == old(server.faults) ==> server.objects == Others(old(server.objects), packageName)
      ensures server.faults == old(server.faults) && tenant.Present? ==>
                TruthfulRun(packageName, Over(old(server.objects), tenant, ListingDoomed), evs)
    {
      ghost var start := Over(server.objects, tenant, ListingDoomed);
      var listErr, items;
      ghost var a;
      listErr, items, a := server.List();
      if listErr == OtherError {
        evs := [Event(ListDoomed(NotFound), Failed)];
        RunOne(packageName, start, evs[0]);
        return true, evs;
      }
      ghost var order := if a.Items? then a.order else [];
      ghost var list := Event(ListDoomed(a), Done);
      ghost var listed := Over(server.objects, tenant, Deleting(Matching(packageName, SeenStore(server.objects), order)));
      RunOne(packageName, start, list);
      assert Leads(packageName, start, [list], listed);
      ghost var deletes;
      ListedOthers(server.objects, packageName, order, a);
      err, deletes := DeleteListed(items, tenant, order);
      LeadsThrough(packageName, start, [list], listed, deletes,
                   Over(server.objects, tenant, if err then Idle else Deleting([])));
      evs := [list] + deletes;
      if server.faults == old(server.faults) && tenant.Present? {
        NoMoreLists(packageName, listed, deletes, Over(server.objects, tenant, Deleting([])));
        TruthfulAppend(packageName, start, [list], deletes);
      }
    }

    /** The loop of `Delete`. */
    method DeleteListed(items: seq<Object>, ghost tenant: Tenant, ghost order: seq<string>)
      returns (err: bool, ghost evs: seq<Event>)
      requires Listed(items, order)
      modifies server
      ensures Leads(packageName,
                    Over(old(server.objects), tenant, Deleting(Matching(packageName, old(SeenStore(server.objects)), order))), evs,
                    Over(server.objects, tenant, if err then Idle else Deleting([])))
      ensures Accounted(server, err, evs)
      ensures err ==> evs != [] && evs[|evs| - 1].answer != Done
      ensures !err ==> server.objects == old(server.objects) - OwnIn(old(server.objects), packageName, order)
    {
      ghost var before := server.objects;
      ghost var start := Over(before, tenant, Deleting(Matching(packageName, SeenStore(before), order)));
      evs := [];
      LeadsNowhere(packageName, start);
      var i := 0;
      assert order[0..] == order;
      while i < |items|
        invariant 0 <= i <= |items|
        invariant Leads(packageName, start, evs, Over(server.objects, tenant, ToDelete(before, order, i)))
        invariant Accounted(server, false, evs)
        invariant server.objects == before - OwnIn(before, packageName, order[..i])
      {
        ghost var here := Over(server.objects, tenant, ToDelete(before, order, i));
        ghost var delete;
        err, delete := DeleteNext(items[i], tenant, before, order, i);
        LeadsThrough(packageName, start, evs, here, delete,
                     Over(server.objects, tenant, if err then Idle else ToDelete(before, order, i + 1)));
        evs := evs + delete;
        if err {
          return;
        }
        OwnGrows(before, packageName, order, i);
        i := i + 1;
      }
      assert order[..i] == order;
      err := false;
    }

    /** Where the machine is when the listed revisions from `i` on are still to be looked at. */
    ghost function ToDelete(before: Objects, order: seq<string>, i: nat): PC
      requires i <= |order|
    {
      Deleting(Matching(packageName, SeenStore(before), order[i..]))
    }

    /** One round of that loop. */
    method DeleteNext(item: Object, ghost tenant: Tenant, ghost before: Objects, ghost order: seq<string>, ghost i: nat)
      returns (err: bool, ghost evs: seq<Event>)
      requires i < |order| && order[i] in before && item == ObjectAt(before, order[i])
      modifies server
      ensures Leads(packageName, Over(old(server.objects), tenant, ToDelete(before, order, i)), evs,
                    Over(server.objects, tenant, if err then Idle else ToDelete(before, order, i + 1)))
      ensures Accounted(server, err, evs)
      ensures err ==> evs != [] && evs[|evs| - 1].answer != Done
      ensures !err ==> server.objects == old(server.objects) - if item.pkg == packageName then {item.name} else {}
    {
      assert order[i..][0] == order[i] && order[i..][1..] == order[i + 1..];
      ghost var rest := Matching(packageName, SeenStore(before), order[i + 1..]);
      if item.pkg == packageName {
        assert Matching(packageName, SeenStore(before), order[i..]) == [item.name] + rest;
        err, evs := DeleteOne(item.name, tenant, rest);
      } else {
        assert Matching(packageName, SeenStore(before), order[i..]) == rest;
        LeadsNowhere(packageName, Over(server.objects, tenant, Deleting(rest)));
        err, evs := false, [];
        assert server.objects - {} == server.objects;
      }
    }

    method DeleteOne(name: string, ghost tenant: Tenant, ghost rest: seq<string>)
      returns (err: bool, ghost evs: seq<Event>)
      modifies server
      ensures Leads(packageName, Over(old(server.objects), tenant, Deleting([name] + rest)), evs,
                    Over(server.objects, tenant, if err then Idle else Deleting(rest)))
      ensures Accounted(server, err, evs)
      ensures err ==> evs != [] && evs[|evs| - 1].answer != Done
      ensures !err ==> server.objects == old(server.objects) - {name}
    {
      ghost var start := Over(server.objects, tenant, Deleting([name] + rest));
      SeenRemove(server.objects, name);
      ghost var answer;
      err, answer := server.Delete(name);
      assert ([name] + rest)[1..] == rest;
      evs := [Event(DeleteRevision, answer)];
      RunOne(packageName, start, evs[0]);
    }

    /** The two loops of `GetOrCreate`: the listed revisions of the package, then the latest. */
    method SelectLatest(items: seq<Object>, ghost order: seq<string>) returns (lastPr: Object)
      requires Listed(items, order)
      ensures SeenObject(lastPr) == Latest(SeenStore(server.objects), Matching(packageName, SeenStore(server.objects), order))
      ensures lastPr.name != "" ==> Holds(server, lastPr) && lastPr.pkg == packageName
    {
      var pl;
      ghost var names;
      pl, names := OfPackage(items, order);
      lastPr := Highest(pl, names);
    }

    /** The objects of these names. */
    ghost predicate Listed(items: seq<Object>, order: seq<string>)
      reads server
    {
      && |items| == |order|
      && forall i :: 0 <= i < |order| ==> order[i] in server.objects && items[i] == ObjectAt(server.objects, order[i])
    }

    method OfPackage(items: seq<Object>, ghost order: seq<string>) returns (pl: seq<Object>, ghost names: seq<string>)
      requires Listed(items, order)
      ensures Listed(pl, names) && forall i :: 0 <= i < |pl| ==> pl[i].pkg == packageName
      ensures names == Matching(packageName, SeenStore(server.objects), order)
    {
      ghost var store := SeenStore(server.objects);
      pl, names := [], [];
      var i := 0;
      assert order[..0] == [];
      while i < |items|
        invariant 0 <= i <= |items| && Listed(pl, names) && forall i :: 0 <= i < |pl| ==> pl[i].pkg == packageName
        invariant names == Matching(packageName, store, order[..i])
      {
        MatchingGrows(packageName, store, order, i);
        if items[i].pkg == packageName {
          pl, names := pl + [items[i]], names + [order[i]];
        }
        i := i + 1;
      }
      assert order[..i] == order;
    }

    method Highest(pl: seq<Object>, ghost names: seq<string>) returns (lastPr: Object)
      requires Listed(pl, names)
      ensures SeenObject(lastPr) == Latest(SeenStore(server.objects), names)
      ensures lastPr.name != "" ==> Holds(server, lastPr) && lastPr in pl
    {
      ghost var store := SeenStore(server.objects);
      lastPr := NO_OBJECT;
      var lastRevision := 0;
      var j := 0;
      assert names[0..] == names;
      while j < |pl|
        invariant 0 <= j <= |pl|
        invariant Latest(store, names) == LatestFrom(store, names[j..], SeenObject(lastPr), lastRevision)
        invariant lastPr.name != "" ==> Holds(server, lastPr) && lastPr in pl
      {
        assert names[j..][0] == names[j] && names[j..][1..] == names[j + 1..];
        SeenObjectAt(server.objects, names[j]);
        if GetRevisionNumber(pl[j].revision) > lastRevision {
          lastRevision := GetRevisionNumber(pl[j].revision);
          lastPr := pl[j];
        }
        j := j + 1;
      }
    }

    /** `GetOrCreate`: the latest revision of the package, or a first one. */
    method GetOrCreate(ghost tenant: Tenant, ghost want: seq<Node>) returns (err: bool, ghost evs: seq<Event>)
      requires prr == map[]
      modifies this, server
      ensures server.faults == old(server.faults) && IsLiveTenant(tenant) ==>
                TruthfulRun(packageName, Over(old(server.objects), tenant, Listing(want)), evs)
      ensures Leads(packageName, Over(old(server.objects), tenant, Listing(want)), evs,
                    Over(server.objects, tenant, if err then Idle else Held(Comparing, want)))
      ensures Accounted(server, err, evs)
      ensures !err ==> HoldsFiles()
    {
      ghost var start := Over(server.objects, tenant, Listing(want));
      ghost var list, rest;
      var lastPr;
      err, lastPr, list := FindLatest(tenant, want);
      if err {
        return err, list;
      }
      ghost var listed := Over(server.objects, tenant, Chosen(lastPr, want));
      err, rest := UseLatest(lastPr, tenant, want);
      LeadsThrough(packageName, start, list, listed, rest, Over(server.objects, tenant, if err then Idle else Held(Comparing, want)));
      evs := list + rest;
      if server.faults == old(server.faults) && IsLiveTenant(tenant) {
        NoMoreLists(packageName, listed, rest, Over(server.objects, tenant, Held(Comparing, want)));
        TruthfulAppend(packageName, start, list, rest);
      }
    }

    /** Where the machine is once the latest revision was chosen: a nameless one means none. */
    ghost function Chosen(lastPr: Object, want: seq<Node>): PC {
      if lastPr.name == "" then CreatingFirst(want) else Holding(ReadLatest, want, SeenObject(lastPr), map[])
    }

    /** The list call of `GetOrCreate` and its two loops. */
    method FindLatest(ghost tenant: Tenant, ghost want: seq<Node>) returns (err: bool, lastPr: Object, ghost evs: seq<Event>)
      modifies server`faults
      ensures Leads(packageName, Over(server.objects, tenant, Listing(want)), evs,
                    Over(server.objects, tenant, if err then Idle else Chosen(lastPr, want)))
      ensures Accounted(server, err, evs)
      ensures server.faults == old(server.faults) ==> TruthfulRun(packageName, Over(server.objects, tenant, Listing(want)), evs)
      ensures lastPr.name != "" ==> Holds(server, lastPr) && lastPr.pkg == packageName
    {
      ghost var start := Over(server.objects, tenant, Listing(want));
      var listErr, items;
      ghost var a;
      listErr, items, a := server.List();
      lastPr := NO_OBJECT;
      if listErr == OtherError {
        evs := [Event(ListRevisions(NotFound), Failed)];
        LeadsOne(packageName, start, evs[0], Over(server.objects, tenant, Idle));
        return true, lastPr, evs;
      }
      lastPr := SelectLatest(items, if a.Items? then a.order else []);
      evs := [Event(ListRevisions(a), Done)];
      LeadsOne(packageName, start, evs[0], Over(server.objects, tenant, Chosen(lastPr, want)));
      err := false;
    }

    /** The rest of `GetOrCreate`. */
    method UseLatest(lastPr: Object, ghost tenant: Tenant, ghost want: seq<Node>) returns (err: bool, ghost evs: seq<Event>)
      requires prr == map[] && (lastPr.name != "" ==> Holds(server, lastPr) && lastPr.pkg == packageName)
      modifies this, server
      ensures Leads(packageName, Over(old(server.objects), tenant, Chosen(lastPr, want)), evs,
                    Over(server.objects, tenant, if err then Idle else Held(Comparing, want)))
      ensures Accounted(server, err, evs)
      ensures !err ==> HoldsFiles()
    {
      if lastPr.name == "" {
        err, evs := CreateFirst(tenant, want);
      } else {
        pr := lastPr;
        err, evs := GetPackageRevisionResources(tenant, want, ReadLatest);
      }
    }

    /** The branch of `GetOrCreate` that creates `v1`. */
    method CreateFirst(ghost tenant: Tenant, ghost want: seq<Node>) returns (err: bool, ghost evs: seq<Event>)
      requires prr == map[]
      modifies this, server
      ensures Leads(packageName, Over(old(server.objects), tenant, CreatingFirst(want)), evs,
                    Over(server.objects, tenant, if err then Idle else Held(Comparing, want)))
      ensures Accounted(server, err, evs)
      ensures !err ==> HoldsFiles() && pr == Object(pr.name, packageName, "v1", Draft)
    {
      FirstNumber();
      err, evs := CreateAndRead("v1", tenant, want);
    }

    method CreateAndRead(revision: string, ghost tenant: Tenant, ghost want: seq<Node>) returns (err: bool, ghost evs: seq<Event>)
      requires prr == map[] && GetRevisionNumber(revision) == 1
      modifies this, server
      ensures Leads(packageName, Over(old(server.objects), tenant, CreatingFirst(want)), evs,
                    Over(server.objects, tenant, if err then Idle else Held(Comparing, want)))
      ensures Accounted(server, err, evs)
      ensures !err ==> HoldsFiles() && pr == Object(pr.name, packageName, revision, Draft)
    {
      ghost var start, before := Over(server.objects, tenant, CreatingFirst(want)), server.objects;
      var o;
      ghost var content, answer;
      err, o, content, answer := server.Create(packageName, revision);
      ghost var create := Event(CreateRevision(o.name, content), answer);
      LeadsToFirst(packageName, before, server.objects, tenant, want, o, content, answer);
      if err {
        return err, [create];
      }
      pr := o;
      ghost var created := Over(server.objects, tenant, Held(ReadLatest, want));
      ghost var read;
      err, read := GetPackageRevisionResources(tenant, want, ReadLatest);
      LeadsThrough(packageName, start, [create], created, read, Over(server.objects, tenant, if err then Idle else Held(Comparing, want)));
      evs := [create] + read;
    }

    /** `GetResources`: fresh nodes for the documents in hand. */
    method GetResources() returns (err: bool, actual: Resources)
      ensures fresh(actual) && forall i :: 0 <= i < |actual.resources| ==> fresh(actual.resources[i])
      ensures if err then Read(prr) == None else Read(prr) == Some(Views(actual.resources))
    {
      actual := new Resources();
      var pkgBuf := ResourcesToPackageBuffer(prr);
      if pkgBuf == None {
        return true, actual;
      }
      var nodes := FreshNodes(pkgBuf.value);
      var i := 0;
      while i < |nodes|
        invariant 0 <= i <= |nodes| && fresh(actual)
        invariant actual.resources == nodes[..i] && Views(nodes) == pkgBuf.value
      {
        actual.Add(nodes[i]);
        i := i + 1;
      }
      assert actual.resources == nodes;
      err := false;
    }

    /** `Update`: the wanted documents are written over the files in hand. */
    method Update(resources: Resources, ghost tenant: Tenant) returns (err: bool, ghost evs: seq<Event>)
      modifies this`prr, server
      ensures Leads(packageName, Over(old(server.objects), tenant, old(Held(Writing, Views(resources.resources)))), evs,
                    Over(server.objects, tenant,
                         if err then Idle else Held(ApprovalStage(pr.lifecycle), old(Views(resources.resources)))))
      ensures Accounted(server, err, evs)
      ensures old(Holds(server, pr)) && !err ==> Holds(server, pr)
    {
      ghost var want := Views(resources.resources);
      ghost var start := Over(server.objects, tenant, Held(Writing, want));
      ghost var before := server.objects;
      var nodes := DocumentsOf(resources);
      var newResources := CreateUpdatedResource(prr, nodes);
      prr := newResources;
      ghost var answer;
      err, answer := server.UpdateResources(pr.name, prr);
      if answer != Failed {
        SeenPut(before, pr.name, before[pr.name].(files := prr));
      }
      evs := [Event(WriteResources, answer)];
      RunOne(packageName, start, evs[0]);
    }

    /** `Approve`: Draft to Proposed to Published, from wherever the revision in hand stands. */
    method Approve(ghost tenant: Tenant, ghost want: seq<Node>) returns (err: bool, ghost evs: seq<Event>)
      modifies this`pr, server
      ensures Leads(packageName, Over(old(server.objects), tenant, old(Held(ApprovalStage(pr.lifecycle), want))), evs,
                    Over(server.objects, tenant, if err then Idle else Held(Reporting, want)))
      ensures old(Holds(server, pr)) ==> Accounted(server, err, evs)
    {
      ghost var start := Over(server.objects, tenant, Held(ApprovalStage(pr.lifecycle), want));
      match pr.lifecycle {
        case Published =>
          LeadsNowhere(packageName, start);
          return false, [];
        case Proposed =>
          err, evs := UpdateApproval(server, pr.name, packageName, tenant, Held(CheckingApproval, want));
        case Draft =>
          ghost var toProposed, toPublished;
          err, toProposed := ProposeDraft(tenant, want);
          if err {
            return err, toProposed;
          }
          ghost var proposed := Over(server.objects, tenant, Held(CheckingApproval, want));
          err, toPublished := UpdateApproval(server, pr.name, packageName, tenant, Held(CheckingApproval, want));
          LeadsThrough(packageName, start, toProposed, proposed, toPublished,
                       Over(server.objects, tenant, if err then Idle else Held(Reporting, want)));
          evs := toProposed + toPublished;
      }
    }

    /** The first half of `Approve` for a Draft. */
    method ProposeDraft(ghost tenant: Tenant, ghost want: seq<Node>) returns (err: bool, ghost evs: seq<Event>)
      modifies this`pr, server
      ensures Leads(packageName, Over(old(server.objects), tenant, old(Held(GettingDraft, want))), evs,
                    Over(server.objects, tenant, if err then Idle else Held(CheckingApproval, want)))
      ensures Accounted(server, err, evs)
      ensures !err ==> Holds(server, pr) && pr.lifecycle == Proposed
    {
      ghost var start := Over(server.objects, tenant, Held(GettingDraft, want));
      var o;
      err, o := server.Get(pr.name);
      ghost var get := Event(GetDraft, if err then Failed else Done);
      RunOne(packageName, start, get);
      if err {
        return true, [get];
      }
      SeenObjectAt(server.objects, pr.name);
      pr := o;
      ghost var got := Over(server.objects, tenant, Held(Proposing, want));
      assert Leads(packageName, start, [get], got);
      ghost var propose;
      err, propose := PutProposed(tenant, want);
      LeadsThrough(packageName, start, [get], got, propose, Over(server.objects, tenant, if err then Idle else Held(CheckingApproval, want)));
      evs := [get] + propose;
    }

    /** The update that proposes the revision in hand. */
    method PutProposed(ghost tenant: Tenant, ghost want: seq<Node>) returns (err: bool, ghost evs: seq<Event>)
      requires Holds(server, pr)
      modifies this`pr, server
      ensures Leads(packageName, Over(old(server.objects), tenant, old(Held(Proposing, want))), evs,
                    Over(server.objects, tenant, if err then Idle else Held(CheckingApproval, want)))
      ensures Accounted(server, err, evs)
      ensures !err ==> Holds(server, pr) && pr.lifecycle == Proposed
    {
      ghost var start, before := Over(server.objects, tenant, Held(Proposing, want)), server.objects;
      pr := pr.(lifecycle := Proposed);
      ghost var answer;
      err, answer := server.Update(pr);
      if answer != Failed {
        SeenPut(before, pr.name, Stored(pr.pkg, pr.revision, Proposed, before[pr.name].files));
      }
      evs := [Event(Propose, answer)];
      LeadsOne(packageName, start, evs[0], Over(server.objects, tenant, if err then Idle else Held(CheckingApproval, want)));
    }
  }

  /** The documents of a list of nodes. */
  method DocumentsOf(resources: Resources) returns (nodes: seq<Node>)
    ensures nodes == Views(resources.resources)
  {
    nodes := [];
    var i := 0;
    while i < |resources.resources|
      invariant 0 <= i <= |resources.resources|
      invariant nodes == Views(resources.resources)[..i]
    {
      nodes := nodes + [resources.resources[i].node];
      i := i + 1;
    }
  }
}
