/** What every run of the reconcile protocol keeps, whatever calls fail and wherever runs are cut. */
module Safety {
  import opened Options
  import opened Strings
  import opened Numerals
  import opened Documents
  import opened PkgUtil
  import opened Protocol

  // ---------- the invariant ----------

  /** Only this package's revisions, numbered from one, no number twice, and a Draft is the highest. */
  ghost predicate StoreInv(p: string, store: Store) {
    && (forall n :: n in store ==> n != "" && store[n].pkg == p && store[n].number >= 1)
    && (forall n, m :: n in store && m in store && n != m ==> store[n].number != store[m].number)
    && (forall n, m :: n in store && m in store && store[n].lifecycle == Draft
          ==> store[m].number <= store[n].number)
  }

  ghost predicate HasNumber(store: Store, k: nat) {
    exists n :: n in store && store[n].number == k
  }

  /** The numbers are exactly 1 to the number of revisions. */
  ghost predicate Dense(store: Store) {
    && (forall n :: n in store ==> store[n].number <= |store|)
    && (forall k :: 1 <= k <= |store| ==> HasNumber(store, k))
  }

  ghost predicate IsTop(store: Store, name: string) {
    name in store && forall m :: m in store ==> store[m].number <= store[name].number
  }

  /** A run that read the tenant before it was marked for deletion. */
  predicate IsLive(pc: PC) {
    pc == Begun(false) || pc.Building? || pc.Listing? || pc.CreatingFirst? || pc.Holding?
  }

  predicate IsDeletion(pc: PC) {
    pc == Begun(true) || pc.ListingDoomed? || pc.Deleting?
  }

  /** What the lifecycle of the revision in hand must be at each stage. */
  predicate StageFits(stage: Stage, l: Lifecycle) {
    match stage
    case CreatingNext => l != Draft
    case ReadNew | Writing | GettingDraft | Proposing => l == Draft
    case CheckingApproval | Approving => l == Proposed
    case Reporting => l == Published
    case ReadLatest | Comparing => true
  }

  /** The handle is up to date, except that approval leaves the lifecycle in it unchanged. */
  predicate Remembers(store: Store, stage: Stage, pr: Handle)
    requires pr.name in store
  {
    HandleOf(store, pr.name) == if stage == Reporting then pr.(lifecycle := store[pr.name].lifecycle) else pr
  }

  /** What the run remembers about its revision is what the store holds of it. */
  predicate InHand(store: Store, pc: PC)
    requires pc.Holding? && pc.pr.name in store
  {
    && Remembers(store, pc.stage, pc.pr) && StageFits(pc.stage, store[pc.pr.name].lifecycle)
    && (pc.stage == Comparing || pc.stage == Writing ==> pc.files == store[pc.pr.name].files)
  }

  /** A run holds the highest revision, or lists all that are left to delete. */
  ghost predicate PcInv(s: State) {
    match s.pc
    case Holding(_, _, pr, _) => IsTop(s.store, pr.name) && InHand(s.store, s.pc)
    case Deleting(todo) => ListingOf(todo, s.store.Keys)
    case CreatingFirst(_) => s.store == map[]
    case _ => true
  }

  ghost predicate TenantInv(s: State) {
    && (s.tenant.Gone? || !s.tenant.finalizer ==> s.store == map[] && (s.pc == Idle || s.pc == Begun(false)))
    && (s.tenant == Present(true, false) ==> false)
    && (IsDeletion(s.pc) ==> s.tenant == Present(true, true))
  }

  /** No deletion of the tenant has begun, or a run goes on that began before. */
  predicate IsCurrent(s: State) {
    IsLive(s.pc) || s.tenant.Gone? || !s.tenant.deleting
  }

  ghost predicate Inv(p: string, s: State) {
    && StoreInv(p, s.store) && TenantInv(s) && PcInv(s)
    && (IsCurrent(s) ==> Dense(s.store))
  }

  /** What the server is trusted with beyond answering as the machine allows: NotFound is answered
      to a list only when the package has no revision, and a package stays below 2^64 - 1 of them. */
  ghost predicate Trusted(s: State, c: Call) {
    match c
    case ListDoomed(NotFound) => s.store == map[]
    case ListRevisions(NotFound) => s.store == map[]
    case CreateRevision(_, _) => |s.store| < TWO_64 - 1
    case _ => true
  }

  /** A call that failed was not answered, so there is nothing to trust. */
  ghost predicate TrustedEvent(s: State, e: Event) {
    e.answer == Failed || Trusted(s, e.call)
  }

  /** A run the machine can take, with trusted answers. */
  ghost predicate TrustedRun(p: string, s: State, evs: seq<Event>)
    decreases |evs|
  {
    evs == []
    || (TrustedEvent(s, evs[0]) && Step(p, s, evs[0]).Some?
        && TrustedRun(p, Step(p, s, evs[0]).value, evs[1..]))
  }

  /** A package stays below 2^64 - 1 revisions. */
  ghost predicate HasRoom(p: string, s: State, evs: seq<Event>)
    decreases |evs|
  {
    evs == []
    || ((evs[0].call.CreateRevision? ==> |s.store| < TWO_64 - 1)
        && (Step(p, s, evs[0]).Some? ==> HasRoom(p, Step(p, s, evs[0]).value, evs[1..])))
  }

  /** So much is needed to trust a run whose lists are true. */
  lemma {:induction false} TruthfulIsTrusted(p: string, s: State, evs: seq<Event>)
    requires TruthfulRun(p, s, evs) && HasRoom(p, s, evs)
    ensures TrustedRun(p, s, evs)
    decreases |evs|
  {
    if evs != [] { TruthfulIsTrusted(p, Step(p, s, evs[0]).value, evs[1..]); }
  }

  lemma {:induction false} TrustedPrefix(p: string, s: State, evs: seq<Event>, k: nat)
    requires TrustedRun(p, s, evs) && k <= |evs|
    ensures TrustedRun(p, s, evs[..k])
    decreases |evs|
  {
    if k > 0 {
      TrustedPrefix(p, Step(p, s, evs[0]).value, evs[1..], k - 1);
      assert evs[..k][1..] == evs[1..][..k - 1];
    }
  }

  lemma {:induction false} TrustedSuffix(p: string, s: State, evs: seq<Event>, k: nat)
    requires TrustedRun(p, s, evs) && k <= |evs|
    ensures Run(p, s, evs[..k]).Some? && TrustedRun(p, Run(p, s, evs[..k]).value, evs[k..])
    ensures Run(p, s, evs) == Run(p, Run(p, s, evs[..k]).value, evs[k..])
    decreases |evs|
  {
    if k == 0 {
      assert evs[0..] == evs;
    } else {
      TrustedSuffix(p, Step(p, s, evs[0]).value, evs[1..], k - 1);
      assert evs[..k][1..] == evs[1..][..k - 1] && evs[k..] == evs[1..][k - 1..];
    }
  }

  /** Before the tenant was ever created. */
  const INITIAL: State := State(map[], Gone, Idle)

  lemma InitialInv(p: string)
    ensures Inv(p, INITIAL)
  {
  }

  // ---------- selection ----------

  /** `GetOrCreate` selects the first revision in list order among those with the largest number,
      and none exactly when no listed revision has a positive number. */
  lemma {:induction false} LatestFromIsFirstMaximum(store: Store, names: seq<string>, best: Handle, bestNumber: nat)
    returns (k: int)
    ensures -1 <= k < |names|
    ensures k == -1 ==> LatestFrom(store, names, best, bestNumber) == best
    ensures k == -1 ==> forall i :: 0 <= i < |names| && names[i] in store ==> store[names[i]].number <= bestNumber
    ensures k >= 0 ==> names[k] in store && LatestFrom(store, names, best, bestNumber) == HandleOf(store, names[k])
    ensures k >= 0 ==> store[names[k]].number > bestNumber
    ensures k >= 0 ==> forall i :: 0 <= i < |names| && names[i] in store ==>
                         && store[names[i]].number <= store[names[k]].number
                         && (i < k ==> store[names[i]].number < store[names[k]].number)
    decreases |names|
  {
    if names == [] {
      k := -1;
    } else if names[0] in store && store[names[0]].number > bestNumber {
      var j := LatestFromIsFirstMaximum(store, names[1..], HandleOf(store, names[0]), store[names[0]].number);
      k := j + 1;
      assert forall i :: 0 < i < |names| ==> names[i] == names[1..][i - 1];
    } else {
      var j := LatestFromIsFirstMaximum(store, names[1..], best, bestNumber);
      k := if j == -1 then -1 else j + 1;
      assert forall i :: 0 < i < |names| ==> names[i] == names[1..][i - 1];
    }
  }

  /** The listed revisions of the package, each once and in list order. */
  lemma {:induction false} MatchingMembers(p: string, store: Store, order: seq<string>)
    ensures forall n :: n in Matching(p, store, order) <==> n in order && n in store && store[n].pkg == p
    ensures NoDuplicates(order) ==> NoDuplicates(Matching(p, store, order))
    decreases |order|
  {
    if order != [] {
      MatchingMembers(p, store, order[1..]);
      var rest := Matching(p, store, order[1..]);
      if NoDuplicates(order) {
        assert order[0] !in order[1..];
        assert order[0] !in rest;
      }
    }
  }

  /** A full listing of a store that holds only this package lists exactly its names. */
  lemma MatchingAll(p: string, store: Store, order: seq<string>)
    requires StoreInv(p, store) && IsListing(order, store)
    ensures ListingOf(Matching(p, store, order), store.Keys)
  {
    MatchingMembers(p, store, order);
    forall n ensures n in Elements(Matching(p, store, order)) <==> n in store.Keys {
      assert n in Elements(order) <==> n in order;
    }
  }

  lemma LatestIsTop(p: string, store: Store, names: seq<string>)
    requires StoreInv(p, store) && ListingOf(names, store.Keys)
    ensures store == map[] ==> Latest(store, names) == NO_HANDLE
    ensures store != map[] ==> var h := Latest(store, names);
                               IsTop(store, h.name) && h == HandleOf(store, h.name) && h.name != ""
  {
    var k := LatestFromIsFirstMaximum(store, names, NO_HANDLE, 0);
    forall m | m in store ensures exists i :: 0 <= i < |names| && names[i] == m {
      assert m in Elements(names);
    }
    if store != map[] {
      var m :| m in store;
      assert k >= 0;
    }
  }

  // ---------- one step keeps the invariant ----------

  lemma TopNumber(p: string, store: Store, name: string)
    requires StoreInv(p, store) && Dense(store) && IsTop(store, name)
    ensures store[name].number == |store|
  {
    assert |store| >= 1 by { assert name in store.Keys && |store.Keys| == |store|; }
    assert HasNumber(store, |store|);
  }

  lemma AddRevision(p: string, store: Store, name: string, r: Revision)
    requires StoreInv(p, store) && Dense(store) && name != "" && name !in store
    requires r.pkg == p && r.lifecycle == Draft && r.number == |store| + 1
    requires forall n :: n in store ==> store[n].lifecycle != Draft
    ensures StoreInv(p, store[name := r]) && Dense(store[name := r]) && IsTop(store[name := r], name)
  {
    var store' := store[name := r];
    assert |store'| == |store| + 1;
    forall k | 1 <= k <= |store'| ensures HasNumber(store', k) {
      if k <= |store| {
        assert HasNumber(store, k);
        var n :| n in store && store[n].number == k;
        assert n in store' && store'[n].number == k;
      } else {
        assert name in store' && store'[name].number == k;
      }
    }
  }

  /** No Draft but the highest: if the highest is not one, none is. */
  lemma NoDraft(p: string, store: Store, name: string)
    requires StoreInv(p, store) && IsTop(store, name) && store[name].lifecycle != Draft
    ensures forall n :: n in store ==> store[n].lifecycle != Draft
  {
  }

  /** Replacing a revision by one with the same package and revision string. */
  lemma ReplaceRevision(p: string, store: Store, name: string, r: Revision)
    requires StoreInv(p, store) && IsTop(store, name)
    requires r.pkg == p && r.number == store[name].number
    ensures StoreInv(p, store[name := r]) && IsTop(store[name := r], name)
  {
    var store' := store[name := r];
    assert forall n :: n in store' <==> n in store;
    assert forall n :: n in store ==> store'[n].number == store[n].number;
    assert forall n :: n in store && n != name ==> store'[n] == store[n];
  }

  lemma ReplaceKeepsDense(store: Store, name: string, r: Revision)
    requires Dense(store) && name in store && r.number == store[name].number
    ensures Dense(store[name := r])
  {
    var store' := store[name := r];
    assert store'.Keys == store.Keys;
    assert |store'| == |store'.Keys| == |store.Keys| == |store|;
    assert forall n :: n in store ==> store'[n].number == store[n].number;
    forall k | 1 <= k <= |store'| ensures HasNumber(store', k) {
      assert HasNumber(store, k);
      var n :| n in store && store[n].number == k;
      assert n in store' && store'[n].number == k;
    }
  }

  lemma CreateFirstKeepsInv(p: string, s: State, c: Call)
    requires Inv(p, s) && s.pc.CreatingFirst? && c.CreateRevision? && Do(p, s, c).Some?
    ensures Inv(p, Do(p, s, c).value)
  {
    AddRevision(p, s.store, c.name, Revision(p, 1, Draft, c.content));
  }

  lemma CreateNextShape(p: string, s: State, c: Call)
    requires s.pc.Holding? && c.CreateRevision? && Do(p, s, c).Some?
    ensures s.pc.stage == CreatingNext && c.name != "" && c.name !in s.store
    ensures var r := Revision(p, Next(s.pc.pr.number), Draft, c.content);
            Do(p, s, c).value == s.(store := s.store[c.name := r],
                                    pc := Holding(ReadNew, s.pc.want, Handle(c.name, p, r.number, Draft), s.pc.files))
  {
  }

  lemma CreateNextKeepsInv(p: string, s: State, c: Call)
    requires Inv(p, s) && Trusted(s, c) && s.pc.Holding? && c.CreateRevision? && Do(p, s, c).Some?
    ensures Inv(p, Do(p, s, c).value)
    ensures Do(p, s, c).value.store[c.name].number == |s.store| + 1
  {
    CreateNextShape(p, s, c);
    TopNumber(p, s.store, s.pc.pr.name);
    NoDraft(p, s.store, s.pc.pr.name);
    var s' := Do(p, s, c).value;
    AddRevision(p, s.store, c.name, s'.store[c.name]);
    assert PcInv(s') && TenantInv(s');
  }

  lemma DoomedLists(p: string, s: State, a: ListAnswer)
    requires StoreInv(p, s.store) && PossibleAnswer(a, s.store) && (a.NotFound? ==> s.store == map[])
    ensures ListingOf(Doomed(p, s.store, a), s.store.Keys)
  {
    if a.Items? { MatchingAll(p, s.store, a.order); }
  }

  lemma ListKeepsInv(p: string, s: State, c: Call)
    requires Inv(p, s) && Trusted(s, c) && (c.ListDoomed? || c.ListRevisions?) && Do(p, s, c).Some?
    ensures Inv(p, Do(p, s, c).value)
  {
    var a := if c.ListDoomed? then c.doomed else c.answer;
    DoomedLists(p, s, a);
    LatestIsTop(p, s.store, Doomed(p, s.store, a));
    var s' := Do(p, s, c).value;
    assert PcInv(s') && TenantInv(s');
  }

  lemma RemoveOne(p: string, store: Store, name: string)
    requires StoreInv(p, store)
    ensures StoreInv(p, store - {name})
  {
    var store' := store - {name};
    assert forall n :: n in store' ==> n in store && store'[n] == store[n];
  }

  lemma DeleteShape(p: string, s: State)
    requires Do(p, s, DeleteRevision).Some?
    ensures s.pc.Deleting? && s.pc.todo != [] && s.pc.todo[0] in s.store
    ensures Do(p, s, DeleteRevision).value
            == s.(store := s.store - {s.pc.todo[0]}, pc := Deleting(s.pc.todo[1..]))
  {
  }

  lemma DeleteKeepsInv(p: string, s: State)
    requires Inv(p, s) && Do(p, s, DeleteRevision).Some?
    ensures Inv(p, Do(p, s, DeleteRevision).value)
  {
    DeleteShape(p, s);
    DeletedInv(p, s, s.pc.todo);
  }

  lemma DeletedInv(p: string, s: State, todo: seq<string>)
    requires Inv(p, s) && s.pc == Deleting(todo) && todo != []
    ensures Inv(p, s.(store := s.store - {todo[0]}, pc := Deleting(todo[1..])))
  {
    DeletedStore(p, s.store, todo);
    assert TenantInv(s);
    DeletingInv(p, s.store - {todo[0]}, todo[1..]);
  }

  lemma DeletingInv(p: string, store: Store, todo: seq<string>)
    requires StoreInv(p, store) && ListingOf(todo, store.Keys)
    ensures Inv(p, State(store, Present(true, true), Deleting(todo)))
  {
  }

  lemma DeletedStore(p: string, store: Store, todo: seq<string>)
    requires StoreInv(p, store) && ListingOf(todo, store.Keys) && todo != []
    ensures StoreInv(p, store - {todo[0]}) && ListingOf(todo[1..], (store - {todo[0]}).Keys)
  {
    RemoveOne(p, store, todo[0]);
    TailListing(todo, store.Keys);
    assert (store - {todo[0]}).Keys == store.Keys - {todo[0]};
  }

  lemma TailListing(todo: seq<string>, names: set<string>)
    requires todo != [] && ListingOf(todo, names)
    ensures ListingOf(todo[1..], names - {todo[0]})
  {
    TailElements(todo);
  }

  /** A write to the revision in hand, or to nothing. */
  lemma WriteKeepsStore(p: string, s: State, s': State, name: string)
    requires Inv(p, s) && IsTop(s.store, name) && s'.tenant == s.tenant && name in s'.store
    requires s'.store == s.store[name := s'.store[name]]
    requires s'.store[name].pkg == p && s'.store[name].number == s.store[name].number
    ensures StoreInv(p, s'.store) && IsTop(s'.store, name)
    ensures Dense(s.store) ==> Dense(s'.store)
  {
    ReplaceRevision(p, s.store, name, s'.store[name]);
    if Dense(s.store) { ReplaceKeepsDense(s.store, name, s'.store[name]); }
  }

  lemma HoldingKeepsInv(p: string, s: State, c: Call)
    requires Inv(p, s) && s.pc.Holding? && DoHolding(s, c).Some?
    ensures Inv(p, DoHolding(s, c).value)
  {
    if c.WriteResources? || c.Propose? || c.Approve? {
      WriteKeepsInv(p, s, c);
    } else {
      ReadOnlyKeepsInv(p, s, c);
    }
  }

  /** The calls that only read. */
  lemma ReadOnlyShape(s: State, c: Call)
    requires s.pc.Holding? && s.pc.pr.name in s.store && InHand(s.store, s.pc) && DoHolding(s, c).Some?
    requires !c.WriteResources? && !c.Propose? && !c.Approve?
    ensures var s' := DoHolding(s, c).value;
            && s'.store == s.store && s'.tenant == s.tenant
            && (s'.pc == Idle || (s'.pc.Holding? && s'.pc.pr.name == s.pc.pr.name && InHand(s.store, s'.pc)))
  {
    if c == Compare { CompareShape(s.store, s.pc); }
  }

  lemma CompareShape(store: Store, pc: PC)
    requires pc.Holding? && pc.stage == Comparing && pc.pr.name in store && InHand(store, pc)
    ensures var pc' := Compared(pc);
            pc' == Idle || (pc'.Holding? && pc'.pr == pc.pr && InHand(store, pc'))
  {
  }

  lemma ReadOnlyKeepsInv(p: string, s: State, c: Call)
    requires Inv(p, s) && s.pc.Holding? && DoHolding(s, c).Some?
    requires !c.WriteResources? && !c.Propose? && !c.Approve?
    ensures Inv(p, DoHolding(s, c).value)
  {
    ReadOnlyShape(s, c);
    var s' := DoHolding(s, c).value;
    assert PcInv(s') && TenantInv(s');
  }

  /** The state after a write to the revision in hand. */
  lemma AfterWrite(p: string, s: State, r: Revision, pc: PC)
    requires Inv(p, s) && s.pc.Holding? && pc.Holding?
    requires r.pkg == p && r.number == s.pc.pr.number
    requires pc.pr.(lifecycle := r.lifecycle) == Handle(s.pc.pr.name, p, r.number, r.lifecycle)
    requires pc.stage != Reporting ==> pc.pr.lifecycle == r.lifecycle
    requires StageFits(pc.stage, r.lifecycle) && (pc.stage == Comparing || pc.stage == Writing ==> pc.files == r.files)
    ensures Inv(p, s.(store := s.store[s.pc.pr.name := r], pc := pc))
  {
    var name := s.pc.pr.name;
    var s' := s.(store := s.store[name := r], pc := pc);
    WriteKeepsStore(p, s, s', name);
    assert Remembers(s'.store, pc.stage, pc.pr);
    assert PcInv(s') && TenantInv(s');
  }

  lemma WriteKeepsInv(p: string, s: State, c: Call)
    requires Inv(p, s) && s.pc.Holding? && DoHolding(s, c).Some?
    requires c.WriteResources? || c.Propose? || c.Approve?
    ensures Inv(p, DoHolding(s, c).value)
  {
    var s' := DoHolding(s, c).value;
    AfterWrite(p, s, s'.store[s.pc.pr.name], s'.pc);
  }

  lemma RemoveFinalizerKeepsInv(p: string, s: State)
    requires Inv(p, s) && Do(p, s, RemoveFinalizer).Some?
    ensures s.store == map[]
    ensures Inv(p, Do(p, s, RemoveFinalizer).value)
  {
    NoElements(s.pc.todo);
    assert s.store.Keys == {} && s.store == map[];
  }

  lemma DoKeepsInv(p: string, s: State, c: Call)
    requires Inv(p, s) && Trusted(s, c) && Do(p, s, c).Some?
    ensures Inv(p, Do(p, s, c).value)
  {
    match c
    case CreateRevision(_, _) =>
      if s.pc.CreatingFirst? { CreateFirstKeepsInv(p, s, c); } else { CreateNextKeepsInv(p, s, c); }
    case ListDoomed(_) => ListKeepsInv(p, s, c);
    case ListRevisions(_) => ListKeepsInv(p, s, c);
    case DeleteRevision => DeleteKeepsInv(p, s);
    case RemoveFinalizer => RemoveFinalizerKeepsInv(p, s);
    case ReadResources | Compare | WriteResources | GetDraft | Propose | CheckApproval | Approve | Report =>
      HoldingKeepsInv(p, s, c);
    case CreateTenant | MarkDeleted | GetTenant | AddFinalizer | BuildPackage(_) =>
      TenantCallKeepsInv(p, s, c);
  }

  lemma TenantCallKeepsInv(p: string, s: State, c: Call)
    requires Inv(p, s) && Do(p, s, c).Some?
    requires c.CreateTenant? || c.MarkDeleted? || c.GetTenant? || c.AddFinalizer? || c.BuildPackage?
    ensures Inv(p, Do(p, s, c).value)
  {
    assert Do(p, s, c).value.store == s.store;
  }

  lemma CutKeepsInv(p: string, s: State)
    requires Inv(p, s)
    ensures Inv(p, s.(pc := Idle))
  {
  }

  /** Every step keeps the invariant: answered, failed or lost. */
  lemma StepKeepsInv(p: string, s: State, e: Event)
    requires Inv(p, s) && TrustedEvent(s, e) && Step(p, s, e).Some?
    ensures Inv(p, Step(p, s, e).value)
  {
    if e.answer != Failed {
      DoKeepsInv(p, s, e.call);
      CutKeepsInv(p, Do(p, s, e.call).value);
    } else {
      CutKeepsInv(p, s);
    }
  }

  /** So does every run. */
  lemma {:induction false} RunKeepsInv(p: string, s: State, evs: seq<Event>)
    requires Inv(p, s) && TrustedRun(p, s, evs)
    ensures Run(p, s, evs).Some? && Inv(p, Run(p, s, evs).value)
    decreases |evs|
  {
    if evs != [] {
      StepKeepsInv(p, s, evs[0]);
      RunKeepsInv(p, Step(p, s, evs[0]).value, evs[1..]);
    }
  }

  /** From the first event on, at every moment of every run: numbers are distinct, at most one
      revision is a Draft and it is the highest, and as long as the tenant is not marked for
      deletion the numbers are exactly 1 to the number of revisions. */
  lemma EveryRunIsSafe(p: string, evs: seq<Event>)
    requires TrustedRun(p, INITIAL, evs)
    ensures Run(p, INITIAL, evs).Some?
    ensures var s := Run(p, INITIAL, evs).value;
            && DistinctNumbers(s.store) && AtMostOneDraft(s.store)
            && (forall n :: n in s.store && s.store[n].lifecycle == Draft ==> IsTop(s.store, n))
            && (s.tenant.Present? && !s.tenant.deleting
                ==> forall k: nat :: HasNumber(s.store, k) <==> 1 <= k <= |s.store|)
  {
    InitialInv(p);
    RunKeepsInv(p, INITIAL, evs);
  }

  ghost predicate DistinctNumbers(store: Store) {
    forall n, m :: n in store && m in store && store[n].number == store[m].number ==> n == m
  }

  ghost predicate AtMostOneDraft(store: Store) {
    forall n, m :: n in store && m in store && store[n].lifecycle == store[m].lifecycle == Draft ==> n == m
  }

  // ---------- what a revision can become ----------

  function Rank(l: Lifecycle): nat {
    match l
    case Draft => 0
    case Proposed => 1
    case Published => 2
  }

  /** Package and number never change, the lifecycle only moves forward, and the files of a revision
      that is no longer a Draft are final. */
  predicate Evolves(a: Revision, b: Revision) {
    && a.pkg == b.pkg && a.number == b.number
    && Rank(a.lifecycle) <= Rank(b.lifecycle)
    && (a.lifecycle != Draft ==> a.files == b.files)
  }

  lemma OnlyTheOneInHand(p: string, s: State, c: Call, n: string)
    requires Do(p, s, c).Some? && n in s.store && n in Do(p, s, c).value.store
    ensures Do(p, s, c).value.store[n] == s.store[n]
            || (s.pc.Holding? && n == s.pc.pr.name && DoHolding(s, c) == Do(p, s, c))
  {
  }

  lemma HoldingEvolves(s: State, c: Call)
    requires s.pc.Holding? && s.pc.pr.name in s.store && InHand(s.store, s.pc) && DoHolding(s, c).Some?
    ensures s.pc.pr.name in DoHolding(s, c).value.store
    ensures Evolves(s.store[s.pc.pr.name], DoHolding(s, c).value.store[s.pc.pr.name])
  {
  }

  lemma DoEvolves(p: string, s: State, c: Call, n: string)
    requires Inv(p, s) && Do(p, s, c).Some?
    requires n in s.store && n in Do(p, s, c).value.store
    ensures Evolves(s.store[n], Do(p, s, c).value.store[n])
    ensures !IsTop(s.store, n) ==> Do(p, s, c).value.store[n] == s.store[n]
  {
    OnlyTheOneInHand(p, s, c, n);
    if Do(p, s, c).value.store[n] != s.store[n] {
      HoldingEvolves(s, c);
    }
  }

  /** No step of any run writes the files of a Proposed or Published revision or moves a lifecycle
      backwards, and no step writes any revision but the highest. */
  lemma StepEvolves(p: string, s: State, e: Event, n: string)
    requires Inv(p, s) && Step(p, s, e).Some?
    requires n in s.store && n in Step(p, s, e).value.store
    ensures Evolves(s.store[n], Step(p, s, e).value.store[n])
    ensures !IsTop(s.store, n) ==> Step(p, s, e).value.store[n] == s.store[n]
  {
    if e.answer != Failed { DoEvolves(p, s, e.call, n); }
  }

  /** The revision is in the store at every moment of the run. */
  ghost predicate Survives(p: string, s: State, evs: seq<Event>, n: string)
    decreases |evs|
  {
    n in s.store && (evs == [] || (Step(p, s, evs[0]).Some? && Survives(p, Step(p, s, evs[0]).value, evs[1..], n)))
  }

  /** Over whole runs: once Proposed, a revision's files stay the same until it is deleted. */
  lemma {:induction false} RunEvolves(p: string, s: State, evs: seq<Event>, n: string)
    requires Inv(p, s) && TrustedRun(p, s, evs) && Survives(p, s, evs, n)
    ensures Run(p, s, evs).Some? && n in Run(p, s, evs).value.store
    ensures Evolves(s.store[n], Run(p, s, evs).value.store[n])
    decreases |evs|
  {
    if evs != [] {
      var s' := Step(p, s, evs[0]).value;
      StepKeepsInv(p, s, evs[0]);
      assert n in s'.store;
      StepEvolves(p, s, evs[0], n);
      RunEvolves(p, s', evs[1..], n);
    }
  }

  /** A higher revision is there, so this one is not the highest. */
  ghost predicate IsSuperseded(store: Store, n: string) {
    n in store && exists m :: m in store && store[m].number > store[n].number
  }

  predicate NoDeletion(evs: seq<Event>) {
    forall i :: 0 <= i < |evs| ==> !evs[i].call.DeleteRevision?
  }

  lemma StepKeepsNames(p: string, s: State, e: Event, n: string)
    requires Step(p, s, e).Some? && !e.call.DeleteRevision? && n in s.store
    ensures n in Step(p, s, e).value.store
  {
  }

  lemma StepKeepsSuperseded(p: string, s: State, e: Event, n: string)
    requires Inv(p, s) && Step(p, s, e).Some? && !e.call.DeleteRevision? && IsSuperseded(s.store, n)
    ensures IsSuperseded(Step(p, s, e).value.store, n)
    ensures Step(p, s, e).value.store[n] == s.store[n]
  {
    var m :| m in s.store && s.store[m].number > s.store[n].number;
    StepKeepsNames(p, s, e, n);
    StepKeepsNames(p, s, e, m);
    StepEvolves(p, s, e, n);
    StepEvolves(p, s, e, m);
    assert !IsTop(s.store, n);
  }

  /** A superseded revision is left exactly as it is until a deletion: one that was superseded while
      Proposed stays Proposed. */
  lemma {:induction false} SupersededForever(p: string, s: State, evs: seq<Event>, n: string)
    requires Inv(p, s) && TrustedRun(p, s, evs) && NoDeletion(evs) && IsSuperseded(s.store, n)
    ensures Run(p, s, evs).Some? && n in Run(p, s, evs).value.store
    ensures Run(p, s, evs).value.store[n] == s.store[n]
    decreases |evs|
  {
    if evs != [] {
      StepKeepsInv(p, s, evs[0]);
      StepKeepsSuperseded(p, s, evs[0], n);
      SupersededForever(p, Step(p, s, evs[0]).value, evs[1..], n);
    }
  }

  // ---------- why the server must be trusted ----------

  lemma NotFoundCreatesFirst(p: string, s: State, name: string, content: Files)
    requires s.pc.Listing? && name != "" && name !in s.store
    ensures var s' := Run(p, s, [Event(ListRevisions(NotFound), Done), Event(CreateRevision(name, content), Done)]);
            s'.Some? && s'.value.store == s.store[name := Revision(p, 1, Draft, content)]
  {
    var list, create := Event(ListRevisions(NotFound), Done), Event(CreateRevision(name, content), Done);
    assert [list, create][1..] == [create];
    RunOne(p, Step(p, s, list).value, create);
  }

  /** A list of revisions answered with NotFound is taken for an empty one, and `v1` is created. The
      numbers stay distinct exactly when the package really had no revision. */
  lemma NotFoundIsSafeIff(p: string, s: State, name: string, content: Files)
    requires Inv(p, s) && s.pc.Listing? && name != "" && name !in s.store
    ensures var evs := [Event(ListRevisions(NotFound), Done), Event(CreateRevision(name, content), Done)];
            && Run(p, s, evs).Some?
            && (StoreInv(p, Run(p, s, evs).value.store) <==> s.store == map[])
  {
    NotFoundCreatesFirst(p, s, name, content);
    var store' := s.store[name := Revision(p, 1, Draft, content)];
    if s.store != map[] {
      FirstIsThere(s.store);
      var m :| m in s.store && s.store[m].number == 1;
      assert m in store' && m != name && store'[m].number == store'[name].number;
    }
  }

  lemma FirstIsThere(store: Store)
    requires Dense(store) && store != map[]
    ensures HasNumber(store, 1)
  {
    var n :| n in store;
    assert |store| >= 1 by { assert n in store.Keys && |store.Keys| == |store|; }
  }

  /** The same answer to the deletion run lets it drop the finalizer at once: the tenant goes, and
      no revision remains exactly when there was none. */
  lemma NotFoundLeavesRevisions(p: string, s: State)
    requires Inv(p, s) && s.pc == ListingDoomed
    ensures var evs := [Event(ListDoomed(NotFound), Done), Event(RemoveFinalizer, Done)];
            Run(p, s, evs) == Some(State(s.store, Gone, Idle))
  {
    var list, remove := Event(ListDoomed(NotFound), Done), Event(RemoveFinalizer, Done);
    assert [list, remove][1..] == [remove];
    RunOne(p, Step(p, s, list).value, remove);
  }

  /** Creating the next revision of a full package wraps its number to zero: the numbers stay
      positive exactly below 2^64 - 1 revisions. */
  lemma CapacityIsNeeded(p: string, s: State, name: string, content: Files)
    requires Inv(p, s) && s.pc.Holding? && s.pc.stage == CreatingNext && name != "" && name !in s.store
    ensures Do(p, s, CreateRevision(name, content)).Some?
    ensures StoreInv(p, Do(p, s, CreateRevision(name, content)).value.store) <==> |s.store| < TWO_64 - 1
  {
    var c := CreateRevision(name, content);
    if |s.store| < TWO_64 - 1 {
      CreateNextKeepsInv(p, s, c);
    } else {
      TopNumber(p, s.store, s.pc.pr.name);
      var store' := Do(p, s, c).value.store;
      var taken := NextIsTaken(s.store);
      assert name in store' && store'[name].number == Next(|s.store|);
      assert taken != "" ==> taken in store' && taken != name && store'[taken] == s.store[taken];
    }
  }

  /** With 2^64 - 1 revisions or more the next number is already taken or not positive. */
  lemma NextIsTaken(store: Store) returns (taken: string)
    requires Dense(store) && |store| >= TWO_64 - 1 && "" !in store
    ensures (Next(|store|) == 0 && taken == "") || (taken in store && taken != "" && store[taken].number == Next(|store|))
  {
    var k := Next(|store|);
    taken := "";
    if k != 0 {
      assert HasNumber(store, k);
      taken :| taken in store && store[taken].number == k;
    }
  }
}
