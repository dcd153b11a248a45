/** The reconcile protocol of one tenant as a step machine over the package store
    (internal/controllers/tenant/reconciler.go, pkg/pkgrev/pkgrev.go).

    Every call to Porch or to the Kubernetes API is one step. A call is answered, fails without
    effect, or takes effect while its answer is lost; the last two end the run, and the next run
    starts again from the store. Local computation happens in the step that precedes it, except
    the comparison of packages, which is a step of its own because it can fail by itself.

    A revision is known here by the number its revision string reads as; the classes in PkgRev keep
    the strings. */
module Protocol {
  import opened Options
  import opened Strings
  import opened Numerals
  import opened Documents
  import opened PkgUtil
  import opened SliceScan

  // ---------- the store ----------

  datatype Lifecycle = Draft | Proposed | Published

  datatype Revision = Revision(pkg: string, number: nat, lifecycle: Lifecycle, files: Files)

  /** Porch's package revisions by object name. */
  type Store = map<string, Revision>

  /** The number after `n`, in the uint64 arithmetic of `getNewRevision`. */
  function Next(n: nat): nat {
    (n + 1) % TWO_64
  }

  /** What a client holds of a revision: its metadata, not its files. */
  datatype Handle = Handle(name: string, pkg: string, number: nat, lifecycle: Lifecycle)

  function HandleOf(store: Store, name: string): Handle
    requires name in store
  {
    Handle(name, store[name].pkg, store[name].number, store[name].lifecycle)
  }

  /** The zero value of the Go struct. */
  const NO_HANDLE: Handle := Handle("", "", 0, Draft)

  // ---------- the tenant ----------

  /** The tenant object in the Kubernetes API: gone, or there with its deletion mark and finalizer. */
  datatype Tenant = Gone | Present(deleting: bool, finalizer: bool)

  /** Where a live run is once a package revision is selected. */
  datatype Stage =
    | ReadLatest | Comparing | CreatingNext | ReadNew | Writing
    | GettingDraft | Proposing | CheckingApproval | Approving | Reporting

  datatype PC =
    | Idle
    | Begun(deletion: bool)
    | ListingDoomed | Deleting(todo: seq<string>)
    | Building
    | Listing(want: seq<Node>)
    | CreatingFirst(want: seq<Node>)
    | Holding(stage: Stage, want: seq<Node>, pr: Handle, files: Files)

  datatype State = State(store: Store, tenant: Tenant, pc: PC)

  // ---------- the calls ----------

  /** A list of package revisions in server order, or the NotFound error that the code treats as an
      empty list. */
  datatype ListAnswer = Items(order: seq<string>) | NotFound

  datatype Call =
    | CreateTenant | MarkDeleted
    | GetTenant | AddFinalizer
    | ListDoomed(doomed: ListAnswer) | DeleteRevision | RemoveFinalizer
    | BuildPackage(desired: seq<Node>)
    | ListRevisions(answer: ListAnswer)
    | CreateRevision(name: string, content: Files)
    | ReadResources | Compare | WriteResources
    | GetDraft | Propose | CheckApproval | Approve
    | Report

  datatype Answer = Done | Failed | Lost

  datatype Event = Event(call: Call, answer: Answer)

  predicate IsUserCall(c: Call) {
    c.CreateTenant? || c.MarkDeleted?
  }

  /** All calls of the operator, and all answered. */
  predicate FaultFree(evs: seq<Event>) {
    forall i :: 0 <= i < |evs| ==> evs[i].answer == Done && !IsUserCall(evs[i].call)
  }

  /** The last call was a comparison, which was made. */
  predicate EndsInCompare(evs: seq<Event>) {
    evs != [] && evs[|evs| - 1] == Event(Compare, Done)
  }

  // ---------- selecting a revision ----------

  /** The revisions of package `p` among those listed, in list order. */
  function Matching(p: string, store: Store, order: seq<string>): seq<string> {
    if order == [] then []
    else (if order[0] in store && store[order[0]].pkg == p then [order[0]] else [])
         + Matching(p, store, order[1..])
  }

  /** The revision with the largest number, the first such on ties: `best` unless a later one has a
      strictly larger number. */
  function LatestFrom(store: Store, names: seq<string>, best: Handle, bestNumber: nat): Handle {
    if names == [] then best
    else if names[0] in store && store[names[0]].number > bestNumber then
      LatestFrom(store, names[1..], HandleOf(store, names[0]), store[names[0]].number)
    else LatestFrom(store, names[1..], best, bestNumber)
  }

  function Latest(store: Store, names: seq<string>): Handle {
    LatestFrom(store, names, NO_HANDLE, 0)
  }

  ghost predicate IsListing(order: seq<string>, store: Store) {
    ListingOf(order, store.Keys)
  }

  // ---------- one step ----------

  /** The first stage of approval, by the lifecycle the client holds. */
  function ApprovalStage(l: Lifecycle): Stage {
    match l
    case Draft => GettingDraft
    case Proposed => CheckingApproval
    case Published => Reporting
  }

  function Moved(stage: Stage, pc: PC): PC
    requires pc.Holding?
  {
    pc.(stage := stage)
  }

  /** The names to delete. */
  ghost function Doomed(p: string, store: Store, a: ListAnswer): seq<string> {
    match a
    case Items(order) => Matching(p, store, order)
    case NotFound => []
  }

  ghost predicate PossibleAnswer(a: ListAnswer, store: Store) {
    a.Items? ==> IsListing(a.order, store)
  }

  /** What an answered call does; None when the call cannot be answered so in this state. */
  ghost function Do(p: string, s: State, c: Call): Option<State> {
    match c
    case CreateTenant =>
      if s.tenant.Gone? then Some(s.(tenant := Present(false, false))) else None
    case MarkDeleted =>
      if s.tenant.Gone? then None
      else Some(s.(tenant := if s.tenant.finalizer then Present(true, true) else Gone))
    case GetTenant =>
      if s.pc != Idle then None
      else if s.tenant.Gone? then Some(s)
      else Some(s.(pc := Begun(s.tenant.deleting)))
    case AddFinalizer =>
      if s.pc.Begun? && s.tenant.Present? then
        Some(s.(tenant := s.tenant.(finalizer := true), pc := if s.pc.deletion then ListingDoomed else Building))
      else None
    case ListDoomed(a) =>
      if s.pc == ListingDoomed && PossibleAnswer(a, s.store)
      then Some(s.(pc := Deleting(Doomed(p, s.store, a))))
      else None
    case DeleteRevision =>
      if s.pc.Deleting? && s.pc.todo != [] && s.pc.todo[0] in s.store then
        Some(s.(store := s.store - {s.pc.todo[0]}, pc := Deleting(s.pc.todo[1..])))
      else None
    case RemoveFinalizer =>
      if s.pc == Deleting([]) && s.tenant.Present?
      then Some(s.(tenant := if s.tenant.deleting then Gone else Present(false, false), pc := Idle))
      else None
    case BuildPackage(want) =>
      if s.pc == Building then Some(s.(pc := Listing(want))) else None
    case ListRevisions(a) =>
      if s.pc.Listing? && PossibleAnswer(a, s.store) then
        var latest := Latest(s.store, Doomed(p, s.store, a));
        Some(s.(pc := if latest.name == "" then CreatingFirst(s.pc.want)
                      else Holding(ReadLatest, s.pc.want, latest, map[])))
      else None
    case CreateRevision(name, content) =>
      if name == "" || name in s.store then None
      else if s.pc.CreatingFirst? then
        var r := Revision(p, 1, Draft, content);
        Some(s.(store := s.store[name := r],
                pc := Holding(ReadLatest, s.pc.want, Handle(name, p, 1, Draft), map[])))
      else if s.pc.Holding? && s.pc.stage == CreatingNext then
        var r := Revision(p, Next(s.pc.pr.number), Draft, content);
        Some(s.(store := s.store[name := r],
                pc := Holding(ReadNew, s.pc.want, Handle(name, p, r.number, Draft), s.pc.files)))
      else None
    case _ => if s.pc.Holding? then DoHolding(s, c) else None
  }

  /** The calls about the revision that the run holds. */
  ghost function DoHolding(s: State, c: Call): Option<State>
    requires s.pc.Holding?
  {
    var pr := s.pc.pr;
    if c == Report && s.pc.stage == Reporting then Some(s.(pc := Idle))
    else if c == Compare && s.pc.stage == Comparing then Some(s.(pc := Compared(s.pc)))
    else if pr.name !in s.store then None
    else
      match (c, s.pc.stage)
      case (ReadResources, ReadLatest) =>
        Some(s.(pc := Moved(Comparing, s.pc).(files := s.store[pr.name].files)))
      case (ReadResources, ReadNew) =>
        Some(s.(pc := Moved(Writing, s.pc).(files := s.store[pr.name].files)))
      case (WriteResources, Writing) =>
        var files := Overlay(s.pc.files, s.pc.want);
        Some(s.(store := s.store[pr.name := s.store[pr.name].(files := files)],
                pc := Moved(ApprovalStage(pr.lifecycle), s.pc).(files := files)))
      case (GetDraft, GettingDraft) =>
        Some(s.(pc := Moved(Proposing, s.pc).(pr := HandleOf(s.store, pr.name))))
      case (Propose, Proposing) =>
        Some(s.(store := s.store[pr.name := Revision(pr.pkg, pr.number, Proposed, s.store[pr.name].files)],
                pc := Moved(CheckingApproval, s.pc).(pr := pr.(lifecycle := Proposed))))
      case (CheckApproval, CheckingApproval) =>
        Some(s.(pc := match s.store[pr.name].lifecycle
                      case Proposed => Moved(Approving, s.pc)
                      case Published => Moved(Reporting, s.pc)
                      case Draft => Idle))
      case (Approve, Approving) =>
        Some(s.(store := s.store[pr.name := s.store[pr.name].(lifecycle := Published)], pc := Moved(Reporting, s.pc)))
      case _ => None
  }

  /** The verdict of `IsEqual` on the wanted documents and those in a package's files. */
  ghost function CompareWith(want: seq<Node>, files: Files): Option<Verdict> {
    match Read(files)
    case None => None
    case Some(actual) => Some(IsEqualVerdict(Map(Cleared, want), Map(Cleared, actual)))
  }

  /** Where the comparison leads: a package that does not parse and a panic both end the run. */
  ghost function Compared(pc: PC): PC
    requires pc.Holding?
  {
    match CompareWith(pc.want, pc.files)
    case None => Idle
    case Some(Panic) => Idle
    case Some(Answer(true)) => Moved(ApprovalStage(pc.pr.lifecycle), pc)
    case Some(Answer(false)) => Moved(if pc.pr.lifecycle != Draft then CreatingNext else Writing, pc)
  }

  /** One step of the machine for package `p`. */
  ghost function Step(p: string, s: State, e: Event): Option<State> {
    if IsUserCall(e.call) then (if e.answer == Done then Do(p, s, e.call) else None)
    else
      match e.answer
      case Done => Do(p, s, e.call)
      case Failed => Some(s.(pc := Idle))
      case Lost =>
        match Do(p, s, e.call)
        case None => None
        case Some(s') => Some(s'.(pc := Idle))
  }

  ghost function Run(p: string, s: State, evs: seq<Event>): Option<State>
    decreases |evs|
  {
    if evs == [] then Some(s)
    else
      match Step(p, s, evs[0])
      case None => None
      case Some(s') => Run(p, s', evs[1..])
  }

  lemma {:induction false} RunAppend(p: string, s: State, a: seq<Event>, b: seq<Event>)
    requires Run(p, s, a).Some?
    ensures Run(p, s, a + b) == Run(p, Run(p, s, a).value, b)
    decreases |a|
  {
    if a == [] {
      assert a + b == b;
    } else {
      assert (a + b)[1..] == a[1..] + b;
      RunAppend(p, Step(p, s, a[0]).value, a[1..], b);
    }
  }

  /** Lists are answered with NotFound only when there is nothing to list. */
  ghost predicate TruthfulRun(p: string, s: State, evs: seq<Event>)
    decreases |evs|
  {
    evs == []
    || ((evs[0].call == ListRevisions(NotFound) || evs[0].call == ListDoomed(NotFound) ==> s.store == map[])
        && Step(p, s, evs[0]).Some? && TruthfulRun(p, Step(p, s, evs[0]).value, evs[1..]))
  }

  lemma {:induction false} TruthfulAppend(p: string, s: State, a: seq<Event>, b: seq<Event>)
    requires TruthfulRun(p, s, a) && Run(p, s, a).Some? && TruthfulRun(p, Run(p, s, a).value, b)
    ensures TruthfulRun(p, s, a + b)
    decreases |a|
  {
    if a == [] {
      assert a + b == b;
    } else {
      assert (a + b)[1..] == a[1..] + b;
      TruthfulAppend(p, Step(p, s, a[0]).value, a[1..], b);
    }
  }

  lemma TruthfulCons(p: string, s: State, e: Event, s': State, rest: seq<Event>)
    requires e.call == ListRevisions(NotFound) || e.call == ListDoomed(NotFound) ==> s.store == map[]
    requires Step(p, s, e) == Some(s') && TruthfulRun(p, s', rest)
    ensures TruthfulRun(p, s, [e] + rest)
  {
    assert ([e] + rest)[1..] == rest;
  }

  lemma TruthfulOne(p: string, s: State, e: Event)
    requires Step(p, s, e).Some? && !e.call.ListRevisions? && !e.call.ListDoomed?
    ensures TruthfulRun(p, s, [e])
  {
    assert [e][1..] == [];
  }

  lemma RunOne(p: string, s: State, e: Event)
    ensures Run(p, s, [e]) == Step(p, s, e)
  {
    assert [e][1..] == [];
  }
}
