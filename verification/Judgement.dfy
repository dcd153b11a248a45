/** What the files of a package hold, and what runs keep of it: the comparison with the highest
    revision stays right where it was right. */
module Judgement {
  import opened Options
  import opened Strings
  import opened Documents
  import opened PkgUtil
  import opened SliceScan
  import opened LookUp
  import opened Protocol
  import opened Safety
  import opened Quiescence

  // ---------- files and documents ----------

  /** Files whose documents can be read and differ from each other, annotations aside. */
  ghost predicate Readable(files: Files) {
    Read(files).Some? && NoDuplicates(Map(Cleared, Read(files).value))
  }

  /** A package to aim for: its documents differ, annotations aside, and each goes to a KRM file. */
  ghost predicate Wanted(want: seq<Node>) {
    NoDuplicates(Map(Cleared, want)) && AllIncluded(want)
  }

  /** The files hold exactly the wanted documents, annotations aside. */
  ghost predicate SameDocuments(want: seq<Node>, files: Files) {
    Read(files).Some? && multiset(Map(Cleared, want)) == multiset(Map(Cleared, Read(files).value))
  }

  /** The same documents to aim for, in any order and with any annotations. */
  predicate SameWant(a: seq<Node>, b: seq<Node>) {
    multiset(Map(Cleared, a)) == multiset(Map(Cleared, b))
  }

  /** Files that hold distinct documents are readable. */
  lemma HoldsWantedIsReadable(want: seq<Node>, files: Files)
    requires NoDuplicates(Map(Cleared, want)) && SameDocuments(want, files)
    ensures Readable(files)
  {
    SameMultisetSameDuplicates(Map(Cleared, want), Map(Cleared, Read(files).value));
  }

  /** What is written can be read back, and is what was wanted. */
  lemma WriteWanted(want: seq<Node>, files: Files)
    requires Wanted(want)
    ensures Readable(Overlay(files, want)) && SameDocuments(want, Overlay(files, want))
  {
    WrittenDocumentsReadBack(files, want);
    SameMultisetSameDuplicates(Map(Cleared, want), Map(Cleared, Read(Overlay(files, want)).value));
  }

  // ---------- right judgements ----------

  /** The comparison answers, and answers rightly. */
  ghost predicate Judged(want: seq<Node>, files: Files) {
    CompareWith(want, files) == Some(Answer(SameDocuments(want, files)))
  }

  /** It does so in whatever order the same documents are wanted. */
  ghost predicate JudgedFor(files: Files, want: seq<Node>) {
    forall w :: SameWant(w, want) ==> Judged(w, files)
  }

  /** On readable files the comparison is right. */
  lemma CompareReadable(want: seq<Node>, files: Files)
    requires Readable(files)
    ensures Judged(want, files)
  {
    var actual := Map(Cleared, Read(files).value);
    IsEqualIsLookUps(Map(Cleared, want), actual);
    DistinctIsDecided(Map(Cleared, want), actual);
  }

  lemma ReadableIsJudged(files: Files, want: seq<Node>)
    requires Readable(files)
    ensures JudgedFor(files, want)
  {
    forall w | SameWant(w, want) ensures Judged(w, files) { CompareReadable(w, files); }
  }

  /** For distinct wanted documents a no is always right. */
  lemma NoIsRight(want: seq<Node>, files: Files)
    requires NoDuplicates(Map(Cleared, want)) && CompareWith(want, files) == Some(Answer(false))
    ensures !SameDocuments(want, files)
  {
    if SameDocuments(want, files) {
      SameMultisetSameDuplicates(Map(Cleared, want), Map(Cleared, Read(files).value));
      CompareReadable(want, files);
    }
  }

  /** So the comparison is right exactly when the files parse, nothing panics, and a yes is not given
      to other documents. */
  lemma JudgedIff(want: seq<Node>, files: Files)
    requires NoDuplicates(Map(Cleared, want))
    ensures Judged(want, files)
            <==> Read(files).Some? && CompareWith(want, files) != Some(Panic)
                 && (Accepts(want, files) ==> SameDocuments(want, files))
  {
    if CompareWith(want, files) == Some(Answer(false)) { NoIsRight(want, files); }
    CompareAnswers(want, files);
    VerdictCases(CompareWith(want, files), SameDocuments(want, files));
  }

  lemma CompareAnswers(want: seq<Node>, files: Files)
    ensures CompareWith(want, files).Some? <==> Read(files).Some?
  {
  }

  lemma VerdictCases(verdict: Option<Verdict>, same: bool)
    requires verdict == Some(Answer(false)) ==> !same
    ensures verdict == Some(Answer(same))
            <==> verdict.Some? && verdict != Some(Panic) && (verdict == Some(Answer(true)) ==> same)
  {
    match verdict
    case None =>
    case Some(Panic) =>
    case Some(Answer(equal)) => assert equal == true || equal == false;
  }

  /** And the same said of the documents alone: they are distinct, or no element runs out and they are
      not taken for the wanted ones. */
  lemma JudgedByDocuments(want: seq<Node>, files: Files)
    requires NoDuplicates(Map(Cleared, want)) && Read(files).Some?
    ensures var wanted, actual := Map(Cleared, want), Map(Cleared, Read(files).value);
            Judged(want, files)
            <==> NoDuplicates(actual)
                 || (!(SameElements(wanted, actual) && AllSpaced(wanted, actual))
                     && forall w :: 0 <= w < |wanted| ==> !RunsOutAt(wanted, actual, w))
  {
    var wanted, actual := Map(Cleared, want), Map(Cleared, Read(files).value);
    IsEqualIsLookUps(wanted, actual);
    DistinctYesIff(wanted, actual);
    DistinctPanicIff(wanted, actual);
    JudgedIff(want, files);
    if NoDuplicates(actual) {
      CompareReadable(want, files);
    } else if SameDocuments(want, files) {
      SameMultisetSameDuplicates(wanted, actual);
    }
  }

  lemma {:induction false} ClearedFixed(s: seq<Node>)
    requires forall i :: 0 <= i < |s| ==> Cleared(s[i]) == s[i]
    ensures Map(Cleared, s) == s
  {
  }

  /** Readable is exactly the condition for every wanted list: the comparison with a package is always
      right if and only if the package parses and its documents differ, annotations aside. */
  lemma CompareCorrectIff(files: Files)
    ensures Readable(files) <==> forall want: seq<Node> :: Judged(want, files)
  {
    if Readable(files) {
      forall want: seq<Node> ensures Judged(want, files) { CompareReadable(want, files); }
    } else {
      var want := MisjudgedWant(files);
      assert !Judged(want, files);
    }
  }

  lemma MisjudgedWant(files: Files) returns (want: seq<Node>)
    requires !Readable(files)
    ensures !Judged(want, files)
  {
    want := [];
    if Read(files).Some? { want := MisjudgedList(Map(Cleared, Read(files).value)); }
  }

  lemma MisjudgedList(actual: seq<Node>) returns (want: seq<Node>)
    requires !NoDuplicates(actual) && forall i :: 0 <= i < |actual| ==> Cleared(actual[i]) == actual[i]
    ensures multiset(Map(Cleared, want)) == multiset(actual)
    ensures IsEqualVerdict(Map(Cleared, want), actual) != Answer(true)
  {
    var i, j :| 0 <= i < j < |actual| && actual[i] == actual[j];
    want := BadOrder(actual, actual[i]);
    BadOrderFails(actual, i, j);
    forall k | 0 <= k < |want| ensures Cleared(want[k]) == want[k] {
      assert want[k] in multiset(want);
      assert want[k] in multiset(actual);
    }
    ClearedFixed(want);
  }

  // ---------- the package a run is about ----------

  /** The package a run aims at, from where it is built on. */
  function PackageOf(pc: PC): Option<seq<Node>> {
    match pc
    case Listing(w) => Some(w)
    case CreatingFirst(w) => Some(w)
    case Holding(_, w, _, _) => Some(w)
    case _ => None
  }

  lemma HoldingKeepsPackage(s: State, c: Call)
    requires s.pc.Holding? && DoHolding(s, c).Some?
    ensures var pc := DoHolding(s, c).value.pc; pc == Idle || (pc.Holding? && pc.want == s.pc.want)
  {
  }

  lemma DoKeepsPackage(p: string, s: State, c: Call)
    requires Do(p, s, c).Some?
    ensures var after := PackageOf(Do(p, s, c).value.pc);
            after == None || after == PackageOf(s.pc) || (c.BuildPackage? && after == Some(c.desired))
  {
    if s.pc.Holding? && DoHolding(s, c).Some? { HoldingKeepsPackage(s, c); }
  }

  /** The run aims at a package that can be aimed for. */
  ghost predicate AimsWell(pc: PC) {
    PackageOf(pc).Some? ==> Wanted(PackageOf(pc).value)
  }

  /** The run aims at these documents. */
  predicate HasWant(pc: PC, want: seq<Node>) {
    PackageOf(pc).Some? ==> SameWant(PackageOf(pc).value, want)
  }

  /** The inputs of a run: packages to aim for, and new drafts whose initial files are readable. */
  ghost predicate Admissible(c: Call) {
    match c
    case BuildPackage(want) => Wanted(want)
    case CreateRevision(_, content) => Readable(content)
    case _ => true
  }

  /** A call that failed had no input. */
  ghost predicate AdmissibleEvent(e: Event) {
    e.answer == Failed || Admissible(e.call)
  }

  ghost predicate AllAdmissible(evs: seq<Event>) {
    forall i :: 0 <= i < |evs| ==> AdmissibleEvent(evs[i])
  }

  /** Calls that build no other documents than these; the order in which a Go map was walked, and
      with it the order of the documents, may differ from run to run. */
  predicate AimsAtDocuments(c: Call, want: seq<Node>) {
    c.BuildPackage? ==> SameWant(c.desired, want)
  }

  predicate AimsAt(evs: seq<Event>, want: seq<Node>) {
    forall i :: 0 <= i < |evs| && evs[i].answer != Failed ==> AimsAtDocuments(evs[i].call, want)
  }

  lemma StepAimsWell(p: string, s: State, e: Event)
    requires AimsWell(s.pc) && AdmissibleEvent(e) && Step(p, s, e).Some?
    ensures AimsWell(Step(p, s, e).value.pc)
  {
    if e.answer != Failed { DoKeepsPackage(p, s, e.call); }
  }

  lemma StepKeepsWant(p: string, s: State, e: Event, want: seq<Node>)
    requires HasWant(s.pc, want) && (e.answer != Failed ==> AimsAtDocuments(e.call, want)) && Step(p, s, e).Some?
    ensures HasWant(Step(p, s, e).value.pc, want)
  {
    if e.answer != Failed { DoKeepsPackage(p, s, e.call); }
  }

  // ---------- the highest revision ----------

  /** The comparison with the highest revision is right for these documents. */
  ghost predicate TopJudged(store: Store, want: seq<Node>) {
    forall n :: IsTop(store, n) ==> JudgedFor(store[n].files, want)
  }

  /** As long as no deletion has begun. */
  ghost predicate TopInv(s: State, want: seq<Node>) {
    IsCurrent(s) ==> TopJudged(s.store, want)
  }

  lemma OneTopJudged(p: string, store: Store, name: string, want: seq<Node>)
    requires StoreInv(p, store) && IsTop(store, name) && JudgedFor(store[name].files, want)
    ensures TopJudged(store, want)
  {
    forall n | IsTop(store, n) ensures n == name { OnlyTop(p, store, n, name); }
  }

  lemma CreateShape(p: string, s: State, c: Call)
    requires c.CreateRevision? && Do(p, s, c).Some?
    ensures var s' := Do(p, s, c).value;
            && c.name !in s.store && c.name in s'.store && s'.store == s.store[c.name := s'.store[c.name]]
            && s'.store[c.name].files == c.content
            && s'.pc.Holding? && s'.pc.pr.name == c.name && s'.pc.pr.lifecycle == Draft
            && PackageOf(s.pc) == Some(s'.pc.want)
            && if s.pc.CreatingFirst? then s'.pc.stage == ReadLatest
               else s.pc.Holding? && s.pc.stage == CreatingNext && s'.pc.stage == ReadNew
  {
  }

  lemma CreateKeepsTop(p: string, s: State, c: Call, want: seq<Node>)
    requires Inv(p, s) && Trusted(s, c) && c.CreateRevision? && Do(p, s, c).Some? && Readable(c.content)
    ensures TopJudged(Do(p, s, c).value.store, want)
  {
    var s' := Do(p, s, c).value;
    DoKeepsInv(p, s, c);
    CreateShape(p, s, c);
    assert PcInv(s');
    ReadableIsJudged(c.content, want);
    OneTopJudged(p, s'.store, c.name, want);
  }

  lemma WriteShape(s: State)
    requires s.pc.Holding? && DoHolding(s, WriteResources).Some?
    ensures var s' := DoHolding(s, WriteResources).value;
            && s.pc.pr.name in s.store && s'.pc.Holding? && s'.pc.want == s.pc.want && s'.pc.pr.name == s.pc.pr.name
            && s'.store == s.store[s.pc.pr.name := s.store[s.pc.pr.name].(files := Overlay(s.pc.files, s.pc.want))]
  {
  }

  lemma WriteKeepsTop(p: string, s: State, want: seq<Node>)
    requires Inv(p, s) && s.pc.Holding? && AimsWell(s.pc) && DoHolding(s, WriteResources).Some?
    ensures TopJudged(DoHolding(s, WriteResources).value.store, want)
  {
    var s', name := DoHolding(s, WriteResources).value, s.pc.pr.name;
    WriteShape(s);
    HoldingKeepsInv(p, s, WriteResources);
    assert PcInv(s');
    WriteWanted(s.pc.want, s.pc.files);
    ReadableIsJudged(s'.store[name].files, want);
    OneTopJudged(p, s'.store, name, want);
  }

  /** The calls about the revision in hand that leave its files alone. */
  predicate LeavesFiles(c: Call) {
    c in {ReadResources, Compare, GetDraft, Propose, CheckApproval, Approve, Report}
  }

  lemma HoldingLeavesFiles(s: State, c: Call)
    requires s.pc.Holding? && DoHolding(s, c).Some? && LeavesFiles(c)
    ensures var s' := DoHolding(s, c).value;
            && s'.store.Keys == s.store.Keys
            && (forall n :: n in s.store && n != s.pc.pr.name ==> s'.store[n] == s.store[n])
            && (s.pc.pr.name in s.store ==> s'.store[s.pc.pr.name].files == s.store[s.pc.pr.name].files)
  {
  }

  lemma LifecycleKeepsTop(p: string, s: State, c: Call, want: seq<Node>)
    requires Inv(p, s) && TopJudged(s.store, want) && s.pc.Holding? && LeavesFiles(c) && DoHolding(s, c).Some?
    ensures TopJudged(DoHolding(s, c).value.store, want)
  {
    var s', name := DoHolding(s, c).value, s.pc.pr.name;
    LifecycleKeepsTopmost(p, s, c);
    HoldingKeepsInv(p, s, c);
    OneTopJudged(p, s'.store, name, want);
  }

  lemma LifecycleKeepsTopmost(p: string, s: State, c: Call)
    requires Inv(p, s) && s.pc.Holding? && LeavesFiles(c) && DoHolding(s, c).Some?
    ensures var name, store' := s.pc.pr.name, DoHolding(s, c).value.store;
            IsTop(s.store, name) && IsTop(store', name) && store'[name].files == s.store[name].files
  {
    assert PcInv(s);
    HoldingLeavesFiles(s, c);
    HoldingEvolves(s, c);
    SameTops(s.store, DoHolding(s, c).value.store, s.pc.pr.name);
  }

  lemma SameTops(store: Store, after: Store, name: string)
    requires IsTop(store, name) && after.Keys == store.Keys && after[name].number == store[name].number
    requires forall n :: n in store && n != name ==> after[n] == store[n]
    ensures IsTop(after, name)
  {
    assert forall n :: n in store ==> after[n].number == store[n].number;
  }

  /** Elsewhere the store is left alone as long as no deletion has begun. */
  lemma OtherKeepsStore(p: string, s: State, c: Call)
    requires Inv(p, s) && Do(p, s, c).Some? && !c.CreateRevision? && (!s.pc.Holding? || IsUserCall(c))
    requires IsCurrent(Do(p, s, c).value)
    ensures Do(p, s, c).value.store == s.store && (IsCurrent(s) || s.store == map[])
  {
    if c == RemoveFinalizer {
      RemoveFinalizerKeepsInv(p, s);
    } else {
      OtherShape(p, s, c);
      if c == MarkDeleted { assert TenantInv(s); }
    }
  }

  /** A deletion that has begun goes on, unless the tenant goes by its mark alone. */
  lemma OtherShape(p: string, s: State, c: Call)
    requires Do(p, s, c).Some? && !c.CreateRevision? && c != RemoveFinalizer && (!s.pc.Holding? || IsUserCall(c))
    ensures var s' := Do(p, s, c).value;
            && (s'.store == s.store || (c == DeleteRevision && s.pc.Deleting? && s'.pc.Deleting? && s'.tenant == s.tenant))
            && (IsCurrent(s') ==> IsCurrent(s) || (c == MarkDeleted && s.tenant.Present? && !s.tenant.finalizer))
  {
  }

  lemma HoldingCalls(p: string, s: State, c: Call)
    requires s.pc.Holding? && !IsUserCall(c) && !c.CreateRevision? && Do(p, s, c).Some?
    ensures Do(p, s, c) == DoHolding(s, c) && (c == WriteResources || LeavesFiles(c))
  {
  }

  lemma DoKeepsTop(p: string, s: State, c: Call, want: seq<Node>)
    requires Inv(p, s) && AimsWell(s.pc) && TopInv(s, want) && Trusted(s, c) && Admissible(c) && Do(p, s, c).Some?
    ensures TopInv(Do(p, s, c).value, want)
  {
    if c.CreateRevision? {
      CreateKeepsTop(p, s, c, want);
    } else if !s.pc.Holding? || IsUserCall(c) {
      if IsCurrent(Do(p, s, c).value) { OtherKeepsStore(p, s, c); }
    } else {
      HoldingCalls(p, s, c);
      if c == WriteResources { WriteKeepsTop(p, s, want); } else { LifecycleKeepsTop(p, s, c, want); }
    }
  }

  lemma CutKeepsTop(s: State, want: seq<Node>)
    requires TopInv(s, want)
    ensures TopInv(s.(pc := Idle), want)
  {
  }

  /** Every step keeps the comparison with the highest revision right, for any documents. */
  lemma StepKeepsTop(p: string, s: State, e: Event, want: seq<Node>)
    requires Inv(p, s) && AimsWell(s.pc) && TopInv(s, want) && TrustedEvent(s, e) && AdmissibleEvent(e) && Step(p, s, e).Some?
    ensures TopInv(Step(p, s, e).value, want)
  {
    if e.answer != Failed {
      DoKeepsTop(p, s, e.call, want);
      CutKeepsTop(Do(p, s, e.call).value, want);
    } else {
      CutKeepsTop(s, want);
    }
  }

  lemma {:induction false} RunKeepsTop(p: string, s: State, evs: seq<Event>, want: seq<Node>)
    requires Inv(p, s) && AimsWell(s.pc) && TopInv(s, want) && TrustedRun(p, s, evs) && AllAdmissible(evs)
    ensures Run(p, s, evs).Some? && TopInv(Run(p, s, evs).value, want)
    decreases |evs|
  {
    if evs != [] {
      StepKeepsInv(p, s, evs[0]);
      StepAimsWell(p, s, evs[0]);
      StepKeepsTop(p, s, evs[0], want);
      RunKeepsTop(p, Step(p, s, evs[0]).value, evs[1..], want);
    }
  }

  /** The highest revision is readable. */
  ghost predicate TopReadable(store: Store) {
    forall n :: IsTop(store, n) ==> Readable(store[n].files)
  }

  lemma TopReadableIff(store: Store)
    ensures TopReadable(store) <==> forall want: seq<Node> :: TopJudged(store, want)
  {
    if TopReadable(store) {
      forall want: seq<Node> ensures TopJudged(store, want) {
        forall n | IsTop(store, n) ensures JudgedFor(store[n].files, want) { ReadableIsJudged(store[n].files, want); }
      }
    }
    if forall want: seq<Node> :: TopJudged(store, want) {
      forall n | IsTop(store, n) ensures Readable(store[n].files) {
        forall want: seq<Node> ensures Judged(want, store[n].files) {
          assert TopJudged(store, want) && SameWant(want, want);
        }
        CompareCorrectIff(store[n].files);
      }
    }
  }

  /** Runs that aim at packages with distinct documents leave the highest revision readable. */
  lemma RunKeepsReadable(p: string, s: State, evs: seq<Event>)
    requires Inv(p, s) && AimsWell(s.pc) && TrustedRun(p, s, evs) && AllAdmissible(evs)
    requires IsCurrent(s) ==> TopReadable(s.store)
    ensures Run(p, s, evs).Some?
    ensures IsCurrent(Run(p, s, evs).value) ==> TopReadable(Run(p, s, evs).value.store)
  {
    RunKeepsInv(p, s, evs);
    var s' := Run(p, s, evs).value;
    TopReadableIff(s.store);
    if IsCurrent(s') {
      forall want: seq<Node> ensures TopJudged(s'.store, want) { RunKeepsTop(p, s, evs, want); }
      TopReadableIff(s'.store);
    }
  }

  // ---------- what a run has settled ----------

  /** Stages that follow a comparison that answered yes, or a write. */
  predicate IsSettling(stage: Stage) {
    stage in {GettingDraft, Proposing, CheckingApproval, Approving, Reporting}
  }

  /** The revision in hand holds what is wanted, once that was found out or written. */
  ghost predicate SettlingInv(s: State) {
    s.pc.Holding? && IsSettling(s.pc.stage) && s.pc.pr.name in s.store ==>
      SameDocuments(s.pc.want, s.store[s.pc.pr.name].files)
  }

  /** The comparison that this event makes is right. */
  ghost predicate JudgedEvent(s: State, e: Event) {
    e.call == Compare && e.answer == Done && s.pc.Holding? && s.pc.stage == Comparing ==> Judged(s.pc.want, s.pc.files)
  }

  /** Where a right comparison leads. */
  function AfterCompare(pc: PC, same: bool): PC
    requires pc.Holding?
  {
    Moved(if same then ApprovalStage(pc.pr.lifecycle)
          else if pc.pr.lifecycle != Draft then CreatingNext else Writing, pc)
  }

  lemma ComparedRight(pc: PC)
    requires pc.Holding? && Judged(pc.want, pc.files)
    ensures Compared(pc) == AfterCompare(pc, SameDocuments(pc.want, pc.files))
  {
  }

  lemma AfterCompareSettles(pc: PC, same: bool)
    requires pc.Holding? && pc.stage == Comparing
    ensures AfterCompare(pc, same).want == pc.want && AfterCompare(pc, same).pr == pc.pr
    ensures !same ==> !IsSettling(AfterCompare(pc, same).stage)
  {
  }

  lemma CompareSettles(p: string, s: State)
    requires Inv(p, s) && s.pc.Holding? && s.pc.stage == Comparing && Judged(s.pc.want, s.pc.files)
    ensures SettlingInv(s.(pc := Compared(s.pc)))
  {
    assert PcInv(s);
    ComparedRight(s.pc);
    AfterCompareSettles(s.pc, SameDocuments(s.pc.want, s.pc.files));
  }

  lemma WriteSettles(p: string, s: State)
    requires AimsWell(s.pc) && s.pc.Holding? && DoHolding(s, WriteResources).Some?
    ensures SettlingInv(DoHolding(s, WriteResources).value)
  {
    WriteShape(s);
    WriteWanted(s.pc.want, s.pc.files);
  }

  lemma SettlingStages(s: State, c: Call)
    requires s.pc.Holding? && DoHolding(s, c).Some? && LeavesFiles(c) && c != Compare
    ensures var pc := DoHolding(s, c).value.pc;
            pc == Idle || (pc.Holding? && pc.pr.name == s.pc.pr.name && pc.want == s.pc.want
                           && (IsSettling(pc.stage) ==> IsSettling(s.pc.stage) && s.pc.pr.name in s.store))
  {
  }

  lemma LifecycleSettles(s: State, c: Call)
    requires SettlingInv(s) && s.pc.Holding? && DoHolding(s, c).Some? && LeavesFiles(c) && c != Compare
    ensures SettlingInv(DoHolding(s, c).value)
  {
    HoldingLeavesFiles(s, c);
    SettlingStages(s, c);
  }

  lemma UserShape(p: string, s: State, c: Call)
    requires IsUserCall(c) && Do(p, s, c).Some?
    ensures Do(p, s, c).value.pc == s.pc && Do(p, s, c).value.store == s.store
  {
  }

  /** A run that holds no revision yet next reads the one it has selected. */
  lemma EarlyShape(p: string, s: State, c: Call)
    requires !s.pc.Holding? && Do(p, s, c).Some? && !c.CreateRevision?
    ensures Do(p, s, c).value.pc.Holding? ==> Do(p, s, c).value.pc.stage == ReadLatest
  {
  }

  lemma OtherSettles(p: string, s: State, c: Call)
    requires SettlingInv(s) && Do(p, s, c).Some? && (!s.pc.Holding? || c.CreateRevision? || IsUserCall(c))
    ensures SettlingInv(Do(p, s, c).value)
  {
    if IsUserCall(c) {
      UserShape(p, s, c);
    } else if c.CreateRevision? {
      CreateShape(p, s, c);
    } else {
      EarlyShape(p, s, c);
    }
  }

  lemma CompareOnly(s: State)
    requires s.pc.Holding? && DoHolding(s, Compare).Some?
    ensures s.pc.stage == Comparing && DoHolding(s, Compare).value == s.(pc := Compared(s.pc))
  {
  }

  lemma StepSettles(p: string, s: State, e: Event)
    requires Inv(p, s) && AimsWell(s.pc) && SettlingInv(s) && JudgedEvent(s, e) && Step(p, s, e).Some?
    ensures SettlingInv(Step(p, s, e).value)
  {
    if e.answer == Done {
      if !s.pc.Holding? || e.call.CreateRevision? || IsUserCall(e.call) {
        OtherSettles(p, s, e.call);
      } else {
        HoldingCalls(p, s, e.call);
        if e.call == Compare {
          CompareOnly(s);
          CompareSettles(p, s);
        } else if e.call == WriteResources {
          WriteSettles(p, s);
        } else {
          LifecycleSettles(s, e.call);
        }
      }
    }
  }

  // ---------- all of it ----------

  /** What is kept about contents by runs that aim at `want`. */
  ghost predicate ContentInv(s: State, want: seq<Node>) {
    AimsWell(s.pc) && HasWant(s.pc, want) && SettlingInv(s) && TopInv(s, want)
  }

  lemma TopJudges(p: string, s: State, e: Event, want: seq<Node>)
    requires Inv(p, s) && HasWant(s.pc, want) && TopInv(s, want)
    ensures JudgedEvent(s, e)
  {
    if s.pc.Holding? && s.pc.stage == Comparing {
      assert PcInv(s) && IsCurrent(s);
      assert JudgedFor(s.store[s.pc.pr.name].files, want);
    }
  }

  lemma StepKeepsContent(p: string, s: State, e: Event, want: seq<Node>)
    requires Inv(p, s) && ContentInv(s, want) && TrustedEvent(s, e) && AdmissibleEvent(e) && Step(p, s, e).Some?
    requires e.answer != Failed ==> AimsAtDocuments(e.call, want)
    ensures ContentInv(Step(p, s, e).value, want)
  {
    StepAimsWell(p, s, e);
    StepKeepsWant(p, s, e, want);
    TopJudges(p, s, e, want);
    StepSettles(p, s, e);
    StepKeepsTop(p, s, e, want);
  }

  /** A run whose inputs are admissible and aim at these documents. */
  ghost predicate AimedRun(p: string, s: State, evs: seq<Event>, want: seq<Node>) {
    TrustedRun(p, s, evs) && AllAdmissible(evs) && AimsAt(evs, want)
  }

  lemma AimedTail(evs: seq<Event>, want: seq<Node>)
    requires AllAdmissible(evs) && AimsAt(evs, want) && evs != []
    ensures AdmissibleEvent(evs[0]) && (evs[0].answer != Failed ==> AimsAtDocuments(evs[0].call, want))
    ensures AllAdmissible(evs[1..]) && AimsAt(evs[1..], want)
  {
    assert forall i :: 0 <= i < |evs[1..]| ==> evs[1..][i] == evs[i + 1];
  }

  /** Over every run: the revision in hand holds what is wanted once the run is past its comparison or
      write, and the comparison stays right. */
  lemma {:induction false} RunKeepsContent(p: string, s: State, evs: seq<Event>, want: seq<Node>)
    requires Inv(p, s) && ContentInv(s, want) && AimedRun(p, s, evs, want)
    ensures Run(p, s, evs).Some? && ContentInv(Run(p, s, evs).value, want)
    decreases |evs|
  {
    if evs != [] {
      AimedTail(evs, want);
      StepKeepsInv(p, s, evs[0]);
      StepKeepsContent(p, s, evs[0], want);
      RunKeepsContent(p, Step(p, s, evs[0]).value, evs[1..], want);
    }
  }
}
