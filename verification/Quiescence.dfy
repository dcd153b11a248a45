/** When runs leave the package store alone: exactly when the comparison accepts the highest
    revision, whatever its documents are. */
module Quiescence {
  import opened Options
  import opened Strings
  import opened Documents
  import opened PkgUtil
  import opened SliceScan
  import opened LookUp
  import opened Protocol
  import opened Safety

  /** The comparison of the wanted documents with these files says this. */
  ghost predicate Gets(want: seq<Node>, files: Files, v: Verdict) {
    CompareWith(want, files) == Some(v)
  }

  /** It says yes. */
  ghost predicate Accepts(want: seq<Node>, files: Files) {
    Gets(want, files, Answer(true))
  }

  /** The highest revision holds these files. */
  ghost predicate TopIs(store: Store, files: Files) {
    exists top :: IsTop(store, top) && store[top].files == files
  }

  lemma TopIsIt(p: string, store: Store, files: Files, name: string)
    requires StoreInv(p, store) && TopIs(store, files) && IsTop(store, name)
    ensures store[name].files == files
  {
    var top :| IsTop(store, top) && store[top].files == files;
    OnlyTop(p, store, top, name);
  }

  /** The highest revision is Published and holds these files. */
  ghost predicate TopHolds(store: Store, files: Files) {
    exists top :: IsTop(store, top) && store[top].lifecycle == Published && store[top].files == files
  }

  /** Where a run can be while it only looks, for packages that all get one verdict: it reports only on
      a yes, and a panic ends it. */
  ghost predicate OnlyLooks(pc: PC, files: Files, v: Verdict) {
    match pc
    case Idle => true
    case Begun(deletion) => !deletion
    case Building => true
    case Listing(w) => Gets(w, files, v)
    case Holding(stage, w, _, _) =>
      (stage == ReadLatest || stage == Comparing || (stage == Reporting && v == Answer(true))) && Gets(w, files, v)
    case _ => false
  }

  ghost predicate Resting(p: string, s: State, files: Files, v: Verdict) {
    && Inv(p, s) && s.tenant == Present(false, true) && TopHolds(s.store, files)
    && v != Answer(false) && OnlyLooks(s.pc, files, v)
  }

  lemma RestsIdle(p: string, s: State, files: Files, v: Verdict)
    requires Inv(p, s) && s.pc == Idle && s.tenant == Present(false, true) && TopHolds(s.store, files) && v != Answer(false)
    ensures Resting(p, s, files, v)
  {
  }

  ghost predicate BuildGets(c: Call, files: Files, v: Verdict) {
    c.BuildPackage? ==> Gets(c.desired, files, v)
  }

  predicate NoUserCalls(evs: seq<Event>) {
    forall i :: 0 <= i < |evs| ==> !IsUserCall(evs[i].call)
  }

  ghost predicate AllGet(evs: seq<Event>, files: Files, v: Verdict) {
    forall i :: 0 <= i < |evs| && evs[i].answer != Failed ==> BuildGets(evs[i].call, files, v)
  }

  lemma OnlyTop(p: string, store: Store, a: string, b: string)
    requires StoreInv(p, store) && IsTop(store, a) && IsTop(store, b)
    ensures a == b
  {
  }

  lemma TopIsHeld(p: string, store: Store, files: Files, name: string)
    requires StoreInv(p, store) && TopHolds(store, files) && IsTop(store, name)
    ensures store[name].lifecycle == Published && store[name].files == files
  {
    var top :| IsTop(store, top) && store[top].lifecycle == Published && store[top].files == files;
    OnlyTop(p, store, top, name);
  }

  /** Nothing but the run moved on, and it still only looks. */
  ghost predicate Looked(s: State, s': State, files: Files, v: Verdict) {
    s'.store == s.store && s'.tenant == s.tenant && OnlyLooks(s'.pc, files, v)
  }

  lemma RestingCompare(p: string, s: State, files: Files, v: Verdict)
    requires Resting(p, s, files, v) && s.pc.Holding? && s.pc.stage == Comparing
    ensures Compared(s.pc) == if v == Answer(true) then Moved(Reporting, s.pc) else Idle
  {
    assert PcInv(s);
    TopIsHeld(p, s.store, files, s.pc.pr.name);
  }

  lemma ListShape(p: string, s: State, c: Call)
    requires c.ListRevisions? && Do(p, s, c).Some?
    ensures var s' := Do(p, s, c).value;
            && s.pc.Listing? && s'.store == s.store && s'.tenant == s.tenant
            && (s'.pc == CreatingFirst(s.pc.want)
                || (s'.pc.Holding? && s'.pc.stage == ReadLatest && s'.pc.want == s.pc.want))
  {
  }

  lemma RestingList(p: string, s: State, c: Call, files: Files, v: Verdict)
    requires Resting(p, s, files, v) && c.ListRevisions? && Trusted(s, c) && Do(p, s, c).Some?
    ensures Looked(s, Do(p, s, c).value, files, v)
  {
    ListShape(p, s, c);
    var top :| IsTop(s.store, top);
    ListKeepsInv(p, s, c);
    assert PcInv(Do(p, s, c).value);
  }

  lemma LookingHolding(s: State, c: Call, files: Files, v: Verdict)
    requires s.pc.Holding? && OnlyLooks(s.pc, files, v) && c != Compare && DoHolding(s, c).Some?
    ensures Looked(s, DoHolding(s, c).value, files, v)
  {
  }

  lemma LookingElsewhere(p: string, s: State, c: Call, files: Files, v: Verdict)
    requires OnlyLooks(s.pc, files, v) && s.tenant == Present(false, true) && BuildGets(c, files, v)
    requires !IsUserCall(c) && c != Compare && !c.ListRevisions? && Do(p, s, c).Some?
    ensures Looked(s, Do(p, s, c).value, files, v)
  {
    if s.pc.Holding? && DoHolding(s, c).Some? { LookingHolding(s, c, files, v); }
  }

  lemma RestingDo(p: string, s: State, c: Call, files: Files, v: Verdict)
    requires Resting(p, s, files, v) && Trusted(s, c) && BuildGets(c, files, v)
    requires !IsUserCall(c) && Do(p, s, c).Some?
    ensures Looked(s, Do(p, s, c).value, files, v)
  {
    if c == Compare {
      RestingCompare(p, s, files, v);
    } else if c.ListRevisions? {
      RestingList(p, s, c, files, v);
    } else {
      LookingElsewhere(p, s, c, files, v);
    }
  }

  /** Quiescence, one step: answered, failed or lost. */
  lemma RestingStep(p: string, s: State, e: Event, files: Files, v: Verdict)
    requires Resting(p, s, files, v) && TrustedEvent(s, e) && (e.answer != Failed ==> BuildGets(e.call, files, v))
    requires !IsUserCall(e.call) && Step(p, s, e).Some?
    ensures Resting(p, Step(p, s, e).value, files, v) && Step(p, s, e).value.store == s.store
  {
    StepKeepsInv(p, s, e);
    if e.answer != Failed { RestingDo(p, s, e.call, files, v); }
  }

  /** Quiescence. While the highest revision is Published and the comparison with it says yes to every
      package built, no sequence of runs, faulty or not, writes to the store. Nor does any when the
      comparison panics every time, and then none is ever at its report. */
  lemma {:induction false} RestingForever(p: string, s: State, evs: seq<Event>, files: Files, v: Verdict)
    requires Resting(p, s, files, v) && TrustedRun(p, s, evs) && NoUserCalls(evs) && AllGet(evs, files, v)
    ensures Run(p, s, evs).Some? && Run(p, s, evs).value.store == s.store
    ensures Resting(p, Run(p, s, evs).value, files, v)
    decreases |evs|
  {
    if evs != [] {
      assert !IsUserCall(evs[0].call);
      RestingStep(p, s, evs[0], files, v);
      assert forall i :: 0 <= i < |evs[1..]| ==> evs[1..][i] == evs[i + 1];
      RestingForever(p, Step(p, s, evs[0]).value, evs[1..], files, v);
    }
  }

  // ---------- a run over a published package ----------

  lemma FirstCall(p: string, s: State, c: Call)
    requires s.pc == Idle && s.tenant.Present? && !IsUserCall(c) && Do(p, s, c).Some?
    ensures c == GetTenant && Do(p, s, c).value == s.(pc := Begun(s.tenant.deleting))
  {
  }

  lemma SecondCall(p: string, s: State, c: Call)
    requires s.pc == Begun(false) && !IsUserCall(c) && Do(p, s, c).Some?
    ensures c == AddFinalizer && s.tenant.Present?
    ensures Do(p, s, c).value == s.(tenant := s.tenant.(finalizer := true), pc := Building)
  {
  }

  lemma ThirdCall(p: string, s: State, c: Call)
    requires s.pc == Building && !IsUserCall(c) && Do(p, s, c).Some?
    ensures c.BuildPackage? && Do(p, s, c).value == s.(pc := Listing(c.desired))
  {
  }

  lemma FourthCall(p: string, s: State, c: Call)
    requires Inv(p, s) && s.pc.Listing? && s.store != map[]
    requires !IsUserCall(c) && Trusted(s, c) && Do(p, s, c).Some?
    ensures var s' := Do(p, s, c).value;
            && Inv(p, s') && s' == s.(pc := s'.pc)
            && s'.pc.Holding? && s'.pc.stage == ReadLatest && s'.pc.want == s.pc.want
  {
    assert c.ListRevisions?;
    ListShape(p, s, c);
    ListKeepsInv(p, s, c);
    assert PcInv(Do(p, s, c).value);
  }

  lemma ReadShape(p: string, s: State, c: Call)
    requires s.pc.Holding? && s.pc.stage == ReadLatest && !IsUserCall(c) && Do(p, s, c).Some?
    ensures s.pc.pr.name in s.store
    ensures Do(p, s, c).value == s.(pc := s.pc.(stage := Comparing, files := s.store[s.pc.pr.name].files))
  {
  }

  lemma FifthCall(p: string, s: State, c: Call, files: Files)
    requires Inv(p, s) && s.pc.Holding? && s.pc.stage == ReadLatest && TopIs(s.store, files)
    requires !IsUserCall(c) && Do(p, s, c).Some?
    ensures Do(p, s, c).value == s.(pc := s.pc.(stage := Comparing, files := files))
    ensures IsTop(s.store, s.pc.pr.name) && s.pc.pr.lifecycle == s.store[s.pc.pr.name].lifecycle
  {
    ReadShape(p, s, c);
    assert PcInv(s);
    TopIsIt(p, s.store, files, s.pc.pr.name);
  }

  lemma CompareCall(p: string, s: State, c: Call)
    requires s.pc.Holding? && s.pc.stage == Comparing && !IsUserCall(c) && Do(p, s, c).Some?
    ensures c == Compare && Do(p, s, c).value == s.(pc := Compared(s.pc))
  {
  }

  lemma SixthCall(p: string, s: State, c: Call, files: Files)
    requires s.pc.Holding? && s.pc.stage == Comparing && s.pc.files == files && s.pc.pr.lifecycle == Published
    requires !IsUserCall(c) && Do(p, s, c).Some?
    ensures var s' := Do(p, s, c).value;
            && s' == s.(pc := s'.pc)
            && match CompareWith(s.pc.want, files)
               case Some(Answer(true)) => s'.pc == s.pc.(stage := Reporting)
               case Some(Answer(false)) => s'.pc == s.pc.(stage := CreatingNext)
               case _ => s'.pc == Idle
  {
    CompareCall(p, s, c);
  }

  /** The first three calls of a fault-free run: up to the package it builds. */
  lemma BuildSteps(p: string, s: State, evs: seq<Event>) returns (s1: State, s2: State, s3: State)
    requires Inv(p, s) && s.pc == Idle && s.tenant.Present? && !s.tenant.deleting
    requires TrustedRun(p, s, evs) && FaultFree(evs) && |evs| >= 3
    ensures evs[2].call.BuildPackage? && s3.pc == Listing(evs[2].call.desired)
    ensures Step(p, s, evs[0]) == Some(s1) && s1.pc == Begun(false)
    ensures Step(p, s1, evs[1]) == Some(s2) && s2.pc == Building
    ensures Step(p, s2, evs[2]) == Some(s3) && Inv(p, s3) && s3.store == s.store
    ensures TrustedRun(p, s3, evs[3..]) && Run(p, s, evs) == Run(p, s3, evs[3..])
  {
    var a, b := evs[1..], evs[2..];
    assert a[1..] == b && b[1..] == evs[3..] && a[0] == evs[1] && b[0] == evs[2];
    s1 := OneLook(p, s, evs);
    FirstCall(p, s, evs[0].call);
    s2 := OneLook(p, s1, a);
    SecondCall(p, s1, a[0].call);
    s3 := OneLook(p, s2, b);
    ThirdCall(p, s2, b[0].call);
  }

  /** A run that is about to compare what it wants with the files of the highest revision. */
  ghost predicate AtComparison(p: string, start: Store, s: State, want: seq<Node>, files: Files) {
    && Inv(p, s) && s.store == start
    && s.pc.Holding? && s.pc.stage == Comparing && s.pc.want == want && s.pc.files == files
    && IsTop(s.store, s.pc.pr.name) && s.pc.pr.lifecycle == s.store[s.pc.pr.name].lifecycle
  }

  lemma ListStep(p: string, s: State, evs: seq<Event>, want: seq<Node>) returns (s': State)
    requires Inv(p, s) && s.pc == Listing(want) && s.store != map[]
    requires TrustedRun(p, s, evs) && evs != [] && evs[0].answer == Done && !IsUserCall(evs[0].call)
    ensures Step(p, s, evs[0]) == Some(s') && Inv(p, s') && s'.store == s.store
    ensures s'.pc.Holding? && s'.pc.stage == ReadLatest && s'.pc.want == want
    ensures TrustedRun(p, s', evs[1..]) && Run(p, s, evs) == Run(p, s', evs[1..])
  {
    s' := OneLook(p, s, evs);
    FourthCall(p, s, evs[0].call);
  }

  lemma ReadStep(p: string, s: State, evs: seq<Event>, want: seq<Node>, files: Files) returns (s': State)
    requires Inv(p, s) && s.pc.Holding? && s.pc.stage == ReadLatest && s.pc.want == want && TopIs(s.store, files)
    requires TrustedRun(p, s, evs) && evs != [] && evs[0].answer == Done && !IsUserCall(evs[0].call)
    ensures Step(p, s, evs[0]) == Some(s') && AtComparison(p, s.store, s', want, files)
    ensures TrustedRun(p, s', evs[1..]) && Run(p, s, evs) == Run(p, s', evs[1..])
  {
    s' := OneLook(p, s, evs);
    FifthCall(p, s, evs[0].call, files);
  }

  /** The two calls that follow, over a package with a revision: up to the comparison. */
  lemma ReadSteps(p: string, s: State, evs: seq<Event>, want: seq<Node>, files: Files) returns (s1: State, s2: State)
    requires Inv(p, s) && s.pc == Listing(want) && TopIs(s.store, files)
    requires TrustedRun(p, s, evs) && FaultFree(evs) && |evs| >= 2
    ensures Step(p, s, evs[0]) == Some(s1) && s1.pc.Holding? && s1.pc.stage == ReadLatest
    ensures Step(p, s1, evs[1]) == Some(s2) && AtComparison(p, s.store, s2, want, files)
    ensures TrustedRun(p, s2, evs[2..]) && Run(p, s, evs) == Run(p, s2, evs[2..])
  {
    var a := evs[1..];
    assert a[1..] == evs[2..] && a[0] == evs[1];
    s1 := ListStep(p, s, evs, want);
    s2 := ReadStep(p, s1, a, want, files);
  }

  /** Where a run goes from its comparison with these files. */
  ghost predicate Decided(pc: PC, want: seq<Node>, files: Files) {
    Goes(pc, CompareWith(want, files))
  }

  predicate Goes(pc: PC, verdict: Option<Verdict>) {
    match verdict
    case Some(Answer(true)) => pc.Holding? && pc.stage == Reporting
    case Some(Answer(false)) => pc.Holding? && pc.stage == CreatingNext
    case _ => pc == Idle
  }

  /** What a fault-free run makes of a Published highest revision: it builds a package and then is at
      its report if the comparison says yes, about to create a revision if it says no, and over if
      the comparison fails or panics. */
  lemma LooksDecide(p: string, s: State, evs: seq<Event>, files: Files)
    requires Inv(p, s) && s.pc == Idle && s.tenant.Present? && !s.tenant.deleting && TopHolds(s.store, files)
    requires TrustedRun(p, s, evs) && FaultFree(evs) && |evs| == 6
    ensures evs[2].call.BuildPackage?
    ensures Run(p, s, evs).Some? && Run(p, s, evs).value.store == s.store
    ensures Decided(Run(p, s, evs).value.pc, evs[2].call.desired, files)
  {
    var s1, s2, s3 := BuildSteps(p, s, evs);
    DecideSteps(p, s3, evs[3..], evs[2].call.desired, files);
  }

  lemma DecideSteps(p: string, s: State, evs: seq<Event>, want: seq<Node>, files: Files)
    requires Inv(p, s) && s.pc == Listing(want) && TopHolds(s.store, files)
    requires TrustedRun(p, s, evs) && FaultFree(evs) && |evs| == 3
    ensures Run(p, s, evs).Some? && Run(p, s, evs).value.store == s.store
    ensures Decided(Run(p, s, evs).value.pc, want, files)
  {
    var s1, s2 := ReadSteps(p, s, evs, want, files);
    TopIsHeld(p, s2.store, files, s2.pc.pr.name);
    OneIsLeft(evs);
    LastLook(p, s2, evs[2..], want, files);
  }

  lemma OneIsLeft(evs: seq<Event>)
    requires FaultFree(evs) && |evs| == 3
    ensures FaultFree(evs[2..]) && |evs[2..]| == 1
  {
    assert evs[2..] == [evs[2]];
  }

  lemma LastLook(p: string, s: State, evs: seq<Event>, want: seq<Node>, files: Files)
    requires Inv(p, s) && s.pc.Holding? && s.pc.stage == Comparing && s.pc.want == want && s.pc.files == files
    requires s.pc.pr.lifecycle == Published && TrustedRun(p, s, evs) && FaultFree(evs) && |evs| == 1
    ensures Run(p, s, evs).Some? && Run(p, s, evs).value.store == s.store
    ensures Decided(Run(p, s, evs).value.pc, want, files)
  {
    assert evs[1..] == [];
    var s' := OneLook(p, s, evs);
    SixthCall(p, s, evs[0].call, files);
  }

  lemma OneLook(p: string, s: State, evs: seq<Event>) returns (s': State)
    requires Inv(p, s) && TrustedRun(p, s, evs) && evs != [] && evs[0].answer == Done && !IsUserCall(evs[0].call)
    ensures Trusted(s, evs[0].call) && Do(p, s, evs[0].call) == Some(s') && Inv(p, s')
    ensures TrustedRun(p, s', evs[1..]) && Run(p, s, evs) == Run(p, s', evs[1..])
  {
    s' := Step(p, s, evs[0]).value;
    StepKeepsInv(p, s, evs[0]);
  }

  // ---------- written packages ----------

  /** When the files hold the wanted documents, they are accepted exactly when the twins among them
      fit: with distinct documents always. */
  lemma AcceptsIffTwinsFit(want: seq<Node>, files: Files)
    requires Read(files).Some? && multiset(Map(Cleared, want)) == multiset(Map(Cleared, Read(files).value))
    ensures Accepts(want, files) <==> TwinsFit(Map(Cleared, want), Map(Cleared, Read(files).value))
  {
    IsEqualYesIff(Map(Cleared, want), Map(Cleared, Read(files).value));
  }

  lemma WrittenIsAcceptedIff(want: seq<Node>, base: Files)
    requires AllIncluded(want)
    ensures Read(Overlay(base, want)).Some?
    ensures Accepts(want, Overlay(base, want))
            <==> TwinsFit(Map(Cleared, want), Map(Cleared, Read(Overlay(base, want)).value))
  {
    WrittenDocumentsReadBack(base, want);
    AcceptsIffTwinsFit(want, Overlay(base, want));
  }

  /** A package that was written and published is left alone by the next fault-free run for it, which
      then reports, if and only if its twins fit the order in which they are read back. If not, that
      run is over or creates one revision more. */
  lemma WrittenPackageRestsIff(p: string, s: State, evs: seq<Event>, want: seq<Node>, base: Files)
    requires Inv(p, s) && s.pc == Idle && s.tenant.Present? && !s.tenant.deleting
    requires AllIncluded(want) && TopHolds(s.store, Overlay(base, want))
    requires TrustedRun(p, s, evs) && FaultFree(evs) && |evs| == 6 && (evs[2].call.BuildPackage? ==> evs[2].call.desired == want)
    ensures Run(p, s, evs).Some? && Run(p, s, evs).value.store == s.store && Read(Overlay(base, want)).Some?
    ensures TwinsFit(Map(Cleared, want), Map(Cleared, Read(Overlay(base, want)).value))
            <==> Run(p, s, evs).value.pc.Holding? && Run(p, s, evs).value.pc.stage == Reporting
  {
    LooksDecide(p, s, evs, Overlay(base, want));
    WrittenIsAcceptedIff(want, base);
    DecidedIff(Run(p, s, evs).value.pc, want, Overlay(base, want));
  }

  lemma DecidedIff(pc: PC, want: seq<Node>, files: Files)
    requires Decided(pc, want, files)
    ensures Accepts(want, files) <==> pc.Holding? && pc.stage == Reporting
  {
    GoesIff(pc, CompareWith(want, files));
  }

  lemma GoesIff(pc: PC, verdict: Option<Verdict>)
    requires Goes(pc, verdict)
    ensures verdict == Some(Answer(true)) <==> pc.Holding? && pc.stage == Reporting
    ensures verdict == Some(Panic) ==> pc == Idle
  {
  }
}
