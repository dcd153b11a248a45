/** What a fault-free run makes of any highest revision: it ends at its report with the package
    converged if and only if the comparison with that revision is right. */
module Outcome {
  import opened Options
  import opened Documents
  import opened SliceScan
  import opened Protocol
  import opened Safety
  import opened Quiescence
  import opened Judgement
  import opened Convergence

  // ---------- where a run ends ----------

  /** The run is under way: not over, and not at its report. */
  predicate UnderWay(pc: PC) {
    pc != Idle && !IsReporting(pc)
  }

  /** After `k` events, and not before, the run is over or at its report. */
  ghost predicate EndsAfter(p: string, s: State, evs: seq<Event>, k: nat, s': State)
    decreases k
  {
    && k > 0 && evs != [] && Step(p, s, evs[0]).Some?
    && var s1 := Step(p, s, evs[0]).value;
       if k == 1 then s1 == s' && !UnderWay(s1.pc) else UnderWay(s1.pc) && EndsAfter(p, s1, evs[1..], k - 1, s')
  }

  lemma EndsLater(p: string, s: State, evs: seq<Event>, s1: State, j: nat, k: nat, s': State)
    requires evs != [] && Step(p, s, evs[0]) == Some(s1) && UnderWay(s1.pc)
    requires j + 1 == k && EndsAfter(p, s1, evs[1..], j, s')
    ensures EndsAfter(p, s, evs, k, s')
  {
  }

  lemma EndsNow(p: string, s: State, evs: seq<Event>, k: nat, s': State)
    requires evs != [] && Step(p, s, evs[0]) == Some(s') && !UnderWay(s'.pc) && k == 1
    ensures EndsAfter(p, s, evs, k, s')
  {
  }

  lemma {:induction false} EndsThen(p: string, s: State, evs: seq<Event>, k: nat, s': State)
    requires EndsAfter(p, s, evs, k, s') && k <= |evs|
    ensures Run(p, s, evs[..k]) == Some(s') && !UnderWay(s'.pc)
    decreases k
  {
    RunPrefix(p, s, evs, k - 1);
    if k == 1 {
      assert evs[1..][..0] == [];
    } else {
      EndsThen(p, Step(p, s, evs[0]).value, evs[1..], k - 1, s');
    }
  }

  lemma {:induction false} ReportEnds(p: string, start: Store, s: State, evs: seq<Event>, k: nat, want: seq<Node>) returns (s': State)
    requires ReportsAfter(p, start, s, evs, k, want) && 0 < k <= |evs|
    ensures EndsAfter(p, s, evs, k, s') && Reached(start, s', want)
    decreases k
  {
    var j: nat := k - 1;
    var s1 := ReportsTail(p, start, s, evs, j, k, want);
    if j == 0 {
      s' := s1;
      EndsNow(p, s, evs, k, s');
    } else {
      UnderWayIfReports(p, start, s1, evs[1..], j, want);
      s' := ReportEnds(p, start, s1, evs[1..], j, want);
      EndsLater(p, s, evs, s1, j, k, s');
    }
  }

  lemma ReportsTail(p: string, start: Store, s: State, evs: seq<Event>, j: nat, k: nat, want: seq<Node>) returns (s1: State)
    requires ReportsAfter(p, start, s, evs, k, want) && j + 1 == k <= |evs|
    ensures Step(p, s, evs[0]) == Some(s1) && ReportsAfter(p, start, s1, evs[1..], j, want)
    ensures j == 0 ==> Reached(start, s1, want)
  {
    s1 := Step(p, s, evs[0]).value;
  }

  lemma UnderWayIfReports(p: string, start: Store, s: State, evs: seq<Event>, k: nat, want: seq<Node>)
    requires ReportsAfter(p, start, s, evs, k, want) && k > 0
    ensures UnderWay(s.pc)
  {
  }

  // ---------- from the comparison on ----------

  /** A right comparison leads to the report, converged. */
  lemma RightConverges(p: string, start: Store, s: State, evs: seq<Event>, want: seq<Node>, files: Files)
    returns (k: nat, s': State)
    requires AtComparison(p, start, s, want, files) && Wanted(want) && Judged(want, files)
    requires AimedRun(p, s, evs, want) && FaultFree(evs) && |evs| >= 8
    ensures 0 < k <= 8 && EndsAfter(p, s, evs, k, s') && Reached(start, s', want)
  {
    LiveAtComparison(p, start, s, want, files);
    FaultFreeIsGood(p, s, evs, want);
    k := LiveRunReports(p, start, s, evs, want);
    NotAtOnce(p, start, s, evs, k, want);
    s' := ReportEnds(p, start, s, evs, k, want);
  }

  lemma NotAtOnce(p: string, start: Store, s: State, evs: seq<Event>, k: nat, want: seq<Node>)
    requires ReportsAfter(p, start, s, evs, k, want) && !IsReporting(s.pc)
    ensures k > 0
  {
  }

  lemma LiveAtComparison(p: string, start: Store, s: State, want: seq<Node>, files: Files)
    requires AtComparison(p, start, s, want, files) && Wanted(want) && Judged(want, files)
    ensures LiveInv(p, start, s, want) && Distance(s.pc) == 8 && !IsReporting(s.pc)
  {
    NothingYet(start, s, want);
    JudgesNext(s, want);
  }

  lemma NothingYet(start: Store, s: State, want: seq<Node>)
    requires s.store == start && s.pc.Holding? && s.pc.stage == Comparing && s.pc.pr.name in start
    ensures SinceStart(start, s, want)
  {
    assert start.Keys + {s.pc.pr.name} == start.Keys;
  }

  lemma JudgesNext(s: State, want: seq<Node>)
    requires s.pc.Holding? && s.pc.stage == Comparing && s.pc.want == want && Wanted(want) && Judged(want, s.pc.files)
    ensures WillJudge(s, want) && AimsWell(s.pc) && HasWant(s.pc, want) && SettlingInv(s)
  {
    assert PackageOf(s.pc) == Some(want) && SameWant(want, want);
    assert !IsSettling(s.pc.stage);
    JudgesComparison(s, want);
  }

  lemma JudgesComparison(s: State, want: seq<Node>)
    requires s.pc.Holding? && s.pc.stage == Comparing && s.pc.want == want && Judged(want, s.pc.files)
    ensures WillJudge(s, want)
  {
  }

  /** The revisions are the same but for their numbers and lifecycles. */
  ghost predicate SameFiles(store: Store, after: Store) {
    after.Keys == store.Keys && forall n :: n in store ==> after[n].files == store[n].files
  }

  /** A run past its comparison on the revision it began with, written or not. */
  ghost predicate IsApproving(p: string, start: Store, s: State, name: string) {
    && Inv(p, s) && s.pc.Holding? && IsSettling(s.pc.stage) && s.pc.pr.name == name
    && SameFiles(start, s.store)
  }

  lemma ApprovingStage(s: State, c: Call)
    requires s.pc.Holding? && IsSettling(s.pc.stage) && !IsReporting(s.pc) && s.pc.pr.name in s.store && InHand(s.store, s.pc)
    requires DoHolding(s, c).Some?
    ensures LeavesFiles(c) && c != Compare
    ensures var pc := DoHolding(s, c).value.pc;
            pc.Holding? && IsSettling(pc.stage) && pc.pr.name == s.pc.pr.name && Distance(pc) < Distance(s.pc)
  {
  }

  lemma ApprovingCalls(p: string, s: State, c: Call)
    requires s.pc.Holding? && IsSettling(s.pc.stage) && !IsUserCall(c) && Do(p, s, c).Some?
    ensures Do(p, s, c) == DoHolding(s, c)
  {
  }

  lemma ApprovingStep(p: string, start: Store, s: State, e: Event, name: string)
    requires IsApproving(p, start, s, name) && !IsReporting(s.pc)
    requires e.answer == Done && !IsUserCall(e.call) && TrustedEvent(s, e) && Step(p, s, e).Some?
    ensures IsApproving(p, start, Step(p, s, e).value, name)
    ensures Distance(Step(p, s, e).value.pc) < Distance(s.pc)
  {
    StepKeepsInv(p, s, e);
    ApprovingCalls(p, s, e.call);
    ApprovingHolding(p, start, s, e.call, name);
  }

  lemma ApprovingHolding(p: string, start: Store, s: State, c: Call, name: string)
    requires s.pc.Holding? && IsSettling(s.pc.stage) && !IsReporting(s.pc) && s.pc.pr.name == name && SameFiles(start, s.store)
    requires PcInv(s) && DoHolding(s, c).Some?
    ensures var s' := DoHolding(s, c).value;
            && s'.pc.Holding? && IsSettling(s'.pc.stage) && s'.pc.pr.name == name && SameFiles(start, s'.store)
            && Distance(s'.pc) < Distance(s.pc)
  {
    ApprovingStage(s, c);
    HoldingLeavesFiles(s, c);
  }

  lemma FaultFreeTail(evs: seq<Event>)
    requires FaultFree(evs) && evs != []
    ensures evs[0].answer == Done && !IsUserCall(evs[0].call) && FaultFree(evs[1..])
  {
    assert forall i :: 0 <= i < |evs[1..]| ==> evs[1..][i] == evs[i + 1];
  }

  lemma {:induction false} ApprovingReports(p: string, start: Store, s: State, evs: seq<Event>, name: string) returns (k: nat, s': State)
    requires IsApproving(p, start, s, name) && !IsReporting(s.pc)
    requires TrustedRun(p, s, evs) && FaultFree(evs) && |evs| >= Distance(s.pc)
    ensures 0 < k <= Distance(s.pc) && EndsAfter(p, s, evs, k, s')
    ensures IsApproving(p, start, s', name) && IsReporting(s'.pc)
    decreases |evs|
  {
    NotThereYet(s.pc);
    FaultFreeTail(evs);
    var s1 := Step(p, s, evs[0]).value;
    ApprovingStep(p, start, s, evs[0], name);
    k, s' := 1, s1;
    if IsReporting(s1.pc) {
      EndsNow(p, s, evs, k, s');
    } else {
      var j;
      j, s' := ApprovingReports(p, start, s1, evs[1..], name);
      k := j + 1;
      EndsLater(p, s, evs, s1, j, k, s');
    }
  }

  /** A wrong yes leads to the report too, with the highest revision as it was. */
  lemma WrongYesReports(p: string, start: Store, s: State, evs: seq<Event>, want: seq<Node>, files: Files)
    returns (k: nat, s': State)
    requires AtComparison(p, start, s, want, files) && Accepts(want, files)
    requires TrustedRun(p, s, evs) && FaultFree(evs) && |evs| >= 8
    ensures 0 < k <= 8 && EndsAfter(p, s, evs, k, s')
    ensures Inv(p, s') && IsReporting(s'.pc) && SameFiles(start, s'.store) && TopIs(s'.store, files)
  {
    FaultFreeTail(evs);
    var s1 := AfterYes(p, start, s, evs, want, files);
    k, s' := 1, s1;
    if IsReporting(s1.pc) {
      EndsNow(p, s, evs, k, s');
    } else {
      var j;
      j, s' := ApprovingReports(p, start, s1, evs[1..], s.pc.pr.name);
      k := j + 1;
      EndsLater(p, s, evs, s1, j, k, s');
    }
    ReportedFiles(p, start, s', s.pc.pr.name, files);
  }

  lemma AfterYes(p: string, start: Store, s: State, evs: seq<Event>, want: seq<Node>, files: Files) returns (s1: State)
    requires AtComparison(p, start, s, want, files) && Accepts(want, files)
    requires TrustedRun(p, s, evs) && evs != [] && evs[0].answer == Done && !IsUserCall(evs[0].call)
    ensures Step(p, s, evs[0]) == Some(s1) && TrustedRun(p, s1, evs[1..])
    ensures IsApproving(p, start, s1, s.pc.pr.name) && Distance(s1.pc) <= 4
  {
    s1 := OneLook(p, s, evs);
    YesStep(p, s, evs[0].call);
  }

  lemma YesStep(p: string, s: State, c: Call)
    requires s.pc.Holding? && s.pc.stage == Comparing && Accepts(s.pc.want, s.pc.files) && !IsUserCall(c) && Do(p, s, c).Some?
    ensures Do(p, s, c).value == s.(pc := s.pc.(stage := ApprovalStage(s.pc.pr.lifecycle)))
    ensures IsSettling(Do(p, s, c).value.pc.stage) && Distance(Do(p, s, c).value.pc) <= 4
  {
    CompareCall(p, s, c);
  }

  lemma ReportedFiles(p: string, start: Store, s: State, name: string, files: Files)
    requires IsApproving(p, start, s, name) && name in start && start[name].files == files
    ensures TopIs(s.store, files)
  {
    assert PcInv(s);
  }

  // ---------- the whole run ----------

  /** Where the run ends, from its comparison on. */
  ghost predicate Concluded(start: Store, s: State, want: seq<Node>, files: Files) {
    if Judged(want, files) then Reached(start, s, want)
    else if Accepts(want, files) then IsReporting(s.pc) && SameFiles(start, s.store) && TopIs(s.store, files)
    else s.pc == Idle && s.store == start
  }

  lemma NoVerdictStep(p: string, s: State, c: Call)
    requires s.pc.Holding? && s.pc.stage == Comparing && Wanted(s.pc.want) && !IsUserCall(c) && Do(p, s, c).Some?
    requires !Judged(s.pc.want, s.pc.files) && !Accepts(s.pc.want, s.pc.files)
    ensures Do(p, s, c).value == s.(pc := Idle)
  {
    CompareCall(p, s, c);
    JudgedIff(s.pc.want, s.pc.files);
    CompareAnswers(s.pc.want, s.pc.files);
    NoVerdict(s.pc, CompareWith(s.pc.want, s.pc.files));
  }

  lemma NoVerdict(pc: PC, verdict: Option<Verdict>)
    requires pc.Holding? && verdict == CompareWith(pc.want, pc.files) && (verdict == None || verdict == Some(Panic))
    ensures Compared(pc) == Idle
  {
  }

  lemma ComparisonConcludes(p: string, start: Store, s: State, evs: seq<Event>, want: seq<Node>, files: Files)
    returns (k: nat, s': State)
    requires AtComparison(p, start, s, want, files) && Wanted(want)
    requires AimedRun(p, s, evs, want) && FaultFree(evs) && |evs| >= 8
    ensures 0 < k <= 8 && EndsAfter(p, s, evs, k, s') && Inv(p, s') && Concluded(start, s', want, files)
  {
    if Judged(want, files) {
      k, s' := RightConverges(p, start, s, evs, want, files);
      EndKeepsInv(p, s, evs, k, s');
    } else if Accepts(want, files) {
      k, s' := WrongYesReports(p, start, s, evs, want, files);
    } else {
      FaultFreeTail(evs);
      k := 1;
      s' := OneLook(p, s, evs);
      NoVerdictStep(p, s, evs[0].call);
      EndsNow(p, s, evs, k, s');
    }
  }

  lemma EndKeepsInv(p: string, s: State, evs: seq<Event>, k: nat, s': State)
    requires Inv(p, s) && TrustedRun(p, s, evs) && EndsAfter(p, s, evs, k, s') && k <= |evs|
    ensures Inv(p, s')
  {
    EndsThen(p, s, evs, k, s');
    TrustedPrefix(p, s, evs, k);
    RunKeepsInv(p, s, evs[..k]);
  }

  lemma AimedSuffix(evs: seq<Event>, i: nat, want: seq<Node>)
    requires AllAdmissible(evs) && AimsAt(evs, want) && FaultFree(evs) && i <= |evs|
    ensures AllAdmissible(evs[i..]) && AimsAt(evs[i..], want) && FaultFree(evs[i..])
  {
    assert forall j :: 0 <= j < |evs[i..]| ==> evs[i..][j] == evs[i + j];
  }

  /** From where the package is built. */
  lemma ListingConcludes(p: string, s: State, evs: seq<Event>, want: seq<Node>, files: Files) returns (k: nat, s': State)
    requires Inv(p, s) && s.pc == Listing(want) && Wanted(want) && TopIs(s.store, files)
    requires AimedRun(p, s, evs, want) && FaultFree(evs) && |evs| >= 10
    ensures 2 < k <= 10 && EndsAfter(p, s, evs, k, s') && Inv(p, s') && Concluded(s.store, s', want, files)
  {
    var s1, s2 := ReadSteps(p, s, evs, want, files);
    AimedSuffix(evs, 2, want);
    var j;
    j, s' := ComparisonConcludes(p, s.store, s2, evs[2..], want, files);
    k := j + 2;
    EndsTwoLater(p, s, evs, s1, s2, j, k, s');
  }

  lemma EndsTwoLater(p: string, s: State, evs: seq<Event>, s1: State, s2: State, j: nat, k: nat, s': State)
    requires |evs| >= 2 && Step(p, s, evs[0]) == Some(s1) && UnderWay(s1.pc) && Step(p, s1, evs[1]) == Some(s2) && UnderWay(s2.pc)
    requires j + 2 == k && EndsAfter(p, s2, evs[2..], j, s')
    ensures EndsAfter(p, s, evs, k, s')
  {
    var i: nat := j + 1;
    assert evs[1..][0] == evs[1] && evs[1..][1..] == evs[2..];
    EndsLater(p, s1, evs[1..], s2, j, i, s');
    EndsLater(p, s, evs, s1, i, k, s');
  }

  lemma RunConcludes(p: string, s: State, evs: seq<Event>, want: seq<Node>, files: Files) returns (k: nat, s': State)
    requires Ready(p, s) && TopIs(s.store, files) && Wanted(want)
    requires AimedRun(p, s, evs, want) && FaultFree(evs) && |evs| >= 14
    requires evs[2].call.BuildPackage? ==> evs[2].call.desired == want
    ensures evs[2].call == BuildPackage(want) && 5 < k <= 13 && EndsAfter(p, s, evs, k, s')
    ensures Inv(p, s') && Concluded(s.store, s', want, files)
  {
    var s1, s2, s3 := BuildSteps(p, s, evs);
    AimedSuffix(evs, 3, want);
    var j;
    j, s' := ListingConcludes(p, s3, evs[3..], want, files);
    k := j + 3;
    var i: nat := j + 1;
    assert evs[2..][0] == evs[2] && evs[2..][1..] == evs[3..];
    EndsLater(p, s2, evs[2..], s3, j, i, s');
    EndsTwoLater(p, s, evs, s1, s2, i, k, s');
  }

  /** The exact condition for convergence. Take any state between two runs of a live tenant, whose
      highest revision holds any files, and a fault-free run that builds a package that can be aimed
      for. The run ends within thirteen calls, and it ends at its report with the package converged if
      and only if the comparison with those files is right: they parse, it does not panic, and it does
      not say yes to other documents. If it says yes wrongly the run reports all the same; if it fails
      or panics, the run ends with the store as it was. */
  lemma RunConvergesIff(p: string, s: State, evs: seq<Event>, want: seq<Node>, files: Files) returns (k: nat, s': State)
    requires Ready(p, s) && TopIs(s.store, files) && Wanted(want)
    requires AimedRun(p, s, evs, want) && FaultFree(evs) && |evs| >= 14
    requires evs[2].call.BuildPackage? ==> evs[2].call.desired == want
    ensures evs[2].call == BuildPackage(want) && k <= 13 && EndsAfter(p, s, evs, k, s')
    ensures IsReporting(s'.pc) && Converged(s'.store, want) <==> Judged(want, files)
    ensures !Judged(want, files) && Accepts(want, files) ==> IsReporting(s'.pc) && TopIs(s'.store, files)
    ensures !Judged(want, files) && !Accepts(want, files) ==> s'.pc == Idle && s'.store == s.store
  {
    k, s' := RunConcludes(p, s, evs, want, files);
    if !Judged(want, files) && Accepts(want, files) { WrongIsNotConverged(p, s'.store, want, files); }
  }

  lemma WrongIsNotConverged(p: string, store: Store, want: seq<Node>, files: Files)
    requires StoreInv(p, store) && TopIs(store, files) && !Judged(want, files) && Accepts(want, files)
    ensures !Converged(store, want)
  {
    forall top | IsTop(store, top) ensures store[top].files == files { TopIsIt(p, store, files, top); }
  }
}
