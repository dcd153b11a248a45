/** The runs that the theorems of Convergence and Deletion speak of exist. And what is so for good once a
    run has converged, after every history, and at every report. */
module Liveness {
  import opened Options
  import opened Strings
  import opened Numerals
  import opened Documents
  import opened PkgUtil
  import opened Protocol
  import opened Safety
  import opened Quiescence
  import opened Judgement
  import opened Convergence
  import opened Deletion
  import opened Porch

  lemma NoFilesAreReadable()
    ensures Readable(map[])
  {
    NoElements(SortedKeys(Contents(map[])));
  }

  /** A call that can be answered next, for a run that holds no revision yet. */
  lemma NextEarlyCall(p: string, s: State, want: seq<Node>) returns (c: Call)
    requires IsLive(s.pc) && !s.pc.Holding? && Wanted(want) && |s.store| < TWO_64 - 1
    requires s.pc.Begun? ==> s.tenant.Present?
    ensures !IsUserCall(c) && Admissible(c) && Trusted(s, c) && Do(p, s, c).Some?
    ensures AimsAtDocuments(c, want)
  {
    match s.pc
    case Begun(_) => c := AddFinalizer;
    case Building => c := BuildPackage(want);
    case Listing(_) =>
      SortedKeysMembers(s.store.Keys);
      c := ListRevisions(Items(SortedKeys(s.store.Keys)));
    case CreatingFirst(_) =>
      var name := FreshName(s.store.Keys);
      NoFilesAreReadable();
      c := CreateRevision(name, map[]);
  }

  /** The call about the revision in hand that a stage waits for. */
  function CallOf(stage: Stage): Call {
    match stage
    case ReadLatest => ReadResources
    case Comparing => Compare
    case ReadNew => ReadResources
    case Writing => WriteResources
    case GettingDraft => GetDraft
    case Proposing => Propose
    case CheckingApproval => CheckApproval
    case Approving => Approve
    case CreatingNext => Report
    case Reporting => Report
  }

  lemma CallIsAnswered(p: string, s: State)
    requires s.pc.Holding? && s.pc.pr.name in s.store && s.pc.stage != CreatingNext
    ensures Do(p, s, CallOf(s.pc.stage)).Some?
  {
  }

  /** The same, for a run that holds one. */
  lemma NextHoldingCall(p: string, s: State) returns (c: Call)
    requires Inv(p, s) && s.pc.Holding? && !IsReporting(s.pc) && (s.pc.stage == CreatingNext ==> |s.store| < TWO_64 - 1)
    ensures !IsUserCall(c) && Admissible(c) && Trusted(s, c) && Do(p, s, c).Some? && !c.BuildPackage?
  {
    if s.pc.stage == CreatingNext {
      var name := FreshName(s.store.Keys);
      NoFilesAreReadable();
      c := CreateRevision(name, map[]);
    } else {
      c := CallOf(s.pc.stage);
      assert PcInv(s);
      CallIsAnswered(p, s);
    }
  }

  lemma NextLiveEvent(p: string, start: Store, s: State, want: seq<Node>) returns (e: Event)
    requires LiveInv(p, start, s, want) && Wanted(want) && |start| < TWO_64 - 1 && !IsReporting(s.pc)
    requires s.pc.Begun? ==> s.tenant.Present?
    ensures e.answer == Done && !IsUserCall(e.call) && Admissible(e.call) && Trusted(s, e.call) && Do(p, s, e.call).Some?
    ensures AimsAtDocuments(e.call, want)
  {
    var c;
    if s.pc.Holding? {
      c := NextHoldingCall(p, s);
    } else {
      c := NextEarlyCall(p, s, want);
    }
    e := Event(c, Done);
  }

  lemma FaultFreeCons(p: string, s: State, e: Event, rest: seq<Event>, want: seq<Node>)
    requires GoodEvent(p, s, e, want)
    requires FaultFree(rest) && AimedRun(p, Step(p, s, e).value, rest, want)
    ensures FaultFree([e] + rest) && AimedRun(p, s, [e] + rest, want)
    ensures Run(p, s, [e] + rest) == Run(p, Step(p, s, e).value, rest)
  {
    assert ([e] + rest)[1..] == rest;
  }

  lemma {:induction false} ReportIsReachable(p: string, start: Store, s: State, want: seq<Node>) returns (evs: seq<Event>)
    requires LiveInv(p, start, s, want) && Wanted(want) && |start| < TWO_64 - 1
    requires s.pc.Begun? ==> s.tenant.Present?
    ensures FaultFree(evs) && AimedRun(p, s, evs, want)
    ensures Run(p, s, evs).Some? && Reached(start, Run(p, s, evs).value, want)
    decreases Distance(s.pc)
  {
    if IsReporting(s.pc) {
      evs := [];
      ReportReached(p, start, s, want);
    } else {
      var e := NextLiveEvent(p, start, s, want);
      LiveStep(p, start, s, e, want);
      var s' := Step(p, s, e).value;
      assert !s'.pc.Begun?;
      var rest := ReportIsReachable(p, start, s', want);
      FaultFreeCons(p, s, e, rest, want);
      evs := [e] + rest;
    }
  }

  /** From every state that earlier runs can have left, with the comparison with the highest revision
      right, some fault-free run takes a live tenant to its report; by FaultFreeRunConverges every such
      run gets there. */
  lemma ConvergingRunExists(p: string, s: State, want: seq<Node>) returns (evs: seq<Event>)
    requires Ready(p, s) && TopJudged(s.store, want) && Wanted(want) && |s.store| < TWO_64 - 1
    ensures FaultFree(evs) && AimedRun(p, s, evs, want)
    ensures Run(p, s, evs).Some? && Reached(s.store, Run(p, s, evs).value, want)
  {
    var e := Event(GetTenant, Done);
    LiveFromReady(p, s, e, want);
    var rest := ReportIsReachable(p, s.store, Step(p, s, e).value, want);
    FaultFreeCons(p, s, e, rest, want);
    evs := [e] + rest;
  }

  /** The next call of a deletion run. */
  lemma NextEndingCall(p: string, s: State) returns (c: Call)
    requires Inv(p, s) && IsEnding(s)
    ensures !IsUserCall(c) && Trusted(s, c) && Do(p, s, c).Some?
  {
    match s.pc
    case Idle => c := GetTenant;
    case Begun(_) => c := AddFinalizer;
    case ListingDoomed =>
      SortedKeysMembers(s.store.Keys);
      c := ListDoomed(Items(SortedKeys(s.store.Keys)));
    case Deleting(todo) =>
      if todo == [] {
        c := RemoveFinalizer;
      } else {
        c := DeleteRevision;
        assert todo[0] in Elements(todo);
      }
  }

  /** From every state in which a tenant is marked for deletion, some fault-free run ends it; by
      DeletionEnds every such run does. */
  lemma {:induction false} EndingRunExists(p: string, s: State) returns (evs: seq<Event>)
    requires Inv(p, s) && IsEnding(s)
    ensures |evs| == CallsLeft(s) && FaultFree(evs) && TrustedRun(p, s, evs)
    decreases CallsLeft(s)
  {
    var c := NextEndingCall(p, s);
    var e := Event(c, Done);
    StepKeepsInv(p, s, e);
    EndingProgress(p, s, c);
    var s' := Step(p, s, e).value;
    var rest := [];
    if s'.tenant.Present? { rest := EndingRunExists(p, s'); }
    evs := [e] + rest;
    assert evs[1..] == rest;
  }

  // ---------- from the first event on ----------

  lemma StepKeepsUndeleted(p: string, s: State, e: Event)
    requires !IsUserCall(e.call) && Step(p, s, e).Some? && TenantInv(s)
    requires s.tenant.Present? && !s.tenant.deleting
    ensures Step(p, s, e).value.tenant.Present? && !Step(p, s, e).value.tenant.deleting
  {
  }

  lemma {:induction false} RunKeepsUndeleted(p: string, s: State, evs: seq<Event>)
    requires Inv(p, s) && TrustedRun(p, s, evs) && NoUserCalls(evs)
    requires s.tenant.Present? && !s.tenant.deleting
    ensures Run(p, s, evs).Some? && Run(p, s, evs).value.tenant.Present? && !Run(p, s, evs).value.tenant.deleting
    decreases |evs|
  {
    if evs != [] {
      assert !IsUserCall(evs[0].call);
      StepKeepsUndeleted(p, s, evs[0]);
      StepKeepsInv(p, s, evs[0]);
      RunKeepsUndeleted(p, Step(p, s, evs[0]).value, evs[1..]);
    }
  }

  /** A run is a first part and the rest, each aimed as it is. */
  lemma AimedParts(p: string, s: State, evs: seq<Event>, k: nat, want: seq<Node>)
    requires AimedRun(p, s, evs, want) && NoUserCalls(evs) && k <= |evs|
    ensures AimedRun(p, s, evs[..k], want) && NoUserCalls(evs[..k]) && Run(p, s, evs[..k]).Some?
    ensures AimedRun(p, Run(p, s, evs[..k]).value, evs[k..], want) && NoUserCalls(evs[k..])
    ensures Run(p, s, evs) == Run(p, Run(p, s, evs[..k]).value, evs[k..])
  {
    TrustedPrefix(p, s, evs, k);
    TrustedSuffix(p, s, evs, k);
  }

  /** Between two runs, with the comparison with the highest revision right for what is wanted. */
  ghost predicate ReadyFor(p: string, s: State, want: seq<Node>) {
    Ready(p, s) && TopJudged(s.store, want)
  }

  lemma ReadyContent(p: string, s: State, want: seq<Node>)
    requires ReadyFor(p, s, want)
    ensures Inv(p, s) && ContentInv(s, want)
  {
  }

  lemma LiveTenant(p: string, s: State)
    requires Inv(p, s) && IsReporting(s.pc) && s.tenant.Present? && !s.tenant.deleting
    ensures s.tenant == Present(false, true)
  {
    assert TenantInv(s);
  }

  /** At the report of a run from such a state the package is settled. */
  lemma ReportedIsSettled(p: string, s: State, evs: seq<Event>, want: seq<Node>)
    requires ReadyFor(p, s, want) && AimedRun(p, s, evs, want) && NoUserCalls(evs)
    requires Run(p, s, evs).Some? && Reached(s.store, Run(p, s, evs).value, want)
    ensures Settled(p, Run(p, s, evs).value, want)
  {
    ReadyContent(p, s, want);
    RunKeepsInv(p, s, evs);
    RunKeepsContent(p, s, evs, want);
    RunKeepsUndeleted(p, s, evs);
    LiveTenant(p, Run(p, s, evs).value);
    ReportSettles(p, s.store, Run(p, s, evs).value, want);
  }

  /** Where the fault-free part of a run has its report, the package is settled. */
  lemma SettledAfterFourteen(p: string, s: State, evs: seq<Event>, want: seq<Node>) returns (k: nat)
    requires ReadyFor(p, s, want) && AimedRun(p, s, evs, want) && NoUserCalls(evs)
    requires |evs| == 14 && FaultFree(evs)
    ensures k <= 14 && Run(p, s, evs[..k]).Some?
    ensures Settled(p, Run(p, s, evs[..k]).value, want)
    ensures |Run(p, s, evs[..k]).value.store| == |s.store| + (if NeedsNew(s.store, want) then 1 else 0)
  {
    k := FaultFreeRunConverges(p, s, evs, want);
    AimedParts(p, s, evs, k, want);
    ReportedIsSettled(p, s, evs[..k], want);
  }

  lemma SettledFrom(p: string, s: State, evs: seq<Event>, k: nat, want: seq<Node>)
    requires k <= |evs| && Run(p, s, evs[..k]).Some? && Settled(p, Run(p, s, evs[..k]).value, want)
    requires AimedRun(p, s, evs, want) && NoUserCalls(evs)
    ensures Run(p, s, evs).Some? && Run(p, s, evs).value.store == Run(p, s, evs[..k]).value.store
    ensures Converged(Run(p, s, evs).value.store, want)
  {
    AimedParts(p, s, evs, k, want);
    SettledForever(p, Run(p, s, evs[..k]).value, evs[k..], want);
  }

  /** The first part settles, so the whole has settled. */
  lemma SettledWithin(p: string, s: State, evs: seq<Event>, n: nat, k: nat, want: seq<Node>)
    requires k <= n <= |evs| && Run(p, s, evs[..n][..k]).Some? && Settled(p, Run(p, s, evs[..n][..k]).value, want)
    requires AimedRun(p, s, evs, want) && NoUserCalls(evs)
    ensures Run(p, s, evs).Some? && Run(p, s, evs).value.store == Run(p, s, evs[..n][..k]).value.store
    ensures Converged(Run(p, s, evs).value.store, want)
  {
    assert evs[..n][..k] == evs[..k];
    SettledFrom(p, s, evs, k, want);
  }

  /** Convergence for good. Let a tenant be live, in any state that earlier runs have left between
      two runs, with the comparison with the highest revision right. Fourteen calls without a fault are enough: whatever comes after them, in this run or
      later ones, with any faults and any order of the Go maps they walk, the highest revision is
      Published with the wanted documents for as long as those are asked for, and one revision at
      most was ever added. */
  lemma ConvergedForGood(p: string, s: State, evs: seq<Event>, want: seq<Node>)
    requires ReadyFor(p, s, want) && AimedRun(p, s, evs, want) && NoUserCalls(evs)
    requires |evs| >= 14 && FaultFree(evs[..14])
    ensures Run(p, s, evs).Some? && Converged(Run(p, s, evs).value.store, want)
    ensures |Run(p, s, evs).value.store| == |s.store| + (if NeedsNew(s.store, want) then 1 else 0)
  {
    AimedParts(p, s, evs, 14, want);
    var k := SettledAfterFourteen(p, s, evs[..14], want);
    SettledWithin(p, s, evs, 14, k, want);
  }

  /** After any history the invariant holds; only the highest revision decides what comes of the next
      run. */
  lemma HistoryIsReady(p: string, history: seq<Event>)
    requires TrustedRun(p, INITIAL, history)
    ensures Run(p, INITIAL, history).Some? && Inv(p, Run(p, INITIAL, history).value)
  {
    InitialInv(p);
    RunKeepsInv(p, INITIAL, history);
  }

  /** After a history of packages with distinct documents, different ones or not, it is readable. */
  lemma HistoryIsReadable(p: string, history: seq<Event>)
    requires TrustedRun(p, INITIAL, history) && AllAdmissible(history) && Run(p, INITIAL, history).Some?
    ensures var s := Run(p, INITIAL, history).value; IsCurrent(s) ==> TopReadable(s.store)
  {
    InitialInv(p);
    RunKeepsReadable(p, INITIAL, history);
  }

  /** Convergence after every history: from before the tenant existed, through runs cut anywhere and
      packages of any kind, when the comparison with the highest revision there is then is right. */
  lemma EveryHistoryConverges(p: string, history: seq<Event>, evs: seq<Event>, want: seq<Node>)
    requires TrustedRun(p, INITIAL, history) && Run(p, INITIAL, history).Some?
    requires var s := Run(p, INITIAL, history).value;
             && s.pc == Idle && s.tenant.Present? && !s.tenant.deleting && TopJudged(s.store, want)
             && AimedRun(p, s, evs, want)
    requires NoUserCalls(evs) && |evs| >= 14 && FaultFree(evs[..14])
    ensures Run(p, INITIAL, history + evs).Some?
    ensures Converged(Run(p, INITIAL, history + evs).value.store, want)
  {
    HistoryIsReady(p, history);
    RunAppend(p, INITIAL, history, evs);
    ConvergedForGood(p, Run(p, INITIAL, history).value, evs, want);
  }

  /** And there are such histories: a new tenant's first run publishes `v1` with what was asked. */
  lemma FirstRunExists(p: string, want: seq<Node>) returns (evs: seq<Event>)
    requires Wanted(want)
    ensures TrustedRun(p, INITIAL, evs) && AllAdmissible(evs) && Run(p, INITIAL, evs).Some?
    ensures var s := Run(p, INITIAL, evs).value;
            Converged(s.store, want) && |s.store| == 1 && HasNumber(s.store, 1)
  {
    var rest := FirstRunOf(p, want);
    evs := [Event(CreateTenant, Done)] + rest;
    assert evs[1..] == rest;
    NumberedOne(p, evs);
  }

  /** A tenant that was just created. */
  const CREATED: State := State(map[], Present(false, false), Idle)

  lemma FirstRunOf(p: string, want: seq<Node>) returns (evs: seq<Event>)
    requires Wanted(want)
    ensures Step(p, INITIAL, Event(CreateTenant, Done)) == Some(CREATED)
    ensures TrustedRun(p, CREATED, evs) && AllAdmissible(evs) && Run(p, CREATED, evs).Some?
    ensures var s := Run(p, CREATED, evs).value;
            Converged(s.store, want) && |s.store| == 1 && s.tenant.Present? && !s.tenant.deleting
  {
    assert ReadyFor(p, CREATED, want);
    evs := ConvergingRunExists(p, CREATED, want);
    EmptyNeedsNew(CREATED.store, want);
    RunKeepsUndeleted(p, CREATED, evs);
  }

  lemma NumberedOne(p: string, evs: seq<Event>)
    requires TrustedRun(p, INITIAL, evs) && Run(p, INITIAL, evs).Some?
    requires var s := Run(p, INITIAL, evs).value; |s.store| == 1 && s.tenant.Present? && !s.tenant.deleting
    ensures HasNumber(Run(p, INITIAL, evs).value.store, 1)
  {
    EveryRunIsSafe(p, evs);
  }

  // ---------- what a report means ----------

  lemma ReportStep(p: string, s: State, e: Event)
    requires e.call == Report && e.answer != Failed && Step(p, s, e).Some?
    ensures IsReporting(s.pc) && Step(p, s, e).value.store == s.store
  {
  }

  /** The state in front of the last event of a run. */
  lemma BeforeLast(p: string, a: State, before: seq<Event>, last: Event, want: seq<Node>) returns (s: State)
    requires Inv(p, a) && ContentInv(a, want) && Run(p, a, before + [last]).Some? && AimedRun(p, a, before, want)
    ensures Inv(p, s) && ContentInv(s, want) && Step(p, s, last) == Run(p, a, before + [last])
  {
    RunKeepsInv(p, a, before);
    RunKeepsContent(p, a, before, want);
    RunAppend(p, a, before, [last]);
    s := Run(p, a, before).value;
    RunOne(p, s, last);
  }

  lemma LastReport(p: string, a: State, before: seq<Event>, last: Event, want: seq<Node>)
    requires Inv(p, a) && ContentInv(a, want) && Run(p, a, before + [last]).Some?
    requires AimedRun(p, a, before, want) && last.call == Report && last.answer != Failed
    ensures Converged(Run(p, a, before + [last]).value.store, want)
  {
    var s := BeforeLast(p, a, before, last, want);
    ReportStep(p, s, last);
    ReportConverged(p, s, want);
  }

  /** A report at the end, which took effect. */
  predicate EndsInReport(evs: seq<Event>) {
    evs != [] && evs[|evs| - 1].call == Report && evs[|evs| - 1].answer != Failed
  }

  /** Runs that end in a report that took effect leave the highest revision Published with exactly the
      documents asked for, whatever failed in them or before, when the comparison with the highest
      revision they began with is right. */
  lemma ReportMeansConverged(p: string, a: State, evs: seq<Event>, want: seq<Node>)
    requires Inv(p, a) && a.pc == Idle && TopInv(a, want) && Run(p, a, evs).Some? && AimedRun(p, a, evs, want)
    requires EndsInReport(evs)
    ensures Converged(Run(p, a, evs).value.store, want)
  {
    var n := |evs| - 1;
    assert evs == evs[..n] + [evs[n]];
    TrustedPrefix(p, a, evs, n);
    LastReport(p, a, evs[..n], evs[n], want);
  }

  // ---------- what a comparison means ----------

  lemma RightVerdictGoesOn(p: string, s: State, last: Event)
    requires last == Event(Compare, Done) && JudgedEvent(s, last) && Step(p, s, last).Some?
    ensures Step(p, s, last).value.pc.Holding?
  {
    if s.pc.Holding? && s.pc.stage == Comparing { CompareProgress(s.pc); }
  }

  lemma LastComparison(p: string, a: State, before: seq<Event>, last: Event, want: seq<Node>)
    requires Inv(p, a) && ContentInv(a, want) && Run(p, a, before + [last]).Some?
    requires AimedRun(p, a, before, want) && last == Event(Compare, Done)
    ensures Run(p, a, before + [last]).value.pc != Idle
  {
    var s := BeforeLast(p, a, before, last, want);
    TopJudges(p, s, last, want);
    RightVerdictGoesOn(p, s, last);
  }

  /** No run ends at its comparison, when the comparison with the highest revision it began with is
      right. */
  lemma ComparisonIsNotTheEnd(p: string, a: State, evs: seq<Event>, want: seq<Node>)
    requires Inv(p, a) && a.pc == Idle && TopInv(a, want) && Run(p, a, evs).Some? && AimedRun(p, a, evs, want)
    requires EndsInCompare(evs)
    ensures Run(p, a, evs).value.pc != Idle
  {
    var n := |evs| - 1;
    assert evs == evs[..n] + [evs[n]];
    TrustedPrefix(p, a, evs, n);
    LastComparison(p, a, evs[..n], evs[n], want);
  }
}
