/** One fault-free run of a live tenant brings the package to what is wanted, exactly when the
    comparison with what it finds is right; after that nothing is written any more. */
module Convergence {
  import opened Options
  import opened Documents
  import opened SliceScan
  import opened Protocol
  import opened Safety
  import opened Quiescence
  import opened Judgement

  // ---------- a fault-free run makes progress ----------

  /** How many answered calls a live run is at most away from its report. */
  function Distance(pc: PC): nat {
    match pc
    case Holding(stage, _, _, _) => (
      match stage
      case Reporting => 0
      case Approving => 1
      case CheckingApproval => 2
      case Proposing => 3
      case GettingDraft => 4
      case Writing => 5
      case ReadNew => 6
      case CreatingNext => 7
      case Comparing => 8
      case ReadLatest => 9)
    case CreatingFirst(_) => 10
    case Listing(_) => 11
    case Building => 12
    case _ => 13
  }

  predicate IsReporting(pc: PC) {
    pc.Holding? && pc.stage == Reporting
  }

  lemma AfterCompareProgress(pc: PC, same: bool)
    requires pc.Holding? && pc.stage == Comparing
    ensures AfterCompare(pc, same).Holding? && Distance(AfterCompare(pc, same)) < Distance(pc)
  {
  }

  lemma CompareProgress(pc: PC)
    requires pc.Holding? && pc.stage == Comparing && Judged(pc.want, pc.files)
    ensures Compared(pc).Holding? && Distance(Compared(pc)) < Distance(pc)
  {
    ComparedRight(pc);
    AfterCompareProgress(pc, SameDocuments(pc.want, pc.files));
  }

  lemma HoldingProgress(s: State, c: Call)
    requires s.pc.Holding? && s.pc.pr.name in s.store && InHand(s.store, s.pc)
    requires !IsReporting(s.pc) && c != Compare && DoHolding(s, c).Some?
    ensures var pc := DoHolding(s, c).value.pc;
            pc.Holding? && Distance(pc) < Distance(s.pc) && pc.want == s.pc.want && pc.pr.name == s.pc.pr.name
  {
  }

  lemma OtherProgress(p: string, s: State, c: Call)
    requires IsLive(s.pc) && !IsUserCall(c) && Do(p, s, c).Some?
    requires !s.pc.Holding? || c.CreateRevision?
    ensures IsLive(Do(p, s, c).value.pc) && Distance(Do(p, s, c).value.pc) < Distance(s.pc)
  {
  }

  /** Every answered call brings a live run closer to its report, when the comparison is right. */
  lemma DoProgress(p: string, s: State, c: Call)
    requires Inv(p, s) && IsLive(s.pc) && !IsReporting(s.pc) && JudgedEvent(s, Event(c, Done))
    requires !IsUserCall(c) && Do(p, s, c).Some?
    ensures IsLive(Do(p, s, c).value.pc) && Distance(Do(p, s, c).value.pc) < Distance(s.pc)
  {
    if !s.pc.Holding? || c.CreateRevision? {
      OtherProgress(p, s, c);
    } else {
      HoldingCalls(p, s, c);
      assert PcInv(s);
      if c == Compare {
        CompareOnly(s);
        CompareProgress(s.pc);
      } else {
        HoldingProgress(s, c);
      }
    }
  }

  // ---------- what a run changes ----------

  /** Whether the package needs a revision more: none is there, or the highest is no longer a Draft
      and holds other documents. */
  ghost predicate NeedsNew(store: Store, want: seq<Node>) {
    forall top :: IsTop(store, top) ==> store[top].lifecycle != Draft && !SameDocuments(want, store[top].files)
  }

  /** Nothing but the named revision was changed or added, and nothing was removed. */
  ghost predicate Touches(before: Store, after: Store, name: string) {
    && after.Keys == before.Keys + {name}
    && forall n :: n in before && n != name ==> after[n] == before[n]
  }

  /** Stages before anything is written about the revision selected. */
  predicate IsLooking(stage: Stage) {
    stage in {ReadLatest, Comparing, CreatingNext}
  }

  /** What a live run has done to the store it found. */
  ghost predicate SinceStart(start: Store, s: State, want: seq<Node>) {
    match s.pc
    case Holding(stage, _, pr, _) =>
      && Touches(start, s.store, pr.name)
      && (IsLooking(stage) ==>
            if pr.name in start then s.store == start
            else start == map[] && pr.lifecycle == Draft && stage != CreatingNext)
      && (stage == CreatingNext ==> NeedsNew(start, want))
      && (!IsLooking(stage) ==> (pr.name in start <==> !NeedsNew(start, want)))
    case _ => s.store == start
  }

  lemma NeedsNewByTop(p: string, store: Store, top: string, want: seq<Node>)
    requires StoreInv(p, store) && IsTop(store, top)
    ensures NeedsNew(store, want) <==> store[top].lifecycle != Draft && !SameDocuments(want, store[top].files)
  {
    forall other | IsTop(store, other) ensures other == top { OnlyTop(p, store, top, other); }
  }

  lemma EmptyNeedsNew(store: Store, want: seq<Node>)
    requires store == map[]
    ensures NeedsNew(store, want)
  {
  }

  lemma CompareSinceStart(p: string, start: Store, s: State, want: seq<Node>)
    requires Inv(p, s) && s.pc.Holding? && s.pc.stage == Comparing && Judged(s.pc.want, s.pc.files)
    requires SinceStart(start, s, want) && SameWant(s.pc.want, want)
    ensures SinceStart(start, s.(pc := Compared(s.pc)), want)
  {
    assert PcInv(s);
    ComparedRight(s.pc);
    if s.pc.pr.name in start {
      NeedsNewByTop(p, s.store, s.pc.pr.name, want);
    } else {
      EmptyNeedsNew(start, want);
    }
  }

  lemma HoldingSinceStart(p: string, start: Store, s: State, c: Call, want: seq<Node>)
    requires s.pc.Holding? && c != Compare && !IsReporting(s.pc) && DoHolding(s, c).Some?
    requires SinceStart(start, s, want) && DoHolding(s, c).value.pc.Holding?
    requires s.pc.stage == Proposing ==> s.pc.pr.name in s.store
    ensures SinceStart(start, DoHolding(s, c).value, want)
  {
    var s' := DoHolding(s, c).value;
    var name := s.pc.pr.name;
    assert s'.store.Keys == s.store.Keys;
    assert forall n :: n in s.store && n != name ==> s'.store[n] == s.store[n];
  }

  lemma CreateSinceStart(p: string, start: Store, s: State, c: Call, want: seq<Node>)
    requires Inv(p, s) && c.CreateRevision? && Do(p, s, c).Some? && SinceStart(start, s, want)
    ensures SinceStart(start, Do(p, s, c).value, want)
  {
    CreateShape(p, s, c);
    CreateTouches(start, c.name, Do(p, s, c).value.store[c.name]);
    if s.pc.CreatingFirst? {
      EmptyNeedsNew(start, want);
    } else {
      assert s.pc.pr.name in start && s.store == start;
    }
  }

  lemma CreateTouches(start: Store, name: string, r: Revision)
    requires name !in start
    ensures Touches(start, start[name := r], name)
  {
    assert start[name := r].Keys == start.Keys + {name};
  }

  lemma OtherSinceStart(p: string, start: Store, s: State, c: Call, want: seq<Node>)
    requires Inv(p, s) && IsLive(s.pc) && !s.pc.Holding? && !c.CreateRevision? && !IsUserCall(c)
    requires Trusted(s, c) && Do(p, s, c).Some? && SinceStart(start, s, want)
    ensures SinceStart(start, Do(p, s, c).value, want)
  {
    if c.ListRevisions? {
      DoKeepsInv(p, s, c);
      var s' := Do(p, s, c).value;
      if s'.pc.Holding? { assert s'.pc.pr.name in start; }
    }
  }

  /** Every answered call of a live run keeps the account of what it did. */
  lemma DoSinceStart(p: string, start: Store, s: State, c: Call, want: seq<Node>)
    requires Inv(p, s) && IsLive(s.pc) && !IsReporting(s.pc) && !IsUserCall(c) && JudgedEvent(s, Event(c, Done))
    requires Trusted(s, c) && Do(p, s, c).Some? && SinceStart(start, s, want) && HasWant(s.pc, want)
    ensures SinceStart(start, Do(p, s, c).value, want)
  {
    if c.CreateRevision? {
      CreateSinceStart(p, start, s, c, want);
    } else if !s.pc.Holding? {
      OtherSinceStart(p, start, s, c, want);
    } else {
      HoldingCalls(p, s, c);
      assert PcInv(s);
      if c == Compare {
        CompareOnly(s);
        CompareSinceStart(p, start, s, want);
      } else {
        HoldingProgress(s, c);
        HoldingSinceStart(p, start, s, c, want);
      }
    }
  }

  // ---------- convergence ----------

  /** The highest revision is Published and holds exactly the wanted documents. */
  ghost predicate Converged(store: Store, want: seq<Node>) {
    exists top :: IsTop(store, top) && store[top].lifecycle == Published && SameDocuments(want, store[top].files)
  }

  /** What a run that reaches its report has made of the store it found: it has converged, at most
      one revision was changed or added, and one was added exactly when one was needed. */
  ghost predicate Reached(start: Store, s: State, want: seq<Node>) {
    && IsReporting(s.pc)
    && Converged(s.store, want)
    && Touches(start, s.store, s.pc.pr.name)
    && |s.store| == |start| + (if NeedsNew(start, want) then 1 else 0)
  }

  lemma TouchesSize(before: Store, after: Store, name: string)
    requires Touches(before, after, name)
    ensures |after| == |before| + (if name in before then 0 else 1)
  {
    assert |after| == |after.Keys| && |before| == |before.Keys|;
    if name in before {
      assert before.Keys + {name} == before.Keys;
    }
  }

  lemma TopConverges(store: Store, top: string, want: seq<Node>)
    requires IsTop(store, top) && store[top].lifecycle == Published && SameDocuments(want, store[top].files)
    ensures Converged(store, want)
  {
  }

  lemma ReportConverged(p: string, s: State, want: seq<Node>)
    requires Inv(p, s) && SettlingInv(s) && IsReporting(s.pc) && HasWant(s.pc, want)
    ensures Converged(s.store, want)
  {
    assert PcInv(s);
    TopConverges(s.store, s.pc.pr.name, want);
  }

  lemma ReportReached(p: string, start: Store, s: State, want: seq<Node>)
    requires Inv(p, s) && SettlingInv(s) && IsReporting(s.pc) && SinceStart(start, s, want) && HasWant(s.pc, want)
    ensures Reached(start, s, want)
  {
    ReportConverged(p, s, want);
    TouchesSize(start, s.store, s.pc.pr.name);
  }

  /** The comparison that a live run has before it will be right. */
  ghost predicate WillJudge(s: State, want: seq<Node>) {
    match s.pc
    case Holding(stage, w, pr, files) =>
      && (stage == Comparing ==> Judged(w, files))
      && (stage == ReadLatest && pr.name in s.store ==> Judged(w, s.store[pr.name].files))
    case _ => TopJudged(s.store, want)
  }

  /** All that is known during a live run that found the store `start` and aims at `want`. */
  ghost predicate LiveInv(p: string, start: Store, s: State, want: seq<Node>) {
    && Inv(p, s) && IsLive(s.pc) && AimsWell(s.pc) && HasWant(s.pc, want) && SettlingInv(s)
    && SinceStart(start, s, want) && WillJudge(s, want)
  }

  lemma ListWillJudge(p: string, s: State, c: Call, want: seq<Node>)
    requires Inv(p, s) && HasWant(s.pc, want) && WillJudge(s, want)
    requires c.ListRevisions? && Trusted(s, c) && Do(p, s, c).Some?
    ensures WillJudge(Do(p, s, c).value, want)
  {
    var s' := Do(p, s, c).value;
    ListShape(p, s, c);
    ListKeepsInv(p, s, c);
    assert PcInv(s');
    if s'.pc.Holding? { assert JudgedFor(s.store[s'.pc.pr.name].files, want); }
  }

  lemma CreateWillJudge(p: string, s: State, c: Call, want: seq<Node>)
    requires c.CreateRevision? && Readable(c.content) && Do(p, s, c).Some?
    ensures WillJudge(Do(p, s, c).value, want)
  {
    CreateShape(p, s, c);
    CompareReadable(Do(p, s, c).value.pc.want, c.content);
  }

  lemma HoldingWillJudge(s: State, c: Call, want: seq<Node>)
    requires s.pc.Holding? && WillJudge(s, want) && c != Compare && DoHolding(s, c).Some? && DoHolding(s, c).value.pc.Holding?
    ensures WillJudge(DoHolding(s, c).value, want)
  {
  }

  lemma EarlyWillJudge(p: string, s: State, c: Call, want: seq<Node>)
    requires IsLive(s.pc) && !s.pc.Holding? && WillJudge(s, want) && !IsUserCall(c)
    requires !c.ListRevisions? && !c.CreateRevision? && Do(p, s, c).Some?
    ensures WillJudge(Do(p, s, c).value, want)
  {
  }

  lemma CompareWillJudge(pc: PC, s: State, want: seq<Node>)
    requires pc.Holding? && pc.stage == Comparing && Judged(pc.want, pc.files) && s.pc == Compared(pc)
    ensures WillJudge(s, want)
  {
    ComparedRight(pc);
  }

  lemma DoWillJudge(p: string, s: State, c: Call, want: seq<Node>)
    requires Inv(p, s) && IsLive(s.pc) && !IsReporting(s.pc) && HasWant(s.pc, want) && WillJudge(s, want)
    requires !IsUserCall(c) && Trusted(s, c) && Admissible(c) && Do(p, s, c).Some?
    ensures WillJudge(Do(p, s, c).value, want)
  {
    if c.CreateRevision? {
      CreateWillJudge(p, s, c, want);
    } else if c.ListRevisions? {
      ListWillJudge(p, s, c, want);
    } else if !s.pc.Holding? {
      EarlyWillJudge(p, s, c, want);
    } else {
      HoldingCalls(p, s, c);
      assert PcInv(s);
      if c == Compare {
        CompareOnly(s);
        CompareWillJudge(s.pc, Do(p, s, c).value, want);
      } else {
        HoldingProgress(s, c);
        HoldingWillJudge(s, c, want);
      }
    }
  }

  lemma RunPrefix(p: string, s: State, evs: seq<Event>, k: nat)
    requires k < |evs| && Step(p, s, evs[0]).Some?
    ensures Run(p, s, evs[..k + 1]) == Run(p, Step(p, s, evs[0]).value, evs[1..][..k])
  {
    assert evs[..k + 1][0] == evs[0] && evs[..k + 1][1..] == evs[1..][..k];
  }

  /** A first event that is answered, with nothing against it. */
  ghost predicate GoodEvent(p: string, s: State, e: Event, want: seq<Node>) {
    && e.answer == Done && !IsUserCall(e.call) && Admissible(e.call) && AimsAtDocuments(e.call, want)
    && Trusted(s, e.call) && Step(p, s, e).Some?
  }

  lemma AimedRunParts(p: string, s: State, evs: seq<Event>, want: seq<Node>)
    requires AimedRun(p, s, evs, want) && FaultFree(evs) && evs != []
    ensures GoodEvent(p, s, evs[0], want)
    ensures AimedRun(p, Step(p, s, evs[0]).value, evs[1..], want) && FaultFree(evs[1..])
  {
    assert evs[0].answer == Done;
    AimedTail(evs, want);
    assert forall i :: 0 <= i < |evs[1..]| ==> evs[1..][i] == evs[i + 1];
  }

  lemma WillJudgeEvent(s: State, e: Event, want: seq<Node>)
    requires WillJudge(s, want)
    ensures JudgedEvent(s, e)
  {
  }

  lemma LiveStep(p: string, start: Store, s: State, e: Event, want: seq<Node>)
    requires LiveInv(p, start, s, want) && !IsReporting(s.pc)
    requires GoodEvent(p, s, e, want)
    ensures LiveInv(p, start, Step(p, s, e).value, want)
    ensures Distance(Step(p, s, e).value.pc) < Distance(s.pc)
  {
    WillJudgeEvent(s, e, want);
    StepKeepsInv(p, s, e);
    StepAimsWell(p, s, e);
    StepKeepsWant(p, s, e, want);
    StepSettles(p, s, e);
    DoProgress(p, s, e.call);
    DoSinceStart(p, start, s, e.call, want);
    DoWillJudge(p, s, e.call, want);
  }

  /** For so many events the run neither ends nor reports. */
  ghost predicate GoesOn(p: string, s: State, evs: seq<Event>, k: nat)
    decreases k
  {
    k == 0
    || (k <= |evs| && s.pc != Idle && !IsReporting(s.pc) && Step(p, s, evs[0]).Some?
        && GoesOn(p, Step(p, s, evs[0]).value, evs[1..], k - 1))
  }

  /** The run goes on for so many events, and then reports and has made of the store what it should. */
  ghost predicate ReportsAfter(p: string, start: Store, s: State, evs: seq<Event>, k: nat, want: seq<Node>)
    decreases k
  {
    if k == 0 then Reached(start, s, want)
    else
      && k <= |evs| && s.pc != Idle && !IsReporting(s.pc) && Step(p, s, evs[0]).Some?
      && ReportsAfter(p, start, Step(p, s, evs[0]).value, evs[1..], k - 1, want)
  }

  lemma {:induction false} ReportsThen(p: string, start: Store, s: State, evs: seq<Event>, k: nat, want: seq<Node>)
    requires ReportsAfter(p, start, s, evs, k, want) && k <= |evs|
    ensures GoesOn(p, s, evs, k)
    ensures Run(p, s, evs[..k]).Some? && Reached(start, Run(p, s, evs[..k]).value, want)
    decreases k
  {
    if k == 0 {
      assert evs[..k] == [];
    } else {
      ReportsThen(p, start, Step(p, s, evs[0]).value, evs[1..], k - 1, want);
      RunPrefix(p, s, evs, k - 1);
    }
  }

  /** Events that are answered, with nothing against any of them. */
  ghost predicate GoodRun(p: string, s: State, evs: seq<Event>, want: seq<Node>)
    decreases |evs|
  {
    evs == [] || (GoodEvent(p, s, evs[0], want) && GoodRun(p, Step(p, s, evs[0]).value, evs[1..], want))
  }

  lemma {:induction false} FaultFreeIsGood(p: string, s: State, evs: seq<Event>, want: seq<Node>)
    requires AimedRun(p, s, evs, want) && FaultFree(evs)
    ensures GoodRun(p, s, evs, want)
    decreases |evs|
  {
    if evs != [] {
      AimedRunParts(p, s, evs, want);
      FaultFreeIsGood(p, Step(p, s, evs[0]).value, evs[1..], want);
    }
  }

  lemma ReportsLater(p: string, start: Store, s: State, evs: seq<Event>, j: nat, k: nat, want: seq<Node>)
    requires evs != [] && s.pc != Idle && !IsReporting(s.pc) && Step(p, s, evs[0]).Some?
    requires j + 1 == k <= |evs| && ReportsAfter(p, start, Step(p, s, evs[0]).value, evs[1..], j, want)
    ensures ReportsAfter(p, start, s, evs, k, want)
  {
  }

  lemma {:induction false} LiveRunReports(p: string, start: Store, s: State, evs: seq<Event>, want: seq<Node>)
    returns (k: nat)
    requires LiveInv(p, start, s, want) && GoodRun(p, s, evs, want) && |evs| >= Distance(s.pc)
    ensures k <= Distance(s.pc) && ReportsAfter(p, start, s, evs, k, want)
    decreases |evs|
  {
    if IsReporting(s.pc) {
      k := 0;
      ReportReached(p, start, s, want);
    } else {
      NotThereYet(s.pc);
      LiveStep(p, start, s, evs[0], want);
      var j := LiveRunReports(p, start, Step(p, s, evs[0]).value, evs[1..], want);
      k := j + 1;
      ReportsLater(p, start, s, evs, j, k, want);
    }
  }

  lemma NotThereYet(pc: PC)
    ensures Distance(pc) == 0 <==> IsReporting(pc)
  {
  }

  /** Between two runs of a tenant that is not being deleted. */
  ghost predicate Ready(p: string, s: State) {
    Inv(p, s) && s.pc == Idle && s.tenant.Present? && !s.tenant.deleting
  }

  lemma LiveFromReady(p: string, s: State, e: Event, want: seq<Node>)
    requires Ready(p, s) && TopJudged(s.store, want) && e.answer == Done && !IsUserCall(e.call) && Step(p, s, e).Some?
    ensures Step(p, s, e) == Some(s.(pc := Begun(false))) && LiveInv(p, s.store, s.(pc := Begun(false)), want)
  {
    FirstCall(p, s, e.call);
    StepKeepsInv(p, s, e);
  }

  /** Convergence. Take any state between two runs of a live tenant that earlier runs, cut anywhere,
      can have left, with the comparison with the highest revision right for the documents wanted.
      Then any fault-free run that aims at them reports within fourteen calls; when it does, the highest
      revision is Published and holds the wanted documents, no other revision has been touched, and
      exactly one was added if one was needed. */
  lemma FaultFreeRunConverges(p: string, s: State, evs: seq<Event>, want: seq<Node>) returns (k: nat)
    requires Ready(p, s) && TopJudged(s.store, want)
    requires AimedRun(p, s, evs, want) && FaultFree(evs) && |evs| >= 14
    ensures k <= 14 && Run(p, s, evs[..k]).Some?
    ensures Reached(s.store, Run(p, s, evs[..k]).value, want)
  {
    AimedRunParts(p, s, evs, want);
    LiveFromReady(p, s, evs[0], want);
    FaultFreeIsGood(p, Step(p, s, evs[0]).value, evs[1..], want);
    var j := LiveRunReports(p, s.store, Step(p, s, evs[0]).value, evs[1..], want);
    ReportsThen(p, s.store, Step(p, s, evs[0]).value, evs[1..], j, want);
    RunPrefix(p, s, evs, j);
    k := j + 1;
  }

  lemma SameKeys(start: Store, after: Store, name: string)
    requires Touches(start, after, name) && |after| == |start|
    ensures name in start && after.Keys == start.Keys
  {
    TouchesSize(start, after, name);
    if name in start { assert start.Keys + {name} == start.Keys; }
  }

  lemma ReportedTop(p: string, s: State)
    requires Inv(p, s) && IsReporting(s.pc)
    ensures StoreInv(p, s.store) && Dense(s.store) && IsTop(s.store, s.pc.pr.name)
    ensures s.store[s.pc.pr.name].lifecycle == Published
  {
  }

  lemma SameTop(p: string, start: Store, after: Store, top: string, name: string)
    requires StoreInv(p, start) && Dense(start) && IsTop(start, top)
    requires StoreInv(p, after) && Dense(after) && IsTop(after, name)
    requires Touches(start, after, name) && |after| == |start|
    ensures name == top
  {
    TopNumber(p, start, top);
    TopNumber(p, after, name);
    assert top in after;
  }

  /** A run cut before its approval is completed by the next: when the highest revision found holds
      the wanted documents already and was not yet Published, that same revision is the one
      Published at the report, and no revision was added. */
  lemma CutApprovalIsCompleted(p: string, start: Store, s: State, want: seq<Node>, top: string)
    requires StoreInv(p, start) && Dense(start) && IsTop(start, top)
    requires start[top].lifecycle != Published && SameDocuments(want, start[top].files)
    requires Reached(start, s, want) && Inv(p, s)
    ensures s.store.Keys == start.Keys && s.pc.pr.name == top && s.store[top].lifecycle == Published
  {
    NeedsNewByTop(p, start, top, want);
    SameKeys(start, s.store, s.pc.pr.name);
    ReportedTop(p, s);
    SameTop(p, start, s.store, top, s.pc.pr.name);
  }

  // ---------- quiescence ----------

  /** Where a run can be when the package is already what it aims at. */
  predicate IsQuiet(pc: PC, want: seq<Node>) {
    match pc
    case Idle => true
    case Begun(deletion) => !deletion
    case Building => true
    case Listing(w) => SameWant(w, want)
    case Holding(stage, w, _, _) => stage in {ReadLatest, Comparing, Reporting} && SameWant(w, want)
    case _ => false
  }

  ghost predicate Settled(p: string, s: State, want: seq<Node>) {
    && Inv(p, s) && TopJudged(s.store, want) && Converged(s.store, want)
    && s.tenant == Present(false, true) && IsQuiet(s.pc, want)
  }

  /** Files with the wanted documents, rightly judged, are accepted for every list of these. */
  lemma AcceptsSameWant(w: seq<Node>, want: seq<Node>, files: Files)
    requires JudgedFor(files, want) && SameDocuments(want, files) && SameWant(w, want)
    ensures Accepts(w, files)
  {
    assert Judged(w, files);
  }

  lemma SettledRests(p: string, s: State, want: seq<Node>) returns (files: Files)
    requires Settled(p, s, want)
    ensures Resting(p, s, files, Answer(true)) && JudgedFor(files, want) && SameDocuments(want, files)
  {
    var top :| IsTop(s.store, top) && s.store[top].lifecycle == Published && SameDocuments(want, s.store[top].files);
    files := s.store[top].files;
    var w := match s.pc case Listing(w) => w case Holding(_, w, _, _) => w case _ => want;
    AcceptsSameWant(w, want, files);
  }

  /** Quiescence. Once the highest revision is Published with the wanted documents, no sequence of
      runs that aim at the same documents, faulty or not, ever writes to the store again. */
  lemma SettledForever(p: string, s: State, evs: seq<Event>, want: seq<Node>)
    requires Settled(p, s, want)
    requires TrustedRun(p, s, evs) && AimsAt(evs, want) && NoUserCalls(evs)
    ensures Run(p, s, evs).Some? && Run(p, s, evs).value.store == s.store
  {
    var files := SettledRests(p, s, want);
    forall i | 0 <= i < |evs| && evs[i].answer != Failed ensures BuildGets(evs[i].call, files, Answer(true)) {
      assert AimsAtDocuments(evs[i].call, want);
      if evs[i].call.BuildPackage? { AcceptsSameWant(evs[i].call.desired, want, files); }
    }
    RestingForever(p, s, evs, files, Answer(true));
  }

  /** The report of a converged run leaves the package settled, so the two theorems connect. */
  lemma ReportSettles(p: string, start: Store, s: State, want: seq<Node>)
    requires Inv(p, s) && TopJudged(s.store, want) && Reached(start, s, want) && s.tenant == Present(false, true)
    requires HasWant(s.pc, want)
    ensures Settled(p, s, want)
  {
  }

  /** The tenant is called available only when the highest revision is Published: at the one step
      that reports it, with any faults before. */
  lemma AvailableMeansPublished(p: string, evs: seq<Event>)
    requires TrustedRun(p, INITIAL, evs) && Run(p, INITIAL, evs).Some?
    requires Do(p, Run(p, INITIAL, evs).value, Report).Some?
    ensures var s := Run(p, INITIAL, evs).value;
            s.pc.Holding? && IsTop(s.store, s.pc.pr.name) && s.store[s.pc.pr.name].lifecycle == Published
  {
    InitialInv(p);
    RunKeepsInv(p, INITIAL, evs);
    ReportInHand(p, Run(p, INITIAL, evs).value);
  }

  lemma ReportInHand(p: string, s: State)
    requires PcInv(s) && Do(p, s, Report).Some?
    ensures s.pc.Holding? && IsTop(s.store, s.pc.pr.name) && s.store[s.pc.pr.name].lifecycle == Published
  {
  }
}
