/** Which lower revisions are Published: those superseded when they were, and no others. */
module Superseded {
  import opened Options
  import opened Documents
  import opened Protocol
  import opened Safety
  import opened Judgement
  import opened Convergence
  import opened Liveness

  /** Every revision but the highest is Published. */
  ghost predicate LowerPublished(store: Store) {
    forall n :: IsSuperseded(store, n) ==> store[n].lifecycle == Published
  }

  /** The step creates a revision above the one in hand, and that one is not Published. */
  predicate Supersedes(s: State, e: Event) {
    e.call.CreateRevision? && e.answer != Failed && s.pc.Holding? && s.pc.pr.lifecycle != Published
  }

  /** Every next revision is created with a Published one in hand. */
  ghost predicate SupersedesPublishedOnly(p: string, s: State, evs: seq<Event>)
    decreases |evs|
  {
    evs == []
    || (!Supersedes(s, evs[0]) && Step(p, s, evs[0]).Some?
        && SupersedesPublishedOnly(p, Step(p, s, evs[0]).value, evs[1..]))
  }

  /** What one step can do to the store, deletes aside: nothing, a first revision, a next revision, or
      a change of the revision in hand that keeps its number. */
  lemma StoreSteps(p: string, s: State, e: Event)
    requires Step(p, s, e).Some? && !e.call.DeleteRevision?
    ensures var s' := Step(p, s, e).value;
            || s'.store == s.store
            || (e.call.CreateRevision? && e.answer != Failed && e.call.name !in s.store
                && (s.pc.CreatingFirst? || (s.pc.Holding? && s.pc.stage == CreatingNext))
                && s'.store == s.store[e.call.name := s'.store[e.call.name]] && e.call.name in s'.store)
            || (!e.call.CreateRevision? && s.pc.Holding? && s.pc.pr.name in s.store && s'.store.Keys == s.store.Keys
                && forall n :: n in s.store && n != s.pc.pr.name ==> s'.store[n] == s.store[n])
  {
  }

  lemma SameLower(store: Store, after: Store, top: string)
    requires IsTop(store, top) && after.Keys == store.Keys && after[top].number == store[top].number
    requires forall n :: n in store && n != top ==> after[n] == store[n]
    ensures LowerPublished(after) <==> LowerPublished(store)
  {
    assert forall n :: n in store ==> after[n].number == store[n].number;
    forall n ensures IsSuperseded(after, n) <==> IsSuperseded(store, n) ensures IsSuperseded(store, n) ==> n != top {
      if IsSuperseded(after, n) {
        var m :| m in after && after[m].number > after[n].number;
        assert m in store && store[m].number > store[n].number;
      }
      if IsSuperseded(store, n) {
        var m :| m in store && store[m].number > store[n].number;
        assert m in after && after[m].number > after[n].number;
      }
    }
  }

  lemma NewTopLower(p: string, store: Store, name: string, r: Revision, top: string)
    requires StoreInv(p, store) && IsTop(store, top) && name !in store && r.number > store[top].number
    ensures LowerPublished(store[name := r]) <==> LowerPublished(store) && store[top].lifecycle == Published
  {
    var after := store[name := r];
    assert IsSuperseded(after, top) by { assert name in after && after[name].number > after[top].number; }
    forall n ensures IsSuperseded(after, n) <==> n in store {
      if n in store { assert name in after && after[name].number > after[n].number; }
      if IsSuperseded(after, n) {
        var m :| m in after && after[m].number > after[n].number;
        assert n == name ==> m in store;
      }
    }
    forall n | n in store && n != top ensures IsSuperseded(store, n) {
      assert top in store && store[top].number > store[n].number;
    }
    assert forall n :: IsSuperseded(store, n) ==> n in store;
    if LowerPublished(after) {
      forall n | IsSuperseded(store, n) ensures store[n].lifecycle == Published { assert IsSuperseded(after, n); }
    }
  }

  lemma OneIsNotSuperseded(store: Store, name: string, r: Revision)
    requires store == map[]
    ensures LowerPublished(store[name := r])
  {
    var after := store[name := r];
    assert forall n :: n in after ==> n == name;
  }

  lemma CreateStep(p: string, s: State, e: Event)
    requires Inv(p, s) && Trusted(s, e.call) && Step(p, s, e).Some?
    requires e.call.CreateRevision? && e.answer != Failed
    ensures LowerPublished(Step(p, s, e).value.store) <==> LowerPublished(s.store) && !Supersedes(s, e)
  {
    if s.pc.CreatingFirst? {
      OneIsNotSuperseded(s.store, e.call.name, Revision(p, 1, Draft, e.call.content));
    } else {
      CreateNextShape(p, s, e.call);
      CreateNextKeepsInv(p, s, e.call);
      TopNumber(p, s.store, s.pc.pr.name);
      NewTopLower(p, s.store, e.call.name, Revision(p, Next(s.pc.pr.number), Draft, e.call.content), s.pc.pr.name);
    }
  }

  lemma LowerStep(p: string, s: State, e: Event)
    requires Inv(p, s) && TrustedEvent(s, e) && Step(p, s, e).Some? && !e.call.DeleteRevision?
    ensures LowerPublished(Step(p, s, e).value.store) <==> LowerPublished(s.store) && !Supersedes(s, e)
  {
    if e.call.CreateRevision? && e.answer != Failed {
      CreateStep(p, s, e);
    } else {
      StoreSteps(p, s, e);
      var s' := Step(p, s, e).value;
      if s'.store != s.store {
        assert PcInv(s);
        StepEvolves(p, s, e, s.pc.pr.name);
        SameLower(s.store, s'.store, s.pc.pr.name);
      }
    }
  }

  /** Over runs without a deletion: every lower revision is Published at the end if and only if that
      was so at the start and every next revision was created with a Published one in hand. */
  lemma {:induction false} LowerPublishedIff(p: string, s: State, evs: seq<Event>)
    requires Inv(p, s) && TrustedRun(p, s, evs) && NoDeletion(evs)
    ensures Run(p, s, evs).Some?
    ensures LowerPublished(Run(p, s, evs).value.store) <==> LowerPublished(s.store) && SupersedesPublishedOnly(p, s, evs)
    decreases |evs|
  {
    if evs != [] {
      var s' := Step(p, s, evs[0]).value;
      assert !evs[0].call.DeleteRevision?;
      assert forall i :: 0 <= i < |evs[1..]| ==> evs[1..][i] == evs[i + 1];
      StepKeepsInv(p, s, evs[0]);
      LowerStep(p, s, evs[0]);
      LowerPublishedIff(p, s', evs[1..]);
    }
  }

  // ---------- a run cut after it proposed ----------

  /** A first run of a new tenant, before it proposes: its one revision is a Draft. */
  ghost predicate Unproposed(p: string, start: Store, s: State, want: seq<Node>) {
    start == map[] && LiveInv(p, start, s, want) && Distance(s.pc) >= 3
  }

  lemma DraftInHand(p: string, start: Store, s: State, want: seq<Node>)
    requires start == map[] && Inv(p, s) && s.pc.Holding? && SinceStart(start, s, want) && Distance(s.pc) >= 3
    ensures s.pc.pr.name in s.store && s.pc.pr.lifecycle == Draft && s.pc.stage != CreatingNext
    ensures s.store.Keys == {s.pc.pr.name}
  {
    assert PcInv(s);
  }

  lemma HoldingStaysUnproposed(s: State, c: Call)
    requires s.pc.Holding? && s.pc.pr.lifecycle == Draft && Distance(s.pc) > 3 && c != Compare && DoHolding(s, c).Some?
    ensures DoHolding(s, c).value.pc.Holding? && Distance(DoHolding(s, c).value.pc) >= 3
  {
  }

  lemma CompareStaysUnproposed(pc: PC)
    requires pc.Holding? && pc.pr.lifecycle == Draft && Judged(pc.want, pc.files)
    ensures Compared(pc).Holding? && Distance(Compared(pc)) >= 3
  {
    ComparedRight(pc);
    DraftAfterCompare(pc, SameDocuments(pc.want, pc.files));
  }

  lemma DraftAfterCompare(pc: PC, same: bool)
    requires pc.Holding? && pc.pr.lifecycle == Draft
    ensures AfterCompare(pc, same).Holding? && Distance(AfterCompare(pc, same)) >= 3
  {
  }

  lemma EarlyStaysUnproposed(p: string, s: State, c: Call)
    requires IsLive(s.pc) && !s.pc.Holding? && !IsUserCall(c) && Do(p, s, c).Some?
    ensures Distance(Do(p, s, c).value.pc) >= 3 && !Do(p, s, c).value.pc.Begun?
  {
  }

  lemma StaysUnproposed(p: string, start: Store, s: State, e: Event, want: seq<Node>)
    requires start == map[] && LiveInv(p, start, s, want) && Distance(s.pc) > 3 && GoodEvent(p, s, e, want)
    ensures Distance(Step(p, s, e).value.pc) >= 3 && !Step(p, s, e).value.pc.Begun?
  {
    if !s.pc.Holding? {
      EarlyStaysUnproposed(p, s, e.call);
    } else {
      DraftInHand(p, start, s, want);
      WillJudgeEvent(s, e, want);
      HeldStaysUnproposed(p, s, e);
    }
  }

  lemma HeldStaysUnproposed(p: string, s: State, e: Event)
    requires s.pc.Holding? && s.pc.pr.lifecycle == Draft && s.pc.stage != CreatingNext && Distance(s.pc) > 3
    requires e.answer == Done && !IsUserCall(e.call) && JudgedEvent(s, e) && Do(p, s, e.call).Some?
    ensures Do(p, s, e.call).value.pc.Holding? && Distance(Do(p, s, e.call).value.pc) >= 3
  {
    HoldingOnly(p, s, e.call);
    if e.call == Compare {
      CompareStaysUnproposed(s.pc);
    } else {
      HoldingStaysUnproposed(s, e.call);
    }
  }

  lemma HoldingOnly(p: string, s: State, c: Call)
    requires s.pc.Holding? && s.pc.stage != CreatingNext && !IsUserCall(c) && Do(p, s, c).Some?
    ensures Do(p, s, c) == DoHolding(s, c)
    ensures c == Compare ==> s.pc.stage == Comparing && DoHolding(s, c).value == s.(pc := Compared(s.pc))
  {
  }

  lemma {:induction false} ProposingIsReachable(p: string, start: Store, s: State, want: seq<Node>) returns (evs: seq<Event>)
    requires start == map[] && LiveInv(p, start, s, want) && Distance(s.pc) >= 3
    requires Wanted(want) && (s.pc.Begun? ==> s.tenant.Present?)
    ensures FaultFree(evs) && AimedRun(p, s, evs, want) && Run(p, s, evs).Some?
    ensures LiveInv(p, start, Run(p, s, evs).value, want) && Distance(Run(p, s, evs).value.pc) == 3
    decreases Distance(s.pc)
  {
    if Distance(s.pc) == 3 {
      evs := [];
    } else {
      NotThereYet(s.pc);
      var e := NextLiveEvent(p, start, s, want);
      LiveStep(p, start, s, e, want);
      StaysUnproposed(p, start, s, e, want);
      var rest := ProposingIsReachable(p, start, Step(p, s, e).value, want);
      FaultFreeCons(p, s, e, rest, want);
      evs := [e] + rest;
    }
  }

  /** A package whose one revision was proposed, and no more, with the documents asked for. */
  ghost predicate LeftProposed(p: string, s: State, want: seq<Node>, name: string) {
    && Ready(p, s) && Wanted(want) && s.store.Keys == {name} && IsTop(s.store, name)
    && s.store[name].lifecycle == Proposed && SameDocuments(want, s.store[name].files)
  }

  lemma ProposeLost(p: string, start: Store, s: State, want: seq<Node>)
    requires Unproposed(p, start, s, want) && Wanted(want) && Distance(s.pc) == 3 && s.tenant.Present? && !s.tenant.deleting
    ensures var e := Event(Propose, Lost);
            && Trusted(s, e.call) && Step(p, s, e).Some?
            && LeftProposed(p, Step(p, s, e).value, want, s.pc.pr.name)
  {
    var e := Event(Propose, Lost);
    assert s.pc.Holding? && s.pc.stage == Proposing;
    DraftInHand(p, start, s, want);
    ProposeShape(p, s);
    StepKeepsInv(p, s, e);
    HoldsWant(p, start, s, want);
    OnlyOneIsTop(Step(p, s, e).value.store, s.pc.pr.name);
  }

  lemma HoldsWant(p: string, start: Store, s: State, want: seq<Node>)
    requires Unproposed(p, start, s, want) && s.pc.Holding? && s.pc.stage == Proposing && s.pc.pr.name in s.store
    ensures SameDocuments(want, s.store[s.pc.pr.name].files)
  {
    SameWantSameDocuments(s.pc.want, want, s.store[s.pc.pr.name].files);
  }

  lemma OnlyOneIsTop(store: Store, name: string)
    requires store.Keys == {name}
    ensures IsTop(store, name)
  {
  }

  lemma SameWantSameDocuments(a: seq<Node>, b: seq<Node>, files: Files)
    requires SameWant(a, b)
    ensures SameDocuments(a, files) <==> SameDocuments(b, files)
  {
  }

  lemma ProposeShape(p: string, s: State)
    requires s.pc.Holding? && s.pc.stage == Proposing && s.pc.pr.name in s.store
    ensures Step(p, s, Event(Propose, Lost)).Some?
    ensures var s' := Step(p, s, Event(Propose, Lost)).value;
            && s'.pc == Idle && s'.tenant == s.tenant && s'.store.Keys == s.store.Keys
            && s'.store[s.pc.pr.name].lifecycle == Proposed
            && s'.store[s.pc.pr.name].files == s.store[s.pc.pr.name].files
  {
    assert s.store.Keys + {s.pc.pr.name} == s.store.Keys;
  }

  /** Events that admissible inputs allow. */
  ghost predicate Happens(p: string, s: State, evs: seq<Event>, s': State) {
    TrustedRun(p, s, evs) && AllAdmissible(evs) && Run(p, s, evs) == Some(s')
  }

  lemma {:induction false} HappensAppend(p: string, s: State, a: seq<Event>, s': State, b: seq<Event>, s'': State)
    requires Happens(p, s, a, s') && Happens(p, s', b, s'')
    ensures Happens(p, s, a + b, s'')
    decreases |a|
  {
    if a == [] {
      assert a + b == b;
    } else {
      assert (a + b)[0] == a[0] && (a + b)[1..] == a[1..] + b;
      assert forall i :: 0 <= i < |a[1..]| ==> a[1..][i] == a[i + 1];
      HappensAppend(p, Step(p, s, a[0]).value, a[1..], s', b, s'');
    }
  }

  lemma HappensOne(p: string, s: State, e: Event)
    requires Trusted(s, e.call) && Admissible(e.call) && Step(p, s, e).Some?
    ensures Happens(p, s, [e], Step(p, s, e).value)
  {
    RunOne(p, s, e);
    assert [e][1..] == [];
  }

  lemma NewTenantProposes(p: string, start: Store, want: seq<Node>) returns (evs: seq<Event>, s: State)
    requires start == map[] && Wanted(want)
    ensures Happens(p, CREATED.(pc := Begun(false)), evs, s)
    ensures Unproposed(p, start, s, want) && Distance(s.pc) == 3 && s.tenant.Present? && !s.tenant.deleting
  {
    var begun := CREATED.(pc := Begun(false));
    assert LiveInv(p, start, begun, want);
    evs := ProposingIsReachable(p, start, begun, want);
    s := Run(p, begun, evs).value;
    RunKeepsUndeleted(p, begun, evs);
  }

  lemma GetCreated(p: string)
    ensures Happens(p, CREATED, [Event(GetTenant, Done)], CREATED.(pc := Begun(false)))
  {
    HappensOne(p, CREATED, Event(GetTenant, Done));
  }

  /** A new tenant's first run, cut after it proposed. */
  lemma CutAfterPropose(p: string, want: seq<Node>) returns (evs: seq<Event>, s: State, name: string)
    requires Wanted(want)
    ensures Happens(p, CREATED, evs, s) && LeftProposed(p, s, want, name)
  {
    var start: Store := map[];
    var rest, proposing := NewTenantProposes(p, start, want);
    var cut := Event(Propose, Lost);
    ProposeLost(p, start, proposing, want);
    HappensOne(p, proposing, cut);
    s := Step(p, proposing, cut).value;
    name := proposing.pc.pr.name;
    HappensAppend(p, CREATED.(pc := Begun(false)), rest, proposing, [cut], s);
    GetCreated(p);
    HappensAppend(p, CREATED, [Event(GetTenant, Done)], CREATED.(pc := Begun(false)), rest + [cut], s);
    evs := [Event(GetTenant, Done)] + (rest + [cut]);
  }

  /** Over a package left Proposed, a converging run for other documents supersedes it for good. */
  lemma OthersSupersede(p: string, start: Store, s: State, want: seq<Node>, other: seq<Node>, name: string)
    requires StoreInv(p, start) && start.Keys == {name} && IsTop(start, name)
    requires start[name].lifecycle == Proposed && SameDocuments(want, start[name].files) && !SameWant(want, other)
    requires Inv(p, s) && Reached(start, s, other)
    ensures IsSuperseded(s.store, name) && s.store[name].lifecycle == Proposed
  {
    NeedsNewByTop(p, start, name, other);
    assert |start| == |start.Keys| == 1;
    var top := s.pc.pr.name;
    TouchesSize(start, s.store, top);
    assert top !in start && name in s.store && s.store[name] == start[name];
    ReportedTop(p, s);
    assert s.store[name].number != s.store[top].number;
  }

  lemma WantedIsReadable(p: string, store: Store, top: string, want: seq<Node>, other: seq<Node>)
    requires StoreInv(p, store) && IsTop(store, top) && Wanted(want) && SameDocuments(want, store[top].files)
    ensures TopJudged(store, other)
  {
    HoldsWantedIsReadable(want, store[top].files);
    ReadableIsJudged(store[top].files, other);
    OneTopJudged(p, store, top, other);
  }

  lemma OtherRun(p: string, s: State, want: seq<Node>, other: seq<Node>, name: string) returns (evs: seq<Event>, s': State)
    requires LeftProposed(p, s, want, name) && Wanted(other) && !SameWant(want, other)
    ensures Happens(p, s, evs, s')
    ensures IsSuperseded(s'.store, name) && s'.store[name].lifecycle == Proposed && Converged(s'.store, other)
  {
    assert |s.store| == |s.store.Keys| == 1;
    WantedIsReadable(p, s.store, name, want, other);
    evs := ConvergingRunExists(p, s, other);
    s' := Run(p, s, evs).value;
    RunKeepsInv(p, s, evs);
    OthersSupersede(p, s.store, s', want, other, name);
  }

  /** So not all lower revisions are Published: for any two packages with different documents there is
      a history after which the first is left Proposed below the second, which is Published. */
  lemma SupersededProposedExists(p: string, want: seq<Node>, other: seq<Node>) returns (evs: seq<Event>, s: State, name: string)
    requires Wanted(want) && Wanted(other) && !SameWant(want, other)
    ensures Happens(p, INITIAL, evs, s)
    ensures IsSuperseded(s.store, name) && s.store[name].lifecycle == Proposed && Converged(s.store, other)
  {
    var create := Event(CreateTenant, Done);
    var first, left, n := CutAfterPropose(p, want);
    name := n;
    var second;
    second, s := OtherRun(p, left, want, other, name);
    HappensOne(p, INITIAL, create);
    HappensAppend(p, CREATED, first, left, second, s);
    HappensAppend(p, INITIAL, [create], CREATED, first + second, s);
    evs := [create] + (first + second);
  }
}
