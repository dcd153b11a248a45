/** The deletion of a tenant: what a deletion run, cut anywhere, has done, and when it is over. */
module Deletion {
  import opened Options
  import opened Strings
  import opened Protocol
  import opened Safety

  // ---------- nothing is created once deletion has begun ----------

  /** The tenant is marked for deletion and no live run is under way. */
  predicate IsEnding(s: State) {
    s.tenant == Present(true, true) && !IsLive(s.pc)
  }

  /** `after` is what is left of `before` once some revisions were deleted. */
  ghost predicate OnlyDeletes(before: Store, after: Store) {
    forall n :: n in after ==> n in before && after[n] == before[n]
  }

  lemma EndingDo(p: string, s: State, c: Call)
    requires IsEnding(s) && Do(p, s, c).Some?
    ensures var s' := Do(p, s, c).value;
            OnlyDeletes(s.store, s'.store) && (IsEnding(s') || (s'.tenant.Gone? && s'.pc == Idle))
  {
  }

  lemma EndingStep(p: string, s: State, e: Event)
    requires IsEnding(s) && Step(p, s, e).Some?
    ensures var s' := Step(p, s, e).value;
            OnlyDeletes(s.store, s'.store) && (IsEnding(s') || (s'.tenant.Gone? && s'.pc == Idle))
  {
    if e.answer != Failed { EndingDo(p, s, e.call); }
  }

  /** The tenant is there at every moment before the last of the run. */
  ghost predicate StaysUntilLast(p: string, s: State, evs: seq<Event>)
    decreases |evs|
  {
    evs == []
    || (s.tenant.Present? && Step(p, s, evs[0]).Some? && StaysUntilLast(p, Step(p, s, evs[0]).value, evs[1..]))
  }

  /** From the moment a tenant is marked for deletion and no earlier run is under way, no run creates
      or changes a revision until the tenant is gone. This holds whatever the server answers. */
  lemma {:induction false} NothingCreatedWhileEnding(p: string, s: State, evs: seq<Event>)
    requires IsEnding(s) && StaysUntilLast(p, s, evs)
    ensures Run(p, s, evs).Some? && OnlyDeletes(s.store, Run(p, s, evs).value.store)
    decreases |evs|
  {
    if evs != [] {
      var s' := Step(p, s, evs[0]).value;
      EndingStep(p, s, evs[0]);
      if IsEnding(s') {
        NothingCreatedWhileEnding(p, s', evs[1..]);
      } else {
        assert evs[1..] == [];
      }
    }
  }

  // ---------- what one deletion run has done ----------

  function Removed(store: Store, names: seq<string>): Store {
    map n | n in store && n !in names :: store[n]
  }

  /** A deletion run that found the store `start` and lists `all` has removed a prefix of the list
      and nothing else: `k` names while it runs, one more at most when its last answer was lost. */
  ghost predicate HasRemovedPrefix(start: Store, all: seq<string>, s: State) {
    exists k: nat :: RemovedUpTo(start, all, s, k)
  }

  ghost predicate RemovedUpTo(start: Store, all: seq<string>, s: State, k: nat) {
    k <= |all| && s.store == Removed(start, all[..k]) && (s.pc.Deleting? ==> s.pc.todo == all[k..])
  }

  lemma RemoveNext(start: Store, all: seq<string>, k: nat)
    requires k < |all|
    ensures Removed(start, all[..k]) - {all[k]} == Removed(start, all[..k + 1])
  {
    assert all[..k + 1] == all[..k] + [all[k]];
  }

  lemma DeletingSteps(p: string, s: State, e: Event)
    requires s.pc.Deleting? && !IsUserCall(e.call) && Step(p, s, e).Some?
    ensures var s' := Step(p, s, e).value;
            || (s'.store == s.store && s'.pc == Idle)
            || (s.pc.todo != [] && s'.store == s.store - {s.pc.todo[0]}
                && (s'.pc == Idle || s'.pc == Deleting(s.pc.todo[1..])))
  {
  }

  lemma PrefixStep(p: string, start: Store, all: seq<string>, s: State, e: Event)
    requires s.pc.Deleting? && HasRemovedPrefix(start, all, s)
    requires !IsUserCall(e.call) && Step(p, s, e).Some?
    ensures HasRemovedPrefix(start, all, Step(p, s, e).value)
    ensures Step(p, s, e).value.pc.Deleting? || Step(p, s, e).value.pc == Idle
  {
    var k: nat :| RemovedUpTo(start, all, s, k);
    var s' := Step(p, s, e).value;
    DeletingSteps(p, s, e);
    if s'.store == s.store && s'.pc == Idle {
      assert RemovedUpTo(start, all, s', k);
    } else {
      assert all[k..][0] == all[k] && all[k..][1..] == all[k + 1..];
      RemoveNext(start, all, k);
      assert RemovedUpTo(start, all, s', k + 1);
    }
  }

  /** The events all belong to one run: the run is under way before each of them. */
  ghost predicate OneRun(p: string, s: State, evs: seq<Event>)
    decreases |evs|
  {
    evs == []
    || (s.pc != Idle && !IsUserCall(evs[0].call) && Step(p, s, evs[0]).Some?
        && OneRun(p, Step(p, s, evs[0]).value, evs[1..]))
  }

  lemma {:induction false} RunRemovesPrefix(p: string, start: Store, all: seq<string>, s: State, evs: seq<Event>)
    requires s.pc.Deleting? || s.pc == Idle
    requires HasRemovedPrefix(start, all, s) && OneRun(p, s, evs)
    ensures Run(p, s, evs).Some? && HasRemovedPrefix(start, all, Run(p, s, evs).value)
    decreases |evs|
  {
    if evs != [] {
      PrefixStep(p, start, all, s, evs[0]);
      RunRemovesPrefix(p, start, all, Step(p, s, evs[0]).value, evs[1..]);
    }
  }

  /** A deletion run, cut anywhere after its list was answered, has removed a prefix of the
      revisions listed for its package, in list order, and nothing else. */
  lemma DeletionRemovesPrefix(p: string, s: State, order: seq<string>, evs: seq<Event>)
    requires s.pc == ListingDoomed && IsListing(order, s.store)
    requires OneRun(p, s.(pc := Deleting(Matching(p, s.store, order))), evs)
    ensures var all := Matching(p, s.store, order);
            && Run(p, s, [Event(ListDoomed(Items(order)), Done)] + evs).Some?
            && HasRemovedPrefix(s.store, all, Run(p, s, [Event(ListDoomed(Items(order)), Done)] + evs).value)
  {
    var all := Matching(p, s.store, order);
    var s' := s.(pc := Deleting(all));
    var list := Event(ListDoomed(Items(order)), Done);
    assert Step(p, s, list) == Some(s');
    assert ([list] + evs)[1..] == evs;
    assert all[0..] == all;
    assert RemovedUpTo(s.store, all, s', 0);
    RunRemovesPrefix(p, s.store, all, s', evs);
  }

  // ---------- termination ----------

  /** Every delete that takes effect leaves one revision less, so retries end. */
  lemma EachDeleteCounts(p: string, s: State, e: Event)
    requires s.pc.Deleting? && e.call == DeleteRevision && e.answer != Failed && Step(p, s, e).Some?
    ensures |Step(p, s, e).value.store| == |s.store| - 1
  {
    var s' := Step(p, s, e).value;
    assert s'.store.Keys == s.store.Keys - {s.pc.todo[0]};
    assert |s'.store| == |s'.store.Keys| && |s.store| == |s.store.Keys|;
  }

  /** The finalizer is removed, and the tenant with it, only when no revision of the package is
      left, in every run from the first event on. */
  lemma FinalizerLast(p: string, evs: seq<Event>)
    requires TrustedRun(p, INITIAL, evs) && Run(p, INITIAL, evs).Some?
    requires Do(p, Run(p, INITIAL, evs).value, RemoveFinalizer).Some?
    ensures Run(p, INITIAL, evs).value.store == map[]
  {
    InitialInv(p);
    RunKeepsInv(p, INITIAL, evs);
    RemoveFinalizerKeepsInv(p, Run(p, INITIAL, evs).value);
  }

  /** How many answered calls a deletion run is away from its end. */
  function CallsLeft(s: State): nat {
    match s.pc
    case Deleting(todo) => |todo| + 1
    case ListingDoomed => |s.store| + 2
    case Begun(_) => |s.store| + 3
    case _ => |s.store| + 4
  }

  lemma EndingProgress(p: string, s: State, c: Call)
    requires Inv(p, s) && IsEnding(s) && Trusted(s, c) && !IsUserCall(c) && Do(p, s, c).Some?
    ensures var s' := Do(p, s, c).value;
            && (s'.tenant.Gone? ==> s'.store == map[] && CallsLeft(s) == 1)
            && (!s'.tenant.Gone? ==> IsEnding(s') && CallsLeft(s') == CallsLeft(s) - 1 && CallsLeft(s) > 1)
  {
    if c.ListDoomed? {
      DoomedListed(p, s, c);
    } else if c == RemoveFinalizer {
      RemoveFinalizerKeepsInv(p, s);
    } else {
      EndingCalls(p, s, c);
    }
  }

  lemma DoomedListed(p: string, s: State, c: Call)
    requires Inv(p, s) && IsEnding(s) && Trusted(s, c) && c.ListDoomed? && Do(p, s, c).Some?
    ensures var s' := Do(p, s, c).value;
            !s'.tenant.Gone? && IsEnding(s') && CallsLeft(s') == CallsLeft(s) - 1 && CallsLeft(s) > 1
  {
    DoomedLists(p, s, c.doomed);
    ListingLength(Doomed(p, s.store, c.doomed), s.store.Keys);
  }

  lemma EndingCalls(p: string, s: State, c: Call)
    requires IsEnding(s) && !c.ListDoomed? && c != RemoveFinalizer && !IsUserCall(c) && Do(p, s, c).Some?
    requires s.pc.Begun? ==> s.pc.deletion
    ensures var s' := Do(p, s, c).value;
            !s'.tenant.Gone? && IsEnding(s') && CallsLeft(s') == CallsLeft(s) - 1 && CallsLeft(s) > 1
  {
  }

  /** A fault-free deletion run ends: with `n` revisions left it takes exactly `n` deletes and four
      other calls until the tenant is gone, and no revision is left then. */
  lemma {:induction false} DeletionEnds(p: string, s: State, evs: seq<Event>)
    requires Inv(p, s) && IsEnding(s) && TrustedRun(p, s, evs) && FaultFree(evs)
    requires |evs| == CallsLeft(s)
    ensures Run(p, s, evs).Some?
    ensures Run(p, s, evs).value == State(map[], Gone, Idle)
    decreases |evs|
  {
    var s' := Step(p, s, evs[0]).value;
    assert evs[0].answer == Done && !IsUserCall(evs[0].call);
    StepKeepsInv(p, s, evs[0]);
    EndingProgress(p, s, evs[0].call);
    EndingStep(p, s, evs[0]);
    if s'.tenant.Gone? {
      assert evs[1..] == [];
    } else {
      DeletionEnds(p, s', evs[1..]);
    }
  }
}
