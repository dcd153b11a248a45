/** What the answers of `IsEqual` (pkg/appresource/resource.go) mean, for lists with and without
    duplicates, proved on the comparison without slots. */
module LookUp {
  import opened Strings
  import opened SliceScan

  // ---------- what a look-up removes ----------

  function Count<T(==)>(s: seq<T>, x: T): nat {
    multiset(s)[x]
  }

  lemma CountCons<T>(s: seq<T>, x: T)
    requires s != []
    ensures Count(s, x) == (if s[0] == x then 1 else 0) + Count(s[1..], x)
  {
    assert s == [s[0]] + s[1..];
  }

  lemma CountAppend<T>(a: seq<T>, b: seq<T>, x: T)
    ensures Count(a + b, x) == Count(a, x) + Count(b, x)
  {
  }

  lemma CountIn<T>(s: seq<T>, x: T)
    ensures Count(s, x) > 0 <==> x in s
  {
  }

  /** Of other elements a look-up removes none. */
  lemma {:induction false} ThinKeepsOthers<T>(x: T, live: seq<T>, y: T)
    requires y != x
    ensures Count(Thin(x, live), y) == Count(live, y)
  {
    if live != [] {
      CountCons(live, y);
      var r := Thin(x, live);
      if live[0] != x {
        ThinKeepsOthers(x, live[1..], y);
        CountCons(r, y);
        assert r[1..] == Thin(x, live[1..]);
      } else if |live| > 1 {
        CountCons(live[1..], y);
        assert live[1..][1..] == live[2..];
        ThinKeepsOthers(x, live[2..], y);
        CountCons(r, y);
        assert r[1..] == Thin(x, live[2..]);
      }
    }
  }

  /** Of the element looked up it removes half at least. */
  lemma {:induction false} ThinKeepsHalf<T>(x: T, live: seq<T>)
    ensures 2 * Count(Thin(x, live), x) <= Count(live, x)
  {
    if live != [] {
      CountCons(live, x);
      var r := Thin(x, live);
      if live[0] != x {
        ThinKeepsHalf(x, live[1..]);
        CountCons(r, x);
        assert r[1..] == Thin(x, live[1..]);
      } else if |live| > 1 {
        CountCons(live[1..], x);
        assert live[1..][1..] == live[2..];
        ThinKeepsHalf(x, live[2..]);
        CountCons(r, x);
        assert r[1..] == Thin(x, live[2..]);
      }
    }
  }

  lemma {:induction false} ThinPast<T>(x: T, front: seq<T>, back: seq<T>)
    requires x !in front
    ensures Thin(x, front + back) == front + Thin(x, back)
  {
    if front == [] {
      assert front + back == back;
    } else {
      assert (front + back)[1..] == front[1..] + back;
      ThinPast(x, front[1..], back);
      assert front == [front[0]] + front[1..];
    }
  }

  lemma ThinNone<T>(x: T, s: seq<T>)
    requires x !in s
    ensures Thin(x, s) == s
  {
    ThinPast(x, s, []);
    assert s + [] == s;
  }

  // ---------- the first look-up of an element ----------

  function First<T(==)>(s: seq<T>, x: T): (i: nat)
    ensures i <= |s| && x !in s[..i] && (i < |s| ==> s[i] == x)
  {
    if s == [] || s[0] == x then 0
    else
      var i := 1 + First(s[1..], x);
      assert s[..i] == [s[0]] + s[1..][..i - 1];
      i
  }

  lemma FirstIn<T>(s: seq<T>, x: T)
    requires x in s
    ensures First(s, x) < |s|
  {
    assert s[..|s|] == s;
  }

  lemma {:induction false} FirstIs<T>(s: seq<T>, x: T, i: nat)
    requires i < |s| && s[i] == x && x !in s[..i]
    ensures First(s, x) == i
  {
    if i > 0 {
      assert s[..i][0] == s[0] && s[..i][1..] == s[1..][..i - 1];
      FirstIs(s[1..], x, i - 1);
    }
  }

  /** A look-up takes one copy away: there is one only, or there are two side by side with something
      behind them. */
  predicate TakesOne<T(==)>(x: T, live: seq<T>)
    requires x in live
  {
    FirstIn(live, x);
    var back := live[First(live, x) + 1..];
    x !in back || (|back| > 1 && back[0] == x && x !in back[1..])
  }

  function WithoutSlot<T>(s: seq<T>, p: nat): (r: seq<T>)
    requires p < |s|
    ensures |r| == |s| - 1
  {
    s[..p] + s[p + 1..]
  }

  /** The list around the first copy of an element. */
  lemma Around<T>(x: T, live: seq<T>) returns (front: seq<T>, back: seq<T>)
    requires x in live
    ensures First(live, x) < |live| && front == live[..First(live, x)] && back == live[First(live, x) + 1..]
    ensures live == front + [x] + back && x !in front && WithoutSlot(live, First(live, x)) == front + back
    ensures Thin(x, live) == front + Behind(x, back)
  {
    FirstIn(live, x);
    var p := First(live, x);
    front, back := live[..p], live[p + 1..];
    assert live == front + [x] + back;
    ThinAround(x, front, back);
  }

  lemma ThinAround<T>(x: T, front: seq<T>, back: seq<T>)
    requires x !in front
    ensures Thin(x, front + [x] + back) == front + Behind(x, back)
  {
    AppendAssociates(front, [x], back);
    ThinPast(x, front, [x] + back);
    if back != [] {
      assert ([x] + back)[1] == back[0] && ([x] + back)[2..] == back[1..];
      ThinMatch(x, [x] + back);
    }
  }

  lemma ThinMatch<T>(x: T, live: seq<T>)
    requires |live| >= 2 && live[0] == x
    ensures Thin(x, live) == [live[1]] + Thin(x, live[2..])
  {
  }

  /** What a look-up leaves behind the first match. */
  function Behind<T(==)>(x: T, back: seq<T>): seq<T> {
    if back == [] then [] else [back[0]] + Thin(x, back[1..])
  }

  lemma BehindNone<T>(x: T, back: seq<T>)
    requires back == [] || x !in back[1..]
    ensures Behind(x, back) == back
  {
    if back != [] { ThinNone(x, back[1..]); }
  }

  lemma RunsOutBehind<T>(x: T, front: seq<T>, back: seq<T>)
    requires x !in front
    ensures RunsOut(x, front + [x] + back) <==> back != [] && back[|back| - 1] == x
  {
    var live := front + [x] + back;
    var before := live[..|live| - 1];
    if back == [] {
      assert before == front;
    } else {
      assert live[|live| - 1] == back[|back| - 1];
      assert before[|front|] == x;
    }
  }

  lemma TakesTheFirst<T>(x: T, live: seq<T>)
    requires x in live && TakesOne(x, live)
    ensures First(live, x) < |live|
    ensures !RunsOut(x, live) && Thin(x, live) == WithoutSlot(live, First(live, x))
  {
    var front, back := Around(x, live);
    RunsOutBehind(x, front, back);
    assert forall i :: 0 <= i < |back| ==> back[i] in back && (i > 0 ==> back[1..][i - 1] == back[i]);
    BehindNone(x, back);
  }

  lemma CountAround<T>(x: T, front: seq<T>, back: seq<T>)
    requires x !in front
    ensures Count(front + [x] + back, x) == 1 + Count(back, x)
    ensures back != [] ==> Count(front + Behind(x, back), x) == (if back[0] == x then 1 else 0) + Count(Thin(x, back[1..]), x)
  {
    CountIn(front, x);
    if back != [] {
      CountCons(Behind(x, back), x);
      assert Behind(x, back)[1..] == Thin(x, back[1..]);
    }
  }

  /** Else it runs out of range, or takes too many. */
  lemma TakesTooMany<T>(x: T, live: seq<T>)
    requires x in live && !TakesOne(x, live) && !RunsOut(x, live)
    ensures Count(Thin(x, live), x) + 1 < Count(live, x)
  {
    var front, back := Around(x, live);
    CountAround(x, front, back);
    RunsOutBehind(x, front, back);
    CountCons(back, x);
    CountIn(back[1..], x);
    ThinKeepsHalf(x, back[1..]);
    CountIn(back, x);
  }

  // ---------- a list without duplicates ----------

  lemma DistinctTakesOne<T>(x: T, live: seq<T>)
    requires x in live && NoDuplicates(live)
    ensures TakesOne(x, live) && NoDuplicates(WithoutSlot(live, First(live, x)))
  {
    FirstIn(live, x);
    var p := First(live, x);
    var back := live[p + 1..];
    forall i | 0 <= i < |back| ensures back[i] != x { assert live[p + 1 + i] == back[i]; }
    WithoutSlotDistinct(live, p);
  }

  lemma WithoutSlotDistinct<T>(s: seq<T>, p: nat)
    requires p < |s| && NoDuplicates(s)
    ensures NoDuplicates(WithoutSlot(s, p))
  {
    forall i, j | 0 <= i < j < |s| - 1 ensures WithoutSlot(s, p)[i] != WithoutSlot(s, p)[j] {
      SlotsBefore(s, p, i);
      SlotsBefore(s, p, j);
      assert Before(p, i) < Before(p, j);
    }
  }

  /** Taking one copy of the first wanted element leaves equal multisets equal. */
  lemma SameAfterTaking<T>(wanted: seq<T>, live: seq<T>)
    requires wanted != [] && wanted[0] in live
    ensures First(live, wanted[0]) < |live|
    ensures multiset(wanted) == multiset(live)
            <==> multiset(wanted[1..]) == multiset(WithoutSlot(live, First(live, wanted[0])))
  {
    var x := wanted[0];
    FirstIn(live, x);
    WithoutAt(live, First(live, x));
    assert wanted == [x] + wanted[1..];
    if multiset(wanted) == multiset(live) {
      Cancel(multiset(wanted[1..]), multiset(WithoutSlot(live, First(live, x))), x);
    }
  }

  /** On a list without duplicates the comparison is the multiset comparison, and never panics. */
  lemma {:induction false} DistinctIsDecided<T>(wanted: seq<T>, live: seq<T>)
    requires NoDuplicates(live)
    ensures LookUps(wanted, live) == Answer(multiset(wanted) == multiset(live))
  {
    if wanted == [] {
      assert live != [] ==> live[0] in multiset(live);
    } else if wanted[0] in live {
      DistinctTakesOne(wanted[0], live);
      TakesTheFirst(wanted[0], live);
      DistinctIsDecided(wanted[1..], Thin(wanted[0], live));
      SameAfterTaking(wanted, live);
    } else {
      assert wanted[0] in multiset(wanted) && wanted[0] !in multiset(live);
    }
  }

  // ---------- a list with duplicates ----------

  /** Whether the slot is gone when the wanted element at index `w` is looked up: its element was
      looked up oftener by then than it stands in front of the slot. */
  ghost predicate Gone<T>(wanted: seq<T>, w: nat, actual: seq<T>, r: nat)
    requires w <= |wanted| && r < |actual|
  {
    Count(wanted[..w], actual[r]) > Count(actual[..r], actual[r])
  }

  /** No third copy, everything between the two gone when the element is first looked up, and
      something behind them not. */
  ghost predicate TwinFits<T>(wanted: seq<T>, actual: seq<T>, p: nat, q: nat)
    requires p < q < |actual|
  {
    FitsAt(wanted, First(wanted, actual[p]), actual, actual[p], p, q)
  }

  ghost predicate FitsAt<T>(wanted: seq<T>, w: nat, actual: seq<T>, x: T, p: nat, q: nat)
    requires w <= |wanted| && p < q < |actual|
  {
    OnlyAt(actual, x, p, q) && GoneBetween(wanted, w, actual, p, q) && LeftBehind(wanted, w, actual, q)
  }

  ghost predicate GoneBetween<T>(wanted: seq<T>, w: nat, actual: seq<T>, p: nat, q: nat)
    requires w <= |wanted| && q <= |actual|
  {
    forall r :: p < r < q ==> Gone(wanted, w, actual, r)
  }

  ghost predicate LeftBehind<T>(wanted: seq<T>, w: nat, actual: seq<T>, q: nat)
    requires w <= |wanted|
  {
    exists r :: q < r < |actual| && !Gone(wanted, w, actual, r)
  }

  predicate OnlyAt<T(==)>(s: seq<T>, x: T, p: nat, q: nat) {
    forall r :: 0 <= r < |s| && r != p && r != q ==> s[r] != x
  }

  ghost predicate TwinsFit<T>(wanted: seq<T>, actual: seq<T>) {
    forall p, q :: 0 <= p < q < |actual| && actual[p] == actual[q] ==> TwinFits(wanted, actual, p, q)
  }

  /** A slot of the list without slot `p`, where it was in the list. */
  function Before(p: nat, r: nat): nat {
    if r < p then r else r + 1
  }

  lemma FirstGone<T>(wanted: seq<T>, w: nat, actual: seq<T>)
    requires 0 < w <= |wanted| && wanted[0] in actual
    ensures First(actual, wanted[0]) < |actual|
    ensures Gone(wanted, w, actual, First(actual, wanted[0]))
  {
    var x := wanted[0];
    FirstIn(actual, x);
    CountIn(actual[..First(actual, x)], x);
    assert wanted[..w][0] == x;
    CountIn(wanted[..w], x);
  }

  lemma NothingGone<T>(wanted: seq<T>, actual: seq<T>, r: nat)
    requires r < |actual|
    ensures !Gone(wanted, 0, actual, r)
  {
  }

  lemma SlotsBefore<T>(s: seq<T>, p: nat, r: nat)
    requires p < |s| && r < |s| - 1
    ensures WithoutSlot(s, p)[r] == s[Before(p, r)]
    ensures WithoutSlot(s, p)[..r] == if r <= p then s[..r] else s[..p] + s[p + 1..r + 1]
    ensures r >= p ==> s[..r + 1] == s[..p] + [s[p]] + s[p + 1..r + 1]
  {
  }

  lemma CountBefore<T>(s: seq<T>, p: nat, r: nat, y: T)
    requires p < |s| && r < |s| - 1
    ensures Count(s[..Before(p, r)], y) == Count(WithoutSlot(s, p)[..r], y) + if r >= p && s[p] == y then 1 else 0
  {
    SlotsBefore(s, p, r);
    if r >= p {
      CountAppend(s[..p] + [s[p]], s[p + 1..r + 1], y);
      CountAppend(s[..p], [s[p]], y);
      CountAppend(s[..p], s[p + 1..r + 1], y);
    }
  }

  lemma CountTail<T>(s: seq<T>, w: nat, y: T)
    requires 0 < w <= |s|
    ensures Count(s[..w], y) == (if s[0] == y then 1 else 0) + Count(s[1..][..w - 1], y)
  {
    CountCons(s[..w], y);
    assert s[..w][1..] == s[1..][..w - 1];
  }

  lemma CountInFront<T>(s: seq<T>, x: T, r: nat)
    requires x in s && First(s, x) < |s| && r < |s| - 1
    ensures var p, y := First(s, x), WithoutSlot(s, First(s, x))[r];
            && y == s[Before(p, r)]
            && Count(s[..Before(p, r)], y) == Count(WithoutSlot(s, p)[..r], y) + if x == y then 1 else 0
  {
    var p := First(s, x);
    SlotsBefore(s, p, r);
    CountBefore(s, p, r, s[Before(p, r)]);
    if r < p { assert s[..p][r] == s[r]; }
  }

  /** One look-up later the same slots are gone. */
  lemma GoneStep<T>(wanted: seq<T>, w: nat, actual: seq<T>, r: nat)
    requires 0 < w <= |wanted| && wanted[0] in actual && r < |actual| - 1
    ensures var p := First(actual, wanted[0]);
            && p < |actual|
            && (Gone(wanted, w, actual, Before(p, r)) <==> Gone(wanted[1..], w - 1, WithoutSlot(actual, p), r))
  {
    FirstIn(actual, wanted[0]);
    CountInFront(actual, wanted[0], r);
    CountTail(wanted, w, WithoutSlot(actual, First(actual, wanted[0]))[r]);
  }

  function After(p: nat, r: nat): nat
    requires r != p
  {
    if r < p then r else r - 1
  }

  lemma SlotsAfter<T>(s: seq<T>, p: nat, r: nat)
    requires p < |s| && r < |s| && r != p
    ensures Before(p, After(p, r)) == r && After(p, r) < |s| - 1 && WithoutSlot(s, p)[After(p, r)] == s[r]
  {
  }

  lemma OnlyAtStep<T>(s: seq<T>, p0: nat, y: T, p: nat, q: nat)
    requires p0 < |s| && s[p0] != y && p < q < |s| - 1
    ensures OnlyAt(s, y, Before(p0, p), Before(p0, q)) <==> OnlyAt(WithoutSlot(s, p0), y, p, q)
  {
    var rest := WithoutSlot(s, p0);
    if OnlyAt(s, y, Before(p0, p), Before(p0, q)) {
      forall r | 0 <= r < |rest| && r != p && r != q ensures rest[r] != y { SlotsBefore(s, p0, r); }
    }
    if OnlyAt(rest, y, p, q) {
      forall r | 0 <= r < |s| && r != Before(p0, p) && r != Before(p0, q) ensures s[r] != y {
        if r != p0 { SlotsAfter(s, p0, r); }
      }
    }
  }

  lemma GoneBetweenAfter<T>(wanted: seq<T>, w: nat, actual: seq<T>, p: nat, q: nat)
    requires 0 < w <= |wanted| && wanted[0] in actual && p < q < |actual| - 1
    requires First(actual, wanted[0]) < |actual|
    requires GoneBetween(wanted, w, actual, Before(First(actual, wanted[0]), p), Before(First(actual, wanted[0]), q))
    ensures GoneBetween(wanted[1..], w - 1, WithoutSlot(actual, First(actual, wanted[0])), p, q)
  {
    var p0 := First(actual, wanted[0]);
    var rest, tail, v := WithoutSlot(actual, p0), wanted[1..], w - 1;
    forall r | p < r < q ensures Gone(tail, v, rest, r) {
      GoneStep(wanted, w, actual, r);
      assert Gone(wanted, w, actual, Before(p0, r));
    }
  }

  lemma GoneBetweenBefore<T>(wanted: seq<T>, w: nat, actual: seq<T>, p: nat, q: nat)
    requires 0 < w <= |wanted| && wanted[0] in actual && p < q < |actual| - 1
    requires First(actual, wanted[0]) < |actual|
    requires GoneBetween(wanted[1..], w - 1, WithoutSlot(actual, First(actual, wanted[0])), p, q)
    ensures GoneBetween(wanted, w, actual, Before(First(actual, wanted[0]), p), Before(First(actual, wanted[0]), q))
  {
    FirstGone(wanted, w, actual);
    var p0 := First(actual, wanted[0]);
    forall r | Before(p0, p) < r < Before(p0, q) ensures Gone(wanted, w, actual, r) {
      if r != p0 {
        SlotsAfter(actual, p0, r);
        GoneStep(wanted, w, actual, After(p0, r));
      }
    }
  }

  lemma GoneBetweenStep<T>(wanted: seq<T>, w: nat, actual: seq<T>, p: nat, q: nat)
    requires 0 < w <= |wanted| && wanted[0] in actual && p < q < |actual| - 1
    ensures var p0 := First(actual, wanted[0]);
            && p0 < |actual|
            && (GoneBetween(wanted, w, actual, Before(p0, p), Before(p0, q))
                <==> GoneBetween(wanted[1..], w - 1, WithoutSlot(actual, p0), p, q))
  {
    FirstIn(actual, wanted[0]);
    var p0 := First(actual, wanted[0]);
    if GoneBetween(wanted, w, actual, Before(p0, p), Before(p0, q)) { GoneBetweenAfter(wanted, w, actual, p, q); }
    if GoneBetween(wanted[1..], w - 1, WithoutSlot(actual, p0), p, q) { GoneBetweenBefore(wanted, w, actual, p, q); }
  }

  lemma LeftBehindStep<T>(wanted: seq<T>, w: nat, actual: seq<T>, q: nat)
    requires 0 < w <= |wanted| && wanted[0] in actual && q < |actual| - 1
    ensures var p0 := First(actual, wanted[0]);
            && p0 < |actual|
            && (LeftBehind(wanted, w, actual, Before(p0, q))
                <==> LeftBehind(wanted[1..], w - 1, WithoutSlot(actual, p0), q))
  {
    FirstGone(wanted, w, actual);
    var p0 := First(actual, wanted[0]);
    var rest := WithoutSlot(actual, p0);
    if LeftBehind(wanted, w, actual, Before(p0, q)) {
      var r :| Before(p0, q) < r < |actual| && !Gone(wanted, w, actual, r);
      SlotsAfter(actual, p0, r);
      GoneStep(wanted, w, actual, After(p0, r));
      assert !Gone(wanted[1..], w - 1, rest, After(p0, r));
    }
    if LeftBehind(wanted[1..], w - 1, rest, q) {
      var r :| q < r < |rest| && !Gone(wanted[1..], w - 1, rest, r);
      GoneStep(wanted, w, actual, r);
      assert !Gone(wanted, w, actual, Before(p0, r));
    }
  }

  lemma FitsAtStep<T>(wanted: seq<T>, w: nat, actual: seq<T>, y: T, p: nat, q: nat)
    requires 0 < w <= |wanted| && wanted[0] in actual && wanted[0] != y && p < q < |actual| - 1
    ensures var p0 := First(actual, wanted[0]);
            && p0 < |actual|
            && (FitsAt(wanted, w, actual, y, Before(p0, p), Before(p0, q))
                <==> FitsAt(wanted[1..], w - 1, WithoutSlot(actual, p0), y, p, q))
  {
    FirstIn(actual, wanted[0]);
    OnlyAtStep(actual, First(actual, wanted[0]), y, p, q);
    GoneBetweenStep(wanted, w, actual, p, q);
    LeftBehindStep(wanted, w, actual, q);
  }

  lemma FirstTail<T>(s: seq<T>, y: T)
    requires s != [] && s[0] != y
    ensures First(s, y) == 1 + First(s[1..], y)
  {
  }

  /** Twins other than the element looked up fit afterwards exactly when they did before. */
  lemma TwinFitsStep<T>(wanted: seq<T>, actual: seq<T>, p0: nat, p: nat, q: nat)
    requires wanted != [] && wanted[0] in actual && p < q < |actual| - 1
    requires p0 == First(actual, wanted[0]) < |actual|
    requires WithoutSlot(actual, p0)[p] != wanted[0] && WithoutSlot(actual, p0)[p] in wanted
    ensures TwinFits(wanted, actual, Before(p0, p), Before(p0, q)) <==> TwinFits(wanted[1..], WithoutSlot(actual, p0), p, q)
  {
    var y := WithoutSlot(actual, p0)[p];
    SlotsBefore(actual, p0, p);
    FirstIn(wanted, y);
    FirstTail(wanted, y);
    FitsAtStep(wanted, First(wanted, y), actual, y, p, q);
  }

  /** The element looked up has a twin that fits only next to it. */
  lemma HeadTwins<T>(wanted: seq<T>, actual: seq<T>, q: nat)
    requires wanted != [] && wanted[0] in actual
    requires First(actual, wanted[0]) < q < |actual| && actual[q] == wanted[0]
    ensures TwinFits(wanted, actual, First(actual, wanted[0]), q)
            <==> q == First(actual, wanted[0]) + 1 && q + 1 < |actual| && OnlyAt(actual, wanted[0], q - 1, q)
  {
    var p := First(actual, wanted[0]);
    assert First(wanted, wanted[0]) == 0;
    assert forall r :: 0 <= r < |actual| ==> !Gone(wanted, 0, actual, r);
    NothingGone(wanted, actual, p + 1);
    if q + 1 < |actual| { assert !Gone(wanted, 0, actual, q + 1); }
  }

  /** When the twins fit, the first look-up takes one copy only. */
  lemma FitsTakesOne<T>(wanted: seq<T>, actual: seq<T>)
    requires wanted != [] && wanted[0] in actual && TwinsFit(wanted, actual)
    ensures TakesOne(wanted[0], actual)
  {
    var x := wanted[0];
    FirstIn(actual, x);
    var p := First(actual, x);
    var back := actual[p + 1..];
    if x in back {
      var k :| 0 <= k < |back| && back[k] == x;
      HeadTwins(wanted, actual, p + 1 + k);
      forall i | 0 <= i < |back[1..]| ensures back[1..][i] != x { assert back[1..][i] == actual[p + 2 + i]; }
    }
  }

  lemma FitsAfter<T>(wanted: seq<T>, actual: seq<T>)
    requires wanted != [] && wanted[0] in actual && TwinsFit(wanted, actual)
    requires multiset(wanted) == multiset(actual)
    ensures First(actual, wanted[0]) < |actual|
    ensures TwinsFit(wanted[1..], WithoutSlot(actual, First(actual, wanted[0])))
  {
    FirstIn(actual, wanted[0]);
    var p0 := First(actual, wanted[0]);
    var rest := WithoutSlot(actual, p0);
    forall p, q | 0 <= p < q < |rest| && rest[p] == rest[q] ensures TwinFits(wanted[1..], rest, p, q) {
      SlotsBefore(actual, p0, p);
      SlotsBefore(actual, p0, q);
      var a, b := Before(p0, p), Before(p0, q);
      assert TwinFits(wanted, actual, a, b);
      assert actual[p0] != actual[a];
      assert actual[a] in multiset(wanted);
      TwinFitsStep(wanted, actual, p0, p, q);
    }
  }

  lemma FitsBefore<T>(wanted: seq<T>, actual: seq<T>)
    requires wanted != [] && wanted[0] in actual && TakesOne(wanted[0], actual)
    requires multiset(wanted) == multiset(actual)
    requires First(actual, wanted[0]) < |actual|
    requires TwinsFit(wanted[1..], WithoutSlot(actual, First(actual, wanted[0])))
    ensures TwinsFit(wanted, actual)
  {
    var x := wanted[0];
    var p0 := First(actual, x);
    var rest, back := WithoutSlot(actual, p0), actual[p0 + 1..];
    forall p, q | 0 <= p < q < |actual| && actual[p] == actual[q] ensures TwinFits(wanted, actual, p, q) {
      if actual[p] == x {
        TwinOfHead(x, actual, p, q);
        HeadTwins(wanted, actual, q);
      } else {
        SlotsAfter(actual, p0, p);
        SlotsAfter(actual, p0, q);
        assert TwinFits(wanted[1..], rest, After(p0, p), After(p0, q));
        assert actual[p] in multiset(wanted);
        TwinFitsStep(wanted, actual, p0, After(p0, p), After(p0, q));
      }
    }
  }

  lemma TwinOfHead<T>(x: T, actual: seq<T>, p: nat, q: nat)
    requires x in actual && TakesOne(x, actual) && p < q < |actual| && actual[p] == actual[q] == x
    ensures p == First(actual, x) && q == p + 1 && q + 1 < |actual| && OnlyAt(actual, x, p, q)
  {
    FirstIn(actual, x);
    var p0 := First(actual, x);
    var back := actual[p0 + 1..];
    assert forall i :: 0 <= i < p0 ==> actual[..p0][i] == actual[i];
    assert back[q - p0 - 1] == x;
    assert forall i :: 0 < i < |back| ==> back[1..][i - 1] == back[i] == actual[p0 + 1 + i];
  }

  // ---------- the exact condition ----------

  /** A yes is never given when an element is wanted oftener than it is there. */
  lemma {:induction false} YesMeansEnough<T>(wanted: seq<T>, live: seq<T>, y: T)
    requires LookUps(wanted, live) == Answer(true)
    ensures Count(wanted, y) <= Count(live, y)
  {
    if wanted != [] {
      var x := wanted[0];
      YesMeansEnough(wanted[1..], Thin(x, live), y);
      CountCons(wanted, y);
      if y == x {
        ThinKeepsHalf(x, live);
        CountIn(live, x);
      } else {
        ThinKeepsOthers(x, live, y);
      }
    }
  }

  lemma YesTakesOne<T>(wanted: seq<T>, live: seq<T>)
    requires wanted != [] && multiset(wanted) == multiset(live) && LookUps(wanted, live) == Answer(true)
    ensures wanted[0] in live && TakesOne(wanted[0], live)
  {
    var x := wanted[0];
    if !TakesOne(x, live) {
      TakesTooMany(x, live);
      YesMeansEnough(wanted[1..], Thin(x, live), x);
      CountCons(wanted, x);
      assert false;
    }
  }

  /** The exact condition under which `IsEqual` recognises a list that holds what is wanted: every
      element occurs twice at most, and of two copies everything between them is gone and something
      behind them is not when the element is first looked up. */
  lemma {:induction false} LookUpsYesIff<T>(wanted: seq<T>, live: seq<T>)
    requires multiset(wanted) == multiset(live)
    ensures LookUps(wanted, live) == Answer(true) <==> TwinsFit(wanted, live)
  {
    if wanted == [] {
      assert |live| == |multiset(live)| == 0;
    } else {
      var x := wanted[0];
      assert x in multiset(wanted) && x in live;
      if TwinsFit(wanted, live) { FitsTakesOne(wanted, live); }
      if LookUps(wanted, live) == Answer(true) { YesTakesOne(wanted, live); }
      if TakesOne(x, live) {
        TakesTheFirst(x, live);
        SameAfterTaking(wanted, live);
        LookUpsYesIff(wanted[1..], Thin(x, live));
        if TwinsFit(wanted, live) { FitsAfter(wanted, live); }
        if TwinsFit(wanted[1..], Thin(x, live)) { FitsBefore(wanted, live); }
      }
    }
  }

  /** The smallest failure: two equal documents compared with themselves index out of range. */
  lemma TwinsPanic<T>(x: T)
    ensures IsEqualVerdict([x, x], [x, x]) == Panic
  {
    IsEqualIsLookUps([x, x], [x, x]);
    assert RunsOut(x, [x, x]) by { assert [x, x][..1][0] == x; }
  }

  lemma IsEqualYesIff<T>(wanted: seq<T>, actual: seq<T>)
    requires multiset(wanted) == multiset(actual)
    ensures IsEqualVerdict(wanted, actual) == Answer(true) <==> TwinsFit(wanted, actual)
  {
    IsEqualIsLookUps(wanted, actual);
    LookUpsYesIff(wanted, actual);
  }

  // ---------- every wanted list ----------

  function Copies<T>(x: T, k: nat): (r: seq<T>)
    ensures |r| == k && forall i :: 0 <= i < k ==> r[i] == x
  {
    if k == 0 then [] else [x] + Copies(x, k - 1)
  }

  function Without<T(==)>(s: seq<T>, x: T): (r: seq<T>)
    ensures x !in r
  {
    if s == [] then [] else (if s[0] == x then [] else [s[0]]) + Without(s[1..], x)
  }

  lemma {:induction false} WithoutAndCopies<T>(s: seq<T>, x: T, k: nat)
    requires k == Count(s, x)
    ensures multiset(Without(s, x)) + multiset(Copies(x, k)) == multiset(s)
  {
    if s != [] {
      CountCons(s, x);
      if s[0] == x {
        WithoutAndCopies(s[1..], x, k - 1);
        CopyInFront(s, x, Copies(x, k - 1));
      } else {
        WithoutAndCopies(s[1..], x, k);
        OtherInFront(s, x, Copies(x, k));
      }
    }
  }

  lemma WithoutFirst<T>(s: seq<T>, x: T)
    requires s != [] && s[0] == x
    ensures Without(s, x) == Without(s[1..], x)
  {
    var rest := Without(s[1..], x);
    assert [] + rest == rest;
  }

  lemma CopyInFront<T>(s: seq<T>, x: T, copies: seq<T>)
    requires s != [] && s[0] == x
    requires multiset(Without(s[1..], x)) + multiset(copies) == multiset(s[1..])
    ensures multiset(Without(s, x)) + multiset([x] + copies) == multiset(s)
  {
    WithoutFirst(s, x);
    ConsMultiset(x, copies);
    ConsMultiset(x, s[1..]);
    assert s == [x] + s[1..];
    AddOne(multiset(Without(s, x)), multiset(copies), multiset(s[1..]), x);
  }

  lemma ConsMultiset<T>(x: T, s: seq<T>)
    ensures multiset([x] + s) == multiset{x} + multiset(s)
  {
  }

  lemma AddOne<T>(a: multiset<T>, b: multiset<T>, c: multiset<T>, x: T)
    requires a + b == c
    ensures a + (multiset{x} + b) == multiset{x} + c
  {
  }

  lemma OtherInFront<T>(s: seq<T>, x: T, copies: seq<T>)
    requires s != [] && s[0] != x
    requires multiset(Without(s[1..], x)) + multiset(copies) == multiset(s[1..])
    ensures multiset(Without(s, x)) + multiset(copies) == multiset(s)
  {
    assert Without(s, x) == [s[0]] + Without(s[1..], x);
    assert s == [s[0]] + s[1..];
  }

  /** The order in which a list with duplicates is compared wrongly with itself: the element that
      occurs twice is looked up last. */
  function BadOrder<T(==)>(actual: seq<T>, x: T): seq<T> {
    Without(actual, x) + Copies(x, Count(actual, x))
  }

  lemma AllGone<T>(actual: seq<T>, x: T, r: nat)
    requires r < |actual| && actual[r] != x
    ensures Gone(BadOrder(actual, x), |Without(actual, x)|, actual, r)
  {
    var others, y := Without(actual, x), actual[r];
    WithoutAndCopies(actual, x, Count(actual, x));
    assert BadOrder(actual, x)[..|others|] == others;
    CountIn(Copies(x, Count(actual, x)), y);
    assert Count(others, y) == Count(actual, y);
    assert actual == actual[..r] + actual[r..];
    CountAppend(actual[..r], actual[r..], y);
    assert actual[r..][0] == y;
    CountIn(actual[r..], y);
  }

  lemma BadOrderFails<T>(actual: seq<T>, p: nat, q: nat)
    requires p < q < |actual| && actual[p] == actual[q]
    ensures multiset(BadOrder(actual, actual[p])) == multiset(actual)
    ensures IsEqualVerdict(BadOrder(actual, actual[p]), actual) != Answer(true)
  {
    var x := actual[p];
    var wanted, w := BadOrder(actual, x), |Without(actual, x)|;
    WithoutAndCopies(actual, x, Count(actual, x));
    CountIn(actual, x);
    assert wanted[..w] == Without(actual, x);
    FirstIs(wanted, x, w);
    if TwinFits(wanted, actual, p, q) {
      var r :| q < r < |actual| && !Gone(wanted, w, actual, r);
      AllGone(actual, x, r);
    }
    IsEqualYesIff(wanted, actual);
  }

  /** `IsEqual` decides multiset equality, without panicking, for every wanted list exactly when
      the actual documents are pairwise distinct. */
  lemma IsEqualCorrectIff<T>(actual: seq<T>)
    ensures NoDuplicates(actual)
            <==> forall wanted: seq<T> ::
                   IsEqualVerdict(wanted, actual) == Answer(multiset(wanted) == multiset(actual))
  {
    if NoDuplicates(actual) {
      forall wanted: seq<T>
        ensures IsEqualVerdict(wanted, actual) == Answer(multiset(wanted) == multiset(actual))
      {
        IsEqualIsLookUps(wanted, actual);
        DistinctIsDecided(wanted, actual);
      }
    } else {
      var p, q :| 0 <= p < q < |actual| && actual[p] == actual[q];
      BadOrderFails(actual, p, q);
    }
  }

  /** Duplicates make `IsEqual` panic or miscount, but a yes is never given for two lists that hold
      different elements. */
  lemma {:induction false} YesMeansSameElements<T>(wanted: seq<T>, actual: seq<T>, y: T)
    requires IsEqualVerdict(wanted, actual) == Answer(true)
    ensures y in wanted <==> y in actual
  {
    IsEqualIsLookUps(wanted, actual);
    YesMeansEnough(wanted, actual, y);
    if y in actual { YesMeansWanted(wanted, actual, y); }
    CountIn(wanted, y);
    CountIn(actual, y);
  }

  lemma {:induction false} YesMeansWanted<T>(wanted: seq<T>, live: seq<T>, y: T)
    requires LookUps(wanted, live) == Answer(true) && y in live
    ensures y in wanted
  {
    if y != wanted[0] {
      ThinKeepsOthers(wanted[0], live, y);
      CountIn(live, y);
      CountIn(Thin(wanted[0], live), y);
      YesMeansWanted(wanted[1..], Thin(wanted[0], live), y);
    }
  }

  // ---------- distinct wanted elements, any list ----------

  /** What is left of a list when everything looked up before is gone. */
  function Rest<T(==)>(s: seq<T>, gone: seq<T>): seq<T> {
    if s == [] then [] else (if s[0] in gone then [] else [s[0]]) + Rest(s[1..], gone)
  }

  lemma {:induction false} RestNone<T>(s: seq<T>)
    ensures Rest(s, []) == s
  {
    if s != [] {
      RestNone(s[1..]);
      assert s == [s[0]] + s[1..];
    }
  }

  lemma {:induction false} RestCons<T>(s: seq<T>, x: T, gone: seq<T>)
    ensures Rest(s, [x] + gone) == Rest(Without(s, x), gone)
  {
    if s != [] {
      RestCons(s[1..], x, gone);
      assert s[0] in [x] + gone <==> s[0] == x || s[0] in gone;
      if s[0] == x {
        WithoutFirst(s, x);
        assert [] + Rest(s[1..], [x] + gone) == Rest(s[1..], [x] + gone);
      } else {
        WithoutOther(s, x);
      }
    }
  }

  lemma WithoutOther<T>(s: seq<T>, x: T)
    requires s != [] && s[0] != x
    ensures Without(s, x) == [s[0]] + Without(s[1..], x)
  {
  }

  lemma {:induction false} WithoutIn<T>(s: seq<T>, x: T, y: T)
    ensures y in Without(s, x) <==> y in s && y != x
  {
    if s != [] {
      WithoutIn(s[1..], x, y);
      assert y in s <==> y == s[0] || y in s[1..];
      if s[0] == x { WithoutFirst(s, x); } else { WithoutOther(s, x); }
    }
  }

  /** No two copies of the element are side by side. */
  predicate NoneAdjacent<T(==)>(x: T, live: seq<T>) {
    forall i :: 0 <= i < |live| - 1 ==> live[i] != x || live[i + 1] != x
  }

  /** One look-up deletes every copy exactly when no two are side by side. */
  lemma {:induction false} ThinIsWithout<T>(x: T, live: seq<T>)
    requires NoneAdjacent(x, live)
    ensures Thin(x, live) == Without(live, x)
  {
    if live != [] {
      var tail := live[1..];
      assert forall i :: 0 <= i < |tail| ==> tail[i] == live[i + 1];
      if live[0] != x {
        ThinIsWithout(x, tail);
        WithoutOther(live, x);
      } else if |live| > 1 {
        assert live[0] == x && live[1] != x;
        assert tail[1..] == live[2..] && forall i :: 0 <= i < |live[2..]| ==> live[2..][i] == live[i + 2];
        ThinIsWithout(x, live[2..]);
        WithoutFirst(live, x);
        WithoutOther(tail, x);
      } else {
        WithoutFirst(live, x);
      }
    }
  }

  lemma {:induction false} ThinLeavesTwin<T>(x: T, live: seq<T>)
    requires !NoneAdjacent(x, live)
    ensures x in Thin(x, live)
  {
    var tail := live[1..];
    if live[0] != x {
      var i :| 0 <= i < |live| - 1 && live[i] == x && live[i + 1] == x;
      assert tail[i - 1] == x && tail[i] == x;
      ThinLeavesTwin(x, tail);
    } else if live[1] != x {
      var i :| 0 <= i < |live| - 1 && live[i] == x && live[i + 1] == x;
      assert live[2..][i - 2] == x && live[2..][i - 1] == x;
      ThinLeavesTwin(x, live[2..]);
    }
  }

  /** The element is looked up cleanly: of two copies something stands between, and something behind
      the last. */
  predicate IsSpaced<T(==)>(x: T, live: seq<T>) {
    NoneAdjacent(x, live) && !RunsOut(x, live)
  }

  /** Every wanted element is looked up cleanly among what is not yet gone. */
  predicate AllSpaced<T(==)>(wanted: seq<T>, actual: seq<T>) {
    forall w :: 0 <= w < |wanted| ==> IsSpaced(wanted[w], Rest(actual, wanted[..w]))
  }

  predicate SameElements<T(==)>(a: seq<T>, b: seq<T>) {
    (forall x :: x in a ==> x in b) && (forall x :: x in b ==> x in a)
  }

  lemma AllSpacedStep<T>(wanted: seq<T>, actual: seq<T>)
    requires wanted != []
    ensures AllSpaced(wanted, actual)
            <==> IsSpaced(wanted[0], actual) && AllSpaced(wanted[1..], Without(actual, wanted[0]))
  {
    var x, tail := wanted[0], wanted[1..];
    RestNone(actual);
    assert wanted[..0] == [];
    forall w | 0 <= w < |tail|
      ensures IsSpaced(tail[w], Rest(Without(actual, x), tail[..w])) <==> IsSpaced(wanted[w + 1], Rest(actual, wanted[..w + 1]))
    {
      RestCons(actual, x, tail[..w]);
      assert wanted[..w + 1] == [x] + tail[..w];
    }
    assert forall w :: 0 < w < |wanted| ==> wanted[w] == tail[w - 1];
    if AllSpaced(tail, Without(actual, x)) && IsSpaced(x, actual) {
      forall w | 0 <= w < |wanted| ensures IsSpaced(wanted[w], Rest(actual, wanted[..w])) {
        if w > 0 { assert IsSpaced(tail[w - 1], Rest(Without(actual, x), tail[..w - 1])); }
      }
    }
  }

  lemma SameElementsStep<T>(wanted: seq<T>, actual: seq<T>)
    requires wanted != [] && NoDuplicates(wanted)
    ensures SameElements(wanted, actual)
            <==> wanted[0] in actual && SameElements(wanted[1..], Without(actual, wanted[0]))
  {
    var x, tail, rest := wanted[0], wanted[1..], Without(actual, wanted[0]);
    assert forall i :: 0 <= i < |tail| ==> tail[i] == wanted[i + 1];
    assert x !in tail;
    if SameElements(wanted, actual) {
      assert wanted[0] in wanted;
      forall y | y in tail ensures y in rest {
        assert y in wanted;
        WithoutIn(actual, x, y);
      }
      forall y | y in rest ensures y in tail {
        WithoutIn(actual, x, y);
        assert y in wanted;
      }
    }
    if x in actual && SameElements(tail, rest) {
      forall y | y in wanted ensures y in actual {
        if y != x {
          assert y in tail;
          WithoutIn(actual, x, y);
        }
      }
      forall y | y in actual ensures y in wanted {
        WithoutIn(actual, x, y);
        assert y != x ==> y in tail;
      }
    }
  }

  /** The exact condition for a yes to distinct wanted elements, whatever the list: it has the same
      elements, and each is looked up cleanly. */
  lemma {:induction false} DistinctYesIff<T>(wanted: seq<T>, actual: seq<T>)
    requires NoDuplicates(wanted)
    ensures LookUps(wanted, actual) == Answer(true) <==> SameElements(wanted, actual) && AllSpaced(wanted, actual)
  {
    if wanted == [] {
      assert actual != [] ==> actual[0] in actual;
    } else {
      var x, tail := wanted[0], wanted[1..];
      AllSpacedStep(wanted, actual);
      SameElementsStep(wanted, actual);
      if x in actual && !RunsOut(x, actual) {
        if NoneAdjacent(x, actual) {
          ThinIsWithout(x, actual);
          DistinctYesIff(tail, Without(actual, x));
        } else {
          ThinLeavesTwin(x, actual);
          if LookUps(tail, Thin(x, actual)) == Answer(true) { YesMeansWanted(tail, Thin(x, actual), x); }
        }
      }
    }
  }

  /** What the look-ups really leave: of adjacent copies, every second one. */
  function Left<T(==)>(actual: seq<T>, gone: seq<T>): seq<T>
    decreases |gone|
  {
    if gone == [] then actual else Left(Thin(gone[0], actual), gone[1..])
  }

  /** At some wanted element, with all up to it there, what is left ends in it and has it elsewhere. */
  ghost predicate RunsOutAt<T>(wanted: seq<T>, actual: seq<T>, w: nat)
    requires w < |wanted|
  {
    (forall v :: 0 <= v <= w ==> wanted[v] in actual) && RunsOut(wanted[w], Left(actual, wanted[..w]))
  }

  lemma LeftStep<T>(wanted: seq<T>, actual: seq<T>, w: nat)
    requires 0 < w < |wanted| && NoDuplicates(wanted) && wanted[0] in actual
    ensures RunsOutAt(wanted, actual, w) <==> RunsOutAt(wanted[1..], Thin(wanted[0], actual), w - 1)
  {
    var x, tail := wanted[0], wanted[1..];
    assert wanted[..w][0] == x && wanted[..w][1..] == tail[..w - 1];
    forall v | 0 <= v < |tail| ensures tail[v] == wanted[v + 1] && (tail[v] in Thin(x, actual) <==> wanted[v + 1] in actual) {
      ThinKeepsOthers(x, actual, tail[v]);
      CountIn(actual, tail[v]);
      CountIn(Thin(x, actual), tail[v]);
    }
    if RunsOutAt(tail, Thin(x, actual), w - 1) {
      forall v | 0 <= v <= w ensures wanted[v] in actual { if v > 0 { assert tail[v - 1] in Thin(x, actual); } }
    }
  }

  /** The exact condition for a panic on distinct wanted elements, whatever the list. */
  lemma {:induction false} DistinctPanicIff<T>(wanted: seq<T>, actual: seq<T>)
    requires NoDuplicates(wanted)
    ensures LookUps(wanted, actual) == Panic <==> exists w :: 0 <= w < |wanted| && RunsOutAt(wanted, actual, w)
  {
    if wanted != [] {
      var x, tail := wanted[0], wanted[1..];
      assert wanted[..0] == [];
      if x !in actual {
        assert forall w :: 0 <= w < |wanted| ==> !RunsOutAt(wanted, actual, w);
      } else if RunsOut(x, actual) {
        assert RunsOutAt(wanted, actual, 0);
      } else {
        DistinctPanicIff(tail, Thin(x, actual));
        forall w | 0 < w < |wanted| ensures RunsOutAt(wanted, actual, w) <==> RunsOutAt(tail, Thin(x, actual), w - 1) {
          LeftStep(wanted, actual, w);
        }
        if w :| 0 <= w < |tail| && RunsOutAt(tail, Thin(x, actual), w) { assert RunsOutAt(wanted, actual, w + 1); }
        if w :| 0 <= w < |wanted| && RunsOutAt(wanted, actual, w) {
          assert w > 0;
          assert RunsOutAt(tail, Thin(x, actual), w - 1);
        }
      }
    }
  }
}
