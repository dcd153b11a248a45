/** What `resources.IsEqual` (pkg/appresource/resource.go) does to its slice of actual documents,
    as functions on the slots of the backing array.

    The slice is walked with a header frozen at loop entry while matches are deleted from it in
    place: the array keeps its size, the logical length shrinks, and the slots past it keep stale
    values that the walk still visits. Slots are compared by the text left once annotations are
    cleared, so here a slot is that text. */
module SliceScan {
  datatype Scan<T> = Panicked | Scanned(slots: seq<T>, len: nat, found: bool)

  datatype Verdict = Panic | Answer(equal: bool)

  /** `append(arnl[:i], arnl[i+1:]...)`: the tail moves down, the slot it leaves keeps its value. */
  function RemoveSlot<T>(slots: seq<T>, len: nat, i: nat): (r: seq<T>)
    requires i < len <= |slots|
    ensures |r| == |slots|
  {
    slots[..i] + slots[i + 1..len] + slots[len - 1..]
  }

  /** The inner loop from index `i`: `frozen` is the length when the loop started, `len` is now. */
  function ScanFrom<T(==)>(x: T, slots: seq<T>, len: nat, frozen: nat, i: nat, found: bool): Scan<T>
    requires len <= frozen <= |slots| && i <= frozen
    decreases frozen - i
  {
    if i == frozen then Scanned(slots, len, found)
    else if slots[i] != x then ScanFrom(x, slots, len, frozen, i + 1, found)
    else if i + 1 > len then Panicked
    else ScanFrom(x, RemoveSlot(slots, len, i), len - 1, frozen, i + 1, true)
  }

  /** The outer loop over the wanted documents still to be looked up. */
  function CompareFrom<T(==)>(wanted: seq<T>, slots: seq<T>, len: nat): Verdict
    requires len <= |slots|
    decreases |wanted|
  {
    if wanted == [] then Answer(len == 0)
    else
      match ScanFrom(wanted[0], slots, len, len, 0, false)
      case Panicked => Panic
      case Scanned(slots', len', found) =>
        ScanShape(wanted[0], slots, len, len, 0, false);
        if found then CompareFrom(wanted[1..], slots', len') else Answer(false)
  }

  function IsEqualVerdict<T(==)>(wanted: seq<T>, actual: seq<T>): Verdict {
    CompareFrom(wanted, actual, |actual|)
  }

  /** One round of the outer loop. */
  lemma CompareRound<T>(wanted: seq<T>, w: nat, slots: seq<T>, len: nat)
    requires w < |wanted| && len <= |slots|
    ensures var scan := ScanFrom(wanted[w], slots, len, len, 0, false);
            && (scan.Panicked? ==> CompareFrom(wanted[w..], slots, len) == Panic)
            && (scan.Scanned? ==> scan.len <= |scan.slots|)
            && (scan.Scanned? && !scan.found ==> CompareFrom(wanted[w..], slots, len) == Answer(false))
            && (scan.Scanned? && scan.found
                ==> CompareFrom(wanted[w..], slots, len) == CompareFrom(wanted[w + 1..], scan.slots, scan.len))
  {
    ScanShape(wanted[w], slots, len, len, 0, false);
    assert wanted[w..][0] == wanted[w] && wanted[w..][1..] == wanted[w + 1..];
  }

  lemma {:induction false} ScanShape<T>(x: T, slots: seq<T>, len: nat, frozen: nat, i: nat, found: bool)
    requires len <= frozen <= |slots| && i <= frozen
    ensures var r := ScanFrom(x, slots, len, frozen, i, found);
            r.Scanned? ==> |r.slots| == |slots| && r.len <= len && (r.found ==> found || r.len < len)
    decreases frozen - i
  {
    if i < frozen {
      if slots[i] != x {
        ScanShape(x, slots, len, frozen, i + 1, found);
      } else if i + 1 <= len {
        ScanShape(x, RemoveSlot(slots, len, i), len - 1, frozen, i + 1, true);
      }
    }
  }

  // ---------- what one round does ----------

  /** What a round that looks up `x` leaves: a match is deleted and the walk steps over the element
      that moved into its slot, so of adjacent matches every second one stays. */
  function Thin<T(==)>(x: T, live: seq<T>): (r: seq<T>)
    ensures |r| <= |live|
  {
    if live == [] then []
    else if live[0] != x then [live[0]] + Thin(x, live[1..])
    else if |live| == 1 then []
    else [live[1]] + Thin(x, live[2..])
  }

  /** A walk over slots without the element sees nothing. */
  lemma {:induction false} ScanWithoutMatch<T>(x: T, slots: seq<T>, len: nat, frozen: nat, i: nat, found: bool)
    requires len <= frozen <= |slots| && i <= frozen
    requires forall j :: i <= j < frozen ==> slots[j] != x
    ensures ScanFrom(x, slots, len, frozen, i, found) == Scanned(slots, len, found)
    decreases frozen - i
  {
    if i < frozen { ScanWithoutMatch(x, slots, len, frozen, i + 1, found); }
  }

  lemma RemoveSlotAt<T>(slots: seq<T>, len: nat, i: nat)
    requires i < len <= |slots|
    ensures forall k :: 0 <= k < |slots| && !(i <= k < len - 1) ==> RemoveSlot(slots, len, i)[k] == slots[k]
    ensures forall k :: i <= k < len - 1 ==> RemoveSlot(slots, len, i)[k] == slots[k + 1]
  {
  }

  /** The stale slots never match while the last live element does not. */
  ghost predicate EndsClean<T>(x: T, slots: seq<T>, len: nat, frozen: nat, i: nat)
    requires len <= frozen <= |slots|
  {
    (forall j :: len <= j < frozen ==> slots[j] != x) && (i < len ==> slots[len - 1] != x)
  }

  lemma RemoveEndsClean<T>(x: T, slots: seq<T>, len: nat, frozen: nat, i: nat)
    requires i + 1 < len <= frozen <= |slots| && EndsClean(x, slots, len, frozen, i) && slots[i] == x
    ensures var rest := RemoveSlot(slots, len, i);
            EndsClean(x, rest, len - 1, frozen, i + 1)
  {
    RemoveSlotAt(slots, len, i);
  }

  /** The live slots when the walk is at index `i`: those passed stay, the others will be thinned. */
  function ThinFrom<T(==)>(x: T, slots: seq<T>, len: nat, i: nat): seq<T>
    requires i <= len <= |slots|
  {
    slots[..i] + Thin(x, slots[i..len])
  }

  lemma ThinPasses<T>(x: T, slots: seq<T>, len: nat, i: nat)
    requires i < len <= |slots| && slots[i] != x
    ensures ThinFrom(x, slots, len, i) == ThinFrom(x, slots, len, i + 1)
    ensures x in slots[i..len] <==> x in slots[i + 1..len]
  {
    var live := slots[i..len];
    assert live[0] == slots[i] && live[1..] == slots[i + 1..len];
    assert live == [slots[i]] + slots[i + 1..len];
    assert slots[..i + 1] == slots[..i] + [slots[i]];
  }

  lemma ThinDeletes<T>(x: T, slots: seq<T>, len: nat, i: nat)
    requires i + 1 < len <= |slots| && slots[i] == x
    ensures ThinFrom(x, slots, len, i) == ThinFrom(x, RemoveSlot(slots, len, i), len - 1, i + 1)
    ensures x in slots[i..len]
  {
    var live, rest := slots[i..len], RemoveSlot(slots, len, i);
    RemoveSlotAt(slots, len, i);
    assert live[0] == x && live[1] == slots[i + 1] && live[2..] == slots[i + 2..len];
    assert rest[..i + 1] == slots[..i] + [slots[i + 1]];
    assert rest[i + 1..len - 1] == slots[i + 2..len];
  }

  /** The live slots after a walk from index `i`. */
  ghost predicate Leaves<T>(scan: Scan<T>, size: nat, live: seq<T>, found: bool) {
    scan.Scanned? && |scan.slots| == size && scan.len <= size && scan.slots[..scan.len] == live && scan.found == found
  }

  lemma {:induction false} ScanThins<T>(x: T, slots: seq<T>, len: nat, frozen: nat, i: nat, found: bool)
    requires len <= frozen <= |slots| && i <= len && EndsClean(x, slots, len, frozen, i)
    ensures Leaves(ScanFrom(x, slots, len, frozen, i, found), |slots|, ThinFrom(x, slots, len, i), found || x in slots[i..len])
    decreases len - i
  {
    if i == len {
      ScanWithoutMatch(x, slots, len, frozen, i, found);
      assert ThinFrom(x, slots, len, i) == slots[..len];
    } else if slots[i] != x {
      ThinPasses(x, slots, len, i);
      ScanThins(x, slots, len, frozen, i + 1, found);
    } else {
      ThinDeletes(x, slots, len, i);
      RemoveEndsClean(x, slots, len, frozen, i);
      ScanThins(x, RemoveSlot(slots, len, i), len - 1, frozen, i + 1, true);
    }
  }

  /** After a deletion, a match in the last slot of the frozen slice is fatal. */
  lemma {:induction false} StaleMatchPanics<T>(x: T, slots: seq<T>, len: nat, frozen: nat, i: nat, found: bool)
    requires len < frozen <= |slots| && i < frozen && slots[frozen - 1] == x
    ensures ScanFrom(x, slots, len, frozen, i, found) == Panicked
    decreases frozen - i
  {
    if i + 1 < frozen {
      if slots[i] != x {
        StaleMatchPanics(x, slots, len, frozen, i + 1, found);
      } else if i + 1 <= len {
        RemoveSlotAt(slots, len, i);
        StaleMatchPanics(x, RemoveSlot(slots, len, i), len - 1, frozen, i + 1, true);
      }
    }
  }

  lemma {:induction false} LastOfManyPanics<T>(x: T, slots: seq<T>, len: nat, i: nat, j: nat)
    requires i <= j < len - 1 && len <= |slots| && slots[j] == slots[len - 1] == x
    ensures ScanFrom(x, slots, len, len, i, false) == Panicked
    decreases j - i
  {
    if slots[i] != x {
      LastOfManyPanics(x, slots, len, i + 1, j);
    } else {
      RemoveSlotAt(slots, len, i);
      StaleMatchPanics(x, RemoveSlot(slots, len, i), len - 1, len, i + 1, true);
    }
  }

  lemma {:induction false} LastAlone<T>(x: T, slots: seq<T>, len: nat, i: nat)
    requires i < len <= |slots| && slots[len - 1] == x && forall j :: i <= j < len - 1 ==> slots[j] != x
    ensures Leaves(ScanFrom(x, slots, len, len, i, false), |slots|, slots[..len - 1], true)
    decreases len - i
  {
    if i < len - 1 {
      LastAlone(x, slots, len, i + 1);
    } else {
      RemoveSlotAt(slots, len, i);
      var rest := RemoveSlot(slots, len, i);
      assert ScanFrom(x, rest, len - 1, len, i + 1, true) == Scanned(rest, len - 1, true);
      assert rest[..len - 1] == slots[..len - 1];
    }
  }

  lemma {:induction false} ThinLastAlone<T>(x: T, front: seq<T>)
    requires x !in front
    ensures Thin(x, front + [x]) == front
  {
    if front != [] {
      assert (front + [x])[1..] == front[1..] + [x];
      ThinLastAlone(x, front[1..]);
    }
  }

  // ---------- the comparison without slots ----------

  /** Looking up `x` runs out of range: it stands last and not there only. */
  predicate RunsOut<T(==)>(x: T, live: seq<T>) {
    live != [] && live[|live| - 1] == x && x in live[..|live| - 1]
  }

  /** The comparison on the list alone, without slots, frozen lengths and stale values. */
  function LookUps<T(==)>(wanted: seq<T>, live: seq<T>): Verdict {
    if wanted == [] then Answer(live == [])
    else if wanted[0] !in live then Answer(false)
    else if RunsOut(wanted[0], live) then Panic
    else LookUps(wanted[1..], Thin(wanted[0], live))
  }

  lemma RoundRunsOut<T>(x: T, slots: seq<T>, len: nat)
    requires 0 < len <= |slots| && slots[len - 1] == x && x in slots[..len - 1]
    ensures ScanFrom(x, slots, len, len, 0, false) == Panicked
  {
    var front := slots[..len - 1];
    var j :| 0 <= j < |front| && front[j] == x;
    LastOfManyPanics(x, slots, len, 0, j);
  }

  lemma RoundEndsAlone<T>(x: T, slots: seq<T>, len: nat)
    requires 0 < len <= |slots| && slots[len - 1] == x && x !in slots[..len - 1]
    ensures Leaves(ScanFrom(x, slots, len, len, 0, false), |slots|, Thin(x, slots[..len]), true)
  {
    var front := slots[..len - 1];
    forall j | 0 <= j < len - 1 ensures slots[j] != x { assert front[j] in front; }
    LastAlone(x, slots, len, 0);
    ThinLastAlone(x, front);
    assert slots[..len] == front + [x];
  }

  lemma RoundEndsInMatch<T>(x: T, slots: seq<T>, len: nat)
    requires 0 < len <= |slots| && slots[len - 1] == x
    ensures var scan, live := ScanFrom(x, slots, len, len, 0, false), slots[..len];
            if RunsOut(x, live) then scan == Panicked else Leaves(scan, |slots|, Thin(x, live), true)
  {
    assert slots[..len][..len - 1] == slots[..len - 1];
    if x in slots[..len - 1] { RoundRunsOut(x, slots, len); } else { RoundEndsAlone(x, slots, len); }
  }

  lemma RoundIsLookUp<T>(x: T, slots: seq<T>, len: nat)
    requires len <= |slots|
    ensures var scan, live := ScanFrom(x, slots, len, len, 0, false), slots[..len];
            if RunsOut(x, live) then scan == Panicked else Leaves(scan, |slots|, Thin(x, live), x in live)
  {
    if len > 0 && slots[len - 1] == x {
      RoundEndsInMatch(x, slots, len);
      assert slots[..len][len - 1] == x;
    } else {
      ScanThins(x, slots, len, len, 0, false);
      assert slots[0..len] == slots[..len];
      assert ThinFrom(x, slots, len, 0) == Thin(x, slots[..len]);
    }
  }

  /** `IsEqual` is exactly this comparison, for all lists: a match is deleted with the element behind
      it skipped, and only a match in the last place with another before it runs out of range. */
  lemma {:induction false} CompareIsLookUps<T>(wanted: seq<T>, slots: seq<T>, len: nat)
    requires len <= |slots|
    ensures CompareFrom(wanted, slots, len) == LookUps(wanted, slots[..len])
    decreases |wanted|
  {
    if wanted != [] {
      var x := wanted[0];
      RoundIsLookUp(x, slots, len);
      var scan := ScanFrom(x, slots, len, len, 0, false);
      if scan.Scanned? && scan.found {
        CompareIsLookUps(wanted[1..], scan.slots, scan.len);
      }
    }
  }

  lemma IsEqualIsLookUps<T>(wanted: seq<T>, actual: seq<T>)
    ensures IsEqualVerdict(wanted, actual) == LookUps(wanted, actual)
  {
    assert actual[..|actual|] == actual;
    CompareIsLookUps(wanted, actual, |actual|);
  }
}
