/** The parts of Go's `strings` package that the operator leans on: splitting and joining on a
    separator, prefixes, suffixes, and the byte order used by `sort.Strings`. */
module Strings {

  predicate HasPrefix(s: string, prefix: string) {
    |prefix| <= |s| && s[..|prefix|] == prefix
  }

  predicate HasSuffix(s: string, suffix: string) {
    |suffix| <= |s| && s[|s| - |suffix|..] == suffix
  }

  /** True when `sep` occurs somewhere in `s`. */
  predicate Contains(s: string, sep: string) {
    exists i :: 0 <= i <= |s| && HasPrefix(s[i..], sep)
  }

  /** `strings.Split`: cut at every leftmost, non-overlapping occurrence of `sep`. */
  function Split(s: string, sep: string): (parts: seq<string>)
    requires sep != ""
    ensures |parts| > 0
    decreases |s|
  {
    if HasPrefix(s, sep) then [""] + Split(s[|sep|..], sep)
    else if s == "" then [""]
    else
      var rest := Split(s[1..], sep);
      [[s[0]] + rest[0]] + rest[1..]
  }

  /** `strings.Join`. */
  function Join(parts: seq<string>, sep: string): string {
    if parts == [] then ""
    else if |parts| == 1 then parts[0]
    else parts[0] + sep + Join(parts[1..], sep)
  }

  /** Concatenation of a list of lists. */
  function Flatten<T>(lists: seq<seq<T>>): seq<T> {
    if lists == [] then [] else lists[0] + Flatten(lists[1..])
  }

  /** Every part split again, in order. */
  function SplitAll(parts: seq<string>, sep: string): seq<string>
    requires sep != ""
  {
    if parts == [] then [] else Split(parts[0], sep) + SplitAll(parts[1..], sep)
  }

  /** Joining undoes splitting, for every separator. */
  lemma {:induction false} JoinSplit(s: string, sep: string)
    requires sep != ""
    ensures Join(Split(s, sep), sep) == s
    decreases |s|
  {
    if HasPrefix(s, sep) {
      JoinSplit(s[|sep|..], sep);
      JoinSplitCut(s, sep);
    } else if s != "" {
      JoinSplit(s[1..], sep);
      JoinSplitStep(s, sep);
    }
  }

  lemma JoinSplitCut(s: string, sep: string)
    requires sep != "" && HasPrefix(s, sep)
    requires Join(Split(s[|sep|..], sep), sep) == s[|sep|..]
    ensures Join(Split(s, sep), sep) == s
  {
    JoinCutParts(Split(s[|sep|..], sep), s[|sep|..], sep);
    assert sep + s[|sep|..] == s;
  }

  lemma JoinCutParts(parts: seq<string>, rest: string, sep: string)
    requires parts != [] && Join(parts, sep) == rest
    ensures Join([""] + parts, sep) == sep + rest
  {
    JoinCons("", parts, sep);
    assert "" + sep == sep;
  }

  lemma JoinSplitStep(s: string, sep: string)
    requires sep != "" && !HasPrefix(s, sep) && s != ""
    requires Join(Split(s[1..], sep), sep) == s[1..]
    ensures Join(Split(s, sep), sep) == s
  {
    JoinGrowHead(s[0], Split(s[1..], sep), sep);
    assert s == [s[0]] + s[1..];
  }

  lemma JoinGrowHead(c: char, parts: seq<string>, sep: string)
    requires parts != []
    ensures Join([[c] + parts[0]] + parts[1..], sep) == [c] + Join(parts, sep)
  {
    var grown := [[c] + parts[0]] + parts[1..];
    assert grown[1..] == parts[1..];
    if |parts| > 1 {
      var rest := Join(parts[1..], sep);
      assert ([c] + parts[0]) + sep + rest == [c] + (parts[0] + sep + rest);
    }
  }

  lemma JoinCons(head: string, tail: seq<string>, sep: string)
    requires tail != []
    ensures Join([head] + tail, sep) == head + sep + Join(tail, sep)
  {
    assert ([head] + tail)[1..] == tail;
  }

  /** A string is its own only part exactly when the separator does not occur in it. */
  lemma {:induction false} SplitWhole(s: string, sep: string)
    requires sep != ""
    ensures Split(s, sep) == [s] <==> !Contains(s, sep)
    ensures |Split(s, sep)| == 1 <==> !Contains(s, sep)
    decreases |s|
  {
    if HasPrefix(s, sep) {
      assert HasPrefix(s[0..], sep);
    } else if s == "" {
      assert !Contains(s, sep);
    } else {
      SplitWhole(s[1..], sep);
      assert s == [s[0]] + s[1..];
      if Contains(s[1..], sep) {
        var i :| 0 <= i <= |s[1..]| && HasPrefix(s[1..][i..], sep);
        assert s[1..][i..] == s[i + 1..];
      }
      if Contains(s, sep) {
        var i :| 0 <= i <= |s| && HasPrefix(s[i..], sep);
        assert i > 0 by { assert s[0..] == s; }
        assert s[i..] == s[1..][i - 1..];
      }
    }
  }

  /** One character of splitting on a one-character separator. */
  lemma SplitStep(s: string, sep: string)
    requires |sep| == 1 && s != ""
    ensures var rest := Split(s[1..], sep);
            Split(s, sep) == if s[0] == sep[0] then [""] + rest else [[s[0]] + rest[0]] + rest[1..]
  {
    assert HasPrefix(s, sep) <==> s[0] == sep[0];
  }

  /** With a one-character separator, splitting distributes over a separator in the text. */
  lemma {:induction false} SplitAcross(a: string, sep: string, b: string)
    requires |sep| == 1
    ensures Split(a + sep + b, sep) == Split(a, sep) + Split(b, sep)
    decreases |a|
  {
    var s := a + sep + b;
    if a == "" {
      assert s == sep + b && s[|sep|..] == b;
    } else {
      assert s[1..] == a[1..] + sep + b && s[0] == a[0];
      SplitAcross(a[1..], sep, b);
      SplitStep(s, sep);
      SplitStep(a, sep);
      PutInFront(a[0], sep, Split(a[1..], sep), Split(b, sep));
    }
  }

  lemma PutInFront(c: char, sep: string, front: seq<string>, back: seq<string>)
    requires |sep| == 1 && front != []
    ensures [[c] + (front + back)[0]] + (front + back)[1..] == [[c] + front[0]] + front[1..] + back
    ensures [""] + (front + back) == [""] + front + back
  {
    assert (front + back)[1..] == front[1..] + back;
  }

  /** Splitting what was joined splits each part: with a one-character separator the two undo
      each other up to separators hidden inside the parts. */
  lemma {:induction false} SplitJoin(parts: seq<string>, sep: string)
    requires |sep| == 1 && parts != []
    ensures Split(Join(parts, sep), sep) == SplitAll(parts, sep)
  {
    if |parts| == 1 {
      assert SplitAll(parts[1..], sep) == [];
    } else {
      SplitJoin(parts[1..], sep);
      SplitAcross(parts[0], sep, Join(parts[1..], sep));
    }
  }

  /** Parts free of the separator are left as they are. */
  lemma {:induction false} SplitAllWhole(parts: seq<string>, sep: string)
    requires sep != ""
    requires forall i :: 0 <= i < |parts| ==> !Contains(parts[i], sep)
    ensures SplitAll(parts, sep) == parts
  {
    if parts != [] {
      SplitWhole(parts[0], sep);
      SplitAllWhole(parts[1..], sep);
    }
  }

  lemma AppendAssociates<T>(a: seq<T>, b: seq<T>, c: seq<T>)
    ensures a + (b + c) == a + b + c
  {
  }

  lemma {:induction false} SplitAllAppend(a: seq<string>, b: seq<string>, sep: string)
    requires sep != ""
    ensures SplitAll(a + b, sep) == SplitAll(a, sep) + SplitAll(b, sep)
  {
    if a == [] {
      assert a + b == b;
    } else {
      SplitAllAppend(a[1..], b, sep);
      assert (a + b)[0] == a[0] && (a + b)[1..] == a[1..] + b;
      AppendAssociates(Split(a[0], sep), SplitAll(a[1..], sep), SplitAll(b, sep));
    }
  }

  /** No part of a split contains a one-character separator. */
  lemma {:induction false} SplitPartsClean(s: string, sep: string)
    requires |sep| == 1
    ensures forall i :: 0 <= i < |Split(s, sep)| ==> !Contains(Split(s, sep)[i], sep)
    decreases |s|
  {
    assert !Contains("", sep);
    if HasPrefix(s, sep) {
      SplitPartsClean(s[1..], sep);
    } else if s != "" {
      SplitPartsClean(s[1..], sep);
      NotContainsCons(s[0], Split(s[1..], sep)[0], sep);
    }
  }

  lemma NotContainsCons(c: char, s: string, sep: string)
    requires |sep| == 1 && c != sep[0] && !Contains(s, sep)
    ensures !Contains([c] + s, sep)
  {
    forall i | 0 <= i <= |s| + 1 ensures !HasPrefix(([c] + s)[i..], sep) {
      if i > 0 { assert ([c] + s)[i..] == s[i - 1..]; }
    }
  }

  // ---------- separators of any length ----------

  /** No separator begins in the part when one follows it. */
  predicate EndsWhole(part: string, sep: string)
    requires sep != ""
  {
    !Contains(part + sep[..|sep| - 1], sep)
  }

  lemma ContainsCons(c: char, s: string, sep: string)
    ensures Contains([c] + s, sep) <==> HasPrefix([c] + s, sep) || Contains(s, sep)
  {
    var t := [c] + s;
    assert t[0..] == t;
    assert forall i :: 0 < i <= |t| ==> t[i..] == s[i - 1..];
    if Contains(s, sep) {
      var i :| 0 <= i <= |s| && HasPrefix(s[i..], sep);
      assert HasPrefix(t[i + 1..], sep);
    }
  }

  lemma EndsWholeStep(part: string, sep: string, rest: string)
    requires sep != "" && part != ""
    ensures EndsWhole(part, sep) <==> !HasPrefix(part + sep + rest, sep) && EndsWhole(part[1..], sep)
  {
    var t := part + sep[..|sep| - 1];
    assert t == [part[0]] + (part[1..] + sep[..|sep| - 1]);
    ContainsCons(part[0], part[1..] + sep[..|sep| - 1], sep);
    assert (part + sep + rest)[..|sep|] == t[..|sep|];
  }

  lemma NothingEndsWhole(sep: string)
    requires sep != ""
    ensures EndsWhole("", sep)
  {
    assert "" + sep[..|sep| - 1] == sep[..|sep| - 1];
  }

  /** The first cut falls behind the part, or before its end. */
  lemma {:induction false} FirstCut(part: string, sep: string, rest: string)
    requires sep != ""
    ensures EndsWhole(part, sep) ==> Split(part + sep + rest, sep) == [part] + Split(rest, sep)
    ensures !EndsWhole(part, sep) ==> |Split(part + sep + rest, sep)[0]| < |part|
    decreases |part|
  {
    var s := part + sep + rest;
    if part == "" {
      NothingEndsWhole(sep);
      assert s == sep + rest && s[|sep|..] == rest;
    } else {
      EndsWholeStep(part, sep, rest);
      FirstCut(part[1..], sep, rest);
      assert s[1..] == part[1..] + sep + rest && s[0] == part[0];
      assert part == [part[0]] + part[1..];
    }
  }

  /** Every part but the last ends whole, and the last has no separator in it. */
  predicate Separable(parts: seq<string>, sep: string)
    requires sep != "" && parts != []
  {
    && (forall i :: 0 <= i < |parts| - 1 ==> EndsWhole(parts[i], sep))
    && !Contains(parts[|parts| - 1], sep)
  }

  /** The exact condition under which splitting undoes joining, for every separator. */
  lemma {:induction false} SplitJoinIff(parts: seq<string>, sep: string)
    requires sep != "" && parts != []
    ensures Split(Join(parts, sep), sep) == parts <==> Separable(parts, sep)
  {
    if |parts| == 1 {
      SplitWhole(parts[0], sep);
    } else {
      var rest := parts[1..];
      SplitJoinIff(rest, sep);
      FirstCut(parts[0], sep, Join(rest, sep));
      SeparableCons(parts, sep);
      assert parts == [parts[0]] + rest;
    }
  }

  lemma SeparableCons(parts: seq<string>, sep: string)
    requires sep != "" && |parts| > 1
    ensures Separable(parts, sep) <==> EndsWhole(parts[0], sep) && Separable(parts[1..], sep)
  {
    assert forall i :: 0 < i < |parts| ==> parts[i] == parts[1..][i - 1];
  }

  lemma SplitIsSeparable(s: string, sep: string)
    requires sep != ""
    ensures Separable(Split(s, sep), sep)
  {
    JoinSplit(s, sep);
    SplitJoinIff(Split(s, sep), sep);
  }

  // ---------- the order of sort.Strings ----------

  /** Lexicographic order by character, the order `sort.Strings` uses. */
  predicate Leq(a: string, b: string) {
    a == "" || (b != "" && (a[0] < b[0] || (a[0] == b[0] && Leq(a[1..], b[1..]))))
  }

  /** In plain terms: the one begins the other, or at the first difference its character is smaller. */
  lemma {:induction false} LeqIff(a: string, b: string)
    ensures Leq(a, b) <==> HasPrefix(b, a) || exists i :: DiffersAt(a, b, i) && a[i] < b[i]
  {
    if a != "" && b != "" && a[0] == b[0] {
      LeqIff(a[1..], b[1..]);
      assert HasPrefix(b, a) <==> HasPrefix(b[1..], a[1..]) by {
        assert a == [a[0]] + a[1..] && b == [b[0]] + b[1..];
        if HasPrefix(b, a) { assert b[1..][..|a| - 1] == b[..|a|][1..]; }
        if HasPrefix(b[1..], a[1..]) { assert b[..|a|] == [b[0]] + b[1..][..|a| - 1]; }
      }
      if i :| DiffersAt(a[1..], b[1..], i) && a[1..][i] < b[1..][i] {
        assert DiffersAt(a, b, i + 1) by {
          forall k | 0 <= k < i + 1 ensures a[k] == b[k] { if k > 0 { assert a[1..][k - 1] == b[1..][k - 1]; } }
        }
      }
      if i :| DiffersAt(a, b, i) && a[i] < b[i] {
        assert DiffersAt(a[1..], b[1..], i - 1);
      }
    } else if a != "" && b != "" {
      assert DiffersAt(a, b, 0);
    }
  }

  predicate DiffersAt(a: string, b: string, i: int) {
    0 <= i < |a| && i < |b| && a[i] != b[i] && forall k :: 0 <= k < i ==> a[k] == b[k]
  }

  lemma {:induction false} LeqTotal(a: string, b: string)
    ensures Leq(a, b) || Leq(b, a)
  {
    if a != "" && b != "" && a[0] == b[0] { LeqTotal(a[1..], b[1..]); }
  }

  lemma {:induction false} LeqTransitive(a: string, b: string, c: string)
    requires Leq(a, b) && Leq(b, c)
    ensures Leq(a, c)
  {
    if a != "" && a[0] == b[0] == c[0] { LeqTransitive(a[1..], b[1..], c[1..]); }
  }

  lemma {:induction false} LeqAntisymmetric(a: string, b: string)
    requires Leq(a, b) && Leq(b, a)
    ensures a == b
  {
    if a != "" && b != "" {
      LeqAntisymmetric(a[1..], b[1..]);
      assert a == [a[0]] + a[1..] && b == [b[0]] + b[1..];
    }
  }

  ghost predicate Sorted(keys: seq<string>) {
    forall i, j :: 0 <= i < j < |keys| ==> Leq(keys[i], keys[j])
  }

  ghost predicate NoDuplicates<T>(s: seq<T>) {
    forall i, j :: 0 <= i < j < |s| ==> s[i] != s[j]
  }

  ghost function Elements<T>(s: seq<T>): set<T> {
    set x | x in s
  }

  /** A set of strings has exactly one sorted listing, so sorting forgets the order in which a Go
      map was walked. */
  lemma {:induction false} SortedUnique(a: seq<string>, b: seq<string>)
    requires Sorted(a) && Sorted(b) && NoDuplicates(a) && NoDuplicates(b)
    requires Elements(a) == Elements(b)
    ensures a == b
  {
    if a == [] {
      NoElements(a);
      NoElements(b);
    } else {
      assert a[0] in Elements(b) && (b != [] ==> b[0] in Elements(a));
      assert b != [];
      var i :| 0 <= i < |b| && b[i] == a[0];
      var j :| 0 <= j < |a| && a[j] == b[0];
      if i > 0 && j > 0 { LeqAntisymmetric(a[0], b[0]); }
      assert a[0] == b[0];
      assert Elements(a[1..]) == Elements(a) - {a[0]} by { TailElements(a); }
      assert Elements(b[1..]) == Elements(b) - {b[0]} by { TailElements(b); }
      SortedUnique(a[1..], b[1..]);
      assert a == [a[0]] + a[1..] && b == [b[0]] + b[1..];
    }
  }

  lemma NoElements<T>(s: seq<T>)
    ensures s == [] <==> Elements(s) == {}
  {
    if s != [] { assert s[0] in Elements(s); }
  }

  lemma TailElements<T>(s: seq<T>)
    requires s != [] && NoDuplicates(s)
    ensures Elements(s[1..]) == Elements(s) - {s[0]}
  {
    forall x | x in Elements(s) && x != s[0]
      ensures x in Elements(s[1..])
    {
      var i :| 0 <= i < |s| && s[i] == x;
      assert s[1..][i - 1] == x;
    }
  }

  lemma {:induction false} ListingLength<T>(names: seq<T>, s: set<T>)
    requires NoDuplicates(names) && Elements(names) == s
    ensures |names| == |s|
  {
    NoElements(names);
    if names != [] {
      TailElements(names);
      ListingLength(names[1..], s - {names[0]});
    }
  }

  /** Insertion into a sorted list of keys. */
  function Insert(k: string, keys: seq<string>): (r: seq<string>)
    ensures multiset(r) == multiset(keys) + multiset{k}
  {
    if keys == [] then [k]
    else if Leq(k, keys[0]) then
      assert multiset([k] + keys) == multiset{k} + multiset(keys);
      [k] + keys
    else
      assert keys == [keys[0]] + keys[1..];
      [keys[0]] + Insert(k, keys[1..])
  }

  /** `sort.Strings`. */
  function Sort(keys: seq<string>): (r: seq<string>)
    ensures multiset(r) == multiset(keys)
  {
    if keys == [] then []
    else
      assert keys == [keys[0]] + keys[1..];
      Insert(keys[0], Sort(keys[1..]))
  }

  lemma {:induction false} InsertSorted(k: string, keys: seq<string>)
    requires Sorted(keys)
    ensures Sorted(Insert(k, keys))
  {
    if keys != [] {
      if Leq(k, keys[0]) {
        forall j | 0 <= j < |keys| ensures Leq(k, keys[j]) {
          if j > 0 { LeqTransitive(k, keys[0], keys[j]); }
        }
      } else {
        LeqTotal(k, keys[0]);
        InsertSorted(k, keys[1..]);
        var rest := Insert(k, keys[1..]);
        forall j | 0 <= j < |rest| ensures Leq(keys[0], rest[j]) {
          assert rest[j] in multiset(rest);
          if rest[j] != k {
            assert rest[j] in multiset(keys[1..]);
            var i :| 0 <= i < |keys[1..]| && keys[1..][i] == rest[j];
            assert keys[i + 1] == rest[j];
          }
        }
      }
    }
  }

  lemma {:induction false} SortSorted(keys: seq<string>)
    ensures Sorted(Sort(keys))
  {
    if keys != [] {
      SortSorted(keys[1..]);
      InsertSorted(keys[0], Sort(keys[1..]));
    }
  }

  lemma SortKeeps(keys: seq<string>)
    requires NoDuplicates(keys)
    ensures Sorted(Sort(keys)) && NoDuplicates(Sort(keys)) && Elements(Sort(keys)) == Elements(keys)
  {
    SortSorted(keys);
    SameMultisetSameDuplicates(keys, Sort(keys));
    SameMultisetSameElements(keys, Sort(keys));
  }

  lemma SameMultisetSameElements<T>(a: seq<T>, b: seq<T>)
    requires multiset(a) == multiset(b)
    ensures Elements(a) == Elements(b)
  {
    forall x ensures x in Elements(a) <==> x in Elements(b) {
      assert x in a <==> x in multiset(a);
      assert x in b <==> x in multiset(b);
    }
  }

  lemma SameMultisetSameDuplicates<T>(a: seq<T>, b: seq<T>)
    requires multiset(a) == multiset(b) && NoDuplicates(a)
    ensures NoDuplicates(b)
  {
    forall i, j | 0 <= i < j < |b| ensures b[i] != b[j] {
      if b[i] == b[j] {
        var x := b[i];
        CountTwice(b, i, j);
        assert multiset(a)[x] >= 2;
        CountOnce(a, x);
      }
    }
  }

  lemma CountTwice<T>(s: seq<T>, i: nat, j: nat)
    requires i < j < |s| && s[i] == s[j]
    ensures multiset(s)[s[i]] >= 2
  {
    assert s == s[..j] + [s[j]] + s[j + 1..];
    assert s[..j][i] == s[i];
    assert s[i] in multiset(s[..j]);
  }

  lemma {:induction false} CountOnce<T>(s: seq<T>, x: T)
    requires NoDuplicates(s)
    ensures multiset(s)[x] == if x in s then 1 else 0
  {
    if s != [] {
      CountOnce(s[1..], x);
      assert s == [s[0]] + s[1..];
      if x == s[0] {
        assert x !in s[1..];
      }
    }
  }

  // ---------- applying a function to a list ----------

  function Map<A, B>(f: A -> B, s: seq<A>): (r: seq<B>)
    ensures |r| == |s| && forall i :: 0 <= i < |s| ==> r[i] == f(s[i])
  {
    if s == [] then [] else [f(s[0])] + Map(f, s[1..])
  }

  lemma {:induction false} MapAppend<A, B>(f: A -> B, a: seq<A>, b: seq<A>)
    ensures Map(f, a + b) == Map(f, a) + Map(f, b)
  {
    if a == [] {
      assert a + b == b;
    } else {
      assert (a + b)[0] == a[0] && (a + b)[1..] == a[1..] + b;
      MapAppend(f, a[1..], b);
      AppendAssociates([f(a[0])], Map(f, a[1..]), Map(f, b));
    }
  }

  lemma Cancel<T>(m: multiset<T>, n: multiset<T>, x: T)
    requires m + multiset{x} == n + multiset{x}
    ensures m == n
  {
    assert m == m + multiset{x} - multiset{x};
    assert n == n + multiset{x} - multiset{x};
  }

  lemma WithoutAt<T>(s: seq<T>, i: nat)
    requires i < |s|
    ensures multiset(s) == multiset(s[..i] + s[i + 1..]) + multiset{s[i]}
  {
    assert s == s[..i] + [s[i]] + s[i + 1..];
  }

  lemma SliceAt<A, B>(f: A -> B, s: seq<A>, i: nat, j: nat, whole: seq<B>, part: seq<B>)
    requires i <= j <= |s| && |whole| == |s| && |part| == j - i
    requires forall k :: 0 <= k < |s| ==> whole[k] == f(s[k])
    requires forall k :: 0 <= k < j - i ==> part[k] == f(s[i..j][k])
    ensures part == whole[i..j]
  {
    assert forall k :: 0 <= k < j - i ==> s[i..j][k] == s[i + k];
  }

  lemma MapSlice<A, B>(f: A -> B, s: seq<A>, i: nat, j: nat)
    requires i <= j <= |s|
    ensures Map(f, s[i..j]) == Map(f, s)[i..j]
  {
    SliceAt(f, s, i, j, Map(f, s), Map(f, s[i..j]));
  }

  lemma MapWithout<A, B>(f: A -> B, s: seq<A>, i: nat)
    requires i < |s|
    ensures Map(f, s[..i] + s[i + 1..]) == Map(f, s)[..i] + Map(f, s)[i + 1..]
  {
    MapAppend(f, s[..i], s[i + 1..]);
    MapSlice(f, s, 0, i);
    MapSlice(f, s, i + 1, |s|);
  }

  lemma MapWithoutAt<A, B>(f: A -> B, s: seq<A>, i: nat)
    requires i < |s|
    ensures multiset(Map(f, s)) == multiset(Map(f, s[..i] + s[i + 1..])) + multiset{f(s[i])}
  {
    var all := Map(f, s);
    MapWithout(f, s, i);
    WithoutAt(all, i);
    assert all[i] == f(s[i]);
  }

  /** Equal multisets stay equal under a function. */
  lemma {:induction false} MapMultiset<A, B>(f: A -> B, a: seq<A>, b: seq<A>)
    requires multiset(a) == multiset(b)
    ensures multiset(Map(f, a)) == multiset(Map(f, b))
  {
    if a == [] {
      assert |multiset(b)| == 0;
      assert b == [];
    } else {
      assert a[0] in multiset(b);
      var i :| 0 <= i < |b| && b[i] == a[0];
      SameWithout(a, b, i);
      MapMultiset(f, a[1..], b[..i] + b[i + 1..]);
      MapWithoutAt(f, b, i);
      MapHead(f, a);
    }
  }

  lemma MapHead<A, B>(f: A -> B, s: seq<A>)
    requires s != []
    ensures multiset(Map(f, s)) == multiset(Map(f, s[1..])) + multiset{f(s[0])}
  {
    assert Map(f, s) == [f(s[0])] + Map(f, s[1..]);
  }

  lemma SameWithout<T>(a: seq<T>, b: seq<T>, i: nat)
    requires multiset(a) == multiset(b) && a != [] && i < |b| && b[i] == a[0]
    ensures multiset(a[1..]) == multiset(b[..i] + b[i + 1..])
  {
    WithoutAt(b, i);
    WithoutAt(a, 0);
    assert a[..0] + a[1..] == a[1..];
    Cancel(multiset(a[1..]), multiset(b[..i] + b[i + 1..]), a[0]);
  }
}
