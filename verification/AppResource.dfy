/** The list of resources of a package (pkg/appresource/resource.go) and the merge of such lists
    (pkg/pkgutil/pkgutil.go), on the heap: documents are shared nodes updated in place, and the
    slice compared by `IsEqual` is a backing array with a length. */
module AppResource {
  import opened Strings
  import opened Paths
  import opened SliceScan
  import opened Documents
  import opened PkgUtil
  import opened Merging

  /** yaml.RNode: a mutable document. */
  class RNode {
    var node: Node

    constructor (node: Node)
      ensures this.node == node
    {
      this.node := node;
    }

    method SetAnnotations(annotations: map<string, string>)
      modifies this
      ensures node == old(node).(annotations := annotations)
    {
      node := node.(annotations := annotations);
    }

    method Copy() returns (copy: RNode)
      ensures fresh(copy) && copy.node == node
    {
      copy := new RNode(node);
    }
  }

  /** The documents behind a list of nodes. */
  ghost function Views(nodes: seq<RNode>): (views: seq<Node>)
    reads nodes
    ensures |views| == |nodes| && forall i :: 0 <= i < |nodes| ==> views[i] == nodes[i].node
  {
    seq(|nodes|, i requires 0 <= i < |nodes| reads nodes => nodes[i].node)
  }

  /** The texts that `IsEqual` compares. */
  ghost function Texts(nodes: seq<RNode>): (texts: seq<Node>)
    reads nodes
    ensures |texts| == |nodes| && forall i :: 0 <= i < |nodes| ==> texts[i] == Cleared(nodes[i].node)
  {
    seq(|nodes|, i requires 0 <= i < |nodes| reads nodes => Cleared(nodes[i].node))
  }

  /** Fresh nodes for documents, no node twice. */
  method FreshNodes(docs: seq<Node>) returns (nodes: seq<RNode>)
    ensures Views(nodes) == docs
    ensures NoDuplicates(nodes) && forall i :: 0 <= i < |nodes| ==> fresh(nodes[i])
  {
    nodes := [];
    var i := 0;
    while i < |docs|
      invariant 0 <= i <= |docs|
      invariant Views(nodes) == docs[..i]
      invariant NoDuplicates(nodes) && forall j :: 0 <= j < |nodes| ==> fresh(nodes[j])
    {
      var rn := new RNode(docs[i]);
      assert forall j :: 0 <= j < |nodes| ==> nodes[j] != rn;
      nodes := nodes + [rn];
      i := i + 1;
    }
    assert docs[..|docs|] == docs;
  }

  /** `append(arnl[:i], arnl[i+1:]...)` on the shared backing array. */
  method RemoveAt(a: array<RNode>, len: nat, i: nat)
    requires i < len <= a.Length
    modifies a
    ensures a[..] == RemoveSlot(old(a[..]), len, i)
  {
    ghost var before := a[..];
    var j := i;
    while j < len - 1
      invariant i <= j <= len - 1
      invariant forall k :: 0 <= k < a.Length && !(i <= k < j) ==> a[k] == before[k]
      invariant forall k :: i <= k < j ==> a[k] == before[k + 1]
    {
      a[j] := a[j + 1];
      j := j + 1;
    }
    RemoveSlotAt(before, len, i);
    assert a[..] == RemoveSlot(before, len, i);
  }

  lemma RemoveSlotInFront<T>(slots: seq<T>, n: nat, len: nat, i: nat)
    requires i < len <= n <= |slots|
    ensures RemoveSlot(slots, len, i)[..n] == RemoveSlot(slots[..n], len, i)
  {
    RemoveSlotAt(slots, len, i);
    RemoveSlotAt(slots[..n], len, i);
  }

  class Resources {
    var resources: seq<RNode>

    constructor ()
      ensures resources == []
    {
      resources := [];
    }

    method Add(rn: RNode)
      modifies this
      ensures resources == old(resources) + [rn]
    {
      resources := resources + [rn];
    }

    method Get() returns (nodes: seq<RNode>)
      ensures nodes == resources
    {
      nodes := resources;
    }

    /** A deep copy: fresh nodes with the same documents in the same order. */
    method Copy() returns (copy: Resources)
      ensures fresh(copy) && forall i :: 0 <= i < |copy.resources| ==> fresh(copy.resources[i])
      ensures Views(copy.resources) == Views(resources)
    {
      copy := new Resources();
      ghost var views := Views(resources);
      var i := 0;
      while i < |resources|
        invariant 0 <= i <= |resources|
        invariant fresh(copy) && forall j :: 0 <= j < |copy.resources| ==> fresh(copy.resources[j])
        invariant Views(copy.resources) == views[..i]
      {
        var c := resources[i].Copy();
        copy.Add(c);
        i := i + 1;
      }
    }

    /** Compares with the `n` documents in front of the backing array. The verdict is the one
        computed on texts; only the compared documents lose annotations, so a receiver that shares
        no node with them keeps every one of its documents, paths included. */
    method IsEqual(arnl: array<RNode>, n: nat) returns (verdict: Verdict)
      requires n <= arnl.Length
      modifies arnl, arnl[..n]
      ensures verdict == old(IsEqualVerdict(Texts(resources), Texts(arnl[..n])))
      ensures SameTexts(old(arnl[..n]))
      ensures resources == old(resources)
    {
      var newResources := Copy();
      SameViewsSameTexts(newResources.resources, resources);
      assert arnl[..n] == old(arnl[..n]);
      verdict := LookUpAll(newResources, arnl, n);
    }
  }

  lemma SameViewsSameTexts(a: seq<RNode>, b: seq<RNode>)
    requires Views(a) == Views(b)
    ensures Texts(a) == Texts(b)
  {
    forall i | 0 <= i < |a| ensures Texts(a)[i] == Texts(b)[i] {
      assert Views(a)[i] == Views(b)[i];
    }
  }

  /** The outer loop of `IsEqual`, over a private copy of the wanted documents. */
  method LookUpAll(copy: Resources, arnl: array<RNode>, n: nat) returns (verdict: Verdict)
    requires n <= arnl.Length
    modifies copy.resources, arnl, arnl[..n]
    ensures verdict == old(IsEqualVerdict(Texts(copy.resources), Texts(arnl[..n])))
    ensures SameTexts(old(arnl[..n]))
  {
    var nrs := copy.Get();
    ghost var actual, wanted := arnl[..n], Texts(nrs);
    ghost var expected := IsEqualVerdict(wanted, Texts(actual));
    var len: nat, w := n, 0;
    assert wanted[0..] == wanted && wanted[|nrs|..] == [];
    while w < |nrs|
      invariant 0 <= w <= |nrs| && len <= n
      invariant AllIn(arnl[..n], actual) && SameTexts(actual) && SameTexts(nrs)
      invariant expected == CompareFrom(wanted[w..], Texts(arnl[..n]), len)
    {
      assert Cleared(nrs[w].node) == wanted[w];
      var panicked, found;
      panicked, len, found := LookUpNext(nrs[w], arnl, n, len, wanted, w);
      if panicked {
        return Panic;
      }
      if !found {
        return Answer(false);
      }
      w := w + 1;
    }
    return Answer(len == 0);
  }

  /** One round of the outer loop. */
  method LookUpNext(nr: RNode, arnl: array<RNode>, n: nat, length: nat, ghost wanted: seq<Node>, ghost w: nat)
    returns (panicked: bool, len: nat, found: bool)
    requires length <= n <= arnl.Length && w < |wanted| && Cleared(nr.node) == wanted[w]
    modifies nr, arnl, arnl[..n]
    ensures len <= n
    ensures CompareFrom(wanted[w..], old(Texts(arnl[..n])), length)
            == if panicked then Panic else if !found then Answer(false) else CompareFrom(wanted[w + 1..], Texts(arnl[..n]), len)
    ensures AllIn(arnl[..n], old(arnl[..n]))
    ensures Cleared(nr.node) == Cleared(old(nr.node)) && SameTexts(old(arnl[..n]))
  {
    CompareRound(wanted, w, Texts(arnl[..n]), length);
    panicked, len, found := LookUp(nr, arnl, n, length);
  }

  ghost predicate AllIn(nodes: seq<RNode>, all: seq<RNode>) {
    forall i :: 0 <= i < |nodes| ==> nodes[i] in all
  }

  /** Every node still has the text it had. */
  twostate predicate SameTexts(nodes: seq<RNode>)
    reads nodes
  {
    forall r: RNode :: r in nodes ==> Cleared(r.node) == Cleared(old(r.node))
  }

  /** Deletion seen on the first `n` slots of the array and on the texts in them. */
  method DeleteMatch(arnl: array<RNode>, ghost n: nat, len: nat, i: nat)
    requires i < len <= n <= arnl.Length
    modifies arnl
    ensures Texts(arnl[..n]) == RemoveSlot(old(Texts(arnl[..n])), len, i)
    ensures AllIn(arnl[..n], old(arnl[..n]))
  {
    ghost var all := arnl[..];
    assert arnl[..n] == all[..n];
    ghost var before := all[..n];
    RemoveAt(arnl, len, i);
    RemoveSlotInFront(all, n, len, i);
    assert arnl[..n] == arnl[..][..n];
    TextsWithout(before, len, i);
  }

  lemma TextsWithout(nodes: seq<RNode>, len: nat, i: nat)
    requires i < len <= |nodes|
    ensures Texts(RemoveSlot(nodes, len, i)) == RemoveSlot(Texts(nodes), len, i)
    ensures AllIn(RemoveSlot(nodes, len, i), nodes)
  {
    RemoveSlotAt(nodes, len, i);
    RemoveSlotAt(Texts(nodes), len, i);
  }

  /** One comparison: both documents lose their annotations first. */
  method Matches(nr: RNode, ar: RNode) returns (same: bool)
    modifies nr, ar
    ensures same <==> old(Cleared(nr.node)) == old(Cleared(ar.node))
    ensures Cleared(nr.node) == old(Cleared(nr.node)) && Cleared(ar.node) == old(Cleared(ar.node))
  {
    nr.SetAnnotations(map[]);
    ar.SetAnnotations(map[]);
    same := nr.node == ar.node;
  }

  /** One round of the inner loop of `IsEqual`, at index `i`: a slot that matches is deleted, unless
      the slice has become too short for that. */
  method VisitSlot(nr: RNode, arnl: array<RNode>, ghost n: nat, length: nat, i: nat, foundBefore: bool)
    returns (panicked: bool, len: nat, found: bool)
    requires length <= n <= arnl.Length && i < n
    modifies nr, arnl, arnl[..n]
    ensures var slots, hit := old(Texts(arnl[..n])), old(Texts(arnl[..n]))[i] == old(Cleared(nr.node));
            && panicked == (hit && i + 1 > length)
            && found == (foundBefore || hit)
            && (panicked || !hit ==> len == length && Texts(arnl[..n]) == slots)
            && (hit && !panicked ==> len == length - 1 && Texts(arnl[..n]) == RemoveSlot(slots, length, i))
    ensures AllIn(arnl[..n], old(arnl[..n]))
    ensures Cleared(nr.node) == Cleared(old(nr.node)) && SameTexts(old(arnl[..n]))
  {
    panicked, len, found := false, length, foundBefore;
    var same := MatchesSlot(nr, arnl, n, i);
    if same {
      found := true;
      if i + 1 > len {
        panicked := true;
      } else {
        DeleteMatch(arnl, n, len, i);
        len := len - 1;
      }
    }
  }

  /** The same round as part of a walk of `frozen` slots. */
  method ScanSlot(nr: RNode, arnl: array<RNode>, ghost n: nat, length: nat, ghost frozen: nat, i: nat, foundBefore: bool)
    returns (panicked: bool, len: nat, found: bool)
    requires length <= frozen <= n <= arnl.Length && i < frozen
    modifies nr, arnl, arnl[..n]
    ensures len <= length
    ensures ScanFrom(Cleared(old(nr.node)), old(Texts(arnl[..n])), length, frozen, i, foundBefore)
            == if panicked then Panicked
               else ScanFrom(Cleared(old(nr.node)), Texts(arnl[..n]), len, frozen, i + 1, found)
    ensures AllIn(arnl[..n], old(arnl[..n]))
    ensures Cleared(nr.node) == Cleared(old(nr.node)) && SameTexts(old(arnl[..n]))
  {
    ghost var x, slots := Cleared(nr.node), Texts(arnl[..n]);
    panicked, len, found := VisitSlot(nr, arnl, n, length, i, foundBefore);
    SlotVisited(x, slots, length, frozen, i, foundBefore, panicked, Texts(arnl[..n]), len, found);
  }

  lemma SlotVisited(x: Node, slots: seq<Node>, length: nat, frozen: nat, i: nat, foundBefore: bool,
                    panicked: bool, slots': seq<Node>, len: nat, found: bool)
    requires length <= frozen <= |slots| && i < frozen && |slots'| == |slots|
    requires panicked == (slots[i] == x && i + 1 > length)
    requires found == (foundBefore || slots[i] == x)
    requires panicked || slots[i] != x ==> len == length && slots' == slots
    requires slots[i] == x && !panicked ==> len == length - 1 && slots' == RemoveSlot(slots, length, i)
    ensures len <= length
    ensures ScanFrom(x, slots, length, frozen, i, foundBefore)
            == if panicked then Panicked else ScanFrom(x, slots', len, frozen, i + 1, found)
  {
  }

  /** The comparison with the document in one slot. */
  method MatchesSlot(nr: RNode, arnl: array<RNode>, ghost n: nat, i: nat) returns (same: bool)
    requires i < n <= arnl.Length
    modifies nr, arnl[..n]
    ensures same <==> old(Texts(arnl[..n]))[i] == old(Cleared(nr.node))
    ensures Texts(arnl[..n]) == old(Texts(arnl[..n]))
    ensures Cleared(nr.node) == old(Cleared(nr.node)) && SameTexts(old(arnl[..n]))
  {
    var ar := arnl[i];
    assert arnl[..n][i] == ar;
    same := Matches(nr, ar);
  }

  /** The inner loop of `IsEqual`: the range over `arnl` keeps the length it started with, while
      every match is deleted from the array it walks. */
  method LookUp(nr: RNode, arnl: array<RNode>, n: nat, length: nat) returns (panicked: bool, len: nat, found: bool)
    requires length <= n <= arnl.Length
    modifies nr, arnl, arnl[..n]
    ensures ScanFrom(Cleared(old(nr.node)), old(Texts(arnl[..n])), length, length, 0, false)
            == if panicked then Panicked else Scanned(Texts(arnl[..n]), len, found)
    ensures len <= length
    ensures AllIn(arnl[..n], old(arnl[..n]))
    ensures Cleared(nr.node) == Cleared(old(nr.node)) && SameTexts(old(arnl[..n]))
  {
    ghost var actual, x := arnl[..n], Cleared(nr.node);
    var i := 0;
    panicked, len, found := false, length, false;
    while i < length
      invariant 0 <= i <= length && len <= length && !panicked
      invariant AllIn(arnl[..n], actual)
      invariant Cleared(nr.node) == x && SameTexts(actual)
      invariant ScanFrom(x, old(Texts(arnl[..n])), length, length, 0, false)
                == ScanFrom(x, Texts(arnl[..n]), len, length, i, found)
    {
      panicked, len, found := ScanSlot(nr, arnl, n, len, length, i, found);
      if panicked {
        return;
      }
      i := i + 1;
    }
  }

  // ---------- MergePackages ----------

  /** One sub-package of `MergePackages`: its documents are moved below its directory in place, and
      the same nodes are added to the merged list. */
  method AddSubpackage(sub: string, nodes: seq<RNode>, merged: Resources)
    requires NoDuplicates(nodes)
    modifies merged, nodes
    ensures merged.resources == old(merged.resources) + nodes
    ensures Views(nodes) == RelocateAll(sub, old(Views(nodes)))
    ensures forall i :: 0 <= i < |nodes| ==> SameButPath(old(nodes[i].node), nodes[i].node)
  {
    ghost var before := Views(nodes);
    var i := 0;
    while i < |nodes|
      invariant 0 <= i <= |nodes|
      invariant merged.resources == old(merged.resources) + nodes[..i]
      invariant forall j :: 0 <= j < i ==> nodes[j].node == Relocate(sub, before[j])
      invariant forall j :: i <= j < |nodes| ==> nodes[j].node == before[j]
    {
      MoveBelow(sub, nodes[i]);
      merged.Add(nodes[i]);
      i := i + 1;
    }
    AllKept(sub, before);
  }

  /** The path annotation of one document is joined below the directory; the others are set again as
      they were. */
  method MoveBelow(sub: string, r: RNode)
    modifies r
    ensures r.node == Relocate(sub, old(r.node))
  {
    var path := if PATH in r.node.annotations then r.node.annotations[PATH] else "";
    r.SetAnnotations(r.node.annotations[PATH := JoinPath(sub, path)]);
  }

  lemma AllKept(sub: string, nodes: seq<Node>)
    ensures forall i :: 0 <= i < |nodes| ==> SameButPath(nodes[i], Relocate(sub, nodes[i]))
  {
    forall i | 0 <= i < |nodes| ensures SameButPath(nodes[i], Relocate(sub, nodes[i])) {
      RelocateKeeps(sub, nodes[i]);
    }
  }

  function NodesIn(res: map<string, seq<RNode>>): set<RNode> {
    set k, r | k in res && r in res[k] :: r
  }

  /** The documents of the lists to merge. */
  ghost function SubpackageViews(res: map<string, seq<RNode>>): Subpackages
    reads NodesIn(res)
  {
    assert forall k :: k in res ==> forall r :: r in res[k] ==> r in NodesIn(res);
    map k | k in res :: Views(res[k])
  }

  ghost predicate Apart(a: seq<RNode>, b: seq<RNode>) {
    forall i, j :: 0 <= i < |a| && 0 <= j < |b| ==> a[i] != b[j]
  }

  /** The lists to merge share no node. */
  ghost predicate Separate(res: map<string, seq<RNode>>) {
    && (forall k :: k in res ==> NoDuplicates(res[k]))
    && (forall k, l :: k in res && l in res && k != l ==> Apart(res[k], res[l]))
  }

  /** A list still to merge holds what it held, and shares no node with what was merged. */
  ghost predicate Untouched(nodes: seq<RNode>, before: seq<Node>, merged: seq<RNode>)
    reads nodes
  {
    Views(nodes) == before && Apart(merged, nodes)
  }

  /** `MergePackages`: `order` is the order in which Go happened to walk the map. Nothing of a document
      changes but its path. */
  method MergePackages(packageName: string, res: map<string, seq<RNode>>) returns (merged: Resources, ghost order: seq<string>)
    requires Separate(res)
    modifies NodesIn(res)
    ensures ListingOf(order, res.Keys)
    ensures fresh(merged) && Views(merged.resources) == Merged(packageName, old(SubpackageViews(res)), order)
    ensures var docs := [Kptfile(packageName)] + Unmoved(old(SubpackageViews(res)), order);
            && |merged.resources| == |docs|
            && forall i :: 0 <= i < |docs| ==> SameButPath(docs[i], merged.resources[i].node)
  {
    ghost var before := SubpackageViews(res);
    merged := new Resources();
    var kptfile := new RNode(Kptfile(packageName));
    merged.Add(kptfile);
    assert forall k :: k in res ==> Untouched(res[k], before[k], merged.resources);
    assert Views(merged.resources) == Merged(packageName, before, []);
    order := MergeAll(packageName, res, merged, before);
    MergedKeeps(packageName, before, order);
  }

  /** The loop of `MergePackages`. */
  method MergeAll(packageName: string, res: map<string, seq<RNode>>, merged: Resources, ghost before: Subpackages)
    returns (ghost order: seq<string>)
    requires Separate(res) && before.Keys == res.Keys
    requires forall k :: k in res ==> Untouched(res[k], before[k], merged.resources)
    requires Views(merged.resources) == Merged(packageName, before, [])
    modifies merged, NodesIn(res)
    ensures ListingOf(order, res.Keys)
    ensures Views(merged.resources) == Merged(packageName, before, order)
  {
    order := [];
    var todo := res.Keys;
    while todo != {}
      invariant todo <= res.Keys && ListingOf(order, res.Keys - todo)
      invariant forall k :: k in todo ==> Untouched(res[k], before[k], merged.resources)
      invariant Views(merged.resources) == Merged(packageName, before, order)
      decreases todo
    {
      var sub :| sub in todo;
      AllNodesIn(res, sub);
      MergeRound(packageName, res, todo - {sub}, sub, merged, before, order);
      GrowListing(order, res.Keys, todo, sub);
      todo := todo - {sub};
      order := order + [sub];
    }
  }

  lemma AllNodesIn(res: map<string, seq<RNode>>, sub: string)
    requires sub in res
    ensures forall i :: 0 <= i < |res[sub]| ==> res[sub][i] in NodesIn(res)
  {
    assert forall r :: r in res[sub] ==> r in NodesIn(res);
    assert forall i :: 0 <= i < |res[sub]| ==> res[sub][i] in res[sub];
  }

  /** One round of the loop of `MergePackages`, with the sub-packages still to come. */
  method MergeRound(packageName: string, res: map<string, seq<RNode>>, ghost todo: set<string>, sub: string,
                    merged: Resources, ghost before: Subpackages, ghost order: seq<string>)
    requires Separate(res) && before.Keys == res.Keys && sub in res && sub !in todo && todo <= res.Keys
    requires forall k :: k in todo + {sub} ==> Untouched(res[k], before[k], merged.resources)
    requires Views(merged.resources) == Merged(packageName, before, order)
    modifies merged, res[sub]
    ensures forall k :: k in todo ==> Untouched(res[k], before[k], merged.resources)
    ensures Views(merged.resources) == Merged(packageName, before, order + [sub])
  {
    ghost var sofar := merged.resources;
    MergeOne(packageName, sub, res[sub], merged, before, order);
    forall k | k in todo ensures Untouched(res[k], before[k], merged.resources) {
      assert Apart(sofar, res[k]) && Apart(res[sub], res[k]);
      assert Views(res[k]) == old(Views(res[k]));
    }
  }

  /** The documents of one sub-package join those merged before. */
  method MergeOne(packageName: string, sub: string, nodes: seq<RNode>, merged: Resources,
                  ghost before: Subpackages, ghost order: seq<string>)
    requires sub in before && Untouched(nodes, before[sub], merged.resources) && NoDuplicates(nodes)
    requires Views(merged.resources) == Merged(packageName, before, order)
    modifies merged, nodes
    ensures merged.resources == old(merged.resources) + nodes
    ensures Views(merged.resources) == Merged(packageName, before, order + [sub])
  {
    ghost var sofar := merged.resources;
    AddSubpackage(sub, nodes, merged);
    assert Views(sofar) == old(Views(sofar));
    ViewsAppend(sofar, nodes);
    MergedGrows(packageName, before, order, sub);
  }

  lemma ViewsAppend(a: seq<RNode>, b: seq<RNode>)
    ensures Views(a + b) == Views(a) + Views(b)
  {
  }

  lemma MergedGrows(packageName: string, res: Subpackages, order: seq<string>, sub: string)
    requires sub in res
    ensures Merged(packageName, res, order + [sub]) == Merged(packageName, res, order) + RelocateAll(sub, res[sub])
  {
    MergedInAppend(res, order, [sub]);
    assert MergedIn(res, [sub]) == RelocateAll(sub, res[sub]);
  }

  lemma GrowListing(order: seq<string>, keys: set<string>, todo: set<string>, sub: string)
    requires todo <= keys && sub in todo && ListingOf(order, keys - todo)
    ensures ListingOf(order + [sub], keys - (todo - {sub}))
  {
    assert forall i :: 0 <= i < |order| ==> order[i] in Elements(order);
    assert Elements(order + [sub]) == Elements(order) + {sub};
  }
}
