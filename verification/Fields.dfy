/** Setting fields of a document from a value (internal/controllers/tenant/utils.go): the
    delimited text of one field, and the nodes of a document on the heap. */
module Fields {
  import opened Options
  import opened Strings

  // ---------- the text of a field ----------

  /** The segments of a field with `v` put at `index`: in front when negative, at the end when
      past the last segment, else in place of a segment. */
  function Replaced(segments: seq<string>, index: int, v: string): seq<string> {
    if index < 0 then [v] + segments
    else if index >= |segments| then segments + [v]
    else segments[index := v]
  }

  /** The segments kept in front of the new one, and those kept behind it. */
  function Front(segments: seq<string>, index: int): seq<string> {
    if index < 0 then [] else if index >= |segments| then segments else segments[..index]
  }

  function Back(segments: seq<string>, index: int): seq<string> {
    if index < 0 then segments else if index >= |segments| then [] else segments[index + 1..]
  }

  /** The text that `SetFieldValue` joins for a field. */
  function Delimited(text: string, delimiter: string, index: int, v: string): string
    requires delimiter != ""
  {
    Join(Replaced(Split(text, delimiter), index, v), delimiter)
  }

  lemma ReplacedParts(segments: seq<string>, index: int, v: string)
    ensures Replaced(segments, index, v) == Front(segments, index) + [v] + Back(segments, index)
  {
  }

  /** The text in front of a segment, and the text behind it. */
  function Led(parts: seq<string>, sep: string): string {
    if parts == [] then "" else parts[0] + sep + Led(parts[1..], sep)
  }

  function Trailed(parts: seq<string>, sep: string): string {
    if parts == [] then "" else sep + parts[0] + Trailed(parts[1..], sep)
  }

  lemma {:induction false} JoinTrailed(part: string, back: seq<string>, sep: string)
    ensures Join([part] + back, sep) == part + Trailed(back, sep)
    decreases |back|
  {
    if back != [] {
      assert back == [back[0]] + back[1..];
      JoinTrailed(back[0], back[1..], sep);
      JoinCons(part, back, sep);
    }
  }

  lemma {:induction false} JoinAround(front: seq<string>, part: string, back: seq<string>, sep: string)
    ensures Join(front + [part] + back, sep) == Led(front, sep) + part + Trailed(back, sep)
    decreases |front|
  {
    if front == [] {
      JoinTrailed(part, back, sep);
      assert front + [part] + back == [part] + back;
    } else {
      var rest := front[1..] + [part] + back;
      JoinAround(front[1..], part, back, sep);
      assert front + [part] + back == [front[0]] + rest;
      JoinCons(front[0], rest, sep);
    }
  }

  /** The new text of a field, for every delimiter and value: the value in front of the old text, behind
      it, or in the place of one segment, with the rest of the text around it as it was. */
  lemma DelimitedText(text: string, delimiter: string, index: int, v: string)
    requires delimiter != ""
    ensures index < 0 ==> Delimited(text, delimiter, index, v) == v + delimiter + text
    ensures index >= |Split(text, delimiter)| ==> Delimited(text, delimiter, index, v) == text + delimiter + v
    ensures 0 <= index < |Split(text, delimiter)| ==>
              var segments := Split(text, delimiter);
              var front, back := Led(segments[..index], delimiter), Trailed(segments[index + 1..], delimiter);
              text == front + segments[index] + back && Delimited(text, delimiter, index, v) == front + v + back
  {
    var segments := Split(text, delimiter);
    JoinSplit(text, delimiter);
    if index < 0 {
      JoinCons(v, segments, delimiter);
    } else if index >= |segments| {
      JoinAtEnd(segments, v, delimiter);
    } else {
      JoinInPlace(segments, index, segments[index], delimiter);
      JoinInPlace(segments, index, v, delimiter);
      assert segments[index := segments[index]] == segments;
    }
  }

  lemma JoinInPlace(segments: seq<string>, index: nat, v: string, sep: string)
    requires index < |segments|
    ensures Join(segments[index := v], sep) == Led(segments[..index], sep) + v + Trailed(segments[index + 1..], sep)
  {
    JoinAround(segments[..index], v, segments[index + 1..], sep);
    assert segments[index := v] == segments[..index] + [v] + segments[index + 1..];
  }

  lemma {:induction false} JoinAtEnd(parts: seq<string>, last: string, sep: string)
    requires parts != []
    ensures Join(parts + [last], sep) == Join(parts, sep) + sep + last
  {
    if |parts| > 1 {
      JoinAtEnd(parts[1..], last, sep);
      assert parts + [last] == [parts[0]] + (parts[1..] + [last]);
      JoinCons(parts[0], parts[1..] + [last], sep);
    }
  }

  /** With a one-character delimiter, reading a field back gives the old segments with those of the
      new value at the index: nothing else moves, whatever the value holds. */
  lemma DelimitedReadsBack(text: string, delimiter: string, index: int, v: string)
    requires |delimiter| == 1
    ensures var segments := Split(text, delimiter);
            Split(Delimited(text, delimiter, index, v), delimiter)
            == Front(segments, index) + Split(v, delimiter) + Back(segments, index)
  {
    var segments := Split(text, delimiter);
    var front, back := Front(segments, index), Back(segments, index);
    ReplacedParts(segments, index, v);
    SplitJoin(front + [v] + back, delimiter);
    SplitAllAppend(front + [v], back, delimiter);
    SplitAllAppend(front, [v], delimiter);
    assert SplitAll([v], delimiter) == Split(v, delimiter) by { assert SplitAll([v][1..], delimiter) == []; }
    SplitPartsClean(text, delimiter);
    SplitAllWhole(front, delimiter);
    SplitAllWhole(back, delimiter);
  }

  /** What the delimiter must not do for a value to be one segment: begin in a value that another
      segment follows, occur in a value that comes last, or begin in the old last segment when the
      value is appended to it. */
  predicate Fits(segments: seq<string>, delimiter: string, index: int, v: string)
    requires delimiter != "" && segments != []
  {
    if index >= |segments| then !Contains(v, delimiter) && EndsWhole(segments[|segments| - 1], delimiter)
    else if index == |segments| - 1 then !Contains(v, delimiter)
    else EndsWhole(v, delimiter)
  }

  lemma FitsIsSeparable(segments: seq<string>, delimiter: string, index: int, v: string)
    requires delimiter != "" && segments != [] && Separable(segments, delimiter)
    ensures Separable(Replaced(segments, index, v), delimiter) <==> Fits(segments, delimiter, index, v)
  {
    var parts := Replaced(segments, index, v);
    if index < 0 {
      assert parts[1..] == segments;
      SeparableCons(parts, delimiter);
    } else if index < |segments| {
      assert parts[index] == v;
    } else {
      var last := |segments| - 1;
      assert parts[last] == segments[last] && parts[last + 1] == v;
      assert forall i :: 0 <= i < last ==> parts[i] == segments[i];
    }
  }

  /** So, for every delimiter and value, the new field has exactly the segments written if and only if
      that is so: on the old text it is a condition only when the value is appended. */
  lemma DelimitedIsExactIff(text: string, delimiter: string, index: int, v: string)
    requires delimiter != ""
    ensures Split(Delimited(text, delimiter, index, v), delimiter) == Replaced(Split(text, delimiter), index, v)
            <==> Fits(Split(text, delimiter), delimiter, index, v)
  {
    SplitIsSeparable(text, delimiter);
    FitsIsSeparable(Split(text, delimiter), delimiter, index, v);
    SplitJoinIff(Replaced(Split(text, delimiter), index, v), delimiter);
  }

  /** A one-character delimiter asks only that it does not occur in the value. */
  lemma FitsOneCharacter(text: string, delimiter: string, index: int, v: string)
    requires |delimiter| == 1
    ensures Fits(Split(text, delimiter), delimiter, index, v) <==> !Contains(v, delimiter)
  {
    var segments := Split(text, delimiter);
    assert delimiter[..0] == "";
    assert v + "" == v && segments[|segments| - 1] + "" == segments[|segments| - 1];
    SplitPartsClean(text, delimiter);
  }

  /** For every delimiter, writing the segment that is there leaves the field as it is. */
  lemma WritingASegmentBack(text: string, delimiter: string, index: nat)
    requires delimiter != "" && index < |Split(text, delimiter)|
    ensures Delimited(text, delimiter, index, Split(text, delimiter)[index]) == text
  {
    var segments := Split(text, delimiter);
    assert segments[index := segments[index]] == segments;
    JoinSplit(text, delimiter);
  }

  /** At an index in range the last write wins, and an earlier one that fitted leaves no trace. */
  lemma LastWriteWins(text: string, delimiter: string, index: nat, v: string, w: string)
    requires delimiter != "" && index < |Split(text, delimiter)| && Fits(Split(text, delimiter), delimiter, index, v)
    ensures Delimited(Delimited(text, delimiter, index, v), delimiter, index, w) == Delimited(text, delimiter, index, w)
  {
    var segments := Split(text, delimiter);
    DelimitedIsExactIff(text, delimiter, index, v);
    assert segments[index := v][index := w] == segments[index := w];
  }

  /** A longer delimiter can straddle the place where a segment was put: `a` in front of `x`, with the
      delimiter `aa` not in it, is not read back. */
  lemma LongDelimitersStraddle()
    ensures !Contains("a", "aa")
    ensures Split(Delimited("x", "aa", -1, "a"), "aa") != Replaced(Split("x", "aa"), -1, "a")
  {
    assert HasPrefix(("a" + "a")[0..], "aa");
    assert "aa"[..1] == "a" && !EndsWhole("a", "aa");
    DelimitedIsExactIff("x", "aa", -1, "a");
  }

  // ---------- nodes of a document ----------

  datatype Kind = Scalar | Mapping | Sequence

  const NULL_TAG: string := "!!null"

  /** The contents of a YAML value, as a tree. */
  datatype Tree = Tree(kind: Kind, tag: string, value: string, children: seq<Tree>)

  /** yaml.Node: a node updated in place, whose children are shared by reference. */
  class YNode {
    var kind: Kind
    var tag: string
    var value: string
    var content: seq<YNode>

    constructor (kind: Kind, tag: string, value: string, content: seq<YNode>)
      ensures CellOf(this) == Cell(kind, tag, value, content)
    {
      this.kind, this.tag, this.value, this.content := kind, tag, value, content;
    }
  }

  datatype Cell = Cell(kind: Kind, tag: string, value: string, content: seq<YNode>)

  function CellOf(n: YNode): Cell
    reads n
  {
    Cell(n.kind, n.tag, n.value, n.content)
  }

  /** The nodes from `n` down, all in the region, read as the tree. */
  ghost predicate Mirrors(n: YNode, t: Tree, region: set<YNode>)
    reads region
    decreases t
  {
    && n in region
    && n.kind == t.kind && n.tag == t.tag && n.value == t.value
    && |n.content| == |t.children|
    && forall i :: 0 <= i < |t.children| ==> Mirrors(n.content[i], t.children[i], region)
  }

  /** No node of the region is a child twice, and none has a child elsewhere. */
  ghost predicate Forest(nodes: set<YNode>)
    reads nodes
  {
    && (forall n, i :: n in nodes && 0 <= i < |n.content| ==> n.content[i] in nodes)
    && (forall n, m, i, j ::
          n in nodes && m in nodes && 0 <= i < |n.content| && 0 <= j < |m.content| && n.content[i] == m.content[j] ==>
            n == m && i == j)
  }

  /** Different nodes of the region that are nobody's children. */
  ghost predicate Roots(roots: seq<YNode>, nodes: set<YNode>)
    reads nodes
  {
    && NoDuplicates(roots)
    && (forall k :: 0 <= k < |roots| ==> roots[k] in nodes)
    && (forall k, n, i :: 0 <= k < |roots| && n in nodes && 0 <= i < |n.content| ==> n.content[i] != roots[k])
  }

  /** What a node holds is settled by the region read. */
  lemma {:induction false} MirrorsWider(n: YNode, t: Tree, region: set<YNode>, wider: set<YNode>)
    requires Mirrors(n, t, region) && region <= wider
    ensures Mirrors(n, t, wider)
    decreases t
  {
    forall i | 0 <= i < |t.children| ensures Mirrors(n.content[i], t.children[i], wider) {
      MirrorsWider(n.content[i], t.children[i], region, wider);
    }
  }

  /** A node reads as one tree only. */
  lemma {:induction false} OneReading(n: YNode, t: Tree, region: set<YNode>, t': Tree, region': set<YNode>)
    requires Mirrors(n, t, region) && Mirrors(n, t', region')
    ensures t == t'
    decreases t
  {
    forall i | 0 <= i < |t.children| ensures t.children[i] == t'.children[i] {
      OneReading(n.content[i], t.children[i], region, t'.children[i], region');
    }
    assert t.children == t'.children;
  }

  /** The node reached from `n` by taking the children at the given places. */
  ghost predicate Reaches(n: YNode, places: seq<nat>, m: YNode, nodes: set<YNode>)
    reads nodes
    decreases |places|
  {
    n in nodes &&
    if places == [] then n == m
    else
      var front, last := places[..|places| - 1], places[|places| - 1];
      exists p :: p in nodes && Reaches(n, front, p, nodes) && last < |p.content| && p.content[last] == m
  }

  /** Two nodes of a forest that share a node below them lie one below the other: fields that are
      not nested share nothing. */
  lemma {:induction false} SharingIsNesting(a: YNode, p: seq<nat>, b: YNode, q: seq<nat>, shared: YNode, nodes: set<YNode>)
    requires Forest(nodes) && Reaches(a, p, shared, nodes) && Reaches(b, q, shared, nodes) && |p| <= |q|
    ensures Reaches(b, q[..|q| - |p|], a, nodes) && q[|q| - |p|..] == p
    decreases |p|
  {
    if p == [] {
      assert q[..|q|] == q;
    } else {
      var p', q' := p[..|p| - 1], q[..|q| - 1];
      var m :| m in nodes && Reaches(a, p', m, nodes) && p[|p| - 1] < |m.content| && m.content[p[|p| - 1]] == shared;
      var n :| n in nodes && Reaches(b, q', n, nodes) && q[|q| - 1] < |n.content| && n.content[q[|q| - 1]] == shared;
      assert m == n && p[|p| - 1] == q[|q| - 1];
      SharingIsNesting(a, p', b, q', m, nodes);
      assert q'[..|q'| - |p'|] == q[..|q| - |p|];
      assert q[|q| - |p|..] == q'[|q'| - |p'|..] + [q[|q| - 1]];
      assert p == p' + [p[|p| - 1]];
    }
  }

  /** `value.Copy()`: fresh nodes that read as the value does. */
  method Copy(n: YNode, ghost t: Tree, ghost region: set<YNode>) returns (copy: YNode, nodes: set<YNode>)
    requires Mirrors(n, t, region)
    ensures fresh(nodes) && Mirrors(copy, t, nodes) && Forest(nodes) && Roots([copy], nodes)
    decreases t, 1
  {
    var children;
    children, nodes := CopyChildren(n, t, region);
    copy := new YNode(n.kind, n.tag, n.value, children);
    ghost var below := nodes;
    nodes := nodes + {copy};
    forall i | 0 <= i < |t.children| ensures Mirrors(copy.content[i], t.children[i], nodes) {
      MirrorsWider(children[i], t.children[i], below, nodes);
    }
  }

  method CopyChildren(n: YNode, ghost t: Tree, ghost region: set<YNode>) returns (children: seq<YNode>, nodes: set<YNode>)
    requires Mirrors(n, t, region)
    ensures fresh(nodes) && Forest(nodes) && Roots(children, nodes)
    ensures |children| == |t.children| && forall i :: 0 <= i < |children| ==> Mirrors(children[i], t.children[i], nodes)
    decreases t, 0
  {
    children, nodes := [], {};
    var i := 0;
    while i < |n.content|
      invariant 0 <= i <= |n.content| && |children| == i
      invariant fresh(nodes) && Forest(nodes) && Roots(children, nodes)
      invariant forall j :: 0 <= j < i ==> Mirrors(children[j], t.children[j], nodes)
    {
      var child, more := Copy(n.content[i], t.children[i], region);
      var all := nodes + more;
      TwoForests(children, nodes, child, more);
      forall j | 0 <= j < i ensures Mirrors(children[j], t.children[j], all) {
        MirrorsWider(children[j], t.children[j], nodes, all);
      }
      MirrorsWider(child, t.children[i], more, all);
      children := children + [child];
      nodes := all;
      i := i + 1;
    }
  }

  lemma TwoForests(roots: seq<YNode>, nodes: set<YNode>, root: YNode, more: set<YNode>)
    requires Forest(nodes) && Roots(roots, nodes) && Forest(more) && Roots([root], more) && nodes !! more
    ensures Forest(nodes + more) && Roots(roots + [root], nodes + more)
  {
    assert [root][0] == root;
  }

  // ---------- SetFieldValue ----------

  /** types.FieldOptions. */
  datatype FieldOptions = FieldOptions(delimiter: string, index: int, create: bool)

  /** The text `SetFieldValue` gives to a scalar field. */
  function NewText(options: Option<FieldOptions>, text: string, t: Tree): string {
    if options.Some? && options.value.delimiter != "" then
      Delimited(text, options.value.delimiter, options.value.index, if t.tag == NULL_TAG then "" else t.value)
    else t.value
  }

  /** The new text in plain terms. Without a delimiter it is the value's; with one, the value, empty when
      it is null, stands in front of the old text, behind it, or in the place of one segment. */
  lemma NewTextIs(options: Option<FieldOptions>, text: string, t: Tree)
    ensures options == None || options.value.delimiter == "" ==> NewText(options, text, t) == t.value
    ensures options.Some? && options.value.delimiter != "" ==>
              var d, index, segments := options.value.delimiter, options.value.index, Split(text, options.value.delimiter);
              var v := if t.tag == "!!null" then "" else t.value;
              && (index < 0 ==> NewText(options, text, t) == v + d + text)
              && (index >= |segments| ==> NewText(options, text, t) == text + d + v)
              && (0 <= index < |segments| ==>
                    var front, back := Led(segments[..index], d), Trailed(segments[index + 1..], d);
                    text == front + segments[index] + back && NewText(options, text, t) == front + v + back)
  {
    if options.Some? && options.value.delimiter != "" {
      DelimitedText(text, options.value.delimiter, options.value.index, if t.tag == NULL_TAG then "" else t.value);
    }
  }

  /** A delimiter is refused on a field that is not a scalar. */
  predicate Refused(options: Option<FieldOptions>, kind: Kind) {
    options.Some? && options.value.delimiter != "" && kind != Scalar
  }

  /** A field after it was set: a scalar keeps its kind, its tag and its place and changes its
      text only; any other field reads as the value, from nodes of its own. */
  ghost predicate Written(options: Option<FieldOptions>, was: Cell, field: YNode, t: Tree, own: set<YNode>)
    reads field, own
  {
    && field !in own
    && if was.kind == Scalar then own == {} && CellOf(field) == was.(value := NewText(options, was.value, t))
       else Mirrors(field, t, {field} + own)
  }

  /** `SetFieldValue`. Only the field is written, so the value keeps every node it has. */
  method SetFieldValue(options: Option<FieldOptions>, field: YNode, value: YNode, ghost t: Tree, ghost region: set<YNode>, doc: set<YNode>)
    returns (ok: bool, own: set<YNode>)
    requires Mirrors(value, t, region) && Forest(doc) && field in doc && doc !! region
    modifies field
    ensures ok <==> !Refused(options, old(field.kind))
    ensures !ok ==> own == {} && CellOf(field) == old(CellOf(field))
    ensures ok ==> Written(options, old(CellOf(field)), field, t, own)
    ensures fresh(own) && Forest(doc + own)
  {
    var copy, nodes := Copy(value, t, region);
    own := {};
    if options.Some? && options.value.delimiter != "" {
      if field.kind != Scalar {
        assert doc + own == doc;
        return false, own;
      }
      var tv := Split(field.value, options.value.delimiter);
      var v := if copy.tag == NULL_TAG then "" else copy.value;
      if options.value.index < 0 {
        tv := [v] + tv;
      } else if options.value.index >= |tv| {
        tv := tv + [v];
      } else {
        tv := tv[options.value.index := v];
      }
      copy.value := Join(tv, options.value.delimiter);
    }
    if field.kind == Scalar {
      field.value := copy.value;
      assert doc + own == doc;
    } else {
      own := nodes - {copy};
      Overwrite(field, copy, t, nodes, doc);
    }
    return true, own;
  }

  /** `SetYNode`: the field takes over the children of the copy, which is then dropped. */
  method Overwrite(field: YNode, copy: YNode, ghost t: Tree, nodes: set<YNode>, doc: set<YNode>)
    requires Mirrors(copy, t, nodes) && Forest(nodes) && Roots([copy], nodes)
    requires Forest(doc) && field in doc && doc !! nodes
    modifies field
    ensures Mirrors(field, t, {field} + (nodes - {copy})) && Forest(doc + (nodes - {copy}))
  {
    ghost var own := nodes - {copy};
    assert [copy][0] == copy;
    forall i | 0 <= i < |t.children| ensures Mirrors(copy.content[i], t.children[i], own) {
      assert copy.content[i] in nodes;
      MirrorsWithout(copy.content[i], t.children[i], nodes, copy);
    }
    field.kind, field.tag, field.value, field.content := copy.kind, copy.tag, copy.value, copy.content;
    forall i | 0 <= i < |t.children| ensures Mirrors(field.content[i], t.children[i], {field} + own) {
      MirrorsWider(copy.content[i], t.children[i], own, {field} + own);
    }
  }

  /** A node that is nobody's child is read by nobody else. */
  lemma {:induction false} MirrorsWithout(n: YNode, t: Tree, nodes: set<YNode>, root: YNode)
    requires Mirrors(n, t, nodes) && Forest(nodes) && Roots([root], nodes) && n != root
    ensures Mirrors(n, t, nodes - {root})
    decreases t
  {
    assert [root][0] == root;
    forall i | 0 <= i < |t.children| ensures Mirrors(n.content[i], t.children[i], nodes - {root}) {
      MirrorsWithout(n.content[i], t.children[i], nodes, root);
    }
  }

  // ---------- CopyValueToTarget ----------

  /** How `CopyValueToTarget` ends: done, or stopped by one of its errors. */
  datatype Outcome = Done | Wildcard | LookupFailed | NotScalar

  /** `ShouldCreateField`: None is the error. */
  function ShouldCreateField(options: Option<FieldOptions>, fieldPath: seq<string>): (create: Option<bool>)
    ensures create == None <==> options.Some? && options.value.create && "*" in fieldPath
    ensures create == Some(true) <==> options.Some? && options.value.create && "*" !in fieldPath
  {
    if options == None || !options.value.create then Some(false)
    else if "*" in fieldPath then None
    else Some(true)
  }

  /** The fields of one path, nodes of the document, were set, each from nodes of its own. */
  ghost predicate AllWritten(options: Option<FieldOptions>, was: seq<Cell>, fields: seq<YNode>, t: Tree, own: seq<set<YNode>>, doc: set<YNode>)
    requires |was| == |fields| == |own|
    reads doc
  {
    && (forall i :: 0 <= i < |fields| ==> fields[i] in doc && own[i] <= doc)
    && (forall i :: 0 <= i < |fields| ==> Written(options, was[i], fields[i], t, own[i]))
    && (forall i, j :: 0 <= i < j < |own| ==> own[i] !! own[j])
    && (forall i, j :: 0 <= i < |own| && 0 <= j < |fields| ==> fields[j] !in own[i])
  }

  /** The fields in front were set, from separate nodes among the fresh ones; those behind were not. */
  ghost predicate SetUpTo(options: Option<FieldOptions>, was: seq<Cell>, fields: seq<YNode>, done: nat, t: Tree, own: seq<set<YNode>>, added: set<YNode>)
    requires |was| == |fields| && done == |own| <= |fields|
    reads fields, added
  {
    && (forall i :: 0 <= i < done ==> own[i] <= added && !Refused(options, was[i].kind) && Written(options, was[i], fields[i], t, own[i]))
    && (forall i, j :: 0 <= i < j < done ==> own[i] !! own[j])
    && (forall i :: done <= i < |fields| ==> CellOf(fields[i]) == was[i])
  }

  /** One round of that loop. */
  method SetNext(options: Option<FieldOptions>, fields: seq<YNode>, ghost was: seq<Cell>, done: nat, value: YNode, ghost t: Tree, ghost region: set<YNode>,
                 ghost doc: set<YNode>, ghost own: seq<set<YNode>>, doc': set<YNode>)
    returns (ok: bool, more: set<YNode>)
    requires Mirrors(value, t, region) && Forest(doc') && doc <= doc' && doc' !! region
    requires NoDuplicates(fields) && forall i :: 0 <= i < |fields| ==> fields[i] in doc
    requires |was| == |fields| && done == |own| < |fields| && SetUpTo(options, was, fields, done, t, own, doc' - doc)
    modifies fields[done]
    ensures Mirrors(value, t, region)
    ensures ok <==> !Refused(options, was[done].kind)
    ensures !ok ==> SetUpTo(options, was, fields, done, t, own, doc' - doc)
    ensures ok ==> SetUpTo(options, was, fields, done + 1, t, own + [more], doc' + more - doc)
    ensures fresh(more) && Forest(doc' + more)
  {
    assert CellOf(fields[done]) == was[done];
    ok, more := SetFieldValue(options, fields[done], value, t, region, doc');
    assert !ok ==> doc' + more == doc';
  }

  /** The loop over the fields of one path. Stopped by a field that is refused, it has set those
      before it. */
  method SetFields(options: Option<FieldOptions>, fields: seq<YNode>, value: YNode, ghost t: Tree, ghost region: set<YNode>, doc: set<YNode>)
    returns (done: nat, own: seq<set<YNode>>, doc': set<YNode>)
    requires Mirrors(value, t, region) && Forest(doc) && doc !! region
    requires NoDuplicates(fields) && forall i :: 0 <= i < |fields| ==> fields[i] in doc
    modifies fields
    ensures done <= |fields| && |own| == done
    ensures done < |fields| ==> Refused(options, old(fields[done].kind))
    ensures forall i :: 0 <= i < done ==> !Refused(options, old(fields[i].kind))
    ensures AllWritten(options, old(Cells(fields))[..done], fields[..done], t, own, doc')
    ensures forall i :: done <= i < |fields| ==> CellOf(fields[i]) == old(CellOf(fields[i]))
    ensures Forest(doc') && doc <= doc' && fresh(doc' - doc)
  {
    ghost var was := Cells(fields);
    done, own, doc' := 0, [], doc;
    while done < |fields|
      invariant 0 <= done <= |fields| && |own| == done
      invariant Mirrors(value, t, region)
      invariant Forest(doc') && doc <= doc' && fresh(doc' - doc)
      invariant SetUpTo(options, was, fields, done, t, own, doc' - doc)
    {
      var ok, more := SetNext(options, fields, was, done, value, t, region, doc, own, doc');
      if !ok {
        return;
      }
      own := own + [more];
      doc' := doc' + more;
      done := done + 1;
    }
  }

  ghost function Cells(fields: seq<YNode>): (cells: seq<Cell>)
    reads fields
    ensures |cells| == |fields| && forall i :: 0 <= i < |fields| ==> cells[i] == CellOf(fields[i])
  {
    seq(|fields|, i requires 0 <= i < |fields| reads fields => CellOf(fields[i]))
  }

  /** One question to the kyaml library: the path, the kind of node to create there if one may be
      created, and the fields found, or None for an error. */
  datatype LookUp = LookUp(fieldPath: seq<string>, create: Option<Kind>, found: Option<seq<YNode>>)

  /** The kyaml library, as far as it is asked here. What it finds is up to it; all it was asked and has
      answered is on record. */
  class Library {
    ghost var lookUps: seq<LookUp>

    constructor ()
      ensures lookUps == []
    {
      lookUps := [];
    }

    /** `PathMatcher`: any nodes of the document, none of them twice, or an error. */
    method Match(fieldPath: seq<string>, doc: set<YNode>) returns (fields: Option<seq<YNode>>)
      modifies this
      ensures fields.Some? ==> NoDuplicates(fields.value) && forall i :: 0 <= i < |fields.value| ==> fields.value[i] in doc
      ensures lookUps == old(lookUps) + [LookUp(fieldPath, None, fields)]
    {
      fields := SomeNodes(doc);
      lookUps := lookUps + [LookUp(fieldPath, None, fields)];
    }

    /** `LookupCreate`: a node of the document or a new one; how that is hung into the document is the
        library's. */
    method LookupCreate(kind: Kind, fieldPath: seq<string>, doc: set<YNode>) returns (field: Option<YNode>, doc': set<YNode>)
      requires Forest(doc)
      modifies this
      ensures doc <= doc' && fresh(doc' - doc) && Forest(doc')
      ensures field.Some? ==> field.value in doc'
      ensures lookUps == old(lookUps)
              + [LookUp(fieldPath, Some(kind), if field.Some? then Some([field.value]) else None)]
    {
      doc' := doc;
      field := None;
      var fields := SomeNodes(doc);
      if fields.Some? {
        if |fields.value| > 0 {
          field := Some(fields.value[0]);
        } else {
          var created := new YNode(kind, "", "", []);
          field, doc' := Some(created), doc + {created};
        }
      }
      lookUps := lookUps + [LookUp(fieldPath, Some(kind), if field.Some? then Some([field.value]) else None)];
    }

    method SomeNodes(doc: set<YNode>) returns (fields: Option<seq<YNode>>)
      ensures fields.Some? ==> NoDuplicates(fields.value) && forall i :: 0 <= i < |fields.value| ==> fields.value[i] in doc
    {
      if * {
        return None;
      }
      var found, rest := [], doc;
      while rest != {}
        invariant rest <= doc && NoDuplicates(found)
        invariant forall i :: 0 <= i < |found| ==> found[i] in doc && found[i] !in rest
      {
        var n :| n in rest;
        rest := rest - {n};
        if * {
          found := found + [n];
        }
      }
      return Some(found);
    }
  }

  /** The fields of one path: found, or found or created, as the options ask. */
  method Locate(library: Library, create: bool, kind: Kind, fieldPath: seq<string>, doc: set<YNode>)
    returns (fields: Option<seq<YNode>>, doc': set<YNode>)
    requires Forest(doc)
    modifies library
    ensures doc <= doc' && fresh(doc' - doc) && Forest(doc')
    ensures fields.Some? ==> NoDuplicates(fields.value) && forall i :: 0 <= i < |fields.value| ==> fields.value[i] in doc'
    ensures library.lookUps == old(library.lookUps) + [LookUp(fieldPath, if create then Some(kind) else None, fields)]
  {
    if create {
      var field;
      field, doc' := library.LookupCreate(kind, fieldPath, doc);
      fields := if field.Some? then Some([field.value]) else None;
    } else {
      fields := library.Match(fieldPath, doc);
      doc' := doc;
    }
  }

  /** What `CopyToPath` asks the library: one question, for this path, with the kind of the value when a
      field may be created, and none when a field would have to be created for a wildcard. */
  ghost predicate Asked(before: seq<LookUp>, after: seq<LookUp>, options: Option<FieldOptions>, fieldPath: seq<string>, kind: Kind, found: Option<seq<YNode>>) {
    if options.Some? && options.value.create then
      if "*" in fieldPath then after == before else after == before + [LookUp(fieldPath, Some(kind), found)]
    else after == before + [LookUp(fieldPath, None, found)]
  }

  /** How one path ended, told from what the library found and how many of these fields were set. */
  ghost predicate EndsAs(outcome: Outcome, options: Option<FieldOptions>, fieldPath: seq<string>, found: Option<seq<YNode>>, written: nat) {
    match outcome
    case Wildcard => options.Some? && options.value.create && "*" in fieldPath && found == None
    case LookupFailed => found == None
    case NotScalar => found.Some? && written < |found.value|
    case Done => found.Some? && written == |found.value|
  }

  /** One field path: its fields are located and set, all of them or those in front of one that is
      refused, and no other node of the document is. The ghost results are what the library found, what
      these fields were then, and the nodes each was given. */
  method CopyToPath(library: Library, doc: set<YNode>, value: YNode, ghost t: Tree, ghost region: set<YNode>, options: Option<FieldOptions>, fieldPath: seq<string>)
    returns (outcome: Outcome, doc': set<YNode>, ghost found: Option<seq<YNode>>, ghost was: seq<Cell>, own: seq<set<YNode>>)
    requires Mirrors(value, t, region) && Forest(doc) && doc !! region
    modifies doc, library
    ensures Forest(doc') && doc <= doc' && fresh(doc' - doc) && doc' !! region && Mirrors(value, t, region)
    ensures Asked(old(library.lookUps), library.lookUps, options, fieldPath, t.kind, found)
    ensures EndsAs(outcome, options, fieldPath, found, |own|)
    ensures outcome == Wildcard <==> options.Some? && options.value.create && "*" in fieldPath
    ensures outcome == Wildcard ==> doc' == doc
    ensures found.Some? ==>
              var fields := found.value;
              && |was| == |fields| && |own| <= |fields|
              && (forall i :: 0 <= i < |fields| ==> fields[i] in doc')
              && (forall i :: 0 <= i < |fields| && fields[i] in doc ==> was[i] == old(CellOf(fields[i])))
              && AllWritten(options, was[..|own|], fields[..|own|], t, own, doc')
              && (forall i :: |own| <= i < |fields| ==> CellOf(fields[i]) == was[i])
    ensures outcome == Done && options == None ==>
              forall i :: 0 <= i < |found.value| && was[i].kind == Scalar ==> found.value[i].value == t.value
    ensures forall n :: n in doc && (found.Some? ==> n !in found.value) ==> CellOf(n) == old(CellOf(n))
    ensures outcome == NotScalar ==> options.Some? && options.value.delimiter != "" && was[|own|].kind != Scalar
    ensures options.Some? && options.value.delimiter != "" && found.Some? ==> forall i :: 0 <= i < |own| ==> was[i].kind == Scalar
  {
    doc', found, was, own := doc, None, [], [];
    var create := ShouldCreateField(options, fieldPath);
    if create == None {
      return Wildcard, doc', found, was, own;
    }
    var located;
    located, doc' := Locate(library, create.value, value.kind, fieldPath, doc);
    found := located;
    if located == None {
      return LookupFailed, doc', found, was, own;
    }
    was := Cells(located.value);
    var done;
    done, own, doc' := SetFields(options, located.value, value, t, region, doc');
    outcome := if done < |located.value| then NotScalar else Done;
  }

  predicate Finds(l: LookUp, n: YNode) {
    l.found.Some? && n in l.found.value
  }

  /** The text of a scalar that these look-ups found, each time it was found set once more. */
  function Rewritten(options: Option<FieldOptions>, text: string, t: Tree, n: YNode, lookUps: seq<LookUp>): string
    decreases |lookUps|
  {
    if lookUps == [] then text
    else
      var before := Rewritten(options, text, t, n, lookUps[..|lookUps| - 1]);
      if Finds(lookUps[|lookUps| - 1], n) then NewText(options, before, t) else before
  }

  /** Without a delimiter a scalar has the value's text in the end, if any path found it. */
  lemma {:induction false} RewrittenPlain(options: Option<FieldOptions>, text: string, t: Tree, n: YNode, lookUps: seq<LookUp>)
    requires options == None || options.value.delimiter == ""
    ensures Rewritten(options, text, t, n, lookUps) == if exists l :: l in lookUps && Finds(l, n) then t.value else text
    decreases |lookUps|
  {
    if lookUps != [] {
      var front, last := lookUps[..|lookUps| - 1], lookUps[|lookUps| - 1];
      assert lookUps == front + [last];
      RewrittenPlain(options, text, t, n, front);
      assert forall l :: l in lookUps <==> l in front || l == last;
    }
  }

  /** Every scalar has been set as often as it was found, and what was never found is as it was. */
  ghost predicate SetAsFound(options: Option<FieldOptions>, start: map<YNode, Cell>, end: map<YNode, Cell>, t: Tree, lookUps: seq<LookUp>)
    requires start.Keys <= end.Keys
  {
    && (forall n :: n in start && start[n].kind == Scalar ==>
          end[n] == start[n].(value := Rewritten(options, start[n].value, t, n, lookUps)))
    && LeftAlone(start, end, lookUps)
  }

  /** The same of a single look-up, when it is not `partly` set. */
  ghost predicate SetOnce(options: Option<FieldOptions>, mid: map<YNode, Cell>, end: map<YNode, Cell>, t: Tree, l: LookUp, partly: bool)
    requires mid.Keys <= end.Keys
  {
    && (forall n :: n in mid && !Finds(l, n) ==> end[n] == mid[n])
    && (!partly ==> forall n :: n in mid && Finds(l, n) && mid[n].kind == Scalar ==>
                      end[n] == mid[n].(value := NewText(options, mid[n].value, t)))
  }

  lemma SetOnceMore(options: Option<FieldOptions>, start: map<YNode, Cell>, mid: map<YNode, Cell>, end: map<YNode, Cell>, t: Tree, lookUps: seq<LookUp>, l: LookUp)
    requires start.Keys <= mid.Keys <= end.Keys && SetAsFound(options, start, mid, t, lookUps)
    requires SetOnce(options, mid, end, t, l, false)
    ensures SetAsFound(options, start, end, t, lookUps + [l])
  {
    forall n | n in start && start[n].kind == Scalar
      ensures end[n] == start[n].(value := Rewritten(options, start[n].value, t, n, lookUps + [l]))
    {
      RewrittenGrows(options, start[n].value, t, n, lookUps, l);
    }
    NotFoundYet(start, mid, end, lookUps, l);
  }

  /** What no look-up found is as it was. */
  ghost predicate LeftAlone(start: map<YNode, Cell>, end: map<YNode, Cell>, lookUps: seq<LookUp>)
    requires start.Keys <= end.Keys
  {
    forall n :: n in start && (forall l :: l in lookUps ==> !Finds(l, n)) ==> end[n] == start[n]
  }

  lemma NotFoundYet(start: map<YNode, Cell>, mid: map<YNode, Cell>, end: map<YNode, Cell>, lookUps: seq<LookUp>, l: LookUp)
    requires start.Keys <= mid.Keys <= end.Keys && LeftAlone(start, mid, lookUps)
    requires forall n :: n in mid && !Finds(l, n) ==> end[n] == mid[n]
    ensures LeftAlone(start, end, lookUps + [l])
  {
    assert l in lookUps + [l] && forall m :: m in lookUps ==> m in lookUps + [l];
  }

  /** Without a delimiter each scalar that was found has exactly the value's text, and its old kind and tag. */
  lemma SetAsFoundPlain(options: Option<FieldOptions>, start: map<YNode, Cell>, end: map<YNode, Cell>, t: Tree, lookUps: seq<LookUp>, l: LookUp)
    requires start.Keys <= end.Keys && SetAsFound(options, start, end, t, lookUps) && l in lookUps
    requires options == None || options.value.delimiter == ""
    ensures forall n :: n in start && start[n].kind == Scalar && Finds(l, n) ==> end[n] == start[n].(value := t.value)
  {
    forall n | n in start && start[n].kind == Scalar && Finds(l, n) ensures end[n] == start[n].(value := t.value) {
      RewrittenPlain(options, start[n].value, t, n, lookUps);
    }
  }

  /** The look-ups are for the field paths in their order, and all but the last one found something. */
  ghost predicate AskedInOrder(lookUps: seq<LookUp>, options: Option<FieldOptions>, fieldPaths: seq<seq<string>>, kind: Kind) {
    && |lookUps| <= |fieldPaths|
    && (forall i :: 0 <= i < |lookUps| ==>
          && lookUps[i].fieldPath == fieldPaths[i]
          && lookUps[i].create == (if options.Some? && options.value.create then Some(kind) else None)
          && (lookUps[i].create.Some? ==> "*" !in fieldPaths[i]))
    && (forall i :: 0 <= i < |lookUps| - 1 ==> lookUps[i].found.Some?)
  }

  predicate AllFound(lookUps: seq<LookUp>) {
    forall i :: 0 <= i < |lookUps| ==> lookUps[i].found.Some?
  }

  /** How the field paths ended, told from the look-ups made. */
  ghost predicate StopsAs(outcome: Outcome, lookUps: seq<LookUp>, options: Option<FieldOptions>, fieldPaths: seq<seq<string>>)
    requires |lookUps| <= |fieldPaths|
  {
    match outcome
    case Done => |lookUps| == |fieldPaths| && AllFound(lookUps)
    case Wildcard => options.Some? && options.value.create && AllFound(lookUps)
                     && |lookUps| < |fieldPaths| && "*" in fieldPaths[|lookUps|]
    case LookupFailed => lookUps != [] && lookUps[|lookUps| - 1].found == None
    case NotScalar => options.Some? && options.value.delimiter != "" && lookUps != [] && AllFound(lookUps)
  }

  ghost function CellsOf(doc: set<YNode>): (start: map<YNode, Cell>)
    reads doc
    ensures start.Keys == doc && forall n :: n in doc ==> start[n] == CellOf(n)
  {
    map n | n in doc :: CellOf(n)
  }

  /** All fields that were found read as they should. */
  ghost predicate AllSet(options: Option<FieldOptions>, was: seq<Cell>, l: LookUp, t: Tree, own: seq<set<YNode>>, doc: set<YNode>)
    reads doc
  {
    l.found.Some? && |was| == |l.found.value| == |own| && AllWritten(options, was, l.found.value, t, own, doc)
  }

  /** One of the fields found is not a scalar. */
  ghost predicate FoundNonScalar(l: LookUp, doc: set<YNode>)
    reads doc
  {
    l.found.Some? && exists i :: 0 <= i < |l.found.value| && l.found.value[i] in doc && l.found.value[i].kind != Scalar
  }

  /** The paths looked up so far were all found, and the scalars set. */
  ghost predicate FoundSoFar(options: Option<FieldOptions>, fieldPaths: seq<seq<string>>, start: map<YNode, Cell>, doc: set<YNode>,
                             lookUps: seq<LookUp>, t: Tree)
    reads doc
  {
    && AskedInOrder(lookUps, options, fieldPaths, t.kind) && AllFound(lookUps)
    && start.Keys <= doc && SetAsFound(options, start, CellsOf(doc), t, lookUps)
  }

  /** A path was at fault, and the scalars found in front of it were set. */
  ghost predicate StoppedAt(outcome: Outcome, options: Option<FieldOptions>, fieldPaths: seq<seq<string>>, start: map<YNode, Cell>, doc: set<YNode>,
                            lookUps: seq<LookUp>, t: Tree)
    reads doc
  {
    && outcome != Done && AskedInOrder(lookUps, options, fieldPaths, t.kind) && StopsAs(outcome, lookUps, options, fieldPaths)
    && start.Keys <= doc
    && if outcome == NotScalar then
         LeftAlone(start, CellsOf(doc), lookUps) && FoundNonScalar(lookUps[|lookUps| - 1], doc)
       else
         SetAsFound(options, start, CellsOf(doc), t, lookUps)
  }

  lemma RewrittenGrows(options: Option<FieldOptions>, text: string, t: Tree, n: YNode, lookUps: seq<LookUp>, l: LookUp)
    ensures Rewritten(options, text, t, n, lookUps + [l])
            == if Finds(l, n) then NewText(options, Rewritten(options, text, t, n, lookUps), t)
               else Rewritten(options, text, t, n, lookUps)
  {
    assert (lookUps + [l])[..|lookUps|] == lookUps;
  }

  /** `CopyValueToTarget`, over all field paths and all their matches. The field paths are looked up in
      their order up to the first that is at fault. Wherever it stops, no node of the value is touched,
      nor any that was not found, and the document is a forest still, of its own nodes and fresh ones.
      Every scalar that was found has been set, once for each path that found it, and every field of
      the last path reads as it should. */
  method CopyValueToTarget(library: Library, doc: set<YNode>, value: YNode, ghost t: Tree, ghost region: set<YNode>, options: Option<FieldOptions>, fieldPaths: seq<seq<string>>)
    returns (outcome: Outcome, doc': set<YNode>, ghost lookUps: seq<LookUp>, ghost was: seq<Cell>, own: seq<set<YNode>>)
    requires Mirrors(value, t, region) && Forest(doc) && doc !! region
    modifies doc, library
    ensures Forest(doc') && doc <= doc' && fresh(doc' - doc) && doc' !! region && Mirrors(value, t, region)
    ensures library.lookUps == old(library.lookUps) + lookUps
    ensures AskedInOrder(lookUps, options, fieldPaths, t.kind) && StopsAs(outcome, lookUps, options, fieldPaths)
    ensures if outcome == NotScalar then
              LeftAlone(old(CellsOf(doc)), CellsOf(doc'), lookUps) && FoundNonScalar(lookUps[|lookUps| - 1], doc')
            else
              SetAsFound(options, old(CellsOf(doc)), CellsOf(doc'), t, lookUps)
    ensures outcome == Done && fieldPaths != [] ==> AllSet(options, was, lookUps[|lookUps| - 1], t, own, doc')
  {
    ghost var start := CellsOf(doc);
    outcome, doc', lookUps, was, own := CopyPaths(library, start, doc, value, t, region, options, fieldPaths);
  }

  /** The loop of `CopyValueToTarget`. */
  method CopyPaths(library: Library, ghost start: map<YNode, Cell>, doc: set<YNode>, value: YNode, ghost t: Tree, ghost region: set<YNode>,
                   options: Option<FieldOptions>, fieldPaths: seq<seq<string>>)
    returns (outcome: Outcome, doc': set<YNode>, ghost lookUps: seq<LookUp>, ghost was: seq<Cell>, own: seq<set<YNode>>)
    requires Mirrors(value, t, region) && Forest(doc) && doc !! region && start == CellsOf(doc)
    modifies doc, library
    ensures Forest(doc') && doc <= doc' && fresh(doc' - doc) && doc' !! region && Mirrors(value, t, region)
    ensures library.lookUps == old(library.lookUps) + lookUps
    ensures outcome != Done ==> StoppedAt(outcome, options, fieldPaths, start, doc', lookUps, t)
    ensures outcome == Done ==> |lookUps| == |fieldPaths| && FoundSoFar(options, fieldPaths, start, doc', lookUps, t)
    ensures outcome == Done && lookUps != [] ==> AllSet(options, was, lookUps[|lookUps| - 1], t, own, doc')
  {
    doc', lookUps, was, own := doc, [], [], [];
    ghost var base := library.lookUps;
    var paths := 0;
    while paths < |fieldPaths|
      invariant paths == |lookUps| <= |fieldPaths|
      invariant Forest(doc') && doc <= doc' && fresh(doc' - doc) && doc' !! region && Mirrors(value, t, region)
      invariant library.lookUps == base + lookUps
      invariant FoundSoFar(options, fieldPaths, start, doc', lookUps, t)
      invariant lookUps != [] ==> AllSet(options, was, lookUps[|lookUps| - 1], t, own, doc')
    {
      outcome, doc', lookUps, was, own := CopyNext(library, start, doc', value, t, region, options, fieldPaths, paths, base, lookUps);
      if outcome != Done {
        return;
      }
      paths := paths + 1;
    }
    outcome := Done;
  }

  /** One round of that loop. */
  method CopyNext(library: Library, ghost start: map<YNode, Cell>, doc: set<YNode>, value: YNode, ghost t: Tree, ghost region: set<YNode>,
                  options: Option<FieldOptions>, fieldPaths: seq<seq<string>>, paths: nat, ghost base: seq<LookUp>, ghost before: seq<LookUp>)
    returns (outcome: Outcome, doc': set<YNode>, ghost lookUps: seq<LookUp>, ghost was: seq<Cell>, own: seq<set<YNode>>)
    requires Mirrors(value, t, region) && Forest(doc) && doc !! region
    requires paths == |before| < |fieldPaths| && library.lookUps == base + before
    requires FoundSoFar(options, fieldPaths, start, doc, before, t)
    modifies doc, library
    ensures Forest(doc') && doc <= doc' && fresh(doc' - doc) && doc' !! region && Mirrors(value, t, region)
    ensures library.lookUps == base + lookUps
    ensures outcome != Done ==> StoppedAt(outcome, options, fieldPaths, start, doc', lookUps, t)
    ensures outcome == Done ==> |lookUps| == paths + 1 && FoundSoFar(options, fieldPaths, start, doc', lookUps, t)
    ensures outcome == Done ==> AllSet(options, was, lookUps[|lookUps| - 1], t, own, doc')
  {
    ghost var mid, l := CellsOf(doc), LookUp([], None, None);
    outcome, doc', l, was, own := CopyOne(library, doc, value, t, region, options, fieldPaths[paths]);
    lookUps := before;
    if outcome == Wildcard {
      assert SetAsFound(options, start, mid, t, before);
      assert CellsOf(doc') == mid;
    } else {
      lookUps := before + [l];
      assert base + (before + [l]) == base + before + [l];
      if outcome != NotScalar { SetOnceMore(options, start, mid, CellsOf(doc'), t, before, l); }
      NotFoundYet(start, mid, CellsOf(doc'), before, l);
    }
  }

  /** `CopyToPath`, with its question to the library and the cells of the document in one piece. */
  method CopyOne(library: Library, doc: set<YNode>, value: YNode, ghost t: Tree, ghost region: set<YNode>, options: Option<FieldOptions>, fieldPath: seq<string>)
    returns (outcome: Outcome, doc': set<YNode>, ghost l: LookUp, ghost was: seq<Cell>, own: seq<set<YNode>>)
    requires Mirrors(value, t, region) && Forest(doc) && doc !! region
    modifies doc, library
    ensures Forest(doc') && doc <= doc' && fresh(doc' - doc) && doc' !! region && Mirrors(value, t, region)
    ensures outcome == Wildcard <==> options.Some? && options.value.create && "*" in fieldPath
    ensures outcome == Wildcard ==> library.lookUps == old(library.lookUps) && CellsOf(doc') == old(CellsOf(doc))
    ensures outcome != Wildcard ==>
              && library.lookUps == old(library.lookUps) + [l]
              && l.fieldPath == fieldPath && l.create == (if options.Some? && options.value.create then Some(t.kind) else None)
              && (l.found == None <==> outcome == LookupFailed)
              && SetOnce(options, old(CellsOf(doc)), CellsOf(doc'), t, l, outcome == NotScalar)
    ensures outcome == NotScalar ==> options.Some? && options.value.delimiter != "" && FoundNonScalar(l, doc')
    ensures outcome == Done ==> AllSet(options, was, l, t, own, doc')
  {
    ghost var found;
    outcome, doc', found, was, own := CopyToPath(library, doc, value, t, region, options, fieldPath);
    l := LookUp(fieldPath, if options.Some? && options.value.create then Some(t.kind) else None, found);
    assert outcome == Done ==> was[..|own|] == was && found.value[..|own|] == found.value;
  }
}
