/**
 * The display tree that `getJSON` of mp4.js builds from a box tree: one node
 * labelled "Box - <type>" per box, holding one node per enumerable property
 * of the box (with summaries of the entries of a table-valued property)
 * followed by the nodes of its child boxes.
 *
 * A label is kept as the list of pieces that the source concatenates: literal
 * text, and values that JavaScript would convert to text.
 */
module JsonExport {
  import opened BoxTree
  import opened BoxSearch

  datatype Piece = Lit(s: string) | Show(v: Value)

  type Label = seq<Piece>

  /**
   * A display node: the name of the property that holds its label (the root
   * node of the source spells it `labe`), the label, and its `children`
   * array, absent until something is pushed onto it.
   */
  datatype Node = Node(labelKey: string, text: Label, children: ChildList)

  /** A node's `children` property: absent, or an array of nodes. */
  datatype ChildList = NoArray | Array(items: seq<Node>)

  /** `{'labe': 'root'}`, the node the MP4 constructor creates. */
  function RootJson(): (r: Node)
    ensures r.labelKey == "labe" && ChildrenOf(r) == [] && !IsBoxNode(r)
  {
    Node("labe", [Lit("root")], NoArray)
  }

  /** `node.children || []` */
  function ChildrenOf(n: Node): seq<Node> {
    if n.children.Array? then n.children.items else []
  }

  /** `node.children = node.children || []; node.children.push(child)` */
  function AddChild(n: Node, child: Node): (r: Node)
    ensures r.labelKey == n.labelKey && r.text == n.text
    ensures ChildrenOf(r) == ChildrenOf(n) + [child]
  {
    n.(children := Array(ChildrenOf(n) + [child]))
  }

  /** A `children` array holding `s`, or no array at all when nothing was pushed. */
  function Children(s: seq<Node>): ChildList {
    if s == [] then NoArray else Array(s)
  }

  /** `'Box - ' + box.type` */
  function BoxLabel(b: Box): (r: Label)
    ensures |r| == 2 && r[0] == Lit("Box - ")
  {
    [Lit("Box - "), Show(TypeOf(b))]
  }

  /** The properties that the export lists: no methods, and not `boxes`, `constructor` or `_parent`. */
  predicate Exported(f: Field)
    ensures f.name == "boxes" || f.name == "constructor" || f.name == "_parent" ==> !Exported(f)
    ensures Exported(f) ==> !f.value.Func?
    ensures f.name == "type" && f.value.Text? ==> Exported(f)
  {
    !f.value.Func? && f.name != "boxes" && f.name != "constructor" && f.name != "_parent"
  }

  /** The two kinds of table entry that the export summarises. */
  datatype TableShape =
    | TimeToSample   // entries with `count` and `delta`
    | SampleToChunk  // entries with `first_chunk`, `samples_per_chunk`, `sample_description_index`

  /** The entry property that decides whether the entry is summarised. */
  function Lead(shape: TableShape, e: Entry): Value {
    match shape
    case TimeToSample => e.count
    case SampleToChunk => e.firstChunk
  }

  /** The summary node of entry i. */
  function Summary(shape: TableShape, i: nat, e: Entry): (r: Node)
    ensures r.labelKey == "label" && r.children == NoArray && !IsBoxNode(r)
    ensures |r.text| >= 5 && r.text[0] == Show(Num(i as real)) && r.text[2] == Show(Lead(shape, e))
  {
    match shape
    case TimeToSample =>
      Node("label", [Show(Num(i as real)), Lit(" - count: "), Show(e.count), Lit(" delta: "), Show(e.delta)], NoArray)
    case SampleToChunk =>
      Node("label", [Show(Num(i as real)), Lit(" - first_chunk: "), Show(e.firstChunk),
                     Lit(" samples_per_chunk: "), Show(e.samplesPerChunk),
                     Lit(" sample_description_index: "), Show(e.sampleDescriptionIndex)], NoArray)
  }

  /** Summaries of the entries from index i on, up to the first whose lead property is falsy. */
  function Run(es: seq<Entry>, i: nat, shape: TableShape): (r: seq<Node>)
    requires i <= |es|
    ensures |r| <= |es| - i
    ensures forall k :: i <= k < i + |r| ==> Truthy(Lead(shape, es[k]))
    ensures i + |r| < |es| ==> !Truthy(Lead(shape, es[i + |r|]))
    decreases |es| - i
  {
    if i < |es| && Truthy(Lead(shape, es[i])) then [Summary(shape, i, es[i])] + Run(es, i + 1, shape)
    else []
  }

  /** The child of the display node for one property. */
  function PropertyNode(f: Field): (r: Node)
    ensures r.labelKey == "label" && !IsBoxNode(r)
    ensures |r.text| == 3 && r.text[0] == Lit(f.name) && r.text[2] == Show(f.value)
    ensures r.children.Array? <==> f.value.Table?
  {
    Node("label", [Lit(f.name), Lit(":"), Show(f.value)],
      if f.value.Table? then Array(Run(f.value.entries, 0, TimeToSample) + Run(f.value.entries, 0, SampleToChunk))
      else NoArray)
  }

  /** `n` is the node of some property of `fs` that the export lists. */
  predicate NodeOfListedProperty(n: Node, fs: seq<Field>) {
    exists j :: 0 <= j < |fs| && Exported(fs[j]) && n == PropertyNode(fs[j])
  }

  /** The property nodes of a list of properties, in enumeration order. */
  function PropertyNodes(fs: seq<Field>): (r: seq<Node>)
    ensures |r| <= |fs|
    ensures forall n :: n in r ==> NodeOfListedProperty(n, fs)
  {
    if fs == [] then []
    else
      var last := fs[|fs| - 1];
      assert forall j :: 0 <= j < |fs| - 1 ==> fs[..|fs| - 1][j] == fs[j];
      PropertyNodes(fs[..|fs| - 1]) + (if Exported(last) then [PropertyNode(last)] else [])
  }

  /** The display node of a box and its subtree. */
  function ExportBox(b: Box): (r: Node)
    ensures r.labelKey == "label" && r.text == BoxLabel(b) && IsBoxNode(r)
    decreases b
  {
    Node("label", BoxLabel(b), Children(PropertyNodes(b.fields) + ExportList(b.boxes)))
  }

  /** The display nodes of a list of boxes, in order. */
  function ExportList(s: seq<Box>): (r: seq<Node>)
    ensures |r| == |s|
    ensures forall i :: 0 <= i < |s| ==> r[i] == ExportBox(s[i])
    decreases s
  {
    if s == [] then []
    else ExportList(s[..|s| - 1]) + [ExportBox(s[|s| - 1])]
  }

  // ------------------------------------------------- what the export contains

  /** A node whose label is `'Box - ' + type`: two pieces, the first the literal prefix. */
  predicate IsBoxNode(n: Node) {
    |n.text| == 2 && n.text[0] == Lit("Box - ")
  }

  /** Labels of the box nodes of a display tree, in pre-order. */
  function BoxNodes(n: Node): seq<Label>
    decreases n
  {
    (if IsBoxNode(n) then [n.text] else []) + BoxNodesOf(n.children)
  }

  function BoxNodesOf(c: ChildList): seq<Label>
    decreases c
  {
    match c
    case NoArray => []
    case Array(cs) => BoxNodesList(cs)
  }

  function BoxNodesList(s: seq<Node>): seq<Label>
    decreases s
  {
    if s == [] then [] else BoxNodesList(s[..|s| - 1]) + BoxNodes(s[|s| - 1])
  }

  /** The boxes of a subtree in pre-order: the box, then the subtrees of its children in order. */
  function PreOrder(b: Box): seq<Box>
    decreases b
  {
    [b] + PreOrderList(b.boxes)
  }

  function PreOrderList(s: seq<Box>): seq<Box>
    decreases s
  {
    if s == [] then [] else PreOrderList(s[..|s| - 1]) + PreOrder(s[|s| - 1])
  }

  function BoxLabels(s: seq<Box>): (r: seq<Label>)
    ensures |r| == |s|
  {
    seq(|s|, i requires 0 <= i < |s| => BoxLabel(s[i]))
  }

  lemma {:induction false} BoxNodesListAppend(a: seq<Node>, b: seq<Node>)
    ensures BoxNodesList(a + b) == BoxNodesList(a) + BoxNodesList(b)
    decreases |b|
  {
    if b == [] {
      assert a + b == a;
    } else {
      var b' := b[..|b| - 1];
      assert (a + b)[..|a + b| - 1] == a + b';
      BoxNodesListAppend(a, b');
    }
  }

  lemma {:induction false} RunHasNoBoxNode(es: seq<Entry>, i: nat, shape: TableShape)
    requires i <= |es|
    ensures BoxNodesList(Run(es, i, shape)) == []
    decreases |es| - i
  {
    if i < |es| && Truthy(Lead(shape, es[i])) {
      var n := Summary(shape, i, es[i]);
      RunHasNoBoxNode(es, i + 1, shape);
      BoxNodesListAppend([n], Run(es, i + 1, shape));
      assert [n][..0] == [];
      assert BoxNodes(n) == [];
    }
  }

  lemma {:induction false} PropertyNodesHaveNoBoxNode(fs: seq<Field>)
    ensures BoxNodesList(PropertyNodes(fs)) == []
    decreases |fs|
  {
    if fs != [] {
      var last := fs[|fs| - 1];
      PropertyNodesHaveNoBoxNode(fs[..|fs| - 1]);
      var tail := if Exported(last) then [PropertyNode(last)] else [];
      BoxNodesListAppend(PropertyNodes(fs[..|fs| - 1]), tail);
      if Exported(last) {
        var n := PropertyNode(last);
        assert [n][..0] == [];
        if last.value.Table? {
          var es := last.value.entries;
          RunHasNoBoxNode(es, 0, TimeToSample);
          RunHasNoBoxNode(es, 0, SampleToChunk);
          BoxNodesListAppend(Run(es, 0, TimeToSample), Run(es, 0, SampleToChunk));
        }
        assert BoxNodes(n) == [];
      }
    }
  }

  lemma BoxLabelsAppend(a: seq<Box>, b: seq<Box>)
    ensures BoxLabels(a + b) == BoxLabels(a) + BoxLabels(b)
  {
  }

  /**
   * The box nodes of the export of `b` are one per box of its subtree, in
   * pre-order, each labelled with its box's type: property nodes and their
   * summaries are never taken for box nodes.
   */
  lemma {:induction false} ExportIsPreOrder(b: Box)
    ensures BoxNodes(ExportBox(b)) == BoxLabels(PreOrder(b))
    decreases b, 1
  {
    var props := PropertyNodes(b.fields);
    var kids := ExportList(b.boxes);
    PropertyNodesHaveNoBoxNode(b.fields);
    BoxNodesListAppend(props, kids);
    ExportListIsPreOrder(b.boxes);
    var below := BoxLabels(PreOrderList(b.boxes));
    assert BoxNodesList(props + kids) == below;
    assert BoxNodesOf(Children(props + kids)) == below by {
      if props + kids == [] {
        assert b.boxes == [];
        assert PreOrderList(b.boxes) == [];
      }
    }
    assert IsBoxNode(ExportBox(b));
    assert BoxNodes(ExportBox(b)) == [BoxLabel(b)] + below;
    BoxLabelsAppend([b], PreOrderList(b.boxes));
    assert BoxLabels([b]) == [BoxLabel(b)];
  }

  lemma {:induction false} ExportListIsPreOrder(s: seq<Box>)
    ensures BoxNodesList(ExportList(s)) == BoxLabels(PreOrderList(s))
    decreases s, 0
  {
    if s != [] {
      var init := s[..|s| - 1];
      var last := s[|s| - 1];
      ExportListIsPreOrder(init);
      ExportIsPreOrder(last);
      var front := ExportList(init);
      assert (front + [ExportBox(last)])[..|front|] == front;
      BoxLabelsAppend(PreOrderList(init), PreOrder(last));
    }
  }

  /** Every box of the subtree of `b` occurs in its pre-order, and nothing else does. */
  lemma {:induction false} PreOrderIsSubtree(b: Box, x: Box)
    ensures x in PreOrder(b) <==> InSubtree(x, b)
    decreases b, 1
  {
    PreOrderListIsChildSubtrees(b.boxes, x);
  }

  lemma {:induction false} PreOrderListIsChildSubtrees(s: seq<Box>, x: Box)
    ensures x in PreOrderList(s) <==> exists i :: 0 <= i < |s| && InSubtree(x, s[i])
    decreases s, 0
  {
    if s != [] {
      var init := s[..|s| - 1];
      var last := s[|s| - 1];
      assert PreOrderList(s) == PreOrderList(init) + PreOrder(last);
      PreOrderListIsChildSubtrees(init, x);
      PreOrderIsSubtree(last, x);
      if x in PreOrderList(s) {
        if x in PreOrderList(init) {
          var i :| 0 <= i < |init| && InSubtree(x, init[i]);
          assert s[i] == init[i];
        } else {
          assert InSubtree(x, s[|s| - 1]);
        }
      }
      if exists i :: 0 <= i < |s| && InSubtree(x, s[i]) {
        var i :| 0 <= i < |s| && InSubtree(x, s[i]);
        if i < |s| - 1 {
          assert init[i] == s[i];
          assert x in PreOrderList(init);
        } else {
          assert x in PreOrder(last);
        }
      }
    }
  }

  /**
   * The export of a box has exactly one box node per box of its subtree, and
   * appending it to a parent keeps the parent's earlier children in front.
   */
  lemma ExportedBoxNodeCount(b: Box, parent: Node)
    ensures |BoxNodes(ExportBox(b))| == |PreOrder(b)|
    ensures var updated := AddChild(parent, ExportBox(b));
      |ChildrenOf(updated)| == |ChildrenOf(parent)| + 1 &&
      ChildrenOf(updated)[..|ChildrenOf(parent)|] == ChildrenOf(parent) &&
      ChildrenOf(updated)[|ChildrenOf(parent)|] == ExportBox(b)
  {
    ExportIsPreOrder(b);
  }

  /**
   * The children of a box's node: its property nodes, then one node per child
   * box in order; the node has no `children` array exactly when the box has
   * no listed property and no child box.
   */
  lemma ExportNodeChildren(b: Box)
    ensures ExportBox(b).text == BoxLabel(b)
    ensures ExportBox(b).children == NoArray <==> PropertyNodes(b.fields) == [] && b.boxes == []
    ensures var cs := ChildrenOf(ExportBox(b)); var p := |PropertyNodes(b.fields)|;
      |cs| == p + |b.boxes| && cs[..p] == PropertyNodes(b.fields) &&
      forall i :: 0 <= i < |b.boxes| ==> cs[p + i] == ExportBox(b.boxes[i])
  {
  }

  /** The property nodes of `a + b` are those of `a` followed by those of `b`. */
  lemma {:induction false} PropertyNodesAppend(a: seq<Field>, b: seq<Field>)
    ensures PropertyNodes(a + b) == PropertyNodes(a) + PropertyNodes(b)
    decreases |b|
  {
    if b == [] {
      assert a + b == a;
    } else {
      var b' := b[..|b| - 1];
      assert (a + b)[..|a + b| - 1] == a + b';
      PropertyNodesAppend(a, b');
    }
  }

  /**
   * Exactly one property node per listed property, in enumeration order, and
   * none for a method, `boxes`, `constructor` or `_parent`.
   */
  lemma {:induction false} PropertyNodesOnePerField(fs: seq<Field>)
    ensures |PropertyNodes(fs)| <= |fs|
    ensures (forall k :: 0 <= k < |fs| ==> Exported(fs[k])) ==>
      |PropertyNodes(fs)| == |fs| && forall k :: 0 <= k < |fs| ==> PropertyNodes(fs)[k] == PropertyNode(fs[k])
    ensures (forall k :: 0 <= k < |fs| ==> !Exported(fs[k])) ==> PropertyNodes(fs) == []
    decreases |fs|
  {
    if fs != [] {
      var init := fs[..|fs| - 1];
      var last := fs[|fs| - 1];
      PropertyNodesOnePerField(init);
      var tail := if Exported(last) then [PropertyNode(last)] else [];
      assert PropertyNodes(fs) == PropertyNodes(init) + tail;
      if forall k :: 0 <= k < |fs| ==> Exported(fs[k]) {
        assert forall k :: 0 <= k < |init| ==> init[k] == fs[k];
        assert Exported(last) && tail == [PropertyNode(last)];
        forall k | 0 <= k < |fs| ensures PropertyNodes(fs)[k] == PropertyNode(fs[k]) {
          if k < |init| {
            assert PropertyNodes(fs)[k] == PropertyNodes(init)[k];
          }
        }
      }
      if forall k :: 0 <= k < |fs| ==> !Exported(fs[k]) {
        assert forall k :: 0 <= k < |init| ==> init[k] == fs[k];
        assert !Exported(last);
      }
    }
  }

  /** `r` summarises entries i, i+1, ... of `es` in order, each of them with a truthy lead property. */
  predicate Numbered(es: seq<Entry>, i: nat, r: seq<Node>, shape: TableShape) {
    i + |r| <= |es| &&
    forall j :: i <= j < i + |r| ==> Truthy(Lead(shape, es[j])) && r[j - i] == Summary(shape, j, es[j])
  }

  /**
   * The summaries from index i on are those of the longest run of entries
   * from i whose lead property is truthy, in index order, each numbered with
   * its index.
   */
  lemma {:induction false} RunIsLongestTruthyRun(es: seq<Entry>, i: nat, shape: TableShape)
    requires i <= |es|
    ensures |Run(es, i, shape)| <= |es| - i
    ensures Numbered(es, i, Run(es, i, shape), shape)
    ensures i + |Run(es, i, shape)| < |es| ==> !Truthy(Lead(shape, es[i + |Run(es, i, shape)|]))
    decreases |es| - i
  {
    if i < |es| && Truthy(Lead(shape, es[i])) {
      RunIsLongestTruthyRun(es, i + 1, shape);
      var rest := Run(es, i + 1, shape);
      assert Run(es, i, shape) == [Summary(shape, i, es[i])] + rest;
      forall j | i <= j < i + |Run(es, i, shape)|
        ensures Truthy(Lead(shape, es[j])) && Run(es, i, shape)[j - i] == Summary(shape, j, es[j])
      {
        if j > i {
          assert Run(es, i, shape)[j - i] == rest[j - (i + 1)];
        }
      }
    }
  }

  /** The run from the first entry, with its indices counted from 0. */
  lemma RunFromStart(es: seq<Entry>, shape: TableShape)
    ensures var r := Run(es, 0, shape);
      |r| <= |es| &&
      (forall k :: 0 <= k < |r| ==> Truthy(Lead(shape, es[k])) && r[k] == Summary(shape, k, es[k])) &&
      (|r| < |es| ==> !Truthy(Lead(shape, es[|r|])))
  {
    var r := Run(es, 0, shape);
    RunIsLongestTruthyRun(es, 0, shape);
    forall k | 0 <= k < |r| ensures Truthy(Lead(shape, es[k])) && r[k] == Summary(shape, k, es[k]) {
      assert r[k - 0] == Summary(shape, k, es[k]);
    }
  }

  /**
   * The summaries of a table-valued property: first the run of entries with a
   * truthy `count`, then, counted again from index 0, the run of entries with
   * a truthy `first_chunk`. Other properties get no `children` array.
   */
  lemma PropertySummaries(f: Field)
    ensures PropertyNode(f).text == [Lit(f.name), Lit(":"), Show(f.value)]
    ensures PropertyNode(f).children.Array? <==> f.value.Table?
    ensures f.value.Table? ==>
      var es := f.value.entries;
      var counts := Run(es, 0, TimeToSample);
      var chunks := Run(es, 0, SampleToChunk);
      PropertyNode(f).children == Array(counts + chunks) && |counts| <= |es| && |chunks| <= |es| &&
      (forall k :: 0 <= k < |counts| ==> Truthy(es[k].count) && counts[k] == Summary(TimeToSample, k, es[k])) &&
      (|counts| < |es| ==> !Truthy(es[|counts|].count)) &&
      (forall k :: 0 <= k < |chunks| ==> Truthy(es[k].firstChunk) && chunks[k] == Summary(SampleToChunk, k, es[k])) &&
      (|chunks| < |es| ==> !Truthy(es[|chunks|].firstChunk))
  {
    if f.value.Table? {
      RunFromStart(f.value.entries, TimeToSample);
      RunFromStart(f.value.entries, SampleToChunk);
    }
  }

  const StscEntries: seq<Entry> := [
    Entry(Undefined, Undefined, Num(1.0), Num(10.0), Num(1.0)),
    Entry(Undefined, Undefined, Num(5.0), Num(8.0), Num(1.0))]

  /**
   * An `stsc` table with entries {1, 10, 1} and {5, 8, 1} is summarised by
   * two labels that carry those numbers in order.
   */
  lemma StscSummaryExample()
    ensures PropertyNode(Field("entries", Table(StscEntries))).children == Array([
      Node("label", [Show(Num(0.0)), Lit(" - first_chunk: "), Show(Num(1.0)),
                     Lit(" samples_per_chunk: "), Show(Num(10.0)),
                     Lit(" sample_description_index: "), Show(Num(1.0))], NoArray),
      Node("label", [Show(Num(1.0)), Lit(" - first_chunk: "), Show(Num(5.0)),
                     Lit(" samples_per_chunk: "), Show(Num(8.0)),
                     Lit(" sample_description_index: "), Show(Num(1.0))], NoArray)])
  {
    assert Run(StscEntries, 0, TimeToSample) == [];
    assert Run(StscEntries, 2, SampleToChunk) == [];
    assert Run(StscEntries, 1, SampleToChunk) == [Summary(SampleToChunk, 1, StscEntries[1])];
    assert Run(StscEntries, 0, SampleToChunk) == [Summary(SampleToChunk, 0, StscEntries[0]), Summary(SampleToChunk, 1, StscEntries[1])];
    assert (0 as real) == 0.0 && (1 as real) == 1.0;
  }

  // --------------------------------------------------------------- the loops

  /**
   * One summary loop of `getJSON`: push the summary of each entry onto
   * `summaries`, from the first entry on, while the lead property is truthy.
   */
  method AppendSummaries(entries: seq<Entry>, shape: TableShape, summaries: seq<Node>) returns (r: seq<Node>)
    ensures r == summaries + Run(entries, 0, shape)
  {
    r := summaries;
    var i := 0;
    while i < |entries| && Truthy(Lead(shape, entries[i]))
      invariant 0 <= i <= |entries|
      invariant r + Run(entries, i, shape) == summaries + Run(entries, 0, shape)
    {
      var summary := Summary(shape, i, entries[i]);
      assert Run(entries, i, shape) == [summary] + Run(entries, i + 1, shape);
      assert (r + [summary]) + Run(entries, i + 1, shape) == r + ([summary] + Run(entries, i + 1, shape));
      r := r + [summary];
      i := i + 1;
    }
    assert Run(entries, i, shape) == [];
    assert r + [] == r;
  }

  /**
   * The node of one property in `getJSON`, with the two summary loops for a
   * table-valued property.
   */
  method PropertyChild(f: Field) returns (property: Node)
    ensures property == PropertyNode(f)
  {
    property := Node("label", [Lit(f.name), Lit(":"), Show(f.value)], NoArray);
    if f.value.Table? {
      var summaries := AppendSummaries(f.value.entries, TimeToSample, []);
      summaries := AppendSummaries(f.value.entries, SampleToChunk, summaries);
      assert [] + Run(f.value.entries, 0, TimeToSample) == Run(f.value.entries, 0, TimeToSample);
      property := property.(children := Array(summaries));
    }
  }

  lemma PropertyNodesStep(fs: seq<Field>, i: nat)
    requires i < |fs|
    ensures Exported(fs[i]) ==> PropertyNodes(fs[..i + 1]) == PropertyNodes(fs[..i]) + [PropertyNode(fs[i])]
    ensures !Exported(fs[i]) ==> PropertyNodes(fs[..i + 1]) == PropertyNodes(fs[..i])
  {
    assert fs[..i + 1][..i] == fs[..i];
    assert PropertyNodes(fs[..i]) + [] == PropertyNodes(fs[..i]);
  }

  lemma ExportListStep(s: seq<Box>, k: nat)
    requires k < |s|
    ensures ExportList(s[..k + 1]) == ExportList(s[..k]) + [ExportBox(s[k])]
  {
    assert s[..k + 1][..k] == s[..k];
  }

  /** Pushing onto a `children` property that holds `s`, or is absent when `s` is empty. */
  lemma AddToChildren(n: Node, s: seq<Node>, child: Node)
    requires n.children == Children(s)
    ensures AddChild(n, child).children == Children(s + [child])
    ensures AddChild(n, child).labelKey == n.labelKey && AddChild(n, child).text == n.text
  {
    assert ChildrenOf(n) == s;
    assert |s + [child]| > 0;
  }

  /**
   * `getJSON(box, parent)` after its guard: build the node of `box` and
   * append it to the children of `parent`.
   */
  method AppendBoxNode(box: Box, parent: Node) returns (updated: Node)
    ensures updated == AddChild(parent, ExportBox(box))
    decreases box
  {
    var obj := Node("label", BoxLabel(box), NoArray);
    var i := 0;
    while i < |box.fields|
      invariant 0 <= i <= |box.fields|
      invariant obj == Node("label", BoxLabel(box), Children(PropertyNodes(box.fields[..i])))
    {
      var f := box.fields[i];
      PropertyNodesStep(box.fields, i);
      if Exported(f) {
        var property := PropertyChild(f);
        AddToChildren(obj, PropertyNodes(box.fields[..i]), property);
        obj := AddChild(obj, property);
      }
      i := i + 1;
    }
    assert box.fields[..i] == box.fields;
    var k := 0;
    assert PropertyNodes(box.fields) + ExportList(box.boxes[..k]) == PropertyNodes(box.fields);
    while k < |box.boxes|
      invariant 0 <= k <= |box.boxes|
      invariant obj == Node("label", BoxLabel(box), Children(PropertyNodes(box.fields) + ExportList(box.boxes[..k])))
    {
      ExportListStep(box.boxes, k);
      AddToChildren(obj, PropertyNodes(box.fields) + ExportList(box.boxes[..k]), ExportBox(box.boxes[k]));
      obj := AppendBoxNode(box.boxes[k], obj);
      assert PropertyNodes(box.fields) + ExportList(box.boxes[..k + 1]) ==
        (PropertyNodes(box.fields) + ExportList(box.boxes[..k])) + [ExportBox(box.boxes[k])];
      k := k + 1;
    }
    assert box.boxes[..k] == box.boxes;
    updated := AddChild(parent, obj);
  }

}
