/** The flowchart encoder (`generate_smart_flowchart`): turns a flow graph
    into the sequence of Graphviz node and edge declarations it issues, each
    with the keyword attributes passed to `dot.node` / `dot.edge`, plus the
    path of the image `dot.render` is asked to write.

    Layout and rasterisation belong to Graphviz and are not modelled; the
    graph-wide and node-default attributes appear as constants. */
module Diagram {
  import opened Wrappers
  import opened PyStr
  import opened FlowGraph

  /** The Graphviz attribute names the encoder sets. */
  datatype Key =
    | Dpi | RankDir | Size | Ratio | NodeSep | RankSep | Splines
    | FontName | FontSize | FontColor | Shape | Style | Color | FillColor
    | Width | Height | PenWidth | Label | TailLabel | LabelAngle | LabelDistance

  /** Graphviz attributes: name to string value, as passed by keyword. */
  type Attrs = map<Key, string>

  /** One drawing call: `dot.node(name, label, **attrs)` or
      `dot.edge(tail, head, **attrs)`. */
  datatype Decl =
    | NodeDecl(name: string, text: string, attrs: Attrs)
    | EdgeDecl(tail: string, head: string, attrs: Attrs)

  /** The graph-wide attributes, the declarations in call order, and the
      path of the rendered image. */
  datatype Drawing = Drawing(graph: Attrs, decls: seq<Decl>, imagePath: string)

  /** What the encoder raises: `AttributeError` when the payload is not a
      JSON object (it has no `.get`), and `KeyError('id')`,
      `KeyError('from')` or `KeyError('to')` for a missing subscripted key. */
  datatype EncodeError = NoGetAttribute | MissingId | MissingFrom | MissingTo

  /** Graph-wide attributes set by `dot.attr(...)`. */
  const GraphAttrs: Attrs := map[
    Dpi := "300", RankDir := "TB", Size := "7,7!", Ratio := "fill",
    NodeSep := "0.5", RankSep := "0.4", Splines := "polyline"]

  /** Node defaults set by `dot.attr('node', ...)`: a light-blue rounded
      rectangle with a black outline. */
  const NodeDefaults: Attrs := map[
    FontName := "Arial", FontSize := "10", Shape := "rect",
    Style := "filled, rounded", Color := "#000000", FillColor := "#E3F2FD",
    Width := "2.0", Height := "0.6", PenWidth := "1.2"]

  /** Fill of terminal and decision nodes. */
  const Accent := "#4285F4"

  /** Labels longer than this are wrapped. */
  const WrapLimit: nat := 15

  /** The `output_path` default; the document pipeline relies on it. */
  const DefaultOutputPath := "flowchart"

  // ---------------------------------------------------------------------
  // Node kinds
  // ---------------------------------------------------------------------

  /** The node kinds the encoder tells apart. */
  datatype NodeKind = Start | End | Decision | Other

  /** Normalises a `type` value: the lower-cased text selects the kind;
      everything unrecognised, including the empty default, is `Other`. */
  function KindOf(t: string): (k: NodeKind)
    ensures k == Start <==> Lower(t) == "start"
    ensures k == End <==> Lower(t) == "end"
    ensures k == Decision <==> Lower(t) == "decision"
  {
    var l := Lower(t);
    if l == "start" then Start
    else if l == "end" then End
    else if l == "decision" then Decision
    else Other
  }

  /** Dispatch is case-insensitive: texts equal up to case pick the same kind. */
  lemma KindCaseInsensitive(t: string, u: string)
    requires Lower(t) == Lower(u)
    ensures KindOf(t) == KindOf(u)
  {
  }

  /** Lower-casing first does not change the kind. */
  lemma {:induction false} KindOfLowered(t: string)
    ensures KindOf(Lower(t)) == KindOf(t)
  {
    var l := Lower(t);
    assert Lower(l) == l by {
      forall k | 0 <= k < |l|
        ensures Lower(l)[k] == l[k]
      {
        assert l[k] == LowerChar(t[k]);
      }
    }
  }

  // ---------------------------------------------------------------------
  // Label wrapping
  // ---------------------------------------------------------------------

  /** The wrap rule applies: too long, and a space to break at. */
  predicate Wraps(text: string) {
    |text| > WrapLimit && ' ' in text
  }

  /** A label longer than 15 characters has its first space replaced by a
      line break; only that one position changes. */
  function WrapLabel(text: string): (r: string)
    ensures |r| == |text|
    ensures !Wraps(text) ==> r == text
    ensures Wraps(text) ==>
      && r[IndexOf(text, ' ')] == '\n'
      && (forall k :: 0 <= k < |text| && k != IndexOf(text, ' ') ==> r[k] == text[k])
  {
    IndexOfFound(text, ' ');
    if |text| > WrapLimit then ReplaceFirst(text, ' ', '\n') else text
  }

  /** Exactly one space becomes exactly one line break, the break sits at
      the first space, and every later space survives. */
  lemma WrapInsertsOneBreak(text: string)
    requires Wraps(text)
    ensures multiset(WrapLabel(text)) == multiset(text) - multiset{' '} + multiset{'\n'}
    ensures ' ' !in text[..IndexOf(text, ' ')]
    ensures WrapLabel(text) == text[..IndexOf(text, ' ')] + "\n" + text[IndexOf(text, ' ') + 1..]
  {
    ReplaceFirstMultiset(text, ' ', '\n');
    IndexOfFound(text, ' ');
    var i := IndexOf(text, ' ');
    var r := WrapLabel(text);
    assert r == text[..i] + "\n" + text[i + 1..] by {
      var w := text[..i] + "\n" + text[i + 1..];
      assert |w| == |r|;
      forall k | 0 <= k < |r|
        ensures r[k] == w[k]
      {
        if k < i {
          assert w[k] == text[k];
        } else if k > i {
          assert w[k] == text[k];
        }
      }
    }
  }

  /** The wrap rule in one line: a long label `p + " " + q` whose first
      word `p` holds no space becomes `p + "\n" + q`. */
  lemma WrapAtFirstSpace(p: string, q: string)
    requires ' ' !in p && |p| + 1 + |q| > WrapLimit
    ensures WrapLabel(p + [' '] + q) == p + ['\n'] + q
  {
    ReplaceFirstSplit(p, q, ' ', '\n');
  }

  // ---------------------------------------------------------------------
  // Node and edge declarations
  // ---------------------------------------------------------------------

  /** The colours shared by terminal and decision nodes: white text on the
      accent fill, black outline, plain (not rounded) filled style. */
  predicate Emphasised(a: Attrs) {
    && FillColor in a && a[FillColor] == Accent
    && FontColor in a && a[FontColor] == "white"
    && Color in a && a[Color] == "#000000"
    && Style in a && a[Style] == "filled"
  }

  /** The keyword attributes each kind adds to `dot.node`; `Other` adds none
      and so takes the node defaults. */
  function KindAttrs(k: NodeKind): (a: Attrs)
    ensures Shape in a <==> k != Other
    ensures a == map[] <==> k == Other
    ensures Shape in a ==> Emphasised(a)
    ensures k in {Start, End} ==> a[Shape] == "capsule" && Width !in a && Height !in a
    ensures k == Decision ==> a[Shape] == "diamond" && Width in a && a[Width] == "1.4" && Height in a && a[Height] == "0.9"
    ensures k in {Start, End} ==> a.Keys == {Shape, FillColor, FontColor, Color, Style}
    ensures k == Decision ==> a.Keys == {Shape, FillColor, FontColor, Color, Style, Width, Height}
  {
    match k
    case Start | End =>
      map[Shape := "capsule", FillColor := Accent, FontColor := "white",
          Color := "#000000", Style := "filled"]
    case Decision =>
      map[Shape := "diamond", FillColor := Accent, FontColor := "white",
          Color := "#000000", Style := "filled", Width := "1.4", Height := "0.9"]
    case Other => map[]
  }

  /** One `dot.node` call for a node whose `id` is `id`: the wrapped label,
      a capsule for `start`/`end`, a larger diamond for `decision`, both
      emphasised, and no attributes of its own for anything else. */
  function EncodeNode(id: string, n: RawNode): (d: Decl)
    ensures d.NodeDecl? && d.name == id && d.text == WrapLabel(NodeLabel(n))
    ensures Shape in d.attrs <==> KindOf(NodeType(n)) != Other
    ensures d.attrs == map[] <==> KindOf(NodeType(n)) == Other
    ensures Shape in d.attrs ==> Emphasised(d.attrs)
    ensures KindOf(NodeType(n)) in {Start, End} ==>
      d.attrs[Shape] == "capsule" && Width !in d.attrs && Height !in d.attrs
    ensures KindOf(NodeType(n)) == Decision ==>
      d.attrs[Shape] == "diamond" && Width in d.attrs && d.attrs[Width] == "1.4"
      && Height in d.attrs && d.attrs[Height] == "0.9"
    ensures KindOf(NodeType(n)) in {Start, End} ==>
      d.attrs.Keys == {Shape, FillColor, FontColor, Color, Style}
    ensures KindOf(NodeType(n)) == Decision ==>
      d.attrs.Keys == {Shape, FillColor, FontColor, Color, Style, Width, Height}
  {
    var k := KindOf(NodeType(n));
    NodeDecl(id, WrapLabel(NodeLabel(n)), KindAttrs(k))
  }

  /** The attributes Graphviz applies to a node: its own over the defaults. */
  function Effective(d: Decl): Attrs
    requires d.NodeDecl?
  {
    NodeDefaults + d.attrs
  }

  /** Every unrecognised `type` draws exactly as an `action` node does: the
      light-blue rounded rectangle of the node defaults. */
  lemma UnrecognisedKindDrawsAsAction(id: string, n: RawNode)
    requires KindOf(NodeType(n)) == Other
    ensures EncodeNode(id, n) == EncodeNode(id, n.(kind := Some("action")))
    ensures Effective(EncodeNode(id, n)) == NodeDefaults
  {
    LowerOfLowerCase("action");
    assert KindOf("action") == Other;
    assert Effective(EncodeNode(id, n)) == NodeDefaults + map[];
  }

  /** What Graphviz draws for each kind once the defaults are applied:
      terminal nodes are blue capsules that keep the default size, decision
      nodes larger blue diamonds, and every node keeps the default font. */
  lemma EffectiveNodeStyle(id: string, n: RawNode)
    ensures Effective(EncodeNode(id, n))[FontName] == "Arial"
    ensures KindOf(NodeType(n)) in {Start, End} ==>
      var e := Effective(EncodeNode(id, n));
      e[Shape] == "capsule" && Emphasised(e) && e[Width] == "2.0" && e[Height] == "0.6"
    ensures KindOf(NodeType(n)) == Decision ==>
      var e := Effective(EncodeNode(id, n));
      e[Shape] == "diamond" && Emphasised(e) && e[Width] == "1.4" && e[Height] == "0.9"
  {
    var k := KindOf(NodeType(n));
    var e := Effective(EncodeNode(id, n));
    assert e == NodeDefaults + KindAttrs(k);
    assert FontName !in KindAttrs(k);
    if k in {Start, End} {
      assert Width !in KindAttrs(k) && Height !in KindAttrs(k);
    }
  }

  /** One `dot.edge` call: a non-blank label is drawn at the tail, padded
      by one space each side, offset at -45 degrees and distance 2.5 in a
      muted colour; a blank one gives a plain connector of stroke weight
      1.0. Endpoints are copied as given. */
  function EncodeEdge(tail: string, head: string, caption: string): (d: Decl)
    ensures d.EdgeDecl? && d.tail == tail && d.head == head
    ensures Label !in d.attrs
    ensures Strip(caption) != [] <==> TailLabel in d.attrs
    ensures Strip(caption) != [] ==>
      && d.attrs[TailLabel] == " " + Strip(caption) + " "
      && LabelAngle in d.attrs && d.attrs[LabelAngle] == "-45"
      && LabelDistance in d.attrs && d.attrs[LabelDistance] == "2.5"
      && FontName in d.attrs && d.attrs[FontName] == "Arial"
      && FontSize in d.attrs && d.attrs[FontSize] == "9"
      && FontColor in d.attrs && d.attrs[FontColor] == "#2c3e50"
      && PenWidth !in d.attrs
    ensures Strip(caption) != [] ==>
      d.attrs.Keys == {TailLabel, LabelAngle, LabelDistance, FontName, FontSize, FontColor}
    ensures Strip(caption) == [] ==> d.attrs == map[PenWidth := "1.0"]
  {
    var text := Strip(caption);
    if text != [] then
      EdgeDecl(tail, head, map[TailLabel := " " + text + " ", LabelAngle := "-45",
                               LabelDistance := "2.5", FontName := "Arial",
                               FontSize := "9", FontColor := "#2c3e50"])
    else
      EdgeDecl(tail, head, map[PenWidth := "1.0"])
  }

  /** Whitespace around an edge label never changes the drawing. */
  lemma EdgeLabelPadding(tail: string, head: string, a: string, b: string)
    requires Strip(a) == Strip(b)
    ensures EncodeEdge(tail, head, a) == EncodeEdge(tail, head, b)
  {
  }

  /** A label of whitespace only draws as a plain connector. */
  lemma BlankEdgeLabel(tail: string, head: string, caption: string)
    requires forall k :: 0 <= k < |caption| ==> IsSpace(caption[k])
    ensures EncodeEdge(tail, head, caption) == EdgeDecl(tail, head, map[PenWidth := "1.0"])
  {
    StripEmptyIff(caption);
  }

  // ---------------------------------------------------------------------
  // Whole graph
  // ---------------------------------------------------------------------

  /** `node['id']` succeeds. */
  predicate HasId(n: RawNode) {
    n.id.Some?
  }

  /** The `KeyError` an edge raises, if any: `from` is read before `to`. */
  function EdgeFault(e: RawEdge): Option<EncodeError> {
    if e.source.None? then Some(MissingFrom)
    else if e.target.None? then Some(MissingTo)
    else None
  }

  /** Index of the first edge that raises, or `|es|` when none does. */
  function FirstFault(es: seq<RawEdge>): (i: nat)
    ensures i <= |es|
    ensures i < |es| ==> EdgeFault(es[i]).Some?
    ensures forall j :: 0 <= j < i ==> EdgeFault(es[j]).None?
  {
    if |es| == 0 then 0
    else if EdgeFault(es[0]).Some? then 0
    else 1 + FirstFault(es[1..])
  }

  /** One pass of the node loop: the `dot.node` call, or `KeyError('id')`. */
  function NodeStep(n: RawNode): Result<Decl, EncodeError> {
    match n.id
    case None => Failure(MissingId)
    case Some(id) => Success(EncodeNode(id, n))
  }

  /** The node loop: one declaration per node, in order, or the `KeyError`
      of the first node without an `id`. */
  function EncodeNodes(ns: seq<RawNode>): (r: Result<seq<Decl>, EncodeError>)
    ensures r.Success? <==> forall i :: 0 <= i < |ns| ==> HasId(ns[i])
    ensures r.Failure? ==> r.error == MissingId
    ensures r.Success? ==>
      && |r.value| == |ns|
      && forall i :: 0 <= i < |ns| ==> r.value[i] == EncodeNode(ns[i].id.value, ns[i])
  {
    Traverse(ns, NodeStep)
  }

  /** One pass of the edge loop: the `dot.edge` call, or the `KeyError`
      raised while reading the edge's endpoints. */
  function EdgeStep(e: RawEdge): Result<Decl, EncodeError> {
    match EdgeFault(e)
    case Some(err) => Failure(err)
    case None => Success(EncodeEdge(e.source.value, e.target.value, EdgeLabel(e)))
  }

  /** The edge loop completes exactly when no edge misses an endpoint. */
  lemma EdgeLoopSucceeds(es: seq<RawEdge>)
    ensures Traverse(es, EdgeStep).Success? <==> FirstFault(es) == |es|
  {
  }

  /** A failing edge loop raises the error of the first faulty edge. */
  lemma EdgeLoopFailure(es: seq<RawEdge>)
    ensures Traverse(es, EdgeStep).Failure? ==>
      Some(Traverse(es, EdgeStep).error) == EdgeFault(es[FirstFault(es)])
  {
    var r := Traverse(es, EdgeStep);
    if r.Failure? {
      var i :| 0 <= i < |es| && EdgeStep(es[i]) == Failure(r.error)
               && forall j :: 0 <= j < i ==> EdgeStep(es[j]).Success?;
      assert FirstFault(es) == i;
    }
  }

  /** A completed edge loop declares each edge's own `dot.edge` call, in
      input order. */
  lemma EdgeLoopInOrder(es: seq<RawEdge>)
    ensures Traverse(es, EdgeStep).Success? ==> forall i :: 0 <= i < |es| ==>
      Traverse(es, EdgeStep).value[i] == EncodeEdge(es[i].source.value, es[i].target.value, EdgeLabel(es[i]))
  {
  }

  /** The edge loop: one declaration per edge, in order, or the `KeyError`
      of the first edge missing an endpoint, with `from` read before `to`. */
  function EncodeEdges(es: seq<RawEdge>): (r: Result<seq<Decl>, EncodeError>)
    ensures r.Success? <==> FirstFault(es) == |es|
    ensures r.Failure? ==> Some(r.error) == EdgeFault(es[FirstFault(es)])
    ensures r.Success? ==>
      && |r.value| == |es|
      && forall i :: 0 <= i < |es| ==>
           r.value[i] == EncodeEdge(es[i].source.value, es[i].target.value, EdgeLabel(es[i]))
  {
    EdgeLoopSucceeds(es);
    EdgeLoopFailure(es);
    EdgeLoopInOrder(es);
    Traverse(es, EdgeStep)
  }

  /** Every node has an `id` and every edge both endpoints. */
  predicate Complete(g: RawGraph) {
    && (forall i :: 0 <= i < |NodesOf(g)| ==> HasId(NodesOf(g)[i]))
    && FirstFault(EdgesOf(g)) == |EdgesOf(g)|
  }

  /** `generate_smart_flowchart(data, output_path)` up to the render call:
      the fixed graph-wide attributes, every node declared first, then every
      edge, each in input order, and the image path is `output_path` with
      `.png` appended. Node errors
      are raised before edge errors; edge endpoints are not checked
      against the node ids. */
  function GenerateFlowchart(data: Payload, outputPath: string): (r: Result<Drawing, EncodeError>)
    ensures data.NonObject? ==> r == Failure(NoGetAttribute)
    ensures r.Success? <==> data.Object? && Complete(data.graph)
    ensures data.Object? && (exists i :: 0 <= i < |NodesOf(data.graph)| && !HasId(NodesOf(data.graph)[i])) ==>
      r == Failure(MissingId)
    ensures data.Object? && (forall i :: 0 <= i < |NodesOf(data.graph)| ==> HasId(NodesOf(data.graph)[i]))
            && FirstFault(EdgesOf(data.graph)) < |EdgesOf(data.graph)| ==>
      r.Failure? && Some(r.error) == EdgeFault(EdgesOf(data.graph)[FirstFault(EdgesOf(data.graph))])
    ensures r.Success? ==> r.value.imagePath == outputPath + ".png"
    ensures r.Success? ==> r.value.graph == GraphAttrs
    ensures r.Success? ==>
      var ns := NodesOf(data.graph);
      var es := EdgesOf(data.graph);
      && |r.value.decls| == |ns| + |es|
      && (forall i :: 0 <= i < |ns| ==> r.value.decls[i] == EncodeNode(ns[i].id.value, ns[i]))
      && (forall j :: 0 <= j < |es| ==>
            r.value.decls[|ns| + j] == EncodeEdge(es[j].source.value, es[j].target.value, EdgeLabel(es[j])))
  {
    match data
    case NonObject => Failure(NoGetAttribute)
    case Object(g) =>
      match EncodeNodes(NodesOf(g))
      case Failure(e) => Failure(e)
      case Success(nodeDecls) =>
        match EncodeEdges(EdgesOf(g))
        case Failure(e) => Failure(e)
        case Success(edgeDecls) => Success(Drawing(GraphAttrs, nodeDecls + edgeDecls, outputPath + ".png"))
  }
}
