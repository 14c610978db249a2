/** Worked cases of the flowchart encoder, each a concrete input with the
    exact declarations it produces. */
module DiagramCases {
  import opened Wrappers
  import opened PyStr
  import opened FlowGraph
  import opened Diagram

  /** A 25-character label breaks after its first word. */
  lemma WrapLongLabelExample()
    ensures WrapLabel("Retrieve Customer Invoice") == "Retrieve\nCustomer Invoice"
  {
    RetrieveParts();
    WrapAtFirstSpace("Retrieve", "Customer Invoice");
  }

  /** The example label split at its first space. */
  lemma RetrieveParts()
    ensures "Retrieve" + [' '] + "Customer Invoice" == "Retrieve Customer Invoice"
    ensures "Retrieve" + ['\n'] + "Customer Invoice" == "Retrieve\nCustomer Invoice"
    ensures ' ' !in "Retrieve"
  {
  }

  /** A short label, or a long one without a space, is left alone. */
  lemma WrapUnchangedExamples()
    ensures WrapLabel("Start") == "Start"
    ensures WrapLabel("Reconciliation_of_accounts") == "Reconciliation_of_accounts"
  {
    var s := "Reconciliation_of_accounts";
    assert forall k :: 0 <= k < |s| ==> s[k] != ' ';
    assert !Wraps(s);
  }

  /** Kinds are read case-insensitively. */
  lemma KindExamples()
    ensures KindOf("DeCiSiOn") == Decision
    ensures KindOf("END") == End
  {
    DecisionExample();
    assert Lower("END") == "end";
  }

  /** A mixed-case `decision` is a decision. */
  lemma DecisionExample()
    ensures Lower("DeCiSiOn") == "decision"
  {
    LowerAppend("DeCi", "SiOn");
    assert "DeCi" + "SiOn" == "DeCiSiOn";
    assert Lower("DeCi") == "deci";
    assert Lower("SiOn") == "sion";
    assert "deci" + "sion" == "decision";
  }

  /** Unknown or empty types fall through to `Other`. */
  lemma OtherKindExamples()
    ensures KindOf("foo") == Other && KindOf("") == Other && KindOf("action") == Other
  {
    LowerOfLowerCase("foo");
    LowerOfLowerCase("action");
  }

  /** An edge whose endpoint names no node is still declared, unchanged:
      Graphviz, not this encoder, decides what such an edge means. */
  lemma DanglingEdgePassesThrough()
    ensures GenerateFlowchart(Object(RawGraph(Some([]), Some([RawEdge(Some("1"), Some("9"), None)]))), "out")
      == Success(Drawing(GraphAttrs, [EdgeDecl("1", "9", map[PenWidth := "1.0"])], "out.png"))
  {
    var e := RawEdge(Some("1"), Some("9"), None);
    var g := RawGraph(Some([]), Some([e]));
    BareEdgeComplete(e);
    BareEdgeDecl();
    var r := GenerateFlowchart(Object(g), "out");
    assert r.Success?;
    assert r.value.decls == [EdgeDecl("1", "9", map[PenWidth := "1.0"])] by {
      assert |r.value.decls| == 1;
      assert r.value.decls[0] == EdgeDecl("1", "9", map[PenWidth := "1.0"]);
    }
    assert r.value == Drawing(GraphAttrs, [EdgeDecl("1", "9", map[PenWidth := "1.0"])], "out.png");
  }

  /** A one-edge graph whose edge names both ends and no nodes raises nothing. */
  lemma BareEdgeComplete(e: RawEdge)
    requires e.source.Some? && e.target.Some?
    ensures Complete(RawGraph(Some([]), Some([e])))
  {
    assert FirstFault([e]) == 1 by { assert [e][1..] == []; }
  }

  /** An edge without a label is drawn with only the bare pen width. */
  lemma BareEdgeDecl()
    ensures EncodeEdge("1", "9", EdgeLabel(RawEdge(Some("1"), Some("9"), None)))
      == EdgeDecl("1", "9", map[PenWidth := "1.0"])
  {
    assert EdgeLabel(RawEdge(Some("1"), Some("9"), None)) == "";
    BlankEdgeLabel("1", "9", "");
  }
}
