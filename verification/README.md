# AI PDD Generator — a Dafny model of its core

The AI PDD Generator writes a Process Design Document (a Word file) from a
process narrative. This project models three parts of `app.py`.

- **The flowchart encoder.** `generate_smart_flowchart` turns the flow graph
  into Graphviz `dot.node` / `dot.edge` calls. The model gives each call's
  keyword attributes and the path of the image it asks for.
- **The flow extractor.** `get_smart_flow_data` asks the text-generation
  service for a JSON flow graph. Any failure is replaced by a fixed one-node
  fallback graph.
- **Document naming.** The title and client code come from the uploaded
  file's name. They select a client configuration, falling back to the first
  client. This part also covers the layout of the contents page: the dot
  leader and the sub-section indent.

Modules, one concept each:

| module | file | contents |
|---|---|---|
| `Wrappers` | `wrappers.dfy` | `Option` and `Result` |
| `PyStr` | `pystr.dfy` | the Python `str` operations the code uses: `strip`, `lower`, `upper`, `title`, `replace`, `rsplit`/`split` positions, `startswith`, `c * n` |
| `FlowGraph` | `flowgraph.dfy` | the JSON-shaped graph before validation; an absent key is `None` |
| `Diagram` | `diagram.dfy` | node kinds, label wrapping, node and edge attributes, the whole encoder |
| `DiagramCases` | `diagram_cases.dfy` | worked inputs of the encoder |
| `Extraction` | `extraction.dfy` | the service as an oracle, the fallback, extraction followed by drawing |
| `Naming` | `naming.dfy` | title, client code, client lookup, document identity |
| `Contents` | `contents.dfy` | one contents-page entry |

How errors are modelled:

- The encoder's Python exceptions become `Result` failures. A payload that is
  not a JSON object has no `.get`, so it gives `NoGetAttribute`. A missing
  `node['id']`, `edge['from']` or `edge['to']` gives `MissingId`,
  `MissingFrom` or `MissingTo`.
- The `IndexError` of `list(clients.values())[0]` on an empty client table
  becomes `NoClients`.

Two things the code does not check, and the model therefore does not either:

- The encoder does not check that an edge's endpoints name existing nodes
  (app.py:98, 102). Such an edge is declared unchanged
  (`DiagramCases.DanglingEdgePassesThrough`).
- `get_smart_flow_data` returns the parsed value unvalidated (app.py:66). A
  graph with no nodes, or a JSON value that is not an object, comes back as
  it is (`Extraction.ResponseReturnedUnchecked`).

## Model

| member | source | states |
|---|---|---|
| `PyStr.LowerChar` | app.py:85 | an upper-case letter becomes its own lower-case letter; lower-case letters and non-letters are kept |
| `PyStr.UpperChar` | app.py:199 | a lower-case letter becomes its own upper-case letter; upper-case letters and non-letters are kept |
| `PyStr.CaseRoundTrip` | app.py:85 | lower-casing an upper-case letter and upper-casing it again gives it back, and the same the other way round |
| `PyStr.LowerAbsorbs` | app.py:197-199 | lower-casing after either case mapping gives the same as lower-casing the original character |
| `PyStr.Lower` | app.py:85 | `str.lower` maps every character through the character rule and keeps the length |
| `PyStr.Upper` | app.py:199 | `str.upper` maps every character through the character rule and keeps the length |
| `PyStr.TitleStep` | app.py:197 | putting the mapped first character in front of the title-cased rest title-cases the whole string |
| `PyStr.TitleFrom` | app.py:197 | title-casing from a given state upper-cases a letter exactly when the character before it is uncased |
| `PyStr.Title` | app.py:197 | `str.title` upper-cases a letter after an uncased character (or at the start) and lower-cases every other letter |
| `PyStr.LowerAppend` | app.py:85 | lower-casing distributes over concatenation |
| `PyStr.LowerOfLowerCase` | app.py:85 | a string with no upper-case letter is its own lower-cased form |
| `PyStr.TitleKeepsLetters` | app.py:197 | title-casing changes case only: the lower-cased text is the same |
| `PyStr.TitleCapitalisesWords` | app.py:197 | in a title, a letter is upper case exactly when it starts a word |
| `PyStr.UpperKeepsLetters` | app.py:199 | upper-casing changes case only |
| `PyStr.TitleIdempotent` | app.py:197 | title-casing a title changes nothing |
| `PyStr.IndexOf` | app.py:83 | the first occurrence of a character, or the length when there is none; no earlier occurrence |
| `PyStr.LastIndexOf` | app.py:196 | the last occurrence of a character, or -1; no later occurrence |
| `PyStr.IndexOfFound` | app.py:83 | the first-occurrence position is inside the string exactly when the character occurs |
| `PyStr.ReplaceFirst` | app.py:83 | `replace(a, b, 1)`: the first `a` becomes `b`; every other position keeps its character |
| `PyStr.ReplaceFirstMultiset` | app.py:83 | exactly one `a` is traded for one `b`, never more |
| `PyStr.ReplaceFirstSplit` | app.py:83 | in `p + a + q` with no `a` in `p`, only that `a` changes |
| `PyStr.ReplaceAll` | app.py:197 | `replace(a, b)`: every `a` becomes `b`, nothing else changes |
| `PyStr.TrimLeft` | app.py:95 | left strip drops a whitespace-only prefix and leaves no leading whitespace |
| `PyStr.TrimRight` | app.py:95 | right strip drops a whitespace-only suffix and leaves no trailing whitespace |
| `PyStr.TrimLeftPadded` | app.py:95 | a left strip removes exactly a whitespace prefix that is followed by a non-whitespace character or by nothing |
| `PyStr.TrimRightPadded` | app.py:95 | a right strip removes exactly a whitespace suffix that follows a non-whitespace character or nothing |
| `PyStr.StripIsPaddedCore` | app.py:95 | `strip()` leaves the string minus a whitespace prefix and suffix, with no whitespace at either end |
| `PyStr.StripPadded` | app.py:367 | stripping a core that neither starts nor ends with whitespace, with any whitespace in front of it and any behind it, gives that core |
| `PyStr.StripEmptyIff` | app.py:95-97 | a string strips to empty (is falsy after `strip`) exactly when it is all whitespace |
| `PyStr.Repeat` | app.py:369 | `c * n` is `n` copies of `c`, and empty when `n` is zero or negative |
| `Diagram.KindOf` | app.py:85-93 | the kind is `Start`, `End` or `Decision` exactly when the lower-cased type is `start`, `end` or `decision`; anything else is `Other` |
| `Diagram.KindCaseInsensitive` | app.py:85-89 | types equal up to case select the same kind |
| `Diagram.KindOfLowered` | app.py:85 | lower-casing the type first does not change the kind |
| `Diagram.WrapLabel` | app.py:81-83 | a label over 15 characters with a space gets a line break at its first space, and only there; any other label is unchanged |
| `Diagram.WrapInsertsOneBreak` | app.py:82-83 | wrapping trades exactly one space for one line break, at the first space, and keeps every later space |
| `Diagram.WrapAtFirstSpace` | app.py:82-83 | a long label `p + " " + q` whose first word `p` has no space becomes `p + "\n" + q` |
| `Diagram.KindAttrs` | app.py:86-93 | start/end nodes get exactly shape capsule and the four emphasis attributes; decision nodes exactly shape diamond, the emphasis attributes, width 1.4 and height 0.9; other kinds add no attributes |
| `Diagram.EncodeNode` | app.py:80-93 | one node declaration with the node's id and its wrapped label; a start/end node sets exactly the five capsule keywords, a decision node exactly the seven diamond keywords, any other node none |
| `Diagram.UnrecognisedKindDrawsAsAction` | app.py:92-93 | any unrecognised type draws exactly like an `action` node, with the node defaults |
| `Diagram.EffectiveNodeStyle` | app.py:76-93 | with the defaults applied, every node uses Arial; terminal nodes are blue capsules of the default size 2.0 x 0.6; decision nodes blue 1.4 x 0.9 diamonds |
| `Diagram.EncodeEdge` | app.py:94-102 | a non-blank label is drawn at the tail, padded by one space on each side, at -45 degrees and distance 2.5 in #2c3e50 Arial 9; these six keywords and no others; a blank one gives only pen width 1.0; no `label` attribute is ever set |
| `Diagram.EdgeLabelPadding` | app.py:95 | labels that strip to the same text draw the same edge |
| `Diagram.BlankEdgeLabel` | app.py:95-102 | a whitespace-only label draws as a plain connector of pen width 1.0 |
| `Diagram.FirstFault` | app.py:94-102 | the first edge that raises, if any; every edge before it has both endpoints |
| `Wrappers.Traverse` | app.py:80-102 | running a raising step over a list in order succeeds exactly when every step does, with each step's result in place; otherwise it raises the first failing step's error |
| `Diagram.EncodeNodes` | app.py:80-93 | node encoding succeeds exactly when every node has an id, yielding one declaration per node in order; otherwise `KeyError('id')` |
| `Diagram.EdgeLoopSucceeds` | app.py:94-102 | the edge loop completes exactly when no edge lacks an endpoint |
| `Diagram.EdgeLoopFailure` | app.py:94-102 | when the edge loop raises, it raises the error of the first edge lacking an endpoint |
| `Diagram.EdgeLoopInOrder` | app.py:94-102 | a completed edge loop declares each edge, in order, by the one-edge rule |
| `Diagram.EncodeEdges` | app.py:94-102 | edge encoding succeeds exactly when every edge has both endpoints, yielding one declaration per edge in order; otherwise the first failing edge's `KeyError`, with `from` checked before `to` |
| `Diagram.GenerateFlowchart` | app.py:71-105 | a non-object payload raises `AttributeError`; a graph draws exactly when every node has an id and every edge both endpoints; a missing node id raises `KeyError('id')` before any edge is looked at; otherwise the first incomplete edge raises its own `KeyError('from')` or `KeyError('to')`; the graph-wide attributes are the fixed ones; nodes are declared before edges, each in input order; the image is `output_path + ".png"` |
| `DiagramCases.WrapLongLabelExample` | app.py:82-83 | `"Retrieve Customer Invoice"` is drawn as `"Retrieve\nCustomer Invoice"` |
| `DiagramCases.WrapUnchangedExamples` | app.py:82-83 | a short label, and a long label with no space, are drawn as given |
| `DiagramCases.KindExamples` | app.py:85-90 | `DeCiSiOn` is a decision and `END` an end |
| `DiagramCases.DecisionExample` | app.py:85 | `DeCiSiOn` lower-cases to `decision` |
| `DiagramCases.OtherKindExamples` | app.py:85-93 | `foo`, the empty default and `action` are ordinary steps |
| `DiagramCases.DanglingEdgePassesThrough` | app.py:94-105 | an edge to a node id that does not exist is declared as given, with no error |
| `DiagramCases.BareEdgeComplete` | app.py:94-102 | a graph of one edge with both endpoints and no nodes raises nothing |
| `DiagramCases.BareEdgeDecl` | app.py:95-102 | an edge without a label is declared with pen width 1.0 only |
| `Extraction.GetSmartFlowData` | app.py:53-68 | the extractor never fails: with no client or a failed call it returns the fallback graph, otherwise exactly the value the service returned |
| `Extraction.AbsentClientGivesFallback` | app.py:60-68 | with no configured client, the fallback graph is returned for any narrative |
| `Extraction.ResponseReturnedUnchecked` | app.py:66 | a parsed response comes back unvalidated, including a graph with no nodes |
| `Extraction.FallbackNodeDecl` | app.py:80-93 | the fallback node is declared as node `1` labelled `Start` with no keywords of its own |
| `Extraction.FallbackComplete` | app.py:68-105 | the fallback graph is one node with an id and no edges, so it raises nothing; the default image path is `flowchart.png` |
| `Extraction.FallbackDrawsOneDefaultNode` | app.py:68-105 | the fallback graph draws as one node `1` labelled `Start` with no edges, with image path `flowchart.png`; that node's effective style is exactly the node defaults |
| `Extraction.ExtractThenDraw` | app.py:53-105 | after a service failure the drawing is the one-node fallback drawing; otherwise it is whatever the service's graph encodes to |
| `Naming.Stem` | app.py:196 | `rsplit('.', 1)[0]` is the whole name when it has no dot, and otherwise the prefix before the last dot |
| `Naming.Spaced` | app.py:197 | every underscore and hyphen becomes a space, so the result has neither, and every other character is kept |
| `Naming.DocumentTitle` | app.py:196-197 | the title has the stem's length, no `_` or `-`, the same letters as the spaced stem, and an upper-case letter exactly at each word start |
| `Naming.FirstWord` | app.py:198 | `split(' ')[0]` is a space-free prefix of the title, ending at the first space or at the end |
| `Naming.ClientCode` | app.py:198-199 | the client code has no space and no lower-case letter, and is the title's first word up to case |
| `Naming.Find` | app.py:200 | lookup finds nothing exactly when no row has the code; what it finds is a row with that code |
| `Naming.ClientConfig` | app.py:200-202 | the configuration fails only for an empty table; a known code selects a row with that code; an unknown code falls back to the first row |
| `Naming.KnownCodeSelectsItsRow` | app.py:200-201 | with unique codes, a known code selects its own row |
| `Naming.DocumentIdentity` | app.py:195-206 | naming fails only when there are no clients; typed-in details use the fixed title, client `KMG` and the first client; an upload uses the file's title, its first word, and the configuration for that word upper-cased |
| `Contents.Leader` | app.py:369 | the dot leader fills an item out to 95 characters, and is empty once the item is that long |
| `Contents.FormatEntry` | app.py:364-370 | an entry is indented exactly for a `1.1`/`1.2` sub-section; it is the item, a space, dots, a space and the page; the page starts at column 97 for items of up to 95 characters; a longer item is followed by two spaces |
| `Contents.PageColumnAligned` | app.py:369-370 | every item of up to 95 characters puts a space at column 96 and its page number at column 97 |
| `Contents.IndentedItem` | app.py:360-367 | an item starting `1.1` or `1.2` after any leading whitespace and followed by any trailing whitespace, like the release-history and contact entries, is indented |
| `Contents.NumberedItem` | app.py:360-367 | an item starting with a section digit and a space, like every top-level entry, is not indented |

## Left out

- The Streamlit interface, the file upload and the text extraction from the uploaded Word file are left out. They are user interface and I/O.
- The generated prose sections (`generate_ai_content`) are left out. They are free text from the service, outside this core.
- The prompt text and the Groq completion call are left out. Together with `json.loads` they form the oracle `Extraction.Client.ask`. Only the outcome matters to the code: a parsed value, or one of the failures.
- `dot.render` is left out: laying out and rasterising the PNG is done by the Graphviz library. `Diagram.GenerateFlowchart` stops at the declarations and the image path it returns, so a render failure is not modelled.
- Loading `Config.xlsx` is left out. The client sheet arrives as `Naming.ClientTable`, a sequence of code and row pairs in sheet order.
- The Word document itself is left out: headers, tables, fonts, margins, page numbering and the contacts table. It is document assembly with no logic beyond the naming and contents rules modelled here.
- The contents page's own list of eight entries is not evaluated literally. `Contents.IndentedItem` and `Contents.NumberedItem` state the indent rule for the two shapes those entries have.
- `PyStr.Lower`, `PyStr.Upper` and `PyStr.Title` map ASCII letters only. Python also case-maps other letters. For node-kind dispatch this is exact, because no non-ASCII character lower-cases to the letters of `start`, `end` or `decision`. For titles and client codes of non-ASCII file names it is not.
- `PyStr.LowerChar`: a non-ASCII letter is kept as it is, where Python lower-cases it; a mapping that changes length (`'İ'.lower()` has two code points) is not modelled.
- `PyStr.UpperChar`: a non-ASCII letter is kept as it is, where Python upper-cases it; a mapping that changes length (`'ß'.upper() == 'SS'`) is not modelled.
- `PyStr.TitleFrom`: non-ASCII letters are kept as they are and count as uncased; length-changing title-case mappings (`'ßa'.title() == 'Ssa'`) are not modelled, so the length-preserving contract holds only for this ASCII model.
- `Naming.DocumentTitle`: inherits the ASCII-only `title`; non-ASCII letters in a file name are kept as they are, and a length-changing mapping such as `ß` is not modelled, so `|t| == |Stem|` holds only for the model.
- `Naming.ClientCode`: inherits the ASCII-only `upper`; non-ASCII letters are kept as they are, and a length-changing mapping such as `'ß'.upper() == 'SS'` is not modelled, so "no lower-case letter" is only about ASCII letters.
- JSON values of the wrong type inside the graph are left out: a non-list `nodes`, a non-object node, a non-string `label`. Such a value makes the Python code fail in other ways. The model types every field as an optional string or list.
- Node ids and edge endpoints are typed as strings. A non-string id makes the Python code fail inside the Graphviz library, which the model does not cover.
- The 0.25-inch indent is modelled as a boolean, and paragraph spacing and fonts are left out.

