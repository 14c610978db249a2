/** The table-of-contents page: each entry is written as the item, a dot
    leader, and the page number; sub-sections are indented. */
module Contents {
  import opened PyStr

  /** The dot leader fills an item out to this many characters. */
  const LeaderWidth: nat := 95

  /** One contents line: its text, and whether it carries the 0.25-inch
      left indent. */
  datatype TocLine = TocLine(text: string, indented: bool)

  /** `"." * (95 - len(item))`: enough dots to reach the leader width,
      and none once the item is that long already. */
  function Leader(item: string): (dots: string)
    ensures |item| <= LeaderWidth ==> |item| + |dots| == LeaderWidth
    ensures |item| >= LeaderWidth ==> dots == []
    ensures forall k :: 0 <= k < |dots| ==> dots[k] == '.'
  {
    Repeat('.', LeaderWidth - |item|)
  }

  /** The sub-section rule: the stripped item starts with `1.1` or `1.2`. */
  predicate IsSubsection(item: string) {
    StartsWith(Strip(item), "1.1") || StartsWith(Strip(item), "1.2")
  }

  /** One entry of the contents page: `f"{item} {dots} {pg}"`. The item
      comes first, unchanged; for an item of at most 95 characters the page
      number starts at column 97 whatever the item's length; a longer item
      is followed by two spaces and the page number. */
  function FormatEntry(item: string, page: string): (l: TocLine)
    ensures l.indented <==> IsSubsection(item)
    ensures |l.text| >= |item| + |page| + 2
    ensures StartsWith(l.text, item) && l.text[|item|] == ' '
    ensures |l.text| >= |page| + 2 && l.text[|l.text| - |page|..] == page
    ensures l.text[|l.text| - |page| - 1] == ' '
    ensures forall k :: |item| < k < |l.text| - |page| - 1 ==> l.text[k] == '.'
    ensures |item| <= LeaderWidth ==> |l.text| == LeaderWidth + 2 + |page|
    ensures |item| >= LeaderWidth ==> l.text == item + "  " + page
  {
    var dots := Leader(item);
    var text := item + " " + dots + " " + page;
    assert text[..|item|] == item;
    assert text[|text| - |page|..] == page;
    assert forall k :: |item| < k < |text| - |page| - 1 ==> text[k] == dots[k - |item| - 1];
    assert |item| >= LeaderWidth ==> text == item + "  " + page;
    TocLine(text, IsSubsection(item))
  }

  /** Every item of at most 95 characters puts its page number at the
      same column, 97. */
  lemma PageColumnAligned(item: string, page: string)
    requires |item| <= LeaderWidth
    ensures FormatEntry(item, page).text[LeaderWidth + 2..] == page
    ensures FormatEntry(item, page).text[LeaderWidth + 1] == ' '
  {
  }

  /** An item indented with whitespace whose text starts with `1.1` or
      `1.2`, as the release-history and contact-information entries are,
      gets the indent, whatever whitespace trails it. */
  lemma IndentedItem(pad: string, core: string, tail: string, page: string)
    requires forall k :: 0 <= k < |pad| ==> IsSpace(pad[k])
    requires forall k :: 0 <= k < |tail| ==> IsSpace(tail[k])
    requires |core| >= 3 && !IsSpace(core[|core| - 1])
    requires core[..3] == "1.1" || core[..3] == "1.2"
    ensures FormatEntry(pad + core + tail, page).indented
  {
    StripPadded(pad, core, tail);
  }

  /** An item that starts with a section digit and a space, as every
      top-level entry does, gets no indent. */
  lemma NumberedItem(item: string, page: string)
    requires |item| >= 3 && '0' <= item[0] <= '9' && item[1] == ' '
    requires !IsSpace(item[|item| - 1])
    ensures !FormatEntry(item, page).indented
  {
    assert item == [] + item + [];
    StripPadded([], item, []);
    assert item[..3][1] == ' ';
    assert !StartsWith(item, "1.1") && !StartsWith(item, "1.2");
  }
}
