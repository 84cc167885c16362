/** The text forms of an issue and of the totals (script/coverity_parser.py,
    lines 136-139 and 224-250). */
module Render {
  import opened Wrappers
  import opened Strings
  import opened Misra
  import opened Records
  import opened Scan

  // ------------------------------------------------------- the category tag

  /** `_cls_string`: the category in parentheses after a space, or nothing
      for an unknown one. */
  function ClsString(c: Classification): (s: string)
    ensures s == "" <==> c == Unknown
    ensures c != Unknown ==> Between(s, " (", ")") == Some(c.Name())
  {
    if c != Unknown then
      BetweenOfWrapped(" (", c.Name(), ")");
      " (" + c.Name() + ")"
    else ""
  }

  /** The tag tells the categories apart. */
  lemma ClsStringInjective(a: Classification, b: Classification)
    ensures ClsString(a) == ClsString(b) <==> a == b
  {
    if ClsString(a) == ClsString(b) && a != Unknown && b != Unknown {
      NameInjective(a, b);
    }
  }

  // -------------------------------------------------------- the text line

  /** `format_issue`: `file:line:[checker tag]<cid> description`. */
  function FormatIssue(i: Issue): string
  {
    i.file + ":" + NatToString(i.line) + ":" + IssueTag(i)
  }

  /** What follows the line number: `[checker tag]<cid> description`. */
  function IssueTag(i: Issue): string
  {
    "[" + (i.checker + ClsString(i.classification)) + "]" + CidAndDescription(i)
  }

  /** `<cid> description`. */
  function CidAndDescription(i: Issue): string
  {
    "<" + CidText(i.cid) + "> " + i.description
  }

  /** For a file name without a colon, the first two colon-separated fields
      of the line are the file and the decimal line number. */
  lemma FormatIssueFields(i: Issue)
    requires ':' !in i.file
    ensures var parts := Split(FormatIssue(i), ':');
      && |parts| >= 3
      && parts[0] == i.file
      && AllDigits(parts[1]) && DecimalValue(parts[1]) == i.line
  {
    var n := NatToString(i.line);
    var rest := IssueTag(i);
    JoinFields(i.file, ':', n, rest);
    DigitsExclude(n, ':');
    SplitFirst(i.file, ':', n + [':'] + rest);
    SplitFirst(n, ':', rest);
    DecimalValueOfNatToString(i.line);
  }

  /** The fields a reader gets back from a printed issue line: the file, the
      line number, the checker with its category tag, the CID text and the
      description. */
  datatype IssueLine = IssueLine(file: string, line: nat, tagged: string, cid: string, description: string)

  /** Read `[tagged]<cid> description` back: the tag ends at the first `]`. */
  function ParseIssueTag(s: string): Option<(string, string, string)>
  {
    if s == [] || s[0] != '[' then None
    else match Cut(s[1..], ']')
      case None => None
      case Some((tagged, r)) =>
        match ParseCidDescription(r)
        case None => None
        case Some((cid, d)) => Some((tagged, cid, d))
  }

  /** Read `<cid> description` back: the CID ends at the first `>`. */
  function ParseCidDescription(r: string): Option<(string, string)>
  {
    if r == [] || r[0] != '<' then None
    else match Cut(r[1..], '>')
      case None => None
      case Some((cid, d)) => if d == [] || d[0] != ' ' then None else Some((cid, d[1..]))
  }

  /** Read a printed issue line back: the file ends at the first colon, the
      line number at the second. */
  function ParseIssueLine(s: string): Option<IssueLine>
  {
    match Cut(s, ':')
    case None => None
    case Some((file, r)) =>
      match Cut(r, ':')
      case None => None
      case Some((num, t)) =>
        if num == [] || !AllDigits(num) then None
        else match ParseIssueTag(t)
          case None => None
          case Some((tagged, cid, d)) => Some(IssueLine(file, DecimalValue(num), tagged, cid, d))
  }

  /** The CID part reads back when the CID holds no `>`. */
  lemma ParseCidDescriptionOf(cid: string, d: string)
    requires '>' !in cid
    ensures ParseCidDescription("<" + cid + "> " + d) == Some((cid, d))
  {
    var r := "<" + cid + "> " + d;
    assert r[1..] == cid + ['>'] + (" " + d);
    CutAt(cid, '>', " " + d);
    assert (" " + d)[1..] == d;
  }

  /** The tag reads back when the checker part holds no `]`. */
  lemma ParseIssueTagOf(tagged: string, r: string, cid: string, d: string)
    requires ']' !in tagged && ParseCidDescription(r) == Some((cid, d))
    ensures ParseIssueTag("[" + tagged + "]" + r) == Some((tagged, cid, d))
  {
    var s := "[" + tagged + "]" + r;
    assert s[1..] == tagged + [']'] + r;
    CutAt(tagged, ']', r);
  }

  /** A colon-free file and a digit string, each followed by a colon, read
      back before the tag. */
  lemma ParseIssueLineOf(file: string, num: string, t: string, tagged: string, cid: string, d: string)
    requires ':' !in file && num != [] && AllDigits(num)
    requires ParseIssueTag(t) == Some((tagged, cid, d))
    ensures ParseIssueLine(file + [':'] + (num + [':'] + t)) == Some(IssueLine(file, DecimalValue(num), tagged, cid, d))
  {
    DigitsExclude(num, ':');
    CutAt(file, ':', num + [':'] + t);
    CutAt(num, ':', t);
  }

  /** The printed line of an issue whose file holds no colon and whose
      checker holds no `]` gives back every field: file, line, checker with
      its tag, CID and description. */
  lemma FormatIssueRoundTrip(i: Issue)
    requires ':' !in i.file && ']' !in i.checker
    ensures ParseIssueLine(FormatIssue(i)) ==
      Some(IssueLine(i.file, i.line, i.checker + ClsString(i.classification), CidText(i.cid), i.description))
  {
    var n := NatToString(i.line);
    var tagged := i.checker + ClsString(i.classification);
    var rest := CidAndDescription(i);
    assert ']' !in ClsString(i.classification);
    CidTextExcludes(i.cid, '>');
    ParseCidDescriptionOf(CidText(i.cid), i.description);
    ParseIssueTagOf(tagged, rest, CidText(i.cid), i.description);
    JoinFields(i.file, ':', n, IssueTag(i));
    ParseIssueLineOf(i.file, n, IssueTag(i), tagged, CidText(i.cid), i.description);
    DecimalValueOfNatToString(i.line);
  }

  /** The CID text holds nothing but digits or the letters of `None`. */
  lemma CidTextExcludes(cid: Option<nat>, c: char)
    requires !IsDigit(c) && c !in "None"
    ensures c !in CidText(cid)
  {
    if cid.Some? {
      DigitsExclude(CidText(cid), c);
    }
  }

  /** The CID text never holds a newline. */
  lemma CidTextOneLine(cid: Option<nat>)
    ensures '\n' !in CidText(cid)
  {
    if cid.Some? {
      DigitsExclude(CidText(cid), '\n');
    }
  }

  /** An issue whose strings hold no newline prints as exactly one line. */
  lemma FormatIssueOneLine(i: Issue)
    requires '\n' !in i.file && '\n' !in i.checker && '\n' !in i.description
    ensures '\n' !in FormatIssue(i)
  {
    DigitsExclude(NatToString(i.line), '\n');
    CidTextOneLine(i.cid);
  }

  // -------------------------------------------------------- the HTML row

  /** The opening of a table cell of class `cls`, indented by two spaces. */
  function CellOpen(cls: string): string
  {
    "  <td class=\"" + cls + "\">"
  }

  function Cell(cls: string, text: string): string
  {
    CellOpen(cls) + text + "</td>"
  }

  /** The seven lines of `format_issue_html`. */
  function HtmlLines(i: Issue): seq<string>
  {
    [ "<tr class=\"cov-" + i.classification.Name() + "\">",
      Cell("cov-file", i.file),
      Cell("cov-line", NatToString(i.line)),
      Cell("cov-checker", i.checker + ClsString(i.classification)),
      Cell("cov-cid", CidText(i.cid)),
      Cell("cov-description", i.description),
      "</tr>" ]
  }

  /** `format_issue_html`: a table row with one cell per field. */
  function FormatIssueHtml(i: Issue): string
  {
    JoinLines(HtmlLines(i))
  }

  /** For an issue whose strings hold no newline, each line of the row gives
      back its field: the category in the row class, then file, line,
      checker with its tag, CID and description in the cells. */
  lemma FormatIssueHtmlCells(i: Issue)
    requires '\n' !in i.file && '\n' !in i.checker && '\n' !in i.description
    ensures var ls := Split(FormatIssueHtml(i), '\n');
      && |ls| == 7
      && Between(ls[0], "<tr class=\"cov-", "\">") == Some(i.classification.Name())
      && Between(ls[1], CellOpen("cov-file"), "</td>") == Some(i.file)
      && Between(ls[2], CellOpen("cov-line"), "</td>") == Some(NatToString(i.line))
      && Between(ls[3], CellOpen("cov-checker"), "</td>") == Some(i.checker + ClsString(i.classification))
      && Between(ls[4], CellOpen("cov-cid"), "</td>") == Some(CidText(i.cid))
      && Between(ls[5], CellOpen("cov-description"), "</td>") == Some(i.description)
      && ls[6] == "</tr>"
  {
    HtmlLinesOneLine(i);
    SplitJoinLines(HtmlLines(i));
    BetweenOfWrapped("<tr class=\"cov-", i.classification.Name(), "\">");
    BetweenOfWrapped(CellOpen("cov-file"), i.file, "</td>");
    BetweenOfWrapped(CellOpen("cov-line"), NatToString(i.line), "</td>");
    BetweenOfWrapped(CellOpen("cov-checker"), i.checker + ClsString(i.classification), "</td>");
    BetweenOfWrapped(CellOpen("cov-cid"), CidText(i.cid), "</td>");
    BetweenOfWrapped(CellOpen("cov-description"), i.description, "</td>");
  }

  /** No line of the row holds a newline when no string of the issue does. */
  lemma HtmlLinesOneLine(i: Issue)
    requires '\n' !in i.file && '\n' !in i.checker && '\n' !in i.description
    ensures forall k :: 0 <= k < |HtmlLines(i)| ==> '\n' !in HtmlLines(i)[k]
  {
    var ls := HtmlLines(i);
    DigitsExclude(NatToString(i.line), '\n');
    CidTextOneLine(i.cid);
    assert '\n' !in i.checker + ClsString(i.classification);
    CellOneLine("cov-file", i.file);
    CellOneLine("cov-line", NatToString(i.line));
    CellOneLine("cov-checker", i.checker + ClsString(i.classification));
    CellOneLine("cov-cid", CidText(i.cid));
    CellOneLine("cov-description", i.description);
    assert '\n' !in ls[0];
  }

  lemma CellOneLine(cls: string, text: string)
    requires '\n' !in cls && '\n' !in text
    ensures '\n' !in Cell(cls, text)
  {
  }

  // -------------------------------------------------------- the totals file

  /** The four counts `TOTALS_FORMAT` prints. */
  datatype TotalsRecord = TotalsRecord(total: nat, mandatory: nat, required: nat, advisory: nat)

  const TotalLabel := "TotalDefects:     "
  const MandatoryLabel := "MandatoryDefects: "
  const RequiredLabel := "RequiredDefects:  "
  const AdvisoryLabel := "AdvisoryDefects:  "

  /** The lines of `TOTALS_FORMAT.format_map(totals)`; an absent key prints 0,
      as a defaultdict gives. The count of the unknown category is not printed. */
  function TotalsLines(t: Totals): seq<string>
  {
    [ TotalLabel + NatToString(Count(t, "total")),
      MandatoryLabel + NatToString(Count(t, "mandatory")),
      RequiredLabel + NatToString(Count(t, "required")),
      AdvisoryLabel + NatToString(Count(t, "advisory")) ]
  }

  /** The totals text: the template is stripped, so no newline ends it. */
  function TotalsText(t: Totals): string
  {
    JoinLines(TotalsLines(t))
  }

  /** The number after `prefix` on a totals line. */
  function ParseTotalsLine(line: string, prefix: string): Option<nat>
  {
    if |prefix| < |line| && line[..|prefix|] == prefix && AllDigits(line[|prefix|..]) then
      Some(DecimalValue(line[|prefix|..]))
    else None
  }

  /** Read a totals text back. */
  function ParseTotals(s: string): Option<TotalsRecord>
  {
    var ls := Split(s, '\n');
    if |ls| != 4 then None
    else match (ParseTotalsLine(ls[0], TotalLabel), ParseTotalsLine(ls[1], MandatoryLabel),
                ParseTotalsLine(ls[2], RequiredLabel), ParseTotalsLine(ls[3], AdvisoryLabel))
      case (Some(a), Some(b), Some(c), Some(d)) => Some(TotalsRecord(a, b, c, d))
      case _ => None
  }

  lemma ParseTotalsLineOf(prefix: string, n: nat)
    ensures ParseTotalsLine(prefix + NatToString(n), prefix) == Some(n)
  {
    var line := prefix + NatToString(n);
    assert line[..|prefix|] == prefix && line[|prefix|..] == NatToString(n);
    DecimalValueOfNatToString(n);
  }

  /** No line of the totals text holds a newline. */
  lemma TotalsLinesOneLine(t: Totals)
    ensures forall k :: 0 <= k < |TotalsLines(t)| ==> '\n' !in TotalsLines(t)[k]
  {
    DigitsExclude(NatToString(Count(t, "total")), '\n');
    DigitsExclude(NatToString(Count(t, "mandatory")), '\n');
    DigitsExclude(NatToString(Count(t, "required")), '\n');
    DigitsExclude(NatToString(Count(t, "advisory")), '\n');
  }

  /** The totals text gives back the four printed counts, absent keys as 0. */
  lemma TotalsTextRoundTrip(t: Totals)
    ensures ParseTotals(TotalsText(t)) ==
      Some(TotalsRecord(Count(t, "total"), Count(t, "mandatory"), Count(t, "required"), Count(t, "advisory")))
  {
    TotalsTextLines(t);
    ParseTotalsLineOf(TotalLabel, Count(t, "total"));
    ParseTotalsLineOf(MandatoryLabel, Count(t, "mandatory"));
    ParseTotalsLineOf(RequiredLabel, Count(t, "required"));
    ParseTotalsLineOf(AdvisoryLabel, Count(t, "advisory"));
  }

  /** The totals text splits back into its lines. */
  lemma TotalsTextLines(t: Totals)
    ensures Split(TotalsText(t), '\n') == TotalsLines(t)
  {
    TotalsLinesOneLine(t);
    SplitJoinLines(TotalsLines(t));
  }

  lemma TotalsLinesOfNothing()
    ensures TotalsLines(map[]) ==
      ["TotalDefects:     0", "MandatoryDefects: 0", "RequiredDefects:  0", "AdvisoryDefects:  0"]
  {
    var zero: Totals := map[];
    var ls := TotalsLines(zero);
    assert NatToString(0) == "0";
    assert Count(zero, "total") == 0 && Count(zero, "mandatory") == 0;
    assert Count(zero, "required") == 0 && Count(zero, "advisory") == 0;
    assert ls[0] == "TotalDefects:     0" && ls[1] == "MandatoryDefects: 0";
    assert ls[2] == "RequiredDefects:  0" && ls[3] == "AdvisoryDefects:  0";
  }

  /** Nothing counted prints four zeros, one per line. */
  lemma TotalsTextOfNothing()
    ensures Split(TotalsText(map[]), '\n') ==
      ["TotalDefects:     0", "MandatoryDefects: 0", "RequiredDefects:  0", "AdvisoryDefects:  0"]
  {
    TotalsTextLines(map[]);
    TotalsLinesOfNothing();
  }
}
