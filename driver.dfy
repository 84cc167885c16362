/** The command line run (script/coverity_parser.py, lines 252-280): the
    issues of a report sorted by key and printed one per line, the totals
    text, and the exit status. Reading the report, `--output` and the file
    writes are the caller's; the model returns what would be printed and
    written. */
module Driver {
  import opened Wrappers
  import opened Exceptions
  import opened Strings
  import opened Misra
  import opened Records
  import opened Scan
  import opened Sorting
  import opened Render

  /** How a run ends: with its printed lines, the issues kept for `--output`
      and the totals text, or with an exception nothing catches. */
  datatype Outcome =
    | Completed(lines: seq<string>, issues: seq<Issue>, totalsText: string)
    | Crashed(error: Exception)

  /** Line 280, and Python's status 1 for an uncaught exception. */
  function ExitStatus(o: Outcome): (code: int)
    ensures code == 0 || code == 1
    ensures o.Completed? ==> (code == 1 <==> o.issues != [])
    ensures o.Crashed? ==> code == 1
  {
    match o
    case Crashed(_) => 1
    case Completed(_, issues, _) => if |issues| > 0 then 1 else 0
  }

  /** One printed line per issue, in order. */
  function FormatAll(issues: seq<Issue>): (lines: seq<string>)
    ensures |lines| == |issues|
    ensures forall k :: 0 <= k < |issues| ==> lines[k] == FormatIssue(issues[k])
  {
    seq(|issues|, k requires 0 <= k < |issues| => FormatIssue(issues[k]))
  }

  /** The end of a run whose iteration yielded `found` and left `totals`. */
  function Finish(found: seq<Issue>, totals: Totals): Outcome
  {
    var sorted := SortBy(found, MakeKey);
    Completed(FormatAll(sorted), sorted, TotalsText(totals))
  }

  /** What a run produces. `sorted` takes every issue from the generator
      before the first line is printed, so an exception prints nothing. */
  function RunSpec(showAll: bool, report: Report): Outcome
  {
    match ReportIssues(showAll, report)
    case Err(e) => Crashed(e)
    case Ok(found) => Finish(found, ReportTotals(map[], report))
  }

  /** The loop of lines 267-269: print each sorted issue and keep it. */
  method PrintSorted(sorted: seq<Issue>) returns (lines: seq<string>, issues: seq<Issue>)
    ensures lines == FormatAll(sorted) && issues == sorted
  {
    lines, issues := [], [];
    for k := 0 to |sorted|
      invariant issues == sorted[..k]
      invariant lines == FormatAll(sorted[..k])
    {
      lines := lines + [FormatIssue(sorted[k])];
      issues := issues + [sorted[k]];
      assert sorted[..k + 1] == sorted[..k] + [sorted[k]];
    }
    assert sorted[..|sorted|] == sorted;
  }

  /** Lines 265-278 on a parsed report. */
  method Run(showAll: bool, report: Report) returns (o: Outcome)
    ensures o == RunSpec(showAll, report)
  {
    var scan := new Issues(showAll);
    var found := scan.Gen(report);
    if found.Err? {
      return Crashed(found.error);
    }
    var lines, issues := PrintSorted(SortBy(found.value, MakeKey));
    o := Completed(lines, issues, TotalsText(scan.totals));
  }

  // ------------------------------------------------------------ properties

  /** The status is 1 exactly when the report fails to parse or yields an issue. */
  lemma ExitStatusIff(showAll: bool, report: Report)
    ensures ExitStatus(RunSpec(showAll, report)) == 1 <==>
      ReportIssues(showAll, report).Err? || ReportIssues(showAll, report).value != []
  {
    var r := ReportIssues(showAll, report);
    if r.Ok? {
      assert |SortBy(r.value, MakeKey)| == |r.value|;
    }
  }

  /** The issues are the found ones, sorted by key, in a stable order, and
      the printed lines are their text forms. */
  lemma RunIsStableSort(showAll: bool, report: Report, k: string)
    requires ReportIssues(showAll, report).Ok?
    ensures var o, found := RunSpec(showAll, report), ReportIssues(showAll, report).value;
      && o.Completed?
      && SortedBy(o.issues, MakeKey)
      && multiset(o.issues) == multiset(found)
      && WithKey(o.issues, MakeKey, k) == WithKey(found, MakeKey, k)
      && |o.lines| == |o.issues|
      && (forall j :: 0 <= j < |o.lines| ==> o.lines[j] == FormatIssue(o.issues[j]))
  {
    var found := ReportIssues(showAll, report).value;
    SortBySorted(found, MakeKey);
    SortByStable(found, MakeKey, k);
  }

  /** No two keys are each below the other. */
  lemma LexLeNotGreater(a: string, b: string)
    ensures LexLe(a, b) ==> !LexLess(b, a)
  {
    LexLessIrreflexive(a);
    if LexLess(a, b) && LexLess(b, a) {
      LexLessTransitive(a, b, a);
    }
  }

  /** Within one file, the printed issues go by increasing line (lines below 100000). */
  lemma RunOrdersByLine(showAll: bool, report: Report, j: nat, k: nat)
    requires ReportIssues(showAll, report).Ok?
    requires var o := RunSpec(showAll, report);
      o.Completed? && j < k < |o.issues| && o.issues[j].file == o.issues[k].file
        && o.issues[j].line < 100000 && o.issues[k].line < 100000
    ensures var o := RunSpec(showAll, report); o.issues[j].line <= o.issues[k].line
  {
    var o := RunSpec(showAll, report);
    var a, b := o.issues[j], o.issues[k];
    SortBySorted(ReportIssues(showAll, report).value, MakeKey);
    assert LexLe(MakeKey(a), MakeKey(b));
    if b.line < a.line {
      KeyOrderFollowsLine(b, a);
      LexLeNotGreater(MakeKey(a), MakeKey(b));
    }
  }

  /** A format 1-6 report completes only when every group is filtered out,
      and then prints nothing, writes zero totals and exits with 0. Otherwise
      the run fails with the error of the first group the filter cannot
      read, or with the UnboundLocalError of the first group it keeps. */
  lemma V1Run(showAll: bool, report: Report, groups: seq<GroupV1>)
    requires report.formatVersion.GetOr(0) < 7 && report.issueInfo == Some(groups)
    ensures RunSpec(showAll, report).Completed? <==>
      forall k :: 0 <= k < |groups| ==> FilterGroupsV1(showAll, groups[k]) == Ok(false)
    ensures RunSpec(showAll, report).Completed? ==>
      && RunSpec(showAll, report).lines == []
      && ExitStatus(RunSpec(showAll, report)) == 0
      && Split(RunSpec(showAll, report).totalsText, '\n') ==
         ["TotalDefects:     0", "MandatoryDefects: 0", "RequiredDefects:  0", "AdvisoryDefects:  0"]
    ensures RunSpec(showAll, report).Crashed? ==>
      || RunSpec(showAll, report).error == UnboundLocalError("occurrence")
      || exists k :: 0 <= k < |groups| && FilterGroupsV1(showAll, groups[k]) == Err(RunSpec(showAll, report).error)
  {
    GenDispatch(showAll, report);
    assert ReportIssues(showAll, report) == IterV1(showAll, groups, 0);
    IterV1Outcome(showAll, groups, 0);
    var r := IterV1(showAll, groups, 0);
    if r.Ok? {
      FinishNothing();
    } else if r.error != UnboundLocalError("occurrence") {
      V1FirstFailure(showAll, groups, 0);
    }
  }

  /** A run that finds nothing prints nothing, exits with 0 and writes zeros. */
  lemma FinishNothing()
    ensures var o := Finish([], map[]);
      && o.lines == [] && o.issues == [] && ExitStatus(o) == 0
      && Split(o.totalsText, '\n') ==
         ["TotalDefects:     0", "MandatoryDefects: 0", "RequiredDefects:  0", "AdvisoryDefects:  0"]
  {
    TotalsTextOfNothing();
  }

  /** A format 1-6 iteration that fails with anything else than
      UnboundLocalError fails with the error of a group the filter could
      not read. */
  lemma {:induction false} V1FirstFailure(showAll: bool, groups: seq<GroupV1>, from: nat)
    requires IterV1(showAll, groups, from).Err?
    requires IterV1(showAll, groups, from).error != UnboundLocalError("occurrence")
    ensures exists k :: from <= k < |groups| && FilterGroupsV1(showAll, groups[k]) == Err(IterV1(showAll, groups, from).error)
    decreases |groups| - from
  {
    if FilterGroupsV1(showAll, groups[from]).Ok? {
      V1FirstFailure(showAll, groups, from + 1);
    }
  }

  /** A format 7 report that iterates without error writes, as totals, the
      number of kept groups and the number of kept groups of each printed
      category. */
  lemma V7RunTotals(showAll: bool, report: Report, groups: seq<GroupV7>)
    requires report.formatVersion.GetOr(0) >= 7 && report.issues == Some(groups)
    requires IssuesV7Result(groups).Ok?
    ensures var kept := KeptV7(groups);
      ParseTotals(RunSpec(showAll, report).totalsText) == Some(TotalsRecord(
        |kept|, GroupsOfCategory(kept, Mandatory), GroupsOfCategory(kept, Required),
        GroupsOfCategory(kept, Advisory)))
  {
    RunOfV7(showAll, report, groups);
    FinishTotals(IssuesV7Result(groups).value, Tally(map[], GroupClasses(KeptV7(groups))));
    IssuesV7ResultOk(groups);
    V7TotalsRecord(groups);
  }

  /** The printed counts of a format 7 iteration, by kept groups. */
  lemma V7TotalsRecord(groups: seq<GroupV7>)
    requires |GroupClasses(KeptV7(groups))| == |KeptV7(groups)|
    ensures var kept, t := KeptV7(groups), Tally(map[], GroupClasses(KeptV7(groups)));
      TotalsRecord(Count(t, "total"), Count(t, "mandatory"), Count(t, "required"), Count(t, "advisory")) ==
      TotalsRecord(|kept|, GroupsOfCategory(kept, Mandatory), GroupsOfCategory(kept, Required),
        GroupsOfCategory(kept, Advisory))
  {
    TotalIsSumOfCategories(GroupClasses(KeptV7(groups)));
    V7CategoryCount(groups, Mandatory);
    V7CategoryCount(groups, Required);
    V7CategoryCount(groups, Advisory);
    assert Mandatory.Name() == "mandatory" && Required.Name() == "required" && Advisory.Name() == "advisory";
  }

  /** A format 7 run that iterates without error ends with what the
      iteration yielded and counted. */
  lemma RunOfV7(showAll: bool, report: Report, groups: seq<GroupV7>)
    requires report.formatVersion.GetOr(0) >= 7 && report.issues == Some(groups)
    requires IssuesV7Result(groups).Ok?
    ensures RunSpec(showAll, report) ==
      Finish(IssuesV7Result(groups).value, Tally(map[], GroupClasses(KeptV7(groups))))
  {
  }

  /** The totals text of a run reads back as the four printed counts. */
  lemma FinishTotals(found: seq<Issue>, t: Totals)
    ensures ParseTotals(Finish(found, t).totalsText) ==
      Some(TotalsRecord(Count(t, "total"), Count(t, "mandatory"), Count(t, "required"), Count(t, "advisory")))
  {
    TotalsTextRoundTrip(t);
  }
}
