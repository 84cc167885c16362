/** The `Issues` object: iteration over the issue groups of a report, with the
    per-category totals it accumulates (script/coverity_parser.py, lines
    152-222). The generator is modelled as a method that returns all the
    issues it would yield. */
module Scan {
  import opened Wrappers
  import opened Exceptions
  import opened Misra
  import opened Records
  import opened Strings

  /** `collections.defaultdict(int)`, keyed by category name and "total". */
  type Totals = map<string, nat>

  /** A defaultdict lookup: an absent key reads as 0. */
  function Count(t: Totals, key: string): nat
  {
    if key in t then t[key] else 0
  }

  /** Lines 202-203: count one more group of category `c`, and one more in all. */
  function AddGroup(t: Totals, c: Classification): (u: Totals)
    ensures Count(u, "total") == Count(t, "total") + 1
    ensures Count(u, c.Name()) == Count(t, c.Name()) + 1
    ensures forall key :: key != "total" && key != c.Name() ==> Count(u, key) == Count(t, key)
  {
    t[c.Name() := Count(t, c.Name()) + 1]["total" := Count(t, "total") + 1]
  }

  /** The totals after counting the groups of categories `cs`, in order. */
  function Tally(t: Totals, cs: seq<Classification>): Totals
  {
    if cs == [] then t else AddGroup(Tally(t, cs[..|cs| - 1]), cs[|cs| - 1])
  }

  lemma TallyStep(t: Totals, cs: seq<Classification>, c: Classification)
    ensures Tally(t, cs + [c]) == AddGroup(Tally(t, cs), c)
  {
    assert (cs + [c])[..|cs|] == cs;
  }

  /** How many entries of `cs` are `c`. */
  function Occurrences(cs: seq<Classification>, c: Classification): nat
  {
    if cs == [] then 0
    else Occurrences(cs[..|cs| - 1], c) + (if cs[|cs| - 1] == c then 1 else 0)
  }

  /** Counting adds |cs| to "total" and, to each category, its occurrences in cs. */
  lemma {:induction false} TallyCounts(t: Totals, cs: seq<Classification>)
    ensures Count(Tally(t, cs), "total") == Count(t, "total") + |cs|
    ensures forall c: Classification :: Count(Tally(t, cs), c.Name()) == Count(t, c.Name()) + Occurrences(cs, c)
    ensures forall key :: key != "total" && (forall c: Classification :: key != c.Name()) ==>
      Count(Tally(t, cs), key) == Count(t, key)
  {
    if cs != [] {
      TallyCounts(t, cs[..|cs| - 1]);
    }
  }

  /** Every entry is of exactly one of the four categories. */
  lemma {:induction false} OccurrencesSum(cs: seq<Classification>)
    ensures |cs| == Occurrences(cs, Mandatory) + Occurrences(cs, Required)
                  + Occurrences(cs, Advisory) + Occurrences(cs, Unknown)
  {
    if cs != [] {
      OccurrencesSum(cs[..|cs| - 1]);
    }
  }

  /** Starting from empty totals, "total" is the number of groups counted and
      is the sum of the four category counts. */
  lemma TotalIsSumOfCategories(cs: seq<Classification>)
    ensures Count(Tally(map[], cs), "total") == |cs|
    ensures Count(Tally(map[], cs), "total") ==
      Count(Tally(map[], cs), "mandatory") + Count(Tally(map[], cs), "required")
      + Count(Tally(map[], cs), "advisory") + Count(Tally(map[], cs), "unknown")
  {
    TallyCounts(map[], cs);
    OccurrencesSum(cs);
    assert Mandatory.Name() == "mandatory" && Required.Name() == "required";
    assert Advisory.Name() == "advisory" && Unknown.Name() == "unknown";
  }

  // -------------------------------------------------- format 1-6 iteration

  /** `Issues.iter_issues_v1` over the groups from index `from` on. Line 185
      reads `occurrence` before the loop of line 187 assigns it, so the first
      group that passes the filter raises UnboundLocalError; a filter error on
      an earlier group is raised first. */
  function IterV1(showAll: bool, groups: seq<GroupV1>, from: nat): Result<seq<Issue>, Exception>
    decreases |groups| - from
  {
    if from >= |groups| then Ok([])
    else match FilterGroupsV1(showAll, groups[from])
      case Err(e) => Err(e)
      case Ok(keep) => if keep then Err(UnboundLocalError("occurrence")) else IterV1(showAll, groups, from + 1)
  }

  /** A format 1-6 report never yields an issue: it yields nothing when every
      group is filtered out, and fails otherwise. */
  lemma {:induction false} IterV1Outcome(showAll: bool, groups: seq<GroupV1>, from: nat)
    ensures IterV1(showAll, groups, from).Ok? ==> IterV1(showAll, groups, from).value == []
    ensures IterV1(showAll, groups, from).Ok? <==>
      forall k :: from <= k < |groups| ==> FilterGroupsV1(showAll, groups[k]) == Ok(false)
    decreases |groups| - from
  {
    if from < |groups| {
      IterV1Outcome(showAll, groups, from + 1);
    }
  }

  /** The first kept group, when no earlier group raised, ends the iteration
      with UnboundLocalError. */
  lemma {:induction false} IterV1FirstKept(showAll: bool, groups: seq<GroupV1>, from: nat, k: nat)
    requires from <= k < |groups| && FilterGroupsV1(showAll, groups[k]) == Ok(true)
    requires forall j :: from <= j < k ==> FilterGroupsV1(showAll, groups[j]) == Ok(false)
    ensures IterV1(showAll, groups, from) == Err(UnboundLocalError("occurrence"))
    decreases k - from
  {
    if from < k {
      IterV1FirstKept(showAll, groups, from + 1, k);
    }
  }

  // -------------------------------------------------- format 7 iteration

  /** The groups `filter(self.filter_groups_v7, ...)` passes on, in order. */
  function KeptV7(groups: seq<GroupV7>): (kept: seq<GroupV7>)
    ensures |kept| <= |groups|
  {
    if groups == [] then []
    else
      var last := groups[|groups| - 1];
      KeptV7(groups[..|groups| - 1]) + (if FilterGroupsV7(last) then [last] else [])
  }

  /** The kept groups are exactly the groups the filter accepts. */
  lemma {:induction false} KeptV7Members(groups: seq<GroupV7>)
    ensures forall g :: g in KeptV7(groups) <==> g in groups && FilterGroupsV7(g)
  {
    if groups != [] {
      var last := groups[|groups| - 1];
      KeptV7Members(groups[..|groups| - 1]);
      assert groups == groups[..|groups| - 1] + [last];
    }
  }

  lemma {:induction false} KeptV7Append(a: seq<GroupV7>, b: seq<GroupV7>)
    ensures KeptV7(a + b) == KeptV7(a) + KeptV7(b)
    decreases |b|
  {
    if b == [] {
      assert a + b == a;
    } else {
      assert (a + b)[..|a + b| - 1] == a + b[..|b| - 1];
      KeptV7Append(a, b[..|b| - 1]);
    }
  }

  /** The categories of the kept groups, up to the first whose checker cannot
      be classified (where line 202 raises). */
  function GroupClasses(kept: seq<GroupV7>): (cs: seq<Classification>)
    ensures |cs| <= |kept|
    ensures forall k :: 0 <= k < |cs| ==> ClassifyChecker(kept[k].checkerName) == Ok(cs[k])
    ensures |cs| < |kept| ==> ClassifyChecker(kept[|cs|].checkerName).Err?
  {
    if kept == [] then []
    else
      var n := |kept|;
      var p := GroupClasses(kept[..n - 1]);
      var c := ClassifyChecker(kept[n - 1].checkerName);
      assert forall k :: 0 <= k < n - 1 ==> kept[..n - 1][k] == kept[k];
      if |p| == n - 1 && c.Ok? then p + [c.value] else p
  }

  /** Once a checker fails to classify, later groups are never counted. */
  lemma {:induction false} GroupClassesStop(a: seq<GroupV7>, b: seq<GroupV7>)
    requires |GroupClasses(a)| < |a|
    ensures GroupClasses(a + b) == GroupClasses(a)
    decreases |b|
  {
    if b == [] {
      assert a + b == a;
    } else {
      assert (a + b)[..|a + b| - 1] == a + b[..|b| - 1];
      GroupClassesStop(a, b[..|b| - 1]);
    }
  }

  lemma GroupClassesExtend(a: seq<GroupV7>, g: GroupV7)
    requires |GroupClasses(a)| == |a|
    ensures ClassifyChecker(g.checkerName).Ok? ==>
      GroupClasses(a + [g]) == GroupClasses(a) + [ClassifyChecker(g.checkerName).value]
    ensures ClassifyChecker(g.checkerName).Err? ==> GroupClasses(a + [g]) == GroupClasses(a)
  {
    assert (a + [g])[..|a|] == a;
  }

  /** The issues `_new_issue_v7` builds from the events of one group. */
  function GroupIssues(g: GroupV7): (issues: seq<Issue>)
    requires ClassifyChecker(g.checkerName).Ok?
    ensures |issues| == |g.events|
  {
    seq(|g.events|, k requires 0 <= k < |g.events| => NewIssueV7(g.cid, g.checkerName, g.events[k]).value)
  }

  lemma GroupIssuesStep(g: GroupV7, k: nat)
    requires ClassifyChecker(g.checkerName).Ok? && k < |g.events|
    ensures GroupIssues(g)[..k + 1] == GroupIssues(g)[..k] + [NewIssueV7(g.cid, g.checkerName, g.events[k]).value]
  {
  }

  ghost predicate AllClassified(kept: seq<GroupV7>)
  {
    forall k :: 0 <= k < |kept| ==> ClassifyChecker(kept[k].checkerName).Ok?
  }

  /** The issues of all kept groups, group after group, event after event. */
  function IssuesV7(kept: seq<GroupV7>): seq<Issue>
    requires AllClassified(kept)
  {
    if kept == [] then []
    else IssuesV7(kept[..|kept| - 1]) + GroupIssues(kept[|kept| - 1])
  }

  lemma AllClassifiedAppend(a: seq<GroupV7>, b: seq<GroupV7>)
    requires AllClassified(a) && AllClassified(b)
    ensures AllClassified(a + b)
  {
    assert forall k :: 0 <= k < |a + b| ==> (a + b)[k] == if k < |a| then a[k] else b[k - |a|];
  }

  /** The issues of two runs of kept groups are those of the first, then
      those of the second. */
  lemma {:induction false} IssuesV7Append(a: seq<GroupV7>, b: seq<GroupV7>)
    requires AllClassified(a) && AllClassified(b)
    ensures AllClassified(a + b)
    ensures IssuesV7(a + b) == IssuesV7(a) + IssuesV7(b)
    decreases |b|
  {
    AllClassifiedAppend(a, b);
    if b == [] {
      assert a + b == a;
    } else {
      var p := b[..|b| - 1];
      assert AllClassified(p);
      assert (a + b)[..|a + b| - 1] == a + p;
      assert (a + b)[|a + b| - 1] == b[|b| - 1];
      IssuesV7Append(a, p);
    }
  }

  /** The number of events in the groups. */
  function EventCount(kept: seq<GroupV7>): nat
  {
    if kept == [] then 0 else EventCount(kept[..|kept| - 1]) + |kept[|kept| - 1].events|
  }

  /** One issue per event of each kept group. */
  lemma {:induction false} IssuesV7Count(kept: seq<GroupV7>)
    requires AllClassified(kept)
    ensures |IssuesV7(kept)| == EventCount(kept)
  {
    if kept != [] {
      IssuesV7Count(kept[..|kept| - 1]);
    }
  }

  /** What `iter_issues_v7` yields: every issue when all kept checkers
      classify, otherwise the KeyError of the first one that does not. */
  function IssuesV7Result(groups: seq<GroupV7>): Result<seq<Issue>, Exception>
  {
    var kept := KeptV7(groups);
    var cs := GroupClasses(kept);
    if |cs| == |kept| then Ok(IssuesV7(kept))
    else Err(ClassifyChecker(kept[|cs|].checkerName).error)
  }

  /** How many kept groups have a checker of category `c`. */
  function GroupsOfCategory(kept: seq<GroupV7>, c: Classification): nat
  {
    if kept == [] then 0
    else GroupsOfCategory(kept[..|kept| - 1], c)
         + (if ClassifyChecker(kept[|kept| - 1].checkerName) == Ok(c) then 1 else 0)
  }

  lemma {:induction false} OccurrencesOfGroupClasses(kept: seq<GroupV7>, c: Classification)
    requires |GroupClasses(kept)| == |kept|
    ensures Occurrences(GroupClasses(kept), c) == GroupsOfCategory(kept, c)
  {
    if kept != [] {
      var n := |kept|;
      assert kept == kept[..n - 1] + [kept[n - 1]];
      GroupClassesExtend(kept[..n - 1], kept[n - 1]);
      OccurrencesOfGroupClasses(kept[..n - 1], c);
      var cs := GroupClasses(kept);
      assert cs[..n - 1] == GroupClasses(kept[..n - 1]);
    }
  }

  /** A format 7 iteration succeeds exactly when every kept checker
      classifies, and then yields one issue per event of the kept groups. */
  lemma IssuesV7ResultOk(groups: seq<GroupV7>)
    ensures IssuesV7Result(groups).Ok? <==> |GroupClasses(KeptV7(groups))| == |KeptV7(groups)|
    ensures IssuesV7Result(groups).Ok? ==> |IssuesV7Result(groups).value| == EventCount(KeptV7(groups))
  {
    var kept := KeptV7(groups);
    if |GroupClasses(kept)| == |kept| {
      IssuesV7Count(kept);
    }
  }

  /** After the kept groups of a format 7 report are counted from empty
      totals, all of them classifying: "total" is the number of kept groups
      (not of events), each category counts the kept groups whose
      `checkerName` it classifies, and "total" is the sum of the four
      categories. */
  lemma V7Totals(groups: seq<GroupV7>)
    requires |GroupClasses(KeptV7(groups))| == |KeptV7(groups)|
    ensures var kept, t := KeptV7(groups), Tally(map[], GroupClasses(KeptV7(groups)));
      && Count(t, "total") == |kept|
      && (forall c: Classification :: Count(t, c.Name()) == GroupsOfCategory(kept, c))
      && Count(t, "total") == Count(t, "mandatory") + Count(t, "required") + Count(t, "advisory") + Count(t, "unknown")
  {
    var kept := KeptV7(groups);
    var cs := GroupClasses(kept);
    TotalIsSumOfCategories(cs);
    forall c: Classification ensures Count(Tally(map[], cs), c.Name()) == GroupsOfCategory(kept, c) {
      V7CategoryCount(groups, c);
    }
  }

  /** The count of one category after a format 7 iteration. */
  lemma V7CategoryCount(groups: seq<GroupV7>, c: Classification)
    requires |GroupClasses(KeptV7(groups))| == |KeptV7(groups)|
    ensures Count(Tally(map[], GroupClasses(KeptV7(groups))), c.Name()) == GroupsOfCategory(KeptV7(groups), c)
  {
    TallyCounts(map[], GroupClasses(KeptV7(groups)));
    OccurrencesOfGroupClasses(KeptV7(groups), c);
  }

  /** One step of the loop over the groups: the group at `i` is kept or not. */
  lemma KeptV7Step(groups: seq<GroupV7>, i: nat)
    requires i < |groups|
    ensures KeptV7(groups[..i + 1]) ==
      KeptV7(groups[..i]) + (if FilterGroupsV7(groups[i]) then [groups[i]] else [])
  {
    assert groups[..i + 1][..i] == groups[..i];
  }

  /** One step of the loop over the groups: a kept group that classifies adds
      its category to the classes and its events to the issues. */
  lemma IssuesV7Step(kept: seq<GroupV7>, g: GroupV7)
    requires |GroupClasses(kept)| == |kept| && ClassifyChecker(g.checkerName).Ok?
    ensures AllClassified(kept) && AllClassified(kept + [g])
    ensures |GroupClasses(kept + [g])| == |kept + [g]|
    ensures GroupClasses(kept + [g]) == GroupClasses(kept) + [ClassifyChecker(g.checkerName).value]
    ensures IssuesV7(kept + [g]) == IssuesV7(kept) + GroupIssues(g)
  {
    GroupClassesExtend(kept, g);
    assert (kept + [g])[..|kept|] == kept;
  }

  /** The kept groups of a prefix, then those of the rest. */
  lemma KeptV7Split(groups: seq<GroupV7>, n: nat)
    requires n <= |groups|
    ensures KeptV7(groups) == KeptV7(groups[..n]) + KeptV7(groups[n..])
  {
    TakeDrop(groups, n);
    KeptV7Append(groups[..n], groups[n..]);
  }

  /** Classification stops at the first kept group that fails to classify. */
  lemma GroupClassesFailure(before: seq<GroupV7>, g: GroupV7, after: seq<GroupV7>)
    requires |GroupClasses(before)| == |before| && ClassifyChecker(g.checkerName).Err?
    ensures GroupClasses(before + [g] + after) == GroupClasses(before)
  {
    GroupClassesExtend(before, g);
    GroupClassesStop(before + [g], after);
  }

  /** A kept group whose checker does not classify ends the iteration with
      its error; no later group is counted. */
  lemma IssuesV7Failure(groups: seq<GroupV7>, i: nat)
    requires i < |groups| && FilterGroupsV7(groups[i])
    requires |GroupClasses(KeptV7(groups[..i]))| == |KeptV7(groups[..i])|
    requires ClassifyChecker(groups[i].checkerName).Err?
    ensures GroupClasses(KeptV7(groups)) == GroupClasses(KeptV7(groups[..i]))
    ensures IssuesV7Result(groups) == Err(ClassifyChecker(groups[i].checkerName).error)
  {
    var before, g, after := KeptV7(groups[..i]), groups[i], KeptV7(groups[i + 1..]);
    KeptV7Step(groups, i);
    KeptV7Split(groups, i + 1);
    GroupClassesFailure(before, g, after);
    assert (before + [g] + after)[|before|] == g;
  }

  /** The state of `iter_issues_v7` after the groups before index `i`: every
      kept group so far has been classified, counted and expanded. */
  ghost predicate V7Progress(groups: seq<GroupV7>, i: nat, t0: Totals, totals: Totals, issues: seq<Issue>)
    requires i <= |groups|
  {
    var kept := KeptV7(groups[..i]);
    && |GroupClasses(kept)| == |kept|
    && AllClassified(kept)
    && totals == Tally(t0, GroupClasses(kept))
    && issues == IssuesV7(kept)
  }

  lemma V7ProgressStart(groups: seq<GroupV7>, t0: Totals)
    ensures V7Progress(groups, 0, t0, t0, [])
  {
    assert groups[..0] == [];
  }

  lemma V7ProgressSkip(groups: seq<GroupV7>, i: nat, t0: Totals, totals: Totals, issues: seq<Issue>)
    requires i < |groups| && V7Progress(groups, i, t0, totals, issues)
    requires !FilterGroupsV7(groups[i])
    ensures V7Progress(groups, i + 1, t0, totals, issues)
  {
    KeptV7Step(groups, i);
    assert KeptV7(groups[..i]) + [] == KeptV7(groups[..i]);
  }

  lemma V7ProgressKeep(groups: seq<GroupV7>, i: nat, t0: Totals, totals: Totals, issues: seq<Issue>)
    requires i < |groups| && V7Progress(groups, i, t0, totals, issues)
    requires FilterGroupsV7(groups[i]) && ClassifyChecker(groups[i].checkerName).Ok?
    ensures V7Progress(groups, i + 1, t0,
      AddGroup(totals, ClassifyChecker(groups[i].checkerName).value), issues + GroupIssues(groups[i]))
  {
    var kept, g := KeptV7(groups[..i]), groups[i];
    KeptV7Step(groups, i);
    assert KeptV7(groups[..i + 1]) == kept + [g];
    IssuesV7Step(kept, g);
    TallyStep(t0, GroupClasses(kept), ClassifyChecker(g.checkerName).value);
  }

  lemma V7ProgressFailure(groups: seq<GroupV7>, i: nat, t0: Totals, totals: Totals, issues: seq<Issue>)
    requires i < |groups| && V7Progress(groups, i, t0, totals, issues)
    requires FilterGroupsV7(groups[i]) && ClassifyChecker(groups[i].checkerName).Err?
    ensures totals == Tally(t0, GroupClasses(KeptV7(groups)))
    ensures IssuesV7Result(groups) == Err(ClassifyChecker(groups[i].checkerName).error)
  {
    IssuesV7Failure(groups, i);
  }

  lemma V7ProgressEnd(groups: seq<GroupV7>, t0: Totals, totals: Totals, issues: seq<Issue>)
    requires V7Progress(groups, |groups|, t0, totals, issues)
    ensures totals == Tally(t0, GroupClasses(KeptV7(groups)))
    ensures IssuesV7Result(groups) == Ok(issues)
  {
    assert groups[..|groups|] == groups;
  }

  // ---------------------------------------------------------- the object

  /** What `Issues._gen` dispatches to: format 7 and later (a missing version
      reads as 0) use `issues`, older formats `issueInfo`. */
  function ReportIssues(showAll: bool, report: Report): Result<seq<Issue>, Exception>
  {
    if report.formatVersion.GetOr(0) >= 7 then
      match report.issues
      case None => Err(KeyError("issues"))
      case Some(groups) => IssuesV7Result(groups)
    else
      match report.issueInfo
      case None => Err(KeyError("issueInfo"))
      case Some(groups) => IterV1(showAll, groups, 0)
  }

  /** The totals after iterating: only a format 7 report counts anything. */
  function ReportTotals(t: Totals, report: Report): Totals
  {
    if report.formatVersion.GetOr(0) >= 7 && report.issues.Some? then
      Tally(t, GroupClasses(KeptV7(report.issues.value)))
    else t
  }

  /** `_gen`'s dispatch: a missing `formatVersion` reads as 0; versions 7 and
      up read only `issues`, older ones only `issueInfo` (and count nothing). */
  lemma GenDispatch(showAll: bool, report: Report)
    ensures ReportIssues(showAll, report.(formatVersion := None)) ==
      ReportIssues(showAll, report.(formatVersion := Some(0)))
    ensures report.formatVersion.GetOr(0) >= 7 ==>
      ReportIssues(showAll, report) == ReportIssues(showAll, report.(issueInfo := None))
      && ReportTotals(map[], report) == ReportTotals(map[], report.(issueInfo := None))
    ensures report.formatVersion.GetOr(0) < 7 ==>
      ReportIssues(showAll, report) == ReportIssues(showAll, report.(issues := None))
      && ReportTotals(map[], report) == map[]
  {
  }

  class Issues {
    const showAll: bool
    var totals: Totals

    constructor (showAll: bool)
      ensures this.showAll == showAll && totals == map[]
    {
      this.showAll := showAll;
      totals := map[];
    }

    /** `iter_issues_v1`, run to completion. */
    method IterIssuesV1(groups: seq<GroupV1>) returns (r: Result<seq<Issue>, Exception>)
      ensures r == IterV1(showAll, groups, 0)
    {
      var i := 0;
      while i < |groups|
        invariant 0 <= i <= |groups|
        invariant IterV1(showAll, groups, 0) == IterV1(showAll, groups, i)
      {
        var keep := FilterGroupsV1(showAll, groups[i]);
        if keep.Err? {
          return Err(keep.error);
        }
        if keep.value {
          // the totals update reads `occurrence`, which is not yet bound
          return Err(UnboundLocalError("occurrence"));
        }
        i := i + 1;
      }
      return Ok([]);
    }

    /** The inner loop of `iter_issues_v7`: one issue per event of a group. */
    method EventIssues(g: GroupV7) returns (issues: seq<Issue>)
      requires ClassifyChecker(g.checkerName).Ok?
      ensures issues == GroupIssues(g)
    {
      issues := [];
      var k := 0;
      while k < |g.events|
        invariant 0 <= k <= |g.events|
        invariant issues == GroupIssues(g)[..k]
      {
        var issue := NewIssueV7(g.cid, g.checkerName, g.events[k]);
        GroupIssuesStep(g, k);
        issues := issues + [issue.value];
        k := k + 1;
      }
      assert GroupIssues(g)[..k] == GroupIssues(g);
    }

    /** `iter_issues_v7`, run to completion: counts each kept group once in
        the totals and emits one issue per event. The counts are kept in a
        local and stored into `totals` whenever the iteration stops; nothing
        reads `totals` in between. */
    method IterIssuesV7(groups: seq<GroupV7>) returns (r: Result<seq<Issue>, Exception>)
      modifies this
      ensures r == IssuesV7Result(groups)
      ensures totals == Tally(old(totals), GroupClasses(KeptV7(groups)))
    {
      var t0, counted := totals, totals;
      var issues: seq<Issue> := [];
      var i := 0;
      V7ProgressStart(groups, t0);
      while i < |groups|
        invariant 0 <= i <= |groups|
        invariant V7Progress(groups, i, t0, counted, issues)
      {
        var g := groups[i];
        if FilterGroupsV7(g) {
          var cls := ClassifyChecker(g.checkerName);
          if cls.Err? {
            V7ProgressFailure(groups, i, t0, counted, issues);
            totals := counted;
            return Err(cls.error);
          }
          var more := EventIssues(g);
          V7ProgressKeep(groups, i, t0, counted, issues);
          counted := AddGroup(counted, cls.value);
          issues := issues + more;
        } else {
          V7ProgressSkip(groups, i, t0, counted, issues);
        }
        i := i + 1;
      }
      V7ProgressEnd(groups, t0, counted, issues);
      totals := counted;
      return Ok(issues);
    }

    /** `_gen` on an already parsed report. */
    method Gen(report: Report) returns (r: Result<seq<Issue>, Exception>)
      modifies this
      ensures r == ReportIssues(showAll, report)
      ensures totals == ReportTotals(old(totals), report)
    {
      if report.formatVersion.GetOr(0) >= 7 {
        if report.issues.None? {
          return Err(KeyError("issues"));
        }
        r := IterIssuesV7(report.issues.value);
      } else {
        if report.issueInfo.None? {
          return Err(KeyError("issueInfo"));
        }
        r := IterIssuesV1(report.issueInfo.value);
      }
    }
  }
}
