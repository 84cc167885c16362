/** The Coverity report entries the parser reads, the flat issue records it
    produces, the two group filters and the sort key
    (script/coverity_parser.py, lines 16-49, 110-147, 166-197). */
module Records {
  import opened Wrappers
  import opened Exceptions
  import opened Strings
  import opened Misra

  /** Directories imported from other projects, whose defects are dropped. */
  const IgnoredDirs: seq<string> :=
    ["lib/libfdt", "include/lib/libfdt", "lib/compiler-rt", "lib/zlib", "include/lib/zlib"]

  /** Checkers whose defects are dropped. */
  const RuleExclusions: seq<string> := [
    "MISRA C-2012 Rule 2.4", "MISRA C-2012 Rule 2.5", "MISRA C-2012 Rule 2.7",
    "MISRA C-2012 Rule 5.1", "MISRA C-2012 Rule 5.8", "MISRA C-2012 Rule 8.6",
    "MISRA C-2012 Rule 8.7", "MISRA C-2012 Rule 11.4", "MISRA C-2012 Rule 11.5",
    "MISRA C-2012 Rule 15.1", "MISRA C-2012 Rule 15.5", "MISRA C-2012 Rule 15.6",
    "MISRA C-2012 Rule 16.1", "MISRA C-2012 Rule 16.3", "MISRA C-2012 Rule 17.1",
    "MISRA C-2012 Rule 21.6", "MISRA C-2012 Directive 4.6", "MISRA C-2012 Directive 4.8",
    "MISRA C-2012 Directive 4.9"
  ]

  // ------------------------------------------------------------ report entries

  /** One occurrence of a defect in a report of format 1 to 6. */
  datatype Occurrence = Occurrence(
    checker: string,
    file: string,
    mainEventLineNumber: nat,
    mainEventDescription: string)

  /** An entry of `issueInfo` in a report of format 1 to 6: the occurrences of one CID. */
  datatype GroupV1 = GroupV1(
    cid: nat,
    triageAction: string,
    occurrences: seq<Occurrence>,
    presentInComparisonSnapshot: bool)

  /** One event of a defect in a report of format 7 or later. */
  datatype Event = Event(
    strippedFilePathname: string,
    lineNumber: nat,
    eventDescription: string)

  /** An entry of `issues` in a report of format 7 or later. `cid` and
      `checker_name` are read with `dict.get`, so they may be absent;
      `checkerName` is a different, required field. */
  datatype GroupV7 = GroupV7(
    cid: Option<nat>,
    checker_name: Option<string>,
    checkerName: string,
    strippedMainEventFilePathname: string,
    events: seq<Event>)

  /** The top level of a parsed JSON report; each field may be missing. */
  datatype Report = Report(
    formatVersion: Option<int>,
    issueInfo: Option<seq<GroupV1>>,
    issues: Option<seq<GroupV7>>)

  /** The flat issue record the parser emits. */
  datatype Issue = Issue(
    cid: Option<nat>,
    file: string,
    line: nat,
    checker: string,
    classification: Classification,
    description: string)

  // ------------------------------------------------------- issue construction

  /** `_new_issue`: copy an occurrence, with the leading slashes of its file
      removed and its checker classified. */
  function NewIssue(cid: nat, occ: Occurrence): (r: Result<Issue, Exception>)
    ensures r.Ok? <==> ClassifyChecker(occ.checker).Ok?
    ensures r.Err? ==> r.error == ClassifyChecker(occ.checker).error
    ensures r.Ok? ==> r.value.classification == ClassifyChecker(occ.checker).value
    ensures r.Ok? ==> r.value.file == [] || r.value.file[0] != '/'
    ensures r.Ok? ==> |r.value.file| <= |occ.file| && r.value.file == occ.file[|occ.file| - |r.value.file|..]
    ensures r.Ok? ==> forall k :: 0 <= k < |occ.file| - |r.value.file| ==> occ.file[k] == '/'
    ensures r.Ok? ==> r.value.cid == Some(cid) && r.value.line == occ.mainEventLineNumber
    ensures r.Ok? ==> r.value.checker == occ.checker && r.value.description == occ.mainEventDescription
  {
    match ClassifyChecker(occ.checker)
    case Err(e) => Err(e)
    case Ok(c) => Ok(Issue(Some(cid), LStrip(occ.file, '/'), occ.mainEventLineNumber, occ.checker, c, occ.mainEventDescription))
  }

  /** `_new_issue_v7`: copy an event, with the group's CID and checker. */
  function NewIssueV7(cid: Option<nat>, checker: string, ev: Event): (r: Result<Issue, Exception>)
    ensures r.Ok? <==> ClassifyChecker(checker).Ok?
    ensures r.Err? ==> r.error == ClassifyChecker(checker).error
    ensures r.Ok? ==> r.value.classification == ClassifyChecker(checker).value
    ensures r.Ok? ==> r.value.cid == cid && r.value.checker == checker
    ensures r.Ok? ==> r.value.file == ev.strippedFilePathname && r.value.line == ev.lineNumber
    ensures r.Ok? ==> r.value.description == ev.eventDescription
  {
    match ClassifyChecker(checker)
    case Err(e) => Err(e)
    case Ok(c) => Ok(Issue(cid, ev.strippedFilePathname, ev.lineNumber, checker, c, ev.eventDescription))
  }

  // ---------------------------------------------------------------- filters

  /** The `for skip_dir in IGNORED_DIRS` loop: does `path` start with one of `dirs`? */
  function StartsWithAny(path: string, dirs: seq<string>): (r: bool)
    ensures r <==> exists k :: 0 <= k < |dirs| && StartsWith(path, dirs[k])
    decreases |dirs|
  {
    if dirs == [] then false
    else if StartsWith(path, dirs[0]) then true
    else
      var r := StartsWithAny(path, dirs[1..]);
      assert forall k :: 1 <= k < |dirs| ==> dirs[k] == dirs[1..][k - 1];
      r
  }

  /** `Issues.filter_groups_v1`: whether a group of a format 1-6 report is
      kept. The first occurrence must exist once the triage action is not
      Ignore. */
  function FilterGroupsV1(showAll: bool, g: GroupV1): (r: Result<bool, Exception>)
    ensures r.Err? ==> r.error == IndexError("occurrences[0]")
  {
    if g.triageAction == "Ignore" then Ok(false)
    else if |g.occurrences| == 0 then Err(IndexError("occurrences[0]"))
    else
      var occ := g.occurrences[0];
      if occ.checker in RuleExclusions then Ok(false)
      else if StartsWithAny(LStrip(occ.file, '/'), IgnoredDirs) then Ok(false)
      else if !showAll then Ok(!g.presentInComparisonSnapshot)
      else Ok(true)
  }

  /** The cases of the format 1-6 filter. Ignored triage, excluded checkers and
      ignored directories reject a group whatever `showAll` is; otherwise the
      group is kept when showing all, or when it is new to this snapshot. */
  lemma FilterGroupsV1Cases(showAll: bool, g: GroupV1)
    ensures g.triageAction == "Ignore" ==> FilterGroupsV1(showAll, g) == Ok(false)
    ensures FilterGroupsV1(showAll, g).Err? <==> g.triageAction != "Ignore" && g.occurrences == []
    ensures FilterGroupsV1(showAll, g) == Ok(true) <==>
      && g.triageAction != "Ignore"
      && g.occurrences != []
      && g.occurrences[0].checker !in RuleExclusions
      && (forall k :: 0 <= k < |IgnoredDirs| ==> !StartsWith(LStrip(g.occurrences[0].file, '/'), IgnoredDirs[k]))
      && (showAll || !g.presentInComparisonSnapshot)
  {
  }

  /** `showAll` can only add groups, and only groups that are in the
      comparison snapshot. */
  lemma FilterGroupsV1ShowAll(g: GroupV1)
    ensures FilterGroupsV1(false, g) == Ok(true) ==> FilterGroupsV1(true, g) == Ok(true)
    ensures FilterGroupsV1(false, g).Err? <==> FilterGroupsV1(true, g).Err?
    ensures FilterGroupsV1(true, g) == Ok(true) ==>
      FilterGroupsV1(false, g) == Ok(!g.presentInComparisonSnapshot)
  {
  }

  /** `Issues.filter_groups_v7`: a group of a format 7 report is kept unless
      its optional `checker_name` is excluded or its main file lies under an
      ignored directory. */
  function FilterGroupsV7(g: GroupV7): (r: bool)
    ensures r <==>
      && (g.checker_name.None? || g.checker_name.value !in RuleExclusions)
      && forall k :: 0 <= k < |IgnoredDirs| ==> !StartsWith(g.strippedMainEventFilePathname, IgnoredDirs[k])
  {
    if g.checker_name.Some? && g.checker_name.value in RuleExclusions then false
    else if StartsWithAny(g.strippedMainEventFilePathname, IgnoredDirs) then false
    else true
  }

  /** The format 7 filter never looks at `checkerName` (the field the totals
      and the issues use), and an absent `checker_name` excludes nothing. */
  lemma FilterGroupsV7Fields(g: GroupV7, checkerName: string, cid: Option<nat>, events: seq<Event>)
    ensures FilterGroupsV7(g) == FilterGroupsV7(g.(checkerName := checkerName, cid := cid, events := events))
    ensures g.checker_name.None? ==> FilterGroupsV7(g) == !StartsWithAny(g.strippedMainEventFilePathname, IgnoredDirs)
  {
  }

  /** The ignored-directory test is a plain string-prefix test: a sibling
      directory whose name extends an ignored one is dropped too. */
  lemma IgnoredDirIsStringPrefix(path: string)
    requires path == "lib/zlibx/inflate.c"
    ensures StartsWithAny(path, IgnoredDirs)
  {
    assert StartsWith(path, IgnoredDirs[3]);
  }

  /** In format 1-6 reports leading slashes do not hide an ignored directory. */
  lemma LeadingSlashesStripped(showAll: bool, g: GroupV1, dir: string, rest: string, k: nat)
    requires g.triageAction != "Ignore" && g.occurrences != []
    requires dir in IgnoredDirs
    requires g.occurrences[0].file == seq(k, _ => '/') + dir + rest
    ensures FilterGroupsV1(showAll, g) == Ok(false)
  {
    var f := g.occurrences[0].file;
    var t := dir + rest;
    assert dir != [] && dir[0] != '/' by {
      assert forall d :: d in IgnoredDirs ==> d != [] && d[0] != '/';
    }
    assert t[0] != '/';
    LStripUnique(f, '/', t);
    assert StartsWith(t, dir);
    var i :| 0 <= i < |IgnoredDirs| && IgnoredDirs[i] == dir;
  }

  // ------------------------------------------------------------ the sort key

  /** `str(cid)`: a CID read with `dict.get` prints as `None` when absent. */
  function CidText(cid: Option<nat>): (s: string)
    ensures cid.Some? ==> AllDigits(s) && DecimalValue(s) == cid.value
    ensures cid.None? ==> s == "None"
  {
    match cid
    case Some(n) => DecimalValueOfNatToString(n); NatToString(n)
    case None => "None"
  }

  /** What follows the line in a key: the checker and the padded CID. */
  function KeyRest(i: Issue): string
  {
    i.checker + ZFill(CidText(i.cid), 5)
  }

  /** `make_key`: file, line zero-filled to 5, checker and CID zero-filled to 5. */
  function MakeKey(i: Issue): (k: string)
    ensures StartsWith(k, i.file)
  {
    i.file + ZFill(NatToString(i.line), 5) + KeyRest(i)
  }

  /** The key starts with the file, followed by a digit string of at least 5
      characters whose value is the line. It ends with the padded CID: at
      least 5 digits whose value is the CID, or `0None` when it is absent. */
  lemma MakeKeyLayout(i: Issue)
    ensures var p := ZFill(NatToString(i.line), 5);
      && |p| >= 5 && AllDigits(p) && DecimalValue(p) == i.line
      && MakeKey(i)[..|i.file|] == i.file
      && MakeKey(i)[|i.file|..|i.file| + |p|] == p
    ensures var q := ZFill(CidText(i.cid), 5);
      && |q| >= 5 && MakeKey(i)[|MakeKey(i)| - |q|..] == q
      && (i.cid.Some? ==> AllDigits(q) && DecimalValue(q) == i.cid.value)
      && (i.cid.None? ==> q == "0None")
  {
    ZFillKeepsValue(i.line, 5);
    var p := ZFill(NatToString(i.line), 5);
    ConcatSlices(i.file, p, KeyRest(i));
    KeyCidLayout(i);
  }

  /** The padded CID at the end of the key. */
  lemma KeyCidLayout(i: Issue)
    ensures var q := ZFill(CidText(i.cid), 5);
      && |q| >= 5 && MakeKey(i)[|MakeKey(i)| - |q|..] == q
      && (i.cid.Some? ==> AllDigits(q) && DecimalValue(q) == i.cid.value)
      && (i.cid.None? ==> q == "0None")
  {
    var q := ZFill(CidText(i.cid), 5);
    var front := i.file + ZFill(NatToString(i.line), 5) + i.checker;
    KeyCidSuffix(i);
    assert MakeKey(i) == front + q;
    assert (front + q)[|front + q| - |q|..] == q;
    match i.cid
    case Some(n) => ZFillKeepsValue(n, 5);
    case None => assert Zeros(1) == "0";
  }

  /** For two issues of the same file with different lines below 100000,
      comparing the keys as strings compares the lines as numbers, whatever
      the checkers and CIDs. */
  lemma KeyOrderFollowsLine(a: Issue, b: Issue)
    requires a.file == b.file
    requires a.line < 100000 && b.line < 100000 && a.line != b.line
    ensures LexLess(MakeKey(a), MakeKey(b)) <==> a.line < b.line
  {
    KeyParts(a);
    KeyParts(b);
    var pa, pb := FixedDigits(a.line, 5), FixedDigits(b.line, 5);
    var ra, rb := KeyRest(a), KeyRest(b);
    LexLessCommonPrefix(a.file, pa + ra, pb + rb);
    FixedDigitsDiffer(a.line, b.line, 5);
    LexLessSameLengthPrefix(pa, pb, ra, rb);
    FixedDigitsOrder(a.line, b.line, 5);
  }

  /** For a line below 100000, the key is the file, the line in exactly five
      digits, and the rest. */
  lemma KeyParts(i: Issue)
    requires i.line < 100000
    ensures MakeKey(i) == i.file + (FixedDigits(i.line, 5) + KeyRest(i))
  {
    assert Pow10(5) == 100000;
    ZFillIsFixedDigits(i.line, 5);
  }

  /** With file, line and checker equal, keys order by CID (below 100000). */
  lemma KeyOrderFollowsCid(a: Issue, b: Issue)
    requires a.file == b.file && a.line == b.line && a.checker == b.checker
    requires a.cid.Some? && b.cid.Some? && a.cid.value < 100000 && b.cid.value < 100000
    ensures LexLess(MakeKey(a), MakeKey(b)) <==> a.cid.value < b.cid.value
  {
    assert Pow10(5) == 100000;
    ZFillIsFixedDigits(a.cid.value, 5);
    ZFillIsFixedDigits(b.cid.value, 5);
    var p := a.file + ZFill(NatToString(a.line), 5) + a.checker;
    KeyCidSuffix(a);
    KeyCidSuffix(b);
    LexLessCommonPrefix(p, FixedDigits(a.cid.value, 5), FixedDigits(b.cid.value, 5));
    FixedDigitsOrder(a.cid.value, b.cid.value, 5);
  }

  /** The key ends with the padded CID. */
  lemma KeyCidSuffix(i: Issue)
    ensures MakeKey(i) == i.file + ZFill(NatToString(i.line), 5) + i.checker + ZFill(CidText(i.cid), 5)
  {
  }
}
