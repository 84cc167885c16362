# Coverity MISRA report parser, modelled in Dafny

`script/coverity_parser.py` reads the JSON report of a Coverity scan. It keeps
the defects that are not excluded, classifies each checker into the MISRA
C:2012 category it belongs to (mandatory, required, advisory or unknown), and
prints one line per defect sorted by a key made of file, line, checker and
CID. It can also write per-category totals, and it exits with status 1 when
any defect is left.

The model follows the script's own structure:

- `wrappers.dfy`: `Option`, `Result`, and the Python exceptions the script can raise (`KeyError`, `IndexError`, `UnboundLocalError`).
- `strings.dfy`: the string operations the script relies on:
  - `lstrip`, `startswith`, `zfill` and `str(int)`;
  - Python's string ordering;
  - splitting and joining lines.
- `misra.dfy`: the category sets, `_checker_lookup`, the checker-name pattern (`re.search` with its `$` anchor), and `_classify_checker`.
- `records.dfy`: the report entries of formats 1-6 and 7; `_new_issue`, `_new_issue_v7`; the two group filters; `make_key`.
- `scan.dfy`: the `Issues` object, a class whose `totals` field the iterations update:
  - `iter_issues_v1` and `iter_issues_v7`, run to completion;
  - the `_gen` dispatch on `formatVersion`;
  - value-level reference functions for what each iteration yields and counts.
- `sort.dfy`: `sorted(..., key=make_key)` as a stable insertion sort, with Python's string order on keys.
- `render.dfy`: `_cls_string`, `format_issue`, `format_issue_html` and the totals text. Each printed form has a parser that reads its fields back, proved to undo the formatting.
- `driver.dfy`: the command-line run of lines 265-280:
  - iterate, sort, print, write the totals, and compute the exit status;
  - a Python exception that nothing catches ends the run with status 1 and prints nothing, because `sorted` drains the generator before the first line is printed.

Python exceptions are modelled as `Err` values that the callers pass on
unchanged. Line numbers and CIDs are `nat`s; a CID that is missing in a format
7 group is `None`, which prints as `None`. A missing key of the totals reads as
0, as with a `defaultdict(int)`.

Two behaviours of the script as written are modelled as such:

- In `iter_issues_v1`, line 185 reads `occurrence` before the loop of line 187 binds it. The first group that passes the filter therefore raises `UnboundLocalError`. A format 1-6 report either has all its groups filtered out (nothing printed, zero totals, status 0) or ends in an exception (status 1).
- `filter_groups_v7` tests the optional field `checker_name` against the exclusion list, while the classification and the issues use `checkerName`.

## Model

| member | source | states |
|---|---|---|
| Misra.CheckerLookup | script/coverity_parser.py:84-94 | the lookup has an entry exactly for the kinds `Directive` and `Rule` |
| Misra.Search | script/coverity_parser.py:96 | a reported match is a match of the pattern: a word run, one space, a run of digits and dots, and the end of the text or a final newline |
| Misra.SearchCorrect | script/coverity_parser.py:100 | `re.search` finds the leftmost match, every match shares its space and end, and no match is reported only when the pattern matches nowhere |
| Misra.FirstCategory | script/coverity_parser.py:103-105 | the category of the first set that holds the number, and Unknown when no set holds it |
| Misra.ClassifyMatched | script/coverity_parser.py:102-105 | a KeyError naming the kind exactly when the kind is neither Directive nor Rule; otherwise the first matching category of that kind's table |
| Misra.ClassifyChecker | script/coverity_parser.py:99-107 | `_classify_checker`: search the name, then classify the kind and number of the match; what it yields is stated by ClassifyCheckerSpec and UnknownIff |
| Misra.ClassifyCheckerSpec | script/coverity_parser.py:99-107 | Unknown when the pattern matches nowhere; otherwise the classification of the kind and number groups of the leftmost match |
| Misra.UnknownIff | script/coverity_parser.py:99-107 | the result is Unknown exactly when the pattern does not match, or when it matches a known kind and none of that kind's sets holds the number |
| Misra.MatchedUnknownIff | script/coverity_parser.py:103-107 | after a match, Unknown exactly when the kind is known and none of its sets holds the number |
| Misra.UnknownKindIsKeyError | script/coverity_parser.py:103 | a matched kind other than Directive or Rule raises KeyError with that kind |
| Misra.RuleCategoryOrder | script/coverity_parser.py:89-93 | for a rule, mandatory wins over required, and required wins over advisory |
| Misra.DirectiveCategoryOrder | script/coverity_parser.py:85-88 | for a directive, required wins over advisory |
| Misra.Rules92And93AreListedTwice | script/coverity_parser.py:61-76 | rules 9.2 and 9.3 are in both the mandatory and the required set |
| Misra.SearchMisraName | script/coverity_parser.py:96 | in a Coverity name `MISRA C-2012 <kind> <number>`, the groups of the match are that kind and that number |
| Misra.ClassifyMisraName | script/coverity_parser.py:99-107 | a Coverity MISRA name is classified by its own kind and number |
| Misra.Rule92IsMandatory | script/coverity_parser.py:99-107 | `MISRA C-2012 Rule 9.2` is mandatory: the first matching set wins |
| Misra.Rule93IsMandatory | script/coverity_parser.py:99-107 | `MISRA C-2012 Rule 9.3` is mandatory: the first matching set wins |
| Misra.Directive46IsAdvisory | script/coverity_parser.py:99-107 | `MISRA C-2012 Directive 4.6` is advisory |
| Misra.NameInjective | script/coverity_parser.py:84-94 | different categories have different names, so they count under different totals keys |
| Records.NewIssue | script/coverity_parser.py:112-123 | fails exactly when classification fails, with its error; otherwise it copies the CID, line, checker and description, and the file is the original with its leading slashes removed and no leading slash left |
| Records.NewIssueV7 | script/coverity_parser.py:125-133 | fails exactly when classification fails, with its error; otherwise it copies the group's CID and checker, and the event's file, line and description |
| Records.StartsWithAny | script/coverity_parser.py:172-174 | true exactly when the path starts with one of the directories |
| Records.FilterGroupsV1 | script/coverity_parser.py:166-179 | `filter_groups_v1`; the only error it raises is the IndexError of a group without occurrences; its cases are stated by FilterGroupsV1Cases |
| Records.FilterGroupsV1Cases | script/coverity_parser.py:166-179 | Ignore triage drops the group; the filter fails exactly when a non-ignored group has no occurrence; a group is kept exactly when it is not ignored, its first checker is not excluded, its first file (leading slashes removed) is under no ignored directory, and either all groups are shown or the group is new to this snapshot |
| Records.FilterGroupsV1ShowAll | script/coverity_parser.py:177-179 | showing all keeps every group kept otherwise, fails on the same groups, and adds only groups present in the comparison snapshot |
| Records.FilterGroupsV7 | script/coverity_parser.py:190-197 | keeps a group exactly when its optional `checker_name` is absent or not excluded, and its main file starts with no ignored directory |
| Records.FilterGroupsV7Fields | script/coverity_parser.py:192 | the filter ignores `checkerName`, the CID and the events; an absent `checker_name` excludes nothing |
| Records.IgnoredDirIsStringPrefix | script/coverity_parser.py:195 | the directory test is a string-prefix test: `lib/zlibx/inflate.c` is dropped as under `lib/zlib` |
| Records.LeadingSlashesStripped | script/coverity_parser.py:173 | any number of leading slashes does not hide an ignored directory from the format 1-6 filter |
| Records.CidText | script/coverity_parser.py:147 | `str(cid)` is the decimal digits of the CID, or `None` when the CID is absent |
| Records.MakeKey | script/coverity_parser.py:145-147 | `make_key`; the key starts with the file; its layout and order are stated by MakeKeyLayout, KeyOrderFollowsLine and KeyOrderFollowsCid |
| Records.MakeKeyLayout | script/coverity_parser.py:145-147 | the key starts with the file, followed by at least five digits whose value is the line; it ends with at least five characters that are the digits of the CID, or `0None` when the CID is absent |
| Records.KeyOrderFollowsLine | script/coverity_parser.py:145-147 | for one file and different lines below 100000, one key is below another exactly when its line is smaller, whatever the checker and CID |
| Records.KeyOrderFollowsCid | script/coverity_parser.py:145-147 | for equal file, line and checker and CIDs below 100000, keys order as the CIDs do |
| Scan.Tally | script/coverity_parser.py:201-203 | the totals after counting a sequence of group categories in order; stated by TallyCounts and TotalIsSumOfCategories |
| Scan.AddGroup | script/coverity_parser.py:202-203 | one more group of the category and one more in all; every other count is unchanged |
| Scan.TallyCounts | script/coverity_parser.py:201-203 | counting a sequence of groups adds its length to the total, and to each category the number of its groups; other keys are unchanged |
| Scan.OccurrencesSum | script/coverity_parser.py:202 | every counted group is in exactly one of the four categories |
| Scan.TotalIsSumOfCategories | script/coverity_parser.py:163 | from empty totals, the total is the number of groups counted and the sum of the four category counts |
| Scan.IterV1 | script/coverity_parser.py:181-188 | reference definition of the format 1-6 iteration from a group index on; stated by IterV1Outcome and IterV1FirstKept, and implemented by Scan.Issues.IterIssuesV1 |
| Scan.IterV1Outcome | script/coverity_parser.py:181-188 | a format 1-6 iteration never yields an issue; it succeeds exactly when the filter rejects every group without error |
| Scan.IterV1FirstKept | script/coverity_parser.py:183-185 | the first group that passes the filter, after groups that were rejected without error, ends the iteration with UnboundLocalError for `occurrence` |
| Scan.KeptV7 | script/coverity_parser.py:201 | the groups the format 7 filter passes on, in order, never more than the input; stated by KeptV7Members and KeptV7Append |
| Scan.KeptV7Members | script/coverity_parser.py:201 | the kept groups are exactly the groups that pass the format 7 filter |
| Scan.KeptV7Append | script/coverity_parser.py:201 | filtering a concatenation keeps the kept groups of each part, in order |
| Scan.KeptV7Split | script/coverity_parser.py:201 | the kept groups are those of a prefix followed by those of the rest |
| Scan.GroupClasses | script/coverity_parser.py:202 | the categories of the kept groups, each the classification of its `checkerName`, up to the first group whose checker fails to classify |
| Scan.GroupClassesStop | script/coverity_parser.py:202 | once a checker fails to classify, no later group is classified |
| Scan.GroupClassesExtend | script/coverity_parser.py:202 | one more kept group adds its category, or stops classification when its checker fails |
| Scan.GroupIssues | script/coverity_parser.py:204-209 | one issue per event of the group |
| Scan.IssuesV7Append | script/coverity_parser.py:201-209 | the issues of two runs of kept groups are those of the first followed by those of the second |
| Scan.IssuesV7Count | script/coverity_parser.py:204-209 | the number of issues is the number of events in the kept groups |
| Scan.OccurrencesOfGroupClasses | script/coverity_parser.py:202 | when every kept checker classifies, each category occurs once per kept group of that category |
| Scan.IssuesV7Result | script/coverity_parser.py:199-209 | reference definition of what the format 7 iteration yields: every issue, or the error of the first kept checker that does not classify; stated by IssuesV7ResultOk and IssuesV7Failure, and implemented by Scan.Issues.IterIssuesV7 |
| Scan.IssuesV7ResultOk | script/coverity_parser.py:199-209 | a format 7 iteration succeeds exactly when every kept checker classifies, and then yields one issue per event |
| Scan.V7Totals | script/coverity_parser.py:199-209 | after a successful format 7 iteration from empty totals, the total is the number of kept groups (not of events), each category counts the kept groups of that category, and the total is the sum of the four categories |
| Scan.V7CategoryCount | script/coverity_parser.py:202 | the count of one category is the number of kept groups of that category |
| Scan.KeptV7Step | script/coverity_parser.py:201 | the loop step: the group at the index is kept or not |
| Scan.IssuesV7Step | script/coverity_parser.py:202-209 | a kept group that classifies adds its category to the classes and its events to the issues |
| Scan.GroupClassesFailure | script/coverity_parser.py:202 | classification stops at the first kept group whose checker fails, whatever follows |
| Scan.IssuesV7Failure | script/coverity_parser.py:201-202 | a kept group whose checker fails ends the iteration with that error, and no later group is counted |
| Scan.V7ProgressFailure | script/coverity_parser.py:202 | the counts when the iteration stops at a failing checker are those of the groups before it |
| Scan.V7ProgressEnd | script/coverity_parser.py:201-209 | at the end of the loop, the counts and issues are those of the whole report |
| Scan.ReportIssues | script/coverity_parser.py:214-217 | reference definition of what `_gen` yields for each format version, with a KeyError when the list it reads is missing; implemented by Scan.Issues.Gen |
| Scan.ReportTotals | script/coverity_parser.py:214-217 | reference definition of the totals after `_gen` has run; only format 7 and later count; stated by GenDispatch and V7Totals |
| Scan.GenDispatch | script/coverity_parser.py:214-217 | a missing format version reads as 0; from version 7 on, only `issues` is read; below it, only `issueInfo` is read and nothing is counted |
| Scan.Issues.constructor | script/coverity_parser.py:159-164 | keeps the show-all flag and starts with empty totals |
| Scan.Issues.IterIssuesV1 | script/coverity_parser.py:181-188 | the loop over the groups returns what the format 1-6 reference iteration gives: filter errors, then UnboundLocalError at the first kept group |
| Scan.Issues.EventIssues | script/coverity_parser.py:204-209 | the inner loop builds one issue per event, in order |
| Scan.Issues.IterIssuesV7 | script/coverity_parser.py:199-209 | the loop returns the issues of the kept groups, or the error of the first failing checker; the totals gain one count per kept group classified before the loop stops |
| Scan.Issues.Gen | script/coverity_parser.py:211-217 | dispatches on the format version, with a KeyError when the list it needs is missing; the totals change only for format 7 and later |
| Strings.LStrip | script/coverity_parser.py:173 | `lstrip('/')`: the longest suffix not starting with the character, preceded only by that character |
| Strings.LStripUnique | script/coverity_parser.py:118 | those properties determine the stripped string, so any such suffix is the result of `lstrip` |
| Strings.ZFill | script/coverity_parser.py:146-147 | `zfill(5)`: pads on the left to the width, after a sign, and keeps longer strings unchanged |
| Strings.ZFillKeepsValue | script/coverity_parser.py:146-147 | `str(n).zfill(w)` is a digit string of at least `w` characters whose value is `n` |
| Strings.LexLess | script/coverity_parser.py:267 | Python's `<` on the keys `sorted` compares: code-point order, a proper prefix being smaller; a strict total order by LexLessIrreflexive, LexLessTransitive and LexLessTotal |
| Strings.LexLessIrreflexive | script/coverity_parser.py:267 | no key is below itself |
| Strings.LexLessTransitive | script/coverity_parser.py:267 | the key order is transitive |
| Strings.LexLessTotal | script/coverity_parser.py:267 | any two different keys are ordered one way or the other |
| Sorting.Insert | script/coverity_parser.py:267 | insertion adds exactly the new item: one more element, the same multiset plus it |
| Sorting.SortBy | script/coverity_parser.py:267 | the result is a permutation of the input |
| Sorting.SortBySorted | script/coverity_parser.py:267 | the result is ordered by key in Python's string order |
| Sorting.InsertSorted | script/coverity_parser.py:267 | insertion into a sorted sequence keeps it sorted |
| Sorting.InsertWithKey | script/coverity_parser.py:267 | insertion puts the item after the items that have its key |
| Sorting.SortByStable | script/coverity_parser.py:267 | the sort is stable: the items with any one key keep their input order |
| Sorting.WithKeyAppend | script/coverity_parser.py:267 | the items of one key in a concatenation are those of each part, in order |
| Render.ClsString | script/coverity_parser.py:136-139 | empty exactly for an unknown category; otherwise the category name between ` (` and `)` |
| Render.ClsStringInjective | script/coverity_parser.py:136-139 | different categories give different tags |
| Render.FormatIssue | script/coverity_parser.py:225-227 | `format_issue`; read back field by field by FormatIssueRoundTrip |
| Render.FormatIssueRoundTrip | script/coverity_parser.py:225-227 | for a file without a colon and a checker without `]`, the printed line reads back as the file, the line number, the checker with its category tag, the CID text and the description |
| Render.FormatIssueFields | script/coverity_parser.py:225-227 | for a file name without a colon, the first colon field of the line is the file and the second is the decimal line number |
| Render.FormatIssueOneLine | script/coverity_parser.py:225-227 | an issue whose strings hold no newline prints as one line |
| Render.CidTextOneLine | script/coverity_parser.py:226 | the printed CID holds no newline |
| Render.FormatIssueHtml | script/coverity_parser.py:231-242 | `format_issue_html`: the seven lines of the row joined by newlines; read back by FormatIssueHtmlCells |
| Render.FormatIssueHtmlCells | script/coverity_parser.py:231-242 | the row has seven lines: the row class gives back the category; the cells give back file, line, checker with tag, CID and description; the last line closes the row |
| Render.HtmlLinesOneLine | script/coverity_parser.py:235-242 | no line of the row holds a newline when no string of the issue does |
| Render.ParseTotalsLineOf | script/coverity_parser.py:246-249 | a totals line reads back as its number |
| Render.TotalsText | script/coverity_parser.py:245-250 | `TOTALS_FORMAT.format_map(totals)`, the text line 278 writes; read back by TotalsTextRoundTrip |
| Render.TotalsTextRoundTrip | script/coverity_parser.py:245-250 | the totals text reads back as the total and the three printed category counts, with missing keys as 0 |
| Render.TotalsTextLines | script/coverity_parser.py:245-250 | the stripped template splits into exactly its four lines |
| Render.TotalsTextOfNothing | script/coverity_parser.py:245-250 | empty totals print four zero lines, as the defaultdict gives |
| Driver.ExitStatus | script/coverity_parser.py:280 | the status is 0 or 1: 1 exactly when a completed run kept issues, and always 1 after an uncaught exception |
| Driver.FormatAll | script/coverity_parser.py:267-268 | one printed line per issue, the text form of that issue, in order |
| Driver.PrintSorted | script/coverity_parser.py:267-269 | the loop prints each sorted issue and keeps the issues in the same order |
| Driver.RunSpec | script/coverity_parser.py:265-278 | reference definition of a run: the exception of the iteration, or the sorted issues, their lines and the totals text; implemented by Driver.Run |
| Driver.Run | script/coverity_parser.py:265-278 | the run gives what the reference run gives: the exception of the iteration, or the sorted issues, their lines and the totals text |
| Driver.ExitStatusIff | script/coverity_parser.py:280 | the status is 1 exactly when the iteration raises or yields an issue |
| Driver.RunIsStableSort | script/coverity_parser.py:267-269 | a completed run keeps a permutation of the found issues, ordered by key, stable for each key, and prints their text forms in that order |
| Driver.RunOrdersByLine | script/coverity_parser.py:267-269 | within one file, and for lines below 100000, the printed issues go by increasing line |
| Driver.V1Run | script/coverity_parser.py:181-188 | a format 1-6 run completes exactly when every group is filtered out, and then prints nothing, writes zero totals and exits 0; otherwise it fails with UnboundLocalError or with the error of a group the filter cannot read |
| Driver.V1FirstFailure | script/coverity_parser.py:183 | a format 1-6 failure other than UnboundLocalError is the error of some group's filter |
| Driver.FinishNothing | script/coverity_parser.py:267-280 | finding nothing prints nothing, writes four zeros and exits 0 |
| Driver.V7RunTotals | script/coverity_parser.py:276-278 | after a successful format 7 run, the totals text reads back as the number of kept groups and the numbers of kept groups that are mandatory, required and advisory |
| Driver.V7TotalsRecord | script/coverity_parser.py:202-203 | the four printed counts of a format 7 iteration, stated by kept groups |
| Driver.RunOfV7 | script/coverity_parser.py:214-215 | a successful format 7 run ends with what the iteration yielded and counted |
| Driver.FinishTotals | script/coverity_parser.py:276-278 | the totals text of any run reads back as its four printed counts |

## Left out

- Reading the JSON file is left out, and so are argument parsing, printing and the `--output` and `--totals` file writes. The run takes a parsed report and the show-all flag, and returns the printed lines, the issues and the totals text. Whether `--totals` is given does not change that text.
- The generator's laziness and caching are left out: `__iter__`, the `gen`, `iterated` and `path` fields. The iterations return everything they would yield. The script observes no difference, because `sorted` drains the generator first.
- Scan.Issues.IterIssuesV7: it accumulates the counts in a local and stores them into `totals` when the loop stops, instead of updating the field group by group. Nothing reads the field in between.
- KeyErrors for missing report fields other than `issueInfo` and `issues` are left out, because the report datatypes make those fields present. Malformed JSON values, such as a string where a number is expected, are left out for the same reason.
- Line numbers and CIDs are natural numbers; negative JSON integers are not modelled.
- `\w` and `\d` of the checker pattern are the ASCII ones. Unicode word characters and digits are not modelled.
- The unknown count is kept in the totals but never printed, as in the template. The totals text carries only total, mandatory, required and advisory.
- Render.FormatIssueFields: states the field split only for file names without a colon.
- Render.FormatIssueRoundTrip: reads the line back only for file names without a colon and checkers without `]`. It gives back the checker together with its category tag, not the two apart.
- Render.FormatIssueHtmlCells: states the cell contents only for issues whose strings hold no newline.
- Records.KeyOrderFollowsLine: holds only for lines below 100000. From there on, `zfill(5)` no longer pads to a fixed width.
- Records.KeyOrderFollowsCid: holds only for CIDs below 100000 that are present.
- Driver.RunOrdersByLine: holds only for lines below 100000.
- HTML escaping is left out, because the script does none; `format_issue_html` is never called by the command-line run.
