/** Classification of a Coverity checker name into a MISRA C:2012 guideline
    category (script/coverity_parser.py, lines 51-107). */
module Misra {
  import opened Wrappers
  import opened Exceptions

  /** The category a checker name is reported under. */
  datatype Classification = Mandatory | Required | Advisory | Unknown
  {
    /** The string the parser uses for the category, also a key of the totals. */
    function Name(): (s: string)
      ensures s != "total"
    {
      match this
      case Mandatory => "mandatory"
      case Required => "required"
      case Advisory => "advisory"
      case Unknown => "unknown"
    }
  }

  /** Different categories have different names. */
  lemma NameInjective(a: Classification, b: Classification)
    ensures a.Name() == b.Name() <==> a == b
  {
  }

  // ------------------------------------------------------------- guideline data
  // The category sets of MISRA C:2012 with Amendment 1, as the script lists them.

  const DirRequired: set<string> :=
    {"1.1", "2.1", "3.1", "4.1", "4.3", "4.7", "4.10", "4.11", "4.12", "4.14"}

  const DirAdvisory: set<string> :=
    {"4.2", "4.4", "4.5", "4.6", "4.8", "4.9", "4.13"}

  const RuleMandatory: set<string> :=
    {"9.1", "9.2", "9.3", "12.5", "13.6", "17.3", "17.4", "17.6", "19.1", "21.13", "21.17",
     "21.18", "21.19", "21.20", "22.2", "22.5", "22.6"}

  const RuleRequired: set<string> :=
    {"1.1", "1.3", "2.1", "2.2", "3.1", "3.2", "4.1", "5.1", "5.2", "5.3", "5.4", "5.5",
     "5.6", "5.7", "5.8", "6.1", "6.2", "7.1", "7.2", "7.3", "7.4", "8.1", "8.2", "8.3",
     "8.4", "8.5", "8.6", "8.7", "8.8", "8.10", "8.12", "8.14", "9.2", "9.3", "9.4", "9.5",
     "10.1", "10.2", "10.3", "10.4", "10.6", "10.7", "10.8", "11.1", "11.2", "11.3", "11.6",
     "11.7", "11.8", "11.9", "12.2", "13.1", "13.2", "13.5", "14.1", "14.2", "14.3", "14.4",
     "15.2", "15.3", "15.6", "15.7", "16.1", "16.2", "16.3", "16.4", "16.5", "16.6", "16.7",
     "17.1", "17.2", "17.7", "18.1", "18.2", "18.3", "18.6", "18.7", "18.8", "20.3", "20.4",
     "20.6", "20.7", "20.8", "20.9", "20.11", "20.12", "20.13", "20.14", "21.1", "21.2",
     "21.3", "21.4", "21.5", "21.6", "21.7", "21.8", "21.9", "21.10", "21.11", "21.14",
     "21.15", "21.16", "22.1", "22.3", "22.4", "22.7", "22.8", "22.9", "22.10"}

  const RuleAdvisory: set<string> :=
    {"1.2", "2.3", "2.4", "2.5", "2.6", "2.7", "4.2", "5.9", "8.9", "8.11", "8.13", "10.5",
     "11.4", "11.5", "12.1", "12.3", "12.4", "13.3", "13.4", "15.1", "15.4", "15.5", "17.5",
     "17.8", "18.4", "18.5", "19.2", "20.1", "20.2", "20.5", "20.10", "21.12"}

  /** Per guideline kind, the categories in the order they are tried. */
  type CategoryTable = seq<(Classification, set<string>)>

  const DirectiveTable: CategoryTable := [(Required, DirRequired), (Advisory, DirAdvisory)]

  const RuleTable: CategoryTable :=
    [(Mandatory, RuleMandatory), (Required, RuleRequired), (Advisory, RuleAdvisory)]

  /** `_checker_lookup[kind]`, None standing for the KeyError of a missing kind. */
  function CheckerLookup(kind: string): (r: Option<CategoryTable>)
    ensures r.Some? <==> kind == "Directive" || kind == "Rule"
  {
    if kind == "Directive" then Some(DirectiveTable)
    else if kind == "Rule" then Some(RuleTable)
    else None
  }

  // ------------------------------------------------- the checker-name pattern
  // `(?P<kind>\w+) (?P<number>[\d\.]+)$`, searched for anywhere in the name.
  // Word characters and digits are the ASCII ones.

  predicate IsWordChar(c: char)
  {
    'a' <= c <= 'z' || 'A' <= c <= 'Z' || '0' <= c <= '9' || c == '_'
  }

  predicate IsNumberChar(c: char)
  {
    '0' <= c <= '9' || c == '.'
  }

  /** `$` matches at the end of the text, or just before a newline that ends it. */
  ghost predicate EndAnchor(s: string, e: int)
  {
    e == |s| || (0 <= e == |s| - 1 && s[e] == '\n')
  }

  /** The pattern matches `s[i..e]`, with the kind group `s[i..j]`, the one
      space at `j` and the number group `s[j+1..e]`. */
  ghost predicate MatchAt(s: string, i: int, j: int, e: int)
  {
    && 0 <= i < j && j + 1 < e <= |s|
    && EndAnchor(s, e)
    && (forall k :: i <= k < j ==> IsWordChar(s[k]))
    && s[j] == ' '
    && (forall k :: j < k < e ==> IsNumberChar(s[k]))
  }

  /** The match `re.search` reports: the one starting furthest left. */
  ghost predicate LeftmostMatch(s: string, i: int, j: int, e: int)
  {
    MatchAt(s, i, j, e) && forall i', j', e' :: MatchAt(s, i', j', e') ==> i <= i'
  }

  /** Where the groups of a match lie in the checker name. */
  datatype CheckerMatch = CheckerMatch(start: nat, space: nat, end: nat)

  /** The index of the last `c` in `t`. */
  function LastIndexOf(t: string, c: char): (r: Option<nat>)
    ensures r.None? ==> forall k :: 0 <= k < |t| ==> t[k] != c
    ensures r.Some? ==> r.value < |t| && t[r.value] == c
    ensures r.Some? ==> forall k :: r.value < k < |t| ==> t[k] != c
    decreases |t|
  {
    if t == [] then None
    else if t[|t| - 1] == c then Some(|t| - 1)
    else LastIndexOf(t[..|t| - 1], c)
  }

  /** The start of the longest run of word characters that ends at `j`. */
  function WordRunStart(s: string, j: nat): (i: nat)
    requires j <= |s|
    ensures i <= j
    ensures forall k :: i <= k < j ==> IsWordChar(s[k])
    ensures i == 0 || !IsWordChar(s[i - 1])
    decreases j
  {
    if j == 0 || !IsWordChar(s[j - 1]) then j else WordRunStart(s, j - 1)
  }

  /** `_checker_re.search(checker)`: the number group runs from the last space
      to the anchor, and the kind group is the word run before that space. */
  function Search(s: string): (r: Option<CheckerMatch>)
    ensures r.Some? ==> MatchAt(s, r.value.start, r.value.space, r.value.end)
  {
    var e := if |s| > 0 && s[|s| - 1] == '\n' then |s| - 1 else |s|;
    match LastIndexOf(s[..e], ' ')
    case None => None
    case Some(j) =>
      if j + 1 < e && (forall k :: j < k < e ==> IsNumberChar(s[k])) then
        var i := WordRunStart(s, j);
        if i < j then Some(CheckerMatch(i, j, e)) else None
      else None
  }

  /** Any match ends where Search's does and has its space at the same place. */
  lemma MatchShape(s: string, i: int, j: int, e: int)
    requires MatchAt(s, i, j, e)
    ensures e == (if |s| > 0 && s[|s| - 1] == '\n' then |s| - 1 else |s|)
    ensures LastIndexOf(s[..e], ' ') == Some(j)
  {
    var t := s[..e];
    var r := LastIndexOf(t, ' ');
    assert t[j] == ' ';
    assert forall k :: j < k < e ==> t[k] != ' ' by {
      assert forall k :: j < k < e ==> IsNumberChar(s[k]) && t[k] == s[k];
    }
    assert r.Some? && r.value >= j;
    assert r.value == j by {
      assert forall k :: j < k < e ==> t[k] == s[k] && IsNumberChar(s[k]);
    }
  }

  /** Search finds exactly the leftmost match, and finds one whenever the
      pattern matches somewhere. */
  lemma SearchCorrect(s: string)
    ensures Search(s).Some? ==> LeftmostMatch(s, Search(s).value.start, Search(s).value.space, Search(s).value.end)
    ensures Search(s).Some? ==> forall i, j, e :: MatchAt(s, i, j, e) ==> j == Search(s).value.space && e == Search(s).value.end
    ensures Search(s).None? ==> forall i, j, e :: !MatchAt(s, i, j, e)
  {
    forall i, j, e | MatchAt(s, i, j, e)
      ensures Search(s).Some? && Search(s).value.start <= i
      ensures j == Search(s).value.space && e == Search(s).value.end
    {
      MatchShape(s, i, j, e);
      var i0 := WordRunStart(s, j);
      assert i0 <= i by {
        assert forall k :: i <= k < j ==> IsWordChar(s[k]);
      }
    }
  }

  // ------------------------------------------------------------ classification

  /** `number` is in the set of entry `k`, and in none of the earlier ones. */
  ghost predicate FirstHit(number: string, table: CategoryTable, k: int)
  {
    0 <= k < |table| && number in table[k].1 && forall k' :: 0 <= k' < k ==> number !in table[k'].1
  }

  /** The loop over `_checker_lookup[kind].items()`: the category of the first
      set holding the number, or Unknown when none does. */
  function FirstCategory(number: string, table: CategoryTable): (r: Classification)
    ensures (forall k :: 0 <= k < |table| ==> number !in table[k].1) ==> r == Unknown
    ensures forall k :: FirstHit(number, table, k) ==> r == table[k].0
    decreases |table|
  {
    if table == [] then Unknown
    else if number in table[0].1 then table[0].0
    else
      var r := FirstCategory(number, table[1..]);
      assert forall k :: FirstHit(number, table, k) ==> FirstHit(number, table[1..], k - 1);
      r
  }

  /** Lines 97-107 once the pattern has matched: a KeyError when the kind is
      neither Directive nor Rule, otherwise the first category of that kind
      whose set holds the number. */
  function ClassifyMatched(kind: string, number: string): (r: Result<Classification, Exception>)
    ensures r.Err? <==> kind != "Directive" && kind != "Rule"
    ensures r.Err? ==> r.error == KeyError(kind)
    ensures kind == "Rule" ==> r == Ok(FirstCategory(number, RuleTable))
    ensures kind == "Directive" ==> r == Ok(FirstCategory(number, DirectiveTable))
  {
    if CheckerLookup(kind).Some? then Ok(FirstCategory(number, CheckerLookup(kind).value))
    else Err(KeyError(kind))
  }

  /** `_classify_checker`: Unknown when the pattern does not match, otherwise
      the classification of the matched kind and number. */
  function ClassifyChecker(checker: string): (r: Result<Classification, Exception>)
  {
    match Search(checker)
    case None => Ok(Unknown)
    case Some(m) => ClassifyMatched(checker[m.start..m.space], checker[m.space + 1..m.end])
  }

  /** What ClassifyChecker yields, in terms of the pattern alone. */
  lemma ClassifyCheckerSpec(checker: string)
    ensures (forall i, j, e :: !MatchAt(checker, i, j, e)) ==> ClassifyChecker(checker) == Ok(Unknown)
    ensures forall i, j, e :: LeftmostMatch(checker, i, j, e) ==>
      ClassifyChecker(checker) == ClassifyMatched(checker[i..j], checker[j + 1..e])
  {
    SearchCorrect(checker);
  }

  /** The category is Unknown exactly when the pattern does not match, or when
      it matches a known kind whose sets all miss the number. */
  lemma UnknownIff(checker: string)
    ensures ClassifyChecker(checker) == Ok(Unknown) <==>
      || (forall i, j, e :: !MatchAt(checker, i, j, e))
      || (exists i, j, e :: LeftmostMatch(checker, i, j, e) && CheckerLookup(checker[i..j]).Some? &&
            forall k :: 0 <= k < |CheckerLookup(checker[i..j]).value| ==>
              checker[j + 1..e] !in CheckerLookup(checker[i..j]).value[k].1)
  {
    SearchCorrect(checker);
    match Search(checker)
    case None =>
    case Some(m) =>
      var kind, number := checker[m.start..m.space], checker[m.space + 1..m.end];
      assert LeftmostMatch(checker, m.start, m.space, m.end);
      MatchedUnknownIff(kind, number);
  }

  /** After a match: Unknown exactly when the kind is known and none of its
      sets holds the number. */
  lemma MatchedUnknownIff(kind: string, number: string)
    ensures ClassifyMatched(kind, number) == Ok(Unknown) <==>
      CheckerLookup(kind).Some? &&
      forall k :: 0 <= k < |CheckerLookup(kind).value| ==> number !in CheckerLookup(kind).value[k].1
  {
    if CheckerLookup(kind).Some? {
      var table := CheckerLookup(kind).value;
      forall k | 0 <= k < |table| && number in table[k].1
        ensures FirstCategory(number, table) != Unknown
      {
        var k0 := FirstIndexHolding(number, table, k);
        assert FirstHit(number, table, k0);
      }
    }
  }

  /** The first entry, up to `k`, whose set holds `number`. */
  lemma FirstIndexHolding(number: string, table: CategoryTable, k: nat) returns (k0: nat)
    requires k < |table| && number in table[k].1
    ensures k0 <= k && FirstHit(number, table, k0)
  {
    k0 := 0;
    while number !in table[k0].1
      invariant k0 <= k
      invariant forall k' :: 0 <= k' < k0 ==> number !in table[k'].1
      decreases k - k0
    {
      k0 := k0 + 1;
    }
  }

  /** A kind other than Directive or Rule makes the lookup fail. */
  lemma UnknownKindIsKeyError(checker: string, i: int, j: int, e: int)
    requires LeftmostMatch(checker, i, j, e)
    requires checker[i..j] != "Directive" && checker[i..j] != "Rule"
    ensures ClassifyChecker(checker) == Err(KeyError(checker[i..j]))
  {
    ClassifyCheckerSpec(checker);
  }

  /** FirstCategory on a table of three entries tries them in order. */
  lemma FirstOfThree(number: string, a: Classification, sa: set<string>,
                     b: Classification, sb: set<string>, c: Classification, sc: set<string>)
    ensures FirstCategory(number, [(a, sa), (b, sb), (c, sc)]) ==
      if number in sa then a else if number in sb then b else if number in sc then c else Unknown
  {
    var t := [(a, sa), (b, sb), (c, sc)];
    assert FirstHit(number, t, 0) || FirstHit(number, t, 1) || FirstHit(number, t, 2) ||
      forall k :: 0 <= k < |t| ==> number !in t[k].1;
  }

  /** FirstCategory on a table of two entries tries them in order. */
  lemma FirstOfTwo(number: string, a: Classification, sa: set<string>, b: Classification, sb: set<string>)
    ensures FirstCategory(number, [(a, sa), (b, sb)]) ==
      if number in sa then a else if number in sb then b else Unknown
  {
    var t := [(a, sa), (b, sb)];
    assert FirstHit(number, t, 0) || FirstHit(number, t, 1) ||
      forall k :: 0 <= k < |t| ==> number !in t[k].1;
  }

  /** The order of the Rule categories: mandatory wins over required, which
      wins over advisory. */
  lemma RuleCategoryOrder(number: string)
    ensures FirstCategory(number, RuleTable) ==
      if number in RuleMandatory then Mandatory
      else if number in RuleRequired then Required
      else if number in RuleAdvisory then Advisory
      else Unknown
  {
    FirstOfThree(number, Mandatory, RuleMandatory, Required, RuleRequired, Advisory, RuleAdvisory);
  }

  /** The order of the Directive categories: required wins over advisory. */
  lemma DirectiveCategoryOrder(number: string)
    ensures FirstCategory(number, DirectiveTable) ==
      if number in DirRequired then Required
      else if number in DirAdvisory then Advisory
      else Unknown
  {
    FirstOfTwo(number, Required, DirRequired, Advisory, DirAdvisory);
  }

  // ----------------------------------------------------- Coverity MISRA names

  /** How Coverity names a MISRA C:2012 checker. */
  function MisraName(kind: string, number: string): string
  {
    "MISRA C-2012 " + kind + " " + number
  }

  /** A MISRA checker name is matched with its own kind and number. */
  lemma SearchMisraName(kind: string, number: string)
    requires kind != [] && forall k :: 0 <= k < |kind| ==> IsWordChar(kind[k])
    requires number != [] && forall k :: 0 <= k < |number| ==> IsNumberChar(number[k])
    ensures Search(MisraName(kind, number)).Some?
    ensures var s, m := MisraName(kind, number), Search(MisraName(kind, number)).value;
      s[m.start..m.space] == kind && s[m.space + 1..m.end] == number
  {
    var s := MisraName(kind, number);
    var j := 13 + |kind|;
    assert s[..13] == "MISRA C-2012 " && s[13..j] == kind && s[j] == ' ' && s[j + 1..] == number;
    assert s[|s| - 1] == number[|number| - 1];
    assert MatchAt(s, 13, j, |s|) by {
      assert forall k :: 13 <= k < j ==> s[k] == kind[k - 13];
      assert forall k :: j < k < |s| ==> s[k] == number[k - j - 1];
    }
    SearchCorrect(s);
    var m := Search(s).value;
    assert m.start == 13 by {
      assert s[12] == ' ';
      assert !IsWordChar(s[12]);
    }
  }

  /** A MISRA checker name is classified by its own kind and number. */
  lemma ClassifyMisraName(kind: string, number: string)
    requires kind != [] && forall k :: 0 <= k < |kind| ==> IsWordChar(kind[k])
    requires number != [] && forall k :: 0 <= k < |number| ==> IsNumberChar(number[k])
    ensures ClassifyChecker(MisraName(kind, number)) == ClassifyMatched(kind, number)
  {
    SearchMisraName(kind, number);
  }

  /** Rules 9.2 and 9.3 are listed both as mandatory and as required; the
      first match makes them mandatory. */
  lemma Rules92And93AreListedTwice()
    ensures "9.2" in RuleMandatory && "9.2" in RuleRequired
    ensures "9.3" in RuleMandatory && "9.3" in RuleRequired
  {
  }

  lemma Rule92IsMandatory(checker: string)
    requires checker == "MISRA C-2012 Rule 9.2"
    ensures ClassifyChecker(checker) == Ok(Mandatory)
  {
    assert checker == MisraName("Rule", "9.2");
    ClassifyMisraName("Rule", "9.2");
    RuleCategoryOrder("9.2");
  }

  lemma Rule93IsMandatory(checker: string)
    requires checker == "MISRA C-2012 Rule 9.3"
    ensures ClassifyChecker(checker) == Ok(Mandatory)
  {
    assert checker == MisraName("Rule", "9.3");
    ClassifyMisraName("Rule", "9.3");
    RuleCategoryOrder("9.3");
  }

  /** Directive 4.6 is advisory (and is also excluded from the reports). */
  lemma Directive46IsAdvisory(checker: string)
    requires checker == "MISRA C-2012 Directive 4.6"
    ensures ClassifyChecker(checker) == Ok(Advisory)
  {
    assert checker == MisraName("Directive", "4.6");
    ClassifyMisraName("Directive", "4.6");
    Directive46Category("4.6");
  }

  lemma Directive46Category(number: string)
    requires number == "4.6"
    ensures FirstCategory(number, DirectiveTable) == Advisory
  {
    DirectiveCategoryOrder(number);
    assert number !in DirRequired;
  }
}
