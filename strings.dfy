/** The pieces of Python's `str` behaviour the parser relies on: `startswith`,
    `lstrip`, `str(int)`, `zfill`, `split` and the code-point ordering of `<`. */
module Strings {
  import opened Wrappers

  /** `s.startswith(p)` */
  predicate StartsWith(s: string, p: string)
  {
    |p| <= |s| && s[..|p|] == p
  }

  /** `s.lstrip(c)` for a one-character argument: every leading `c` is removed. */
  function LStrip(s: string, c: char): (r: string)
    ensures |r| <= |s| && r == s[|s| - |r|..]
    ensures r == [] || r[0] != c
    ensures forall i :: 0 <= i < |s| - |r| ==> s[i] == c
    decreases |s|
  {
    if |s| > 0 && s[0] == c then LStrip(s[1..], c) else s
  }

  /** The three postconditions of LStrip pin its result down: it is the only
      suffix of `s` that does not start with `c` and is preceded only by `c`s. */
  lemma LStripUnique(s: string, c: char, t: string)
    requires |t| <= |s| && t == s[|s| - |t|..]
    requires t == [] || t[0] != c
    requires forall i :: 0 <= i < |s| - |t| ==> s[i] == c
    ensures t == LStrip(s, c)
    decreases |s|
  {
    if |t| < |s| {
      LStripUnique(s[1..], c, t);
    }
  }

  /** A sequence is its prefix followed by the rest. */
  lemma TakeDrop<T>(s: seq<T>, n: nat)
    requires n <= |s|
    ensures s[..n] + s[n..] == s
  {
  }

  /** The pieces of a concatenation of three strings. */
  lemma ConcatSlices(a: string, b: string, c: string)
    ensures (a + b + c)[..|a|] == a && (a + b + c)[|a|..|a| + |b|] == b
  {
  }

  /** Two fields and a rest, joined by `c`, regrouped from the right. */
  lemma JoinFields(a: string, c: char, b: string, rest: string)
    ensures a + [c] + b + [c] + rest == a + [c] + (b + [c] + rest)
  {
  }

  // ---------------------------------------------------------------- decimals

  predicate IsDigit(c: char)
  {
    '0' <= c <= '9'
  }

  predicate AllDigits(s: string)
  {
    forall i :: 0 <= i < |s| ==> IsDigit(s[i])
  }

  function DigitChar(d: nat): (c: char)
    requires d < 10
    ensures IsDigit(c)
  {
    ('0' as int + d) as char
  }

  function DigitValue(c: char): (d: nat)
    requires IsDigit(c)
    ensures d < 10 && DigitChar(d) == c
  {
    c as int - '0' as int
  }

  /** `str(n)` for a non-negative integer: decimal digits, no leading zero. */
  function NatToString(n: nat): (s: string)
    ensures |s| > 0 && AllDigits(s)
    ensures s[0] == '0' ==> n == 0
    decreases n
  {
    if n < 10 then [DigitChar(n)] else NatToString(n / 10) + [DigitChar(n % 10)]
  }

  /** The number a string of decimal digits denotes (leading zeros allowed). */
  function DecimalValue(s: string): nat
    requires AllDigits(s)
  {
    if s == [] then 0 else 10 * DecimalValue(s[..|s| - 1]) + DigitValue(s[|s| - 1])
  }

  /** Reading back what `str` wrote gives the number again. */
  lemma {:induction false} DecimalValueOfNatToString(n: nat)
    ensures DecimalValue(NatToString(n)) == n
    decreases n
  {
    var s := NatToString(n);
    if n >= 10 {
      DecimalValueOfNatToString(n / 10);
      assert s[..|s| - 1] == NatToString(n / 10);
    }
  }

  function Zeros(k: nat): (z: string)
    ensures |z| == k && AllDigits(z)
    ensures forall i :: 0 <= i < k ==> z[i] == '0'
  {
    seq(k, _ => '0')
  }

  /** Leading zeros do not change the value of a digit string. */
  lemma {:induction false} DecimalValueLeadingZeros(k: nat, s: string)
    requires AllDigits(s)
    ensures DecimalValue(Zeros(k) + s) == DecimalValue(s)
    decreases |s|
  {
    if s == [] {
      ZerosValue(k);
      assert Zeros(k) + s == Zeros(k);
    } else {
      var t := Zeros(k) + s;
      assert t[..|t| - 1] == Zeros(k) + s[..|s| - 1];
      DecimalValueLeadingZeros(k, s[..|s| - 1]);
    }
  }

  lemma {:induction false} ZerosValue(k: nat)
    ensures DecimalValue(Zeros(k)) == 0
  {
    if k > 0 {
      assert Zeros(k)[..k - 1] == Zeros(k - 1);
      ZerosValue(k - 1);
    }
  }

  /** `s.zfill(width)`: pad on the left with '0' to `width` characters, after
      a leading sign if there is one. */
  function ZFill(s: string, width: nat): (r: string)
    ensures |r| == if |s| >= width then |s| else width
    ensures |s| >= width ==> r == s
    ensures (s == [] || s[0] !in "+-") ==> r[|r| - |s|..] == s
    ensures s != [] && s[0] in "+-" ==> r[0] == s[0] && r[|r| - |s| + 1..] == s[1..]
  {
    if |s| >= width then s
    else if s != [] && s[0] in "+-" then [s[0]] + Zeros(width - |s|) + s[1..]
    else Zeros(width - |s|) + s
  }

  /** Zero-filling a digit string keeps its value and only ever lengthens it. */
  lemma ZFillDigits(s: string, width: nat)
    requires s != [] && AllDigits(s)
    ensures AllDigits(ZFill(s, width))
    ensures DecimalValue(ZFill(s, width)) == DecimalValue(s)
    ensures |ZFill(s, width)| >= width
  {
    if |s| < width {
      assert s[0] !in "+-" by {
        assert IsDigit(s[0]);
      }
      var z := Zeros(width - |s|);
      assert ZFill(s, width) == z + s;
      assert forall k :: 0 <= k < |z + s| ==> (z + s)[k] == if k < |z| then z[k] else s[k - |z|];
      DecimalValueLeadingZeros(width - |s|, s);
    }
  }

  /** `str(n).zfill(width)` still denotes `n`. */
  lemma ZFillKeepsValue(n: nat, width: nat)
    ensures AllDigits(ZFill(NatToString(n), width))
    ensures DecimalValue(ZFill(NatToString(n), width)) == n
    ensures |ZFill(NatToString(n), width)| >= width
  {
    ZFillDigits(NatToString(n), width);
    DecimalValueOfNatToString(n);
  }

  function Pow10(w: nat): (p: nat)
    ensures p >= 1
  {
    if w == 0 then 1 else 10 * Pow10(w - 1)
  }

  /** The last `w` decimal digits of `n`, most significant first. */
  function FixedDigits(n: nat, w: nat): (s: string)
    ensures |s| == w && AllDigits(s)
  {
    if w == 0 then [] else FixedDigits(n / 10, w - 1) + [DigitChar(n % 10)]
  }

  lemma {:induction false} FixedDigitsValue(n: nat, w: nat)
    requires n < Pow10(w)
    ensures DecimalValue(FixedDigits(n, w)) == n
  {
    if w > 0 {
      var s := FixedDigits(n, w);
      assert s[..w - 1] == FixedDigits(n / 10, w - 1);
      FixedDigitsValue(n / 10, w - 1);
    }
  }

  lemma {:induction false} FixedDigitsOfZero(w: nat)
    ensures FixedDigits(0, w) == Zeros(w)
  {
    if w > 0 {
      FixedDigitsOfZero(w - 1);
    }
  }

  /** Dropping the last digit of a number below 10^w leaves one below 10^(w-1). */
  lemma DropLastDigit(n: nat, w: nat)
    requires w >= 1 && n < Pow10(w)
    ensures n / 10 < Pow10(w - 1)
    ensures n >= 10 ==> w >= 2
  {
    var p := Pow10(w - 1);
    assert Pow10(w) == 10 * p;
    assert n / 10 < p by {
      assert n < 10 * p;
    }
    assert w == 1 ==> p == 1;
  }

  /** Zero-filling a digit string that is not too long, then appending a
      digit, is zero-filling the longer string to one more place. */
  lemma ZFillAppend(t: string, c: char, w: nat)
    requires |t| <= w && AllDigits(t) && IsDigit(c)
    ensures ZFill(t + [c], w + 1) == ZFill(t, w) + [c]
  {
    assert !IsDigit('+') && !IsDigit('-');
    assert (t + [c])[0] == if t == [] then c else t[0];
    assert ZFill(t + [c], w + 1) == Zeros(w - |t|) + (t + [c]);
  }

  /** Below 10^w (w >= 1), zero-filling `str(n)` to width w gives exactly w digits. */
  lemma {:induction false} ZFillIsFixedDigits(n: nat, w: nat)
    requires w >= 1 && n < Pow10(w)
    ensures |NatToString(n)| <= w
    ensures ZFill(NatToString(n), w) == FixedDigits(n, w)
    decreases n
  {
    var s := NatToString(n);
    if n < 10 {
      FixedDigitsOfZero(w - 1);
      assert FixedDigits(n, w) == Zeros(w - 1) + s;
    } else {
      DropLastDigit(n, w);
      ZFillIsFixedDigits(n / 10, w - 1);
      var t := NatToString(n / 10);
      assert s == t + [DigitChar(n % 10)];
      ZFillAppend(t, DigitChar(n % 10), w - 1);
    }
  }

  // ---------------------------------------------------------------- ordering

  /** `a < b` on Python strings: lexicographic by code point, a proper prefix
      being smaller. */
  predicate LexLess(a: string, b: string)
  {
    if a == [] then b != []
    else if b == [] then false
    else a[0] < b[0] || (a[0] == b[0] && LexLess(a[1..], b[1..]))
  }

  /** `a <= b` on Python strings. */
  predicate LexLe(a: string, b: string)
  {
    a == b || LexLess(a, b)
  }

  lemma {:induction false} LexLessIrreflexive(a: string)
    ensures !LexLess(a, a)
  {
    if a != [] {
      LexLessIrreflexive(a[1..]);
    }
  }

  lemma {:induction false} LexLessTransitive(a: string, b: string, c: string)
    requires LexLess(a, b) && LexLess(b, c)
    ensures LexLess(a, c)
  {
    if a != [] && a[0] == b[0] && b[0] == c[0] {
      LexLessTransitive(a[1..], b[1..], c[1..]);
    }
  }

  lemma {:induction false} LexLessTotal(a: string, b: string)
    ensures a == b || LexLess(a, b) || LexLess(b, a)
  {
    if a != [] && b != [] && a[0] == b[0] {
      LexLessTotal(a[1..], b[1..]);
      if a[1..] == b[1..] {
        assert a == [a[0]] + a[1..] && b == [b[0]] + b[1..];
      }
    }
  }

  lemma LexLeTransitive(a: string, b: string, c: string)
    requires LexLe(a, b) && LexLe(b, c)
    ensures LexLe(a, c)
  {
    if LexLess(a, b) && LexLess(b, c) {
      LexLessTransitive(a, b, c);
    }
  }

  /** A shared prefix does not affect the comparison. */
  lemma {:induction false} LexLessCommonPrefix(p: string, x: string, y: string)
    ensures LexLess(p + x, p + y) <==> LexLess(x, y)
  {
    if p != [] {
      assert (p + x)[0] == p[0] == (p + y)[0];
      assert (p + x)[1..] == p[1..] + x && (p + y)[1..] == p[1..] + y;
      LexLessCommonPrefix(p[1..], x, y);
    } else {
      assert p + x == x && p + y == y;
    }
  }

  /** Two different strings of the same length decide the comparison of
      whatever follows them. */
  lemma {:induction false} LexLessSameLengthPrefix(p: string, q: string, x: string, y: string)
    requires |p| == |q| && p != q
    ensures LexLess(p + x, q + y) <==> LexLess(p, q)
  {
    assert p != [];
    assert (p + x)[0] == p[0] && (q + y)[0] == q[0];
    if p[0] == q[0] {
      assert p == [p[0]] + p[1..] && q == [q[0]] + q[1..];
      assert (p + x)[1..] == p[1..] + x && (q + y)[1..] == q[1..] + y;
      LexLessSameLengthPrefix(p[1..], q[1..], x, y);
    }
  }

  /** Different numbers below 10^w have different fixed-width digits. */
  lemma FixedDigitsDiffer(a: nat, b: nat, w: nat)
    requires a < Pow10(w) && b < Pow10(w) && a != b
    ensures FixedDigits(a, w) != FixedDigits(b, w)
  {
    FixedDigitsValue(a, w);
    FixedDigitsValue(b, w);
  }

  /** On fixed-width digit strings the string order is the numeric order. */
  lemma {:induction false} FixedDigitsOrder(a: nat, b: nat, w: nat)
    requires a < Pow10(w) && b < Pow10(w)
    ensures LexLess(FixedDigits(a, w), FixedDigits(b, w)) <==> a < b
  {
    if w == 0 {
    } else {
      var pa, pb := FixedDigits(a / 10, w - 1), FixedDigits(b / 10, w - 1);
      var da, db := [DigitChar(a % 10)], [DigitChar(b % 10)];
      if a / 10 == b / 10 {
        LexLessCommonPrefix(pa, da, db);
      } else {
        FixedDigitsValue(a / 10, w - 1);
        FixedDigitsValue(b / 10, w - 1);
        LexLessSameLengthPrefix(pa, pb, da, db);
        FixedDigitsOrder(a / 10, b / 10, w - 1);
      }
    }
  }

  // ---------------------------------------------------------------- splitting

  /** The first index of `c` in `s`, like `s.find(c)`. */
  function IndexOf(s: string, c: char): (r: Option<nat>)
    ensures r.None? <==> c !in s
    ensures r.Some? ==> r.value < |s| && s[r.value] == c && c !in s[..r.value]
    decreases |s|
  {
    if s == [] then None
    else if s[0] == c then Some(0)
    else match IndexOf(s[1..], c)
      case None => None
      case Some(i) => Some(i + 1)
  }

  /** `s.split(c)` for a one-character separator. */
  function Split(s: string, c: char): (r: seq<string>)
    ensures |r| >= 1
    ensures forall k :: 0 <= k < |r| ==> c !in r[k]
    decreases |s|
  {
    match IndexOf(s, c)
    case None => [s]
    case Some(i) => [s[..i]] + Split(s[i + 1..], c)
  }

  /** Splitting undoes joining: a separator-free first piece comes back whole. */
  lemma SplitFirst(a: string, c: char, b: string)
    requires c !in a
    ensures Split(a + [c] + b, c) == [a] + Split(b, c)
  {
    var s := a + [c] + b;
    assert s[|a|] == c && s[..|a|] == a;
    assert forall k :: 0 <= k < |a| ==> s[k] == a[k];
    assert forall k :: |a| < k <= |s| ==> s[..k][|a|] == c;
    assert s[|a| + 1..] == b;
  }

  /** `s.partition(c)` when `c` occurs: the text before the first `c`, and the
      text after it. */
  function Cut(s: string, c: char): (r: Option<(string, string)>)
    ensures r.None? <==> c !in s
    ensures r.Some? ==> c !in r.value.0 && r.value.0 + [c] + r.value.1 == s
  {
    match IndexOf(s, c)
    case None => None
    case Some(i) =>
      AroundIndex(s, i);
      Some((s[..i], s[i + 1..]))
  }

  /** A sequence is what precedes an index, the element there, and what follows. */
  lemma AroundIndex<T>(s: seq<T>, i: nat)
    requires i < |s|
    ensures s[..i] + [s[i]] + s[i + 1..] == s
  {
  }

  /** Cutting at the first `c` undoes joining a `c`-free first piece. */
  lemma CutAt(a: string, c: char, b: string)
    requires c !in a
    ensures Cut(a + [c] + b, c) == Some((a, b))
  {
    var s := a + [c] + b;
    assert s[|a|] == c && s[..|a|] == a;
    assert forall k :: 0 <= k < |a| ==> s[k] == a[k];
    assert forall k :: |a| < k <= |s| ==> s[..k][|a|] == c;
    assert s[|a| + 1..] == b;
  }

  lemma SplitNone(a: string, c: char)
    requires c !in a
    ensures Split(a, c) == [a]
  {
  }

  /** The text between a known opening and a known closing part. */
  function Between(s: string, open: string, close: string): (r: Option<string>)
    ensures r.Some? ==> open + r.value + close == s
  {
    if |open| + |close| <= |s| && s[..|open|] == open && s[|s| - |close|..] == close
    then Some(s[|open|..|s| - |close|])
    else None
  }

  lemma BetweenOfWrapped(open: string, x: string, close: string)
    ensures Between(open + x + close, open, close) == Some(x)
  {
    var s := open + x + close;
    assert s[..|open|] == open;
    assert s[|s| - |close|..] == close;
    assert s[|open|..|s| - |close|] == x;
  }

  // ---------------------------------------------------------------- lines

  /** `"\n".join(ls)`. */
  function JoinLines(ls: seq<string>): string
    decreases |ls|
  {
    if ls == [] then "" else if |ls| == 1 then ls[0] else ls[0] + "\n" + JoinLines(ls[1..])
  }

  /** Splitting at newlines undoes joining lines that hold none. */
  lemma {:induction false} SplitJoinLines(ls: seq<string>)
    requires |ls| >= 1 && forall k :: 0 <= k < |ls| ==> '\n' !in ls[k]
    ensures Split(JoinLines(ls), '\n') == ls
    decreases |ls|
  {
    if |ls| == 1 {
      SplitNone(ls[0], '\n');
    } else {
      SplitJoinLines(ls[1..]);
      SplitFirst(ls[0], '\n', JoinLines(ls[1..]));
      assert ls == [ls[0]] + ls[1..];
    }
  }

  /** A digit string holds no other character. */
  lemma DigitsExclude(s: string, c: char)
    requires AllDigits(s) && !IsDigit(c)
    ensures c !in s
  {
    assert forall k :: 0 <= k < |s| ==> s[k] != c;
  }
}
