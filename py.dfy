/** The small part of Python's runtime that the relay's core leans on:
    exceptions as values, and the string builtins `str.isspace`, `str.split()`,
    `str.lower()`, `str.isdigit()`, `int(str)` and `str(int)`. */
module Py {

  datatype Option<T> = None | Some(value: T)

  /** The exceptions the core can raise or catch. */
  datatype Exc =
    | ValueError
    | KeyError
    | OverflowError
    | ConnectionClosedOK
    | ConnectionClosedError

  /** A Python call either returns a value or raises. */
  datatype Result<T> = Ok(value: T) | Err(error: Exc)

  /** No element occurs twice. */
  predicate Distinct<T(==)>(s: seq<T>) {
    forall i, j :: 0 <= i < j < |s| ==> s[i] != s[j]
  }

  // ---------------------------------------------------------------------
  // Whitespace and str.split()

  /** The characters for which `str.isspace()` holds; `str.split()` with no
      argument splits on runs of them. */
  predicate IsSpace(c: char) {
    c == ' ' || ('\t' <= c <= '\r') || ('\U{1c}' <= c <= '\U{1f}')
    || c == '\U{85}' || c == '\U{a0}' || c == '\U{1680}'
    || ('\U{2000}' <= c <= '\U{200a}') || c == '\U{2028}' || c == '\U{2029}'
    || c == '\U{202f}' || c == '\U{205f}' || c == '\U{3000}'
  }

  predicate AllSpace(s: string) {
    forall i :: 0 <= i < |s| ==> IsSpace(s[i])
  }

  /** A token of `str.split()`: non-empty, without whitespace. */
  predicate IsWord(w: string) {
    |w| > 0 && forall i :: 0 <= i < |w| ==> !IsSpace(w[i])
  }

  /** Length of the longest whitespace-free prefix of `s`. */
  function WordLen(s: string): (n: nat)
    ensures n <= |s|
    ensures forall i :: 0 <= i < n ==> !IsSpace(s[i])
    ensures n < |s| ==> IsSpace(s[n])
  {
    if s == [] || IsSpace(s[0]) then 0 else 1 + WordLen(s[1..])
  }

  /** `s.split()`: the maximal whitespace-free runs of `s`, in order. */
  function Split(s: string): (words: seq<string>)
    ensures forall k :: 0 <= k < |words| ==> IsWord(words[k])
    ensures words == [] <==> AllSpace(s)
    decreases |s|
  {
    if s == [] then []
    else if IsSpace(s[0]) then Split(s[1..])
    else
      var n := WordLen(s);
      [s[..n]] + Split(s[n..])
  }

  /** The characters of `s` other than whitespace, in order. */
  function NonSpace(s: string): string {
    if s == [] then [] else (if IsSpace(s[0]) then [] else [s[0]]) + NonSpace(s[1..])
  }

  function Concat(ws: seq<string>): string {
    if ws == [] then [] else ws[0] + Concat(ws[1..])
  }

  lemma {:induction false} NonSpaceAppend(a: string, b: string)
    ensures NonSpace(a + b) == NonSpace(a) + NonSpace(b)
    decreases |a|
  {
    if a != [] {
      assert (a + b)[1..] == a[1..] + b;
      NonSpaceAppend(a[1..], b);
    } else {
      assert a + b == b;
    }
  }

  lemma {:induction false} NonSpaceOfWord(w: string)
    requires forall i :: 0 <= i < |w| ==> !IsSpace(w[i])
    ensures NonSpace(w) == w
    decreases |w|
  {
    if w != [] {
      NonSpaceOfWord(w[1..]);
    }
  }

  /** Splitting loses exactly the whitespace: the tokens, glued back together,
      are the non-whitespace characters of the input in their order. */
  lemma {:induction false} SplitKeepsText(s: string)
    ensures Concat(Split(s)) == NonSpace(s)
    decreases |s|
  {
    if s == [] {
    } else if IsSpace(s[0]) {
      SplitKeepsText(s[1..]);
    } else {
      var n := WordLen(s);
      assert s == s[..n] + s[n..];
      SplitKeepsText(s[n..]);
      NonSpaceOfWord(s[..n]);
      NonSpaceAppend(s[..n], s[n..]);
    }
  }

  /** A single word splits into itself. */
  lemma {:induction false} SplitWord(w: string)
    requires IsWord(w)
    ensures Split(w) == [w]
  {
    WordLenOfWord(w);
    assert w[..|w|] == w;
    assert w[|w|..] == [];
    assert Split(w) == [w[..|w|]] + Split(w[|w|..]);
  }

  lemma {:induction false} WordLenOfWord(w: string)
    requires forall i :: 0 <= i < |w| ==> !IsSpace(w[i])
    ensures WordLen(w) == |w|
    decreases |w|
  {
    if w != [] {
      WordLenOfWord(w[1..]);
    }
  }

  lemma {:induction false} WordLenBeforeSpace(a: string, rest: string)
    requires rest != [] && IsSpace(rest[0])
    ensures WordLen(a + rest) == WordLen(a)
    decreases |a|
  {
    if a == [] {
      assert a + rest == rest;
    } else if !IsSpace(a[0]) {
      assert (a + rest)[1..] == a[1..] + rest;
      WordLenBeforeSpace(a[1..], rest);
    }
  }

  /** A whitespace character separates: what lies on either side splits on
      its own. */
  lemma {:induction false} SplitAtSpace(a: string, c: char, b: string)
    requires IsSpace(c)
    ensures Split(a + [c] + b) == Split(a) + Split(b)
    decreases |a|
  {
    var s := a + [c] + b;
    if a == [] {
      assert s == [c] + b;
      assert s[1..] == b;
    } else if IsSpace(a[0]) {
      assert s[1..] == a[1..] + [c] + b;
      SplitAtSpace(a[1..], c, b);
    } else {
      var n := WordLen(a);
      assert s == a + ([c] + b);
      WordLenBeforeSpace(a, [c] + b);
      assert s[..n] == a[..n];
      assert s[n..] == a[n..] + [c] + b;
      SplitAtSpace(a[n..], c, b);
      SplitFirstWord(s, n, a[..n], Split(a[n..]) + Split(b));
      SplitFirstWord(a, n, a[..n], Split(a[n..]));
      RegroupTokens([a[..n]], Split(a[n..]), Split(b));
    }
  }

  /** The first token of a line that starts with a word is that word. */
  lemma SplitFirstWord(s: string, n: nat, w: string, rest: seq<string>)
    requires s != [] && !IsSpace(s[0]) && n == WordLen(s)
    requires w == s[..n] && rest == Split(s[n..])
    ensures Split(s) == [w] + rest
  {
  }

  /** Tokens in three stretches, however the stretches are grouped. */
  lemma RegroupTokens(a: seq<string>, b: seq<string>, c: seq<string>)
    ensures a + b + c == a + (b + c)
  {
  }

  // ---------------------------------------------------------------------
  // str.lower()

  function LowerChar(c: char): char {
    if 'A' <= c <= 'Z' then (c as int + 32) as char else c
  }

  /** `s.lower()` on ASCII letters; every other character is kept. */
  function Lower(s: string): (r: string)
    ensures |r| == |s|
    ensures forall i :: 0 <= i < |s| ==> r[i] == LowerChar(s[i])
  {
    if s == [] then [] else [LowerChar(s[0])] + Lower(s[1..])
  }

  /** `s.lower()` is `t` when it is character by character. */
  lemma LowerOf(s: string, t: string)
    requires |s| == |t| && forall i :: 0 <= i < |s| ==> LowerChar(s[i]) == t[i]
    ensures Lower(s) == t
  {
  }

  /** A string of lower-case letters is its own `lower()`. */
  lemma LowerOfLower(s: string)
    requires forall i :: 0 <= i < |s| ==> 'a' <= s[i] <= 'z'
    ensures Lower(s) == s
  {
  }

  // ---------------------------------------------------------------------
  // Digits: str.isdigit(), int(str), str(int)

  /** An ASCII decimal digit: the only digits `int()` accepts in this model. */
  predicate IsDecimal(c: char) {
    '0' <= c <= '9'
  }

  predicate IsDecimalString(s: string) {
    |s| > 0 && forall i :: 0 <= i < |s| ==> IsDecimal(s[i])
  }

  /** A character `str.isdigit()` accepts: the ASCII digits, and the
      superscript and subscript digits, which are digits to `isdigit` but not
      decimal digits to `int()`. */
  predicate IsDigitChar(c: char) {
    IsDecimal(c)
    || c == '\U{b9}' || c == '\U{b2}' || c == '\U{b3}'
    || c == '\U{2070}' || ('\U{2074}' <= c <= '\U{2079}')
    || ('\U{2080}' <= c <= '\U{2089}')
  }

  /** `s.isdigit()`: non-empty and every character a digit. */
  predicate IsDigitString(s: string) {
    |s| > 0 && forall i :: 0 <= i < |s| ==> IsDigitChar(s[i])
  }

  function DigitValue(c: char): nat
    requires IsDecimal(c)
  {
    c as int - '0' as int
  }

  function DigitChar(d: nat): (c: char)
    requires d < 10
    ensures IsDecimal(c) && DigitValue(c) == d
  {
    ('0' as int + d) as char
  }

  /** The number a string of decimal digits denotes (leading zeros allowed). */
  function DigitsValue(ds: string): nat
    requires forall i :: 0 <= i < |ds| ==> IsDecimal(ds[i])
    decreases |ds|
  {
    if ds == [] then 0 else 10 * DigitsValue(ds[..|ds| - 1]) + DigitValue(ds[|ds| - 1])
  }

  /** The decimal digits of `n`, without leading zeros. */
  function NatDigits(n: nat): (ds: string)
    ensures IsDecimalString(ds)
    ensures DigitsValue(ds) == n
  {
    if n < 10 then [DigitChar(n)]
    else
      var ds := NatDigits(n / 10) + [DigitChar(n % 10)];
      assert ds[..|ds| - 1] == NatDigits(n / 10);
      ds
  }

  /** `str(n)`. */
  function Show(n: int): (s: string)
    ensures |s| > 0
    ensures s[0] == '-' <==> n < 0
  {
    if n < 0 then "-" + NatDigits(-n) else NatDigits(n)
  }

  function StripLeft(s: string): (r: string)
    ensures |r| <= |s|
    ensures r == [] || !IsSpace(r[0])
  {
    if s != [] && IsSpace(s[0]) then StripLeft(s[1..]) else s
  }

  function StripRight(s: string): (r: string)
    ensures |r| <= |s|
    ensures r == [] || !IsSpace(r[|r| - 1])
  {
    if s != [] && IsSpace(s[|s| - 1]) then StripRight(s[..|s| - 1]) else s
  }

  /** `s.strip()`. */
  function Strip(s: string): string {
    StripRight(StripLeft(s))
  }

  /** The characters of `s` other than `_`. */
  function DropUnderscores(s: string): (r: string)
    ensures |r| <= |s|
    ensures forall i :: 0 <= i < |r| ==> r[i] in s && r[i] != '_'
  {
    if s == [] then []
    else
      var rest := DropUnderscores(s[1..]);
      assert forall i :: 0 <= i < |rest| ==> rest[i] in s;
      (if s[0] == '_' then [] else [s[0]]) + rest
  }

  /** Python's literal syntax for a run of digits: decimal digits, each `_`
      standing alone between two digits. */
  predicate IsDigitRun(s: string) {
    && |s| > 0
    && IsDecimal(s[0]) && IsDecimal(s[|s| - 1])
    && (forall i :: 0 <= i < |s| ==> IsDecimal(s[i]) || s[i] == '_')
    && (forall i :: 0 <= i < |s| - 1 ==> !(s[i] == '_' && s[i + 1] == '_'))
  }

  /** The most digits `int()` converts from a string, and `str()` to one:
      the default of `sys.get_int_max_str_digits()`. Beyond it both raise
      `ValueError`. */
  const MAX_STR_DIGITS: nat := 4300

  /** What `int()` reads from an unsigned digit run: its value, or `None`
      when `s` is not a digit run or has more than `MAX_STR_DIGITS` digits. */
  function DigitRunValue(s: string): (r: Option<nat>)
  {
    if IsDigitRun(s) && |DropUnderscores(s)| <= MAX_STR_DIGITS then Some(DigitsValue(DropUnderscores(s))) else None
  }

  /** `int(s)` for a string `s`: surrounding whitespace is ignored, an
      optional sign, then a digit run; anything else raises `ValueError`,
      modelled as `None`. */
  function PyInt(s: string): Option<int> {
    var t := Strip(s);
    if |t| > 0 && (t[0] == '+' || t[0] == '-') then
      match DigitRunValue(t[1..])
      case None => None
      case Some(v) =>
        var n: int := if t[0] == '-' then -(v as int) else v;
        Some(n)
    else
      match DigitRunValue(t)
      case None => None
      case Some(v) => Some(v)
  }

  lemma {:induction false} DropUnderscoresOfDecimals(s: string)
    requires forall i :: 0 <= i < |s| ==> IsDecimal(s[i])
    ensures DropUnderscores(s) == s
    decreases |s|
  {
    if s != [] {
      DropUnderscoresOfDecimals(s[1..]);
    }
  }

  lemma StripOfWord(s: string)
    requires |s| > 0 && !IsSpace(s[0]) && !IsSpace(s[|s| - 1])
    ensures Strip(s) == s
  {
  }

  /** `int` reads back a string of decimal digits as the number they denote,
      and raises when there are more than `MAX_STR_DIGITS` of them. */
  lemma DecimalStringValue(s: string)
    requires IsDecimalString(s)
    ensures PyInt(s) == if |s| <= MAX_STR_DIGITS then Some(DigitsValue(s) as int) else None
  {
    StripOfWord(s);
    DecimalsAreDigitRun(s);
  }

  /** An underscore between two digits changes nothing `int()` reads. */
  lemma UnderscoreBetweenDigits(a: string, b: string)
    requires IsDecimalString(a) && IsDecimalString(b)
    ensures PyInt(a + "_" + b) == PyInt(a + b)
  {
    JoinedRun(a, b);
    DigitRunInt(a + "_" + b);
    DigitRunInt(a + b);
    DropUnderscoresOfDecimals(a + b);
  }

  /** Two digit strings joined by `_` make a digit run of their digits. */
  lemma JoinedRun(a: string, b: string)
    requires IsDecimalString(a) && IsDecimalString(b)
    ensures IsDigitRun(a + "_" + b) && IsDigitRun(a + b)
    ensures DropUnderscores(a + "_" + b) == a + b
  {
    JoinedDrop(a, b);
    JoinedShape(a, b);
    JoinedDecimals(a, b);
  }

  lemma JoinedDrop(a: string, b: string)
    requires IsDecimalString(a) && IsDecimalString(b)
    ensures DropUnderscores(a + "_" + b) == a + b
  {
    assert a + "_" + b == a + ("_" + b);
    DropUnderscoresAppend(a, "_" + b);
    DropLeadingUnderscore(b);
    DropUnderscoresOfDecimals(a);
    DropUnderscoresOfDecimals(b);
  }

  lemma DropLeadingUnderscore(b: string)
    ensures DropUnderscores("_" + b) == DropUnderscores(b)
  {
    var u := "_" + b;
    assert u[0] == '_' && u[1..] == b;
  }

  lemma JoinedShape(a: string, b: string)
    requires IsDecimalString(a) && IsDecimalString(b)
    ensures IsDigitRun(a + "_" + b)
  {
    var s := a + "_" + b;
    forall i | 0 <= i < |s|
      ensures IsDecimal(s[i]) || s[i] == '_'
    {
      if i < |a| {
        assert s[i] == a[i];
      } else if i > |a| {
        assert s[i] == b[i - |a| - 1];
      }
    }
    forall i | 0 <= i < |s| - 1
      ensures !(s[i] == '_' && s[i + 1] == '_')
    {
      if i < |a| {
        assert s[i] == a[i];
      } else {
        assert s[i + 1] == b[i - |a|];
      }
    }
    assert s[|s| - 1] == b[|b| - 1];
  }

  lemma JoinedDecimals(a: string, b: string)
    requires IsDecimalString(a) && IsDecimalString(b)
    ensures IsDigitRun(a + b)
  {
    var t := a + b;
    forall i | 0 <= i < |t|
      ensures IsDecimal(t[i])
    {
      if i >= |a| {
        assert t[i] == b[i - |a|];
      }
    }
  }

  /** `int()` of an unsigned digit run is the run's value. */
  lemma DigitRunInt(s: string)
    requires IsDigitRun(s)
    ensures PyInt(s) == match DigitRunValue(s) case None => None case Some(v) => Some(v as int)
  {
    StripOfWord(s);
  }

  lemma {:induction false} DropUnderscoresAppend(a: string, b: string)
    ensures DropUnderscores(a + b) == DropUnderscores(a) + DropUnderscores(b)
    decreases |a|
  {
    if a != [] {
      assert (a + b)[0] == a[0] && (a + b)[1..] == a[1..] + b;
      DropUnderscoresAppend(a[1..], b);
    } else {
      assert a + b == b;
    }
  }

  /** A digit string `int` rejects: one with a character that `isdigit`
      accepts but that is not a decimal digit. */
  lemma NonDecimalDigitsRejected(s: string)
    requires IsDigitString(s) && !IsDecimalString(s)
    ensures PyInt(s) == None
  {
    var k :| 0 <= k < |s| && !IsDecimal(s[k]);
    StripOfWord(s);
    assert !IsDigitRun(s) by {
      assert s[k] != '_';
    }
  }

  /** How many digits `str(n)` writes. */
  function DigitCount(n: int): nat {
    if n < 0 then |NatDigits(-n)| else |NatDigits(n)|
  }

  /** `int(str(n)) == n` for every integer `n` of at most `MAX_STR_DIGITS`
      digits; `int` refuses the numeral of a longer one. */
  lemma ShowRoundTrip(n: int)
    ensures PyInt(Show(n)) == if DigitCount(n) <= MAX_STR_DIGITS then Some(n) else None
  {
    if n >= 0 {
      NaturalRoundTrip(n);
    } else {
      NegativeRoundTrip(n);
    }
  }

  lemma NaturalRoundTrip(n: nat)
    ensures PyInt(Show(n)) == if |NatDigits(n)| <= MAX_STR_DIGITS then Some(n) else None
  {
    assert Show(n) == NatDigits(n);
    DecimalStringValue(NatDigits(n));
  }

  lemma NegativeRoundTrip(n: int)
    requires n < 0
    ensures PyInt(Show(n)) == if |NatDigits(-n)| <= MAX_STR_DIGITS then Some(n) else None
  {
    assert Show(n) == "-" + NatDigits(-n);
    NegativeValue(NatDigits(-n));
  }

  lemma NegativeValue(ds: string)
    requires IsDecimalString(ds)
    ensures PyInt("-" + ds) == if |ds| <= MAX_STR_DIGITS then Some(-(DigitsValue(ds) as int)) else None
  {
    var s := "-" + ds;
    assert s[0] == '-' && s[1..] == ds && s[|s| - 1] == ds[|ds| - 1];
    StripOfWord(s);
    MinusDigits(s, ds);
  }

  lemma MinusDigits(s: string, ds: string)
    requires IsDecimalString(ds) && Strip(s) == s && |s| > 0 && s[0] == '-' && s[1..] == ds
    ensures PyInt(s) == if |ds| <= MAX_STR_DIGITS then Some(-(DigitsValue(ds) as int)) else None
  {
    DecimalsAreDigitRun(ds);
    PyIntOfNegative(s);
  }

  /** `int` of a stripped string with a minus sign: the negated value of the
      digit run after the sign. */
  lemma PyIntOfNegative(s: string)
    requires Strip(s) == s && |s| > 0 && s[0] == '-'
    ensures PyInt(s) == if DigitRunValue(s[1..]).Some? then Some(-(DigitRunValue(s[1..]).value as int)) else None
  {
  }

  /** A string of decimal digits is a digit run worth its digits' value, up
      to the digit limit. */
  lemma DecimalsAreDigitRun(ds: string)
    requires IsDecimalString(ds)
    ensures DigitRunValue(ds) == if |ds| <= MAX_STR_DIGITS then Some(DigitsValue(ds)) else None
  {
    DropUnderscoresOfDecimals(ds);
    assert IsDigitRun(ds);
  }
}
