/**
 Chapter numbers as text: the canonical form of the first numeral, and the sort number read back
 from it. Digits are the ASCII ones.
 */
module ChapterNumbers {

  import opened Options

  // ---------------------------------------------------------------- digits

  predicate IsDigit(c: char) { '0' <= c <= '9' }

  ghost predicate AllDigits(s: string) { forall i :: 0 <= i < |s| ==> IsDigit(s[i]) }

  function DigitOf(n: nat): char
    requires n < 10
  {
    "0123456789"[n]
  }

  function ValueOf(c: char): nat { if IsDigit(c) then c as int - '0' as int else 0 }

  function Pow10(n: nat): (p: nat)
    ensures p > 0
  {
    if n == 0 then 1 else 10 * Pow10(n - 1)
  }

  /** The number a digit string denotes. */
  function Number(digits: string): nat {
    if digits == "" then 0 else Number(digits[..|digits| - 1]) * 10 + ValueOf(digits[|digits| - 1])
  }

  function Digits(n: nat): string {
    if n < 10 then [DigitOf(n)] else Digits(n / 10) + [DigitOf(n % 10)]
  }

  /** The last `width` digits, with leading zeros. */
  function Padded(n: nat, width: nat): string {
    if width == 0 then "" else Padded(n / 10, width - 1) + [DigitOf(n % 10)]
  }

  // ---------------------------------------------------------------- decimals

  /** `coefficient / 10^scale`. */
  datatype Decimal = Decimal(coefficient: nat, scale: nat)

  ghost predicate SameValue(a: Decimal, b: Decimal) {
    a.coefficient * Pow10(b.scale) == b.coefficient * Pow10(a.scale)
  }

  /** Decimal contexts keep 28 significant digits. */
  const LIMIT: nat := 10000000000000000000000000000

  /** How many digits a coefficient has too many. */
  function Excess(c: nat): nat { if c < LIMIT then 0 else 1 + Excess(c / 10) }

  /** Rounds to 28 significant digits, ties to even; the dropped digits become zeros. */
  function Rounded(c: nat): nat {
    var p := Pow10(Excess(c));
    var q, r := Quotient(c, p), Remainder(c, p);
    (if 2 * r < p || (2 * r == p && q % 2 == 0) then q else q + 1) * p
  }

  /** Drops trailing zeros of the fraction. */
  function Strip(d: Decimal): Decimal
    decreases d.scale
  {
    if d.scale > 0 && d.coefficient % 10 == 0 then Strip(Decimal(d.coefficient / 10, d.scale - 1)) else d
  }

  function Normalize(d: Decimal): Decimal { Strip(d.(coefficient := Rounded(d.coefficient))) }

  /** Plain positional notation. */
  function Format(d: Decimal): string {
    var p := Pow10(d.scale);
    Digits(Quotient(d.coefficient, p)) + if d.scale == 0 then "" else "." + Padded(Remainder(d.coefficient, p), d.scale)
  }

  function Quotient(c: nat, p: nat): nat
    requires p > 0
  {
    c / p
  }

  function Remainder(c: nat, p: nat): nat
    requires p > 0
  {
    c % p
  }

  // ---------------------------------------------------------------- the first numeral

  function FirstDigit(s: string, from: nat): (at: nat)
    requires from <= |s|
    ensures from <= at <= |s| && (at < |s| ==> IsDigit(s[at]))
    ensures forall i :: from <= i < at ==> !IsDigit(s[i])
    decreases |s| - from
  {
    if from == |s| || IsDigit(s[from]) then from else FirstDigit(s, from + 1)
  }

  /** The end of the digit run that starts at `from`. */
  function RunEnd(s: string, from: nat): (end: nat)
    requires from <= |s|
    ensures from <= end <= |s| && (end < |s| ==> !IsDigit(s[end]))
    ensures forall i :: from <= i < end ==> IsDigit(s[i])
    decreases |s| - from
  {
    if from == |s| || !IsDigit(s[from]) then from else RunEnd(s, from + 1)
  }

  /** Whole and fractional digits of the first numeral. */
  function Numeral(s: string): Option<(string, string)> {
    var start := FirstDigit(s, 0);
    if start == |s| then None
    else
      var end := RunEnd(s, start);
      var last := if end + 1 < |s| && s[end] == '.' then RunEnd(s, end + 1) else end;
      if last > end + 1 then Some((s[start..end], s[end + 1..last])) else Some((s[start..end], ""))
  }

  function DecimalOf(numeral: (string, string)): Decimal {
    Decimal(Number(numeral.0 + numeral.1), |numeral.1|)
  }

  // ---------------------------------------------------------------- text without a numeral

  function LowerChar(c: char): char { if 'A' <= c <= 'Z' then (c as int + 32) as char else c }

  function Lower(s: string): string { seq(|s|, i requires 0 <= i < |s| => LowerChar(s[i])) }

  predicate IsSpace(c: char) {
    var n := c as int;
    || 9 <= n <= 13 || 28 <= n <= 32 || n == 133 || n == 160 || n == 5760 || 8192 <= n <= 8202
    || n == 8232 || n == 8233 || n == 8239 || n == 8287 || n == 12288
  }

  function WordEnd(s: string): (end: nat)
    ensures end <= |s| && (end < |s| ==> IsSpace(s[end]))
    ensures forall i :: 0 <= i < end ==> !IsSpace(s[i])
  {
    if s == "" || IsSpace(s[0]) then 0 else 1 + WordEnd(s[1..])
  }

  function Words(s: string): seq<string>
    decreases |s|
  {
    if s == "" then []
    else if IsSpace(s[0]) then Words(s[1..])
    else [s[..WordEnd(s)]] + Words(s[WordEnd(s)..])
  }

  function Joined(words: seq<string>): string {
    if words == [] then "" else if |words| == 1 then words[0] else words[0] + " " + Joined(words[1..])
  }

  function Folded(s: string): string { Joined(Words(Lower(s))) }

  // ---------------------------------------------------------------- the two operations

  function CanonicalChapterNumber(s: string): string {
    match Numeral(s)
    case None => Folded(s)
    case Some(numeral) => Format(Normalize(DecimalOf(numeral)))
  }

  datatype SortNumber = NoSortNumber | Finite(number: Decimal) | NotFinite(text: string)

  predicate SpecialName(s: string) { s in ["inf", "infinity", "nan", "snan"] }

  /** The decimal constructor: a whole numeral, a special value, or an error. */
  function ParseDecimal(s: string): SortNumber {
    match Numeral(s)
    case Some(numeral) =>
      if s == numeral.0 + (if numeral.1 == "" then "" else "." + numeral.1) then Finite(DecimalOf(numeral))
      else NoSortNumber
    case None =>
      if SpecialName(s) || (s != "" && s[0] in "+-" && SpecialName(s[1..])) then NotFinite(s) else NoSortNumber
  }

  function ChapterSortNumber(s: string): SortNumber { ParseDecimal(CanonicalChapterNumber(s)) }

  // ---------------------------------------------------------------- digit strings

  lemma {:induction false} Pow10Adds(a: nat, b: nat)
    ensures Pow10(a + b) == Pow10(a) * Pow10(b)
  {
    if a > 0 {
      Pow10Adds(a - 1, b);
      assert Pow10(a + b) == 10 * (Pow10(a - 1) * Pow10(b));
    }
  }

  lemma {:induction false} NumberOfDigits(n: nat)
    ensures Number(Digits(n)) == n && AllDigits(Digits(n)) && Digits(n) != ""
  {
    if n >= 10 {
      NumberOfDigits(n / 10);
      OneMoreDigit(Digits(n / 10), n % 10);
    } else {
      OneMoreDigit("", n);
      assert Digits(n) == "" + [DigitOf(n)];
    }
  }

  lemma {:induction false} OneMoreDigit(digits: string, last: nat)
    requires last < 10
    ensures Number(digits + [DigitOf(last)]) == Number(digits) * 10 + last && IsDigit(DigitOf(last))
  {
    assert (digits + [DigitOf(last)])[..|digits|] == digits;
  }

  lemma {:induction false} TenthIsBelow(n: nat, p: nat)
    requires n < 10 * p
    ensures n / 10 < p
  {
  }

  lemma {:induction false} NumberOfPadded(n: nat, width: nat)
    requires n < Pow10(width)
    ensures Number(Padded(n, width)) == n && AllDigits(Padded(n, width)) && |Padded(n, width)| == width
  {
    if width > 0 {
      TenthIsBelow(n, Pow10(width - 1));
      NumberOfPadded(n / 10, width - 1);
      OneMoreDigit(Padded(n / 10, width - 1), n % 10);
    }
  }

  lemma {:induction false} NumberSplits(a: string, b: string)
    ensures Number(a + b) == Number(a) * Pow10(|b|) + Number(b)
  {
    if b == "" {
      assert a + b == a;
    } else {
      var rest := b[..|b| - 1];
      NumberSplits(a, rest);
      assert (a + b)[..|a + b| - 1] == a + rest;
      var p := Pow10(|rest|);
      assert Number(a) * (10 * p) == 10 * (Number(a) * p);
    }
  }

  // ---------------------------------------------------------------- rounding and stripping

  /** At most 28 significant digits. */
  ghost predicate Fits(c: nat) { exists m: nat, t: nat :: IsScaled(c, m, t) }

  ghost predicate IsScaled(c: nat, m: nat, t: nat) { m <= LIMIT && c == m * Pow10(t) }

  lemma {:induction false} ExcessBounds(c: nat)
    ensures Quotient(c, Pow10(Excess(c))) < LIMIT
  {
    if c >= LIMIT {
      ExcessBounds(c / 10);
      var p := Pow10(Excess(c / 10));
      DivideTwice(c, p);
    }
  }

  lemma {:induction false} DivideTwice(c: nat, p: nat)
    requires p > 0
    ensures Quotient(c, 10 * p) == Quotient(c / 10, p)
  {
    var q, r := Quotient(c / 10, p), Remainder(c / 10, p);
    Division(c / 10, p);
    assert q * (10 * p) == 10 * (q * p);
    DivisionIsUnique(c, 10 * p, q, 10 * r + c % 10);
  }

  lemma {:induction false} Division(c: nat, p: nat)
    requires p > 0
    ensures c == Quotient(c, p) * p + Remainder(c, p) && Remainder(c, p) < p
  {
  }

  lemma {:induction false} DivisionIsUnique(c: nat, p: nat, q: nat, r: nat)
    requires p > 0 && c == q * p + r && r < p
    ensures Quotient(c, p) == q && Remainder(c, p) == r
  {
    Division(c, p);
    var x := Quotient(c, p);
    if q > x {
      NoSmallMultiple(q, x, p);
    } else if q < x {
      NoSmallMultiple(x, q, p);
    }
  }

  lemma {:induction false} NoSmallMultiple(a: nat, b: nat, p: nat)
    requires a > b
    ensures a * p >= b * p + p
  {
    var k := a - b - 1;
    assert a * p == (b + 1 + k) * p == b * p + p + k * p;
    assert k * p >= 0;
  }

  lemma {:induction false} RoundedFits(c: nat)
    ensures Fits(Rounded(c))
  {
    ExcessBounds(c);
    var p := Pow10(Excess(c));
    var q, r := Quotient(c, p), Remainder(c, p);
    var m := if 2 * r < p || (2 * r == p && q % 2 == 0) then q else q + 1;
    assert IsScaled(Rounded(c), m, Excess(c));
  }

  lemma {:induction false} FitsDivides(c: nat, m: nat, t: nat) returns (y: nat)
    requires IsScaled(c, m, t)
    ensures c == y * Pow10(Excess(c))
    decreases t
  {
    if c < LIMIT {
      y := c;
    } else if t == 0 {
      assert Excess(LIMIT / 10) == 0 && Excess(LIMIT) == 1;
      y := LIMIT / 10;
    } else {
      var rest := m * Pow10(t - 1);
      assert c == 10 * rest;
      y := FitsDivides(rest, m, t - 1);
      var p := Pow10(Excess(rest));
      assert c == 10 * (y * p) == y * (10 * p);
    }
  }

  /** Rounding leaves a coefficient alone exactly when it has at most 28 significant digits. */
  lemma {:induction false} RoundingIsExactExactlyWhen(c: nat)
    ensures Rounded(c) == c <==> Fits(c)
  {
    if Fits(c) {
      var m: nat, t: nat :| IsScaled(c, m, t);
      var y := FitsDivides(c, m, t);
      DivisionIsUnique(c, Pow10(Excess(c)), y, 0);
    }
    RoundedFits(c);
  }

  lemma {:induction false} RoundingLosesADigit()
    ensures Rounded(LIMIT + 1) == Rounded(LIMIT) == LIMIT && !Fits(LIMIT + 1)
  {
    assert Excess(LIMIT / 10) == 0 && Excess(LIMIT) == Excess(LIMIT + 1) == 1 && Pow10(1) == 10 * Pow10(0) == 10;
    RoundingIsExactExactlyWhen(LIMIT + 1);
  }

  ghost predicate Reduced(d: Decimal) { d.scale == 0 || d.coefficient % 10 != 0 }

  lemma {:induction false} StripKeepsValue(d: Decimal)
    ensures Strip(d).scale <= d.scale && Reduced(Strip(d))
    ensures d.coefficient == Strip(d).coefficient * Pow10(d.scale - Strip(d).scale)
    decreases d.scale
  {
    if d.scale > 0 && d.coefficient % 10 == 0 {
      var less := Decimal(d.coefficient / 10, d.scale - 1);
      StripKeepsValue(less);
      var s := Strip(d);
      var p := Pow10(less.scale - s.scale);
      assert d.coefficient == 10 * (s.coefficient * p) == s.coefficient * (10 * p);
    }
  }

  lemma {:induction false} StripSameValue(d: Decimal)
    ensures SameValue(Strip(d), d)
  {
    StripKeepsValue(d);
    var s := Strip(d);
    Pow10Adds(d.scale - s.scale, s.scale);
    Regroup(s.coefficient, Pow10(d.scale - s.scale), Pow10(s.scale));
  }

  /** A reduced decimal is determined by its value. */
  lemma {:induction false} ReducedIsUnique(a: Decimal, b: Decimal)
    requires Reduced(a) && Reduced(b) && SameValue(a, b)
    ensures a == b
  {
    if a.scale < b.scale {
      LongerEndsInZero(a, b);
    } else if b.scale < a.scale {
      LongerEndsInZero(b, a);
    } else {
      CancelFactor(a.coefficient, b.coefficient, Pow10(a.scale));
    }
  }

  lemma {:induction false} CancelFactor(a: nat, b: nat, p: nat)
    requires p > 0 && a * p == b * p
    ensures a == b
  {
    assert (a - b) * p == 0;
  }

  lemma {:induction false} LongerEndsInZero(a: Decimal, b: Decimal)
    requires SameValue(a, b) && a.scale < b.scale
    ensures b.coefficient % 10 == 0
  {
    var gap := b.scale - a.scale;
    Pow10Adds(gap, a.scale);
    Regroup(a.coefficient, Pow10(gap), Pow10(a.scale));
    CancelFactor(a.coefficient * Pow10(gap), b.coefficient, Pow10(a.scale));
    Regroup(a.coefficient, 10, Pow10(gap - 1));
    TenTimes(a.coefficient * Pow10(gap - 1), b.coefficient);
  }

  lemma {:induction false} TenTimes(x: nat, y: nat)
    requires y == 10 * x
    ensures y % 10 == 0
  {
  }

  lemma {:induction false} Regroup(x: nat, y: nat, z: nat)
    ensures x * (y * z) == (x * y) * z == (x * z) * y
    ensures (x * y) * z == y * (x * z)
  {
  }

  lemma {:induction false} SameValueTransitive(a: Decimal, b: Decimal, c: Decimal)
    requires SameValue(a, b) && SameValue(b, c)
    ensures SameValue(a, c)
  {
    var pa, pb, pc := Pow10(a.scale), Pow10(b.scale), Pow10(c.scale);
    calc {
      (a.coefficient * pc) * pb;
      { Regroup(a.coefficient, pc, pb); }
      (a.coefficient * pb) * pc;
      (b.coefficient * pa) * pc;
      { Regroup(b.coefficient, pa, pc); }
      (b.coefficient * pc) * pa;
      (c.coefficient * pb) * pa;
      { Regroup(c.coefficient, pb, pa); }
      (c.coefficient * pa) * pb;
    }
    CancelFactor(a.coefficient * pc, c.coefficient * pa, pb);
  }

  lemma {:induction false} StrippedFits(d: Decimal)
    requires Fits(d.coefficient)
    ensures Fits(Strip(d).coefficient)
  {
    StripKeepsValue(d);
    var m: nat, t: nat :| IsScaled(d.coefficient, m, t);
    QuotientFits(Strip(d).coefficient, d.scale - Strip(d).scale, m, t);
  }

  lemma {:induction false} QuotientFits(c: nat, j: nat, m: nat, t: nat)
    requires m <= LIMIT && c * Pow10(j) == m * Pow10(t)
    ensures Fits(c)
  {
    if t >= j {
      CancelPowers(c, j, m, t);
      assert IsScaled(c, m, t - j);
    } else {
      CancelPowers(m, t, c, j);
      AtMostMultiple(c, Pow10(j - t));
      assert IsScaled(c, c, 0);
    }
  }

  lemma {:induction false} CancelPowers(a: nat, i: nat, b: nat, j: nat)
    requires i <= j && a * Pow10(i) == b * Pow10(j)
    ensures a == b * Pow10(j - i)
  {
    Pow10Adds(j - i, i);
    Regroup(b, Pow10(j - i), Pow10(i));
    CancelFactor(b * Pow10(j - i), a, Pow10(i));
  }

  lemma {:induction false} AtMostMultiple(c: nat, p: nat)
    requires p > 0
    ensures c <= c * p
  {
  }

  // ---------------------------------------------------------------- reading the canonical text

  lemma {:induction false} RunEndIs(s: string, from: nat, end: nat)
    requires from <= end <= |s| && (end < |s| ==> !IsDigit(s[end]))
    requires forall i :: from <= i < end ==> IsDigit(s[i])
    ensures RunEnd(s, from) == end
  {
  }

  lemma {:induction false} WholeNumeral(whole: string, fraction: string)
    requires whole != "" && AllDigits(whole) && AllDigits(fraction)
    ensures Numeral(whole + (if fraction == "" then "" else "." + fraction)) == Some((whole, fraction))
  {
    var s := whole + (if fraction == "" then "" else "." + fraction);
    assert forall i :: 0 <= i < |whole| ==> s[i] == whole[i];
    assert IsDigit(s[0]);
    var end := |whole|;
    assert fraction != "" ==> s[|whole|] == '.';
    RunEndIs(s, 0, end);
    assert s[0..end] == whole;
    if fraction != "" {
      assert forall i :: end + 1 <= i < |s| ==> s[i] == fraction[i - end - 1];
      RunEndIs(s, end + 1, |s|);
      assert s[end + 1..|s|] == fraction;
    }
  }

  lemma {:induction false} FormatReadsBack(d: Decimal)
    ensures var s := Format(d);
      && Numeral(s).Some? && DecimalOf(Numeral(s).value) == d
      && s == Numeral(s).value.0 + (if Numeral(s).value.1 == "" then "" else "." + Numeral(s).value.1)
  {
    var p := Pow10(d.scale);
    var q, r := Quotient(d.coefficient, p), Remainder(d.coefficient, p);
    Division(d.coefficient, p);
    var whole, fraction := Digits(q), Padded(r, d.scale);
    NumberOfDigits(q);
    NumberOfPadded(r, d.scale);
    WholeNumeral(whole, fraction);
    NumberSplits(whole, fraction);
    assert fraction == "" <==> d.scale == 0;
  }

  // ---------------------------------------------------------------- text without a numeral, again

  ghost predicate Plain(words: seq<string>) {
    forall i :: 0 <= i < |words| ==> words[i] != "" && forall j :: 0 <= j < |words[i]| ==> !IsSpace(words[i][j])
  }

  lemma {:induction false} WordsArePlain(s: string)
    ensures Plain(Words(s))
    decreases |s|
  {
    if s != "" {
      if IsSpace(s[0]) {
        WordsArePlain(s[1..]);
      } else {
        WordsArePlain(s[WordEnd(s)..]);
      }
    }
  }

  lemma {:induction false} WordEndOf(word: string, rest: string)
    requires forall j :: 0 <= j < |word| ==> !IsSpace(word[j])
    requires rest == "" || IsSpace(rest[0])
    ensures WordEnd(word + rest) == |word|
  {
    if word != "" {
      WordEndOf(word[1..], rest);
      assert (word + rest)[1..] == word[1..] + rest;
    } else {
      assert word + rest == rest;
    }
  }

  lemma {:induction false} WordsOfJoined(words: seq<string>)
    requires Plain(words)
    ensures Words(Joined(words)) == words
  {
    if words != [] {
      var rest := if |words| == 1 then "" else " " + Joined(words[1..]);
      assert Joined(words) == words[0] + rest;
      WordThenRest(words[0], rest);
      if |words| > 1 {
        WordsOfJoined(words[1..]);
        assert rest[1..] == Joined(words[1..]);
      }
      assert words == [words[0]] + words[1..];
    }
  }

  lemma {:induction false} WordThenRest(word: string, rest: string)
    requires word != "" && forall j :: 0 <= j < |word| ==> !IsSpace(word[j])
    requires rest == "" || IsSpace(rest[0])
    ensures Words(word + rest) == [word] + Words(rest)
  {
    WordEndOf(word, rest);
    assert (word + rest)[..|word|] == word && (word + rest)[|word|..] == rest;
    assert (word + rest)[0] == word[0];
  }

  /** Characters a folded text can hold: from the text itself, lowered, or the joining space. */
  ghost predicate Inert(s: string) { forall i :: 0 <= i < |s| ==> !IsDigit(s[i]) && LowerChar(s[i]) == s[i] }

  lemma {:induction false} WordsInert(s: string)
    requires Inert(s)
    ensures forall i :: 0 <= i < |Words(s)| ==> Inert(Words(s)[i])
    decreases |s|
  {
    if s != "" {
      if IsSpace(s[0]) {
        WordsInert(s[1..]);
      } else {
        WordsInert(s[WordEnd(s)..]);
      }
    }
  }

  lemma {:induction false} JoinedInert(words: seq<string>)
    requires forall i :: 0 <= i < |words| ==> Inert(words[i])
    ensures Inert(Joined(words))
  {
    if |words| > 1 {
      JoinedInert(words[1..]);
    }
  }

  lemma {:induction false} FoldedIsFixed(s: string)
    requires Numeral(s).None?
    ensures Numeral(Folded(s)).None? && Folded(Folded(s)) == Folded(s)
  {
    assert forall i :: 0 <= i < |s| ==> !IsDigit(s[i]);
    assert Inert(Lower(s));
    WordsInert(Lower(s));
    JoinedInert(Words(Lower(s)));
    var f := Folded(s);
    assert Inert(f);
    assert Lower(f) == f;
    WordsArePlain(Lower(s));
    WordsOfJoined(Words(Lower(s)));
  }

  // ---------------------------------------------------------------- main results

  lemma {:induction false} CanonicalReadsBack(s: string)
    requires Numeral(s).Some?
    ensures var d := Normalize(DecimalOf(Numeral(s).value));
      && CanonicalChapterNumber(s) == Format(d) && Reduced(d) && Fits(d.coefficient)
      && Numeral(CanonicalChapterNumber(s)).Some? && DecimalOf(Numeral(CanonicalChapterNumber(s)).value) == d
      && SameValue(d, Denoted(s))
  {
    var n := DecimalOf(Numeral(s).value);
    var r := n.(coefficient := Rounded(n.coefficient));
    RoundedFits(n.coefficient);
    StrippedFits(r);
    StripKeepsValue(r);
    StripSameValue(r);
    FormatReadsBack(Strip(r));
  }

  lemma {:induction false} ReducedStripsToItself(d: Decimal)
    requires Reduced(d)
    ensures Strip(d) == d
  {
  }

  /** Canonicalising twice is canonicalising once, for every text. */
  lemma {:induction false} CanonicalIsIdempotent(s: string)
    ensures CanonicalChapterNumber(CanonicalChapterNumber(s)) == CanonicalChapterNumber(s)
  {
    if Numeral(s).None? {
      FoldedIsFixed(s);
    } else {
      CanonicalReadsBack(s);
      var d := Normalize(DecimalOf(Numeral(s).value));
      RoundingIsExactExactlyWhen(d.coefficient);
      ReducedStripsToItself(d);
    }
  }

  /** The value a text's first numeral denotes, to 28 significant digits. */
  ghost function Denoted(s: string): Decimal
    requires Numeral(s).Some?
  {
    var d := DecimalOf(Numeral(s).value);
    d.(coefficient := Rounded(d.coefficient))
  }

  /** Two texts share a canonical form exactly when they denote one value, or fold to one text. */
  lemma {:induction false} CanonicalEqualExactlyWhen(a: string, b: string)
    ensures CanonicalChapterNumber(a) == CanonicalChapterNumber(b) <==>
      if Numeral(a).Some? && Numeral(b).Some? then SameValue(Denoted(a), Denoted(b))
      else Numeral(a).None? && Numeral(b).None? && Folded(a) == Folded(b)
  {
    if Numeral(a).Some? {
      CanonicalReadsBack(a);
    } else {
      FoldedIsFixed(a);
    }
    if Numeral(b).Some? {
      CanonicalReadsBack(b);
    } else {
      FoldedIsFixed(b);
    }
    if Numeral(a).Some? && Numeral(b).Some? {
      var x, y := Strip(Denoted(a)), Strip(Denoted(b));
      if x == y {
        SameValueTransitive(Denoted(a), x, Denoted(b));
      }
      if SameValue(Denoted(a), Denoted(b)) {
        SameValueTransitive(x, Denoted(a), Denoted(b));
        SameValueTransitive(x, Denoted(b), y);
        ReducedIsUnique(x, y);
      }
    }
  }

  /**
   The sort number of a numbered text is the value of its first numeral exactly when that numeral
   has at most 28 significant digits; otherwise it is the rounded value.
   */
  lemma {:induction false} SortNumberRecoversExactlyWhen(s: string)
    requires Numeral(s).Some?
    ensures ChapterSortNumber(s).Finite? && SameValue(ChapterSortNumber(s).number, Denoted(s))
    ensures SameValue(ChapterSortNumber(s).number, DecimalOf(Numeral(s).value)) <==>
      Fits(DecimalOf(Numeral(s).value).coefficient)
  {
    CanonicalReadsBack(s);
    var n := DecimalOf(Numeral(s).value);
    var d := Normalize(n);
    FormatReadsBack(d);
    RoundingIsExactExactlyWhen(n.coefficient);
    if SameValue(d, n) {
      SameValueTransitive(Denoted(s), d, n);
      CancelFactor(Rounded(n.coefficient), n.coefficient, Pow10(n.scale));
    }
  }

  lemma {:induction false} NumeralOfDigits(n: nat)
    ensures Numeral(Digits(n)) == Some((Digits(n), "")) && DecimalOf((Digits(n), "")) == Decimal(n, 0)
  {
    NumberOfDigits(n);
    WholeNumeral(Digits(n), "");
    assert Digits(n) + "" == Digits(n);
  }

  /** Two whole numbers written out share a canonical form exactly when they round to one number. */
  lemma {:induction false} WholeNumbersShareExactlyWhen(a: nat, b: nat)
    ensures CanonicalChapterNumber(Digits(a)) == CanonicalChapterNumber(Digits(b)) <==> Rounded(a) == Rounded(b)
  {
    DenotedByDigits(a);
    DenotedByDigits(b);
    CanonicalEqualExactlyWhen(Digits(a), Digits(b));
    SameWholeValue(Rounded(a), Rounded(b));
  }

  lemma {:induction false} DenotedByDigits(n: nat)
    ensures Numeral(Digits(n)).Some? && Denoted(Digits(n)) == Decimal(Rounded(n), 0)
  {
    NumeralOfDigits(n);
  }

  lemma {:induction false} SameWholeValue(a: nat, b: nat)
    ensures SameValue(Decimal(a, 0), Decimal(b, 0)) <==> a == b
  {
    assert Pow10(0) == 1;
  }

  /** A 29th significant digit is lost: two different chapter texts share one canonical form. */
  lemma {:induction false} TwentyNinthDigitIsLost()
    ensures Digits(LIMIT) != Digits(LIMIT + 1)
    ensures CanonicalChapterNumber(Digits(LIMIT)) == CanonicalChapterNumber(Digits(LIMIT + 1))
  {
    NumberOfDigits(LIMIT);
    NumberOfDigits(LIMIT + 1);
    RoundingLosesADigit();
    WholeNumbersShareExactlyWhen(LIMIT, LIMIT + 1);
  }

  /** The text "nan" is unnumbered and still gets a sort number, which is not finite. */
  lemma {:induction false} NanIsNotFinite()
    ensures ChapterSortNumber("nan") == NotFinite("nan")
  {
    assert FirstDigit("nan", 3) == FirstDigit("nan", 2) == FirstDigit("nan", 1) == FirstDigit("nan", 0) == 3;
    assert Lower("nan") == "nan";
    assert "nan"[1..] == "an" && "an"[1..] == "n" && "n"[1..] == "";
    assert WordEnd("") == 0 && WordEnd("n") == 1 && WordEnd("an") == 2 && WordEnd("nan") == 3;
    assert "nan"[..3] == "nan" && "nan"[3..] == "";
    assert Words("nan") == ["nan"] + Words("") == ["nan"];
    assert Joined(["nan"]) == "nan";
  }

  /** A text without a numeral has no finite sort number. */
  lemma {:induction false} UnnumberedHasNoFiniteSort(s: string)
    ensures ChapterSortNumber(s).Finite? <==> Numeral(s).Some?
  {
    if Numeral(s).Some? {
      SortNumberRecoversExactlyWhen(s);
    } else {
      FoldedIsFixed(s);
    }
  }
}
