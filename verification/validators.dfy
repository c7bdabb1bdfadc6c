/** The field validators of scripts/validators.js.

    Each validator runs its checks in source order and reports the message of
    the first one that fails; it never fails by throwing. Each regular
    expression of the source is written out as a predicate over the characters
    of the value, and every validator's contract is stated through an
    independent characterisation of what it accepts. */
module Validators {
  import opened Chars

  /** The reasons a validator gives for rejecting a value. */
  datatype Problem =
    | DescriptionMissing | DescriptionEdges | DescriptionSpaces | DescriptionRepeat
    | AmountMissing | AmountFormat
    | DateMissing | DateFormat | DateUnknown
    | CategoryMissing | CategoryFormat

  /** The message the form shows for each problem. */
  function Message(p: Problem): string {
    match p
    case DescriptionMissing => "Please enter a description"
    case DescriptionEdges => "Description cannot start or end with spaces"
    case DescriptionSpaces => "Please use only single spaces between words"
    case DescriptionRepeat => "You typed the same word twice (e.g., \"the the\"). Please remove duplicates."
    case AmountMissing => "Please enter an amount"
    case AmountFormat => "Please enter a valid amount (e.g., 5000 or 5000.50 max 2 decimals)"
    case DateMissing => "Please enter a date"
    case DateFormat => "Please use this date format: YYYY-MM-DD (e.g., 2025-01-15)"
    case DateUnknown => "This date doesn't exist. Please check the date."
    case CategoryMissing => "Please select a category"
    case CategoryFormat => "Category can only contain letters, spaces, and hyphens"
  }

  /** `{ valid, error }` as every validator returns it: a passing verdict
      carries the empty message, a failing one the message of its problem. */
  datatype Verdict = Accept | Reject(problem: Problem) {
    const valid: bool := Accept?

    function Error(): string {
      if Accept? then "" else Message(problem)
    }
  }

  // ---------------------------------------------------------------------
  // Description
  // ---------------------------------------------------------------------

  /** `/^\S(?:.*\S)?$/`: one non-space character, or a non-space character,
      any characters but line terminators, and a final non-space character. */
  predicate EdgePattern(v: string) {
    && |v| >= 1
    && !IsSpace(v[0])
    && (|v| == 1 ||
        ((forall k | 1 <= k < |v| - 1 :: !IsLineTerminator(v[k])) && !IsSpace(v[|v| - 1])))
  }

  predicate NoLineTerminator(v: string) {
    forall k | 0 <= k < |v| :: !IsLineTerminator(v[k])
  }

  /** The first regular expression accepts exactly the non-empty strings with
      no white space at either end and no line terminator anywhere. */
  lemma {:induction false} EdgePatternIff(v: string)
    ensures EdgePattern(v) <==> v != [] && NoEdgeSpace(v) && NoLineTerminator(v)
  {
  }

  /** `/\s{2,}/`: two white-space characters in a row somewhere. */
  predicate HasSpaceRun(v: string) {
    exists i | 0 <= i < |v| - 1 :: IsSpace(v[i]) && IsSpace(v[i + 1])
  }

  /** Position `i` holds a `\w` character. */
  predicate WordAt(v: string, i: int) {
    0 <= i < |v| && IsWordChar(v[i])
  }

  /** `\b` at position `i` (between `v[i-1]` and `v[i]`). */
  predicate AtBoundary(v: string, i: int) {
    WordAt(v, i - 1) != WordAt(v, i)
  }

  /** One way for `/\b(\w+)\s+\1\b/i` to match: the group captures
      `v[a..b]`, white space fills `v[b..c]`, and the back-reference matches
      `v[c..c+(b-a)]` ignoring case, character by character. */
  ghost predicate RepeatedWordAt(v: string, a: int, b: int, c: int) {
    && 0 <= a < b < c
    && c + (b - a) <= |v|
    && AtBoundary(v, a)
    && (forall k | a <= k < b :: IsWordChar(v[k]))
    && (forall k | b <= k < c :: IsSpace(v[k]))
    && (forall k | a <= k < b :: FoldCase(v[k + (c - a)]) == FoldCase(v[k]))
    && AtBoundary(v, c + (b - a))
  }

  /** `/\b(\w+)\s+\1\b/i.test(v)`: the backtracking search succeeds exactly
      when some choice of the three positions matches. */
  ghost predicate RepeatedWord(v: string) {
    exists a, b, c :: RepeatedWordAt(v, a, b, c)
  }

  /** End of the `\w` run starting at `i`. */
  function WordEnd(v: string, i: nat): (j: nat)
    requires i <= |v|
    ensures i <= j <= |v|
    ensures forall k | i <= k < j :: IsWordChar(v[k])
    ensures j == |v| || !IsWordChar(v[j])
    decreases |v| - i
  {
    if i < |v| && IsWordChar(v[i]) then WordEnd(v, i + 1) else i
  }

  /** End of the white-space run starting at `i`. */
  function SpaceEnd(v: string, i: nat): (j: nat)
    requires i <= |v|
    ensures i <= j <= |v|
    ensures forall k | i <= k < j :: IsSpace(v[k])
    ensures j == |v| || !IsSpace(v[j])
    decreases |v| - i
  {
    if i < |v| && IsSpace(v[i]) then SpaceEnd(v, i + 1) else i
  }

  /** The word starting at `a` is followed, after white space, by the same
      word ignoring case: the tokenising reading of the duplicate check. */
  predicate RepeatStartsAt(v: string, a: nat)
    requires a <= |v|
  {
    && a < |v|
    && IsWordChar(v[a])
    && AtBoundary(v, a)
    && var b := WordEnd(v, a);
    && var c := SpaceEnd(v, b);
    && b < c
    && c + (b - a) <= |v|
    && (forall k | a <= k < b :: FoldCase(v[k + (c - a)]) == FoldCase(v[k]))
    && AtBoundary(v, c + (b - a))
  }

  /** Some word starting at or after `a` is repeated. */
  predicate HasRepeatFrom(v: string, a: nat)
    requires a <= |v|
    decreases |v| - a
  {
    a < |v| && (RepeatStartsAt(v, a) || HasRepeatFrom(v, a + 1))
  }

  /** A non-space character is neither white space nor a word character. */
  lemma {:induction false} WordCharNotSpace(c: char)
    requires IsWordChar(c)
    ensures !IsSpace(c)
  {
  }

  /** A match found by the scan is a match of the regular expression. */
  lemma {:induction false} RepeatStartsAtSound(v: string, a: nat)
    requires a <= |v| && RepeatStartsAt(v, a)
    ensures RepeatedWordAt(v, a, WordEnd(v, a), SpaceEnd(v, WordEnd(v, a)))
  {
  }

  /** In any match of the regular expression the group is the whole word at
      `a` and the white space is the whole run after it, so the scan finds it. */
  lemma {:induction false} RepeatedWordAtDetermined(v: string, a: int, b: int, c: int)
    requires RepeatedWordAt(v, a, b, c)
    ensures b == WordEnd(v, a) && c == SpaceEnd(v, b)
    ensures RepeatStartsAt(v, a)
  {
    WordCharNotSpace(v[a]);
    var j := WordEnd(v, a);
    if j > b {
      WordCharNotSpace(v[b]);
    }
    assert FoldCase(v[c]) == FoldCase(v[a]);
    WordCharNotSpace(v[c]);
  }

  /** The scan from `i` finds a repeat that starts at `a >= i`. */
  lemma {:induction false} HasRepeatFromComplete(v: string, i: nat, a: nat)
    requires i <= a <= |v| && HasRepeatFrom(v, a)
    ensures HasRepeatFrom(v, i)
    decreases a - i
  {
    if i < a {
      HasRepeatFromStep(v, a - 1);
      HasRepeatFromComplete(v, i, a - 1);
    }
  }

  /** A repeat found from `i + 1` is found from `i`. */
  lemma {:induction false} HasRepeatFromStep(v: string, i: nat)
    requires i < |v| && HasRepeatFrom(v, i + 1)
    ensures HasRepeatFrom(v, i)
  {
  }

  /** Whatever the scan from `i` reports is a match of the regular expression. */
  lemma {:induction false} HasRepeatFromSound(v: string, i: nat)
    requires i <= |v| && HasRepeatFrom(v, i)
    ensures RepeatedWord(v)
    decreases |v| - i
  {
    if RepeatStartsAt(v, i) {
      RepeatStartsAtSound(v, i);
    } else {
      HasRepeatFromSound(v, i + 1);
    }
  }

  /** The tokenising scan and the back-reference expression agree on every
      string. */
  lemma {:induction false} HasRepeatIffRepeatedWord(v: string)
    ensures HasRepeatFrom(v, 0) <==> RepeatedWord(v)
  {
    if HasRepeatFrom(v, 0) {
      HasRepeatFromSound(v, 0);
    }
    if RepeatedWord(v) {
      var a, b, c :| RepeatedWordAt(v, a, b, c);
      RepeatedWordAtDetermined(v, a, b, c);
      assert HasRepeatFrom(v, a);
      HasRepeatFromComplete(v, 0, a);
    }
  }

  /** `validateDescription`: the checks in source order, the first failure
      deciding the message. */
  function ValidateDescription(v: string): Verdict {
    if MissingOrBlank(v) then Reject(DescriptionMissing)
    else if !EdgePattern(v) then Reject(DescriptionEdges)
    else if HasSpaceRun(v) then Reject(DescriptionSpaces)
    else if HasRepeatFrom(v, 0) then Reject(DescriptionRepeat)
    else Accept
  }

  /** What each verdict of `validateDescription` means, in terms of the
      characters of the value. */
  lemma {:induction false} DescriptionVerdict(v: string)
    ensures ValidateDescription(v) == Reject(DescriptionMissing) <==> AllSpace(v)
    ensures ValidateDescription(v) == Reject(DescriptionEdges) <==>
      !AllSpace(v) && !(NoEdgeSpace(v) && NoLineTerminator(v))
    ensures ValidateDescription(v) == Reject(DescriptionSpaces) <==>
      !AllSpace(v) && NoEdgeSpace(v) && NoLineTerminator(v) && HasSpaceRun(v)
    ensures ValidateDescription(v) == Reject(DescriptionRepeat) <==>
      !AllSpace(v) && NoEdgeSpace(v) && NoLineTerminator(v) && !HasSpaceRun(v) && RepeatedWord(v)
    ensures ValidateDescription(v).valid <==>
      !AllSpace(v) && NoEdgeSpace(v) && NoLineTerminator(v) && !HasSpaceRun(v) && !RepeatedWord(v)
  {
    MissingOrBlankIffAllSpace(v);
    EdgePatternIff(v);
    HasRepeatIffRepeatedWord(v);
  }

  /** Two white-space characters in a row are rejected wherever they are. */
  lemma {:induction false} SpaceRunRejected(v: string, i: int)
    requires 0 <= i < |v| - 1 && IsSpace(v[i]) && IsSpace(v[i + 1])
    ensures !ValidateDescription(v).valid
  {
    DescriptionVerdict(v);
  }

  /** A word followed, after white space, by the same word ignoring case is
      rejected. */
  lemma {:induction false} RepeatedWordRejected(v: string, a: int, b: int, c: int)
    requires RepeatedWordAt(v, a, b, c)
    ensures !ValidateDescription(v).valid
  {
    DescriptionVerdict(v);
  }

  // ---------------------------------------------------------------------
  // Amount
  // ---------------------------------------------------------------------

  predicate AllDigits(s: string) {
    forall k | 0 <= k < |s| :: IsDigit(s[k])
  }

  /** `(0|[1-9]\d*)` */
  predicate IntegerPart(s: string) {
    s == "0" || (|s| >= 1 && '1' <= s[0] <= '9' && AllDigits(s))
  }

  /** `(\.\d{1,2})?` */
  predicate FractionPart(s: string) {
    s == "" || (2 <= |s| <= 3 && s[0] == '.' && AllDigits(s[1..]))
  }

  /** `/^(0|[1-9]\d*)(\.\d{1,2})?$/.test(v)`: some split of `v` matches the
      two groups. */
  ghost predicate AmountRegex(v: string) {
    exists k | 0 <= k <= |v| :: IntegerPart(v[..k]) && FractionPart(v[k..])
  }

  /** End of the digit run starting at `i`. */
  function DigitsEnd(v: string, i: nat): (j: nat)
    requires i <= |v|
    ensures i <= j <= |v|
    ensures forall k | i <= k < j :: IsDigit(v[k])
    ensures j == |v| || !IsDigit(v[j])
    decreases |v| - i
  {
    if i < |v| && IsDigit(v[i]) then DigitsEnd(v, i + 1) else i
  }

  /** The amount pattern, evaluated by splitting at the end of the leading
      digit run. */
  predicate AmountPattern(v: string) {
    var k := DigitsEnd(v, 0);
    IntegerPart(v[..k]) && FractionPart(v[k..])
  }

  /** Splitting at the end of the digit run is the only split that can
      work, so the evaluation agrees with the regular expression. */
  lemma {:induction false} AmountPatternIffRegex(v: string)
    ensures AmountPattern(v) <==> AmountRegex(v)
  {
    var j := DigitsEnd(v, 0);
    if AmountRegex(v) {
      var k :| 0 <= k <= |v| && IntegerPart(v[..k]) && FractionPart(v[k..]);
      assert AllDigits(v[..k]);
    }
  }

  /** `validateAmount`. */
  function ValidateAmount(v: string): Verdict {
    if MissingOrBlank(v) then Reject(AmountMissing)
    else if !AmountPattern(v) then Reject(AmountFormat)
    else Accept
  }

  /** What each verdict of `validateAmount` means. */
  lemma {:induction false} AmountVerdict(v: string)
    ensures ValidateAmount(v) == Reject(AmountMissing) <==> AllSpace(v)
    ensures ValidateAmount(v) == Reject(AmountFormat) <==> !AllSpace(v) && !AmountRegex(v)
    ensures ValidateAmount(v).valid <==> AmountRegex(v)
  {
    MissingOrBlankIffAllSpace(v);
    AmountPatternIffRegex(v);
    assert AmountPattern(v) ==> !AllSpace(v) by {
      if AmountPattern(v) {
        assert v[..DigitsEnd(v, 0)][0] == v[0];
      }
    }
  }

  /** An amount with a split into the two groups passes. */
  lemma {:induction false} SplitAccepted(v: string, k: nat)
    requires k <= |v| && IntegerPart(v[..k]) && FractionPart(v[k..])
    ensures ValidateAmount(v).valid
  {
    AmountVerdict(v);
  }

  /** Amounts the validator's message and design accept: a whole amount,
      one decimal, two decimals, and zero. */
  lemma {:induction false} AmountExamplesAccepted(v: string)
    requires v in ["5000", "5000.5", "5000.50", "0"]
    ensures ValidateAmount(v).valid
  {
    if v == "0" {
      assert IntegerPart(v[..1]) && FractionPart(v[1..]);
      SplitAccepted(v, 1);
    } else {
      assert IntegerPart(v[..4]) && FractionPart(v[4..]);
      SplitAccepted(v, 4);
    }
  }

  /** Amounts it refuses: three decimals, a sign, leading zeros, a missing
      integer part and a dangling point. */
  lemma {:induction false} AmountExamplesRejected(v: string)
    requires v in ["5000.555", "-5", "007", ".5", "5."]
    ensures !ValidateAmount(v).valid
  {
    if v == "5000.555" {
      assert DigitsEnd(v, 0) == 4 && !FractionPart(v[4..]);
    } else if v == "-5" || v == ".5" {
      assert DigitsEnd(v, 0) == 0 && !IntegerPart(v[..0]);
    } else if v == "007" {
      assert DigitsEnd(v, 0) == 3 && !IntegerPart(v[..3]);
    } else {
      assert DigitsEnd(v, 0) == 1 && !FractionPart(v[1..]);
    }
  }

  function DigitValue(c: char): nat
    requires IsDigit(c)
  {
    c as int - '0' as int
  }

  /** The decimal value of a digit string. */
  function DigitsValue(s: string): nat
    requires AllDigits(s)
  {
    if s == [] then 0 else 10 * DigitsValue(s[..|s| - 1]) + DigitValue(s[|s| - 1])
  }

  /** A whole number of hundredths: at most two decimal places. */
  predicate WholeCents(r: real) {
    (r * 100.0).Floor as real == r * 100.0
  }

  /** `parseFloat` of an accepted amount, read exactly (no rounding): a
      non-negative number with at most two decimal places. */
  function ParseAmount(v: string): (r: real)
    requires AmountPattern(v)
    ensures r >= 0.0
    ensures WholeCents(r)
  {
    var k := DigitsEnd(v, 0);
    var whole := DigitsValue(v[..k]);
    var frac := v[k..];
    var cents :=
      if |frac| == 0 then 0
      else if |frac| == 2 then 10 * DigitValue(frac[1])
      else DigitsValue(frac[1..]);
    var n := 100 * whole + cents;
    var r := n as real / 100.0;
    assert r * 100.0 == n as real;
    assert (n as real).Floor == n;
    r
  }

  /** The digit character for `d`. */
  function DigitChar(d: nat): (c: char)
    requires d < 10
    ensures IsDigit(c) && DigitValue(c) == d
  {
    ('0' as int + d) as char
  }

  /** `m` in decimal, without leading zeros. */
  function ShowNat(m: nat): (s: string)
    ensures |s| >= 1 && AllDigits(s)
    decreases m
  {
    if m < 10 then [DigitChar(m)] else ShowNat(m / 10) + [DigitChar(m % 10)]
  }

  /** Reading the decimal digits of `m` gives `m` back. */
  lemma {:induction false} ShowNatValue(m: nat)
    ensures DigitsValue(ShowNat(m)) == m
    decreases m
  {
    var s := ShowNat(m);
    if m < 10 {
      assert s[..0] == [];
    } else {
      ShowNatValue(m / 10);
      assert s[..|s| - 1] == ShowNat(m / 10);
    }
  }

  /** The decimal digits of `m` form the integer group of the amount
      pattern: `0`, or no leading zero. */
  lemma {:induction false} ShowNatInteger(m: nat)
    ensures IntegerPart(ShowNat(m))
    ensures m > 0 ==> ShowNat(m)[0] != '0'
    decreases m
  {
    if m >= 10 {
      ShowNatInteger(m / 10);
      assert ShowNat(m)[0] == ShowNat(m / 10)[0];
    }
  }

  /** An amount of `n` hundredths written with two decimals, as in
      `"12.50"`. */
  function FormatCents(n: nat): (v: string)
    ensures |v| >= 4 && v[|v| - 3] == '.'
  {
    ShowNat(n / 100) + "." + [DigitChar(n % 100 / 10), DigitChar(n % 10)]
  }

  /** A digit run from `i` to `j` followed by a non-digit ends at `j`. */
  lemma {:induction false} DigitsEndAt(v: string, i: nat, j: nat)
    requires i <= j <= |v|
    requires forall k | i <= k < j :: IsDigit(v[k])
    requires j == |v| || !IsDigit(v[j])
    ensures DigitsEnd(v, i) == j
  {
  }

  /** Two decimals read as cents. */
  lemma {:induction false} TwoDigitsValue(a: char, b: char)
    requires IsDigit(a) && IsDigit(b)
    ensures AllDigits([a, b]) && DigitsValue([a, b]) == 10 * DigitValue(a) + DigitValue(b)
  {
    assert [a][..0] == [];
    assert DigitsValue([a]) == DigitValue(a);
    assert [a, b][..1] == [a];
    assert DigitsValue([a, b]) == 10 * DigitsValue([a]) + DigitValue(b);
  }

  /** A formatted amount passes the amount pattern and is read back as the
      number it was formatted from. */
  lemma {:induction false} FormatCentsParses(n: nat)
    ensures AmountPattern(FormatCents(n))
    ensures ParseAmount(FormatCents(n)) == n as real / 100.0
  {
    var w := ShowNat(n / 100);
    var a, b := DigitChar(n % 100 / 10), DigitChar(n % 10);
    var v := FormatCents(n);
    assert v == w + ['.', a, b];
    ShowNatValue(n / 100);
    ShowNatInteger(n / 100);
    DigitsEndAt(v, 0, |w|);
    assert v[..|w|] == w;
    assert v[|w|..] == ['.', a, b];
    assert v[|w|..][1..] == [a, b];
    TwoDigitsValue(a, b);
    assert 100 * (n / 100) + 10 * (n % 100 / 10) + n % 10 == n;
  }

  /** `m` and one decimal `d`, as in `"12.5"`. */
  function FormatTenths(m: nat, d: nat): (v: string)
    requires d < 10
    ensures |v| >= 3 && v[|v| - 2] == '.'
  {
    ShowNat(m) + "." + [DigitChar(d)]
  }

  /** A whole amount passes the amount pattern and is read as itself. */
  lemma {:induction false} WholeParses(m: nat)
    ensures AmountPattern(ShowNat(m))
    ensures ParseAmount(ShowNat(m)) == m as real
  {
    var v := ShowNat(m);
    ShowNatValue(m);
    ShowNatInteger(m);
    DigitsEndAt(v, 0, |v|);
    assert v[..|v|] == v && v[|v|..] == [];
  }

  /** An amount with one decimal passes the amount pattern and the decimal
      counts as tenths. */
  lemma {:induction false} TenthsParses(m: nat, d: nat)
    requires d < 10
    ensures AmountPattern(FormatTenths(m, d))
    ensures ParseAmount(FormatTenths(m, d)) == m as real + d as real / 10.0
  {
    var w := ShowNat(m);
    var v := FormatTenths(m, d);
    assert v == w + ['.', DigitChar(d)];
    ShowNatValue(m);
    ShowNatInteger(m);
    DigitsEndAt(v, 0, |w|);
    assert v[..|w|] == w;
    assert v[|w|..] == ['.', DigitChar(d)];
  }

  /** A leading digit other than 0 makes the value positive. */
  lemma {:induction false} LeadingDigitPositive(s: string)
    requires |s| >= 1 && '1' <= s[0] <= '9' && AllDigits(s)
    ensures DigitsValue(s) >= 1
  {
    if |s| == 1 {
      assert s[..0] == [];
    } else {
      var p := s[..|s| - 1];
      assert p[0] == s[0];
      LeadingDigitPositive(p);
    }
  }

  /** Appending a digit to the decimal form of a positive number. */
  lemma {:induction false} ShowNatSnoc(a: nat, b: nat)
    requires a >= 1 && b < 10
    ensures ShowNat(10 * a + b) == ShowNat(a) + [DigitChar(b)]
  {
    assert (10 * a + b) / 10 == a && (10 * a + b) % 10 == b;
  }

  /** An integer part of the amount pattern is the decimal form of its
      value: it has no leading zero to lose. */
  lemma {:induction false} ShowNatOfDigits(s: string)
    requires IntegerPart(s)
    ensures ShowNat(DigitsValue(s)) == s
    decreases |s|
  {
    if |s| == 1 {
      assert s[..0] == [];
      assert DigitChar(DigitValue(s[0])) == s[0];
    } else {
      var p, c := s[..|s| - 1], s[|s| - 1];
      assert p[0] == s[0];
      LeadingDigitPositive(p);
      ShowNatOfDigits(p);
      ShowNatSnoc(DigitsValue(p), DigitValue(c));
      assert DigitChar(DigitValue(c)) == c;
      assert s == p + [c];
    }
  }

  /** A whole part followed by two decimals is `FormatCents` of the
      hundredths they denote. */
  lemma {:induction false} CentsShape(m: nat, d1: nat, d2: nat)
    requires d1 < 10 && d2 < 10
    ensures FormatCents(100 * m + 10 * d1 + d2) == ShowNat(m) + ['.', DigitChar(d1), DigitChar(d2)]
  {
    var n := 100 * m + 10 * d1 + d2;
    CentsDigits(m, d1, d2);
    assert FormatCents(n) == ShowNat(m) + "." + [DigitChar(d1), DigitChar(d2)];
    assert "." + [DigitChar(d1), DigitChar(d2)] == ['.', DigitChar(d1), DigitChar(d2)];
  }

  /** The whole part and the two decimals of `100 * m + 10 * d1 + d2`. */
  lemma {:induction false} CentsDigits(m: nat, d1: nat, d2: nat)
    requires d1 < 10 && d2 < 10
    ensures (100 * m + 10 * d1 + d2) / 100 == m
    ensures (100 * m + 10 * d1 + d2) % 100 / 10 == d1
    ensures (100 * m + 10 * d1 + d2) % 10 == d2
  {
    var r := 10 * d1 + d2;
    assert 0 <= r < 100;
    assert (100 * m + r) / 100 == m && (100 * m + r) % 100 == r;
    assert (100 * m + r) % 10 == d2 by {
      assert 100 * m + r == 10 * (10 * m + d1) + d2;
    }
  }

  /** The fraction group of the amount pattern is empty, one decimal or two
      decimals. */
  lemma {:induction false} FractionShapes(f: string)
    requires FractionPart(f)
    ensures || f == []
            || (|f| == 2 && f == ['.', DigitChar(DigitValue(f[1]))])
            || (|f| == 3 && f == ['.', DigitChar(DigitValue(f[1])), DigitChar(DigitValue(f[2]))])
  {
    if |f| >= 2 {
      assert IsDigit(f[1..][0]);
    }
    if |f| == 3 {
      assert IsDigit(f[1..][1]);
    }
  }

  /** Every amount the pattern accepts is a whole amount, an amount with one
      decimal or an amount with two decimals, each written without a leading
      zero. With `WholeParses`, `TenthsParses` and `FormatCentsParses` this
      fixes the value read for every accepted amount. */
  lemma {:induction false} AmountShapes(v: string)
    requires AmountPattern(v)
    ensures || (exists m: nat :: v == ShowNat(m))
            || (exists m: nat, d: nat | d < 10 :: v == FormatTenths(m, d))
            || (exists n: nat :: v == FormatCents(n))
  {
    var k := DigitsEnd(v, 0);
    var w, f := v[..k], v[k..];
    var m := DigitsValue(w);
    ShowNatOfDigits(w);
    assert v == w + f;
    FractionShapes(f);
    if |f| == 2 {
      var d := DigitValue(f[1]);
      assert v == FormatTenths(m, d);
    } else if |f| == 3 {
      var d1, d2 := DigitValue(f[1]), DigitValue(f[2]);
      CentsShape(m, d1, d2);
      assert v == FormatCents(100 * m + 10 * d1 + d2);
    } else {
      assert v == ShowNat(m);
    }
  }

  /** Every amount written as `ShowNat(m)` is read as `m`. */
  lemma {:induction false} WholeAmounts(v: string)
    ensures forall m: nat | v == ShowNat(m) :: AmountPattern(v) && ParseAmount(v) == m as real
  {
    forall m: nat | v == ShowNat(m)
      ensures AmountPattern(v) && ParseAmount(v) == m as real
    {
      WholeParses(m);
    }
  }

  /** Every amount written as `FormatTenths(m, d)` is read as `m + d / 10`. */
  lemma {:induction false} TenthsAmounts(v: string)
    ensures forall m: nat, d: nat | d < 10 && v == FormatTenths(m, d) ::
      AmountPattern(v) && ParseAmount(v) == m as real + d as real / 10.0
  {
    forall m: nat, d: nat | d < 10 && v == FormatTenths(m, d)
      ensures AmountPattern(v) && ParseAmount(v) == m as real + d as real / 10.0
    {
      TenthsParses(m, d);
    }
  }

  /** A one-decimal amount is read as tenths: `"5000.5"` is 5000.5. */
  lemma {:induction false} OneDecimalRead()
    ensures AmountPattern("5000.5") && ParseAmount("5000.5") == 5000.5
  {
    var v := "5000.5";
    DigitsEndAt(v, 0, 4);
    assert v[..4] == "5000" && v[4..] == ".5";
    assert "5"[..0] == [] && DigitsValue("5") == 5;
    assert "50"[..1] == "5" && DigitsValue("50") == 50;
    assert "500"[..2] == "50" && DigitsValue("500") == 500;
    assert "5000"[..3] == "500" && DigitsValue("5000") == 5000;
  }

  /** Every amount written as `FormatCents(n)` is read as `n` hundredths. */
  lemma {:induction false} FormattedAmounts(v: string)
    ensures forall n: nat | v == FormatCents(n) :: AmountPattern(v) && ParseAmount(v) == n as real / 100.0
  {
    forall n: nat | v == FormatCents(n)
      ensures AmountPattern(v) && ParseAmount(v) == n as real / 100.0
    {
      FormatCentsParses(n);
    }
  }

  // ---------------------------------------------------------------------
  // Date
  // ---------------------------------------------------------------------

  /** `(0[1-9]|1[0-2])` */
  predicate MonthDigits(a: char, b: char) {
    (a == '0' && '1' <= b <= '9') || (a == '1' && '0' <= b <= '2')
  }

  /** `(0[1-9]|[12]\d|3[01])` */
  predicate DayDigits(a: char, b: char) {
    (a == '0' && '1' <= b <= '9') || ((a == '1' || a == '2') && IsDigit(b)) || (a == '3' && (b == '0' || b == '1'))
  }

  /** `/^\d{4}-(0[1-9]|1[0-2])-(0[1-9]|[12]\d|3[01])$/` */
  predicate DatePattern(v: string) {
    && |v| == 10
    && IsDigit(v[0]) && IsDigit(v[1]) && IsDigit(v[2]) && IsDigit(v[3])
    && v[4] == '-'
    && MonthDigits(v[5], v[6])
    && v[7] == '-'
    && DayDigits(v[8], v[9])
  }

  function TwoDigits(a: char, b: char): nat
    requires IsDigit(a) && IsDigit(b)
  {
    10 * DigitValue(a) + DigitValue(b)
  }

  /** Four digits, a dash, a month number 1..12, a dash and a day number
      1..31, each written with two digits. No calendar rule is implied. */
  predicate DateShape(v: string) {
    && |v| == 10
    && v[4] == '-' && v[7] == '-'
    && (forall k | 0 <= k < 10 && k != 4 && k != 7 :: IsDigit(v[k]))
    && 1 <= TwoDigits(v[5], v[6]) <= 12
    && 1 <= TwoDigits(v[8], v[9]) <= 31
  }

  /** The date pattern accepts exactly the strings of that shape. */
  lemma {:induction false} DatePatternIffShape(v: string)
    ensures DatePattern(v) <==> DateShape(v)
  {
    if DateShape(v) {
      assert IsDigit(v[0]) && IsDigit(v[1]) && IsDigit(v[2]) && IsDigit(v[3]);
      assert IsDigit(v[5]) && IsDigit(v[6]) && IsDigit(v[8]) && IsDigit(v[9]);
    }
  }

  /** `validateDate`. Whether `new Date(value)` yields a valid time is up to
      the JavaScript engine's date parser, passed in as `dateParses`. */
  function ValidateDate(v: string, dateParses: string -> bool): Verdict {
    if MissingOrBlank(v) then Reject(DateMissing)
    else if !DatePattern(v) then Reject(DateFormat)
    else if !dateParses(v) then Reject(DateUnknown)
    else Accept
  }

  /** What each verdict of `validateDate` means. */
  lemma {:induction false} DateVerdict(v: string, dateParses: string -> bool)
    ensures ValidateDate(v, dateParses) == Reject(DateMissing) <==> AllSpace(v)
    ensures ValidateDate(v, dateParses) == Reject(DateFormat) <==> !AllSpace(v) && !DateShape(v)
    ensures ValidateDate(v, dateParses) == Reject(DateUnknown) <==> DateShape(v) && !dateParses(v)
    ensures ValidateDate(v, dateParses).valid <==> DateShape(v) && dateParses(v)
  {
    MissingOrBlankIffAllSpace(v);
    DatePatternIffShape(v);
    assert DateShape(v) ==> !AllSpace(v) by {
      if DateShape(v) {
        assert v[4] == '-';
      }
    }
  }

  // ---------------------------------------------------------------------
  // Category
  // ---------------------------------------------------------------------

  predicate IsSeparator(c: char) {
    c == ' ' || c == '-'
  }

  /** `/^[A-Za-z]+(?:[ -][A-Za-z]+)*$/`, read as a grammar: a letter,
      followed by nothing, by a category, or by a separator and a category. */
  predicate CategoryPattern(v: string)
    decreases |v|
  {
    && |v| >= 1
    && IsLetter(v[0])
    && (|v| == 1
        || (IsLetter(v[1]) && CategoryPattern(v[1..]))
        || (IsSeparator(v[1]) && CategoryPattern(v[2..])))
  }

  /** Letter runs joined by single spaces or hyphens: only letters and
      separators, a letter at both ends, and a letter after every separator. */
  predicate LetterWords(v: string) {
    && |v| >= 1
    && IsLetter(v[0])
    && IsLetter(v[|v| - 1])
    && (forall k | 0 <= k < |v| :: IsLetter(v[k]) || IsSeparator(v[k]))
    && (forall k | 0 <= k < |v| - 1 :: IsSeparator(v[k]) ==> IsLetter(v[k + 1]))
  }

  /** The category grammar accepts exactly the letter-word strings. */
  lemma {:induction false} CategoryPatternIff(v: string)
    ensures CategoryPattern(v) <==> LetterWords(v)
    decreases |v|
  {
    if |v| >= 2 {
      var t := v[1..];
      CategoryPatternIff(t);
      assert forall k | 1 <= k < |v| :: v[k] == t[k - 1];
      if |v| >= 3 {
        var u := v[2..];
        CategoryPatternIff(u);
        assert forall k | 2 <= k < |v| :: v[k] == u[k - 2];
        if LetterWords(v) && IsSeparator(v[1]) {
          assert IsLetter(u[0]);
          assert LetterWords(u);
        }
      } else if IsSeparator(v[1]) {
        assert !LetterWords(v);
      }
    }
  }

  /** `validateCategory`. */
  function ValidateCategory(v: string): Verdict {
    if MissingOrBlank(v) then Reject(CategoryMissing)
    else if !CategoryPattern(v) then Reject(CategoryFormat)
    else Accept
  }

  /** What each verdict of `validateCategory` means. */
  lemma {:induction false} CategoryVerdict(v: string)
    ensures ValidateCategory(v) == Reject(CategoryMissing) <==> AllSpace(v)
    ensures ValidateCategory(v) == Reject(CategoryFormat) <==> !AllSpace(v) && !LetterWords(v)
    ensures ValidateCategory(v).valid <==> LetterWords(v)
  {
    MissingOrBlankIffAllSpace(v);
    CategoryPatternIff(v);
  }

  // ---------------------------------------------------------------------
  // cleanDescription
  // ---------------------------------------------------------------------

  /** `.replace(/\s+/g, " ")`: every maximal white-space run becomes one
      space. */
  function Collapse(s: string): string
    decreases |s|
  {
    if s == [] then []
    else if IsSpace(s[0]) then [' '] + Collapse(TrimStart(s))
    else [s[0]] + Collapse(s[1..])
  }

  /** White space occurs only as the space character and never twice in a
      row. */
  predicate SingleSpaced(s: string) {
    && (forall k | 0 <= k < |s| :: IsSpace(s[k]) ==> s[k] == ' ')
    && (forall k | 0 <= k < |s| - 1 :: !(s[k] == ' ' && s[k + 1] == ' '))
  }

  /** What `cleanDescription` promises to produce. */
  predicate IsClean(s: string) {
    NoEdgeSpace(s) && SingleSpaced(s)
  }

  /** The collapsed string is empty exactly when the input is, and starts
      with white space exactly when the input does. */
  lemma {:induction false} CollapseFirst(s: string)
    ensures s == [] <==> Collapse(s) == []
    ensures s != [] ==> (IsSpace(Collapse(s)[0]) <==> IsSpace(s[0]))
  {
  }

  /** The collapsed string ends with white space exactly when the input does. */
  lemma {:induction false} CollapseLast(s: string)
    requires s != []
    ensures Collapse(s) != []
    ensures IsSpace(Collapse(s)[|Collapse(s)| - 1]) <==> IsSpace(s[|s| - 1])
    decreases |s|
  {
    CollapseFirst(s);
    if IsSpace(s[0]) {
      var t := TrimStart(s);
      if t != [] {
        CollapseLast(t);
        assert t[|t| - 1] == s[|s| - 1];
        assert Collapse(s) == [' '] + Collapse(t);
      }
    } else if |s| > 1 {
      CollapseLast(s[1..]);
      assert Collapse(s) == [s[0]] + Collapse(s[1..]);
    }
  }

  /** Prepending one character keeps a string single-spaced when the
      character is not white space, or is a space not followed by one. */
  lemma {:induction false} SingleSpacedCons(x: char, c: string)
    requires SingleSpaced(c)
    requires IsSpace(x) ==> x == ' ' && (c == [] || !IsSpace(c[0]))
    ensures SingleSpaced([x] + c)
  {
    var s := [x] + c;
    forall k | 0 <= k < |s|
      ensures IsSpace(s[k]) ==> s[k] == ' '
    {
      if k > 0 {
        assert s[k] == c[k - 1];
      }
    }
    forall k | 0 <= k < |s| - 1
      ensures !(s[k] == ' ' && s[k + 1] == ' ')
    {
      assert s[k + 1] == c[k];
      if k > 0 {
        assert s[k] == c[k - 1];
      }
    }
  }

  /** The collapsed string is single-spaced. */
  lemma {:induction false} CollapseSingle(s: string)
    ensures SingleSpaced(Collapse(s))
    decreases |s|
  {
    if s == [] {
    } else if IsSpace(s[0]) {
      var t := TrimStart(s);
      CollapseSingle(t);
      CollapseFirst(t);
      SingleSpacedCons(' ', Collapse(t));
    } else {
      CollapseSingle(s[1..]);
      SingleSpacedCons(s[0], Collapse(s[1..]));
    }
  }

  /** Collapsing keeps every character that is not white space. */
  lemma {:induction false} CollapseSolid(s: string)
    ensures Solid(Collapse(s)) == Solid(s)
    decreases |s|
  {
    if s == [] {
    } else if IsSpace(s[0]) {
      var t := TrimStart(s);
      CollapseSolid(t);
      SolidTrimStart(s);
      SolidAppend([' '], Collapse(t));
    } else {
      CollapseSolid(s[1..]);
      SolidAppend([s[0]], Collapse(s[1..]));
    }
  }

  /** A clean string is its own cleaned form. */
  lemma {:induction false} CollapseSingleSpacedWhenClean(v: string)
    ensures IsClean(v) ==> Collapse(Trim(v)) == v
  {
    if IsClean(v) {
      CollapseSingleSpaced(v);
    }
  }

  /** A single-spaced string has nothing to collapse. */
  lemma {:induction false} CollapseSingleSpaced(s: string)
    requires SingleSpaced(s)
    ensures Collapse(s) == s
    decreases |s|
  {
    if s != [] {
      assert SingleSpaced(s[1..]);
      CollapseSingleSpaced(s[1..]);
      if IsSpace(s[0]) {
        assert |s| > 1 ==> !IsSpace(s[1]);
        assert TrimStart(s) == s[1..];
      }
    }
  }

  /** Collapsing a trimmed string leaves no white space at either end. */
  lemma {:induction false} CollapseTrimmed(t: string)
    requires NoEdgeSpace(t)
    ensures NoEdgeSpace(Collapse(t))
  {
    CollapseFirst(t);
    if t != [] {
      CollapseLast(t);
    }
  }

  /** Collapsing keeps the words: a white-space run becomes one space, it
      never disappears. */
  lemma {:induction false} CollapseWords(s: string)
    ensures Words(Collapse(s)) == Words(s)
    decreases |s|
  {
    if s == [] {
    } else if IsSpace(s[0]) {
      var t := TrimStart(s);
      CollapseWords(t);
      WordsSpaceCons(' ', Collapse(t));
      WordsTrimStart(s);
    } else {
      CollapseWords(s[1..]);
      CollapseFirst(s[1..]);
      WordsCons(s[0], Collapse(s[1..]));
      WordsCons(s[0], s[1..]);
      assert s == [s[0]] + s[1..];
    }
  }

  /** A single-spaced string stays single-spaced from any index on. */
  lemma {:induction false} SingleSpacedSuffix(s: string, i: nat)
    requires SingleSpaced(s) && i <= |s|
    ensures SingleSpaced(s[i..])
  {
    var u := s[i..];
    forall k | 0 <= k < |u|
      ensures IsSpace(u[k]) ==> u[k] == ' '
    {
      assert u[k] == s[i + k];
    }
    forall k | 0 <= k < |u| - 1
      ensures !(u[k] == ' ' && u[k + 1] == ' ')
    {
      assert u[k] == s[i + k] && u[k + 1] == s[i + k + 1];
    }
  }

  /** A clean string is its words joined by single spaces, so the words
      determine it. */
  lemma {:induction false} CleanJoin(s: string)
    requires IsClean(s)
    ensures Join(Words(s)) == s
    decreases |s|
  {
    if s != [] {
      var n := SolidRun(s);
      assert n >= 1;
      if n == |s| {
        assert s[..n] == s && s[n..] == [];
      } else {
        assert s[n] == ' ';
        assert n + 1 < |s|;
        assert !IsSpace(s[n + 1]);
        var rest := s[n + 1..];
        SingleSpacedSuffix(s, n + 1);
        assert rest[|rest| - 1] == s[|s| - 1];
        CleanJoin(rest);
        assert s[n..] == [s[n]] + rest;
        WordsSpaceCons(s[n], rest);
        assert Words(s) == [s[..n]] + Words(rest);
        assert s == s[..n] + " " + rest;
      }
    }
  }

  /** `cleanDescription`: trim, then collapse white-space runs. */
  function CleanDescription(v: string): (r: string)
    ensures IsClean(r)
    ensures Solid(r) == Solid(v)
    ensures Words(r) == Words(v)
    ensures r == Join(Words(v))
    ensures r == [] <==> AllSpace(v)
    ensures IsClean(v) ==> r == v
  {
    var t := Trim(v);
    CollapseTrimmed(t);
    CollapseFirst(t);
    CollapseSingle(t);
    CollapseSolid(t);
    SolidTrim(v);
    CollapseSingleSpacedWhenClean(v);
    WordsTrim(v);
    CollapseWords(t);
    CleanJoin(Collapse(t));
    Collapse(t)
  }

  /** Cleaning twice is cleaning once. */
  lemma {:induction false} CleanDescriptionIdempotent(v: string)
    ensures CleanDescription(CleanDescription(v)) == CleanDescription(v)
  {
  }

  /** A cleaned description can only fail validation for being blank or for
      a repeated word; the space-related messages never appear. */
  lemma {:induction false} CleanedDescriptionVerdict(v: string)
    ensures ValidateDescription(CleanDescription(v)) != Reject(DescriptionEdges)
    ensures ValidateDescription(CleanDescription(v)) != Reject(DescriptionSpaces)
    ensures ValidateDescription(CleanDescription(v)) == Reject(DescriptionMissing) <==> AllSpace(v)
  {
    var c := CleanDescription(v);
    CleanFacts(c);
    DescriptionVerdict(c);
  }

  /** A clean string has no line terminator and no white-space run, and is
      all white space only when empty. */
  lemma {:induction false} CleanFacts(c: string)
    requires IsClean(c)
    ensures NoLineTerminator(c)
    ensures !HasSpaceRun(c)
    ensures AllSpace(c) <==> c == []
  {
    assert NoLineTerminator(c) by {
      forall k | 0 <= k < |c|
        ensures !IsLineTerminator(c[k])
      {
        if IsLineTerminator(c[k]) {
          assert IsSpace(c[k]);
        }
      }
    }
    if c != [] {
      assert !IsSpace(c[0]);
    }
  }

  // ---------------------------------------------------------------------
  // validateForm
  // ---------------------------------------------------------------------

  datatype Field = Description | Amount | Date | Category

  /** The four text inputs of the transaction form. */
  datatype FormData = FormData(description: string, amount: string, category: string, date: string)

  /** `{ valid, errors }` as `validateForm` returns it. */
  datatype FormVerdict = FormVerdict(valid: bool, errors: map<Field, Problem>)

  /** The verdict among the four that belongs to `field`. */
  function Pick(field: Field, d: Verdict, a: Verdict, t: Verdict, c: Verdict): Verdict {
    match field
    case Description => d
    case Amount => a
    case Date => t
    case Category => c
  }

  /** A failing verdict's entry in `errors`; a passing one adds nothing. */
  function ErrorEntry(field: Field, v: Verdict): map<Field, Problem> {
    if v.valid then map[] else map[field := v.problem]
  }

  /** The result `validateForm` builds from the four verdicts: four
      independent `if` statements fill `errors`, and the form is valid when
      `errors` has no key. */
  function Collect(d: Verdict, a: Verdict, t: Verdict, c: Verdict): (r: FormVerdict)
    ensures forall field: Field :: field in r.errors <==> !Pick(field, d, a, t, c).valid
    ensures forall field: Field | field in r.errors :: Reject(r.errors[field]) == Pick(field, d, a, t, c)
    ensures r.valid <==> d.valid && a.valid && t.valid && c.valid
  {
    var errors := ErrorEntry(Description, d) + ErrorEntry(Amount, a) + ErrorEntry(Date, t) + ErrorEntry(Category, c);
    assert !d.valid ==> Description in errors;
    assert !a.valid ==> Amount in errors;
    assert !t.valid ==> Date in errors;
    assert !c.valid ==> Category in errors;
    // `Object.keys(errors).length === 0`
    FormVerdict(errors == map[], errors)
  }

  /** `validateForm`: all four validators run, whatever the others say. */
  function ValidateForm(f: FormData, dateParses: string -> bool): FormVerdict {
    Collect(ValidateDescription(f.description), ValidateAmount(f.amount), ValidateDate(f.date, dateParses), ValidateCategory(f.category))
  }

  /** A single word, with no white space, holds no repeated word. */
  lemma {:induction false} OneWordNoRepeat(v: string, i: nat)
    requires i <= |v|
    requires forall k | 0 <= k < |v| :: IsWordChar(v[k])
    ensures !HasRepeatFrom(v, i)
    decreases |v| - i
  {
    if i < |v| {
      assert WordEnd(v, i) == |v|;
      OneWordNoRepeat(v, i + 1);
    }
  }

  /** Any single word is a valid description. */
  lemma {:induction false} OneWordAccepted(v: string)
    requires v != [] && forall k | 0 <= k < |v| :: IsWordChar(v[k])
    ensures ValidateDescription(v).valid
  {
    WordCharNotSpace(v[0]);
    WordCharNotSpace(v[|v| - 1]);
    assert NoLineTerminator(v) by {
      forall k | 0 <= k < |v| ensures !IsLineTerminator(v[k]) {
        WordCharNotSpace(v[k]);
      }
    }
    assert !HasSpaceRun(v) by {
      forall k | 0 <= k < |v| - 1 ensures !IsSpace(v[k]) {
        WordCharNotSpace(v[k]);
      }
    }
    OneWordNoRepeat(v, 0);
    HasRepeatIffRepeatedWord(v);
    DescriptionVerdict(v);
  }

  /** The description of a typical entry passes every check. */
  lemma {:induction false} LunchDescriptionAccepted()
    ensures ValidateDescription("Lunch").valid
  {
    var v := "Lunch";
    assert forall k | 0 <= k < |v| :: IsWordChar(v[k]);
    OneWordAccepted(v);
  }

  lemma {:induction false} LunchAmountAccepted()
    ensures ValidateAmount("12.50").valid
  {
    SplitAccepted("12.50", 2);
  }

  lemma {:induction false} LunchCategoryAccepted()
    ensures ValidateCategory("Food").valid
  {
    assert LetterWords("Food");
    CategoryVerdict("Food");
  }

  lemma {:induction false} LunchDateAccepted(dateParses: string -> bool)
    requires dateParses("2025-01-15")
    ensures ValidateDate("2025-01-15", dateParses).valid
  {
    assert DateShape("2025-01-15");
    DateVerdict("2025-01-15", dateParses);
  }

  /** A typical entry is accepted whenever `new Date` accepts its date. */
  lemma {:induction false} LunchFormAccepted(dateParses: string -> bool)
    requires dateParses("2025-01-15")
    ensures ValidateForm(FormData("Lunch", "12.50", "Food", "2025-01-15"), dateParses).valid
  {
    LunchDescriptionAccepted();
    LunchAmountAccepted();
    LunchCategoryAccepted();
    LunchDateAccepted(dateParses);
  }
}
