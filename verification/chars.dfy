/** Character classes and string primitives of the JavaScript runtime that the
    validators, the search box and the controller rely on.

    Strings are sequences of Unicode scalar values. The classes below only name
    ASCII and Basic Multilingual Plane characters, so they agree with
    JavaScript's UTF-16 reading of the same text. */
module Chars {

  /** ECMAScript WhiteSpace or LineTerminator. This single set is what the
      regular expression class `\s` matches and what `String.prototype.trim`
      strips, so one predicate serves both. */
  predicate IsSpace(c: char) {
    var n := c as int;
    || n == 0x09 || n == 0x0A || n == 0x0B || n == 0x0C || n == 0x0D || n == 0x20
    || n == 0xA0 || n == 0x1680 || (0x2000 <= n <= 0x200A)
    || n == 0x2028 || n == 0x2029 || n == 0x202F || n == 0x205F
    || n == 0x3000 || n == 0xFEFF
  }

  /** The characters that `.` refuses to match without the `s` flag. */
  predicate IsLineTerminator(c: char) {
    var n := c as int;
    n == 0x0A || n == 0x0D || n == 0x2028 || n == 0x2029
  }

  /** `\d`: ASCII digits only. */
  predicate IsDigit(c: char) {
    '0' <= c <= '9'
  }

  /** `[A-Za-z]`. */
  predicate IsLetter(c: char) {
    'A' <= c <= 'Z' || 'a' <= c <= 'z'
  }

  /** `\w` outside unicode mode: `[A-Za-z0-9_]`. */
  predicate IsWordChar(c: char) {
    IsLetter(c) || IsDigit(c) || c == '_'
  }

  /** The canonical form a case-insensitive (non-unicode) regular expression
      compares. Only ASCII lower-case letters change; a non-ASCII character is
      never folded onto an ASCII one. */
  function FoldCase(c: char): (r: char)
    ensures IsWordChar(r) <==> IsWordChar(c)
    ensures IsSpace(r) <==> IsSpace(c)
    ensures !('a' <= r <= 'z')
  {
    if 'a' <= c <= 'z' then (c as int - 32) as char else c
  }

  /** `toLowerCase` on ASCII letters; every other character is kept. */
  function LowerChar(c: char): char {
    if 'A' <= c <= 'Z' then (c as int + 32) as char else c
  }

  /** Character-wise `LowerChar`. */
  function Lower(s: string): (r: string)
    ensures |r| == |s|
    ensures forall i | 0 <= i < |s| :: r[i] == LowerChar(s[i])
  {
    seq(|s|, i requires 0 <= i < |s| => LowerChar(s[i]))
  }

  /** Every character is white space (the empty string included). */
  predicate AllSpace(s: string) {
    forall i | 0 <= i < |s| :: IsSpace(s[i])
  }

  /** The string has no white space at either end. */
  predicate NoEdgeSpace(s: string) {
    s == [] || (!IsSpace(s[0]) && !IsSpace(s[|s| - 1]))
  }

  /** The characters of `s` that are not white space, in order. */
  function Solid(s: string): string {
    if s == [] then []
    else if IsSpace(s[0]) then Solid(s[1..])
    else [s[0]] + Solid(s[1..])
  }

  /** `trimStart`: the suffix left after dropping leading white space. */
  function TrimStart(s: string): (r: string)
    ensures |r| <= |s| && r == s[|s| - |r|..]
    ensures forall i | 0 <= i < |s| - |r| :: IsSpace(s[i])
    ensures r == [] || !IsSpace(r[0])
    ensures s != [] && IsSpace(s[0]) ==> |r| < |s|
  {
    if s != [] && IsSpace(s[0]) then TrimStart(s[1..]) else s
  }

  /** `trimEnd`: the prefix left after dropping trailing white space. */
  function TrimEnd(s: string): (r: string)
    ensures |r| <= |s| && r == s[..|r|]
    ensures forall i | |r| <= i < |s| :: IsSpace(s[i])
    ensures r == [] || !IsSpace(r[|r| - 1])
  {
    if s != [] && IsSpace(s[|s| - 1]) then TrimEnd(s[..|s| - 1]) else s
  }

  /** `String.prototype.trim`. */
  function Trim(s: string): (r: string)
    ensures NoEdgeSpace(r)
    ensures r == [] <==> AllSpace(s)
    ensures NoEdgeSpace(s) ==> r == s
    ensures exists i | 0 <= i <= |s| :: Padded(s, r, i)
  {
    TrimSlice(s);
    TrimEnd(TrimStart(s))
  }

  /** `s` is `r` at offset `i` with only white space around it. */
  predicate Padded(s: string, r: string, i: nat) {
    && i + |r| <= |s|
    && r == s[i..i + |r|]
    && AllSpace(s[..i])
    && AllSpace(s[i + |r|..])
  }

  /** `trim` keeps one stretch of `s`, with only white space around it. */
  lemma {:induction false} TrimSlice(s: string)
    ensures Padded(s, TrimEnd(TrimStart(s)), |s| - |TrimStart(s)|)
  {
    var u := TrimStart(s);
    var r := TrimEnd(u);
    assert |u| <= |s| && u == s[|s| - |u|..];
    assert |r| <= |u| && r == u[..|r|];
    PaddedCompose(s, u, r);
  }

  /** A blank-led suffix `u` of `s` and a blank-trailed prefix `r` of `u`
      make `r` a padded stretch of `s`. */
  lemma {:induction false} PaddedCompose(s: string, u: string, r: string)
    requires |u| <= |s| && u == s[|s| - |u|..]
    requires forall k | 0 <= k < |s| - |u| :: IsSpace(s[k])
    requires |r| <= |u| && r == u[..|r|]
    requires forall k | |r| <= k < |u| :: IsSpace(u[k])
    ensures Padded(s, r, |s| - |u|)
  {
    var i := |s| - |u|;
    forall k | 0 <= k < |r|
      ensures r[k] == s[i + k]
    {
      assert r[k] == u[k];
    }
    forall k | i + |r| <= k < |s|
      ensures IsSpace(s[k])
    {
      assert s[k] == u[k - i];
    }
    PaddedAt(s, r, i);
  }

  /** `Padded` from its characters. */
  lemma {:induction false} PaddedAt(s: string, r: string, i: nat)
    requires i + |r| <= |s|
    requires forall k | 0 <= k < |r| :: r[k] == s[i + k]
    requires forall k | 0 <= k < i :: IsSpace(s[k])
    requires forall k | i + |r| <= k < |s| :: IsSpace(s[k])
    ensures Padded(s, r, i)
  {
    SpaceRun(s, 0, i);
    SpaceRun(s, i + |r|, |s|);
    assert r == s[i..i + |r|];
  }

  /** White space at every position of a stretch makes the stretch blank. */
  lemma {:induction false} SpaceRun(s: string, a: nat, b: nat)
    requires a <= b <= |s|
    requires forall k | a <= k < b :: IsSpace(s[k])
    ensures AllSpace(s[a..b])
  {
    forall k | 0 <= k < b - a
      ensures IsSpace(s[a..b][k])
    {
      assert s[a..b][k] == s[a + k];
    }
  }

  /** The emptiness test every validator and the search box start with:
      `!value || value.trim() === ""`. */
  predicate MissingOrBlank(s: string) {
    s == [] || Trim(s) == []
  }

  /** The emptiness test rejects exactly the strings made only of white space. */
  lemma {:induction false} MissingOrBlankIffAllSpace(s: string)
    ensures MissingOrBlank(s) <==> AllSpace(s)
  {
  }

  /** Removing white space commutes with dropping a white-space prefix. */
  lemma {:induction false} SolidTrimStart(s: string)
    ensures Solid(TrimStart(s)) == Solid(s)
  {
    if s != [] && IsSpace(s[0]) {
      SolidTrimStart(s[1..]);
    }
  }

  /** `Solid` distributes over concatenation. */
  lemma {:induction false} SolidAppend(a: string, b: string)
    ensures Solid(a + b) == Solid(a) + Solid(b)
  {
    if a != [] {
      assert (a + b)[1..] == a[1..] + b;
      SolidAppend(a[1..], b);
    } else {
      assert a + b == b;
    }
  }

  /** A string made only of white space has no solid characters. */
  lemma {:induction false} SolidAllSpace(s: string)
    requires AllSpace(s)
    ensures Solid(s) == []
  {
    if s != [] {
      SolidAllSpace(s[1..]);
    }
  }

  /** Dropping trailing white space keeps every other character. */
  lemma {:induction false} SolidTrimEnd(t: string)
    ensures Solid(TrimEnd(t)) == Solid(t)
  {
    var r := TrimEnd(t);
    var u := t[|r|..];
    assert t == r + u;
    assert AllSpace(u) by {
      forall i | 0 <= i < |u|
        ensures IsSpace(u[i])
      {
        assert u[i] == t[|r| + i];
      }
    }
    SolidAllSpace(u);
    SolidAppend(r, u);
    assert Solid(r) + [] == Solid(r);
  }

  /** Trimming keeps every character that is not white space. */
  lemma {:induction false} SolidTrim(s: string)
    ensures Solid(Trim(s)) == Solid(s)
  {
    SolidTrimEnd(TrimStart(s));
    SolidTrimStart(s);
  }

  /** Length of the leading run of characters that are not white space. */
  function SolidRun(s: string): (n: nat)
    ensures n <= |s|
    ensures forall k | 0 <= k < n :: !IsSpace(s[k])
    ensures n == |s| || IsSpace(s[n])
  {
    if s == [] || IsSpace(s[0]) then 0 else 1 + SolidRun(s[1..])
  }

  /** The words of `s`: its maximal runs of characters that are not white
      space, in order. */
  function Words(s: string): seq<string>
    decreases |s|
  {
    if s == [] then []
    else if IsSpace(s[0]) then Words(s[1..])
    else
      var n := SolidRun(s);
      [s[..n]] + Words(s[n..])
  }

  /** The words joined by single spaces. */
  function Join(ws: seq<string>): string {
    if ws == [] then []
    else if |ws| == 1 then ws[0]
    else ws[0] + " " + Join(ws[1..])
  }

  /** White space in front adds no word. */
  lemma {:induction false} WordsSpaceCons(c: char, t: string)
    requires IsSpace(c)
    ensures Words([c] + t) == Words(t)
  {
    assert ([c] + t)[1..] == t;
  }

  /** A character that is not white space starts a word, or extends the
      first word of `t` when `t` starts with one. */
  lemma {:induction false} WordsCons(c: char, t: string)
    requires !IsSpace(c)
    ensures Words([c] + t) ==
      if t != [] && !IsSpace(t[0]) then [[c] + Words(t)[0]] + Words(t)[1..]
      else [[c]] + Words(t)
  {
    var s := [c] + t;
    assert s[1..] == t;
    var m := SolidRun(t);
    assert SolidRun(s) == 1 + m;
    assert s[..1 + m] == [c] + t[..m];
    assert s[1 + m..] == t[m..];
  }

  /** Leading white space holds no word. */
  lemma {:induction false} WordsTrimStart(s: string)
    ensures Words(TrimStart(s)) == Words(s)
  {
    if s != [] && IsSpace(s[0]) {
      WordsTrimStart(s[1..]);
    }
  }

  /** Trailing white space holds no word. */
  lemma {:induction false} WordsSpaceTail(x: string, q: string)
    requires AllSpace(q)
    ensures Words(x + q) == Words(x)
    decreases |x|
  {
    if x == [] {
      assert x + q == q;
      WordsAllSpace(q);
    } else if IsSpace(x[0]) {
      assert (x + q)[1..] == x[1..] + q;
      WordsSpaceTail(x[1..], q);
    } else {
      var n := SolidRun(x);
      assert SolidRun(x + q) == n by {
        SolidRunSpaceTail(x, q);
      }
      assert (x + q)[..n] == x[..n];
      assert (x + q)[n..] == x[n..] + q;
      WordsSpaceTail(x[n..], q);
    }
  }

  /** The leading run stops where the white-space tail starts, if not before. */
  lemma {:induction false} SolidRunSpaceTail(x: string, q: string)
    requires AllSpace(q)
    ensures SolidRun(x + q) == SolidRun(x)
  {
    if x == [] {
      assert x + q == q;
    } else if !IsSpace(x[0]) {
      assert (x + q)[1..] == x[1..] + q;
      SolidRunSpaceTail(x[1..], q);
    }
  }

  /** A blank string has no words. */
  lemma {:induction false} WordsAllSpace(q: string)
    requires AllSpace(q)
    ensures Words(q) == []
  {
    if q != [] {
      WordsAllSpace(q[1..]);
    }
  }

  /** Leading white space adds no word. */
  lemma {:induction false} WordsSpaceHead(p: string, x: string)
    requires AllSpace(p)
    ensures Words(p + x) == Words(x)
  {
    if p != [] {
      assert p + x == [p[0]] + (p[1..] + x);
      WordsSpaceCons(p[0], p[1..] + x);
      WordsSpaceHead(p[1..], x);
    } else {
      assert p + x == x;
    }
  }

  /** A stretch padded with white space has the words of the whole. */
  lemma {:induction false} WordsPadded(s: string, r: string, i: nat)
    requires Padded(s, r, i)
    ensures Words(s) == Words(r)
  {
    var p, q := s[..i], s[i + |r|..];
    assert s == p + (r + q);
    WordsSpaceHead(p, r + q);
    WordsSpaceTail(r, q);
  }

  /** Trimming keeps the words. */
  lemma {:induction false} WordsTrim(v: string)
    ensures Words(Trim(v)) == Words(v)
  {
    TrimSlice(v);
    WordsPadded(v, Trim(v), |v| - |TrimStart(v)|);
  }
}
