/**
 * The handful of Python `str` operations the dashboard relies on:
 * `strip()`, `upper()`, `split(sep)`, `in` on substrings, `replace`,
 * `rstrip(ch)` and `str()` of an integer.
 */
module Text {

  // ---------------------------------------------------------------------
  // Whitespace and strip()
  // ---------------------------------------------------------------------

  /** The characters for which Python's `str.isspace()` holds; `strip()`
      with no argument removes exactly these from both ends. */
  predicate IsSpace(c: char) {
    || c == ' '
    || '\t' <= c <= '\r'
    || '\U{1C}' <= c <= '\U{1F}'
    || c == '\U{85}'
    || c == '\U{A0}'
    || c == '\U{1680}'
    || '\U{2000}' <= c <= '\U{200A}'
    || c == '\U{2028}'
    || c == '\U{2029}'
    || c == '\U{202F}'
    || c == '\U{205F}'
    || c == '\U{3000}'
  }

  predicate AllSpace(s: string) {
    forall i :: 0 <= i < |s| ==> IsSpace(s[i])
  }

  /** Neither end of `s` is whitespace. */
  predicate Trimmed(s: string) {
    s == [] || (!IsSpace(s[0]) && !IsSpace(s[|s| - 1]))
  }

  /** `lstrip()`: the suffix left after removing leading whitespace. */
  function TrimLeft(s: string): (r: string)
    ensures |r| <= |s| && r == s[|s| - |r|..]
    ensures AllSpace(s[..|s| - |r|])
    ensures r == [] || !IsSpace(r[0])
  {
    if |s| > 0 && IsSpace(s[0]) then
      var t := s[1..];
      var r := TrimLeft(t);
      assert s[..|s| - |r|] == [s[0]] + t[..|t| - |r|];
      r
    else s
  }

  /** `rstrip()`: the prefix left after removing trailing whitespace. */
  function TrimRight(s: string): (r: string)
    ensures |r| <= |s| && r == s[..|r|]
    ensures AllSpace(s[|r|..])
    ensures r == [] || !IsSpace(r[|r| - 1])
  {
    if |s| > 0 && IsSpace(s[|s| - 1]) then
      var p := s[..|s| - 1];
      var r := TrimRight(p);
      assert s[|r|..] == p[|r|..] + [s[|s| - 1]];
      r
    else s
  }

  /** `strip()`: the result has no whitespace at either end; what it
      removes is whitespace only (`StripSurrounds`). */
  function Strip(s: string): (r: string)
    ensures |r| <= |s| && Trimmed(r)
  {
    var l := TrimLeft(s);
    StripTrimmed(l);
    TrimRight(l)
  }

  /** Right-trimming a string with no leading whitespace trims both ends. */
  lemma {:induction false} StripTrimmed(l: string)
    requires l == [] || !IsSpace(l[0])
    ensures Trimmed(TrimRight(l))
  {
    var r := TrimRight(l);
    if r != [] {
      assert r[0] == l[0];
    }
  }

  /** `s` is its stripped form surrounded by whitespace. */
  lemma {:induction false} StripSurrounds(s: string)
    ensures exists pre, post :: AllSpace(pre) && AllSpace(post) && s == pre + Strip(s) + post
  {
    var l := TrimLeft(s);
    var r := TrimRight(l);
    var pre := s[..|s| - |l|];
    var post := l[|r|..];
    SplitAt(s, |s| - |l|);
    SplitAt(l, |r|);
    assert Strip(s) == r;
    Surrounded(s, pre, r, post);
  }

  lemma {:induction false} SplitAt(s: string, i: nat)
    requires i <= |s|
    ensures s == s[..i] + s[i..]
  {
  }

  lemma {:induction false} Surrounded(s: string, pre: string, r: string, post: string)
    requires AllSpace(pre) && AllSpace(post)
    requires s == pre + (r + post)
    ensures exists a, b :: AllSpace(a) && AllSpace(b) && s == a + r + b
  {
    assert pre + (r + post) == pre + r + post;
  }

  lemma {:induction false} TrimLeftPadded(pre: string, core: string)
    requires AllSpace(pre)
    requires core == [] || !IsSpace(core[0])
    ensures TrimLeft(pre + core) == core
  {
    if pre != [] {
      assert (pre + core)[1..] == pre[1..] + core;
      TrimLeftPadded(pre[1..], core);
    }
  }

  lemma {:induction false} TrimRightPadded(core: string, post: string)
    requires AllSpace(post)
    requires core == [] || !IsSpace(core[|core| - 1])
    ensures TrimRight(core + post) == core
  {
    var s := core + post;
    if post != [] {
      var shorter := post[..|post| - 1];
      assert s[|s| - 1] == post[|post| - 1];
      assert IsSpace(s[|s| - 1]);
      assert s[..|s| - 1] == core + shorter;
      assert TrimRight(s) == TrimRight(core + shorter);
      TrimRightPadded(core, shorter);
    } else {
      assert s == core;
    }
  }

  /** The converse of `Strip`'s contract: surrounding a trimmed string with
      whitespace and stripping gives the string back. */
  lemma {:induction false} StripPadded(pre: string, core: string, post: string)
    requires AllSpace(pre) && AllSpace(post)
    requires Trimmed(core)
    ensures Strip(pre + core + post) == core
  {
    if core == [] {
      assert pre + core + post == pre + post;
      TrimLeftPadded(pre + post, []);
      assert pre + post + [] == pre + post;
      TrimLeftAllSpace(pre + post);
    } else {
      assert pre + core + post == pre + (core + post);
      TrimLeftPadded(pre, core + post);
      TrimRightPadded(core, post);
    }
  }

  lemma {:induction false} TrimLeftAllSpace(s: string)
    requires AllSpace(s)
    ensures TrimLeft(s) == []
  {
    if s != [] {
      TrimLeftAllSpace(s[1..]);
    }
  }

  // ---------------------------------------------------------------------
  // upper()
  // ---------------------------------------------------------------------

  /**
   * The upper-case of one character, exact for every character whose
   * Python upper-case is an ASCII letter: the ASCII lower-case letters,
   * U+0131 (dotless i, upper-cases to 'I') and U+017F (long s, upper-cases
   * to 'S'). Every other character is left as it is.
   */
  function UpperChar(c: char): (u: char)
    ensures 'A' <= u <= 'Z' ==> u == c || ('a' <= c <= 'z' && u as int == c as int - 32) || c == '\U{131}' || c == '\U{17F}'
  {
    if 'a' <= c <= 'z' then (c as int - 32) as char
    else if c == '\U{131}' then 'I'
    else if c == '\U{17F}' then 'S'
    else c
  }

  /** `upper()`, character by character. */
  function Upper(s: string): (r: string)
    ensures |r| == |s|
    ensures forall i :: 0 <= i < |s| ==> r[i] == UpperChar(s[i])
  {
    seq(|s|, i requires 0 <= i < |s| => UpperChar(s[i]))
  }

  /** `lower()` on ASCII letters. */
  function LowerChar(c: char): (l: char)
    ensures 'A' <= c <= 'Z' ==> UpperChar(l) == c && 'a' <= l <= 'z'
  {
    if 'A' <= c <= 'Z' then (c as int + 32) as char else c
  }

  /** `lower()` on ASCII letters. */
  function Lower(s: string): (r: string)
    ensures |r| == |s|
    ensures forall i :: 0 <= i < |s| ==> r[i] == LowerChar(s[i])
  {
    seq(|s|, i requires 0 <= i < |s| => LowerChar(s[i]))
  }

  /** Upper-casing undoes lower-casing on upper-case ASCII words. */
  lemma {:induction false} UpperLower(s: string)
    requires forall i :: 0 <= i < |s| ==> 'A' <= s[i] <= 'Z'
    ensures Upper(Lower(s)) == s
  {
  }

  // ---------------------------------------------------------------------
  // split(sep) and its inverse
  // ---------------------------------------------------------------------

  /** `sep.join(parts)`. */
  function Join(parts: seq<string>, sep: char): (r: string)
    requires |parts| >= 1
  {
    if |parts| == 1 then parts[0] else parts[0] + [sep] + Join(parts[1..], sep)
  }

  /** `s.split(sep)` for a one-character separator: the pieces between
      successive separators, never fewer than one. */
  function Split(s: string, sep: char): (parts: seq<string>)
    ensures |parts| >= 1
    ensures forall i :: 0 <= i < |parts| ==> sep !in parts[i]
    ensures Join(parts, sep) == s
  {
    if s == [] then [""]
    else
      var rest := Split(s[1..], sep);
      if s[0] == sep then
        assert ([""] + rest)[1..] == rest;
        [""] + rest
      else
        var parts := [[s[0]] + rest[0]] + rest[1..];
        assert Join(parts, sep) == s by {
          if |rest| > 1 {
            assert parts[1..] == rest[1..];
            assert Join(rest, sep) == rest[0] + [sep] + Join(rest[1..], sep);
          }
        }
        parts
  }

  lemma {:induction false} SplitNoSeparator(a: string, sep: char)
    requires sep !in a
    ensures Split(a, sep) == [a]
  {
    if a != [] {
      SplitNoSeparator(a[1..], sep);
    }
  }

  lemma {:induction false} SplitAfterPiece(a: string, b: string, sep: char)
    requires sep !in a
    ensures Split(a + [sep] + b, sep) == [a] + Split(b, sep)
  {
    if a == [] {
      assert a + [sep] + b == [sep] + b;
      assert ([sep] + b)[1..] == b;
    } else {
      assert (a + [sep] + b)[1..] == a[1..] + [sep] + b;
      SplitAfterPiece(a[1..], b, sep);
      assert [a[0]] + a[1..] == a;
    }
  }

  /** `split` undoes `join` when no piece contains the separator. */
  lemma {:induction false} SplitJoin(parts: seq<string>, sep: char)
    requires |parts| >= 1
    requires forall i :: 0 <= i < |parts| ==> sep !in parts[i]
    ensures Split(Join(parts, sep), sep) == parts
  {
    if |parts| == 1 {
      SplitNoSeparator(parts[0], sep);
    } else {
      SplitJoin(parts[1..], sep);
      SplitAfterPiece(parts[0], Join(parts[1..], sep), sep);
      assert [parts[0]] + parts[1..] == parts;
    }
  }

  // ---------------------------------------------------------------------
  // Substring test, replace, rstrip(ch)
  // ---------------------------------------------------------------------

  /** `pat` occurs in `s` starting at index `i`. */
  predicate OccursAt(s: string, pat: string, i: int) {
    0 <= i && i + |pat| <= |s| && s[i..i + |pat|] == pat
  }

  /** Python's `pat in s` on strings. */
  predicate Contains(s: string, pat: string) {
    exists i | 0 <= i <= |s| - |pat| :: OccursAt(s, pat, i)
  }

  /** `s.replace(c, with)` for a one-character pattern. */
  function ReplaceChar(s: string, c: char, with: string): (r: string)
    ensures c !in s ==> r == s
    ensures c !in with ==> c !in r
    ensures |r| >= |s| - 1 || c in s
  {
    if s == [] then []
    else (if s[0] == c then with else [s[0]]) + ReplaceChar(s[1..], c, with)
  }

  /** `s.rstrip(c)`: drop every trailing copy of `c`. */
  function RStripChar(s: string, c: char): (r: string)
    ensures |r| <= |s| && r == s[..|r|]
    ensures forall i :: |r| <= i < |s| ==> s[i] == c
    ensures r == [] || r[|r| - 1] != c
  {
    if |s| > 0 && s[|s| - 1] == c then RStripChar(s[..|s| - 1], c) else s
  }

  // ---------------------------------------------------------------------
  // Decimal digits
  // ---------------------------------------------------------------------

  predicate IsDigit(c: char) {
    '0' <= c <= '9'
  }

  predicate AllDigits(s: string) {
    forall i :: 0 <= i < |s| ==> IsDigit(s[i])
  }

  function DigitChar(d: nat): (c: char)
    requires d < 10
    ensures IsDigit(c)
  {
    ('0' as int + d) as char
  }

  /** The number a run of decimal digits denotes (Python's `int(s)`). */
  function DigitsValue(s: string): nat
    requires AllDigits(s)
  {
    if s == [] then 0 else DigitsValue(s[..|s| - 1]) * 10 + (s[|s| - 1] as int - '0' as int)
  }

  function Pow10(w: nat): (p: nat)
    ensures p >= 1
  {
    if w == 0 then 1 else 10 * Pow10(w - 1)
  }

  /** `n` written with exactly `w` digits, zero-padded on the left, as in
      `f"{n:0{w}d}"`. */
  function PadDigits(n: nat, w: nat): (r: string)
    requires n < Pow10(w)
    ensures |r| == w && AllDigits(r)
  {
    if w == 0 then [] else PadDigits(n / 10, w - 1) + [DigitChar(n % 10)]
  }

  lemma {:induction false} PadDigitsValue(n: nat, w: nat)
    requires n < Pow10(w)
    ensures DigitsValue(PadDigits(n, w)) == n
  {
    if w > 0 {
      PadDigitsValue(n / 10, w - 1);
      var r := PadDigits(n, w);
      assert r[..|r| - 1] == PadDigits(n / 10, w - 1);
    }
  }

  /** `str(n)` for a natural number: its shortest decimal form. */
  function NatToDecimal(n: nat): (r: string)
    ensures |r| >= 1 && AllDigits(r)
    ensures r[0] == '0' ==> n == 0 && r == "0"
  {
    if n < 10 then [DigitChar(n)] else NatToDecimal(n / 10) + [DigitChar(n % 10)]
  }

  lemma {:induction false} NatToDecimalValue(n: nat)
    ensures DigitsValue(NatToDecimal(n)) == n
  {
    if n >= 10 {
      NatToDecimalValue(n / 10);
      var r := NatToDecimal(n);
      assert r[..|r| - 1] == NatToDecimal(n / 10);
    }
  }

  /** `str(n)` for any integer. */
  function IntToDecimal(n: int): (r: string)
    ensures |r| >= 1
    ensures (r[0] == '-') == (n < 0)
  {
    if n < 0 then "-" + NatToDecimal(-n) else NatToDecimal(n)
  }
}
