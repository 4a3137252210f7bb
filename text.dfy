/** Text helpers shared by the JavaScript and Python models: whitespace
    trimming with the exact whitespace set of each language, ASCII case
    folding, substring search, decimal rendering and joining. */
module Text {

  /** Whose notion of whitespace: Python's `str.isspace()`, which
      `str.strip()` removes, or JavaScript's WhiteSpace and LineTerminator,
      which `String.prototype.trim` removes. */
  datatype Whitespace = PythonWhitespace | JsWhitespace

  /** `c` is whitespace in the given language. */
  predicate IsSpace(ws: Whitespace, c: char) {
    || '\U{09}' <= c <= '\U{0D}'
    || c == '\U{20}' || c == '\U{A0}' || c == '\U{1680}'
    || '\U{2000}' <= c <= '\U{200A}'
    || c == '\U{2028}' || c == '\U{2029}' || c == '\U{202F}' || c == '\U{205F}' || c == '\U{3000}'
    || (ws == PythonWhitespace && ('\U{1C}' <= c <= '\U{1F}' || c == '\U{85}'))
    || (ws == JsWhitespace && c == '\U{FEFF}')
  }

  /** Drops trailing characters of `ws`. */
  function TrimEnd(s: string, ws: Whitespace): (r: string)
    ensures |r| <= |s| && r == s[..|r|]
    ensures r == [] || !IsSpace(ws, r[|r| - 1])
  {
    if s != [] && IsSpace(ws, s[|s| - 1]) then TrimEnd(s[..|s| - 1], ws) else s
  }

  /** Everything `TrimEnd` drops is whitespace. */
  lemma {:induction false} TrimEndSpaces(s: string, ws: Whitespace)
    ensures forall k :: |TrimEnd(s, ws)| <= k < |s| ==> IsSpace(ws, s[k])
  {
    if s != [] && IsSpace(ws, s[|s| - 1]) {
      var front := s[..|s| - 1];
      TrimEndSpaces(front, ws);
      forall k | |TrimEnd(s, ws)| <= k < |s| ensures IsSpace(ws, s[k]) {
        if k < |s| - 1 {
          assert s[k] == front[k];
        }
      }
    }
  }

  /** `s` without its leading and trailing characters of `ws`: Python's
      `strip()` with `PythonWhitespace`, JavaScript's `trim()` with
      `JsWhitespace`. `StripInfix` shows the result is the infix of `s` left
      once whitespace-only ends are cut off. */
  function Strip(s: string, ws: Whitespace): (r: string)
    ensures |r| <= |s|
    ensures r == [] || (!IsSpace(ws, r[0]) && !IsSpace(ws, r[|r| - 1]))
  {
    if s != [] && IsSpace(ws, s[0]) then Strip(s[1..], ws) else TrimEnd(s, ws)
  }

  /** The stripped string is an infix of `s` with only whitespace around it. */
  lemma {:induction false} StripInfix(s: string, ws: Whitespace)
    ensures exists i :: StrippedAt(s, Strip(s, ws), i, ws)
  {
    if s != [] && IsSpace(ws, s[0]) {
      StripInfix(s[1..], ws);
      StripShift(s, Strip(s[1..], ws), ws);
      assert Strip(s, ws) == Strip(s[1..], ws);
    } else {
      TrimEndSpaces(s, ws);
      assert Strip(s, ws) == TrimEnd(s, ws);
      assert StrippedAt(s, TrimEnd(s, ws), 0, ws);
    }
  }

  /** Cutting a leading whitespace character moves the stripped infix by one. */
  lemma StripShift(s: string, r: string, ws: Whitespace)
    requires s != [] && IsSpace(ws, s[0])
    requires exists i :: StrippedAt(s[1..], r, i, ws)
    ensures exists i :: StrippedAt(s, r, i, ws)
  {
    var i :| StrippedAt(s[1..], r, i, ws);
    assert s[i + 1..i + 1 + |r|] == s[1..][i..i + |r|];
    forall k | 0 <= k < i + 1 ensures IsSpace(ws, s[k]) {
      if k > 0 {
        assert s[k] == s[1..][k - 1];
      }
    }
    forall k | i + 1 + |r| <= k < |s| ensures IsSpace(ws, s[k]) {
      assert s[k] == s[1..][k - 1];
    }
    assert StrippedAt(s, r, i + 1, ws);
  }

  /** `r` is the infix of `s` at `i`, and everything of `s` outside it is in `ws`. */
  ghost predicate StrippedAt(s: string, r: string, i: int, ws: Whitespace) {
    && 0 <= i <= |s| - |r| && r == s[i..i + |r|]
    && (forall k :: 0 <= k < i ==> IsSpace(ws, s[k]))
    && (forall k :: i + |r| <= k < |s| ==> IsSpace(ws, s[k]))
  }

  /** A string is blank (strips to "") exactly when every character is whitespace. */
  lemma StripBlank(s: string, ws: Whitespace)
    ensures Strip(s, ws) == [] <==> forall k :: 0 <= k < |s| ==> IsSpace(ws, s[k])
  {
    var r := Strip(s, ws);
    StripInfix(s, ws);
    if r != [] {
      var i :| StrippedAt(s, r, i, ws);
      assert s[i] == r[0] && !IsSpace(ws, s[i]);
    }
  }

  /** Stripping twice strips nothing more. */
  lemma StripIdempotent(s: string, ws: Whitespace)
    ensures Strip(Strip(s, ws), ws) == Strip(s, ws)
  {
    var r := Strip(s, ws);
    if r != [] {
      assert TrimEnd(r, ws) == r;
    }
  }

  function LowerChar(c: char): char {
    if 'A' <= c <= 'Z' then (c as int + 32) as char else c
  }

  /** ASCII lower-casing: `A`..`Z` become `a`..`z`, every other character is kept. */
  function AsciiLower(s: string): (r: string)
    ensures |r| == |s|
    ensures forall k :: 0 <= k < |s| ==> r[k] == LowerChar(s[k])
  {
    seq(|s|, k requires 0 <= k < |s| => LowerChar(s[k]))
  }

  /** Python's `pat in text` and JavaScript's `text.includes(pat)`: `pat`
      starts `text` or some suffix of it. */
  predicate Contains(text: string, pat: string)
    decreases |text|
  {
    StartsWith(text, pat) || (text != [] && Contains(text[1..], pat))
  }

  /** `pat` is a prefix of `text`, compared character by character. */
  predicate StartsWith(text: string, pat: string)
    decreases |pat|
  {
    pat == [] || (text != [] && text[0] == pat[0] && StartsWith(text[1..], pat[1..]))
  }

  /** `StartsWith` is the prefix relation on sequences. */
  lemma {:induction false} StartsWithIndex(text: string, pat: string)
    ensures StartsWith(text, pat) <==> |pat| <= |text| && text[..|pat|] == pat
    decreases |pat|
  {
    if pat != [] && text != [] {
      StartsWithIndex(text[1..], pat[1..]);
      if |pat| <= |text| {
        assert text[..|pat|] == [text[0]] + text[1..][..|pat| - 1];
        assert pat == [pat[0]] + pat[1..];
      }
    }
  }

  /** A text starting with `p + q` starts with `p`, and what follows `p` in
      it starts with `q`. */
  lemma {:induction false} StartsWithSplit(text: string, p: string, q: string)
    requires StartsWith(text, p + q)
    ensures StartsWith(text, p)
    ensures |p| <= |text| && StartsWith(text[|p|..], q)
    decreases |p|
  {
    if p != [] {
      assert (p + q)[1..] == p[1..] + q;
      StartsWithSplit(text[1..], p[1..], q);
      assert text[1..][|p| - 1..] == text[|p|..];
    } else {
      assert p + q == q;
    }
  }

  /** Only a text at least as long as `pat` contains it. */
  lemma {:induction false} ContainsLength(text: string, pat: string)
    requires Contains(text, pat)
    ensures |pat| <= |text|
    decreases |text|
  {
    if !StartsWith(text, pat) {
      ContainsLength(text[1..], pat);
    } else {
      StartsWithLength(text, pat);
    }
  }

  lemma {:induction false} StartsWithLength(text: string, pat: string)
    requires StartsWith(text, pat)
    ensures |pat| <= |text|
    decreases |pat|
  {
    if pat != [] {
      StartsWithLength(text[1..], pat[1..]);
    }
  }

  /** A text contains whatever a suffix of it contains. */
  lemma {:induction false} ContainsDrop(text: string, pat: string, k: nat)
    requires k <= |text| && Contains(text[k..], pat)
    ensures Contains(text, pat)
    decreases k
  {
    if k > 0 {
      assert text[1..][k - 1..] == text[k..];
      ContainsDrop(text[1..], pat, k - 1);
    }
  }

  /** A text that contains `p + q` contains `p`. */
  lemma {:induction false} ContainsPrefix(text: string, p: string, q: string)
    requires Contains(text, p + q)
    ensures Contains(text, p)
    decreases |text|
  {
    if StartsWith(text, p + q) {
      StartsWithSplit(text, p, q);
    } else {
      ContainsPrefix(text[1..], p, q);
    }
  }

  /** A text that contains `p + q` contains `q`. */
  lemma {:induction false} ContainsSuffix(text: string, p: string, q: string)
    requires Contains(text, p + q)
    ensures Contains(text, q)
    decreases |text|
  {
    if StartsWith(text, p + q) {
      StartsWithSplit(text, p, q);
      ContainsDrop(text, q, |p|);
    } else {
      ContainsSuffix(text[1..], p, q);
    }
  }

  function Digit(d: nat): char
    requires d < 10
  {
    "0123456789"[d]
  }

  /** Decimal digits of a natural number, most significant first. */
  function NatToString(n: nat): (r: string)
    ensures r != []
  {
    if n < 10 then [Digit(n)] else NatToString(n / 10) + [Digit(n % 10)]
  }

  /** Decimal rendering of an integer, with a leading `-` when negative. */
  function Decimal(n: int): (r: string)
    ensures r != []
  {
    if n < 0 then "-" + NatToString(-n) else NatToString(n)
  }

  /** The parts separated by `sep` (JavaScript's `join`, Python's `sep.join`). */
  function Join(parts: seq<string>, sep: string): string {
    if parts == [] then ""
    else if |parts| == 1 then parts[0]
    else parts[0] + sep + Join(parts[1..], sep)
  }

  /** All parts one after the other. */
  function Concat(parts: seq<string>): string {
    if parts == [] then "" else parts[0] + Concat(parts[1..])
  }
}
