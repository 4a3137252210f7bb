/** how-to-create-a-google-gemini-chatbot/main.py: the role mapping between
    the Gemini chat history and Streamlit, and the text `to_markdown` makes
    of a reply. Streamlit, the IPython `Markdown` wrapper and the Gemini
    client are not modelled. Line breaks are '\n' only. */
module GeminiChat {
  import opened Text

  /** Streamlit's name for a Gemini role: "model" becomes "assistant", every
      other role is kept, so no result is "model". */
  function RoleToStreamlit(role: string): (r: string)
    ensures r != "model"
    ensures role != "model" ==> r == role
    ensures role == "model" ==> r == "assistant"
  {
    if role == "model" then "assistant" else role
  }

  /** Mapping a role twice maps it once. */
  lemma RoleToStreamlitIdempotent(role: string)
    ensures RoleToStreamlit(RoleToStreamlit(role)) == RoleToStreamlit(role)
  {
  }

  /** The bullet '•' (UTF-8 E2 80 A2) as it reads when decoded as Windows-1252. */
  const Bullet: string := ['â', '€', '¢']
  const MarkdownBullet: string := "  *"
  const QuotePrefix: string := "> "

  /** `s.replace(Bullet, MarkdownBullet)`: occurrences found left to right
      and not overlapping, each swapped for the Markdown bullet. Both are
      three characters long, so the length is kept. */
  function ReplaceBullets(s: string): (r: string)
    ensures |r| == |s|
    decreases |s|
  {
    if |s| < |Bullet| then s
    else if StartsWith(s, Bullet) then MarkdownBullet + ReplaceBullets(s[|Bullet|..])
    else [s[0]] + ReplaceBullets(s[1..])
  }

  /** A prefix of the result made only of characters the Markdown bullet
      lacks was already a prefix of the input. */
  lemma {:induction false} ReplacedPrefix(s: string, w: string)
    requires forall k :: 0 <= k < |w| ==> w[k] !in MarkdownBullet
    requires StartsWith(ReplaceBullets(s), w)
    ensures StartsWith(s, w)
    decreases |s|
  {
    if |s| >= |Bullet| && w != [] && !StartsWith(s, Bullet) {
      assert forall k :: 0 <= k < |w[1..]| ==> w[1..][k] == w[k + 1];
      ReplacedPrefix(s[1..], w[1..]);
    }
  }

  /** A text that starts with characters `pat` cannot start with contains
      `pat` only after them. */
  lemma {:induction false} ContainsAfter(x: string, y: string, pat: string)
    requires pat != [] && pat[0] !in x
    requires Contains(x + y, pat)
    ensures Contains(y, pat)
    decreases |x|
  {
    if x != [] {
      assert (x + y)[1..] == x[1..] + y;
      ContainsAfter(x[1..], y, pat);
    } else {
      assert x + y == y;
    }
  }

  /** Every bullet is replaced: none is left in the result. */
  lemma {:induction false} NoBulletLeft(s: string)
    ensures !Contains(ReplaceBullets(s), Bullet)
    decreases |s|
  {
    var r := ReplaceBullets(s);
    if |s| < |Bullet| {
      if Contains(r, Bullet) {
        ContainsLength(r, Bullet);
      }
    } else if StartsWith(s, Bullet) {
      NoBulletLeft(s[|Bullet|..]);
      if Contains(r, Bullet) {
        ContainsAfter(MarkdownBullet, ReplaceBullets(s[|Bullet|..]), Bullet);
      }
    } else {
      NoBulletLeft(s[1..]);
      assert r[1..] == ReplaceBullets(s[1..]);
      if StartsWith(r, Bullet) {
        ReplacedPrefix(s, Bullet);
      }
    }
  }

  /** A text without bullets is left as it is. */
  lemma {:induction false} NoBulletUnchanged(s: string)
    requires !Contains(s, Bullet)
    ensures ReplaceBullets(s) == s
    decreases |s|
  {
    if |s| >= |Bullet| {
      NoBulletUnchanged(s[1..]);
      assert [s[0]] + s[1..] == s;
    }
  }

  /** `l` may stand as a line: not empty, with a newline at most at its end. */
  predicate LineShaped(l: string) {
    l != [] && '\n' !in l[..|l| - 1]
  }

  predicate Terminated(l: string) {
    l != [] && l[|l| - 1] == '\n'
  }

  /** What `splitlines(keepends=True)` returns: lines in order, every one
      but the last ending with its newline. */
  predicate WellFormedLines(lines: seq<string>) {
    && (forall k :: 0 <= k < |lines| ==> LineShaped(lines[k]))
    && (forall k :: 0 <= k < |lines| - 1 ==> Terminated(lines[k]))
  }

  /** Replacement scans left to right: up to the first bullet the text is
      kept, that bullet becomes the Markdown bullet, and the rest is
      replaced in turn. The bullet cannot overlap itself, so no earlier
      match can reach into it. */
  lemma {:induction false} ReplaceFirst(a: string, b: string)
    requires !Contains(a, Bullet)
    ensures ReplaceBullets(a + Bullet + b) == a + MarkdownBullet + ReplaceBullets(b)
    decreases |a|
  {
    var t := a + Bullet + b;
    StartsWithIndex(t, Bullet);
    if a == [] {
      assert t[..|Bullet|] == Bullet && t[|Bullet|..] == b;
    } else {
      if |a| >= |Bullet| {
        StartsWithIndex(a, Bullet);
        assert t[..|Bullet|] == a[..|Bullet|];
      } else {
        assert t[|a|] == Bullet[0];
        assert Bullet[|a|] != Bullet[0];
      }
      assert !StartsWith(t, Bullet);
      assert t[1..] == a[1..] + Bullet + b;
      ReplaceFirst(a[1..], b);
      assert [a[0]] + a[1..] == a;
    }
  }

  /** `s.splitlines(keepends=True)` for '\n' line breaks. */
  function Lines(s: string): (lines: seq<string>)
    ensures WellFormedLines(lines)
    ensures Concat(lines) == s
    ensures lines == [] <==> s == []
    decreases |s|
  {
    if s == [] then []
    else
      var rest := Lines(s[1..]);
      if s[0] == '\n' then
        var lines := [[s[0]]] + rest;
        assert lines[1..] == rest;
        assert [s[0]] + s[1..] == s;
        lines
      else if rest == [] then
        [[s[0]]]
      else
        var first := [s[0]] + rest[0];
        var lines := [first] + rest[1..];
        assert first[..|first| - 1] == [s[0]] + rest[0][..|rest[0]| - 1];
        assert lines[1..] == rest[1..];
        assert Concat(lines) == [s[0]] + (rest[0] + Concat(rest[1..]));
        assert [s[0]] + s[1..] == s;
        lines
  }

  /** A terminated line followed by more text is that text's first line. */
  lemma {:induction false} LinesCons(l: string, rest: string)
    requires LineShaped(l) && Terminated(l)
    ensures Lines(l + rest) == [l] + Lines(rest)
    decreases |l|
  {
    assert (l + rest)[1..] == l[1..] + rest;
    if |l| > 1 {
      assert l[0] != '\n' by { assert l[0] == l[..|l| - 1][0]; }
      assert l[1..][..|l| - 2] == l[..|l| - 1][1..];
      LinesCons(l[1..], rest);
      assert [l[0]] + l[1..] == l;
    } else {
      assert l == ['\n'];
    }
  }

  /** An unterminated or final line is a single line. */
  lemma {:induction false} LinesSingle(l: string)
    requires LineShaped(l)
    ensures Lines(l) == [l]
    decreases |l|
  {
    if |l| > 1 {
      assert l[0] != '\n' by { assert l[0] == l[..|l| - 1][0]; }
      assert l[1..][..|l| - 2] == l[..|l| - 1][1..];
      LinesSingle(l[1..]);
      assert [l[0]] + l[1..] == l;
      assert Lines(l) == [[l[0]] + l[1..]];
    } else {
      assert l == [l[0]];
    }
  }

  /** Splitting the concatenation of well-formed lines gives them back. */
  lemma {:induction false} LinesOfConcat(lines: seq<string>)
    requires WellFormedLines(lines)
    ensures Lines(Concat(lines)) == lines
    decreases |lines|
  {
    if |lines| == 1 {
      LinesSingle(lines[0]);
      assert Concat(lines) == lines[0] + Concat([]);
    } else if |lines| > 1 {
      assert WellFormedLines(lines[1..]);
      LinesOfConcat(lines[1..]);
      LinesCons(lines[0], Concat(lines[1..]));
      assert lines == [lines[0]] + lines[1..];
    }
  }

  /** Each line with the quote prefix in front. */
  function Quoted(lines: seq<string>): (q: seq<string>)
    ensures |q| == |lines|
    ensures forall k :: 0 <= k < |lines| ==> q[k] == QuotePrefix + lines[k]
  {
    seq(|lines|, k requires 0 <= k < |lines| => QuotePrefix + lines[k])
  }

  /** `textwrap.indent(text, '> ', predicate=lambda _: True)`: the prefix in
      front of every line, blank lines included. */
  function Indent(text: string): string {
    Concat(Quoted(Lines(text)))
  }

  /** The lines of the indented text are the text's lines, each prefixed:
      the line count is kept and no line is skipped. */
  lemma IndentLines(text: string)
    ensures Lines(Indent(text)) == Quoted(Lines(text))
    ensures |Lines(Indent(text))| == |Lines(text)|
  {
    var lines := Lines(text);
    var q := Quoted(lines);
    forall k | 0 <= k < |q| ensures LineShaped(q[k]) {
      assert q[k][..|q[k]| - 1] == QuotePrefix + lines[k][..|lines[k]| - 1];
    }
    forall k | 0 <= k < |q| - 1 ensures Terminated(q[k]) {
      assert q[k][|q[k]| - 1] == lines[k][|lines[k]| - 1];
    }
    LinesOfConcat(q);
  }

  /** A line without the quote prefix. */
  function Unquote(line: string): string {
    if StartsWith(line, QuotePrefix) then line[|QuotePrefix|..] else line
  }

  /** The text with the quote prefix taken off every line. */
  function Unindent(text: string): string {
    var lines := Lines(text);
    Concat(seq(|lines|, k requires 0 <= k < |lines| => Unquote(lines[k])))
  }

  lemma StartsWithPrefix(p: string, s: string)
    ensures StartsWith(p + s, p)
    decreases |p|
  {
    if p != [] {
      assert (p + s)[1..] == p[1..] + s;
      StartsWithPrefix(p[1..], s);
    }
  }

  /** Taking the prefix off every line gives the text back. */
  lemma UnindentIndent(text: string)
    ensures Unindent(Indent(text)) == text
  {
    IndentLines(text);
    var lines := Lines(text);
    var q := Lines(Indent(text));
    var back := seq(|q|, k requires 0 <= k < |q| => Unquote(q[k]));
    forall k | 0 <= k < |q| ensures back[k] == lines[k] {
      StartsWithPrefix(QuotePrefix, lines[k]);
      assert (QuotePrefix + lines[k])[|QuotePrefix|..] == lines[k];
    }
    assert back == lines;
  }

  /** `to_markdown`: bullets replaced, then every line quoted. */
  function ToMarkdown(text: string): string {
    Indent(ReplaceBullets(text))
  }

  /** The Markdown has one quoted line per line of the reply, holds no
      mis-encoded bullet outside the quote prefixes, and taking the prefixes
      off gives the bullet-replaced reply. */
  lemma ToMarkdownSpec(text: string)
    ensures |Lines(ToMarkdown(text))| == |Lines(ReplaceBullets(text))|
    ensures Unindent(ToMarkdown(text)) == ReplaceBullets(text)
    ensures !Contains(Unindent(ToMarkdown(text)), Bullet)
    ensures !Contains(text, Bullet) ==> Unindent(ToMarkdown(text)) == text
  {
    IndentLines(ReplaceBullets(text));
    UnindentIndent(ReplaceBullets(text));
    NoBulletLeft(text);
    if !Contains(text, Bullet) {
      NoBulletUnchanged(text);
    }
  }
}
