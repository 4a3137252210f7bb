/** `JSON.stringify` on the values a result row can hold. */
module Json {
  import opened Types
  import opened Text

  function HexDigit(d: nat): char
    requires d < 16
  {
    "0123456789abcdef"[d]
  }

  /** The escape `JSON.stringify` writes for one character of a string. */
  function EscapeChar(c: char): (r: string)
    ensures r != []
  {
    if c == '"' then "\\\""
    else if c == '\\' then "\\\\"
    else if c == '\U{08}' then "\\b"
    else if c == '\t' then "\\t"
    else if c == '\n' then "\\n"
    else if c == '\U{0C}' then "\\f"
    else if c == '\r' then "\\r"
    else if c < '\U{20}' then "\\u00" + [HexDigit(c as int / 16), HexDigit(c as int % 16)]
    else [c]
  }

  /** A string literal: the escaped characters between double quotes. */
  function Quote(s: string): (r: string)
    ensures |r| >= 2 && r[0] == '"' && r[|r| - 1] == '"'
  {
    "\"" + Concat(seq(|s|, i requires 0 <= i < |s| => EscapeChar(s[i]))) + "\""
  }

  /** A character `JSON.stringify` writes into a string literal as it is. */
  predicate Plain(c: char) {
    c != '"' && c != '\\' && c >= '\U{20}'
  }

  /** A string of plain characters is written between double quotes unchanged. */
  lemma {:induction false} QuotePlain(s: string)
    requires forall i :: 0 <= i < |s| ==> Plain(s[i])
    ensures Quote(s) == "\"" + s + "\""
  {
    ConcatEscapes(s);
  }

  lemma {:induction false} ConcatEscapes(s: string)
    requires forall i :: 0 <= i < |s| ==> Plain(s[i])
    ensures Concat(seq(|s|, i requires 0 <= i < |s| => EscapeChar(s[i]))) == s
  {
    var parts := seq(|s|, i requires 0 <= i < |s| => EscapeChar(s[i]));
    if s != [] {
      ConcatEscapes(s[1..]);
      assert parts[1..] == seq(|s[1..]|, i requires 0 <= i < |s[1..]| => EscapeChar(s[1..][i]));
      assert parts[0] == [s[0]];
      assert [s[0]] + s[1..] == s;
    }
  }

  /** `JSON.stringify(v)`: never empty; the literals `null`, `true` and
      `false`, the decimal digits of a number, a quoted string, and an array
      or object between its brackets. */
  function Stringify(v: Value): (r: string)
    ensures r != []
    ensures v.Null? ==> r == "null"
    ensures v.Bool? ==> r == (if v.b then "true" else "false")
    ensures v.Num? ==> r == Decimal(v.n)
    ensures v.Str? ==> r == Quote(v.s)
    ensures v.Arr? ==> r[0] == '[' && r[|r| - 1] == ']'
    ensures v.Obj? ==> r[0] == '{' && r[|r| - 1] == '}'
  {
    match v
    case Null => "null"
    case Bool(b) => if b then "true" else "false"
    case Num(n) => Decimal(n)
    case Str(s) => Quote(s)
    case Arr(items) =>
      "[" + Join(seq(|items|, i requires 0 <= i < |items| => Stringify(items[i])), ",") + "]"
    case Obj(members) =>
      "{" + Join(seq(|members|, i requires 0 <= i < |members| =>
                   Quote(members[i].0) + ":" + Stringify(members[i].1)), ",") + "}"
  }
}
