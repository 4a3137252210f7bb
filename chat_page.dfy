/** The UTF-16 view of a string that JavaScript's `length` and `charCodeAt`
    work on. Dafny strings hold Unicode scalar values; a character outside the
    Basic Multilingual Plane takes two code units (a surrogate pair). */
module Utf16 {
  import opened Wrappers

  /** One UTF-16 code unit. */
  type CodeUnit = x: int | 0 <= x < 0x1_0000

  /** The code units of one character. */
  function EncodeChar(c: char): (r: seq<CodeUnit>)
    ensures |r| == (if c as int < 0x1_0000 then 1 else 2)
  {
    var n := c as int;
    if n < 0x1_0000 then [n]
    else [0xD800 + (n - 0x1_0000) / 0x400, 0xDC00 + (n - 0x1_0000) % 0x400]
  }

  /** The code units of a string, as JavaScript stores it. */
  function Encode(s: string): (r: seq<CodeUnit>)
    ensures |s| <= |r| <= 2 * |s|
  {
    if s == [] then [] else EncodeChar(s[0]) + Encode(s[1..])
  }

  /** The string a code-unit sequence spells, or `None` when it holds an
      unpaired surrogate. */
  function Decode(u: seq<CodeUnit>): Option<string> {
    if u == [] then Some([])
    else if 0xD800 <= u[0] < 0xDC00 then
      if |u| >= 2 && 0xDC00 <= u[1] < 0xE000 then
        match Decode(u[2..])
        case Some(rest) => Some([(0x1_0000 + (u[0] as int - 0xD800) * 0x400 + (u[1] as int - 0xDC00)) as char] + rest)
        case None => None
      else None
    else if 0xDC00 <= u[0] < 0xE000 then None
    else
      match Decode(u[1..])
      case Some(rest) => Some([u[0] as char] + rest)
      case None => None
  }

  /** Encoding loses nothing: decoding the code units gives the string back. */
  lemma {:induction false} DecodeEncode(s: string)
    ensures Decode(Encode(s)) == Some(s)
  {
    if s != [] {
      DecodeEncode(s[1..]);
      var u := Encode(s);
      var head := EncodeChar(s[0]);
      assert u == head + Encode(s[1..]);
      var n := s[0] as int;
      if n < 0x1_0000 {
        assert u[0] == n && u[1..] == Encode(s[1..]);
        assert n < 0xD800 || 0xE000 <= n;
        assert u[0] as char == s[0];
        assert Decode(u) == Some([s[0]] + s[1..]);
        assert [s[0]] + s[1..] == s;
      } else {
        assert u[2..] == Encode(s[1..]);
        assert 0xD800 <= u[0] < 0xDC00 && 0xDC00 <= u[1] < 0xE000;
        assert 0x1_0000 + (u[0] as int - 0xD800) * 0x400 + (u[1] as int - 0xDC00) == n;
        assert Decode(u) == Some([s[0]] + s[1..]);
        assert [s[0]] + s[1..] == s;
      }
    }
  }

  /** Encoding distributes over concatenation. */
  lemma {:induction false} EncodeAppend(a: string, b: string)
    ensures Encode(a + b) == Encode(a) + Encode(b)
  {
    if a == [] {
      assert a + b == b;
    } else {
      assert (a + b)[0] == a[0] && (a + b)[1..] == a[1..] + b;
      EncodeAppend(a[1..], b);
    }
  }

  /** `s.split("").reduce((sum, c) => sum + c.charCodeAt(0), 0)`: the code
      units added left to right, starting from 0. */
  function CodeUnitSum(u: seq<CodeUnit>): nat {
    if u == [] then 0 else CodeUnitSum(u[..|u| - 1]) + u[|u| - 1]
  }

  /** The sum of two runs of code units is the sum of their sums. */
  lemma {:induction false} CodeUnitSumAppend(a: seq<CodeUnit>, b: seq<CodeUnit>)
    ensures CodeUnitSum(a + b) == CodeUnitSum(a) + CodeUnitSum(b)
  {
    if b == [] {
      assert a + b == a;
    } else {
      assert (a + b)[..|a + b| - 1] == a + b[..|b| - 1];
      CodeUnitSumAppend(a, b[..|b| - 1]);
    }
  }

  /** Every code unit is below 0x10000, so the sum is at most 0xFFFF per unit. */
  lemma {:induction false} CodeUnitSumBound(u: seq<CodeUnit>)
    ensures CodeUnitSum(u) <= 0xFFFF * |u|
  {
    if u != [] {
      CodeUnitSumBound(u[..|u| - 1]);
    }
  }
}

/** app/chat/page.tsx: the text-statistics page, an append-only log of
    entries. The length and the sum count UTF-16 code units, as JavaScript's
    `length` and `charCodeAt` do. */
module ChatPage {
  import opened Text
  import opened Utf16

  /** One logged input with its statistics. */
  datatype Entry = Entry(userText: string, charCount: nat, asciiSum: nat)

  const InitialInput := "<QUERY GOES HERE>"

  /** An entry's statistics are those of its text. */
  ghost predicate Describes(e: Entry) {
    e.charCount == |Encode(e.userText)| && e.asciiSum == CodeUnitSum(Encode(e.userText))
  }

  class ChatPage {
    var input: string
    var entries: seq<Entry>

    /** Every logged entry carries the statistics of its own text. */
    ghost predicate Valid()
      reads this
    {
      forall k :: 0 <= k < |entries| ==> Describes(entries[k])
    }

    constructor ()
      ensures Valid() && input == InitialInput && entries == []
    {
      input := InitialInput;
      entries := [];
    }

    /** `handleInputChange`. */
    method HandleInputChange(value: string)
      requires Valid()
      modifies this`input
      ensures Valid() && input == value && entries == old(entries)
    {
      input := value;
    }

    /** `handleGo`: logs the input, even a blank one, with its length and
        code-unit sum, then clears the input. */
    method HandleGo()
      requires Valid()
      modifies this
      ensures Valid()
      ensures |entries| == |old(entries)| + 1 && entries[..|old(entries)|] == old(entries)
      ensures entries[|entries| - 1].userText == old(input)
      ensures entries[|entries| - 1].charCount == |Encode(old(input))|
      ensures entries[|entries| - 1].asciiSum == CodeUnitSum(Encode(old(input)))
      ensures input == ""
    {
      var units := Encode(input);
      var charCount := |units|;
      var asciiSum := CodeUnitSum(units);
      entries := entries + [Entry(input, charCount, asciiSum)];
      input := "";
    }

    /** `handleKeyDown`: Enter without Shift runs `handleGo`, blank input included. */
    method HandleKeyDown(key: string, shift: bool) returns (went: bool)
      requires Valid()
      modifies this
      ensures Valid()
      ensures went <==> key == "Enter" && !shift
      ensures !went ==> input == old(input) && entries == old(entries)
      ensures went ==> input == "" && entries == old(entries) + [Entry(old(input), |Encode(old(input))|,
                                                                      CodeUnitSum(Encode(old(input))))]
    {
      went := key == "Enter" && !shift;
      if went {
        HandleGo();
        assert entries == old(entries) + [entries[|entries| - 1]];
      }
    }
  }

  /** An entry's code-unit sum never exceeds 0xFFFF per counted unit, and an
      empty text counts 0 and sums to 0. */
  lemma EntryBounds(e: Entry)
    requires Describes(e)
    ensures e.asciiSum <= 0xFFFF * e.charCount
    ensures e.userText == "" ==> e.charCount == 0 && e.asciiSum == 0
  {
    CodeUnitSumBound(Encode(e.userText));
  }

  /** A character outside the Basic Multilingual Plane counts two. */
  lemma AstralCharCountsTwo(c: char)
    requires c as int >= 0x1_0000
    ensures |Encode([c])| == 2
  {
    assert [c][1..] == [];
  }
}
