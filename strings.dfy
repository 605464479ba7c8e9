/**
 * The JavaScript string primitives the model relies on: `trim`, `split` by a
 * character and by whitespace runs, `join`, ASCII lower-casing, substring
 * search, decimal number-to-string conversion, and the UTF-16 code units
 * that `length` and `slice` count.
 */
module Strings {

  /** The characters matched by the regular-expression class `\s` and removed by `trim`. */
  predicate IsSpace(c: char) {
    c == '\t' || c == '\n' || c == '\U{B}' || c == '\U{C}' || c == '\r' || c == ' '
    || c == '\U{A0}' || c == '\U{1680}' || ('\U{2000}' <= c <= '\U{200A}')
    || c == '\U{2028}' || c == '\U{2029}' || c == '\U{202F}' || c == '\U{205F}'
    || c == '\U{3000}' || c == '\U{FEFF}'
  }

  predicate AllSpace(s: string) {
    forall i :: 0 <= i < |s| ==> IsSpace(s[i])
  }

  /** `s.trimStart()`: drops the leading whitespace run. */
  function TrimStart(s: string): (r: string)
    ensures |r| <= |s| && r == s[|s| - |r|..]
    ensures AllSpace(s[..|s| - |r|])
    ensures r == [] || !IsSpace(r[0])
  {
    if s == [] || !IsSpace(s[0]) then s else TrimStart(s[1..])
  }

  /** `s.trimEnd()`: drops the trailing whitespace run. */
  function TrimEnd(s: string): (r: string)
    ensures |r| <= |s| && r == s[..|r|]
    ensures AllSpace(s[|r|..])
    ensures r == [] || !IsSpace(r[|r| - 1])
  {
    if s == [] || !IsSpace(s[|s| - 1]) then s else TrimEnd(s[..|s| - 1])
  }

  /** `s.trim()`. */
  function Trim(s: string): (r: string)
    ensures |r| <= |s|
    ensures r == [] || (!IsSpace(r[0]) && !IsSpace(r[|r| - 1]))
  {
    TrimEnd(TrimStart(s))
  }

  lemma TrimStartOfTrimmed(s: string)
    requires s == [] || !IsSpace(s[0])
    ensures TrimStart(s) == s
  {
  }

  lemma TrimEndOfTrimmed(s: string)
    requires s == [] || !IsSpace(s[|s| - 1])
    ensures TrimEnd(s) == s
  {
  }

  /** Trimming twice is trimming once. */
  lemma TrimIdempotent(s: string)
    ensures Trim(Trim(s)) == Trim(s)
  {
    var t := Trim(s);
    TrimStartOfTrimmed(t);
    TrimEndOfTrimmed(t);
  }

  /** A string with no whitespace at either end is its own trim. */
  lemma TrimOfTrimmed(s: string)
    requires s == [] || (!IsSpace(s[0]) && !IsSpace(s[|s| - 1]))
    ensures Trim(s) == s
  {
    TrimStartOfTrimmed(s);
    TrimEndOfTrimmed(s);
  }

  /** `s.trim()` is a slice of `s`, with only whitespace before and after it. */
  lemma TrimSlice(s: string) returns (a: nat)
    ensures a + |Trim(s)| <= |s| && Trim(s) == s[a..a + |Trim(s)|]
    ensures AllSpace(s[..a]) && AllSpace(s[a + |Trim(s)|..])
  {
    var start := TrimStart(s);
    a := |s| - |start|;
    assert Trim(s) == start[..|Trim(s)|];
    assert s[a + |Trim(s)|..] == start[|Trim(s)|..];
  }

  /** `s.split(c)` for a one-character separator; always at least one piece. */
  function Split(s: string, c: char): (r: seq<string>)
    ensures |r| >= 1
    ensures forall i :: 0 <= i < |r| ==> c !in r[i]
  {
    if s == [] then [""]
    else
      var rest := Split(s[1..], c);
      if s[0] == c then [""] + rest else [[s[0]] + rest[0]] + rest[1..]
  }

  /** `parts.join(sep)`. */
  function Join(parts: seq<string>, sep: string): string {
    if parts == [] then ""
    else if |parts| == 1 then parts[0]
    else parts[0] + sep + Join(parts[1..], sep)
  }

  /** A character absent from the separator and from every part is absent from the join. */
  lemma {:induction false} JoinAvoids(parts: seq<string>, sep: string, c: char)
    requires c !in sep && forall i :: 0 <= i < |parts| ==> c !in parts[i]
    ensures c !in Join(parts, sep)
  {
    if |parts| > 1 {
      JoinAvoids(parts[1..], sep, c);
    }
  }

  /** Joining two non-empty lists: the two joins with one separator between them. */
  lemma {:induction false} JoinConcat(a: seq<string>, b: seq<string>, sep: string)
    requires a != [] && b != []
    ensures Join(a + b, sep) == Join(a, sep) + sep + Join(b, sep)
  {
    var ab := a + b;
    assert ab[0] == a[0] && |ab| > 1;
    if |a| == 1 {
      assert ab[1..] == b;
    } else {
      assert ab[1..] == a[1..] + b;
      JoinConcat(a[1..], b, sep);
      var x, y, z := Join(a[1..], sep), Join(b, sep), a[0] + sep;
      assert Join(ab, sep) == z + (x + sep + y);
      assert Join(a, sep) == z + x;
      assert z + (x + sep + y) == (z + x) + sep + y;
    }
  }

  /** Splitting a piece that holds no separator gives that piece alone. */
  lemma {:induction false} SplitWhole(p: string, c: char)
    requires c !in p
    ensures Split(p, c) == [p]
  {
    if p != [] {
      SplitWhole(p[1..], c);
      assert p[0] != c;
      assert [p[0]] + p[1..] == p;
    }
  }

  /** Splitting `p + [c] + rest` where `p` holds no separator. */
  lemma {:induction false} SplitAfter(p: string, c: char, rest: string)
    requires c !in p
    ensures Split(p + [c] + rest, c) == [p] + Split(rest, c)
  {
    if p == [] {
      assert p + [c] + rest == [c] + rest;
      assert ([c] + rest)[1..] == rest;
    } else {
      assert (p + [c] + rest)[1..] == p[1..] + [c] + rest;
      SplitAfter(p[1..], c, rest);
      assert [p[0]] + p[1..] == p;
    }
  }

  /** Joining parts free of `c` with `c` and splitting on `c` gives the parts back. */
  lemma {:induction false} SplitJoin(parts: seq<string>, c: char)
    requires parts != [] && forall i :: 0 <= i < |parts| ==> c !in parts[i]
    ensures Split(Join(parts, [c]), c) == parts
  {
    if |parts| == 1 {
      SplitWhole(parts[0], c);
    } else {
      SplitJoin(parts[1..], c);
      SplitAfter(parts[0], c, Join(parts[1..], [c]));
      assert parts == [parts[0]] + parts[1..];
    }
  }

  /** Splitting on a character and joining with it gives the original text back. */
  lemma {:induction false} JoinSplit(s: string, c: char)
    ensures Join(Split(s, c), [c]) == s
  {
    if s != [] {
      JoinSplit(s[1..], c);
      var rest := Split(s[1..], c);
      if s[0] != c {
        assert Split(s, c) == [[s[0]] + rest[0]] + rest[1..];
        if |rest| > 1 {
          assert rest == [rest[0]] + rest[1..];
          assert Join(rest, [c]) == rest[0] + [c] + Join(rest[1..], [c]);
        }
      }
    }
  }

  /** `lines.filter(line => line.trim())`: the lines that are not blank, in order. */
  function NonBlank(lines: seq<string>): (r: seq<string>)
    ensures |r| <= |lines|
    ensures forall x :: x in r <==> x in lines && Trim(x) != ""
  {
    if lines == [] then []
    else
      var rest := NonBlank(lines[1..]);
      assert forall x :: x in lines <==> x == lines[0] || x in lines[1..];
      if Trim(lines[0]) != "" then [lines[0]] + rest else rest
  }

  /** The length of the leading whitespace run of `s`. */
  function SpaceRun(s: string): (n: nat)
    ensures n <= |s| && AllSpace(s[..n])
    ensures n == |s| || !IsSpace(s[n])
  {
    if s == [] || !IsSpace(s[0]) then 0 else 1 + SpaceRun(s[1..])
  }

  /** `s.split(/\s+/)`: pieces separated by maximal whitespace runs. */
  function SplitSpaces(s: string): (r: seq<string>)
    ensures |r| >= 1
    ensures forall i, j :: 0 <= i < |r| && 0 <= j < |r[i]| ==> !IsSpace(r[i][j])
    decreases |s|
  {
    if s == [] then [""]
    else if IsSpace(s[0]) then [""] + SplitSpaces(s[SpaceRun(s)..])
    else
      var rest := SplitSpaces(s[1..]);
      [[s[0]] + rest[0]] + rest[1..]
  }

  /** Lower-cases the ASCII letters A-Z and leaves every other character alone. */
  function LowerChar(c: char): (d: char)
    ensures 'A' <= c <= 'Z' ==> d as int == c as int + 32
    ensures !('A' <= c <= 'Z') ==> d == c
  {
    if 'A' <= c <= 'Z' then (c as int + 32) as char else c
  }

  /** `s.toLowerCase()` restricted to ASCII letters. */
  function Lower(s: string): (r: string)
    ensures |r| == |s|
    ensures forall i :: 0 <= i < |s| ==> r[i] == LowerChar(s[i])
  {
    if s == [] then [] else [LowerChar(s[0])] + Lower(s[1..])
  }

  /** `hay.includes(needle)`. */
  predicate Contains(hay: string, needle: string) {
    StartsWith(hay, needle) || (hay != [] && Contains(hay[1..], needle))
  }

  /** `s.startsWith(p)`. */
  predicate StartsWith(s: string, p: string) {
    |p| <= |s| && s[..|p|] == p
  }

  /** Number of occurrences of `c` in `s` (the length of `s.match(/c/g) || []`). */
  function Count(s: string, c: char): (n: nat)
    ensures n <= |s|
  {
    if s == [] then 0 else (if s[0] == c then 1 else 0) + Count(s[1..], c)
  }

  /** `s.replace(/c/g, r)` for a single character `c`. */
  function ReplaceChar(s: string, c: char, r: string): (t: string)
    ensures c !in r ==> c !in t
  {
    if s == [] then [] else (if s[0] == c then r else [s[0]]) + ReplaceChar(s[1..], c, r)
  }

  /** Removes every occurrence of `c` (`s.replace(/c/g, '')`). */
  function RemoveChar(s: string, c: char): (t: string)
    ensures c !in t
  {
    ReplaceChar(s, c, "")
  }

  function DigitChar(d: nat): char
    requires d < 10
  {
    ('0' as int + d) as char
  }

  /** Decimal text of a natural number, `String(n)`. */
  function NatToString(n: nat): (r: string)
    ensures |r| >= 1
    ensures forall i :: 0 <= i < |r| ==> '0' <= r[i] <= '9'
    decreases n
  {
    if n < 10 then [DigitChar(n)] else NatToString(n / 10) + [DigitChar(n % 10)]
  }

  /** Decimal text of an integer, `String(i)`. */
  function IntToString(i: int): (r: string)
    ensures |r| >= 1
  {
    if i < 0 then "-" + NatToString(-i) else NatToString(i)
  }

  /** The value of a run of decimal digits. */
  function DigitsValue(s: string): nat
    requires forall i :: 0 <= i < |s| ==> '0' <= s[i] <= '9'
  {
    if s == [] then 0 else DigitsValue(s[..|s| - 1]) * 10 + (s[|s| - 1] as int - '0' as int)
  }

  lemma {:induction false} NatToStringValue(n: nat)
    ensures DigitsValue(NatToString(n)) == n
  {
    if n >= 10 {
      NatToStringValue(n / 10);
      var s := NatToString(n);
      assert s[..|s| - 1] == NatToString(n / 10);
    }
  }

  /** Distinct numbers have distinct decimal texts. */
  lemma NatToStringInjective(m: nat, n: nat)
    requires NatToString(m) == NatToString(n)
    ensures m == n
  {
    NatToStringValue(m);
    NatToStringValue(n);
  }

  // ---------------------------------------------------------------------
  // UTF-16

  /** A UTF-16 code unit, the element a JavaScript string is made of. */
  type Unit = x: int | 0 <= x < 0x1_0000

  /** Whether a character lies outside the Basic Multilingual Plane, and so takes two code units. */
  predicate IsAstral(c: char) {
    c as int >= 0x1_0000
  }

  /** The UTF-16 encoding of one character: itself, or a high and a low surrogate. */
  function Encode(c: char): (u: seq<Unit>)
    ensures |u| == if IsAstral(c) then 2 else 1
  {
    if !IsAstral(c) then [c as int]
    else
      var v := c as int - 0x1_0000;
      [0xD800 + v / 0x400, 0xDC00 + v % 0x400]
  }

  /** The code units of a string, the sequence `length`, indexing and `slice` work on. */
  function Utf16(s: string): seq<Unit> {
    if s == [] then [] else Encode(s[0]) + Utf16(s[1..])
  }

  /** `s.length`: one unit per character, two per character outside the Basic Multilingual Plane. */
  function Utf16Length(s: string): (n: nat)
    ensures n == |Utf16(s)|
    ensures |s| <= n <= 2 * |s|
  {
    if s == [] then 0 else |Encode(s[0])| + Utf16Length(s[1..])
  }

  /** Text within the Basic Multilingual Plane has as many code units as characters, each unit being its character. */
  lemma {:induction false} Utf16Bmp(s: string)
    requires forall i :: 0 <= i < |s| ==> !IsAstral(s[i])
    ensures |Utf16(s)| == |s|
    ensures forall i :: 0 <= i < |s| ==> Utf16(s)[i] == s[i] as int
  {
    if s != [] {
      Utf16Bmp(s[1..]);
    }
  }

  /** Text made only of characters outside the Basic Multilingual Plane is twice as long in code units. */
  lemma {:induction false} Utf16AllAstral(s: string)
    requires forall i :: 0 <= i < |s| ==> IsAstral(s[i])
    ensures Utf16Length(s) == 2 * |s|
  {
    if s != [] {
      Utf16AllAstral(s[1..]);
    }
  }

  /** Encoding distributes over concatenation. */
  lemma {:induction false} Utf16Append(a: string, b: string)
    ensures Utf16(a + b) == Utf16(a) + Utf16(b)
  {
    if a != [] {
      assert (a + b)[1..] == a[1..] + b;
      Utf16Append(a[1..], b);
    } else {
      assert a + b == b;
    }
  }

  /** `/<[^>]+>/.test(s)`: a `<`, at least one character other than `>`, then a `>`. */
  predicate IsHtmlLike(s: string) {
    exists i :: 0 <= i < |s| - 1 && s[i] == '<' && s[i + 1] != '>' && '>' in s[i + 2..]
  }

  lemma TagIsHtml(before: string, name: string, after: string)
    requires name != [] && name[0] != '>'
    ensures IsHtmlLike(before + "<" + name + ">" + after)
  {
    var s := before + "<" + name + ">" + after;
    var i := |before|;
    assert s[i] == '<' && s[i + 1] == name[0];
    assert s[i + 1 + |name|] == '>';
    assert s[i + 2..][|name| - 1] == '>';
  }
}
