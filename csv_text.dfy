/**
 * The CSV cell quoting both exporters use: a text containing a comma, a
 * double quote or a newline is wrapped in double quotes with every inner
 * double quote doubled.
 */
module CsvText {
  import opened Common
  import opened Strings

  /** `value.includes(',') || value.includes('"') || value.includes('\n')`. */
  predicate NeedsQuotes(s: string) {
    ',' in s || '"' in s || '\n' in s
  }

  /** `"${value.replace(/"/g, '""')}"`. */
  function Quote(s: string): (r: string)
    ensures |r| >= 2 && r[0] == '"' && r[|r| - 1] == '"'
  {
    "\"" + ReplaceChar(s, '"', "\"\"") + "\""
  }

  /** Reads the inside of a quoted cell: each doubled quote stands for one quote. */
  function Undouble(t: string): string
    decreases |t|
  {
    if t == [] then []
    else if |t| >= 2 && t[0] == '"' && t[1] == '"' then ['"'] + Undouble(t[2..])
    else [t[0]] + Undouble(t[1..])
  }

  /** A CSV reader's view of a quoted cell: the outer quotes dropped and the inner ones undoubled. */
  function Unquote(r: string): (s: Option<string>)
  {
    if |r| >= 2 && r[0] == '"' && r[|r| - 1] == '"' then Some(Undouble(r[1..|r| - 1])) else None
  }

  lemma {:induction false} UndoubleDoubled(s: string)
    ensures Undouble(ReplaceChar(s, '"', "\"\"")) == s
  {
    if s != [] {
      var t := ReplaceChar(s, '"', "\"\"");
      UndoubleDoubled(s[1..]);
      if s[0] == '"' {
        assert t == "\"\"" + ReplaceChar(s[1..], '"', "\"\"");
        assert t[2..] == ReplaceChar(s[1..], '"', "\"\"");
      } else {
        assert t == [s[0]] + ReplaceChar(s[1..], '"', "\"\"");
        assert t[1..] == ReplaceChar(s[1..], '"', "\"\"");
      }
      assert s == [s[0]] + s[1..];
    }
  }

  /** A quoted cell reads back as exactly the text that was quoted. */
  lemma UnquoteQuote(s: string)
    ensures Unquote(Quote(s)) == Some(s)
  {
    var r := Quote(s);
    assert r[1..|r| - 1] == ReplaceChar(s, '"', "\"\"");
    UndoubleDoubled(s);
  }

  /** Quoting keeps every character and only adds: one extra quote per inner quote, plus the two outer ones. */
  lemma {:induction false} QuoteLength(s: string)
    ensures |ReplaceChar(s, '"', "\"\"")| == |s| + Count(s, '"')
  {
    if s != [] {
      QuoteLength(s[1..]);
    }
  }
}
