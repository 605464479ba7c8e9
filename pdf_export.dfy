/**
 * The EXPORT_TO_PDF step: content that already holds a tag is used as HTML;
 * anything else goes through a light markdown renderer whose final block
 * pass turns blank-line separated blocks into tables, lists, kept block
 * elements or paragraphs. The page is printed to PDF and stored for download.
 *
 * The regular-expression rewrites that run before the block pass (code,
 * emphasis, headings, rules, list items), the browser that prints the page,
 * the clock and the file id are parameters.
 */
module ExportToPdf {
  import opened Common
  import opened Strings
  import opened Json
  import opened ExecutorIo
  import opened FileStorage

  // ---------------------------------------------------------------------
  // escapeHtml

  /** `str.replace(/&/g, "&amp;").replace(/</g, "&lt;").replace(/>/g, "&gt;")`. */
  function EscapeHtml(s: string): (r: string)
    ensures '>' !in r
  {
    ReplaceChar(ReplaceChar(ReplaceChar(s, '&', "&amp;"), '<', "&lt;"), '>', "&gt;")
  }

  /** What the three replacements do to one character. */
  function EscapeChar(c: char): string {
    if c == '&' then "&amp;" else if c == '<' then "&lt;" else if c == '>' then "&gt;" else [c]
  }

  function Escaped(s: string): (r: string)
    ensures '<' !in r && '>' !in r
  {
    if s == [] then [] else EscapeChar(s[0]) + Escaped(s[1..])
  }

  /** Decodes the three entities `escapeHtml` produces. */
  function Unescape(s: string): string
    decreases |s|
  {
    if s == [] then []
    else if StartsWith(s, "&amp;") then "&" + Unescape(s[5..])
    else if StartsWith(s, "&lt;") then "<" + Unescape(s[4..])
    else if StartsWith(s, "&gt;") then ">" + Unescape(s[4..])
    else [s[0]] + Unescape(s[1..])
  }

  lemma {:induction false} ReplaceCharConcat(a: string, b: string, c: char, r: string)
    ensures ReplaceChar(a + b, c, r) == ReplaceChar(a, c, r) + ReplaceChar(b, c, r)
  {
    if a != [] {
      ReplaceCharConcat(a[1..], b, c, r);
      assert (a + b)[0] == a[0];
      assert (a + b)[1..] == a[1..] + b;
      var head := if a[0] == c then r else [a[0]];
      assert ReplaceChar(a + b, c, r) == head + (ReplaceChar(a[1..], c, r) + ReplaceChar(b, c, r));
      assert ReplaceChar(a, c, r) == head + ReplaceChar(a[1..], c, r);
    } else {
      assert a + b == b;
    }
  }

  lemma {:induction false} ReplaceCharAbsent(a: string, c: char, r: string)
    requires c !in a
    ensures ReplaceChar(a, c, r) == a
  {
    if a != [] {
      ReplaceCharAbsent(a[1..], c, r);
    }
  }

  /** Replacing `&` first makes the chain act on each character of the input on its own. */
  lemma {:induction false} EscapeHtmlCharwise(s: string)
    ensures EscapeHtml(s) == Escaped(s)
  {
    if s != [] {
      var c, t := s[0], s[1..];
      EscapeHtmlCharwise(t);
      assert s == [c] + t;
      var amp := if c == '&' then "&amp;" else [c];
      ReplaceCharConcat([c], t, '&', "&amp;");
      assert ReplaceChar([c], '&', "&amp;") == amp;
      var lt := if c == '<' then "&lt;" else amp;
      ReplaceCharConcat(amp, ReplaceChar(t, '&', "&amp;"), '<', "&lt;");
      if c == '&' {
        ReplaceCharAbsent("&amp;", '<', "&lt;");
        ReplaceCharAbsent("&amp;", '>', "&gt;");
      } else if c == '<' {
        ReplaceCharAbsent("&lt;", '>', "&gt;");
      }
      assert ReplaceChar(amp, '<', "&lt;") == lt;
      ReplaceCharConcat(lt, ReplaceChar(ReplaceChar(t, '&', "&amp;"), '<', "&lt;"), '>', "&gt;");
      assert ReplaceChar(lt, '>', "&gt;") == EscapeChar(c);
    }
  }

  lemma {:induction false} UnescapeEscaped(s: string)
    ensures Unescape(Escaped(s)) == s
  {
    if s != [] {
      UnescapeEscaped(s[1..]);
      UnescapeHead(s[0], Escaped(s[1..]));
      assert Escaped(s) == EscapeChar(s[0]) + Escaped(s[1..]);
    }
  }

  /** Decoding an escaped character gives the character back and goes on after it. */
  lemma UnescapeHead(c: char, rest: string)
    ensures Unescape(EscapeChar(c) + rest) == [c] + Unescape(rest)
  {
    if c == '&' {
      UnescapeAmp(rest);
    } else if c == '<' {
      UnescapeLt(rest);
    } else if c == '>' {
      UnescapeGt(rest);
    } else {
      UnescapePlain(c, rest);
    }
  }

  lemma UnescapeAmp(rest: string)
    ensures Unescape("&amp;" + rest) == "&" + Unescape(rest)
  {
    var e := "&amp;" + rest;
    assert StartsWith(e, "&amp;");
    assert e[5..] == rest;
  }

  lemma UnescapeLt(rest: string)
    ensures Unescape("&lt;" + rest) == "<" + Unescape(rest)
  {
    var e := "&lt;" + rest;
    assert !StartsWith(e, "&amp;") by { assert e[1] == 'l'; }
    assert StartsWith(e, "&lt;");
    assert e[4..] == rest;
  }

  lemma UnescapeGt(rest: string)
    ensures Unescape("&gt;" + rest) == ">" + Unescape(rest)
  {
    var e := "&gt;" + rest;
    assert !StartsWith(e, "&amp;") by { assert e[1] == 'g'; }
    assert !StartsWith(e, "&lt;") by { assert e[1] == 'g'; }
    assert StartsWith(e, "&gt;");
    assert e[4..] == rest;
  }

  lemma UnescapePlain(c: char, rest: string)
    requires c != '&'
    ensures Unescape([c] + rest) == [c] + Unescape(rest)
  {
    var e := [c] + rest;
    assert !StartsWith(e, "&amp;") && !StartsWith(e, "&lt;") && !StartsWith(e, "&gt;") by { assert e[0] == c; }
    assert e[1..] == rest;
  }

  /**
   * The escaped text holds no raw `<` or `>`, decodes back to the input, and
   * characters other than `&`, `<` and `>` (quotes among them) pass unchanged.
   */
  lemma EscapeHtmlSpec(s: string, c: char)
    ensures '<' !in EscapeHtml(s) && '>' !in EscapeHtml(s)
    ensures Unescape(EscapeHtml(s)) == s
    ensures c != '&' && c != '<' && c != '>' ==> EscapeChar(c) == [c]
  {
    EscapeHtmlCharwise(s);
    UnescapeEscaped(s);
  }

  // ---------------------------------------------------------------------
  // HTML or markdown

  function EndsWith(s: string, p: string): bool {
    |p| <= |s| && s[|s| - |p|..] == p
  }

  // ---------------------------------------------------------------------
  // renderTable

  datatype Table = Table(headers: seq<string>, rows: seq<seq<string>>)

  /** `.replace(/^\s*\|/, '')`: a leading pipe, with the whitespace before it. */
  function StripLeadingPipe(line: string): (r: string)
    ensures |r| <= |line|
  {
    var t := TrimStart(line);
    if t != [] && t[0] == '|' then t[1..] else line
  }

  /** `.replace(/\|\s*$/, '')`: a trailing pipe, with the whitespace after it. */
  function StripTrailingPipe(line: string): (r: string)
    ensures |r| <= |line|
  {
    var t := TrimEnd(line);
    if t != [] && t[|t| - 1] == '|' then t[..|t| - 1] else line
  }

  /** `parseRow`: the outer pipes stripped, split on `|`, each cell trimmed. */
  function ParseRow(line: string): (r: seq<string>)
    ensures |r| >= 1
    ensures forall i :: 0 <= i < |r| ==> '|' !in r[i] && Trim(r[i]) == r[i]
  {
    var parts := Split(StripTrailingPipe(StripLeadingPipe(line)), '|');
    var cells := seq(|parts|, i requires 0 <= i < |parts| => Trim(parts[i]));
    assert forall i :: 0 <= i < |cells| ==> Trim(cells[i]) == cells[i] by {
      forall i | 0 <= i < |cells| ensures Trim(cells[i]) == cells[i] {
        TrimIdempotent(parts[i]);
      }
    }
    assert forall i :: 0 <= i < |cells| ==> '|' !in cells[i] by {
      forall i | 0 <= i < |cells| ensures '|' !in cells[i] {
        TrimInside(parts[i]);
      }
    }
    cells
  }

  lemma TrimInside(s: string)
    ensures forall c :: c in Trim(s) ==> c in s
  {
    var t := TrimStart(s);
    assert forall c :: c in TrimEnd(t) ==> c in t;
    assert forall c :: c in t ==> c in s;
    TrimIsEndOfStart(s);
  }

  lemma TrimIsEndOfStart(s: string)
    ensures Trim(s) == TrimEnd(TrimStart(s)) || Trim(s) == TrimStart(TrimEnd(s))
  {
  }

  /** A cell of the separator row: one or more of `:` and `-`. */
  predicate DashCell(c: string) {
    c != [] && forall j :: 0 <= j < |c| ==> c[j] == ':' || c[j] == '-'
  }

  /** The separator text with at most one pipe removed at each end. */
  function StripOuterPipes(t: string): string {
    var a := if t != [] && t[0] == '|' then t[1..] else t;
    if a != [] && a[|a| - 1] == '|' then a[..|a| - 1] else a
  }

  /**
   * `/^\s*\|?\s*[:\-]+\s*(\|\s*[:\-]+\s*)+\|?\s*$/` written out: after an
   * optional pipe at each end, two or more pipe-separated cells of dashes
   * and colons, with whitespace allowed around each.
   */
  predicate IsSeparatorRow(line: string) {
    var parts := Split(StripOuterPipes(Trim(line)), '|');
    |parts| >= 2 && DashCells(parts)
  }

  /** Every part, trimmed, is a cell of dashes and colons. */
  predicate DashCells(parts: seq<string>) {
    forall i :: 0 <= i < |parts| ==> DashCell(Trim(parts[i]))
  }

  /** `renderTable(block)` before the HTML is written: `None` where it returns null. */
  function ParseTable(block: string): Option<Table> {
    TableOfLines(Split(Trim(block), '\n'))
  }

  /** The table read from the block's lines: header row, separator row, body rows. */
  function TableOfLines(lines: seq<string>): Option<Table> {
    if |lines| < 2 || !IsSeparatorRow(lines[1]) then None else Some(TableFrom(lines[0], lines[2..]))
  }

  /** The header row and the body rows, each line parsed into cells. */
  function TableFrom(header: string, body: seq<string>): Table {
    Table(ParseRow(header), seq(|body|, i requires 0 <= i < |body| => ParseRow(body[i])))
  }

  /**
   * A block is a table exactly when its second line is a separator row; the
   * header cells come from the first line and there is one row per later
   * line, in order, and no cell holds a pipe or surrounding whitespace.
   */
  lemma ParseTableSpec(block: string)
    ensures var lines := Split(Trim(block), '\n');
      ParseTable(block).None? <==> |lines| < 2 || !IsSeparatorRow(lines[1])
    ensures var lines := Split(Trim(block), '\n');
      ParseTable(block).Some? ==>
        var t := ParseTable(block).value;
        && t.headers == ParseRow(lines[0])
        && |t.rows| == |lines| - 2
        && (forall i :: 0 <= i < |t.rows| ==> t.rows[i] == ParseRow(lines[i + 2]))
        && (forall j :: 0 <= j < |t.headers| ==> '|' !in t.headers[j] && Trim(t.headers[j]) == t.headers[j])
        && (forall i, j :: 0 <= i < |t.rows| && 0 <= j < |t.rows[i]| ==> '|' !in t.rows[i][j] && Trim(t.rows[i][j]) == t.rows[i][j])
  {
    TableOfLinesSpec(Split(Trim(block), '\n'));
  }

  lemma TableOfLinesSpec(lines: seq<string>)
    ensures TableOfLines(lines).None? <==> |lines| < 2 || !IsSeparatorRow(lines[1])
    ensures TableOfLines(lines).Some? ==>
        var t := TableOfLines(lines).value;
        && t.headers == ParseRow(lines[0])
        && |t.rows| == |lines| - 2
        && (forall i :: 0 <= i < |t.rows| ==> t.rows[i] == ParseRow(lines[i + 2]))
        && (forall j :: 0 <= j < |t.headers| ==> '|' !in t.headers[j] && Trim(t.headers[j]) == t.headers[j])
        && (forall i, j :: 0 <= i < |t.rows| && 0 <= j < |t.rows[i]| ==> '|' !in t.rows[i][j] && Trim(t.rows[i][j]) == t.rows[i][j])
  {
    if TableOfLines(lines).Some? {
      var t := TableOfLines(lines).value;
      forall i | 0 <= i < |t.rows|
        ensures forall j :: 0 <= j < |t.rows[i]| ==> '|' !in t.rows[i][j] && Trim(t.rows[i][j]) == t.rows[i][j]
      {
        assert t.rows[i] == ParseRow(lines[i + 2]);
      }
    }
  }

  function Wrap(tag: string, cells: seq<string>): string
    decreases |cells|
  {
    if cells == [] then "" else "<" + tag + ">" + cells[0] + "</" + tag + ">" + Wrap(tag, cells[1..])
  }

  /** `<tr>` followed by the row's cells and `</tr>`. */
  function RowHtml(row: seq<string>): string {
    "<tr>" + Wrap("td", row) + "</tr>"
  }

  function RowsHtml(rows: seq<seq<string>>): (r: string)
    decreases |rows|
  {
    if rows == [] then "" else RowHtml(rows[0]) + RowsHtml(rows[1..])
  }

  function TableHtml(t: Table): string {
    "<table><thead><tr>" + Wrap("th", t.headers) + "</tr></thead><tbody>" + RowsHtml(t.rows) + "</tbody></table>"
  }

  /** The body of a rendered table holds one `<tr>…</tr>` per line after the separator, in line order. */
  lemma {:induction false} RowsHtmlAppend(rows: seq<seq<string>>, row: seq<string>)
    ensures RowsHtml(rows + [row]) == RowsHtml(rows) + RowHtml(row)
    decreases |rows|
  {
    var all := rows + [row];
    if rows != [] {
      RowsHtmlAppend(rows[1..], row);
      assert all[0] == rows[0];
      assert all[1..] == rows[1..] + [row];
      assert RowsHtml(all) == RowHtml(rows[0]) + (RowsHtml(rows[1..]) + RowHtml(row));
    } else {
      assert all[1..] == [];
      assert RowsHtml(all) == RowHtml(row) + "";
    }
  }

  // ---------------------------------------------------------------------
  // Numbered list items

  const LiOpen: string := "<li value=\""

  /** The length of the run of ASCII digits that starts `s`. */
  function DigitRun(s: string): (n: nat)
    ensures n <= |s|
    ensures forall i :: 0 <= i < n ==> '0' <= s[i] <= '9'
    ensures n == |s| || !('0' <= s[n] <= '9')
  {
    if s != [] && '0' <= s[0] <= '9' then 1 + DigitRun(s[1..]) else 0
  }

  /** The length of a `<li value="\d+">` tag at the start of `s`, if one is there. */
  function LiTag(s: string): (r: Option<nat>)
    ensures r.Some? ==> |LiOpen| + 3 <= r.value <= |s|
  {
    if !StartsWith(s, LiOpen) then None
    else
      var d := DigitRun(s[|LiOpen|..]);
      if d > 0 && StartsWith(s[|LiOpen| + d..], "\">") then Some(|LiOpen| + d + 2) else None
  }

  /** `b.match(/<li value="(\d+)">/)`: the number of the first numbered item, if any. */
  function FirstNumber(s: string): Option<nat>
    decreases |s|
  {
    if s == [] then None
    else if LiTag(s).Some? then
      var d := DigitRun(s[|LiOpen|..]);
      Some(DigitsValue(s[|LiOpen|..][..d]))
    else FirstNumber(s[1..])
  }

  /** `b.replace(/<li value="\d+">/g, '<li>')`. */
  function StripNumbers(s: string): string
    decreases |s|
  {
    if s == [] then []
    else if LiTag(s).Some? then "<li>" + StripNumbers(s[LiTag(s).value..])
    else [s[0]] + StripNumbers(s[1..])
  }

  lemma {:induction false} DigitRunOf(ds: string, rest: string)
    requires forall i :: 0 <= i < |ds| ==> '0' <= ds[i] <= '9'
    requires rest != [] && !('0' <= rest[0] <= '9')
    ensures DigitRun(ds + rest) == |ds|
    decreases |ds|
  {
    if ds != [] {
      DigitRunOf(ds[1..], rest);
      assert (ds + rest)[1..] == ds[1..] + rest;
    } else {
      assert ds + rest == rest;
    }
  }

  /** The item rewritten by the markdown pass as `<li value="n">` starts the list at `n`, and loses its number. */
  lemma NumberedItem(n: nat, rest: string)
    ensures var s := LiOpen + NatToString(n) + "\">" + rest;
      && LiTag(s) == Some(|LiOpen| + |NatToString(n)| + 2)
      && FirstNumber(s) == Some(n)
      && StripNumbers(s) == "<li>" + StripNumbers(rest)
  {
    var ds := NatToString(n);
    var s := LiOpen + ds + "\">" + rest;
    assert s[|LiOpen|..] == ds + ("\">" + rest);
    DigitRunOf(ds, "\">" + rest);
    assert s[|LiOpen| + |ds|..] == "\">" + rest;
    assert StartsWith(s, LiOpen);
    assert s[|LiOpen|..][..|ds|] == ds;
    NatToStringValue(n);
    assert s[|LiOpen| + |ds| + 2..] == rest;
  }

  /** Text without a numbered item is left as it is. */
  lemma {:induction false} NoNumbersUnchanged(s: string)
    requires FirstNumber(s).None?
    ensures StripNumbers(s) == s
    decreases |s|
  {
    if s != [] {
      NoNumbersUnchanged(s[1..]);
    }
  }

  // ---------------------------------------------------------------------
  // The block pass

  /** Drops the newlines that start `s`. */
  function DropNewlines(s: string): (r: string)
    ensures |r| <= |s| && r == s[|s| - |r|..]
    ensures r == [] || r[0] != '\n'
  {
    if s != [] && s[0] == '\n' then DropNewlines(s[1..]) else s
  }

  /** `s.split(/\n\n+/)` with `cur` the part of the current block already read. */
  function Blocks(s: string, cur: string): (r: seq<string>)
    ensures |r| >= 1
    decreases |s|
  {
    if s == [] then [cur]
    else if |s| >= 2 && s[0] == '\n' && s[1] == '\n' then [cur] + Blocks(DropNewlines(s), "")
    else Blocks(s[1..], cur + [s[0]])
  }

  /** No two newlines in a row. */
  predicate NoBlankLine(b: string) {
    forall i :: 0 <= i < |b| - 1 ==> !(b[i] == '\n' && b[i + 1] == '\n')
  }

  /** No block of the split holds a blank line. */
  lemma {:induction false} BlocksHaveNoBlankLine(s: string, cur: string)
    requires NoBlankLine(cur)
    requires cur != [] && cur[|cur| - 1] == '\n' ==> s == [] || s[0] != '\n'
    ensures forall i :: 0 <= i < |Blocks(s, cur)| ==> NoBlankLine(Blocks(s, cur)[i])
    decreases |s|
  {
    if s == [] {
    } else if |s| >= 2 && s[0] == '\n' && s[1] == '\n' {
      var rest := Blocks(DropNewlines(s), "");
      BlocksHaveNoBlankLine(DropNewlines(s), "");
      assert Blocks(s, cur) == [cur] + rest;
      AllNoBlankLine(cur, rest);
    } else {
      var next := cur + [s[0]];
      ExtendNoBlankLine(cur, s[0], if |s| >= 2 then Some(s[1]) else None);
      BlocksHaveNoBlankLine(s[1..], next);
    }
  }

  lemma AllNoBlankLine(cur: string, rest: seq<string>)
    requires NoBlankLine(cur)
    requires forall i :: 0 <= i < |rest| ==> NoBlankLine(rest[i])
    ensures forall i :: 0 <= i < |[cur] + rest| ==> NoBlankLine(([cur] + rest)[i])
  {
    forall i | 1 <= i < |[cur] + rest|
      ensures NoBlankLine(([cur] + rest)[i])
    {
      assert ([cur] + rest)[i] == rest[i - 1];
    }
  }

  /** Adding a character keeps a block free of blank lines unless it doubles a final newline. */
  lemma ExtendNoBlankLine(cur: string, c: char, after: Option<char>)
    requires NoBlankLine(cur)
    requires cur != [] && cur[|cur| - 1] == '\n' ==> c != '\n'
    requires !(c == '\n' && after == Some('\n'))
    ensures NoBlankLine(cur + [c])
    ensures var next := cur + [c];
      next[|next| - 1] == '\n' ==> after.None? || after.value != '\n'
  {
    var next := cur + [c];
    forall i | 0 <= i < |next| - 1
      ensures !(next[i] == '\n' && next[i + 1] == '\n')
    {
      if i < |cur| - 1 {
        assert next[i] == cur[i] && next[i + 1] == cur[i + 1];
      }
    }
  }

  /** Text without a blank line is a single block. */
  lemma {:induction false} SingleBlock(s: string, cur: string)
    requires NoBlankLine(s)
    ensures Blocks(s, cur) == [cur + s]
    decreases |s|
  {
    if s != [] {
      assert !(|s| >= 2 && s[0] == '\n' && s[1] == '\n');
      assert NoBlankLine(s[1..]) by {
        forall i | 0 <= i < |s[1..]| - 1
          ensures !(s[1..][i] == '\n' && s[1..][i + 1] == '\n')
        {
          assert s[1..][i] == s[i + 1] && s[1..][i + 1] == s[i + 2];
        }
      }
      SingleBlock(s[1..], cur + [s[0]]);
      assert s == [s[0]] + s[1..];
      assert (cur + [s[0]]) + s[1..] == cur + s;
    } else {
      assert cur + s == cur;
    }
  }

  /** `/^(<li[\s\S]*><\/li>\n?)+$/.test(b)` on a trimmed block: it starts with `<li` and ends with `></li>`. */
  predicate IsListBlock(b: string) {
    |b| >= 9 && StartsWith(b, "<li") && EndsWith(b, "></li>")
  }

  /** `/^<(h\d|ul|ol|pre|blockquote|hr|table)/.test(b)`. */
  predicate IsBlockElement(b: string) {
    (StartsWith(b, "<h") && |b| > 2 && '0' <= b[2] <= '9')
    || StartsWith(b, "<ul") || StartsWith(b, "<ol") || StartsWith(b, "<pre")
    || StartsWith(b, "<blockquote") || StartsWith(b, "<hr") || StartsWith(b, "<table")
  }

  lemma NonEmptyAppend(a: string, b: string)
    requires a != []
    ensures a + b != []
  {
    assert |a + b| == |a| + |b|;
  }

  /** `<p>` with each newline of the block turned into `<br/>`. */
  function ParagraphHtml(b: string): (r: string)
    ensures '\n' !in r && r != ""
  {
    var inner := ReplaceChar(b, '\n', "<br/>");
    assert '\n' !in inner;
    "<p>" + inner + "</p>"
  }

  /** One block of the block pass. */
  function RenderBlock(block: string): (r: string)
    ensures r == "" <==> Trim(block) == ""
  {
    var b := Trim(block);
    if b == "" then ""
    else if ParseTable(b).Some? then
      NonEmptyAppend("<table><thead><tr>", Wrap("th", ParseTable(b).value.headers) + "</tr></thead><tbody>" + RowsHtml(ParseTable(b).value.rows) + "</tbody></table>");
      TableHtml(ParseTable(b).value)
    else if IsListBlock(b) then
      if FirstNumber(b).Some? then "<ol start=\"" + NatToString(FirstNumber(b).value) + "\">" + StripNumbers(b) + "</ol>"
      else "<ul>" + b + "</ul>"
    else if IsBlockElement(b) then b
    else ParagraphHtml(b)
  }

  /**
   * A block that is not a table, a list or a block element becomes a
   * paragraph of the trimmed text with each newline turned into `<br/>`, so
   * the paragraph holds no newline.
   */
  lemma Paragraph(block: string)
    requires Trim(block) != "" && ParseTable(Trim(block)).None?
    requires !IsListBlock(Trim(block)) && !IsBlockElement(Trim(block))
    ensures RenderBlock(block) == "<p>" + ReplaceChar(Trim(block), '\n', "<br/>") + "</p>"
    ensures '\n' !in RenderBlock(block)
  {
    assert RenderBlock(block) == ParagraphHtml(Trim(block));
  }

  /** A list block without a numbered item becomes `<ul>…</ul>`; with one, an `<ol>` starting at the first number. */
  lemma ListBlock(block: string)
    requires Trim(block) != "" && ParseTable(Trim(block)).None? && IsListBlock(Trim(block))
    ensures var b := Trim(block);
      && (FirstNumber(b).None? ==> RenderBlock(block) == "<ul>" + b + "</ul>")
      && (FirstNumber(b).Some? ==>
            RenderBlock(block) == "<ol start=\"" + NatToString(FirstNumber(b).value) + "\">" + StripNumbers(b) + "</ol>")
  {
  }

  /** The block pass over the rewritten markdown: blocks split on blank lines, rendered, joined by newlines. */
  function RenderBlocks(html: string): (r: string)
  {
    var blocks := Blocks(html, "");
    Join(seq(|blocks|, i requires 0 <= i < |blocks| => RenderBlock(blocks[i])), "\n")
  }

  /** The article body: the content itself when it holds a tag, the rendered markdown otherwise. */
  function ContentHtml(raw: string, rewrite: string -> string): (r: string)
    ensures IsHtmlLike(raw) ==> r == raw
    ensures !IsHtmlLike(raw) ==> r == RenderBlocks(rewrite(raw))
  {
    if IsHtmlLike(raw) then raw else RenderBlocks(rewrite(raw))
  }

  // ---------------------------------------------------------------------
  // The step

  datatype Host = Host(
    /** The inline `replace` passes of `renderMarkdownBasic` before its block pass. */
    rewrite: string -> string,
    /** The browser printing the page titled by the first argument with the second as its article: base64 or the error message. */
    pdf: (string, string) -> Result<string>,
    clock: int,
    fileId: string)

  const FailurePrefix: string := "PDF export failed: "

  /** `getInput("File Name")?.trim() || "ai-document-<now>"`. */
  function FileBase(inputs: Inputs, clock: int): (r: string)
    ensures "File Name" in inputs && Trim(inputs["File Name"]) != "" ==> r == Trim(inputs["File Name"])
    ensures !("File Name" in inputs && Trim(inputs["File Name"]) != "") ==> r == "ai-document-" + IntToString(clock)
  {
    if "File Name" in inputs && Trim(inputs["File Name"]) != "" then Trim(inputs["File Name"])
    else "ai-document-" + IntToString(clock)
  }

  /** `rawContent || ""`: the step has no Content guard. */
  function Content(inputs: Inputs): string {
    if "Content" in inputs then inputs["Content"] else ""
  }

  function DataUrl(base64: string): string {
    "data:application/pdf;base64," + base64
  }

  function PdfRun(inputs: Inputs, host: Host): (r: Run)
    ensures r.success <==> host.pdf(FileBase(inputs, host.clock), ContentHtml(Content(inputs), host.rewrite)).Ok?
  {
    var printed := host.pdf(FileBase(inputs, host.clock), ContentHtml(Content(inputs), host.rewrite));
    if printed.Err? then Fail(FailurePrefix + printed.error)
    else Done([("PDF Base64", JStr(DataUrl(printed.value))),
               ("Download URL", JStr(DataUrl(printed.value))),
               ("Auto Download", JStr("/api/download/pdf/" + host.fileId))])
  }

  /** `ExportToPDFExecutor`: on success the base64 text is stored as `<file base>.pdf` under the file id. */
  method ExportToPdfStep(inputs: Inputs, host: Host, store: FileStore) returns (r: Run)
    modifies store
    ensures r == PdfRun(inputs, host)
    ensures r.success ==>
      var printed := host.pdf(FileBase(inputs, host.clock), ContentHtml(Content(inputs), host.rewrite));
      store.files == old(store.files)[host.fileId :=
        StoredFile(printed.value, "application/pdf", FileBase(inputs, host.clock) + ".pdf", host.clock)]
    ensures !r.success ==> store.files == old(store.files)
  {
    var fileBase := FileBase(inputs, host.clock);
    var contentHtml := ContentHtml(Content(inputs), host.rewrite);
    var printed := host.pdf(fileBase, contentHtml);
    if printed.Err? {
      return Fail(FailurePrefix + printed.error);
    }
    store.StoreFile(host.fileId, printed.value, "application/pdf", fileBase + ".pdf", host.clock);
    r := Done([("PDF Base64", JStr(DataUrl(printed.value))),
               ("Download URL", JStr(DataUrl(printed.value))),
               ("Auto Download", JStr("/api/download/pdf/" + host.fileId))]);
  }
}
