/**
 * `GenerateDocumentExecutor`: the step that reduces its "Content Data" to
 * plain text within a token budget, picks a document template, and asks a
 * language model for the document.
 *
 * The credential table, `symmetricDecrypt` and the chat-completion call are
 * parameters (`Host`). Regular-expression case-insensitivity is taken on
 * ASCII letters only.
 */
module GenerateDocument {
  import opened Common
  import opened Strings
  import opened Json
  import opened ExecutorIo

  function Min(a: int, b: int): int { if a <= b then a else b }
  function Max(a: int, b: int): int { if a >= b then a else b }

  // ---------------------------------------------------------------------
  // stripHtml

  /** Whether `s` starts with the lower-case literal `p`, ignoring the case of ASCII letters in `s`. */
  predicate StartsWithCi(s: string, p: string) {
    |p| <= |s| && Lower(s[..|p|]) == p
  }

  /** The first position of `s` where `p` starts, case-insensitively. */
  function FindCi(s: string, p: string): (r: Option<nat>)
    ensures r.Some? ==> r.value + |p| <= |s| && StartsWithCi(s[r.value..], p)
    ensures r.Some? ==> forall j {:trigger StartsWithCi(s[j..], p)} :: 0 <= j < r.value ==> !StartsWithCi(s[j..], p)
    ensures r.None? ==> forall j {:trigger StartsWithCi(s[j..], p)} :: 0 <= j <= |s| ==> !StartsWithCi(s[j..], p)
    decreases |s|
  {
    if StartsWithCi(s, p) then Some(0)
    else if s == [] then None
    else
      var rest := FindCi(s[1..], p);
      assert forall j :: 1 <= j <= |s| ==> s[j..] == s[1..][j - 1..];
      if rest.Some? then Some(rest.value + 1) else None
  }

  /** What the block pattern sees at the start of a text: no opening tag, a whole block of this length, or an opening tag that no closing tag follows. */
  datatype Head = Plain | Block(length: nat) | Unclosed

  /** The block at the start of `s`: the opening tag up to the end of the first closing tag after it (the lazy `*?`). */
  function HeadOf(s: string, open: string, close: string): (h: Head)
    requires open != []
    ensures h.Block? ==> 0 < h.length <= |s|
    ensures h.Plain? <==> !StartsWithCi(s, open)
  {
    if !StartsWithCi(s, open) then Plain
    else match FindCi(s[|open|..], close)
      case Some(j) => Block(|open| + j + |close|)
      case None => Unclosed
  }

  /**
   * `s.replace(/<open[\s\S]*?<close>/gi, "")`: left to right, each block is
   * removed; an opening tag with no closing tag after it ends the removals,
   * since no later opening tag can be closed either.
   */
  function RemoveBlocks(s: string, open: string, close: string): (r: string)
    requires open != []
    ensures |r| <= |s|
    decreases |s|
  {
    if s == [] then []
    else match HeadOf(s, open, close)
      case Block(n) => RemoveBlocks(s[n..], open, close)
      case Unclosed => s
      case Plain => [s[0]] + RemoveBlocks(s[1..], open, close)
  }

  /** Text without any opening tag passes through unchanged. */
  lemma {:induction false} RemoveBlocksNoOpen(s: string, open: string, close: string)
    requires open != []
    requires forall j :: 0 <= j <= |s| ==> !StartsWithCi(s[j..], open)
    ensures RemoveBlocks(s, open, close) == s
    decreases |s|
  {
    if s != [] {
      assert s[0..] == s;
      forall j | 0 <= j <= |s| - 1
        ensures !StartsWithCi(s[1..][j..], open)
      {
        assert s[1..][j..] == s[j + 1..];
      }
      RemoveBlocksNoOpen(s[1..], open, close);
    }
  }

  lemma OpensWith(s: string, open: string, rest: string)
    requires Lower(open) == open && s == open + rest
    ensures StartsWithCi(s, open) && s[|open|..] == rest
  {
    assert s[..|open|] == open;
  }

  /** A text that opens with a block: it runs to the first closing tag after the opening one. */
  lemma LeadingHead(s: string, rest: string, m: nat, open: string, close: string)
    requires open != [] && Lower(open) == open && s == open + rest
    requires FindCi(rest, close) == Some(m)
    ensures HeadOf(s, open, close) == Block(|open| + m + |close|)
  {
    OpensWith(s, open, rest);
    HeadIsBlock(s, rest, m, open, close);
  }

  lemma HeadIsBlock(s: string, rest: string, m: nat, open: string, close: string)
    requires open != [] && StartsWithCi(s, open) && s[|open|..] == rest
    requires FindCi(rest, close) == Some(m)
    ensures HeadOf(s, open, close) == Block(|open| + m + |close|)
  {
  }

  /** A leading block is dropped and the scan goes on after it. */
  lemma RemoveLeadingBlock(mid: string, post: string, open: string, close: string)
    requires open != [] && Lower(open) == open
    requires FindCi(mid + close + post, close) == Some(|mid|)
    ensures RemoveBlocks(open + mid + close + post, open, close) == RemoveBlocks(post, open, close)
  {
    Regroup(open, mid, close, post);
    SkipBlock(open + mid + close + post, mid + close + post, |mid|, post, open, close);
  }

  lemma SkipBlock(s: string, rest: string, m: nat, post: string, open: string, close: string)
    requires open != [] && Lower(open) == open && s == open + rest
    requires FindCi(rest, close) == Some(m) && s[|open| + m + |close|..] == post
    ensures RemoveBlocks(s, open, close) == RemoveBlocks(post, open, close)
  {
    LeadingHead(s, rest, m, open, close);
    DropHead(s, |open| + m + |close|, post, open, close);
  }

  lemma Regroup(open: string, mid: string, close: string, post: string)
    ensures open + mid + close + post == open + (mid + close + post)
    ensures (open + mid + close + post)[|open| + |mid| + |close|..] == post
  {
  }

  lemma DropHead(s: string, n: nat, post: string, open: string, close: string)
    requires open != [] && s != [] && HeadOf(s, open, close) == Block(n) && s[n..] == post
    ensures RemoveBlocks(s, open, close) == RemoveBlocks(post, open, close)
  {
  }

  predicate IsGt(c: char) { c == '>' }

  /**
   * The length of the tag `<[^>]+>` at the start of `s`: a `<`, at least one
   * character other than `>`, and the first `>` after them; 0 when `s` does
   * not start with one.
   */
  function TagLength(s: string): (n: nat)
    ensures n == 0 <==> !(|s| >= 2 && s[0] == '<' && s[1] != '>' && '>' in s[2..])
    ensures n > 0 ==> 3 <= n <= |s|
  {
    if |s| >= 2 && s[0] == '<' && s[1] != '>' then
      match FindFirst(s[2..], IsGt)
      case Some(k) => k + 3
      case None =>
        assert forall i :: 0 <= i < |s[2..]| ==> s[2..][i] != '>';
        0
    else 0
  }

  /** `s.replace(/<[^>]+>/g, " ")`. */
  function ReplaceTags(s: string): (r: string)
    decreases |s|
  {
    if s == [] then []
    else
      var n := TagLength(s);
      if n > 0 then " " + ReplaceTags(s[n..]) else [s[0]] + ReplaceTags(s[1..])
  }

  /** A tag test on a text with a character in front of it. */
  lemma HtmlLikeCons(c: char, t: string)
    ensures IsHtmlLike([c] + t) <==> (c == '<' && |t| >= 1 && t[0] != '>' && '>' in t[1..]) || IsHtmlLike(t)
  {
    var s := [c] + t;
    if IsHtmlLike(s) {
      var i :| 0 <= i < |s| - 1 && s[i] == '<' && s[i + 1] != '>' && '>' in s[i + 2..];
      if i > 0 {
        assert s[i + 2..] == t[i + 1..];
        assert t[i - 1] == '<' && t[i] != '>';
      } else {
        assert s[2..] == t[1..];
      }
    }
    if IsHtmlLike(t) {
      var i :| 0 <= i < |t| - 1 && t[i] == '<' && t[i + 1] != '>' && '>' in t[i + 2..];
      assert s[i + 3..] == t[i + 2..];
      assert s[i + 1] == '<' && s[i + 2] != '>';
    }
    if c == '<' && |t| >= 1 && t[0] != '>' && '>' in t[1..] {
      assert s[2..] == t[1..];
      assert s[0] == '<' && s[1] != '>';
    }
  }

  /** A tag inside a slice of a text is a tag of the text. */
  lemma HtmlLikeWithin(s: string, a: nat, b: nat)
    requires a <= b <= |s|
    ensures IsHtmlLike(s[a..b]) ==> IsHtmlLike(s)
  {
    if IsHtmlLike(s[a..b]) {
      var t := s[a..b];
      var i :| 0 <= i < |t| - 1 && t[i] == '<' && t[i + 1] != '>' && '>' in t[i + 2..];
      var k :| 0 <= k < |t[i + 2..]| && t[i + 2..][k] == '>';
      assert s[a + i] == '<' && s[a + i + 1] != '>';
      assert s[a + i + 2..][k] == '>';
    }
  }

  /** Replacing tags adds no `>`. */
  lemma {:induction false} ReplaceTagsNoGt(s: string)
    requires '>' !in s
    ensures '>' !in ReplaceTags(s)
    decreases |s|
  {
    if s != [] {
      assert TagLength(s) == 0;
      ReplaceTagsNoGt(s[1..]);
    }
  }

  /** After the tag pass no tag is left: every remaining `<` is followed by `>` or by no `>` at all. */
  lemma {:induction false} NoTagAfterReplace(s: string)
    ensures !IsHtmlLike(ReplaceTags(s))
    decreases |s|
  {
    if s != [] {
      var n := TagLength(s);
      if n > 0 {
        NoTagAfterReplace(s[n..]);
        HtmlLikeCons(' ', ReplaceTags(s[n..]));
      } else {
        var t := s[1..];
        NoTagAfterReplace(t);
        HtmlLikeCons(s[0], ReplaceTags(t));
        if s[0] == '<' && t != [] {
          if t[0] == '>' {
            assert TagLength(t) == 0;
            assert ReplaceTags(t)[0] == '>';
          } else {
            assert s[2..] == t[1..];
            assert '>' !in t;
            ReplaceTagsNoGt(t);
            var r := ReplaceTags(t);
            assert r != [] ==> r[1..] == r[1..];
            assert forall k :: 1 <= k < |r| ==> r[k] == r[1..][k - 1];
          }
        }
      }
    }
  }

  /** Every whitespace character is a plain space. */
  predicate SpacesOnly(s: string) {
    forall i :: 0 <= i < |s| && IsSpace(s[i]) ==> s[i] == ' '
  }

  /** No two whitespace characters stand next to each other. */
  predicate NoDoubleSpace(s: string) {
    forall i :: 0 <= i < |s| - 1 ==> !(IsSpace(s[i]) && IsSpace(s[i + 1]))
  }

  /** `s.replace(/\s+/g, " ")`. */
  function CollapseSpaces(s: string): (r: string)
    ensures s == [] <==> r == []
    ensures s != [] && IsSpace(s[0]) ==> r[0] == ' '
    ensures s != [] && !IsSpace(s[0]) ==> r[0] == s[0]
    ensures SpacesOnly(r)
    ensures NoDoubleSpace(r)
    decreases |s|
  {
    if s == [] then []
    else if IsSpace(s[0]) then " " + CollapseSpaces(s[SpaceRun(s)..])
    else [s[0]] + CollapseSpaces(s[1..])
  }

  /** Collapsing whitespace adds no `>`. */
  lemma {:induction false} CollapseNoGt(s: string)
    requires '>' !in s
    ensures '>' !in CollapseSpaces(s)
    decreases |s|
  {
    if s != [] {
      if IsSpace(s[0]) {
        CollapseNoGt(s[SpaceRun(s)..]);
      } else {
        CollapseNoGt(s[1..]);
      }
    }
  }

  /** A `>` after the first character of the collapsed text was after the first character before. */
  lemma CollapseRestGt(t: string)
    requires t != [] && '>' !in t[1..]
    ensures '>' !in CollapseSpaces(t)[1..]
  {
    var c := CollapseSpaces(t);
    if IsSpace(t[0]) {
      var k := SpaceRun(t);
      forall x | x in t[k..] ensures x != '>' {
        var j :| 0 <= j < |t[k..]| && t[k..][j] == x;
        assert t[1..][k - 1 + j] == x;
      }
      CollapseNoGt(t[k..]);
      assert c[1..] == CollapseSpaces(t[k..]);
    } else {
      CollapseNoGt(t[1..]);
      assert c[1..] == CollapseSpaces(t[1..]);
    }
  }

  /** Collapsing whitespace makes no tag: a tag afterwards was a tag before. */
  lemma {:induction false} CollapseNoNewTag(s: string)
    ensures IsHtmlLike(CollapseSpaces(s)) ==> IsHtmlLike(s)
    decreases |s|
  {
    if s != [] {
      if IsSpace(s[0]) {
        var k := SpaceRun(s);
        CollapseNoNewTag(s[k..]);
        HtmlLikeCons(' ', CollapseSpaces(s[k..]));
        HtmlLikeWithin(s, k, |s|);
        assert s[k..|s|] == s[k..];
      } else {
        var t := s[1..];
        assert [s[0]] + t == s;
        CollapseNoNewTag(t);
        HtmlLikeCons(s[0], CollapseSpaces(t));
        HtmlLikeWithin(s, 1, |s|);
        assert s[1..|s|] == t;
        HtmlLikeCons(s[0], t);
        if s[0] == '<' && t != [] && '>' !in t[1..] {
          CollapseRestGt(t);
        }
      }
    }
  }

  /** `stripHtml`: script and style blocks removed, tags replaced by a space, whitespace collapsed, then trimmed. */
  function StripHtml(html: string): string {
    var noScripts := RemoveBlocks(html, "<script", "</script>");
    var noStyles := RemoveBlocks(noScripts, "<style", "</style>");
    Trim(CollapseSpaces(ReplaceTags(noStyles)))
  }

  /**
   * The stripped text has no tag, no whitespace at either end, no two
   * whitespace characters in a row, and no whitespace other than plain spaces.
   */
  lemma StripHtmlText(html: string)
    ensures var r := StripHtml(html);
      && !IsHtmlLike(r)
      && (r == [] || (!IsSpace(r[0]) && !IsSpace(r[|r| - 1])))
      && SpacesOnly(r)
      && NoDoubleSpace(r)
  {
    var noScripts := RemoveBlocks(html, "<script", "</script>");
    var noStyles := RemoveBlocks(noScripts, "<style", "</style>");
    var text := ReplaceTags(noStyles);
    NoTagAfterReplace(noStyles);
    CollapseNoNewTag(text);
    TrimKeepsSpacing(CollapseSpaces(text));
  }

  /** Trimming keeps a text free of tags, of whitespace other than spaces, and of doubled whitespace. */
  lemma TrimKeepsSpacing(c: string)
    requires !IsHtmlLike(c)
    requires SpacesOnly(c)
    requires NoDoubleSpace(c)
    ensures var r := Trim(c);
      && !IsHtmlLike(r)
      && SpacesOnly(r)
      && NoDoubleSpace(r)
  {
    var r := Trim(c);
    var a := TrimSlice(c);
    SliceKeepsSpacing(c, r, a);
  }

  /** Any slice `r` of a text free of tags, of whitespace other than spaces, and of doubled whitespace is free of them too. */
  lemma SliceKeepsSpacing(c: string, r: string, a: nat)
    requires a + |r| <= |c| && r == c[a..a + |r|]
    requires !IsHtmlLike(c)
    requires SpacesOnly(c)
    requires NoDoubleSpace(c)
    ensures !IsHtmlLike(r)
    ensures SpacesOnly(r)
    ensures NoDoubleSpace(r)
  {
    HtmlLikeWithin(c, a, a + |r|);
    assert forall i :: 0 <= i < |r| ==> r[i] == c[a + i];
  }

  // ---------------------------------------------------------------------
  // Token budget

  /** `Math.ceil(text.length / 4)`, on the text's UTF-16 code units. */
  function EstimateTokens(text: seq<Unit>): (n: nat)
    ensures 4 * n >= |text| && 4 * n < |text| + 4
  {
    (|text| + 3) / 4
  }

  /** The estimate counts code units: a character outside the Basic Multilingual Plane weighs two. */
  lemma EstimateAstral(s: string)
    requires forall i :: 0 <= i < |s| ==> IsAstral(s[i])
    ensures EstimateTokens(Utf16(s)) == (2 * |s| + 3) / 4
  {
    Utf16AllAstral(s);
  }

  const TruncationMarker: string := "\n\n...[TRUNCATED DUE TO LENGTH]...\n\n"

  /** The marker's code units: it is ASCII, one unit per character. */
  function MarkerUnits(): (m: seq<Unit>)
    ensures |m| == |TruncationMarker| == 35
    ensures forall i :: 0 <= i < |m| ==> m[i] == TruncationMarker[i] as int
  {
    seq(|TruncationMarker|, i requires 0 <= i < |TruncationMarker| => TruncationMarker[i] as int)
  }

  /** The marker's units are its UTF-16 encoding. */
  lemma MarkerIsUtf16()
    ensures MarkerUnits() == Utf16(TruncationMarker)
  {
    var t := TruncationMarker;
    assert forall i :: 0 <= i < |t| ==> t[i] as int < 128;
    BmpUnits(t, MarkerUnits());
  }

  /** Text inside the Basic Multilingual Plane is its own list of code units. */
  lemma BmpUnits(s: string, m: seq<Unit>)
    requires |m| == |s|
    requires forall i :: 0 <= i < |s| ==> s[i] as int < 128 && m[i] == s[i] as int
    ensures m == Utf16(s)
  {
    Utf16Bmp(s);
  }



  /** `s.slice(0, end)`: a negative end counts back from the end of `s`. */
  function SliceTo(s: seq<Unit>, end: int): (r: seq<Unit>)
    ensures |r| <= |s| && r == s[..|r|]
  {
    if end < 0 then s[..Max(|s| + end, 0)] else s[..Min(end, |s|)]
  }

  /** `s.slice(start)`: a negative start counts back from the end; `-0` is `0`, the whole of `s`. */
  function SliceFrom(s: seq<Unit>, start: int): (r: seq<Unit>)
    ensures |r| <= |s| && r == s[|s| - |r|..]
  {
    if start < 0 then s[Max(|s| + start, 0)..] else s[Min(start, |s|)..]
  }

  /** `Math.floor(targetChars * 0.6)`, exact on the integers the step can pass. */
  function HeadSize(targetChars: int): int {
    (6 * targetChars) / 10
  }

  /**
   * `middleOutTruncate` as the source writes it: the tail is
   * `text.slice(-tailSize)`. Lengths and slices count code units, so a cut
   * may fall between the two halves of a surrogate pair.
   */
  function MiddleOutTruncateAsWritten(text: seq<Unit>, targetChars: int): (r: seq<Unit>)
    ensures |text| <= targetChars ==> r == text
  {
    if |text| <= targetChars then text
    else
      var headSize := HeadSize(targetChars);
      var tailSize := targetChars - headSize - 64;
      SliceTo(text, headSize) + MarkerUnits() + SliceFrom(text, -tailSize)
  }

  /**
   * With a target of 160 code units the tail size is 0, and `slice(-0)` is
   * the whole text: the "truncated" text is longer than the original and
   * repeats its head.
   */
  lemma AsWrittenRepeatsText(text: seq<Unit>)
    requires |text| > 160
    ensures MiddleOutTruncateAsWritten(text, 160) == text[..96] + MarkerUnits() + text
    ensures |MiddleOutTruncateAsWritten(text, 160)| > |text|
  {
    assert HeadSize(160) == 96;
    var head := SliceTo(text, 96);
    var tail := SliceFrom(text, -0);
    assert head == text[..96];
    assert tail == text;
    assert MiddleOutTruncateAsWritten(text, 160) == head + MarkerUnits() + tail;
  }

  /** The head is 60% of the target, rounded down. */
  lemma HeadSizeBounds(targetChars: int)
    ensures 10 * HeadSize(targetChars) <= 6 * targetChars < 10 * HeadSize(targetChars) + 10
  {
  }

  /** The head kept by the corrected truncation: at most 60% of the target, never negative. */
  function KeptHead(targetChars: int): nat {
    Max(0, HeadSize(targetChars))
  }

  /** The tail kept by the corrected truncation: what is left of the target after the head and 64 units of headroom, never negative. */
  function KeptTail(targetChars: int): nat {
    Max(0, targetChars - KeptHead(targetChars) - 64)
  }

  /** `middleOutTruncate` with the tail size clamped at 0, so that an empty tail is empty. */
  function MiddleOutTruncate(text: seq<Unit>, targetChars: int): (r: seq<Unit>)
    ensures |text| <= targetChars ==> r == text
    ensures |text| > targetChars ==> KeptHead(targetChars) + KeptTail(targetChars) <= |text|
    ensures |text| > targetChars ==>
      r == text[..KeptHead(targetChars)] + MarkerUnits() + text[|text| - KeptTail(targetChars)..]
  {
    HeadSizeBounds(targetChars);
    if |text| <= targetChars then text
    else text[..KeptHead(targetChars)] + MarkerUnits() + text[|text| - KeptTail(targetChars)..]
  }

  /**
   * The corrected truncation keeps a prefix and a disjoint suffix of the
   * text; from a target of 160 up the result is 29 units under the target,
   * and for smaller targets it is the head and the marker.
   */
  lemma MiddleOutTruncateSize(text: seq<Unit>, targetChars: int)
    requires |text| > targetChars
    ensures targetChars >= 0 ==> KeptHead(targetChars) + KeptTail(targetChars) <= targetChars
    ensures targetChars >= 160 ==> |MiddleOutTruncate(text, targetChars)| == targetChars - 29
    ensures targetChars <= 160 ==> MiddleOutTruncate(text, targetChars) == text[..KeptHead(targetChars)] + MarkerUnits()
  {
    HeadSizeBounds(targetChars);
    if targetChars <= 160 {
      assert KeptTail(targetChars) == 0;
      assert text[|text| - KeptTail(targetChars)..] == [];
    }
  }

  /** Above a target of 160 both halves are positive and together fit in the target. */
  lemma KeptSizes(targetChars: int)
    requires targetChars > 160
    ensures KeptHead(targetChars) == HeadSize(targetChars) > 0
    ensures KeptTail(targetChars) == targetChars - HeadSize(targetChars) - 64 > 0
    ensures KeptHead(targetChars) + KeptTail(targetChars) <= targetChars
  {
    HeadSizeBounds(targetChars);
  }

  /** With a positive head and tail that fit in the text, the source's slices are the plain prefix and suffix. */
  lemma SlicesArePlain(text: seq<Unit>, head: nat, tail: nat)
    requires 0 < head && 0 < tail && head + tail <= |text|
    ensures SliceTo(text, head) + MarkerUnits() + SliceFrom(text, -(tail as int)) == text[..head] + MarkerUnits() + text[|text| - tail..]
  {
    assert SliceTo(text, head) == text[..head];
    assert SliceFrom(text, -(tail as int)) == text[|text| - tail..];
  }

  /** Where the source's tail size is positive, the source and the corrected truncation agree. */
  lemma AsWrittenAgrees(text: seq<Unit>, targetChars: int)
    requires targetChars > 160
    ensures MiddleOutTruncateAsWritten(text, targetChars) == MiddleOutTruncate(text, targetChars)
  {
    if |text| > targetChars {
      KeptSizes(targetChars);
      SlicesArePlain(text, KeptHead(targetChars), KeptTail(targetChars));
    }
  }



  /** The compressed content, as the code units the chat request carries, with both token estimates. */
  datatype Compressed = Compressed(content: seq<Unit>, originalTokens: nat, compressedTokens: nat)

  const MaxInputTokens: int := 100000

  /**
   * `compressContentData`: the stripped text, cut in the middle to
   * `min(length, 4·max − 8000)` code units only when its estimate exceeds
   * the budget. The HTML stripping only matches ASCII characters and
   * whitespace, all within the Basic Multilingual Plane, so it is stated on
   * characters and the result encoded.
   */
  function CompressContentData(raw: string, maxInputTokens: int): (r: Compressed)
    ensures r.originalTokens == EstimateTokens(Utf16(raw))
    ensures r.compressedTokens == EstimateTokens(r.content)
    ensures var p := Utf16(StripHtml(raw));
      EstimateTokens(p) <= maxInputTokens ==> r.content == p
    ensures var p := Utf16(StripHtml(raw));
      EstimateTokens(p) > maxInputTokens ==> r.content == MiddleOutTruncate(p, Min(|p|, maxInputTokens * 4 - 8000))
  {
    var processed := Utf16(StripHtml(raw));
    if EstimateTokens(processed) > maxInputTokens then
      var truncated := MiddleOutTruncate(processed, Min(|processed|, maxInputTokens * 4 - 8000));
      Compressed(truncated, EstimateTokens(Utf16(raw)), EstimateTokens(truncated))
    else Compressed(processed, EstimateTokens(Utf16(raw)), EstimateTokens(processed))
  }

  /**
   * With a budget of at least 2041 tokens the compressed content fits it,
   * and the source's own truncation would have produced the same text.
   */
  lemma CompressFits(raw: string, maxInputTokens: int)
    requires maxInputTokens >= 2041
    ensures CompressContentData(raw, maxInputTokens).compressedTokens <= maxInputTokens
    ensures var p := Utf16(StripHtml(raw));
      EstimateTokens(p) > maxInputTokens ==>
        |CompressContentData(raw, maxInputTokens).content| == 4 * maxInputTokens - 8029
        && MiddleOutTruncateAsWritten(p, Min(|p|, maxInputTokens * 4 - 8000))
           == CompressContentData(raw, maxInputTokens).content
  {
    var p := Utf16(StripHtml(raw));
    if EstimateTokens(p) > maxInputTokens {
      var target := Min(|p|, maxInputTokens * 4 - 8000);
      assert target == maxInputTokens * 4 - 8000;
      MiddleOutTruncateSize(p, target);
      AsWrittenAgrees(p, target);
    }
  }

  // ---------------------------------------------------------------------
  // Document type and template

  /** A character of the class `[\s-]`. */
  predicate IsSpaceOrDash(c: char) {
    IsSpace(c) || c == '-'
  }

  function SpaceDashRun(s: string): (n: nat)
    ensures 1 <= n <= |s| || s == [] || !IsSpaceOrDash(s[0])
    ensures n <= |s| && forall i :: 0 <= i < n ==> IsSpaceOrDash(s[i])
  {
    if s == [] || !IsSpaceOrDash(s[0]) then 0 else 1 + SpaceDashRun(s[1..])
  }

  /** `s.replace(/[\s-]+/g, "_")`. */
  function Underscore(s: string): (r: string)
    ensures forall i :: 0 <= i < |r| ==> !IsSpaceOrDash(r[i])
    ensures (forall i :: 0 <= i < |s| ==> LowerChar(s[i]) == s[i]) ==> forall i :: 0 <= i < |r| ==> LowerChar(r[i]) == r[i]
    decreases |s|
  {
    if s == [] then []
    else if IsSpaceOrDash(s[0]) then "_" + Underscore(s[SpaceDashRun(s)..])
    else [s[0]] + Underscore(s[1..])
  }

  lemma {:induction false} UnderscorePlain(s: string)
    requires forall i :: 0 <= i < |s| ==> !IsSpaceOrDash(s[i])
    ensures Underscore(s) == s
    decreases |s|
  {
    if s != [] {
      UnderscorePlain(s[1..]);
    }
  }

  /** Trimming keeps a text lower-case. */
  lemma TrimKeepsLower(s: string)
    requires forall i :: 0 <= i < |s| ==> LowerChar(s[i]) == s[i]
    ensures forall i :: 0 <= i < |Trim(s)| ==> LowerChar(Trim(s)[i]) == Trim(s)[i]
  {
    var a := TrimSlice(s);
    var t := Trim(s);
    forall i | 0 <= i < |t|
      ensures LowerChar(t[i]) == t[i]
    {
      assert t[i] == s[a + i];
    }
  }

  /** The switch of `normalizeDocumentTypeKey`: two synonyms become their keys, anything else stays. */
  function SynonymKey(v: string): (r: string)
    ensures (forall i :: 0 <= i < |v| ==> !IsSpaceOrDash(v[i]) && LowerChar(v[i]) == v[i]) ==>
      forall i :: 0 <= i < |r| ==> !IsSpaceOrDash(r[i]) && LowerChar(r[i]) == r[i]
    ensures r != "summary" && r != "thesis"
    ensures v != "summary" && v != "thesis" ==> r == v
  {
    if v == "summary" then "executive_summary"
    else if v == "thesis" then "thesis_chapter"
    else v
  }

  /** `normalizeDocumentTypeKey`: lower-cased, trimmed, separator runs as `_`, and two synonyms mapped. */
  function NormalizeDocumentTypeKey(input: string): (r: string)
    ensures forall i :: 0 <= i < |r| ==> !IsSpaceOrDash(r[i]) && LowerChar(r[i]) == r[i]
    ensures r != "summary" && r != "thesis"
  {
    var lower := Lower(input);
    LowerCharIdempotent(input);
    TrimKeepsLower(lower);
    SynonymKey(Underscore(Trim(lower)))
  }

  lemma LowerCharIdempotent(s: string)
    ensures forall i :: 0 <= i < |Lower(s)| ==> LowerChar(Lower(s)[i]) == Lower(s)[i]
  {
  }

  /** Normalising a normalised key changes nothing. */
  lemma NormalizeIdempotent(input: string)
    ensures NormalizeDocumentTypeKey(NormalizeDocumentTypeKey(input)) == NormalizeDocumentTypeKey(input)
  {
    NormalizedIsFixed(NormalizeDocumentTypeKey(input));
  }

  lemma NormalizedIsFixed(r: string)
    requires forall i :: 0 <= i < |r| ==> !IsSpaceOrDash(r[i]) && LowerChar(r[i]) == r[i]
    requires r != "summary" && r != "thesis"
    ensures NormalizeDocumentTypeKey(r) == r
  {
    assert Lower(r) == r by {
      assert forall i :: 0 <= i < |r| ==> Lower(r)[i] == r[i];
    }
    if r != [] {
      assert !IsSpace(r[0]) && !IsSpace(r[|r| - 1]);
    }
    TrimOfTrimmed(r);
    UnderscorePlain(r);
  }

  datatype Template = Template(structure: string, tone: string, requirements: string)

  /** The document types with a template of their own. */
  predicate IsKnownType(documentType: string) {
    documentType == "research_paper" || documentType == "business_report"
    || documentType == "executive_summary" || documentType == "thesis_chapter"
  }

  const ResearchPaper: Template := Template(
    "Abstract, Introduction, Literature Review, Methodology, Results, Discussion, Conclusion, References",
    "Academic and scholarly",
    "Include proper citations, academic formatting, and structured sections")

  const BusinessReport: Template := Template(
    "Executive Summary, Background, Analysis, Findings, Recommendations, Conclusion",
    "Professional and analytical",
    "Business-focused language, actionable insights, and clear recommendations")

  const ExecutiveSummary: Template := Template(
    "Key Points Summary, Main Findings, Strategic Implications, Next Steps",
    "Concise and executive-level",
    "High-level overview suitable for executives, bullet points, key metrics")

  const ThesisChapter: Template := Template(
    "Chapter Introduction, Main Content with subsections, Analysis, Chapter Conclusion",
    "Academic and scholarly",
    "Detailed analysis, proper academic formatting, and scholarly references")

  /**
   * The lower-case names the template object inherits from `Object.prototype`:
   * `constructor` (the `Object` function) and `__proto__` (the prototype
   * itself). Every other inherited name has an upper-case letter, which a
   * normalised key never holds.
   */
  predicate IsInheritedName(documentType: string) {
    documentType == "constructor" || documentType == "__proto__"
  }

  /** What an inherited member yields as a template: it is truthy, and none of the three fields is defined on it. */
  const InheritedTemplate: Template := Template("undefined", "undefined", "undefined")

  /**
   * `documentTemplates[documentType] || documentTemplates.research_paper`:
   * a known type gets its template, an inherited name the inherited member,
   * whose fields print as `undefined`, and any other type the research
   * paper's.
   */
  function TemplateFor(documentType: string): (t: Template)
    ensures !IsKnownType(documentType) && !IsInheritedName(documentType) ==> t == ResearchPaper
    ensures IsInheritedName(documentType) ==> t == InheritedTemplate
    ensures documentType == "research_paper" ==> t == ResearchPaper
    ensures documentType == "business_report" ==> t == BusinessReport
    ensures documentType == "executive_summary" ==> t == ExecutiveSummary
    ensures documentType == "thesis_chapter" ==> t == ThesisChapter
  {
    if IsInheritedName(documentType) then InheritedTemplate
    else if documentType == "business_report" then BusinessReport
    else if documentType == "executive_summary" then ExecutiveSummary
    else if documentType == "thesis_chapter" then
      assert "thesis_chapter"[0] != "research_paper"[0];
      ThesisChapter
    else ResearchPaper
  }

  /**
   * The inherited names survive normalisation, so a "Document Type" of
   * `constructor` or `__proto__` reaches the inherited member, and the
   * system prompt's structure, tone and requirements read `undefined`.
   */
  lemma InheritedTypesReachTemplate(name: string)
    requires IsInheritedName(name)
    ensures TemplateFor(NormalizeDocumentTypeKey(name)) == InheritedTemplate
  {
    if name == "constructor" {
      assert forall i :: 0 <= i < |name| ==> 'a' <= name[i] <= 'z';
    } else {
      assert forall i :: 0 <= i < |name| ==> 'a' <= name[i] <= 'z' || name[i] == '_';
    }
    WordIsNormalized(name);
  }


  /** A word of lower-case ASCII letters and underscores other than the two synonyms is its own normalisation. */
  lemma WordIsNormalized(r: string)
    requires forall i :: 0 <= i < |r| ==> 'a' <= r[i] <= 'z' || r[i] == '_'
    requires r != "summary" && r != "thesis"
    ensures NormalizeDocumentTypeKey(r) == r
  {
    assert forall i :: 0 <= i < |r| ==> !IsSpaceOrDash(r[i]) && LowerChar(r[i]) == r[i];
    NormalizedIsFixed(r);
  }

  /** What the chat request is made of: the API key, the document type, its template, the custom instructions and the compressed content. */
  datatype ChatRequest = ChatRequest(apiKey: string, documentType: string, template: Template, customInstructions: string, content: seq<Unit>)

  /** The system message of the chat request. */
  function SystemPrompt(q: ChatRequest): string {
    "You are an expert document writer. Create a comprehensive " + q.documentType
    + " based on the provided content data.\n\nStructure: " + q.template.structure
    + "\nTone: " + q.template.tone
    + "\nRequirements: " + q.template.requirements
    + "\n\nAdditional instructions: " + q.customInstructions
    + "\n\nNote: The input content may be compressed to meet context limits; focus on included sections and infer structure as needed."
    + "\n\nReturn the output as plain text with clear section headings, using line breaks for readability. Do NOT include HTML tags."
  }

  predicate EndsWithText(s: seq<Unit>, suffix: seq<Unit>) {
    |suffix| <= |s| && s[|s| - |suffix|..] == suffix
  }

  /** The user message of the chat request, as code units: it ends with the content. */
  function UserPrompt(q: ChatRequest): (r: seq<Unit>)
    ensures EndsWithText(r, q.content)
  {
    var r := Utf16("Create a " + q.documentType + " based on this content data (compressed if necessary):\n\n") + q.content;
    assert r[|r| - |q.content|..] == q.content;
    r
  }

  // ---------------------------------------------------------------------
  // The step

  /**
   * The services the step calls: the stored value of a credential id
   * (`None` when there is no such credential), `symmetricDecrypt` (`Err` when
   * it throws), and the chat completion for an API key, a system and a user
   * message, giving the first choice's content (`""` when it has none, `Err`
   * when the call throws).
   */
  datatype Host = Host(
    credentialValue: string -> Option<string>,
    decrypt: string -> Result<string>,
    complete: ChatRequest -> Result<string>)

  const ContentMissing: string := "\U{274C} Content Data is required"
  const CredentialsMissing: string := "\U{274C} Credentials are required"
  const CredentialNotFound: string := "\U{274C} Credential not found"
  const CannotDecrypt: string := "\U{274C} Cannot decrypt credential"
  const NoContent: string := "\U{274C} Failed to generate document content"
  const GenerationFailed: string := "\U{274C} Document generation failed:"

  /** The catch block: two error logs, the heading and the thrown message. */
  function Thrown(message: string): (r: Run)
    ensures !r.success && r.outputs == [] && r.errors == [GenerationFailed, message]
  {
    Run(false, [], [GenerationFailed, message])
  }

  /** The document type the step asks for: the normalised input, `research_paper` by default. */
  function DocumentType(inputs: Inputs): string {
    NormalizeDocumentTypeKey(InputOr(inputs, "Document Type", "research_paper"))
  }

  /** The chat request the step makes with this key and content: the system and user messages are `SystemPrompt` and `UserPrompt` of it. */
  function Request(inputs: Inputs, apiKey: string, contentData: string): (q: ChatRequest)
    ensures q.content == CompressContentData(contentData, MaxInputTokens).content
    ensures q.template == TemplateFor(q.documentType)
  {
    var documentType := DocumentType(inputs);
    ChatRequest(apiKey, documentType, TemplateFor(documentType), InputOr(inputs, "Custom Instructions", ""),
                CompressContentData(contentData, MaxInputTokens).content)
  }

  /** `GenerateDocumentExecutor`. */
  function GenerateDocumentRun(inputs: Inputs, host: Host): Run {
    match Input(inputs, "Content Data")
    case None => Fail(ContentMissing)
    case Some(contentData) =>
      match Input(inputs, "Credentials")
      case None => Fail(CredentialsMissing)
      case Some(credentialId) =>
        match host.credentialValue(credentialId)
        case None => Fail(CredentialNotFound)
        case Some(stored) =>
          match host.decrypt(stored)
          case Err(e) => Thrown(e)
          case Ok(apiKey) =>
            if apiKey == "" then Fail(CannotDecrypt)
            else
              match host.complete(Request(inputs, apiKey, contentData))
              case Err(e) => Thrown(e)
              case Ok(text) =>
                if text == "" then Fail(NoContent)
                else Done([("Generated Document", JStr(text))])
  }

  /** The guards, in the source's order. */
  lemma GenerateDocumentGuards(inputs: Inputs, host: Host)
    ensures Input(inputs, "Content Data").None? ==> GenerateDocumentRun(inputs, host) == Fail(ContentMissing)
    ensures Input(inputs, "Content Data").Some? && Input(inputs, "Credentials").None? ==>
      GenerateDocumentRun(inputs, host) == Fail(CredentialsMissing)
    ensures (Input(inputs, "Content Data").Some? && Input(inputs, "Credentials").Some?
             && host.credentialValue(Input(inputs, "Credentials").value).None?) ==>
      GenerateDocumentRun(inputs, host) == Fail(CredentialNotFound)
  {
  }

  /**
   * The step succeeds exactly when the credential decrypts to a non-empty key
   * and the model answers the step's prompts with non-empty content, which
   * becomes the one output "Generated Document"; every failure leaves no
   * output and at least one error.
   */
  lemma GenerateDocumentOutcome(inputs: Inputs, host: Host)
    ensures var r := GenerateDocumentRun(inputs, host);
      r.success <==>
        && Input(inputs, "Content Data").Some? && Input(inputs, "Credentials").Some?
        && host.credentialValue(Input(inputs, "Credentials").value).Some?
        && host.decrypt(host.credentialValue(Input(inputs, "Credentials").value).value).Ok?
        && host.decrypt(host.credentialValue(Input(inputs, "Credentials").value).value).value != ""
        && var key := host.decrypt(host.credentialValue(Input(inputs, "Credentials").value).value).value;
           var q := Request(inputs, key, Input(inputs, "Content Data").value);
           host.complete(q).Ok? && host.complete(q).value != ""
    ensures var r := GenerateDocumentRun(inputs, host);
      r.success ==> exists text :: text != "" && r.outputs == [("Generated Document", JStr(text))] && r.errors == []
    ensures var r := GenerateDocumentRun(inputs, host);
      !r.success ==> r.outputs == [] && r.errors != []
  {
  }
}
