/**
 * `PageToHtmlExecutor`: either combines the HTML of the pages a multi-URL
 * browser launch produced, or reads the HTML of the single open page.
 *
 * `JSON.parse` is the `parse` parameter (`Err` carries the text of what it
 * throws), the `All HTML Data` document, which also holds the current time,
 * is the `allHtmlData` parameter, and the open page's `content()` is
 * `pageContent` (`None` when there is no page, `Err` when it throws).
 */
module PageToHtml {
  import opened Common
  import opened Strings
  import opened Json
  import opened ExecutorIo

  /** The block for one page: a source comment, the title as a heading, then its HTML (a falsy `html` counts as empty). */
  function PageBlock(page: Value): string {
    "<!-- Source: " + ToStr(Get(page, "url")) + " -->\n<h1>" + ToStr(Get(page, "title")) + "</h1>\n"
      + ToStr(Or(Get(page, "html"), JStr(""))) + "\n\n"
  }

  /** A page without HTML still gets its comment and heading, followed by the empty body. */
  lemma PageWithoutHtml(page: Value)
    requires !Truthy(Get(page, "html"))
    ensures PageBlock(page) == "<!-- Source: " + ToStr(Get(page, "url")) + " -->\n<h1>" + ToStr(Get(page, "title")) + "</h1>\n\n\n"
  {
  }

  /** `pagesData.map(page => …)`. */
  function PageBlocks(pages: seq<Value>): (r: seq<string>)
    ensures |r| == |pages|
    ensures forall i :: 0 <= i < |pages| ==> r[i] == PageBlock(pages[i])
  {
    if pages == [] then [] else [PageBlock(pages[0])] + PageBlocks(pages[1..])
  }

  /** `combinedHTML`: the blocks joined by a newline. */
  function CombinedHtml(pages: seq<Value>): string {
    Join(PageBlocks(pages), "\n")
  }

  /**
   * Each page's block sits in the combined HTML in page order: after the
   * blocks of the pages before it and a newline, and before a newline and the
   * blocks of the pages after it.
   */
  lemma CombinedInOrder(before: seq<Value>, page: Value, after: seq<Value>)
    ensures CombinedHtml(before + [page] + after)
      == (if before == [] then "" else CombinedHtml(before) + "\n")
         + PageBlock(page)
         + (if after == [] then "" else "\n" + CombinedHtml(after))
  {
    var b, x, c := PageBlocks(before), PageBlock(page), PageBlocks(after);
    PageBlocksConcat(before, [page]);
    PageBlocksConcat(before + [page], after);
    assert PageBlocks([page]) == [x];
    assert PageBlocks(before + [page] + after) == b + [x] + c;
    JoinAround(b, x, c, "\n");
  }

  /** One part of a join, framed by the joins of the parts before and after it. */
  lemma JoinAround(before: seq<string>, x: string, after: seq<string>, sep: string)
    ensures Join(before + [x] + after, sep)
      == (if before == [] then [] else Join(before, sep) + sep)
         + x
         + (if after == [] then [] else sep + Join(after, sep))
  {
    var all := before + [x] + after;
    if before == [] && after == [] {
      assert all == [x];
    } else if before == [] {
      assert all == [x] + after;
      JoinConcat([x], after, sep);
    } else if after == [] {
      assert all == before + [x];
      JoinConcat(before, [x], sep);
    } else {
      JoinConcat(before, [x], sep);
      JoinConcat(before + [x], after, sep);
    }
  }

  /** The blocks of two lists of pages are the blocks of each, in order. */
  lemma {:induction false} PageBlocksConcat(a: seq<Value>, b: seq<Value>)
    ensures PageBlocks(a + b) == PageBlocks(a) + PageBlocks(b)
  {
    if a != [] {
      assert (a + b)[1..] == a[1..] + b;
      PageBlocksConcat(a[1..], b);
    } else {
      assert a + b == b;
    }
  }

  /** The text of `pagesData.length.toString()`: its digits denote the number of pages. */
  lemma PagesCountText(pages: seq<Value>)
    ensures DigitsValue(NatToString(|pages|)) == |pages|
  {
    NatToStringValue(|pages|);
  }

  datatype PageHost = PageHost(
    parse: string -> Result<Value>,
    allHtmlData: (seq<Value>, string) -> string,
    pageContent: Option<Result<string>>)

  const NoPage: string := "No web page available"

  /** `Error parsing pages data: ${parseError}`. */
  function ParseError(thrown: string): string {
    "Error parsing pages data: " + thrown
  }

  /** `PageToHtmlExecutor`. */
  function PageToHtmlRun(inputs: Inputs, host: PageHost): Run {
    match Input(inputs, "All Pages Data")
    case Some(data) =>
      (match host.parse(data)
       case Err(thrown) => Fail(ParseError(thrown))
       case Ok(parsed) =>
         if !parsed.JArr? || exists i :: 0 <= i < |parsed.items| && Nullish(parsed.items[i]) then Fail(ParseError(TypeErrorMessage))
         else
           var pages := parsed.items;
           var combined := CombinedHtml(pages);
           Done([("HTML", JStr(combined)),
                 ("All HTML Data", JStr(host.allHtmlData(pages, combined))),
                 ("Pages Count", JStr(NatToString(|pages|)))]))
    case None =>
      match host.pageContent
      case None => Fail(NoPage)
      case Some(Err(message)) => Fail(message)
      case Some(Ok(html)) => Done([("HTML", JStr(html)), ("Pages Count", JStr("1"))])
  }

  /**
   * With page data, the step succeeds exactly when it parses to an array of
   * pages none of which is `null`, and then outputs the combined HTML and
   * the page count; it fails with the parse error otherwise. Without page
   * data it needs an open page, whose HTML it outputs with the count "1".
   */
  lemma PageToHtmlOutcome(inputs: Inputs, host: PageHost)
    ensures Input(inputs, "All Pages Data").Some? ==>
      var run := PageToHtmlRun(inputs, host);
      var parsed := host.parse(inputs["All Pages Data"]);
      && (run.success <==> parsed.Ok? && parsed.value.JArr?
                           && forall i :: 0 <= i < |parsed.value.items| ==> !Nullish(parsed.value.items[i]))
      && (parsed.Err? ==> run == Fail(ParseError(parsed.error)))
      && (run.success ==>
            var pages := parsed.value.items;
            run.outputs == [("HTML", JStr(CombinedHtml(pages))),
                            ("All HTML Data", JStr(host.allHtmlData(pages, CombinedHtml(pages)))),
                            ("Pages Count", JStr(NatToString(|pages|)))])
      && (!run.success ==> run.outputs == [] && |run.errors| == 1)
    ensures Input(inputs, "All Pages Data").None? ==>
      var run := PageToHtmlRun(inputs, host);
      && (host.pageContent.None? ==> run == Fail(NoPage))
      && (run.success <==> host.pageContent.Some? && host.pageContent.value.Ok?)
      && (run.success ==> run.outputs == [("HTML", JStr(host.pageContent.value.value)), ("Pages Count", JStr("1"))])
  {
  }
}
