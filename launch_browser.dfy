/**
 * `LaunchBrowserExecutor`: decides which URLs to open from three inputs,
 * keeps the ones that parse as http or https URLs, and then opens one page
 * or loads several in parallel.
 *
 * The URL pattern `/https?:\/\/[^\s]+/` is written out as `UrlMatches`.
 * `new URL(url.trim())` is the `parseUrl` parameter; launching the browser, loading
 * the pages and opening a single page are the remaining `Launcher`
 * parameters, each reduced to what the step records: a thrown message, or
 * the JSON text of the pages and the errors logged for pages that failed.
 */
module LaunchBrowser {
  import opened Common
  import opened Strings
  import opened Json
  import opened ExecutorIo

  /** The length of the leading run of non-whitespace characters: `[^\s]+` taken greedily. */
  function NonSpaceRun(s: string): (n: nat)
    ensures n <= |s|
    ensures forall i :: 0 <= i < n ==> !IsSpace(s[i])
    ensures n == |s| || IsSpace(s[n])
  {
    if s == [] || IsSpace(s[0]) then 0 else 1 + NonSpaceRun(s[1..])
  }

  /** The length of the `https?://` part at the start of `s`, or 0 when there is none. */
  function Scheme(s: string): (k: nat)
    ensures k == 0 || k == 7 || k == 8
    ensures k <= |s|
  {
    if StartsWith(s, "https://") then 8
    else if StartsWith(s, "http://") then 7
    else 0
  }

  /** The length of the pattern's match at the start of `s`, or 0 when it does not match there. */
  function MatchLen(s: string): (n: nat)
    ensures n <= |s|
  {
    var k := Scheme(s);
    if k > 0 && NonSpaceRun(s[k..]) > 0 then k + NonSpaceRun(s[k..]) else 0
  }

  /** `s.match(/https?:\/\/[^\s]+/g) || []`: the matches from left to right, each search resuming after the last match. */
  function UrlMatches(s: string): (r: seq<string>)
    decreases |s|
  {
    if s == [] then []
    else
      var n := MatchLen(s);
      if n > 0 then [s[..n]] + UrlMatches(s[n..]) else UrlMatches(s[1..])
  }

  /** What the pattern accepts as a whole match: a scheme, then at least one character, and no whitespace anywhere. */
  predicate UrlShaped(m: string) {
    ((StartsWith(m, "http://") && |m| > 7) || (StartsWith(m, "https://") && |m| > 8))
    && forall i :: 0 <= i < |m| ==> !IsSpace(m[i])
  }

  /** Every match is URL-shaped. */
  lemma {:induction false} MatchesShaped(s: string)
    ensures forall i :: 0 <= i < |UrlMatches(s)| ==> UrlShaped(UrlMatches(s)[i])
    decreases |s|
  {
    if s != [] {
      var n := MatchLen(s);
      if n > 0 {
        MatchesShaped(s[n..]);
        var m := s[..n];
        var k := Scheme(s);
        assert m[..k] == s[..k];
        forall i | 0 <= i < |m| ensures !IsSpace(m[i]) {
          if i >= k {
            assert m[i] == s[k..][i - k];
          } else {
            assert m[i] == s[..k][i];
          }
        }
        assert UrlShaped(m);
        assert UrlMatches(s) == [m] + UrlMatches(s[n..]);
      } else {
        MatchesShaped(s[1..]);
      }
    }
  }

  /** A match has no whitespace at either end, so `url.trim()` leaves it as it is. */
  lemma ShapedIsTrimmed(m: string)
    requires UrlShaped(m)
    ensures Trim(m) == m
  {
    TrimOfTrimmed(m);
  }

  /** `matches.map(url => url.trim())`. */
  function TrimAll(items: seq<string>): (r: seq<string>)
    ensures |r| == |items|
    ensures forall i :: 0 <= i < |r| ==> r[i] == Trim(items[i])
  {
    if items == [] then [] else [Trim(items[0])] + TrimAll(items[1..])
  }

  /** Trimming the pattern's matches changes none of them. */
  lemma TrimMatches(s: string)
    ensures TrimAll(UrlMatches(s)) == UrlMatches(s)
  {
    var m := UrlMatches(s);
    MatchesShaped(s);
    forall i | 0 <= i < |m| ensures Trim(m[i]) == m[i] {
      ShapedIsTrimmed(m[i]);
    }
  }

  /** `urls.filter(url => url.length > 0)`. */
  function NonEmpty(items: seq<string>): (r: seq<string>)
    ensures |r| <= |items|
    ensures forall i :: 0 <= i < |r| ==> r[i] != []
    ensures forall x :: x in r <==> x in items && x != []
  {
    if items == [] then []
    else
      var rest := NonEmpty(items[1..]);
      assert forall x :: x in items <==> x == items[0] || x in items[1..];
      if items[0] != [] then [items[0]] + rest else rest
  }

  /** `lines.every(line => line.startsWith('http'))`. */
  predicate AllHttp(lines: seq<string>) {
    forall i :: 0 <= i < |lines| ==> StartsWith(lines[i], "http")
  }

  /** The process-all branch: the non-blank lines when all of them start with `http`, the pattern's matches otherwise. */
  function AllLinks(links: string): (r: seq<string>)
    ensures forall i :: 0 <= i < |r| ==> r[i] != []
  {
    var lines := NonBlank(Split(links, '\n'));
    var parsed := if |lines| > 0 && AllHttp(lines) then TrimAll(lines) else TrimAll(UrlMatches(links));
    NonEmpty(parsed)
  }

  /** `researchLinks.match(/https?:\/\/[^\s]+/)`, trimmed, as a list of zero or one URL. */
  function FirstLink(links: string): (r: seq<string>)
    ensures |r| <= 1
  {
    var m := UrlMatches(links);
    if m == [] then [] else [Trim(m[0])]
  }

  /** The single-link branch takes the pattern's first match, which trimming leaves as it is. */
  lemma FirstLinkIsFirstMatch(links: string)
    ensures UrlMatches(links) == [] ==> FirstLink(links) == []
    ensures UrlMatches(links) != [] ==> FirstLink(links) == [UrlMatches(links)[0]] && UrlShaped(UrlMatches(links)[0])
  {
    MatchesShaped(links);
    if UrlMatches(links) != [] {
      ShapedIsTrimmed(UrlMatches(links)[0]);
    }
  }

  /** The `urls` the step settles on, in the source's order of preference. */
  function SelectUrls(inputs: Inputs): seq<string> {
    var links := Input(inputs, "Research Links");
    if links.Some? && "Process All Links" in inputs && inputs["Process All Links"] == "true" then AllLinks(links.value)
    else if links.Some? then FirstLink(links.value)
    else if Input(inputs, "Website Url").Some? then [inputs["Website Url"]]
    else []
  }

  /**
   * Research links win over the website URL: with Process All Links set to
   * "true" all links are taken, otherwise only the first; the website URL
   * counts only when there are no research links at all.
   */
  lemma UrlPriority(inputs: Inputs)
    ensures Input(inputs, "Research Links").Some? && "Process All Links" in inputs && inputs["Process All Links"] == "true" ==>
      SelectUrls(inputs) == AllLinks(inputs["Research Links"])
    ensures Input(inputs, "Research Links").Some? && !("Process All Links" in inputs && inputs["Process All Links"] == "true") ==>
      SelectUrls(inputs) == FirstLink(inputs["Research Links"])
    ensures Input(inputs, "Research Links").None? && Input(inputs, "Website Url").Some? ==>
      SelectUrls(inputs) == [inputs["Website Url"]]
    ensures Input(inputs, "Research Links").None? && Input(inputs, "Website Url").None? ==> SelectUrls(inputs) == []
  {
  }

  /**
   * Research links in which the pattern finds nothing leave no URL, whatever
   * the website URL says, unless every non-blank line is used as it is.
   */
  lemma LinksWithoutUrl(inputs: Inputs)
    requires Input(inputs, "Research Links").Some? && UrlMatches(inputs["Research Links"]) == []
    requires var lines := NonBlank(Split(inputs["Research Links"], '\n')); !(|lines| > 0 && AllHttp(lines))
    ensures SelectUrls(inputs) == []
  {
  }

  /** With every non-blank line starting with `http`, process-all mode takes all those lines, trimmed, in order. */
  lemma LinesTaken(links: string)
    requires var lines := NonBlank(Split(links, '\n')); |lines| > 0 && AllHttp(lines)
    ensures AllLinks(links) == TrimAll(NonBlank(Split(links, '\n')))
  {
    TrimmedKept(NonBlank(Split(links, '\n')));
  }

  /** Trimming texts that are not blank leaves none of them empty, so the length filter keeps them all. */
  lemma TrimmedKept(lines: seq<string>)
    requires forall x :: x in lines ==> Trim(x) != ""
    ensures NonEmpty(TrimAll(lines)) == TrimAll(lines)
  {
    var trimmed := TrimAll(lines);
    forall i | 0 <= i < |trimmed| ensures trimmed[i] != [] {
      assert lines[i] in lines;
    }
    NonEmptyKeepsAll(trimmed);
  }

  /** Otherwise process-all mode takes exactly the pattern's matches. */
  lemma MatchesTaken(links: string)
    requires var lines := NonBlank(Split(links, '\n')); !(|lines| > 0 && AllHttp(lines))
    ensures AllLinks(links) == UrlMatches(links)
  {
    TrimMatches(links);
    MatchesShaped(links);
    NonEmptyKeepsAll(UrlMatches(links));
  }

  /** Filtering out empty texts from texts that are all non-empty keeps them all. */
  lemma {:induction false} NonEmptyKeepsAll(items: seq<string>)
    requires forall i :: 0 <= i < |items| ==> items[i] != []
    ensures NonEmpty(items) == items
  {
    if items != [] {
      NonEmptyKeepsAll(items[1..]);
    }
  }

  /** `new URL(text)`: its `protocol` and `href`, or `None` when it throws. */
  datatype ParsedUrl = ParsedUrl(protocol: string, href: string)

  predicate WebProtocol(u: ParsedUrl) {
    u.protocol == "http:" || u.protocol == "https:"
  }

  /** Whether `url` goes to `validUrls`; `parseUrl` stands for `new URL(url.trim())`. */
  predicate Accepted(url: string, parseUrl: string -> Option<ParsedUrl>) {
    parseUrl(url).Some? && WebProtocol(parseUrl(url).value)
  }

  /** `validUrls` after the loop has seen `urls`: the `href` of each accepted URL, in order. */
  function ValidUrls(urls: seq<string>, parseUrl: string -> Option<ParsedUrl>): (r: seq<string>)
    ensures |r| <= |urls|
  {
    if urls == [] then []
    else
      var last := urls[|urls| - 1];
      ValidUrls(urls[..|urls| - 1], parseUrl) + (if Accepted(last, parseUrl) then [parseUrl(last).value.href] else [])
  }

  /** `invalidUrls` after the loop has seen `urls`: the others, as given. */
  function InvalidUrls(urls: seq<string>, parseUrl: string -> Option<ParsedUrl>): (r: seq<string>)
    ensures |r| <= |urls|
  {
    if urls == [] then []
    else
      var last := urls[|urls| - 1];
      InvalidUrls(urls[..|urls| - 1], parseUrl) + (if Accepted(last, parseUrl) then [] else [last])
  }

  /** The validation loop. */
  method SplitUrls(urls: seq<string>, parseUrl: string -> Option<ParsedUrl>) returns (valid: seq<string>, invalid: seq<string>)
    ensures valid == ValidUrls(urls, parseUrl) && invalid == InvalidUrls(urls, parseUrl)
  {
    valid := [];
    invalid := [];
    for i := 0 to |urls|
      invariant valid == ValidUrls(urls[..i], parseUrl) && invalid == InvalidUrls(urls[..i], parseUrl)
    {
      assert urls[..i + 1][..i] == urls[..i];
      var parsed := parseUrl(urls[i]);
      if parsed.Some? && WebProtocol(parsed.value) {
        valid := valid + [parsed.value.href];
      } else {
        invalid := invalid + [urls[i]];
      }
    }
    assert urls[..|urls|] == urls;
  }

  /** Every URL ends up on exactly one side. */
  lemma {:induction false} UrlsCounted(urls: seq<string>, parseUrl: string -> Option<ParsedUrl>)
    ensures |ValidUrls(urls, parseUrl)| + |InvalidUrls(urls, parseUrl)| == |urls|
  {
    if urls != [] {
      UrlsCounted(urls[..|urls| - 1], parseUrl);
    }
  }

  /** `h` is the `href` of an accepted URL of the list. */
  predicate HrefOfAccepted(urls: seq<string>, parseUrl: string -> Option<ParsedUrl>, h: string) {
    exists i :: 0 <= i < |urls| && Accepted(urls[i], parseUrl) && h == parseUrl(urls[i]).value.href
  }

  /** Each valid entry is the `href` of an http or https URL of the list. */
  lemma {:induction false} ValidUrlsSound(urls: seq<string>, parseUrl: string -> Option<ParsedUrl>)
    ensures forall j :: 0 <= j < |ValidUrls(urls, parseUrl)| ==> HrefOfAccepted(urls, parseUrl, ValidUrls(urls, parseUrl)[j])
  {
    if urls != [] {
      var init := urls[..|urls| - 1];
      var last := urls[|urls| - 1];
      ValidUrlsSound(init, parseUrl);
      var v := ValidUrls(urls, parseUrl);
      var w := ValidUrls(init, parseUrl);
      assert v == w + (if Accepted(last, parseUrl) then [parseUrl(last).value.href] else []);
      forall j | 0 <= j < |v| ensures HrefOfAccepted(urls, parseUrl, v[j]) {
        if j < |w| {
          assert HrefOfAccepted(init, parseUrl, w[j]);
          var i :| 0 <= i < |init| && Accepted(init[i], parseUrl) && w[j] == parseUrl(init[i]).value.href;
          assert urls[i] == init[i] && v[j] == w[j];
        } else {
          assert Accepted(last, parseUrl) && v[j] == parseUrl(last).value.href;
          assert urls[|urls| - 1] == last;
        }
      }
    }
  }

  /** Each invalid entry is a URL of the list that is not accepted. */
  lemma {:induction false} InvalidUrlsSound(urls: seq<string>, parseUrl: string -> Option<ParsedUrl>)
    ensures forall j :: 0 <= j < |InvalidUrls(urls, parseUrl)| ==>
      InvalidUrls(urls, parseUrl)[j] in urls && !Accepted(InvalidUrls(urls, parseUrl)[j], parseUrl)
  {
    if urls != [] {
      var init := urls[..|urls| - 1];
      InvalidUrlsSound(init, parseUrl);
      assert forall x :: x in init ==> x in urls;
    }
  }

  /** No valid URL is left exactly when none of the list is accepted. */
  lemma {:induction false} NoValidUrls(urls: seq<string>, parseUrl: string -> Option<ParsedUrl>)
    ensures ValidUrls(urls, parseUrl) == [] <==> forall i :: 0 <= i < |urls| ==> !Accepted(urls[i], parseUrl)
  {
    if urls != [] {
      var init := urls[..|urls| - 1];
      NoValidUrls(init, parseUrl);
      assert forall i :: 0 <= i < |init| ==> init[i] == urls[i];
    }
  }

  datatype Loaded = Loaded(pagesJson: string, errors: seq<string>)

  datatype Launcher = Launcher(
    parseUrl: string -> Option<ParsedUrl>,
    launchError: Option<string>,
    loadPages: seq<string> -> Loaded,
    openError: string -> Option<string>)

  const NoUrlMessage: string := "No URL provided. Please provide either Website URL or Research Links."
  const NoValidMessage: string := "No valid URLs found to process"

  /** The step after the URLs are settled on. */
  function LaunchWith(urls: seq<string>, launcher: Launcher): (r: Run)
    ensures urls == [] ==> r == Run(false, [], ["\U{274C} " + NoUrlMessage, NoUrlMessage])
  {
    if urls == [] then Run(false, [], ["\U{274C} " + NoUrlMessage, NoUrlMessage])
    else
      var valid := ValidUrls(urls, launcher.parseUrl);
      if valid == [] then Run(false, [], ["\U{274C} " + NoValidMessage, NoValidMessage])
      else if launcher.launchError.Some? then Run(false, [], [launcher.launchError.value])
      else if |valid| > 1 then
        var loaded := launcher.loadPages(valid);
        Run(true, [("All Pages Data", JStr(loaded.pagesJson)), ("Pages Processed", JStr(NatToString(|valid|)))], loaded.errors)
      else
        match launcher.openError(valid[0])
        case Some(message) => Run(false, [], ["\U{274C} Failed to process " + valid[0] + ": " + message])
        case None => Run(true, [], [])
  }

  /** `LaunchBrowserExecutor`. */
  function LaunchBrowserRun(inputs: Inputs, launcher: Launcher): Run {
    LaunchWith(SelectUrls(inputs), launcher)
  }

  /** The executor: the URL choice, the validation loop, the launch and the page work. */
  method LaunchBrowserStep(inputs: Inputs, launcher: Launcher) returns (run: Run)
    ensures run == LaunchBrowserRun(inputs, launcher)
  {
    var urls := SelectUrls(inputs);
    if urls == [] {
      return Run(false, [], ["\U{274C} " + NoUrlMessage, NoUrlMessage]);
    }
    var valid, invalid := SplitUrls(urls, launcher.parseUrl);
    if valid == [] {
      return Run(false, [], ["\U{274C} " + NoValidMessage, NoValidMessage]);
    }
    if launcher.launchError.Some? {
      return Run(false, [], [launcher.launchError.value]);
    }
    if |valid| > 1 {
      var loaded := launcher.loadPages(valid);
      return Run(true, [("All Pages Data", JStr(loaded.pagesJson)), ("Pages Processed", JStr(NatToString(|valid|)))], loaded.errors);
    }
    var failure := launcher.openError(valid[0]);
    if failure.Some? {
      return Run(false, [], ["\U{274C} Failed to process " + valid[0] + ": " + failure.value]);
    }
    return Run(true, [], []);
  }

  /**
   * The step fails when no URL is chosen or none of them is an http or https
   * URL. It sets the two outputs exactly when it succeeds with more than one
   * valid URL, and then `Pages Processed` is their number.
   */
  lemma LaunchOutcome(urls: seq<string>, launcher: Launcher)
    ensures (forall i :: 0 <= i < |urls| ==> !Accepted(urls[i], launcher.parseUrl)) ==> !LaunchWith(urls, launcher).success
    ensures var valid := ValidUrls(urls, launcher.parseUrl);
      var run := LaunchWith(urls, launcher);
      && (run.outputs != [] <==> run.success && |valid| > 1)
      && (run.outputs != [] ==> |run.outputs| == 2 && run.outputs[1] == ("Pages Processed", JStr(NatToString(|valid|))))
    ensures LaunchWith(urls, launcher).success ==> ValidUrls(urls, launcher.parseUrl) != [] && launcher.launchError.None?
  {
    NoValidUrls(urls, launcher.parseUrl);
  }
}
