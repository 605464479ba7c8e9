/**
 * `AiResearchAssistantExecutor`: searches the web for a research query and
 * hands the links it finds, one per line, to a browser launch.
 *
 * What the step cannot compute itself is the `Host` parameter: the database
 * lookup of the credential, its decryption, `parseInt`, and the search call
 * (building the request URL, `fetch`, the HTTP status check and
 * `response.json()`); `Err` carries the message of what any of them throws.
 */
module ResearchAssistant {
  import opened Common
  import opened Strings
  import opened Json
  import opened ExecutorIo

  /** What the step asks the search service for. `None` is a `NaN` link count. */
  datatype SearchRequest = SearchRequest(query: string, apiKey: string, numberOfLinks: Option<int>)

  datatype Host = Host(
    credentialValue: string -> Option<string>,
    decrypt: string -> Result<string>,
    parseInt: string -> Option<int>,
    search: SearchRequest -> Result<Value>)

  const QueryMissing: string := "\U{274C} Research Query is required"
  const CredentialsMissing: string := "\U{274C} Credentials are required"
  const CredentialNotFound: string := "\U{274C} Credential not found"
  const CannotDecrypt: string := "\U{274C} Cannot decrypt credential"
  const NoResults: string := "\U{274C} No search results found"
  const DefaultLinkCount: string := "5"

  /** `❌ SerpApi error: ${searchData.error}`. */
  function SearchError(error: Value): string {
    "\U{274C} SerpApi error: " + ToStr(error)
  }

  /** The catch block: one error log with the thrown message. */
  function Thrown(message: string): (r: Run)
    ensures !r.success && r.outputs == [] && r.errors == ["\U{274C} AI Research Assistant error: " + message]
  {
    Fail("\U{274C} AI Research Assistant error: " + message)
  }

  /**
   * The end index `slice(0, end)` uses on a list of `len` items: a `NaN`
   * end is 0, a negative one counts back from the end, and none goes past
   * the end.
   */
  function SliceEnd(len: nat, end: Option<int>): (r: nat)
    ensures r <= len
    ensures end.None? ==> r == 0
    ensures end.Some? && 0 <= end.value ==> r == if end.value < len then end.value else len
    ensures end.Some? && end.value < 0 ==> r == if len + end.value < 0 then 0 else len + end.value
  {
    match end
    case None => 0
    case Some(n) =>
      if n < 0 then (if len + n < 0 then 0 else len + n)
      else if n < len then n
      else len
  }

  /**
   * One search result through `.map(item => item.link)` and the `filter`:
   * `Ok(Some(link))` when it is kept, `Ok(None)` when it is dropped, and a
   * TypeError for a missing result or a truthy link that is not a string.
   */
  function LinkOf(item: Value): Result<Option<string>> {
    if Nullish(item) then Err(TypeErrorMessage)
    else
      var link := Get(item, "link");
      if !Truthy(link) then Ok(None)
      else if !link.JStr? then Err(TypeErrorMessage)
      else if StartsWith(link.s, "http") then Ok(Some(link.s))
      else Ok(None)
  }

  /** The kept links are exactly the string links that start with `http`; the failures are exactly the two kinds of TypeError. */
  lemma LinkOfSpec(item: Value, s: string)
    ensures LinkOf(item) == Ok(Some(s)) <==> !Nullish(item) && Get(item, "link") == JStr(s) && StartsWith(s, "http")
    ensures LinkOf(item).Err? <==> Nullish(item) || (Truthy(Get(item, "link")) && !Get(item, "link").JStr?)
  {
  }

  /** `results.map(item => item.link).filter(link => !!link && link.startsWith('http'))`. */
  function CleanLinks(items: seq<Value>): (r: Result<seq<string>>)
    ensures r.Ok? ==> |r.value| <= |items|
    ensures r.Ok? ==> forall i :: 0 <= i < |r.value| ==> StartsWith(r.value[i], "http")
  {
    if items == [] then Ok([])
    else
      match LinkOf(items[0])
      case Err(e) => Err(e)
      case Ok(first) =>
        match CleanLinks(items[1..])
        case Err(e) => Err(e)
        case Ok(rest) =>
          assert first.Some? ==> StartsWith(first.value, "http");
          Ok(if first.Some? then [first.value] + rest else rest)
  }

  /** The chain fails exactly when one of the results makes it throw. */
  lemma {:induction false} CleanLinksFails(items: seq<Value>)
    ensures CleanLinks(items).Err? <==> exists i :: 0 <= i < |items| && LinkOf(items[i]).Err?
  {
    if items != [] {
      CleanLinksFails(items[1..]);
      if exists i :: 0 <= i < |items[1..]| && LinkOf(items[1..][i]).Err? {
        var i :| 0 <= i < |items[1..]| && LinkOf(items[1..][i]).Err?;
        assert LinkOf(items[i + 1]).Err?;
      }
      if exists i :: 0 <= i < |items| && LinkOf(items[i]).Err? {
        var i :| 0 <= i < |items| && LinkOf(items[i]).Err?;
        if i > 0 {
          assert items[1..][i - 1] == items[i];
        }
      }
    }
  }

  /** A link is in the result exactly when some result keeps it. */
  lemma {:induction false} CleanLinksKept(items: seq<Value>, s: string)
    requires CleanLinks(items).Ok?
    ensures s in CleanLinks(items).value <==> exists i :: 0 <= i < |items| && LinkOf(items[i]) == Ok(Some(s))
  {
    if items != [] {
      CleanLinksKept(items[1..], s);
      if exists i :: 0 <= i < |items[1..]| && LinkOf(items[1..][i]) == Ok(Some(s)) {
        var i :| 0 <= i < |items[1..]| && LinkOf(items[1..][i]) == Ok(Some(s));
        assert LinkOf(items[i + 1]) == Ok(Some(s));
      }
      if exists i :: 0 <= i < |items| && LinkOf(items[i]) == Ok(Some(s)) {
        var i :| 0 <= i < |items| && LinkOf(items[i]) == Ok(Some(s));
        if i > 0 {
          assert items[1..][i - 1] == items[i];
        }
      }
    }
  }

  /** The links keep the results' order: those of a prefix come before those of the rest. */
  lemma {:induction false} CleanLinksConcat(a: seq<Value>, b: seq<Value>)
    requires CleanLinks(a).Ok? && CleanLinks(b).Ok?
    ensures CleanLinks(a + b) == Ok(CleanLinks(a).value + CleanLinks(b).value)
  {
    if a == [] {
      assert a + b == b;
      assert CleanLinks(a).value == [];
      assert CleanLinks(a).value + CleanLinks(b).value == CleanLinks(b).value;
    } else {
      assert (a + b)[0] == a[0] && (a + b)[1..] == a[1..] + b;
      CleanLinksConcat(a[1..], b);
      var first := LinkOf(a[0]).value;
      var rest := CleanLinks(a[1..]).value;
      assert CleanLinks(a).value == (if first.Some? then [first.value] else []) + rest;
      assert CleanLinks(a + b).value == (if first.Some? then [first.value] else []) + rest + CleanLinks(b).value;
    }
  }

  /** `Found ${linkCount} research links for: ${researchQuery}`. */
  function Summary(query: string, count: nat): string {
    "Found " + NatToString(count) + " research links for: " + query
  }

  /** The three outputs for the kept links. */
  function ResearchOutputs(query: string, links: seq<string>): seq<(string, Value)> {
    [("Research Links", JStr(Join(links, "\n"))),
     ("Link Count", JStr(NatToString(|links|))),
     ("Research Summary", JStr(Summary(query, |links|)))]
  }

  /** The text `parseInt` reads the link count from: the input, or "5" when it is missing or empty. */
  function LinkCountText(inputs: Inputs): (r: string)
    ensures Input(inputs, "Number of Links").None? ==> r == DefaultLinkCount
    ensures Input(inputs, "Number of Links").Some? ==> r == inputs["Number of Links"]
  {
    InputOr(inputs, "Number of Links", DefaultLinkCount)
  }

  /** What the step does with the parsed search response. */
  function HandleResponse(query: string, count: Option<int>, data: Value): Run {
    if Nullish(data) then Thrown(TypeErrorMessage)
    else if Truthy(Get(data, "error")) then Fail(SearchError(Get(data, "error")))
    else
      var organic := Or(Get(data, "organic_results"), JArr([]));
      if Get(organic, "length") == JNum(0) then Fail(NoResults)
      else if !organic.JArr? then Thrown(TypeErrorMessage)
      else
        match CleanLinks(organic.items[..SliceEnd(|organic.items|, count)])
        case Err(e) => Thrown(e)
        case Ok(links) => Done(ResearchOutputs(query, links))
  }

  /** `AiResearchAssistantExecutor`. */
  function ResearchRun(inputs: Inputs, host: Host): Run {
    match Input(inputs, "Research Query")
    case None => Fail(QueryMissing)
    case Some(query) =>
      var count := host.parseInt(LinkCountText(inputs));
      match Input(inputs, "Credentials")
      case None => Fail(CredentialsMissing)
      case Some(credentialId) =>
        match host.credentialValue(credentialId)
        case None => Fail(CredentialNotFound)
        case Some(stored) =>
          match host.decrypt(stored)
          case Err(e) => Thrown(e)
          case Ok(apiKey) =>
            if apiKey == "" then Fail(CannotDecrypt)
            else
              match host.search(SearchRequest(query, apiKey, count))
              case Err(e) => Thrown(e)
              case Ok(data) => HandleResponse(query, count, data)
  }

  /** The input guards, in the source's order: the query first, then the credential. */
  lemma ResearchGuards(inputs: Inputs, host: Host)
    ensures Input(inputs, "Research Query").None? ==> ResearchRun(inputs, host) == Fail(QueryMissing)
    ensures Input(inputs, "Research Query").Some? && Input(inputs, "Credentials").None? ==>
      ResearchRun(inputs, host) == Fail(CredentialsMissing)
  {
  }

  /**
   * A response without results, or with an empty list of them, fails with
   * its own error, whatever the link count.
   */
  lemma NoOrganicResults(query: string, count: Option<int>, data: Value)
    requires !Nullish(data) && !Truthy(Get(data, "error"))
    requires !Truthy(Get(data, "organic_results")) || Get(data, "organic_results") == JArr([])
    ensures HandleResponse(query, count, data) == Fail(NoResults)
  {
  }

  /**
   * A response whose results form a list succeeds exactly when the first `N`
   * of them (by `slice(0, N)`) pass through the chain without throwing, and
   * then outputs those links, in order, joined by newlines, with their count
   * and a summary. No more than `N` links are output, and each starts with
   * `http`.
   */
  lemma ResearchLinks(query: string, count: Option<int>, data: Value)
    requires !Nullish(data) && !Truthy(Get(data, "error"))
    requires Get(data, "organic_results").JArr? && Get(data, "organic_results").items != []
    ensures var items := Get(data, "organic_results").items;
      var first := items[..SliceEnd(|items|, count)];
      var run := HandleResponse(query, count, data);
      && (run.success <==> CleanLinks(first).Ok?)
      && (run.success ==>
            var links := CleanLinks(first).value;
            && run.outputs == ResearchOutputs(query, links)
            && (count.Some? && count.value >= 0 ==> |links| <= count.value)
            && (forall i :: 0 <= i < |links| ==> StartsWith(links[i], "http")))
      && (!run.success ==> run == Thrown(TypeErrorMessage))
  {
    var items := Get(data, "organic_results").items;
    assert Or(Get(data, "organic_results"), JArr([])) == JArr(items);
    assert Get(JArr(items), "length") == JNum(|items|);
    var first := items[..SliceEnd(|items|, count)];
    CleanLinksFails(first);
    if CleanLinks(first).Err? {
      var i :| 0 <= i < |first| && LinkOf(first[i]).Err?;
      assert CleanLinks(first).error == TypeErrorMessage by {
        CleanLinksError(first);
      }
    }
  }

  /** Whenever the chain throws, what it throws is a TypeError. */
  lemma {:induction false} CleanLinksError(items: seq<Value>)
    ensures CleanLinks(items).Err? ==> CleanLinks(items).error == TypeErrorMessage
  {
    if items != [] {
      CleanLinksError(items[1..]);
    }
  }

  /**
   * The step succeeds exactly when every guard passes, the search answers
   * and its response yields links, as `HandleResponse` describes.
   */
  lemma ResearchOutcome(inputs: Inputs, host: Host)
    ensures var run := ResearchRun(inputs, host);
      run.success <==>
        && Input(inputs, "Research Query").Some? && Input(inputs, "Credentials").Some?
        && host.credentialValue(inputs["Credentials"]).Some?
        && var key := host.decrypt(host.credentialValue(inputs["Credentials"]).value);
           && key.Ok? && key.value != ""
           && var count := host.parseInt(LinkCountText(inputs));
              var response := host.search(SearchRequest(inputs["Research Query"], key.value, count));
              response.Ok? && HandleResponse(inputs["Research Query"], count, response.value).success
    ensures var run := ResearchRun(inputs, host);
      !run.success ==> run.outputs == [] && |run.errors| == 1
  {
  }

  /**
   * The `Research Links` text gives the links back when split on newlines,
   * as the browser launch does, provided no link holds a newline.
   */
  lemma LinksText(links: seq<string>)
    requires links != [] && forall i :: 0 <= i < |links| ==> '\n' !in links[i]
    ensures Split(Join(links, "\n"), '\n') == links
  {
    SplitJoin(links, '\n');
  }

  /** The count output and the summary quote the number of links. */
  lemma LinkCountStated(query: string, links: seq<string>)
    ensures var outputs := ResearchOutputs(query, links);
      && DigitsValue(outputs[1].1.s) == |links|
      && StartsWith(outputs[2].1.s, "Found " + outputs[1].1.s)
  {
    NatToStringValue(|links|);
    var text := NatToString(|links|);
    assert Summary(query, |links|) == ("Found " + text) + (" research links for: " + query);
  }
}
