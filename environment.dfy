/**
 * The per-run `Environment` of the workflow executor: the browser and page
 * slots, the phase output record, the run's log entries and the running
 * credit total, with `cleanup` closing the page before the browser.
 *
 * Browser and page objects are opaque: a handle number stands for each.
 * Timestamps (`new Date()`) are a parameter of the log methods.
 */
module Environment {
  import opened Common
  import opened Json

  /** An opaque browser or page object. */
  type Handle = nat

  datatype LogEntry = LogEntry(message: string, logLevel: string, timestamp: int)

  /** The resources `cleanup` asks to close, in the order it asks. */
  datatype Closed = ClosedPage(page: Handle) | ClosedBrowser(browser: Handle)

  const BrowserMissing: string := "Browser not initialized"
  const PageMissing: string := "Page not initialized"

  function Sum(s: seq<int>): int {
    if s == [] then 0 else Sum(s[..|s| - 1]) + s[|s| - 1]
  }

  /** The close requests of `cleanup`: the page (if set), then the browser (if set). */
  function CloseOrder(page: Option<Handle>, browser: Option<Handle>): (r: seq<Closed>)
    ensures |r| == (if page.Some? then 1 else 0) + (if browser.Some? then 1 else 0)
    ensures page.Some? ==> r[0] == ClosedPage(page.value)
    ensures browser.Some? ==> r[|r| - 1] == ClosedBrowser(browser.value)
    ensures forall i :: 0 <= i < |r| ==> (r[i].ClosedPage? ==> i == 0)
  {
    (if page.Some? then [ClosedPage(page.value)] else [])
    + (if browser.Some? then [ClosedBrowser(browser.value)] else [])
  }

  class Environment {
    var browser: Option<Handle>
    var page: Option<Handle>
    var phases: map<string, Value>
    var logs: seq<LogEntry>
    var creditsConsumed: int
    /** Every amount passed to `addCredits` so far, in call order. */
    ghost var charges: seq<int>

    ghost predicate Valid()
      reads this
    {
      creditsConsumed == Sum(charges)
    }

    constructor()
      ensures Valid()
      ensures browser.None? && page.None? && phases == map[] && logs == [] && creditsConsumed == 0 && charges == []
    {
      browser := None;
      page := None;
      phases := map[];
      logs := [];
      creditsConsumed := 0;
      charges := [];
    }

    method SetBrowser(b: Handle)
      modifies this
      ensures browser == Some(b)
      ensures page == old(page) && phases == old(phases) && logs == old(logs)
      ensures creditsConsumed == old(creditsConsumed) && charges == old(charges)
    {
      browser := Some(b);
    }

    /** Throws when no browser was set; otherwise the last one set. */
    method GetBrowser() returns (r: Result<Handle>)
      ensures browser.None? ==> r == Err(BrowserMissing)
      ensures browser.Some? ==> r == Ok(browser.value)
    {
      if browser.None? {
        return Err(BrowserMissing);
      }
      return Ok(browser.value);
    }

    method SetPage(p: Handle)
      modifies this
      ensures page == Some(p)
      ensures browser == old(browser) && phases == old(phases) && logs == old(logs)
      ensures creditsConsumed == old(creditsConsumed) && charges == old(charges)
    {
      page := Some(p);
    }

    /** Throws when no page was set; otherwise the last one set. */
    method GetPage() returns (r: Result<Handle>)
      ensures page.None? ==> r == Err(PageMissing)
      ensures page.Some? ==> r == Ok(page.value)
    {
      if page.None? {
        return Err(PageMissing);
      }
      return Ok(page.value);
    }

    /** `getPhase(key)`: the stored value, `undefined` for a key never set. */
    function GetPhase(key: string): (r: Value)
      reads this
      ensures key !in phases ==> r == JUndefined
    {
      if key in phases then phases[key] else JUndefined
    }

    /** `setPhase(key, value)`: the last write wins; no other key changes. */
    method SetPhase(key: string, value: Value)
      modifies this
      ensures GetPhase(key) == value
      ensures forall k :: k != key ==> GetPhase(k) == old(GetPhase(k))
      ensures browser == old(browser) && page == old(page) && logs == old(logs)
      ensures creditsConsumed == old(creditsConsumed) && charges == old(charges)
    {
      phases := phases[key := value];
    }

    method AddCredits(credits: int)
      requires Valid()
      modifies this
      ensures Valid()
      ensures creditsConsumed == old(creditsConsumed) + credits
      ensures charges == old(charges) + [credits]
      ensures browser == old(browser) && page == old(page) && phases == old(phases) && logs == old(logs)
    {
      creditsConsumed := creditsConsumed + credits;
      charges := charges + [credits];
      assert charges[..|charges| - 1] == old(charges);
    }

    /** `getCreditsConsumed()`: the sum of every amount added since construction. */
    method GetCreditsConsumed() returns (r: int)
      requires Valid()
      ensures r == Sum(charges)
    {
      return creditsConsumed;
    }

    /** The shared body of the four `log` level functions. */
    method Append(logLevel: string, message: string, now: int)
      modifies this
      ensures logs == old(logs) + [LogEntry(message, logLevel, now)]
      ensures browser == old(browser) && page == old(page) && phases == old(phases)
      ensures creditsConsumed == old(creditsConsumed) && charges == old(charges)
    {
      logs := logs + [LogEntry(message, logLevel, now)];
    }

    method Info(message: string, now: int)
      modifies this
      ensures logs == old(logs) + [LogEntry(message, "info", now)]
      ensures browser == old(browser) && page == old(page) && phases == old(phases)
      ensures creditsConsumed == old(creditsConsumed) && charges == old(charges)
    {
      Append("info", message, now);
    }

    method Error(message: string, now: int)
      modifies this
      ensures logs == old(logs) + [LogEntry(message, "error", now)]
      ensures browser == old(browser) && page == old(page) && phases == old(phases)
      ensures creditsConsumed == old(creditsConsumed) && charges == old(charges)
    {
      Append("error", message, now);
    }

    method Success(message: string, now: int)
      modifies this
      ensures logs == old(logs) + [LogEntry(message, "success", now)]
      ensures browser == old(browser) && page == old(page) && phases == old(phases)
      ensures creditsConsumed == old(creditsConsumed) && charges == old(charges)
    {
      Append("success", message, now);
    }

    method Warning(message: string, now: int)
      modifies this
      ensures logs == old(logs) + [LogEntry(message, "warning", now)]
      ensures browser == old(browser) && page == old(page) && phases == old(phases)
      ensures creditsConsumed == old(creditsConsumed) && charges == old(charges)
    {
      Append("warning", message, now);
    }

    /** `log.getAll()`: a copy of the entries; a sequence value cannot be changed through it. */
    method GetAll() returns (r: seq<LogEntry>)
      ensures r == logs
    {
      r := logs;
    }

    method Clear()
      modifies this
      ensures logs == []
      ensures browser == old(browser) && page == old(page) && phases == old(phases)
      ensures creditsConsumed == old(creditsConsumed) && charges == old(charges)
    {
      logs := [];
    }

    /**
     * `cleanup()`: asks the page, then the browser, to close, only the ones
     * that are set. A failing close is logged to the console and swallowed,
     * so no outcome of a close changes the result; the slots stay set.
     */
    method Cleanup() returns (requests: seq<Closed>)
      ensures requests == CloseOrder(page, browser)
    {
      requests := [];
      if page.Some? {
        requests := requests + [ClosedPage(page.value)];
      }
      if browser.Some? {
        requests := requests + [ClosedBrowser(browser.value)];
      }
    }
  }

  /** The running total after a series of charges is their sum, and adding one more adds exactly that amount. */
  lemma SumAppend(s: seq<int>, c: int)
    ensures Sum(s + [c]) == Sum(s) + c
  {
    assert (s + [c])[..|s|] == s;
  }

  /** A sum of non-negative charges never goes below zero. */
  lemma {:induction false} SumNonNegative(s: seq<int>)
    requires forall i :: 0 <= i < |s| ==> s[i] >= 0
    ensures Sum(s) >= 0
  {
    if s != [] {
      SumNonNegative(s[..|s| - 1]);
    }
  }
}
