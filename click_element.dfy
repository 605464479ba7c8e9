/**
 * `ClickElementExecutor`: tidies the selector, waits for it, falls back to
 * the first of five common submit-button selectors that appears, and clicks.
 *
 * The page is the `Browser` parameter: whether there is one, whether
 * `waitForSelector` succeeds for a selector within its timeout, and the
 * message `page.click` throws, if any. The timeouts themselves are not
 * modelled.
 */
module ClickElement {
  import opened Common
  import opened Strings
  import opened Json
  import opened ExecutorIo

  /** `parts.filter(cls => cls.length > 0)`. */
  function NonEmptyParts(parts: seq<string>): (r: seq<string>)
    ensures |r| <= |parts|
    ensures forall i :: 0 <= i < |r| ==> r[i] != [] && r[i] in parts
  {
    if parts == [] then []
    else
      var rest := NonEmptyParts(parts[1..]);
      if parts[0] != [] then [parts[0]] + rest else rest
  }

  /** The class names of `.a  b c`: `substring(1).split(' ')` without the empty pieces. */
  function ClassParts(s: string): (r: seq<string>)
    ensures forall i :: 0 <= i < |r| ==> r[i] != [] && ' ' !in r[i]
  {
    var pieces := Split(s, ' ');
    var r := NonEmptyParts(pieces);
    assert forall i :: 0 <= i < |r| ==> r[i] in pieces;
    r
  }

  /** Whether the trimmed selector gets its spaces turned into class dots. */
  predicate NeedsFix(t: string) {
    StartsWith(t, ".") && ' ' in t
  }

  /** The fix applied to an already trimmed selector. */
  function FixTrimmed(t: string): (r: string)
    ensures !NeedsFix(t) ==> r == t
    ensures NeedsFix(t) ==> |r| >= 1 && r[0] == '.'
  {
    if NeedsFix(t) then "." + Join(ClassParts(t[1..]), ".") else t
  }

  /** The selector clean-up: trim, and write `.a b` as the compound class selector `.a.b`. */
  function FixSelector(selector: string): (r: string) {
    FixTrimmed(Trim(selector))
  }

  /** The last piece of a split keeps the text's last character when that is not the separator. */
  lemma {:induction false} SplitLast(s: string, c: char)
    requires s != [] && s[|s| - 1] != c
    ensures var r := Split(s, c);
      r[|r| - 1] != [] && r[|r| - 1][|r[|r| - 1]| - 1] == s[|s| - 1]
  {
    var rest := Split(s[1..], c);
    if s[1..] != [] {
      SplitLast(s[1..], c);
    } else {
      assert rest == [""];
    }
  }

  /** Dropping empty pieces keeps a non-empty last piece last. */
  lemma {:induction false} NonEmptyPartsLast(parts: seq<string>)
    requires parts != [] && parts[|parts| - 1] != []
    ensures var r := NonEmptyParts(parts); r != [] && r[|r| - 1] == parts[|parts| - 1]
  {
    if |parts| > 1 {
      NonEmptyPartsLast(parts[1..]);
    }
  }

  /** A join ends with the last character of its last part. */
  lemma {:induction false} JoinLast(parts: seq<string>, sep: string)
    requires parts != [] && parts[|parts| - 1] != []
    ensures var j := Join(parts, sep);
      j != [] && j[|j| - 1] == parts[|parts| - 1][|parts[|parts| - 1]| - 1]
  {
    if |parts| > 1 {
      JoinLast(parts[1..], sep);
      var last := Join(parts[1..], sep);
      assert Join(parts, sep) == (parts[0] + sep) + last;
    }
  }

  /** Every character of a split piece comes from the text, and none is the separator. */
  lemma {:induction false} SplitPiecesFrom(s: string, c: char, x: char)
    requires x !in s
    ensures forall i :: 0 <= i < |Split(s, c)| ==> x !in Split(s, c)[i]
  {
    if s != [] {
      SplitPiecesFrom(s[1..], c, x);
      var rest := Split(s[1..], c);
      assert x != s[0];
      if s[0] != c {
        assert x !in [s[0]] + rest[0];
        assert Split(s, c) == [[s[0]] + rest[0]] + rest[1..];
      }
    }
  }

  /**
   * Fixing a selector that needs it and ends in a non-space character gives
   * a selector that starts with a dot, holds no space and ends in that same
   * character.
   */
  lemma FixedForm(t: string)
    requires NeedsFix(t) && !IsSpace(t[|t| - 1])
    ensures ClassParts(t[1..]) != []
    ensures var r := FixTrimmed(t); r[0] == '.' && ' ' !in r && r[|r| - 1] == t[|t| - 1]
  {
    var s := t[1..];
    assert t == [t[0]] + s;
    assert s != [] && s[|s| - 1] == t[|t| - 1];
    SplitLast(s, ' ');
    NonEmptyPartsLast(Split(s, ' '));
    JoinLast(ClassParts(s), ".");
    JoinAvoids(ClassParts(s), ".", ' ');
    var r := FixTrimmed(t);
    assert r == "." + Join(ClassParts(s), ".");
  }

  /** A selector starting with a dot comes out without spaces: a compound class selector. */
  lemma FixedHasNoSpace(selector: string)
    requires StartsWith(Trim(selector), ".")
    ensures ' ' !in FixSelector(selector)
  {
    var t := Trim(selector);
    assert t != [] by {
      assert StartsWith(t, ".");
    }
    TrimmedHasNoSpace(t);
  }

  lemma TrimmedHasNoSpace(t: string)
    requires StartsWith(t, ".") && !IsSpace(t[|t| - 1])
    ensures ' ' !in FixTrimmed(t)
  {
    if NeedsFix(t) {
      FixedForm(t);
    }
  }

  /** Fixing a fixed selector changes nothing. */
  lemma FixIdempotent(selector: string)
    ensures FixSelector(FixSelector(selector)) == FixSelector(selector)
  {
    var t := Trim(selector);
    FixedIsFinal(t);
    TrimOfTrimmed(FixTrimmed(t));
  }

  /** The fix of a trimmed selector is trimmed and needs no further fix. */
  lemma FixedIsFinal(t: string)
    requires t == [] || (!IsSpace(t[0]) && !IsSpace(t[|t| - 1]))
    ensures var r := FixTrimmed(t); (r == [] || (!IsSpace(r[0]) && !IsSpace(r[|r| - 1]))) && !NeedsFix(r)
  {
    if NeedsFix(t) {
      FixedForm(t);
    }
  }

  /** No dot follows the leading character. */
  predicate NoInnerDot(t: string) {
    forall i :: 1 <= i < |t| ==> t[i] != '.'
  }

  /**
   * The fix keeps the class names: when a trimmed selector that needs the
   * fix has no dot after its leading one, splitting the fixed selector at its
   * dots gives exactly the space-separated names.
   */
  lemma FixKeepsClasses(t: string)
    requires NeedsFix(t) && !IsSpace(t[|t| - 1]) && NoInnerDot(t)
    ensures Split(FixTrimmed(t)[1..], '.') == ClassParts(t[1..])
  {
    var s := t[1..];
    assert '.' !in s by {
      forall i | 0 <= i < |s| ensures s[i] != '.' {
        assert s[i] == t[i + 1];
      }
    }
    var parts := ClassParts(s);
    FixedForm(t);
    SplitPiecesFrom(s, ' ', '.');
    assert forall i :: 0 <= i < |parts| ==> parts[i] in Split(s, ' ');
    assert forall i :: 0 <= i < |parts| ==> '.' !in parts[i];
    SplitJoin(parts, '.');
    assert FixTrimmed(t)[1..] == Join(parts, ".");
  }

  const Alternatives: seq<string> := ["button[type=\"submit\"]", ".btn-primary", ".btn", "input[type=\"submit\"]", "[type=\"submit\"]"]

  /** The first selector of the list that appears, if any. */
  function FirstFound(selectors: seq<string>, visible: string -> bool): (r: Option<string>)
    ensures r.Some? ==> exists i :: (0 <= i < |selectors| && selectors[i] == r.value && visible(r.value)
                                     && forall k :: 0 <= k < i ==> !visible(selectors[k]))
    ensures r.None? <==> forall k :: 0 <= k < |selectors| ==> !visible(selectors[k])
  {
    if selectors == [] then None
    else if visible(selectors[0]) then Some(selectors[0])
    else
      var rest := FirstFound(selectors[1..], visible);
      assert forall k :: 1 <= k < |selectors| ==> selectors[k] == selectors[1..][k - 1];
      rest
  }

  /** The `for … of alternatives` loop with its `break`. */
  method TryAlternatives(visible: string -> bool) returns (r: Option<string>)
    ensures r == FirstFound(Alternatives, visible)
  {
    r := None;
    for i := 0 to |Alternatives|
      invariant forall k :: 0 <= k < i ==> !visible(Alternatives[k])
      invariant FirstFound(Alternatives, visible) == FirstFound(Alternatives[i..], visible)
    {
      if visible(Alternatives[i]) {
        r := Some(Alternatives[i]);
        break;
      }
      assert Alternatives[i..][1..] == Alternatives[i + 1..];
    }
  }

  datatype Browser = Browser(hasPage: bool, visible: string -> bool, clickError: string -> Option<string>)

  const SelectorMissing: string := "input -> selector is not defined"
  const PageMissing: string := "Page is not available"

  /** `page.click(target)` after the errors logged so far. */
  function Click(target: string, errors: seq<string>, browser: Browser): (r: Run)
    ensures r.outputs == [] && |r.errors| >= |errors| && r.errors[..|errors|] == errors
    ensures r.success <==> browser.clickError(target).None?
  {
    match browser.clickError(target)
    case None => Run(true, [], errors)
    case Some(message) => Run(false, [], errors + ["ClickElement error: " + message])
  }

  /** `ClickElementExecutor`, with the alternative taken from `FirstFound`. */
  function ClickElementRun(inputs: Inputs, browser: Browser): Run {
    match Input(inputs, "Selector")
    case None => Fail(SelectorMissing)
    case Some(selector) =>
      var clean := FixSelector(selector);
      if !browser.hasPage then Fail(PageMissing)
      else if browser.visible(clean) then Click(clean, [], browser)
      else
        var target := match FirstFound(Alternatives, browser.visible) case Some(a) => a case None => clean;
        Click(target, ["Element not found or not visible: " + clean], browser)
  }

  /** The executor: guards, the fix, the wait, the fallback loop and the click. */
  method ClickElementStep(inputs: Inputs, browser: Browser) returns (run: Run)
    ensures run == ClickElementRun(inputs, browser)
  {
    var selector := Input(inputs, "Selector");
    if selector.None? {
      return Fail(SelectorMissing);
    }
    var clean := FixSelector(selector.value);
    if !browser.hasPage {
      return Fail(PageMissing);
    }
    var errors: seq<string> := [];
    if !browser.visible(clean) {
      errors := ["Element not found or not visible: " + clean];
      var alternative := TryAlternatives(browser.visible);
      if alternative.Some? {
        clean := alternative.value;
      }
    }
    return Click(clean, errors, browser);
  }

  /** The selector that gets clicked: the fixed one when it appears, else the first alternative that does, else the fixed one anyway. */
  function Target(selector: string, browser: Browser): (r: string)
    ensures browser.visible(FixSelector(selector)) ==> r == FixSelector(selector)
    ensures !browser.visible(FixSelector(selector)) ==> r == FixSelector(selector) || r in Alternatives
  {
    var clean := FixSelector(selector);
    if browser.visible(clean) then clean
    else match FirstFound(Alternatives, browser.visible) case Some(a) => a case None => clean
  }

  /**
   * A missing selector or page fails with its error. Otherwise the step
   * clicks `Target`, succeeding exactly when that click does not throw, and
   * logs the not-found error first whenever the fixed selector did not appear.
   */
  lemma ClickElementOutcome(inputs: Inputs, browser: Browser)
    ensures Input(inputs, "Selector").None? ==> ClickElementRun(inputs, browser) == Fail(SelectorMissing)
    ensures Input(inputs, "Selector").Some? && !browser.hasPage ==> ClickElementRun(inputs, browser) == Fail(PageMissing)
    ensures Input(inputs, "Selector").Some? && browser.hasPage ==>
      var run := ClickElementRun(inputs, browser);
      var clean := FixSelector(inputs["Selector"]);
      && run.outputs == []
      && (run.success <==> browser.clickError(Target(inputs["Selector"], browser)).None?)
      && (browser.visible(clean) ==> |run.errors| <= 1 && (run.success ==> run.errors == []))
      && (!browser.visible(clean) ==> |run.errors| >= 1 && run.errors[0] == "Element not found or not visible: " + clean)
  {
    if Input(inputs, "Selector").Some? && browser.hasPage {
      var clean := FixSelector(inputs["Selector"]);
      if !browser.visible(clean) {
        var run := ClickElementRun(inputs, browser);
        assert run.errors[..1] == ["Element not found or not visible: " + clean];
      }
    }
  }
}
