/**
 * `DetectLanguageExecutor`: picks a language from the first of four Indic
 * script ranges that occurs in the text, and otherwise reports English with a
 * confidence that depends on how many words are common English words.
 *
 * Confidences are kept in hundredths; `Number.prototype.toString` of such a
 * value is `ConfidenceText`.
 */
module DetectLanguage {
  import opened Common
  import opened Strings
  import opened Json
  import opened ExecutorIo

  /** `/[lo-hi]/.test(s)`. */
  predicate HasScript(s: string, lo: char, hi: char) {
    exists i :: 0 <= i < |s| && lo <= s[i] <= hi
  }

  /** A detection: language code, language name and confidence in hundredths. */
  datatype Detection = Detection(code: string, name: string, confidence: nat)

  const Hindi: Detection := Detection("hi", "Hindi", 85)
  const Tamil: Detection := Detection("ta", "Tamil", 95)
  const Bengali: Detection := Detection("bn", "Bengali", 95)
  const Kannada: Detection := Detection("kn", "Kannada", 95)
  const English: Detection := Detection("en", "English", 80)
  const Unknown: Detection := Detection("en", "English", 30)

  const EnglishWords: seq<string> := ["the", "and", "is", "in", "to", "of", "a", "that", "it", "with", "for", "as", "was", "on", "are"]

  /** `englishWords.includes(word)`. */
  predicate IsEnglishWord(word: string) {
    word in EnglishWords
  }

  /** `words.filter(word => englishWords.includes(word)).length`. */
  function EnglishWordCount(words: seq<string>): (n: nat)
    ensures n <= |words|
  {
    if words == [] then 0
    else (if IsEnglishWord(words[0]) then 1 else 0) + EnglishWordCount(words[1..])
  }

  /** The count is zero exactly when no word is a common English word. */
  lemma {:induction false} EnglishWordCountZero(words: seq<string>)
    ensures EnglishWordCount(words) == 0 <==> forall i :: 0 <= i < |words| ==> !IsEnglishWord(words[i])
  {
    if words != [] {
      EnglishWordCountZero(words[1..]);
      assert forall i :: 1 <= i < |words| ==> words[i] == words[1..][i - 1];
    }
  }

  /** `text.trim().toLowerCase()`. */
  function CleanText(text: string): string {
    Lower(Trim(text))
  }

  /** `words.length * 0.1`, compared exactly: the product of an integer and the double nearest 0.1 never rounds below the exact tenth. */
  predicate MostlyEnglish(words: seq<string>) {
    10 * EnglishWordCount(words) > |words|
  }

  /** The inner `detectLanguage`: the script checks in order, then the English word count. */
  function Detect(text: string): (r: Detection)
    ensures r in {Hindi, Tamil, Bengali, Kannada, English, Unknown}
  {
    var clean := CleanText(text);
    if HasScript(clean, '\U{0900}', '\U{097F}') then Hindi
    else if HasScript(clean, '\U{0B80}', '\U{0BFF}') then Tamil
    else if HasScript(clean, '\U{0980}', '\U{09FF}') then Bengali
    else if HasScript(clean, '\U{0C80}', '\U{0CFF}') then Kannada
    else if MostlyEnglish(SplitSpaces(clean)) then English
    else Unknown
  }

  /**
   * Trimming and ASCII lower-casing never add or remove a character of a
   * range that lies above the ASCII letters and holds no whitespace, so each
   * script test sees the same answer on the raw text.
   */
  lemma ScriptOfRawText(text: string, lo: char, hi: char)
    requires '\U{A0}' < lo && hi < '\U{1680}'
    ensures HasScript(CleanText(text), lo, hi) <==> HasScript(text, lo, hi)
  {
    LowerKeepsScript(Trim(text), lo, hi);
    TrimKeepsScript(text, lo, hi);
  }

  /** ASCII lower-casing maps no character into a range above 'z' and leaves every character there as it is. */
  lemma LowerKeepsScript(t: string, lo: char, hi: char)
    requires 'z' < lo
    ensures HasScript(Lower(t), lo, hi) <==> HasScript(t, lo, hi)
  {
    var l := Lower(t);
    if HasScript(l, lo, hi) {
      var i :| 0 <= i < |l| && lo <= l[i] <= hi;
      assert l[i] == LowerChar(t[i]);
    }
    if HasScript(t, lo, hi) {
      var j :| 0 <= j < |t| && lo <= t[j] <= hi;
      assert l[j] == LowerChar(t[j]);
    }
  }

  /** Trimming removes only whitespace, and the range holds none. */
  lemma TrimKeepsScript(text: string, lo: char, hi: char)
    requires '\U{A0}' < lo && hi < '\U{1680}'
    ensures HasScript(Trim(text), lo, hi) <==> HasScript(text, lo, hi)
  {
    var a := TrimSlice(text);
    FramedScript(text, Trim(text), a, lo, hi);
  }

  /** A slice `t` that drops only whitespace on either side keeps every script character. */
  lemma FramedScript(s: string, t: string, a: nat, lo: char, hi: char)
    requires '\U{A0}' < lo && hi < '\U{1680}'
    requires a + |t| <= |s| && t == s[a..a + |t|] && AllSpace(s[..a]) && AllSpace(s[a + |t|..])
    ensures HasScript(t, lo, hi) <==> HasScript(s, lo, hi)
  {
    var n := |t|;
    if HasScript(t, lo, hi) {
      var i :| 0 <= i < n && lo <= t[i] <= hi;
      assert t[i] == s[a + i];
    }
    assert forall k :: 0 <= k < a ==> IsSpace(s[k]) by {
      forall k | 0 <= k < a ensures IsSpace(s[k]) {
        assert s[..a][k] == s[k];
      }
    }
    assert forall k :: a + n <= k < |s| ==> IsSpace(s[k]) by {
      forall k | a + n <= k < |s| ensures IsSpace(s[k]) {
        assert s[a + n..][k - a - n] == s[k];
      }
    }
    if HasScript(s, lo, hi) {
      var j :| 0 <= j < |s| && lo <= s[j] <= hi;
      assert !IsSpace(s[j]);
      assert t[j - a] == s[j];
    }
  }

  /**
   * The detection, stated on the raw text: the first script present decides
   * (so Marathi in Devanagari is reported as Hindi), and a text in none of
   * the four scripts is English, with confidence 0.8 exactly when more than a
   * tenth of its whitespace-separated words are common English words.
   */
  lemma DetectSpec(text: string)
    ensures HasScript(text, '\U{0900}', '\U{097F}') ==> Detect(text) == Hindi
    ensures (!HasScript(text, '\U{0900}', '\U{097F}') && HasScript(text, '\U{0B80}', '\U{0BFF}')) ==> Detect(text) == Tamil
    ensures (!HasScript(text, '\U{0900}', '\U{097F}') && !HasScript(text, '\U{0B80}', '\U{0BFF}')
             && HasScript(text, '\U{0980}', '\U{09FF}')) ==> Detect(text) == Bengali
    ensures (!HasScript(text, '\U{0900}', '\U{097F}') && !HasScript(text, '\U{0B80}', '\U{0BFF}')
             && !HasScript(text, '\U{0980}', '\U{09FF}') && HasScript(text, '\U{0C80}', '\U{0CFF}')) ==> Detect(text) == Kannada
    ensures (!HasScript(text, '\U{0900}', '\U{097F}') && !HasScript(text, '\U{0B80}', '\U{0BFF}')
             && !HasScript(text, '\U{0980}', '\U{09FF}') && !HasScript(text, '\U{0C80}', '\U{0CFF}')) ==>
      Detect(text) == (if MostlyEnglish(SplitSpaces(CleanText(text))) then English else Unknown)
  {
    var clean := CleanText(text);
    ScriptOfRawText(text, '\U{0900}', '\U{097F}');
    ScriptOfRawText(text, '\U{0B80}', '\U{0BFF}');
    ScriptOfRawText(text, '\U{0980}', '\U{09FF}');
    ScriptOfRawText(text, '\U{0C80}', '\U{0CFF}');
    DetectClean(text);
  }

  /** `Detect` as a chain of tests on the cleaned text. */
  lemma DetectClean(text: string)
    ensures var clean := CleanText(text);
      Detect(text) ==
        if HasScript(clean, '\U{0900}', '\U{097F}') then Hindi
        else if HasScript(clean, '\U{0B80}', '\U{0BFF}') then Tamil
        else if HasScript(clean, '\U{0980}', '\U{09FF}') then Bengali
        else if HasScript(clean, '\U{0C80}', '\U{0CFF}') then Kannada
        else if MostlyEnglish(SplitSpaces(clean)) then English
        else Unknown
  {
  }

  /** A text with no common English word at all is reported with the low confidence. */
  lemma NoEnglishWords(text: string)
    requires forall i :: 0 <= i < |SplitSpaces(CleanText(text))| ==> !IsEnglishWord(SplitSpaces(CleanText(text))[i])
    ensures Detect(text).code == "en" ==> Detect(text) == Unknown
  {
    var words := SplitSpaces(CleanText(text));
    EnglishWordCountZero(words);
    assert !MostlyEnglish(words);
    DetectClean(text);
  }

  /** `confidence.toString()` for a confidence in hundredths below 1. */
  function ConfidenceText(hundredths: nat): (r: string)
    requires hundredths < 100
    ensures |r| >= 1 && r[0] == '0'
  {
    if hundredths == 0 then "0"
    else if hundredths % 10 == 0 then "0." + [DigitChar(hundredths / 10)]
    else "0." + [DigitChar(hundredths / 10), DigitChar(hundredths % 10)]
  }

  /** The four confidences the step can report, as text. */
  lemma ConfidenceTexts()
    ensures ConfidenceText(85) == "0.85" && ConfidenceText(95) == "0.95"
    ensures ConfidenceText(80) == "0.8" && ConfidenceText(30) == "0.3"
  {
  }

  const TextMissing: string := "input -> Text Content is not defined"

  /** `DetectLanguageExecutor`. */
  function DetectLanguageRun(inputs: Inputs): Run {
    match Input(inputs, "Text Content")
    case None => Fail(TextMissing)
    case Some(text) =>
      var d := Detect(text);
      assert d.confidence < 100;
      Done([("Language Code", JStr(d.code)),
            ("Confidence Score", JStr(ConfidenceText(d.confidence))),
            ("Text Content", JStr(text))])
  }

  /** The detector assigns one of four confidences, each shown with two digits at most. */
  lemma DetectConfidence(text: string)
    ensures var c := Detect(text).confidence;
      (c == 85 && ConfidenceText(c) == "0.85") || (c == 95 && ConfidenceText(c) == "0.95")
      || (c == 80 && ConfidenceText(c) == "0.8") || (c == 30 && ConfidenceText(c) == "0.3")
  {
    ConfidenceTexts();
  }

  /**
   * A missing text fails with its error; otherwise the step succeeds with the
   * code, the confidence as text and the input text unchanged, in that order.
   */
  lemma DetectLanguageOutputs(inputs: Inputs)
    ensures Input(inputs, "Text Content").None? ==> DetectLanguageRun(inputs) == Fail(TextMissing)
    ensures Input(inputs, "Text Content").Some? ==>
      var run := DetectLanguageRun(inputs);
      var d := Detect(inputs["Text Content"]);
      && run.success && run.errors == []
      && run.outputs == [("Language Code", JStr(d.code)),
                         ("Confidence Score", JStr(ConfidenceText(d.confidence))),
                         ("Text Content", JStr(inputs["Text Content"]))]
  {
  }
}
