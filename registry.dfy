/**
 * The task catalog `TaskRegistry`: one descriptor per task type.
 *
 * Nine descriptors are given here field for field. The descriptor files of the
 * other ten task types are not part of this model, so their descriptors are a
 * parameter `unseen` of every lookup; the catalog's declared type still forces
 * each one's `type` to equal its key, and `Task` enforces that.
 */
module Registry {
  import opened Common

  datatype TaskType =
    | LaunchBrowser | PageToHtml | ExtractTextFromElement | FillInput | ClickElement
    | WaitForElement | DeliverViaWebhook | ExtractDataWithAi | ReadPropertyFromJson
    | AddPropertyToJson | NavigateUrl | ScrollToElement | AiResearchAssistant
    | TranslateText | DetectLanguage | GenerateDocument | ExportToCsv | ExportToPowerBi
    | ExportToPdf

  /** The registry's keys in declaration order. */
  const AllTypes: seq<TaskType> := [
    LaunchBrowser, PageToHtml, ExtractTextFromElement, FillInput, ClickElement,
    WaitForElement, DeliverViaWebhook, ExtractDataWithAi, ReadPropertyFromJson,
    AddPropertyToJson, NavigateUrl, ScrollToElement, AiResearchAssistant,
    TranslateText, DetectLanguage, GenerateDocument, ExportToCsv, ExportToPowerBi,
    ExportToPdf
  ]

  /** The enum's string value, which is also the key used in saved workflows. */
  function TypeName(t: TaskType): (r: string)
    ensures |r| > 0
  {
    match t
    case LaunchBrowser => "LAUNCH_BROWSER"
    case PageToHtml => "PAGE_TO_HTML"
    case ExtractTextFromElement => "EXTRACT_TEXT_FROM_ELEMENT"
    case FillInput => "FILL_INPUT"
    case ClickElement => "CLICK_ELEMENT"
    case WaitForElement => "WAIT_FOR_ELEMENT"
    case DeliverViaWebhook => "DELIVER_VIA_WEBHOOK"
    case ExtractDataWithAi => "EXTRACT_DATA_WITH_AI"
    case ReadPropertyFromJson => "READ_PROPERTY_FROM_JSON"
    case AddPropertyToJson => "ADD_PROPERTY_TO_JSON"
    case NavigateUrl => "NAVIGATE_URL"
    case ScrollToElement => "SCROLL_TO_ELEMENT"
    case AiResearchAssistant => "AI_RESEARCH_ASSISTANT"
    case TranslateText => "TRANSLATE_TEXT"
    case DetectLanguage => "DETECT_LANGUAGE"
    case GenerateDocument => "GENERATE_DOCUMENT"
    case ExportToCsv => "EXPORT_TO_CSV"
    case ExportToPowerBi => "EXPORT_TO_POWERBI"
    case ExportToPdf => "EXPORT_TO_PDF"
  }

  /** The task type a key names, if any (the `TaskRegistry[key]` lookup on a string). */
  function ParseType(s: string): (r: Option<TaskType>)
    ensures r.Some? ==> TypeName(r.value) == s
  {
    ParseAmong(s, AllTypes)
  }

  /** The first of `types` whose name is `s`. */
  function ParseAmong(s: string, types: seq<TaskType>): (r: Option<TaskType>)
    ensures r.Some? ==> TypeName(r.value) == s
  {
    if types == [] then None
    else if TypeName(types[0]) == s then Some(types[0])
    else ParseAmong(s, types[1..])
  }

  /** Every key is found under its own name. */
  lemma ParseTypeName(t: TaskType)
    ensures ParseType(TypeName(t)) == Some(t)
  {
    AllTypesComplete();
    ParseAmongFinds(TypeName(t), AllTypes, t);
  }

  lemma {:induction false} ParseAmongFinds(s: string, types: seq<TaskType>, t: TaskType)
    requires t in types && TypeName(t) == s
    ensures ParseAmong(s, types) == Some(t)
  {
    if types[0] != t {
      NamesInjective();
      assert t in types[1..];
      ParseAmongFinds(s, types[1..], t);
    }
  }

  /** A key is absent exactly when it is the name of no task type. */
  lemma ParseTypeNone(s: string)
    ensures ParseType(s).None? <==> forall u :: TypeName(u) != s
  {
    if ParseType(s).None? {
      forall u ensures TypeName(u) != s {
        ParseTypeName(u);
      }
    }
  }

  /** No two task types share a name. */
  lemma NamesInjective()
    ensures forall u, v :: TypeName(u) == TypeName(v) ==> u == v
  {
    forall u, v | u != v ensures TypeName(u) != TypeName(v) {
      var i := IndexInAll(u);
      var j := IndexInAll(v);
      NamesDistinct();
      if i < j {
        assert TypeName(AllTypes[i]) != TypeName(AllTypes[j]);
      } else {
        assert TypeName(AllTypes[j]) != TypeName(AllTypes[i]);
      }
    }
  }

  /** The names of the registry's keys are pairwise different. */
  lemma NamesDistinct()
    ensures forall i, j :: 0 <= i < j < |AllTypes| ==> TypeName(AllTypes[i]) != TypeName(AllTypes[j])
  {
  }

  /** The catalog has 19 distinct keys and every task type is one of them. */
  lemma AllTypesComplete()
    ensures |AllTypes| == 19
    ensures forall i, j :: 0 <= i < j < |AllTypes| ==> AllTypes[i] != AllTypes[j]
    ensures forall t: TaskType :: t in AllTypes
  {
    forall t: TaskType ensures t in AllTypes {
      var i := IndexInAll(t);
      assert AllTypes[i] == t;
    }
  }

  /** The position of `t` among the registry's keys. */
  function IndexInAll(t: TaskType): (i: nat)
    ensures i < |AllTypes| && AllTypes[i] == t
  {
    match t
    case LaunchBrowser => 0
    case PageToHtml => 1
    case ExtractTextFromElement => 2
    case FillInput => 3
    case ClickElement => 4
    case WaitForElement => 5
    case DeliverViaWebhook => 6
    case ExtractDataWithAi => 7
    case ReadPropertyFromJson => 8
    case AddPropertyToJson => 9
    case NavigateUrl => 10
    case ScrollToElement => 11
    case AiResearchAssistant => 12
    case TranslateText => 13
    case DetectLanguage => 14
    case GenerateDocument => 15
    case ExportToCsv => 16
    case ExportToPowerBi => 17
    case ExportToPdf => 18
  }

  datatype ParamType = StringParam | BrowseInstance | Credential | SelectParam

  datatype TaskParam = TaskParam(name: string, paramType: ParamType, required: bool, hideHandle: bool)

  datatype TaskOutput = TaskOutput(name: string, paramType: ParamType)

  datatype Descriptor = Descriptor(
    taskType: TaskType,
    taskLabel: string,
    isEntryPoint: bool,
    inputs: seq<TaskParam>,
    outputs: seq<TaskOutput>,
    credits: int)

  /** Supplies the descriptors whose defining files are not part of this model. */
  type Unseen = TaskType -> Descriptor

  function Param(name: string, t: ParamType, required: bool, hidden: bool): TaskParam {
    TaskParam(name, t, required, hidden)
  }

  function Output(name: string, t: ParamType): TaskOutput {
    TaskOutput(name, t)
  }

  /** The nine descriptors defined in the task folder. */
  function Shown(t: TaskType): Option<Descriptor> {
    match t
    case LaunchBrowser => Some(Descriptor(LaunchBrowser, "Launch Browser", true,
      [Param("Website Url", StringParam, false, false), Param("Research Links", StringParam, false, false),
       Param("Process All Links", StringParam, false, true)],
      [Output("Web page", BrowseInstance), Output("All Pages Data", StringParam), Output("Pages Processed", StringParam)],
      1))
    case PageToHtml => Some(Descriptor(PageToHtml, "Get HTML from the page", false,
      [Param("Web page", BrowseInstance, false, false), Param("All Pages Data", StringParam, false, false)],
      [Output("HTML", StringParam), Output("Web page", BrowseInstance), Output("All HTML Data", StringParam),
       Output("Pages Count", StringParam)],
      2))
    case AiResearchAssistant => Some(Descriptor(AiResearchAssistant, "AI Research Assistant", true,
      [Param("Research Query", StringParam, true, true), Param("Number of Links", StringParam, false, true),
       Param("Credentials", Credential, true, false)],
      [Output("Research Links", StringParam), Output("Link Count", StringParam), Output("Research Summary", StringParam)],
      3))
    case GenerateDocument => Some(Descriptor(GenerateDocument, "Generate Document", true,
      [Param("Content Data", StringParam, true, false), Param("Document Type", SelectParam, true, true),
       Param("Custom Instructions", StringParam, false, false), Param("Credentials", Credential, true, false)],
      [Output("Generated Document", StringParam)],
      5))
    case TranslateText => Some(Descriptor(TranslateText, "Translate Text", false,
      [Param("Text Content", StringParam, true, false), Param("Target Language", SelectParam, true, true),
       Param("Credentials", Credential, true, false)],
      [Output("Translated Text", StringParam), Output("Source Language", StringParam)],
      2))
    case DetectLanguage => Some(Descriptor(DetectLanguage, "Detect Language", false,
      [Param("Text Content", StringParam, true, false)],
      [Output("Language Code", StringParam), Output("Confidence Score", StringParam), Output("Text Content", StringParam)],
      1))
    case ExportToCsv => Some(Descriptor(ExportToCsv, "Export to CSV", false,
      [Param("Data", StringParam, true, false), Param("Include Metadata", SelectParam, true, true)],
      [Output("CSV File URL", StringParam)],
      1))
    case ExportToPowerBi => Some(Descriptor(ExportToPowerBi, "Export to Power BI (CSV)", false,
      [Param("Data", StringParam, true, false), Param("Chart Type", SelectParam, true, true)],
      [Output("Power BI CSV", StringParam), Output("Template File", StringParam), Output("Auto Download", StringParam)],
      2))
    case ExportToPdf => Some(Descriptor(ExportToPdf, "Export to PDF", false,
      [Param("Content", StringParam, true, false), Param("File Name", StringParam, false, false)],
      [Output("PDF Base64", StringParam), Output("Download URL", StringParam), Output("Auto Download", StringParam)],
      2))
    case _ => None
  }

  /** `TaskRegistry[t]`: the descriptor stored under key `t`, whose `type` is `t`. */
  function Task(unseen: Unseen, t: TaskType): (d: Descriptor)
    ensures d.taskType == t
    ensures Shown(t).Some? ==> d == Shown(t).value
  {
    if Shown(t).Some? then Shown(t).value else unseen(t).(taskType := t)
  }

  /** `TaskRegistry[key]` for an arbitrary string key: absent for a key that is not a task type. */
  function TaskByName(unseen: Unseen, key: string): (r: Option<Descriptor>)
    ensures r.Some? <==> ParseType(key).Some?
    ensures r.Some? ==> TypeName(r.value.taskType) == key
  {
    var t := ParseType(key);
    if t.Some? then Some(Task(unseen, t.value)) else None
  }

  predicate DistinctInputNames(d: Descriptor) {
    forall i, j :: 0 <= i < j < |d.inputs| ==> d.inputs[i].name != d.inputs[j].name
  }

  predicate DistinctOutputNames(d: Descriptor) {
    forall i, j :: 0 <= i < j < |d.outputs| ==> d.outputs[i].name != d.outputs[j].name
  }

  /** Entry points, credit costs and per-descriptor well-formedness of the shown tasks. */
  lemma ShownDescriptors(unseen: Unseen)
    ensures Task(unseen, LaunchBrowser).isEntryPoint
    ensures Task(unseen, AiResearchAssistant).isEntryPoint
    ensures Task(unseen, GenerateDocument).isEntryPoint
    ensures forall t :: t in {PageToHtml, TranslateText, DetectLanguage, ExportToCsv, ExportToPowerBi, ExportToPdf}
                        ==> !Task(unseen, t).isEntryPoint
    ensures forall t :: Shown(t).Some? ==> Task(unseen, t).credits >= 0
    ensures forall t :: Shown(t).Some? ==> DistinctInputNames(Task(unseen, t)) && DistinctOutputNames(Task(unseen, t))
  {
    ShownEntryPoints(unseen);
    forall t | Shown(t).Some?
      ensures Task(unseen, t).credits >= 0
      ensures DistinctInputNames(Task(unseen, t)) && DistinctOutputNames(Task(unseen, t))
    {
      ShownWellFormed(t);
    }
  }

  lemma ShownEntryPoints(unseen: Unseen)
    ensures Task(unseen, LaunchBrowser).isEntryPoint
    ensures Task(unseen, AiResearchAssistant).isEntryPoint
    ensures Task(unseen, GenerateDocument).isEntryPoint
    ensures forall t :: t in {PageToHtml, TranslateText, DetectLanguage, ExportToCsv, ExportToPowerBi, ExportToPdf}
                        ==> !Task(unseen, t).isEntryPoint
  {
  }

  lemma ShownWellFormed(t: TaskType)
    requires Shown(t).Some?
    ensures Shown(t).value.credits >= 0
    ensures DistinctInputNames(Shown(t).value) && DistinctOutputNames(Shown(t).value)
  {
    ShownInputsDistinct(t);
    ShownOutputsDistinct(t);
  }

  lemma ShownInputsDistinct(t: TaskType)
    requires Shown(t).Some?
    ensures DistinctInputNames(Shown(t).value)
  {
    match t
    case LaunchBrowser =>
    case PageToHtml =>
    case AiResearchAssistant =>
    case GenerateDocument =>
    case TranslateText =>
    case DetectLanguage =>
    case ExportToCsv =>
    case ExportToPowerBi =>
    case ExportToPdf =>
  }

  lemma ShownOutputsDistinct(t: TaskType)
    requires Shown(t).Some?
    ensures DistinctOutputNames(Shown(t).value)
  {
    match t
    case LaunchBrowser =>
    case PageToHtml =>
    case AiResearchAssistant =>
    case GenerateDocument =>
    case TranslateText =>
    case DetectLanguage =>
    case ExportToCsv =>
    case ExportToPowerBi =>
    case ExportToPdf =>
  }

  /** The shown credit costs. */
  lemma ShownCredits(unseen: Unseen)
    ensures Task(unseen, LaunchBrowser).credits == 1
    ensures Task(unseen, PageToHtml).credits == 2
    ensures Task(unseen, AiResearchAssistant).credits == 3
    ensures Task(unseen, GenerateDocument).credits == 5
    ensures Task(unseen, TranslateText).credits == 2
    ensures Task(unseen, DetectLanguage).credits == 1
    ensures Task(unseen, ExportToCsv).credits == 1
    ensures Task(unseen, ExportToPowerBi).credits == 2
    ensures Task(unseen, ExportToPdf).credits == 2
  {
  }

  /** Every SELECT input of a shown descriptor hides its handle, so nothing can be wired into it. */
  lemma SelectInputsHidden(unseen: Unseen, t: TaskType, i: nat)
    requires Shown(t).Some? && i < |Task(unseen, t).inputs|
    requires Task(unseen, t).inputs[i].paramType == SelectParam
    ensures Task(unseen, t).inputs[i].hideHandle
  {
  }

  /** The browser's first output and the HTML step's first input carry the same type. */
  lemma BrowserFeedsPageToHtml(unseen: Unseen)
    ensures Task(unseen, LaunchBrowser).outputs[0] == TaskOutput("Web page", BrowseInstance)
    ensures Task(unseen, PageToHtml).inputs[0].name == "Web page"
    ensures Task(unseen, PageToHtml).inputs[0].paramType == BrowseInstance
  {
  }
}
