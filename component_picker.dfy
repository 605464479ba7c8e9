/**
 * The component library of the AI workflow builder (`COMPONENT_LIBRARY`) and
 * the picker's search and click behaviour.
 *
 * An entry keeps what the picker and the workflow details panel compute
 * with: the task type, the name, the short description, the credit cost,
 * the entry-point flag and the examples. The long description, the input
 * and output labels and the icon are display text only.
 */
module ComponentPicker {
  import opened Strings
  import opened Registry

  datatype Component = Component(
    taskType: TaskType,
    name: string,
    description: string,
    credits: nat,
    isEntryPoint: bool,
    examples: seq<string>)

  /** The size of the library. */
  const LibrarySize: nat := 19

  /** The task type of the library's `i`-th entry: the library's own order, which is not the registry's. */
  function TypeAt(i: nat): (t: TaskType)
    requires i < LibrarySize
    ensures LibraryIndex(t) == i
  {
    if i == 0 then LaunchBrowser
    else if i == 1 then PageToHtml
    else if i == 2 then ExtractTextFromElement
    else if i == 3 then ExtractDataWithAi
    else if i == 4 then FillInput
    else if i == 5 then ClickElement
    else if i == 6 then WaitForElement
    else if i == 7 then ReadPropertyFromJson
    else if i == 8 then AddPropertyToJson
    else if i == 9 then NavigateUrl
    else if i == 10 then ScrollToElement
    else if i == 11 then DeliverViaWebhook
    else if i == 12 then AiResearchAssistant
    else if i == 13 then TranslateText
    else if i == 14 then DetectLanguage
    else if i == 15 then GenerateDocument
    else if i == 16 then ExportToCsv
    else if i == 17 then ExportToPowerBi
    else ExportToPdf
  }

  /** The library entry of each task type. */
  function Entry(t: TaskType): (c: Component)
    ensures c.taskType == t
  {
    Component(t, NameOf(t), DescriptionOf(t), CreditsOf(t), EntryPointOf(t), ExamplesOf(t))
  }

  /** An entry's `credits`. */
  function CreditsOf(t: TaskType): (r: nat)
    ensures 1 <= r <= 5
  {
    match t
    case LaunchBrowser => 5
    case PageToHtml => 2
    case ExtractTextFromElement => 2
    case ExtractDataWithAi => 3
    case FillInput => 2
    case ClickElement => 2
    case WaitForElement => 1
    case ReadPropertyFromJson => 1
    case AddPropertyToJson => 1
    case NavigateUrl => 2
    case ScrollToElement => 1
    case DeliverViaWebhook => 1
    case AiResearchAssistant => 3
    case TranslateText => 2
    case DetectLanguage => 1
    case GenerateDocument => 5
    case ExportToCsv => 1
    case ExportToPowerBi => 2
    case ExportToPdf => 2
  }

  /** An entry's `isEntryPoint`: set on the research assistant's entry only. */
  function EntryPointOf(t: TaskType): bool {
    match t
    case AiResearchAssistant => true
    case _ => false
  }

  /** An entry's `name`. */
  function NameOf(t: TaskType): string {
    match t
    case LaunchBrowser => "Launch Browser"
    case PageToHtml => "Get HTML from Page"
    case ExtractTextFromElement => "Extract Text from Element"
    case ExtractDataWithAi => "Extract Data with AI"
    case FillInput => "Fill Input Field"
    case ClickElement => "Click Element"
    case WaitForElement => "Wait for Element"
    case ReadPropertyFromJson => "Read JSON Property"
    case AddPropertyToJson => "Add JSON Property"
    case NavigateUrl => "Navigate to URL"
    case ScrollToElement => "Scroll to Element"
    case DeliverViaWebhook => "Send to Webhook"
    case AiResearchAssistant => "AI Research Assistant"
    case TranslateText => "Translate Text"
    case DetectLanguage => "Detect Language"
    case GenerateDocument => "Generate Document"
    case ExportToCsv => "Export to CSV"
    case ExportToPowerBi => "Export to Power BI"
    case ExportToPdf => "Export to PDF"
  }

  /** An entry's `description`. */
  function DescriptionOf(t: TaskType): string {
    match t
    case LaunchBrowser => "Opens a browser and navigates to a URL"
    case PageToHtml => "Converts the current page to HTML"
    case ExtractTextFromElement => "Extracts text from a specific element using CSS selector"
    case ExtractDataWithAi => "Uses AI to extract structured data from HTML"
    case FillInput => "Fills an input field with specified data"
    case ClickElement => "Clicks on an element using CSS selector"
    case WaitForElement => "Waits for an element to appear on the page"
    case ReadPropertyFromJson => "Reads a property from a JSON object"
    case AddPropertyToJson => "Adds a property to a JSON object"
    case NavigateUrl => "Navigates to a specific URL"
    case ScrollToElement => "Scrolls to a specific element on the page"
    case DeliverViaWebhook => "Sends extracted data to a webhook URL"
    case AiResearchAssistant => "Ask AI to find relevant research links for you"
    case TranslateText => "Translates content between languages"
    case DetectLanguage => "Automatically detects the language of text content"
    case GenerateDocument => "AI-powered document generation for research"
    case ExportToCsv => "Exports data to CSV format with metadata"
    case ExportToPowerBi => "Creates Power BI-ready CSV with analytics templates"
    case ExportToPdf => "Renders HTML or text content into a downloadable PDF"
  }

  /** An entry's `examples`. */
  function ExamplesOf(t: TaskType): seq<string> {
    match t
    case LaunchBrowser => ["Open Amazon product page", "Navigate to login page", "Start scraping from homepage"]
    case PageToHtml => ["Get page HTML for AI processing", "Extract current page content", "Prepare HTML for text extraction"]
    case ExtractTextFromElement => ["Extract product title with \"h1.product-title\"", "Get price using \".price\" selector", "Extract description from \".description\""]
    case ExtractDataWithAi => ["Extract all products as JSON array", "Get contact information from about page", "Extract table data into structured format"]
    case FillInput => ["Fill username field", "Enter search query", "Fill form data"]
    case ClickElement => ["Click login button", "Click next page button", "Click search button"]
    case WaitForElement => ["Wait for search results to load", "Wait for login success indicator", "Wait for page content to appear"]
    case ReadPropertyFromJson => ["Get \"title\" from product JSON", "Extract \"price\" property", "Read nested property like \"address.city\""]
    case AddPropertyToJson => ["Add timestamp to data", "Add computed total price", "Add source URL to scraped data"]
    case NavigateUrl => ["Navigate to next page", "Go to product details page", "Navigate to different category"]
    case ScrollToElement => ["Scroll to load more products", "Scroll to specific section", "Scroll to trigger lazy loading"]
    case DeliverViaWebhook => ["Send data to your API", "Post to webhook.site for testing", "Deliver to database endpoint"]
    case AiResearchAssistant => ["Find articles about renewable energy in India", "Research papers on AI in healthcare", "Latest studies on climate change effects"]
    case TranslateText => ["Translate Hindi content to English", "Convert English research to Tamil", "Translate Bengali articles to Hindi"]
    case DetectLanguage => ["Detect Hindi content from news sites", "Identify Tamil text in social media", "Classify multilingual forum posts"]
    case GenerateDocument => ["Create research paper from collected data", "Generate business report from market analysis", "Produce executive summary from findings"]
    case ExportToCsv => ["Export scraped product data to CSV", "Create data file for Excel analysis", "Generate CSV for database import"]
    case ExportToPowerBi => ["Create trend analysis for Power BI", "Generate pie chart data structure", "Export scatter plot ready data"]
    case ExportToPdf => ["Export generated document to PDF", "Render HTML content to A4 PDF", "Create a PDF from plain text"]
  }

  /** `COMPONENT_LIBRARY`. */
  function Library(): (r: seq<Component>)
    ensures |r| == LibrarySize
    ensures forall i :: 0 <= i < LibrarySize ==> r[i] == Entry(TypeAt(i))
  {
    seq(LibrarySize, i requires 0 <= i < LibrarySize => Entry(TypeAt(i)))
  }

  /** The position of `t` in the library. */
  function LibraryIndex(t: TaskType): (i: nat)
    ensures i < LibrarySize
  {
    match t
    case LaunchBrowser => 0
    case PageToHtml => 1
    case ExtractTextFromElement => 2
    case ExtractDataWithAi => 3
    case FillInput => 4
    case ClickElement => 5
    case WaitForElement => 6
    case ReadPropertyFromJson => 7
    case AddPropertyToJson => 8
    case NavigateUrl => 9
    case ScrollToElement => 10
    case DeliverViaWebhook => 11
    case AiResearchAssistant => 12
    case TranslateText => 13
    case DetectLanguage => 14
    case GenerateDocument => 15
    case ExportToCsv => 16
    case ExportToPowerBi => 17
    case ExportToPdf => 18
  }

  /** Each task type has an entry: the one at its index. */
  lemma TypeAtIndex(t: TaskType)
    ensures TypeAt(LibraryIndex(t)) == t
  {
  }

  /**
   * The library has one entry for each of the 19 task types, `t`'s entry
   * at `LibraryIndex(t)`; so no two entries share a type.
   */
  lemma LibraryTypes()
    ensures |Library()| == 19
    ensures forall t: TaskType :: Library()[LibraryIndex(t)] == Entry(t)
    ensures forall i, j :: 0 <= i < j < |Library()| ==> Library()[i].taskType != Library()[j].taskType
  {
    var lib := Library();
    forall t: TaskType ensures lib[LibraryIndex(t)] == Entry(t) {
      TypeAtIndex(t);
    }
    forall i, j | 0 <= i < j < |lib| ensures lib[i].taskType != lib[j].taskType {
      assert LibraryIndex(lib[i].taskType) == i && LibraryIndex(lib[j].taskType) == j;
    }
  }

  /** Only the research assistant is flagged as a place to start a workflow. */
  lemma EntryPoints(t: TaskType)
    ensures Entry(t).isEntryPoint <==> t == AiResearchAssistant
  {
  }

  /**
   * The library prices a browser launch at 5 credits, while the task
   * registry charges 1 for it: the details panel's total is not what a run
   * costs.
   */
  lemma LaunchCostsDiffer(unseen: Unseen)
    ensures Entry(LaunchBrowser).credits == 5
    ensures Task(unseen, LaunchBrowser).credits == 1
  {
    ShownCredits(unseen);
  }

  /**
   * The picker's search test for one entry: an empty query matches all, and
   * otherwise the lower-cased query must occur in the lower-cased name, the
   * description or one of the examples.
   */
  predicate Matches(c: Component, query: string) {
    var q := Lower(query);
    || q == ""
    || Contains(Lower(c.name), q)
    || Contains(Lower(c.description), q)
    || exists i :: 0 <= i < |c.examples| && Contains(Lower(c.examples[i]), q)
  }

  /** `COMPONENT_LIBRARY.filter(...)`, on any list of entries. */
  function Search(components: seq<Component>, query: string): (r: seq<Component>)
    ensures |r| <= |components|
  {
    if components == [] then []
    else (if Matches(components[0], query) then [components[0]] else []) + Search(components[1..], query)
  }

  /** An entry is found exactly when it is in the list and matches the query. */
  lemma {:induction false} SearchMembers(components: seq<Component>, query: string, c: Component)
    ensures c in Search(components, query) <==> c in components && Matches(c, query)
  {
    if components != [] {
      SearchMembers(components[1..], query, c);
      assert components == [components[0]] + components[1..];
    }
  }

  /** The search keeps the library's order: it distributes over concatenation. */
  lemma {:induction false} SearchConcat(a: seq<Component>, b: seq<Component>, query: string)
    ensures Search(a + b, query) == Search(a, query) + Search(b, query)
  {
    if a == [] {
      assert a + b == b;
    } else {
      var head := if Matches(a[0], query) then [a[0]] else [];
      var x, y := Search(a[1..], query), Search(b, query);
      assert (a + b)[0] == a[0] && (a + b)[1..] == a[1..] + b;
      assert Search(a + b, query) == head + Search(a[1..] + b, query);
      SearchConcat(a[1..], b, query);
      assert head + (x + y) == (head + x) + y;
    }
  }

  /** An empty query lists the whole library, in order. */
  lemma {:induction false} EmptySearch(components: seq<Component>)
    ensures Search(components, "") == components
  {
    if components != [] {
      EmptySearch(components[1..]);
      assert Matches(components[0], "");
    }
  }

  /** `Use ${component.name} to ${component.description.toLowerCase()}`. */
  function ClickText(c: Component): (r: string)
    ensures StartsWith(r, "Use " + c.name + " to ")
    ensures r[|"Use " + c.name + " to "|..] == Lower(c.description)
  {
    var head := "Use " + c.name + " to ";
    assert (head + Lower(c.description))[..|head|] == head;
    head + Lower(c.description)
  }
}
