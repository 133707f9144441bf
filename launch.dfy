/**
 * `start_scraping` (main.py): read and trim the form inputs, report the first
 * failing input check, resolve the CSS selector from the category table, run
 * the connectivity test, and start the scrape only when it says "successful".
 */
module Launch {
  import opened Wrappers
  import opened Text
  import opened Egress

  const WholeWebsite := "Whole Website"
  const Custom := "Custom"
  const DefaultTorControlPort := 9051

  const MissingUrl := "Please enter a URL."
  const MissingSelector := "Please select a CSS selector or use a custom one."
  const MissingCustomSelector := "Please enter a custom CSS selector."
  const MissingProxyAddress := "Please enter a proxy address."

  /** `CSS_SELECTORS`: category → label → selector. The table's `"Custom": ""`
      entry is not a category table and is never indexed, so it is not here. */
  const CssSelectors: map<string, map<string, string>> := map[
    "Whole Website" := map[
      "Entire Page" := "*"
    ],
    "Basic Elements" := map[
      "All Elements" := "*",
      "Headings (h1-h6)" := "h1, h2, h3, h4, h5, h6",
      "Paragraphs (p)" := "p",
      "Spans (span)" := "span",
      "Divs (div)" := "div",
      "Links (a)" := "a",
      "Images (img)" := "img",
      "Forms (form)" := "form",
      "Buttons (button)" := "button",
      "Inputs (input)" := "input",
      "Textareas (textarea)" := "textarea"
    ],
    "Headings" := map[
      "Heading 1 (h1)" := "h1",
      "Heading 2 (h2)" := "h2",
      "Heading 3 (h3)" := "h3",
      "Heading 4 (h4)" := "h4",
      "Heading 5 (h5)" := "h5",
      "Heading 6 (h6)" := "h6"
    ],
    "Text" := map[
      "Paragraphs" := "p",
      "Strong Text (strong)" := "strong",
      "Emphasized Text (em)" := "em",
      "Line Breaks (br)" := "br"
    ],
    "Lists" := map[
      "Unordered Lists (ul)" := "ul",
      "Ordered Lists (ol)" := "ol",
      "List Items (li)" := "li"
    ],
    "Tables" := map[
      "Tables" := "table",
      "Table Headers (th)" := "th",
      "Table Rows (tr)" := "tr",
      "Table Data Cells (td)" := "td"
    ],
    "Media" := map[
      "Links" := "a",
      "Images" := "img",
      "Audio (audio)" := "audio",
      "Video (video)" := "video"
    ],
    "Attributes" := map[
      "Links with href attribute" := "a[href]",
      "Images with src attribute" := "img[src]",
      "Elements with specific id" := "#example-id",
      "Elements with specific class" := ".example-class",
      "Elements with data attribute" := "[data-value]",
      "Links with rel='nofollow'" := "a[rel='nofollow']",
      "Images with alt text" := "img[alt]"
    ],
    "Combinators" := map[
      "Child elements" := "parent > child",
      "Descendant elements" := "ancestor descendant",
      "Adjacent sibling elements" := "previous + next",
      "General sibling elements" := "element ~ siblings"
    ],
    "Pseudo-classes" := map[
      "First child" := ":first-child",
      "Last child" := ":last-child",
      "Nth child (even)" := ":nth-child(even)",
      "Nth child (odd)" := ":nth-child(odd)",
      "Hover state" := ":hover",
      "Focus state" := ":focus"
    ],
    "Forms" := map[
      "Input fields" := "input[type='text']",
      "Password fields" := "input[type='password']",
      "Submit buttons" := "input[type='submit'], button[type='submit']",
      "Checkboxes" := "input[type='checkbox']",
      "Radio buttons" := "input[type='radio']",
      "Select dropdowns" := "select",
      "Option elements" := "option"
    ]
  ]

  /** The widget values `start_scraping` reads, before trimming. */
  datatype Inputs = Inputs(
    url: string,
    networkOption: string,
    proxyAddress: string,
    torControlPort: string,
    category: string,
    selectorValue: string,
    customSelector: string,
    torSocksIp: string,
    torSocksPort: int)

  /** What one press of the scrape button does. */
  datatype Launch =
    | TorPortNotAnInteger               // `int(self.tor_port.get())` raised `ValueError`
    | Rejected(message: string)         // an input check failed; the message is shown
    | SelectorMissing                   // `CSS_SELECTORS[category][value]` raised `KeyError`
    | ConnectionRefused(status: string) // the connectivity test did not say "successful"
    | Started(url: string, selector: string, networkOption: string, proxyAddress: string, torControlPort: int)

  /** The input checks in their fixed order; the message of the first that fails. */
  function Validate(url: string, networkOption: string, proxyAddress: string,
                    category: string, selectorValue: string, customSelector: string): Option<string>
  {
    if url == "" then Some(MissingUrl)
    else if category != Custom && selectorValue == "" && category != WholeWebsite then Some(MissingSelector)
    else if category == Custom && customSelector == "" then Some(MissingCustomSelector)
    else if networkOption == HttpProxyOption && proxyAddress == "" then Some(MissingProxyAddress)
    else None
  }

  /** Each message is reported exactly when its check fails and every earlier
      check passed; nothing is reported exactly when all four pass. */
  lemma ValidateReportsFirstFailure(url: string, networkOption: string, proxyAddress: string,
                                    category: string, selectorValue: string, customSelector: string)
    ensures var r := Validate(url, networkOption, proxyAddress, category, selectorValue, customSelector);
      var selectorOk := category == Custom || category == WholeWebsite || selectorValue != "";
      var customOk := category != Custom || customSelector != "";
      var proxyOk := networkOption != HttpProxyOption || proxyAddress != "";
      && (r == Some(MissingUrl) <==> url == "")
      && (r == Some(MissingSelector) <==> url != "" && !selectorOk)
      && (r == Some(MissingCustomSelector) <==> url != "" && selectorOk && !customOk)
      && (r == Some(MissingProxyAddress) <==> url != "" && selectorOk && customOk && !proxyOk)
      && (r == None <==> url != "" && selectorOk && customOk && proxyOk)
  {
    assert |MissingUrl| == 19 && |MissingSelector| == 49 && |MissingCustomSelector| == 35 && |MissingProxyAddress| == 29;
  }

  /** The selector the scrape uses: `*` for the whole website, the table entry
      for a listed category, the entered text for a custom selector. */
  function ResolveSelector(category: string, selectorValue: string, customSelector: string): Result<string>
  {
    if category == WholeWebsite then Ok("*")
    else if category != Custom then
      if category in CssSelectors && selectorValue in CssSelectors[category]
      then Ok(CssSelectors[category][selectorValue])
      else Err("KeyError")
    else Ok(customSelector)
  }

  /** Every selector in the table is non-empty. */
  lemma TableSelectorsNonEmpty()
    ensures forall c, v :: c in CssSelectors && v in CssSelectors[c] ==> CssSelectors[c][v] != ""
  {
  }

  /** Once the checks pass, the resolved selector is never empty, and the table
      lookup fails exactly for a category/label pair the table does not list. */
  lemma ResolvedSelectorNonEmpty(url: string, networkOption: string, proxyAddress: string,
                                 category: string, selectorValue: string, customSelector: string)
    requires Validate(url, networkOption, proxyAddress, category, selectorValue, customSelector) == None
    ensures var r := ResolveSelector(category, selectorValue, customSelector);
      && (r.Ok? ==> r.value != "")
      && (r.Err? <==> category != WholeWebsite && category != Custom
                      && !(category in CssSelectors && selectorValue in CssSelectors[category]))
      && (category == Custom ==> r == Ok(customSelector))
      && (category == WholeWebsite ==> r == Ok("*"))
  {
    TableSelectorsNonEmpty();
  }

  /** `int(self.tor_port.get()) if self.tor_port.get() else DEFAULT_TOR_CONTROL_PORT`;
      `None` where `int()` raises. */
  function ControlPort(text: string): Option<int>
  {
    if text != "" then ParseInt(text) else Some(DefaultTorControlPort)
  }

  /** `start_scraping` after the control port was read: checks, selector, connection test. */
  function Proceed(inputs: Inputs, torControlPort: int, probe: (string, ProxyMap) -> ProbeOutcome): (r: Launch)
    ensures r != TorPortNotAnInteger
    ensures r.Started? ==> r.torControlPort == torControlPort
  {
    var url := Strip(inputs.url);
    var proxyAddress := Strip(inputs.proxyAddress);
    var customSelector := Strip(inputs.customSelector);
    match Validate(url, inputs.networkOption, proxyAddress, inputs.category, inputs.selectorValue, customSelector)
    case Some(message) => Rejected(message)
    case None =>
      match ResolveSelector(inputs.category, inputs.selectorValue, customSelector)
      case Err(_) => SelectorMissing
      case Ok(selector) =>
        var status := TestConnection(inputs.networkOption, proxyAddress, inputs.torSocksIp, inputs.torSocksPort, probe);
        if StatusAllowsScraping(status) then Started(url, selector, inputs.networkOption, proxyAddress, torControlPort)
        else ConnectionRefused(status)
  }

  /** `start_scraping`, with `probe` standing for the connectivity test's request. */
  function StartScraping(inputs: Inputs, probe: (string, ProxyMap) -> ProbeOutcome): Launch
  {
    match ControlPort(inputs.torControlPort)
    case None => TorPortNotAnInteger
    case Some(port) => Proceed(inputs, port, probe)
  }

  /**
   * Once the control port is read, the scrape starts exactly when the trimmed
   * inputs pass the checks, the selector resolves and the probe got a response
   * (for Tor, one carrying the Tor confirmation); it then starts on the trimmed
   * URL with a non-empty selector, and with a non-empty proxy address for an
   * HTTP proxy.
   */
  lemma ProceedGate(inputs: Inputs, torControlPort: int, probe: (string, ProxyMap) -> ProbeOutcome)
    requires var o := probe(TestUrl(inputs.networkOption),
                            ConnectionProxies(inputs.networkOption, Strip(inputs.proxyAddress), inputs.torSocksIp, inputs.torSocksPort));
      !o.Responded? ==> !Contains(o.message, "successful")
    ensures var r := Proceed(inputs, torControlPort, probe);
      var o := probe(TestUrl(inputs.networkOption),
                     ConnectionProxies(inputs.networkOption, Strip(inputs.proxyAddress), inputs.torSocksIp, inputs.torSocksPort));
      var url := Strip(inputs.url);
      var proxyAddress := Strip(inputs.proxyAddress);
      var customSelector := Strip(inputs.customSelector);
      && (r.Started? <==>
            && Validate(url, inputs.networkOption, proxyAddress, inputs.category, inputs.selectorValue, customSelector) == None
            && ResolveSelector(inputs.category, inputs.selectorValue, customSelector).Ok?
            && o.Responded? && (inputs.networkOption == TorOption ==> Contains(o.text, TorConfirmation)))
      && (r.Started? ==>
            && r.url == url && r.url != ""
            && r.selector != ""
            && (inputs.networkOption == HttpProxyOption ==> r.proxyAddress != ""))
  {
    var url := Strip(inputs.url);
    var proxyAddress := Strip(inputs.proxyAddress);
    var customSelector := Strip(inputs.customSelector);
    TestConnectionGate(inputs.networkOption, proxyAddress, inputs.torSocksIp, inputs.torSocksPort, probe);
    if Validate(url, inputs.networkOption, proxyAddress, inputs.category, inputs.selectorValue, customSelector) == None {
      ResolvedSelectorNonEmpty(url, inputs.networkOption, proxyAddress, inputs.category, inputs.selectorValue, customSelector);
    }
  }

  /** Without the hypothesis of `ProceedGate` the scrape can start with no
      response: once the checks pass and the selector resolves, a probe that
      raised with a message saying "successful" starts it. */
  lemma ProceedOnEchoedSuccess(inputs: Inputs, torControlPort: int, probe: (string, ProxyMap) -> ProbeOutcome)
    requires Validate(Strip(inputs.url), inputs.networkOption, Strip(inputs.proxyAddress),
                      inputs.category, inputs.selectorValue, Strip(inputs.customSelector)) == None
    requires ResolveSelector(inputs.category, inputs.selectorValue, Strip(inputs.customSelector)).Ok?
    requires var o := probe(TestUrl(inputs.networkOption),
                            ConnectionProxies(inputs.networkOption, Strip(inputs.proxyAddress), inputs.torSocksIp, inputs.torSocksPort));
      !o.Responded? && Contains(o.message, "successful")
    ensures Proceed(inputs, torControlPort, probe).Started?
  {
    FailedProbeSayingSuccessfulPasses(inputs.networkOption, Strip(inputs.proxyAddress), inputs.torSocksIp, inputs.torSocksPort, probe);
  }

  /**
   * The scrape starts exactly when the control port parses and the rest of
   * `start_scraping` lets it start, as `ProceedGate` states; an empty control
   * port field starts it on the default control port.
   */
  lemma StartScrapingGate(inputs: Inputs, probe: (string, ProxyMap) -> ProbeOutcome)
    requires var o := probe(TestUrl(inputs.networkOption),
                            ConnectionProxies(inputs.networkOption, Strip(inputs.proxyAddress), inputs.torSocksIp, inputs.torSocksPort));
      !o.Responded? ==> !Contains(o.message, "successful")
    ensures var r := StartScraping(inputs, probe);
      var o := probe(TestUrl(inputs.networkOption),
                     ConnectionProxies(inputs.networkOption, Strip(inputs.proxyAddress), inputs.torSocksIp, inputs.torSocksPort));
      var url := Strip(inputs.url);
      var proxyAddress := Strip(inputs.proxyAddress);
      var customSelector := Strip(inputs.customSelector);
      && (r.Started? <==>
            && (inputs.torControlPort == "" || ParseInt(inputs.torControlPort).Some?)
            && Validate(url, inputs.networkOption, proxyAddress, inputs.category, inputs.selectorValue, customSelector) == None
            && ResolveSelector(inputs.category, inputs.selectorValue, customSelector).Ok?
            && o.Responded? && (inputs.networkOption == TorOption ==> Contains(o.text, TorConfirmation)))
      && (r.Started? ==>
            && r.url == url && r.url != ""
            && r.selector != ""
            && (inputs.networkOption == HttpProxyOption ==> r.proxyAddress != ""))
      && (r.Started? && inputs.torControlPort == "" ==> r.torControlPort == DefaultTorControlPort)
  {
    match ControlPort(inputs.torControlPort)
    case None =>
    case Some(port) =>
      ProceedGate(inputs, port, probe);
  }

  /** A control port typed as the decimal spelling of a number is read as that number. */
  lemma TorControlPortParses(inputs: Inputs, port: int, probe: (string, ProxyMap) -> ProbeOutcome)
    requires inputs.torControlPort == IntToString(port)
    ensures StartScraping(inputs, probe) != TorPortNotAnInteger
    ensures StartScraping(inputs, probe).Started? ==> StartScraping(inputs, probe).torControlPort == port
  {
    ParseIntOfIntToString(port);
  }
}
