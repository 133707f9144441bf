# Web-Scraper-Tor, modelled in Dafny

Web-Scraper-Tor is a desktop scraper. It fetches a page directly, through an HTTP proxy or through Tor's SOCKS port. It selects elements by CSS selector and shows, saves or exports their text. This project models the decision logic of that program and proves what it promises:

- **Egress choice.** The `proxies` map built for each network option. The connectivity test, its status string, and the gate that string opens for scraping.
- **Proxy pool rotation.** The rotation of `ScrapeThread.run`: probe the entry at the cursor, advance on success, `pop` on failure, and give up once the pool is empty.
- **Start-up checks.** The ordered input checks of `start_scraping` and the resolution of its CSS selector table.
- **Login and forms.**
  - The login form filling of `perform_login`.
  - The login-form detection, credential update and request dispatch of `FormSubmitter`.
  - The logged-in heuristic.
- **Output.**
  - The `torrc` control-line filter.
  - The newline join of scraped texts and the Markdown paragraph form.
- **Pagination and CSV.**
  - The page cursor of `PaginationHandler`: the `page` query rewrite, page-count detection, and the paging loop that skips page 2.
  - The CSV row projection of `CSVExporter`.

Network requests, HTML parsing and CSS matching are parameters: oracles from URL to outcome and lists of already-parsed elements and forms. `urljoin` is a parameter too. The random user-agent draw is a number passed in.

Modules:
- `Wrappers`: `Option` and `Result`.
- `Text`: Python string operations.
- `Html`: elements and forms as records.
- `Urls`: `urlsplit`, `parse_qs` and `urlencode` over the query component.
- `Egress`, `ProxyRotation`, `Launch`, `Login`, `TorConfig` and `Output`: main.py.
- `Pagination` and `CsvExport`: modules/pagination_csv.py.
- `FormSubmission`: modules/form_submission.py.

Imperative code is modelled imperatively:
- `ScrapeThread` is a class over `proxyList` and `currentProxyIndex`.
- `PaginationHandler` is a class over `baseUrl`, `currentPage` and `totalPages`.
- `FormData` is a class whose `inputs` are updated in place.
- The loops of `perform_login`, `remove_tor_passwords` and `detect_login_form` are `for` loops, each proved equal to a reference function.

## Model

| member | source | states |
|---|---|---|
| Egress.BothSchemes | main.py:123-131 | the map has exactly the keys `http` and `https`, both holding the one proxy URL |
| Egress.HttpProxyMap | main.py:122-126 | an HTTP proxy sends both schemes to `http://` + address |
| Egress.TorProxyMap | main.py:127-131 | Tor sends both schemes to `socks5h://ip:port` |
| Egress.ConnectionProxiesByOption | main.py:121-131 | HTTP proxy and Tor maps as above; every other option gives the empty map, and the map is empty exactly for those options |
| Egress.TestUrlByOption | main.py:133 | the Tor check page is probed exactly for the Tor option; every other option probes the IP echo service |
| Egress.TorNotConfirmedIsNotSuccess | main.py:141 | the Tor failure message does not contain "successful" |
| Egress.SuccessStatusSaysSuccessful | main.py:142 | the success status contains "successful" |
| Egress.FailureStatus | main.py:143-146 | a failure status, a fixed prefix without an `s` and then a message that does not say "successful", never lets scraping start |
| Egress.TestConnectionGate | main.py:135-146 | provided a failed probe's own message does not say "successful": the status lets scraping start iff the probe got a response and, for Tor, the response contains the exact Tor confirmation marker; a status that passes is then exactly "Connection successful!" |
| Egress.FailedProbeSayingSuccessfulPasses | main.py:143-146 | a probe that raised with a message that itself says "successful" (an echoed URL or proxy address) gives a status that lets scraping start, although nothing responded |
| Egress.RandomUserAgent | main.py:108-117 | the user agent is one of the five fixed strings |
| Egress.RequestHeaders | main.py:172-174 | with rotation on, the headers are exactly a `User-Agent` from the list; otherwise they are empty |
| Egress.SettingsTorProxyMap | main.py:207-208 | the Tor map of `run` uses the settings' SOCKS IP and port, defaulting to `socks5h://127.0.0.1:9150` |
| Egress.DefaultTorProxy | main.py:207-208 | the default Tor endpoint is `socks5h://127.0.0.1:9150` for both schemes |
| ProxyRotation.RemoveAt | main.py:199 | `pop(i)` removes exactly entry `i`: entries before it stay in place and later ones shift down by one |
| ProxyRotation.WrapCursor | main.py:202-203 | after a pop the cursor is always in range of the shortened list: a cursor at or past its end goes back to 0, and a cursor already in range is kept |
| ProxyRotation.FirstAlive | main.py:182-204 | the index of the first live entry: all before it are dead, and the one there is alive |
| ProxyRotation.ScrapeThread.RotateProxy | main.py:178-204 | the loop's outcome, new list, new cursor and probe count equal the closed form `Expected`; with the cursor out of range it reports the raise and changes nothing; the cursor stays in bounds |
| ProxyRotation.ScrapeThread.ResolveProxies | main.py:176-208 | the `proxies` of `run`: rotation for an HTTP proxy with a pool; "All proxies failed" when it is exhausted; the configured address without a pool; the settings' SOCKS endpoint for Tor; none otherwise |
| ProxyRotation.ExpectedWhenAlive | main.py:184-196 | a live entry at the cursor is used after one probe, the list is unchanged, and the cursor becomes `(old+1) mod len` |
| ProxyRotation.ExpectedWhenDead | main.py:197-204 | a dead entry at the cursor: the rotation is that of the list without it, from the wrapped cursor, plus one probe |
| ProxyRotation.CyclicOrderAfterPop | main.py:199-203 | after popping the cursor's entry, the visiting order from the wrapped cursor is the old order minus its head |
| ProxyRotation.ExpectedShape | main.py:180-204 | the probe count is between 1 and the initial length; an empty list means exhaustion, after exactly initial-length probes with the cursor at 0; after a selection the cursor is in range and one entry was dropped per failed probe |
| ProxyRotation.ExhaustedIffAllDead | main.py:200-201 | "All proxies failed" happens iff every entry is dead |
| ProxyRotation.AllDeadProbesEveryEntry | main.py:180-201 | with every entry dead the list ends empty after exactly initial-length probes; the loop never runs out of retries without a success |
| ProxyRotation.SkippedAreDead | main.py:197-204 | every entry passed over before the choice is dead |
| ProxyRotation.SelectedIsLiveSurvivor | main.py:184-204 | the chosen proxy is live and stays in the list; every live entry survives; the survivors keep their relative order |
| ProxyRotation.SliceSubsequence | main.py:199 | cutting out a run of entries leaves the rest in order |
| ProxyRotation.AllAliveRoundRobin | main.py:195 | with every probe succeeding, the i-th successive scrape uses `proxies[(cursor+i) mod n]` |
| Launch.ValidateReportsFirstFailure | main.py:643-650 | each error message is shown iff its check fails and every earlier check passed; none is shown iff all four pass |
| Launch.TableSelectorsNonEmpty | main.py:23-104 | every selector in the `CSS_SELECTORS` table is non-empty |
| Launch.ResolvedSelectorNonEmpty | main.py:651-655 | after validation the selector is non-empty; "Whole Website" gives `*` and "Custom" the entered text; the lookup fails iff the table lacks the category/label pair |
| Launch.ProceedGate | main.py:632-661 | provided a failed probe's own message does not say "successful": once the control port is read, scraping starts iff the trimmed inputs pass the checks, the selector resolves and the connection test succeeds; it then runs on the trimmed, non-empty URL with a non-empty selector, and with a non-empty proxy address for an HTTP proxy |
| Launch.StartScrapingGate | main.py:630-661 | under the same proviso on a failed probe's message: scraping starts iff the control port parses and the rest of `start_scraping` lets it, as above; an empty control-port field gives the default port 9051 |
| Launch.ProceedOnEchoedSuccess | main.py:651-661 | without that proviso the scrape can start with no response: once the checks pass and the selector resolves, a probe that raised with a message saying "successful" starts it |
| Launch.TorControlPortParses | main.py:636 | a control port typed as a decimal number is read as that number |
| Text.ParseIntOfIntToString | main.py:636 | `int(str(i)) == i` for every integer, negative ones included |
| Text.Strip | main.py:632-639 | `strip()` leaves a text with no white space at either end, cut out of the input between two runs of white space |
| Text.StripIdempotent | main.py:632-639 | stripping twice is stripping once |
| Text.SplitJoinRoundTrip | main.py:757-758 | joining the pieces of a split at `c` with `c` gives back the text |
| Text.JoinSplitRoundTrip | main.py:242 | splitting at `c` a join with `c` of pieces without `c` gives back the pieces |
| Text.JoinSplitIsReplace | main.py:757-758 | joining the pieces of a split at `c` with `rep` replaces every `c` by `rep` |
| Login.LoginData | main.py:596-607 | the loop builds exactly `Fill` of the form's inputs |
| Login.FillCharacterised | main.py:598-607 | the data has a key iff some input has that non-empty name; its value is what the last such input calls for: the username for text or email, the password for password, otherwise the input's `value` or '' |
| Login.EmptyNameNeverPosted | main.py:601 | no entry is posted under the empty name |
| Login.LoginUrlExtendsAsWritten | main.py:610 | as written, the post URL is the page URL without an action and an error with one; as intended, a present action is resolved against the page URL |
| Login.AsWrittenFailsWithAction | main.py:610-628 | as written, a first form with an action always ends in "Login error: 'Response' object has no attribute 'urljoin'" |
| Login.AsWrittenRejectsWorkingLogin | main.py:610-618 | a form posting to `/session` that the server accepts is reported as failed as written, and as logged in when the action is resolved |
| Login.PerformLoginSucceedsIff | main.py:583-628 | login succeeds iff the page has a form, the post of its filled data to the resolved URL returns, and the response ends at the page URL or mentions "logout" |
| Login.AsWrittenAgreesWithoutAction | main.py:610 | without an action, the written and the intended login return the same result |
| TorConfig.RemoveTorPasswords | main.py:946-953 | the loop builds exactly `Kept` of the lines |
| TorConfig.KeptExactly | main.py:948-953 | a line is kept iff it occurs in the file and, once stripped, starts with neither "HashedControlPassword" nor "ControlPort" |
| TorConfig.KeptConcat | main.py:947-953 | for any drop test, so for the control-line test: filtering a concatenation filters each part, and the kept lines keep their order |
| TorConfig.KeptIdempotent | main.py:946-953 | filtering twice is filtering once |
| TorConfig.NothingToRemove | main.py:946-953 | a file without control lines is unchanged, and the output never has one |
| Output.Trimmed | main.py:242 | one stripped text per element, in element order |
| Output.ScrapedTextLines | main.py:242 | splitting the joined text at newlines gives back each element's stripped text, provided none spans lines; with `running` false the result is empty |
| Output.MarkdownDoublesLineBreaks | main.py:755-759 | the Markdown text is the stripped text with each line break doubled: one character longer per break, and a single line is unchanged |
| Output.MarkdownIsTrimmed | main.py:757-758 | the Markdown text neither starts nor ends with white space |
| Output.ReplaceLength | main.py:757-758 | replacing a character by `rep` lengthens the text by `\|rep\|-1` per occurrence |
| Urls.CutAt | modules/pagination_csv.py:32 | cutting at the first `c`: the part before has no `c`, and the two parts with `c` between them rebuild the text |
| Urls.SplitUnsplit | modules/pagination_csv.py:32-36 | splitting a URL that `urlunparse` wrote gives back its components |
| Urls.UnsplitSplit | modules/pagination_csv.py:32-36 | rejoining a split URL gives it back unless it ends in an empty query or fragment marker |
| Urls.Lookup | modules/pagination_csv.py:22-23 | a key is found iff the query has an entry for it, and the result is that entry's values |
| Urls.EncodeParseRoundTrip | modules/pagination_csv.py:33-35 | `parse_qs(urlencode(q, doseq=True)) == q` for every query `parse_qs` can produce |
| Urls.ParseQsWellFormed | modules/pagination_csv.py:33 | a parsed query has distinct keys, each with at least one non-empty value; keys hold no `&`, `=` or `#`, and values hold no `&` or `#` |
| Urls.SetParamEntries | modules/pagination_csv.py:34 | `query['page'] = [...]` replaces that key's entry in place, or adds it at the end; every other entry is unchanged |
| Urls.SetParamKeys | modules/pagination_csv.py:34 | the assignment keeps the key order and adds the key last when it was absent |
| Urls.SetParamLookup | modules/pagination_csv.py:34 | after the assignment the key maps to the new values and every other key to what it did |
| Urls.SetParamTwice | modules/pagination_csv.py:34 | assigning a key twice is assigning it once, with the later values |
| Urls.WithParamParts | modules/pagination_csv.py:32-36 | rewriting the query keeps everything before it and the fragment, and the new query parses to the assigned one |
| Pagination.PageUrlParams | modules/pagination_csv.py:32-36 | in the next-page URL `page` is exactly `[str(n)]`, every other parameter is unchanged, and `page` is added last if it was absent |
| Pagination.PageUrlKeepsParts | modules/pagination_csv.py:32-36 | scheme, host, path and fragment are kept |
| Pagination.PageUrlTwice | modules/pagination_csv.py:34-36 | re-paging a page URL is paging the original URL |
| Pagination.PageUrlNonEmpty | modules/pagination_csv.py:36 | a page URL is never empty, so only the page count ends the loop |
| Pagination.NextPageExists | modules/pagination_csv.py:29-36 | there is a next URL iff `current_page < total_pages`, and its `page` parameter is `[str(current_page+1)]` |
| Pagination.PaginationHandler.GetNextPageUrl | modules/pagination_csv.py:27-36 | `None` when `current_page >= total_pages`, otherwise the base URL with `page` set to the next page |
| Pagination.PaginationHandler.DetectPagination | modules/pagination_csv.py:15-25 | no link: False, with `total_pages` untouched; a link: True, and `total_pages` becomes the integer of the last link's first `page` value when it has one; a missing `href` or a non-integer page raises |
| Pagination.TotalFromPageUrl | modules/pagination_csv.py:20-23 | a link built by `get_next_page_url` for page `n` announces `n` pages |
| Pagination.PaginationHandler.Step | modules/pagination_csv.py:48-53 | one pass of the loop: a failed fetch changes nothing and ends the reference run with that error; a fetched page advances the cursor by one and either ends the run (no next URL) or is followed by the run from the new state |
| Pagination.PaginationHandler.ScrapeAllPages | modules/pagination_csv.py:44-54 | the loop's result, URL and cursor equal the reference run `Run` from the old fields; `total_pages` is unchanged |
| Pagination.RunStep | modules/pagination_csv.py:47-53 | one fetched page followed by a next URL: the run continues from page `current+1` with that page's elements in front |
| Pagination.RunFails | modules/pagination_csv.py:47-48 | a fetch that raises, for the URL the run is at, ends the run with that error and leaves URL and cursor as they were |
| Pagination.RunLast | modules/pagination_csv.py:47-53 | a fetched page with no next URL after it ends the run with that page's elements, the cursor one further |
| Pagination.RunCollects | modules/pagination_csv.py:44-54 | when every fetch succeeds, the result is the concatenation of the visited pages' selections in fetch order, and the cursor ends at `max(current+1, total)` |
| Pagination.RunPastEnd | modules/pagination_csv.py:47 | a cursor past the page count fetches nothing and changes nothing |
| Pagination.VisitedPages | modules/pagination_csv.py:47-53 | from page `c` of `T` the fetched URLs are the base URL, then `page = c+2 … T` |
| Pagination.FreshHandlerSkipsPageTwo | modules/pagination_csv.py:47-53 | from a fresh handler (page 1 of 1 pages, as the constructor sets them): one page when T = 1, exactly T-1 pages when T ≥ 2; the URLs are the base URL, then `page=3 … page=T`, so page 2 is never fetched |
| CsvExport.FieldOf | modules/pagination_csv.py:67 | a field is the item's text, its attribute, or '' when the item lacks it |
| CsvExport.ExportRows | modules/pagination_csv.py:63-68 | with a field list: the header is that list, there is one row per item in item order, each row has exactly those fields, and each holds the item's value or '' |
| CsvExport.DefaultFieldsChosen | modules/pagination_csv.py:60-61 | with no field list: `['text','href']` if the first item has `href`, else `['text']`; an empty item list raises |
| CsvExport.DefaultRowsCarryText | modules/pagination_csv.py:60-68 | with defaulted fields every row has the item's text, and an `href` cell exactly when the first item has one |
| CsvExport.FieldsSetting | main.py:263 | the fields `run` passes are the comma-separated parts of the setting, each stripped |
| CsvExport.SettingNeverDefaults | main.py:263-270 | the fields passed by `run` are never empty, so the defaulting never applies there |
| FormSubmission.InputMapKeys | modules/form_submission.py:27 | the inputs map has a key iff some input has that non-empty name |
| FormSubmission.InputMapValues | modules/form_submission.py:27 | a name maps to the `value` (or '') of the last input that carries it |
| FormSubmission.Descriptor | modules/form_submission.py:24-28 | the action is the form's action resolved against the page URL; the method is upper-cased, defaulting to "GET"; the inputs are the named-input map |
| FormSubmission.DetectLoginForm | modules/form_submission.py:15-30 | the loop returns exactly `Reported`, the descriptors of the qualifying forms |
| FormSubmission.PositionsExact | modules/form_submission.py:18-23 | for any test, and so for the login-form test (a username-like input and a password input): the positions strictly increase, each holds a form that passes, and every form that passes is among them |
| FormSubmission.ReportedAtPositions | modules/form_submission.py:18-28 | for any test, so for the login-form test: the j-th reported descriptor is that of the form at the j-th position that passes, in document order |
| FormSubmission.ReportedIff | modules/form_submission.py:18-28 | every qualifying form is reported, and every report comes from a qualifying form |
| FormSubmission.WithCredentials | modules/form_submission.py:35-38 | the update sets `username` and `password` to the credentials' values (`None` when missing) and leaves every other entry unchanged |
| FormSubmission.WithCredentialsIdempotent | modules/form_submission.py:35-38 | submitting twice with the same credentials leaves the same inputs as once |
| FormSubmission.FormData.SubmitLoginForm | modules/form_submission.py:32-52 | `inputs` becomes the credential update of the old inputs, `action` and `method` are kept, and the request is the dispatch on the method |
| FormSubmission.DispatchByMethod | modules/form_submission.py:40-50 | the request is a POST iff the method is "POST", with the action as `Referer`; otherwise it is a GET with the inputs as query parameters |
| FormSubmission.IsLoggedInIgnoresCase | modules/form_submission.py:58 | the logged-in heuristic gives the same answer for an upper-cased body |
| FormSubmission.IsLoggedInSurvivesExtension | modules/form_submission.py:58 | a body judged logged in stays so with any text around it |

## Left out

- The tkinter GUI is not modelled: widgets, progress bar, message boxes, file dialogs and visibility toggles. The values `start_scraping` reads from widgets are inputs.
- Settings persistence and all file reads and writes are left out. This covers `load_settings`, `save_settings`, `load_proxy_list`, and the writes in `save_data`, `remove_tor_passwords` and `CSVExporter.export`. The model keeps the text or rows they would write.
- Network calls are oracles: `test_connection`'s probe, the rotation probe, the page fetch and the login post. The model has no timeouts and no HTTP status semantics beyond "responded" or "raised".
- BeautifulSoup parsing and CSS matching are left out. Elements and forms arrive already parsed, as records of tag, attributes and text.
- CsvExport.FieldOf: it reads a record, not BeautifulSoup's attribute lookup. On a real `Tag`, `getattr` and `hasattr` look for a child tag of that name. The model reads the element's attributes instead, as the exporter evidently intends.
- modules/javascript_rendering.py is not part of this model. It is a Selenium driver wrapper. The branches of `run` that use it, including the missing `get_all_page_urls`, are left out.
- `renew_tor_identity` and `check_tor_connection` are left out. They use the Tor control-port library and network I/O.
- Threading is left out: `stop`, `join` and the `running` flag. Output.ScrapedText reads `running` once for the whole list, while the source checks it per element.
- `time.sleep` delays and float-valued timeouts are left out.
- The status-label updates inside the rotation loop are left out. They are display side effects.
- Egress.RandomUserAgent: `random.choice` is a natural-number draw, and only membership in the fixed list is stated.
- `urljoin` is a function parameter: `resolve` in Login and FormSubmission. Section 5.2 of RFC 3986 is not modelled.
- Urls.SplitUrl: it splits at the first `#` and then the first `?`. It does not normalise scheme, netloc, path or params as `urlparse` and `urlunparse` do.
- Urls.ParseQs: percent-decoding, `+` decoding and percent-encoding in `urlencode` are not modelled. Blank values are dropped as `parse_qs` does.
- Text.Lower and Text.Upper change ASCII letters only. Python's `lower` and `upper` cover all of Unicode.
- Text.ParseInt: `int()` also accepts underscores between digits and non-ASCII digits; the model does not.
- ProxyRotation.ScrapeThread.RotateProxy: `proxy_list` and `current_proxy_index` are never initialised in `ScrapeThread.__init__`. The model takes them as the state the class starts with.
- `requests` is not imported in modules/pagination_csv.py, so a real `PaginationHandler` raises `NameError` on construction. The model assumes the session exists.
- `max_pages` and `page_delay` are passed to `PaginationHandler` but never read, so they are not modelled. `detect_pagination` is never called by `scrape_all_pages`; the model keeps them separate, as the source does.
- Login.PerformLogin: the corrected post URL resolves the action against the requested `url`, not `response.url`. The two differ only when the login page's fetch was redirected, and the page fetch here returns the forms without a final URL. The no-action branch of the source posts to `url` as well.
- Pagination.PaginationHandler.ScrapeAllPages: a failed fetch ends the run with the error and drops the pages already collected, as the exception does in the source.

## Findings

| source | as written | input that shows it | evidently intended | confidence | as-written member | corrected member |
|---|---|---|---|---|---|---|
| main.py:610 | `response.urljoin(form.get('action'))` calls a method that `requests.Response` does not have, so any form with an action raises `AttributeError`, and the login reports "Login error: …" | a login page whose form has `action="/session"`, with a server that accepts the post | resolve the action against the login page's URL and post there; the corrected member uses the requested `url`, which is `response.url` unless the page fetch redirected | not executed | Login.PerformLoginAsWritten, Login.AsWrittenRejectsWorkingLogin | Login.PerformLogin, Login.PerformLoginSucceedsIff |
