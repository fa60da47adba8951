# Verified model of a site crawler and record extractor

This project models the crawl-and-extract core of a small web-scraping
application. Per site, the application:

1. crawls each start URL, following a "next page" link up to `max_pages` turns;
2. fetches every page with headers, a rotating proxy, and a retry policy with
   exponential backoff and CAPTCHA detection;
3. writes every raw page it obtains to a dump directory;
4. turns each page into records with CSS-selector field rules;
5. enriches the records with a timestamp, normalized whitespace and site
   metadata, and drops duplicates.

Modules, one per concern:

- Text: the Python string operations the core uses. These are ASCII
  `lower`/`upper`, substring search, `split`/`join` whitespace collapsing,
  `strip` and `replace`.
- Data: the shared values. These are records (`map<string, Value>`), pages,
  site configuration, and the HTML oracle `Html<N>` (`parse`, `select`,
  `select_one`, `urljoin`).
- Seqs: subsequences, the order-preserving selections that the parser and
  the deduplicator produce, and membership and associativity under `+`.
- Captcha: `maybe_detect_captcha`.
- Proxy: `ProxyManager`, a class with the `itertools.cycle` cursor as an
  explicit index.
- Cleaner: `enrich` rewrites an `array` of records in place;
  `deduplicate` makes one pass over a sequence.
- Parser: `parse_page`, written as its two loops.
- Scraper: `WebScraper`, a class with `fetch` and `crawl_site` written as
  loops.

The network is an oracle `net: (nat, Request) -> Reply`: it receives the
index of the request in the process and the request itself. The scraper
records every request in its field `sent` and every raw dump in its field
`dumps`. Each method is proved equal to a pure function that threads
`NetState` (the requests sent and the proxy cursor). What the crawler
promises is proved as lemmas about those functions. The crawl function
takes its fetch step as a field of `CrawlEnv`; the predicate `Faithful`
ties that field to `FetchStep`, and `SiteEnv` proves it for the environment
`crawl_site` builds.

## Model

| member | source | states |
|---|---|---|
| Text.Lower | utils/captcha_solver.py:26 | `lower` keeps the length of the string |
| Text.LowerOfUpper | utils/captcha_solver.py:26 | lowercasing an uppercased string is lowercasing the string |
| Text.Upper | utils/captcha_solver.py:26 | definition: ASCII uppercasing, used to state that detection ignores case; keeps the length |
| Text.Contains | utils/captcha_solver.py:27 | `hint in low` holds iff the hint occurs at some index |
| Text.ContainsLower | utils/captcha_solver.py:26-27 | an occurrence survives lowercasing both strings |
| Text.Words | src/cleaner.py:26 | definition of `v.split()`: the maximal runs of non-whitespace, each a non-empty word without whitespace |
| Text.Join | src/cleaner.py:26 | definition of `sep.join(parts)` |
| Text.Collapse | src/cleaner.py:26 | definition of `" ".join(v.split())` |
| Text.CollapseNormalized | src/cleaner.py:26 | `" ".join(v.split())` has no leading, trailing, doubled or non-space whitespace |
| Text.CollapseIdempotent | src/cleaner.py:26 | collapsing whitespace twice is collapsing it once |
| Text.CollapseNoSpace | src/cleaner.py:22-26 | a string without whitespace is left unchanged |
| Text.WordsOfJoin | src/cleaner.py:26 | splitting words joined by single spaces gives back the words |
| Text.Strip | src/scraper.py:44 | the stripped line is empty or neither starts nor ends with whitespace |
| Text.StripCutsOnlySpace | src/scraper.py:44 | the stripped line is a middle slice of the line, and everything cut from either end is whitespace |
| Text.Replace | src/scraper.py:144 | definition of `s.replace(pat, rep)`: every non-overlapping occurrence, left to right |
| Text.ReplaceCharRemoves | src/scraper.py:144 | replacing every `/` with `_` leaves no `/` |
| Captcha.AnyHintIn | utils/captcha_solver.py:27 | true iff some hint of the list occurs in the lowercased page |
| Captcha.MaybeDetectCaptcha | utils/captcha_solver.py:9-28 | raises iff one of the seven phrases occurs in the page ignoring case; an empty page never raises |
| Captcha.RecaptchaPageDetected | utils/captcha_solver.py:9-28 | a page reading `reCAPTCHA` raises: the phrase list holds `recaptcha` and the match ignores case |
| Captcha.DetectCaseInsensitive | utils/captcha_solver.py:26-27 | detection does not depend on letter case |
| Captcha.DetectMonotone | utils/captcha_solver.py:27 | a page containing a detected page is detected too |
| Proxy.RoundRobin | utils/proxy_manager.py:31-36 | the k-th proxy handed out is from the list, and there is none iff the list is empty |
| Proxy.RoundRobinPeriodic | utils/proxy_manager.py:31-36 | the rotation repeats with period `len(proxies)` |
| Proxy.RoundRobinFullCycle | utils/proxy_manager.py:31-36 | one full cycle from the start returns the list in order |
| Proxy.RoundRobinRotation | utils/proxy_manager.py:31-36 | any `len(proxies)` consecutive calls return each proxy exactly once, as the list rotated to the cursor |
| Proxy.ProxyManager.Load | utils/proxy_manager.py:19-31 | an unreadable file, or a missing key, gives no proxies or the `round_robin` mode; otherwise the file's values; the cursor starts at 0 |
| Proxy.ProxyManager.NextProxy | utils/proxy_manager.py:33-36 | returns the round-robin proxy of this call's index, or None without proxies; only the cursor moves |
| Cleaner.WithTimestamp | src/cleaner.py:21-22 | definition: the timestamp step, adding `now` only when `timestamp` is absent |
| Cleaner.NormalizeValue | src/cleaner.py:25-26 | definition: whitespace collapsing of a string value; any other value is kept |
| Cleaner.NormalizeAll | src/cleaner.py:24-26 | definition: the whitespace step over every value of the record |
| Cleaner.AddMissing | src/cleaner.py:28-30 | definition: the metadata step, filling only the keys the record lacks |
| Cleaner.Enriched | src/cleaner.py:17-30 | definition: the record `enrich` leaves, the three steps in source order |
| Cleaner.EnrichedFacts | src/cleaner.py:13-31 | an enriched record has its own keys, the metadata keys and `timestamp`; a missing timestamp is `now`; an existing one is kept; own values are normalized; metadata fills only missing keys |
| Cleaner.EnrichedNormalizes | src/cleaner.py:24-26 | every string value ends up whitespace-normalized, and every other value is unchanged |
| Cleaner.EnrichedTimestamp | src/cleaner.py:17-22 | with an ISO-8601 `now`, a new timestamp is exactly `now` |
| Cleaner.NormalizeValueIdempotent | src/cleaner.py:24-26 | normalizing a value twice is normalizing it once |
| Cleaner.NormalizeValues | src/cleaner.py:24-26 | the loop over the record's items rewrites exactly the string values |
| Cleaner.PropagateMetadata | src/cleaner.py:28-30 | the loop over the metadata adds exactly the keys the record lacks |
| Cleaner.Enrich | src/cleaner.py:13-31 | the list is rewritten in place; each record becomes its enriched form, with length and order kept |
| Cleaner.FieldText | src/cleaner.py:40 | definition of `str(r.get(k, ""))` |
| Cleaner.DedupKey | src/cleaner.py:40 | definition: the lowercased key fields joined with `\|` |
| Cleaner.KeepFirst | src/cleaner.py:37-45 | definition: the records that are the first with their key, in input order |
| Cleaner.Deduplicate | src/cleaner.py:33-47 | the one-pass loop with a `seen` set returns the first record of each key, in input order |
| Cleaner.KeepFirstSubsequence | src/cleaner.py:37-45 | the output is the input with records left out, in order |
| Cleaner.KeepFirstKeys | src/cleaner.py:37-45 | the output has exactly the keys of the input |
| Cleaner.KeepFirstDistinct | src/cleaner.py:37-45 | no two output records share a key |
| Cleaner.KeepFirstKeepsFirst | src/cleaner.py:39-45 | the first record with each key is kept |
| Cleaner.KeepFirstOfDistinct | src/cleaner.py:37-45 | a list whose keys are already distinct is returned unchanged |
| Cleaner.DedupIdempotent | src/cleaner.py:33-47 | deduplicating twice is deduplicating once |
| Cleaner.MissingFieldIsEmpty | src/cleaner.py:40 | a missing key field counts as `""` |
| Cleaner.JoinCollision | src/cleaner.py:40 | `("a\|b", "c")` and `("a", "b\|c")` get the same key |
| Cleaner.CaseInsensitiveDuplicate | src/cleaner.py:40 | records differing only in letter case are duplicates, and the later one is dropped |
| Parser.ItemSelector | src/parser.py:21 | the item selector is never empty and defaults to `body` |
| Parser.Containers | src/parser.py:22-25 | there is always a container: the whole document when nothing matches |
| Parser.AttrName | src/parser.py:32 | definition of `(cfg.get("attr") or "text").lower()` |
| Parser.Extract | src/parser.py:31-46 | definition: the value the `try` block leaves, None when the selector is unset, misses, raises or the attribute is missing |
| Parser.FieldValue | src/parser.py:47-48 | definition: a required field falls back to `""` |
| Parser.RecordFor | src/parser.py:29-50 | definition: the record of one container, holding the fields whose value is not None |
| Parser.Extracted | src/parser.py:28-53 | definition: the non-empty records of the containers, in container order |
| Parser.WithSource | src/parser.py:58-59 | definition: `source` from the metadata added to a record lacking it |
| Parser.AttachSource | src/parser.py:56-59 | definition: the `source` loop over all records |
| Parser.Parsed | src/parser.py:13-60 | definition: what `parse_page` returns |
| Parser.BuildRecord | src/parser.py:29-50 | the loop over the field rules builds exactly the record the rules define |
| Parser.ParsePage | src/parser.py:13-60 | the container loop and the `source` loop return the non-empty records in container order, with `source` attached |
| Parser.RequiredFieldPresent | src/parser.py:36-50 | a required field is always present, `""` when the selector is unset, misses or raises |
| Parser.OptionalFieldAbsent | src/parser.py:36-50 | an optional field whose selector is unset, misses or raises is absent |
| Parser.FoundFieldPresent | src/parser.py:37-42 | a found node gives the field its text or attribute value, even an empty one |
| Parser.AttrCaseInsensitive | src/parser.py:32 | the `attr` setting ignores case and defaults to `text` |
| Parser.RecordKeys | src/parser.py:30-50 | record keys are configured field names |
| Parser.RecordsOf | src/parser.py:28-50 | definition: the record of every container, in container order |
| Parser.ExtractedFromContainers | src/parser.py:28-53 | no more records than containers, each the non-empty record of a container |
| Parser.ExtractedInContainerOrder | src/parser.py:28-53 | the records are a subsequence of the containers' records: at most one per container, in container order |
| Parser.ExtractedKeepsNonEmpty | src/parser.py:52-53 | the converse: every container whose record is not empty has that record among the output |
| Parser.RequiredFieldKeepsAll | src/parser.py:47-53 | with a required field configured, every container contributes its record, in container order |
| Parser.ParsedKeepsNonEmpty | src/parser.py:28-60 | every container whose record is not empty has that record, with `source` attached, among the returned records |
| Parser.ParsedRecords | src/parser.py:13-60 | every returned record is non-empty, has every required field and only configured fields plus `source`, and is a container's record with `source` attached only when it lacks one |
| Parser.NoContainersAtMostOne | src/parser.py:23-25 | with no container matched, a page yields at most one record |
| Parser.WithSourceFacts | src/parser.py:56-59 | an extracted `source` is never overwritten; metadata `source` fills only a missing one |
| Scraper.StrippedLines | src/scraper.py:44 | there are no more user agents than lines, and each is non-empty with no whitespace at either end |
| Scraper.StrippedLineFrom | src/scraper.py:44 | a user agent is the stripped form of some line |
| Scraper.StrippedLineKept | src/scraper.py:44 | a line that is not blank after stripping yields a user agent |
| Scraper.StrippedLinesContent | src/scraper.py:44 | every user agent is the stripped form of some line, and every line that is not blank after stripping is among them |
| Scraper.LoadUserAgents | src/scraper.py:39-50 | an unconfigured or unreadable file gives no user agents |
| Scraper.Headers | src/scraper.py:52-62 | headers are the base headers, plus a User-Agent from the list when it is not empty, with site headers overriding both |
| Scraper.ProxyDict | src/scraper.py:64-70 | `proxies` is None iff there is no proxy or it is empty; otherwise both schemes go through it |
| Scraper.SafeName | src/scraper.py:144 | the dump file name has no `/` |
| Scraper.DumpFileFlat | src/scraper.py:141-147 | each dump is one file directly in the site directory |
| Scraper.SiteName | src/scraper.py:109 | definition of `site_cfg.get("name", "site")` |
| Scraper.DumpOf | src/scraper.py:141-147 | definition: the dump of one page, in the site directory under its safe name plus `.html` |
| Scraper.ProxiesOf | src/scraper.py:64-70 | definition: what `_proxies` returns for the manager's current cursor |
| Scraper.Retryable | src/scraper.py:75 | definition: request errors and CAPTCHA detections are retried, nothing else |
| Scraper.AttemptResult | src/scraper.py:79-83 | definition: one attempt's outcome from the reply: request error, other error, CAPTCHA, or the page with its proxies |
| Scraper.AttemptAt | src/scraper.py:78-83 | definition: the outcome of attempt `i` of a call of `fetch`, made with the `i`-th fresh proxy and the `i`-th reply of the network |
| Scraper.Attempts | src/scraper.py:72-83 | the three outcomes `fetch` could see, the `i`-th being attempt `i`'s |
| Scraper.AfterAttempts | src/scraper.py:72-83 | definition: the state after `n` attempts, their requests sent in order and the proxy manager asked `n` times |
| Scraper.AttemptRequest | src/scraper.py:79-80 | definition: the request of one attempt, with a fresh proxy |
| Scraper.RetryPolicy | src/scraper.py:72-77 | the result is the outcome of the last attempt made; every earlier one was retryable; stopping early means it was not |
| Scraper.PolicyStops | src/scraper.py:72-77 | attempts stop exactly at the first non-retryable outcome or at the third one |
| Scraper.FetchStepStops | src/scraper.py:72-83 | when attempt `a` is the first not retried, `fetch` returns its outcome, has made `a` attempts and leaves the state after them |
| Scraper.TwoFailuresThenSuccess | src/scraper.py:72-77 | two request errors then a page return the page after three attempts |
| Scraper.ThreeFailuresReraise | src/scraper.py:73-76 | three retryable failures re-raise the last one |
| Scraper.OtherErrorNotRetried | src/scraper.py:75 | any other exception propagates after one attempt |
| Scraper.BackoffWait | src/scraper.py:74 | a wait between retries lies in 1..8 seconds |
| Scraper.BackoffSchedule | src/scraper.py:74 | the wait starts at 1, doubles, and stays at 8 from the fourth failure on |
| Scraper.Waits | src/scraper.py:73-74 | definition: the sleeps before each retry when `n` attempts were made, the backoff of attempts 1 to `n - 1` |
| Scraper.WaitsSnoc | src/scraper.py:73-74 | each further failed attempt appends its own wait to the schedule |
| Scraper.FetchWaits | src/scraper.py:73-74 | with at most three attempts the waits are a prefix of `[1, 2]` |
| Scraper.FetchStep | src/scraper.py:72-83 | definition: the result of `fetch` and the network state after its attempts |
| Scraper.FetchStepRequests | src/scraper.py:72-83 | `fetch` sends 1 to 3 requests to `url` with the given headers and cookies and a fresh proxy each; a page it returns is for `url` and never one the CAPTCHA detector flags |
| Scraper.IsFileUrl | src/scraper.py:102 | definition of `current_url.startswith("file://")` |
| Scraper.OfflinePage | src/scraper.py:104-105 | definition: the fixed offline page, status 200, marked offline |
| Scraper.Truthy | src/scraper.py:136 | definition: the truth of `el.get(k)`, present and not `""` |
| Scraper.LinkValue | src/scraper.py:136 | definition of `el.get("href") or el.get("data-href")` |
| Scraper.FindNext | src/scraper.py:131-139 | there is a next URL iff the selector is set, finds a node, `href` (or else `data-href`) is a non-empty string, and `urljoin` does not raise; it is that link joined to the page URL |
| Scraper.LinkPreference | src/scraper.py:136 | `href` wins over `data-href`, which is used only when `href` is missing or empty |
| Scraper.SiteEnv | src/scraper.py:85-92 | the loop's fetch is `fetch` with the site's headers, cookies and network |
| Scraper.Step | src/scraper.py:101-107 | definition: one turn's page, the offline page without a request for `file://`, otherwise `fetch` |
| Scraper.CrawlFrom | src/scraper.py:96-127 | definition: the `while` loop of one start URL, its pages and the final network state |
| Scraper.CrawlAll | src/scraper.py:95-129 | definition: the `for` loop over the start URLs |
| Scraper.NextHop | src/scraper.py:112-118 | the loop moves on iff there is a selector and a non-empty link different from the current URL |
| Scraper.CrawlFromRetry | src/scraper.py:119-121 | a CAPTCHA turn retries the same URL with one more turn counted |
| Scraper.CrawlFromNext | src/scraper.py:108-118 | a page with a next link is followed by the pages of that link |
| Scraper.CrawlFromStop | src/scraper.py:112-127 | any other turn is the last one and contributes its page, if any |
| Scraper.StepFacts | src/scraper.py:102-107 | a turn sends at most three requests, all with the crawl's headers, none for `file://`; a fetched page is the page asked for and, unless offline, not flagged as a CAPTCHA |
| Scraper.CrawlFromBounds | src/scraper.py:96-127 | a start URL yields at most `max_pages` pages, none when `max_pages <= 0`, and at most 3 requests per turn |
| Scraper.CrawlFromNoSelector | src/scraper.py:112-113 | without a next selector a start URL yields at most one page |
| Scraper.StepUrl | src/scraper.py:102-107 | a page a turn obtains is the page of the URL asked for |
| Scraper.CrawlFromChain | src/scraper.py:108-118 | the pages of a start URL begin at it; each next page is the link found on the previous one and differs from it |
| Scraper.CrawlFromNoCaptcha | src/scraper.py:82-121 | every page a start URL yields is the offline page or one the CAPTCHA detector does not flag |
| Scraper.CrawlAllAppend | src/scraper.py:95-129 | pages are concatenated in start-URL order; the crawl of a later start URL depends on earlier ones only through the network state |
| Scraper.CrawlFromHeaders | src/scraper.py:92-107 | every request of one start URL carries the crawl's headers |
| Scraper.CrawlAllHeaders | src/scraper.py:92-107 | every request of one `crawl_site` call carries the same headers, so the same User-Agent |
| Scraper.OfflineSite | src/scraper.py:102-105 | a `file://` start URL without pagination yields exactly the fixed offline page and sends nothing |
| Scraper.StepSucceeds | src/scraper.py:107 | when every reply is a non-CAPTCHA response, the turn yields a page |
| Scraper.LinkedCrawlFillsBudget | src/scraper.py:99-118 | when every turn yields a page linking elsewhere, exactly `max_pages` pages are collected, cycles included |
| Scraper.TwoPageCycle | src/scraper.py:99-118 | with `max_pages = 2`, a two-page cycle `a -> b -> a` yields `a` then `b` |
| Scraper.WebScraper.constructor | src/scraper.py:28-39 | the scraper keeps its settings, loads the user agents, and starts with nothing sent or dumped |
| Scraper.WebScraper.Proxies | src/scraper.py:64-70 | `_proxies` returns the dictionary of the next round-robin proxy and advances the cursor by one; the proxy mode is unchanged |
| Scraper.WebScraper.FetchOnce | src/scraper.py:78-83 | attempt `k` of a call of `fetch` sends the `k`-th request of that call with a fresh proxy and classifies the reply: request error, other error, CAPTCHA, or page |
| Scraper.WebScraper.Fetch | src/scraper.py:72-83 | the retry loop ends in the result and network state of `FetchStep`, and waits according to the backoff schedule |
| Scraper.WebScraper.DumpRaw | src/scraper.py:141-147 | one dump of the page under its safe name is appended; nothing is sent |
| Scraper.WebScraper.Visit | src/scraper.py:101-109 | one turn's page is the offline page or `fetch`'s result, and a page obtained is dumped |
| Scraper.WebScraper.CrawlStart | src/scraper.py:96-127 | the `while` loop collects exactly `CrawlFrom`'s pages and dumps each one |
| Scraper.WebScraper.CrawlUrls | src/scraper.py:95-129 | the `for` loop collects exactly `CrawlAll`'s pages and dumps each one |
| Scraper.WebScraper.CrawlSite | src/scraper.py:85-129 | `crawl_site` chooses the headers once and returns the pages of all start URLs in order, each dumped |

## Left out

- Logging (`utils/logger.py`) is left out: it has no effect on results.
- `src/main.py` and `src/exporter.py` are not part of this model. They are the command line, configuration loading and exporters around the core.
- HTTP is an oracle. `requests.get` becomes `net`, which may return a response, raise a request exception, or raise anything else. The reply depends on the request's index and content.
- The HTML parser is an oracle. BeautifulSoup parsing, `select` and `select_one` become the functions of `Html`; `get_text(strip=True)` is the node's `text`.
- `urljoin` is an oracle too. It returns None where Python's `urljoin` raises, for example `ValueError` on a malformed link such as `http://[x`; `FindNext` then ends pagination, as the generic handler of the crawl loop does.
- Time is left out. Tenacity's and `time.sleep`'s timing is not modelled; `_sleep_jitter` and `_sleep_backoff` are no-ops. `Fetch` does return the backoff waits it would sleep.
- Randomness becomes a parameter: `random.choice` of the User-Agent is the `pick` argument, and the jitter values are not modelled.
- `datetime.utcnow().isoformat()` is the `now` argument of `Enrich`.
- Files are modelled as values. The user-agent file becomes `UserAgentSource`, and the proxy JSON file becomes `Option<ProxyFile>`, with None for a read or parse failure. `_dump_raw`'s write becomes an entry in `dumps`.
- Parser.ParsePage: BeautifulSoup parsing and `soup.select(item_selector)` cannot fail in the model. In the source they sit outside any `try`, so a malformed item selector raises out of `parse_page` and aborts the whole job. `Parsed` therefore always returns a list, while `select_one` inside the field loop does have its `Raised` outcome.
- Scraper.WebScraper.DumpRaw: a failed directory creation or file write is not modelled. In the source, such a failure is caught by the crawl loop's generic handler and ends the start URL after its page was collected.
- Scraper.WebScraper.Fetch: the `timeout` argument of `requests.get` is not passed to the network oracle. The oracle already decides whether a call fails.
- Scraper.WebScraper.Fetch: `self.retries` is stored but never used, as in the source. Three attempts are hard-coded in the decorator.
- Cleaner.DedupKey: the SHA-256 digest of the key is replaced by the key string itself. This treats the digest as injective.
- The `Text` functions handle ASCII only: `lower`, `upper`, `split` and `strip` have no Unicode case mapping or Unicode whitespace.
- Records are maps, so the key order of Python dictionaries is not modelled. The field rules are a map too, so fields are processed in no particular order, with the same result.
- Cleaner.Enrich: records are values in an array. Aliasing between list entries, or with other references to the same dict, is not modelled.
- Malformed configuration is out of scope: a `metadata` of null in the parser, a `request` of null in `_headers`, a non-integer `max_pages`, and non-list values of `proxies` or `start_urls`. The model's `SiteConfig` holds already-typed values.
- Proxy.ProxyManager.Load: a `mode` key holding JSON null is read as a missing key. The mode is never used.
- Scraper.FindNext: an attribute value that is a non-empty list counts as a link whose `urljoin` fails, so it ends pagination as in the source. An empty list is treated as truthy.
- The CAPTCHA handler in `crawl_site` retries the same URL with no other bound than `max_pages`. The model keeps this: `CrawlFromRetry` counts each such turn.
- The crawl functions take their fetch step as a field of `CrawlEnv`. Properties that depend on what `fetch` does require `Faithful(env)`, which `SiteEnv` establishes for the environment `crawl_site` uses.
