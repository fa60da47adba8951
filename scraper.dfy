// The fetch client and the site crawler. The network is an oracle that maps
// the n-th request of the process to a reply; the HTML parser and `urljoin`
// are the oracles of `Html`. The methods of `WebScraper` are proved equal to
// pure functions that thread the network state (requests sent, proxy cursor),
// and the crawler's properties are lemmas about those functions.

module Scraper {
  import opened Text
  import opened Data
  import opened Captcha
  import opened Proxy
  import opened Seqs

  // ---------------------------------------------------------------------------
  // Requests, replies and outcomes

  /** The exceptions `fetch` can end with: `requests.RequestException`,
      `CaptchaDetected`, and any other exception. */
  datatype ErrorKind = RequestError | CaptchaError | OtherError

  datatype FetchResult = Fetched(page: Page) | Failed(kind: ErrorKind)

  /** What `requests.get` does: return a response, raise a
      `requests.RequestException`, or raise anything else. */
  datatype Reply = Response(status: int, text: string) | TransportFailure | Unexpected

  /** One `requests.get` call as the network sees it. */
  datatype Request = Request(
    url: string,
    headers: map<string, string>,
    cookies: map<string, string>,
    proxies: Option<map<string, string>>)

  /** One raw page written by `_dump_raw`: site directory, file name, content. */
  datatype RawDump = RawDump(site: string, file: string, html: string)

  /** Where `user_agents` comes from: no file configured, a file that cannot be
      read, or the lines of the file. */
  datatype UserAgentSource = NoUserAgentFile | UnreadableUserAgentFile | UserAgentLines(lines: seq<string>)

  // ---------------------------------------------------------------------------
  // Pure helpers

  /** The stripped, non-blank lines. */
  function StrippedLines(lines: seq<string>): (uas: seq<string>)
    ensures |uas| <= |lines|
    ensures forall i :: 0 <= i < |uas| ==> Trimmed(uas[i])
  {
    if lines == [] then []
    else
      var s := Strip(lines[0]);
      (if s == "" then [] else [s]) + StrippedLines(lines[1..])
  }

  /** A user agent is the stripped form of some line. */
  lemma {:induction false} StrippedLineFrom(lines: seq<string>, u: string)
    requires u in StrippedLines(lines)
    ensures exists k :: 0 <= k < |lines| && u == Strip(lines[k])
  {
    var tail := lines[1..];
    var head := if Strip(lines[0]) == "" then [] else [Strip(lines[0])];
    assert StrippedLines(lines) == head + StrippedLines(tail);
    InAppendSplit(u, head, StrippedLines(tail));
    if u !in head {
      StrippedLineFrom(tail, u);
      var k :| 0 <= k < |tail| && u == Strip(tail[k]);
      assert tail[k] == lines[k + 1];
    }
  }

  /** A line that is not blank once stripped is not lost. */
  lemma {:induction false} StrippedLineKept(lines: seq<string>, k: int)
    requires 0 <= k < |lines| && Strip(lines[k]) != ""
    ensures Strip(lines[k]) in StrippedLines(lines)
  {
    var tail := lines[1..];
    var head := if Strip(lines[0]) == "" then [] else [Strip(lines[0])];
    var rest := StrippedLines(tail);
    assert StrippedLines(lines) == head + rest;
    if k > 0 {
      assert tail[k - 1] == lines[k];
      StrippedLineKept(tail, k - 1);
    }
    InAppend(Strip(lines[k]), head, rest);
  }

  /** The user agents are exactly the stripped lines that are not blank:
      each comes from a line, and no non-blank line is lost. */
  lemma StrippedLinesContent(lines: seq<string>)
    ensures forall u :: u in StrippedLines(lines) ==> exists k :: 0 <= k < |lines| && u == Strip(lines[k])
    ensures forall k :: 0 <= k < |lines| && Strip(lines[k]) != "" ==> Strip(lines[k]) in StrippedLines(lines)
  {
    forall u | u in StrippedLines(lines)
      ensures exists k :: 0 <= k < |lines| && u == Strip(lines[k])
    {
      StrippedLineFrom(lines, u);
    }
    forall k | 0 <= k < |lines| && Strip(lines[k]) != ""
      ensures Strip(lines[k]) in StrippedLines(lines)
    {
      StrippedLineKept(lines, k);
    }
  }

  /** `_load_user_agents`, guarded by `if ua_file`: a missing or unreadable
      file gives no user agents. */
  function LoadUserAgents(src: UserAgentSource): (uas: seq<string>)
    ensures !src.UserAgentLines? ==> uas == []
  {
    match src
    case UserAgentLines(lines) => StrippedLines(lines)
    case _ => []
  }

  const BaseHeaders: map<string, string> := map[
    "Accept" := "text/html,application/xhtml+xml,application/xml;q=0.9,*/*;q=0.8",
    "Accept-Language" := "en-US,en;q=0.9",
    "Connection" := "close"
  ]

  /** `_headers`: the base headers, a User-Agent drawn from the list when there
      is one (`pick` stands for the draw of `random.choice`), and the site's
      headers on top. */
  function Headers(userAgents: seq<string>, pick: nat, site: SiteConfig): (h: map<string, string>)
    ensures h.Keys == BaseHeaders.Keys + site.headers.Keys + (if userAgents == [] then {} else {"User-Agent"})
    ensures forall k :: k in site.headers ==> h[k] == site.headers[k]
    ensures forall k :: k in BaseHeaders && k !in site.headers ==> h[k] == BaseHeaders[k]
    ensures userAgents != [] && "User-Agent" !in site.headers ==> h["User-Agent"] in userAgents
  {
    var base := if userAgents == [] then BaseHeaders
      else BaseHeaders["User-Agent" := userAgents[pick % |userAgents|]];
    base + site.headers
  }

  /** The `proxies` argument for one proxy: both schemes through it, or None
      when there is no usable proxy. */
  function ProxyDict(proxy: Option<string>): (d: Option<map<string, string>>)
    ensures d.Some? <==> proxy.Some? && proxy.value != ""
    ensures d.Some? ==>
      d.value.Keys == {"http", "https"} && d.value["http"] == proxy.value && d.value["https"] == proxy.value
  {
    if proxy.None? || proxy.value == "" then None
    else Some(map["http" := proxy.value, "https" := proxy.value])
  }

  /** The file name `_dump_raw` derives from a URL. */
  function SafeName(url: string): (s: string)
    ensures '/' !in s
  {
    ReplaceCharRemoves(Replace(url, "://", "_"), '/', "_");
    Replace(Replace(url, "://", "_"), "/", "_")
  }

  function DumpOf(site: string, page: Page): RawDump {
    RawDump(site, SafeName(page.url) + ".html", page.html)
  }

  function DumpsOf(site: string, pages: seq<Page>): seq<RawDump> {
    seq(|pages|, i requires 0 <= i < |pages| => DumpOf(site, pages[i]))
  }

  lemma DumpsOfAppend(site: string, a: seq<Page>, b: seq<Page>)
    ensures DumpsOf(site, a + b) == DumpsOf(site, a) + DumpsOf(site, b)
  {
    var l := DumpsOf(site, a + b);
    var r := DumpsOf(site, a) + DumpsOf(site, b);
    forall i | 0 <= i < |l|
      ensures l[i] == r[i]
    {
      if i < |a| {
        assert (a + b)[i] == a[i];
      } else {
        assert (a + b)[i] == b[i - |a|];
      }
    }
  }

  /** Whatever the URL, the dump's file name has no path separator. */
  lemma DumpFileFlat(site: string, page: Page)
    ensures '/' !in DumpOf(site, page).file
  {
    assert DumpOf(site, page).file == SafeName(page.url) + ".html";
  }

  /** `site_cfg.get("name", "site")`. */
  function SiteName(site: SiteConfig): string {
    site.name.GetOr("site")
  }

  // ---------------------------------------------------------------------------
  // The state the network sees

  /** The proxy manager as `_proxies` sees it: absent, or its list and the
      number of `next_proxy` calls made so far. */
  datatype ProxyState = NoManager | Manager(proxies: seq<string>, calls: nat)

  /** What `_proxies` returns in state `ps`. */
  function ProxiesOf(ps: ProxyState): Option<map<string, string>> {
    match ps
    case NoManager => None
    case Manager(p, c) => ProxyDict(RoundRobin(p, c))
  }

  /** The proxy state after `n` more calls of `_proxies`. */
  function Advance(ps: ProxyState, n: nat): ProxyState {
    match ps
    case NoManager => NoManager
    case Manager(p, c) => Manager(p, c + n)
  }

  /** The requests sent so far and the proxy state. */
  datatype NetState = NetState(sent: seq<Request>, proxy: ProxyState)

  // ---------------------------------------------------------------------------
  // The retry policy of `fetch`

  /** `stop_after_attempt(3)`. */
  const MaxAttempts: nat := 3

  /** `retry_if_exception_type((requests.RequestException, CaptchaDetected))`. */
  predicate Retryable(r: FetchResult) {
    r.Failed? && (r.kind == RequestError || r.kind == CaptchaError)
  }

  /** The body of `fetch` for one attempt, given the network's reply. */
  function AttemptResult(url: string, reply: Reply, proxies: Option<map<string, string>>): FetchResult {
    match reply
    case TransportFailure => Failed(RequestError)
    case Unexpected => Failed(OtherError)
    case Response(status, text) =>
      if MaybeDetectCaptcha(text) then Failed(CaptchaError)
      else Fetched(Page(url, text, status, Proxied(proxies.GetOr(map[]))))
  }

  /** The request of attempt `i` (0-based): a fresh proxy every time. */
  function AttemptRequest(url: string, headers: map<string, string>, cookies: map<string, string>,
                          ps: ProxyState, i: nat): Request
  {
    Request(url, headers, cookies, ProxiesOf(Advance(ps, i)))
  }

  /** The outcome attempt `i` (0-based) has when the earlier attempts were
      made from state `st`: it is the `|st.sent| + i`-th request. */
  function AttemptAt(url: string, headers: map<string, string>, cookies: map<string, string>,
                     st: NetState, net: (nat, Request) -> Reply, i: nat): FetchResult
  {
    var rq := AttemptRequest(url, headers, cookies, st.proxy, i);
    AttemptResult(url, net(|st.sent| + i, rq), rq.proxies)
  }

  /** The outcomes the attempts would have if `fetch` made all of them. */
  function Attempts(url: string, headers: map<string, string>, cookies: map<string, string>,
                    st: NetState, net: (nat, Request) -> Reply): (outs: seq<FetchResult>)
    ensures |outs| == MaxAttempts
    ensures forall i :: 0 <= i < MaxAttempts ==> outs[i] == AttemptAt(url, headers, cookies, st, net, i)
  {
    [AttemptAt(url, headers, cookies, st, net, 0),
     AttemptAt(url, headers, cookies, st, net, 1),
     AttemptAt(url, headers, cookies, st, net, 2)]
  }

  /** Tenacity's decision: keep attempting while the outcome is retryable and
      attempts remain; the result is the last outcome (re-raised if it is a
      failure), together with the number of attempts made. */
  function RetryPolicy(outs: seq<FetchResult>): (res: (FetchResult, nat))
    requires |outs| > 0
    ensures 1 <= res.1 <= |outs| && res.0 == outs[res.1 - 1]
    ensures forall i :: 0 <= i < res.1 - 1 ==> Retryable(outs[i])
    ensures res.1 < |outs| ==> !Retryable(outs[res.1 - 1])
    decreases |outs|
  {
    if |outs| == 1 || !Retryable(outs[0]) then (outs[0], 1)
    else
      var (r, n) := RetryPolicy(outs[1..]);
      (r, n + 1)
  }

  /** The policy stops exactly at the first non-retryable outcome, or at the last one. */
  lemma PolicyStops(outs: seq<FetchResult>, a: nat)
    requires 1 <= a <= |outs|
    requires forall i :: 0 <= i < a - 1 ==> Retryable(outs[i])
    requires !Retryable(outs[a - 1]) || a == |outs|
    ensures RetryPolicy(outs) == (outs[a - 1], a)
  {
    var (r, n) := RetryPolicy(outs);
  }

  /** Two transport failures followed by a success return the success. */
  lemma TwoFailuresThenSuccess(page: Page)
    ensures RetryPolicy([Failed(RequestError), Failed(RequestError), Fetched(page)]) == (Fetched(page), 3)
  {
    PolicyStops([Failed(RequestError), Failed(RequestError), Fetched(page)], 3);
  }

  /** Three retryable failures surface the last one to the caller. */
  lemma ThreeFailuresReraise(outs: seq<FetchResult>)
    requires |outs| == MaxAttempts && forall i :: 0 <= i < |outs| ==> Retryable(outs[i])
    ensures RetryPolicy(outs) == (outs[2], 3)
  {
    PolicyStops(outs, 3);
  }

  /** A failure that is not retryable propagates at once. */
  lemma OtherErrorNotRetried(outs: seq<FetchResult>)
    requires |outs| > 0 && outs[0] == Failed(OtherError)
    ensures RetryPolicy(outs) == (Failed(OtherError), 1)
  {
    PolicyStops(outs, 1);
  }

  function Pow2(n: nat): (p: nat)
    ensures p >= 1
  {
    if n == 0 then 1 else 2 * Pow2(n - 1)
  }

  /** `wait_exponential(multiplier=1, min=1, max=8)` after the failure of
      attempt `n` (1-based): `max(1, min(2^(n-1), 8))`. */
  function BackoffWait(n: nat): (w: nat)
    requires n >= 1
    ensures 1 <= w <= 8
  {
    var e := Pow2(n - 1);
    if e > 8 then 8 else e
  }

  /** The waits before each retry when `n` attempts were made. */
  function Waits(n: nat): seq<nat> {
    seq(if n == 0 then 0 else n - 1, i requires 0 <= i < n - 1 => BackoffWait(i + 1))
  }

  /** One more failed attempt adds its wait at the end. */
  lemma WaitsSnoc(n: nat)
    requires n >= 1
    ensures Waits(n + 1) == Waits(n) + [BackoffWait(n)]
  {
    assert forall i :: 0 <= i < n ==> Waits(n + 1)[i] == (Waits(n) + [BackoffWait(n)])[i];
  }

  /** The wait doubles from 1 and stays at 8 from the fourth failure on. */
  lemma {:induction false} BackoffSchedule(n: nat)
    requires n >= 1
    ensures n == 1 ==> BackoffWait(n) == 1
    ensures 2 <= n <= 4 ==> BackoffWait(n) == 2 * BackoffWait(n - 1)
    ensures n >= 4 ==> BackoffWait(n) == 8
  {
    if n >= 5 {
      BackoffSchedule(n - 1);
      assert Pow2(n - 1) == 2 * Pow2(n - 2);
    } else if n >= 2 {
      assert Pow2(n - 1) == 2 * Pow2(n - 2);
      if n == 2 { assert Pow2(0) == 1; }
      if n == 3 { assert Pow2(1) == 2; }
      if n == 4 { assert Pow2(2) == 4 by { assert Pow2(1) == 2; } }
    }
  }

  /** With three attempts the waits are at most `[1, 2]`. */
  lemma FetchWaits(n: nat)
    requires 1 <= n <= MaxAttempts
    ensures Waits(n) == [1, 2][..n - 1]
  {
    BackoffSchedule(1);
    BackoffSchedule(2);
  }

  /** The requests of the first `n` attempts. */
  function AttemptRequests(url: string, headers: map<string, string>, cookies: map<string, string>,
                           ps: ProxyState, n: nat): (rs: seq<Request>)
  {
    seq(n, i requires 0 <= i < n => AttemptRequest(url, headers, cookies, ps, i))
  }

  lemma AttemptRequestsSnoc(url: string, headers: map<string, string>, cookies: map<string, string>,
                            ps: ProxyState, n: nat)
    ensures AttemptRequests(url, headers, cookies, ps, n + 1)
      == AttemptRequests(url, headers, cookies, ps, n) + [AttemptRequest(url, headers, cookies, ps, n)]
  {
    var a := AttemptRequests(url, headers, cookies, ps, n + 1);
    var b := AttemptRequests(url, headers, cookies, ps, n) + [AttemptRequest(url, headers, cookies, ps, n)];
    assert forall i :: 0 <= i < n + 1 ==> a[i] == b[i];
  }

  /** The state after the first `n` attempts from `st`: their requests have
      been sent and the proxy manager has been asked once per attempt. */
  function AfterAttempts(url: string, headers: map<string, string>, cookies: map<string, string>,
                         st: NetState, n: nat): NetState
  {
    NetState(st.sent + AttemptRequests(url, headers, cookies, st.proxy, n), Advance(st.proxy, n))
  }

  /** Attempt `k` from `st` is the first attempt from the state after `k`
      attempts, and one more attempt after `k` is `k + 1` attempts. */
  lemma AttemptShift(url: string, headers: map<string, string>, cookies: map<string, string>,
                     st: NetState, net: (nat, Request) -> Reply, k: nat)
    ensures AttemptAt(url, headers, cookies, AfterAttempts(url, headers, cookies, st, k), net, 0)
      == AttemptAt(url, headers, cookies, st, net, k)
    ensures AfterAttempts(url, headers, cookies, AfterAttempts(url, headers, cookies, st, k), 1)
      == AfterAttempts(url, headers, cookies, st, k + 1)
  {
    var mid := AfterAttempts(url, headers, cookies, st, k);
    assert AttemptRequest(url, headers, cookies, mid.proxy, 0) == AttemptRequest(url, headers, cookies, st.proxy, k);
    AttemptRequestsSnoc(url, headers, cookies, st.proxy, k);
    assert AttemptRequests(url, headers, cookies, mid.proxy, 1) == [AttemptRequest(url, headers, cookies, st.proxy, k)];
  }

  /** One call of `fetch` from state `st`: its result and the state after the
      attempts it made. */
  function FetchStep(url: string, headers: map<string, string>, cookies: map<string, string>,
                     st: NetState, net: (nat, Request) -> Reply): (FetchResult, NetState)
  {
    var (r, n) := RetryPolicy(Attempts(url, headers, cookies, st, net));
    (r, AfterAttempts(url, headers, cookies, st, n))
  }

  /** When attempt `a` is the first that is not retried, `fetch` returns its
      outcome and leaves the state after `a` attempts. */
  lemma FetchStepStops(url: string, headers: map<string, string>, cookies: map<string, string>,
                       st: NetState, net: (nat, Request) -> Reply, a: nat)
    requires 1 <= a <= MaxAttempts
    requires var outs := Attempts(url, headers, cookies, st, net);
      && (forall i :: 0 <= i < a - 1 ==> Retryable(outs[i]))
      && (!Retryable(outs[a - 1]) || a == MaxAttempts)
    ensures FetchStep(url, headers, cookies, st, net)
      == (Attempts(url, headers, cookies, st, net)[a - 1], AfterAttempts(url, headers, cookies, st, a))
    ensures RetryPolicy(Attempts(url, headers, cookies, st, net)).1 == a
  {
    PolicyStops(Attempts(url, headers, cookies, st, net), a);
  }

  /** `fetch` sends between one and three requests, all with the given headers,
      asks for a fresh proxy for each, and a page it returns is that of `url`
      and does not look like a CAPTCHA challenge. */
  lemma FetchStepRequests(url: string, headers: map<string, string>, cookies: map<string, string>,
                          st: NetState, net: (nat, Request) -> Reply)
    ensures var (r, st1) := FetchStep(url, headers, cookies, st, net);
      var n := |st1.sent| - |st.sent|;
      && 1 <= n <= MaxAttempts
      && st1.sent[..|st.sent|] == st.sent
      && st1.proxy == Advance(st.proxy, n)
      && (forall i :: 0 <= i < n ==>
            st1.sent[|st.sent| + i] == Request(url, headers, cookies, ProxiesOf(Advance(st.proxy, i))))
      && (r.Fetched? ==> r.page.url == url)
      && (r.Fetched? ==> !MaybeDetectCaptcha(r.page.html))
  {
    var outs := Attempts(url, headers, cookies, st, net);
    var (r, n) := RetryPolicy(outs);
    assert r == AttemptAt(url, headers, cookies, st, net, n - 1);
  }

  // ---------------------------------------------------------------------------
  // Pagination

  predicate IsFileUrl(url: string) {
    |url| >= 7 && url[..7] == "file://"
  }

  const OfflineHtml := "<html><body><div class='card'><h2 class='title'>Offline Item</h2><span class='price'>$0.00</span></div></body></html>"

  /** The fixed page served for `file://` URLs. */
  function OfflinePage(url: string): Page {
    Page(url, OfflineHtml, 200, Offline)
  }

  /** Whether `el.get(k)` is true: present and not the empty string. */
  predicate Truthy(attrs: map<string, Value>, k: string) {
    k in attrs && attrs[k] != Str("")
  }

  /** `el.get("href") or el.get("data-href")`, with `""` for no link. */
  function LinkValue(attrs: map<string, Value>): Value {
    if Truthy(attrs, "href") then attrs["href"]
    else if Truthy(attrs, "data-href") then attrs["data-href"]
    else Str("")
  }

  /** `_find_next`: the first node the selector finds, its link resolved
      against the page URL. An exception, whether from the selector or from
      `urljoin` (given a non-string or malformed link), ends pagination
      exactly as a missing link does, so all of these are None. */
  function FindNext<N>(page: string, baseUrl: string, nextSelector: string, html: Html<N>): (next: Option<string>)
    ensures nextSelector == "" ==> next == None
    ensures next.Some? <==>
      var n := html.selectOne(html.parse(page), nextSelector);
      && nextSelector != "" && n.Node? && LinkValue(n.attrs).Str? && LinkValue(n.attrs).s != ""
      && html.urljoin(baseUrl, LinkValue(n.attrs).s).Some?
    ensures next.Some? ==>
      next == html.urljoin(baseUrl, LinkValue(html.selectOne(html.parse(page), nextSelector).attrs).s)
  {
    if nextSelector == "" then None
    else
      match html.selectOne(html.parse(page), nextSelector)
      case NoMatch => None
      case Raised => None
      case Node(_, attrs) =>
        match LinkValue(attrs)
        case Other(_) => None
        case Str(href) => if href == "" then None else html.urljoin(baseUrl, href)
  }

  /** `href` wins over `data-href`; `data-href` is used only when `href` is
      missing or empty. */
  lemma LinkPreference(attrs: map<string, Value>, h: string, d: string)
    ensures h != "" ==> LinkValue(attrs["href" := Str(h)]["data-href" := Str(d)]) == Str(h)
    ensures LinkValue(attrs["href" := Str("")]["data-href" := Str(d)]) == Str(d)
    ensures "href" !in attrs ==> LinkValue(attrs["data-href" := Str(d)]) == Str(d)
  {
  }

  /** The fixed parts of one `crawl_site` call: `next` is `_find_next` with
      the site's selector, `net` the network, and `fetch` the call of `fetch`
      the loop makes, which `Faithful` ties to `FetchStep`. */
  datatype CrawlEnv = CrawlEnv(
    maxPages: int,
    nextSelector: string,
    headers: map<string, string>,
    cookies: map<string, string>,
    next: (string, string) -> Option<string>,
    net: (nat, Request) -> Reply,
    fetch: (string, NetState) -> (FetchResult, NetState))

  predicate FetchesWith(env: CrawlEnv, url: string, st: NetState) {
    env.fetch(url, st) == FetchStep(url, env.headers, env.cookies, st, env.net)
  }

  /** The loop's `fetch` is `FetchStep` with the crawl's headers, cookies and network. */
  ghost predicate Faithful(env: CrawlEnv) {
    forall url, st :: FetchesWith(env, url, st)
  }

  /** The crawl of a site: `max_pages` defaults to 1. */
  function SiteEnv<N>(site: SiteConfig, headers: map<string, string>, html: Html<N>,
                      net: (nat, Request) -> Reply): (env: CrawlEnv)
    ensures Faithful(env)
  {
    var env := CrawlEnv(site.maxPages.GetOr(1), site.nextSelector, headers, site.cookies,
      (page, base) => FindNext(page, base, site.nextSelector, html), net,
      (url, st) => FetchStep(url, headers, site.cookies, st, net));
    assert forall url, st :: FetchesWith(env, url, st);
    env
  }

  /** The page for `url` in one turn of the loop: the offline page without any
      request for a `file://` URL, otherwise a call of `fetch`. */
  function Step(url: string, env: CrawlEnv, st: NetState): (FetchResult, NetState) {
    if IsFileUrl(url) then (Fetched(OfflinePage(url)), st)
    else env.fetch(url, st)
  }

  /** Where the loop goes after the page `html` of `cur`: None when there is no
      selector, no link, an empty link, or a link back to `cur`. */
  function NextHop(env: CrawlEnv, html: string, cur: string): (hop: Option<string>)
    ensures hop.Some? <==>
      env.nextSelector != "" && env.next(html, cur).Some? && env.next(html, cur).value !in {"", cur}
    ensures hop.Some? ==> hop == env.next(html, cur)
  {
    if env.nextSelector == "" then None
    else
      var nxt := env.next(html, cur);
      if nxt.None? || nxt.value == "" || nxt.value == cur then None else nxt
  }

  /** The `while` loop for one start URL, from `cur` after `count` turns: the
      pages it collects and the final network state. A CAPTCHA turn retries the
      same URL; any other failure ends this start URL. */
  function CrawlFrom(cur: string, count: int, env: CrawlEnv, st: NetState): (seq<Page>, NetState)
    decreases env.maxPages - count
  {
    if cur == "" || count >= env.maxPages then ([], st)
    else
      var s := Step(cur, env, st);
      if s.0.Failed? then
        if s.0.kind == CaptchaError then CrawlFrom(cur, count + 1, env, s.1) else ([], s.1)
      else
        var hop := NextHop(env, s.0.page.html, cur);
        if hop.None? then ([s.0.page], s.1)
        else
          var rest := CrawlFrom(hop.value, count + 1, env, s.1);
          ([s.0.page] + rest.0, rest.1)
  }

  /** A CAPTCHA turn retries the same URL with one more turn counted. */
  lemma CrawlFromRetry(cur: string, count: int, env: CrawlEnv, st: NetState)
    requires cur != "" && count < env.maxPages && Step(cur, env, st).0 == Failed(CaptchaError)
    ensures CrawlFrom(cur, count, env, st) == CrawlFrom(cur, count + 1, env, Step(cur, env, st).1)
  {
  }

  /** A fetched page with a next link is followed by the pages of that link. */
  lemma CrawlFromNext(cur: string, count: int, env: CrawlEnv, st: NetState, page: Page, hop: string)
    requires cur != "" && count < env.maxPages && Step(cur, env, st).0 == Fetched(page)
    requires NextHop(env, page.html, cur) == Some(hop)
    ensures var rest := CrawlFrom(hop, count + 1, env, Step(cur, env, st).1);
      CrawlFrom(cur, count, env, st).0 == [page] + rest.0 && CrawlFrom(cur, count, env, st).1 == rest.1
  {
  }

  /** Any other turn is the last: it contributes its page, if any. */
  lemma CrawlFromStop(cur: string, count: int, env: CrawlEnv, st: NetState)
    requires cur != "" && count < env.maxPages
    requires var s := Step(cur, env, st);
      (s.0.Failed? && s.0.kind != CaptchaError) || (s.0.Fetched? && NextHop(env, s.0.page.html, cur).None?)
    ensures var s := Step(cur, env, st);
      CrawlFrom(cur, count, env, st) == (if s.0.Fetched? then [s.0.page] else [], s.1)
  {
  }

  /** The `for` loop over the start URLs. */
  function CrawlAll(urls: seq<string>, env: CrawlEnv, st: NetState): (seq<Page>, NetState)
    decreases |urls|
  {
    if urls == [] then ([], st)
    else
      var first := CrawlFrom(urls[0], 0, env, st);
      var rest := CrawlAll(urls[1..], env, first.1);
      (first.0 + rest.0, rest.1)
  }

  // ---------------------------------------------------------------------------
  // The scraper object

  class WebScraper {
    const timeout: int
    const retries: int
    const proxyManager: ProxyManager?
    const userAgents: seq<string>
    /** Every request handed to `requests.get`, in order. */
    var sent: seq<Request>
    /** Every raw page written by `_dump_raw`, in order. */
    var dumps: seq<RawDump>

    ghost predicate Valid()
      reads this, proxyManager
    {
      proxyManager != null ==> proxyManager.Valid()
    }

    ghost function ProxyNow(): ProxyState
      reads this, proxyManager
    {
      if proxyManager == null then NoManager else Manager(proxyManager.proxies, proxyManager.calls)
    }

    ghost function Net(): NetState
      reads this, proxyManager
    {
      NetState(sent, ProxyNow())
    }

    constructor (timeout: int, retries: int, proxyManager: ProxyManager?, uaFile: UserAgentSource)
      requires proxyManager != null ==> proxyManager.Valid()
      ensures Valid()
      ensures this.timeout == timeout && this.retries == retries && this.proxyManager == proxyManager
      ensures userAgents == LoadUserAgents(uaFile)
      ensures sent == [] && dumps == []
    {
      this.timeout := timeout;
      this.retries := retries;
      this.proxyManager := proxyManager;
      this.userAgents := LoadUserAgents(uaFile);
      sent := [];
      dumps := [];
    }

    /** `_proxies`. */
    method Proxies() returns (p: Option<map<string, string>>)
      requires Valid()
      modifies proxyManager
      ensures Valid()
      ensures proxyManager != null ==> proxyManager.mode == old(proxyManager.mode)
      ensures p == ProxiesOf(old(ProxyNow()))
      ensures ProxyNow() == Advance(old(ProxyNow()), 1)
    {
      if proxyManager == null {
        return None;
      }
      var proxy := proxyManager.NextProxy();
      if proxy.None? || proxy.value == "" {
        return None;
      }
      return Some(map["http" := proxy.value, "https" := proxy.value]);
    }

    /** The body of `fetch` under its retry decorator: attempt `k` of a call
        of `fetch` made from state `st0`. */
    method FetchOnce(url: string, headers: map<string, string>, cookies: map<string, string>,
                     net: (nat, Request) -> Reply, ghost st0: NetState, ghost k: nat)
      returns (r: FetchResult)
      requires Valid() && Net() == AfterAttempts(url, headers, cookies, st0, k)
      modifies this, proxyManager
      ensures Valid() && dumps == old(dumps)
      ensures proxyManager != null ==> proxyManager.mode == old(proxyManager.mode)
      ensures r == AttemptAt(url, headers, cookies, st0, net, k)
      ensures Net() == AfterAttempts(url, headers, cookies, st0, k + 1)
    {
      AttemptShift(url, headers, cookies, st0, net, k);
      assert AttemptRequests(url, headers, cookies, ProxyNow(), 1) == [AttemptRequest(url, headers, cookies, ProxyNow(), 0)];
      var proxies := Proxies();
      var request := Request(url, headers, cookies, proxies);
      var reply := net(|sent|, request);
      sent := sent + [request];
      match reply {
        case TransportFailure =>
          r := Failed(RequestError);
        case Unexpected =>
          r := Failed(OtherError);
        case Response(status, text) =>
          if MaybeDetectCaptcha(text) {
            r := Failed(CaptchaError);
          } else {
            r := Fetched(Page(url, text, status, Proxied(proxies.GetOr(map[]))));
          }
      }
    }

    /** `fetch` with its retry decorator written out as a loop; `waits` are the
        delays slept before each retry. */
    method Fetch(url: string, headers: map<string, string>, cookies: map<string, string>,
                 net: (nat, Request) -> Reply)
      returns (r: FetchResult, waits: seq<nat>)
      requires Valid()
      modifies this, proxyManager
      ensures Valid() && dumps == old(dumps)
      ensures proxyManager != null ==> proxyManager.mode == old(proxyManager.mode)
      ensures r == FetchStep(url, headers, cookies, old(Net()), net).0
      ensures Net() == FetchStep(url, headers, cookies, old(Net()), net).1
      ensures waits == Waits(RetryPolicy(Attempts(url, headers, cookies, old(Net()), net)).1)
    {
      ghost var st0 := Net();
      ghost var outs := Attempts(url, headers, cookies, st0, net);
      waits := [];
      var attempt := 1;
      while true
        invariant 1 <= attempt <= MaxAttempts
        invariant Valid() && dumps == old(dumps)
        invariant proxyManager != null ==> proxyManager.mode == old(proxyManager.mode)
        invariant forall i :: 0 <= i < attempt - 1 ==> Retryable(outs[i])
        invariant Net() == AfterAttempts(url, headers, cookies, st0, attempt - 1)
        invariant waits == Waits(attempt)
        decreases MaxAttempts - attempt
      {
        r := FetchOnce(url, headers, cookies, net, st0, attempt - 1);
        if !Retryable(r) || attempt == MaxAttempts {
          FetchStepStops(url, headers, cookies, st0, net, attempt);
          return;
        }
        WaitsSnoc(attempt);
        waits := waits + [BackoffWait(attempt)];
        attempt := attempt + 1;
      }
    }

    /** `_dump_raw`, the file write recorded in `dumps`. */
    method DumpRaw(page: Page, siteName: string)
      modifies this
      ensures dumps == old(dumps) + [DumpOf(siteName, page)]
      ensures sent == old(sent)
    {
      var safe := Replace(Replace(page.url, "://", "_"), "/", "_");
      dumps := dumps + [RawDump(siteName, safe + ".html", page.html)];
    }

    /** One turn's page: the offline page for a `file://` URL, otherwise
        `fetch`; a page obtained is dumped. */
    method Visit(url: string, env: CrawlEnv, siteName: string) returns (res: FetchResult)
      requires Valid() && Faithful(env)
      modifies this, proxyManager
      ensures Valid()
      ensures proxyManager != null ==> proxyManager.mode == old(proxyManager.mode)
      ensures res == Step(url, env, old(Net())).0 && Net() == Step(url, env, old(Net())).1
      ensures dumps == old(dumps) + (if res.Fetched? then [DumpOf(siteName, res.page)] else [])
    {
      if IsFileUrl(url) {
        res := Fetched(OfflinePage(url));
      } else {
        assert FetchesWith(env, url, Net());
        var waits;
        res, waits := Fetch(url, env.headers, env.cookies, env.net);
      }
      if res.Fetched? {
        DumpRaw(res.page, siteName);
      }
    }

    /** The `while` loop of `crawl_site` for one start URL. */
    method CrawlStart(start: string, env: CrawlEnv, siteName: string) returns (pages: seq<Page>)
      requires Valid() && Faithful(env)
      modifies this, proxyManager
      ensures Valid()
      ensures proxyManager != null ==> proxyManager.mode == old(proxyManager.mode)
      ensures pages == CrawlFrom(start, 0, env, old(Net())).0
      ensures Net() == CrawlFrom(start, 0, env, old(Net())).1
      ensures dumps == old(dumps) + DumpsOf(siteName, pages)
    {
      ghost var st := Net();
      ghost var goal := CrawlFrom(start, 0, env, st);
      var currentUrl := start;
      var pageCount := 0;
      pages := [];
      assert DumpsOf(siteName, pages) == [];
      while currentUrl != "" && pageCount < env.maxPages
        invariant Valid() && Net() == st
        invariant proxyManager != null ==> proxyManager.mode == old(proxyManager.mode)
        invariant goal.0 == pages + CrawlFrom(currentUrl, pageCount, env, st).0
        invariant goal.1 == CrawlFrom(currentUrl, pageCount, env, st).1
        invariant dumps == old(dumps) + DumpsOf(siteName, pages)
        decreases env.maxPages - pageCount
      {
        ghost var before := st;
        ghost var count0 := pageCount;
        pageCount := pageCount + 1;
        var res := Visit(currentUrl, env, siteName);
        st := Step(currentUrl, env, before).1;
        if res.Failed? {
          if res.kind == CaptchaError {
            CrawlFromRetry(currentUrl, count0, env, before);
            continue;
          }
          CrawlFromStop(currentUrl, count0, env, before);
          break;
        }
        var page := res.page;
        ghost var prev := pages;
        pages := pages + [page];
        DumpsOfAppend(siteName, prev, [page]);
        if env.nextSelector == "" {
          CrawlFromStop(currentUrl, count0, env, before);
          break;
        }
        var nextUrl := env.next(page.html, currentUrl);
        if nextUrl.None? || nextUrl.value == "" || nextUrl.value == currentUrl {
          CrawlFromStop(currentUrl, count0, env, before);
          break;
        }
        CrawlFromNext(currentUrl, count0, env, before, page, nextUrl.value);
        ghost var rest := CrawlFrom(nextUrl.value, pageCount, env, st);
        AppendAssoc(prev, [page], rest.0);
        currentUrl := nextUrl.value;
      }
    }

    /** The `for` loop of `crawl_site` over the start URLs. */
    method CrawlUrls(urls: seq<string>, env: CrawlEnv, siteName: string) returns (pages: seq<Page>)
      requires Valid() && Faithful(env)
      modifies this, proxyManager
      ensures Valid()
      ensures proxyManager != null ==> proxyManager.mode == old(proxyManager.mode)
      ensures pages == CrawlAll(urls, env, old(Net())).0
      ensures Net() == CrawlAll(urls, env, old(Net())).1
      ensures dumps == old(dumps) + DumpsOf(siteName, pages)
    {
      ghost var goal := CrawlAll(urls, env, Net());
      pages := [];
      assert urls[0..] == urls;
      assert DumpsOf(siteName, pages) == [];
      for i := 0 to |urls|
        invariant Valid()
        invariant proxyManager != null ==> proxyManager.mode == old(proxyManager.mode)
        invariant goal.0 == pages + CrawlAll(urls[i..], env, Net()).0
        invariant goal.1 == CrawlAll(urls[i..], env, Net()).1
        invariant dumps == old(dumps) + DumpsOf(siteName, pages)
      {
        assert urls[i..][0] == urls[i] && urls[i..][1..] == urls[i + 1..];
        ghost var prev := pages;
        var found := CrawlStart(urls[i], env, siteName);
        pages := pages + found;
        AppendAssoc(prev, found, CrawlAll(urls[i + 1..], env, Net()).0);
        DumpsOfAppend(siteName, prev, found);
      }
      assert urls[|urls|..] == [];
    }

    /** `crawl_site`: the headers are chosen once for the whole site. */
    method CrawlSite<N>(site: SiteConfig, pick: nat, html: Html<N>, net: (nat, Request) -> Reply)
      returns (pages: seq<Page>)
      requires Valid()
      modifies this, proxyManager
      ensures Valid()
      ensures proxyManager != null ==> proxyManager.mode == old(proxyManager.mode)
      ensures var env := SiteEnv(site, Headers(userAgents, pick, site), html, net);
        pages == CrawlAll(site.startUrls, env, old(Net())).0 && Net() == CrawlAll(site.startUrls, env, old(Net())).1
      ensures dumps == old(dumps) + DumpsOf(SiteName(site), pages)
    {
      var headers := Headers(userAgents, pick, site);
      var env := SiteEnv(site, headers, html, net);
      pages := CrawlUrls(site.startUrls, env, SiteName(site));
    }
  }

  // ---------------------------------------------------------------------------
  // Properties of the crawl

  function Max0(x: int): nat {
    if x < 0 then 0 else x
  }

  /** `now` extends `before`, and every request sent after `before` carries the headers `h`. */
  predicate SentWith(before: seq<Request>, now: seq<Request>, h: map<string, string>) {
    |before| <= |now| && now[..|before|] == before && forall i :: |before| <= i < |now| ==> now[i].headers == h
  }

  lemma SentWithTrans(a: seq<Request>, b: seq<Request>, c: seq<Request>, h: map<string, string>)
    requires SentWith(a, b, h) && SentWith(b, c, h)
    ensures SentWith(a, c, h)
  {
    assert c[..|a|] == c[..|b|][..|a|];
    forall i | |a| <= i < |c|
      ensures c[i].headers == h
    {
      if i < |b| {
        assert c[i] == c[..|b|][i] == b[i];
      }
    }
  }

  /** One turn sends at most three requests, all with the crawl's headers,
      none for a `file://` URL, and a page it fetches is the page asked for,
      never one the CAPTCHA detector flags. */
  lemma StepFacts(url: string, env: CrawlEnv, st: NetState)
    requires Faithful(env)
    ensures var s := Step(url, env, st);
      && SentWith(st.sent, s.1.sent, env.headers)
      && |s.1.sent| <= |st.sent| + MaxAttempts
      && (IsFileUrl(url) ==> s.1 == st)
      && (s.0.Fetched? ==> s.0.page.url == url)
      && (s.0.Fetched? && !IsFileUrl(url) ==> !MaybeDetectCaptcha(s.0.page.html))
  {
    if IsFileUrl(url) {
      assert st.sent[..|st.sent|] == st.sent;
    } else {
      assert FetchesWith(env, url, st);
      FetchStepRequests(url, env.headers, env.cookies, st, env.net);
    }
  }

  /** A page a turn obtains is the page of the URL asked for. */
  lemma StepUrl(url: string, env: CrawlEnv, st: NetState)
    requires Faithful(env)
    ensures Step(url, env, st).0.Fetched? ==> Step(url, env, st).0.page.url == url
  {
    StepFacts(url, env, st);
  }

  /** Each start URL yields at most `max_pages` pages, none when it is zero or
      less, and sends at most three requests per turn of the loop, CAPTCHA
      retries included. */
  lemma {:induction false} CrawlFromBounds(cur: string, count: int, env: CrawlEnv, st: NetState)
    requires Faithful(env)
    ensures var r := CrawlFrom(cur, count, env, st);
      && |r.0| <= Max0(env.maxPages - count)
      && |st.sent| <= |r.1.sent| <= |st.sent| + MaxAttempts * Max0(env.maxPages - count)
    decreases env.maxPages - count
  {
    if cur != "" && count < env.maxPages {
      var s := Step(cur, env, st);
      StepFacts(cur, env, st);
      assert MaxAttempts * Max0(env.maxPages - count) == MaxAttempts + MaxAttempts * Max0(env.maxPages - (count + 1));
      if s.0.Failed? {
        if s.0.kind == CaptchaError {
          CrawlFromBounds(cur, count + 1, env, s.1);
        }
      } else {
        var hop := NextHop(env, s.0.page.html, cur);
        if hop.Some? {
          CrawlFromBounds(hop.value, count + 1, env, s.1);
        }
      }
    }
  }

  /** Without a next-page selector a start URL yields at most one page. */
  lemma {:induction false} CrawlFromNoSelector(cur: string, count: int, env: CrawlEnv, st: NetState)
    requires env.nextSelector == ""
    ensures |CrawlFrom(cur, count, env, st).0| <= 1
    decreases env.maxPages - count
  {
    if cur != "" && count < env.maxPages {
      var s := Step(cur, env, st);
      if s.0.Failed? && s.0.kind == CaptchaError {
        CrawlFromNoSelector(cur, count + 1, env, s.1);
      }
    }
  }

  /** The pages of one start URL form its pagination chain: the first is the
      start URL, and each next page is the link found on the previous page,
      never the previous page's own URL. */
  lemma {:induction false} CrawlFromChain(cur: string, count: int, env: CrawlEnv, st: NetState)
    requires Faithful(env)
    ensures var pages := CrawlFrom(cur, count, env, st).0;
      && (pages != [] ==> pages[0].url == cur)
      && forall j {:trigger pages[j]} :: 0 <= j < |pages| - 1 ==>
           && env.nextSelector != ""
           && env.next(pages[j].html, pages[j].url) == Some(pages[j + 1].url)
           && pages[j + 1].url != pages[j].url
    decreases env.maxPages - count
  {
    if cur != "" && count < env.maxPages {
      var s := Step(cur, env, st);
      StepUrl(cur, env, st);
      if s.0.Failed? {
        if s.0.kind == CaptchaError {
          CrawlFromChain(cur, count + 1, env, s.1);
        }
      } else {
        var hop := NextHop(env, s.0.page.html, cur);
        if hop.Some? {
          CrawlFromChain(hop.value, count + 1, env, s.1);
          var rest := CrawlFrom(hop.value, count + 1, env, s.1).0;
          var pages := [s.0.page] + rest;
          assert CrawlFrom(cur, count, env, st).0 == pages;
          forall j | 0 <= j < |pages| - 1
            ensures env.next(pages[j].html, pages[j].url) == Some(pages[j + 1].url)
              && pages[j + 1].url != pages[j].url
          {
            if j > 0 {
              assert pages[j] == rest[j - 1] && pages[j + 1] == rest[j];
            }
          }
        }
      }
    }
  }

  /** Every page a start URL yields is the offline page or a page the CAPTCHA
      detector does not flag: a flagged reply is never collected. */
  lemma {:induction false} CrawlFromNoCaptcha(cur: string, count: int, env: CrawlEnv, st: NetState)
    requires Faithful(env)
    ensures forall p :: p in CrawlFrom(cur, count, env, st).0 ==> p.meta == Offline || !MaybeDetectCaptcha(p.html)
    decreases env.maxPages - count
  {
    if cur != "" && count < env.maxPages {
      var s := Step(cur, env, st);
      StepFacts(cur, env, st);
      if s.0.Failed? {
        if s.0.kind == CaptchaError {
          CrawlFromNoCaptcha(cur, count + 1, env, s.1);
        }
      } else {
        assert s.0.page.meta == Offline || !MaybeDetectCaptcha(s.0.page.html);
        var hop := NextHop(env, s.0.page.html, cur);
        if hop.Some? {
          CrawlFromNoCaptcha(hop.value, count + 1, env, s.1);
        }
      }
    }
  }

  /** Crawling `a + b` is crawling `a`, then `b` from where `a` left the
      network: results are concatenated in start-URL order, and the outcome
      for one start URL, an error included, does not affect the others'. */
  lemma {:induction false} CrawlAllAppend(a: seq<string>, b: seq<string>, env: CrawlEnv, st: NetState)
    ensures var ra := CrawlAll(a, env, st);
      var rb := CrawlAll(b, env, ra.1);
      CrawlAll(a + b, env, st).0 == ra.0 + rb.0 && CrawlAll(a + b, env, st).1 == rb.1
    decreases |a|
  {
    if a == [] {
      assert a + b == b;
    } else {
      assert (a + b)[0] == a[0] && (a + b)[1..] == a[1..] + b;
      var first := CrawlFrom(a[0], 0, env, st);
      CrawlAllAppend(a[1..], b, env, first.1);
      var ra := CrawlAll(a[1..], env, first.1);
      var rb := CrawlAll(b, env, ra.1);
      assert first.0 + (ra.0 + rb.0) == (first.0 + ra.0) + rb.0;
    }
  }

  lemma {:induction false} CrawlFromHeaders(cur: string, count: int, env: CrawlEnv, st: NetState)
    requires Faithful(env)
    ensures SentWith(st.sent, CrawlFrom(cur, count, env, st).1.sent, env.headers)
    decreases env.maxPages - count
  {
    if cur != "" && count < env.maxPages {
      var s := Step(cur, env, st);
      StepFacts(cur, env, st);
      if s.0.Failed? {
        if s.0.kind == CaptchaError {
          CrawlFromHeaders(cur, count + 1, env, s.1);
          SentWithTrans(st.sent, s.1.sent, CrawlFrom(cur, count + 1, env, s.1).1.sent, env.headers);
        }
      } else {
        var hop := NextHop(env, s.0.page.html, cur);
        if hop.Some? {
          CrawlFromHeaders(hop.value, count + 1, env, s.1);
          SentWithTrans(st.sent, s.1.sent, CrawlFrom(hop.value, count + 1, env, s.1).1.sent, env.headers);
        }
      }
    } else {
      assert st.sent[..|st.sent|] == st.sent;
    }
  }

  /** All requests of one `crawl_site` call carry the same headers, hence the
      same User-Agent. */
  lemma {:induction false} CrawlAllHeaders(urls: seq<string>, env: CrawlEnv, st: NetState)
    requires Faithful(env)
    ensures SentWith(st.sent, CrawlAll(urls, env, st).1.sent, env.headers)
    decreases |urls|
  {
    if urls == [] {
      assert st.sent[..|st.sent|] == st.sent;
    } else {
      var st1 := CrawlFrom(urls[0], 0, env, st).1;
      CrawlFromHeaders(urls[0], 0, env, st);
      CrawlAllHeaders(urls[1..], env, st1);
      SentWithTrans(st.sent, st1.sent, CrawlAll(urls[1..], env, st1).1.sent, env.headers);
    }
  }

  /** A `file://` start URL without pagination yields exactly the offline page
      and sends no request, whatever the network does. */
  lemma OfflineSite(url: string, env: CrawlEnv, st: NetState)
    requires IsFileUrl(url) && env.nextSelector == "" && env.maxPages >= 1
    ensures CrawlAll([url], env, st).0 == [OfflinePage(url)]
    ensures CrawlAll([url], env, st).1 == st
  {
    assert url != "";
    assert [url][1..] == [];
  }

  /** A turn on a page whose every reply is a non-CAPTCHA response fetches it. */
  lemma StepSucceeds(url: string, env: CrawlEnv, st: NetState)
    requires Faithful(env)
    requires forall k, rq :: env.net(k, rq).Response? && !MaybeDetectCaptcha(env.net(k, rq).text)
    ensures Step(url, env, st).0.Fetched?
  {
    if !IsFileUrl(url) {
      assert FetchesWith(env, url, st);
      var outs := Attempts(url, env.headers, env.cookies, st, env.net);
      assert outs[0].Fetched?;
      PolicyStops(outs, 1);
    }
  }

  /** When every turn yields a page and every page links to a URL other than
      its own, nothing but `max_pages` stops the loop: it collects exactly
      `max_pages` pages, even when the links form a cycle. */
  lemma {:induction false} LinkedCrawlFillsBudget(cur: string, count: int, env: CrawlEnv, st: NetState)
    requires cur != "" && env.nextSelector != "" && Faithful(env)
    requires forall k, rq :: env.net(k, rq).Response? && !MaybeDetectCaptcha(env.net(k, rq).text)
    requires forall h, b :: env.next(h, b).Some? && env.next(h, b).value != "" && env.next(h, b).value != b
    ensures |CrawlFrom(cur, count, env, st).0| == Max0(env.maxPages - count)
    decreases env.maxPages - count
  {
    if count < env.maxPages {
      StepSucceeds(cur, env, st);
      var s := Step(cur, env, st);
      var hop := env.next(s.0.page.html, cur).value;
      assert NextHop(env, s.0.page.html, cur) == Some(hop);
      CrawlFromNext(cur, count, env, st, s.0.page, hop);
      LinkedCrawlFillsBudget(hop, count + 1, env, s.1);
    }
  }

  /** With `max_pages = 2`, a two-page cycle `a -> b -> a` yields `a` and `b` and stops. */
  lemma TwoPageCycle(a: string, b: string, env: CrawlEnv, st: NetState)
    requires a != "" && b != "" && a != b && env.maxPages == 2 && env.nextSelector != "" && Faithful(env)
    requires forall k, rq :: env.net(k, rq).Response? && !MaybeDetectCaptcha(env.net(k, rq).text)
    requires forall h :: env.next(h, a) == Some(b) && env.next(h, b) == Some(a)
    ensures |CrawlFrom(a, 0, env, st).0| == 2
    ensures CrawlFrom(a, 0, env, st).0[0].url == a && CrawlFrom(a, 0, env, st).0[1].url == b
  {
    StepSucceeds(a, env, st);
    var s := Step(a, env, st);
    assert NextHop(env, s.0.page.html, a) == Some(b);
    CrawlFromNext(a, 0, env, st, s.0.page, b);
    StepSucceeds(b, env, s.1);
    var s2 := Step(b, env, s.1);
    assert NextHop(env, s2.0.page.html, b) == Some(a);
    CrawlFromNext(b, 1, env, s.1, s2.0.page, a);
    CrawlFromChain(a, 0, env, st);
  }
}
