// The values the pipeline passes between its stages: record values, records,
// fetched pages, per-field extraction rules and a site's configuration, plus
// the markup oracles that stand for the HTML parser.

module Data {

  datatype Option<T> = None | Some(value: T) {
    function GetOr(default: T): T {
      match this
      case Some(v) => v
      case None => default
    }
  }

  /** A record value: a string, or any other value (a number, a list of class
      names, ...) known only by the text Python's `str()` gives for it. */
  datatype Value = Str(s: string) | Other(shown: string)

  /** Python's `str(v)`. */
  function Shown(v: Value): string {
    match v
    case Str(s) => s
    case Other(t) => t
  }

  /** A record: field name to value. */
  type Record = map<string, Value>

  /** What a fetched page carries besides its content: the proxies used, or the offline flag. */
  datatype PageMeta = Proxied(proxies: map<string, string>) | Offline

  datatype Page = Page(url: string, html: string, statusCode: int, meta: PageMeta)

  /** One field rule: the selector (`""` when unset), the attribute to read
      (`""` when unset, meaning text) and the optional flag. */
  datatype FieldRule = FieldRule(selector: string, attr: string, optional: bool)

  /** A site's configuration with the defaults the core applies already in
      place where a missing key and an empty value mean the same: `""` for an
      unset selector, `{}` for unset maps. `name` and `maxPages` keep their
      absence, since their defaults are applied by the core itself. */
  datatype SiteConfig = SiteConfig(
    name: Option<string>,
    startUrls: seq<string>,
    nextSelector: string,
    maxPages: Option<int>,
    headers: map<string, string>,
    cookies: map<string, string>,
    itemSelector: string,
    fields: map<string, FieldRule>,
    metadata: Record)

  /** The result of `select_one` on a node: nothing found, an exception from the
      selector engine, or a node with its stripped text and its attributes. */
  datatype Match = NoMatch | Raised | Node(text: string, attrs: map<string, Value>)

  /** The HTML parser as oracles over an abstract node type `N`: parsing a
      document, `select`, `select_one`, and `urljoin` for resolving links,
      None when `urljoin` raises (a malformed link such as `http://[x`). */
  datatype Html<!N> = Html(
    parse: string -> N,
    selectAll: (N, string) -> seq<N>,
    selectOne: (N, string) -> Match,
    urljoin: (string, string) -> Option<string>)
}
