// The record builder: one page becomes at most one record per item container,
// each field decided by its rule and the first node its selector finds.

module Parser {
  import opened Text
  import opened Data
  import opened Seqs

  /** `site_cfg.get("item_selector") or "body"`. */
  function ItemSelector(site: SiteConfig): (sel: string)
    ensures sel != ""
    ensures site.itemSelector != "" ==> sel == site.itemSelector
  {
    if site.itemSelector == "" then "body" else site.itemSelector
  }

  /** `(cfg.get("attr") or "text").lower()`. */
  function AttrName(rule: FieldRule): string {
    Lower(if rule.attr == "" then "text" else rule.attr)
  }

  /** The item containers: all matches of the item selector, or the whole
      document when there are none. */
  function Containers<N>(site: SiteConfig, doc: N, html: Html<N>): (cs: seq<N>)
    ensures |cs| > 0
    ensures html.selectAll(doc, ItemSelector(site)) == [] ==> cs == [doc]
  {
    var matched := html.selectAll(doc, ItemSelector(site));
    if matched == [] then [doc] else matched
  }

  /** What the `try` block leaves in `value`: None when the selector is unset,
      finds nothing, raises, or the node lacks the attribute. */
  function Extract<N>(rule: FieldRule, container: N, html: Html<N>): Option<Value> {
    if rule.selector == "" then None
    else
      match html.selectOne(container, rule.selector)
      case NoMatch => None
      case Raised => None
      case Node(text, attrs) =>
        var a := AttrName(rule);
        if a == "text" then Some(Str(text))
        else if a in attrs then Some(attrs[a])
        else None
  }

  /** The field's entry in the record: a required field falls back to `""`. */
  function FieldValue<N>(rule: FieldRule, container: N, html: Html<N>): Option<Value> {
    var v := Extract(rule, container, html);
    if v.None? && !rule.optional then Some(Str("")) else v
  }

  /** The record built from one container, before `source` is attached. */
  function RecordFor<N>(fields: map<string, FieldRule>, container: N, html: Html<N>): Record {
    map name | name in fields && FieldValue(fields[name], container, html).Some? ::
      FieldValue(fields[name], container, html).value
  }

  /** The non-empty records of the containers, in container order. */
  function Extracted<N>(fields: map<string, FieldRule>, cs: seq<N>, html: Html<N>): seq<Record>
    decreases |cs|
  {
    if cs == [] then []
    else
      var r := RecordFor(fields, cs[|cs| - 1], html);
      Extracted(fields, cs[..|cs| - 1], html) + (if r == map[] then [] else [r])
  }

  /** Adds the metadata's `source` to a record that has none of its own. */
  function WithSource(r: Record, meta: Record): Record {
    if "source" !in r && "source" in meta then r["source" := meta["source"]] else r
  }

  function AttachSource(rs: seq<Record>, meta: Record): seq<Record> {
    seq(|rs|, i requires 0 <= i < |rs| => WithSource(rs[i], meta))
  }

  /** What `parse_page` returns. */
  function Parsed<N>(site: SiteConfig, page: Page, html: Html<N>): seq<Record> {
    var cs := Containers(site, html.parse(page.html), html);
    AttachSource(Extracted(site.fields, cs, html), site.metadata)
  }

  /** The loop over the field rules for one container. */
  method BuildRecord<N>(fields: map<string, FieldRule>, container: N, html: Html<N>) returns (record: Record)
    ensures record == RecordFor(fields, container, html)
  {
    record := map[];
    var todo := fields.Keys;
    while todo != {}
      invariant todo <= fields.Keys
      invariant forall n :: n in record ==> n in fields && n !in todo
      invariant forall n :: n in fields && n !in todo ==>
        (n in record <==> FieldValue(fields[n], container, html).Some?)
      invariant forall n :: n in record ==> record[n] == FieldValue(fields[n], container, html).value
      decreases todo
    {
      var name :| name in todo;
      var rule := fields[name];
      var value: Option<Value> := None;
      if rule.selector != "" {
        match html.selectOne(container, rule.selector) {
          case Node(text, attrs) =>
            var attr := AttrName(rule);
            if attr == "text" {
              value := Some(Str(text));
            } else if attr in attrs {
              value := Some(attrs[attr]);
            }
          case NoMatch =>
          case Raised =>
        }
      }
      if value.None? && !rule.optional {
        value := Some(Str(""));
      }
      if value.Some? {
        record := record[name := value.value];
      }
      todo := todo - {name};
    }
  }

  /** `parse_page`: a loop over the containers building each record field by
      field, then a loop attaching `source`. */
  method ParsePage<N>(site: SiteConfig, page: Page, html: Html<N>) returns (items: seq<Record>)
    ensures items == Parsed(site, page, html)
  {
    var soup := html.parse(page.html);
    var containers := html.selectAll(soup, ItemSelector(site));
    if containers == [] {
      containers := [soup];
    }
    var fields := site.fields;
    items := [];
    for i := 0 to |containers|
      invariant items == Extracted(fields, containers[..i], html)
    {
      var record := BuildRecord(fields, containers[i], html);
      assert containers[..i + 1][..i] == containers[..i];
      if record != map[] {
        items := items + [record];
      }
    }
    assert containers[..|containers|] == containers;
    var extracted := items;
    var meta := site.metadata;
    for i := 0 to |items|
      invariant |items| == |extracted|
      invariant forall j :: 0 <= j < i ==> items[j] == WithSource(extracted[j], meta)
      invariant forall j :: i <= j < |items| ==> items[j] == extracted[j]
    {
      if "source" !in items[i] && "source" in meta {
        items := items[i := items[i]["source" := meta["source"]]];
      }
    }
  }

  // ---------------------------------------------------------------------------
  // Properties of the records of one container

  /** A required field is always present; it is `""` when the selector is
      unset, finds nothing or raises. */
  lemma RequiredFieldPresent<N>(fields: map<string, FieldRule>, c: N, html: Html<N>, name: string)
    requires name in fields && !fields[name].optional
    ensures name in RecordFor(fields, c, html)
    ensures var rule := fields[name];
      (rule.selector == "" || html.selectOne(c, rule.selector) in {NoMatch, Raised}) ==>
        RecordFor(fields, c, html)[name] == Str("")
  {
  }

  /** An optional field the selector does not find, or whose extraction
      raised, is absent. */
  lemma OptionalFieldAbsent<N>(fields: map<string, FieldRule>, c: N, html: Html<N>, name: string)
    requires name in fields && fields[name].optional
    requires var rule := fields[name];
      rule.selector == "" || html.selectOne(c, rule.selector) in {NoMatch, Raised}
    ensures name !in RecordFor(fields, c, html)
  {
  }

  /** A found node yields the field, optional or not, even when its text is
      empty: only a missing value counts as missing. */
  lemma FoundFieldPresent<N>(fields: map<string, FieldRule>, c: N, html: Html<N>, name: string)
    requires name in fields && fields[name].selector != ""
    requires html.selectOne(c, fields[name].selector).Node?
    ensures var node := html.selectOne(c, fields[name].selector);
      AttrName(fields[name]) == "text" ==>
        name in RecordFor(fields, c, html) && RecordFor(fields, c, html)[name] == Str(node.text)
    ensures var node := html.selectOne(c, fields[name].selector);
      var a := AttrName(fields[name]);
      a != "text" && a in node.attrs ==>
        name in RecordFor(fields, c, html) && RecordFor(fields, c, html)[name] == node.attrs[a]
  {
  }

  /** The attribute setting defaults to text and is compared without regard to case. */
  lemma AttrCaseInsensitive<N>(rule: FieldRule, c: N, html: Html<N>)
    ensures Extract(rule.(attr := Upper(rule.attr)), c, html) == Extract(rule, c, html)
    ensures rule.attr == "" ==> Extract(rule, c, html) == Extract(rule.(attr := "TEXT"), c, html)
  {
    LowerOfUpper(rule.attr);
    assert Upper(rule.attr) == "" <==> rule.attr == "";
    assert Lower("TEXT") == "text";
  }

  /** Record keys are configured field names. */
  lemma RecordKeys<N>(fields: map<string, FieldRule>, c: N, html: Html<N>)
    ensures RecordFor(fields, c, html).Keys <= fields.Keys
  {
  }

  // ---------------------------------------------------------------------------
  // Properties of a whole page

  /** The records of the containers, one per container, in container order. */
  function RecordsOf<N>(fields: map<string, FieldRule>, cs: seq<N>, html: Html<N>): seq<Record> {
    seq(|cs|, i requires 0 <= i < |cs| => RecordFor(fields, cs[i], html))
  }

  /** Each output record is the non-empty record of some container, and
      there are no more records than containers. */
  lemma {:induction false} ExtractedFromContainers<N>(fields: map<string, FieldRule>, cs: seq<N>, html: Html<N>)
    ensures |Extracted(fields, cs, html)| <= |cs|
    ensures forall r :: r in Extracted(fields, cs, html) ==>
      r != map[] && exists c :: c in cs && r == RecordFor(fields, c, html)
    decreases |cs|
  {
    if cs != [] {
      var init := cs[..|cs| - 1];
      ExtractedFromContainers(fields, init, html);
      forall r | r in Extracted(fields, cs, html)
        ensures r != map[] && exists c :: c in cs && r == RecordFor(fields, c, html)
      {
        if r in Extracted(fields, init, html) {
          var c :| c in init && r == RecordFor(fields, c, html);
          assert c in cs;
        } else {
          assert cs[|cs| - 1] in cs;
        }
      }
    }
  }

  lemma RecordsOfInit<N>(fields: map<string, FieldRule>, cs: seq<N>, html: Html<N>)
    requires cs != []
    ensures RecordsOf(fields, cs, html)[..|cs| - 1] == RecordsOf(fields, cs[..|cs| - 1], html)
  {
  }

  /** The output records are the containers' records with the empty ones left
      out: at most one per container, in container order. */
  lemma {:induction false} ExtractedInContainerOrder<N>(fields: map<string, FieldRule>, cs: seq<N>, html: Html<N>)
    ensures IsSubsequence(Extracted(fields, cs, html), RecordsOf(fields, cs, html))
    decreases |cs|
  {
    if cs != [] {
      var init := cs[..|cs| - 1];
      ExtractedInContainerOrder(fields, init, html);
      RecordsOfInit(fields, cs, html);
      var all := RecordsOf(fields, cs, html);
      var ex := Extracted(fields, cs, html);
      if RecordFor(fields, cs[|cs| - 1], html) == map[] {
        assert ex == Extracted(fields, init, html);
        SubsequenceOfInit(ex, all);
      } else {
        assert ex[..|ex| - 1] == Extracted(fields, init, html);
        SubsequenceOfBothInits(ex, all);
      }
    }
  }

  /** The converse of the filter: a container whose record is not empty has
      that record among the output. */
  lemma {:induction false} ExtractedKeepsNonEmpty<N>(fields: map<string, FieldRule>, cs: seq<N>, html: Html<N>, i: int)
    requires 0 <= i < |cs| && RecordFor(fields, cs[i], html) != map[]
    ensures RecordFor(fields, cs[i], html) in Extracted(fields, cs, html)
    decreases |cs|
  {
    var init := cs[..|cs| - 1];
    var last := RecordFor(fields, cs[|cs| - 1], html);
    var tail := if last == map[] then [] else [last];
    assert Extracted(fields, cs, html) == Extracted(fields, init, html) + tail;
    if i < |cs| - 1 {
      assert init[i] == cs[i];
      ExtractedKeepsNonEmpty(fields, init, html, i);
    }
    InAppend(RecordFor(fields, cs[i], html), Extracted(fields, init, html), tail);
  }

  /** With a required field configured no record is empty, so every
      container contributes its record, in container order. */
  lemma {:induction false} RequiredFieldKeepsAll<N>(fields: map<string, FieldRule>, cs: seq<N>, html: Html<N>, name: string)
    requires name in fields && !fields[name].optional
    ensures Extracted(fields, cs, html) == RecordsOf(fields, cs, html)
    decreases |cs|
  {
    if cs != [] {
      RequiredFieldKeepsAll(fields, cs[..|cs| - 1], html, name);
      RequiredFieldPresent(fields, cs[|cs| - 1], html, name);
      RecordsOfInit(fields, cs, html);
      var all := RecordsOf(fields, cs, html);
      assert all == all[..|all| - 1] + [all[|all| - 1]];
    }
  }

  /** What every record `parse_page` returns satisfies: it is not empty, it
      holds every required field and only configured fields plus `source`, and
      it is the record of some container with `source` attached only when the
      record lacked it and the metadata has it. */
  lemma ParsedRecords<N>(site: SiteConfig, page: Page, html: Html<N>)
    ensures var cs := Containers(site, html.parse(page.html), html);
      |Parsed(site, page, html)| <= |cs|
    ensures forall r :: r in Parsed(site, page, html) ==>
      && r != map[]
      && (forall n :: n in site.fields && !site.fields[n].optional ==> n in r)
      && r.Keys <= site.fields.Keys + {"source"}
      && exists c :: c in Containers(site, html.parse(page.html), html)
           && RecordFor(site.fields, c, html) != map[]
           && r == WithSource(RecordFor(site.fields, c, html), site.metadata)
  {
    var cs := Containers(site, html.parse(page.html), html);
    var ex := Extracted(site.fields, cs, html);
    ExtractedFromContainers(site.fields, cs, html);
    forall r | r in Parsed(site, page, html)
      ensures && r != map[]
        && (forall n :: n in site.fields && !site.fields[n].optional ==> n in r)
        && r.Keys <= site.fields.Keys + {"source"}
        && exists c :: c in cs && RecordFor(site.fields, c, html) != map[]
             && r == WithSource(RecordFor(site.fields, c, html), site.metadata)
    {
      var i :| 0 <= i < |ex| && r == WithSource(ex[i], site.metadata);
      assert ex[i] in ex;
      var c :| c in cs && ex[i] == RecordFor(site.fields, c, html);
      forall n | n in site.fields && !site.fields[n].optional
        ensures n in r
      {
        RequiredFieldPresent(site.fields, c, html, n);
      }
    }
  }

  /** Every container whose record is not empty has that record, with
      `source` attached, among what `parse_page` returns. */
  lemma ParsedKeepsNonEmpty<N>(site: SiteConfig, page: Page, html: Html<N>, i: int)
    requires var cs := Containers(site, html.parse(page.html), html);
      0 <= i < |cs| && RecordFor(site.fields, cs[i], html) != map[]
    ensures var cs := Containers(site, html.parse(page.html), html);
      WithSource(RecordFor(site.fields, cs[i], html), site.metadata) in Parsed(site, page, html)
  {
    var cs := Containers(site, html.parse(page.html), html);
    var ex := Extracted(site.fields, cs, html);
    ExtractedKeepsNonEmpty(site.fields, cs, html, i);
    var j :| 0 <= j < |ex| && ex[j] == RecordFor(site.fields, cs[i], html);
    assert Parsed(site, page, html)[j] == WithSource(ex[j], site.metadata);
  }

  /** With no container matched, the whole document is the only container,
      so a page yields at most one record. */
  lemma NoContainersAtMostOne<N>(site: SiteConfig, page: Page, html: Html<N>)
    requires html.selectAll(html.parse(page.html), ItemSelector(site)) == []
    ensures |Parsed(site, page, html)| <= 1
  {
    ParsedRecords(site, page, html);
  }

  /** `source` is attached only to a record lacking it, and an extracted
      `source` is never overwritten. */
  lemma WithSourceFacts(r: Record, meta: Record)
    ensures "source" in r ==> WithSource(r, meta) == r
    ensures "source" !in r && "source" in meta ==> WithSource(r, meta) == r["source" := meta["source"]]
    ensures "source" !in meta ==> WithSource(r, meta) == r
  {
  }
}
