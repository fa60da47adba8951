// The record cleaner: enrichment (timestamp, whitespace, metadata) applied in
// place to a list of records, and first-occurrence deduplication on a key.

module Cleaner {
  import opened Text
  import opened Data
  import opened Seqs

  // ---------------------------------------------------------------------------
  // Enrichment, one record at a time

  /** `" ".join(v.split())` for string values; any other value is left alone. */
  function NormalizeValue(v: Value): Value {
    match v
    case Str(s) => Str(Collapse(s))
    case Other(_) => v
  }

  /** The record after the timestamp step: `now` is added only when absent. */
  function WithTimestamp(r: Record, now: string): Record {
    if "timestamp" in r then r else r["timestamp" := Str(now)]
  }

  /** The record after the whitespace step. */
  function NormalizeAll(r: Record): Record {
    map k | k in r :: NormalizeValue(r[k])
  }

  /** The record after the metadata step: metadata fills in only missing keys. */
  function AddMissing(r: Record, meta: Record): Record {
    map k | k in r.Keys + meta.Keys :: if k in r then r[k] else meta[k]
  }

  /** The record `enrich` leaves behind. */
  function Enriched(r: Record, meta: Record, now: string): Record {
    AddMissing(NormalizeAll(WithTimestamp(r, now)), meta)
  }

  /** What `enrich` promises about one record. */
  lemma EnrichedFacts(r: Record, meta: Record, now: string)
    ensures var e := Enriched(r, meta, now);
      && e.Keys == r.Keys + meta.Keys + {"timestamp"}
      // a missing timestamp becomes `now`; an existing one is never replaced
      && ("timestamp" !in r ==> e["timestamp"] == Str(Collapse(now)))
      && ("timestamp" in r ==> e["timestamp"] == NormalizeValue(r["timestamp"]))
      // the record's own keys keep their own value, whitespace-normalized
      && (forall k :: k in r ==> e[k] == NormalizeValue(r[k]))
      // every metadata key is present; copied metadata values are not normalized
      && (forall k :: k in meta ==> k in e)
      && (forall k :: k in meta && k !in r && k != "timestamp" ==> e[k] == meta[k])
  {
  }

  /** Every value that was a string is normalized afterwards, and every other
      value of the record is unchanged. */
  lemma EnrichedNormalizes(r: Record, meta: Record, now: string, k: string)
    requires k in r
    ensures var e := Enriched(r, meta, now);
      && (r[k].Str? ==> e[k].Str? && IsNormalized(e[k].s))
      && (r[k].Other? ==> e[k] == r[k])
  {
    if r[k].Str? {
      CollapseNormalized(r[k].s);
    }
  }

  /** With an ISO-8601 `now` (no whitespace), a new timestamp is exactly `now`. */
  lemma EnrichedTimestamp(r: Record, meta: Record, now: string)
    requires NoSpace(now)
    ensures var e := Enriched(r, meta, now);
      "timestamp" in e && ("timestamp" !in r ==> e["timestamp"] == Str(now))
  {
    CollapseNoSpace(now);
  }

  /** Normalizing a normalized value changes nothing. */
  lemma NormalizeValueIdempotent(v: Value)
    ensures NormalizeValue(NormalizeValue(v)) == NormalizeValue(v)
  {
    if v.Str? {
      CollapseIdempotent(v.s);
    }
  }

  /** The inner loop over `list(r.items())`, rewriting string values. */
  method NormalizeValues(r: Record) returns (out: Record)
    ensures out == NormalizeAll(r)
  {
    out := r;
    var todo := r.Keys;
    while todo != {}
      invariant todo <= r.Keys && out.Keys == r.Keys
      invariant forall k :: k in r && k !in todo ==> out[k] == NormalizeValue(r[k])
      invariant forall k :: k in todo ==> out[k] == r[k]
      decreases todo
    {
      var k :| k in todo;
      var v := out[k];
      if v.Str? {
        out := out[k := Str(Collapse(v.s))];
      }
      todo := todo - {k};
    }
  }

  /** The inner loop over the metadata, copying each key the record lacks. */
  method PropagateMetadata(r: Record, meta: Record) returns (out: Record)
    ensures out == AddMissing(r, meta)
  {
    out := r;
    var todo := meta.Keys;
    while todo != {}
      invariant todo <= meta.Keys
      invariant out.Keys == r.Keys + (meta.Keys - todo)
      invariant forall k :: k in out ==> out[k] == if k in r then r[k] else meta[k]
      decreases todo
    {
      var mk :| mk in todo;
      if mk !in out {
        out := out[mk := meta[mk]];
      }
      todo := todo - {mk};
    }
  }

  /** `enrich`: every record of the list is rewritten in place; the list keeps
      its length and order. `now` is computed once per call by the caller. */
  method Enrich(site: SiteConfig, items: array<Record>, now: string)
    modifies items
    ensures forall i :: 0 <= i < items.Length ==> items[i] == Enriched(old(items[i]), site.metadata, now)
  {
    var meta := site.metadata;
    for i := 0 to items.Length
      invariant forall j :: 0 <= j < i ==> items[j] == Enriched(old(items[j]), meta, now)
      invariant forall j :: i <= j < items.Length ==> items[j] == old(items[j])
    {
      var r := items[i];
      if "timestamp" !in r {
        r := r["timestamp" := Str(now)];
      }
      r := NormalizeValues(r);
      r := PropagateMetadata(r, meta);
      items[i] := r;
    }
  }

  // ---------------------------------------------------------------------------
  // Deduplication

  /** The value of field `k` as text, `""` when the record lacks it. */
  function FieldText(r: Record, k: string): string {
    if k in r then Shown(r[k]) else ""
  }

  /** `"|".join(str(r.get(k, "")).lower() for k in key_fields)`. The digest of
      this string stands in as the string itself. */
  function DedupKey(r: Record, keyFields: seq<string>): string {
    Join("|", seq(|keyFields|, i requires 0 <= i < |keyFields| => Lower(FieldText(r, keyFields[i]))))
  }

  /** The keys of all records in `s`. */
  function KeySet(s: seq<Record>, keyFields: seq<string>): set<string> {
    set i | 0 <= i < |s| :: DedupKey(s[i], keyFields)
  }

  /** No earlier record of `s` has the key of `s[i]`. */
  predicate FirstOfKey(s: seq<Record>, keyFields: seq<string>, i: int)
    requires 0 <= i < |s|
  {
    forall j :: 0 <= j < i ==> DedupKey(s[j], keyFields) != DedupKey(s[i], keyFields)
  }

  predicate KeysDistinct(s: seq<Record>, keyFields: seq<string>) {
    forall i, j :: 0 <= i < j < |s| ==> DedupKey(s[i], keyFields) != DedupKey(s[j], keyFields)
  }

  /** The records of `items` that are the first with their key, in input order. */
  function KeepFirst(items: seq<Record>, keyFields: seq<string>): seq<Record>
    decreases |items|
  {
    if items == [] then []
    else
      var init := items[..|items| - 1];
      var last := items[|items| - 1];
      KeepFirst(init, keyFields) + (if DedupKey(last, keyFields) in KeySet(init, keyFields) then [] else [last])
  }

  /** `deduplicate`: one pass keeping a set of the keys seen so far. */
  method Deduplicate(items: seq<Record>, keyFields: seq<string>) returns (unique: seq<Record>)
    ensures unique == KeepFirst(items, keyFields)
  {
    var seen: set<string> := {};
    unique := [];
    for i := 0 to |items|
      invariant unique == KeepFirst(items[..i], keyFields)
      invariant seen == KeySet(items[..i], keyFields)
    {
      assert items[..i + 1][..i] == items[..i];
      KeySetSnoc(items[..i], items[i], keyFields);
      assert items[..i] + [items[i]] == items[..i + 1];
      var key := DedupKey(items[i], keyFields);
      if key in seen {
        continue;
      }
      seen := seen + {key};
      unique := unique + [items[i]];
    }
    assert items[..|items|] == items;
  }

  lemma KeySetSnoc(s: seq<Record>, r: Record, keyFields: seq<string>)
    ensures KeySet(s + [r], keyFields) == KeySet(s, keyFields) + {DedupKey(r, keyFields)}
  {
    var t := s + [r];
    forall k | k in KeySet(t, keyFields)
      ensures k in KeySet(s, keyFields) + {DedupKey(r, keyFields)}
    {
      var i :| 0 <= i < |t| && DedupKey(t[i], keyFields) == k;
      if i < |s| {
        assert t[i] == s[i];
      }
    }
    forall k | k in KeySet(s, keyFields)
      ensures k in KeySet(t, keyFields)
    {
      var i :| 0 <= i < |s| && DedupKey(s[i], keyFields) == k;
      assert t[i] == s[i];
    }
    assert DedupKey(t[|s|], keyFields) in KeySet(t, keyFields);
  }

  lemma SnocInit(s: seq<Record>)
    requires s != []
    ensures s == s[..|s| - 1] + [s[|s| - 1]]
  {
  }

  /** The output is the input with some records left out, in the original order. */
  lemma {:induction false} KeepFirstSubsequence(items: seq<Record>, keyFields: seq<string>)
    ensures IsSubsequence(KeepFirst(items, keyFields), items)
    ensures |KeepFirst(items, keyFields)| <= |items|
    decreases |items|
  {
    if items != [] {
      var init := items[..|items| - 1];
      KeepFirstSubsequence(init, keyFields);
      var out := KeepFirst(items, keyFields);
      if DedupKey(items[|items| - 1], keyFields) in KeySet(init, keyFields) {
        assert out == KeepFirst(init, keyFields);
        SubsequenceOfInit(out, items);
      } else {
        assert out[..|out| - 1] == KeepFirst(init, keyFields);
      }
    }
  }

  /** The output has exactly the keys the input has. */
  lemma {:induction false} KeepFirstKeys(items: seq<Record>, keyFields: seq<string>)
    ensures KeySet(KeepFirst(items, keyFields), keyFields) == KeySet(items, keyFields)
    decreases |items|
  {
    if items != [] {
      var init := items[..|items| - 1];
      var last := items[|items| - 1];
      KeepFirstKeys(init, keyFields);
      SnocInit(items);
      KeySetSnoc(init, last, keyFields);
      if DedupKey(last, keyFields) in KeySet(init, keyFields) {
        assert KeepFirst(items, keyFields) == KeepFirst(init, keyFields);
      } else {
        assert KeepFirst(items, keyFields) == KeepFirst(init, keyFields) + [last];
        KeySetSnoc(KeepFirst(init, keyFields), last, keyFields);
      }
    }
  }

  /** No two output records share a key. */
  lemma {:induction false} KeepFirstDistinct(items: seq<Record>, keyFields: seq<string>)
    ensures KeysDistinct(KeepFirst(items, keyFields), keyFields)
    decreases |items|
  {
    if items != [] {
      var init := items[..|items| - 1];
      var last := items[|items| - 1];
      KeepFirstDistinct(init, keyFields);
      var prev := KeepFirst(init, keyFields);
      if DedupKey(last, keyFields) in KeySet(init, keyFields) {
        assert KeepFirst(items, keyFields) == prev;
      } else {
        KeepFirstKeys(init, keyFields);
        var out := prev + [last];
        assert KeepFirst(items, keyFields) == out;
        forall i, j | 0 <= i < j < |out|
          ensures DedupKey(out[i], keyFields) != DedupKey(out[j], keyFields)
        {
          if j == |prev| {
            assert out[i] == prev[i] && out[j] == last;
            assert DedupKey(prev[i], keyFields) in KeySet(prev, keyFields);
          } else {
            assert out[i] == prev[i] && out[j] == prev[j];
          }
        }
      }
    }
  }

  /** For every input record, the first record with its key is in the output. */
  lemma {:induction false} KeepFirstKeepsFirst(items: seq<Record>, keyFields: seq<string>, i: int)
    requires 0 <= i < |items| && FirstOfKey(items, keyFields, i)
    ensures items[i] in KeepFirst(items, keyFields)
    decreases |items|
  {
    var init := items[..|items| - 1];
    var last := items[|items| - 1];
    if i < |items| - 1 {
      assert FirstOfKey(init, keyFields, i) by {
        forall j | 0 <= j < i ensures DedupKey(init[j], keyFields) != DedupKey(init[i], keyFields) {
          assert init[j] == items[j] && init[i] == items[i];
        }
      }
      KeepFirstKeepsFirst(init, keyFields, i);
    }
  }

  /** A list whose keys are already distinct passes through unchanged. */
  lemma {:induction false} KeepFirstOfDistinct(items: seq<Record>, keyFields: seq<string>)
    requires KeysDistinct(items, keyFields)
    ensures KeepFirst(items, keyFields) == items
    decreases |items|
  {
    if items != [] {
      var init := items[..|items| - 1];
      var last := items[|items| - 1];
      assert KeysDistinct(init, keyFields) by {
        forall i, j | 0 <= i < j < |init|
          ensures DedupKey(init[i], keyFields) != DedupKey(init[j], keyFields)
        {
          assert init[i] == items[i] && init[j] == items[j];
        }
      }
      KeepFirstOfDistinct(init, keyFields);
      SnocInit(items);
    }
  }

  /** Deduplicating twice is deduplicating once. */
  lemma DedupIdempotent(items: seq<Record>, keyFields: seq<string>)
    ensures KeepFirst(KeepFirst(items, keyFields), keyFields) == KeepFirst(items, keyFields)
  {
    KeepFirstDistinct(items, keyFields);
    KeepFirstOfDistinct(KeepFirst(items, keyFields), keyFields);
  }

  /** A missing key field counts as the empty string. */
  lemma MissingFieldIsEmpty(r: Record, keyFields: seq<string>, k: string)
    requires k !in r
    ensures DedupKey(r, keyFields) == DedupKey(r[k := Str("")], keyFields)
  {
    var a := seq(|keyFields|, i requires 0 <= i < |keyFields| => Lower(FieldText(r, keyFields[i])));
    var b := seq(|keyFields|, i requires 0 <= i < |keyFields| => Lower(FieldText(r[k := Str("")], keyFields[i])));
    assert a == b;
  }

  /** Values that join to the same string collide: `("a|b", "c")` and `("a", "b|c")`. */
  lemma JoinCollision()
    ensures DedupKey(map["title" := Str("a|b"), "url" := Str("c")], ["title", "url"])
         == DedupKey(map["title" := Str("a"), "url" := Str("b|c")], ["title", "url"])
  {
    var r1 := map["title" := Str("a|b"), "url" := Str("c")];
    var r2 := map["title" := Str("a"), "url" := Str("b|c")];
    KeyOfTwo(r1, "title", "url");
    KeyOfTwo(r2, "title", "url");
    assert FieldText(r1, "title") == "a|b" && FieldText(r1, "url") == "c";
    assert FieldText(r2, "title") == "a" && FieldText(r2, "url") == "b|c";
    assert Lower("a|b") == "a|b" && Lower("c") == "c" && Lower("a") == "a" && Lower("b|c") == "b|c";
    assert "a|b" + "|" + "c" == "a" + "|" + "b|c";
  }

  /** Keys differing only in letter case collide: the second record is dropped. */
  lemma CaseInsensitiveDuplicate()
    ensures var r1 := map["title" := Str("Widget"), "url" := Str("http://x/1")];
      var r2 := map["title" := Str("widget"), "url" := Str("HTTP://X/1")];
      KeepFirst([r1, r2], ["title", "url"]) == [r1]
  {
    var r1 := map["title" := Str("Widget"), "url" := Str("http://x/1")];
    var r2 := map["title" := Str("widget"), "url" := Str("HTTP://X/1")];
    var kf := ["title", "url"];
    KeyOfTwo(r1, "title", "url");
    KeyOfTwo(r2, "title", "url");
    assert FieldText(r1, "title") == "Widget" && FieldText(r1, "url") == "http://x/1";
    assert FieldText(r2, "title") == "widget" && FieldText(r2, "url") == "HTTP://X/1";
    assert Lower("Widget") == Lower("widget") == "widget";
    assert Lower("http://x/1") == Lower("HTTP://X/1") == "http://x/1";
    assert DedupKey(r1, kf) == DedupKey(r2, kf);
    assert [r1, r2][..1] == [r1];
    assert [r1][..0] == [];
    assert DedupKey(r2, kf) in KeySet([r1], kf) by {
      assert DedupKey([r1][0], kf) in KeySet([r1], kf);
    }
    assert KeepFirst([r1], kf) == [r1] by {
      assert KeepFirst([], kf) == [];
      assert KeySet([], kf) == {};
    }
    assert KeepFirst([r1, r2], kf) == KeepFirst([r1], kf);
  }

  lemma KeyOfTwo(r: Record, a: string, b: string)
    ensures DedupKey(r, [a, b]) == Lower(FieldText(r, a)) + "|" + Lower(FieldText(r, b))
  {
    var parts := seq(2, i requires 0 <= i < 2 => Lower(FieldText(r, [a, b][i])));
    assert parts == [Lower(FieldText(r, a)), Lower(FieldText(r, b))];
    assert parts[1..] == [Lower(FieldText(r, b))];
    assert DedupKey(r, [a, b]) == Join("|", parts);
  }
}
