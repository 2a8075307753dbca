/**
 What `setOpenGraphTags` guarantees. The row-by-row remove-then-append loop
 equals one filtering pass over the old document followed by the eleven new
 metas in table order. From that shape follow per-key uniqueness, the exact
 survivors (the `undefined` quirk included), idempotence and last-writer-wins.
 */
module OpenGraphProperties {
  import opened Wrappers
  import opened Dom
  import opened OpenGraphMixin

  /** The removal selector lists of all rows, concatenated in row order. */
  function RemovalQueries(tags: seq<MetaTag>): seq<Selector>
    decreases |tags|
  {
    if tags == [] then []
    else RemovalQueries(tags[..|tags| - 1]) + RemovalQuery(tags[|tags| - 1])
  }

  /** The new metas of all rows, in row order. */
  function CreatedMetas(tags: seq<MetaTag>): (r: seq<Element>)
    decreases |tags|
    ensures |r| == |tags|
    ensures forall i :: 0 <= i < |tags| ==> r[i] == CreateMeta(tags[i])
  {
    if tags == [] then []
    else CreatedMetas(tags[..|tags| - 1]) + [CreateMeta(tags[|tags| - 1])]
  }

  /** The concatenated list matches an element exactly when some row's own selector list does. */
  lemma {:induction false} RemovalQueriesMatch(e: Element, tags: seq<MetaTag>)
    ensures MatchesAny(e, RemovalQueries(tags)) <==>
      exists i :: 0 <= i < |tags| && MatchesAny(e, RemovalQuery(tags[i]))
  {
    if tags != [] {
      var init := tags[..|tags| - 1];
      RemovalQueriesMatch(e, init);
      MatchesAnyConcat(e, RemovalQueries(init), RemovalQuery(tags[|tags| - 1]));
      assert forall i :: 0 <= i < |init| ==> init[i] == tags[i];
    }
  }

  /** A row's selector list `[property="P"], [name="N"]` as a test on the element's two attributes. */
  lemma RemovalQueryMatch(e: Element, tag: MetaTag)
    ensures MatchesAny(e, RemovalQuery(tag)) <==>
      e.property == Some(Interpolate(tag.property)) || e.name == Some(Interpolate(tag.name))
  {
    MatchesAnyPair(e, AttributeEquals(Property, Interpolate(tag.property)), AttributeEquals(Name, Interpolate(tag.name)));
  }

  /** No row's removal selector matches the meta an earlier row appended. */
  ghost predicate NoInterference(tags: seq<MetaTag>)
  {
    forall i, j :: 0 <= j < i < |tags| ==> !MatchesAny(CreateMeta(tags[j]), RemovalQuery(tags[i]))
  }

  /**
   When no row removes an earlier row's meta, the loop is one filtering pass
   with all the rows' selectors, followed by all the new metas in row order.
   */
  lemma {:induction false} ApplyMetaTagsShape(d: Document, tags: seq<MetaTag>)
    requires NoInterference(tags)
    ensures ApplyMetaTags(d, tags) == RemoveAll(d, RemovalQueries(tags)) + CreatedMetas(tags)
  {
    if tags != [] {
      var init := tags[..|tags| - 1];
      var last := tags[|tags| - 1];
      assert forall i :: 0 <= i < |init| ==> init[i] == tags[i];
      assert NoInterference(init);
      ApplyMetaTagsShape(d, init);
      var kept := RemoveAll(d, RemovalQueries(init));
      var made := CreatedMetas(init);
      assert forall j :: 0 <= j < |made| ==> !MatchesAny(made[j], RemovalQuery(last));
      calc {
        ApplyMetaTags(d, tags);
        ApplyMetaTag(kept + made, last);
        RemoveAll(kept + made, RemovalQuery(last)) + [CreateMeta(last)];
        { RemoveAllAppend(kept, made, RemovalQuery(last)); }
        RemoveAll(kept, RemovalQuery(last)) + RemoveAll(made, RemovalQuery(last)) + [CreateMeta(last)];
        { RemoveAllUnmatched(made, RemovalQuery(last));
          RemoveAllSequential(d, RemovalQueries(init), RemovalQuery(last)); }
        RemoveAll(d, RemovalQueries(init) + RemovalQuery(last)) + made + [CreateMeta(last)];
        RemoveAll(d, RemovalQueries(tags)) + (made + [CreateMeta(last)]);
      }
    } else {
      RemoveAllUnmatched(d, []);
    }
  }

  /** Every row's new meta is matched by that row's own removal selector. */
  lemma OwnSelectorMatches(tag: MetaTag)
    requires Truthy(tag.property) || Truthy(tag.name)
    ensures MatchesAny(CreateMeta(tag), RemovalQuery(tag))
  {
    RemovalQueryMatch(CreateMeta(tag), tag);
  }

  /**
   In the fixed table no row's selector matches an earlier row's meta: the
   property keys are pairwise distinct and none is `undefined`, and the one
   `name` key, `description`, is not `undefined` either.
   */
  lemma TableNoInterference(metaDescription: string, title: string, description: string, imageUrl: string, url: string)
    ensures NoInterference(MetaTags(metaDescription, title, description, imageUrl, url))
  {
    var tags := MetaTags(metaDescription, title, description, imageUrl, url);
    forall i, j | 0 <= j < i < |tags|
      ensures !MatchesAny(CreateMeta(tags[j]), RemovalQuery(tags[i]))
    {
      RemovalQueryMatch(CreateMeta(tags[j]), tags[i]);
    }
  }

  /** A `meta` element carrying the given key attributes and content, and nothing else. */
  function Meta(name: Option<string>, property: Option<string>, content: string): Element
  {
    Element("meta", name, property, None, None, Some(content), "")
  }

  /** The eleven metas `setOpenGraphTags` appends, written out. */
  function ExpectedMetas(metaDescription: string, title: string, description: string, imageUrl: string, url: string): seq<Element>
  {
    [ Meta(Some("description"), None, metaDescription),
      Meta(None, Some("og:title"), title),
      Meta(None, Some("twitter:title"), title),
      Meta(None, Some("og:description"), description),
      Meta(None, Some("twitter:description"), description),
      Meta(None, Some("og:image"), imageUrl),
      Meta(None, Some("twitter:image"), imageUrl),
      Meta(None, Some("og:url"), url),
      Meta(None, Some("og:type"), "website"),
      Meta(None, Some("og:site_name"), "https://couture-metaverse.vercel.app"),
      Meta(None, Some("twitter:card"), "summary_large_image") ]
  }

  /** The key each row writes, as the attribute selector that finds it, in row order. */
  const TableKeys: seq<Selector> := [
    AttributeEquals(Name, "description"),
    AttributeEquals(Property, "og:title"),
    AttributeEquals(Property, "twitter:title"),
    AttributeEquals(Property, "og:description"),
    AttributeEquals(Property, "twitter:description"),
    AttributeEquals(Property, "og:image"),
    AttributeEquals(Property, "twitter:image"),
    AttributeEquals(Property, "og:url"),
    AttributeEquals(Property, "og:type"),
    AttributeEquals(Property, "og:site_name"),
    AttributeEquals(Property, "twitter:card")]

  /** The `property` values the table's selectors remove: the ten keys, and `undefined` from the `description` row. */
  const RemovedProperties: set<string> := {
    "og:title", "twitter:title", "og:description", "twitter:description", "og:image",
    "twitter:image", "og:url", "og:type", "og:site_name", "twitter:card", "undefined"}

  /** The `name` values the table's selectors remove: `description`, and `undefined` from every other row. */
  const RemovedNames: set<string> := {"description", "undefined"}

  /** Whether `setOpenGraphTags` removes a pre-existing element, whatever its tag. */
  predicate RemovedByTable(e: Element)
  {
    || (e.property.Some? && e.property.value in RemovedProperties)
    || (e.name.Some? && e.name.value in RemovedNames)
  }

  /** The rows' new metas are exactly the expected eleven, in order. */
  lemma CreatedMetasOfTable(metaDescription: string, title: string, description: string, imageUrl: string, url: string)
    ensures CreatedMetas(MetaTags(metaDescription, title, description, imageUrl, url))
         == ExpectedMetas(metaDescription, title, description, imageUrl, url)
  {
    var made := CreatedMetas(MetaTags(metaDescription, title, description, imageUrl, url));
    var expected := ExpectedMetas(metaDescription, title, description, imageUrl, url);
    assert |made| == |expected|;
    forall i | 0 <= i < |made|
      ensures made[i] == expected[i]
    {
    }
  }

  /** The selectors depend only on the rows' keys, never on their contents. */
  lemma {:induction false} RemovalQueriesKeysOnly(tags1: seq<MetaTag>, tags2: seq<MetaTag>)
    requires |tags1| == |tags2|
    requires forall i :: 0 <= i < |tags1| ==> tags1[i].name == tags2[i].name && tags1[i].property == tags2[i].property
    ensures RemovalQueries(tags1) == RemovalQueries(tags2)
  {
    if tags1 != [] {
      RemovalQueriesKeysOnly(tags1[..|tags1| - 1], tags2[..|tags2| - 1]);
    }
  }

  /** Every row's selector halves test for a value in the removed sets. */
  lemma TableRowKeys(metaDescription: string, title: string, description: string, imageUrl: string, url: string, i: nat)
    requires i < 11
    ensures var tag := MetaTags(metaDescription, title, description, imageUrl, url)[i];
      Interpolate(tag.property) in RemovedProperties && Interpolate(tag.name) in RemovedNames
  {
  }

  /** What the table's selectors catch, `RemovedByTable` holds of. */
  lemma TableRemovalSound(e: Element, metaDescription: string, title: string, description: string, imageUrl: string, url: string)
    requires MatchesAny(e, RemovalQueries(MetaTags(metaDescription, title, description, imageUrl, url)))
    ensures RemovedByTable(e)
  {
    var tags := MetaTags(metaDescription, title, description, imageUrl, url);
    RemovalQueriesMatch(e, tags);
    var i :| 0 <= i < |tags| && MatchesAny(e, RemovalQuery(tags[i]));
    RemovalQueryMatch(e, tags[i]);
    TableRowKeys(metaDescription, title, description, imageUrl, url, i);
  }

  /** An element one row's selector catches is caught by the table's combined selector. */
  lemma CaughtByRow(e: Element, metaDescription: string, title: string, description: string, imageUrl: string, url: string, i: nat)
    requires i < 11
    requires var tag := MetaTags(metaDescription, title, description, imageUrl, url)[i];
      e.property == Some(Interpolate(tag.property)) || e.name == Some(Interpolate(tag.name))
    ensures MatchesAny(e, RemovalQueries(MetaTags(metaDescription, title, description, imageUrl, url)))
  {
    var tags := MetaTags(metaDescription, title, description, imageUrl, url);
    RemovalQueryMatch(e, tags[i]);
    RemovalQueriesMatch(e, tags);
  }

  /** What `RemovedByTable` holds of, the table's selectors catch: the row that does is named case by case. */
  lemma TableRemovalComplete(e: Element, metaDescription: string, title: string, description: string, imageUrl: string, url: string)
    requires RemovedByTable(e)
    ensures MatchesAny(e, RemovalQueries(MetaTags(metaDescription, title, description, imageUrl, url)))
  {
    var row: nat;
    if e.name == Some("description") || e.property == Some("undefined") {
      row := 0;
    } else if e.name == Some("undefined") || e.property == Some("og:title") {
      row := 1;
    } else if e.property == Some("twitter:title") {
      row := 2;
    } else if e.property == Some("og:description") {
      row := 3;
    } else if e.property == Some("twitter:description") {
      row := 4;
    } else if e.property == Some("og:image") {
      row := 5;
    } else if e.property == Some("twitter:image") {
      row := 6;
    } else if e.property == Some("og:url") {
      row := 7;
    } else if e.property == Some("og:type") {
      row := 8;
    } else if e.property == Some("og:site_name") {
      row := 9;
    } else {
      row := 10;
    }
    CaughtByRow(e, metaDescription, title, description, imageUrl, url, row);
  }

  /**
   The combined selector of the table removes exactly the elements whose
   `property` is one of the ten keys or `undefined`, or whose `name` is
   `description` or `undefined`.
   */
  lemma TableRemovalMatch(e: Element, metaDescription: string, title: string, description: string, imageUrl: string, url: string)
    ensures MatchesAny(e, RemovalQueries(MetaTags(metaDescription, title, description, imageUrl, url))) <==> RemovedByTable(e)
  {
    if RemovedByTable(e) {
      TableRemovalComplete(e, metaDescription, title, description, imageUrl, url);
    }
    if MatchesAny(e, RemovalQueries(MetaTags(metaDescription, title, description, imageUrl, url))) {
      TableRemovalSound(e, metaDescription, title, description, imageUrl, url);
    }
  }

  /** The contents the table writes, in row order. */
  function TableContents(metaDescription: string, title: string, description: string, imageUrl: string, url: string): seq<string>
  {
    [ metaDescription, title, title, description, description, imageUrl, imageUrl, url,
      "website", "https://couture-metaverse.vercel.app", "summary_large_image" ]
  }

  /**
   After `setOpenGraphTags` the document is the old one with every element
   the table's selectors match removed (the rest keep their relative order),
   followed by the eleven new metas in table order. A pre-existing element
   survives exactly when `RemovedByTable` does not hold of it.
   */
  lemma SetOpenGraphTagsResult(d: Document, metaDescription: string, title: string, description: string, imageUrl: string, url: string)
    ensures var r := SetOpenGraphTags(d, metaDescription, title, description, imageUrl, url);
      && |r| >= 11
      && r[..|r| - 11] == RemoveAll(d, RemovalQueries(MetaTags(metaDescription, title, description, imageUrl, url)))
      && r[|r| - 11..] == ExpectedMetas(metaDescription, title, description, imageUrl, url)
      && (forall e :: e in r[..|r| - 11] <==> e in d && !RemovedByTable(e))
  {
    var tags := MetaTags(metaDescription, title, description, imageUrl, url);
    TableNoInterference(metaDescription, title, description, imageUrl, url);
    ApplyMetaTagsShape(d, tags);
    CreatedMetasOfTable(metaDescription, title, description, imageUrl, url);
    var kept := RemoveAll(d, RemovalQueries(tags));
    var r := kept + ExpectedMetas(metaDescription, title, description, imageUrl, url);
    assert r[..|r| - 11] == kept;
    forall e
      ensures e in kept <==> e in d && !RemovedByTable(e)
    {
      TableRemovalMatch(e, metaDescription, title, description, imageUrl, url);
    }
  }

  /** Each row's key names exactly the elements `RemovedByTable` must catch. */
  lemma TableKeysRemoved(e: Element, i: nat)
    requires i < |TableKeys|
    requires MatchesAny(e, [TableKeys[i]])
    ensures RemovedByTable(e)
  {
    MatchesAnySingle(e, TableKeys[i]);
  }

  /** The expected meta in row `j` carries exactly one key: that row's. */
  lemma ExpectedMetaKey(metaDescription: string, title: string, description: string, imageUrl: string, url: string, j: nat, a: AttributeName, v: string)
    requires j < 11
    ensures Matches(ExpectedMetas(metaDescription, title, description, imageUrl, url)[j], AttributeEquals(a, v))
        <==> AttributeEquals(a, v) == TableKeys[j]
  {
  }

  /** No two rows share a key. */
  lemma TableKeysDistinct(i: nat, j: nat)
    requires i < |TableKeys| && j < |TableKeys|
    requires TableKeys[i] == TableKeys[j]
    ensures i == j
  {
  }

  /** Each key is carried by exactly one of the expected metas: the one in its own row. */
  lemma ExpectedMetasKeys(metaDescription: string, title: string, description: string, imageUrl: string, url: string, i: nat)
    requires i < |TableKeys|
    ensures var metas := ExpectedMetas(metaDescription, title, description, imageUrl, url);
      && Count(metas, [TableKeys[i]]) == 1
      && QuerySelector(metas, [TableKeys[i]]) == Some(i)
  {
    var metas := ExpectedMetas(metaDescription, title, description, imageUrl, url);
    var key := TableKeys[i];
    forall j | 0 <= j < |metas|
      ensures MatchesAny(metas[j], [key]) <==> j == i
    {
      MatchesAnySingle(metas[j], key);
      ExpectedMetaKey(metaDescription, title, description, imageUrl, url, j, key.attribute, key.value);
      if key == TableKeys[j] {
        TableKeysDistinct(i, j);
      }
    }
    CountOne(metas, [key], i);
  }

  /** The expected meta in row `i` carries that row's content. */
  lemma ExpectedMetasContent(metaDescription: string, title: string, description: string, imageUrl: string, url: string, i: nat)
    requires i < 11
    ensures ExpectedMetas(metaDescription, title, description, imageUrl, url)[i].content
         == Some(TableContents(metaDescription, title, description, imageUrl, url)[i])
  {
  }

  /** Elements the table's selectors spare carry none of its keys. */
  lemma KeptCarriesNoKey(kept: Document, i: nat)
    requires i < |TableKeys|
    requires forall e :: e in kept ==> !RemovedByTable(e)
    ensures QuerySelector(kept, [TableKeys[i]]).None?
  {
    forall j | 0 <= j < |kept|
      ensures !MatchesAny(kept[j], [TableKeys[i]])
    {
      assert kept[j] in kept;
      if MatchesAny(kept[j], [TableKeys[i]]) {
        TableKeysRemoved(kept[j], i);
      }
    }
  }

  /**
   Whatever survived removal, appending the eleven expected metas leaves each
   key carried by exactly one element, the new meta in that key's row.
   */
  lemma UniqueKeyAfterTable(kept: Document, metaDescription: string, title: string, description: string, imageUrl: string, url: string, i: nat)
    requires i < |TableKeys|
    requires forall e :: e in kept ==> !RemovedByTable(e)
    ensures var r := kept + ExpectedMetas(metaDescription, title, description, imageUrl, url);
      && Count(r, [TableKeys[i]]) == 1
      && QuerySelector(r, [TableKeys[i]]) == Some(|kept| + i)
      && r[|kept| + i].content == Some(TableContents(metaDescription, title, description, imageUrl, url)[i])
  {
    var metas := ExpectedMetas(metaDescription, title, description, imageUrl, url);
    var key := [TableKeys[i]];
    KeptCarriesNoKey(kept, i);
    ExpectedMetasKeys(metaDescription, title, description, imageUrl, url, i);
    UniqueAfterUnmatched(kept, metas, key, i);
    ExpectedMetasContent(metaDescription, title, description, imageUrl, url, i);
  }

  /**
   Per-key uniqueness: after `setOpenGraphTags` each of the eleven keys is
   carried by exactly one element, whatever the document held before; it is
   the new meta in that key's row, and it carries that row's content.
   */
  lemma SetOpenGraphTagsUniqueKeys(d: Document, metaDescription: string, title: string, description: string, imageUrl: string, url: string, i: nat)
    requires i < |TableKeys|
    ensures var r := SetOpenGraphTags(d, metaDescription, title, description, imageUrl, url);
      && Count(r, [TableKeys[i]]) == 1
      && QuerySelector(r, [TableKeys[i]]) == Some(|r| - 11 + i)
      && r[|r| - 11 + i].content == Some(TableContents(metaDescription, title, description, imageUrl, url)[i])
  {
    var r := SetOpenGraphTags(d, metaDescription, title, description, imageUrl, url);
    SetOpenGraphTagsResult(d, metaDescription, title, description, imageUrl, url);
    var kept := r[..|r| - 11];
    assert r == kept + r[|r| - 11..];
    UniqueKeyAfterTable(kept, metaDescription, title, description, imageUrl, url, i);
  }

  /**
   Re-running the same filter over its own output plus metas it catches, then
   appending, leaves the survivors followed by the new metas: the metas
   appended earlier are gone.
   */
  lemma ReapplyReplaces(d: Document, q: seq<Selector>, made1: Document, made2: Document)
    requires forall j :: 0 <= j < |made1| ==> MatchesAny(made1[j], q)
    ensures RemoveAll(RemoveAll(d, q) + made1, q) + made2 == RemoveAll(d, q) + made2
  {
    var kept := RemoveAll(d, q);
    RemoveAllMatched(made1, q);
    RemoveAllAppend(kept, made1, q);
    RemoveAllIdempotent(d, q);
    assert kept + [] == kept;
  }

  /** The meta row `j` creates is removed again by the list's combined selector. */
  lemma CreatedMetaRemoved(tags: seq<MetaTag>, j: nat)
    requires j < |tags|
    requires Truthy(tags[j].property) || Truthy(tags[j].name)
    ensures MatchesAny(CreateMeta(tags[j]), RemovalQueries(tags))
  {
    OwnSelectorMatches(tags[j]);
    RemovalQueriesMatch(CreateMeta(tags[j]), tags);
  }

  /** Every meta a row list creates is removed again by that list's combined selector. */
  lemma CreatedMetasRemoved(tags: seq<MetaTag>)
    requires forall i :: 0 <= i < |tags| ==> Truthy(tags[i].property) || Truthy(tags[i].name)
    ensures forall j :: 0 <= j < |tags| ==> MatchesAny(CreatedMetas(tags)[j], RemovalQueries(tags))
  {
    forall j | 0 <= j < |tags|
      ensures MatchesAny(CreateMeta(tags[j]), RemovalQueries(tags))
    {
      CreatedMetaRemoved(tags, j);
    }
  }

  /**
   Last writer wins: `setOpenGraphTags(b)` after `setOpenGraphTags(a)` leaves
   what `setOpenGraphTags(b)` alone would.
   */
  lemma SetOpenGraphTagsLastWriterWins(d: Document,
      metaDescription1: string, title1: string, description1: string, imageUrl1: string, url1: string,
      metaDescription2: string, title2: string, description2: string, imageUrl2: string, url2: string)
    ensures SetOpenGraphTags(SetOpenGraphTags(d, metaDescription1, title1, description1, imageUrl1, url1),
                             metaDescription2, title2, description2, imageUrl2, url2)
         == SetOpenGraphTags(d, metaDescription2, title2, description2, imageUrl2, url2)
  {
    var tags1 := MetaTags(metaDescription1, title1, description1, imageUrl1, url1);
    var tags2 := MetaTags(metaDescription2, title2, description2, imageUrl2, url2);
    TableNoInterference(metaDescription1, title1, description1, imageUrl1, url1);
    TableNoInterference(metaDescription2, title2, description2, imageUrl2, url2);
    RemovalQueriesKeysOnly(tags1, tags2);
    CreatedMetasRemoved(tags1);
    var q := RemovalQueries(tags2);
    var r1 := ApplyMetaTags(d, tags1);
    ApplyMetaTagsShape(d, tags1);
    ApplyMetaTagsShape(r1, tags2);
    ApplyMetaTagsShape(d, tags2);
    ReapplyReplaces(d, q, CreatedMetas(tags1), CreatedMetas(tags2));
  }

  /** Calling `setOpenGraphTags` twice with the same arguments leaves what calling it once does. */
  lemma SetOpenGraphTagsIdempotent(d: Document, metaDescription: string, title: string, description: string, imageUrl: string, url: string)
    ensures var r := SetOpenGraphTags(d, metaDescription, title, description, imageUrl, url);
      SetOpenGraphTags(r, metaDescription, title, description, imageUrl, url) == r
  {
    SetOpenGraphTagsLastWriterWins(d, metaDescription, title, description, imageUrl, url,
                                   metaDescription, title, description, imageUrl, url);
  }
}
