# Couture Metaverse page metadata, modelled in Dafny

The site keeps its document head in step with the page being shown through
one Vue mixin, `openGraphMixin`, which has two methods:

- `setPageTitle(mainTitle)` writes the page title into the first `<title>`
  element, or appends a new one. It then points the first
  `<link rel="canonical">` at the fixed site root, or appends such a link.
  This is the canonical link relation of RFC 6596.
- `setOpenGraphTags(metaDescription, title, description, imageUrl, url)`
  walks a fixed eleven-row table: the plain `description`, the Open Graph
  (ogp.me) keys and the Twitter-card keys. For each row it removes every
  element matched by `[property="P"], [name="N"]` and appends a fresh
  `<meta>` carrying the row's key and content.

The project also models the store module's credits manifest. It is a
constant list of nineteen `{id, title, version, url}` records and has no
getters, mutations or actions.

The document is an immutable sequence of element records. Each record has a
tag, optional `name`, `property`, `rel`, `href` and `content` attributes, and
a text. Both methods become pure functions from one document to the next:

- `document.querySelector` is `Dom.QuerySelector`, which gives the index of
  the first match.
- `querySelectorAll(...).forEach(remove)` is `Dom.RemoveAll`, a filter that
  keeps order.
- `appendChild` is concatenation at the end.
- The `forEach` over the table is `OpenGraphMixin.ApplyMetaTags`. It is a
  fold that handles the rows in table order.

Files:

- `dom.dfy` (module `Dom`): elements, selectors, `QuerySelector`,
  `RemoveAll`, `Count`, and their algebra.
- `open_graph_mixin.dfy` (module `OpenGraphMixin`): the two methods, the
  meta-tag table, `CreateMeta` and the removal selector.
- `page_title_properties.dfy` (module `PageTitleProperties`): closed forms,
  frame, counts, idempotence and last-writer-wins for `setPageTitle`.
- `open_graph_properties.dfy` (module `OpenGraphProperties`): the shape of
  the result, survival, per-key uniqueness, idempotence and last-writer-wins
  for `setOpenGraphTags`.
- `scenarios.dfy` (module `Scenarios`): concrete heads. These are an empty
  document, the head injected at build time (`vue.config.js:42-55`), and
  elements caught by the `undefined` selector halves.
- `info_store.dfy` (module `InfoStore`): the credits manifest.
- `wrappers.dfy` (module `Wrappers`): the `Option` type both models share.

### Behaviour worth knowing

- **The `undefined` removal selector.** The removal selector on lines 59-61
  of `src/assets/ogimage/openGraphMixin.js` always has both halves,
  `[property="${metaTag.property}"]` and `[name="${metaTag.name}"]`. A row
  that lacks one of the two keys interpolates it as the string `undefined`.
  The model keeps this (`OpenGraphMixin.Interpolate`,
  `OpenGraphProperties.RemovedByTable`):
  - any element with `name="undefined"` is removed by the ten property rows;
  - any element with `property="undefined"` is removed by the description
    row.
- **Unrelated metas survive.** The removal selectors name only the eleven
  table keys and the `undefined` values (lines 35-61). So after
  `setOpenGraphTags` each of the eleven keys occurs exactly once, but a meta
  with any other key is kept. On the metas that `vue.config.js:42-55`
  injects at build time, the `google-site-verification` meta survives next
  to the eleven new metas (`Scenarios.BuildHeadScenario`). That scenario's
  head holds only the injected metas; the page template's own elements are
  not part of the model.
- **A second call appends rather than overwriting.** Each row removes the
  old meta (line 62) and appends the new one at the end of the head
  (line 65). A second call with new values therefore moves the table's
  metas to the end instead of changing their contents where they stand. The
  result still equals a single call with the new values
  (`OpenGraphProperties.SetOpenGraphTagsLastWriterWins`).
- **Extra titles and canonical links are kept.** `setPageTitle` updates only
  the first `title` (lines 5-9) and the first `link[rel="canonical"]`
  (lines 21-31) and removes nothing. A head that already holds several of
  either keeps all of them, so each count becomes max(1, old count)
  (`PageTitleProperties.SetPageTitleCounts`).

## Model

| member | source | states |
|---|---|---|
| Dom.QuerySelector | src/assets/ogimage/openGraphMixin.js:5 | `querySelector`: the result is the index of a matching element with no match before it, and there is no result exactly when no element matches |
| Dom.QuerySelectorAppend | src/assets/ogimage/openGraphMixin.js:14 | after `appendChild`, the first match is the old first match if there was one; otherwise it is the appended element if that matches, else there is none |
| Dom.QuerySelectorUpdate | src/assets/ogimage/openGraphMixin.js:9 | changing an element in a way that keeps whether it matches leaves the first match unchanged |
| Dom.QuerySelectorUnique | src/assets/ogimage/openGraphMixin.js:5 | any element that matches, with no match before it, is the one `querySelector` returns |
| Dom.QuerySelectorConcat | src/assets/ogimage/openGraphMixin.js:59-65 | when no element of the first part matches, the first match of a concatenation is the first match of the second part, shifted by the first part's length |
| Dom.UniqueAfterUnmatched | src/assets/ogimage/openGraphMixin.js:59-65 | when a selector matches nothing in the first part and exactly one element of the second, it matches exactly one element of the concatenation, the same element at its shifted position |
| Dom.RemoveAll | src/assets/ogimage/openGraphMixin.js:59-62 | removing every match of a selector list keeps exactly the elements of the document that match none of its selectors, and never grows the document |
| Dom.RemoveAllAppend | src/assets/ogimage/openGraphMixin.js:59-62 | removal distributes over concatenation, so survivors keep their relative order |
| Dom.RemoveAllUnmatched | src/assets/ogimage/openGraphMixin.js:59-62 | when nothing matches, removal leaves the document unchanged |
| Dom.RemoveAllSequential | src/assets/ogimage/openGraphMixin.js:59-62 | removing with one selector list and then another equals removing once with both lists |
| Dom.RemoveAllMatched | src/assets/ogimage/openGraphMixin.js:59-62 | a document that the selector list matches throughout is removed entirely |
| Dom.RemoveAllIdempotent | src/assets/ogimage/openGraphMixin.js:59-62 | removing twice with the same selector list is the same as removing once |
| Dom.Count | src/assets/ogimage/openGraphMixin.js:59-62 | the number of elements a selector list matches: at most the document's length, and zero exactly when `querySelector` finds nothing; `Dom.CountAppend`, `Dom.CountUpdate` and `Dom.CountOne` relate it to appends, overwrites and a unique match |
| Dom.CountAppend | src/assets/ogimage/openGraphMixin.js:14 | the number of matches in a concatenation is the sum of the numbers in its parts |
| Dom.CountAppendOne | src/assets/ogimage/openGraphMixin.js:14 | appending one element raises the number of matches by one exactly when the element matches |
| Dom.CountAfterUnmatched | src/assets/ogimage/openGraphMixin.js:59-65 | after a part with no match, the number of matches is the number in what follows |
| Dom.CountUpdate | src/assets/ogimage/openGraphMixin.js:9 | changing an element in a way that keeps whether it matches leaves the number of matches unchanged |
| Dom.CountOne | src/assets/ogimage/openGraphMixin.js:59-60 | when exactly one element matches, the selector has one match and it is the first match |
| Dom.MatchesAny | src/assets/ogimage/openGraphMixin.js:59-61 | whether an element matches a selector list; its contract is in `Dom.MatchesAnyMember` (matches exactly when some selector of the list matches), `Dom.MatchesAnyPair` and `Dom.MatchesAnyConcat` |
| Dom.MatchesAnyMember | src/assets/ogimage/openGraphMixin.js:59-61 | an element matches a comma-separated selector list exactly when it matches some selector in the list |
| Dom.MatchesAnySingle | src/assets/ogimage/openGraphMixin.js:5 | a one-selector list matches exactly what its selector matches |
| Dom.MatchesAnyPair | src/assets/ogimage/openGraphMixin.js:59-61 | the list `[property="P"], [name="N"]` matches exactly what either of its two selectors matches |
| Dom.MatchesAnyConcat | src/assets/ogimage/openGraphMixin.js:59-61 | a joined selector list matches an element exactly when one of its two parts does |
| OpenGraphMixin.UpdateTitle | src/assets/ogimage/openGraphMixin.js:5-15 | the title upsert; its contract is in `PageTitleProperties.UpdateTitleOverwrites`, `UpdateTitleAppends` and `UpdateTitleQueries` |
| OpenGraphMixin.UpdateCanonical | src/assets/ogimage/openGraphMixin.js:20-31 | the canonical-link upsert; its contract is in `PageTitleProperties.UpdateCanonicalOverwrites`, `UpdateCanonicalAppends` and `UpdateCanonicalQueries` |
| OpenGraphMixin.SetPageTitle | src/assets/ogimage/openGraphMixin.js:3-32 | `setPageTitle`; its contract is in `PageTitleProperties.SetPageTitleCases`, `SetPageTitleFrame`, `SetPageTitleCounts`, `SetPageTitleEnsures`, `SetPageTitleLastWriterWins` and `SetPageTitleIdempotent` |
| OpenGraphMixin.MetaTags | src/assets/ogimage/openGraphMixin.js:35-47 | the eleven-row table; `OpenGraphProperties.CreatedMetasOfTable` and `TableRemovalMatch` state what its rows create and remove |
| OpenGraphMixin.RemovalQuery | src/assets/ogimage/openGraphMixin.js:59-61 | one row's removal selector; its contract is in `OpenGraphProperties.RemovalQueryMatch` (a `property` or `name` equal to the interpolated key, `undefined` for a missing one) |
| OpenGraphMixin.ApplyMetaTag | src/assets/ogimage/openGraphMixin.js:49-65 | one `forEach` iteration, remove then append; `OpenGraphProperties.ReapplyReplaces` and `ApplyMetaTagsShape` state its effect |
| OpenGraphMixin.ApplyMetaTags | src/assets/ogimage/openGraphMixin.js:49-66 | the whole `forEach`, rows in order; its contract is in `OpenGraphProperties.ApplyMetaTagsShape` |
| OpenGraphMixin.SetOpenGraphTags | src/assets/ogimage/openGraphMixin.js:34-67 | `setOpenGraphTags`; its contract is in `OpenGraphProperties.SetOpenGraphTagsResult`, `SetOpenGraphTagsUniqueKeys`, `SetOpenGraphTagsLastWriterWins` and `SetOpenGraphTagsIdempotent` |
| OpenGraphMixin.CreateMeta | src/assets/ogimage/openGraphMixin.js:50-56 | the new meta gets `property` when the row's property is truthy, otherwise `name` when the row's name is truthy, never both; it always carries the row's content, unvalidated |
| OpenGraphProperties.CreatedMetas | src/assets/ogimage/openGraphMixin.js:49-56 | the metas the loop appends are one per row, in row order, each built by `CreateMeta` from its row |
| OpenGraphProperties.RemovalQueryMatch | src/assets/ogimage/openGraphMixin.js:59-61 | a row's removal selector matches an element exactly when the element's `property` equals the row's property or its `name` equals the row's name, where a missing key reads as the string `undefined` |
| OpenGraphProperties.RemovalQueriesMatch | src/assets/ogimage/openGraphMixin.js:49-62 | the selectors of all rows together match an element exactly when some row's removal selector matches it |
| OpenGraphProperties.ApplyMetaTagsShape | src/assets/ogimage/openGraphMixin.js:49-66 | when no row's new meta is caught by a later row's selector, the loop equals one removal with every row's selector followed by all new metas in row order |
| OpenGraphProperties.TableNoInterference | src/assets/ogimage/openGraphMixin.js:35-61 | in the fixed table, no row's removal selector matches the meta an earlier row appended |
| OpenGraphProperties.OwnSelectorMatches | src/assets/ogimage/openGraphMixin.js:50-61 | a row with a truthy key builds a meta that its own removal selector matches |
| OpenGraphProperties.TableRemovalMatch | src/assets/ogimage/openGraphMixin.js:35-61 | the table's selectors catch an element exactly when its `property` is one of the ten table properties or `undefined`, or its `name` is `description` or `undefined` |
| OpenGraphProperties.TableRowKeys | src/assets/ogimage/openGraphMixin.js:35-61 | each row's selector halves test a `property` value that the removed properties contain and a `name` value that the removed names contain |
| OpenGraphProperties.TableRemovalSound | src/assets/ogimage/openGraphMixin.js:35-61 | any element the table's selectors catch has a removed property or a removed name |
| OpenGraphProperties.CaughtByRow | src/assets/ogimage/openGraphMixin.js:35-61 | an element whose `property` or `name` equals a row's interpolated key is caught by the table's selectors |
| OpenGraphProperties.TableRemovalComplete | src/assets/ogimage/openGraphMixin.js:35-61 | any element with a removed property or a removed name is caught by the table's selectors |
| OpenGraphProperties.CreatedMetasOfTable | src/assets/ogimage/openGraphMixin.js:35-56 | the table produces the eleven expected metas: `description` as a name, ten properties, and the five arguments plus `website`, the site root and `summary_large_image` as contents |
| OpenGraphProperties.RemovalQueriesKeysOnly | src/assets/ogimage/openGraphMixin.js:59-61 | the removal selectors depend only on the rows' keys, never on their contents |
| OpenGraphProperties.SetOpenGraphTagsResult | src/assets/ogimage/openGraphMixin.js:34-66 | the result is the survivors of the old document followed by the eleven new metas in table order, and an old element survives exactly when the table's selectors do not catch it |
| OpenGraphProperties.SetOpenGraphTagsUniqueKeys | src/assets/ogimage/openGraphMixin.js:35-66 | each of the eleven keys is carried by exactly one element, namely the new meta of its row, which holds that row's content |
| OpenGraphProperties.TableKeysRemoved | src/assets/ogimage/openGraphMixin.js:35-61 | an element that carries one of the table's keys is among those the table removes |
| OpenGraphProperties.KeptCarriesNoKey | src/assets/ogimage/openGraphMixin.js:59-62 | the elements that survive removal carry none of the eleven keys |
| OpenGraphProperties.ExpectedMetaKey | src/assets/ogimage/openGraphMixin.js:35-56 | each new meta matches an attribute selector exactly when that selector is the key of its own row |
| OpenGraphProperties.TableKeysDistinct | src/assets/ogimage/openGraphMixin.js:35-47 | no two rows of the table share a key |
| OpenGraphProperties.ExpectedMetasKeys | src/assets/ogimage/openGraphMixin.js:35-56 | among the eleven new metas, each key is carried by exactly one, the meta in its own row |
| OpenGraphProperties.ExpectedMetasContent | src/assets/ogimage/openGraphMixin.js:35-56 | the new meta in each row carries that row's content |
| OpenGraphProperties.UniqueKeyAfterTable | src/assets/ogimage/openGraphMixin.js:35-66 | after survivors that carry no key, each key is carried by exactly one element, the new meta of its row, which holds the row's content |
| OpenGraphProperties.ReapplyReplaces | src/assets/ogimage/openGraphMixin.js:59-65 | removing again after appending elements that the selector catches undoes the append |
| OpenGraphProperties.CreatedMetaRemoved | src/assets/ogimage/openGraphMixin.js:50-61 | a meta built from a row with a truthy key is caught by the combined selectors of the list it came from |
| OpenGraphProperties.CreatedMetasRemoved | src/assets/ogimage/openGraphMixin.js:50-61 | every meta the table creates is caught by the table's own removal selectors |
| OpenGraphProperties.SetOpenGraphTagsLastWriterWins | src/assets/ogimage/openGraphMixin.js:34-66 | a call with new arguments after an earlier call leaves what the new call alone leaves |
| OpenGraphProperties.SetOpenGraphTagsIdempotent | src/assets/ogimage/openGraphMixin.js:34-66 | a second call with the same arguments changes nothing |
| PageTitleProperties.TitleQueryMatches | src/assets/ogimage/openGraphMixin.js:5 | the selector `title` matches exactly the title elements |
| PageTitleProperties.CanonicalQueryMatches | src/assets/ogimage/openGraphMixin.js:21 | the selector `link[rel="canonical"]` matches exactly the links whose `rel` is `canonical` |
| PageTitleProperties.UpdateTitleOverwrites | src/assets/ogimage/openGraphMixin.js:5-9 | overwriting the first title's text keeps it the first title and leaves the first canonical link and both counts unchanged |
| PageTitleProperties.UpdateTitleAppends | src/assets/ogimage/openGraphMixin.js:10-15 | when no title exists, the appended title becomes the first and only title, and the canonical links are unchanged |
| PageTitleProperties.UpdateTitleQueries | src/assets/ogimage/openGraphMixin.js:5-15 | after the title upsert, the first title is the old first title or the appended one at the old end, the number of titles is max(1, old count), and canonical links are untouched |
| PageTitleProperties.UpdateCanonicalOverwrites | src/assets/ogimage/openGraphMixin.js:28-31 | overwriting the first canonical link's `href` keeps it the first canonical link, and leaves the first title and both counts unchanged |
| PageTitleProperties.UpdateCanonicalAppends | src/assets/ogimage/openGraphMixin.js:22-27 | when no canonical link exists, the appended one is afterwards the first and only canonical link, and the first title and the number of titles are unchanged |
| PageTitleProperties.UpdateCanonicalQueries | src/assets/ogimage/openGraphMixin.js:20-31 | the canonical upsert grows the document by one exactly when no canonical link existed; the first canonical ends up at the old position or at the end, the number of canonical links is max(1, old count), and titles are untouched |
| PageTitleProperties.SetPageTitleBothExist | src/assets/ogimage/openGraphMixin.js:5-31 | with a title and a canonical link present, they are distinct elements and each is overwritten in place, with nothing appended |
| PageTitleProperties.SetPageTitleOnlyTitle | src/assets/ogimage/openGraphMixin.js:5-31 | with a title but no canonical link, the title is overwritten in place and one canonical link is appended |
| PageTitleProperties.SetPageTitleOnlyCanonical | src/assets/ogimage/openGraphMixin.js:5-31 | with a canonical link but no title, the link is overwritten in place and one title is appended |
| PageTitleProperties.SetPageTitleNeither | src/assets/ogimage/openGraphMixin.js:5-31 | with neither present, exactly a new title and then a new canonical link are appended |
| PageTitleProperties.SetPageTitleCases | src/assets/ogimage/openGraphMixin.js:5-31 | the four closed forms above, dispatched on whether the title and the canonical link exist |
| PageTitleProperties.SetPageTitleQueries | src/assets/ogimage/openGraphMixin.js:5-31 | the first title stays where it was or is the element appended at the old end; the first canonical stays where it was or is the last element |
| PageTitleProperties.SetPageTitleCounts | src/assets/ogimage/openGraphMixin.js:7-31 | the number of title elements becomes max(1, old count), and the number of canonical links likewise |
| PageTitleProperties.SetPageTitleEnsures | src/assets/ogimage/openGraphMixin.js:5-31 | afterwards a title exists and the first one's text is the argument, and a canonical link exists and the first one points at the site root |
| PageTitleProperties.SetPageTitleFrame | src/assets/ogimage/openGraphMixin.js:5-31 | nothing is removed and at most a title and a canonical link are appended; every element other than the first title and the first canonical link is unchanged and keeps its position |
| PageTitleProperties.SecondCallOverwrites | src/assets/ogimage/openGraphMixin.js:5-31 | after one call, a second call appends nothing; it only overwrites the first title's text and the first canonical link's `href` |
| PageTitleProperties.SetPageTitleLastWriterWins | src/assets/ogimage/openGraphMixin.js:5-31 | calling with `t1` and then `t2` leaves what calling with `t2` alone leaves |
| PageTitleProperties.LastWriterWinsBothExist | src/assets/ogimage/openGraphMixin.js:5-31 | with a title and a canonical link present, calling with `t1` and then `t2` equals calling with `t2` |
| PageTitleProperties.LastWriterWinsOnlyTitle | src/assets/ogimage/openGraphMixin.js:5-31 | with a title but no canonical link present, calling with `t1` and then `t2` equals calling with `t2` |
| PageTitleProperties.LastWriterWinsOnlyCanonical | src/assets/ogimage/openGraphMixin.js:5-31 | with a canonical link but no title present, calling with `t1` and then `t2` equals calling with `t2` |
| PageTitleProperties.LastWriterWinsNeither | src/assets/ogimage/openGraphMixin.js:5-31 | with neither present, calling with `t1` and then `t2` equals calling with `t2` |
| PageTitleProperties.SetPageTitleIdempotent | src/assets/ogimage/openGraphMixin.js:5-31 | a second call with the same title changes nothing |
| Scenarios.KeepThenRemove | src/assets/ogimage/openGraphMixin.js:59-62 | removal keeps a prefix that no selector matches and drops a suffix that they all match |
| Scenarios.ReplacesMatchedSuffix | src/assets/ogimage/openGraphMixin.js:49-66 | on a head whose uncaught elements all come first, `setOpenGraphTags` keeps those and replaces the rest with the eleven new metas |
| Scenarios.UndefinedKeysRemoved | src/assets/ogimage/openGraphMixin.js:59-61 | `meta name="undefined"` and any element with `property="undefined"` are removed, while `meta name="keywords"` survives |
| Scenarios.EmptyDocumentScenario | src/assets/ogimage/openGraphMixin.js:3-66 | from an empty head, `setPageTitle("Home")` and then `setOpenGraphTags(...)` leave the title, the canonical link and the eleven metas, in that order |
| Scenarios.BuildHeadScenario | vue.config.js:42-55 | on a head made of the metas injected at build time, every injected tag is replaced except `google-site-verification`, which survives next to the eleven new metas |
| InfoStore.Manifest | src/store/modules/service/infoStore.js:1-118 | the manifest has nineteen entries; the entry at position i has id i + 1; the first entry is Three.js, version 171; the version is empty exactly for ids 9-14 and 16-19 |
| InfoStore.ManifestIdsStrictlyIncreasing | src/store/modules/service/infoStore.js:5-114 | ids are strictly increasing and lie between 1 and 19, so they are unique |
| InfoStore.ManifestLookup | src/store/modules/service/infoStore.js:5-114 | each id from 1 to 19 names exactly the entry at position id - 1, and every other id names no entry |

## Left out

- Real DOM semantics. The model has no tree, no distinction between
  `document` and `document.head`, and no nested children. `querySelector`
  searches the whole document, so a title inside an inline SVG would count
  as "the first title"; the model has one flat sequence, and appends go to
  its end.
- `innerText` rendering (whitespace, line breaks, hidden text): the model
  stores the assigned string as the element's text.
- CSS selectors beyond the three forms the mixin uses: a tag name,
  `[attr="value"]` and `tag[attr="value"]`. The model compares attribute
  values by exact string equality and does not case-fold tag names. A
  key containing a quote character, which would make the source's
  selector malformed, is not modelled, since every table key is a fixed
  literal without one.
- The Vue mixin and Vuex wiring: how components call the methods, and how
  the store module is registered. The manifest's constant state is a
  function of no arguments, so every read returns the same sequence.
- `vue.config.js` except its injected meta list, which serves only as the
  initial head in `Scenarios.BuildHeadScenario`. The copy, favicon,
  sitemap and analytics plugins run third-party code that is not visible.
- URL validation and network access: neither appears in the code, and
  contents are written through as given.
