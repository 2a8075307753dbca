/**
 Concrete documents run through the mixin: an empty document, the head the
 build step injects, and elements that the `undefined` halves of the removal
 selector catch.
 */
module Scenarios {
  import opened Wrappers
  import opened Dom
  import opened OpenGraphMixin
  import opened PageTitleProperties
  import opened OpenGraphProperties

  /**
   `setOpenGraphTags` over a document whose elements the table's selectors
   match throughout, after a prefix they match nowhere, keeps the prefix
   and replaces the rest with the eleven new metas.
   */
  lemma ReplacesMatchedSuffix(kept: Document, removed: Document,
      metaDescription: string, title: string, description: string, imageUrl: string, url: string)
    requires forall j :: 0 <= j < |kept| ==> !RemovedByTable(kept[j])
    requires forall j :: 0 <= j < |removed| ==> RemovedByTable(removed[j])
    ensures SetOpenGraphTags(kept + removed, metaDescription, title, description, imageUrl, url)
         == kept + ExpectedMetas(metaDescription, title, description, imageUrl, url)
  {
    var q := RemovalQueries(MetaTags(metaDescription, title, description, imageUrl, url));
    forall j | 0 <= j < |kept|
      ensures !MatchesAny(kept[j], q)
    {
      TableRemovalMatch(kept[j], metaDescription, title, description, imageUrl, url);
    }
    forall j | 0 <= j < |removed|
      ensures MatchesAny(removed[j], q)
    {
      TableRemovalMatch(removed[j], metaDescription, title, description, imageUrl, url);
    }
    KeepThenRemove(kept, removed, q);
    SetOpenGraphTagsResult(kept + removed, metaDescription, title, description, imageUrl, url);
  }

  /** Removal keeps a prefix the list never matches and drops a suffix it matches throughout. */
  lemma KeepThenRemove(kept: Document, removed: Document, q: seq<Selector>)
    requires forall j :: 0 <= j < |kept| ==> !MatchesAny(kept[j], q)
    requires forall j :: 0 <= j < |removed| ==> MatchesAny(removed[j], q)
    ensures RemoveAll(kept + removed, q) == kept
  {
    RemoveAllAppend(kept, removed, q);
    RemoveAllUnmatched(kept, q);
    RemoveAllMatched(removed, q);
  }

  /**
   The selector quirk: a `meta name="undefined"` and any element with
   `property="undefined"` are removed although no row uses that key, while
   an unrelated `meta name="keywords"` survives.
   */
  lemma UndefinedKeysRemoved(metaDescription: string, title: string, description: string, imageUrl: string, url: string)
    ensures var keywords := Meta(Some("keywords"), None, "3d");
      SetOpenGraphTags(
        [keywords, Meta(Some("undefined"), None, "x"), CreateElement("div").(property := Some("undefined"))],
        metaDescription, title, description, imageUrl, url)
      == [keywords] + ExpectedMetas(metaDescription, title, description, imageUrl, url)
  {
    var keywords := Meta(Some("keywords"), None, "3d");
    var removed := [Meta(Some("undefined"), None, "x"), CreateElement("div").(property := Some("undefined"))];
    assert [keywords] + removed == [keywords, removed[0], removed[1]];
    ReplacesMatchedSuffix([keywords], removed, metaDescription, title, description, imageUrl, url);
  }

  /**
   From an empty document, `setPageTitle("Home")` followed by
   `setOpenGraphTags(...)` leaves the title, the canonical link and the eleven
   metas, in that order.
   */
  lemma EmptyDocumentScenario()
    ensures SetOpenGraphTags(SetPageTitle([], "Home"), "d", "t", "desc", "img.jpg", "https://site/x")
         == [NewTitle("Home"), NewCanonical()] + ExpectedMetas("d", "t", "desc", "img.jpg", "https://site/x")
  {
    SetPageTitleNeither([], "Home");
    assert [] + [NewTitle("Home"), NewCanonical()] == [NewTitle("Home"), NewCanonical()] + [];
    ReplacesMatchedSuffix([NewTitle("Home"), NewCanonical()], [], "d", "t", "desc", "img.jpg", "https://site/x");
  }

  /** The `google-site-verification` meta the build step injects before the table's own tags. */
  function VerificationMeta(): Element
  {
    Meta(Some("google-site-verification"), None, "Gq9vrXtN91P1JteGFo-xrlLKT0PR8u-4P4xs21oUr8Y")
  }

  /** The metas the build step injects after the verification meta, with their build-time contents. */
  function BuildTimeMetas(): Document
  {
    [ Meta(Some("description"), None, "Couture Metaverse 3D"),
      Meta(None, Some("og:title"), "Couture Metaverse 3D"),
      Meta(None, Some("twitter:title"), "Couture Metaverse 3D"),
      Meta(None, Some("og:description"), "A unique platform for creating and customizing 3D models!"),
      Meta(None, Some("twitter:description"), "Couture Metaverse 3D"),
      Meta(None, Some("og:image"), "https://couture-metaverse.vercel.app/assets/ogimage/bmp/image_all.jpg"),
      Meta(None, Some("twitter:image"), "https://couture-metaverse.vercel.app/assets/ogimage/bmp/image_all.jpg"),
      Meta(None, Some("og:url"), "https://couture-metaverse.vercel.app"),
      Meta(None, Some("og:type"), "website"),
      Meta(None, Some("og:site_name"), "https://couture-metaverse.vercel.app"),
      Meta(None, Some("twitter:card"), "summary_large_image") ]
  }

  /**
   On a head made only of the metas injected at build time, `setOpenGraphTags`
   replaces every injected table key and keeps the verification meta next to
   the eleven new metas.
   */
  lemma BuildHeadScenario(metaDescription: string, title: string, description: string, imageUrl: string, url: string)
    ensures SetOpenGraphTags([VerificationMeta()] + BuildTimeMetas(), metaDescription, title, description, imageUrl, url)
         == [VerificationMeta()] + ExpectedMetas(metaDescription, title, description, imageUrl, url)
  {
    var built := BuildTimeMetas();
    assert forall j :: 0 <= j < |built| ==> RemovedByTable(built[j]);
    ReplacesMatchedSuffix([VerificationMeta()], built, metaDescription, title, description, imageUrl, url);
  }
}
