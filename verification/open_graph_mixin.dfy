/**
 The page-metadata mixin: `setPageTitle` and `setOpenGraphTags` as pure
 transitions from one document to the next. The document the mixin reaches
 through the global `document` is an explicit parameter here.
 */
module OpenGraphMixin {
  import opened Wrappers
  import opened Dom

  /** The fixed site root, used for the canonical link and for `og:site_name`. */
  const SiteUrl: string := "https://couture-metaverse.vercel.app"

  /** The selector `title`. */
  const TitleQuery: seq<Selector> := [Type("title")]

  /** The selector `link[rel="canonical"]` (the relation of RFC 6596). */
  const CanonicalQuery: seq<Selector> := [TypeAndAttribute("link", Rel, "canonical")]

  /** Sets the text of the first `title` element, or appends a new one carrying it. */
  function UpdateTitle(d: Document, mainTitle: string): Document
  {
    match QuerySelector(d, TitleQuery)
    case Some(i) => d[i := d[i].(text := mainTitle)]
    case None => d + [CreateElement("title").(text := mainTitle)]
  }

  /** Points the first canonical link at the site root, or appends one that does. */
  function UpdateCanonical(d: Document): Document
  {
    match QuerySelector(d, CanonicalQuery)
    case None => d + [CreateElement("link").(rel := Some("canonical"), href := Some(SiteUrl))]
    case Some(i) => d[i := d[i].(href := Some(SiteUrl))]
  }

  /** `setPageTitle(mainTitle)`: the title upsert followed by the canonical-link upsert. */
  function SetPageTitle(d: Document, mainTitle: string): Document
  {
    UpdateCanonical(UpdateTitle(d, mainTitle))
  }

  /**
   One row of the meta-tag table, as the JavaScript object literal it is: it
   names a `name` or a `property` key (a key the literal omits is `undefined`,
   modelled as `None`) and the `content` to write.
   */
  datatype MetaTag = MetaTag(name: Option<string>, property: Option<string>, content: string)

  /** The fixed eleven-row table of description, Open Graph and Twitter-card tags, in processing order. */
  function MetaTags(metaDescription: string, title: string, description: string, imageUrl: string, url: string): seq<MetaTag>
  {
    [ MetaTag(Some("description"), None, metaDescription),
      MetaTag(None, Some("og:title"), title),
      MetaTag(None, Some("twitter:title"), title),
      MetaTag(None, Some("og:description"), description),
      MetaTag(None, Some("twitter:description"), description),
      MetaTag(None, Some("og:image"), imageUrl),
      MetaTag(None, Some("twitter:image"), imageUrl),
      MetaTag(None, Some("og:url"), url),
      MetaTag(None, Some("og:type"), "website"),
      MetaTag(None, Some("og:site_name"), SiteUrl),
      MetaTag(None, Some("twitter:card"), "summary_large_image") ]
  }

  /** JavaScript truthiness of an optional string: `undefined` and `""` are falsy. */
  predicate Truthy(v: Option<string>)
  {
    v.Some? && v.value != ""
  }

  /** What a template literal writes for `${v}`: the string itself, or `undefined` for a missing key. */
  function Interpolate(v: Option<string>): string
  {
    match v
    case None => "undefined"
    case Some(s) => s
  }

  /**
   The new `meta` element for one row: a `property` attribute when the row
   has a truthy property, otherwise a `name` attribute when it has a truthy
   name, and always the row's content, unvalidated.
   */
  function CreateMeta(tag: MetaTag): (e: Element)
    ensures e.tag == "meta" && e.content == Some(tag.content) && e.text == ""
    ensures e.rel.None? && e.href.None?
    ensures Truthy(tag.property) ==> e.property == tag.property && e.name.None?
    ensures !Truthy(tag.property) && Truthy(tag.name) ==> e.name == tag.name && e.property.None?
    ensures !Truthy(tag.property) && !Truthy(tag.name) ==> e.name.None? && e.property.None?
  {
    var meta := CreateElement("meta");
    var keyed :=
      if Truthy(tag.property) then meta.(property := tag.property)
      else if Truthy(tag.name) then meta.(name := tag.name)
      else meta;
    keyed.(content := Some(tag.content))
  }

  /**
   The removal selector `[property="${property}"], [name="${name}"]`. Both
   halves are always present: a row without a `name` still removes elements
   whose `name` is the string `undefined`, and likewise for `property`.
   */
  function RemovalQuery(tag: MetaTag): seq<Selector>
  {
    [AttributeEquals(Property, Interpolate(tag.property)), AttributeEquals(Name, Interpolate(tag.name))]
  }

  /** One iteration of the `forEach`: remove what the row's selector matches, then append its new meta. */
  function ApplyMetaTag(d: Document, tag: MetaTag): Document
  {
    RemoveAll(d, RemovalQuery(tag)) + [CreateMeta(tag)]
  }

  /** The whole `forEach`, rows processed first to last. */
  function ApplyMetaTags(d: Document, tags: seq<MetaTag>): Document
    decreases |tags|
  {
    if tags == [] then d
    else ApplyMetaTag(ApplyMetaTags(d, tags[..|tags| - 1]), tags[|tags| - 1])
  }

  /** `setOpenGraphTags(metaDescription, title, description, imageUrl, url)`. */
  function SetOpenGraphTags(d: Document, metaDescription: string, title: string, description: string, imageUrl: string, url: string): Document
  {
    ApplyMetaTags(d, MetaTags(metaDescription, title, description, imageUrl, url))
  }
}
