/**
 The credits manifest: the store module's only state, a fixed list of
 third-party components. The module declares no getters, mutations or
 actions, so nothing can change the list; it is modelled as a constant.
 */
module InfoStore {
  import opened Wrappers

  /** One credited component; an empty `version` means the entry has none. */
  datatype Library = Library(id: nat, title: string, version: string, url: string)

  /** The manifest's entries, one per credited component. */
  const ThreeJs: Library := Library(1, "Three.js", "171", "https://github.com/mrdoob/three.js/releases")
  const OrbitControls: Library := Library(2, "Orbit controls", "82.1.0", "https://threejs.org/docs/#examples/en/controls/OrbitControls")
  const VueJs: Library := Library(3, "Vue.js", "3.4.38", "https://v3.ru.vuejs.org")
  const VueRouter: Library := Library(4, "Vue Router", "4.5.0", "https://router.vuejs.org")
  const Vuex: Library := Library(5, "VueX", "4.1.0", "https://vuex.vuejs.org")
  const Webpack: Library := Library(6, "Webpack", "5.98.0", "https://webpack.js.org")
  const VueI18n: Library := Library(7, "Vue I18n", "11.1.1", "https://vue-i18n.intlify.dev")
  const JsPdf: Library := Library(8, "jsPDF", "3.0.0", "https://www.npmjs.com/package/jspdf")
  const Html5: Library := Library(9, "HTML5", "", "https://developer.mozilla.org/ru/docs/Learn/HTML/Introduction_to_HTML")
  const Css3: Library := Library(10, "CSS3", "", "https://developer.mozilla.org/ru/docs/Learn/CSS/First_steps")
  const FlexBoxCss: Library := Library(11, "FlexBox CSS", "", "https://developer.mozilla.org/ru/docs/Learn/CSS/CSS_layout/Flexbox")
  const JavaScript: Library := Library(12, "JavaScript", "", "https://developer.mozilla.org/ru/docs/Learn/JavaScript")
  const Markdown: Library := Library(13, "Markdown", "", "https://www.markdownguide.org")
  const SearchConsole: Library := Library(14, "Google Search Console", "", "https://search.google.com/search-console")
  const Analytics: Library := Library(15, "Google Analytics", "4.0", "https://analytics.google.com")
  const OpenGraphProtocol: Library := Library(16, "Open Graph protocol", "", "https://ogp.me")
  const Favicon: Library := Library(17, "Favicon", "", "https://developer.mozilla.org/en-US/docs/Glossary/Favicon")
  const Sitemap: Library := Library(18, "Sitemap", "", "https://www.sitemaps.org")
  const RobotsTxt: Library := Library(19, "Robots.txt", "", "https://developers.google.com/search/docs/crawling-indexing/robots/intro")

  /** The ids whose entries carry no version. */
  const Versionless: set<nat> := {9, 10, 11, 12, 13, 14, 16, 17, 18, 19}

  /**
   The manifest, in display order. Its nineteen entries are numbered 1 to 19
   by position, so ids are unique and strictly increasing; the first is
   Three.js release 171; exactly the ids in `Versionless` have an empty
   version.
   */
  function Manifest(): (r: seq<Library>)
    ensures |r| == 19
    ensures forall i :: 0 <= i < |r| ==> r[i].id == i + 1
    ensures r[0].title == "Three.js" && r[0].version == "171"
    ensures forall i :: 0 <= i < |r| ==> (r[i].version == "" <==> r[i].id in Versionless)
  {
    [ ThreeJs, OrbitControls, VueJs, VueRouter, Vuex,
      Webpack, VueI18n, JsPdf, Html5, Css3,
      FlexBoxCss, JavaScript, Markdown, SearchConsole, Analytics,
      OpenGraphProtocol, Favicon, Sitemap, RobotsTxt ]
  }

  /**
   A lookup by id. The store itself offers none; this helper only serves to
   state that ids pick out single entries (`ManifestLookup`).
   */
  function FindById(entries: seq<Library>, id: nat): (r: Option<Library>)
    ensures r.Some? ==> r.value in entries && r.value.id == id
    ensures r.None? ==> forall i :: 0 <= i < |entries| ==> entries[i].id != id
  {
    if entries == [] then None
    else if entries[0].id == id then Some(entries[0])
    else FindById(entries[1..], id)
  }

  /** Ids are unique and strictly increasing from 1 to 19. */
  lemma ManifestIdsStrictlyIncreasing()
    ensures forall i, j :: 0 <= i < j < |Manifest()| ==> Manifest()[i].id < Manifest()[j].id
    ensures forall i :: 0 <= i < |Manifest()| ==> 1 <= Manifest()[i].id <= 19
  {
  }

  /** Every id from 1 to 19 names exactly the entry at position id - 1, and no other id names any. */
  lemma ManifestLookup(id: nat)
    ensures 1 <= id <= 19 ==> FindById(Manifest(), id) == Some(Manifest()[id - 1])
    ensures !(1 <= id <= 19) ==> FindById(Manifest(), id).None?
  {
    var m := Manifest();
    if 1 <= id <= 19 {
      FindByIdFirst(m, id - 1);
    }
  }

  /** In a list whose ids are distinct, the lookup returns the entry at the position of its id. */
  lemma {:induction false} FindByIdFirst(entries: seq<Library>, k: nat)
    requires k < |entries|
    requires forall i :: 0 <= i < k ==> entries[i].id != entries[k].id
    ensures FindById(entries, entries[k].id) == Some(entries[k])
  {
    if k > 0 {
      FindByIdFirst(entries[1..], k - 1);
    }
  }
}
