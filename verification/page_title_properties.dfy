/**
 What `setPageTitle` guarantees: the first title carries the requested text,
 the first canonical link points at the site root, at most one element of
 each kind is appended, nothing is removed, every other element is left as it
 was, and a later call overrides an earlier one.
 */
module PageTitleProperties {
  import opened Wrappers
  import opened Dom
  import opened OpenGraphMixin

  /** The title element `setPageTitle` creates when the document has none. */
  function NewTitle(mainTitle: string): Element
  {
    CreateElement("title").(text := mainTitle)
  }

  /** The canonical link `setPageTitle` creates when the document has none. */
  function NewCanonical(): Element
  {
    CreateElement("link").(rel := Some("canonical"), href := Some(SiteUrl))
  }

  function Max(a: int, b: int): int
  {
    if a < b then b else a
  }

  /** The title upsert when a title exists: its text is overwritten in place. */
  lemma UpdateTitleAt(d: Document, mainTitle: string, i: nat)
    requires QuerySelector(d, TitleQuery) == Some(i)
    ensures UpdateTitle(d, mainTitle) == d[i := d[i].(text := mainTitle)]
  {
  }

  /** The title upsert when there is no title: a new one is appended. */
  lemma UpdateTitleNew(d: Document, mainTitle: string)
    requires QuerySelector(d, TitleQuery).None?
    ensures UpdateTitle(d, mainTitle) == d + [NewTitle(mainTitle)]
  {
  }

  /** The canonical upsert when a canonical link exists: its target is overwritten in place. */
  lemma UpdateCanonicalAt(d: Document, c: nat)
    requires QuerySelector(d, CanonicalQuery) == Some(c)
    ensures UpdateCanonical(d) == d[c := d[c].(href := Some(SiteUrl))]
  {
  }

  /** The canonical upsert when there is no canonical link: a new one is appended. */
  lemma UpdateCanonicalNew(d: Document)
    requires QuerySelector(d, CanonicalQuery).None?
    ensures UpdateCanonical(d) == d + [NewCanonical()]
  {
  }

  /** Overwriting a position before an appended element commutes with the append. */
  lemma UpdateBeforeAppend(d: Document, k: nat, e: Element, x: Element)
    requires k < |d|
    ensures (d + [x])[k := e] == d[k := e] + [x]
  {
  }

  /** The selector `title` matches exactly the title elements. */
  lemma TitleQueryMatches(e: Element)
    ensures MatchesAny(e, TitleQuery) <==> e.tag == "title"
  {
    assert forall s :: s in TitleQuery ==> s == TitleQuery[0];
    if e.tag == "title" {
      assert Matches(e, TitleQuery[0]);
    }
  }

  /** The selector `link[rel="canonical"]` matches exactly the canonical links. */
  lemma CanonicalQueryMatches(e: Element)
    ensures MatchesAny(e, CanonicalQuery) <==> e.tag == "link" && e.rel == Some("canonical")
  {
    assert forall s :: s in CanonicalQuery ==> s == CanonicalQuery[0];
    if e.tag == "link" && e.rel == Some("canonical") {
      assert Matches(e, CanonicalQuery[0]);
    }
  }

  /** Overwriting the first title's text keeps both queries' first matches and counts. */
  lemma UpdateTitleOverwrites(d: Document, mainTitle: string, i: nat)
    requires QuerySelector(d, TitleQuery) == Some(i)
    ensures var r := d[i := d[i].(text := mainTitle)];
      && QuerySelector(r, TitleQuery) == Some(i)
      && QuerySelector(r, CanonicalQuery) == QuerySelector(d, CanonicalQuery)
      && Count(r, TitleQuery) == Count(d, TitleQuery)
      && Count(r, CanonicalQuery) == Count(d, CanonicalQuery)
  {
    var e := d[i].(text := mainTitle);
    TitleQueryMatches(e);
    TitleQueryMatches(d[i]);
    CanonicalQueryMatches(e);
    CanonicalQueryMatches(d[i]);
    QuerySelectorUpdate(d, TitleQuery, i, e);
    QuerySelectorUpdate(d, CanonicalQuery, i, e);
    CountUpdate(d, TitleQuery, i, e);
    CountUpdate(d, CanonicalQuery, i, e);
  }

  /** Appending the new title makes it the first (and only) one and leaves the canonical links alone. */
  lemma UpdateTitleAppends(d: Document, mainTitle: string)
    requires QuerySelector(d, TitleQuery).None?
    ensures var r := d + [NewTitle(mainTitle)];
      && QuerySelector(r, TitleQuery) == Some(|d|)
      && QuerySelector(r, CanonicalQuery) == QuerySelector(d, CanonicalQuery)
      && Count(r, TitleQuery) == 1
      && Count(r, CanonicalQuery) == Count(d, CanonicalQuery)
  {
    var e := NewTitle(mainTitle);
    TitleQueryMatches(e);
    CanonicalQueryMatches(e);
    QuerySelectorAppend(d, TitleQuery, e);
    QuerySelectorAppend(d, CanonicalQuery, e);
    assert Count(d, TitleQuery) == 0;
    CountAppendOne(d, e, TitleQuery);
    CountAppendOne(d, e, CanonicalQuery);
  }

  /** The title upsert moves neither query's first match, unless it had to append the title. */
  lemma UpdateTitleQueries(d: Document, mainTitle: string)
    ensures var r := UpdateTitle(d, mainTitle);
      && QuerySelector(r, TitleQuery) == (if QuerySelector(d, TitleQuery).Some? then QuerySelector(d, TitleQuery) else Some(|d|))
      && QuerySelector(r, CanonicalQuery) == QuerySelector(d, CanonicalQuery)
      && Count(r, TitleQuery) == Max(1, Count(d, TitleQuery))
      && Count(r, CanonicalQuery) == Count(d, CanonicalQuery)
  {
    match QuerySelector(d, TitleQuery)
    case Some(i) => UpdateTitleOverwrites(d, mainTitle, i);
    case None => UpdateTitleAppends(d, mainTitle);
  }

  /** Overwriting the first canonical link's target keeps both queries' first matches and counts. */
  lemma UpdateCanonicalOverwrites(d: Document, i: nat)
    requires QuerySelector(d, CanonicalQuery) == Some(i)
    ensures var r := d[i := d[i].(href := Some(SiteUrl))];
      && QuerySelector(r, CanonicalQuery) == Some(i)
      && QuerySelector(r, TitleQuery) == QuerySelector(d, TitleQuery)
      && Count(r, CanonicalQuery) == Count(d, CanonicalQuery)
      && Count(r, TitleQuery) == Count(d, TitleQuery)
  {
    var e := d[i].(href := Some(SiteUrl));
    TitleQueryMatches(e);
    TitleQueryMatches(d[i]);
    CanonicalQueryMatches(e);
    CanonicalQueryMatches(d[i]);
    QuerySelectorUpdate(d, CanonicalQuery, i, e);
    QuerySelectorUpdate(d, TitleQuery, i, e);
    CountUpdate(d, CanonicalQuery, i, e);
    CountUpdate(d, TitleQuery, i, e);
  }

  /** Appending the new canonical link makes it the first (and only) one and leaves the titles alone. */
  lemma UpdateCanonicalAppends(d: Document)
    requires QuerySelector(d, CanonicalQuery).None?
    ensures var r := d + [NewCanonical()];
      && QuerySelector(r, CanonicalQuery) == Some(|d|)
      && QuerySelector(r, TitleQuery) == QuerySelector(d, TitleQuery)
      && Count(r, CanonicalQuery) == 1
      && Count(r, TitleQuery) == Count(d, TitleQuery)
  {
    var e := NewCanonical();
    TitleQueryMatches(e);
    CanonicalQueryMatches(e);
    QuerySelectorAppend(d, CanonicalQuery, e);
    QuerySelectorAppend(d, TitleQuery, e);
    assert Count(d, CanonicalQuery) == 0;
    CountAppendOne(d, e, CanonicalQuery);
    CountAppendOne(d, e, TitleQuery);
  }

  /** The canonical upsert moves neither query's first match, unless it had to append the link. */
  lemma UpdateCanonicalQueries(d: Document)
    ensures var r := UpdateCanonical(d);
      && |r| == |d| + (if QuerySelector(d, CanonicalQuery).None? then 1 else 0)
      && QuerySelector(r, CanonicalQuery) == (if QuerySelector(d, CanonicalQuery).Some? then QuerySelector(d, CanonicalQuery) else Some(|d|))
      && QuerySelector(r, TitleQuery) == QuerySelector(d, TitleQuery)
      && Count(r, CanonicalQuery) == Max(1, Count(d, CanonicalQuery))
      && Count(r, TitleQuery) == Count(d, TitleQuery)
  {
    match QuerySelector(d, CanonicalQuery)
    case Some(i) => UpdateCanonicalOverwrites(d, i);
    case None => UpdateCanonicalAppends(d);
  }

  /** Both a title and a canonical link exist: each is overwritten in place. */
  lemma SetPageTitleBothExist(d: Document, mainTitle: string, i: nat, c: nat)
    requires QuerySelector(d, TitleQuery) == Some(i)
    requires QuerySelector(d, CanonicalQuery) == Some(c)
    ensures i != c
    ensures SetPageTitle(d, mainTitle) == d[i := d[i].(text := mainTitle)][c := d[c].(href := Some(SiteUrl))]
  {
    CanonicalQueryMatches(d[c]);
    TitleQueryMatches(d[i]);
    var titled := d[i := d[i].(text := mainTitle)];
    UpdateTitleAt(d, mainTitle, i);
    UpdateTitleOverwrites(d, mainTitle, i);
    UpdateCanonicalAt(titled, c);
    assert titled[c] == d[c];
  }

  /** Only a title exists: it is overwritten and a canonical link is appended. */
  lemma SetPageTitleOnlyTitle(d: Document, mainTitle: string, i: nat)
    requires QuerySelector(d, TitleQuery) == Some(i)
    requires QuerySelector(d, CanonicalQuery).None?
    ensures SetPageTitle(d, mainTitle) == d[i := d[i].(text := mainTitle)] + [NewCanonical()]
  {
    var titled := d[i := d[i].(text := mainTitle)];
    UpdateTitleAt(d, mainTitle, i);
    UpdateTitleOverwrites(d, mainTitle, i);
    UpdateCanonicalNew(titled);
  }

  /** Only a canonical link exists: a title is appended and the link is overwritten. */
  lemma SetPageTitleOnlyCanonical(d: Document, mainTitle: string, c: nat)
    requires QuerySelector(d, TitleQuery).None?
    requires QuerySelector(d, CanonicalQuery) == Some(c)
    ensures SetPageTitle(d, mainTitle) == d[c := d[c].(href := Some(SiteUrl))] + [NewTitle(mainTitle)]
  {
    var titled := d + [NewTitle(mainTitle)];
    UpdateTitleNew(d, mainTitle);
    UpdateTitleAppends(d, mainTitle);
    UpdateCanonicalAt(titled, c);
    assert titled[c] == d[c];
    UpdateBeforeAppend(d, c, d[c].(href := Some(SiteUrl)), NewTitle(mainTitle));
  }

  /** Neither exists: a title and then a canonical link are appended. */
  lemma SetPageTitleNeither(d: Document, mainTitle: string)
    requires QuerySelector(d, TitleQuery).None?
    requires QuerySelector(d, CanonicalQuery).None?
    ensures SetPageTitle(d, mainTitle) == d + [NewTitle(mainTitle), NewCanonical()]
  {
    var titled := d + [NewTitle(mainTitle)];
    UpdateTitleNew(d, mainTitle);
    UpdateTitleAppends(d, mainTitle);
    UpdateCanonicalNew(titled);
    assert titled + [NewCanonical()] == d + [NewTitle(mainTitle), NewCanonical()];
  }

  /**
   `setPageTitle` in closed form, by whether a title and a canonical link
   already exist: each existing one is overwritten in place, each missing one
   is appended, the title before the link.
   */
  lemma SetPageTitleCases(d: Document, mainTitle: string)
    ensures var r := SetPageTitle(d, mainTitle);
      var ti := QuerySelector(d, TitleQuery);
      var ci := QuerySelector(d, CanonicalQuery);
      && (ti.Some? && ci.Some? ==>
            ti != ci && r == d[ti.value := d[ti.value].(text := mainTitle)][ci.value := d[ci.value].(href := Some(SiteUrl))])
      && (ti.Some? && ci.None? ==> r == d[ti.value := d[ti.value].(text := mainTitle)] + [NewCanonical()])
      && (ti.None? && ci.Some? ==> r == d[ci.value := d[ci.value].(href := Some(SiteUrl))] + [NewTitle(mainTitle)])
      && (ti.None? && ci.None? ==> r == d + [NewTitle(mainTitle), NewCanonical()])
  {
    var ti := QuerySelector(d, TitleQuery);
    var ci := QuerySelector(d, CanonicalQuery);
    if ti.Some? && ci.Some? {
      SetPageTitleBothExist(d, mainTitle, ti.value, ci.value);
    } else if ti.Some? {
      SetPageTitleOnlyTitle(d, mainTitle, ti.value);
    } else if ci.Some? {
      SetPageTitleOnlyCanonical(d, mainTitle, ci.value);
    } else {
      SetPageTitleNeither(d, mainTitle);
    }
  }

  /**
   Where the first title and the first canonical link sit after
   `setPageTitle`: where they were before, or, for a missing title, right
   after the old document, and for a missing link, at the very end.
   */
  lemma SetPageTitleQueries(d: Document, mainTitle: string)
    ensures var r := SetPageTitle(d, mainTitle);
      && QuerySelector(r, TitleQuery) == (if QuerySelector(d, TitleQuery).Some? then QuerySelector(d, TitleQuery) else Some(|d|))
      && QuerySelector(r, CanonicalQuery) == (if QuerySelector(d, CanonicalQuery).Some? then QuerySelector(d, CanonicalQuery) else Some(|r| - 1))
  {
    var titled := UpdateTitle(d, mainTitle);
    UpdateTitleQueries(d, mainTitle);
    UpdateCanonicalQueries(titled);
    assert SetPageTitle(d, mainTitle) == UpdateCanonical(titled);
  }

  /** The number of titles becomes max(1, old count), and likewise for canonical links. */
  lemma SetPageTitleCounts(d: Document, mainTitle: string)
    ensures var r := SetPageTitle(d, mainTitle);
      && Count(r, TitleQuery) == Max(1, Count(d, TitleQuery))
      && Count(r, CanonicalQuery) == Max(1, Count(d, CanonicalQuery))
  {
    UpdateTitleQueries(d, mainTitle);
    UpdateCanonicalQueries(UpdateTitle(d, mainTitle));
  }

  /**
   After `setPageTitle(t)` the document has a title, the first title's text
   is `t`, and the first canonical link points at the site root.
   */
  lemma SetPageTitleEnsures(d: Document, mainTitle: string)
    ensures var r := SetPageTitle(d, mainTitle);
      && QuerySelector(r, TitleQuery).Some?
      && r[QuerySelector(r, TitleQuery).value].text == mainTitle
      && QuerySelector(r, CanonicalQuery).Some?
      && r[QuerySelector(r, CanonicalQuery).value].href == Some(SiteUrl)
  {
    SetPageTitleQueries(d, mainTitle);
    SetPageTitleCases(d, mainTitle);
  }

  /**
   `setPageTitle` never removes anything. It appends a title only when there
   was none, and then a canonical link only when there was none. Apart from
   the text of the first title and the target of the first canonical link,
   every element is unchanged and stays at its position.
   */
  lemma SetPageTitleFrame(d: Document, mainTitle: string)
    ensures var r := SetPageTitle(d, mainTitle);
      var ti := QuerySelector(d, TitleQuery);
      var ci := QuerySelector(d, CanonicalQuery);
      && |r| == |d| + (if ti.None? then 1 else 0) + (if ci.None? then 1 else 0)
      && (forall k :: 0 <= k < |d| && ti != Some(k) && ci != Some(k) ==> r[k] == d[k])
      && (ti.Some? ==> r[ti.value] == d[ti.value].(text := mainTitle))
      && (ci.Some? ==> r[ci.value] == d[ci.value].(href := Some(SiteUrl)))
      && (ti.None? ==> r[|d|] == NewTitle(mainTitle))
      && (ci.None? ==> r[|r| - 1] == NewCanonical())
  {
    SetPageTitleCases(d, mainTitle);
    var ti := QuerySelector(d, TitleQuery);
    var ci := QuerySelector(d, CanonicalQuery);
    if ti.Some? && ci.Some? {
      TitleQueryMatches(d[ti.value]);
      CanonicalQueryMatches(d[ci.value]);
    }
  }

  /** After one call the document has both a title and a canonical link, so a second call only overwrites. */
  lemma SecondCallOverwrites(d: Document, t1: string, t2: string)
    ensures var r1 := SetPageTitle(d, t1);
      var i := QuerySelector(r1, TitleQuery);
      var c := QuerySelector(r1, CanonicalQuery);
      && i.Some? && c.Some? && i != c
      && SetPageTitle(r1, t2) == r1[i.value := r1[i.value].(text := t2)][c.value := r1[c.value].(href := Some(SiteUrl))]
  {
    var r1 := SetPageTitle(d, t1);
    SetPageTitleEnsures(d, t1);
    SetPageTitleBothExist(r1, t2, QuerySelector(r1, TitleQuery).value, QuerySelector(r1, CanonicalQuery).value);
  }

  /** Rewriting the title and the link of a document whose title and link were just rewritten. */
  lemma RewriteBothAgain(d: Document, i: nat, c: nat, t1: string, t2: string)
    requires i < |d| && c < |d| && i != c
    ensures var r1 := d[i := d[i].(text := t1)][c := d[c].(href := Some(SiteUrl))];
      r1[i := r1[i].(text := t2)][c := r1[c].(href := Some(SiteUrl))]
        == d[i := d[i].(text := t2)][c := d[c].(href := Some(SiteUrl))]
  {
  }

  /** Rewriting the title and the appended link of a document whose title was just rewritten and link appended. */
  lemma RewriteTitleAgain(d: Document, i: nat, t1: string, t2: string)
    requires i < |d|
    ensures var r1 := d[i := d[i].(text := t1)] + [NewCanonical()];
      r1[i := r1[i].(text := t2)][|d| := r1[|d|].(href := Some(SiteUrl))]
        == d[i := d[i].(text := t2)] + [NewCanonical()]
  {
  }

  /** Rewriting the appended title and the link of a document whose link was just rewritten and title appended. */
  lemma RewriteLinkAgain(d: Document, c: nat, t1: string, t2: string)
    requires c < |d|
    ensures var r1 := d[c := d[c].(href := Some(SiteUrl))] + [NewTitle(t1)];
      r1[|d| := r1[|d|].(text := t2)][c := r1[c].(href := Some(SiteUrl))]
        == d[c := d[c].(href := Some(SiteUrl))] + [NewTitle(t2)]
  {
  }

  /** Rewriting the appended title and link of a document that just had both appended. */
  lemma RewriteAppendedAgain(d: Document, t1: string, t2: string)
    ensures var r1 := d + [NewTitle(t1), NewCanonical()];
      r1[|d| := r1[|d|].(text := t2)][|d| + 1 := r1[|d| + 1].(href := Some(SiteUrl))]
        == d + [NewTitle(t2), NewCanonical()]
  {
  }

  /** Last writer wins when a title and a canonical link exist: both are overwritten in place again. */
  lemma LastWriterWinsBothExist(d: Document, t1: string, t2: string, i: nat, c: nat)
    requires QuerySelector(d, TitleQuery) == Some(i)
    requires QuerySelector(d, CanonicalQuery) == Some(c)
    ensures SetPageTitle(SetPageTitle(d, t1), t2) == SetPageTitle(d, t2)
  {
    var r1 := SetPageTitle(d, t1);
    SetPageTitleBothExist(d, t1, i, c);
    SetPageTitleQueries(d, t1);
    SetPageTitleBothExist(r1, t2, i, c);
    SetPageTitleBothExist(d, t2, i, c);
    RewriteBothAgain(d, i, c, t1, t2);
  }

  /** Last writer wins when only a title exists: the link appended by the first call is kept as it is. */
  lemma LastWriterWinsOnlyTitle(d: Document, t1: string, t2: string, i: nat)
    requires QuerySelector(d, TitleQuery) == Some(i)
    requires QuerySelector(d, CanonicalQuery).None?
    ensures SetPageTitle(SetPageTitle(d, t1), t2) == SetPageTitle(d, t2)
  {
    var r1 := SetPageTitle(d, t1);
    SetPageTitleOnlyTitle(d, t1, i);
    SetPageTitleQueries(d, t1);
    SetPageTitleBothExist(r1, t2, i, |d|);
    SetPageTitleOnlyTitle(d, t2, i);
    RewriteTitleAgain(d, i, t1, t2);
  }

  /** Last writer wins when only a canonical link exists: the title appended by the first call is overwritten. */
  lemma LastWriterWinsOnlyCanonical(d: Document, t1: string, t2: string, c: nat)
    requires QuerySelector(d, TitleQuery).None?
    requires QuerySelector(d, CanonicalQuery) == Some(c)
    ensures SetPageTitle(SetPageTitle(d, t1), t2) == SetPageTitle(d, t2)
  {
    var r1 := SetPageTitle(d, t1);
    SetPageTitleOnlyCanonical(d, t1, c);
    SetPageTitleQueries(d, t1);
    SetPageTitleBothExist(r1, t2, |d|, c);
    SetPageTitleOnlyCanonical(d, t2, c);
    RewriteLinkAgain(d, c, t1, t2);
  }

  /** Last writer wins when neither exists: the title and link appended by the first call are reused. */
  lemma LastWriterWinsNeither(d: Document, t1: string, t2: string)
    requires QuerySelector(d, TitleQuery).None?
    requires QuerySelector(d, CanonicalQuery).None?
    ensures SetPageTitle(SetPageTitle(d, t1), t2) == SetPageTitle(d, t2)
  {
    var r1 := SetPageTitle(d, t1);
    SetPageTitleNeither(d, t1);
    SetPageTitleQueries(d, t1);
    SetPageTitleBothExist(r1, t2, |d|, |d| + 1);
    SetPageTitleNeither(d, t2);
    RewriteAppendedAgain(d, t1, t2);
  }

  /** Last writer wins: a second call with `t2` leaves what a single call with `t2` would. */
  lemma SetPageTitleLastWriterWins(d: Document, t1: string, t2: string)
    ensures SetPageTitle(SetPageTitle(d, t1), t2) == SetPageTitle(d, t2)
  {
    var ti := QuerySelector(d, TitleQuery);
    var ci := QuerySelector(d, CanonicalQuery);
    if ti.Some? && ci.Some? {
      LastWriterWinsBothExist(d, t1, t2, ti.value, ci.value);
    } else if ti.Some? {
      LastWriterWinsOnlyTitle(d, t1, t2, ti.value);
    } else if ci.Some? {
      LastWriterWinsOnlyCanonical(d, t1, t2, ci.value);
    } else {
      LastWriterWinsNeither(d, t1, t2);
    }
  }

  /** Calling `setPageTitle(t)` twice leaves what calling it once does. */
  lemma SetPageTitleIdempotent(d: Document, mainTitle: string)
    ensures SetPageTitle(SetPageTitle(d, mainTitle), mainTitle) == SetPageTitle(d, mainTitle)
  {
    SetPageTitleLastWriterWins(d, mainTitle, mainTitle);
  }
}
