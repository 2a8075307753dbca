/**
 A flat model of the part of a browser document that the page-metadata mixin
 reads and writes: an ordered sequence of elements, each with a tag name, the
 handful of attributes the mixin touches, and its text. Only the two kinds of
 CSS selector the mixin uses are modelled: type selectors (`title`) and
 attribute-equality selectors (`[name="x"]`), alone or compounded
 (`link[rel="canonical"]`), grouped into selector lists (`a, b`).
 */
module Dom {
  import opened Wrappers

  /** An element: tag name, optional attributes, and rendered text. */
  datatype Element = Element(
    tag: string,
    name: Option<string>,
    property: Option<string>,
    rel: Option<string>,
    href: Option<string>,
    content: Option<string>,
    text: string)

  /** The document in document order. */
  type Document = seq<Element>

  /** `document.createElement(tag)`: no attributes, no text. */
  function CreateElement(tag: string): Element
  {
    Element(tag, None, None, None, None, None, "")
  }

  /** The attributes a selector may test. */
  datatype AttributeName = Name | Property | Rel

  function GetAttribute(e: Element, a: AttributeName): Option<string>
  {
    match a
    case Name => e.name
    case Property => e.property
    case Rel => e.rel
  }

  datatype Selector =
    | Type(tag: string)
    | AttributeEquals(attribute: AttributeName, value: string)
    | TypeAndAttribute(tag: string, attribute: AttributeName, value: string)

  predicate Matches(e: Element, s: Selector)
  {
    match s
    case Type(t) => e.tag == t
    case AttributeEquals(a, v) => GetAttribute(e, a) == Some(v)
    case TypeAndAttribute(t, a, v) => e.tag == t && GetAttribute(e, a) == Some(v)
  }

  /** A selector list `s1, s2, ...` matches every element that one of its members matches. */
  predicate MatchesAny(e: Element, group: seq<Selector>)
  {
    group != [] && (Matches(e, group[0]) || MatchesAny(e, group[1..]))
  }

  /** `MatchesAny` is membership-based: the list matches exactly when some member does. */
  lemma {:induction false} MatchesAnyMember(e: Element, group: seq<Selector>)
    ensures MatchesAny(e, group) <==> exists s :: s in group && Matches(e, s)
  {
    if group != [] {
      MatchesAnyMember(e, group[1..]);
      assert forall s :: s in group <==> s == group[0] || s in group[1..];
    }
  }

  /** A one-selector list matches what its selector matches. */
  lemma MatchesAnySingle(e: Element, s: Selector)
    ensures MatchesAny(e, [s]) <==> Matches(e, s)
  {
    assert [s][1..] == [];
  }

  /** A two-selector list `s1, s2` matches what either selector matches. */
  lemma MatchesAnyPair(e: Element, s1: Selector, s2: Selector)
    ensures MatchesAny(e, [s1, s2]) <==> Matches(e, s1) || Matches(e, s2)
  {
    assert [s1, s2][1..] == [s2];
    MatchesAnySingle(e, s2);
  }

  lemma MatchesAnyConcat(e: Element, g1: seq<Selector>, g2: seq<Selector>)
    ensures MatchesAny(e, g1 + g2) <==> MatchesAny(e, g1) || MatchesAny(e, g2)
  {
    MatchesAnyMember(e, g1 + g2);
    MatchesAnyMember(e, g1);
    MatchesAnyMember(e, g2);
    if MatchesAny(e, g1 + g2) {
      var s :| s in g1 + g2 && Matches(e, s);
      assert s in g1 || s in g2;
    }
    if MatchesAny(e, g1) {
      var s :| s in g1 && Matches(e, s);
      assert s in g1 + g2;
    }
    if MatchesAny(e, g2) {
      var s :| s in g2 && Matches(e, s);
      assert s in g1 + g2;
    }
  }

  /**
   `document.querySelector(group)`: the position of the first element in
   document order that the group matches, or `None` (JavaScript `null`).
   */
  function QuerySelector(d: Document, group: seq<Selector>): (r: Option<nat>)
    ensures r.Some? ==> r.value < |d| && MatchesAny(d[r.value], group)
    ensures r.Some? ==> forall j :: 0 <= j < r.value ==> !MatchesAny(d[j], group)
    ensures r.None? <==> forall j :: 0 <= j < |d| ==> !MatchesAny(d[j], group)
  {
    FirstMatchFrom(d, group, 0)
  }

  /** The first position at or after `k` that the group matches. */
  function FirstMatchFrom(d: Document, group: seq<Selector>, k: nat): (r: Option<nat>)
    requires k <= |d|
    ensures r.Some? ==> k <= r.value < |d| && MatchesAny(d[r.value], group)
    ensures r.Some? ==> forall j :: k <= j < r.value ==> !MatchesAny(d[j], group)
    ensures r.None? <==> forall j :: k <= j < |d| ==> !MatchesAny(d[j], group)
    decreases |d| - k
  {
    if k == |d| then None
    else if MatchesAny(d[k], group) then Some(k)
    else FirstMatchFrom(d, group, k + 1)
  }

  /** The contract of `QuerySelector` determines its result: any first match is the one it returns. */
  lemma QuerySelectorUnique(d: Document, group: seq<Selector>, i: nat)
    requires i < |d| && MatchesAny(d[i], group)
    requires forall j :: 0 <= j < i ==> !MatchesAny(d[j], group)
    ensures QuerySelector(d, group) == Some(i)
  {
  }

  /** Overwriting an element with one the group matches exactly when it matched the old one leaves the first match in place. */
  lemma QuerySelectorUpdate(d: Document, group: seq<Selector>, k: nat, e: Element)
    requires k < |d|
    requires MatchesAny(e, group) <==> MatchesAny(d[k], group)
    ensures QuerySelector(d[k := e], group) == QuerySelector(d, group)
  {
    var d' := d[k := e];
    assert forall j :: 0 <= j < |d| ==> (MatchesAny(d'[j], group) <==> MatchesAny(d[j], group));
    match QuerySelector(d, group)
    case None =>
    case Some(i) => QuerySelectorUnique(d', group, i);
  }

  /** Appending an element changes the first match only when there was none and the group matches the new element. */
  lemma QuerySelectorAppend(d: Document, group: seq<Selector>, e: Element)
    ensures QuerySelector(d + [e], group) ==
      if QuerySelector(d, group).Some? then QuerySelector(d, group)
      else if MatchesAny(e, group) then Some(|d|)
      else None
  {
    var d' := d + [e];
    match QuerySelector(d, group)
    case Some(i) => QuerySelectorUnique(d', group, i);
    case None =>
      if MatchesAny(e, group) {
        QuerySelectorUnique(d', group, |d|);
      } else {
        assert forall j :: 0 <= j < |d'| ==> !MatchesAny(d'[j], group);
      }
  }

  /** After a part with no match, the first match is the first match of what follows, shifted past that part. */
  lemma {:induction false} QuerySelectorConcat(d1: Document, d2: Document, group: seq<Selector>)
    requires QuerySelector(d1, group).None?
    ensures QuerySelector(d1 + d2, group) ==
      if QuerySelector(d2, group).Some? then Some(|d1| + QuerySelector(d2, group).value) else None
  {
    if d1 == [] {
      assert d1 + d2 == d2;
    } else {
      assert !MatchesAny(d1[0], group);
      assert QuerySelector(d1[1..], group).None?;
      QuerySelectorConcat(d1[1..], d2, group);
      assert (d1 + d2)[1..] == d1[1..] + d2;
    }
  }

  /**
   `document.querySelectorAll(group).forEach((e) => e.remove())`: the document
   without every element the group matches; the others stay, in order.
   */
  function RemoveAll(d: Document, group: seq<Selector>): (r: Document)
    ensures |r| <= |d|
    ensures forall e :: e in r <==> e in d && !MatchesAny(e, group)
  {
    if d == [] then []
    else
      assert forall e :: e in d <==> e == d[0] || e in d[1..];
      if MatchesAny(d[0], group) then RemoveAll(d[1..], group)
      else [d[0]] + RemoveAll(d[1..], group)
  }

  /** Removal works element by element, so it distributes over concatenation (and keeps document order). */
  lemma {:induction false} RemoveAllAppend(d1: Document, d2: Document, group: seq<Selector>)
    ensures RemoveAll(d1 + d2, group) == RemoveAll(d1, group) + RemoveAll(d2, group)
  {
    if d1 == [] {
      assert d1 + d2 == d2;
    } else {
      assert (d1 + d2)[0] == d1[0];
      assert (d1 + d2)[1..] == d1[1..] + d2;
      RemoveAllAppend(d1[1..], d2, group);
    }
  }

  /** A document the group does not match at all is left exactly as it was. */
  lemma {:induction false} RemoveAllUnmatched(d: Document, group: seq<Selector>)
    requires forall j :: 0 <= j < |d| ==> !MatchesAny(d[j], group)
    ensures RemoveAll(d, group) == d
  {
    if d != [] {
      RemoveAllUnmatched(d[1..], group);
    }
  }

  /** Removing with one list and then another removes what the combined list `g1, g2` removes. */
  lemma {:induction false} RemoveAllSequential(d: Document, g1: seq<Selector>, g2: seq<Selector>)
    ensures RemoveAll(RemoveAll(d, g1), g2) == RemoveAll(d, g1 + g2)
  {
    if d != [] {
      MatchesAnyConcat(d[0], g1, g2);
      RemoveAllSequential(d[1..], g1, g2);
      if !MatchesAny(d[0], g1) {
        assert RemoveAll(d, g1) == [d[0]] + RemoveAll(d[1..], g1);
        RemoveAllAppend([d[0]], RemoveAll(d[1..], g1), g2);
        assert RemoveAll([d[0]], g2) == if MatchesAny(d[0], g2) then [] else [d[0]] by {
          assert [d[0]][1..] == [];
        }
      }
    }
  }

  /** A document the group matches throughout is removed entirely. */
  lemma RemoveAllMatched(d: Document, group: seq<Selector>)
    requires forall j :: 0 <= j < |d| ==> MatchesAny(d[j], group)
    ensures RemoveAll(d, group) == []
  {
  }

  /** Removing twice with the same list is removing once. */
  lemma RemoveAllIdempotent(d: Document, group: seq<Selector>)
    ensures RemoveAll(RemoveAll(d, group), group) == RemoveAll(d, group)
  {
    var r := RemoveAll(d, group);
    assert forall j :: 0 <= j < |r| ==> r[j] in r;
    RemoveAllUnmatched(r, group);
  }

  /** The number of elements the group matches. */
  function Count(d: Document, group: seq<Selector>): (n: nat)
    ensures n <= |d|
    ensures n == 0 <==> QuerySelector(d, group).None?
  {
    if d == [] then 0
    else (if MatchesAny(d[0], group) then 1 else 0) + Count(d[1..], group)
  }

  lemma {:induction false} CountAppend(d1: Document, d2: Document, group: seq<Selector>)
    ensures Count(d1 + d2, group) == Count(d1, group) + Count(d2, group)
  {
    if d1 == [] {
      assert d1 + d2 == d2;
    } else {
      assert (d1 + d2)[0] == d1[0];
      assert (d1 + d2)[1..] == d1[1..] + d2;
      CountAppend(d1[1..], d2, group);
    }
  }

  /** Appending one element adds one to the count exactly when the group matches it. */
  lemma CountAppendOne(d: Document, e: Element, group: seq<Selector>)
    ensures Count(d + [e], group) == Count(d, group) + (if MatchesAny(e, group) then 1 else 0)
  {
    CountAppend(d, [e], group);
    assert [e][1..] == [];
  }

  /** After a part with no match, the count is the count of what follows. */
  lemma CountAfterUnmatched(d1: Document, d2: Document, group: seq<Selector>)
    requires QuerySelector(d1, group).None?
    ensures Count(d1 + d2, group) == Count(d2, group)
  {
    CountAppend(d1, d2, group);
  }

  /**
   A selector group that matches nothing in `d1` and exactly one element of
   `d2` matches exactly one element of `d1 + d2`: the same one, shifted by `|d1|`.
   */
  lemma UniqueAfterUnmatched(d1: Document, d2: Document, group: seq<Selector>, k: nat)
    requires QuerySelector(d1, group).None?
    requires Count(d2, group) == 1 && QuerySelector(d2, group) == Some(k)
    ensures Count(d1 + d2, group) == 1
    ensures QuerySelector(d1 + d2, group) == Some(|d1| + k)
    ensures (d1 + d2)[|d1| + k] == d2[k]
  {
    QuerySelectorConcat(d1, d2, group);
    assert QuerySelector(d1 + d2, group) == Some(|d1| + k);
    CountAfterUnmatched(d1, d2, group);
  }

  /** Overwriting an element keeps the count when the group matches the new element exactly when it matched the old one. */
  lemma {:induction false} CountUpdate(d: Document, group: seq<Selector>, k: nat, e: Element)
    requires k < |d|
    requires MatchesAny(e, group) <==> MatchesAny(d[k], group)
    ensures Count(d[k := e], group) == Count(d, group)
  {
    if k > 0 {
      assert d[k := e][1..] == d[1..][k - 1 := e];
      CountUpdate(d[1..], group, k - 1, e);
    } else {
      assert d[k := e][1..] == d[1..];
    }
  }

  /** A group that matches exactly one element, at `i`, counts one and finds it first. */
  lemma CountOne(d: Document, group: seq<Selector>, i: nat)
    requires i < |d| && MatchesAny(d[i], group)
    requires forall j :: 0 <= j < |d| && j != i ==> !MatchesAny(d[j], group)
    ensures Count(d, group) == 1
    ensures QuerySelector(d, group) == Some(i)
  {
    var before := d[..i];
    var after := d[i + 1..];
    assert d == before + [d[i]] + after;
    assert forall j :: 0 <= j < |before| ==> !MatchesAny(before[j], group);
    assert forall j :: 0 <= j < |after| ==> !MatchesAny(after[j], group) by {
      forall j | 0 <= j < |after|
        ensures !MatchesAny(after[j], group)
      {
        assert after[j] == d[i + 1 + j];
      }
    }
    assert QuerySelector(before, group).None? && QuerySelector(after, group).None?;
    CountAppend(before + [d[i]], after, group);
    CountAppend(before, [d[i]], group);
    assert [d[i]][1..] == [];
    QuerySelectorUnique(d, group, i);
  }
}
