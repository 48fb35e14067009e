/**
 * Page enhancements of chapter pages: the table of contents built from the h2/h3 headings,
 * the rule that keeps one contents link active while reading, and the scroll-to-top button.
 */
module Enhancements {
  import opened Wrappers
  import Text

  datatype Tag = H2 | H3

  /** A heading element of the main content; the TOC builder may give it an id. */
  class Heading {
    const tag: Tag
    var id: string
    const text: string

    constructor (tag: Tag, id: string, text: string)
      ensures this.tag == tag && this.id == id && this.text == text
    {
      this.tag := tag;
      this.id := id;
      this.text := text;
    }
  }

  /** A landmark the contents may be inserted after, and whether it has a next sibling. */
  datatype Landmark = Landmark(hasNextSibling: bool)

  /** The `.main-content` element: its h2/h3 headings in document order, its banner and its first h1. */
  datatype MainContent = MainContent(headings: seq<Heading>, banner: Option<Landmark>, firstH1: Option<Landmark>)

  /** One contents entry: the list item's class, the link's href and its text. */
  datatype TocEntry = TocEntry(cls: string, href: string, linkText: string)

  datatype Anchor = AfterBanner | AfterFirstH1

  /** The outcome of the builder: no contents, or its entries and where it was inserted, if anywhere. */
  datatype TocOutcome = NoToc | Toc(entries: seq<TocEntry>, insertedAfter: Option<Anchor>)

  const MIN_HEADINGS: nat := 3
  const SCROLL_THRESHOLD: real := 400.0

  /** The label of a heading: one leading run of `#` followed by a space is dropped (`/^#+ /`). */
  function StripHashPrefix(text: string): (shown: string)
    ensures shown == text || (exists k :: 1 <= k && k + 1 <= |text| && shown == text[k + 1..]
                                && (forall i :: 0 <= i < k ==> text[i] == '#') && text[k] == ' ')
    ensures shown != text ==> |shown| < |text| && text[0] == '#'
    ensures forall k :: (1 <= k < |text| && text[k] == ' ' && (forall i :: 0 <= i < k ==> text[i] == '#'))
                          ==> shown == text[k + 1..]
  {
    var k := HashRun(text, 0);
    if 1 <= k < |text| && text[k] == ' ' then text[k + 1..] else text
  }

  /** The length of the run of `#` in `text` starting at `from`, plus `from`. */
  function HashRun(text: string, from: nat): (k: nat)
    requires from <= |text|
    ensures from <= k <= |text|
    ensures forall i :: from <= i < k ==> text[i] == '#'
    ensures k < |text| ==> text[k] != '#'
    decreases |text| - from
  {
    if from < |text| && text[from] == '#' then HashRun(text, from + 1) else from
  }

  /** Text that does not start with `#`s and a space comes through unchanged. */
  lemma StripHashPrefixKeepsPlainText(text: string)
    requires text == [] || text[0] != '#'
    ensures StripHashPrefix(text) == text
  {
  }

  /** The id a heading ends up with: its own, or `heading-<index>` when it has none. */
  function HeadingId(ownId: string, index: nat): (id: string)
    ensures ownId != "" ==> id == ownId
    ensures ownId == "" ==> |id| > 8 && id[..8] == "heading-"
  {
    if ownId != "" then ownId else "heading-" + Text.NatToString(index)
  }

  /** A heading's own id is kept; a missing one becomes `heading-` followed by the index in decimal. */
  lemma {:induction false} HeadingIdDefaults(ownId: string, index: nat)
    ensures ownId != "" ==> HeadingId(ownId, index) == ownId
    ensures ownId == "" ==> var id := HeadingId(ownId, index);
      && |id| > 8 && id[..8] == "heading-"
      && (forall i :: 8 <= i < |id| ==> '0' <= id[i] <= '9')
      && Text.DigitsValue(id[8..]) == index
  {
    if ownId == "" {
      var id := HeadingId(ownId, index);
      assert id[8..] == Text.NatToString(index);
      Text.NatToStringRoundTrip(index);
    }
  }

  /** Generated ids of different headings differ. */
  lemma {:induction false} GeneratedIdsDistinct(i: nat, j: nat)
    requires i != j
    ensures HeadingId("", i) != HeadingId("", j)
  {
    HeadingIdDefaults("", i);
    HeadingIdDefaults("", j);
  }

  /** Where the contents go: right after the banner if there is one, else after the first h1; only before an existing next sibling. */
  function InsertionPoint(banner: Option<Landmark>, firstH1: Option<Landmark>): (a: Option<Anchor>)
    ensures a == Some(AfterBanner) <==> banner.Some? && banner.value.hasNextSibling
    ensures a == Some(AfterFirstH1) <==> banner.None? && firstH1.Some? && firstH1.value.hasNextSibling
  {
    var insertAfter := if banner.Some? then banner else firstH1;
    if insertAfter.Some? && insertAfter.value.hasNextSibling then
      if banner.Some? then Some(AfterBanner) else Some(AfterFirstH1)
    else None
  }

  /** The entry for a heading: an h3 gets the extra `toc-sub` class; the link points at the id. */
  function EntryFor(tag: Tag, id: string, text: string): (e: TocEntry)
    ensures e.cls == "toc-item toc-sub" <==> tag == H3
    ensures e.cls == "toc-item" <==> tag == H2
    ensures e.href == "#" + id && e.linkText == StripHashPrefix(text)
  {
    TocEntry("toc-item" + (if tag == H3 then " toc-sub" else ""), "#" + id, StripHashPrefix(text))
  }

  function HeadingSet(main: Option<MainContent>): set<Heading> {
    if main.Some? then set h | h in main.value.headings else {}
  }

  /**
   * The table-of-contents builder. Nothing happens without main content, with fewer than three
   * headings, or on the home page (a hero section exists). Otherwise every heading without an id
   * is given `heading-<index>`, and there is one entry per heading, in document order.
   */
  method BuildToc(main: Option<MainContent>, heroSection: bool) returns (toc: TocOutcome)
    requires main.Some? ==> Distinct(main.value.headings)
    modifies HeadingSet(main)
    ensures toc.NoToc? <==> main.None? || |main.value.headings| < MIN_HEADINGS || heroSection
    ensures toc.NoToc? ==> forall h :: h in HeadingSet(main) ==> h.id == old(h.id)
    ensures toc.Toc? ==>
      var hs := main.value.headings;
      && |toc.entries| == |hs|
      && toc.insertedAfter == InsertionPoint(main.value.banner, main.value.firstH1)
      && (forall k :: 0 <= k < |hs| ==> hs[k].id == HeadingId(old(hs[k].id), k))
      && (forall k :: 0 <= k < |hs| ==> toc.entries[k] == EntryFor(hs[k].tag, hs[k].id, hs[k].text))
  {
    if main.None? {
      return NoToc;
    }
    var headings := main.value.headings;
    if |headings| < MIN_HEADINGS {
      return NoToc;
    }
    if heroSection {
      return NoToc;
    }
    var entries := ListHeadings(headings);
    toc := Toc(entries, InsertionPoint(main.value.banner, main.value.firstH1));
  }

  predicate Distinct(headings: seq<Heading>) {
    forall i, j :: 0 <= i < j < |headings| ==> headings[i] != headings[j]
  }

  /** The headings loop of the builder: default each missing id, then append the heading's entry. */
  method ListHeadings(headings: seq<Heading>) returns (entries: seq<TocEntry>)
    requires Distinct(headings)
    modifies set h | h in headings
    ensures |entries| == |headings|
    ensures forall k :: 0 <= k < |headings| ==> headings[k].id == HeadingId(old(headings[k].id), k)
    ensures forall k :: 0 <= k < |headings| ==> entries[k] == EntryFor(headings[k].tag, headings[k].id, headings[k].text)
  {
    entries := [];
    var i := 0;
    while i < |headings|
      invariant 0 <= i <= |headings|
      invariant |entries| == i
      invariant forall k :: 0 <= k < i ==> headings[k].id == HeadingId(old(headings[k].id), k)
      invariant forall k :: 0 <= k < i ==> entries[k] == EntryFor(headings[k].tag, headings[k].id, headings[k].text)
      invariant forall k :: i <= k < |headings| ==> headings[k].id == old(headings[k].id)
    {
      var h := headings[i];
      assert forall k :: 0 <= k < |headings| && k != i ==> headings[k] != h;
      var entry := NameHeading(h, i);
      entries := entries + [entry];
      i := i + 1;
    }
  }

  /** One step of the headings loop: default the heading's missing id, then make its entry. */
  method NameHeading(h: Heading, index: nat) returns (entry: TocEntry)
    modifies h
    ensures h.id == HeadingId(old(h.id), index)
    ensures entry == EntryFor(h.tag, h.id, h.text)
  {
    if h.id == "" {
      h.id := "heading-" + Text.NatToString(index);
    }
    var cls := "toc-item" + (if h.tag == H3 then " toc-sub" else "");
    entry := TocEntry(cls, "#" + h.id, StripHashPrefix(h.text));
  }

  /** A link of the contents list and whether it carries the `active` class. */
  class TocLink {
    const href: string
    var active: bool

    constructor (href: string)
      ensures this.href == href && !active
    {
      this.href := href;
      this.active := false;
    }
  }

  /** One intersection-observer report: the observed heading's id and whether it is in view. */
  datatype ObserverEntry = ObserverEntry(targetId: string, isIntersecting: bool)

  /** The target of the last report that is in view, if any. */
  function LastInView(reports: seq<ObserverEntry>): (target: Option<string>)
    ensures target.None? <==> forall i :: 0 <= i < |reports| ==> !reports[i].isIntersecting
  {
    if reports == [] then None
    else if reports[|reports| - 1].isIntersecting then Some(reports[|reports| - 1].targetId)
    else LastInView(reports[..|reports| - 1])
  }

  /** The target is the heading of the last report in the batch that is in view. */
  lemma {:induction false} LastInViewIsLastIntersecting(reports: seq<ObserverEntry>)
    ensures LastInView(reports).Some? ==>
      exists i :: (0 <= i < |reports| && reports[i].isIntersecting
        && LastInView(reports).value == reports[i].targetId
        && forall j :: i < j < |reports| ==> !reports[j].isIntersecting)
  {
    if reports != [] && !reports[|reports| - 1].isIntersecting {
      var init := reports[..|reports| - 1];
      LastInViewIsLastIntersecting(init);
      if LastInView(init).Some? {
        var i :| 0 <= i < |init| && init[i].isIntersecting && LastInView(init).value == init[i].targetId
          && forall j :: i < j < |init| ==> !init[j].isIntersecting;
        assert reports[i] == init[i];
      }
    }
  }

  /** The link `querySelector('a[href="#id"]')` finds: the first whose href is `#` and the id. */
  predicate IsFirstLinkTo(links: seq<TocLink>, k: int, id: string)
    reads set l | l in links
  {
    0 <= k < |links| && links[k].href == "#" + id
    && forall j :: 0 <= j < k ==> links[j].href != "#" + id
  }

  /** Every link loses `active`; then the first link to the heading's id, if there is one, gains it. */
  method Highlight(links: seq<TocLink>, targetId: string)
    requires forall i, j :: 0 <= i < j < |links| ==> links[i] != links[j]
    modifies set l | l in links
    ensures forall k :: 0 <= k < |links| ==> (links[k].active <==> IsFirstLinkTo(links, k, targetId))
  {
    var i := 0;
    while i < |links|
      invariant 0 <= i <= |links|
      invariant forall k :: 0 <= k < i ==> !links[k].active
    {
      links[i].active := false;
      i := i + 1;
    }
    var j := 0;
    while j < |links| && links[j].href != "#" + targetId
      invariant 0 <= j <= |links|
      invariant forall k :: 0 <= k < j ==> links[k].href != "#" + targetId
    {
      j := j + 1;
    }
    if j < |links| {
      links[j].active := true;
    }
  }

  /**
   * The observer callback: each report of a heading coming into view moves the highlight to it,
   * so afterwards at most one link is active, the one for the last heading reported in view.
   */
  method OnIntersection(links: seq<TocLink>, reports: seq<ObserverEntry>)
    requires forall i, j :: 0 <= i < j < |links| ==> links[i] != links[j]
    modifies set l | l in links
    ensures LastInView(reports).None? ==> forall l :: l in links ==> l.active == old(l.active)
    ensures LastInView(reports).Some? ==>
      forall k :: 0 <= k < |links| ==> (links[k].active <==> IsFirstLinkTo(links, k, LastInView(reports).value))
    ensures LastInView(reports).Some? ==>
      forall a, b :: 0 <= a < b < |links| ==> !(links[a].active && links[b].active)
  {
    var i := 0;
    while i < |reports|
      invariant 0 <= i <= |reports|
      invariant LastInView(reports[..i]).None? ==> forall l :: l in links ==> l.active == old(l.active)
      invariant LastInView(reports[..i]).Some? ==>
        forall k :: 0 <= k < |links| ==> (links[k].active <==> IsFirstLinkTo(links, k, LastInView(reports[..i]).value))
    {
      assert reports[..i + 1][..i] == reports[..i];
      if reports[i].isIntersecting {
        Highlight(links, reports[i].targetId);
      }
      i := i + 1;
    }
    assert reports[..i] == reports;
  }

  /** The scroll-to-top button's styling: shown is opacity 1 and no offset, hidden is opacity 0 and shifted down. */
  class ScrollButton {
    var opacity: string
    var transform: string

    ghost predicate Shown()
      reads this
    {
      opacity == "1" && transform == "translateY(0)"
    }

    ghost predicate Hidden()
      reads this
    {
      opacity == "0" && transform == "translateY(20px)"
    }

    constructor ()
      ensures Hidden()
    {
      opacity := "0";
      transform := "translateY(20px)";
    }

    /** The scroll listener: the button is shown exactly when the page is scrolled more than 400 pixels. */
    method OnScroll(scrollY: real)
      modifies this
      ensures Shown() <==> scrollY > SCROLL_THRESHOLD
      ensures Hidden() <==> scrollY <= SCROLL_THRESHOLD
    {
      if scrollY > SCROLL_THRESHOLD {
        opacity := "1";
        transform := "translateY(0)";
      } else {
        opacity := "0";
        transform := "translateY(20px)";
      }
    }
  }
}
