// The navigation bar: its `scrolled` state (main.js, initNav) and the highlighting of the
// link of the section in view (main.js, initActiveNav). When the bar is scrolled and which
// section is in view come from the browser; this module models what the listeners do with them.

module Nav {
  import opened Wrappers

  /** Pixels the page must be scrolled, strictly beyond, before the bar counts as scrolled. */
  const ScrolledThreshold: int := 20

  /** The condition the scroll listener passes to `classList.toggle('scrolled', …)`. */
  predicate IsScrolled(scrollY: int)
  {
    scrollY > ScrolledThreshold
  }

  class NavBar {
    /** The `scrolled` class on the bar. */
    var scrolled: bool

    /** The listener, also run once on load: the class is present exactly when the page is
        scrolled more than the threshold, whatever it was before. */
    method OnScroll(scrollY: int)
      modifies this
      ensures scrolled <==> scrollY > ScrolledThreshold
    {
      scrolled := IsScrolled(scrollY);
    }
  }

  /** Whether a link with `href` points at the section `id` (`href === '#' + id`). */
  predicate Targets(href: string, id: string)
  {
    href == "#" + id
  }

  /** A link targets at most one section. */
  lemma TargetsOneSection(href: string, id1: string, id2: string)
    requires Targets(href, id1) && Targets(href, id2)
    ensures id1 == id2
  {
    assert id1 == ("#" + id1)[1..];
    assert id2 == ("#" + id2)[1..];
  }

  /** An entry the section observer reports: a section's id and whether it is intersecting. */
  datatype Entry = Entry(id: string, isIntersecting: bool)

  /** The id of the last intersecting entry of a batch, if any. */
  function LastIntersecting(entries: seq<Entry>): (last: Option<string>)
    ensures last.Some? <==> exists k :: 0 <= k < |entries| && entries[k].isIntersecting
    ensures last.Some? ==>
      exists k :: (0 <= k < |entries| && entries[k].isIntersecting && entries[k].id == last.value &&
                   forall j :: k < j < |entries| ==> !entries[j].isIntersecting)
  {
    if entries == [] then None
    else if entries[|entries| - 1].isIntersecting then Some(entries[|entries| - 1].id)
    else LastIntersecting(entries[..|entries| - 1])
  }

  /** The navigation links: each one's `href` and whether it carries `is-active`. */
  class NavLinks {
    const hrefs: seq<string>
    const active: array<bool>

    ghost predicate Valid()
      reads this
    {
      active.Length == |hrefs|
    }

    constructor (links: seq<string>)
      ensures Valid() && fresh(active) && hrefs == links
      ensures forall i :: 0 <= i < active.Length ==> !active[i]
    {
      hrefs := links;
      active := new bool[|links|](_ => false);
    }

    /** The loop over the links for one intersecting section: afterwards a link is active exactly
        when it targets that section. */
    method Highlight(id: string)
      requires Valid()
      modifies active
      ensures forall i :: 0 <= i < active.Length ==> (active[i] <==> Targets(hrefs[i], id))
    {
      for i := 0 to active.Length
        invariant forall k :: 0 <= k < i ==> (active[k] <==> Targets(hrefs[k], id))
      {
        active[i] := hrefs[i] == "#" + id;
      }
    }

    /** The observer's callback on a batch of entries: every intersecting entry is highlighted in
        turn, so the last one decides; a batch with none leaves the links as they were. */
    method OnIntersect(entries: seq<Entry>)
      requires Valid()
      modifies active
      ensures LastIntersecting(entries).None? ==> unchanged(active)
      ensures LastIntersecting(entries).Some? ==>
        forall i :: 0 <= i < active.Length ==> (active[i] <==> Targets(hrefs[i], LastIntersecting(entries).value))
    {
      for n := 0 to |entries|
        invariant LastIntersecting(entries[..n]).None? ==> unchanged(active)
        invariant LastIntersecting(entries[..n]).Some? ==>
          forall i :: 0 <= i < active.Length ==> (active[i] <==> Targets(hrefs[i], LastIntersecting(entries[..n]).value))
      {
        assert entries[..n + 1][..n] == entries[..n];
        if entries[n].isIntersecting {
          Highlight(entries[n].id);
        }
      }
      assert entries[..|entries|] == entries;
    }
  }
}
