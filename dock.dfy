/** Dock highlighting on scroll: the section the reader has scrolled into is
    found, and the dock item linking to it is marked active. */
module Dock {
  import opened Wrappers

  /** A page section: its `id` attribute (None when it has none, which the
      page script reads as `null`) and its `offsetTop` in pixels. */
  datatype Section = Section(id: Option<string>, offsetTop: int)

  /** How far above a section's top the reader may be and still be in it. */
  const Lead: int := 200

  /** The reader has scrolled into the section. */
  predicate Reached(s: Section, scrollY: real)
  {
    scrollY >= (s.offsetTop - Lead) as real
  }

  /** The index of the last section reached in document order, or -1 when no
      section is reached. */
  function LastReached(sections: seq<Section>, scrollY: real): (k: int)
    ensures -1 <= k < |sections|
    ensures k >= 0 ==> Reached(sections[k], scrollY)
    ensures forall j :: k < j < |sections| ==> !Reached(sections[j], scrollY)
    decreases |sections|
  {
    if |sections| == 0 then -1
    else if Reached(sections[|sections| - 1], scrollY) then |sections| - 1
    else LastReached(sections[..|sections| - 1], scrollY)
  }

  /** The value the handler's `current` ends with: the last reached section's
      id, or the empty string when none is reached. */
  function Selected(sections: seq<Section>, scrollY: real): Option<string>
  {
    var k := LastReached(sections, scrollY);
    if k < 0 then Some("") else sections[k].id
  }

  /** Scrolling further down never selects an earlier section. */
  lemma {:induction false} LastReachedMonotone(sections: seq<Section>, y1: real, y2: real)
    requires y1 <= y2
    ensures LastReached(sections, y1) <= LastReached(sections, y2)
  {
    var k1 := LastReached(sections, y1);
    if k1 >= 0 {
      assert Reached(sections[k1], y2);
    }
  }

  /** The scroll handler's first loop: every section reached overwrites `current`. */
  method CurrentSection(sections: seq<Section>, scrollY: real) returns (current: Option<string>)
    ensures current == Selected(sections, scrollY)
  {
    current := Some("");
    var i := 0;
    while i < |sections|
      invariant 0 <= i <= |sections|
      invariant current == Selected(sections[..i], scrollY)
    {
      assert sections[..i + 1][..i] == sections[..i];
      if Reached(sections[i], scrollY) {
        current := sections[i].id;
      }
      i := i + 1;
    }
    assert sections[..|sections|] == sections;
  }

  /** The href that marks a dock item as the current one: `'#' + current`,
      where a `null` current reads as "null". */
  function HrefFor(current: Option<string>): string
  {
    "#" + (if current.None? then "null" else current.value)
  }

  /** The scroll handler's second loop: every dock item is cleared, then the
      items whose href is `'#' + current` are set. `active[i]` is the
      `active` class of the item whose href is `hrefs[i]` (None: no href). */
  method HighlightDock(hrefs: seq<Option<string>>, active: array<bool>, current: Option<string>)
    requires active.Length == |hrefs|
    modifies active
    ensures forall i :: 0 <= i < active.Length ==> (active[i] <==> hrefs[i] == Some(HrefFor(current)))
  {
    var i := 0;
    while i < active.Length
      invariant 0 <= i <= active.Length
      invariant forall j :: 0 <= j < i ==> (active[j] <==> hrefs[j] == Some(HrefFor(current)))
    {
      active[i] := false;
      if hrefs[i] == Some(HrefFor(current)) {
        active[i] := true;
      }
      i := i + 1;
    }
  }

  /** The whole scroll handler: afterwards a dock item is active exactly when
      its href links to the last section reached. */
  method OnScroll(sections: seq<Section>, scrollY: real, hrefs: seq<Option<string>>, active: array<bool>)
    requires active.Length == |hrefs|
    modifies active
    ensures forall i :: 0 <= i < active.Length ==>
      (active[i] <==> hrefs[i] == Some(HrefFor(Selected(sections, scrollY))))
  {
    var current := CurrentSection(sections, scrollY);
    HighlightDock(hrefs, active, current);
  }
}
