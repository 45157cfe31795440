/** The two passes run on every scroll: marking the navigation link of the
    section under the 150-pixel line as active, and revealing elements as
    they come into view. Geometry is in whole pixels. */
module Scroll {
  import opened Wrappers

  /** The distance from the top of the viewport of the line that decides
      which section is current. */
  const ActiveOffset := 150
  /** How far above the bottom of the viewport an element's top must be to
      be revealed. */
  const RevealMargin := 80

  /** A `section[id]` element: its id and its bounding rectangle's top and
      bottom edges, relative to the viewport. */
  datatype Section = Section(id: string, top: int, bottom: int)

  /** The section spans the offset line: `top <= 150 < bottom`. */
  predicate Straddles(top: int, bottom: int) {
    top <= ActiveOffset && bottom > ActiveOffset
  }

  /** A section that selects a link: a non-empty id and a box across the line. */
  predicate IsCurrent(s: Section) {
    s.id != "" && Straddles(s.top, s.bottom)
  }

  /** The index of the last current section, the one whose link a pass
      leaves active; none when no section is current. */
  function LastCurrent(sections: seq<Section>): (k: Option<nat>)
    ensures k.None? <==> forall i :: 0 <= i < |sections| ==> !IsCurrent(sections[i])
    ensures k.Some? ==>
              k.value < |sections| && IsCurrent(sections[k.value])
              && forall i :: k.value < i < |sections| ==> !IsCurrent(sections[i])
  {
    if sections == [] then None
    else if IsCurrent(sections[|sections| - 1]) then Some(|sections| - 1)
    else LastCurrent(sections[..|sections| - 1])
  }

  /** `updateActiveNav`: `hrefs` are the links' `href` attributes and
      `active` whether each one's class list holds `active`. Every current
      section in turn clears all links and marks those pointing at `#id`, so
      the last current section wins; when no section is current, no flag
      changes. */
  method UpdateActiveNav(sections: seq<Section>, hrefs: seq<string>, active: array<bool>)
    requires active.Length == |hrefs|
    modifies active
    ensures LastCurrent(sections).None? ==> active[..] == old(active[..])
    ensures LastCurrent(sections).Some? ==>
              var id := sections[LastCurrent(sections).value].id;
              forall a :: 0 <= a < active.Length ==> (active[a] <==> hrefs[a] == "#" + id)
  {
    if |hrefs| == 0 {
      return;
    }
    var i := 0;
    while i < |sections|
      invariant 0 <= i <= |sections|
      invariant LastCurrent(sections[..i]).None? ==> active[..] == old(active[..])
      invariant LastCurrent(sections[..i]).Some? ==>
                  var id := sections[LastCurrent(sections[..i]).value].id;
                  forall a :: 0 <= a < active.Length ==> (active[a] <==> hrefs[a] == "#" + id)
    {
      var section := sections[i];
      assert sections[..i + 1][..i] == sections[..i];
      if IsCurrent(section) {
        var j := 0;
        while j < active.Length
          invariant 0 <= j <= active.Length
          invariant forall a :: 0 <= a < j ==> (active[a] <==> hrefs[a] == "#" + section.id)
        {
          active[j] := false;
          if hrefs[j] == "#" + section.id {
            active[j] := true;
          }
          j := j + 1;
        }
      }
      i := i + 1;
    }
    assert sections[..i] == sections;
  }

  /** The element's top edge is above the reveal line. */
  predicate Visible(top: int, innerHeight: int) {
    top < innerHeight - RevealMargin
  }

  /** `reveal`: `tops` are the elements' top edges and `revealed` whether
      each one's class list holds `revealed`. Under reduced motion every
      element ends revealed; otherwise an element ends revealed exactly when
      it was already or its top is above the reveal line. No element is ever
      un-revealed. */
  method Reveal(reducedMotion: bool, tops: seq<int>, innerHeight: int, revealed: array<bool>)
    requires revealed.Length == |tops|
    modifies revealed
    ensures forall k :: 0 <= k < revealed.Length ==> old(revealed[k]) ==> revealed[k]
    ensures reducedMotion ==> forall k :: 0 <= k < revealed.Length ==> revealed[k]
    ensures !reducedMotion ==>
              forall k :: 0 <= k < revealed.Length ==>
                (revealed[k] <==> old(revealed[k]) || Visible(tops[k], innerHeight))
  {
    if reducedMotion {
      var k := 0;
      while k < revealed.Length
        invariant 0 <= k <= revealed.Length
        invariant forall m :: 0 <= m < k ==> revealed[m]
      {
        revealed[k] := true;
        k := k + 1;
      }
      return;
    }
    var k := 0;
    while k < revealed.Length
      invariant 0 <= k <= revealed.Length
      invariant forall m :: 0 <= m < k ==> (revealed[m] <==> old(revealed[m]) || Visible(tops[m], innerHeight))
      invariant forall m :: k <= m < revealed.Length ==> revealed[m] == old(revealed[m])
    {
      if !revealed[k] {
        if tops[k] < innerHeight - RevealMargin {
          revealed[k] := true;
        }
      }
      k := k + 1;
    }
  }

  /** Two passes over the same geometry leave what one pass leaves: under
      reduced motion every element is revealed, and otherwise an element is
      revealed exactly when it already was or its top is above the line. */
  method RevealTwice(reducedMotion: bool, tops: seq<int>, innerHeight: int, revealed: array<bool>)
    requires revealed.Length == |tops|
    modifies revealed
    ensures reducedMotion ==> forall k :: 0 <= k < revealed.Length ==> revealed[k]
    ensures !reducedMotion ==>
              forall k :: 0 <= k < revealed.Length ==>
                (revealed[k] <==> old(revealed[k]) || Visible(tops[k], innerHeight))
  {
    Reveal(reducedMotion, tops, innerHeight, revealed);
    Reveal(reducedMotion, tops, innerHeight, revealed);
  }
}
