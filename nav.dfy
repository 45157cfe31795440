/** The mobile navigation menu: the toggle's `aria-expanded` attribute, the
    `open` class of the link container and the body's `overflow` style. */
module Nav {

  /** Widths above this many pixels close the menu on resize. */
  const Breakpoint := 768

  class MobileNav {
    /** Both the toggle control and the link container are on the page; the
        handlers are only installed when they are. */
    const wired: bool
    /** The toggle's `aria-expanded` attribute. */
    var ariaExpanded: string
    /** Whether the link container's class list holds `open`. */
    var linksOpen: bool
    /** The body's `style.overflow`. */
    var bodyOverflow: string

    /** The attribute, the class and the scroll lock all tell the same story,
        as they do on a page that starts closed. */
    predicate Consistent()
      reads this
    {
      && (ariaExpanded == "true" || ariaExpanded == "false")
      && linksOpen == (ariaExpanded == "true")
      && bodyOverflow == (if linksOpen then "hidden" else "")
    }

    constructor (wired: bool, ariaExpanded: string, linksOpen: bool, bodyOverflow: string)
      ensures this.wired == wired && this.ariaExpanded == ariaExpanded
      ensures this.linksOpen == linksOpen && this.bodyOverflow == bodyOverflow
    {
      this.wired := wired;
      this.ariaExpanded := ariaExpanded;
      this.linksOpen := linksOpen;
      this.bodyOverflow := bodyOverflow;
    }

    /** `closeMobileNav`, also the click handler of every in-page link: the
        menu ends closed and scrolling unlocked, whatever it was before, so a
        second call changes nothing. Without the controls it does nothing. */
    method CloseMobileNav()
      modifies this
      ensures wired ==> ariaExpanded == "false" && !linksOpen && bodyOverflow == ""
      ensures wired ==> Consistent()
      ensures !wired ==> ariaExpanded == old(ariaExpanded) && linksOpen == old(linksOpen)
      ensures !wired ==> bodyOverflow == old(bodyOverflow)
    {
      if wired {
        ariaExpanded := "false";
        linksOpen := false;
        bodyOverflow := "";
      }
    }

    /** The toggle's click handler: `aria-expanded` flips (anything but
        `true` counts as closed), the `open` class is toggled on its own, and
        the scroll lock is on exactly when the menu has just been opened. */
    method OnToggleClick()
      requires wired
      modifies this
      ensures ariaExpanded == (if old(ariaExpanded) == "true" then "false" else "true")
      ensures linksOpen == !old(linksOpen)
      ensures (bodyOverflow == "hidden") == (ariaExpanded == "true")
      ensures bodyOverflow == "hidden" || bodyOverflow == ""
      ensures old(Consistent()) ==> Consistent()
    {
      var expanded := ariaExpanded == "true";
      ariaExpanded := if !expanded then "true" else "false";
      linksOpen := !linksOpen;
      bodyOverflow := if expanded then "" else "hidden";
    }

    /** The window's resize handler: wider than the breakpoint closes the
        menu; at or below it nothing changes. */
    method OnResize(innerWidth: int)
      requires wired
      modifies this
      ensures innerWidth > Breakpoint ==> ariaExpanded == "false" && !linksOpen && bodyOverflow == ""
      ensures innerWidth <= Breakpoint ==>
                ariaExpanded == old(ariaExpanded) && linksOpen == old(linksOpen)
                && bodyOverflow == old(bodyOverflow)
      ensures old(Consistent()) ==> Consistent()
    {
      if innerWidth > Breakpoint {
        CloseMobileNav();
      }
    }
  }

  /** Opening the menu and then widening the window to 1024 pixels leaves it
      closed with `aria-expanded="false"` and scrolling unlocked. */
  method OpenThenWiden(nav: MobileNav)
    requires nav.wired && nav.Consistent() && nav.ariaExpanded == "false"
    modifies nav
    ensures nav.ariaExpanded == "false" && !nav.linksOpen && nav.bodyOverflow == ""
  {
    nav.OnToggleClick();
    assert nav.linksOpen && nav.bodyOverflow == "hidden";
    nav.OnResize(1024);
  }

  /** Two clicks on the toggle from a consistent state restore it. */
  method ToggleTwice(nav: MobileNav)
    requires nav.wired && nav.Consistent()
    modifies nav
    ensures nav.ariaExpanded == old(nav.ariaExpanded) && nav.linksOpen == old(nav.linksOpen)
    ensures nav.bodyOverflow == old(nav.bodyOverflow)
  {
    nav.OnToggleClick();
    nav.OnToggleClick();
  }
}
