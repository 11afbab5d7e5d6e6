// The mobile hamburger menu (main.js, initMobileMenu). One open/closed state is
// written into four places: the `is-open` class of the hamburger button, its
// `aria-expanded` attribute, the `is-open` class of the menu and the menu's
// `aria-hidden` attribute. The hamburger reads the state back from
// `aria-expanded`.

module MobileMenu {

  /** `String(b)` for a boolean, the text stored in an ARIA attribute. */
  function AttrString(b: bool): (s: string)
    ensures s == "true" || s == "false"
  {
    if b then "true" else "false"
  }

  /** Reading an attribute back (`=== 'true'`) recovers the boolean that was written. */
  lemma AttrStringRoundTrip(b: bool)
    ensures (AttrString(b) == "true") == b
  {
  }

  /** Where a click lands: on the hamburger, on one of the menu's links, elsewhere inside the
      menu, or outside both the hamburger and the menu. */
  datatype ClickTarget = Hamburger | MenuLink | InsideMenu | Outside

  class Menu {
    /** `is-open` on the hamburger button. */
    var hamburgerOpen: bool
    /** `aria-expanded` of the hamburger button. */
    var ariaExpanded: string
    /** `is-open` on the menu. */
    var menuOpen: bool
    /** `aria-hidden` of the menu. */
    var ariaHidden: string

    /** The four places agree. */
    predicate InStep()
      reads this
    {
      menuOpen == hamburgerOpen &&
      ariaExpanded == AttrString(hamburgerOpen) &&
      ariaHidden == AttrString(!hamburgerOpen)
    }

    /** The state as the hamburger's click handler reads it. */
    predicate IsOpen()
      reads this
    {
      ariaExpanded == "true"
    }

    /** The page as the markup leaves it, whatever the four values are. */
    constructor (hamburgerClass: bool, expanded: string, menuClass: bool, hidden: string)
      ensures hamburgerOpen == hamburgerClass && ariaExpanded == expanded
      ensures menuOpen == menuClass && ariaHidden == hidden
    {
      hamburgerOpen, ariaExpanded, menuOpen, ariaHidden := hamburgerClass, expanded, menuClass, hidden;
    }

    /** `toggle(open)`: all four places are set from `open`, so they agree afterwards. */
    method Toggle(open: bool)
      modifies this
      ensures InStep() && hamburgerOpen == open && IsOpen() == open
    {
      hamburgerOpen := open;
      ariaExpanded := AttrString(open);
      menuOpen := open;
      ariaHidden := AttrString(!open);
      AttrStringRoundTrip(open);
    }

    /** The hamburger's click listener flips the state read from `aria-expanded`. */
    method OnHamburgerClick()
      modifies this
      ensures InStep() && IsOpen() == !old(IsOpen())
    {
      var isOpen := ariaExpanded == "true";
      Toggle(!isOpen);
    }

    /** A menu link's click listener closes the menu. */
    method OnLinkClick()
      modifies this
      ensures InStep() && !IsOpen()
    {
      Toggle(false);
    }

    /** The document's click listener closes the menu when the click lands outside both the
        hamburger and the menu, and otherwise leaves everything as it is. */
    method OnDocumentClick(inHamburger: bool, inMenu: bool)
      modifies this
      ensures !inHamburger && !inMenu ==> InStep() && !IsOpen()
      ensures inHamburger || inMenu ==> unchanged(this)
    {
      if !inHamburger && !inMenu {
        Toggle(false);
      }
    }

    /** The document's keydown listener closes the menu on Escape and ignores other keys. */
    method OnKeydown(key: string)
      modifies this
      ensures key == "Escape" ==> InStep() && !IsOpen()
      ensures key != "Escape" ==> unchanged(this)
    {
      if key == "Escape" {
        Toggle(false);
      }
    }

    /** One click as the browser dispatches it: first the listener on the target, then the
        document's listener as the event bubbles up. A click on the hamburger flips the menu (the
        document's listener sees a target inside the hamburger and does nothing), a click on a link
        or outside closes it, and a click elsewhere inside the menu changes nothing. */
    method Click(target: ClickTarget)
      modifies this
      ensures target == Hamburger ==> InStep() && IsOpen() == !old(IsOpen())
      ensures target == MenuLink || target == Outside ==> InStep() && !IsOpen()
      ensures target == InsideMenu ==> unchanged(this)
    {
      match target {
        case Hamburger => OnHamburgerClick();
        case MenuLink => OnLinkClick();
        case InsideMenu =>
        case Outside =>
      }
      OnDocumentClick(target == Hamburger, target == MenuLink || target == InsideMenu);
    }
  }
}
