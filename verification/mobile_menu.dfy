/**
 * The mobile navigation menu of the home page (`initMobileMenu`): a toggle
 * button whose `aria-expanded` records whether the menu is open, the menu's
 * `hidden` flag and the `menu-open` class on the document body.
 */
module MobileMenu {
  import opened Js

  class Menu {
    /** `aria-expanded` on the toggle button. */
    var ariaExpanded: Option<string>
    /** `hidden` on the menu. */
    var menuHidden: bool
    /** The `menu-open` class on the body. */
    var bodyMenuOpen: bool

    /** The menu as the markup delivers it; nothing is written before the first event. */
    constructor (ariaExpanded: Option<string>, menuHidden: bool, bodyMenuOpen: bool)
      ensures this.ariaExpanded == ariaExpanded && this.menuHidden == menuHidden
      ensures this.bodyMenuOpen == bodyMenuOpen
    {
      this.ariaExpanded := ariaExpanded;
      this.menuHidden := menuHidden;
      this.bodyMenuOpen := bodyMenuOpen;
    }

    /** What a click on the toggle reads: the menu counts as open only when `aria-expanded` is "true". */
    predicate IsOpen()
      reads this
    {
      ariaExpanded == Some("true")
    }

    /** The three marks agree: the menu is shown and the body marked exactly when the toggle says open. */
    predicate Consistent()
      reads this
    {
      && (ariaExpanded == Some("true") || ariaExpanded == Some("false"))
      && menuHidden == !IsOpen()
      && bodyMenuOpen == IsOpen()
    }

    /** `setOpen(open)`. */
    method SetOpen(open: bool)
      modifies this
      ensures Consistent() && IsOpen() == open
    {
      ariaExpanded := Some(if open then "true" else "false");
      menuHidden := !open;
      bodyMenuOpen := open;
    }

    /** A click on the toggle flips the state the toggle reports. */
    method ToggleClick()
      modifies this
      ensures Consistent() && IsOpen() == !old(IsOpen())
    {
      var isOpen := ariaExpanded == Some("true");
      SetOpen(!isOpen);
    }

    /** `keydown` anywhere in the document: Escape closes the menu, any other key changes nothing. */
    method KeyDown(key: string)
      modifies this
      ensures key == "Escape" ==> Consistent() && !IsOpen()
      ensures key != "Escape" ==> unchanged(this)
    {
      if key == "Escape" {
        SetOpen(false);
      }
    }

    /** A click on any link inside the menu closes it. */
    method LinkClick()
      modifies this
      ensures Consistent() && !IsOpen()
    {
      SetOpen(false);
    }
  }

  /** `initMobileMenu`: nothing happens unless both the toggle and the menu exist. */
  method InitMobileMenu(hasToggle: bool, hasMenu: bool, ariaExpanded: Option<string>, menuHidden: bool, bodyMenuOpen: bool)
    returns (m: Option<Menu>)
    ensures m.None? <==> !hasToggle || !hasMenu
    ensures m.Some? ==> fresh(m.value) && m.value.ariaExpanded == ariaExpanded && m.value.menuHidden == menuHidden
    ensures m.Some? ==> m.value.bodyMenuOpen == bodyMenuOpen
  {
    if !hasToggle || !hasMenu {
      return None;
    }
    var menu := new Menu(ariaExpanded, menuHidden, bodyMenuOpen);
    m := Some(menu);
  }
}
