/**
 * The category filters of the projects page (`projects.js`, over project
 * cards) and the blog page (`blog.js`, over posts). The two scripts are the
 * same code over different items, so one class models both: clicking a filter
 * button marks the buttons carrying that filter and hides every item whose
 * category does not contain it, unless the filter is "all".
 */
module CategoryFilter {
  import opened Js

  /** A `[data-filter]` button: its `data-filter` value (present by selection, possibly empty) and its `is-active` class. */
  datatype FilterButton = FilterButton(filter: string, isActive: bool)

  /** A project card or a post: its `data-category` (possibly missing) and its `is-hidden` class. */
  datatype FilterItem = FilterItem(category: Option<string>, isHidden: bool)

  /** Whether an item with this category shows under `filter`: always for "all", otherwise when the category contains the filter. */
  predicate Shows(filter: string, category: Option<string>)
  {
    filter == "all" || Includes(category.GetOr(""), filter)
  }

  /** The filter a click on a button applies: its own, or "all" when its `data-filter` is empty. */
  function ClickFilter(b: FilterButton): (f: string)
    ensures f != ""
    ensures b.filter != "" ==> f == b.filter
    ensures b.filter == "" ==> f == "all"
  {
    OrElse(Some(b.filter), "all")
  }

  /** The buttons after `setActive(filter)`. */
  function ButtonsAfter(buttons: seq<FilterButton>, filter: string): (r: seq<FilterButton>)
    ensures |r| == |buttons|
    ensures forall i :: 0 <= i < |buttons| ==> r[i].filter == buttons[i].filter
    ensures forall i :: 0 <= i < |buttons| ==> (r[i].isActive <==> buttons[i].filter == filter)
  {
    seq(|buttons|, i requires 0 <= i < |buttons| => buttons[i].(isActive := buttons[i].filter == filter))
  }

  /** The items after `setActive(filter)`. */
  function ItemsAfter(items: seq<FilterItem>, filter: string): (r: seq<FilterItem>)
    ensures |r| == |items|
    ensures forall i :: 0 <= i < |items| ==> r[i].category == items[i].category
    ensures forall i :: 0 <= i < |items| ==> (r[i].isHidden <==> !Shows(filter, items[i].category))
  {
    seq(|items|, i requires 0 <= i < |items| => items[i].(isHidden := !Shows(filter, items[i].category)))
  }

  /** The filter "all" shows every item, whatever its category. */
  lemma AllShowsEverything(items: seq<FilterItem>)
    ensures forall i :: 0 <= i < |items| ==> !ItemsAfter(items, "all")[i].isHidden
  {
  }

  /**
   * The outcome depends only on the filter and on what the markup declares
   * (filters and categories), not on which classes were set before; so
   * applying the same filter twice is the same as applying it once.
   */
  lemma SetActiveForgetsPriorState(a: seq<FilterItem>, b: seq<FilterItem>, filter: string)
    requires |a| == |b|
    requires forall i :: 0 <= i < |a| ==> a[i].category == b[i].category
    ensures ItemsAfter(a, filter) == ItemsAfter(b, filter)
    ensures ItemsAfter(ItemsAfter(a, filter), filter) == ItemsAfter(a, filter)
  {
    var ra, rb := ItemsAfter(a, filter), ItemsAfter(b, filter);
    assert forall i :: 0 <= i < |a| ==> ra[i] == rb[i];
    var rr := ItemsAfter(ra, filter);
    assert forall i :: 0 <= i < |a| ==> rr[i] == ra[i];
  }

  /** The same for the buttons. */
  lemma ButtonsForgetPriorState(a: seq<FilterButton>, b: seq<FilterButton>, filter: string)
    requires |a| == |b|
    requires forall i :: 0 <= i < |a| ==> a[i].filter == b[i].filter
    ensures ButtonsAfter(a, filter) == ButtonsAfter(b, filter)
    ensures ButtonsAfter(ButtonsAfter(a, filter), filter) == ButtonsAfter(a, filter)
  {
    var ra, rb := ButtonsAfter(a, filter), ButtonsAfter(b, filter);
    assert forall i :: 0 <= i < |a| ==> ra[i] == rb[i];
    var rr := ButtonsAfter(ra, filter);
    assert forall i :: 0 <= i < |a| ==> rr[i] == ra[i];
  }

  /**
   * A clicked button ends up marked active exactly when its own filter is not
   * empty: a button with an empty `data-filter` applies "all" instead.
   */
  lemma ClickedButtonActive(buttons: seq<FilterButton>, k: nat)
    requires k < |buttons|
    ensures ButtonsAfter(buttons, ClickFilter(buttons[k]))[k].isActive <==> buttons[k].filter != ""
  {
  }

  /** The filter "web" over "web design", "branding" and "web branding" shows the first and the last. */
  lemma WebExample()
    ensures Shows("web", Some("web design"))
    ensures !Shows("web", Some("branding"))
    ensures Shows("web", Some("web branding"))
  {
    assert OccursAt("web design", "web", 0);
    assert OccursAt("web branding", "web", 0);
    forall i | 0 <= i <= 5
      ensures !OccursAt("branding", "web", i)
    {
      assert "branding"[i] != 'w';
      assert "branding"[i..i + 3][0] == "branding"[i];
    }
  }

  /** A missing category never matches a real filter: it reads as the empty string. */
  lemma MissingCategoryHidden(filter: string)
    requires filter != "" && filter != "all"
    ensures !Shows(filter, None)
  {
    assert !OccursAt("", filter, 0);
  }

  class FilterBar {
    const buttons: array<FilterButton>
    const items: array<FilterItem>

    constructor (buttonMarkup: seq<FilterButton>, itemMarkup: seq<FilterItem>)
      requires |buttonMarkup| > 0 && |itemMarkup| > 0
      ensures fresh(buttons) && fresh(items)
      ensures buttons[..] == buttonMarkup && items[..] == itemMarkup
    {
      buttons := new FilterButton[|buttonMarkup|](i requires 0 <= i < |buttonMarkup| => buttonMarkup[i]);
      items := new FilterItem[|itemMarkup|](i requires 0 <= i < |itemMarkup| => itemMarkup[i]);
    }

    /** `setActive(filter)`: toggles `is-active` on every button and `is-hidden` on every item. */
    method SetActive(filter: string)
      modifies buttons, items
      ensures buttons[..] == ButtonsAfter(old(buttons[..]), filter)
      ensures items[..] == ItemsAfter(old(items[..]), filter)
    {
      var i := 0;
      while i < buttons.Length
        modifies buttons
        invariant 0 <= i <= buttons.Length
        invariant forall j :: 0 <= j < i ==> buttons[j] == old(buttons[j]).(isActive := old(buttons[j]).filter == filter)
        invariant forall j :: i <= j < buttons.Length ==> buttons[j] == old(buttons[j])
      {
        buttons[i] := buttons[i].(isActive := buttons[i].filter == filter);
        i := i + 1;
      }
      i := 0;
      while i < items.Length
        modifies items
        invariant 0 <= i <= items.Length
        invariant forall j :: 0 <= j < i ==> items[j] == old(items[j]).(isHidden := !Shows(filter, old(items[j]).category))
        invariant forall j :: i <= j < items.Length ==> items[j] == old(items[j])
      {
        var category := OrElse(items[i].category, "");
        var shown := filter == "all" || Includes(category, filter);
        items[i] := items[i].(isHidden := !shown);
        i := i + 1;
      }
    }

    /** A click on button `k`: applies its filter, or "all" when it is empty. */
    method Click(k: nat)
      requires k < buttons.Length
      modifies buttons, items
      ensures buttons[..] == ButtonsAfter(old(buttons[..]), ClickFilter(old(buttons[k])))
      ensures items[..] == ItemsAfter(old(items[..]), ClickFilter(old(buttons[k])))
    {
      SetActive(OrElse(Some(buttons[k].filter), "all"));
    }
  }

  /** `projects.js` / `blog.js` on load: nothing happens without buttons or without items. */
  method InitFilters(buttonMarkup: seq<FilterButton>, itemMarkup: seq<FilterItem>) returns (f: Option<FilterBar>)
    ensures f.None? <==> |buttonMarkup| == 0 || |itemMarkup| == 0
    ensures f.Some? ==> fresh(f.value) && f.value.buttons[..] == buttonMarkup && f.value.items[..] == itemMarkup
  {
    if |buttonMarkup| == 0 || |itemMarkup| == 0 {
      return None;
    }
    var bar := new FilterBar(buttonMarkup, itemMarkup);
    f := Some(bar);
  }
}
