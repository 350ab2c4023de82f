/**
 * The services accordion (`services.js`). Each item may have a header button
 * and a content panel; only items with both take part. A click on an item's
 * header closes every item and reopens the clicked one only if it was closed,
 * so at most one item is open; the first item starts open.
 */
module Accordion {
  import opened Js

  /**
   * An `.accordion__item`: whether it has its button and its content panel, the
   * `is-open` class, the button's `aria-expanded`, the panel's inline
   * `max-height` in pixels (None while the script has not set it) and the
   * panel's natural `scrollHeight`.
   */
  datatype Item = Item(hasButton: bool, hasContent: bool, isOpen: bool,
                       ariaExpanded: Option<string>, maxHeight: Option<nat>, scrollHeight: nat)
  {
    /** An item the script can open and close: it has both its button and its panel. */
    predicate WellFormed()
    {
      hasButton && hasContent
    }

    /** The class, the attribute and the panel height agree, as the script leaves them. */
    predicate Consistent()
    {
      && (isOpen ==> ariaExpanded == Some("true") && maxHeight == Some(scrollHeight))
      && (!isOpen ==> ariaExpanded == Some("false") && maxHeight == Some(0))
    }
  }

  /** `closeItem`: an item without button or panel is left alone. */
  function Closed(it: Item): (r: Item)
    ensures it.WellFormed() ==> !r.isOpen && r.Consistent()
    ensures !it.WellFormed() ==> r == it
    ensures r.hasButton == it.hasButton && r.hasContent == it.hasContent && r.scrollHeight == it.scrollHeight
  {
    if !it.WellFormed() then it
    else it.(isOpen := false, ariaExpanded := Some("false"), maxHeight := Some(0))
  }

  /** `openItem`: an item without button or panel is left alone. */
  function Opened(it: Item): (r: Item)
    ensures it.WellFormed() ==> r.isOpen && r.Consistent()
    ensures !it.WellFormed() ==> r == it
    ensures r.hasButton == it.hasButton && r.hasContent == it.hasContent && r.scrollHeight == it.scrollHeight
  {
    if !it.WellFormed() then it
    else it.(isOpen := true, ariaExpanded := Some("true"), maxHeight := Some(it.scrollHeight))
  }

  /** The items after a click on the header of item `k`. */
  function AfterClick(items: seq<Item>, k: nat): (r: seq<Item>)
    requires k < |items|
    ensures |r| == |items|
  {
    var closed := seq(|items|, i requires 0 <= i < |items| => Closed(items[i]));
    if items[k].isOpen then closed else closed[k := Opened(closed[k])]
  }

  /** At most one item that takes part is open. */
  ghost predicate AtMostOneOpen(items: seq<Item>)
  {
    forall i, j ::
      (0 <= i < |items| && 0 <= j < |items| &&
       items[i].WellFormed() && items[i].isOpen && items[j].WellFormed() && items[j].isOpen) ==> i == j
  }

  /**
   * After any click, every item that takes part shows a consistent state, at
   * most one of them is open, and items without button or panel are untouched.
   */
  lemma ClickKeepsOneOpen(items: seq<Item>, k: nat)
    requires k < |items| && items[k].WellFormed()
    ensures AtMostOneOpen(AfterClick(items, k))
    ensures forall i :: 0 <= i < |items| && items[i].WellFormed() ==> AfterClick(items, k)[i].Consistent()
    ensures forall i :: 0 <= i < |items| && !items[i].WellFormed() ==> AfterClick(items, k)[i] == items[i]
  {
  }

  /** A click on the header of the open item leaves no item that takes part open. */
  lemma ClickOpenClosesAll(items: seq<Item>, k: nat)
    requires k < |items| && items[k].WellFormed() && items[k].isOpen
    ensures forall i :: 0 <= i < |items| && items[i].WellFormed() ==> !AfterClick(items, k)[i].isOpen
  {
  }

  /** A click on the header of a closed item leaves exactly that item open among those that take part. */
  lemma ClickClosedOpensIt(items: seq<Item>, k: nat)
    requires k < |items| && items[k].WellFormed() && !items[k].isOpen
    ensures forall i :: 0 <= i < |items| && items[i].WellFormed() ==> (AfterClick(items, k)[i].isOpen <==> i == k)
    ensures AfterClick(items, k)[k].maxHeight == Some(items[k].scrollHeight)
  {
  }

  /** Two clicks on the same closed header open it and close it again: no item that takes part is left open. */
  lemma ClickTwiceClosesAll(items: seq<Item>, k: nat)
    requires k < |items| && items[k].WellFormed() && !items[k].isOpen
    ensures forall i :: 0 <= i < |items| && items[i].WellFormed() ==>
      !AfterClick(AfterClick(items, k), k)[i].isOpen
  {
    ClickClosedOpensIt(items, k);
    ClickOpenClosesAll(AfterClick(items, k), k);
  }

  /** The items right after load: item 0 is opened when it takes part, and nothing else changes. */
  function AfterLoad(items: seq<Item>): (r: seq<Item>)
    ensures |r| == |items|
    ensures |items| > 0 && items[0].WellFormed() ==> r[0].isOpen && r[0].Consistent()
    ensures forall i :: 0 <= i < |items| && (i > 0 || !items[i].WellFormed()) ==> r[i] == items[i]
  {
    if |items| == 0 then items else items[0 := Opened(items[0])]
  }

  class Accordion {
    const items: array<Item>

    /** The items of the page; item 0 is opened on load when it takes part. */
    constructor (markup: seq<Item>)
      requires |markup| > 0
      ensures fresh(items) && items[..] == AfterLoad(markup)
    {
      items := new Item[|markup|](i requires 0 <= i < |markup| => markup[i]);
      new;
      assert items[..] == markup;
      OpenItem(0);
    }

    /** `closeItem(items[i])`. */
    method CloseItem(i: nat)
      requires i < items.Length
      modifies items
      ensures items[..] == old(items[..])[i := Closed(old(items[i]))]
    {
      var it := items[i];
      if !it.hasButton || !it.hasContent {
        return;
      }
      items[i] := it.(isOpen := false, ariaExpanded := Some("false"), maxHeight := Some(0));
    }

    /** `openItem(items[i])`. */
    method OpenItem(i: nat)
      requires i < items.Length
      modifies items
      ensures items[..] == old(items[..])[i := Opened(old(items[i]))]
    {
      var it := items[i];
      if !it.hasButton || !it.hasContent {
        return;
      }
      items[i] := it.(isOpen := true, ariaExpanded := Some("true"), maxHeight := Some(it.scrollHeight));
    }

    /**
     * A click on the header of item `k` (only items that take part have a
     * listener): every item is closed in turn, then item `k` is reopened if it
     * was closed before the click.
     */
    method Click(k: nat)
      requires k < items.Length && items[k].WellFormed()
      modifies items
      ensures items[..] == AfterClick(old(items[..]), k)
    {
      var isOpen := items[k].isOpen;
      var i := 0;
      while i < items.Length
        invariant 0 <= i <= items.Length
        invariant forall j :: 0 <= j < i ==> items[j] == Closed(old(items[j]))
        invariant forall j :: i <= j < items.Length ==> items[j] == old(items[j])
      {
        CloseItem(i);
        i := i + 1;
      }
      if !isOpen {
        OpenItem(k);
      }
    }
  }

  /** `services.js` on load: nothing happens without items. */
  method InitAccordion(markup: seq<Item>) returns (a: Option<Accordion>)
    ensures a.None? <==> |markup| == 0
    ensures a.Some? ==> fresh(a.value) && fresh(a.value.items) && a.value.items[..] == AfterLoad(markup)
  {
    if |markup| == 0 {
      return None;
    }
    var accordion := new Accordion(markup);
    a := Some(accordion);
  }
}
