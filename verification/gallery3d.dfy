/**
 * The 3D card gallery of the home page (`initGallery3D`): a current index over
 * the cards, a signed shortest-path offset of every card from the current one,
 * and the integer state derived from it (stacking order and which card is in
 * front). The continuous transforms (depth, scale, rotation, opacity, tilt and
 * the idle float) are presentational and not part of this model.
 */
module Gallery3D {
  import opened Js
  import opened Rotation

  /** A card: its inline `zIndex`, the `is-front` class, `aria-selected` and `tabIndex`. */
  datatype Card = Card(zIndex: int, isFront: bool, ariaSelected: string, tabIndex: int)

  function Abs(x: int): nat
  {
    if x < 0 then -x else x
  }

  /**
   * `getRelativeIndex(index)`: the offset of card `index` from the current card,
   * taken the short way round. It differs from `index - current` by a multiple
   * of the count, lies in [-count/2, count/2], and is 0 only for the current card.
   * The source compares with `count / 2` as a real number; doubling both sides
   * keeps the comparison exact over integers.
   */
  function RelativeIndex(index: int, current: int, count: int): (rel: int)
    requires 0 <= index < count && 0 <= current < count
    ensures rel == index - current || rel == index - current - count || rel == index - current + count
    ensures -count <= 2 * rel <= count
    ensures rel == 0 <==> index == current
  {
    var rel := index - current;
    var rel := if 2 * rel > count then rel - count else rel;
    if 2 * rel < -count then rel + count else rel
  }

  /** Two indices in (-count, count) that denote the same slide differ by 0 or by count. */
  lemma WrapSmall(x: int, count: int)
    requires count > 0 && -count <= x < count
    ensures Wrap(x, count) == if x < 0 then x + count else x
  {
  }

  /**
   * The relative offset is a shortest path: every offset that reaches card
   * `index` from the current card is at least as long.
   */
  lemma RelativeIndexIsShortest(index: int, current: int, count: int, other: int)
    requires 0 <= index < count && 0 <= current < count
    requires Wrap(current + other, count) == index
    ensures Abs(RelativeIndex(index, current, count)) <= Abs(other)
  {
    var rel := RelativeIndex(index, current, count);
    if Abs(other) < Abs(rel) {
      WrapSmall(current + other, count);
      WrapSmall(current + other - count, count);
      WrapPeriodic(current + other, count);
      assert false;
    }
  }

  /** What `updatePositions` writes on a card at relative offset `rel` among `count` cards. */
  function CardView(rel: int, count: int): Card
  {
    Card(count - Abs(rel), rel == 0, if rel == 0 then "true" else "false", if rel == 0 then 0 else -1)
  }

  /** The card at `index` as rendered with `current` in front. */
  function CardAt(index: int, current: int, count: int): (c: Card)
    requires 0 <= index < count && 0 <= current < count
    ensures c.isFront <==> index == current
    ensures c.ariaSelected == "true" <==> index == current
    ensures c.tabIndex == 0 <==> index == current
    ensures index == current ==> c.zIndex == count
    ensures index != current ==> 0 < c.zIndex < count
  {
    CardView(RelativeIndex(index, current, count), count)
  }

  /** Stacking follows distance: of two cards, the one nearer the front (the short way round) is stacked higher. */
  lemma StackingFollowsDistance(i: int, j: int, current: int, count: int)
    requires 0 <= i < count && 0 <= j < count && 0 <= current < count
    requires Abs(RelativeIndex(i, current, count)) < Abs(RelativeIndex(j, current, count))
    ensures CardAt(i, current, count).zIndex > CardAt(j, current, count).zIndex
  {
  }

  class Gallery {
    const cards: array<Card>
    const reducedMotion: bool
    var currentIndex: int
    var isPaused: bool
    var isDragging: bool
    /** The `is-dragging` class on the card stack. */
    var stackDragging: bool
    var startX: real
    /** Whether the autoplay interval timer exists. */
    var timerRunning: bool

    /** Every card shows the state derived from its offset from the current card. */
    ghost predicate Valid()
      reads this, cards
    {
      && 0 < cards.Length
      && 0 <= currentIndex < cards.Length
      && forall i :: 0 <= i < cards.Length ==> cards[i] == CardAt(i, currentIndex, cards.Length)
    }

    /** `initGallery3D` over `count` cards: card 0 in front, positions rendered, autoplay started. */
    constructor (count: nat, reducedMotion: bool)
      requires count > 0
      ensures Valid() && fresh(cards) && cards.Length == count
      ensures currentIndex == 0 && this.reducedMotion == reducedMotion
      ensures !isPaused && !isDragging && !stackDragging && timerRunning == !reducedMotion
    {
      cards := new Card[count](_ => Card(0, false, "false", -1));
      this.reducedMotion := reducedMotion;
      currentIndex := 0;
      isPaused := false;
      isDragging := false;
      stackDragging := false;
      startX := 0.0;
      timerRunning := false;
      new;
      UpdatePositions();
      StartAutoplay();
    }

    /** `updatePositions`: renders every card from its offset to the current one. */
    method UpdatePositions()
      requires 0 < cards.Length && 0 <= currentIndex < cards.Length
      modifies cards
      ensures Valid()
    {
      var i := 0;
      while i < cards.Length
        invariant 0 <= i <= cards.Length
        invariant forall j :: 0 <= j < i ==> cards[j] == CardAt(j, currentIndex, cards.Length)
      {
        cards[i] := CardView(RelativeIndex(i, currentIndex, cards.Length), cards.Length);
        i := i + 1;
      }
    }

    /** `setActive(nextIndex)` (also a card's click or focus): wraps the index and re-renders. */
    method SetActive(nextIndex: int)
      requires 0 < cards.Length
      modifies this`currentIndex, cards
      ensures Valid()
      ensures currentIndex == Wrap(nextIndex, cards.Length)
    {
      currentIndex := Wrap(nextIndex, cards.Length);
      UpdatePositions();
    }

    method Next()
      requires Valid()
      modifies this`currentIndex, cards
      ensures Valid()
      ensures currentIndex == Wrap(old(currentIndex) + 1, cards.Length)
      ensures currentIndex == WrapAsWritten(old(currentIndex) + 1, cards.Length)
    {
      WrapAgreesWithSource(currentIndex + 1, cards.Length);
      SetActive(currentIndex + 1);
    }

    method Prev()
      requires Valid()
      modifies this`currentIndex, cards
      ensures Valid()
      ensures currentIndex == Wrap(old(currentIndex) - 1, cards.Length)
      ensures currentIndex == WrapAsWritten(old(currentIndex) - 1, cards.Length)
    {
      WrapAgreesWithSource(currentIndex - 1, cards.Length);
      SetActive(currentIndex - 1);
    }

    /** `startAutoplay`: (re)creates the timer unless reduced motion is preferred. */
    method StartAutoplay()
      modifies this`timerRunning
      ensures timerRunning == (old(timerRunning) || !reducedMotion)
    {
      if !reducedMotion {
        timerRunning := true;
      }
    }

    /** `stopAutoplay`: removes the timer. */
    method StopAutoplay()
      modifies this`timerRunning
      ensures !timerRunning
    {
      timerRunning := false;
    }

    /** One firing of the autoplay timer: `next` unless paused. */
    method Tick()
      requires Valid() && timerRunning
      modifies this`currentIndex, cards
      ensures Valid()
      ensures currentIndex == if isPaused then old(currentIndex) else Wrap(old(currentIndex) + 1, cards.Length)
    {
      if !isPaused {
        Next();
      }
    }

    /** A key pressed in the gallery: ArrowRight is `next`, ArrowLeft is `prev`, any other key changes nothing. */
    method KeyDown(key: string)
      requires Valid()
      modifies this`currentIndex, cards
      ensures Valid()
      ensures key == "ArrowRight" ==> currentIndex == Wrap(old(currentIndex) + 1, cards.Length)
      ensures key == "ArrowLeft" ==> currentIndex == Wrap(old(currentIndex) - 1, cards.Length)
      ensures key != "ArrowRight" && key != "ArrowLeft" ==> currentIndex == old(currentIndex)
    {
      if key == "ArrowRight" {
        Next();
      }
      if key == "ArrowLeft" {
        Prev();
      }
    }

    /** Mouse enter or focus in on the gallery. */
    method Pause()
      modifies this`isPaused
      ensures isPaused
    {
      isPaused := true;
    }

    /** Mouse leave or focus out of the gallery. */
    method Resume()
      modifies this`isPaused
      ensures !isPaused
    {
      isPaused := false;
    }

    /** `handlePointerDown` at `x`: starts a drag, pauses and stops autoplay. */
    method PointerDown(x: real)
      modifies this`isDragging, this`startX, this`stackDragging, this`isPaused, this`timerRunning
      ensures isDragging && stackDragging && startX == x && isPaused && !timerRunning
    {
      isDragging := true;
      startX := x;
      stackDragging := true;
      isPaused := true;
      StopAutoplay();
    }

    /**
     * `handlePointerMove` at `x`: while dragging, a movement of more than 60
     * pixels from the last anchor is one step (to the right `prev`, to the left
     * `next`) and re-anchors at `x`; otherwise nothing changes.
     */
    method PointerMove(x: real)
      requires Valid()
      modifies this`startX, this`currentIndex, cards
      ensures Valid()
      ensures var delta := x - old(startX);
        if old(isDragging) && delta > 60.0 then
          currentIndex == Wrap(old(currentIndex) - 1, cards.Length) && startX == x
        else if old(isDragging) && delta < -60.0 then
          currentIndex == Wrap(old(currentIndex) + 1, cards.Length) && startX == x
        else
          currentIndex == old(currentIndex) && startX == old(startX)
    {
      if !isDragging {
        return;
      }
      var delta := x - startX;
      if delta > 60.0 || delta < -60.0 {
        startX := x;
        if delta > 0.0 {
          Prev();
        } else {
          Next();
        }
      }
    }

    /** `handlePointerUp` (also pointer leave): ends a drag, resumes and restarts autoplay; ignored when not dragging. */
    method PointerUp()
      modifies this`isDragging, this`stackDragging, this`isPaused, this`timerRunning
      ensures old(isDragging) ==> !isDragging && !stackDragging && !isPaused && timerRunning == (old(timerRunning) || !reducedMotion)
      ensures !old(isDragging) ==> !isDragging && stackDragging == old(stackDragging) && isPaused == old(isPaused) && timerRunning == old(timerRunning)
    {
      if !isDragging {
        return;
      }
      isDragging := false;
      stackDragging := false;
      isPaused := false;
      StartAutoplay();
    }
  }

  /** `initGallery3D`: no gallery without its stack or without cards. */
  method InitGallery(hasStack: bool, cardCount: nat, reducedMotion: bool) returns (g: Option<Gallery>)
    ensures g.None? <==> !hasStack || cardCount == 0
    ensures g.Some? ==> fresh(g.value) && fresh(g.value.cards) && g.value.Valid() && g.value.currentIndex == 0
    ensures g.Some? ==> g.value.cards.Length == cardCount && g.value.reducedMotion == reducedMotion
    ensures g.Some? ==> !g.value.isPaused && !g.value.isDragging && g.value.timerRunning == !reducedMotion
  {
    if !hasStack || cardCount == 0 {
      return None;
    }
    var gallery := new Gallery(cardCount, reducedMotion);
    g := Some(gallery);
  }
}
