/**
 * The hero carousel (`initCarousel`) and the CTA carousels (`initCtaCarousels`)
 * of the home page. Both keep a current index over their slides, mark exactly
 * that slide active, select at most one dot, and advance on an autoplay tick
 * unless paused. The CTA carousel is the same state machine without the touch,
 * keyboard and page-visibility handlers, so one class serves both.
 */
module Carousel {
  import opened Js
  import opened Rotation

  /** A slide element: its `aria-hidden` attribute and whether it carries the `is-active` class. */
  datatype Slide = Slide(ariaHidden: Option<string>, isActive: bool)

  /** A dot button: its `aria-selected` attribute and its `tabIndex`. */
  datatype Dot = Dot(ariaSelected: Option<string>, tabIndex: int)

  /** What the carousel writes on a slide that is (or is not) the current one. */
  function SlideView(active: bool): Slide
  {
    Slide(Some(if active then "false" else "true"), active)
  }

  /** What the carousel writes on a dot that is (or is not) the current one. */
  function DotView(active: bool): Dot
  {
    Dot(Some(if active then "true" else "false"), if active then 0 else -1)
  }

  /** A slide whose markup says it is visible to assistive technology. */
  predicate IsShown(s: Slide)
  {
    s.ariaHidden == Some("false")
  }

  /** `slides.findIndex(s => s.getAttribute("aria-hidden") === "false")`: the first shown slide, or -1. */
  function FindShown(slides: seq<Slide>): (r: int)
    ensures -1 <= r < |slides|
    ensures r >= 0 ==> IsShown(slides[r])
    ensures forall j :: 0 <= j < |slides| && (r < 0 || j < r) ==> !IsShown(slides[j])
  {
    if |slides| == 0 then -1
    else if IsShown(slides[0]) then 0
    else
      var r := FindShown(slides[1..]);
      assert forall j :: 1 <= j < |slides| ==> slides[j] == slides[1..][j - 1];
      if r < 0 then -1 else r + 1
  }

  /** The index a carousel starts on: the first slide marked shown, or 0 when none is. */
  function InitialIndex(slides: seq<Slide>): (k: nat)
    ensures |slides| > 0 ==> k < |slides|
    ensures forall j :: 0 <= j < k && j < |slides| ==> !IsShown(slides[j])
    ensures k < |slides| && !IsShown(slides[k]) ==> k == 0 && forall j :: 0 <= j < |slides| ==> !IsShown(slides[j])
  {
    var r := FindShown(slides);
    if r < 0 then 0 else r
  }

  /** The slides as the carousel renders them with `k` current. */
  function Rendered(count: nat, k: int): (s: seq<Slide>)
    ensures |s| == count
    ensures forall i :: 0 <= i < count ==> s[i] == SlideView(i == k)
    ensures forall i :: 0 <= i < count ==> (IsShown(s[i]) <==> i == k)
  {
    seq(count, i => SlideView(i == k))
  }

  /** Reading the rendered slides back, as the script does on load, gives back the current index. */
  lemma RenderedRoundTrip(count: nat, k: int)
    requires 0 <= k < count
    ensures InitialIndex(Rendered(count, k)) == k
  {
    var s := Rendered(count, k);
    assert IsShown(s[k]);
  }

  class Carousel {
    const slides: array<Slide>
    const dots: array<Dot>
    /** `data-autoplay="true"` on the carousel and no reduced-motion preference. */
    const autoplayEnabled: bool
    var currentIndex: int
    var isPaused: bool
    /** Whether the autoplay interval timer exists. */
    var timerRunning: bool
    var touchStartX: real

    /**
     * The carousel's invariant: the index is in range, exactly the current
     * slide is active and not hidden, and only the dot at the current index
     * (if there is one) is selected and focusable.
     */
    ghost predicate Valid()
      reads this, slides, dots
    {
      && 0 < slides.Length
      && 0 <= currentIndex < slides.Length
      && (forall i :: 0 <= i < slides.Length ==> slides[i] == SlideView(i == currentIndex))
      && (forall i :: 0 <= i < dots.Length ==> dots[i] == DotView(i == currentIndex))
    }

    /** Sets up a carousel over non-empty markup: it starts on the first shown slide and starts autoplay if enabled. */
    constructor (slideMarkup: seq<Slide>, dotMarkup: seq<Dot>, autoplayEnabled: bool)
      requires |slideMarkup| > 0
      ensures Valid() && fresh(slides) && fresh(dots)
      ensures slides.Length == |slideMarkup| && dots.Length == |dotMarkup|
      ensures currentIndex == InitialIndex(slideMarkup)
      ensures this.autoplayEnabled == autoplayEnabled
      ensures !isPaused && timerRunning == autoplayEnabled && touchStartX == 0.0
    {
      slides := new Slide[|slideMarkup|](i requires 0 <= i < |slideMarkup| => slideMarkup[i]);
      dots := new Dot[|dotMarkup|](i requires 0 <= i < |dotMarkup| => dotMarkup[i]);
      this.autoplayEnabled := autoplayEnabled;
      currentIndex := InitialIndex(slideMarkup);
      isPaused := false;
      timerRunning := false;
      touchStartX := 0.0;
      new;
      SetActiveSlide(currentIndex);
      StartAutoplay();
    }

    /** `setActiveSlide(index)`: wraps the index and renders every slide and dot from it. */
    method SetActiveSlide(index: int)
      requires 0 < slides.Length
      modifies this`currentIndex, slides, dots
      ensures Valid()
      ensures currentIndex == Wrap(index, slides.Length)
      ensures InitialIndex(slides[..]) == currentIndex
    {
      currentIndex := Wrap(index, slides.Length);
      var i := 0;
      while i < slides.Length
        modifies slides
        invariant 0 <= i <= slides.Length
        invariant forall j :: 0 <= j < i ==> slides[j] == SlideView(j == currentIndex)
      {
        slides[i] := SlideView(i == currentIndex);
        i := i + 1;
      }
      i := 0;
      while i < dots.Length
        modifies dots
        invariant 0 <= i <= dots.Length
        invariant forall j :: 0 <= j < i ==> dots[j] == DotView(j == currentIndex)
      {
        dots[i] := DotView(i == currentIndex);
        i := i + 1;
      }
      assert slides[..] == Rendered(slides.Length, currentIndex);
      RenderedRoundTrip(slides.Length, currentIndex);
    }

    /** `next`: one slide forward, from the last back to the first. */
    method Next()
      requires Valid()
      modifies this`currentIndex, slides, dots
      ensures Valid()
      ensures currentIndex == Wrap(old(currentIndex) + 1, slides.Length)
      ensures currentIndex == WrapAsWritten(old(currentIndex) + 1, slides.Length)
    {
      WrapAgreesWithSource(currentIndex + 1, slides.Length);
      SetActiveSlide(currentIndex + 1);
    }

    /** `prev`: one slide back, from the first to the last. */
    method Prev()
      requires Valid()
      modifies this`currentIndex, slides, dots
      ensures Valid()
      ensures currentIndex == Wrap(old(currentIndex) - 1, slides.Length)
      ensures currentIndex == WrapAsWritten(old(currentIndex) - 1, slides.Length)
    {
      WrapAgreesWithSource(currentIndex - 1, slides.Length);
      SetActiveSlide(currentIndex - 1);
    }

    /** `startAutoplay`: (re)creates the interval timer when autoplay is enabled, and does nothing otherwise. */
    method StartAutoplay()
      modifies this`timerRunning
      ensures timerRunning == (old(timerRunning) || autoplayEnabled)
    {
      if autoplayEnabled {
        timerRunning := true;
      }
    }

    /** One firing of the autoplay timer: `next` unless paused. */
    method Tick()
      requires Valid() && timerRunning
      modifies this`currentIndex, slides, dots
      ensures Valid()
      ensures currentIndex == if isPaused then old(currentIndex) else Wrap(old(currentIndex) + 1, slides.Length)
    {
      if !isPaused {
        Next();
      }
    }

    /** `pauseAutoplay` (mouse enter, focus in, touch start, hidden page): sets the flag and nothing else. */
    method Pause()
      modifies this`isPaused
      ensures isPaused
    {
      isPaused := true;
    }

    /** `resumeAutoplay` (mouse leave, focus out, touch end, visible page): clears the flag and nothing else. */
    method Resume()
      modifies this`isPaused
      ensures !isPaused
    {
      isPaused := false;
    }

    /** `touchstart` at horizontal position `x`: remembers it and pauses autoplay. */
    method TouchStart(x: real)
      modifies this`touchStartX, this`isPaused
      ensures touchStartX == x && isPaused
    {
      touchStartX := x;
      Pause();
    }

    /**
     * `touchend` at horizontal position `x`: a swipe of more than 40 pixels to
     * the left is `next`, to the right `prev`; a shorter one changes nothing.
     * Autoplay resumes either way.
     */
    method TouchEnd(x: real)
      requires Valid()
      modifies this`currentIndex, this`isPaused, slides, dots
      ensures Valid() && !isPaused
      ensures x - touchStartX < -40.0 ==> currentIndex == Wrap(old(currentIndex) + 1, slides.Length)
      ensures x - touchStartX > 40.0 ==> currentIndex == Wrap(old(currentIndex) - 1, slides.Length)
      ensures -40.0 <= x - touchStartX <= 40.0 ==> currentIndex == old(currentIndex)
    {
      var diff := x - touchStartX;
      if diff > 40.0 || diff < -40.0 {
        if diff < 0.0 {
          Next();
        } else {
          Prev();
        }
      }
      Resume();
    }

    /** `keydown` on the carousel: ArrowRight is `next`, ArrowLeft is `prev`, any other key nothing. */
    method KeyDown(key: string)
      requires Valid()
      modifies this`currentIndex, slides, dots
      ensures Valid()
      ensures key == "ArrowRight" ==> currentIndex == Wrap(old(currentIndex) + 1, slides.Length)
      ensures key == "ArrowLeft" ==> currentIndex == Wrap(old(currentIndex) - 1, slides.Length)
      ensures key != "ArrowRight" && key != "ArrowLeft" ==> currentIndex == old(currentIndex)
    {
      if key == "ArrowRight" {
        Next();
      }
      if key == "ArrowLeft" {
        Prev();
      }
    }

    /** `visibilitychange`: a hidden page pauses autoplay, a visible one resumes it. */
    method VisibilityChange(hidden: bool)
      modifies this`isPaused
      ensures isPaused == hidden
    {
      if hidden {
        Pause();
      } else {
        Resume();
      }
    }
  }

  /** `initCarousel`: no carousel without its track or without slides. */
  method InitCarousel(hasTrack: bool, slideMarkup: seq<Slide>, dotMarkup: seq<Dot>,
                      autoplayAttr: Option<string>, reducedMotion: bool)
    returns (c: Option<Carousel>)
    ensures c.None? <==> !hasTrack || |slideMarkup| == 0
    ensures c.Some? ==> fresh(c.value) && fresh(c.value.slides) && fresh(c.value.dots) && c.value.Valid()
    ensures c.Some? ==> c.value.currentIndex == InitialIndex(slideMarkup)
    ensures c.Some? ==> c.value.autoplayEnabled == (autoplayAttr == Some("true") && !reducedMotion)
    ensures c.Some? ==> c.value.slides.Length == |slideMarkup| && c.value.dots.Length == |dotMarkup|
    ensures c.Some? ==> !c.value.isPaused && c.value.timerRunning == c.value.autoplayEnabled
  {
    if !hasTrack || |slideMarkup| == 0 {
      return None;
    }
    var carousel := new Carousel(slideMarkup, dotMarkup, autoplayAttr == Some("true") && !reducedMotion);
    c := Some(carousel);
  }

  /** One carousel of `initCtaCarousels`: skipped when it has no slides. */
  method InitCtaCarousel(slideMarkup: seq<Slide>, dotMarkup: seq<Dot>,
                         autoplayAttr: Option<string>, reducedMotion: bool)
    returns (c: Option<Carousel>)
    ensures c.None? <==> |slideMarkup| == 0
    ensures c.Some? ==> fresh(c.value) && fresh(c.value.slides) && fresh(c.value.dots) && c.value.Valid()
    ensures c.Some? ==> c.value.currentIndex == InitialIndex(slideMarkup)
    ensures c.Some? ==> c.value.autoplayEnabled == (autoplayAttr == Some("true") && !reducedMotion)
    ensures c.Some? ==> c.value.slides.Length == |slideMarkup| && c.value.dots.Length == |dotMarkup|
    ensures c.Some? ==> !c.value.isPaused && c.value.timerRunning == c.value.autoplayEnabled
  {
    if |slideMarkup| == 0 {
      return None;
    }
    var carousel := new Carousel(slideMarkup, dotMarkup, autoplayAttr == Some("true") && !reducedMotion);
    c := Some(carousel);
  }
}
