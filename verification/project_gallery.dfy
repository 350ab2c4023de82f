/**
 * The image gallery of a single project page (`project-single.js`): clicking a
 * thumbnail moves the single `is-active` mark to it and, when the thumbnail
 * names an image, shows that image (and its alternative text) as the main one.
 */
module ProjectGallery {
  import opened Js

  /** A `[data-gallery-thumb]` button: its `is-active` class, `data-image` and `data-alt`. */
  datatype Thumb = Thumb(isActive: bool, image: Option<string>, alt: Option<string>)

  /** The main image: its `src` and `alt`. */
  datatype MainImage = MainImage(src: string, alt: string)

  /** Whether a click on `t` swaps the main image: `data-image` must be present and not empty. */
  predicate SuppliesImage(t: Thumb)
  {
    t.image.Some? && t.image.value != ""
  }

  /** The thumbnails after a click on thumbnail `k`. */
  function ThumbsAfter(thumbs: seq<Thumb>, k: nat): (r: seq<Thumb>)
    requires k < |thumbs|
    ensures |r| == |thumbs|
    ensures forall i :: 0 <= i < |thumbs| ==> (r[i].isActive <==> i == k)
    ensures forall i :: 0 <= i < |thumbs| ==> r[i].image == thumbs[i].image && r[i].alt == thumbs[i].alt
  {
    seq(|thumbs|, i requires 0 <= i < |thumbs| => thumbs[i].(isActive := i == k))
  }

  /** The main image after a click on `t`. */
  function MainAfter(main: MainImage, t: Thumb): (r: MainImage)
    ensures !SuppliesImage(t) ==> r == main
    ensures SuppliesImage(t) ==> r.src == t.image.value && r.alt == t.alt.GetOr("")
  {
    var nextSrc := OrElse(t.image, "");
    var nextAlt := OrElse(t.alt, "");
    if nextSrc == "" then main else MainImage(nextSrc, nextAlt)
  }

  /** Clicking the same thumbnail again changes nothing more. */
  lemma ClickIdempotent(thumbs: seq<Thumb>, main: MainImage, k: nat)
    requires k < |thumbs|
    ensures ThumbsAfter(ThumbsAfter(thumbs, k), k) == ThumbsAfter(thumbs, k)
    ensures MainAfter(MainAfter(main, thumbs[k]), ThumbsAfter(thumbs, k)[k]) == MainAfter(main, thumbs[k])
  {
    var once := ThumbsAfter(thumbs, k);
    var twice := ThumbsAfter(once, k);
    assert forall i :: 0 <= i < |thumbs| ==> twice[i] == once[i];
  }

  class Gallery {
    const thumbs: array<Thumb>
    var main: MainImage

    constructor (thumbMarkup: seq<Thumb>, main: MainImage)
      requires |thumbMarkup| > 0
      ensures fresh(thumbs) && thumbs[..] == thumbMarkup && this.main == main
    {
      thumbs := new Thumb[|thumbMarkup|](i requires 0 <= i < |thumbMarkup| => thumbMarkup[i]);
      this.main := main;
    }

    /** `setActive(button)` for the thumbnail at `k`. */
    method SetActive(k: nat)
      requires k < thumbs.Length
      modifies this`main, thumbs
      ensures thumbs[..] == ThumbsAfter(old(thumbs[..]), k)
      ensures main == MainAfter(old(main), old(thumbs[k]))
    {
      var i := 0;
      while i < thumbs.Length
        invariant 0 <= i <= thumbs.Length
        invariant forall j :: 0 <= j < i ==> thumbs[j] == old(thumbs[j]).(isActive := false)
        invariant forall j :: i <= j < thumbs.Length ==> thumbs[j] == old(thumbs[j])
        invariant main == old(main)
      {
        thumbs[i] := thumbs[i].(isActive := false);
        i := i + 1;
      }
      thumbs[k] := thumbs[k].(isActive := true);
      var nextSrc := thumbs[k].image;
      var nextAlt := OrElse(thumbs[k].alt, "");
      if nextSrc.None? || nextSrc.value == "" {
        return;
      }
      main := MainImage(nextSrc.value, nextAlt);
    }
  }

  /** `project-single.js` on load: nothing happens without the main image or without thumbnails. */
  method InitGallery(hasGallery: bool, hasMainImage: bool, thumbMarkup: seq<Thumb>, main: MainImage)
    returns (g: Option<Gallery>)
    ensures g.None? <==> !hasGallery || !hasMainImage || |thumbMarkup| == 0
    ensures g.Some? ==> fresh(g.value) && g.value.thumbs[..] == thumbMarkup && g.value.main == main
  {
    if !hasGallery || !hasMainImage || |thumbMarkup| == 0 {
      return None;
    }
    var gallery := new Gallery(thumbMarkup, main);
    g := Some(gallery);
  }
}
