# neon-ui-assets page scripts: state logic in Dafny

The site's browser scripts progressively enhance a portfolio site. This project
models the parts of them that keep state, with the DOM left out. Each
collection of elements becomes an array of records. The classes and attributes
the scripts read or write become booleans, strings and integers.

- **Slide rotation** (`assets/jv/main.js`). There are three slide sets: the hero
  carousel, the CTA carousels and the 3D gallery. Each keeps a current index
  that wraps around the slide count (module `Rotation`).
  - The hero and CTA carousels mark exactly one slide active and select at most
    one dot. They advance on an autoplay tick unless paused. The hero carousel
    also steps on a touch swipe longer than 40 pixels (class `Carousel.Carousel`).
    The CTA carousel runs the same state machine (`main.js:314-357`) without the
    touch, keyboard and visibility handlers. One class models both, and
    `InitCtaCarousel` builds the CTA instance.
  - The 3D gallery works out each card's signed shortest-path offset from the
    front card. From that offset it sets the card's stacking order and its
    front/selected marks. A drag longer than 60 pixels is one step (class
    `Gallery3D.Gallery`).
- **Text splitting** (`splitText`, module `SplitText`). An element's trimmed
  text becomes one numbered span per character, with spaces shown as no-break
  spaces. An element is split at most once.
- **Mobile menu** (`initMobileMenu`, module `MobileMenu`). It has two states. The
  toggle flips it. Escape and menu links close it.
- **Accordion** (`assets/jv/services.js`, module `Accordion`). A click closes
  every item, then reopens the clicked item only if it was closed. Item 0 opens
  on load.
- **Category filters** (`assets/jv/projects.js` and `assets/jv/blog.js`, module
  `CategoryFilter`). The two scripts are the same code over different items.
  Buttons whose filter equals the chosen one are marked active. Items are
  hidden unless the filter is "all" or the item's category contains the filter.
- **Project thumbnails** (`assets/jv/project-single.js`, module
  `ProjectGallery`). A click moves the single active mark to the clicked
  thumbnail. The main image changes only when that thumbnail names an image.

The module `Js` states the JavaScript semantics these scripts depend on:
- the truncating `%`;
- `String.prototype.includes`;
- `String.prototype.trim`, over the ECMAScript whitespace and line-terminator
  code points;
- `value || fallback` on attribute strings.

Strings are sequences of Unicode scalar values. This matches `[...text]` in
`splitText`, which iterates by code point.

Three expectations one might bring to these widgets do not hold of the code, and
the model follows the code:
- "Exactly one filter button is active" does not hold. A click marks
  every button whose `data-filter` equals the applied filter. That can be none,
  for example after a click on a button with an empty filter, which applies
  "all". It can also be several.
- "An accordion panel has max-height 0px exactly when it is closed" does not
  hold. An open item whose panel has `scrollHeight` 0 also gets a `max-height`
  of 0px.
- "At most one accordion item is open" holds only among items that have both
  a button and a panel, and only after the first click. Items the markup
  delivers already open stay open at load.

## Model

| member | source | states |
|---|---|---|
| `Js.JsRem` | assets/jv/main.js:189 | JavaScript's `%` with a positive divisor: the result lies strictly between -n and n and has the sign of the dividend |
| `Js.JsRemOdd` | assets/jv/main.js:189 | negating the dividend negates the remainder (truncation toward zero) |
| `Js.OrElse` | assets/jv/projects.js:22 | `value \|\| fallback`: a missing or empty attribute yields the fallback, any other value itself; with a non-empty fallback the result is never empty |
| `Js.Includes` | assets/jv/projects.js:15 | `hay.includes(needle)` holds exactly when the needle occurs at some position of the hay |
| `Js.TrimSpec` | assets/jv/main.js:38 | `trim()` yields a contiguous part of the text that neither starts nor ends with whitespace, is empty exactly when the text is all whitespace, and everything it drops before and after that part is whitespace |
| `Js.TrimRemovesOnlyEnds` | assets/jv/main.js:38 | the trimmed text starts right after the leading whitespace, and only whitespace follows it |
| `Js.TrimIdempotent` | assets/jv/main.js:38 | trimming twice is trimming once |
| `Rotation.WrapAsWritten` | assets/jv/main.js:189 | `(index + count) % count` as written is in range for every index >= -count, and is <= 0 below that |
| `Rotation.WrapAsWrittenLeavesRange` | assets/jv/main.js:189 | with 5 slides, index -6 is stored as -1, outside the slide range |
| `Rotation.Wrap` | assets/jv/main.js:189 | the corrected wrap: always in [0, count), and the identity on in-range indices |
| `Rotation.JsRemCongruent` | assets/jv/main.js:189 | JavaScript's `%` lands on the same slide as its dividend: its result is congruent to it modulo the count |
| `Rotation.WrapPeriodic` | assets/jv/main.js:315 | indices `count` apart land on the same slide |
| `Rotation.JsRemOfNonNegative` | assets/jv/main.js:440 | on a non-negative dividend the source's remainder equals the corrected wrap |
| `Rotation.WrapAgreesWithSource` | assets/jv/main.js:231-232 | for every index >= -count, the corrected wrap equals the source's expression, so next/prev behave exactly as written |
| `Rotation.WrapStep` | assets/jv/main.js:444-445 | stepping from a wrapped index equals stepping first and wrapping afterwards |
| `Rotation.NextPrevInverse` | assets/jv/main.js:340-341 | prev after next, and next after prev, restore the index |
| `Rotation.AfterNexts` | assets/jv/main.js:237-239 | any number of next calls keeps the index in range |
| `Rotation.AfterNextsIsWrap` | assets/jv/main.js:231 | m next calls advance the index by m modulo the count |
| `Rotation.NextCycle` | assets/jv/main.js:444 | count next calls return to the starting index |
| `Rotation.PrevFromFirst` | assets/jv/main.js:232 | prev from index 0 goes to the last slide (5 slides: 0 to 4), in the source's arithmetic as well |
| `Carousel.FindShown` | assets/jv/main.js:180 | `findIndex`: the first slide whose aria-hidden is "false", or -1 when there is none |
| `Carousel.InitialIndex` | assets/jv/main.js:180-181 | the starting index is that first shown slide, or 0 when no slide is shown |
| `Carousel.Rendered` | assets/jv/main.js:191-194 | the rendered slides: exactly slide k is active and not hidden, so exactly slide k reads as shown |
| `Carousel.RenderedRoundTrip` | assets/jv/main.js:306-307 | reading rendered slides back as on load yields the current index |
| `Carousel.Carousel.constructor` | assets/jv/main.js:290-291 | the carousel starts on the initial index, renders it, and has autoplay running exactly when it is enabled |
| `Carousel.Carousel.SetActiveSlide` | assets/jv/main.js:188-229 | index wrapped into range; every slide is active and not hidden exactly when it is current; the dot at the current index, if any, is the only one selected and focusable; reading the slides back as on load gives the current index |
| `Carousel.Carousel.Next` | assets/jv/main.js:231 | the index moves one forward with wraparound, equal to the source's expression, and the invariant holds |
| `Carousel.Carousel.Prev` | assets/jv/main.js:232 | the index moves one back with wraparound, equal to the source's expression, and the invariant holds |
| `Carousel.Carousel.StartAutoplay` | assets/jv/main.js:234-240 | the timer exists afterwards if autoplay is enabled; otherwise nothing changes |
| `Carousel.Carousel.Tick` | assets/jv/main.js:237-239 | a timer firing advances by one only when not paused, and leaves the pause flag alone |
| `Carousel.Carousel.Pause` | assets/jv/main.js:242-244 | sets the pause flag and changes nothing else |
| `Carousel.Carousel.Resume` | assets/jv/main.js:246-248 | clears the pause flag and changes nothing else |
| `Carousel.Carousel.TouchStart` | assets/jv/main.js:261-264 | records the start position and pauses |
| `Carousel.Carousel.TouchEnd` | assets/jv/main.js:266-272 | a swipe beyond 40 pixels left is next and right is prev; anything shorter leaves the index; the pause flag is cleared in every case |
| `Carousel.Carousel.KeyDown` | assets/jv/main.js:280-283 | ArrowRight is next, ArrowLeft is prev, other keys change nothing |
| `Carousel.Carousel.VisibilityChange` | assets/jv/main.js:285-288 | the pause flag follows the page's hidden state |
| `Carousel.InitCarousel` | assets/jv/main.js:168-183 | no carousel without track or slides; otherwise a valid carousel over all slides and dots on the initial index, unpaused, with autoplay enabled iff data-autoplay is "true" and motion is not reduced, and its timer running iff autoplay is enabled |
| `Carousel.InitCtaCarousel` | assets/jv/main.js:298-312 | a CTA carousel is skipped without slides; otherwise it starts valid over all slides and dots on the initial index, unpaused, with its timer running iff data-autoplay is "true" and motion is not reduced |
| `Gallery3D.RelativeIndex` | assets/jv/main.js:399-404 | the offset differs from `index - current` by 0 or ±count, lies in [-count/2, count/2], and is 0 exactly for the current card |
| `Gallery3D.RelativeIndexIsShortest` | assets/jv/main.js:398-404 | no other offset that reaches the same card is shorter |
| `Gallery3D.CardAt` | assets/jv/main.js:424-428 | exactly the current card is front, selected and focusable; it has zIndex = count, and every other card has a zIndex between 0 and count (exclusive) |
| `Gallery3D.StackingFollowsDistance` | assets/jv/main.js:424 | a card nearer the front (the short way round) has a higher zIndex |
| `Gallery3D.Gallery.constructor` | assets/jv/main.js:571-573 | the gallery starts with card 0 in front, all cards rendered, and autoplay running unless motion is reduced |
| `Gallery3D.Gallery.UpdatePositions` | assets/jv/main.js:407-437 | every card shows the integer state derived from its offset |
| `Gallery3D.Gallery.SetActive` | assets/jv/main.js:439-442 | index wrapped into range and all cards re-rendered |
| `Gallery3D.Gallery.Next` | assets/jv/main.js:444 | one card forward with wraparound, equal to the source's expression |
| `Gallery3D.Gallery.Prev` | assets/jv/main.js:445 | one card back with wraparound, equal to the source's expression |
| `Gallery3D.Gallery.StartAutoplay` | assets/jv/main.js:447-453 | the timer exists afterwards unless motion is reduced |
| `Gallery3D.Gallery.StopAutoplay` | assets/jv/main.js:455-458 | no timer afterwards |
| `Gallery3D.Gallery.Tick` | assets/jv/main.js:450-452 | a timer firing advances by one only when not paused |
| `Gallery3D.Gallery.KeyDown` | assets/jv/main.js:509-518 | ArrowRight is next, ArrowLeft is prev, other keys change nothing |
| `Gallery3D.Gallery.Pause` | assets/jv/main.js:539-541 | mouse enter or focus in sets the pause flag |
| `Gallery3D.Gallery.Resume` | assets/jv/main.js:542-544 | mouse leave or focus out clears the pause flag |
| `Gallery3D.Gallery.PointerDown` | assets/jv/main.js:478-484 | starts a drag at x, marks the stack dragging, pauses and stops autoplay |
| `Gallery3D.Gallery.PointerMove` | assets/jv/main.js:486-493 | while dragging, a move beyond 60 pixels right is prev and left is next, and re-anchors at x; otherwise nothing changes |
| `Gallery3D.Gallery.PointerUp` | assets/jv/main.js:495-501 | ends a drag, unpauses and restarts autoplay; ignored when not dragging |
| `Gallery3D.InitGallery` | assets/jv/main.js:379-385 | no gallery without stack or cards; otherwise a valid gallery over all cards with card 0 in front, not paused, not dragging, and its timer running unless motion is reduced |
| `SplitText.CharSpans` | assets/jv/main.js:47-54 | one span per character in order, with data-index = position, class "char", aria-hidden "true", and a space shown as U+00A0 |
| `SplitText.SplitShowsText` | assets/jv/main.js:52 | the split element reads as the text with each space turned into a no-break space, character for character |
| `SplitText.SplitIsReversible` | assets/jv/main.js:42-54 | a text without its own no-break spaces can be read back from its spans |
| `SplitText.BuildSpans` | assets/jv/main.js:46-54 | the loop builds exactly the character spans of the text |
| `SplitText.SplitElement.Split` | assets/jv/main.js:36-56 | no-op when already split or the trimmed text is empty; otherwise marks split-ready, sets aria-label to the trimmed text and role "text", and replaces the content with its spans; afterwards a second call is a no-op |
| `MobileMenu.Menu.SetOpen` | assets/jv/main.js:16-20 | aria-expanded, the menu's hidden flag and the body class all agree with `open` |
| `MobileMenu.Menu.ToggleClick` | assets/jv/main.js:22-25 | a toggle click flips the open state read from aria-expanded |
| `MobileMenu.Menu.KeyDown` | assets/jv/main.js:27-29 | Escape always leaves the menu closed; other keys change nothing |
| `MobileMenu.Menu.LinkClick` | assets/jv/main.js:31-33 | a link click always leaves the menu closed |
| `MobileMenu.InitMobileMenu` | assets/jv/main.js:11-14 | nothing is set up without both the toggle and the menu; otherwise aria-expanded, hidden and the body class stay as the markup delivers them |
| `Accordion.Closed` | assets/jv/services.js:7-14 | closing an item with button and panel removes is-open, sets aria-expanded "false" and max-height 0px; other items are untouched |
| `Accordion.Opened` | assets/jv/services.js:16-23 | opening an item with button and panel adds is-open, sets aria-expanded "true" and max-height to its scrollHeight; other items are untouched |
| `Accordion.AfterClick` | assets/jv/services.js:31-33 | a click keeps the number of items |
| `Accordion.ClickKeepsOneOpen` | assets/jv/services.js:30-34 | after any click at most one item with button and panel is open, all of them are consistent, and items without button or panel are untouched |
| `Accordion.ClickOpenClosesAll` | assets/jv/services.js:31-32 | clicking the open item leaves none open |
| `Accordion.ClickClosedOpensIt` | assets/jv/services.js:33 | clicking a closed item leaves exactly that item open, at its natural height |
| `Accordion.ClickTwiceClosesAll` | assets/jv/services.js:30-34 | two clicks on the same closed header leave nothing open |
| `Accordion.AfterLoad` | assets/jv/services.js:36 | on load only item 0 is opened, and only when it has button and panel |
| `Accordion.Accordion.constructor` | assets/jv/services.js:25-37 | the items after load are `AfterLoad` of the markup |
| `Accordion.Accordion.CloseItem` | assets/jv/services.js:10-13 | `closeItem` updates one item in place as `Closed` |
| `Accordion.Accordion.OpenItem` | assets/jv/services.js:19-22 | `openItem` updates one item in place as `Opened` |
| `Accordion.Accordion.Click` | assets/jv/services.js:30-34 | the header click loop leaves the items as `AfterClick` |
| `Accordion.InitAccordion` | assets/jv/services.js:4-5 | nothing happens without items |
| `CategoryFilter.ClickFilter` | assets/jv/projects.js:22 | a click never applies an empty filter: an empty data-filter becomes "all" |
| `CategoryFilter.ButtonsAfter` | assets/jv/projects.js:9-11 | exactly the buttons whose filter equals the applied one are active (none, one or several) |
| `CategoryFilter.ItemsAfter` | assets/jv/projects.js:13-17 | an item is hidden iff the filter is not "all" and its category (missing means "") does not contain the filter |
| `CategoryFilter.AllShowsEverything` | assets/jv/blog.js:15 | filter "all" hides nothing |
| `CategoryFilter.SetActiveForgetsPriorState` | assets/jv/blog.js:13-17 | the items' outcome depends only on the filter and the categories, so applying a filter is idempotent |
| `CategoryFilter.ButtonsForgetPriorState` | assets/jv/blog.js:9-11 | the buttons' outcome depends only on the filter and their data-filter, so it is idempotent |
| `CategoryFilter.ClickedButtonActive` | assets/jv/blog.js:22 | a clicked button ends active exactly when its own filter is not empty |
| `CategoryFilter.WebExample` | assets/jv/projects.js:15 | "web" shows "web design" and "web branding" and hides "branding" |
| `CategoryFilter.MissingCategoryHidden` | assets/jv/blog.js:14 | an item without category is hidden under every filter other than "all" that a click can apply |
| `CategoryFilter.FilterBar.SetActive` | assets/jv/projects.js:8-18 | buttons and items become `ButtonsAfter` and `ItemsAfter` of the applied filter |
| `CategoryFilter.FilterBar.Click` | assets/jv/blog.js:20-24 | a click applies the button's filter, or "all" when it is empty |
| `CategoryFilter.InitFilters` | assets/jv/blog.js:4-6 | nothing happens without buttons or without items |
| `ProjectGallery.ThumbsAfter` | assets/jv/project-single.js:12-13 | exactly the clicked thumbnail is active; images and alts are unchanged |
| `ProjectGallery.MainAfter` | assets/jv/project-single.js:15-20 | without a non-empty data-image the main image is unchanged; otherwise src becomes data-image and alt becomes data-alt or "" |
| `ProjectGallery.ClickIdempotent` | assets/jv/project-single.js:11-20 | repeating the same click changes nothing more |
| `ProjectGallery.Gallery.SetActive` | assets/jv/project-single.js:11-20 | the thumbnails become `ThumbsAfter` and the main image `MainAfter` |
| `ProjectGallery.InitGallery` | assets/jv/project-single.js:4-9 | nothing happens without the gallery, the main image or thumbnails |

## Findings

| source | as written | input that shows it | evidently intended | confidence | as-written member | corrected member |
|---|---|---|---|---|---|---|
| assets/jv/main.js:189 (also 315, 440) | `(index + slides.length) % slides.length` with JavaScript's truncating `%` | 5 slides and a dot whose `data-carousel-dot` is `-6`: the index becomes -1, no slide is active and no dot is selected | the index wraps into [0, count) for every integer | medium, not executed (normal markup numbers dots from 0) | `Rotation.WrapAsWritten`, `Rotation.WrapAsWrittenLeavesRange` | `Rotation.Wrap`, used by both classes; `Rotation.WrapAgreesWithSource` shows it equals the source for every index >= -count, so next, prev and in-range dots are unchanged |

## Left out

- Web Animations calls (`animate`), keyframes, easing, durations and the `instant` option are presentational timing only.
- The reveal children of hero slides are left out. `setActiveSlide` resets them and re-shows them later through `setTimeout` (`main.js:196-220`). This is deferred timing, not slide state.
- `initReveal`, `animateSplit`, parallax, marquee, the gallery's idle float and pointer tilt are left out. So are the gallery's opacity, transform and scale strings. They are IntersectionObserver, `requestAnimationFrame` and floating-point presentation.
- Timer periods (6500 ms, 5200 ms) and `setInterval` scheduling are not modelled. Autoplay is a `Tick` event that can only occur while the timer exists.
- The gallery's IntersectionObserver (`main.js:552-570`) stops and restarts autoplay and re-renders. It is not modelled: it is browser visibility scheduling.
- Dot clicks are not separate members. `Number(dot.dataset.carouselDot || 0)` becomes the integer passed to `SetActiveSlide` / `SetActive`. Non-numeric or fractional attributes (NaN) are not modelled.
- `Carousel.Carousel.SetActiveSlide` and `Gallery3D.Gallery.SetActive` use the corrected wrap. For an index below -count they therefore differ from the source. See Findings.
- `card.dataset.index = String(index)` (`main.js:504`) is left out. It only records the index for styling.
- Touch and pointer coordinates are real numbers. Only `changedTouches[0]` / `touches[0]` matter, and multi-touch is not modelled.
- The prefers-reduced-motion media query is a boolean input.
- Which elements exist comes in as booleans and sequences. DOM querying and listener wiring are not modelled.
- `about.js` (animated counter) and `contact.js` (clipboard write and the `is-filled` toggle) are not part of this model. They are timing, floating point and a foreign asynchronous call.
- Accordion `max-height` is a number of pixels rather than the `"<n>px"` string. An inline max-height already present in the markup is not read by the script and is not modelled.
- The main image's `src` is the assigned string. The browser's resolution of it to an absolute URL is not modelled.
- `SplitText.SplitElement.Split` replaces the element's earlier children. They appear in the model only through its text content.
