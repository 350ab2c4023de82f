/**
 * `splitText` of the home page script: an element marked `data-split="chars"`
 * has its trimmed text replaced by one `<span class="char">` per character,
 * each numbered by its position, with spaces shown as no-break spaces. The
 * element remembers that it was split and is never split twice.
 */
module SplitText {
  import opened Js

  /** U+00A0, the no-break space a space is shown as. */
  const Nbsp: char := '\U{00A0}'

  /** One `<span>` child: its class, `aria-hidden`, `data-index` and text. */
  datatype CharSpan = CharSpan(className: string, ariaHidden: string, index: nat, text: string)

  /** An element's children as far as this script cares: plain text, or the character spans it created. */
  datatype Content = Text(s: string) | Chars(spans: seq<CharSpan>)

  /** The span for character `c` at position `i`. */
  function MakeSpan(i: nat, c: char): CharSpan
  {
    CharSpan("char", "true", i, if c == ' ' then [Nbsp] else [c])
  }

  /** The spans `splitText` builds for `text`: one per character, in order. */
  function CharSpans(text: string): (spans: seq<CharSpan>)
    ensures |spans| == |text|
    ensures forall i :: 0 <= i < |text| ==> spans[i] == MakeSpan(i, text[i])
  {
    seq(|text|, i requires 0 <= i < |text| => MakeSpan(i, text[i]))
  }

  /** The text content of a run of spans: their texts, concatenated. */
  function SpansText(spans: seq<CharSpan>): string
  {
    if spans == [] then "" else SpansText(spans[..|spans| - 1]) + spans[|spans| - 1].text
  }

  /** The element's `textContent`. */
  function TextContent(c: Content): string
  {
    match c
    case Text(s) => s
    case Chars(spans) => SpansText(spans)
  }

  /**
   * After the split, the element reads as the original text with every space
   * turned into a no-break space, character for character.
   */
  lemma {:induction false} SplitShowsText(text: string)
    ensures |SpansText(CharSpans(text))| == |text|
    ensures forall i :: 0 <= i < |text| ==>
      SpansText(CharSpans(text))[i] == if text[i] == ' ' then Nbsp else text[i]
  {
    if text != [] {
      var init := text[..|text| - 1];
      SplitShowsText(init);
      assert CharSpans(text)[..|text| - 1] == CharSpans(init);
    }
  }

  /** Reads the characters back from the spans, turning no-break spaces into spaces. */
  function Unsplit(spans: seq<CharSpan>): string
  {
    seq(|spans|, i requires 0 <= i < |spans| =>
      if spans[i].text == [Nbsp] then ' ' else if |spans[i].text| > 0 then spans[i].text[0] else ' ')
  }

  /** A text with no no-break space of its own can be read back from its spans unchanged. */
  lemma SplitIsReversible(text: string)
    requires Nbsp !in text
    ensures Unsplit(CharSpans(text)) == text
  {
    var spans := CharSpans(text);
    forall i | 0 <= i < |text|
      ensures Unsplit(spans)[i] == text[i]
    {
      assert spans[i] == MakeSpan(i, text[i]);
      assert text[i] != Nbsp;
    }
  }

  /** Builds the spans of the fragment one character at a time. */
  method BuildSpans(text: string) returns (spans: seq<CharSpan>)
    ensures spans == CharSpans(text)
  {
    spans := [];
    var i := 0;
    while i < |text|
      invariant 0 <= i <= |text|
      invariant |spans| == i
      invariant forall j :: 0 <= j < i ==> spans[j] == MakeSpan(j, text[j])
    {
      var span := CharSpan("char", "true", i, if text[i] == ' ' then [Nbsp] else [text[i]]);
      spans := spans + [span];
      i := i + 1;
    }
  }

  /** An element that carries `data-split="chars"`. */
  class SplitElement {
    /** `data-split-ready`. */
    var splitReady: Option<string>
    var ariaLabel: Option<string>
    var role: Option<string>
    var content: Content

    constructor (splitReady: Option<string>, ariaLabel: Option<string>, role: Option<string>, content: Content)
      ensures this.splitReady == splitReady && this.ariaLabel == ariaLabel
      ensures this.role == role && this.content == content
    {
      this.splitReady := splitReady;
      this.ariaLabel := ariaLabel;
      this.role := role;
      this.content := content;
    }

    /** Whether `splitText` leaves this element alone: it was split already, or it has no visible text. */
    predicate Skipped()
      reads this
    {
      splitReady == Some("true") || Trim(TextContent(content)) == ""
    }

    /**
     * `splitText`: a skipped element is left unchanged; otherwise it is marked
     * split, labelled with its trimmed text for assistive technology, and its
     * content becomes one span per character of that text. Either way the
     * element is skipped afterwards, so a second call changes nothing.
     */
    method Split()
      modifies this
      ensures old(Skipped()) ==> unchanged(this)
      ensures !old(Skipped()) ==>
        var text := Trim(TextContent(old(content)));
        && splitReady == Some("true")
        && ariaLabel == Some(text)
        && role == Some("text")
        && content == Chars(CharSpans(text))
      ensures Skipped()
    {
      if splitReady == Some("true") {
        return;
      }
      var text := Trim(TextContent(content));
      if text == "" {
        return;
      }
      splitReady := Some("true");
      ariaLabel := Some(text);
      role := Some("text");
      content := Text("");
      var spans := BuildSpans(text);
      content := Chars(spans);
    }
  }
}
