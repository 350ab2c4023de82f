/**
 * The few pieces of JavaScript semantics that the page scripts rely on:
 * a missing attribute, the truncating `%` operator, `String.prototype.includes`,
 * `String.prototype.trim`, and the `value || fallback` idiom on attribute strings.
 */
module Js {

  /** An attribute or dataset entry that may be missing. */
  datatype Option<+T> = None | Some(value: T) {
    function GetOr(default: T): T {
      match this
      case Some(v) => v
      case None => default
    }
  }

  /**
   * JavaScript `%` on integers with a positive divisor: the remainder truncates
   * toward zero, so it keeps the sign of the dividend. Written as repeated
   * subtraction of `n` toward zero.
   */
  function JsRem(a: int, n: int): (r: int)
    requires n > 0
    ensures -n < r < n
    ensures a >= 0 ==> r >= 0
    ensures a <= 0 ==> r <= 0
    decreases if a < 0 then -a else a
  {
    if -n < a < n then a
    else if a >= n then JsRem(a - n, n)
    else JsRem(a + n, n)
  }

  /** The remainder of a negated dividend is the negated remainder. */
  lemma {:induction false} JsRemOdd(a: int, n: int)
    requires n > 0
    ensures JsRem(-a, n) == -JsRem(a, n)
    decreases if a < 0 then -a else a
  {
    if a >= n {
      JsRemOdd(a - n, n);
    } else if a <= -n {
      JsRemOdd(a + n, n);
    }
  }

  /** `value || fallback` for an attribute string: a missing or empty value is falsy. */
  function OrElse(attr: Option<string>, fallback: string): (r: string)
    ensures attr.Some? && attr.value != "" ==> r == attr.value
    ensures attr.None? || attr.value == "" ==> r == fallback
    ensures fallback != "" ==> r != ""
  {
    if attr.Some? && attr.value != "" then attr.value else fallback
  }

  /** `needle` occurs in `hay` starting at position `i`. */
  ghost predicate OccursAt(hay: string, needle: string, i: int)
  {
    0 <= i && i + |needle| <= |hay| && hay[i..i + |needle|] == needle
  }

  /** `hay.includes(needle)`: true when `needle` is a contiguous part of `hay` (the empty string is part of every string). */
  function Includes(hay: string, needle: string): (r: bool)
    ensures r <==> exists i :: OccursAt(hay, needle, i)
    decreases |hay|
  {
    if needle <= hay then
      assert OccursAt(hay, needle, 0);
      true
    else if |hay| == 0 then
      false
    else
      var rest := Includes(hay[1..], needle);
      assert rest ==> exists i :: OccursAt(hay, needle, i) by {
        if rest {
          var j :| OccursAt(hay[1..], needle, j);
          assert hay[1..][j..j + |needle|] == hay[j + 1..j + 1 + |needle|];
          assert OccursAt(hay, needle, j + 1);
        }
      }
      assert (exists i :: OccursAt(hay, needle, i)) ==> rest by {
        if i :| OccursAt(hay, needle, i) {
          if i > 0 {
            assert hay[1..][i - 1..i - 1 + |needle|] == hay[i..i + |needle|];
            assert OccursAt(hay[1..], needle, i - 1);
          }
        }
      }
      rest
  }

  /**
   * The characters `String.prototype.trim` removes: the WhiteSpace and
   * LineTerminator code points of ECMAScript (space separators included).
   */
  const WhitespaceChars: set<char> :=
    {'\t', '\n', '\U{000B}', '\U{000C}', '\r', ' ', '\U{00A0}', '\U{1680}',
     '\U{2028}', '\U{2029}', '\U{202F}', '\U{205F}', '\U{3000}', '\U{FEFF}'}

  predicate IsWhitespace(c: char)
  {
    c in WhitespaceChars || '\U{2000}' <= c <= '\U{200A}'
  }

  /** Drops leading whitespace. */
  function TrimStart(s: string): string
  {
    if |s| > 0 && IsWhitespace(s[0]) then TrimStart(s[1..]) else s
  }

  /** Drops trailing whitespace. */
  function TrimEnd(s: string): string
  {
    if |s| > 0 && IsWhitespace(s[|s| - 1]) then TrimEnd(s[..|s| - 1]) else s
  }

  /** `s.trim()`. */
  function Trim(s: string): string
  {
    TrimEnd(TrimStart(s))
  }

  /** `TrimStart` yields the suffix of `s` after its leading whitespace, which does not start with whitespace. */
  lemma {:induction false} TrimStartSpec(s: string)
    ensures |TrimStart(s)| <= |s| && TrimStart(s) == s[|s| - |TrimStart(s)|..]
    ensures forall i :: 0 <= i < |s| - |TrimStart(s)| ==> IsWhitespace(s[i])
    ensures TrimStart(s) == [] || !IsWhitespace(TrimStart(s)[0])
  {
    if |s| > 0 && IsWhitespace(s[0]) {
      TrimStartSpec(s[1..]);
      var r := TrimStart(s);
      assert forall i :: 1 <= i < |s| - |r| ==> s[i] == s[1..][i - 1];
    }
  }

  /** `TrimEnd` yields the prefix of `s` before its trailing whitespace, which does not end with whitespace. */
  lemma {:induction false} TrimEndSpec(s: string)
    ensures |TrimEnd(s)| <= |s| && TrimEnd(s) == s[..|TrimEnd(s)|]
    ensures forall i :: |TrimEnd(s)| <= i < |s| ==> IsWhitespace(s[i])
    ensures TrimEnd(s) == [] || !IsWhitespace(TrimEnd(s)[|TrimEnd(s)| - 1])
  {
    if |s| > 0 && IsWhitespace(s[|s| - 1]) {
      TrimEndSpec(s[..|s| - 1]);
      var r := TrimEnd(s);
      assert forall i :: |r| <= i < |s| - 1 ==> s[i] == s[..|s| - 1][i];
    }
  }

  /**
   * `s.trim()` is a contiguous part of `s` that neither starts nor ends with
   * whitespace; it is empty exactly when `s` is all whitespace.
   */
  lemma TrimSpec(s: string)
    ensures Includes(s, Trim(s))
    ensures Trim(s) == [] || (!IsWhitespace(Trim(s)[0]) && !IsWhitespace(Trim(s)[|Trim(s)| - 1]))
    ensures Trim(s) == [] <==> forall i :: 0 <= i < |s| ==> IsWhitespace(s[i])
    ensures exists k :: && OccursAt(s, Trim(s), k)
                        && (forall i :: 0 <= i < k ==> IsWhitespace(s[i]))
                        && (forall i :: k + |Trim(s)| <= i < |s| ==> IsWhitespace(s[i]))
  {
    TrimRemovesOnlyEnds(s);
    var t := TrimStart(s);
    assert Trim(s) == [] || (!IsWhitespace(Trim(s)[0]) && !IsWhitespace(Trim(s)[|Trim(s)| - 1])) by {
      TrimStartSpec(s);
      TrimEndSpec(t);
    }
    assert Trim(s) == [] ==> forall i :: 0 <= i < |s| ==> IsWhitespace(s[i]) by {
      TrimStartSpec(s);
      TrimEndSpec(t);
      if Trim(s) == [] {
        assert t == [];
      }
    }
  }

  /** `s.trim()` removes the leading and the trailing whitespace of `s` and nothing else. */
  lemma TrimRemovesOnlyEnds(s: string)
    ensures var k := |s| - |TrimStart(s)|;
            && OccursAt(s, Trim(s), k)
            && (forall i :: 0 <= i < k ==> IsWhitespace(s[i]))
            && (forall i :: k + |Trim(s)| <= i < |s| ==> IsWhitespace(s[i]))
  {
    var t := TrimStart(s);
    var r := TrimEnd(t);
    TrimStartSpec(s);
    TrimEndSpec(t);
    var k := |s| - |t|;
    assert s[k..k + |r|] == r by {
      assert s[k..][..|r|] == s[k..k + |r|];
    }
    assert forall i :: k + |r| <= i < |s| ==> s[i] == t[i - k];
  }

  /** Trimming an already trimmed string changes nothing. */
  lemma TrimIdempotent(s: string)
    ensures Trim(Trim(s)) == Trim(s)
  {
    var r := Trim(s);
    TrimSpec(s);
    assert TrimStart(r) == r;
    assert TrimEnd(r) == r;
  }
}
