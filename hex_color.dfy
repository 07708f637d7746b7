/**
 * `validateHexColor`, the check applied to board colours before they reach
 * CSS: a colour is accepted only as `#rgb` or `#rrggbb` (either case, with
 * surrounding whitespace), and comes back as lower-case `#rrggbb`.
 */
module HexColor {
  import opened Wrappers
  import opened JsStrings
  import opened JsValue

  datatype ColorError = NotNonEmptyString | NotHexFormat

  /** The `error` text of a rejected colour. */
  function Message(e: ColorError): string
  {
    match e
    case NotNonEmptyString => "Color must be a non-empty string"
    case NotHexFormat => "Color must be in hex format (#rrggbb or #rgb). Example: #ff55ff"
  }

  /** The class `[0-9a-f]`. */
  predicate IsLowerHexDigit(c: char)
  {
    ('0' <= c <= '9') || ('a' <= c <= 'f')
  }

  /** A hexadecimal digit in either case. */
  predicate IsHexDigit(c: char)
  {
    ('0' <= c <= '9') || ('a' <= c <= 'f') || ('A' <= c <= 'F')
  }

  /** `/^#([0-9a-f]{6}|[0-9a-f]{3})$/.test(s)` */
  predicate MatchesHexPattern(s: string)
  {
    (|s| == 4 || |s| == 7) && s[0] == '#'
    && forall k :: 1 <= k < |s| ==> IsLowerHexDigit(s[k])
  }

  /** `#rgb` becomes `#rrggbb`; a six-digit colour stays as it is. */
  function Expand(s: string): (r: string)
    requires MatchesHexPattern(s)
  {
    if |s| == 4 then ['#', s[1], s[1], s[2], s[2], s[3], s[3]] else s
  }

  /** `validateHexColor(color)`: the normalised colour, or the reason it is refused. */
  function ValidateHexColor(color: Value): (r: Result<string, ColorError>)
    ensures r.Ok? ==> color.Str? && IsCanonical(r.value)
  {
    if !color.Str? || Trim(color.s) == [] then Err(NotNonEmptyString)
    else
      var normalized := ToLowerAscii(Trim(color.s));
      if !MatchesHexPattern(normalized) then Err(NotHexFormat)
      else
        ExpandIsCanonical(normalized);
        Ok(Expand(normalized))
  }

  /** A lower-case `#rrggbb` colour. */
  predicate IsCanonical(c: string)
  {
    |c| == 7 && c[0] == '#' && forall k :: 1 <= k < 7 ==> IsLowerHexDigit(c[k])
  }

  /**
   * A colour is accepted exactly when, trimmed, it is `#` followed by three or
   * six hexadecimal digits of either case; anything that is not a string, or is
   * blank, is refused as such, and every other refusal is a format error.
   */
  lemma AcceptsIff(color: Value)
    ensures ValidateHexColor(color).Ok? <==>
      color.Str? && var t := Trim(color.s);
        (|t| == 4 || |t| == 7) && t[0] == '#' && forall k :: 1 <= k < |t| ==> IsHexDigit(t[k])
    ensures ValidateHexColor(color) == Err(NotNonEmptyString) <==> !color.Str? || Trim(color.s) == []
  {
    if color.Str? && Trim(color.s) != [] {
      var t := Trim(color.s);
      var n := ToLowerAscii(t);
      assert forall k :: 0 <= k < |t| ==> (IsHexDigit(t[k]) <==> IsLowerHexDigit(n[k]));
      assert t[0] == '#' <==> n[0] == '#';
    }
  }

  /**
   * A non-blank string that, once trimmed, holds anything but `#` and hex
   * digits after its first character (a CSS declaration, a named colour, an
   * `rgb()` call) is refused as a format error.
   */
  lemma ForeignCharacterRefused(color: Value, k: nat)
    requires color.Str? && Trim(color.s) != []
    requires 1 <= k < |Trim(color.s)| && !IsHexDigit(Trim(color.s)[k])
    ensures ValidateHexColor(color) == Err(NotHexFormat)
  {
    AcceptsIff(color);
  }

  /** Expanding a matching colour gives a canonical one. */
  lemma ExpandIsCanonical(n: string)
    requires MatchesHexPattern(n)
    ensures IsCanonical(Expand(n))
  {
    if |n| == 4 {
      var c := Expand(n);
      assert c == ['#', n[1], n[1], n[2], n[2], n[3], n[3]];
      forall k | 1 <= k < 7 ensures IsLowerHexDigit(c[k]) {
        assert c[k] == n[(k + 1) / 2];
      }
    }
  }

  /** Three digits are doubled one by one, each lower-cased. */
  lemma ShortFormDoubled(color: Value)
    requires ValidateHexColor(color).Ok? && |Trim(color.s)| == 4
    ensures var t, c := Trim(color.s), ValidateHexColor(color).value;
      forall k :: 0 <= k < 3 ==> c[2 * k + 1] == c[2 * k + 2] == LowerChar(t[k + 1])
  {
    var t := Trim(color.s);
    var n := ToLowerAscii(t);
    assert ValidateHexColor(color).value == Expand(n);
    ExpandDoubles(n);
  }

  /** `Expand` of a three-digit colour repeats each digit in place. */
  lemma ExpandDoubles(n: string)
    requires MatchesHexPattern(n) && |n| == 4
    ensures forall k :: 0 <= k < 3 ==> Expand(n)[2 * k + 1] == Expand(n)[2 * k + 2] == n[k + 1]
  {
    var c := Expand(n);
    assert c == ['#', n[1], n[1], n[2], n[2], n[3], n[3]];
    forall k | 0 <= k < 3 ensures c[2 * k + 1] == c[2 * k + 2] == n[k + 1] {
      if k == 0 {
      } else if k == 1 {
      } else {
        assert k == 2;
      }
    }
  }

  /** Six digits are only lower-cased. */
  lemma LongFormLowered(color: Value)
    requires ValidateHexColor(color).Ok? && |Trim(color.s)| == 7
    ensures ValidateHexColor(color).value == ToLowerAscii(Trim(color.s))
  {
  }

  /** A canonical colour is accepted as it is: normalising twice changes nothing. */
  lemma CanonicalIsFixed(c: string)
    requires IsCanonical(c)
    ensures ValidateHexColor(Str(c)) == Ok(c)
  {
    assert !IsJsWhitespace(c[0]) by { assert c[0] == '#'; }
    assert TrimStart(c) == c;
    assert !IsJsWhitespace(c[6]) by { assert IsLowerHexDigit(c[6]); }
    assert TrimEnd(c) == c;
    assert Trim(c) == c;
    var n := ToLowerAscii(c);
    forall k | 0 <= k < 7 ensures n[k] == c[k] {
      if k > 0 {
        assert IsLowerHexDigit(c[k]);
      }
    }
    assert n == c;
    assert MatchesHexPattern(n);
  }

  /** Normalising is idempotent: an accepted colour, validated again, is kept. */
  lemma NormalizeIdempotent(color: Value)
    requires ValidateHexColor(color).Ok?
    ensures ValidateHexColor(Str(ValidateHexColor(color).value)) == ValidateHexColor(color)
  {
    CanonicalIsFixed(ValidateHexColor(color).value);
  }

  /** A string without surrounding space whose lower-case form `c` matches is accepted as `Expand(c)`. */
  lemma AcceptedAs(s: string, c: string)
    requires s != [] && NoOuterSpace(s) && ToLowerAscii(s) == c && MatchesHexPattern(c)
    ensures ValidateHexColor(Str(s)) == Ok(Expand(c))
  {
    TrimOfTrimmed(s);
  }

  /** `#f5f` is expanded to `#ff55ff`. */
  lemma ShortExample()
    ensures ValidateHexColor(Str("#f5f")) == Ok("#ff55ff")
  {
    var s := "#f5f";
    var n := ToLowerAscii(s);
    forall k | 0 <= k < 4 ensures n[k] == s[k] { }
    assert n == s;
    assert MatchesHexPattern(s);
    AcceptedAs(s, s);
  }

  /** `#FF55FF` is lower-cased to `#ff55ff`. */
  lemma UpperCaseExample()
    ensures ValidateHexColor(Str("#FF55FF")) == Ok("#ff55ff")
  {
    var s, c := "#FF55FF", "#ff55ff";
    var n := ToLowerAscii(s);
    forall k | 0 <= k < 7 ensures n[k] == c[k] { }
    assert n == c;
    assert MatchesHexPattern(c);
    AcceptedAs(s, c);
  }

  /** A colour without `#` is refused as a format error. */
  lemma MissingHashExample()
    ensures ValidateHexColor(Str("ff55ff")) == Err(NotHexFormat)
  {
    TrimOfTrimmed("ff55ff");
  }
}
