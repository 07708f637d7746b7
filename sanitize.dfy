/**
 * `sanitizeHTML` of server.js: strip tags, decode five entities, strip tags
 * again, delete every remaining entity, trim. Each `.replace(/…/g, …)` is a
 * left-to-right scan that replaces non-overlapping matches.
 */
module Sanitize {
  import opened JsStrings
  import opened JsValue

  /** The part of `t` after its first `c`. */
  function AfterFirst(t: string, c: char): (r: string)
    requires c in t
    ensures |r| < |t| && r == t[|t| - |r|..]
  {
    if t[0] == c then t[1..] else AfterFirst(t[1..], c)
  }

  /**
   * `s.replace(/<[^>]*>/g, '')`: a `<` with a `>` somewhere after it is deleted
   * together with everything up to and including the first such `>`; a `<`
   * with no `>` after it stays.
   */
  function StripTags(s: string): (r: string)
    ensures |r| <= |s|
    decreases |s|
  {
    if |s| == 0 then []
    else if s[0] == '<' && '>' in s[1..] then StripTags(AfterFirst(s[1..], '>'))
    else [s[0]] + StripTags(s[1..])
  }

  /** `s.replace(/pat/g, rep)` for a literal, non-empty pattern. */
  function ReplaceAll(s: string, pat: string, rep: string): (r: string)
    requires |pat| > 0
    ensures |rep| <= |pat| ==> |r| <= |s|
    ensures pat[0] !in s ==> r == s
    decreases |s|
  {
    if |s| == 0 then []
    else if pat <= s then rep + ReplaceAll(s[|pat|..], pat, rep)
    else [s[0]] + ReplaceAll(s[1..], pat, rep)
  }

  /** The decoding pass: the five entities, in the order the source replaces them. */
  function DecodeEntities(s: string): (r: string)
    ensures |r| <= |s|
    ensures '&' !in s ==> r == s
  {
    var a := ReplaceAll(s, "&lt;", "<");
    var b := ReplaceAll(a, "&gt;", ">");
    var c := ReplaceAll(b, "&quot;", "\"");
    var d := ReplaceAll(c, "&#x27;", "'");
    ReplaceAll(d, "&#x2F;", "/")
  }

  /** The characters of the class `[a-zA-Z0-9#]`. */
  predicate IsEntityChar(c: char)
  {
    ('a' <= c <= 'z') || ('A' <= c <= 'Z') || ('0' <= c <= '9') || c == '#'
  }

  /** How many characters of the class `[a-zA-Z0-9#]` open `t`. */
  function EntityRun(t: string): (n: nat)
    ensures n <= |t|
  {
    if |t| > 0 && IsEntityChar(t[0]) then 1 + EntityRun(t[1..]) else 0
  }

  /**
   * The length of the match of `&[a-zA-Z0-9#]+;` that opens `s`, or 0 when
   * `s` does not open with one.
   */
  function EntityLength(s: string): (n: nat)
    ensures n == 0 || 3 <= n <= |s|
  {
    if |s| > 0 && s[0] == '&' then
      var run := EntityRun(s[1..]);
      if run >= 1 && run + 1 < |s| && s[run + 1] == ';' then run + 2 else 0
    else 0
  }

  /** `s.replace(/&[a-zA-Z0-9#]+;/g, '')` */
  function StripEntities(s: string): (r: string)
    ensures |r| <= |s|
    ensures '&' !in s ==> r == s
    decreases |s|
  {
    if |s| == 0 then []
    else if EntityLength(s) > 0 then StripEntities(s[EntityLength(s)..])
    else [s[0]] + StripEntities(s[1..])
  }

  /** Every pass of `sanitizeHTML` except the final trim. */
  function Cleaned(s: string): (r: string)
    ensures |r| <= |s|
  {
    StripEntities(StripTags(DecodeEntities(StripTags(s))))
  }

  /** `sanitizeHTML(input)` for a string input: never longer than the input, and trimmed. */
  function SanitizeHtml(s: string): (r: string)
    ensures |r| <= |s| && NoOuterSpace(r)
  {
    TrimIsInnerSlice(Cleaned(s));
    TrimHasNoOuterSpace(Cleaned(s));
    Trim(Cleaned(s))
  }

  /** `sanitizeHTML(input)`: anything that is not a string comes back unchanged. */
  function SanitizeValue(v: Value): (r: Value)
    ensures !v.Str? ==> r == v
    ensures v.Str? ==> r == Str(SanitizeHtml(v.s))
  {
    if v.Str? then Str(SanitizeHtml(v.s)) else v
  }

  /** No `<` in `s` is followed, anywhere later, by a `>`: no tag can be formed. */
  predicate NoTagSpan(s: string)
    decreases |s|
  {
    |s| == 0 || ((s[0] == '<' ==> '>' !in s[1..]) && NoTagSpan(s[1..]))
  }

  /** `NoTagSpan`, stated position by position. */
  lemma {:induction false} NoTagSpanMeans(s: string)
    requires NoTagSpan(s)
    ensures forall i, j :: 0 <= i < j < |s| && s[i] == '<' ==> s[j] != '>'
    decreases |s|
  {
    if |s| > 0 {
      NoTagSpanMeans(s[1..]);
      forall i, j | 0 <= i < j < |s| && s[i] == '<' ensures s[j] != '>' {
        assert s[j] == s[1..][j - 1];
        if i > 0 {
          assert s[i] == s[1..][i - 1];
        }
      }
    }
  }

  /** Dropping a prefix cannot create a tag. */
  lemma {:induction false} NoTagSpanSuffix(s: string, d: nat)
    requires NoTagSpan(s) && d <= |s|
    ensures NoTagSpan(s[d..])
    decreases d
  {
    if d > 0 {
      NoTagSpanSuffix(s[1..], d - 1);
      assert s[1..][d - 1..] == s[d..];
    }
  }

  /** Dropping a suffix cannot create a tag. */
  lemma {:induction false} NoTagSpanPrefix(s: string, n: nat)
    requires NoTagSpan(s) && n <= |s|
    ensures NoTagSpan(s[..n])
    decreases n
  {
    if n > 0 {
      var p := s[..n];
      NoTagSpanPrefix(s[1..], n - 1);
      assert p[1..] == s[1..][..n - 1];
      assert forall c :: c in p[1..] ==> c in s[1..];
    }
  }

  /** Putting `c` in front keeps tags out when a `<` there has no `>` after it. */
  lemma NoTagSpanCons(c: char, rest: string)
    requires NoTagSpan(rest)
    requires c == '<' ==> '>' !in rest
    ensures NoTagSpan([c] + rest)
  {
    assert ([c] + rest)[1..] == rest;
  }

  /** The tag-stripping pass only deletes characters: it brings in no `c` that was not there. */
  lemma {:induction false} StripTagsAddsNothing(s: string, c: char)
    requires c !in s
    ensures c !in StripTags(s)
    decreases |s|
  {
    if |s| == 0 {
    } else if s[0] == '<' && '>' in s[1..] {
      var t := AfterFirst(s[1..], '>');
      assert c !in t by {
        assert t == s[1..][|s| - 1 - |t|..];
      }
      StripTagsAddsNothing(t, c);
    } else {
      StripTagsAddsNothing(s[1..], c);
    }
  }

  /** The entity pass only deletes characters: it brings in no `c` that was not there. */
  lemma {:induction false} StripEntitiesAddsNothing(s: string, c: char)
    requires c !in s
    ensures c !in StripEntities(s)
    decreases |s|
  {
    if |s| == 0 {
    } else if EntityLength(s) > 0 {
      var d := EntityLength(s);
      StripEntitiesAddsNothing(s[d..], c);
    } else {
      StripEntitiesAddsNothing(s[1..], c);
    }
  }

  /** After the tag-stripping pass no `<` is followed later by a `>`. */
  lemma {:induction false} StripTagsLeavesNoTagSpan(s: string)
    ensures NoTagSpan(StripTags(s))
    decreases |s|
  {
    if |s| == 0 {
    } else if s[0] == '<' && '>' in s[1..] {
      StripTagsLeavesNoTagSpan(AfterFirst(s[1..], '>'));
    } else {
      StripTagsLeavesNoTagSpan(s[1..]);
      if s[0] == '<' {
        StripTagsAddsNothing(s[1..], '>');
      }
      NoTagSpanCons(s[0], StripTags(s[1..]));
    }
  }

  /** Deleting entities cannot create a tag. */
  lemma {:induction false} StripEntitiesKeepsNoTagSpan(s: string)
    requires NoTagSpan(s)
    ensures NoTagSpan(StripEntities(s))
    decreases |s|
  {
    if |s| == 0 {
    } else if EntityLength(s) > 0 {
      var d := EntityLength(s);
      NoTagSpanSuffix(s, d);
      StripEntitiesKeepsNoTagSpan(s[d..]);
      assert StripEntities(s) == StripEntities(s[d..]);
    } else {
      NoTagSpanSuffix(s, 1);
      StripEntitiesKeepsNoTagSpan(s[1..]);
      if s[0] == '<' {
        StripEntitiesAddsNothing(s[1..], '>');
      }
      NoTagSpanCons(s[0], StripEntities(s[1..]));
      assert StripEntities(s) == [s[0]] + StripEntities(s[1..]);
    }
  }

  /** Trimming cannot create a tag. */
  lemma TrimKeepsNoTagSpan(s: string)
    requires NoTagSpan(s)
    ensures NoTagSpan(Trim(s))
  {
    TrimIsSlice(s);
    var r, a := Trim(s), LeadingSpace(s);
    NoTagSpanSuffix(s, a);
    NoTagSpanPrefix(s[a..], |r|);
  }

  /** The sanitised text never holds a `<` followed later by a `>`. */
  lemma SanitizeLeavesNoTagSpan(s: string)
    ensures var r := SanitizeHtml(s); forall i, j :: 0 <= i < j < |r| && r[i] == '<' ==> r[j] != '>'
  {
    var x := StripTags(DecodeEntities(StripTags(s)));
    StripTagsLeavesNoTagSpan(DecodeEntities(StripTags(s)));
    StripEntitiesKeepsNoTagSpan(x);
    TrimKeepsNoTagSpan(Cleaned(s));
    NoTagSpanMeans(SanitizeHtml(s));
  }

  /** `StripTags` leaves a string without `<` as it is. */
  lemma {:induction false} StripTagsPlain(s: string)
    requires '<' !in s
    ensures StripTags(s) == s
    decreases |s|
  {
    if |s| > 0 {
      StripTagsPlain(s[1..]);
    }
  }

  /** Text with no `<` and no `&` is only trimmed. */
  lemma SanitizePlainText(s: string)
    requires '<' !in s && '&' !in s
    ensures SanitizeHtml(s) == Trim(s)
  {
    StripTagsPlain(s);
  }

  /** A pattern that matches at no position leaves the string as it is. */
  lemma {:induction false} ReplaceAllNoMatch(s: string, pat: string, rep: string)
    requires |pat| > 0
    requires forall i :: 0 <= i < |s| ==> !(pat <= s[i..])
    ensures ReplaceAll(s, pat, rep) == s
    decreases |s|
  {
    if |s| > 0 {
      assert s[0..] == s;
      forall i | 0 <= i < |s| - 1 ensures !(pat <= s[1..][i..]) {
        assert s[1..][i..] == s[i + 1..];
      }
      ReplaceAllNoMatch(s[1..], pat, rep);
    }
  }
}

/** Inputs showing that sanitising twice can differ from sanitising once. */
module SanitizeExamples {
  import opened JsStrings
  import opened Sanitize

  /** A run of entity characters that cannot start any of the five decoded entities. */
  predicate InnerName(e: string)
  {
    |e| >= 1 && (forall k :: 0 <= k < |e| ==> IsEntityChar(e[k]))
    && e[0] != 'l' && e[0] != 'g' && e[0] != 'q' && e[0] != '#'
  }

  /** `s` is `&l&` + e + `;t;`, described character by character. */
  predicate Shape(s: string, e: string)
  {
    InnerName(e) && |s| == |e| + 6
    && s[0] == '&' && s[1] == 'l' && s[2] == '&' && s[3..|e| + 3] == e
    && s[|e| + 3] == ';' && s[|e| + 4] == 't' && s[|e| + 5] == ';'
  }

  lemma ShapeOf(e: string)
    requires InnerName(e)
    ensures Shape("&l&" + e + ";t;", e)
  {
    var s := "&l&" + e + ";t;";
    assert s[3..|e| + 3] == e;
  }

  /** The decoding pass finds nothing to decode in `&l&` + e + `;t;`. */
  lemma DecodeFindsNothing(s: string, e: string, pat: string, rep: string)
    requires Shape(s, e) && |pat| >= 3 && pat[0] == '&'
    requires pat[1] != 'l' || pat[2] != '&'
    requires pat[1] != e[0]
    ensures ReplaceAll(s, pat, rep) == s
  {
    forall i | 0 <= i < |s| ensures !(pat <= s[i..]) {
      if i == 0 {
        assert s[i..][1] == 'l' && s[i..][2] == '&';
      } else if i == 2 {
        assert s[i..][1] == s[3] == e[0];
      } else if 3 <= i < |e| + 3 {
        assert s[i] == e[i - 3];
      }
    }
    ReplaceAllNoMatch(s, pat, rep);
  }

  /** A run of entity characters ends at the first character outside the class. */
  lemma {:induction false} EntityRunOfName(e: string, rest: string)
    requires forall k :: 0 <= k < |e| ==> IsEntityChar(e[k])
    requires |rest| > 0 && !IsEntityChar(rest[0])
    ensures EntityRun(e + rest) == |e|
  {
    if |e| > 0 {
      assert (e + rest)[1..] == e[1..] + rest;
      EntityRunOfName(e[1..], rest);
    }
  }

  /** A first character that opens no entity is kept. */
  lemma KeepsFirst(s: string)
    requires |s| > 0 && EntityLength(s) == 0
    ensures StripEntities(s) == [s[0]] + StripEntities(s[1..])
  {
  }

  /** An entity of length `n` at the front is deleted. */
  lemma SkipsEntity(s: string, n: nat)
    requires n > 0 && EntityLength(s) == n
    ensures StripEntities(s) == StripEntities(s[n..])
  {
  }

  /** Two characters put in front one after the other are the pair put in front. */
  lemma ConsTwo(s: string, x: string)
    requires |s| >= 2
    ensures [s[0]] + ([s[1]] + x) == s[..2] + x
  {
  }

  /** `&l&` opens no entity, and neither does its `l&`. */
  lemma OpeningLength(s: string)
    requires |s| >= 3 && s[0] == '&' && s[1] == 'l' && s[2] == '&'
    ensures EntityLength(s) == 0 && EntityLength(s[1..]) == 0
  {
    assert s[1..] == ['l'] + s[2..];
    EntityRunOfName(['l'], s[2..]);
  }

  /** Two leading characters that each open no entity are kept. */
  lemma KeepsTwo(s: string)
    requires |s| >= 2 && EntityLength(s) == 0 && EntityLength(s[1..]) == 0
    ensures StripEntities(s) == s[..2] + StripEntities(s[2..])
  {
    var t := s[1..];
    assert t[1..] == s[2..] && t[0] == s[1];
    KeepsFirst(s);
    KeepsFirst(t);
    ConsTwo(s, StripEntities(s[2..]));
  }

  /** The `&l` of `&l&` is kept. */
  lemma KeepsOpening(s: string)
    requires |s| >= 3 && s[0] == '&' && s[1] == 'l' && s[2] == '&'
    ensures StripEntities(s) == s[..2] + StripEntities(s[2..])
  {
    OpeningLength(s);
    KeepsTwo(s);
  }

  /** `&e;` at the front of `u` is an entity of length `|e| + 2`. */
  lemma EntityNameLength(u: string, e: string)
    requires |u| >= |e| + 2 && |e| >= 1 && u[0] == '&' && u[1..|e| + 1] == e && u[|e| + 1] == ';'
    requires forall k :: 0 <= k < |e| ==> IsEntityChar(e[k])
    ensures EntityLength(u) == |e| + 2
  {
    var t := u[1..];
    var rest := t[|e|..];
    assert t == e + rest;
    assert rest[0] == u[|e| + 1] == ';';
    EntityRunOfName(e, rest);
  }

  /** `&l` followed by `t;` spells `&lt;`. */
  lemma SpellsLt(a: string, w: string)
    requires |a| == 2 && a[0] == '&' && a[1] == 'l'
    requires |w| == 2 && w[0] == 't' && w[1] == ';'
    ensures a + w == "&lt;"
  {
  }

  /** The entity pass keeps `&l`, deletes `&e;` and goes on after it. */
  lemma EntityPassSkipsName(s: string, e: string)
    requires Shape(s, e)
    ensures StripEntities(s) == s[..2] + StripEntities(s[|e| + 4..])
  {
    KeepsOpening(s);
    var u := s[2..];
    assert u[0] == '&' && u[|e| + 1] == ';';
    assert u[1..|e| + 1] == e;
    EntityNameLength(u, e);
    SkipsEntity(u, |e| + 2);
    assert u[|e| + 2..] == s[|e| + 4..];
  }

  /** The closing `t;` holds no entity. */
  lemma EntityPassKeepsTail(s: string, e: string)
    requires Shape(s, e)
    ensures StripEntities(s[|e| + 4..]) == s[|e| + 4..]
  {
    var w := s[|e| + 4..];
    assert '&' !in w by {
      assert |w| == 2 && w[0] == 't' && w[1] == ';';
    }
  }

  /** The entity pass deletes the inner `&e;` and so joins `&l` and `t;` into `&lt;`. */
  lemma EntityPassJoins(s: string, e: string)
    requires Shape(s, e)
    ensures StripEntities(s) == "&lt;"
  {
    EntityPassSkipsName(s, e);
    EntityPassKeepsTail(s, e);
    SpellsLt(s[..2], s[|e| + 4..]);
  }

  lemma DecodeLeavesShape(s: string, e: string)
    requires Shape(s, e)
    ensures DecodeEntities(s) == s
  {
    DecodeFindsNothing(s, e, "&lt;", "<");
    DecodeFindsNothing(s, e, "&gt;", ">");
    DecodeFindsNothing(s, e, "&quot;", "\"");
    DecodeFindsNothing(s, e, "&#x27;", "'");
    DecodeFindsNothing(s, e, "&#x2F;", "/");
  }

  lemma NoTagInShape(s: string, e: string)
    requires Shape(s, e)
    ensures '<' !in s
  {
    forall i | 0 <= i < |s| ensures s[i] != '<' {
      if 3 <= i < |e| + 3 {
        assert s[i] == e[i - 3];
      }
    }
  }

  lemma SanitizeCreatesEntity(s: string, e: string)
    requires Shape(s, e)
    ensures SanitizeHtml(s) == "&lt;"
  {
    NoTagInShape(s, e);
    StripTagsPlain(s);
    DecodeLeavesShape(s, e);
    EntityPassJoins(s, e);
    assert Cleaned(s) == "&lt;";
    TrimOfTrimmed("&lt;");
  }

  /** Sanitising `&lt;` decodes it to `<`, which nothing later removes. */
  lemma SanitizeDecodesEntity(s: string)
    requires s == "&lt;"
    ensures SanitizeHtml(s) == "<"
  {
    StripTagsPlain(s);
    assert ReplaceAll(s, "&lt;", "<") == "<" by {
      assert s[4..] == [];
    }
    var d := DecodeEntities(s);
    assert d == "<";
    assert StripTags(d) == d;
    assert Cleaned(s) == d;
    TrimOfTrimmed(d);
  }

  /**
   * Sanitising is not idempotent: for every such inner name `e`, one pass
   * turns `&l&e;t;` into `&lt;` and a second pass turns that into `<`.
   */
  lemma SanitizeNotIdempotent(e: string)
    requires InnerName(e)
    ensures var once := SanitizeHtml("&l&" + e + ";t;"); SanitizeHtml(once) != once
  {
    ShapeOf(e);
    SanitizeCreatesEntity("&l&" + e + ";t;", e);
    SanitizeDecodesEntity("&lt;");
  }
}
