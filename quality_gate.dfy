/**
  The quality gate `is_text_meaningful`: a candidate text counts as real
  content when, after every run of whitespace is deleted, more than
  `Threshold` characters remain.
 */
module QualityGate {
  import opened Outcomes

  /** The gate's threshold; the comparison against it is strict. */
  const Threshold: nat := 100

  /**
    The class matched by `\s` in a Python `str` pattern: the characters for
    which `str.isspace()` holds (ASCII tab to carriage return, the four
    information separators, space, NEL, no-break space, Ogham space mark, the
    typographic spaces U+2000 to U+200A, line and paragraph separators,
    narrow no-break space, medium mathematical space, ideographic space).
   */
  predicate IsWhitespace(c: char) {
    var n := c as int;
    (0x09 <= n <= 0x0D) || (0x1C <= n <= 0x20) || n == 0x85 || n == 0xA0 ||
    n == 0x1680 || (0x2000 <= n <= 0x200A) || n == 0x2028 || n == 0x2029 ||
    n == 0x202F || n == 0x205F || n == 0x3000
  }

  /** The class includes the ASCII set `[ \t\n\r\f\v]` and no ASCII letter or digit. */
  lemma WhitespaceClass(c: char)
    ensures c == ' ' || c == '\t' || c == '\n' || c == '\r' || c == '\U{0B}' || c == '\U{0C}' ==> IsWhitespace(c)
    ensures IsWhitespace(c) ==> !('a' <= c <= 'z' || 'A' <= c <= 'Z' || '0' <= c <= '9')
  {
  }

  /**
    `re.sub(r'\s+', '', s)`. Deleting every maximal run of whitespace is the
    same as deleting every whitespace character, scanned left to right.
   */
  function StripWhitespace(s: string): (r: string)
    ensures |r| <= |s|
    ensures forall i :: 0 <= i < |r| ==> !IsWhitespace(r[i])
  {
    if s == [] then []
    else if IsWhitespace(s[0]) then StripWhitespace(s[1..])
    else [s[0]] + StripWhitespace(s[1..])
  }

  /** Reference definition: the number of non-whitespace characters, counted from the end. */
  function CountNonWhitespace(s: string): nat {
    if s == [] then 0
    else CountNonWhitespace(s[..|s| - 1]) + (if IsWhitespace(s[|s| - 1]) then 0 else 1)
  }

  /** `is_text_meaningful(text)`: `None` and `""` are rejected up front; otherwise the stripped length must exceed the threshold. */
  function IsTextMeaningful(text: Option<string>): (ok: bool)
    ensures ok <==> text.Some? && CountNonWhitespace(text.value) > Threshold
  {
    if text.None? || text.value == [] then false
    else
      var cleaned := StripWhitespace(text.value);
      StripLength(text.value);
      |cleaned| > Threshold
  }

  /** Stripping distributes over concatenation. */
  lemma {:induction false} StripAppend(a: string, b: string)
    ensures StripWhitespace(a + b) == StripWhitespace(a) + StripWhitespace(b)
  {
    if a == [] {
      assert a + b == b;
    } else {
      assert (a + b)[0] == a[0];
      assert (a + b)[1..] == a[1..] + b;
      StripAppend(a[1..], b);
    }
  }

  /** What the regex leaves behind is exactly as long as the count of non-whitespace characters. */
  lemma {:induction false} StripLength(s: string)
    ensures |StripWhitespace(s)| == CountNonWhitespace(s)
  {
    if s != [] {
      var init := s[..|s| - 1];
      assert s == init + [s[|s| - 1]];
      StripAppend(init, [s[|s| - 1]]);
      StripLength(init);
    }
  }

  /** A text made only of whitespace strips to nothing. */
  lemma {:induction false} StripAllWhitespace(w: string)
    requires forall i :: 0 <= i < |w| ==> IsWhitespace(w[i])
    ensures StripWhitespace(w) == []
  {
    if w != [] {
      StripAllWhitespace(w[1..]);
    }
  }

  /** Stripping twice is stripping once. */
  lemma {:induction false} StripIdempotent(s: string)
    ensures StripWhitespace(StripWhitespace(s)) == StripWhitespace(s)
  {
    if s != [] {
      StripIdempotent(s[1..]);
      if !IsWhitespace(s[0]) {
        var rest := StripWhitespace(s[1..]);
        assert ([s[0]] + rest)[0] == s[0];
        assert ([s[0]] + rest)[1..] == rest;
      }
    }
  }

  /** Counts add up over concatenation. */
  lemma CountAppend(a: string, b: string)
    ensures CountNonWhitespace(a + b) == CountNonWhitespace(a) + CountNonWhitespace(b)
  {
    StripAppend(a, b);
    StripLength(a);
    StripLength(b);
    StripLength(a + b);
  }

  /** `None` and the empty string are never meaningful. */
  lemma RejectsNoneAndEmpty()
    ensures !IsTextMeaningful(None)
    ensures !IsTextMeaningful(Some(""))
  {
  }

  /**
    The threshold is strict: a text with exactly `Threshold` non-whitespace
    characters fails, and one more non-whitespace character makes it pass.
   */
  lemma ThresholdIsStrict(s: string, c: char)
    requires CountNonWhitespace(s) == Threshold
    requires !IsWhitespace(c)
    ensures !IsTextMeaningful(Some(s))
    ensures IsTextMeaningful(Some(s + [c]))
  {
  }

  /**
    The verdict depends only on the non-whitespace characters: inserting a
    block of whitespace anywhere (or, read backwards, deleting one) never
    changes it, even when the text without it is empty.
   */
  lemma WhitespaceDoesNotMatter(a: string, w: string, b: string)
    requires forall i :: 0 <= i < |w| ==> IsWhitespace(w[i])
    ensures IsTextMeaningful(Some(a + w + b)) == IsTextMeaningful(Some(a + b))
  {
    StripAllWhitespace(w);
    StripAppend(a + w, b);
    StripAppend(a, w);
    StripAppend(a, b);
    StripLength(a + w + b);
    StripLength(a + b);
  }
}
