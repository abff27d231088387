/** Python's notion of whitespace, and `str.strip`. */
module Text {

  /** `str.isspace` on one character. */
  predicate IsSpace(c: char)
  {
    || '\U{0009}' <= c <= '\U{000D}'
    || '\U{001C}' <= c <= '\U{0020}'
    || c in {'\U{0085}', '\U{00A0}', '\U{1680}', '\U{2028}', '\U{2029}', '\U{202F}', '\U{205F}', '\U{3000}'}
    || '\U{2000}' <= c <= '\U{200A}'
  }

  predicate Blank(s: string)
  {
    forall c :: c in s ==> IsSpace(c)
  }

  predicate StartsWith(s: string, prefix: string)
  {
    |prefix| <= |s| && s[..|prefix|] == prefix
  }

  /** `str.lstrip` of the characters in `chars`, given as a predicate. */
  function LeftStrip(s: string, chars: char -> bool): string
  {
    if s != "" && chars(s[0]) then LeftStrip(s[1..], chars) else s
  }

  function RightStrip(s: string, chars: char -> bool): string
  {
    if s != "" && chars(s[|s| - 1]) then RightStrip(s[..|s| - 1], chars) else s
  }

  function StripChars(s: string, chars: char -> bool): string
  {
    RightStrip(LeftStrip(s, chars), chars)
  }

  /** `str.strip()`. */
  function Strip(s: string): string
  {
    StripChars(s, IsSpace)
  }

  /** Stripping stops at the first and last characters that stay. */
  lemma {:induction false} LeftStripOver(s: string, core: string, chars: char -> bool)
    requires core != "" && !chars(core[0])
    ensures LeftStrip(s + core, chars) == LeftStrip(s, chars) + core
  {
    if s == "" {
      assert s + core == core;
    } else if chars(s[0]) {
      assert (s + core)[1..] == s[1..] + core;
      LeftStripOver(s[1..], core, chars);
    }
  }

  lemma {:induction false} RightStripOver(core: string, s: string, chars: char -> bool)
    requires core != "" && !chars(core[|core| - 1])
    ensures RightStrip(core + s, chars) == core + RightStrip(s, chars)
  {
    if s == "" {
      assert core + s == core;
    } else if chars(s[|s| - 1]) {
      assert (core + s)[..|core + s| - 1] == core + s[..|s| - 1];
      RightStripOver(core, s[..|s| - 1], chars);
    }
  }

  lemma {:induction false} LeftStripSuffix(s: string, chars: char -> bool)
    ensures |LeftStrip(s, chars)| <= |s| && s[|s| - |LeftStrip(s, chars)|..] == LeftStrip(s, chars)
    ensures LeftStrip(s, chars) != "" ==> !chars(LeftStrip(s, chars)[0])
  {
    if s != "" && chars(s[0]) { LeftStripSuffix(s[1..], chars); }
  }

  lemma {:induction false} RightStripPrefix(s: string, chars: char -> bool)
    ensures |RightStrip(s, chars)| <= |s| && s[..|RightStrip(s, chars)|] == RightStrip(s, chars)
    ensures RightStrip(s, chars) != "" ==> !chars(RightStrip(s, chars)[|RightStrip(s, chars)| - 1])
  {
    if s != "" && chars(s[|s| - 1]) { RightStripPrefix(s[..|s| - 1], chars); }
  }

  /** What is left neither begins nor ends with a stripped character. */
  lemma StripTrims(s: string, chars: char -> bool)
    requires StripChars(s, chars) != ""
    ensures !chars(StripChars(s, chars)[0]) && !chars(StripChars(s, chars)[|StripChars(s, chars)| - 1])
  {
    LeftStripSuffix(s, chars);
    RightStripPrefix(LeftStrip(s, chars), chars);
  }

  /** Stripping both sides of `before + core + after` leaves `core` between what remains of the two. */
  lemma StripAround(before: string, core: string, after: string, chars: char -> bool)
    requires core != "" && !chars(core[0]) && !chars(core[|core| - 1])
    ensures StripChars(before + core + after, chars) == LeftStrip(before, chars) + core + RightStrip(after, chars)
  {
    assert before + core + after == before + (core + after);
    LeftStripOver(before, core + after, chars);
    var kept := LeftStrip(before, chars) + core;
    assert kept + after == LeftStrip(before, chars) + (core + after);
    RightStripOver(kept, after, chars);
  }

  /** Nothing is left of a string made of stripped characters. */
  lemma {:induction false} AllIsStripped(s: string, chars: char -> bool)
    requires forall c :: c in s ==> chars(c)
    ensures LeftStrip(s, chars) == "" && RightStrip(s, chars) == ""
  {
    if s != "" {
      AllIsStripped(s[1..], chars);
      AllIsStripped(s[..|s| - 1], chars);
    }
  }
}
