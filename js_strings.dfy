/** The JavaScript string built-ins that the record filter relies on:
    `String.prototype.trim`, `toLowerCase`, `includes` and `Array.prototype.join`,
    over strings as sequences of Unicode scalar values. */
module JsStrings {

  /** WhiteSpace and LineTerminator code points of ECMAScript: exactly what `trim` removes. */
  predicate IsJsWhitespace(c: char) {
    || ('\U{0009}' <= c <= '\U{000D}')   // TAB, LF, VT, FF, CR
    || c == ' '
    || c == '\U{00A0}'                    // NO-BREAK SPACE
    || c == '\U{1680}'                    // OGHAM SPACE MARK
    || ('\U{2000}' <= c <= '\U{200A}')   // EN QUAD .. HAIR SPACE
    || c == '\U{2028}' || c == '\U{2029}' // LINE / PARAGRAPH SEPARATOR
    || c == '\U{202F}' || c == '\U{205F}' || c == '\U{3000}'
    || c == '\U{FEFF}'                    // ZERO WIDTH NO-BREAK SPACE
  }

  /** The number of whitespace characters at the front of `s`: the longest whitespace prefix. */
  function LeadingWhitespace(s: string): (n: nat)
    ensures n <= |s|
    ensures forall i :: 0 <= i < n ==> IsJsWhitespace(s[i])
    ensures n < |s| ==> !IsJsWhitespace(s[n])
  {
    if |s| > 0 && IsJsWhitespace(s[0]) then 1 + LeadingWhitespace(s[1..]) else 0
  }

  /** The number of whitespace characters at the back of `s`: the longest whitespace suffix. */
  function TrailingWhitespace(s: string): (n: nat)
    ensures n <= |s|
    ensures forall i :: |s| - n <= i < |s| ==> IsJsWhitespace(s[i])
    ensures n < |s| ==> !IsJsWhitespace(s[|s| - 1 - n])
  {
    if |s| > 0 && IsJsWhitespace(s[|s| - 1]) then 1 + TrailingWhitespace(s[..|s| - 1]) else 0
  }

  /** `s.trim()`: `s` without its leading and trailing whitespace. */
  function Trim(s: string): (r: string)
    ensures |r| <= |s|
    ensures r != [] ==> !IsJsWhitespace(r[0]) && !IsJsWhitespace(r[|r| - 1])
    ensures r == [] <==> forall i :: 0 <= i < |s| ==> IsJsWhitespace(s[i])
    ensures r != [] ==> r == s[LeadingWhitespace(s)..|s| - TrailingWhitespace(s)]
  {
    var t := s[LeadingWhitespace(s)..];
    var r := t[..|t| - TrailingWhitespace(t)];
    assert r != [] ==> TrailingWhitespace(t) == TrailingWhitespace(s) by {
      if r != [] { TrailingWhitespaceOfSuffix(s, LeadingWhitespace(s)); }
    }
    r
  }

  /** Dropping a prefix that ends before the last non-whitespace character keeps the trailing run. */
  lemma {:induction false} TrailingWhitespaceOfSuffix(s: string, k: nat)
    requires k <= |s|
    requires TrailingWhitespace(s[k..]) < |s| - k
    ensures TrailingWhitespace(s[k..]) == TrailingWhitespace(s)
  {
    var n := TrailingWhitespace(s[k..]);
    assert forall i :: |s| - n <= i < |s| ==> s[i] == s[k..][i - k];
    assert !IsJsWhitespace(s[|s| - 1 - n]) by {
      assert s[|s| - 1 - n] == s[k..][|s| - k - 1 - n];
    }
  }

  /** The lower-case form of one character as `toLowerCase` gives it, for Basic Latin,
      Latin-1 Supplement and the Cyrillic block (U+0400 to U+04FF); any other character
      is returned unchanged. */
  function LowerChar(c: char): (d: char)
    ensures IsUpper(c) ==> d != c
    ensures !IsUpper(c) ==> d == c
    ensures !IsUpper(d)
  {
    if 'A' <= c <= 'Z' then (c as int + 0x20) as char
    else if '\U{00C0}' <= c <= '\U{00DE}' && c != '\U{00D7}' then (c as int + 0x20) as char
    else if '\U{0400}' <= c <= '\U{040F}' then (c as int + 0x50) as char
    else if '\U{0410}' <= c <= '\U{042F}' then (c as int + 0x20) as char
    else if c == '\U{04C0}' then '\U{04CF}'
    else if IsPairedUpper(c) then (c as int + 1) as char
    else c
  }

  /** Cyrillic capitals whose small letter is the next code point. */
  predicate IsPairedUpper(c: char) {
    || ('\U{0460}' <= c <= '\U{0481}' && c as int % 2 == 0)
    || ('\U{048A}' <= c <= '\U{04BF}' && c as int % 2 == 0)
    || ('\U{04C1}' <= c <= '\U{04CE}' && c as int % 2 == 1)
    || ('\U{04D0}' <= c <= '\U{04FF}' && c as int % 2 == 0)
  }

  /** The capitals that `LowerChar` maps. */
  predicate IsUpper(c: char) {
    || 'A' <= c <= 'Z'
    || ('\U{00C0}' <= c <= '\U{00DE}' && c != '\U{00D7}')
    || '\U{0400}' <= c <= '\U{042F}'
    || c == '\U{04C0}'
    || IsPairedUpper(c)
  }

  /** `s.toLowerCase()`, character by character. */
  function ToLower(s: string): (r: string)
    ensures |r| == |s|
    ensures forall i :: 0 <= i < |s| ==> r[i] == LowerChar(s[i])
  {
    seq(|s|, i requires 0 <= i < |s| => LowerChar(s[i]))
  }

  /** Lower-casing neither creates nor removes whitespace. */
  lemma LowerCharKeepsWhitespace(c: char)
    ensures IsJsWhitespace(LowerChar(c)) <==> IsJsWhitespace(c)
  {
  }

  lemma {:induction false} LeadingWhitespaceToLower(s: string)
    ensures LeadingWhitespace(ToLower(s)) == LeadingWhitespace(s)
  {
    if |s| > 0 {
      LowerCharKeepsWhitespace(s[0]);
      assert ToLower(s)[1..] == ToLower(s[1..]);
      LeadingWhitespaceToLower(s[1..]);
    }
  }

  lemma {:induction false} TrailingWhitespaceToLower(s: string)
    ensures TrailingWhitespace(ToLower(s)) == TrailingWhitespace(s)
  {
    if |s| > 0 {
      LowerCharKeepsWhitespace(s[|s| - 1]);
      assert ToLower(s)[..|s| - 1] == ToLower(s[..|s| - 1]);
      TrailingWhitespaceToLower(s[..|s| - 1]);
    }
  }

  /** Trimming and lower-casing can be done in either order. */
  lemma TrimToLower(s: string)
    ensures Trim(ToLower(s)) == ToLower(Trim(s))
  {
    var k := LeadingWhitespace(s);
    var t := s[k..];
    var n := TrailingWhitespace(t);
    LeadingWhitespaceToLower(s);
    var lower := ToLower(s);
    assert lower[k..] == ToLower(t);
    TrailingWhitespaceToLower(t);
    assert Trim(lower) == ToLower(t)[..|t| - n];
    assert Trim(s) == t[..|t| - n];
    assert ToLower(t)[..|t| - n] == ToLower(t[..|t| - n]);
  }

  /** `hay.includes(needle)`, as a scan over the start positions of `hay`. */
  function Includes(hay: string, needle: string): (b: bool)
    ensures b ==> |needle| <= |hay|
    ensures needle == "" ==> b
    decreases |hay|
  {
    if |needle| > |hay| then false
    else if hay[..|needle|] == needle then true
    else Includes(hay[1..], needle)
  }

  /** `needle` occurs in `hay` at position `i`. */
  ghost predicate OccursAt(hay: string, needle: string, i: int) {
    0 <= i && i + |needle| <= |hay| && hay[i..i + |needle|] == needle
  }

  /** The reference meaning of containment: some position of `hay` starts a copy of `needle`. */
  ghost predicate IsSubstring(needle: string, hay: string) {
    exists i :: OccursAt(hay, needle, i)
  }

  /** `Includes` is exactly substring containment, in both directions. */
  lemma {:induction false} IncludesIff(hay: string, needle: string)
    ensures Includes(hay, needle) <==> IsSubstring(needle, hay)
    decreases |hay|
  {
    if |needle| <= |hay| {
      if hay[..|needle|] == needle {
        assert OccursAt(hay, needle, 0);
      } else {
        IncludesIff(hay[1..], needle);
        if Includes(hay[1..], needle) {
          var i :| OccursAt(hay[1..], needle, i);
          assert hay[i + 1..i + 1 + |needle|] == hay[1..][i..i + |needle|];
          assert OccursAt(hay, needle, i + 1);
        }
        if IsSubstring(needle, hay) {
          var i :| OccursAt(hay, needle, i);
          assert i != 0;
          assert hay[1..][i - 1..i - 1 + |needle|] == hay[i..i + |needle|];
          assert OccursAt(hay[1..], needle, i - 1);
        }
      }
    }
  }

  /** `parts.join(sep)`: the parts in order with `sep` between neighbours. */
  function Join(parts: seq<string>, sep: string): string {
    if parts == [] then ""
    else if |parts| == 1 then parts[0]
    else parts[0] + sep + Join(parts[1..], sep)
  }
}
