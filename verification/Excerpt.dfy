/**
  Cutting a UTF-8 text to an excerpt without splitting a character. Well-formedness
  follows the byte ranges of section 4 of RFC 3629.
*/
module Excerpt {
  import opened Wrappers

  const EXCERPT_LIMIT_BYTES: nat := 4096

  predicate Tail(b: byte) { 0x80 <= b <= 0xBF }

  /** The length of the character that starts `s`, or 0 if none does. */
  function CharLength(s: Bytes): (n: nat)
    ensures n <= |s| && n <= 4
    ensures n > 0 ==> !Tail(s[0]) && forall i :: 1 <= i < n ==> Tail(s[i])
  {
    if |s| >= 1 && s[0] <= 0x7F then 1
    else if |s| >= 2 && 0xC2 <= s[0] <= 0xDF && Tail(s[1]) then 2
    else if |s| >= 3 && Tail(s[1]) && Tail(s[2])
            && ((s[0] == 0xE0 && 0xA0 <= s[1]) || 0xE1 <= s[0] <= 0xEC
                || (s[0] == 0xED && s[1] <= 0x9F) || 0xEE <= s[0] <= 0xEF)
    then 3
    else if |s| >= 4 && Tail(s[1]) && Tail(s[2]) && Tail(s[3])
            && ((s[0] == 0xF0 && 0x90 <= s[1]) || 0xF1 <= s[0] <= 0xF3 || (s[0] == 0xF4 && s[1] <= 0x8F))
    then 4
    else 0
  }

  predicate WellFormed(s: Bytes)
    decreases |s|
  {
    s == [] || (CharLength(s) > 0 && WellFormed(s[CharLength(s)..]))
  }

  /** `str::is_char_boundary`: the ends, and every byte that does not continue a character. */
  predicate IsCharBoundary(s: Bytes, i: nat) {
    i == 0 || i == |s| || (i < |s| && !Tail(s[i]))
  }

  /** `i` separates two well-formed texts. */
  predicate Splits(s: Bytes, i: nat) {
    i <= |s| && WellFormed(s[..i]) && WellFormed(s[i..])
  }

  /** In a well-formed text the byte test finds exactly the places between characters. */
  lemma {:induction false} BoundaryIffSplits(s: Bytes, i: nat)
    requires WellFormed(s) && i <= |s|
    ensures IsCharBoundary(s, i) <==> Splits(s, i)
    decreases |s|
  {
    if s == [] {
      assert s[..i] == [] && s[i..] == [];
    } else if i == 0 {
      assert s[..0] == [] && s[0..] == s;
    } else {
      var n := CharLength(s);
      if i < n {
        InsideCharacter(s, i);
      } else {
        BoundaryIffSplits(s[n..], i - n);
        CharLengthPrefix(s, i);
        assert s[..i][n..] == s[n..][..i - n];
        assert s[i..] == s[n..][i - n..];
        assert IsCharBoundary(s, i) <==> IsCharBoundary(s[n..], i - n);
      }
    }
  }

  lemma InsideCharacter(s: Bytes, i: nat)
    requires 0 < i < CharLength(s)
    ensures !IsCharBoundary(s, i) && !Splits(s, i)
  {
    assert Tail(s[i]) && s[i..][0] == s[i];
  }

  /** The first character is the same in every prefix that holds it. */
  lemma CharLengthPrefix(s: Bytes, i: nat)
    requires CharLength(s) <= i <= |s| && CharLength(s) > 0
    ensures CharLength(s[..i]) == CharLength(s)
  {
  }

  /** Four consecutive positions always include a boundary. */
  lemma {:induction false} BoundaryNearby(s: Bytes, i: nat) returns (b: nat)
    requires WellFormed(s) && i <= |s|
    ensures b <= i < b + 4 && IsCharBoundary(s, b)
    decreases |s|
  {
    if i == 0 || i == |s| {
      b := i;
    } else {
      var n := CharLength(s);
      if i < n {
        b := 0;
      } else {
        var c := BoundaryNearby(s[n..], i - n);
        b := n + c;
        if c > 0 && b < |s| { assert s[n..][c] == s[b]; }
        if c == 0 && b < |s| { assert CharLength(s[n..]) > 0; assert s[n..][0] == s[n]; }
      }
    }
  }

  /** The bytes of an ASCII text. */
  function AsciiBytes(text: string): (s: Bytes)
    requires forall i :: 0 <= i < |text| ==> text[i] < '\U{0080}'
    ensures forall i :: 0 <= i < |s| ==> s[i] <= 0x7F
  {
    seq(|text|, i requires 0 <= i < |text| => text[i] as int as byte)
  }

  const ELLIPSIS: Bytes := [0xE2, 0x80, 0xA6]

  const TRUNCATION_SUFFIX: Bytes := ELLIPSIS + AsciiBytes("[truncated]")

  lemma FirstCharacterStays(s: Bytes, t: Bytes)
    requires CharLength(s) > 0
    ensures CharLength(s + t) == CharLength(s) && (s + t)[CharLength(s)..] == s[CharLength(s)..] + t
  {
  }

  lemma WellFormedCons(s: Bytes, t: Bytes)
    requires CharLength(s) > 0 && WellFormed(s[CharLength(s)..] + t)
    ensures WellFormed(s + t)
  {
    FirstCharacterStays(s, t);
  }

  lemma {:induction false} WellFormedConcat(s: Bytes, t: Bytes)
    requires WellFormed(s) && WellFormed(t)
    ensures WellFormed(s + t)
    decreases |s|
  {
    if s == [] {
      assert s + t == t;
    } else {
      WellFormedConcat(s[CharLength(s)..], t);
      WellFormedCons(s, t);
    }
  }

  lemma {:induction false} AsciiWellFormed(s: Bytes)
    requires forall i :: 0 <= i < |s| ==> s[i] <= 0x7F
    ensures WellFormed(s)
  {
    if s != [] { AsciiWellFormed(s[1..]); }
  }

  lemma SuffixWellFormed()
    ensures WellFormed(TRUNCATION_SUFFIX)
  {
    var text := AsciiBytes("[truncated]");
    AsciiWellFormed(text);
    assert CharLength(ELLIPSIS) == 3 && ELLIPSIS[3..] + text == text;
    WellFormedCons(ELLIPSIS, text);
  }

  /**
    `truncate_excerpt`: an excerpt is well-formed; its cut is the last place at or below
    the limit that separates characters, at most three bytes before it.
  */
  method TruncateExcerpt(value: Bytes) returns (excerpt: Bytes, truncated: bool, end: nat)
    requires WellFormed(value)
    ensures truncated <==> |value| > EXCERPT_LIMIT_BYTES
    ensures !truncated ==> excerpt == value
    ensures WellFormed(excerpt) && end <= |value|
    ensures truncated ==>
              && excerpt == value[..end] + TRUNCATION_SUFFIX
              && EXCERPT_LIMIT_BYTES - 3 <= end <= EXCERPT_LIMIT_BYTES && Splits(value, end)
              && forall j :: end < j <= EXCERPT_LIMIT_BYTES ==> !Splits(value, j)
  {
    if |value| <= EXCERPT_LIMIT_BYTES { return value, false, |value|; }
    ghost var b := BoundaryNearby(value, EXCERPT_LIMIT_BYTES);
    end := EXCERPT_LIMIT_BYTES;
    while end > 0 && !IsCharBoundary(value, end)
      invariant b <= end <= EXCERPT_LIMIT_BYTES
      invariant forall j :: end < j <= EXCERPT_LIMIT_BYTES ==> !Splits(value, j)
    {
      BoundaryIffSplits(value, end);
      end := end - 1;
    }
    BoundaryIffSplits(value, end);
    excerpt := value[..end];
    SuffixWellFormed();
    WellFormedConcat(value[..end], TRUNCATION_SUFFIX);
    excerpt := excerpt + TRUNCATION_SUFFIX;
    truncated := true;
  }
}
