/**
 * The two string primitives the comparators rely on: Java's String.compareTo and
 * commons-lang StringUtils.compare (null-safe, null is less), plus StringUtils.isBlank.
 */
module JavaStrings {
  import opened Wrappers

  /** Sign of an int: -1, 0 or 1. */
  function Sign(n: int): (r: int)
    ensures r == -1 || r == 0 || r == 1
    ensures (r < 0 <==> n < 0) && (r == 0 <==> n == 0) && (r > 0 <==> n > 0)
  {
    if n < 0 then -1 else if n == 0 then 0 else 1
  }

  /**
   * The UTF-16 code units of one character: the character itself below U+10000,
   * otherwise its high and low surrogates.
   */
  function CodeUnits(c: char): (r: seq<int>)
    ensures |r| == 1 <==> c as int < 0x10000
    ensures |r| == 1 ==> r[0] == c as int && !(0xD800 <= r[0] < 0xDC00)
    ensures |r| == 2 ==>
              && 0xD800 <= r[0] < 0xDC00 && 0xDC00 <= r[1] < 0xE000
              && c as int == 0x10000 + (r[0] - 0xD800) * 0x400 + (r[1] - 0xDC00)
  {
    var v := c as int;
    if v < 0x10000 then [v]
    else [0xD800 + (v - 0x10000) / 0x400, 0xDC00 + (v - 0x10000) % 0x400]
  }

  /** The chars of a Java String: the UTF-16 code units of its characters, in order. */
  function Utf16(s: string): (r: seq<int>)
    ensures s == [] <==> r == []
  {
    if s == [] then [] else CodeUnits(s[0]) + Utf16(s[1..])
  }

  /** Two strings with the same UTF-16 code units are the same string. */
  lemma {:induction false} Utf16Injective(a: string, b: string)
    requires Utf16(a) == Utf16(b)
    ensures a == b
  {
    if a != [] {
      var ua, ub := CodeUnits(a[0]), CodeUnits(b[0]);
      assert Utf16(a)[0] == ua[0] && Utf16(b)[0] == ub[0];
      assert |ua| == |ub|;
      assert Utf16(a)[..|ua|] == ua && Utf16(b)[..|ub|] == ub;
      assert ua == ub;
      assert Utf16(a)[|ua|..] == Utf16(a[1..]) && Utf16(b)[|ub|..] == Utf16(b[1..]);
      Utf16Injective(a[1..], b[1..]);
      assert a == [a[0]] + a[1..] && b == [b[0]] + b[1..];
    }
  }

  /** The code units of a concatenation are those of its parts, in order. */
  lemma {:induction false} Utf16Append(a: string, b: string)
    ensures Utf16(a + b) == Utf16(a) + Utf16(b)
  {
    if a == [] {
      assert a + b == b;
    } else {
      assert (a + b)[0] == a[0] && (a + b)[1..] == a[1..] + b;
      Utf16Append(a[1..], b);
    }
  }

  /** Characters below U+10000 take one code unit each. */
  lemma {:induction false} Utf16Bmp(s: string)
    requires forall i :: 0 <= i < |s| ==> s[i] as int < 0x10000
    ensures |Utf16(s)| == |s|
  {
    if s != [] {
      Utf16Bmp(s[1..]);
    }
  }

  /** Characters from U+10000 up take two code units each. */
  lemma {:induction false} Utf16Supplementary(s: string)
    requires forall i :: 0 <= i < |s| ==> s[i] as int >= 0x10000
    ensures |Utf16(s)| == 2 * |s|
  {
    if s != [] {
      Utf16Supplementary(s[1..]);
    }
  }

  /**
   * The comparison of String.compareTo on code unit sequences: the difference of
   * the first differing units, or of the lengths when one is a prefix of the other.
   */
  function CompareUnits(a: seq<int>, b: seq<int>): (r: int)
    ensures (forall i :: 0 <= i < |a| && i < |b| ==> a[i] == b[i]) ==> r == |a| - |b|
    ensures forall k :: 0 <= k < |a| && k < |b| && a[k] != b[k] && (forall i :: 0 <= i < k ==> a[i] == b[i])
                        ==> r == a[k] - b[k]
  {
    if |a| == 0 || |b| == 0 then |a| - |b|
    else if a[0] != b[0] then a[0] - b[0]
    else CompareUnits(a[1..], b[1..])
  }

  /** String.compareTo compares the UTF-16 code units, not the characters. */
  function CompareTo(a: string, b: string): int
  {
    CompareUnits(Utf16(a), Utf16(b))
  }

  /** CompareUnits is exactly antisymmetric. */
  lemma {:induction false} CompareUnitsAntisymmetric(a: seq<int>, b: seq<int>)
    ensures CompareUnits(a, b) == -CompareUnits(b, a)
  {
    if |a| != 0 && |b| != 0 && a[0] == b[0] {
      CompareUnitsAntisymmetric(a[1..], b[1..]);
    }
  }

  /** CompareUnits answers 0 exactly for equal sequences. */
  lemma {:induction false} CompareUnitsZeroIffEqual(a: seq<int>, b: seq<int>)
    ensures CompareUnits(a, b) == 0 <==> a == b
  {
    if |a| != 0 && |b| != 0 && a[0] == b[0] {
      CompareUnitsZeroIffEqual(a[1..], b[1..]);
      assert a == [a[0]] + a[1..] && b == [b[0]] + b[1..];
    }
  }

  /** CompareUnits orders sequences transitively. */
  lemma {:induction false} CompareUnitsTransitive(a: seq<int>, b: seq<int>, c: seq<int>)
    requires CompareUnits(a, b) > 0 && CompareUnits(b, c) > 0
    ensures CompareUnits(a, c) > 0
  {
    if |a| != 0 && |b| != 0 && |c| != 0 && a[0] == b[0] && b[0] == c[0] {
      CompareUnitsTransitive(a[1..], b[1..], c[1..]);
    }
  }

  /** CompareTo is exactly antisymmetric: swapping the arguments negates the result. */
  lemma CompareToAntisymmetric(a: string, b: string)
    ensures CompareTo(a, b) == -CompareTo(b, a)
  {
    CompareUnitsAntisymmetric(Utf16(a), Utf16(b));
  }

  /** CompareTo answers 0 exactly for equal strings. */
  lemma CompareToZeroIffEqual(a: string, b: string)
    ensures CompareTo(a, b) == 0 <==> a == b
  {
    CompareUnitsZeroIffEqual(Utf16(a), Utf16(b));
    if Utf16(a) == Utf16(b) {
      Utf16Injective(a, b);
    }
  }

  /** CompareTo orders strings transitively. */
  lemma CompareToTransitive(a: string, b: string, c: string)
    requires CompareTo(a, b) > 0 && CompareTo(b, c) > 0
    ensures CompareTo(a, c) > 0
  {
    CompareUnitsTransitive(Utf16(a), Utf16(b), Utf16(c));
  }

  /**
   * A character above U+FFFF orders before U+FF5E, because its high surrogate
   * is the code unit that is compared.
   */
  lemma SupplementaryBeforeHalfwidth()
    ensures CompareTo("\U{1F600}", "\U{FF5E}") < 0
  {
    assert Utf16("\U{1F600}") == [0xD83D, 0xDE00];
    assert Utf16("\U{FF5E}") == [0xFF5E];
  }

  /**
   * StringUtils.compare(s1, s2) with nullIsLess = true: two nulls are equal, a null
   * orders before any string, two strings compare with compareTo.
   */
  function NullSafeCompare(a: Option<string>, b: Option<string>): (r: int)
    ensures r == 0 <==> a == b
    ensures a.None? && b.Some? ==> r < 0
    ensures a.Some? && b.None? ==> r > 0
    ensures a.Some? && b.Some? ==> Sign(r) == Sign(CompareTo(a.value, b.value))
  {
    match (a, b)
    case (None, None) => 0
    case (None, Some(_)) => -1
    case (Some(_), None) => 1
    case (Some(x), Some(y)) =>
      CompareToZeroIffEqual(x, y);
      CompareTo(x, y)
  }

  /** NullSafeCompare is antisymmetric in sign. */
  lemma NullSafeCompareAntisymmetric(a: Option<string>, b: Option<string>)
    ensures Sign(NullSafeCompare(a, b)) == -Sign(NullSafeCompare(b, a))
  {
    if a.Some? && b.Some? {
      CompareToAntisymmetric(a.value, b.value);
    }
  }

  /** NullSafeCompare is transitive. */
  lemma NullSafeCompareTransitive(a: Option<string>, b: Option<string>, c: Option<string>)
    requires NullSafeCompare(a, b) > 0 && NullSafeCompare(b, c) > 0
    ensures NullSafeCompare(a, c) > 0
  {
    if a.Some? && b.Some? && c.Some? {
      CompareToTransitive(a.value, b.value, c.value);
    }
  }

  /**
   * Character.isWhitespace: the space, line and paragraph separators except the
   * non-breaking ones (U+00A0, U+2007, U+202F), and U+0009 to U+000D and U+001C to U+001F.
   */
  predicate IsWhitespace(c: char)
  {
    ('\U{9}' <= c <= '\U{D}') || ('\U{1C}' <= c <= '\U{20}')
    || c == '\U{1680}' || ('\U{2000}' <= c <= '\U{2006}') || ('\U{2008}' <= c <= '\U{200A}')
    || c == '\U{2028}' || c == '\U{2029}' || c == '\U{205F}' || c == '\U{3000}'
  }

  /** StringUtils.isBlank: null, empty, or whitespace only. */
  predicate IsBlank(s: Option<string>)
  {
    s.None? || forall i | 0 <= i < |s.value| :: IsWhitespace(s.value[i])
  }

  /** An em space alone is blank; a no-break space alone is not. */
  lemma BlankUnicodeSpaces()
    ensures IsBlank(Some("\U{2003}"))
    ensures !IsBlank(Some("\U{A0}"))
  {
    assert "\U{A0}"[0] == '\U{A0}';
  }

  /** How Java's string concatenation renders a possibly-null string. */
  function NullToString(s: Option<string>): (r: string)
    ensures s.Some? ==> r == s.value
  {
    if s.Some? then s.value else "null"
  }
}
