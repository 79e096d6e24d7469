/** The parts of Kotlin's string library (JVM) that the validation chains use. */
module Text {

  /** Kotlin's `Char.isWhitespace()` on the JVM: `Character.isWhitespace(c) ||
      Character.isSpaceChar(c)`, i.e. the ASCII controls TAB, LF, VT, FF, CR,
      the four information separators U+001C..U+001F, and every Unicode space,
      line or paragraph separator (including the no-break spaces). */
  predicate IsWhitespace(c: char) {
    || '\t' <= c <= '\r'
    || '\U{001C}' <= c <= ' '
    || c == '\U{00A0}'
    || c == '\U{1680}'
    || '\U{2000}' <= c <= '\U{200A}'
    || c == '\U{2028}' || c == '\U{2029}'
    || c == '\U{202F}' || c == '\U{205F}'
    || c == '\U{3000}'
  }

  /** Kotlin's `CharSequence.isBlank()`: empty, or whitespace throughout. */
  predicate IsBlank(s: string) {
    forall i | 0 <= i < |s| :: IsWhitespace(s[i])
  }

  /** Kotlin's `CharSequence.trimStart()`: drops the leading whitespace. The
      result is a suffix of `s` that starts with a visible character (or is
      empty), and everything dropped was whitespace. */
  function TrimStart(s: string): (t: string)
    ensures |t| <= |s| && t == s[|s| - |t|..]
    ensures t != [] ==> !IsWhitespace(t[0])
    ensures forall i | 0 <= i < |s| - |t| :: IsWhitespace(s[i])
  {
    if s != [] && IsWhitespace(s[0]) then TrimStart(s[1..]) else s
  }

  /** `s.isBlank()` agrees with `s.trimStart().isEmpty()`, in both directions. */
  lemma BlankIffTrimsToEmpty(s: string)
    ensures IsBlank(s) <==> TrimStart(s) == []
  {
  }

  /** Kotlin's `String.length`: the number of UTF-16 code units. A character
      outside the Basic Multilingual Plane is a surrogate pair and counts twice. */
  function Utf16Length(s: string): (n: nat)
    ensures |s| <= n <= 2 * |s|
    ensures s == [] <==> n == 0
  {
    if s == [] then 0
    else (if s[0] as int > 0xFFFF then 2 else 1) + Utf16Length(s[1..])
  }

  /** A string whose characters all lie in the Basic Multilingual Plane has
      as many UTF-16 units as characters. */
  lemma {:induction false} Utf16LengthOfBmp(s: string)
    requires forall i | 0 <= i < |s| :: s[i] as int <= 0xFFFF
    ensures Utf16Length(s) == |s|
  {
    if s != [] {
      assert forall i | 0 <= i < |s[1..]| :: s[1..][i] == s[i + 1];
      Utf16LengthOfBmp(s[1..]);
    }
  }

  /** Three characters outside the Basic Multilingual Plane already have
      Kotlin length 6. */
  lemma Utf16LengthExample()
    ensures Utf16Length("\U{1F3B5}\U{1F3B5}\U{1F3B5}") == 6
    ensures Utf16Length("abc12") == 5
  {
  }
}
