/** Texture-name sanitising: every character that is neither a letter, a digit
    nor the replacement character becomes the replacement character; a null or
    empty name becomes a placeholder, and on export the placeholder gets the
    texture's hash code appended.
    `char.IsLetterOrDigit` follows Unicode tables that are not modelled: it is
    the parameter `isLetterOrDigit`. */
module SanitizeTextureNames {
  import opened Optional
  import opened Strings

  /** `UNNAMED_TEXTURE`, the name given to a texture that has none. */
  const UnnamedTexture := "Unnamed_Texture"

  /** The replacement character used on export. */
  const DefaultReplacement := '_'

  /** A character survives sanitising unchanged. */
  predicate Kept(c: char, replacement: char, isLetterOrDigit: char -> bool) {
    isLetterOrDigit(c) || c == replacement
  }

  /** Every character of `s` survives sanitising unchanged. */
  predicate IsSafeName(s: string, replacement: char, isLetterOrDigit: char -> bool) {
    forall i :: 0 <= i < |s| ==> Kept(s[i], replacement, isLetterOrDigit)
  }

  /** The character-by-character map of the loop over `inputName`. */
  function SanitizeChars(s: string, replacement: char, isLetterOrDigit: char -> bool): (r: string)
    ensures |r| == |s|
    ensures forall i :: 0 <= i < |s| ==>
              r[i] == if Kept(s[i], replacement, isLetterOrDigit) then s[i] else replacement
    decreases |s|
  {
    if |s| == 0 then []
    else
      var c := s[|s| - 1];
      SanitizeChars(s[..|s| - 1], replacement, isLetterOrDigit)
        + [if Kept(c, replacement, isLetterOrDigit) then c else replacement]
  }

  /** `SanitizeName(inputName, replacementChar)`; `None` is a null name. */
  function SanitizeName(input: Option<string>, replacement: char, isLetterOrDigit: char -> bool): (r: string)
    ensures (input.None? || input.value == []) ==> r == UnnamedTexture
    ensures input.Some? && input.value != [] ==>
              && |r| == |input.value|
              && forall i :: 0 <= i < |r| ==>
                   r[i] == if Kept(input.value[i], replacement, isLetterOrDigit) then input.value[i] else replacement
  {
    if input.None? || input.value == [] then UnnamedTexture
    else SanitizeChars(input.value, replacement, isLetterOrDigit)
  }

  /** A sanitised non-empty name holds only letters, digits and the replacement character. */
  lemma SanitizedIsSafe(s: string, replacement: char, isLetterOrDigit: char -> bool)
    requires s != []
    ensures IsSafeName(SanitizeName(Some(s), replacement, isLetterOrDigit), replacement, isLetterOrDigit)
  {
  }

  /** A non-empty name made only of kept characters is left exactly as it is. */
  lemma SafeNameIsFixedPoint(s: string, replacement: char, isLetterOrDigit: char -> bool)
    requires s != [] && IsSafeName(s, replacement, isLetterOrDigit)
    ensures SanitizeName(Some(s), replacement, isLetterOrDigit) == s
  {
    var r := SanitizeName(Some(s), replacement, isLetterOrDigit);
    assert forall i :: 0 <= i < |s| ==> r[i] == s[i];
  }

  /** Sanitising twice is sanitising once, for every input, as long as the
      placeholder itself is a safe name. */
  lemma SanitizeIdempotent(input: Option<string>, replacement: char, isLetterOrDigit: char -> bool)
    requires IsSafeName(UnnamedTexture, replacement, isLetterOrDigit)
    ensures var once := SanitizeName(input, replacement, isLetterOrDigit);
            SanitizeName(Some(once), replacement, isLetterOrDigit) == once
  {
    var once := SanitizeName(input, replacement, isLetterOrDigit);
    if input.Some? && input.value != [] {
      SanitizedIsSafe(input.value, replacement, isLetterOrDigit);
    }
    SafeNameIsFixedPoint(once, replacement, isLetterOrDigit);
  }

  /** An ASCII approximation of `char.IsLetterOrDigit`, for worked examples only. */
  predicate IsAsciiLetterOrDigit(c: char) {
    ('a' <= c <= 'z') || ('A' <= c <= 'Z') || ('0' <= c <= '9')
  }

  /** "a@b#c" sanitises to "a_b_c" with the default replacement. */
  lemma SanitizeExample()
    ensures SanitizeName(Some("a@b#c"), DefaultReplacement, IsAsciiLetterOrDigit) == "a_b_c"
  {
    var r := SanitizeName(Some("a@b#c"), DefaultReplacement, IsAsciiLetterOrDigit);
    assert r[0] == 'a' && r[1] == '_' && r[2] == 'b' && r[3] == '_' && r[4] == 'c';
  }

  /** `BeforeTextureExport`: the sanitised name, with the texture's hash code
      (an `int`, rendered in decimal) appended when it equals the placeholder.
      The result is never the bare placeholder. */
  function BeforeTextureExport(name: Option<string>, hashCode: int, isLetterOrDigit: char -> bool): (r: string)
    ensures var s := SanitizeName(name, DefaultReplacement, isLetterOrDigit);
            && |r| >= |s| && r[..|s|] == s
            && (|r| > |s| <==> s == UnnamedTexture)
            && (s == UnnamedTexture ==> r[|s|..] == IntToDecimal(hashCode))
    ensures r != UnnamedTexture
  {
    var s := SanitizeName(name, DefaultReplacement, isLetterOrDigit);
    if s == UnnamedTexture then s + IntToDecimal(hashCode) else s
  }

  /** A texture literally named "Unnamed_Texture" gets the suffix as well,
      under any letter-or-digit test that keeps the placeholder's characters,
      as `char.IsLetterOrDigit` does. */
  lemma LiteralPlaceholderGetsSuffix(hashCode: int, isLetterOrDigit: char -> bool)
    requires IsSafeName(UnnamedTexture, DefaultReplacement, isLetterOrDigit)
    ensures BeforeTextureExport(Some(UnnamedTexture), hashCode, isLetterOrDigit)
            == UnnamedTexture + IntToDecimal(hashCode)
  {
    SafeNameIsFixedPoint(UnnamedTexture, DefaultReplacement, isLetterOrDigit);
  }

  /** The ASCII test keeps the placeholder's characters, so the lemma above
      applies to it. */
  lemma AsciiKeepsPlaceholder()
    ensures IsSafeName(UnnamedTexture, DefaultReplacement, IsAsciiLetterOrDigit)
  {
    assert UnnamedTexture == "Unnamed_Texture";
  }
}
