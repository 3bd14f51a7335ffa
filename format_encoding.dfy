/** `format_encoding_str`: canonical spelling of a character-encoding name. */
module FormatEncoding {

  /** `str.lower()` on one character; only `A`..`Z` are mapped (see README, Left out). */
  function LowerChar(c: char): char {
    if 'A' <= c <= 'Z' then (c as int + 32) as char else c
  }

  /** `encoding.lower().replace("_", "-")`, one character at a time. */
  function NormaliseChar(c: char): char {
    if LowerChar(c) == '_' then '-' else LowerChar(c)
  }

  function Normalise(s: string): (r: string)
    ensures |r| == |s|
    ensures forall i :: 0 <= i < |s| ==> r[i] == NormaliseChar(s[i])
  {
    seq(|s|, i requires 0 <= i < |s| => NormaliseChar(s[i]))
  }

  /** Arabic and Hebrew charsets written with a directional annotation. */
  const AnnotatedEncodings: seq<string> := ["iso-8859-6-i", "iso-8859-6-e", "iso-8859-8-i", "iso-8859-8-e"]

  function FormatEncodingStr(encoding: string): (r: string)
    ensures |r| == if Normalise(encoding) in AnnotatedEncodings then |encoding| - 2 else |encoding|
    ensures forall i :: 0 <= i < |r| ==> r[i] == NormaliseChar(encoding[i]) && !('A' <= r[i] <= 'Z')
    ensures '_' !in r
  {
    var formatted := Normalise(encoding);
    if formatted in AnnotatedEncodings then formatted[..|formatted| - 2] else formatted
  }

  /** A string made only of characters normalisation leaves alone is its own normal form. */
  lemma NormaliseFixed(t: string)
    requires forall i :: 0 <= i < |t| ==> t[i] != '_' && !('A' <= t[i] <= 'Z')
    ensures Normalise(t) == t
  {
  }

  /** Formatting an already formatted name changes nothing. */
  lemma {:induction false} FormatEncodingIdempotent(s: string)
    ensures FormatEncodingStr(FormatEncodingStr(s)) == FormatEncodingStr(s)
  {
    var r := FormatEncodingStr(s);
    NormaliseFixed(r);
    assert Normalise(r) == r;
    if Normalise(s) in AnnotatedEncodings {
      assert |r| == 10;
    }
    assert r !in AnnotatedEncodings;
  }

  /** The annotation is stripped: `"ISO_8859_8_E"` formats as `"iso-8859-8"`. */
  lemma FormatAnnotatedExample()
    ensures FormatEncodingStr("ISO_8859_8_E") == "iso-8859-8"
  {
    assert Normalise("ISO_8859_8_E") == "iso-8859-8-e";
  }

  /** A plain name keeps its length: `"UTF_8"` formats as `"utf-8"`. */
  lemma FormatPlainExample()
    ensures FormatEncodingStr("UTF_8") == "utf-8"
  {
    assert Normalise("UTF_8") == "utf-8";
  }
}
