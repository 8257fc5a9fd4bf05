/** Rust strings seen through byte offsets: `char_indices`, slicing and character boundaries. */
module Strings {
  import opened Utf8

  function ByteLen(s: string): nat { |Encode(s)| }

  /** Byte offset `i` lies between two characters of `s`, so slicing there does not panic. */
  predicate IsCharBoundary(s: string, i: nat) {
    i <= ByteLen(s) && Valid(Encode(s)[..i])
  }

  /** `&s[lo..hi]` with byte offsets; the precondition is what Rust checks at run time. */
  function Slice(s: string, lo: nat, hi: nat): string
    requires lo <= hi && IsCharBoundary(s, lo) && IsCharBoundary(s, hi)
  {
    var b := Encode(s);
    assert b[..hi] == b[..lo] + b[lo..hi];
    DecodeSplits(b[..lo], b[lo..hi]);
    Decode(b[lo..hi]).value
  }

  lemma {:induction false} EncodeTake(s: string, k: nat)
    requires k <= |s|
    ensures ByteLen(s[..k]) <= ByteLen(s) && Encode(s)[..ByteLen(s[..k])] == Encode(s[..k])
  {
    EncodeAppend(s[..k], s[k..]);
    assert s == s[..k] + s[k..];
  }

  /** The offset of the `k`-th character is a boundary, and the next offset is that character's width further. */
  lemma BoundaryAt(s: string, k: nat)
    requires k <= |s|
    ensures IsCharBoundary(s, ByteLen(s[..k]))
    ensures k < |s| ==> ByteLen(s[..k + 1]) == ByteLen(s[..k]) + |EncodeChar(s[k])|
  {
    EncodeTake(s, k);
    DecodeEncode(s[..k]);
    if k < |s| {
      assert s[..k + 1] == s[..k] + [s[k]];
      EncodeAppend(s[..k], [s[k]]);
      assert Encode([s[k]]) == EncodeChar(s[k]);
    }
  }

  /** Slicing between the offsets of two characters yields the characters between them. */
  lemma SliceBetween(s: string, j: nat, k: nat, lo: nat, hi: nat)
    requires j <= k <= |s| && lo == ByteLen(s[..j]) && hi == ByteLen(s[..k])
    ensures lo <= hi && IsCharBoundary(s, lo) && IsCharBoundary(s, hi)
    ensures Slice(s, lo, hi) == s[j..k]
  {
    BoundaryAt(s, j);
    BoundaryAt(s, k);
    EncodeTake(s, j);
    EncodeTake(s, k);
    assert s[..k] == s[..j] + s[j..k];
    EncodeAppend(s[..j], s[j..k]);
    DecodeEncode(s[j..k]);
  }

  /** The `White_Space` characters, which `char::is_whitespace` and `str::trim` use. */
  predicate IsWhitespace(c: char) {
    var v := c as int;
    || 0x09 <= v <= 0x0D || v == 0x20 || v == 0x85 || v == 0xA0 || v == 0x1680
    || 0x2000 <= v <= 0x200A || v == 0x2028 || v == 0x2029 || v == 0x202F || v == 0x205F || v == 0x3000
  }

  /** `s.trim().is_empty()` */
  predicate IsBlank(s: string) { forall c | c in s :: IsWhitespace(c) }
}
