/** Bytes and the two Go conversions between byte slices and strings.
    A Go string is an immutable byte sequence; the model views each byte as
    the character with the same code point, so `string(b)` loses nothing. */
module Bytes {

  newtype byte = x: int | 0 <= x < 256

  /** Go's `string(b)`: every byte becomes one character, in order. */
  function BytesToString(b: seq<byte>): (s: string)
    ensures |s| == |b|
    ensures forall i :: 0 <= i < |b| ==> s[i] as int == b[i] as int
  {
    seq(|b|, i requires 0 <= i < |b| => b[i] as int as char)
  }

  /** A string all of whose characters are byte-sized, as Go strings are. */
  predicate IsByteString(s: string)
  {
    forall i :: 0 <= i < |s| ==> s[i] as int < 256
  }

  /** Go's `[]byte(s)` for a byte-sized string. */
  function StringToBytes(s: string): (b: seq<byte>)
    requires IsByteString(s)
    ensures |b| == |s|
    ensures forall i :: 0 <= i < |s| ==> b[i] as int == s[i] as int
  {
    seq(|s|, i requires 0 <= i < |s| => s[i] as int as byte)
  }

  /** `[]byte(string(b)) == b`: converting the body read to a string keeps every byte. */
  lemma BytesStringRoundTrip(b: seq<byte>)
    ensures IsByteString(BytesToString(b))
    ensures StringToBytes(BytesToString(b)) == b
  {
  }
}
