/** The standard base64 encoding of section 4 of RFC 4648 (alphabet
    `A-Z a-z 0-9 + /`, `=` padding), which Go's `base64.StdEncoding` implements,
    together with a decoder used as its reference inverse. */
module Base64 {
  import opened Wrappers
  import opened Bytes

  /** A 6-bit group value. */
  type Sextet = v: int | 0 <= v < 64

  const Pad: char := '='

  /** Entry `v` of the RFC 4648 base64 alphabet (Table 1 of section 4). */
  function SextetChar(v: Sextet): (c: char)
    ensures c != Pad
  {
    if v < 26 then ('A' as int + v) as char
    else if v < 52 then ('a' as int + (v - 26)) as char
    else if v < 62 then ('0' as int + (v - 52)) as char
    else if v == 62 then '+'
    else '/'
  }

  /** The position of `c` in the alphabet; `None` for the pad and every other character. */
  function CharSextet(c: char): (r: Option<Sextet>)
    ensures r.Some? ==> SextetChar(r.value) == c
  {
    if 'A' <= c <= 'Z' then Some(c as int - 'A' as int)
    else if 'a' <= c <= 'z' then Some(c as int - 'a' as int + 26)
    else if '0' <= c <= '9' then Some(c as int - '0' as int + 52)
    else if c == '+' then Some(62)
    else if c == '/' then Some(63)
    else None
  }

  lemma SextetCharInverse(v: Sextet)
    ensures CharSextet(SextetChar(v)) == Some(v)
  {
  }

  /** A character the encoder may emit. */
  predicate IsEncodingChar(c: char)
  {
    c == Pad || CharSextet(c).Some?
  }

  /** Three bytes, split into four 6-bit groups, most significant first. */
  function EncodeQuantum(b0: byte, b1: byte, b2: byte): (r: string)
    ensures |r| == 4
    ensures forall i :: 0 <= i < 4 ==> IsEncodingChar(r[i])
  {
    [ SextetChar(b0 as int / 4),
      SextetChar((b0 as int % 4) * 16 + b1 as int / 16),
      SextetChar((b1 as int % 16) * 4 + b2 as int / 64),
      SextetChar(b2 as int % 64) ]
  }

  /** One final byte: two groups, then two `=`. */
  function EncodeOne(b0: byte): (r: string)
    ensures |r| == 4
    ensures forall i :: 0 <= i < 4 ==> IsEncodingChar(r[i])
  {
    [SextetChar(b0 as int / 4), SextetChar((b0 as int % 4) * 16), Pad, Pad]
  }

  /** Two final bytes: three groups, then one `=`. */
  function EncodePair(b0: byte, b1: byte): (r: string)
    ensures |r| == 4
    ensures forall i :: 0 <= i < 4 ==> IsEncodingChar(r[i])
  {
    [ SextetChar(b0 as int / 4),
      SextetChar((b0 as int % 4) * 16 + b1 as int / 16),
      SextetChar((b1 as int % 16) * 4), Pad ]
  }

  /** `base64.StdEncoding.EncodeToString`: full quanta of three bytes, then
      a final group of one or two bytes padded with `=` to four characters. */
  function Encode(s: seq<byte>): (r: string)
    ensures |r| == 4 * ((|s| + 2) / 3)
    ensures forall i :: 0 <= i < |r| ==> IsEncodingChar(r[i])
    decreases |s|
  {
    if |s| == 0 then ""
    else if |s| == 1 then EncodeOne(s[0])
    else if |s| == 2 then EncodePair(s[0], s[1])
    else
      var q, rest := EncodeQuantum(s[0], s[1], s[2]), Encode(s[3..]);
      assert (|s| + 2) / 3 == (|s[3..]| + 2) / 3 + 1;
      q + rest
  }

  /** The bytes a four-character group stands for, `=` allowed only as padding. */
  function DecodeGroup(g: string, last: bool): (r: Option<seq<byte>>)
    requires |g| == 4
  {
    var v0, v1, v2, v3 := CharSextet(g[0]), CharSextet(g[1]), CharSextet(g[2]), CharSextet(g[3]);
    if v0.None? || v1.None? then None
    else
      var x0 := (v0.value * 4 + v1.value / 16) as byte;
      if last && g[2] == Pad && g[3] == Pad then Some([x0])
      else if v2.None? then None
      else
        var x1 := ((v1.value % 16) * 16 + v2.value / 4) as byte;
        if last && g[3] == Pad then Some([x0, x1])
        else if v3.None? then None
        else Some([x0, x1, ((v2.value % 4) * 64 + v3.value) as byte])
  }

  /** Decodes a padded base64 text; `None` if it is not one. */
  function Decode(t: string): (r: Option<seq<byte>>)
    decreases |t|
  {
    if |t| == 0 then Some([])
    else if |t| < 4 then None
    else
      match DecodeGroup(t[..4], |t| == 4)
      case None => None
      case Some(head) =>
        match Decode(t[4..])
        case None => None
        case Some(tail) => Some(head + tail)
  }

  /** Regrouping two bytes' bits across a 6-bit boundary and back. */
  lemma Regroup(b0: int, b1: int)
    requires 0 <= b0 < 256 && 0 <= b1 < 256
    ensures var m := (b0 % 4) * 16 + b1 / 16;
      0 <= m < 64 && m / 16 == b0 % 4 && m % 16 == b1 / 16 && (b0 / 4) * 4 + m / 16 == b0
  {
  }

  lemma RegroupLow(b1: int, b2: int)
    requires 0 <= b1 < 256 && 0 <= b2 < 256
    ensures var m := (b1 % 16) * 4 + b2 / 64;
      0 <= m < 64 && m / 4 == b1 % 16 && m % 4 == b2 / 64
      && (b1 / 16) * 16 + m / 4 == b1 && (m % 4) * 64 + b2 % 64 == b2
  {
  }

  lemma QuantumRoundTrip(b0: byte, b1: byte, b2: byte, last: bool)
    ensures DecodeGroup(EncodeQuantum(b0, b1, b2), last) == Some([b0, b1, b2])
  {
    var g := EncodeQuantum(b0, b1, b2);
    var s0, s1, s2, s3 := b0 as int / 4, (b0 as int % 4) * 16 + b1 as int / 16,
                          (b1 as int % 16) * 4 + b2 as int / 64, b2 as int % 64;
    Regroup(b0 as int, b1 as int);
    RegroupLow(b1 as int, b2 as int);
    SextetCharInverse(s0); SextetCharInverse(s1); SextetCharInverse(s2); SextetCharInverse(s3);
    assert CharSextet(g[0]) == Some(s0) && CharSextet(g[1]) == Some(s1);
    assert CharSextet(g[2]) == Some(s2) && CharSextet(g[3]) == Some(s3);
    assert g[2] != Pad && g[3] != Pad;
  }

  lemma OneByteRoundTrip(b0: byte)
    ensures DecodeGroup(EncodeOne(b0), true) == Some([b0])
  {
    var b := b0 as int;
    var s0, s1 := b / 4, (b % 4) * 16;
    Regroup(b, 0);
    var g := EncodeOne(b0);
    SextetCharInverse(s0); SextetCharInverse(s1);
    assert CharSextet(g[0]) == Some(s0) && CharSextet(g[1]) == Some(s1);
  }

  lemma DecodeOnePad(g: string, v0: Sextet, v1: Sextet, v2: Sextet)
    requires |g| == 4 && g[3] == Pad
    requires CharSextet(g[0]) == Some(v0) && CharSextet(g[1]) == Some(v1) && CharSextet(g[2]) == Some(v2)
    ensures DecodeGroup(g, true) == Some([(v0 * 4 + v1 / 16) as byte, ((v1 % 16) * 16 + v2 / 4) as byte])
  {
    assert g[2] != Pad;
  }

  lemma PairRoundTrip(b0: byte, b1: byte)
    ensures DecodeGroup(EncodePair(b0, b1), true) == Some([b0, b1])
  {
    var x0, x1 := b0 as int, b1 as int;
    var s0, s1, s2 := x0 / 4, (x0 % 4) * 16 + x1 / 16, (x1 % 16) * 4;
    Regroup(x0, x1);
    RegroupLow(x1, 0);
    SextetCharInverse(s0); SextetCharInverse(s1); SextetCharInverse(s2);
    DecodeOnePad(EncodePair(b0, b1), s0, s1, s2);
  }

  lemma DecodeAppend(q: string, rest: string, head: seq<byte>, tail: seq<byte>)
    requires |q| == 4
    requires DecodeGroup(q, rest == []) == Some(head) && Decode(rest) == Some(tail)
    ensures Decode(q + rest) == Some(head + tail)
  {
    var t := q + rest;
    assert t[..4] == q && t[4..] == rest;
  }

  /** A final group of one or two bytes round-trips on its own. */
  lemma ShortRoundTrip(s: seq<byte>)
    requires 1 <= |s| <= 2
    ensures Decode(Encode(s)) == Some(s)
  {
    var g := Encode(s);
    if |s| == 1 {
      OneByteRoundTrip(s[0]);
      assert s == [s[0]];
    } else {
      PairRoundTrip(s[0], s[1]);
      assert s == [s[0], s[1]];
    }
    DecodeAppend(g, [], s, []);
    assert g + [] == g && s + [] == s;
  }

  lemma SplitThree(s: seq<byte>)
    requires |s| >= 3
    ensures s == [s[0], s[1], s[2]] + s[3..]
  {
    assert s[..3] == [s[0], s[1], s[2]];
    assert s == s[..3] + s[3..];
  }

  /** One full quantum in front of a tail that round-trips. */
  lemma QuantumStep(s: seq<byte>)
    requires |s| >= 3
    requires Decode(Encode(s[3..])) == Some(s[3..])
    ensures Decode(Encode(s)) == Some(s)
  {
    var q := EncodeQuantum(s[0], s[1], s[2]);
    var rest := Encode(s[3..]);
    assert Encode(s) == q + rest;
    assert |rest| == 0 <==> |s| == 3;
    QuantumRoundTrip(s[0], s[1], s[2], rest == []);
    var head := [s[0], s[1], s[2]];
    SplitThree(s);
    calc {
      Decode(Encode(s));
      Decode(q + rest);
      { DecodeAppend(q, rest, head, s[3..]); }
      Some(head + s[3..]);
      Some(s);
    }
  }

  /** The encoder loses nothing: decoding its output gives back the bytes. */
  lemma {:induction false} DecodeEncode(s: seq<byte>)
    ensures Decode(Encode(s)) == Some(s)
    decreases |s|
  {
    if |s| == 0 {
    } else if |s| <= 2 {
      ShortRoundTrip(s);
    } else {
      DecodeEncode(s[3..]);
      QuantumStep(s);
    }
  }

  /** Different byte sequences never share an encoding. */
  lemma EncodeInjective(s: seq<byte>, u: seq<byte>)
    requires Encode(s) == Encode(u)
    ensures s == u
  {
    DecodeEncode(s);
    DecodeEncode(u);
  }
}
