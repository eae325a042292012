/** Standard padded Base64 (base64.StdEncoding of Go), as section 4 of
    RFC 4648 defines it: each group of three bytes becomes four symbols of
    the 64-character alphabet, and a final group of one or two bytes is
    padded with "=". The decoder is the inverse the round trip is proved
    against. */
module Base64 {
  import opened Wrappers
  import opened Fs

  /** Table 1 of RFC 4648: A-Z, a-z, 0-9, '+', '/'. */
  function Symbol(i: nat): (c: char)
    requires i < 64
  {
    if i < 26 then ('A' as int + i) as char
    else if i < 52 then ('a' as int + (i - 26)) as char
    else if i < 62 then ('0' as int + (i - 52)) as char
    else if i == 62 then '+'
    else '/'
  }

  const Pad := '='

  /** The value of an alphabet character. */
  function Index(c: char): (r: Option<nat>)
    ensures r.Some? ==> r.value < 64
  {
    if 'A' <= c <= 'Z' then Some(c as int - 'A' as int)
    else if 'a' <= c <= 'z' then Some(c as int - 'a' as int + 26)
    else if '0' <= c <= '9' then Some(c as int - '0' as int + 52)
    else if c == '+' then Some(62)
    else if c == '/' then Some(63)
    else None
  }

  predicate InAlphabet(c: char) {
    Index(c).Some?
  }

  /** The alphabet is a bijection between 0..63 and its characters, and
      the pad character is not one of them. */
  lemma SymbolIndex(i: nat)
    requires i < 64
    ensures Index(Symbol(i)) == Some(i)
  {
  }

  lemma IndexSymbol(c: char)
    requires InAlphabet(c)
    ensures Symbol(Index(c).value) == c
  {
  }

  lemma PadNotInAlphabet()
    ensures !InAlphabet(Pad)
  {
  }

  /** Three bytes to four symbols: the 24 bits read six at a time. */
  function Quad(a: byte, b: byte, c: byte): (r: string)
    ensures |r| == 4 && forall k :: 0 <= k < 4 ==> InAlphabet(r[k])
  {
    var s := [Symbol(a as nat / 4), Symbol((a as nat % 4) * 16 + b as nat / 16),
      Symbol((b as nat % 16) * 4 + c as nat / 64), Symbol(c as nat % 64)];
    SymbolIndex(a as nat / 4);
    SymbolIndex((a as nat % 4) * 16 + b as nat / 16);
    SymbolIndex((b as nat % 16) * 4 + c as nat / 64);
    SymbolIndex(c as nat % 64);
    s
  }

  /** A final group of one byte: two symbols and two pads. */
  function Tail1(a: byte): (r: string)
    ensures |r| == 4 && InAlphabet(r[0]) && InAlphabet(r[1]) && r[2] == Pad && r[3] == Pad
  {
    SymbolIndex(a as nat / 4);
    SymbolIndex((a as nat % 4) * 16);
    [Symbol(a as nat / 4), Symbol((a as nat % 4) * 16), Pad, Pad]
  }

  /** A final group of two bytes: three symbols and one pad. */
  function Tail2(a: byte, b: byte): (r: string)
    ensures |r| == 4 && InAlphabet(r[0]) && InAlphabet(r[1]) && InAlphabet(r[2]) && r[3] == Pad
  {
    SymbolIndex(a as nat / 4);
    SymbolIndex((a as nat % 4) * 16 + b as nat / 16);
    SymbolIndex((b as nat % 16) * 4);
    [Symbol(a as nat / 4), Symbol((a as nat % 4) * 16 + b as nat / 16), Symbol((b as nat % 16) * 4), Pad]
  }

  /** base64.StdEncoding.EncodeToString */
  function Encode(data: seq<byte>): (r: string)
    ensures |r| == 4 * ((|data| + 2) / 3)
    ensures forall k :: 0 <= k < |r| ==> InAlphabet(r[k]) || r[k] == Pad
    ensures forall k :: 0 <= k < |r| && r[k] == Pad ==> k >= |r| - 2
    decreases |data|
  {
    if |data| == 0 then ""
    else if |data| == 1 then Tail1(data[0])
    else if |data| == 2 then Tail2(data[0], data[1])
    else
      var head, rest := Quad(data[0], data[1], data[2]), Encode(data[3..]);
      PadNotInAlphabet();
      assert forall k :: 4 <= k < |head + rest| ==> (head + rest)[k] == rest[k - 4];
      head + rest
  }

  /** Four symbols of a full group back to three bytes. */
  function DecodeQuad(s: string): (r: Option<seq<byte>>)
    requires |s| == 4
  {
    var i0, i1, i2, i3 := Index(s[0]), Index(s[1]), Index(s[2]), Index(s[3]);
    if i0.None? || i1.None? then None
    else if s[2] == Pad && s[3] == Pad then
      if i1.value % 16 != 0 then None
      else Some([(i0.value * 4 + i1.value / 16) as byte])
    else if i2.None? then None
    else if s[3] == Pad then
      if i2.value % 4 != 0 then None
      else Some([(i0.value * 4 + i1.value / 16) as byte, ((i1.value % 16) * 16 + i2.value / 4) as byte])
    else if i3.None? then None
    else Some([(i0.value * 4 + i1.value / 16) as byte, ((i1.value % 16) * 16 + i2.value / 4) as byte,
      ((i2.value % 4) * 64 + i3.value) as byte])
  }

  /** The strict inverse of Encode used for the round trip: groups of
      four, padding in the last group only, and the unused low bits of a
      padded group required to be zero, as base64.StdEncoding.Strict()
      demands. The non-strict decoder of the server would also accept
      non-zero trailing bits. */
  function Decode(s: string): (r: Option<seq<byte>>)
    decreases |s|
  {
    if s == "" then Some([])
    else if |s| < 4 then None
    else
      match DecodeQuad(s[..4])
      case None => None
      case Some(bytes) =>
        if |bytes| < 3 then (if |s| == 4 then Some(bytes) else None)
        else match Decode(s[4..])
          case None => None
          case Some(rest) => Some(bytes + rest)
  }

  /** Division by a constant undoes a multiplication plus a smaller
      remainder. */
  lemma DivBy(q: nat, r: nat, d: nat)
    requires d in {4, 16, 64} && r < d
    ensures (q * d + r) / d == q && (q * d + r) % d == r
  {
    if d == 4 {
      assert (q * 4 + r) / 4 == q;
    } else if d == 16 {
      assert (q * 16 + r) / 16 == q;
    } else {
      assert (q * 64 + r) / 64 == q;
    }
  }

  lemma QuadRoundTrip(a: byte, b: byte, c: byte)
    ensures DecodeQuad(Quad(a, b, c)) == Some([a, b, c])
  {
    var x, y, z := a as nat, b as nat, c as nat;
    var i0, i1, i2, i3 := x / 4, (x % 4) * 16 + y / 16, (y % 16) * 4 + z / 64, z % 64;
    SymbolIndex(i0);
    SymbolIndex(i1);
    SymbolIndex(i2);
    SymbolIndex(i3);
    DivBy(x % 4, y / 16, 16);
    DivBy(y % 16, z / 64, 4);
    assert i0 * 4 + i1 / 16 == x;
    assert (i1 % 16) * 16 + i2 / 4 == y;
    assert (i2 % 4) * 64 + i3 == z;
    PadNotInAlphabet();
  }

  lemma TailRoundTrip(a: byte, b: byte)
    ensures DecodeQuad(Tail1(a)) == Some([a])
    ensures DecodeQuad(Tail2(a, b)) == Some([a, b])
  {
    var x, y := a as nat, b as nat;
    SymbolIndex(x / 4);
    SymbolIndex((x % 4) * 16);
    SymbolIndex((x % 4) * 16 + y / 16);
    SymbolIndex((y % 16) * 4);
    DivBy(x % 4, 0, 16);
    DivBy(x % 4, y / 16, 16);
    DivBy(y % 16, 0, 4);
    PadNotInAlphabet();
  }

  /** A full group in front decodes to its three bytes in front. */
  lemma DecodeFullGroup(head: string, bytes: seq<byte>, rest: string)
    requires |head| == 4 && DecodeQuad(head) == Some(bytes) && |bytes| == 3
    ensures Decode(head + rest) == match Decode(rest)
      case None => None
      case Some(more) => Some(bytes + more)
  {
    assert (head + rest)[..4] == head;
    assert (head + rest)[4..] == rest;
  }

  /** A final group with padding decodes on its own. */
  lemma DecodeLastGroup(s: string, bytes: seq<byte>)
    requires |s| == 4 && DecodeQuad(s) == Some(bytes) && |bytes| < 3
    ensures Decode(s) == Some(bytes)
  {
    assert s[..4] == s;
  }

  /** Decoding undoes encoding. */
  lemma {:induction false} RoundTrip(data: seq<byte>)
    ensures Decode(Encode(data)) == Some(data)
    decreases |data|
  {
    if |data| == 1 {
      TailRoundTrip(data[0], 0);
      DecodeLastGroup(Tail1(data[0]), [data[0]]);
      assert Encode(data) == Tail1(data[0]);
      assert data == [data[0]];
    } else if |data| == 2 {
      TailRoundTrip(data[0], data[1]);
      DecodeLastGroup(Tail2(data[0], data[1]), [data[0], data[1]]);
      assert Encode(data) == Tail2(data[0], data[1]);
      assert data == [data[0], data[1]];
    } else if |data| >= 3 {
      QuadRoundTrip(data[0], data[1], data[2]);
      RoundTrip(data[3..]);
      DecodeFullGroup(Quad(data[0], data[1], data[2]), [data[0], data[1], data[2]], Encode(data[3..]));
      assert data == [data[0], data[1], data[2]] + data[3..];
    }
  }

  /** The data URL analyze_screenshot answers with (section 3 of RFC
      2397): media type image/jpeg, base64 encoding, then the data. */
  const JpegDataUrlPrefix := "data:image/jpeg;base64,"

  function DataUrl(data: seq<byte>): (r: string)
    ensures |r| == |JpegDataUrlPrefix| + 4 * ((|data| + 2) / 3)
    ensures r[..|JpegDataUrlPrefix|] == JpegDataUrlPrefix
    ensures Decode(r[|JpegDataUrlPrefix|..]) == Some(data)
  {
    var r := JpegDataUrlPrefix + Encode(data);
    assert r[|JpegDataUrlPrefix|..] == Encode(data);
    RoundTrip(data);
    r
  }
}
