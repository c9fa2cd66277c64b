/** The percent-encoding of sections 2.1 and 2.3 of RFC 3986. */
module UriCodec {
  import opened Options
  import opened Bytes

  predicate IsUnreserved(b: byte) {
    'A' <= b <= 'Z' || 'a' <= b <= 'z' || '0' <= b <= '9' || b == '-' || b == '_' || b == '.' || b == '~'
  }

  /** Whether a byte is copied as it is. */
  predicate IsKept(b: byte, encodeSlash: bool) {
    IsUnreserved(b) || (b == '/' && !encodeSlash)
  }

  function HexDigit(n: nat): byte
    requires n < 16
  {
    if n < 10 then ('0' as int + n) as char else ('A' as int + n - 10) as char
  }

  /** The value of a hexadecimal digit in either case. */
  function HexValue(b: byte): Option<nat> {
    if '0' <= b <= '9' then Some(b as int - '0' as int)
    else if 'A' <= b <= 'F' then Some(b as int - 'A' as int + 10)
    else if 'a' <= b <= 'f' then Some(b as int - 'a' as int + 10)
    else None
  }

  function EncodeByte(b: byte, encodeSlash: bool): bytes {
    if IsKept(b, encodeSlash) then [b] else ['%', HexDigit(b as int / 16), HexDigit(b as int % 16)]
  }

  function Encode(s: bytes, encodeSlash: bool): bytes {
    if s == [] then [] else EncodeByte(s[0], encodeSlash) + Encode(s[1..], encodeSlash)
  }

  /** Percent-decoding; None for a percent sign without two hexadecimal digits after it. */
  function Decode(s: bytes): Option<bytes> {
    if s == [] then Some([])
    else if s[0] != '%' then
      match Decode(s[1..])
      case None => None
      case Some(rest) => Some([s[0]] + rest)
    else if |s| < 3 || HexValue(s[1]) == None || HexValue(s[2]) == None then None
    else
      match Decode(s[3..])
      case None => None
      case Some(rest) => Some([ByteOf(HexValue(s[1]).value, HexValue(s[2]).value)] + rest)
  }

  function ByteOf(high: nat, low: nat): byte {
    ((high % 16) * 16 + low % 16) as char
  }

  /** The shape of encoded text: unreserved bytes, kept slashes, and upper-case triples of other bytes. */
  predicate IsEncoded(s: bytes, encodeSlash: bool) {
    s == []
    || (IsKept(s[0], encodeSlash) && IsEncoded(s[1..], encodeSlash))
    || (|s| >= 3 && IsTriple(s[..3], encodeSlash) && IsEncoded(s[3..], encodeSlash))
  }

  predicate IsUpperHex(b: byte) {
    '0' <= b <= '9' || 'A' <= b <= 'F'
  }

  /** `%XX` in upper case, for a byte that is not copied as it is. */
  predicate IsTriple(s: bytes, encodeSlash: bool)
    requires |s| == 3
  {
    && s[0] == '%' && IsUpperHex(s[1]) && IsUpperHex(s[2])
    && !IsKept(ByteOf(HexValue(s[1]).value, HexValue(s[2]).value), encodeSlash)
  }

  // ---------------------------------------------------------------- its laws

  lemma DecodeEncodedByte(b: byte, encodeSlash: bool, rest: bytes)
    ensures Decode(EncodeByte(b, encodeSlash) + rest)
         == match Decode(rest) case None => None case Some(r) => Some([b] + r)
  {
    var e := EncodeByte(b, encodeSlash) + rest;
    if IsKept(b, encodeSlash) {
      assert e[1..] == rest;
    } else {
      assert e[3..] == rest;
      assert ByteOf(b as int / 16, b as int % 16) == b;
    }
  }

  /** Percent-decoding undoes the encoding, for either treatment of slashes. */
  lemma {:induction false} DecodeEncode(s: bytes, encodeSlash: bool)
    ensures Decode(Encode(s, encodeSlash)) == Some(s)
  {
    if s == [] {
    } else {
      DecodeEncode(s[1..], encodeSlash);
      DecodeEncodedByte(s[0], encodeSlash, Encode(s[1..], encodeSlash));
      assert [s[0]] + s[1..] == s;
    }
  }

  lemma EncodeInjective(s: bytes, t: bytes, encodeSlash: bool)
    requires Encode(s, encodeSlash) == Encode(t, encodeSlash)
    ensures s == t
  {
    DecodeEncode(s, encodeSlash);
    DecodeEncode(t, encodeSlash);
  }

  /** Encoding distributes over concatenation. */
  lemma {:induction false} EncodeConcat(s: bytes, t: bytes, encodeSlash: bool)
    ensures Encode(s + t, encodeSlash) == Encode(s, encodeSlash) + Encode(t, encodeSlash)
  {
    if s == [] {
      assert s + t == t;
    } else {
      var head, tail := EncodeByte(s[0], encodeSlash), Encode(s[1..], encodeSlash);
      EncodeConcat(s[1..], t, encodeSlash);
      assert (s + t)[0] == s[0] && (s + t)[1..] == s[1..] + t;
      Associative(head, tail, Encode(t, encodeSlash));
    }
  }

  lemma Associative(a: bytes, b: bytes, c: bytes)
    ensures (a + b) + c == a + (b + c)
  {
  }

  lemma EncodedByteIsEncoded(b: byte, encodeSlash: bool, rest: bytes)
    requires IsEncoded(rest, encodeSlash)
    ensures IsEncoded(EncodeByte(b, encodeSlash) + rest, encodeSlash)
  {
    var e := EncodeByte(b, encodeSlash) + rest;
    if IsKept(b, encodeSlash) {
      assert e[1..] == rest;
    } else {
      assert e[3..] == rest;
      assert e[..3] == EncodeByte(b, encodeSlash);
      assert ByteOf(b as int / 16, b as int % 16) == b;
    }
  }

  /** Every encoding has the encoded shape. */
  lemma {:induction false} EncodeHasShape(s: bytes, encodeSlash: bool)
    ensures IsEncoded(Encode(s, encodeSlash), encodeSlash)
  {
    if s == [] {
    } else {
      EncodeHasShape(s[1..], encodeSlash);
      EncodedByteIsEncoded(s[0], encodeSlash, Encode(s[1..], encodeSlash));
    }
  }

  /** Conversely, a text of that shape is an encoding, namely of its own decoding. */
  lemma {:induction false} ShapeIsEncoded(e: bytes, encodeSlash: bool)
    requires IsEncoded(e, encodeSlash)
    ensures Decode(e).Some? && Encode(Decode(e).value, encodeSlash) == e
    decreases |e|
  {
    if e == [] {
    } else if IsKept(e[0], encodeSlash) && IsEncoded(e[1..], encodeSlash) {
      ShapeIsEncoded(e[1..], encodeSlash);
      assert Decode(e).value[1..] == Decode(e[1..]).value;
    } else {
      ShapeIsEncoded(e[3..], encodeSlash);
      TripleOfByte(e[..3], encodeSlash);
      assert Decode(e).value[1..] == Decode(e[3..]).value;
      assert e == e[..3] + e[3..];
    }
  }

  lemma HalvesOfByte(high: nat, low: nat)
    requires high < 16 && low < 16
    ensures ByteOf(high, low) as int / 16 == high && ByteOf(high, low) as int % 16 == low
  {
  }

  lemma TripleOfByte(t: bytes, encodeSlash: bool)
    requires |t| == 3 && IsTriple(t, encodeSlash)
    ensures EncodeByte(ByteOf(HexValue(t[1]).value, HexValue(t[2]).value), encodeSlash) == t
  {
    var high, low := HexValue(t[1]).value, HexValue(t[2]).value;
    assert HexDigit(high) == t[1] && HexDigit(low) == t[2];
    HalvesOfByte(high, low);
  }

  /** None of the separators used around encoded text occurs in it. */
  lemma {:induction false} EncodeAvoids(s: bytes, encodeSlash: bool, c: byte)
    requires c != '%' && !IsKept(c, encodeSlash)
    ensures c !in Encode(s, encodeSlash)
  {
    if s == [] {
    } else {
      EncodeAvoids(s[1..], encodeSlash, c);
      assert c !in EncodeByte(s[0], encodeSlash);
    }
  }

  // ---------------------------------------------------------------- the alphabet, spelled out

  /** The unreserved characters of section 2.3 of RFC 3986: letters, digits, and four marks. */
  predicate IsUnreservedCharacter(b: byte) {
    || b in "ABCDEFGHIJKLM" || b in "NOPQRSTUVWXYZ"
    || b in "abcdefghijklm" || b in "nopqrstuvwxyz"
    || b in "0123456789"
    || b in "-._~"
  }

  lemma UpperAtoM(b: byte)
    ensures b in "ABCDEFGHIJKLM" <==> 'A' <= b <= 'M'
  {
    if 'A' <= b <= 'M' {
      assert "ABCDEFGHIJKLM"[b as int - 'A' as int] == b;
    }
  }

  lemma UpperNtoZ(b: byte)
    ensures b in "NOPQRSTUVWXYZ" <==> 'N' <= b <= 'Z'
  {
    if 'N' <= b <= 'Z' {
      assert "NOPQRSTUVWXYZ"[b as int - 'N' as int] == b;
    }
  }

  lemma LowerAtoM(b: byte)
    ensures b in "abcdefghijklm" <==> 'a' <= b <= 'm'
  {
    if 'a' <= b <= 'm' {
      assert "abcdefghijklm"[b as int - 'a' as int] == b;
    }
  }

  lemma LowerNtoZ(b: byte)
    ensures b in "nopqrstuvwxyz" <==> 'n' <= b <= 'z'
  {
    if 'n' <= b <= 'z' {
      assert "nopqrstuvwxyz"[b as int - 'n' as int] == b;
    }
  }

  lemma DecimalSpelledOut(b: byte)
    ensures b in "0123456789" <==> '0' <= b <= '9'
  {
    if '0' <= b <= '9' {
      assert "0123456789"[b as int - '0' as int] == b;
    }
  }

  lemma MarksSpelledOut(b: byte)
    ensures b in "-._~" <==> b == '-' || b == '.' || b == '_' || b == '~'
  {
    assert "-._~"[0] == '-' && "-._~"[1] == '.' && "-._~"[2] == '_' && "-._~"[3] == '~';
  }

  lemma DigitSpelledOut(n: nat)
    requires n < 16
    ensures HexDigit(n) == "0123456789ABCDEF"[n]
  {
  }

  /**
    A byte is copied exactly if it is one of the unreserved characters of section 2.3 of RFC 3986, or
    a slash that is to be kept; any other becomes a percent sign and two upper-case digits.
   */
  lemma EncodeOneByte(b: byte, encodeSlash: bool)
    ensures Encode([b], encodeSlash)
         == if IsUnreservedCharacter(b) || (b == '/' && !encodeSlash)
            then [b]
            else ['%', "0123456789ABCDEF"[b as int / 16], "0123456789ABCDEF"[b as int % 16]]
  {
    UpperAtoM(b);
    UpperNtoZ(b);
    LowerAtoM(b);
    LowerNtoZ(b);
    DecimalSpelledOut(b);
    MarksSpelledOut(b);
    DigitSpelledOut(b as int / 16);
    DigitSpelledOut(b as int % 16);
    assert Encode([b], encodeSlash) == EncodeByte(b, encodeSlash) + Encode([], encodeSlash);
  }

  // ---------------------------------------------------------------- the loop

  lemma EncodeOneMore(s: bytes, i: nat, encodeSlash: bool)
    requires i < |s|
    ensures Encode(s[..i + 1], encodeSlash) == Encode(s[..i], encodeSlash) + EncodeByte(s[i], encodeSlash)
  {
    EncodeConcat(s[..i], [s[i]], encodeSlash);
    assert s[..i + 1] == s[..i] + [s[i]];
    assert Encode([s[i]], encodeSlash) == EncodeByte(s[i], encodeSlash);
  }

  /** util.UriEncode: one pass over the bytes, appending to a buffer. */
  method UriEncode(uri: bytes, encodeSlash: bool) returns (buffer: bytes)
    ensures buffer == Encode(uri, encodeSlash)
  {
    buffer := [];
    for i := 0 to |uri|
      invariant buffer == Encode(uri[..i], encodeSlash)
    {
      var b := uri[i];
      EncodeOneMore(uri, i, encodeSlash);
      if ('A' <= b && b <= 'Z') || ('a' <= b && b <= 'z') || ('0' <= b && b <= '9') ||
         b == '-' || b == '_' || b == '.' || b == '~' || (b == '/' && !encodeSlash) {
        buffer := buffer + [b];
      } else {
        buffer := buffer + ['%', HexDigit(b as int / 16), HexDigit(b as int % 16)];
      }
    }
    assert uri[..|uri|] == uri;
  }
}
