/** The MessagePack formats byte by byte, as the MessagePack specification lists them: what is read for each code,
    stated without the tables that the parser works by.
  */
module MsgPackFormat {
  import opened Basics
  import opened MsgPack
  import opened TypeConversion
  import opened Packets

  // ---------------------------------------------------------------- lengths

  /** Lengths and numbers have their most significant byte first. */
  lemma BigEndianBytes(a: byte, b: byte, c: byte, d: byte)
    ensures FromBigEndian([a]) == a
    ensures FromBigEndian([a, b]) == Two(a, b)
    ensures FromBigEndian([a, b, c, d]) == Four(a, b, c, d)
  {
    assert [a][..0] == [] && [a, b][..1] == [a] && [a, b, c][..2] == [a, b] && [a, b, c, d][..3] == [a, b, c];
    assert FromBigEndian([a]) == a;
    assert FromBigEndian([a, b]) == FromBigEndian([a]) * 0x100 + b;
    assert FromBigEndian([a, b, c]) == FromBigEndian([a, b]) * 0x100 + c;
    assert FromBigEndian([a, b, c, d]) == FromBigEndian([a, b, c]) * 0x100 + d;
  }

  function Two(a: int, b: int): int { 0x100 * a + b }

  function Four(a: int, b: int, c: int, d: int): int { 0x100_0000 * a + 0x1_0000 * b + 0x100 * c + d }

  /** The length field of the given bytes says n. */
  predicate Says(field: seq<byte>, n: nat) {
    || (field == [] && n == 0)
    || (|field| == 1 && n == field[0])
    || (|field| == 2 && n == Two(field[0], field[1]))
    || (|field| == 4 && n == Four(field[0], field[1], field[2], field[3]))
  }

  lemma SaysRead(field: seq<byte>, n: nat)
    requires Says(field, n)
    ensures FromBigEndian(field) == n
  {
    if |field| == 1 {
      assert field == [field[0]];
      BigEndianBytes(field[0], 0, 0, 0);
    } else if |field| == 2 {
      assert field == [field[0], field[1]];
      BigEndianBytes(field[0], field[1], 0, 0);
    } else if |field| == 4 {
      assert field == [field[0], field[1], field[2], field[3]];
      BigEndianBytes(field[0], field[1], field[2], field[3]);
    }
  }

  /** Reading a code, a length field and a body of the sizes that belong to the code. */
  lemma ReadParts(code: byte, field: seq<byte>, n: nat, body: seq<byte>, rest: seq<byte>)
    requires code != 0xc1 && Says(field, n) && |field| == LenWidth(code) && |body| == BodySize(code, n)
    ensures LexToken([code] + field + body + rest) == Some((Token(code, n, body), rest))
  {
    SaysRead(field, n);
    SlicesOfJoin(code, field, body, rest);
  }

  // ---------------------------------------------------------------- scalars

  /** The formats without a length: the code and the number of bytes that follow it. */
  predicate FixedFormat(code: byte, size: nat) {
    || (size == 0 && (code < 0x80 || code >= 0xe0 || code == 0xc0 || code == 0xc2 || code == 0xc3))
    || (size == 1 && (code == 0xcc || code == 0xd0))                    // uint 8, int 8
    || (size == 2 && (code == 0xcd || code == 0xd1))                    // uint 16, int 16
    || (size == 4 && (code == 0xce || code == 0xd2 || code == 0xca))    // uint 32, int 32, float 32
    || (size == 8 && (code == 0xcf || code == 0xd3 || code == 0xcb))    // uint 64, int 64, float 64
    || (size < 32 && code == 0xa0 + size)                               // fixstr
    || (code == 0xd4 && size == 1 + 1) || (code == 0xd5 && size == 1 + 2) || (code == 0xd6 && size == 1 + 4)
    || (code == 0xd7 && size == 1 + 8) || (code == 0xd8 && size == 1 + 16)  // fixext: a type byte and the data
  }

  /** The formats with a length: the code, the width of the length field and the bytes beside the announced ones. */
  predicate SizedFormat(code: byte, width: nat, extra: nat) {
    || (extra == 0 && ((code == 0xc4 && width == 1) || (code == 0xc5 && width == 2) || (code == 0xc6 && width == 4)))
    || (extra == 0 && ((code == 0xd9 && width == 1) || (code == 0xda && width == 2) || (code == 0xdb && width == 4)))
    || (extra == 1 && ((code == 0xc7 && width == 1) || (code == 0xc8 && width == 2) || (code == 0xc9 && width == 4)))
  }

  /** A scalar without a length takes exactly the bytes of its format. */
  lemma FixedRead(code: byte, body: seq<byte>, rest: seq<byte>)
    requires FixedFormat(code, |body|)
    ensures LexToken([code] + body + rest) == Some((Token(code, 0, body), rest))
    ensures Parse([code] + body + rest, 1) == Some(([Scalar(Token(code, 0, body))], rest))
    ensures !IsArrayCode(code)
  {
    ReadParts(code, [], 0, body, rest);
    assert [code] + [] + body + rest == [code] + body + rest;
    LeafRead([code] + body + rest, Token(code, 0, body), rest);
  }

  /** A scalar with a length takes exactly as many bytes as it announces; an extension one more for its type. */
  lemma SizedRead(code: byte, field: seq<byte>, n: nat, extra: nat, body: seq<byte>, rest: seq<byte>)
    requires SizedFormat(code, |field|, extra) && Says(field, n) && |body| == n + extra
    ensures LexToken([code] + field + body + rest) == Some((Token(code, n, body), rest))
    ensures Parse([code] + field + body + rest, 1) == Some(([Scalar(Token(code, n, body))], rest))
    ensures !IsArrayCode(code)
  {
    ReadParts(code, field, n, body, rest);
    LeafRead([code] + field + body + rest, Token(code, n, body), rest);
  }

  lemma LeafRead(s: seq<byte>, t: Token, rest: seq<byte>)
    requires LexToken(s) == Some((t, rest)) && t.Children() == 0
    ensures Parse(s, 1) == Some(([Scalar(t)], rest))
  {
    assert [Scalar(t)] + [] == [Scalar(t)];
  }

  /** The one unused code is never read. */
  lemma UnusedCode(rest: seq<byte>)
    ensures LexToken([0xc1] + rest) == None
  {
  }

  // ---------------------------------------------------------------- arrays and maps

  /** The array headers: the code and the length field for n elements. */
  predicate ArrayFormat(code: byte, field: seq<byte>, n: nat) {
    || (n < 16 && code == 0x90 + n && field == [])
    || (code == 0xdc && |field| == 2 && Says(field, n))
    || (code == 0xdd && |field| == 4 && Says(field, n))
  }

  /** The map headers: the code and the length field for n pairs. */
  predicate MapFormat(code: byte, field: seq<byte>, n: nat) {
    || (n < 16 && code == 0x80 + n && field == [])
    || (code == 0xde && |field| == 2 && Says(field, n))
    || (code == 0xdf && |field| == 4 && Says(field, n))
  }

  lemma HeaderRead(code: byte, field: seq<byte>, n: nat, kids: seq<Value>, rest: seq<byte>)
    requires code != 0xc1 && Says(field, n) && |field| == LenWidth(code) && BodySize(code, n) == 0
    requires WellFormed(kids) && |kids| == Arity(code, n)
    ensures Parse([code] + field + EncodeAll(kids) + rest, 1) == Some(([Node(Token(code, n, []), kids)], rest))
  {
    var t, tail := Token(code, n, []), EncodeAll(kids) + rest;
    ReadParts(code, field, n, [], tail);
    assert [code] + field + [] + tail == [code] + field + EncodeAll(kids) + rest;
    ParseInvertsEncode(kids, rest);
    assert [Node(t, kids)] + [] == [Node(t, kids)];
  }

  /** An array of n elements is its header and n values, and nothing more. */
  lemma ArrayRead(code: byte, field: seq<byte>, n: nat, kids: seq<Value>, rest: seq<byte>) returns (t: Token)
    requires ArrayFormat(code, field, n) && WellFormed(kids) && |kids| == n
    ensures Parse([code] + field + EncodeAll(kids) + rest, 1) == Some(([Node(t, kids)], rest))
    ensures t.code == code && IsArrayCode(code)
  {
    t := Token(code, if field == [] then 0 else n, []);
    HeaderRead(code, field, t.len, kids, rest);
  }

  /** A map of n pairs is its header and 2 n values, and nothing more; it is not an array. */
  lemma MapRead(code: byte, field: seq<byte>, n: nat, kvs: seq<Value>, rest: seq<byte>) returns (t: Token)
    requires MapFormat(code, field, n) && WellFormed(kvs) && |kvs| == 2 * n
    ensures Parse([code] + field + EncodeAll(kvs) + rest, 1) == Some(([Node(t, kvs)], rest))
    ensures t.code == code && !IsArrayCode(code)
  {
    t := Token(code, if field == [] then 0 else n, []);
    HeaderRead(code, field, t.len, kvs, rest);
  }

  /** Every code belongs to one of these formats. */
  lemma EveryCode(code: byte)
    ensures || code == 0xc1 || (exists n :: FixedFormat(code, n)) || (exists w, x :: SizedFormat(code, w, x))
            || 0x80 <= code < 0xa0 || 0xdc <= code <= 0xdf
  {
    if 0xa0 <= code < 0xc0 {
      assert FixedFormat(code, code - 0xa0);
    } else if code == 0xc4 || code == 0xc5 || code == 0xc6 {
      assert SizedFormat(code, if code == 0xc4 then 1 else if code == 0xc5 then 2 else 4, 0);
    } else if code == 0xc7 || code == 0xc8 || code == 0xc9 {
      assert SizedFormat(code, if code == 0xc7 then 1 else if code == 0xc8 then 2 else 4, 1);
    } else if code == 0xd9 || code == 0xda || code == 0xdb {
      assert SizedFormat(code, if code == 0xd9 then 1 else if code == 0xda then 2 else 4, 0);
    } else if !(0x80 <= code < 0xa0) && !(0xdc <= code <= 0xdf) && code != 0xc1 {
      FixedSizes(code);
    }
  }

  lemma FixedSizes(code: byte)
    requires code < 0x80 || code >= 0xe0 || code == 0xc0 || code == 0xc2 || code == 0xc3
             || 0xca <= code <= 0xd8
    ensures exists n :: FixedFormat(code, n)
  {
    assert FixedFormat(code, 0) || FixedFormat(code, 1) || FixedFormat(code, 2) || FixedFormat(code, 3)
        || FixedFormat(code, 4) || FixedFormat(code, 5) || FixedFormat(code, 8) || FixedFormat(code, 9)
        || FixedFormat(code, 17);
  }

  // ---------------------------------------------------------------- what the values are

  /** A number as two's complement in k bytes: n itself, or n plus 256^k below zero. */
  function TwosComplement(n: int, k: nat): nat
    requires 0 <= n + Pow256(k) < 2 * Pow256(k)
  {
    if n >= 0 then n else n + Pow256(k)
  }

  /** The int formats give back the number they were made from. */
  lemma SignedRead(n: int, k: nat)
    requires k > 0 && 0 <= n + 128 * Pow256(k - 1) < 256 * Pow256(k - 1)
    ensures 0 <= n + Pow256(k) < 2 * Pow256(k) && Signed(BigEndian(TwosComplement(n, k), k)) == n
  {
    assert Pow256(k) == 256 * Pow256(k - 1);
    BigEndianRoundTrip(TwosComplement(n, k), k);
  }

  lemma IntFormat(code: byte, n: int, k: nat)
    requires (code == 0xd0 && k == 1) || (code == 0xd1 && k == 2) || (code == 0xd2 && k == 4)
             || (code == 0xd3 && k == 8)
    requires 0 <= n + 128 * Pow256(k - 1) < 256 * Pow256(k - 1)
    ensures 0 <= n + Pow256(k) < 2 * Pow256(k)
    ensures var g := Interface(Scalar(Token(code, 0, BigEndian(TwosComplement(n, k), k))));
            g.Number? && g.n == n
  {
    SignedRead(n, k);
  }

  /** Numbers, strings and array headers are written in the shortest of their formats. */
  lemma ShortestFormats(n: nat, text: seq<byte>, count: nat)
    requires n < TWO_64 && |text| < TWO_32 && count < TWO_32
    ensures |EncodeToken(UintToken(n))| ==
            if n < 0x80 then 1 else if n < 0x100 then 2 else if n < 0x1_0000 then 3 else if n < TWO_32 then 5 else 9
    ensures |EncodeToken(StringToken(text))| == |text| +
            if |text| < 32 then 1 else if |text| < 0x100 then 2 else if |text| < 0x1_0000 then 3 else 5
    ensures |EncodeToken(ArrayToken(count))| == if count < 16 then 1 else if count < 0x1_0000 then 3 else 5
  {
  }

  /** Small numbers are their own code: 0 to 127, and -32 to -1. */
  lemma FixIntFormat(n: int)
    requires -32 <= n < 128
    ensures var g := Interface(Scalar(Token(if n >= 0 then n else n + 0x100, 0, [])));
            g.Number? && g.n == n
  {
  }

  /** Only integers are numbers and only the str formats are strings: not nil, booleans, floats, bin, ext, arrays
      or maps. */
  lemma KindsOfValues(v: Value)
    ensures Interface(v).Number? <==>
            v.tok.code < 0x80 || v.tok.code >= 0xe0 || 0xcc <= v.tok.code <= 0xd3
    ensures Interface(v).Text? <==> 0xa0 <= v.tok.code < 0xc0 || 0xd9 <= v.tok.code <= 0xdb
    ensures Interface(v).Text? ==> Interface(v).s == v.tok.body
  {
  }
}
