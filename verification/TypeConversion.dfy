/** What the MessagePack library hands to Go for a scalar, and the two integer conversions. */
module TypeConversion {
  import opened Basics
  import opened MsgPack

  datatype Kind = Int | Int8 | Int16 | Int32 | Int64 | Uint | Uint8 | Uint16 | Uint32 | Uint64

  /** A Go `any`: a number of some kind, a string, or anything else. */
  datatype GoValue = Number(kind: Kind, n: int) | Text(s: seq<byte>) | Other(v: Value)

  const MAX_INT64: int := 0x7fff_ffff_ffff_ffff
  const TWO_64: int := 0x1_0000_0000_0000_0000

  predicate InRange(kind: Kind, n: int) {
    match kind
    case Int8 => -0x80 <= n < 0x80
    case Int16 => -0x8000 <= n < 0x8000
    case Int32 => -0x8000_0000 <= n < 0x8000_0000
    case Int | Int64 => -MAX_INT64 - 1 <= n <= MAX_INT64
    case Uint8 => 0 <= n < 0x100
    case Uint16 => 0 <= n < 0x1_0000
    case Uint32 => 0 <= n < TWO_32
    case Uint | Uint64 => 0 <= n < TWO_64
  }

  predicate Representable(g: GoValue) {
    g.Number? ==> InRange(g.kind, g.n)
  }

  /** A conversion succeeds exactly on the numbers that fit an int, and never changes the number. */
  function ToInt(g: GoValue): (r: Option<int>)
    requires Representable(g)
    ensures r.Some? <==> g.Number? && InRange(Int, g.n)
    ensures r.Some? ==> r.value == g.n
  {
    match g
    case Number(kind, n) =>
      (match kind
       case Uint | Uint64 => if n > MAX_INT64 then None else Some(n)
       case _ => Some(n))
    case _ => None
  }

  /** A conversion succeeds exactly on the non-negative numbers, and never changes the number. */
  function ToUint(g: GoValue): (r: Option<nat>)
    requires Representable(g)
    ensures r.Some? <==> g.Number? && InRange(Uint, g.n)
    ensures r.Some? ==> r.value == g.n
  {
    match g
    case Number(kind, n) =>
      (match kind
       case Int | Int8 | Int16 | Int32 | Int64 => if n < 0 then None else Some(n)
       case _ => Some(n))
    case _ => None
  }

  // ---------------------------------------------------------------- scalars as Go values

  /** Two's complement. */
  function Signed(s: seq<byte>): int {
    var n, half := FromBigEndian(s), if s == [] then 1 else 128 * Pow256(|s| - 1);
    if n < half then n else n - 2 * half
  }

  predicate IsStringCode(code: byte) {
    0xa0 <= code < 0xc0 || code == 0xd9 || code == 0xda || code == 0xdb
  }

  /** The Go value that decoding into an `any` yields. */
  function Interface(v: Value): GoValue {
    var Token(code, _, body) := v.tok;
    if code < 0x80 then Number(Int8, code)
    else if code >= 0xe0 then Number(Int8, code - 0x100)
    else if code == 0xcc then Number(Uint8, FromBigEndian(body))
    else if code == 0xcd then Number(Uint16, FromBigEndian(body))
    else if code == 0xce then Number(Uint32, FromBigEndian(body))
    else if code == 0xcf then Number(Uint64, FromBigEndian(body))
    else if code == 0xd0 then Number(Int8, Signed(body))
    else if code == 0xd1 then Number(Int16, Signed(body))
    else if code == 0xd2 then Number(Int32, Signed(body))
    else if code == 0xd3 then Number(Int64, Signed(body))
    else if IsStringCode(code) then Text(body)
    else Other(v)
  }

  lemma Powers()
    ensures Pow256(1) == 0x100 && Pow256(2) == 0x1_0000
    ensures Pow256(4) == TWO_32 && Pow256(8) == TWO_64
  {
    assert Pow256(3) == 0x100_0000;
    assert Pow256(5) == 0x100_0000_0000;
    assert Pow256(6) == 0x1_0000_0000_0000;
    assert Pow256(7) == 0x100_0000_0000_0000;
  }

  lemma SignedInRange(s: seq<byte>)
    requires s != []
    ensures -128 * Pow256(|s| - 1) <= Signed(s) < 128 * Pow256(|s| - 1)
  {
    FromBigEndianRoundTrip(s);
  }

  /** Whatever arrives on the wire, the number Go sees fits the Go type it has. */
  lemma InterfaceRepresentable(v: Value)
    requires v.tok.Valid()
    ensures Representable(Interface(v))
  {
    var body := v.tok.body;
    if 0xcc <= v.tok.code <= 0xcf {
      UnsignedBounds(body);
    } else if 0xd0 <= v.tok.code <= 0xd3 {
      SignedBounds(body);
    }
  }

  lemma UnsignedBounds(s: seq<byte>)
    ensures |s| == 1 ==> FromBigEndian(s) < 0x100
    ensures |s| == 2 ==> FromBigEndian(s) < 0x1_0000
    ensures |s| == 4 ==> FromBigEndian(s) < TWO_32
    ensures |s| == 8 ==> FromBigEndian(s) < TWO_64
  {
    Powers();
    FromBigEndianRoundTrip(s);
  }

  lemma SignedBounds(s: seq<byte>)
    ensures |s| == 1 ==> -0x80 <= Signed(s) < 0x80
    ensures |s| == 2 ==> -0x8000 <= Signed(s) < 0x8000
    ensures |s| == 4 ==> -0x8000_0000 <= Signed(s) < 0x8000_0000
    ensures |s| == 8 ==> -MAX_INT64 - 1 <= Signed(s) <= MAX_INT64
  {
    if s != [] {
      SignedInRange(s);
      assert Pow256(0) == 1 && Pow256(1) == 0x100 && Pow256(3) == 0x100_0000 && Pow256(7) == 0x100_0000_0000_0000;
    }
  }

  // ---------------------------------------------------------------- the encoder's choices

  function Scalar(t: Token): Value { Node(t, []) }

  /** Unsigned numbers in the shortest format (compact integers are switched on). */
  function UintToken(n: nat): Token
    requires n < TWO_64
  {
    if n < 0x80 then Token(n, 0, [])
    else if n < 0x100 then Token(0xcc, 0, BigEndian(n, 1))
    else if n < 0x1_0000 then Token(0xcd, 0, BigEndian(n, 2))
    else if n < TWO_32 then Token(0xce, 0, BigEndian(n, 4))
    else Token(0xcf, 0, BigEndian(n, 8))
  }

  const NIL_TOKEN := Token(0xc0, 0, [])

  function StringToken(s: seq<byte>): Token
    requires |s| < TWO_32
  {
    if |s| < 32 then Token(0xa0 + |s|, 0, s)
    else Token(if |s| < 0x100 then 0xd9 else if |s| < 0x1_0000 then 0xda else 0xdb, |s|, s)
  }

  function ArrayToken(n: nat): Token
    requires n < TWO_32
  {
    if n < 16 then Token(0x90 + n, 0, []) else Token(if n < 0x1_0000 then 0xdc else 0xdd, n, [])
  }

  /** The encoder's number comes back as the same number, in at most nine bytes. */
  lemma UintRoundTrip(n: nat)
    requires n < TWO_64
    ensures UintToken(n).Valid() && UintToken(n).Children() == 0
    ensures Interface(Scalar(UintToken(n))).Number? && Interface(Scalar(UintToken(n))).n == n
    ensures |EncodeToken(UintToken(n))| <= 9
  {
    Powers();
    if n < 0x80 {
    } else if n < 0x100 {
      UintFormat(0xcc, 1, n);
    } else if n < 0x1_0000 {
      UintFormat(0xcd, 2, n);
    } else if n < TWO_32 {
      UintFormat(0xce, 4, n);
    } else {
      UintFormat(0xcf, 8, n);
    }
  }

  lemma UintFormat(code: byte, w: nat, n: nat)
    requires 0xcc <= code <= 0xcf && w == BodySize(code, 0) && n < Pow256(w)
    ensures var t := Token(code, 0, BigEndian(n, w));
            && t.Valid() && t.Children() == 0 && |EncodeToken(t)| == 1 + w
            && Interface(Scalar(t)).Number? && Interface(Scalar(t)).n == n
  {
    BigEndianRoundTrip(n, w);
    UintRead(code, BigEndian(n, w));
  }

  lemma UintRead(code: byte, body: seq<byte>)
    requires 0xcc <= code <= 0xcf && |body| == BodySize(code, 0)
    ensures var t := Token(code, 0, body);
            && t.Valid() && t.Children() == 0 && |EncodeToken(t)| == 1 + |body|
            && Interface(Scalar(t)).Number? && Interface(Scalar(t)).n == FromBigEndian(body)
  {
  }

  lemma StringRoundTrip(s: seq<byte>)
    requires |s| < TWO_32
    ensures StringToken(s).Valid() && StringToken(s).Children() == 0
    ensures Interface(Scalar(StringToken(s))) == Text(s)
  {
    Powers();
  }

  lemma ArrayRoundTrip(n: nat)
    requires n < TWO_32
    ensures ArrayToken(n).Valid() && ArrayToken(n).Children() == n && IsArrayCode(ArrayToken(n).code)
  {
    Powers();
  }
}
