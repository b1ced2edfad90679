/** The MessagePack wire format: one token per header or scalar, trees of tokens as values.

    A token is a code byte, a big-endian length field whose width the code fixes, and a body
    whose size the code and the length fix.  This covers every family of the MessagePack
    specification: "nil format" to "ext format".  Every format is kept apart (5 as a fixint and
    5 as a uint 32 are different tokens), so equal values mean equal bytes.
  */
module MsgPack {
  import opened Basics

  // ---------------------------------------------------------------- big-endian numbers

  function Pow256(w: nat): (p: nat)
    ensures p >= 1
  {
    if w == 0 then 1 else 256 * Pow256(w - 1)
  }

  function BigEndian(n: nat, w: nat): (s: seq<byte>)
    ensures |s| == w
  {
    if w == 0 then [] else BigEndian(n / 256, w - 1) + [n % 256]
  }

  function FromBigEndian(s: seq<byte>): nat {
    if s == [] then 0 else FromBigEndian(s[..|s| - 1]) * 256 + s[|s| - 1]
  }

  lemma {:induction false} BigEndianRoundTrip(n: nat, w: nat)
    requires n < Pow256(w)
    ensures FromBigEndian(BigEndian(n, w)) == n
  {
    if w > 0 {
      BigEndianRoundTrip(n / 256, w - 1);
      assert BigEndian(n, w)[..w - 1] == BigEndian(n / 256, w - 1);
    }
  }

  lemma {:induction false} FromBigEndianRoundTrip(s: seq<byte>)
    ensures FromBigEndian(s) < Pow256(|s|)
    ensures BigEndian(FromBigEndian(s), |s|) == s
  {
    if s != [] {
      FromBigEndianRoundTrip(s[..|s| - 1]);
    }
  }

  // ---------------------------------------------------------------- tokens

  /** Width of the length field that follows the code byte. */
  function LenWidth(code: byte): nat {
    if code == 0xc4 || code == 0xc7 || code == 0xd9 then 1
    else if code == 0xc5 || code == 0xc8 || code == 0xda || code == 0xdc || code == 0xde then 2
    else if code == 0xc6 || code == 0xc9 || code == 0xdb || code == 0xdd || code == 0xdf then 4
    else 0
  }

  /** Number of body bytes of a scalar; ext formats carry one type byte more. */
  function BodySize(code: byte, len: nat): nat {
    if 0xa0 <= code < 0xc0 then code - 0xa0
    else if code == 0xc4 || code == 0xc5 || code == 0xc6 || code == 0xd9 || code == 0xda || code == 0xdb then len
    else if code == 0xc7 || code == 0xc8 || code == 0xc9 then len + 1
    else if code == 0xcc || code == 0xd0 then 1
    else if code == 0xcd || code == 0xd1 || code == 0xd4 then 2
    else if code == 0xd5 then 3
    else if code == 0xca || code == 0xce || code == 0xd2 then 4
    else if code == 0xd6 then 5
    else if code == 0xcb || code == 0xcf || code == 0xd3 then 8
    else if code == 0xd7 then 9
    else if code == 0xd8 then 17
    else 0
  }

  predicate IsArrayCode(code: byte) {
    0x90 <= code < 0xa0 || code == 0xdc || code == 0xdd
  }

  /** Number of values that follow a header as its children: n for an array, 2n for a map. */
  function Arity(code: byte, len: nat): nat {
    if 0x90 <= code < 0xa0 then code - 0x90
    else if code == 0xdc || code == 0xdd then len
    else if 0x80 <= code < 0x90 then 2 * (code - 0x80)
    else if code == 0xde || code == 0xdf then 2 * len
    else 0
  }

  datatype Token = Token(code: byte, len: nat, body: seq<byte>) {
    predicate Valid() {
      code != 0xc1 && len < Pow256(LenWidth(code)) && |body| == BodySize(code, len)
    }
    function Children(): nat { Arity(code, len) }
  }

  function EncodeToken(t: Token): (s: seq<byte>)
    ensures |s| >= 1 && s[0] == t.code
  {
    [t.code] + BigEndian(t.len, LenWidth(t.code)) + t.body
  }

  /** Reads one token; None when the input ends inside it or the code is the unused 0xc1. */
  function LexToken(s: seq<byte>): (r: Option<(Token, seq<byte>)>)
    ensures r.Some? ==> |r.value.1| < |s|
  {
    if s == [] || s[0] == 0xc1 then None else
    var w := LenWidth(s[0]);
    if |s| < 1 + w then None else
    var len := FromBigEndian(s[1..1 + w]);
    var end := 1 + w + BodySize(s[0], len);
    if |s| < end then None else Some((Token(s[0], len, s[1 + w..end]), s[end..]))
  }

  lemma LexInvertsEncode(t: Token, rest: seq<byte>)
    requires t.Valid()
    ensures LexToken(EncodeToken(t) + rest) == Some((t, rest))
  {
    BigEndianRoundTrip(t.len, LenWidth(t.code));
    SlicesOfJoin(t.code, BigEndian(t.len, LenWidth(t.code)), t.body, rest);
  }

  lemma SlicesOfJoin(c: byte, a: seq<byte>, b: seq<byte>, rest: seq<byte>)
    ensures var s := [c] + a + b + rest;
            && s[1..1 + |a|] == a
            && s[1 + |a|..1 + |a| + |b|] == b
            && s[1 + |a| + |b|..] == rest
  {
  }

  lemma JoinOfSlices(s: seq<byte>, i: nat, j: nat)
    requires 1 <= i <= j <= |s|
    ensures s == [s[0]] + s[1..i] + s[i..j] + s[j..]
  {
  }

  lemma EncodeInvertsLex(s: seq<byte>)
    ensures match LexToken(s)
            case None => true
            case Some((t, rest)) => t.Valid() && s == EncodeToken(t) + rest
  {
    match LexToken(s)
    case None =>
    case Some((t, rest)) =>
      var w := LenWidth(s[0]);
      FromBigEndianRoundTrip(s[1..1 + w]);
      JoinOfSlices(s, 1 + w, 1 + w + BodySize(s[0], t.len));
  }

  // ---------------------------------------------------------------- values

  /** A scalar is a node without children. */
  datatype Value = Node(tok: Token, kids: seq<Value>)

  predicate WellFormed(vs: seq<Value>) {
    vs == [] || (vs[0].tok.Valid() && |vs[0].kids| == vs[0].tok.Children() &&
                 WellFormed(vs[0].kids) && WellFormed(vs[1..]))
  }

  function EncodeAll(vs: seq<Value>): (s: seq<byte>) {
    if vs == [] then [] else Encode(vs[0]) + EncodeAll(vs[1..])
  }

  function Encode(v: Value): (s: seq<byte>)
  {
    EncodeToken(v.tok) + EncodeAll(v.kids)
  }

  /** Reads n consecutive values. */
  function Parse(s: seq<byte>, n: nat): (r: Option<(seq<Value>, seq<byte>)>)
    ensures r.Some? ==> |r.value.0| == n && |r.value.1| <= |s|
    ensures r.Some? && n > 0 ==> |r.value.1| < |s|
    decreases |s|, n
  {
    if n == 0 then Some(([], s)) else
    match LexToken(s)
    case None => None
    case Some((t, r1)) =>
      match Parse(r1, t.Children())
      case None => None
      case Some((kids, r2)) =>
        match Parse(r2, n - 1)
        case None => None
        case Some((vs, r3)) => Some(([Node(t, kids)] + vs, r3))
  }

  /** Parsing inverts encoding, whatever follows. */
  lemma {:induction false} ParseInvertsEncode(vs: seq<Value>, rest: seq<byte>)
    requires WellFormed(vs)
    ensures Parse(EncodeAll(vs) + rest, |vs|) == Some((vs, rest))
    decreases vs
  {
    if vs == [] {
      assert EncodeAll(vs) + rest == rest;
    } else {
      var tail := EncodeAll(vs[1..]) + rest;
      ParseInvertsEncode(vs[0].kids, tail);
      ParseInvertsEncode(vs[1..], rest);
      ParseCons(vs, tail, rest);
    }
  }

  lemma ParseCons(vs: seq<Value>, tail: seq<byte>, rest: seq<byte>)
    requires vs != [] && vs[0].tok.Valid() && |vs[0].kids| == vs[0].tok.Children()
    requires tail == EncodeAll(vs[1..]) + rest
    requires Parse(EncodeAll(vs[0].kids) + tail, |vs[0].kids|) == Some((vs[0].kids, tail))
    requires Parse(tail, |vs[1..]|) == Some((vs[1..], rest))
    ensures Parse(EncodeAll(vs) + rest, |vs|) == Some((vs, rest))
  {
    ParseStep(vs[0], vs[1..], EncodeAll(vs[0].kids) + tail, tail, rest);
    EncodeAllHead(vs, rest);
    assert [vs[0]] + vs[1..] == vs;
  }

  lemma EncodeAllHead(vs: seq<Value>, rest: seq<byte>)
    requires vs != []
    ensures EncodeAll(vs) + rest ==
            EncodeToken(vs[0].tok) + (EncodeAll(vs[0].kids) + (EncodeAll(vs[1..]) + rest))
  {
    Regroup(EncodeToken(vs[0].tok), EncodeAll(vs[0].kids), EncodeAll(vs[1..]), rest);
  }

  lemma ParseStep(v: Value, vs: seq<Value>, r1: seq<byte>, r2: seq<byte>, rest: seq<byte>)
    requires v.tok.Valid() && |v.kids| == v.tok.Children()
    requires Parse(r1, |v.kids|) == Some((v.kids, r2)) && Parse(r2, |vs|) == Some((vs, rest))
    ensures Parse(EncodeToken(v.tok) + r1, |vs| + 1) == Some(([v] + vs, rest))
  {
    LexInvertsEncode(v.tok, r1);
  }

  lemma EncodeCons(v: Value, vs: seq<Value>)
    ensures EncodeAll([v] + vs) == Encode(v) + EncodeAll(vs)
  {
    assert ([v] + vs)[1..] == vs;
  }

  lemma WellFormedCons(v: Value, vs: seq<Value>)
    requires v.tok.Valid() && |v.kids| == v.tok.Children() && WellFormed(v.kids) && WellFormed(vs)
    ensures WellFormed([v] + vs)
  {
    assert ([v] + vs)[1..] == vs;
  }

  lemma Regroup(a: seq<byte>, b: seq<byte>, c: seq<byte>, d: seq<byte>)
    ensures a + (b + (c + d)) == ((a + b) + c) + d
  {
  }

  lemma EncodeStep(s: seq<byte>, t: Token, r1: seq<byte>, kids: seq<Value>, r2: seq<byte>,
                   vs: seq<Value>, r3: seq<byte>)
    requires t.Valid() && |kids| == t.Children() && WellFormed(kids) && WellFormed(vs)
    requires s == EncodeToken(t) + r1 && r1 == EncodeAll(kids) + r2 && r2 == EncodeAll(vs) + r3
    ensures WellFormed([Node(t, kids)] + vs)
    ensures s == EncodeAll([Node(t, kids)] + vs) + r3
  {
    WellFormedCons(Node(t, kids), vs);
    EncodeCons(Node(t, kids), vs);
    Regroup(EncodeToken(t), EncodeAll(kids), EncodeAll(vs), r3);
  }

  /** Encoding inverts parsing: what was consumed is exactly the encoding of what was read. */
  lemma {:induction false} EncodeInvertsParse(s: seq<byte>, n: nat)
    ensures match Parse(s, n)
            case None => true
            case Some((vs, rest)) => WellFormed(vs) && s == EncodeAll(vs) + rest
    decreases |s|, n
  {
    if n > 0 {
      var lexed := LexToken(s);
      if lexed.Some? {
        EncodeInvertsLex(s);
        var (t, r1) := lexed.value;
        EncodeInvertsParse(r1, t.Children());
        var inner := Parse(r1, t.Children());
        if inner.Some? {
          var (kids, r2) := inner.value;
          EncodeInvertsParse(r2, n - 1);
          var outer := Parse(r2, n - 1);
          if outer.Some? {
            var (vs, r3) := outer.value;
            EncodeStep(s, t, r1, kids, r2, vs, r3);
          }
        }
      }
    }
  }

  /** No encoding is cut short by another reading of its bytes: a strict prefix never parses. */
  lemma StrictPrefixDoesNotParse(vs: seq<Value>, p: seq<byte>)
    requires WellFormed(vs)
    requires p < EncodeAll(vs)
    ensures Parse(p, |vs|) == None
  {
    var parsed := Parse(p, |vs|);
    if parsed.Some? {
      EncodeInvertsParse(p, |vs|);
      var (ws, rest) := parsed.value;
      NoStrictPrefix(vs, p, ws, rest);
    }
  }

  lemma NoStrictPrefix(vs: seq<Value>, p: seq<byte>, ws: seq<Value>, rest: seq<byte>)
    requires WellFormed(vs) && WellFormed(ws) && |vs| == |ws|
    requires p < EncodeAll(vs)
    ensures p != EncodeAll(ws) + rest
  {
    if p == EncodeAll(ws) + rest {
      var missing := Completion(p, EncodeAll(vs), EncodeAll(ws), rest);
      PrefixFree(vs, [], ws, rest + missing);
    }
  }

  lemma Completion(p: seq<byte>, whole: seq<byte>, a: seq<byte>, rest: seq<byte>) returns (missing: seq<byte>)
    requires p < whole && p == a + rest
    ensures missing != [] && whole + [] == a + (rest + missing)
  {
    missing := whole[|p|..];
    assert whole == p + missing;
  }

  /** Encodings are prefix-free: two readings of the same bytes agree. */
  lemma PrefixFree(vs: seq<Value>, r: seq<byte>, ws: seq<Value>, q: seq<byte>)
    requires WellFormed(vs) && WellFormed(ws) && |vs| == |ws|
    requires EncodeAll(vs) + r == EncodeAll(ws) + q
    ensures vs == ws && r == q
  {
    ParseInvertsEncode(vs, r);
    ParseInvertsEncode(ws, q);
  }

  lemma EncodeAllSingle(v: Value)
    ensures EncodeAll([v]) == Encode(v)
  {
    assert [v][1..] == [];
  }

  lemma {:induction false} EncodeAllAppend(vs: seq<Value>, ws: seq<Value>)
    ensures EncodeAll(vs + ws) == EncodeAll(vs) + EncodeAll(ws)
  {
    if vs == [] {
      assert vs + ws == ws;
    } else {
      var v := Encode(vs[0]);
      calc {
        EncodeAll(vs + ws);
        { assert (vs + ws)[1..] == vs[1..] + ws; }
        v + EncodeAll(vs[1..] + ws);
        { EncodeAllAppend(vs[1..], ws); }
        v + (EncodeAll(vs[1..]) + EncodeAll(ws));
        { Regroup([], v, EncodeAll(vs[1..]), EncodeAll(ws)); }
        EncodeAll(vs) + EncodeAll(ws);
      }
    }
  }
}
