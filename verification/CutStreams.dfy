/** Streams that end inside a value: where the cut may fall, and what Run makes of it. */
module CutStreams {
  import opened Basics
  import opened MsgPack
  import opened TypeConversion
  import opened Packets
  import opened Decoding
  import opened Receiving

  // ---------------------------------------------------------------- the place of the cut

  /** The elements before the last, which is where a call has its parameters. */
  function Front(v: Value): seq<Value>
    requires v.kids != []
  {
    v.kids[..|v.kids| - 1]
  }

  function Last(v: Value): Value
    requires v.kids != []
  {
    v.kids[|v.kids| - 1]
  }

  /** Where the encoding of the last element starts. */
  function LastAt(v: Value): nat
    requires v.kids != []
  {
    |EncodeToken(v.tok)| + |EncodeAll(Front(v))|
  }

  /** v is an array of the right size whose head is that of a request or notification, with an array at its end. */
  predicate IsCall(mode: Mode, v: Value) {
    && IsArrayCode(v.tok.code) && 3 <= |v.kids| <= 4
    && (HeadOf(mode, |v.kids|, v.kids).RequestHead? || HeadOf(mode, |v.kids|, v.kids).NotificationHead?)
    && IsArrayCode(Last(v).tok.code)
  }

  /** The first n bytes of v's encoding end behind the code of its parameter array and before the end of the length
      that follows the code. */
  predicate CutInParamLength(mode: Mode, v: Value, n: nat) {
    IsCall(mode, v) && LastAt(v) < n < LastAt(v) + 1 + LenWidth(Last(v).tok.code)
  }

  lemma HeadOfFront(mode: Mode, v: Value)
    requires 3 <= |v.kids| <= 4
    ensures HeadOf(mode, |v.kids|, Front(v)) == HeadOf(mode, |v.kids|, v.kids)
  {
  }

  lemma EncodeFrontLast(v: Value)
    requires v.kids != []
    ensures EncodeAll(v.kids) == EncodeAll(Front(v)) + Encode(Last(v))
    ensures Encode(v) == EncodeToken(v.tok) + (EncodeAll(Front(v)) + Encode(Last(v)))
  {
    assert v.kids == Front(v) + [Last(v)];
    EncodeAllAppend(Front(v), [Last(v)]);
    EncodeAllSingle(Last(v));
  }

  lemma {:induction false} FrontWellFormed(vs: seq<Value>)
    requires WellFormed(vs) && vs != []
    ensures WellFormed(vs[..|vs| - 1])
  {
    if |vs| > 1 {
      FrontWellFormed(vs[1..]);
      assert vs[..|vs| - 1][1..] == vs[1..][..|vs| - 2];
    }
  }

  /** A header of an array is cut exactly when its code is there and its length is not. */
  lemma HeaderCutAt(v: Value, tail: seq<byte>)
    requires WellFormed([v]) && tail < Encode(v)
    ensures HeaderCut(tail) <==> IsArrayCode(v.tok.code) && 0 < |tail| < 1 + LenWidth(v.tok.code)
  {
    if tail != [] {
      assert tail[0] == v.tok.code;
    }
  }

  // ---------------------------------------------------------------- a cut in the length goes through

  lemma CutSplits(v: Value, cut: seq<byte>) returns (tail: seq<byte>)
    requires v.kids != [] && cut < Encode(v) && |cut| >= LastAt(v)
    ensures tail < Encode(Last(v)) && |cut| == LastAt(v) + |tail|
    ensures cut == EncodeToken(v.tok) + (EncodeAll(Front(v)) + tail)
  {
    EncodeFrontLast(v);
    tail := cut[LastAt(v)..];
    Slices(EncodeToken(v.tok), EncodeAll(Front(v)), Encode(Last(v)), cut);
  }

  lemma Slices(a: seq<byte>, b: seq<byte>, c: seq<byte>, cut: seq<byte>)
    requires cut < a + (b + c) && |cut| >= |a| + |b|
    ensures cut == a + (b + cut[|a| + |b|..]) && cut[|a| + |b|..] < c
  {
    var whole, tail := a + (b + c), cut[|a| + |b|..];
    assert whole[|a| + |b|..] == c;
    assert cut[..|a|] == whole[..|a|] == a;
    assert cut[|a|..|a| + |b|] == whole[|a|..|a| + |b|] == b;
    assert cut == cut[..|a|] + (cut[|a|..|a| + |b|] + tail);
    assert forall i :: 0 <= i < |tail| ==> tail[i] == cut[|a| + |b| + i] == whole[|a| + |b| + i] == c[i];
  }

  lemma PhantomThere(mode: Mode, v: Value, cut: seq<byte>)
    requires WellFormed([v]) && cut < Encode(v) && CutInParamLength(mode, v, |cut|)
    ensures Phantom(mode, cut) == Some(Call(HeadOf(mode, |v.kids|, v.kids), []))
  {
    WellFormedAt([v], 0);
    WellFormedAt(v.kids, |v.kids| - 1);
    FrontWellFormed(v.kids);
    var tail := CutSplits(v, cut);
    LexInvertsEncode(v.tok, EncodeAll(Front(v)) + tail);
    ParseInvertsEncode(Front(v), tail);
    HeaderCutAt(Last(v), tail);
    HeadOfFront(mode, v);
  }

  // ---------------------------------------------------------------- nothing else does

  /** What the decoder has read of a cut value is the beginning of that value. */
  lemma ReadIsFront(v: Value, cut: seq<byte>, h: Token, inside: seq<byte>, kids: seq<Value>, tail: seq<byte>)
    requires WellFormed([v]) && cut < Encode(v)
    requires LexToken(cut) == Some((h, inside)) && h.Children() > 0
    requires Parse(inside, h.Children() - 1) == Some((kids, tail))
    ensures h == v.tok && |v.kids| == h.Children() && kids == Front(v)
    ensures tail < Encode(Last(v)) && |cut| == LastAt(v) + |tail|
  {
    WellFormedAt([v], 0);
    EncodeInvertsLex(cut);
    EncodeInvertsParse(inside, h.Children() - 1);
    var missing := Missing(cut, Encode(v));
    SameHeader(v, h, inside, missing, cut);
    FrontWellFormed(v.kids);
    SameFront(v, kids, tail, missing, inside);
  }

  lemma Missing(p: seq<byte>, whole: seq<byte>) returns (missing: seq<byte>)
    requires p < whole
    ensures missing != [] && whole == p + missing
  {
    missing := whole[|p|..];
  }

  lemma SameHeader(v: Value, h: Token, inside: seq<byte>, missing: seq<byte>, cut: seq<byte>)
    requires v.tok.Valid() && h.Valid() && cut == EncodeToken(h) + inside && Encode(v) == cut + missing
    ensures h == v.tok && EncodeAll(v.kids) == inside + missing
  {
    LexInvertsEncode(v.tok, EncodeAll(v.kids));
    Assoc(EncodeToken(h), inside, missing);
    LexInvertsEncode(h, inside + missing);
  }

  lemma SameFront(v: Value, kids: seq<Value>, tail: seq<byte>, missing: seq<byte>, inside: seq<byte>)
    requires v.kids != [] && |kids| == |v.kids| - 1 && WellFormed(kids) && WellFormed(Front(v)) && missing != []
    requires inside == EncodeAll(kids) + tail && EncodeAll(v.kids) == inside + missing
    ensures kids == Front(v) && tail < Encode(Last(v)) && |inside| == |EncodeAll(Front(v))| + |tail|
  {
    EncodeFrontLast(v);
    SameValues(kids, tail, missing, Front(v), Encode(Last(v)));
  }

  lemma SameValues(kids: seq<Value>, tail: seq<byte>, missing: seq<byte>, front: seq<Value>, last: seq<byte>)
    requires |kids| == |front| && WellFormed(kids) && WellFormed(front) && missing != []
    requires EncodeAll(kids) + tail + missing == EncodeAll(front) + last
    ensures kids == front && tail < last
  {
    Assoc(EncodeAll(kids), tail, missing);
    PrefixFree(kids, tail + missing, front, last);
  }

  lemma PhantomPlace(mode: Mode, v: Value, cut: seq<byte>)
    requires WellFormed([v]) && cut < Encode(v) && Phantom(mode, cut).Some?
    ensures CutInParamLength(mode, v, |cut|)
  {
    var (h, inside) := LexToken(cut).value;
    var (kids, tail) := Parse(inside, h.Children() - 1).value;
    ReadIsFront(v, cut, h, inside, kids, tail);
    HeadOfFront(mode, v);
    WellFormedAt([v], 0);
    WellFormedAt(v.kids, |v.kids| - 1);
    HeaderCutAt(Last(v), tail);
  }

  // ---------------------------------------------------------------- the theorem

  /** The first n bytes of v's encoding end behind v's own code and before the end of the length that follows it. */
  predicate CutInOwnLength(v: Value, n: nat) {
    IsArrayCode(v.tok.code) && 0 < n < 1 + LenWidth(v.tok.code)
  }

  /** Complete values and then a value cut at any byte.  The complete ones get their events.  Of the cut one nothing
      is dispatched, except exactly when it is a request or notification and the cut falls inside the length of its
      parameter array: then it is dispatched without parameters.  Run stops in every case. */
  lemma CutValue(mode: Mode, vs: seq<Value>, v: Value, cut: seq<byte>)
    requires WellFormed(vs) && Readable(mode, vs) && WellFormed([v]) && cut < Encode(v)
    ensures RunLog(mode, EncodeAll(vs) + cut) == Events(mode, vs) + RunLog(mode, cut)
    ensures Dispatches(RunLog(mode, cut)) <==> CutInParamLength(mode, v, |cut|)
    ensures RunLog(mode, cut) ==
            if CutInOwnLength(v, |cut|) then [ReportInvalid, ReportFatal]
            else if CutInParamLength(mode, v, |cut|) then
              [Dispatch(Call(HeadOf(mode, |v.kids|, v.kids), [])), ReportFatal]
            else [ReportFatal]
  {
    Stream(mode, vs, cut);
    EncodeAllSingle(v);
    StrictPrefixDoesNotParse([v], cut);
    CutDispatch(mode, cut);
    CutLog(mode, cut);
    HeaderCutAt(v, cut);
    PhantomExactly(mode, v, cut);
  }

  lemma PhantomExactly(mode: Mode, v: Value, cut: seq<byte>)
    requires WellFormed([v]) && cut < Encode(v)
    ensures Phantom(mode, cut).Some? <==> CutInParamLength(mode, v, |cut|)
    ensures CutInParamLength(mode, v, |cut|) ==>
              Phantom(mode, cut) == Some(Call(HeadOf(mode, |v.kids|, v.kids), []))
  {
    if CutInParamLength(mode, v, |cut|) {
      PhantomThere(mode, v, cut);
    } else if Phantom(mode, cut).Some? {
      PhantomPlace(mode, v, cut);
    }
  }

  // ---------------------------------------------------------------- an example

  const CUT_REQUEST: seq<byte> := [0x94, 0x00, 0x07, 0xa1, 0x6d, 0xdc]
  const CUT_HEAD := [Scalar(Token(0x00, 0, [])), Scalar(Token(0x07, 0, [])), Scalar(Token(0xa1, 0, [0x6d]))]

  lemma CutHeadEncodes()
    ensures WellFormed(CUT_HEAD) && EncodeAll(CUT_HEAD) == [0x00, 0x07, 0xa1, 0x6d]
  {
    WellFormedScalar(CUT_HEAD[0].tok);
    WellFormedScalar(CUT_HEAD[1].tok);
    WellFormedScalar(CUT_HEAD[2].tok);
    ThreeWellFormed(CUT_HEAD[0], CUT_HEAD[1], CUT_HEAD[2]);
    EncodeCons(CUT_HEAD[0], CUT_HEAD[1..]);
    EncodeCons(CUT_HEAD[1], CUT_HEAD[2..]);
    EncodeAllSingle(CUT_HEAD[2]);
    assert CUT_HEAD == [CUT_HEAD[0]] + CUT_HEAD[1..] && CUT_HEAD[1..] == [CUT_HEAD[1]] + CUT_HEAD[2..];
    assert CUT_HEAD[2..] == [CUT_HEAD[2]];
  }

  lemma CutHeadParses()
    ensures Parse(CUT_REQUEST[1..], 3) == Some((CUT_HEAD, [0xdc]))
  {
    CutHeadEncodes();
    ParseInvertsEncode(CUT_HEAD, [0xdc]);
    assert EncodeAll(CUT_HEAD) + [0xdc] == CUT_REQUEST[1..];
  }

  lemma CutHeadReads(mode: Mode)
    ensures HeadOf(mode, 4, CUT_HEAD) == RequestHead(7, [0x6d])
  {
    NumberReads(CUT_HEAD[0], 0);
    NumberReads(CUT_HEAD[1], 7);
  }

  lemma CutRequestDoesNotParse()
    ensures LexToken(CUT_REQUEST) == Some((Token(0x94, 0, []), CUT_REQUEST[1..]))
    ensures HeaderCut([0xdc]) && Parse(CUT_REQUEST, 1) == None
  {
    CutRequestLexes();
    OneValue(CUT_REQUEST, Token(0x94, 0, []), CUT_REQUEST[1..]);
    CutHeadParses();
    LastMissing(CUT_REQUEST[1..], 3);
  }

  lemma CutRequestLexes()
    ensures LexToken(CUT_REQUEST) == Some((Token(0x94, 0, []), CUT_REQUEST[1..]))
  {
    assert CUT_REQUEST == EncodeToken(Token(0x94, 0, [])) + CUT_REQUEST[1..];
    LexInvertsEncode(Token(0x94, 0, []), CUT_REQUEST[1..]);
  }

  lemma {:induction false} LastMissing(s: seq<byte>, n: nat)
    requires Parse(s, n).Some? && Parse(Parse(s, n).value.1, 1) == None
    ensures Parse(s, n + 1) == None
    decreases n
  {
    if n > 0 {
      ParseHead(s, n + 1);
      ParseHead(s, n);
      LastMissing(Parse(s, 1).value.1, n - 1);
    }
  }

  /** The six bytes of a request cut inside its parameter count: the request goes out with no parameters. */
  lemma PhantomExample(mode: Mode)
    ensures RunLog(mode, CUT_REQUEST) == [Dispatch(Request(7, [0x6d], [])), ReportFatal]
  {
    CutHeadParses();
    CutHeadReads(mode);
    CutRequestDoesNotParse();
    CutLog(mode, CUT_REQUEST);
  }
}
