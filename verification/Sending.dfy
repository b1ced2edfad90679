/** The sending side of a connection: the limited buffer, one send, and the reply that always fits. */
module Sending {
  import opened Basics
  import opened MsgPack
  import opened TypeConversion
  import opened Packets

  /** A buffer that refuses the bytes beyond its limit. */
  class LimitedBuffer {
    const buf: array<byte>
    const limit: nat
    var length: nat

    ghost predicate Valid()
      reads this
    {
      buf.Length == limit && length <= limit
    }

    constructor (limit: nat)
      ensures Valid() && this.limit == limit && Bytes() == [] && fresh(buf)
    {
      this.buf := new byte[limit];
      this.limit := limit;
      this.length := 0;
    }

    function Bytes(): (s: seq<byte>)
      requires Valid()
      reads this, buf
    {
      buf[..length]
    }

    /** Appends as much of p as fits; fails when that is not all of it. */
    method Write(p: seq<byte>) returns (n: nat, ok: bool)
      requires Valid()
      modifies this, buf
      ensures Valid()
      ensures n == if old(|Bytes()|) + |p| <= limit then |p| else limit - old(|Bytes()|)
      ensures Bytes() == old(Bytes()) + p[..n]
      ensures ok <==> old(|Bytes()|) + |p| <= limit
    {
      n := if |p| <= buf.Length - length then |p| else buf.Length - length;
      forall i | 0 <= i < n {
        buf[length + i] := p[i];
      }
      length := length + n;
      ok := n == |p|;
    }

    method Reset()
      requires Valid()
      modifies this
      ensures Valid() && Bytes() == []
    {
      length := 0;
    }
  }

  // ---------------------------------------------------------------- one send

  datatype SendResult = Sent | LimitExceeded | TransportFailed

  /** Within the bound, if there is one. */
  predicate Fits(bound: Option<nat>, s: seq<byte>) {
    bound.Some? ==> |s| <= bound.value
  }

  /** What a transport with this much room takes of s before it fails. */
  function Taken(room: Option<nat>, s: seq<byte>): seq<byte> {
    if Fits(room, s) then s else s[..room.value]
  }

  /** The writing half of a connection; `out` is everything the peer is sent.  The transport may fail at any byte:
      `room` is how many more bytes it takes, None when it does not fail. */
  class Sender {
    var out: seq<byte>
    var buffer: LimitedBuffer?

    ghost predicate Valid()
      reads this, buffer
    {
      buffer != null ==> buffer.Valid()
    }

    /** None while no limit was set. */
    ghost function Limit(): Option<nat>
      reads this
    {
      if buffer == null then None else Some(buffer.limit)
    }

    constructor ()
      ensures Valid() && out == [] && buffer == null
    {
      out := [];
      buffer := null;
    }

    /** Sizes of zero and below are documented as "no limit"; the code goes on to make a buffer of that size.
        A negative size makes the allocation panic. */
    method SetMaxOutgoingMessageSize(size: int) returns (panicked: bool)
      requires Valid()
      modifies this
      ensures panicked <==> size < 0
      ensures !panicked ==> Valid() && Limit() == Some(size) && out == old(out) && fresh(buffer) && fresh(buffer.buf)
    {
      if size <= 0 {
        buffer := null;
      }
      panicked := size < 0;
      if !panicked {
        buffer := new LimitedBuffer(size);
      }
    }

    method WriteOut(p: seq<byte>, room: Option<nat>) returns (ok: bool)
      modifies `out
      ensures ok == Fits(room, p) && out == old(out) + Taken(room, p)
    {
      ok := Fits(room, p);
      out := out + Taken(room, p);
    }

    /** Without a limit the encoder writes to the transport chunk by chunk and stops at the first failure. */
    method WriteDirect(chunks: seq<seq<byte>>, room: Option<nat>) returns (ok: bool)
      modifies `out
      ensures ok == Fits(room, Flatten(chunks)) && out == old(out) + Taken(room, Flatten(chunks))
    {
      ghost var written: seq<byte> := [];
      var left := room;
      for i := 0 to |chunks|
        invariant out == old(out) + written && written + Flatten(chunks[i..]) == Flatten(chunks)
        invariant left == if room == None then None else Some(room.value - |written|)
        invariant Fits(room, written)
      {
        FlattenStep(written, chunks[i..]);
        TakenStep(room, written, chunks[i], Flatten(chunks[i + 1..]));
        assert chunks[i..][1..] == chunks[i + 1..];
        Assoc(old(out), written, Taken(left, chunks[i]));
        ok := WriteOut(chunks[i], left);
        if !ok {
          return;
        }
        written := written + chunks[i];
        left := if left == None then None else Some(left.value - |chunks[i]|);
      }
      ok := true;
    }

    method Fill(chunks: seq<seq<byte>>) returns (ok: bool)
      requires buffer != null && buffer.Valid()
      modifies buffer, buffer.buf
      ensures buffer.Valid() && ok == (|Flatten(chunks)| <= buffer.limit)
      ensures ok ==> buffer.Bytes() == Flatten(chunks)
    {
      buffer.Reset();
      for i := 0 to |chunks|
        invariant buffer.Valid() && buffer.Bytes() + Flatten(chunks[i..]) == Flatten(chunks)
      {
        FlattenStep(buffer.Bytes(), chunks[i..]);
        assert chunks[i..][1..] == chunks[i + 1..];
        var n;
        n, ok := buffer.Write(chunks[i]);
        if !ok {
          return;
        }
        assert chunks[i][..n] == chunks[i];
      }
      ok := true;
    }

    /** Sends one message that the encoder writes in the given chunks.  Under a limit, the message is handed to the
        transport whole or not at all, and which of the two depends on its length only; what the transport lets
        through does not depend on the chunks either. */
    method Send(chunks: seq<seq<byte>>, room: Option<nat>) returns (r: SendResult)
      requires Valid()
      modifies this`out, buffer, if buffer == null then {} else {buffer.buf}
      ensures Valid()
      ensures var message := Flatten(chunks);
              && (r == LimitExceeded <==> !Fits(Limit(), message))
              && (r == Sent <==> Fits(Limit(), message) && Fits(room, message))
              && out == old(out) + if r == LimitExceeded then [] else Taken(room, message)
    {
      var ok;
      if buffer == null {
        ok := WriteDirect(chunks, room);
      } else {
        ok := Fill(chunks);
        if !ok {
          return LimitExceeded;
        }
        ok := WriteOut(buffer.Bytes(), room);
      }
      r := if ok then Sent else TransportFailed;
    }
  }

  lemma TakenStep(room: Option<nat>, written: seq<byte>, chunk: seq<byte>, rest: seq<byte>)
    requires Fits(room, written)
    ensures var left := if room == None then None else Some(room.value - |written|);
            && (Fits(left, chunk) <==> Fits(room, written + chunk))
            && (!Fits(left, chunk) ==> !Fits(room, (written + chunk) + rest)
                                        && written + Taken(left, chunk) == Taken(room, (written + chunk) + rest))
  {
  }

  // ---------------------------------------------------------------- the reply to a caller

  const LIMIT_TEXT := Ascii("message size exceeds the limit")

  /** The error pair [6, "message size exceeds the limit"]. */
  const LIMIT_ERROR := Node(ArrayToken(2), [Scalar(UintToken(6)), Scalar(StringToken(LIMIT_TEXT))])

  function FallbackBytes(id: nat): seq<byte>
    requires id < TWO_64
  {
    ResponseBytes(id, Encode(LIMIT_ERROR), EncodeToken(NIL_TOKEN))
  }

  lemma LimitErrorSize()
    ensures WellFormed([LIMIT_ERROR]) && |Encode(LIMIT_ERROR)| == 33
  {
    var a, b := Scalar(UintToken(6)), Scalar(StringToken(LIMIT_TEXT));
    NumberScalar(6);
    StringScalar(LIMIT_TEXT);
    assert [a, b] == [a] + [b];
    WellFormedCons(a, [b]);
    ArrayWellFormed([a, b]);
    EncodeCons(a, [b]);
    EncodeAllSingle(b);
  }

  /** The limit error on the wire: an array of two, the number 6 and a string of 30 bytes. */
  lemma LimitErrorBytes()
    ensures Encode(LIMIT_ERROR) == [0x92, 0x06, 0xbe] + Ascii("message size exceeds the limit")
  {
    var a, b := Scalar(UintToken(6)), Scalar(StringToken(LIMIT_TEXT));
    assert [a, b] == [a] + [b];
    EncodeCons(a, [b]);
    EncodeAllSingle(b);
    assert EncodeToken(ArrayToken(2)) == [0x92] && EncodeToken(UintToken(6)) == [0x06];
    assert EncodeToken(StringToken(LIMIT_TEXT)) == [0xbe] + LIMIT_TEXT;
  }

  lemma FallbackSize(id: nat)
    requires id < TWO_64
    ensures |FallbackBytes(id)| <= 45
  {
    LimitErrorSize();
    UintRoundTrip(id);
    ResponseSize(id, Encode(LIMIT_ERROR), EncodeToken(NIL_TOKEN));
  }

  lemma ResponseSize(id: nat, err: seq<byte>, result: seq<byte>)
    requires id < TWO_64
    ensures |ResponseBytes(id, err, result)| == 2 + |EncodeToken(UintToken(id))| + |err| + |result|
  {
  }

  predicate IsFrame(mode: Mode, frame: seq<byte>, packet: Packet) {
    match Parse(frame, 1)
    case None => false
    case Some((vs, rest)) => rest == [] && Classify(mode, vs[0]) == Good(packet)
  }

  lemma ResponseFrame(mode: Mode, id: nat, err: Value, result: Value)
    requires mode.raw && id < TWO_64 && WellFormed([err]) && WellFormed([result])
    ensures IsFrame(mode, ResponseBytes(id, Encode(err), Encode(result)),
                    Response(id, Raw(Encode(err)), Raw(Encode(result))))
  {
    ResponseRoundTrip(mode, id, err, result);
    ReadsBack(ResponseValue(id, err, result));
  }

  function FallbackPacket(id: nat): Packet {
    Response(id, Raw(Encode(LIMIT_ERROR)), Raw(EncodeToken(NIL_TOKEN)))
  }

  lemma NilEncodes()
    ensures WellFormed([Scalar(NIL_TOKEN)]) && Encode(Scalar(NIL_TOKEN)) == EncodeToken(NIL_TOKEN)
  {
    WellFormedScalar(NIL_TOKEN);
  }

  /** Whatever the id, the fallback is one response to that id, of at most 45 bytes. */
  lemma FallbackFits(mode: Mode, id: nat)
    requires id < TWO_64 && mode.raw
    ensures |FallbackBytes(id)| <= 45 && IsFrame(mode, FallbackBytes(id), FallbackPacket(id))
  {
    FallbackSize(id);
    LimitErrorSize();
    NilEncodes();
    ResponseFrame(mode, id, LIMIT_ERROR, Scalar(NIL_TOKEN));
  }

  /** The frame that answering hands to the transport, one of the two or none.  The lock is free between the two
      sends, so each has a limit of its own. */
  function ReplyFrame(first: Option<nat>, second: Option<nat>, reply: seq<byte>, fallback: seq<byte>): seq<byte> {
    if Fits(first, reply) then reply else if Fits(second, fallback) then fallback else []
  }

  method SendOrElse(s: Sender, reply: seq<seq<byte>>, fallback: seq<seq<byte>>, change: Option<nat>, room: Option<nat>)
    returns (r: SendResult)
    requires s.Valid()
    modifies s, s.buffer, if s.buffer == null then {} else {s.buffer.buf}
    ensures s.Valid()
    ensures var first := old(s.Limit());
            var second := if change.Some? then change else first;
            var frame := ReplyFrame(first, second, Flatten(reply), Flatten(fallback));
            && s.out == old(s.out) + Taken(room, frame)
            && (r == LimitExceeded <==> !Fits(first, Flatten(reply)) && !Fits(second, Flatten(fallback)))
            && (r == Sent <==> r != LimitExceeded && Fits(room, frame))
  {
    r := s.Send(reply, room);
    if r == LimitExceeded {
      if change.Some? {
        var panicked := s.SetMaxOutgoingMessageSize(change.value);
      }
      r := s.Send(fallback, room);
    }
  }

  /** Sends the reply; when it exceeds the limit, sends the limit error instead.  The limit may be changed, by the
      caller's own request, between the two.  A transport failure is only logged. */
  method FwdRes(s: Sender, id: nat, err: seq<byte>, result: seq<byte>, reply: seq<seq<byte>>,
                fallback: seq<seq<byte>>, change: Option<nat>, room: Option<nat>)
    returns (r: SendResult)
    requires s.Valid() && id < TWO_64
    requires Flatten(reply) == ResponseBytes(id, err, result) && Flatten(fallback) == FallbackBytes(id)
    modifies s, s.buffer, if s.buffer == null then {} else {s.buffer.buf}
    ensures s.Valid()
    ensures var first := old(s.Limit());
            var second := if change.Some? then change else first;
            var frame := ReplyFrame(first, second, ResponseBytes(id, err, result), FallbackBytes(id));
            && s.out == old(s.out) + Taken(room, frame)
            && (r == LimitExceeded <==>
                  !Fits(first, ResponseBytes(id, err, result)) && !Fits(second, FallbackBytes(id)))
            && (r == Sent <==> r != LimitExceeded && Fits(room, frame))
  {
    r := SendOrElse(s, reply, fallback, change, room);
  }

  /** A client's request to limit what it is sent.  Takes exactly one integer above 127; anything else is refused with
      code 1 and changes nothing, so the limit is always one that the limit error fits in. */
  method SetMaxMsgSize(s: Sender, params: seq<Option<GoValue>>) returns (code: nat)
    requires s.Valid() && forall i :: 0 <= i < |params| && params[i].Some? ==> Representable(params[i].value)
    modifies s
    ensures s.Valid() && s.out == old(s.out)
    ensures code == 0 <==>
            && |params| == 1 && params[0].Some? && params[0].value.Number?
            && 127 < params[0].value.n <= 0x7fff_ffff_ffff_ffff
    ensures code == 0 ==> s.Limit() == Some(params[0].value.n)
    ensures code != 0 ==> code == 1 && s.Limit() == old(s.Limit())
    ensures Accepted(old(s.Limit())) ==> Accepted(s.Limit())
  {
    if |params| != 1 {
      return 1;
    }
    var size := if params[0].Some? then ToInt(params[0].value) else None;
    if size == None || size.value <= 127 {
      return 1;
    }
    var panicked := s.SetMaxOutgoingMessageSize(size.value);
    code := 0;
  }

  /** Not set, or one that the router lets a client set. */
  predicate Accepted(limit: Option<nat>) {
    limit.Some? ==> limit.value > 127
  }

  /** With no limit, or any limits the router accepts, an answer is always exactly one whole response frame to the
      caller's id, within the limit it is sent under: the reply itself when it fits, the limit error otherwise. */
  lemma AlwaysOneReply(mode: Mode, first: Option<nat>, second: Option<nat>, id: nat, err: Value, result: Value)
    requires mode.raw && id < TWO_64 && WellFormed([err]) && WellFormed([result])
    requires Accepted(first) && Accepted(second)
    ensures var reply := ResponseBytes(id, Encode(err), Encode(result));
            var frame := ReplyFrame(first, second, reply, FallbackBytes(id));
            if Fits(first, reply) then
              Fits(first, frame) && IsFrame(mode, frame, Response(id, Raw(Encode(err)), Raw(Encode(result))))
            else
              Fits(second, frame) && IsFrame(mode, frame, FallbackPacket(id))
  {
    FallbackFits(mode, id);
    ResponseFrame(mode, id, err, result);
  }

  /** Zero is no way to lift the limit: it makes every message fail. */
  lemma ZeroIsNotUnlimited(reply: seq<byte>, fallback: seq<byte>)
    ensures ReplyFrame(Some(0), Some(0), reply, fallback) == []
    ensures reply != [] ==> !Fits(Some(0), reply) && Fits(None, reply)
  {
  }
}
