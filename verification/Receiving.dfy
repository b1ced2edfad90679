/** One packet, and the Run loop: what a connection does with every byte stream it can be given. */
module Receiving {
  import opened Basics
  import opened MsgPack
  import opened TypeConversion
  import opened Packets
  import opened Decoding

  /** Decodes one packet.  A packet and an invalid-packet error both leave the input at the next value. */
  method DecodeRpcPacket(mode: Mode, d: Decoder) returns (r: Outcome)
    modifies d
    ensures r == Step(mode, old(d.input)).0
    ensures r != Fatal ==> d.input == Step(mode, old(d.input)).1
  {
    ghost var s := d.input;
    FirstCode(s);
    var code := d.PeekCode();
    if code == None {
      return Fatal;
    }
    if !IsArrayCode(code.value) {
      NotAnArray(mode, s);
      r := d.SkipAndError(1);
      return;
    }
    var l := d.DecodeArrayLen();
    if LexToken(s).Some? {
      StepEnters(mode, s, LexToken(s).value.0, LexToken(s).value.1);
    }
    if l < 3 || l > 4 {
      r := d.SkipAndError(l);
      return;
    }
    TypeIsStep(mode, LexToken(s).value.0, l, d.input);
    r := DecodeElements(mode, d, l);
  }

  lemma NotAnArray(mode: Mode, s: seq<byte>)
    requires s != [] && !IsArrayCode(s[0])
    ensures Step(mode, s) == SkipStep(s, 1)
  {
    FirstCode(s);
  }

  datatype Event = Dispatch(packet: Packet) | ReportInvalid | ReportFatal

  function EventOf(r: Outcome): Event {
    match r
    case Good(p) => Dispatch(p)
    case Invalid => ReportInvalid
    case Fatal => ReportFatal
  }

  /** Every call that Run makes to a handler, in order. */
  function RunLog(mode: Mode, s: seq<byte>): seq<Event>
    decreases |s|
  {
    var (r, rest) := Step(mode, s);
    if r == Fatal then [ReportFatal] else [EventOf(r)] + RunLog(mode, rest)
  }

  lemma RunLogStep(mode: Mode, s: seq<byte>)
    ensures Step(mode, s).0 == Fatal ==> RunLog(mode, s) == [ReportFatal]
    ensures Step(mode, s).0 != Fatal ==> RunLog(mode, s) == [EventOf(Step(mode, s).0)] + RunLog(mode, Step(mode, s).1)
  {
  }

  method Run(mode: Mode, d: Decoder) returns (log: seq<Event>)
    modifies d
    ensures log == RunLog(mode, old(d.input))
  {
    log := [];
    while true
      invariant log + RunLog(mode, d.input) == RunLog(mode, old(d.input))
      decreases |d.input|
    {
      RunLogStep(mode, d.input);
      var r := DecodeRpcPacket(mode, d);
      if r == Fatal {
        log := log + [ReportFatal];
        return;
      }
      Assoc(log, [EventOf(r)], RunLog(mode, d.input));
      log := log + [EventOf(r)];
    }
  }

  // ---------------------------------------------------------------- the stream theorem

  function Events(mode: Mode, vs: seq<Value>): seq<Event> {
    if vs == [] then [] else [EventOf(Classify(mode, vs[0]))] + Events(mode, vs[1..])
  }

  /** No element is one the library refuses where Run needs it decoded. */
  predicate Readable(mode: Mode, vs: seq<Value>) {
    forall i :: 0 <= i < |vs| ==> Classify(mode, vs[i]) != Fatal
  }

  lemma StepOnValue(mode: Mode, v: Value, rest: seq<byte>)
    requires WellFormed([v])
    ensures Step(mode, Encode(v) + rest) == (Classify(mode, v), rest)
  {
    EncodeAllSingle(v);
    ParseInvertsEncode([v], rest);
  }

  lemma RunOnValue(mode: Mode, v: Value, rest: seq<byte>)
    requires WellFormed([v]) && Classify(mode, v) != Fatal
    ensures RunLog(mode, Encode(v) + rest) == [EventOf(Classify(mode, v))] + RunLog(mode, rest)
  {
    StepOnValue(mode, v, rest);
  }

  /** For every sequence of well-formed values, whatever comes after them: one event per value, in order,
      the one that the value deserves, and then exactly what the remaining bytes deserve. */
  lemma {:induction false} Stream(mode: Mode, vs: seq<Value>, tail: seq<byte>)
    requires WellFormed(vs) && Readable(mode, vs)
    ensures RunLog(mode, EncodeAll(vs) + tail) == Events(mode, vs) + RunLog(mode, tail)
  {
    if vs == [] {
      assert EncodeAll(vs) + tail == tail;
    } else {
      var rest := EncodeAll(vs[1..]) + tail;
      WellFormedAt(vs, 0);
      Stream(mode, vs[1..], tail);
      StreamCons(mode, vs[0], rest, Events(mode, vs[1..]), RunLog(mode, tail));
      Assoc(Encode(vs[0]), EncodeAll(vs[1..]), tail);
    }
  }

  lemma StreamCons(mode: Mode, v: Value, rest: seq<byte>, log: seq<Event>, end: seq<Event>)
    requires WellFormed([v]) && Classify(mode, v) != Fatal && RunLog(mode, rest) == log + end
    ensures RunLog(mode, Encode(v) + rest) == ([EventOf(Classify(mode, v))] + log) + end
  {
    RunOnValue(mode, v, rest);
    Assoc([EventOf(Classify(mode, v))], log, end);
  }

  /** A value that needs decoding the library refuses stops Run, however much follows. */
  lemma StreamStops(mode: Mode, vs: seq<Value>, bad: Value, tail: seq<byte>)
    requires WellFormed(vs) && Readable(mode, vs) && WellFormed([bad]) && Classify(mode, bad) == Fatal
    ensures RunLog(mode, EncodeAll(vs) + (Encode(bad) + tail)) == Events(mode, vs) + [ReportFatal]
  {
    Stream(mode, vs, Encode(bad) + tail);
    StepOnValue(mode, bad, tail);
  }

  /** In raw mode, which is how the router runs, only the message type, id and name are ever decoded. */
  lemma RawReadable(mode: Mode, v: Value)
    requires mode.raw
    ensures Classify(mode, v) == Fatal <==>
            IsArrayCode(v.tok.code) && 3 <= |v.kids| <= 4 && HeadOf(mode, |v.kids|, v.kids) == UnreadableHead
  {
    if IsArrayCode(v.tok.code) && 3 <= |v.kids| <= 4 {
      JoinIsEncodeAll(mode, v.kids[|v.kids| - 1].kids);
    }
  }

  // ---------------------------------------------------------------- streams that are cut short

  /** Whenever Run goes on, exactly one value has been consumed, or the input ended inside one header. */
  lemma OneValuePerPacket(mode: Mode, s: seq<byte>)
    requires Step(mode, s).0 != Fatal
    ensures match Parse(s, 1)
            case Some((vs, rest)) => WellFormed(vs) && s == Encode(vs[0]) + Step(mode, s).1
            case None => Step(mode, s).1 == [] && (HeaderCut(s) || Phantom(mode, s).Some?)
  {
    EncodeInvertsParse(s, 1);
    var one := Parse(s, 1);
    if one.Some? {
      Alone(one.value.0);
      EncodeAllSingle(one.value.0[0]);
    }
  }

  /** The packet that Run dispatches for a cut value: its parameter array has a code but no length. */
  function Phantom(mode: Mode, s: seq<byte>): Option<Packet> {
    match LexToken(s)
    case None => None
    case Some((h, inside)) =>
      if IsArrayCode(h.code) && 3 <= h.Children() <= 4 then CutPacket(mode, h.Children(), inside) else None
  }

  lemma RunLogEmpty(mode: Mode)
    ensures RunLog(mode, []) == [ReportFatal]
  {
    assert Step(mode, []).0 == Fatal;
  }

  /** The whole log for input that does not start with a complete value. */
  lemma CutLog(mode: Mode, s: seq<byte>)
    requires Parse(s, 1) == None
    ensures RunLog(mode, s) ==
            if HeaderCut(s) then [ReportInvalid, ReportFatal]
            else if Phantom(mode, s).Some? then [Dispatch(Phantom(mode, s).value), ReportFatal]
            else [ReportFatal]
  {
    RunLogEmpty(mode);
    if HeaderCut(s) {
      assert Step(mode, s) == (Invalid, []);
    } else if Phantom(mode, s).Some? {
      assert Step(mode, s) == (Good(Phantom(mode, s).value), []);
    } else {
      assert Step(mode, s).0 == Fatal;
    }
  }

  ghost predicate Dispatches(log: seq<Event>) {
    exists i :: 0 <= i < |log| && log[i].Dispatch?
  }

  lemma CutDispatch(mode: Mode, s: seq<byte>)
    requires Parse(s, 1) == None
    ensures Dispatches(RunLog(mode, s)) <==> Phantom(mode, s).Some?
    ensures RunLog(mode, s) != [] && RunLog(mode, s)[|RunLog(mode, s)| - 1] == ReportFatal
  {
    CutLog(mode, s);
    var log := RunLog(mode, s);
    if Phantom(mode, s).Some? {
      assert !HeaderCut(s);
      assert log[0].Dispatch?;
    }
  }

  lemma {:induction false} Split(mode: Mode, s: seq<byte>) returns (vs: seq<Value>, tail: seq<byte>)
    ensures WellFormed(vs) && Readable(mode, vs) && s == EncodeAll(vs) + tail
    ensures Parse(tail, 1) == None || Classify(mode, Parse(tail, 1).value.0[0]) == Fatal
    decreases |s|
  {
    var first := Parse(s, 1);
    if first == None || Classify(mode, first.value.0[0]) == Fatal {
      vs, tail := [], s;
    } else {
      EncodeInvertsParse(s, 1);
      vs, tail := Split(mode, first.value.1);
      SplitCons(mode, s, first.value.0, first.value.1, vs, tail);
      vs := first.value.0 + vs;
    }
  }

  lemma SplitCons(mode: Mode, s: seq<byte>, one: seq<Value>, rest: seq<byte>, ws: seq<Value>, tail: seq<byte>)
    requires |one| == 1 && WellFormed(one) && WellFormed(ws) && Readable(mode, one) && Readable(mode, ws)
    requires s == EncodeAll(one) + rest && rest == EncodeAll(ws) + tail
    ensures WellFormed(one + ws) && Readable(mode, one + ws) && s == EncodeAll(one + ws) + tail
  {
    Alone(one);
    WellFormedCons(one[0], ws);
    EncodeAllAppend(one, ws);
    Regroup([], EncodeAll(one), EncodeAll(ws), tail);
    ReadableAppend(mode, one, ws);
  }

  lemma ReadableAppend(mode: Mode, one: seq<Value>, ws: seq<Value>)
    requires |one| == 1 && Readable(mode, one) && Readable(mode, ws)
    ensures Readable(mode, one + ws)
  {
    forall i | 0 <= i < |one + ws| ensures Classify(mode, (one + ws)[i]) != Fatal {
      if i == 0 { assert (one + ws)[i] == one[0]; } else { assert (one + ws)[i] == ws[i - 1]; }
    }
  }

  /** Whatever the bytes are, Run stays in step with the values in them: the input is a run of complete
      values, each with its own event, and then one place where Run stops for good. */
  lemma NeverOutOfStep(mode: Mode, s: seq<byte>) returns (vs: seq<Value>, tail: seq<byte>)
    ensures WellFormed(vs) && Readable(mode, vs) && s == EncodeAll(vs) + tail
    ensures RunLog(mode, s) == Events(mode, vs) + RunLog(mode, tail)
    ensures Parse(tail, 1) == None || Classify(mode, Parse(tail, 1).value.0[0]) == Fatal
  {
    vs, tail := Split(mode, s);
    Stream(mode, vs, tail);
  }
}
