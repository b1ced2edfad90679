/** MessagePack-RPC packets as trees: which values are packets, and how packets are written.

    The shapes are those of the "Request Message", "Response Message" and "Notification Message"
    sections of the MessagePack-RPC specification.
  */
module Packets {
  import opened Basics
  import opened MsgPack
  import opened TypeConversion

  /** A parameter, error or result: kept as the bytes that arrived, or decoded. */
  datatype Field = Raw(bytes: seq<byte>) | Decoded(g: GoValue)

  datatype Packet =
    | Request(id: nat, name: seq<byte>, params: seq<Field>)
    | Response(id: nat, err: Field, result: Field)
    | Notification(name: seq<byte>, params: seq<Field>)

  /** Fatal stands for every error that is not an invalid-packet error. */
  datatype Outcome = Good(packet: Packet) | Invalid | Fatal

  /** Connection settings: whether fields stay raw, and which composite values the library decodes. */
  datatype Mode = Mode(raw: bool, decodes: Value -> bool)

  predicate Decodable(mode: Mode, v: Value) {
    !Interface(v).Other? || mode.decodes(v)
  }

  function FieldOf(mode: Mode, v: Value): Option<Field> {
    if mode.raw then Some(Raw(Encode(v)))
    else if Decodable(mode, v) then Some(Decoded(Interface(v)))
    else None
  }

  function FieldsOf(mode: Mode, vs: seq<Value>): (r: Option<seq<Field>>)
    ensures r.Some? ==> |r.value| == |vs|
  {
    if vs == [] then Some([]) else
    match FieldOf(mode, vs[0])
    case None => None
    case Some(f) =>
      match FieldsOf(mode, vs[1..])
      case None => None
      case Some(fs) => Some([f] + fs)
  }

  /** What the elements before the last one say about an array of `arity` elements. */
  datatype Head = RequestHead(id: nat, name: seq<byte>) | ResponseHead(id: nat) | NotificationHead(name: seq<byte>)
                | BadHead | UnreadableHead

  function IntOf(v: Value): (r: Option<int>) {
    if v.tok.Valid() then InterfaceRepresentable(v); ToInt(Interface(v)) else None
  }

  function UintOf(v: Value): (r: Option<nat>) {
    if v.tok.Valid() then InterfaceRepresentable(v); ToUint(Interface(v)) else None
  }

  function HeadOf(mode: Mode, arity: nat, kids: seq<Value>): Head
    requires 3 <= arity <= 4 && |kids| >= arity - 1
  {
    if !Decodable(mode, kids[0]) then UnreadableHead else
    match IntOf(kids[0])
    case None => BadHead
    case Some(t) =>
      if t == 2 then
        if arity != 3 then BadHead
        else if !Decodable(mode, kids[1]) then UnreadableHead
        else if Interface(kids[1]).Text? then NotificationHead(Interface(kids[1]).s)
        else BadHead
      else if t != 0 && t != 1 then BadHead
      else if arity != 4 then BadHead
      else if !Decodable(mode, kids[1]) then UnreadableHead
      else
        match UintOf(kids[1])
        case None => BadHead
        case Some(id) =>
          if t == 1 then ResponseHead(id)
          else if !Decodable(mode, kids[2]) then UnreadableHead
          else if Interface(kids[2]).Text? then RequestHead(id, Interface(kids[2]).s)
          else BadHead
  }

  /** The verdict on one complete value. */
  function Classify(mode: Mode, v: Value): Outcome {
    var n := |v.kids|;
    if !IsArrayCode(v.tok.code) || n < 3 || n > 4 then Invalid else
    match HeadOf(mode, n, v.kids)
    case UnreadableHead => Fatal
    case BadHead => Invalid
    case ResponseHead(id) =>
      (match (FieldOf(mode, v.kids[2]), FieldOf(mode, v.kids[3]))
       case (Some(e), Some(r)) => Good(Response(id, e, r))
       case _ => Fatal)
    case RequestHead(id, m) =>
      if !IsArrayCode(v.kids[3].tok.code) then Invalid else
      (match FieldsOf(mode, v.kids[3].kids)
       case None => Fatal
       case Some(ps) => Good(Request(id, m, ps)))
    case NotificationHead(m) =>
      if !IsArrayCode(v.kids[2].tok.code) then Invalid else
      (match FieldsOf(mode, v.kids[2].kids)
       case None => Fatal
       case Some(ps) => Good(Notification(m, ps)))
  }

  // ---------------------------------------------------------------- writing packets

  function Join(fields: seq<Field>): seq<byte> {
    if fields == [] then []
    else (if fields[0].Raw? then fields[0].bytes else []) + Join(fields[1..])
  }

  function RequestBytes(id: nat, name: seq<byte>, params: seq<Field>): seq<byte>
    requires id < TWO_64 && |name| < TWO_32 && |params| < TWO_32
  {
    EncodeToken(ArrayToken(4)) + (EncodeToken(UintToken(0)) + (EncodeToken(UintToken(id)) +
      (EncodeToken(StringToken(name)) + (EncodeToken(ArrayToken(|params|)) + Join(params)))))
  }

  function NotificationBytes(name: seq<byte>, params: seq<Field>): seq<byte>
    requires |name| < TWO_32 && |params| < TWO_32
  {
    EncodeToken(ArrayToken(3)) + (EncodeToken(UintToken(2)) +
      (EncodeToken(StringToken(name)) + (EncodeToken(ArrayToken(|params|)) + Join(params))))
  }

  function ResponseBytes(id: nat, err: seq<byte>, result: seq<byte>): seq<byte>
    requires id < TWO_64
  {
    EncodeToken(ArrayToken(4)) + (EncodeToken(UintToken(1)) + (EncodeToken(UintToken(id)) + (err + result)))
  }

  /** The same messages as trees. */
  function RequestValue(id: nat, name: seq<byte>, params: seq<Value>): Value
    requires id < TWO_64 && |name| < TWO_32 && |params| < TWO_32
  {
    Node(ArrayToken(4), [Scalar(UintToken(0)), Scalar(UintToken(id)), Scalar(StringToken(name)),
                         Node(ArrayToken(|params|), params)])
  }

  function NotificationValue(name: seq<byte>, params: seq<Value>): Value
    requires |name| < TWO_32 && |params| < TWO_32
  {
    Node(ArrayToken(3), [Scalar(UintToken(2)), Scalar(StringToken(name)), Node(ArrayToken(|params|), params)])
  }

  function ResponseValue(id: nat, err: Value, result: Value): Value
    requires id < TWO_64
  {
    Node(ArrayToken(4), [Scalar(UintToken(1)), Scalar(UintToken(id)), err, result])
  }

  /** Values as the bytes that stand for them. */
  function RawFields(vs: seq<Value>): (fs: seq<Field>)
    ensures |fs| == |vs|
  {
    if vs == [] then [] else [Raw(Encode(vs[0]))] + RawFields(vs[1..])
  }

  lemma {:induction false} JoinIsEncodeAll(mode: Mode, vs: seq<Value>)
    ensures Join(RawFields(vs)) == EncodeAll(vs)
    ensures mode.raw ==> FieldsOf(mode, vs) == Some(RawFields(vs))
  {
    if vs != [] {
      JoinIsEncodeAll(mode, vs[1..]);
      assert RawFields(vs)[1..] == RawFields(vs[1..]);
    }
  }

  lemma EncodeScalar(t: Token)
    ensures Encode(Scalar(t)) == EncodeToken(t)
  {
  }

  lemma EncodeFour(t: Token, a: Value, b: Value, c: Value, d: Value)
    ensures Encode(Node(t, [a, b, c, d])) ==
            EncodeToken(t) + (Encode(a) + (Encode(b) + (Encode(c) + Encode(d))))
  {
    assert [a, b, c, d] == [a] + ([b] + ([c] + [d]));
    EncodeCons(a, [b] + ([c] + [d]));
    EncodeCons(b, [c] + [d]);
    EncodeCons(c, [d]);
    EncodeAllSingle(d);
  }

  lemma EncodeThree(t: Token, a: Value, b: Value, c: Value)
    ensures Encode(Node(t, [a, b, c])) == EncodeToken(t) + (Encode(a) + (Encode(b) + Encode(c)))
  {
    assert [a, b, c] == [a] + ([b] + [c]);
    EncodeCons(a, [b] + [c]);
    EncodeCons(b, [c]);
    EncodeAllSingle(c);
  }

  lemma WellFormedScalar(t: Token)
    requires t.Valid() && t.Children() == 0
    ensures WellFormed([Scalar(t)])
  {
    WellFormedCons(Scalar(t), []);
  }

  predicate IsNumber(v: Value, n: nat) {
    v.tok.Valid() && v.tok.Children() == 0 && v.kids == [] && Interface(v).Number? && Interface(v).n == n
  }

  lemma NumberScalar(n: nat)
    requires n < TWO_64
    ensures IsNumber(Scalar(UintToken(n)), n) && WellFormed([Scalar(UintToken(n))])
    ensures Encode(Scalar(UintToken(n))) == EncodeToken(UintToken(n))
  {
    UintRoundTrip(n);
    WellFormedScalar(UintToken(n));
  }

  lemma NumberReads(v: Value, n: nat)
    requires IsNumber(v, n)
    ensures UintOf(v) == Some(n) && (n <= MAX_INT64 ==> IntOf(v) == Some(n))
  {
    InterfaceRepresentable(v);
  }

  /** The verdict on a packet whose fields the receiver decodes or not. */
  function RequestOutcome(id: nat, name: seq<byte>, fields: Option<seq<Field>>): Outcome {
    if fields.Some? then Good(Request(id, name, fields.value)) else Fatal
  }

  function NotificationOutcome(name: seq<byte>, fields: Option<seq<Field>>): Outcome {
    if fields.Some? then Good(Notification(name, fields.value)) else Fatal
  }

  function ResponseOutcome(id: nat, err: Option<Field>, result: Option<Field>): Outcome {
    if err.Some? && result.Some? then Good(Response(id, err.value, result.value)) else Fatal
  }

  lemma ClassifyRequest(mode: Mode, t: Token, a: Value, b: Value, c: Value, d: Value, id: nat, name: seq<byte>)
    requires IsArrayCode(t.code) && IsNumber(a, 0) && IsNumber(b, id)
    requires Interface(c) == Text(name) && IsArrayCode(d.tok.code)
    ensures Classify(mode, Node(t, [a, b, c, d])) == RequestOutcome(id, name, FieldsOf(mode, d.kids))
  {
    NumberReads(a, 0);
    NumberReads(b, id);
  }

  lemma ClassifyNotification(mode: Mode, t: Token, a: Value, c: Value, d: Value, name: seq<byte>)
    requires IsArrayCode(t.code) && IsNumber(a, 2)
    requires Interface(c) == Text(name) && IsArrayCode(d.tok.code)
    ensures Classify(mode, Node(t, [a, c, d])) == NotificationOutcome(name, FieldsOf(mode, d.kids))
  {
    NumberReads(a, 2);
  }

  lemma ClassifyResponse(mode: Mode, t: Token, a: Value, b: Value, c: Value, d: Value, id: nat)
    requires IsArrayCode(t.code) && IsNumber(a, 1) && IsNumber(b, id)
    ensures Classify(mode, Node(t, [a, b, c, d])) == ResponseOutcome(id, FieldOf(mode, c), FieldOf(mode, d))
  {
    NumberReads(a, 1);
    NumberReads(b, id);
  }

  lemma ArrayWellFormed(vs: seq<Value>)
    requires WellFormed(vs) && |vs| < TWO_32
    ensures WellFormed([Node(ArrayToken(|vs|), vs)])
  {
    ArrayRoundTrip(|vs|);
    WellFormedCons(Node(ArrayToken(|vs|), vs), []);
  }

  lemma StringScalar(s: seq<byte>)
    requires |s| < TWO_32
    ensures Interface(Scalar(StringToken(s))) == Text(s) && WellFormed([Scalar(StringToken(s))])
  {
    StringRoundTrip(s);
    WellFormedScalar(StringToken(s));
  }

  lemma ThreeWellFormed(a: Value, b: Value, c: Value)
    requires WellFormed([a]) && WellFormed([b]) && WellFormed([c])
    ensures WellFormed([a, b, c])
  {
    assert [a, b, c] == [a] + ([b] + [c]);
    WellFormedCons(b, [c]);
    WellFormedCons(a, [b] + [c]);
  }

  lemma FourWellFormed(a: Value, b: Value, c: Value, d: Value)
    requires WellFormed([a]) && WellFormed([b]) && WellFormed([c]) && WellFormed([d])
    ensures WellFormed([a, b, c, d])
  {
    ThreeWellFormed(b, c, d);
    assert [a, b, c, d] == [a] + [b, c, d];
    WellFormedCons(a, [b, c, d]);
  }

  /** A request written by the sender is one well-formed value.  In whatever mode the receiver works, it reads back
      as that request with the parameters as that mode has them, unless the mode refuses one of them. */
  lemma RequestRoundTrip(mode: Mode, id: nat, name: seq<byte>, params: seq<Value>)
    requires WellFormed(params) && id < TWO_64 && |name| < TWO_32 && |params| < TWO_32
    ensures WellFormed([RequestValue(id, name, params)])
    ensures Encode(RequestValue(id, name, params)) == RequestBytes(id, name, RawFields(params))
    ensures Classify(mode, RequestValue(id, name, params)) == RequestOutcome(id, name, FieldsOf(mode, params))
  {
    RequestWellFormed(id, name, params);
    RequestEncodes(mode, id, name, params);
    RequestClassifies(mode, id, name, params);
  }

  lemma RequestWellFormed(id: nat, name: seq<byte>, params: seq<Value>)
    requires WellFormed(params)
    requires id < TWO_64 && |name| < TWO_32 && |params| < TWO_32
    ensures WellFormed([RequestValue(id, name, params)])
  {
    NumberScalar(0);
    NumberScalar(id);
    StringScalar(name);
    ArrayWellFormed(params);
    FourWellFormed(Scalar(UintToken(0)), Scalar(UintToken(id)), Scalar(StringToken(name)),
                   Node(ArrayToken(|params|), params));
    ArrayWellFormed(RequestValue(id, name, params).kids);
  }

  lemma RequestEncodes(mode: Mode, id: nat, name: seq<byte>, params: seq<Value>)
    requires id < TWO_64 && |name| < TWO_32 && |params| < TWO_32
    ensures Encode(RequestValue(id, name, params)) == RequestBytes(id, name, RawFields(params))
  {
    JoinIsEncodeAll(mode, params);
    EncodeFourTokens(ArrayToken(4), UintToken(0), UintToken(id), StringToken(name), ArrayToken(|params|), params);
  }

  lemma EncodeFourTokens(t: Token, a: Token, b: Token, c: Token, d: Token, params: seq<Value>)
    ensures Encode(Node(t, [Scalar(a), Scalar(b), Scalar(c), Node(d, params)])) ==
            EncodeToken(t) + (EncodeToken(a) + (EncodeToken(b) + (EncodeToken(c) +
              (EncodeToken(d) + EncodeAll(params)))))
  {
    EncodeFour(t, Scalar(a), Scalar(b), Scalar(c), Node(d, params));
    EncodeScalar(a);
    EncodeScalar(b);
    EncodeScalar(c);
  }

  lemma RequestClassifies(mode: Mode, id: nat, name: seq<byte>, params: seq<Value>)
    requires id < TWO_64 && |name| < TWO_32 && |params| < TWO_32
    ensures Classify(mode, RequestValue(id, name, params)) == RequestOutcome(id, name, FieldsOf(mode, params))
  {
    NumberScalar(0);
    NumberScalar(id);
    StringRoundTrip(name);
    ArrayRoundTrip(|params|);
    ArrayRoundTrip(4);
    ClassifyRequest(mode, ArrayToken(4), Scalar(UintToken(0)), Scalar(UintToken(id)), Scalar(StringToken(name)),
                    Node(ArrayToken(|params|), params), id, name);
  }

  /** The same for a notification. */
  lemma NotificationRoundTrip(mode: Mode, name: seq<byte>, params: seq<Value>)
    requires WellFormed(params) && |name| < TWO_32 && |params| < TWO_32
    ensures WellFormed([NotificationValue(name, params)])
    ensures Encode(NotificationValue(name, params)) == NotificationBytes(name, RawFields(params))
    ensures Classify(mode, NotificationValue(name, params)) == NotificationOutcome(name, FieldsOf(mode, params))
  {
    NotificationWellFormed(name, params);
    NotificationEncodes(mode, name, params);
    NotificationClassifies(mode, name, params);
  }

  lemma NotificationWellFormed(name: seq<byte>, params: seq<Value>)
    requires WellFormed(params) && |name| < TWO_32 && |params| < TWO_32
    ensures WellFormed([NotificationValue(name, params)])
  {
    NumberScalar(2);
    StringScalar(name);
    ArrayWellFormed(params);
    ThreeWellFormed(Scalar(UintToken(2)), Scalar(StringToken(name)), Node(ArrayToken(|params|), params));
    ArrayWellFormed(NotificationValue(name, params).kids);
  }

  lemma NotificationEncodes(mode: Mode, name: seq<byte>, params: seq<Value>)
    requires |name| < TWO_32 && |params| < TWO_32
    ensures Encode(NotificationValue(name, params)) == NotificationBytes(name, RawFields(params))
  {
    JoinIsEncodeAll(mode, params);
    EncodeThreeTokens(ArrayToken(3), UintToken(2), StringToken(name), ArrayToken(|params|), params);
  }

  lemma EncodeThreeTokens(t: Token, a: Token, c: Token, d: Token, params: seq<Value>)
    ensures Encode(Node(t, [Scalar(a), Scalar(c), Node(d, params)])) ==
            EncodeToken(t) + (EncodeToken(a) + (EncodeToken(c) + (EncodeToken(d) + EncodeAll(params))))
  {
    EncodeThree(t, Scalar(a), Scalar(c), Node(d, params));
    EncodeScalar(a);
    EncodeScalar(c);
  }

  lemma NotificationClassifies(mode: Mode, name: seq<byte>, params: seq<Value>)
    requires |name| < TWO_32 && |params| < TWO_32
    ensures Classify(mode, NotificationValue(name, params)) == NotificationOutcome(name, FieldsOf(mode, params))
  {
    NumberScalar(2);
    StringRoundTrip(name);
    ArrayRoundTrip(|params|);
    ArrayRoundTrip(3);
    ClassifyNotification(mode, ArrayToken(3), Scalar(UintToken(2)), Scalar(StringToken(name)),
                         Node(ArrayToken(|params|), params), name);
  }

  /** The same for a response. */
  lemma ResponseRoundTrip(mode: Mode, id: nat, err: Value, result: Value)
    requires id < TWO_64 && WellFormed([err]) && WellFormed([result])
    ensures WellFormed([ResponseValue(id, err, result)])
    ensures Encode(ResponseValue(id, err, result)) == ResponseBytes(id, Encode(err), Encode(result))
    ensures Classify(mode, ResponseValue(id, err, result)) ==
            ResponseOutcome(id, FieldOf(mode, err), FieldOf(mode, result))
  {
    var a, b := Scalar(UintToken(1)), Scalar(UintToken(id));
    NumberScalar(1);
    NumberScalar(id);
    FourWellFormed(a, b, err, result);
    ArrayWellFormed([a, b, err, result]);
    EncodeFour(ArrayToken(4), a, b, err, result);
    ArrayRoundTrip(4);
    ClassifyResponse(mode, ArrayToken(4), a, b, err, result, id);
  }

  // ---------------------------------------------------------------- transparency

  lemma {:induction false} WellFormedAt(vs: seq<Value>, i: nat)
    requires WellFormed(vs) && i < |vs|
    ensures vs[i].tok.Valid() && |vs[i].kids| == vs[i].tok.Children() && WellFormed(vs[i].kids)
    ensures WellFormed([vs[i]])
  {
    if i == 0 {
      WellFormedCons(vs[0], []);
    } else {
      WellFormedAt(vs[1..], i - 1);
    }
  }

  /** Lengths read from the wire fit the widest length field. */
  lemma LengthsFit(t: Token)
    requires t.Valid()
    ensures IsArrayCode(t.code) ==> t.Children() < TWO_32
    ensures IsStringCode(t.code) ==> |t.body| < TWO_32
  {
    Powers();
  }

  lemma NameFits(v: Value, name: seq<byte>)
    requires v.tok.Valid() && Interface(v) == Text(name)
    ensures |name| < TWO_32
  {
    LengthsFit(v.tok);
  }

  /** A request packet leaves the router with its name, its parameter count and every parameter byte
      as it came; only the id is the router's.  Parsing the forwarded bytes gives that request back. */
  lemma RequestForwardedUnchanged(mode: Mode, v: Value, id: nat, name: seq<byte>, fields: seq<Field>, newId: nat)
    requires mode.raw && WellFormed([v]) && newId < TWO_32
    requires Classify(mode, v) == Good(Request(id, name, fields))
    ensures |name| < TWO_32 && |fields| < TWO_32
    ensures |v.kids| == 4 && Join(fields) == EncodeAll(v.kids[3].kids)
    ensures exists w :: Parse(RequestBytes(newId, name, fields), 1) == Some(([w], []))
                     && Classify(mode, w) == Good(Request(newId, name, fields))
  {
    WellFormedAt([v], 0);
    RequestShape(mode, v, id, name, fields);
    WellFormedAt(v.kids, 2);
    WellFormedAt(v.kids, 3);
    NameFits(v.kids[2], name);
    LengthsFit(v.kids[3].tok);
    var params := v.kids[3].kids;
    JoinIsEncodeAll(mode, params);
    RequestRoundTrip(mode, newId, name, params);
    var w := RequestValue(newId, name, params);
    ReadsBack(w);
  }

  lemma RequestShape(mode: Mode, v: Value, id: nat, name: seq<byte>, fields: seq<Field>)
    requires Classify(mode, v) == Good(Request(id, name, fields))
    ensures |v.kids| == 4 && Interface(v.kids[2]) == Text(name)
    ensures IsArrayCode(v.kids[3].tok.code) && FieldsOf(mode, v.kids[3].kids) == Some(fields)
  {
  }

  lemma NotificationShape(mode: Mode, v: Value, name: seq<byte>, fields: seq<Field>)
    requires Classify(mode, v) == Good(Notification(name, fields))
    ensures |v.kids| == 3 && Interface(v.kids[1]) == Text(name)
    ensures IsArrayCode(v.kids[2].tok.code) && FieldsOf(mode, v.kids[2].kids) == Some(fields)
  {
  }

  lemma ResponseShape(mode: Mode, v: Value, id: nat, err: Field, result: Field)
    requires mode.raw && Classify(mode, v) == Good(Response(id, err, result))
    ensures |v.kids| == 4 && err == Raw(Encode(v.kids[2])) && result == Raw(Encode(v.kids[3]))
  {
  }

  lemma ReadsBack(w: Value)
    requires WellFormed([w])
    ensures Parse(Encode(w), 1) == Some(([w], []))
  {
    EncodeAllSingle(w);
    ParseInvertsEncode([w], []);
    assert Encode(w) + [] == Encode(w);
  }

  lemma NotificationForwardedUnchanged(mode: Mode, v: Value, name: seq<byte>, fields: seq<Field>)
    requires mode.raw && WellFormed([v])
    requires Classify(mode, v) == Good(Notification(name, fields))
    ensures |name| < TWO_32 && |fields| < TWO_32
    ensures |v.kids| == 3 && Join(fields) == EncodeAll(v.kids[2].kids)
    ensures exists w :: Parse(NotificationBytes(name, fields), 1) == Some(([w], []))
                     && Classify(mode, w) == Good(Notification(name, fields))
  {
    WellFormedAt([v], 0);
    NotificationShape(mode, v, name, fields);
    WellFormedAt(v.kids, 1);
    WellFormedAt(v.kids, 2);
    NameFits(v.kids[1], name);
    LengthsFit(v.kids[2].tok);
    var params := v.kids[2].kids;
    JoinIsEncodeAll(mode, params);
    NotificationRoundTrip(mode, name, params);
    ReadsBack(NotificationValue(name, params));
  }

  /** A reply returns to the caller with the callee's error and result bytes; only the id changes back. */
  lemma ResponseForwardedUnchanged(mode: Mode, v: Value, id: nat, err: seq<byte>, result: seq<byte>, originalId: nat)
    requires mode.raw && WellFormed([v]) && originalId < TWO_64
    requires Classify(mode, v) == Good(Response(id, Raw(err), Raw(result)))
    ensures |v.kids| == 4 && err == Encode(v.kids[2]) && result == Encode(v.kids[3])
    ensures exists w :: Parse(ResponseBytes(originalId, err, result), 1) == Some(([w], []))
                     && Classify(mode, w) == Good(Response(originalId, Raw(err), Raw(result)))
  {
    WellFormedAt([v], 0);
    ResponseShape(mode, v, id, Raw(err), Raw(result));
    WellFormedAt(v.kids, 2);
    WellFormedAt(v.kids, 3);
    ResponseRoundTrip(mode, originalId, v.kids[2], v.kids[3]);
    ReadsBack(ResponseValue(originalId, v.kids[2], v.kids[3]));
  }

  // ---------------------------------------------------------------- exactly which values are packets

  predicate IsInt(v: Value, n: int) {
    v.tok.Valid() && Interface(v).Number? && Interface(v).n == n
  }

  lemma IntOfIsInt(v: Value, n: int)
    ensures -MAX_INT64 - 1 <= n <= MAX_INT64 ==> (IntOf(v) == Some(n) <==> IsInt(v, n))
    ensures n >= 0 ==> (UintOf(v) == Some(n) <==> IsInt(v, n))
  {
    if v.tok.Valid() {
      InterfaceRepresentable(v);
    }
  }

  /** A request is an array of the integer 0, a non-negative integer, a string and an array, and nothing else is. */
  lemma RequestExactly(mode: Mode, v: Value, id: nat, name: seq<byte>, fields: seq<Field>)
    ensures Classify(mode, v) == Good(Request(id, name, fields)) <==>
            && IsArrayCode(v.tok.code) && |v.kids| == 4 && IsInt(v.kids[0], 0) && IsInt(v.kids[1], id)
            && Interface(v.kids[2]) == Text(name)
            && IsArrayCode(v.kids[3].tok.code) && FieldsOf(mode, v.kids[3].kids) == Some(fields)
  {
    if |v.kids| == 4 {
      IntOfIsInt(v.kids[0], 0);
      IntOfIsInt(v.kids[1], id);
    }
  }

  /** A response is an array of the integer 1, a non-negative integer, and two values that the receiver can read. */
  lemma ResponseExactly(mode: Mode, v: Value, id: nat, err: Field, result: Field)
    ensures Classify(mode, v) == Good(Response(id, err, result)) <==>
            && IsArrayCode(v.tok.code) && |v.kids| == 4 && IsInt(v.kids[0], 1) && IsInt(v.kids[1], id)
            && FieldOf(mode, v.kids[2]) == Some(err) && FieldOf(mode, v.kids[3]) == Some(result)
  {
    if |v.kids| == 4 {
      IntOfIsInt(v.kids[0], 1);
      IntOfIsInt(v.kids[1], id);
    }
  }

  /** A notification is an array of the integer 2, a string and an array. */
  lemma NotificationExactly(mode: Mode, v: Value, name: seq<byte>, fields: seq<Field>)
    ensures Classify(mode, v) == Good(Notification(name, fields)) <==>
            && IsArrayCode(v.tok.code) && |v.kids| == 3 && IsInt(v.kids[0], 2) && Interface(v.kids[1]) == Text(name)
            && IsArrayCode(v.kids[2].tok.code) && FieldsOf(mode, v.kids[2].kids) == Some(fields)
  {
    if |v.kids| == 3 {
      IntOfIsInt(v.kids[0], 2);
    }
  }

  /** An array of four whose type cannot be read, or whose type fits but whose id, or then name, cannot be read. */
  lemma UnreadableFour(mode: Mode, kids: seq<Value>)
    requires |kids| == 4
    ensures HeadOf(mode, 4, kids) == UnreadableHead <==>
            || !Decodable(mode, kids[0])
            || ((IsInt(kids[0], 0) || IsInt(kids[0], 1)) && !Decodable(mode, kids[1]))
            || (IsInt(kids[0], 0) && UintOf(kids[1]).Some? && !Decodable(mode, kids[2]))
  {
    IntOfIsInt(kids[0], 0);
    IntOfIsInt(kids[0], 1);
  }

  lemma UnreadableThree(mode: Mode, kids: seq<Value>)
    requires |kids| == 3
    ensures HeadOf(mode, 3, kids) == UnreadableHead <==>
            !Decodable(mode, kids[0]) || (IsInt(kids[0], 2) && !Decodable(mode, kids[1]))
  {
    IntOfIsInt(kids[0], 2);
  }

  lemma SmallTokens()
    ensures EncodeToken(ArrayToken(4)) == [0x94] && EncodeToken(ArrayToken(3)) == [0x93]
    ensures EncodeToken(UintToken(0)) == [0x00] && EncodeToken(UintToken(1)) == [0x01]
    ensures EncodeToken(UintToken(2)) == [0x02]
  {
  }

  lemma TwoInFront(a: byte, b: byte, s: seq<byte>)
    ensures [a] + ([b] + s) == [a, b] + s
  {
  }

  /** The bytes on the wire: array, message type, and then the rest in the order of the specification. */
  lemma RequestOnTheWire(id: nat, name: seq<byte>, params: seq<Field>)
    requires id < TWO_64 && |name| < TWO_32 && |params| < TWO_32
    ensures RequestBytes(id, name, params) ==
            [0x94, 0x00] + (EncodeToken(UintToken(id)) + (EncodeToken(StringToken(name)) +
              (EncodeToken(ArrayToken(|params|)) + Join(params))))
  {
    SmallTokens();
    TwoInFront(0x94, 0x00, EncodeToken(UintToken(id)) + (EncodeToken(StringToken(name)) +
      (EncodeToken(ArrayToken(|params|)) + Join(params))));
  }

  lemma ResponseOnTheWire(id: nat, err: seq<byte>, result: seq<byte>)
    requires id < TWO_64
    ensures ResponseBytes(id, err, result) == [0x94, 0x01] + (EncodeToken(UintToken(id)) + (err + result))
  {
    SmallTokens();
    TwoInFront(0x94, 0x01, EncodeToken(UintToken(id)) + (err + result));
  }

  lemma NotificationOnTheWire(name: seq<byte>, params: seq<Field>)
    requires |name| < TWO_32 && |params| < TWO_32
    ensures NotificationBytes(name, params) ==
            [0x93, 0x02] + (EncodeToken(StringToken(name)) + (EncodeToken(ArrayToken(|params|)) + Join(params)))
  {
    SmallTokens();
    TwoInFront(0x93, 0x02, EncodeToken(StringToken(name)) + (EncodeToken(ArrayToken(|params|)) + Join(params)));
  }
}
