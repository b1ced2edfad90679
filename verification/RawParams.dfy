/** Parameters that stay as the bytes that arrived until somebody looks at them. */
module RawParams {
  import opened Basics
  import opened MsgPack
  import opened TypeConversion
  import opened Packets

  /** What unmarshalling the bytes of one value into an `any` gives; nil when the library refuses. */
  function Unmarshal(mode: Mode, bytes: seq<byte>): Option<GoValue> {
    match Parse(bytes, 1)
    case None => None
    case Some((vs, _)) => if Decodable(mode, vs[0]) then Some(Interface(vs[0])) else None
  }

  function DecodeOne(mode: Mode, f: Field): Option<GoValue> {
    match f
    case Raw(bytes) => Unmarshal(mode, bytes)
    case Decoded(g) => Some(g)
  }

  function DecodeAll(mode: Mode, fs: seq<Field>): (r: seq<Option<GoValue>>)
    ensures |r| == |fs|
  {
    seq(|fs|, i requires 0 <= i < |fs| => DecodeOne(mode, fs[i]))
  }

  class Lazy {
    const mode: Mode
    const raw: seq<Field>
    var decoded: Option<seq<Option<GoValue>>>

    ghost predicate Valid()
      reads this
    {
      decoded.Some? ==> decoded.value == DecodeAll(mode, raw)
    }

    constructor (mode: Mode, raw: seq<Field>)
      ensures Valid() && this.raw == raw && this.mode == mode
    {
      this.mode := mode;
      this.raw := raw;
      this.decoded := None;
    }

    /** Any number of calls gives the same list, and `raw`, which is what is forwarded, cannot change. */
    method Get() returns (r: seq<Option<GoValue>>)
      requires Valid()
      modifies this
      ensures Valid() && r == DecodeAll(mode, raw)
    {
      if |raw| == 0 {
        return [];
      }
      if decoded.Some? {
        return decoded.value;
      }
      r := [];
      for i := 0 to |raw|
        invariant |r| == i && forall j :: 0 <= j < i ==> r[j] == DecodeOne(mode, raw[j])
        invariant decoded == None
      {
        r := r + [DecodeOne(mode, raw[i])];
      }
      decoded := Some(r);
    }
  }

  lemma {:induction false} FieldAt(mode: Mode, vs: seq<Value>, i: nat)
    requires FieldsOf(mode, vs).Some? && i < |vs|
    ensures FieldOf(mode, vs[i]) == Some(FieldsOf(mode, vs).value[i])
  {
    if i > 0 {
      FieldAt(mode, vs[1..], i - 1);
    }
  }

  lemma RawReadsBack(mode: Mode, v: Value)
    requires WellFormed([v]) && Decodable(mode, v)
    ensures DecodeOne(mode, Raw(Encode(v))) == Some(Interface(v))
  {
    ReadsBack(v);
  }

  lemma LazyAt(lazy: Mode, eager: Mode, vs: seq<Value>, i: nat)
    requires WellFormed(vs) && lazy.raw && eager == lazy.(raw := false) && i < |vs|
    requires FieldsOf(lazy, vs).Some? && FieldsOf(eager, vs).Some?
    ensures DecodeOne(lazy, FieldsOf(lazy, vs).value[i]) == Some(Interface(vs[i]))
    ensures DecodeOne(eager, FieldsOf(eager, vs).value[i]) == Some(Interface(vs[i]))
  {
    FieldAt(lazy, vs, i);
    FieldAt(eager, vs, i);
    WellFormedAt(vs, i);
    RawReadsBack(lazy, vs[i]);
  }

  /** Keeping the parameters raw and decoding them later gives what decoding them at once would have given. */
  lemma LazyEqualsEager(lazy: Mode, eager: Mode, vs: seq<Value>)
    requires WellFormed(vs) && lazy.raw && eager == lazy.(raw := false) && FieldsOf(eager, vs).Some?
    ensures FieldsOf(lazy, vs).Some?
    ensures DecodeAll(lazy, FieldsOf(lazy, vs).value) == DecodeAll(eager, FieldsOf(eager, vs).value)
    ensures forall i :: 0 <= i < |vs| ==> DecodeAll(lazy, FieldsOf(lazy, vs).value)[i] == Some(Interface(vs[i]))
  {
    JoinIsEncodeAll(lazy, vs);
    forall i: nat | i < |vs|
      ensures DecodeAll(lazy, FieldsOf(lazy, vs).value)[i] == Some(Interface(vs[i]))
      ensures DecodeAll(eager, FieldsOf(eager, vs).value)[i] == Some(Interface(vs[i]))
    {
      LazyAt(lazy, eager, vs, i);
    }
  }
}
