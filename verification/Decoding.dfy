/** The receiving side of a connection: the decoder, and decoding one packet field by field. */
module Decoding {
  import opened Basics
  import opened MsgPack
  import opened TypeConversion
  import opened Packets

  /** The library's decoder, reading from the bytes that the peer will ever send. */
  class Decoder {
    var input: seq<byte>

    constructor (input: seq<byte>)
      ensures this.input == input
    {
      this.input := input;
    }

    method PeekCode() returns (code: Option<byte>)
      ensures code == if input == [] then None else Some(input[0])
    {
      code := if input == [] then None else Some(input[0]);
    }

    /** The length in an array header.  When the input ends inside the header the read error is dropped
        by the caller, which then sees the length 0 that the library returns with it. */
    method DecodeArrayLen() returns (l: nat)
      requires input != [] && IsArrayCode(input[0])
      modifies this
      ensures match LexToken(old(input))
              case Some((t, rest)) => l == t.Children() && input == rest
              case None => l == 0 && input == []
    {
      match LexToken(input)
      case Some((t, rest)) =>
        l := t.Children();
        input := rest;
      case None =>
        l := 0;
        input := [];
    }

    method Skip() returns (ok: bool)
      modifies this
      ensures ok == Parse(old(input), 1).Some?
      ensures ok ==> input == Parse(old(input), 1).value.1
    {
      match Parse(input, 1)
      case Some((_, rest)) =>
        input := rest;
        ok := true;
      case None =>
        ok := false;
    }

    method DecodeInterface(mode: Mode) returns (r: Option<Value>)
      modifies this
      ensures match Parse(old(input), 1)
              case None => r == None
              case Some((vs, rest)) =>
                if Decodable(mode, vs[0]) then r == Some(vs[0]) && input == rest else r == None
    {
      match Parse(input, 1)
      case Some((vs, rest)) =>
        if Decodable(mode, vs[0]) {
          r := Some(vs[0]);
          input := rest;
        } else {
          r := None;
        }
      case None =>
        r := None;
    }

    method DecodeRaw() returns (r: Option<seq<byte>>)
      modifies this
      ensures match Parse(old(input), 1)
              case None => r == None
              case Some((vs, rest)) => r == Some(Encode(vs[0])) && input == rest
    {
      match Parse(input, 1)
      case Some((vs, rest)) =>
        r := Some(Encode(vs[0]));
        input := rest;
      case None =>
        r := None;
    }

    /** A parameter, error or result, raw or decoded as the connection is set. */
    method DecodeField(mode: Mode) returns (r: Option<Field>)
      modifies this
      ensures match Parse(old(input), 1)
              case None => r == None
              case Some((vs, rest)) => r == FieldOf(mode, vs[0]) && (r.Some? ==> input == rest)
    {
      if mode.raw {
        var raw := DecodeRaw();
        r := if raw.Some? then Some(Raw(raw.value)) else None;
      } else {
        var v := DecodeInterface(mode);
        r := if v.Some? then Some(Decoded(Interface(v.value))) else None;
      }
    }

    /** Skips n values and reports the packet as invalid; a failed skip is never reported that way. */
    method SkipAndError(n: nat) returns (r: Outcome)
      modifies this
      ensures match Parse(old(input), n)
              case None => r == Fatal
              case Some((_, rest)) => r == Invalid && input == rest
    {
      ghost var start := input;
      for i := 0 to n
        invariant Parse(start, n).Some? <==> Parse(input, n - i).Some?
        invariant Parse(start, n).Some? ==> Parse(start, n).value.1 == Parse(input, n - i).value.1
      {
        ParseHead(input, n - i);
        var ok := Skip();
        if !ok {
          return Fatal;
        }
      }
      r := Invalid;
    }
  }

  // ---------------------------------------------------------------- reading one value piecewise

  /** Reading n values is reading one and then the others. */
  lemma ParseHead(s: seq<byte>, n: nat)
    requires n > 0
    ensures match Parse(s, 1)
            case None => Parse(s, n) == None
            case Some((vs, rest)) => Parse(s, n) == After(vs, Parse(rest, n - 1))
  {
    match LexToken(s)
    case None =>
    case Some((t, r1)) =>
      match Parse(r1, t.Children())
      case None =>
      case Some((kids, r2)) =>
        assert [Node(t, kids)] + [] == [Node(t, kids)];
        assert Parse(s, 1) == Some(([Node(t, kids)], r2));
  }

  /** Of the n values that start at `start`, `done` have been read and `left` more start at `now`. */
  ghost predicate Within(start: seq<byte>, n: nat, done: seq<Value>, now: seq<byte>, left: nat) {
    Parse(start, n) == After(done, Parse(now, left))
  }

  function After(done: seq<Value>, read: Option<(seq<Value>, seq<byte>)>): Option<(seq<Value>, seq<byte>)> {
    match read
    case None => None
    case Some((vs, rest)) => Some((done + vs, rest))
  }

  lemma AfterAfter(done: seq<Value>, vs: seq<Value>, read: Option<(seq<Value>, seq<byte>)>)
    ensures After(done, After(vs, read)) == After(done + vs, read)
  {
    if read.Some? {
      assert done + (vs + read.value.0) == (done + vs) + read.value.0;
    }
  }

  lemma Advance(start: seq<byte>, n: nat, done: seq<Value>, now: seq<byte>, left: nat)
    requires Within(start, n, done, now, left) && left > 0
    ensures match Parse(now, 1)
            case None => Parse(start, n) == None
            case Some((vs, next)) => Within(start, n, done + vs, next, left - 1)
  {
    ParseHead(now, left);
    var one := Parse(now, 1);
    if one.Some? {
      AfterAfter(done, one.value.0, Parse(one.value.1, left - 1));
    }
  }

  lemma OneValue(s: seq<byte>, t: Token, inside: seq<byte>)
    requires LexToken(s) == Some((t, inside))
    ensures match Parse(inside, t.Children())
            case None => Parse(s, 1) == None
            case Some((kids, rest)) => Parse(s, 1) == Some(([Node(t, kids)], rest))
  {
    match Parse(inside, t.Children())
    case None =>
    case Some((kids, rest)) =>
      assert [Node(t, kids)] + [] == [Node(t, kids)];
  }

  /** `params` are the first of the n parameters that start at `start`; `left` more start at `now`. */
  ghost predicate Pending(mode: Mode, start: seq<byte>, n: nat, params: seq<Field>, now: seq<byte>, left: nat) {
    var all := Parse(start, n);
    match Parse(now, left)
    case None => all == None
    case Some((vs, rest)) =>
      && all.Some? && all.value.1 == rest
      && FieldsOf(mode, all.value.0) == Prepend(params, FieldsOf(mode, vs))
  }

  function Prepend(fs: seq<Field>, more: Option<seq<Field>>): Option<seq<Field>> {
    match more
    case None => None
    case Some(gs) => Some(fs + gs)
  }

  lemma PendingStart(mode: Mode, start: seq<byte>, n: nat)
    ensures Pending(mode, start, n, [], start, n)
  {
    var all := Parse(start, n);
    if all.Some? && FieldsOf(mode, all.value.0).Some? {
      assert [] + FieldsOf(mode, all.value.0).value == FieldsOf(mode, all.value.0).value;
    }
  }

  lemma FieldsOfCons(mode: Mode, params: seq<Field>, v: Value, vs: seq<Value>)
    ensures Prepend(params, FieldsOf(mode, [v] + vs)) ==
            match FieldOf(mode, v)
            case None => None
            case Some(f) => Prepend(params + [f], FieldsOf(mode, vs))
  {
    assert ([v] + vs)[1..] == vs;
    match (FieldOf(mode, v), FieldsOf(mode, vs))
    case (Some(f), Some(fs)) => assert params + ([f] + fs) == (params + [f]) + fs;
    case _ =>
  }

  lemma PendingNext(mode: Mode, start: seq<byte>, n: nat, params: seq<Field>, now: seq<byte>, left: nat)
    requires left > 0 && Pending(mode, start, n, params, now, left)
    ensures Parse(now, 1) == None ==> Parse(start, n) == None
    ensures Parse(now, 1).Some? ==>
              var (vs, next) := Parse(now, 1).value;
              var f := FieldOf(mode, vs[0]);
              && (f == None ==> Parse(start, n).Some? ==> FieldsOf(mode, Parse(start, n).value.0) == None)
              && (f.Some? ==> Pending(mode, start, n, params + [f.value], next, left - 1))
  {
    ParseHead(now, left);
    var one := Parse(now, 1);
    if one.Some? {
      var others := Parse(one.value.1, left - 1);
      if others.Some? {
        Alone(one.value.0);
        FieldsOfCons(mode, params, one.value.0[0], others.value.0);
      }
    }
  }

  lemma PendingEnd(mode: Mode, start: seq<byte>, n: nat, params: seq<Field>, now: seq<byte>)
    requires Pending(mode, start, n, params, now, 0)
    ensures Parse(start, n).Some? && Parse(start, n).value.1 == now
    ensures FieldsOf(mode, Parse(start, n).value.0) == Some(params)
  {
    assert params + [] == params;
  }

  /** Reads n parameters. */
  method DecodeParamElements(mode: Mode, d: Decoder, n: nat) returns (r: Option<seq<Field>>)
    modifies d
    ensures match Parse(old(d.input), n)
            case None => r == None
            case Some((vs, rest)) => r == FieldsOf(mode, vs) && (r.Some? ==> d.input == rest)
  {
    ghost var start := d.input;
    var params: seq<Field> := [];
    PendingStart(mode, start, n);
    for i := 0 to n
      invariant Pending(mode, start, n, params, d.input, n - i)
    {
      PendingNext(mode, start, n, params, d.input, n - i);
      var p := d.DecodeField(mode);
      if p == None {
        return None;
      }
      params := params + [p.value];
    }
    PendingEnd(mode, start, n, params, d.input);
    r := Some(params);
  }

  /** Reads the parameter array.  An input that ends inside its header counts as an empty array. */
  method DecodeParams(mode: Mode, d: Decoder) returns (r: Option<seq<Field>>)
    requires d.input != [] && IsArrayCode(d.input[0])
    modifies d
    ensures if LexToken(old(d.input)) == None then r == Some([]) && d.input == [] else
            match Parse(old(d.input), 1)
            case None => r == None
            case Some((vs, rest)) => r == FieldsOf(mode, vs[0].kids) && (r.Some? ==> d.input == rest)
  {
    ghost var lexed := LexToken(d.input);
    if lexed.Some? {
      OneValue(d.input, lexed.value.0, lexed.value.1);
    }
    var paramLen := d.DecodeArrayLen();
    r := DecodeParamElements(mode, d, paramLen);
  }

  // ---------------------------------------------------------------- one packet

  /** The input ends inside an array header: the code is there, the length is not. */
  predicate HeaderCut(s: seq<byte>) {
    s != [] && IsArrayCode(s[0]) && LexToken(s) == None
  }

  /** The packet that goes through although the input ends inside the header of its parameter array. */
  function CutPacket(mode: Mode, n: nat, inside: seq<byte>): Option<Packet>
    requires 3 <= n <= 4
  {
    match Parse(inside, n - 1)
    case None => None
    case Some((kids, tail)) =>
      if !HeaderCut(tail) then None else
      match HeadOf(mode, n, kids)
      case RequestHead(id, name) => Some(Request(id, name, []))
      case NotificationHead(name) => Some(Notification(name, []))
      case _ => None
  }

  /** The verdict on the elements of a top-level array of n elements, and where the next value starts. */
  function StepInside(mode: Mode, h: Token, n: nat, inside: seq<byte>): (r: (Outcome, seq<byte>))
    requires 3 <= n <= 4
  {
    match Parse(inside, n)
    case Some((kids, rest)) => (Classify(mode, Node(h, kids)), rest)
    case None =>
      match CutPacket(mode, n, inside)
      case Some(p) => (Good(p), [])
      case None => (Fatal, [])
  }

  /** What decoding one packet from s must give: the verdict on the first value when it is complete;
      otherwise a fatal error, but for the two places where a cut header is taken for an empty array. */
  function Step(mode: Mode, s: seq<byte>): (r: (Outcome, seq<byte>))
    ensures r.0 != Fatal ==> |r.1| < |s|
  {
    match Parse(s, 1)
    case Some((vs, rest)) => (Classify(mode, vs[0]), rest)
    case None =>
      if HeaderCut(s) then (Invalid, []) else
      match LexToken(s)
      case None => (Fatal, [])
      case Some((h, inside)) =>
        if !IsArrayCode(h.code) || h.Children() < 3 || h.Children() > 4 then (Fatal, []) else
        match CutPacket(mode, h.Children(), inside)
        case Some(p) => (Good(p), [])
        case None => (Fatal, [])
  }

  lemma StepEnters(mode: Mode, s: seq<byte>, h: Token, inside: seq<byte>)
    requires LexToken(s) == Some((h, inside)) && IsArrayCode(h.code)
    ensures 3 <= h.Children() <= 4 ==> Step(mode, s) == StepInside(mode, h, h.Children(), inside)
    ensures h.Children() < 3 || h.Children() > 4 ==>
              match Parse(inside, h.Children())
              case None => Step(mode, s).0 == Fatal
              case Some((_, rest)) => Step(mode, s) == (Invalid, rest)
  {
    OneValue(s, h, inside);
  }

  /** `done` are the first elements of the n at `inside`; the `left` others start at `now`.  Both readings
      of the input advance together: the one that needs all n elements and the one that needs all but the last. */
  ghost predicate At(inside: seq<byte>, n: nat, done: seq<Value>, now: seq<byte>, left: nat)
    requires n > 0 && left > 0
  {
    Within(inside, n, done, now, left) && Within(inside, n - 1, done, now, left - 1)
  }

  lemma AtStart(inside: seq<byte>, n: nat)
    requires n > 0
    ensures At(inside, n, [], inside, n)
  {
    forall k: nat ensures Within(inside, k, [], inside, k) {
      if Parse(inside, k).Some? {
        assert [] + Parse(inside, k).value.0 == Parse(inside, k).value.0;
      }
    }
  }

  lemma AtNext(inside: seq<byte>, n: nat, done: seq<Value>, now: seq<byte>, left: nat, v: Value, next: seq<byte>)
    requires left >= 2 && n >= 2 && At(inside, n, done, now, left)
    requires Parse(now, 1) == Some(([v], next))
    ensures At(inside, n, done + [v], next, left - 1)
  {
    AdvanceOver(inside, n, done, now, left, v, next);
    AdvanceOver(inside, n - 1, done, now, left - 1, v, next);
  }

  lemma AdvanceOver(start: seq<byte>, n: nat, done: seq<Value>, now: seq<byte>, left: nat, v: Value, next: seq<byte>)
    requires Within(start, n, done, now, left) && left > 0
    requires Parse(now, 1) == Some(([v], next))
    ensures Within(start, n, done + [v], next, left - 1)
  {
    Advance(start, n, done, now, left);
  }

  lemma AtEnd(inside: seq<byte>, n: nat, done: seq<Value>, now: seq<byte>, left: nat)
    requires left > 0 && n > 0 && At(inside, n, done, now, left) && Parse(now, 1) == None
    ensures Parse(inside, n) == None
    ensures left >= 2 ==> Parse(inside, n - 1) == None
  {
    Advance(inside, n, done, now, left);
    if left >= 2 {
      Advance(inside, n - 1, done, now, left - 1);
    }
  }

  /** Every way to complete `done` has the head `want`. */
  ghost predicate Settles(mode: Mode, n: nat, done: seq<Value>, want: Head)
    requires 3 <= n <= 4
  {
    forall kids: seq<Value> {:trigger Completes(n, done, kids)} ::
      Completes(n, done, kids) ==> HeadOf(mode, n, kids) == want
  }

  predicate Completes(n: nat, done: seq<Value>, kids: seq<Value>) {
    |kids| >= n - 1 && done <= kids
  }

  /** Both readings of the input have the head `want`, if they succeed. */
  ghost predicate HeadsAre(mode: Mode, n: nat, inside: seq<byte>, want: Head)
    requires 3 <= n <= 4
  {
    HeadIs(mode, n, Parse(inside, n), want) && HeadIs(mode, n, Parse(inside, n - 1), want)
  }

  predicate HeadIs(mode: Mode, n: nat, all: Option<(seq<Value>, seq<byte>)>, want: Head)
    requires 3 <= n <= 4
  {
    all.Some? && |all.value.0| >= n - 1 ==> HeadOf(mode, n, all.value.0) == want
  }

  lemma HeadsSettled(mode: Mode, n: nat, inside: seq<byte>, done: seq<Value>, now: seq<byte>, left: nat, want: Head)
    requires 3 <= n <= 4 && left > 0
    requires At(inside, n, done, now, left) && Settles(mode, n, done, want)
    ensures HeadsAre(mode, n, inside, want)
  {
    HeadSettled(mode, n, done, Parse(now, left), want);
    HeadSettled(mode, n, done, Parse(now, left - 1), want);
  }

  lemma HeadSettled(mode: Mode, n: nat, done: seq<Value>, read: Option<(seq<Value>, seq<byte>)>, want: Head)
    requires 3 <= n <= 4 && Settles(mode, n, done, want)
    ensures HeadIs(mode, n, After(done, read), want)
  {
    var all := After(done, read);
    if all.Some? && |all.value.0| >= n - 1 {
      assert Completes(n, done, all.value.0);
    }
  }

  lemma Rejected(mode: Mode, h: Token, n: nat, inside: seq<byte>)
    requires 3 <= n <= 4 && IsArrayCode(h.code) && HeadsAre(mode, n, inside, BadHead)
    ensures match Parse(inside, n)
            case None => StepInside(mode, h, n, inside).0 == Fatal
            case Some((_, rest)) => StepInside(mode, h, n, inside) == (Invalid, rest)
  {
  }

  lemma Unreadable(mode: Mode, h: Token, n: nat, inside: seq<byte>, done: seq<Value>, now: seq<byte>, left: nat)
    requires 3 <= n <= 4 && left > 0 && IsArrayCode(h.code)
    requires At(inside, n, done, now, left) && Settles(mode, n, done, UnreadableHead)
    ensures StepInside(mode, h, n, inside).0 == Fatal
  {
    HeadsSettled(mode, n, inside, done, now, left, UnreadableHead);
  }

  function Call(head: Head, params: seq<Field>): Packet
    requires head.RequestHead? || head.NotificationHead?
  {
    if head.RequestHead? then Request(head.id, head.name, params) else Notification(head.name, params)
  }

  /** The verdict on the last element of a request or notification whose head is settled. */
  function CallStep(mode: Mode, head: Head, s: seq<byte>): (r: (Outcome, seq<byte>))
    requires head.RequestHead? || head.NotificationHead?
  {
    match Parse(s, 1)
    case Some((vs, rest)) =>
      if !IsArrayCode(vs[0].tok.code) then (Invalid, rest) else
      (match FieldsOf(mode, vs[0].kids)
       case Some(params) => (Good(Call(head, params)), rest)
       case None => (Fatal, rest))
    case None =>
      if HeaderCut(s) then (Good(Call(head, [])), []) else (Fatal, [])
  }

  lemma FirstCode(s: seq<byte>)
    ensures match Parse(s, 1)
            case None => true
            case Some((vs, _)) => s != [] && LexToken(s).Some? && vs[0].tok.code == s[0]
  {
  }

  method DecodeCall(mode: Mode, d: Decoder, head: Head) returns (r: Outcome)
    requires head.RequestHead? || head.NotificationHead?
    modifies d
    ensures r == CallStep(mode, head, old(d.input)).0
    ensures r != Fatal ==> d.input == CallStep(mode, head, old(d.input)).1
  {
    FirstCode(d.input);
    var code := d.PeekCode();
    if code == None {
      return Fatal;
    }
    if !IsArrayCode(code.value) {
      r := d.SkipAndError(1);
      return;
    }
    var params := DecodeParams(mode, d);
    r := if params == None then Fatal else Good(Call(head, params.value));
  }

  lemma LastElement(mode: Mode, h: Token, n: nat, inside: seq<byte>, done: seq<Value>, now: seq<byte>)
    requires 3 <= n <= 4 && At(inside, n, done, now, 1)
    ensures match Parse(now, 1)
            case Some((vs, rest)) => StepInside(mode, h, n, inside) == (Classify(mode, Node(h, done + vs)), rest)
            case None => Parse(inside, n) == None && Parse(inside, n - 1) == Some((done, now))
  {
    assert done + [] == done;
  }

  lemma ClassifyCall(mode: Mode, h: Token, n: nat, done: seq<Value>, last: Value, head: Head)
    requires 3 <= n <= 4 && |done| == n - 1 && IsArrayCode(h.code)
    requires (head.RequestHead? && n == 4) || (head.NotificationHead? && n == 3)
    requires Settles(mode, n, done, head)
    ensures Classify(mode, Node(h, done + [last])) ==
            if !IsArrayCode(last.tok.code) then Invalid else
            match FieldsOf(mode, last.kids)
            case Some(params) => Good(Call(head, params))
            case None => Fatal
  {
    assert Completes(n, done, done + [last]);
    assert HeadOf(mode, n, done + [last]) == head;
  }

  lemma CallIsStep(mode: Mode, h: Token, n: nat, inside: seq<byte>, done: seq<Value>, now: seq<byte>, head: Head)
    requires 3 <= n <= 4 && |done| == n - 1 && IsArrayCode(h.code) && At(inside, n, done, now, 1)
    requires (head.RequestHead? && n == 4) || (head.NotificationHead? && n == 3)
    requires Settles(mode, n, done, head)
    ensures StepInside(mode, h, n, inside) == CallStep(mode, head, now)
  {
    LastElement(mode, h, n, inside, done, now);
    var next := Parse(now, 1);
    if next.Some? {
      Alone(next.value.0);
      ClassifyCall(mode, h, n, done, next.value.0[0], head);
    } else {
      CallCut(mode, h, n, inside, done, now, head);
    }
  }

  lemma CallCut(mode: Mode, h: Token, n: nat, inside: seq<byte>, done: seq<Value>, now: seq<byte>, head: Head)
    requires 3 <= n <= 4 && |done| == n - 1
    requires head.RequestHead? || head.NotificationHead?
    requires Settles(mode, n, done, head)
    requires Parse(inside, n) == None && Parse(inside, n - 1) == Some((done, now))
    ensures StepInside(mode, h, n, inside) ==
            if HeaderCut(now) then (Good(Call(head, [])), []) else (Fatal, [])
  {
    assert Completes(n, done, done);
  }

  /** Skipping what is left of a value whose head is bad. */
  lemma SkipIsStep(mode: Mode, h: Token, n: nat, inside: seq<byte>, done: seq<Value>, now: seq<byte>, left: nat)
    requires 3 <= n <= 4 && left > 0 && |done| + left == n && IsArrayCode(h.code)
    requires At(inside, n, done, now, left) && Settles(mode, n, done, BadHead)
    ensures StepIs(mode, h, n, inside, SkipStep(now, left))
  {
    HeadsSettled(mode, n, inside, done, now, left, BadHead);
    Rejected(mode, h, n, inside);
  }

  function SkipStep(s: seq<byte>, n: nat): (Outcome, seq<byte>) {
    match Parse(s, n)
    case None => (Fatal, [])
    case Some((_, rest)) => (Invalid, rest)
  }

  /** The verdict inside is r; where the input stands matters only when decoding goes on. */
  ghost predicate StepIs(mode: Mode, h: Token, n: nat, inside: seq<byte>, r: (Outcome, seq<byte>))
    requires 3 <= n <= 4
  {
    && StepInside(mode, h, n, inside).0 == r.0
    && (r.0 != Fatal ==> StepInside(mode, h, n, inside).1 == r.1)
  }

  /** The next element is not there. */
  lemma EndIsStep(mode: Mode, h: Token, n: nat, inside: seq<byte>, done: seq<Value>, now: seq<byte>, left: nat)
    requires 3 <= n <= 4 && left >= 2 && At(inside, n, done, now, left) && Parse(now, 1) == None
    ensures StepIs(mode, h, n, inside, (Fatal, []))
  {
    AtEnd(inside, n, done, now, left);
  }

  // The stages of decoding, each on the input it starts from.

  function NameHead(mode: Mode, id: Option<nat>, v: Value): Head {
    if !Decodable(mode, v) then UnreadableHead
    else if !Interface(v).Text? then BadHead
    else if id.Some? then RequestHead(id.value, Interface(v).s) else NotificationHead(Interface(v).s)
  }

  function NameStep(mode: Mode, id: Option<nat>, s: seq<byte>): (Outcome, seq<byte>) {
    match Parse(s, 1)
    case None => (Fatal, [])
    case Some((vs, rest)) =>
      match NameHead(mode, id, vs[0])
      case UnreadableHead => (Fatal, [])
      case BadHead => SkipStep(rest, 1)
      case head => CallStep(mode, head, rest)
  }

  function ResponseStep(mode: Mode, id: nat, s: seq<byte>): (Outcome, seq<byte>) {
    match Parse(s, 1)
    case None => (Fatal, [])
    case Some((es, rest)) =>
      match FieldOf(mode, es[0])
      case None => (Fatal, [])
      case Some(e) =>
        match Parse(rest, 1)
        case None => (Fatal, [])
        case Some((rs, end)) =>
          match FieldOf(mode, rs[0])
          case None => (Fatal, [])
          case Some(r) => (Good(Response(id, e, r)), end)
  }

  method DecodeName(mode: Mode, d: Decoder, id: Option<nat>) returns (r: Outcome)
    modifies d
    ensures r == NameStep(mode, id, old(d.input)).0
    ensures r != Fatal ==> d.input == NameStep(mode, id, old(d.input)).1
  {
    var name := d.DecodeInterface(mode);
    if name == None {
      return Fatal;
    }
    if !Interface(name.value).Text? {
      r := d.SkipAndError(1);
      return;
    }
    r := DecodeCall(mode, d, NameHead(mode, id, name.value));
  }

  method DecodeResponse(mode: Mode, d: Decoder, id: nat) returns (r: Outcome)
    modifies d
    ensures r == ResponseStep(mode, id, old(d.input)).0
    ensures r != Fatal ==> d.input == ResponseStep(mode, id, old(d.input)).1
  {
    var e := d.DecodeField(mode);
    if e == None {
      return Fatal;
    }
    var res := d.DecodeField(mode);
    if res == None {
      return Fatal;
    }
    r := Good(Response(id, e.value, res.value));
  }

  lemma NameMissing(mode: Mode, id: Option<nat>, h: Token, n: nat, inside: seq<byte>, done: seq<Value>, now: seq<byte>)
    requires 3 <= n <= 4 && At(inside, n, done, now, 2) && Parse(now, 1) == None
    ensures StepIs(mode, h, n, inside, NameStep(mode, id, now))
  {
    EndIsStep(mode, h, n, inside, done, now, 2);
  }

  lemma NameKnown(mode: Mode, id: Option<nat>, h: Token, n: nat, inside: seq<byte>, done: seq<Value>, now: seq<byte>,
                  v: Value, rest: seq<byte>)
    requires 3 <= n <= 4 && IsArrayCode(h.code) && |done| == n - 2 && At(inside, n, done, now, 2)
    requires (n == 4) == id.Some? && Parse(now, 1) == Some(([v], rest))
    requires Settles(mode, n, done + [v], NameHead(mode, id, v))
    ensures StepIs(mode, h, n, inside, NameStep(mode, id, now))
  {
    AtNext(inside, n, done, now, 2, v, rest);
    match NameHead(mode, id, v)
    case UnreadableHead => Unreadable(mode, h, n, inside, done + [v], rest, 1);
    case BadHead => SkipIsStep(mode, h, n, inside, done + [v], rest, 1);
    case head => CallIsStep(mode, h, n, inside, done + [v], rest, head);
  }

  lemma SettlesUnreadableType(mode: Mode, n: nat, a: Value)
    requires 3 <= n <= 4 && !Decodable(mode, a)
    ensures Settles(mode, n, [a], UnreadableHead)
  {
  }

  lemma SettlesWrongType(mode: Mode, n: nat, a: Value)
    requires 3 <= n <= 4 && Decodable(mode, a) && ElementsAfter(IntOf(a)) != Some(n - 1)
    ensures Settles(mode, n, [a], BadHead)
  {
  }

  lemma SettlesId(mode: Mode, a: Value, b: Value, reply: bool)
    requires Decodable(mode, a) && IntOf(a) == Some(if reply then 1 else 0)
    ensures !Decodable(mode, b) ==> Settles(mode, 4, [a, b], UnreadableHead)
    ensures Decodable(mode, b) && UintOf(b) == None ==> Settles(mode, 4, [a, b], BadHead)
    ensures Decodable(mode, b) && UintOf(b).Some? && reply ==> Settles(mode, 4, [a, b], ResponseHead(UintOf(b).value))
  {
  }

  lemma SettlesName(mode: Mode, a: Value, b: Value, c: Value)
    requires Decodable(mode, a)
    ensures IntOf(a) == Some(0) && Decodable(mode, b) && UintOf(b).Some? ==>
              Settles(mode, 4, [a, b] + [c], NameHead(mode, UintOf(b), c))
    ensures IntOf(a) == Some(2) ==> Settles(mode, 3, [a] + [c], NameHead(mode, None, c))
  {
    assert [a, b] + [c] == [a, b, c] && [a] + [c] == [a, c];
  }

  lemma ResponseKnown(mode: Mode, h: Token, inside: seq<byte>, a: Value, b: Value, now: seq<byte>, id: nat, c: Value,
                      rest: seq<byte>)
    requires IsArrayCode(h.code) && At(inside, 4, [a, b], now, 2) && Parse(now, 1) == Some(([c], rest))
    requires Settles(mode, 4, [a, b], ResponseHead(id))
    ensures StepIs(mode, h, 4, inside, ResponseStep(mode, id, now))
  {
    AtNext(inside, 4, [a, b], now, 2, c, rest);
    assert [a, b] + [c] == [a, b, c];
    LastElement(mode, h, 4, inside, [a, b, c], rest);
    var last := Parse(rest, 1);
    if last.Some? {
      Alone(last.value.0);
      ClassifyReply(mode, h, a, b, c, last.value.0[0], id);
    } else {
      assert Completes(4, [a, b], [a, b, c]);
    }
  }

  lemma ClassifyReply(mode: Mode, h: Token, a: Value, b: Value, c: Value, d: Value, id: nat)
    requires IsArrayCode(h.code) && Settles(mode, 4, [a, b], ResponseHead(id))
    ensures Classify(mode, Node(h, [a, b, c] + [d])) ==
            match (FieldOf(mode, c), FieldOf(mode, d))
            case (Some(e), Some(r)) => Good(Response(id, e, r))
            case _ => Fatal
  {
    assert Completes(4, [a, b], [a, b, c] + [d]);
  }

  function IdStep(mode: Mode, reply: bool, s: seq<byte>): (Outcome, seq<byte>) {
    match Parse(s, 1)
    case None => (Fatal, [])
    case Some((vs, rest)) => IdAfter(mode, reply, vs[0], rest)
  }

  function IdAfter(mode: Mode, reply: bool, v: Value, rest: seq<byte>): (Outcome, seq<byte>) {
    if !Decodable(mode, v) then (Fatal, []) else
    match UintOf(v)
    case None => SkipStep(rest, 2)
    case Some(id) => if reply then ResponseStep(mode, id, rest) else NameStep(mode, Some(id), rest)
  }

  /** How many elements must follow a message type. */
  function ElementsAfter(t: Option<int>): Option<nat> {
    if t == Some(0) || t == Some(1) then Some(3) else if t == Some(2) then Some(2) else None
  }

  function TypeStep(mode: Mode, n: nat, s: seq<byte>): (Outcome, seq<byte>)
    requires n > 0
  {
    match Parse(s, 1)
    case None => (Fatal, [])
    case Some((vs, rest)) => if Decodable(mode, vs[0]) then TypeAfter(mode, n, IntOf(vs[0]), rest) else (Fatal, [])
  }

  function TypeAfter(mode: Mode, n: nat, t: Option<int>, rest: seq<byte>): (Outcome, seq<byte>)
    requires n > 0
  {
    if ElementsAfter(t) != Some(n - 1) then SkipStep(rest, n - 1)
    else if t == Some(2) then NameStep(mode, None, rest)
    else IdStep(mode, t == Some(1), rest)
  }

  method DecodeId(mode: Mode, d: Decoder, reply: bool) returns (r: Outcome)
    modifies d
    ensures r == IdStep(mode, reply, old(d.input)).0
    ensures r != Fatal ==> d.input == IdStep(mode, reply, old(d.input)).1
  {
    var maybeId := d.DecodeInterface(mode);
    if maybeId == None {
      return Fatal;
    }
    var id := UintOf(maybeId.value);
    if id == None {
      r := d.SkipAndError(2);
    } else if reply {
      r := DecodeResponse(mode, d, id.value);
    } else {
      r := DecodeName(mode, d, id);
    }
  }

  /** Everything after the array header: the count of elements still to read goes down with each one. */
  method DecodeElements(mode: Mode, d: Decoder, n: nat) returns (r: Outcome)
    requires 3 <= n <= 4
    modifies d
    ensures r == TypeStep(mode, n, old(d.input)).0
    ensures r != Fatal ==> d.input == TypeStep(mode, n, old(d.input)).1
  {
    var maybeType := d.DecodeInterface(mode);
    if maybeType == None {
      return Fatal;
    }
    r := DecodeAfterType(mode, d, n, IntOf(maybeType.value));
  }

  method DecodeAfterType(mode: Mode, d: Decoder, n: nat, t: Option<int>) returns (r: Outcome)
    requires 3 <= n <= 4
    modifies d
    ensures r == TypeAfter(mode, n, t, old(d.input)).0
    ensures r != Fatal ==> d.input == TypeAfter(mode, n, t, old(d.input)).1
  {
    if ElementsAfter(t) != Some(n - 1) {
      r := d.SkipAndError(n - 1);
    } else if t == Some(2) {
      r := DecodeName(mode, d, None);
    } else {
      r := DecodeId(mode, d, t == Some(1));
    }
  }

  lemma IdKnown(mode: Mode, h: Token, inside: seq<byte>, a: Value, reply: bool, b: Value, rest: seq<byte>)
    requires IsArrayCode(h.code) && At(inside, 4, [a, b], rest, 2)
    requires Decodable(mode, a) && IntOf(a) == Some(if reply then 1 else 0)
    ensures StepIs(mode, h, 4, inside, IdAfter(mode, reply, b, rest))
  {
    if !Decodable(mode, b) || UintOf(b) == None {
      IdRefused(mode, h, inside, a, b, rest, reply);
    } else if reply {
      SettlesId(mode, a, b, reply);
      PastReplyId(mode, h, inside, a, b, rest, UintOf(b).value);
    } else {
      PastRequestId(mode, h, inside, a, b, rest, UintOf(b).value);
    }
  }

  lemma IdRefused(mode: Mode, h: Token, inside: seq<byte>, a: Value, b: Value, rest: seq<byte>, reply: bool)
    requires IsArrayCode(h.code) && At(inside, 4, [a, b], rest, 2)
    requires Decodable(mode, a) && IntOf(a) == Some(if reply then 1 else 0)
    requires !Decodable(mode, b) || UintOf(b) == None
    ensures StepIs(mode, h, 4, inside, if !Decodable(mode, b) then (Fatal, []) else SkipStep(rest, 2))
  {
    SettlesId(mode, a, b, reply);
    if !Decodable(mode, b) {
      Unreadable(mode, h, 4, inside, [a, b], rest, 2);
    } else {
      SkipIsStep(mode, h, 4, inside, [a, b], rest, 2);
    }
  }

  lemma Alone(vs: seq<Value>)
    requires |vs| == 1
    ensures vs == [vs[0]]
  {
  }

  lemma PastReplyId(mode: Mode, h: Token, inside: seq<byte>, a: Value, b: Value, now: seq<byte>, id: nat)
    requires IsArrayCode(h.code) && At(inside, 4, [a, b], now, 2) && Settles(mode, 4, [a, b], ResponseHead(id))
    ensures StepIs(mode, h, 4, inside, ResponseStep(mode, id, now))
  {
    var next := Parse(now, 1);
    if next == None {
      EndIsStep(mode, h, 4, inside, [a, b], now, 2);
    } else {
      Alone(next.value.0);
      ResponseKnown(mode, h, inside, a, b, now, id, next.value.0[0], next.value.1);
    }
  }

  lemma PastRequestId(mode: Mode, h: Token, inside: seq<byte>, a: Value, b: Value, now: seq<byte>, id: nat)
    requires IsArrayCode(h.code) && At(inside, 4, [a, b], now, 2)
    requires Decodable(mode, a) && IntOf(a) == Some(0) && Decodable(mode, b) && UintOf(b) == Some(id)
    ensures StepIs(mode, h, 4, inside, NameStep(mode, Some(id), now))
  {
    var next := Parse(now, 1);
    if next == None {
      NameMissing(mode, Some(id), h, 4, inside, [a, b], now);
    } else {
      Alone(next.value.0);
      SettlesName(mode, a, b, next.value.0[0]);
      NameKnown(mode, Some(id), h, 4, inside, [a, b], now, next.value.0[0], next.value.1);
    }
  }

  lemma PastNotificationType(mode: Mode, h: Token, inside: seq<byte>, a: Value, now: seq<byte>)
    requires IsArrayCode(h.code) && At(inside, 3, [a], now, 2) && Decodable(mode, a) && IntOf(a) == Some(2)
    ensures StepIs(mode, h, 3, inside, NameStep(mode, None, now))
  {
    var next := Parse(now, 1);
    if next == None {
      NameMissing(mode, None, h, 3, inside, [a], now);
    } else {
      Alone(next.value.0);
      SettlesName(mode, a, a, next.value.0[0]);
      NameKnown(mode, None, h, 3, inside, [a], now, next.value.0[0], next.value.1);
    }
  }

  lemma PastCallType(mode: Mode, h: Token, inside: seq<byte>, a: Value, now: seq<byte>, reply: bool)
    requires IsArrayCode(h.code) && At(inside, 4, [a], now, 3)
    requires Decodable(mode, a) && IntOf(a) == Some(if reply then 1 else 0)
    ensures StepIs(mode, h, 4, inside, IdStep(mode, reply, now))
  {
    var next := Parse(now, 1);
    if next == None {
      EndIsStep(mode, h, 4, inside, [a], now, 3);
    } else {
      Alone(next.value.0);
      IdRead(mode, h, inside, a, now, reply, next.value.0[0], next.value.1);
    }
  }

  lemma IdRead(mode: Mode, h: Token, inside: seq<byte>, a: Value, now: seq<byte>, reply: bool, b: Value,
               rest: seq<byte>)
    requires IsArrayCode(h.code) && At(inside, 4, [a], now, 3) && Parse(now, 1) == Some(([b], rest))
    requires Decodable(mode, a) && IntOf(a) == Some(if reply then 1 else 0)
    ensures StepIs(mode, h, 4, inside, IdAfter(mode, reply, b, rest))
  {
    AtSecond(inside, a, now, b, rest);
    IdKnown(mode, h, inside, a, reply, b, rest);
  }

  lemma AtSecond(inside: seq<byte>, a: Value, now: seq<byte>, b: Value, rest: seq<byte>)
    requires At(inside, 4, [a], now, 3) && Parse(now, 1) == Some(([b], rest))
    ensures At(inside, 4, [a, b], rest, 2)
  {
    AtNext(inside, 4, [a], now, 3, b, rest);
    assert [a] + [b] == [a, b];
  }

  lemma TypeKnown(mode: Mode, h: Token, n: nat, inside: seq<byte>, a: Value, rest: seq<byte>)
    requires 3 <= n <= 4 && IsArrayCode(h.code) && At(inside, n, [a], rest, n - 1)
    ensures StepIs(mode, h, n, inside, if Decodable(mode, a) then TypeAfter(mode, n, IntOf(a), rest) else (Fatal, []))
  {
    if !Decodable(mode, a) {
      TypeUnreadable(mode, h, n, inside, a, rest);
    } else if ElementsAfter(IntOf(a)) != Some(n - 1) {
      TypeRefused(mode, h, n, inside, a, rest);
    } else {
      TypeAccepted(mode, h, n, inside, a, rest, IntOf(a));
    }
  }

  lemma TypeAccepted(mode: Mode, h: Token, n: nat, inside: seq<byte>, a: Value, rest: seq<byte>, t: Option<int>)
    requires 3 <= n <= 4 && IsArrayCode(h.code) && At(inside, n, [a], rest, n - 1)
    requires Decodable(mode, a) && IntOf(a) == t && ElementsAfter(t) == Some(n - 1)
    ensures StepIs(mode, h, n, inside, TypeAfter(mode, n, t, rest))
  {
    TypeFits(t, n);
    if n == 3 {
      PastNotificationType(mode, h, inside, a, rest);
    } else {
      PastCallType(mode, h, inside, a, rest, t == Some(1));
    }
  }

  lemma TypeFits(t: Option<int>, n: nat)
    requires 3 <= n <= 4 && ElementsAfter(t) == Some(n - 1)
    ensures n == 3 ==> t == Some(2)
    ensures n == 4 ==> t == Some(if t == Some(1) then 1 else 0)
  {
  }

  lemma TypeRefused(mode: Mode, h: Token, n: nat, inside: seq<byte>, a: Value, rest: seq<byte>)
    requires 3 <= n <= 4 && IsArrayCode(h.code) && At(inside, n, [a], rest, n - 1)
    requires Decodable(mode, a) && ElementsAfter(IntOf(a)) != Some(n - 1)
    ensures StepIs(mode, h, n, inside, SkipStep(rest, n - 1))
  {
    SettlesWrongType(mode, n, a);
    SkipAfterType(mode, h, n, inside, a, rest);
  }

  lemma SkipAfterType(mode: Mode, h: Token, n: nat, inside: seq<byte>, a: Value, rest: seq<byte>)
    requires 3 <= n <= 4 && IsArrayCode(h.code) && At(inside, n, [a], rest, n - 1)
    requires Settles(mode, n, [a], BadHead)
    ensures StepIs(mode, h, n, inside, SkipStep(rest, n - 1))
  {
    if n == 3 {
      SkipIsStep(mode, h, 3, inside, [a], rest, 2);
    } else {
      SkipIsStep(mode, h, 4, inside, [a], rest, 3);
    }
  }

  lemma TypeUnreadable(mode: Mode, h: Token, n: nat, inside: seq<byte>, a: Value, rest: seq<byte>)
    requires 3 <= n <= 4 && IsArrayCode(h.code) && At(inside, n, [a], rest, n - 1) && !Decodable(mode, a)
    ensures StepIs(mode, h, n, inside, (Fatal, []))
  {
    SettlesUnreadableType(mode, n, a);
    if n == 3 {
      Unreadable(mode, h, 3, inside, [a], rest, 2);
    } else {
      Unreadable(mode, h, 4, inside, [a], rest, 3);
    }
  }

  lemma AtFirst(inside: seq<byte>, n: nat, a: Value, rest: seq<byte>)
    requires n >= 2 && Parse(inside, 1) == Some(([a], rest))
    ensures At(inside, n, [a], rest, n - 1)
  {
    AtStart(inside, n);
    AtNext(inside, n, [], inside, n, a, rest);
    assert [] + [a] == [a];
  }

  lemma TypeIsStep(mode: Mode, h: Token, n: nat, inside: seq<byte>)
    requires 3 <= n <= 4 && IsArrayCode(h.code)
    ensures StepIs(mode, h, n, inside, TypeStep(mode, n, inside))
  {
    var next := Parse(inside, 1);
    if next == None {
      AtStart(inside, n);
      EndIsStep(mode, h, n, inside, [], inside, n);
    } else {
      Alone(next.value.0);
      AtFirst(inside, n, next.value.0[0], next.value.1);
      TypeKnown(mode, h, n, inside, next.value.0[0], next.value.1);
    }
  }
}
