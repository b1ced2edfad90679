/** The bytes of requests and replies across whole runs of the hub. */
module HubTransparency {
  import opened Basics
  import opened MsgPack
  import opened TypeConversion
  import opened Packets
  import opened Routes
  import opened Hub
  import opened HubInvariant
  import opened HubTheorems

  // ---------------------------------------------------------------- what arrived

  /** The router keeps every parameter as the bytes that arrived. */
  function RawAll(params: seq<seq<byte>>): (fields: seq<Field>)
    ensures |fields| == |params|
  {
    seq(|params|, i requires 0 <= i < |params| => Raw(params[i]))
  }

  /** The step is what the router makes of the value v. */
  predicate ArrivedAs(mode: Mode, v: Value, step: Step) {
    match step
    case Receive(_, k) => WellFormed([v]) && Classify(mode, v) == Good(Request(k.id, k.m, RawAll(k.params)))
    case Respond(_, id, _, body) =>
      WellFormed([v]) && Classify(mode, v) == Good(Response(id, Raw(body.err), Raw(body.result)))
    case _ => true
  }

  /** A run with the value that each packet of it came from. */
  ghost predicate Arrived(mode: Mode, steps: seq<Step>, arrived: seq<Value>) {
    |arrived| == |steps| && forall i :: 0 <= i < |steps| ==> ArrivedAs(mode, arrived[i], steps[i])
  }

  // ---------------------------------------------------------------- where requests and answers come from

  /** Every request was received, as it is on record. */
  lemma {:induction false} ReceivedAt(own: set<Name>, steps: seq<Step>, t: Hub.Token) returns (i: nat)
    requires Exec(own, steps).Some? && t in Exec(own, steps).value.tickets
    ensures var k := Exec(own, steps).value.tickets[t];
            i < |steps| && steps[i] == Receive(k.caller, k)
  {
    var before, step := steps[..|steps| - 1], steps[|steps| - 1];
    if step.Receive? && step.k.token == t {
      i := |steps| - 1;
    } else {
      i := ReceivedAt(own, before, t);
    }
  }

  /** A goroutine has this payload in hand, or a reply had it. */
  ghost predicate InPlay(s: State, p: Payload) {
    || (exists c :: c in s.pcs && s.pcs[c].Replying? && s.pcs[c].payload == p)
    || (exists a :: a in s.replies && a.payload == p)
  }

  lemma NewPayloads(s: State, step: Step, p: Payload)
    requires Enabled(s, step) && InPlay(Next(s, step), p) && p.FromCallee?
    ensures InPlay(s, p) || (step.Respond? && step.c == p.callee && step.meant == p.meant && step.body == p.body)
  {
    var s' := Next(s, step);
    if c :| c in s'.pcs && s'.pcs[c].Replying? && s'.pcs[c].payload == p {
      assert c != step.c ==> c in s.pcs && s.pcs[c].Replying? && s.pcs[c].payload == p;
    } else {
      var a :| a in s'.replies && a.payload == p;
      if a !in s.replies {
        assert s.pcs[step.c].Replying? && s.pcs[step.c].payload == p;
      }
    }
  }

  /** Every answer of a callee was sent by that callee, as it is. */
  lemma {:induction false} RespondedAt(own: set<Name>, steps: seq<Step>, p: Payload) returns (j: nat)
    requires Exec(own, steps).Some? && p.FromCallee? && InPlay(Exec(own, steps).value, p)
    ensures j < |steps| && steps[j].Respond?
    ensures steps[j].c == p.callee && steps[j].meant == p.meant && steps[j].body == p.body
  {
    if steps != [] {
      var before, step := steps[..|steps| - 1], steps[|steps| - 1];
      NewPayloads(Exec(own, before).value, step, p);
      if InPlay(Exec(own, before).value, p) {
        j := RespondedAt(own, before, p);
      } else {
        j := |steps| - 1;
      }
    }
  }

  ghost predicate SmallIds(s: State) {
    forall c :: c in s.pcs && (s.pcs[c].Numbered? || Awaiting(s.pcs[c])) ==> s.pcs[c].slot.id < TWO_32
  }

  lemma {:induction false} IdsFit(own: set<Name>, steps: seq<Step>)
    requires Exec(own, steps).Some?
    ensures SmallIds(Exec(own, steps).value)
  {
    if steps != [] {
      IdsFit(own, steps[..|steps| - 1]);
      SmallIdsKept(Exec(own, steps[..|steps| - 1]).value, steps[|steps| - 1]);
    }
  }

  lemma SmallIdsKept(s: State, step: Step)
    requires SmallIds(s) && Enabled(s, step)
    ensures SmallIds(Next(s, step))
  {
  }

  // ---------------------------------------------------------------- requests

  /** The caller's id is one that a response can carry. */
  lemma RequestIdFits(mode: Mode, v: Value, id: nat, name: seq<byte>, fields: seq<Field>)
    requires Classify(mode, v) == Good(Request(id, name, fields))
    ensures id < TWO_64
  {
  }

  /** This frame is one request under this id, with this name and exactly the bytes of each parameter of the value v. */
  ghost predicate CarriesRequest(mode: Mode, frame: seq<byte>, id: nat, name: seq<byte>, v: Value) {
    exists w: Value ::
      && Parse(frame, 1) == Some(([w], [])) && |v.kids| == 4
      && Classify(mode, w) == Good(Request(id, name, RawFields(v.kids[3].kids)))
  }

  lemma ForwardCarries(mode: Mode, v: Value, k: Ticket, id: nat)
    requires mode.raw && WellFormed([v]) && id < TWO_32
    requires Classify(mode, v) == Good(Request(k.id, k.m, RawAll(k.params)))
    ensures |k.m| < TWO_32 && |k.params| < TWO_32
    ensures CarriesRequest(mode, RequestBytes(id, k.m, RawAll(k.params)), id, k.m, v)
  {
    RequestForwardedUnchanged(mode, v, k.id, k.m, RawAll(k.params), id);
    RequestShape(mode, v, k.id, k.m, RawAll(k.params));
    JoinIsEncodeAll(mode, v.kids[3].kids);
    var w :| Parse(RequestBytes(id, k.m, RawAll(k.params)), 1) == Some(([w], []))
          && Classify(mode, w) == Good(Request(id, k.m, RawAll(k.params)));
  }

  /** In every fair run, whatever a goroutine is about to deliver: it goes to the client that the method was routed to,
      and the frame is one request, under the number in that client's table, with the method and exactly the
      parameter bytes that the caller's packet had when it arrived. */
  lemma RequestsArriveUnchanged(own: set<Name>, steps: seq<Step>, mode: Mode, arrived: seq<Value>, c: Conn)
    returns (i: nat)
    requires Exec(own, steps).Some? && FairRun(own, steps) && mode.raw && Arrived(mode, steps, arrived)
    requires Enabled(Exec(own, steps).value, SendOk(c))
    ensures var s := Exec(own, steps).value;
            var k, slot := s.pcs[c].k, s.pcs[c].slot;
            && i < |steps| && steps[i] == Receive(c, k) && RoutedTo(s, k.token, slot.callee)
            && slot.id < TWO_32 && |k.m| < TWO_32 && |k.params| < TWO_32
            && CarriesRequest(mode, RequestBytes(slot.id, k.m, RawAll(k.params)), slot.id, k.m, arrived[i])
  {
    var s := Exec(own, steps).value;
    var k, slot := s.pcs[c].k, s.pcs[c].slot;
    RunInv(own, steps);
    assert EntryOf(s, c) && At(s, s.active[slot], InTable(slot));
    assert RoutedTo(s, s.active[slot].token, slot.callee);
    IdsFit(own, steps);
    i := ReceivedAt(own, steps, k.token);
    assert ArrivedAs(mode, arrived[i], steps[i]);
    ForwardCarries(mode, arrived[i], k, slot.id);
  }

  // ---------------------------------------------------------------- replies

  /** This frame is one response to this id, with exactly the error and result bytes of the value v. */
  ghost predicate CarriesResponse(mode: Mode, frame: seq<byte>, id: nat, v: Value) {
    exists w: Value ::
      && Parse(frame, 1) == Some(([w], [])) && |v.kids| == 4
      && Classify(mode, w) == Good(Response(id, Raw(Encode(v.kids[2])), Raw(Encode(v.kids[3]))))
  }

  lemma ReplyCarries(mode: Mode, v: Value, id: nat, body: Body, originalId: nat)
    requires mode.raw && WellFormed([v]) && originalId < TWO_64
    requires Classify(mode, v) == Good(Response(id, Raw(body.err), Raw(body.result)))
    ensures CarriesResponse(mode, ResponseBytes(originalId, body.err, body.result), originalId, v)
  {
    ResponseForwardedUnchanged(mode, v, id, body.err, body.result, originalId);
  }

  /** In every fair run, whatever reply of a callee a caller is sent: it answers a request that this caller made, it
      is from the client that the method was routed to, in answer to this very request, and the frame is one response
      under the caller's own id with exactly the error and result bytes that the callee's packet had. */
  lemma RepliesReturnUnchanged(own: set<Name>, steps: seq<Step>, mode: Mode, arrived: seq<Value>, a: Attempt)
    returns (i: nat, j: nat)
    requires Exec(own, steps).Some? && FairRun(own, steps) && mode.raw && Arrived(mode, steps, arrived)
    requires a in Exec(own, steps).value.replies && a.payload.FromCallee?
    ensures i < |steps| && steps[i] == Receive(a.k.caller, a.k) && a.k.id < TWO_64
    ensures RoutedTo(Exec(own, steps).value, a.k.token, a.payload.callee)
    ensures j < |steps| && steps[j].Respond? && steps[j].c == a.payload.callee && steps[j].meant == a.k.token
    ensures var body := a.payload.body;
            CarriesResponse(mode, ResponseBytes(a.k.id, body.err, body.result), a.k.id, arrived[j])
  {
    var s := Exec(own, steps).value;
    RunInv(own, steps);
    var n :| 0 <= n < |s.replies| && s.replies[n] == a;
    assert At(s, s.replies[n].k, Replied(n)) && RightPayload(s, s.replies[n].k, s.replies[n].payload);
    i := ReceivedAt(own, steps, a.k.token);
    assert ArrivedAs(mode, arrived[i], steps[i]);
    RequestIdFits(mode, arrived[i], a.k.id, a.k.m, RawAll(a.k.params));
    assert InPlay(s, a.payload);
    j := RespondedAt(own, steps, a.payload);
    assert ArrivedAs(mode, arrived[j], steps[j]);
    ReplyCarries(mode, arrived[j], steps[j].id, a.payload.body, a.k.id);
  }
}
