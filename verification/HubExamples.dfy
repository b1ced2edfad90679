/** Concrete runs of the hub that show what it does not promise. */
module HubExamples {
  import opened Basics
  import opened Routes
  import opened Hub
  import opened HubInvariant
  import opened HubTheorems
  import opened HubProspects

  predicate Leads(s: State, step: Step, s': State) {
    Enabled(s, step) && Next(s, step) == s'
  }

  // Client 1 serves "f"; client 0 asks for it with the parameter 42 under its id 9, and the entry gets id 1
  // in client 1's table.

  const REGISTERING := Ticket(0, 1, 7, REGISTER, [[0xa1, 0x66]])
  const ASKING := Ticket(1, 0, 9, SERVED, [[0x2a]])
  const ENTRY := Slot(1, 1)
  const SERVED: Name := [0x66]
  const BODY := Body([0xc0], [0x05])
  const REGISTERED := Attempt(REGISTERING, FromRouter(0), true)

  function S0(): State { Init({}) }
  function S1(): State { S0().(pcs := S0().pcs[0 := Idle], last := S0().last[0 := 0]) }
  function S2(): State { S1().(pcs := S1().pcs[1 := Idle], last := S1().last[1 := 0]) }
  function S3(): State {
    S2().(pcs := S2().pcs[1 := Handling(REGISTERING)], tickets := S2().tickets[0 := REGISTERING],
          place := S2().place[0 := InHand(1)])
  }
  function S4(): State {
    S3().(pcs := S3().pcs[1 := Replying(REGISTERING, FromRouter(0))], routes := S3().routes[SERVED := 1])
  }
  function S5(): State {
    S4().(pcs := S4().pcs[1 := Idle], replies := S4().replies + [REGISTERED], place := S4().place[0 := Replied(0)])
  }
  function S6(): State {
    S5().(pcs := S5().pcs[0 := Handling(ASKING)], tickets := S5().tickets[1 := ASKING],
          place := S5().place[1 := InHand(0)])
  }
  function S7(): State { S6().(pcs := S6().pcs[0 := Forwarding(ASKING, 1)], target := S6().target[1 := 1]) }
  function S8(): State { S7().(pcs := S7().pcs[0 := Numbered(ASKING, ENTRY)], last := S7().last[1 := 1]) }
  function S9(): State {
    S8().(pcs := S8().pcs[0 := Registered(ASKING, ENTRY)], active := S8().active[ENTRY := ASKING],
          place := S8().place[1 := InTable(ENTRY)])
  }

  lemma ReplyLeads(s: State, c: Conn, k: Ticket, payload: Payload, sent: bool)
    requires c in s.pcs && s.pcs[c] == Replying(k, payload) && (sent ==> !Shut(s, k.caller))
    ensures Leads(s, Reply(c, false, sent),
                  s.(pcs := s.pcs[c := Idle], replies := s.replies + [Attempt(k, payload, sent)],
                     place := s.place[k.token := Replied(|s.replies|)]))
  {
  }

  lemma Opening()
    ensures Leads(S0(), Accept(0), S1()) && Leads(S1(), Accept(1), S2())
    ensures Leads(S2(), Receive(1, REGISTERING), S3())
    ensures Leads(S3(), RouteChange(1, Register(1, SERVED)), S4())
    ensures Leads(S4(), Reply(1, false, true), S5())
  {
    ReplyLeads(S4(), 1, REGISTERING, FromRouter(0), true);
  }

  lemma Asking()
    ensures Leads(S5(), Receive(0, ASKING), S6())
    ensures Leads(S6(), Lookup(0), S7())
  {
    assert |SERVED| == 1 && |REGISTER| == 10 && |UNREGISTER| == 12 && |RESET| == 7;
  }

  lemma Numbering()
    ensures Leads(S7(), Number(0), S8())
  {
    assert S7().last == S2().last && NextId(S7(), 1) == 1;
    assert S7().pcs[0] == Hub.Pc.Forwarding(ASKING, 1);
  }

  lemma Inserting()
    ensures Leads(S8(), Insert(0), S9()) && Fair(S8(), Insert(0))
  {
    assert S8().pcs[0] == Numbered(ASKING, ENTRY) && S8().active == map[];
  }

  const FORWARDED :=
    [] + [Accept(0)] + [Accept(1)] + [Receive(1, REGISTERING)] + [RouteChange(1, Register(1, SERVED))]
    + [Reply(1, false, true)] + [Receive(0, ASKING)] + [Lookup(0)] + [Number(0)] + [Insert(0)]

  lemma Forwarded()
    ensures Exec({}, FORWARDED) == Some(S9()) && FairRun({}, FORWARDED)
  {
    Opening();
    var r: seq<Step> := [];
    Extend({}, r, S0(), Accept(0));
    r := r + [Accept(0)];
    Extend({}, r, S1(), Accept(1));
    r := r + [Accept(1)];
    Extend({}, r, S2(), Receive(1, REGISTERING));
    r := r + [Receive(1, REGISTERING)];
    Extend({}, r, S3(), RouteChange(1, Register(1, SERVED)));
    r := r + [RouteChange(1, Register(1, SERVED))];
    Extend({}, r, S4(), Reply(1, false, true));
    r := r + [Reply(1, false, true)];
    Asking();
    Extend({}, r, S5(), Receive(0, ASKING));
    r := r + [Receive(0, ASKING)];
    Extend({}, r, S6(), Lookup(0));
    r := r + [Lookup(0)];
    Numbering();
    Inserting();
    Extend({}, r, S7(), Number(0));
    r := r + [Number(0)];
    Extend({}, r, S8(), Insert(0));
  }

  lemma OneReplySoFar()
    ensures S9().replies == [REGISTERED]
  {
    assert S9().replies == S5().replies && S4().replies == [];
  }

  // ---------------------------------------------------------------- the callee leaves

  /** Being answered in the end is not a property of the hub: here the request is delivered, the callee leaves,
      and by StrandedForever no continuation answers it. */
  lemma NotAlwaysAnswered()
    ensures Exec({}, FORWARDED + [SendOk(0)] + [End(1)]).Some? && FairRun({}, FORWARDED + [SendOk(0)] + [End(1)])
    ensures Stranded(Exec({}, FORWARDED + [SendOk(0)] + [End(1)]).value, ENTRY)
  {
    Forwarded();
    assert S9().pcs[0] == Registered(ASKING, ENTRY) && S9().pcs[1] == Idle;
    var s := Next(S9(), SendOk(0));
    Extend({}, FORWARDED, S9(), SendOk(0));
    Extend({}, FORWARDED + [SendOk(0)], s, End(1));
  }

  // ---------------------------------------------------------------- the reply is lost

  function L1(): State {
    S9().(pcs := S9().pcs[0 := Idle], delivered := S9().delivered[ENTRY := ASKING], reached := S9().reached + {1})
  }
  function L2(): State {
    L1().(pcs := L1().pcs[1 := Replying(ASKING, FromCallee(1, 1, BODY))], active := L1().active - {ENTRY},
          delivered := L1().delivered - {ENTRY}, place := L1().place[1 := InHand(1)])
  }
  function L3(): State {
    L2().(pcs := L2().pcs[1 := Idle], replies := L2().replies + [Attempt(ASKING, FromCallee(1, 1, BODY), false)],
          place := L2().place[1 := Replied(1)])
  }

  lemma Delivering()
    ensures Leads(S9(), SendOk(0), L1())
  {
    assert S9().pcs[0] == Registered(ASKING, ENTRY);
  }

  lemma Responding()
    ensures Leads(L1(), Respond(1, 1, 1, BODY), L2()) && Fair(L1(), Respond(1, 1, 1, BODY))
  {
    assert L1().pcs[1] == Idle && L1().active[ENTRY] == ASKING && L1().delivered[ENTRY] == ASKING;
  }

  lemma FailingToReply()
    ensures Leads(L2(), Reply(1, false, false), L3())
  {
    OneReplySoFar();
    ReplyLeads(L2(), 1, ASKING, FromCallee(1, 1, BODY), false);
  }

  const LOST_RUN := FORWARDED + [SendOk(0)] + [Respond(1, 1, 1, BODY)] + [Reply(1, false, false)]

  /** A fair run after which a request was answered by its callee, has no answer, and waits nowhere. */
  lemma ReplyLost()
    ensures Exec({}, LOST_RUN).Some? && FairRun({}, LOST_RUN)
    ensures var s := Exec({}, LOST_RUN).value;
            Lost(s, ASKING.token) && !Pending(s, ASKING.token) && !InSomeHand(s, ASKING.token)
  {
    Forwarded();
    Delivering();
    Responding();
    FailingToReply();
    Extend({}, FORWARDED, S9(), SendOk(0));
    Extend({}, FORWARDED + [SendOk(0)], L1(), Respond(1, 1, 1, BODY));
    Extend({}, FORWARDED + [SendOk(0)] + [Respond(1, 1, 1, BODY)], L2(), Reply(1, false, false));
    LastReplyLost();
  }

  lemma LastReplyLost()
    requires Exec({}, LOST_RUN) == Some(L3()) && FairRun({}, LOST_RUN)
    ensures Lost(L3(), ASKING.token) && !Pending(L3(), ASKING.token) && !InSomeHand(L3(), ASKING.token)
  {
    RunInv({}, LOST_RUN);
    assert 1 in L3().tickets;
    OneReplySoFar();
    TriesAppend([REGISTERED], Attempt(ASKING, FromCallee(1, 1, BODY), false), 1);
    TriesAppend([], REGISTERED, 1);
    LocatedIsOneOfFour(L3(), 1);
  }

  // ---------------------------------------------------------------- the caller leaves

  function With(s: State, c: Conn, pc: Pc): State { s.(pcs := s.pcs[c := pc]) }
  function C1(): State { With(L1(), 0, Ended) }
  function C2(): State { With(C1(), 0, Cleaned) }
  function C3(): State { With(C2(), 0, Closed) }

  lemma LeaveLeads(s: State, c: Conn)
    requires c in s.pcs && s.pcs[c].Idle? && Without(s.routes, c) == s.routes
    ensures var s1 := With(s, c, Ended);
            var s2 := With(s1, c, Cleaned);
            Leads(s, End(c), s1) && Leads(s1, Clean(c), s2) && Leads(s2, Close(c), With(s2, c, Closed))
  {
  }

  lemma Waiting()
    ensures L1().pcs == map[0 := Idle, 1 := Idle] && L1().routes == map[SERVED := 1]
    ensures 1 in L1().tickets && L1().tickets[1] == ASKING && 1 in L1().place && L1().place[1] == InTable(ENTRY)
  {
    assert L1().routes == S4().routes && S3().routes == map[];
    assert L1().tickets == S6().tickets;
  }

  lemma Leaving()
    ensures Leads(L1(), End(0), C1()) && Leads(C1(), Clean(0), C2()) && Leads(C2(), Close(0), C3())
  {
    Waiting();
    LeaveLeads(L1(), 0);
  }

  const LEFT_RUN := FORWARDED + [SendOk(0)] + [End(0)] + [Clean(0)] + [Close(0)]

  lemma LeftRun()
    ensures Exec({}, LEFT_RUN) == Some(C3()) && FairRun({}, LEFT_RUN)
  {
    Forwarded();
    Delivering();
    Leaving();
    Extend({}, FORWARDED, S9(), SendOk(0));
    Extend({}, FORWARDED + [SendOk(0)], L1(), End(0));
    Extend({}, FORWARDED + [SendOk(0)] + [End(0)], C1(), Clean(0));
    Extend({}, FORWARDED + [SendOk(0)] + [End(0)] + [Clean(0)], C2(), Close(0));
  }

  lemma ShutCallerFacts()
    ensures 1 in C3().tickets && C3().tickets[1] == ASKING && C3().place[1] == InTable(ENTRY)
    ensures Shut(C3(), 0) && 1 in C3().pcs && C3().pcs[1] == Idle
  {
    Waiting();
  }

  lemma PendingWithShutCaller(s: State)
    requires Located(s) && 1 in s.tickets && s.place[1] == InTable(ENTRY) && 1 in s.pcs && s.pcs[1] == Idle
    ensures Pending(s, 1) && !Answered(s, 1) && !Lost(s, 1) && !StrandedRequest(s, 1)
  {
    LocatedIsOneOfFour(s, 1);
  }

  /** A fair run after which a request is pending with a callee that still reads, and cannot be answered any more:
      the router has closed the connection of its caller. */
  lemma CallerGone()
    ensures Exec({}, LEFT_RUN).Some? && FairRun({}, LEFT_RUN)
    ensures var s := Exec({}, LEFT_RUN).value;
            && Shut(s, ASKING.caller) && Pending(s, ASKING.token) && 1 in s.pcs && s.pcs[1].Idle?
            && !Lost(s, ASKING.token) && !StrandedRequest(s, ASKING.token)
    ensures !Answerable({}, LEFT_RUN, ASKING.token)
  {
    LeftRun();
    RunInv({}, LEFT_RUN);
    ShutCallerFacts();
    PendingWithShutCaller(C3());
    NotAnswerable({}, LEFT_RUN, ASKING.token);
  }

  // ---------------------------------------------------------------- the reply is forged

  // Client 1 answers id 1 although the request was not delivered to it, and the send then fails.

  function F1(): State {
    S9().(pcs := S9().pcs[1 := Replying(ASKING, FromCallee(1, 1, BODY))], active := S9().active - {ENTRY},
          delivered := S9().delivered - {ENTRY}, place := S9().place[1 := InHand(1)])
  }
  function F2(): State {
    F1().(pcs := F1().pcs[1 := Idle], replies := F1().replies + [Attempt(ASKING, FromCallee(1, 1, BODY), true)],
          place := F1().place[1 := Replied(1)])
  }
  function F3(): State { F2().(pcs := F2().pcs[0 := SendFailed(ASKING, ENTRY, CODE_FAILED_TO_SEND)]) }
  function F4(): State {
    F3().(pcs := F3().pcs[0 := Replying(ASKING, FromRouter(CODE_FAILED_TO_SEND))], active := F3().active - {ENTRY},
          place := F3().place[1 := InHand(0)])
  }
  function F5(): State {
    F4().(pcs := F4().pcs[0 := Idle],
          replies := F4().replies + [Attempt(ASKING, FromRouter(CODE_FAILED_TO_SEND), true)],
          place := F4().place[1 := Replied(2)])
  }

  lemma ForgedReply()
    ensures Leads(S9(), Respond(1, 1, 1, BODY), F1()) && !Fair(S9(), Respond(1, 1, 1, BODY))
  {
    assert S9().pcs[1] == Idle && S9().active[ENTRY] == ASKING;
  }

  lemma ForgedAnswer()
    ensures Leads(F1(), Reply(1, false, true), F2())
  {
    OneReplySoFar();
    ReplyLeads(F1(), 1, ASKING, FromCallee(1, 1, BODY), true);
  }

  lemma FailedSend()
    ensures Leads(F2(), SendFail(0, CODE_FAILED_TO_SEND), F3())
  {
    assert F2().pcs[0] == Registered(ASKING, ENTRY);
  }

  lemma FailedRemove()
    ensures Leads(F3(), Remove(0), F4())
  {
    RemoveLeads(F3(), 0, ASKING, ENTRY, CODE_FAILED_TO_SEND);
  }

  lemma RemoveLeads(s: State, c: Conn, k: Ticket, slot: Slot, code: nat)
    requires c in s.pcs && s.pcs[c] == SendFailed(k, slot, code)
    ensures Leads(s, Remove(c),
                  s.(pcs := s.pcs[c := Replying(k, FromRouter(code))], active := s.active - {slot},
                     place := s.place[k.token := InHand(c)]))
  {
  }

  lemma TwoRepliesSoFar()
    ensures |F4().replies| == 2
  {
    OneReplySoFar();
    assert F4().replies == F2().replies && F1().replies == S9().replies;
  }

  lemma FailedReply()
    ensures Leads(F4(), Reply(0, false, true), F5())
  {
    TwoRepliesSoFar();
    ReplyLeads(F4(), 0, ASKING, FromRouter(CODE_FAILED_TO_SEND), true);
  }

  const FORGED_RUN :=
    FORWARDED + [Respond(1, 1, 1, BODY)] + [Reply(1, false, true)] + [SendFail(0, CODE_FAILED_TO_SEND)] + [Remove(0)]
    + [Reply(0, false, true)]

  lemma ForgedRun()
    ensures Exec({}, FORGED_RUN) == Some(F5()) && !FairRun({}, FORGED_RUN)
  {
    Forwarded();
    ForgedReply();
    ForgedAnswer();
    FailedSend();
    FailedRemove();
    FailedReply();
    var r := FORWARDED;
    Extend({}, r, S9(), Respond(1, 1, 1, BODY));
    r := r + [Respond(1, 1, 1, BODY)];
    Extend({}, r, F1(), Reply(1, false, true));
    r := r + [Reply(1, false, true)];
    Extend({}, r, F2(), SendFail(0, CODE_FAILED_TO_SEND));
    r := r + [SendFail(0, CODE_FAILED_TO_SEND)];
    Extend({}, r, F3(), Remove(0));
    r := r + [Remove(0)];
    Extend({}, r, F4(), Reply(0, false, true));
  }

  /** The assumption on peers is needed: the caller of this run gets two answers to one request. */
  lemma ForgedReplyAnswersTwice()
    ensures Exec({}, FORGED_RUN).Some? && !FairRun({}, FORGED_RUN)
    ensures Answers(Exec({}, FORGED_RUN).value.replies, ASKING.token) == 2
  {
    ForgedRun();
    OneReplySoFar();
    TriesAppend(F4().replies, Attempt(ASKING, FromRouter(CODE_FAILED_TO_SEND), true), 1);
    TriesAppend(F1().replies, Attempt(ASKING, FromCallee(1, 1, BODY), true), 1);
    TriesAppend([], REGISTERED, 1);
  }
}
