/** The routing and correlation protocol of the whole hub, as a step system.

    Every connection has one goroutine that reads packets and handles each to the end before the next, so a
    connection has one program counter.  A request is handled by the goroutine of the caller; its reply is handled
    by the goroutine of the callee.  Steps of different connections interleave freely.

    Clients may reuse message ids, so every request that arrives gets a token of its own.
  */
module Hub {
  import opened Basics
  import opened Routes

  type Token = nat

  /** A request as the reply closure and the forwarding call know it: where it came from, its id there, the method
      asked for, and the bytes of each parameter. */
  datatype Ticket = Ticket(token: Token, caller: Conn, id: nat, m: Name, params: seq<seq<byte>>)

  /** An entry of a callee's table of active out-requests. */
  datatype Slot = Slot(callee: Conn, id: nat)

  /** What a caller is told; a reply of a callee names the request that its peer meant to answer. */
  datatype Payload = FromCallee(callee: Conn, meant: Token, body: Body) | FromRouter(code: nat)

  /** The bytes of the error and of the result in a response. */
  datatype Body = Body(err: seq<byte>, result: seq<byte>)

  /** One call of a request's reply closure; a reply whose write fails is logged and forgotten. */
  datatype Attempt = Attempt(k: Ticket, payload: Payload, sent: bool)

  datatype Pc =
    | Idle
    | Handling(k: Ticket)
    | Forwarding(k: Ticket, callee: Conn)
    | Numbered(k: Ticket, slot: Slot)
    | Registered(k: Ticket, slot: Slot)
    | SendFailed(k: Ticket, slot: Slot, code: nat)
    | Replying(k: Ticket, payload: Payload)
    | Ended
    | Cleaned
    | Closed

  /** Where a request is: with a goroutine, in a callee's table, or replied to, successfully or not. */
  datatype Place = InHand(c: Conn) | InTable(slot: Slot) | Replied(i: nat)

  /** `delivered` is what the peers have been sent and not yet answered; the hub cannot see it.
      `internal` are the methods that the program itself has registered with the router; they never change.
      `tickets`, `target`, `place` and `reached` are history: every request so far, the client its method was routed
      to, where it is, and which requests were ever delivered to a callee. */
  datatype State = State(
    internal: set<Name>, routes: Table, pcs: map<Conn, Pc>, active: map<Slot, Ticket>, last: map<Conn, nat>,
    delivered: map<Slot, Ticket>, replies: seq<Attempt>,
    tickets: map<Token, Ticket>, target: map<Token, Conn>, place: map<Token, Place>, reached: set<Token>)

  function Init(own: set<Name>): State {
    State(own, map[], map[], map[], map[], map[], [], map[], map[], map[], {})
  }

  const CODE_NOT_AVAILABLE := 2
  const CODE_FAILED_TO_SEND := 3
  const CODE_GENERIC := 4
  const CODE_ROUTE_EXISTS := 5
  const CODE_LIMIT := 6

  /** Local is every answer the router makes itself without touching the routes: bad parameters, the size
      limit, internal methods.  Reply tries one reply: one that is `over` the caller's limit is replaced by the limit
      error, and what is tried is `sent` or its write fails. */
  datatype Step =
    | Accept(c: Conn)
    | Receive(c: Conn, k: Ticket)
    | RouteChange(c: Conn, e: Event)
    | Local(c: Conn, code: nat)
    | Lookup(c: Conn)
    | Number(c: Conn)
    | Insert(c: Conn)
    | SendOk(c: Conn)
    | SendFail(c: Conn, code: nat)
    | Remove(c: Conn)
    | Respond(c: Conn, id: nat, meant: Token, body: Body)
    | Reply(c: Conn, over: bool, sent: bool)
    | End(c: Conn)
    | Clean(c: Conn)
    | Close(c: Conn)

  /** The methods that the router handles before any other. */
  predicate Reserved(m: Name) {
    m == REGISTER || m == UNREGISTER || m == RESET || m == SET_MAX_MSG_SIZE
  }

  const REGISTER := Ascii("$/register")
  const UNREGISTER := Ascii("$/unregister")
  const RESET := Ascii("$/reset")
  const SET_MAX_MSG_SIZE := Ascii("$/setMaxMsgSize")

  /** The methods that the router does not forward. */
  predicate AnsweredHere(s: State, m: Name) {
    Reserved(m) || m in s.internal
  }

  predicate ChangeFor(m: Name, c: Conn, e: Event) {
    && e.c == c
    && match e
       case Register(_, _) => m == REGISTER
       case Unregister(_, _) => m == UNREGISTER
       case Reset(_) => m == RESET
       case Disconnect(_) => false
  }

  /** The router has closed this connection: every write to it fails from now on. */
  predicate Shut(s: State, c: Conn) {
    c in s.pcs && s.pcs[c].Closed?
  }

  predicate Enabled(s: State, step: Step) {
    if step.Accept? then step.c !in s.pcs else
    step.c in s.pcs &&
    var pc := s.pcs[step.c];
    match step
    case Accept(c) => true
    case Receive(c, k) => pc.Idle? && k.token !in s.tickets && k.caller == c
    case RouteChange(c, e) => pc.Handling? && ChangeFor(pc.k.m, c, e)
    case Local(c, code) => pc.Handling? && AnsweredHere(s, pc.k.m)
    case Lookup(c) => pc.Handling? && !AnsweredHere(s, pc.k.m)
    case Number(c) => pc.Forwarding?
    case Insert(c) => pc.Numbered?
    case SendOk(c) => pc.Registered? && !Shut(s, pc.slot.callee)
    case SendFail(c, code) => pc.Registered? && (code == CODE_FAILED_TO_SEND || code == CODE_LIMIT)
    case Remove(c) => pc.SendFailed?
    case Respond(c, id, meant, body) => pc.Idle?
    case Reply(c, over, sent) => pc.Replying? && (sent ==> !Shut(s, pc.k.caller))
    case End(c) => pc.Idle?
    case Clean(c) => pc.Ended?
    case Close(c) => pc.Cleaned?
  }

  /** The 32-bit counter of a connection, stepped. */
  function NextId(s: State, b: Conn): nat {
    ((if b in s.last then s.last[b] else 0) + 1) % TWO_32
  }

  /** The program counter of the connection that steps. */
  function NextPc(s: State, step: Step): Pc
    requires Enabled(s, step)
  {
    match step
    case Accept(c) => Idle
    case Receive(c, k) => Handling(k)
    case RouteChange(c, e) => Replying(s.pcs[c].k, FromRouter(ChangeCode(s.routes, e)))
    case Local(c, code) => Replying(s.pcs[c].k, FromRouter(code))
    case Lookup(c) =>
      var k := s.pcs[c].k;
      if k.m in s.routes then Forwarding(k, s.routes[k.m]) else Replying(k, FromRouter(CODE_NOT_AVAILABLE))
    case Number(c) => Numbered(s.pcs[c].k, Slot(s.pcs[c].callee, NextId(s, s.pcs[c].callee)))
    case Insert(c) => Registered(s.pcs[c].k, s.pcs[c].slot)
    case SendOk(c) => Idle
    case SendFail(c, code) => SendFailed(s.pcs[c].k, s.pcs[c].slot, code)
    case Remove(c) => Replying(s.pcs[c].k, FromRouter(s.pcs[c].code))
    case Respond(c, id, meant, body) =>
      if Slot(c, id) in s.active then Replying(s.active[Slot(c, id)], FromCallee(c, meant, body)) else Idle
    case Reply(c, over, sent) => Idle
    case End(c) => Ended
    case Clean(c) => Cleaned
    case Close(c) => Closed
  }

  function ChangeCode(routes: Table, e: Event): nat {
    if Succeeds(routes, e) then 0 else if e.Register? then CODE_ROUTE_EXISTS else CODE_GENERIC
  }

  function NextRoutes(s: State, step: Step): Table {
    match step
    case RouteChange(c, e) => Apply(s.routes, e)
    case Clean(c) => Apply(s.routes, Disconnect(c))
    case _ => s.routes
  }

  function NextLast(s: State, step: Step): map<Conn, nat>
    requires Enabled(s, step)
  {
    match step
    case Accept(c) => s.last[c := 0]
    case Number(c) => s.last[s.pcs[c].callee := NextId(s, s.pcs[c].callee)]
    case _ => s.last
  }

  /** The tables of active out-requests: a failed send and a response both delete the entry. */
  function NextActive(s: State, step: Step): map<Slot, Ticket>
    requires Enabled(s, step)
  {
    match step
    case Insert(c) => s.active[s.pcs[c].slot := s.pcs[c].k]
    case Remove(c) => s.active - {s.pcs[c].slot}
    case Respond(c, id, _, _) => s.active - {Slot(c, id)}
    case _ => s.active
  }

  function NextDelivered(s: State, step: Step): map<Slot, Ticket>
    requires Enabled(s, step)
  {
    match step
    case SendOk(c) => s.delivered[s.pcs[c].slot := s.pcs[c].k]
    case Respond(c, id, _, _) => s.delivered - {Slot(c, id)}
    case _ => s.delivered
  }

  /** What goes to the caller in place of a payload. */
  function Tried(payload: Payload, over: bool): Payload {
    if over then FromRouter(CODE_LIMIT) else payload
  }

  function NextReplies(s: State, step: Step): seq<Attempt>
    requires Enabled(s, step)
  {
    match step
    case Reply(c, over, sent) => s.replies + [Attempt(s.pcs[c].k, Tried(s.pcs[c].payload, over), sent)]
    case _ => s.replies
  }

  function NextTickets(s: State, step: Step): map<Token, Ticket> {
    match step
    case Receive(c, k) => s.tickets[k.token := k]
    case _ => s.tickets
  }

  function NextTarget(s: State, step: Step): map<Token, Conn>
    requires Enabled(s, step)
  {
    match step
    case Lookup(c) =>
      var k := s.pcs[c].k;
      if k.m in s.routes then s.target[k.token := s.routes[k.m]] else s.target
    case _ => s.target
  }

  function NextPlace(s: State, step: Step): map<Token, Place>
    requires Enabled(s, step)
  {
    match step
    case Receive(c, k) => s.place[k.token := InHand(c)]
    case Insert(c) => s.place[s.pcs[c].k.token := InTable(s.pcs[c].slot)]
    case Remove(c) => s.place[s.pcs[c].k.token := InHand(c)]
    case Respond(c, id, _, _) =>
      if Slot(c, id) in s.active then s.place[s.active[Slot(c, id)].token := InHand(c)] else s.place
    case Reply(c, _, _) => s.place[s.pcs[c].k.token := Replied(|s.replies|)]
    case _ => s.place
  }

  function NextReached(s: State, step: Step): set<Token>
    requires Enabled(s, step)
  {
    match step
    case SendOk(c) => s.reached + {s.pcs[c].k.token}
    case _ => s.reached
  }

  function Next(s: State, step: Step): State
    requires Enabled(s, step)
  {
    State(s.internal, NextRoutes(s, step), s.pcs[step.c := NextPc(s, step)], NextActive(s, step), NextLast(s, step),
          NextDelivered(s, step), NextReplies(s, step), NextTickets(s, step), NextTarget(s, step), NextPlace(s, step),
          NextReached(s, step))
  }

  /** The assumptions on the outside: a peer answers an id in the table only if the request with that id was
      delivered to it, and means that request; no id wraps around onto one that is still active. */
  predicate Fair(s: State, step: Step)
    requires Enabled(s, step)
  {
    match step
    case Respond(c, id, meant, _) =>
      Slot(c, id) in s.active ==> Slot(c, id) in s.delivered && s.delivered[Slot(c, id)].token == meant
    case Insert(c) => s.pcs[c].slot !in s.active
    case _ => true
  }

  /** What keeps requests from being doubled, whatever the peers say: an insertion overwrites no entry, and a failed
      send deletes the entry of its own request. */
  predicate Orderly(s: State, step: Step)
    requires Enabled(s, step)
  {
    match step
    case Insert(c) => s.pcs[c].slot !in s.active
    case Remove(c) => s.pcs[c].slot in s.active && s.active[s.pcs[c].slot] == s.pcs[c].k
    case _ => true
  }

  /** The state after a run of a router whose program answers the methods `own`; None when some step is impossible. */
  function Exec(own: set<Name>, steps: seq<Step>): Option<State> {
    if steps == [] then Some(Init(own)) else
    match Exec(own, steps[..|steps| - 1])
    case None => None
    case Some(s) => if Enabled(s, steps[|steps| - 1]) then Some(Next(s, steps[|steps| - 1])) else None
  }

  /** Every step of the run is fair. */
  predicate FairRun(own: set<Name>, steps: seq<Step>)
  {
    steps == [] ||
    (FairRun(own, steps[..|steps| - 1]) &&
     match Exec(own, steps[..|steps| - 1])
     case None => true
     case Some(s) => Enabled(s, steps[|steps| - 1]) ==> Fair(s, steps[|steps| - 1]))
  }

  /** Every step from the n-th on is orderly; nothing is asked of the peers. */
  predicate OrderlyFrom(own: set<Name>, steps: seq<Step>, n: nat) {
    |steps| <= n ||
    (OrderlyFrom(own, steps[..|steps| - 1], n) &&
     match Exec(own, steps[..|steps| - 1])
     case None => true
     case Some(s) => Enabled(s, steps[|steps| - 1]) ==> Orderly(s, steps[|steps| - 1]))
  }

  lemma Extend(own: set<Name>, steps: seq<Step>, s: State, step: Step)
    requires Exec(own, steps) == Some(s) && Enabled(s, step)
    ensures Exec(own, steps + [step]) == Some(Next(s, step))
    ensures FairRun(own, steps + [step]) <==> FairRun(own, steps) && Fair(s, step)
    ensures forall n: nat :: n <= |steps| ==>
              (OrderlyFrom(own, steps + [step], n) <==> OrderlyFrom(own, steps, n) && Orderly(s, step))
  {
    assert (steps + [step])[..|steps + [step]| - 1] == steps;
  }

  // ---------------------------------------------------------------- where a request is

  /** The request that a goroutine has in hand and that is in no table. */
  function Held(pc: Pc): Option<Ticket> {
    match pc
    case Handling(k) => Some(k)
    case Forwarding(k, _) => Some(k)
    case Numbered(k, _) => Some(k)
    case Replying(k, _) => Some(k)
    case _ => None
  }

  predicate Holds(s: State, p: Place, t: Token) {
    match p
    case InHand(c) => c in s.pcs && Held(s.pcs[c]).Some? && Held(s.pcs[c]).value.token == t
    case InTable(slot) => slot in s.active && s.active[slot].token == t
    case Replied(i) => i < |s.replies| && s.replies[i].k.token == t
  }
}
