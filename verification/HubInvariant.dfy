/** What every step of the hub keeps, and what follows for whole runs. */
module HubInvariant {
  import opened Basics
  import opened Routes
  import opened Hub

  predicate Known(s: State, k: Ticket) {
    k.token in s.tickets && s.tickets[k.token] == k
  }

  /** The request k is on record as being at p. */
  predicate At(s: State, k: Ticket, p: Place) {
    Known(s, k) && k.token in s.place && s.place[k.token] == p
  }

  /** The goroutine of c is at work on a request of c itself. */
  predicate OwnRequest(pc: Pc) {
    pc.Handling? || pc.Forwarding? || pc.Numbered? || pc.Registered? || pc.SendFailed?
  }

  predicate Awaiting(pc: Pc) {
    pc.Registered? || pc.SendFailed?
  }

  /** Every request is at the place on record. */
  ghost predicate Placed(s: State) {
    && s.place.Keys == s.tickets.Keys
    && forall t :: t in s.tickets ==> s.tickets[t].token == t && Holds(s, s.place[t], t)
  }

  /** Whatever holds a request is the place on record. */
  ghost predicate HandsExact(s: State) {
    forall c :: c in s.pcs && Held(s.pcs[c]).Some? ==>
      At(s, Held(s.pcs[c]).value, InHand(c))
  }

  ghost predicate TablesExact(s: State) {
    forall slot :: slot in s.active ==> At(s, s.active[slot], InTable(slot))
  }

  ghost predicate RepliesExact(s: State) {
    forall i :: 0 <= i < |s.replies| ==> At(s, s.replies[i].k, Replied(i))
  }

  /** A goroutine between registering and sending has its entry in the table, and nobody was sent it. */
  predicate EntryOf(s: State, c: Conn)
    requires c in s.pcs
  {
    var pc := s.pcs[c];
    && (OwnRequest(pc) ==> pc.k.caller == c)
    && (Awaiting(pc) ==> pc.slot in s.active && s.active[pc.slot] == pc.k && pc.slot !in s.delivered)
  }

  ghost predicate Entries(s: State) {
    forall c :: c in s.pcs ==> EntryOf(s, c)
  }

  /** What a peer was sent and has not answered is what the table has under that id. */
  ghost predicate Deliveries(s: State) {
    forall slot :: slot in s.delivered ==> slot in s.active && s.active[slot] == s.delivered[slot]
  }

  predicate RightPayload(s: State, k: Ticket, p: Payload) {
    p.FromCallee? ==> p.meant == k.token && RoutedTo(s, k.token, p.callee)
  }

  ghost predicate Payloads(s: State) {
    && (forall c :: c in s.pcs && s.pcs[c].Replying? ==> RightPayload(s, s.pcs[c].k, s.pcs[c].payload))
    && (forall i :: 0 <= i < |s.replies| ==> RightPayload(s, s.replies[i].k, s.replies[i].payload))
  }

  predicate RoutedTo(s: State, t: Token, b: Conn) {
    t in s.target && s.target[t] == b
  }

  predicate TargetOf(s: State, pc: Pc) {
    && (pc.Handling? ==> pc.k.token !in s.target)
    && (pc.Forwarding? ==> RoutedTo(s, pc.k.token, pc.callee))
    && (pc.Numbered? ==> RoutedTo(s, pc.k.token, pc.slot.callee))
  }

  /** Requests wait only in the table of the client that their method was routed to. */
  ghost predicate Targets(s: State) {
    && s.target.Keys <= s.tickets.Keys
    && (forall c :: c in s.pcs ==> TargetOf(s, s.pcs[c]))
    && (forall slot :: slot in s.active ==> RoutedTo(s, s.active[slot].token, slot.callee))
  }

  predicate PastCleanUp(pc: Pc) {
    pc.Cleaned? || pc.Closed?
  }

  /** No route points to a connection past its clean-up. */
  ghost predicate LiveRoutes(s: State) {
    forall m :: m in s.routes ==> s.routes[m] in s.pcs && !PastCleanUp(s.pcs[s.routes[m]])
  }

  ghost predicate Located(s: State) {
    Placed(s) && HandsExact(s) && TablesExact(s) && RepliesExact(s)
  }

  /** An entry that was not delivered belongs to a caller that is still at work on it. */
  predicate OwnerOf(s: State, slot: Slot)
    requires slot in s.active
  {
    slot !in s.delivered ==>
      var c := s.active[slot].caller;
      c in s.pcs && Awaiting(s.pcs[c]) && s.pcs[c].slot == slot && s.pcs[c].k == s.active[slot]
  }

  ghost predicate Owners(s: State) {
    forall slot :: slot in s.active ==> OwnerOf(s, slot)
  }

  ghost predicate Inv(s: State) {
    Located(s) && Entries(s) && Deliveries(s) && Payloads(s) && Targets(s) && Owners(s)
  }

  // ---------------------------------------------------------------- requests move, none is lost or copied

  /** A goroutine moves on with the same request in hand, or with none before and after. */
  lemma StaysInHand(s: State, s': State, c: Conn)
    requires Located(s)
    requires c in s'.pcs && s'.pcs == s.pcs[c := s'.pcs[c]]
    requires Held(s'.pcs[c]) == if c in s.pcs then Held(s.pcs[c]) else None
    requires s'.active == s.active && s'.replies == s.replies && s'.tickets == s.tickets && s'.place == s.place
    ensures Located(s')
  {
    forall t | t in s'.tickets ensures s'.tickets[t].token == t && Holds(s', s'.place[t], t) {
      assert Holds(s, s.place[t], t);
    }
    forall d | d in s'.pcs && Held(s'.pcs[d]).Some? ensures At(s', Held(s'.pcs[d]).value, InHand(d)) {
      assert At(s, Held(s.pcs[d]).value, InHand(d));
    }
    forall slot | slot in s'.active ensures At(s', s'.active[slot], InTable(slot)) {
      assert At(s, s.active[slot], InTable(slot));
    }
    forall i | 0 <= i < |s'.replies| ensures At(s', s'.replies[i].k, Replied(i)) {
      assert At(s, s.replies[i].k, Replied(i));
    }
  }

  lemma ReceiveLocated(s: State, c: Conn, k: Ticket)
    requires Located(s) && Enabled(s, Receive(c, k))
    ensures Located(Next(s, Receive(c, k)))
  {
    var s' := Next(s, Receive(c, k));
    forall t | t in s'.tickets ensures s'.tickets[t].token == t && Holds(s', s'.place[t], t) {
      assert t != k.token ==> Holds(s, s.place[t], t);
    }
    forall d | d in s'.pcs && Held(s'.pcs[d]).Some? ensures At(s', Held(s'.pcs[d]).value, InHand(d)) {
      assert d != c ==> At(s, Held(s.pcs[d]).value, InHand(d));
    }
    forall slot | slot in s'.active ensures At(s', s'.active[slot], InTable(slot)) {
      assert At(s, s.active[slot], InTable(slot));
    }
    forall i | 0 <= i < |s'.replies| ensures At(s', s'.replies[i].k, Replied(i)) {
      assert At(s, s.replies[i].k, Replied(i));
    }
  }

  lemma InsertLocated(s: State, c: Conn)
    requires Located(s) && Enabled(s, Insert(c)) && s.pcs[c].slot !in s.active
    ensures Located(Next(s, Insert(c)))
  {
    var s', k := Next(s, Insert(c)), s.pcs[c].k;
    assert At(s, k, InHand(c));
    forall t | t in s'.tickets ensures s'.tickets[t].token == t && Holds(s', s'.place[t], t) {
      assert Holds(s, s.place[t], t);
    }
    forall d | d in s'.pcs && Held(s'.pcs[d]).Some? ensures At(s', Held(s'.pcs[d]).value, InHand(d)) {
      assert At(s, Held(s.pcs[d]).value, InHand(d));
    }
    forall slot | slot in s'.active ensures At(s', s'.active[slot], InTable(slot)) {
      assert slot in s.active ==> At(s, s.active[slot], InTable(slot));
    }
    forall i | 0 <= i < |s'.replies| ensures At(s', s'.replies[i].k, Replied(i)) {
      assert At(s, s.replies[i].k, Replied(i));
    }
  }

  /** An entry leaves the table and its request is in the hand of c. */
  lemma TakenLocated(s: State, s': State, c: Conn, slot: Slot)
    requires Located(s) && slot in s.active && c in s.pcs && Held(s.pcs[c]) == None
    requires c in s'.pcs && s'.pcs == s.pcs[c := s'.pcs[c]] && Held(s'.pcs[c]) == Some(s.active[slot])
    requires s'.active == s.active - {slot} && s'.replies == s.replies && s'.tickets == s.tickets
    requires s'.place == s.place[s.active[slot].token := InHand(c)]
    ensures Located(s')
  {
    var k := s.active[slot];
    assert At(s, k, InTable(slot));
    forall t | t in s'.tickets ensures s'.tickets[t].token == t && Holds(s', s'.place[t], t) {
      assert Holds(s, s.place[t], t);
    }
    forall d | d in s'.pcs && Held(s'.pcs[d]).Some? ensures At(s', Held(s'.pcs[d]).value, InHand(d)) {
      assert d != c ==> At(s, Held(s.pcs[d]).value, InHand(d));
    }
    forall sl | sl in s'.active ensures At(s', s'.active[sl], InTable(sl)) {
      assert At(s, s.active[sl], InTable(sl));
    }
    forall i | 0 <= i < |s'.replies| ensures At(s', s'.replies[i].k, Replied(i)) {
      assert At(s, s.replies[i].k, Replied(i));
    }
  }

  lemma ReplyLocated(s: State, c: Conn, over: bool, sent: bool)
    requires Located(s) && Enabled(s, Reply(c, over, sent))
    ensures Located(Next(s, Reply(c, over, sent)))
  {
    var s', k := Next(s, Reply(c, over, sent)), s.pcs[c].k;
    assert At(s, k, InHand(c));
    forall t | t in s'.tickets ensures s'.tickets[t].token == t && Holds(s', s'.place[t], t) {
      assert Holds(s, s.place[t], t);
    }
    forall d | d in s'.pcs && Held(s'.pcs[d]).Some? ensures At(s', Held(s'.pcs[d]).value, InHand(d)) {
      assert At(s, Held(s.pcs[d]).value, InHand(d));
    }
    forall slot | slot in s'.active ensures At(s', s'.active[slot], InTable(slot)) {
      assert At(s, s.active[slot], InTable(slot));
    }
    forall i | 0 <= i < |s'.replies| ensures At(s', s'.replies[i].k, Replied(i)) {
      assert i < |s.replies| ==> At(s, s.replies[i].k, Replied(i));
    }
  }

  /** Steps that move no request from one place to another. */
  predicate Quiet(step: Step) {
    !step.Receive? && !step.Insert? && !step.Remove? && !step.Respond? && !step.Reply?
  }

  lemma QuietHands(s: State, step: Step)
    requires Enabled(s, step) && Quiet(step)
    ensures var s', c := Next(s, step), step.c;
            && c in s'.pcs && s'.pcs == s.pcs[c := s'.pcs[c]]
            && Held(s'.pcs[c]) == (if c in s.pcs then Held(s.pcs[c]) else None)
  {
  }

  lemma QuietTables(s: State, step: Step)
    requires Enabled(s, step) && Quiet(step)
    ensures var s' := Next(s, step);
            s'.active == s.active && s'.replies == s.replies && s'.tickets == s.tickets && s'.place == s.place
  {
  }

  lemma RespondLocated(s: State, step: Step)
    requires Located(s) && Enabled(s, step) && step.Respond?
    ensures Located(Next(s, step))
  {
    var slot := Slot(step.c, step.id);
    if slot in s.active {
      TakenLocated(s, Next(s, step), step.c, slot);
    }
  }

  lemma RemoveLocated(s: State, c: Conn)
    requires Located(s) && Enabled(s, Remove(c)) && Orderly(s, Remove(c))
    ensures Located(Next(s, Remove(c)))
  {
    TakenLocated(s, Next(s, Remove(c)), c, s.pcs[c].slot);
  }

  lemma FairIsOrderly(s: State, step: Step)
    requires Entries(s) && Enabled(s, step) && Fair(s, step)
    ensures Orderly(s, step)
  {
    if step.Remove? {
      assert EntryOf(s, step.c);
    }
  }

  /** Whatever the peers answer, no orderly step loses or copies a request. */
  lemma LocatedKept(s: State, step: Step)
    requires Located(s) && Enabled(s, step) && Orderly(s, step)
    ensures Located(Next(s, step))
  {
    match step
    case Receive(c, k) => ReceiveLocated(s, c, k);
    case Insert(c) => InsertLocated(s, c);
    case Remove(c) => RemoveLocated(s, c);
    case Respond(c, _, _, _) => RespondLocated(s, step);
    case Reply(c, over, sent) => ReplyLocated(s, c, over, sent);
    case _ =>
      QuietHands(s, step);
      QuietTables(s, step);
      StaysInHand(s, Next(s, step), step.c);
  }

  // ---------------------------------------------------------------- table entries and deliveries

  /** Steps that leave the tables and the deliveries alone. */
  predicate TablesAlone(step: Step) {
    !step.Insert? && !step.SendOk? && !step.Remove? && !step.Respond?
  }

  lemma TablesAloneFrame(s: State, step: Step)
    requires Enabled(s, step) && TablesAlone(step)
    ensures Next(s, step).active == s.active && Next(s, step).delivered == s.delivered
  {
  }

  lemma OwnEntryKept(s: State, step: Step)
    requires Enabled(s, step) && TablesAlone(step) && (step.c in s.pcs ==> EntryOf(s, step.c))
    ensures step.c in Next(s, step).pcs && EntryOf(Next(s, step), step.c)
  {
  }

  lemma InsertEntries(s: State, c: Conn)
    requires Entries(s) && Deliveries(s) && Enabled(s, Insert(c)) && s.pcs[c].slot !in s.active
    ensures Entries(Next(s, Insert(c)))
  {
    var s' := Next(s, Insert(c));
    forall d | d in s'.pcs ensures EntryOf(s', d) {
      assert EntryOf(s, d);
    }
  }

  lemma SendOkEntries(s: State, c: Conn)
    requires Entries(s) && Enabled(s, SendOk(c))
    ensures Entries(Next(s, SendOk(c)))
  {
    var s' := Next(s, SendOk(c));
    assert EntryOf(s, c);
    forall d | d in s'.pcs ensures EntryOf(s', d) {
      assert EntryOf(s, d);
    }
  }

  lemma RemoveEntries(s: State, c: Conn)
    requires Entries(s) && Enabled(s, Remove(c))
    ensures Entries(Next(s, Remove(c)))
  {
    var s' := Next(s, Remove(c));
    assert EntryOf(s, c);
    forall d | d in s'.pcs ensures EntryOf(s', d) {
      assert EntryOf(s, d);
    }
  }

  lemma RespondEntries(s: State, step: Step)
    requires Entries(s) && Enabled(s, step) && step.Respond? && Fair(s, step)
    ensures Entries(Next(s, step))
  {
    var s' := Next(s, step);
    forall d | d in s'.pcs ensures EntryOf(s', d) {
      assert EntryOf(s, d);
    }
  }

  lemma EntriesKept(s: State, step: Step)
    requires Entries(s) && Deliveries(s) && Enabled(s, step) && Fair(s, step)
    ensures Entries(Next(s, step))
  {
    match step
    case Insert(c) => InsertEntries(s, c);
    case SendOk(c) => SendOkEntries(s, c);
    case Remove(c) => RemoveEntries(s, c);
    case Respond(c, _, _, _) => RespondEntries(s, step);
    case _ => OtherEntries(s, step);
  }

  lemma OtherEntries(s: State, step: Step)
    requires Entries(s) && Enabled(s, step) && TablesAlone(step)
    ensures Entries(Next(s, step))
  {
    var s' := Next(s, step);
    TablesAloneFrame(s, step);
    assert step.c in s.pcs ==> EntryOf(s, step.c);
    OwnEntryKept(s, step);
    forall d | d in s'.pcs ensures EntryOf(s', d) {
      assert d != step.c ==> EntryOf(s, d);
    }
  }

  lemma InsertOwners(s: State, c: Conn)
    requires Owners(s) && Entries(s) && Enabled(s, Insert(c)) && s.pcs[c].slot !in s.active
    ensures Owners(Next(s, Insert(c)))
  {
    var s' := Next(s, Insert(c));
    assert EntryOf(s, c);
    forall slot | slot in s'.active ensures OwnerOf(s', slot) {
      assert slot in s.active ==> OwnerOf(s, slot);
    }
  }

  lemma OtherOwners(s: State, step: Step)
    requires Owners(s) && Entries(s) && Enabled(s, step) && !step.Insert?
    ensures Owners(Next(s, step))
  {
    var s' := Next(s, step);
    forall slot | slot in s'.active ensures OwnerOf(s', slot) {
      assert slot in s.active && OwnerOf(s, slot);
      OwnerKept(s, step, slot);
    }
  }

  lemma OwnerKept(s: State, step: Step, slot: Slot)
    requires Enabled(s, step) && !step.Insert? && slot in s.active && slot in Next(s, step).active && OwnerOf(s, slot)
    ensures OwnerOf(Next(s, step), slot)
  {
  }

  lemma OwnersKept(s: State, step: Step)
    requires Owners(s) && Entries(s) && Enabled(s, step) && Orderly(s, step)
    ensures Owners(Next(s, step))
  {
    if step.Insert? { InsertOwners(s, step.c); } else { OtherOwners(s, step); }
  }

  lemma DeliveriesKept(s: State, step: Step)
    requires Entries(s) && Deliveries(s) && Enabled(s, step) && Fair(s, step)
    ensures Deliveries(Next(s, step))
  {
    if TablesAlone(step) {
      TablesAloneFrame(s, step);
    } else {
      assert EntryOf(s, step.c);
    }
  }

  // ---------------------------------------------------------------- the right callee, the right answer

  /** Once a request is routed, its target never changes. */
  lemma TargetGrows(s: State, step: Step, t: Token)
    requires Targets(s) && Enabled(s, step) && t in s.target
    ensures RoutedTo(Next(s, step), t, s.target[t])
  {
    if step.Lookup? {
      assert TargetOf(s, s.pcs[step.c]);
    }
  }

  lemma OwnTargetKept(s: State, step: Step)
    requires Targets(s) && Enabled(s, step) && (step.c in s.pcs ==> TargetOf(s, s.pcs[step.c]))
    ensures TargetOf(Next(s, step), NextPc(s, step))
  {
  }

  lemma OtherTargetKept(s: State, step: Step, d: Conn)
    requires Targets(s) && HandsExact(s) && Enabled(s, step) && d in s.pcs && d != step.c
    ensures TargetOf(Next(s, step), s.pcs[d])
  {
    assert TargetOf(s, s.pcs[d]);
    if s.pcs[d].Handling? {
      assert At(s, s.pcs[d].k, InHand(d));
      if step.Lookup? {
        assert At(s, s.pcs[step.c].k, InHand(step.c));
      }
    } else if s.pcs[d].Forwarding? || s.pcs[d].Numbered? {
      TargetGrows(s, step, s.pcs[d].k.token);
    }
  }

  lemma SlotTargetKept(s: State, step: Step, slot: Slot)
    requires Targets(s) && Enabled(s, step) && slot in Next(s, step).active
    ensures RoutedTo(Next(s, step), Next(s, step).active[slot].token, slot.callee)
  {
    if slot in s.active {
      TargetGrows(s, step, s.active[slot].token);
    }
    if step.Insert? {
      assert TargetOf(s, s.pcs[step.c]);
    }
  }

  lemma TargetsKnown(s: State, step: Step)
    requires Targets(s) && HandsExact(s) && Enabled(s, step)
    ensures Next(s, step).target.Keys <= Next(s, step).tickets.Keys
  {
    if step.Lookup? {
      assert At(s, s.pcs[step.c].k, InHand(step.c));
    }
  }

  lemma TargetsKept(s: State, step: Step)
    requires Located(s) && Targets(s) && Enabled(s, step)
    ensures Targets(Next(s, step))
  {
    var s' := Next(s, step);
    TargetsKnown(s, step);
    forall d | d in s'.pcs ensures TargetOf(s', s'.pcs[d]) {
      if d == step.c { OwnTargetKept(s, step); } else { OtherTargetKept(s, step, d); }
    }
    forall slot | slot in s'.active ensures RoutedTo(s', s'.active[slot].token, slot.callee) {
      SlotTargetKept(s, step, slot);
    }
  }

  lemma RightPayloadKept(s: State, step: Step, k: Ticket, p: Payload)
    requires Targets(s) && Enabled(s, step) && RightPayload(s, k, p)
    ensures RightPayload(Next(s, step), k, p)
  {
    if p.FromCallee? {
      TargetGrows(s, step, k.token);
    }
  }

  /** A reply that a callee's table lets through answers the very request that the callee was sent. */
  lemma NewPayload(s: State, step: Step)
    requires Targets(s) && Deliveries(s) && Enabled(s, step) && Fair(s, step)
    requires NextPc(s, step).Replying?
    ensures RightPayload(Next(s, step), NextPc(s, step).k, NextPc(s, step).payload)
  {
    if step.Respond? {
      var slot := Slot(step.c, step.id);
      TargetGrows(s, step, s.active[slot].token);
    }
  }

  lemma PayloadsKept(s: State, step: Step)
    requires Deliveries(s) && Targets(s) && Payloads(s) && Enabled(s, step) && Fair(s, step)
    ensures Payloads(Next(s, step))
  {
    var s' := Next(s, step);
    forall d | d in s'.pcs && s'.pcs[d].Replying? ensures RightPayload(s', s'.pcs[d].k, s'.pcs[d].payload) {
      if d == step.c { NewPayload(s, step); } else { RightPayloadKept(s, step, s.pcs[d].k, s.pcs[d].payload); }
    }
    forall i | 0 <= i < |s'.replies| ensures RightPayload(s', s'.replies[i].k, s'.replies[i].payload) {
      if i < |s.replies| {
        RightPayloadKept(s, step, s.replies[i].k, s.replies[i].payload);
      } else {
        RightPayloadKept(s, step, s.pcs[step.c].k, s.pcs[step.c].payload);
      }
    }
  }

  // ---------------------------------------------------------------- routes

  /** Holds of every step, fair or not: requests are handled inside Run, so nothing registers after clean-up. */
  lemma LiveRoutesKept(s: State, step: Step)
    requires LiveRoutes(s) && Enabled(s, step)
    ensures LiveRoutes(Next(s, step))
  {
    var s' := Next(s, step);
    forall m | m in s'.routes ensures s'.routes[m] in s'.pcs && !PastCleanUp(s'.pcs[s'.routes[m]]) {
      if m in s.routes {
        assert s.routes[m] in s.pcs && !PastCleanUp(s.pcs[s.routes[m]]);
      }
    }
  }
}
