/** What a reply tells the caller: whether the request reached a callee. */
module HubDelivery {
  import opened Basics
  import opened Routes
  import opened Hub
  import opened HubInvariant
  import opened HubTheorems

  /** Until a goroutine has a callee's answer in hand, its request has reached nobody. */
  predicate ReachPc(s: State, pc: Pc) {
    && (OwnRequest(pc) ==> pc.k.token !in s.reached)
    && (pc.Replying? ==> (pc.payload.FromCallee? <==> pc.k.token in s.reached))
  }

  predicate ReachSlot(s: State, slot: Slot)
    requires slot in s.active
  {
    s.active[slot].token in s.reached <==> slot in s.delivered
  }

  predicate ReachReply(s: State, a: Attempt) {
    && (a.payload.FromCallee? ==> a.k.token in s.reached)
    && (a.payload.FromRouter? && a.payload.code != CODE_LIMIT ==> a.k.token !in s.reached)
  }

  ghost predicate Reach(s: State) {
    && s.reached <= s.tickets.Keys
    && (forall c :: c in s.pcs ==> ReachPc(s, s.pcs[c]))
    && (forall slot :: slot in s.active ==> ReachSlot(s, slot))
    && (forall i :: 0 <= i < |s.replies| ==> ReachReply(s, s.replies[i]))
  }

  // ---------------------------------------------------------------- delivering

  /** A request about to be delivered is in the caller's entry and nowhere else. */
  lemma OnlyInEntry(s: State, c: Conn, p: Place)
    requires Inv(s) && Enabled(s, SendOk(c)) && Holds(s, p, s.pcs[c].k.token)
    ensures p == InTable(s.pcs[c].slot)
  {
    assert EntryOf(s, c);
    OnlyPlace(s, p, s.pcs[c].k.token);
    OnlyPlace(s, InTable(s.pcs[c].slot), s.pcs[c].k.token);
  }

  lemma OtherPcUnreached(s: State, c: Conn, d: Conn)
    requires Inv(s) && Enabled(s, SendOk(c)) && d in s.pcs && d != c && (OwnRequest(s.pcs[d]) || s.pcs[d].Replying?)
    ensures s.pcs[d].k.token != s.pcs[c].k.token
  {
    assert EntryOf(s, c) && EntryOf(s, d);
    var p := if Awaiting(s.pcs[d]) then InTable(s.pcs[d].slot) else InHand(d);
    OnlyPlace(s, p, s.pcs[d].k.token);
    OnlyPlace(s, InTable(s.pcs[c].slot), s.pcs[c].k.token);
  }

  lemma PcsElsewhere(s: State, c: Conn, d: Conn)
    requires Inv(s) && Enabled(s, SendOk(c)) && d in s.pcs && d != c && ReachPc(s, s.pcs[d])
    ensures ReachPc(Next(s, SendOk(c)), s.pcs[d])
  {
    if OwnRequest(s.pcs[d]) || s.pcs[d].Replying? {
      OtherPcUnreached(s, c, d);
    }
  }

  lemma SlotsElsewhere(s: State, c: Conn, slot: Slot)
    requires Inv(s) && Enabled(s, SendOk(c)) && slot in s.active && ReachSlot(s, slot)
    ensures ReachSlot(Next(s, SendOk(c)), slot)
  {
    assert EntryOf(s, c);
    if s.active[slot].token == s.pcs[c].k.token {
      OnlyInEntry(s, c, InTable(slot));
    }
  }

  lemma SendOkReach(s: State, c: Conn)
    requires Inv(s) && Reach(s) && Enabled(s, SendOk(c))
    ensures Reach(Next(s, SendOk(c)))
  {
    var s' := Next(s, SendOk(c));
    assert EntryOf(s, c);
    assert At(s, s.pcs[c].k, InTable(s.pcs[c].slot));
    forall d | d in s'.pcs ensures ReachPc(s', s'.pcs[d]) {
      if d != c {
        PcsElsewhere(s, c, d);
      }
    }
    forall slot | slot in s'.active ensures ReachSlot(s', slot) {
      SlotsElsewhere(s, c, slot);
    }
    forall i: nat | i < |s'.replies| ensures ReachReply(s', s'.replies[i]) {
      RepliesElsewhere(s, c, i);
    }
  }

  lemma RepliesElsewhere(s: State, c: Conn, i: nat)
    requires Inv(s) && Reach(s) && Enabled(s, SendOk(c)) && i < |s.replies|
    ensures ReachReply(Next(s, SendOk(c)), s.replies[i])
  {
    assert EntryOf(s, c) && ReachReply(s, s.replies[i]);
    OnlyPlace(s, Replied(i), s.replies[i].k.token);
    OnlyPlace(s, InTable(s.pcs[c].slot), s.pcs[c].k.token);
  }

  // ---------------------------------------------------------------- every other step

  lemma RespondReach(s: State, step: Step)
    requires Deliveries(s) && Enabled(s, step) && step.Respond? && Fair(s, step)
    requires Slot(step.c, step.id) in s.active ==> ReachSlot(s, Slot(step.c, step.id))
    ensures ReachPc(Next(s, step), NextPc(s, step))
  {
  }

  lemma OwnReach(s: State, step: Step)
    requires s.reached <= s.tickets.Keys && Enabled(s, step) && !step.SendOk? && !step.Respond?
    requires step.c in s.pcs ==> ReachPc(s, s.pcs[step.c])
    ensures ReachPc(Next(s, step), NextPc(s, step))
  {
  }

  lemma InsertReach(s: State, c: Conn, slot: Slot)
    requires Deliveries(s) && Enabled(s, Insert(c)) && s.pcs[c].slot !in s.active && ReachPc(s, s.pcs[c])
    requires slot in s.active ==> ReachSlot(s, slot)
    requires slot in Next(s, Insert(c)).active
    ensures ReachSlot(Next(s, Insert(c)), slot)
  {
  }

  lemma SlotsReach(s: State, step: Step, slot: Slot)
    requires Enabled(s, step) && !step.SendOk? && !step.Insert?
    requires slot in Next(s, step).active && (slot in s.active ==> ReachSlot(s, slot))
    ensures ReachSlot(Next(s, step), slot)
  {
  }

  lemma RepliesReach(s: State, step: Step, i: nat)
    requires Reach(s) && Enabled(s, step) && !step.SendOk? && i < |Next(s, step).replies|
    ensures ReachReply(Next(s, step), Next(s, step).replies[i])
  {
    if i < |s.replies| {
      assert ReachReply(s, s.replies[i]);
    } else {
      assert ReachPc(s, s.pcs[step.c]);
    }
  }

  lemma StepperReach(s: State, step: Step)
    requires Inv(s) && Reach(s) && Enabled(s, step) && Fair(s, step) && !step.SendOk?
    ensures ReachPc(Next(s, step), NextPc(s, step))
  {
    if step.Respond? {
      RespondReach(s, step);
    } else {
      assert step.c in s.pcs ==> ReachPc(s, s.pcs[step.c]);
      OwnReach(s, step);
    }
  }

  lemma ReachKept(s: State, step: Step)
    requires Inv(s) && Reach(s) && Enabled(s, step) && Fair(s, step)
    ensures Reach(Next(s, step))
  {
    if step.SendOk? {
      SendOkReach(s, step.c);
    } else {
      var s' := Next(s, step);
      forall d | d in s'.pcs ensures ReachPc(s', s'.pcs[d]) {
        if d == step.c { StepperReach(s, step); } else { assert ReachPc(s, s.pcs[d]); }
      }
      forall slot | slot in s'.active ensures ReachSlot(s', slot) {
        assert slot in s.active ==> ReachSlot(s, slot);
        if step.Insert? { InsertReach(s, step.c, slot); } else { SlotsReach(s, step, slot); }
      }
      forall i: nat | i < |s'.replies| ensures ReachReply(s', s'.replies[i]) {
        RepliesReach(s, step, i);
      }
    }
  }

  lemma {:induction false} ReachRun(own: set<Name>, steps: seq<Step>)
    requires Exec(own, steps).Some? && FairRun(own, steps)
    ensures Reach(Exec(own, steps).value)
  {
    if steps != [] {
      var before, step := steps[..|steps| - 1], steps[|steps| - 1];
      ReachRun(own, before);
      RunInv(own, before);
      ReachKept(Exec(own, before).value, step);
    }
  }

  /** In every fair run: a callee's answer that a caller is sent means that its request was delivered, and an answer
      of the router, other than the limit error that may stand in for any reply, means that it was delivered to
      nobody and, however the run goes on, never will be. */
  lemma ReplyTellsDelivery(own: set<Name>, steps: seq<Step>, more: seq<Step>, a: Attempt)
    requires Exec(own, steps + more).Some? && FairRun(own, steps) && FairRun(own, steps + more)
    requires Exec(own, steps).Some? && a in Exec(own, steps).value.replies
    ensures ReachReply(Exec(own, steps).value, a) && ReachReply(Exec(own, steps + more).value, a)
  {
    ReachRun(own, steps);
    ReachRun(own, steps + more);
    RepliesOnlyGrow(own, steps, more);
    assert a in Exec(own, steps + more).value.replies;
  }
}
