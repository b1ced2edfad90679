/** Which requests can still be answered: exactly those that are neither lost nor stranded. */
module HubProspects {
  import opened Basics
  import opened Routes
  import opened Hub
  import opened HubInvariant
  import opened HubTheorems

  // ---------------------------------------------------------------- requests that are never answered

  predicate Gone(pc: Pc) {
    pc.Ended? || pc.Cleaned? || pc.Closed?
  }

  /** The callee of this entry was sent the request and has stopped reading. */
  predicate Stranded(s: State, slot: Slot) {
    slot in s.active && slot in s.delivered && slot.callee in s.pcs && Gone(s.pcs[slot.callee])
  }

  lemma StrandedKept(s: State, step: Step, slot: Slot)
    requires Entries(s) && Stranded(s, slot) && Enabled(s, step) && Fair(s, step)
    ensures Stranded(Next(s, step), slot) && Next(s, step).active[slot] == s.active[slot]
  {
    if step.c in s.pcs {
      assert EntryOf(s, step.c);
    }
  }

  /** Nothing drains the table of a client that is gone: a request delivered to it is never answered. */
  lemma {:induction false} StrandedForever(own: set<Name>, steps: seq<Step>, more: seq<Step>, slot: Slot)
    requires Exec(own, steps + more).Some? && FairRun(own, steps + more)
    requires Exec(own, steps).Some? && Stranded(Exec(own, steps).value, slot)
    ensures Stranded(Exec(own, steps + more).value, slot)
    ensures Exec(own, steps + more).value.active[slot] == Exec(own, steps).value.active[slot]
    ensures Tries(Exec(own, steps + more).value.replies, Exec(own, steps).value.active[slot].token) == 0
    ensures !Answered(Exec(own, steps + more).value, Exec(own, steps).value.active[slot].token)
    decreases |more|
  {
    RunInv(own, steps + more);
    if more == [] {
      assert steps + more == steps;
    } else {
      var most := more[..|more| - 1];
      assert (steps + more)[..|steps + more| - 1] == steps + most;
      StrandedForever(own, steps, most, slot);
      RunInv(own, steps + most);
      StrandedKept(Exec(own, steps + most).value, more[|more| - 1], slot);
    }
    NotReplied(Exec(own, steps + more).value, slot);
  }

  lemma NotReplied(s: State, slot: Slot)
    requires Located(s) && slot in s.active
    ensures Tries(s.replies, s.active[slot].token) == 0 && !Answered(s, s.active[slot].token)
  {
    OnlyPlace(s, InTable(slot), s.active[slot].token);
    TriesByPlace(s, s.active[slot].token);
  }

  /** A lost reply is not tried again. */
  lemma LostForever(own: set<Name>, steps: seq<Step>, more: seq<Step>, t: Token)
    requires Exec(own, steps + more).Some? && FairRun(own, steps) && FairRun(own, steps + more)
    requires Exec(own, steps).Some? && t in Exec(own, steps).value.tickets && Lost(Exec(own, steps).value, t)
    ensures Lost(Exec(own, steps + more).value, t)
  {
    RepliesOnlyGrow(own, steps, more);
    RunInv(own, steps);
    RunInv(own, steps + more);
    var s, s' := Exec(own, steps).value, Exec(own, steps + more).value;
    TriesByPlace(s, t);
    assert Holds(s, s.place[t], t);
    var i := s.place[t].i;
    assert s'.replies[i] == s.replies[i];
    OnlyPlace(s', Replied(i), t);
    TriesByPlace(s', t);
  }

  /** Nothing is written to a connection that the router has closed; to any other it can be. */
  lemma WrittenExactly(s: State, c: Conn)
    requires c in s.pcs
    ensures Enabled(s, SendOk(c)) <==> s.pcs[c].Registered? && !Shut(s, s.pcs[c].slot.callee)
    ensures forall over :: Enabled(s, Reply(c, over, true)) <==> s.pcs[c].Replying? && !Shut(s, s.pcs[c].k.caller)
    ensures forall over :: Enabled(s, Reply(c, over, false)) <==> s.pcs[c].Replying?
  {
  }

  /** Writing to a closed connection fails, so no reply of a caller that the router has closed is answered any more. */
  lemma ShutKept(s: State, step: Step, t: Token)
    requires Located(s) && t in s.tickets && Shut(s, s.tickets[t].caller) && Enabled(s, step)
    ensures t in Next(s, step).tickets && Next(s, step).tickets[t] == s.tickets[t]
    ensures Shut(Next(s, step), s.tickets[t].caller)
    ensures Answers(Next(s, step).replies, t) == Answers(s.replies, t)
  {
    if step.Reply? {
      var k := s.pcs[step.c].k;
      assert At(s, k, InHand(step.c));
      TriesAppend(s.replies, Attempt(k, Tried(s.pcs[step.c].payload, step.over), step.sent), t);
    }
  }

  lemma {:induction false} ShutForever(own: set<Name>, steps: seq<Step>, more: seq<Step>, t: Token)
    requires Exec(own, steps + more).Some? && FairRun(own, steps + more)
    requires Exec(own, steps).Some? && t in Exec(own, steps).value.tickets
    requires Shut(Exec(own, steps).value, Exec(own, steps).value.tickets[t].caller)
    ensures var s, s' := Exec(own, steps).value, Exec(own, steps + more).value;
            && t in s'.tickets && s'.tickets[t] == s.tickets[t] && Shut(s', s.tickets[t].caller)
            && Answers(s'.replies, t) == Answers(s.replies, t)
    decreases |more|
  {
    if more == [] {
      assert steps + more == steps;
    } else {
      var most := more[..|more| - 1];
      assert (steps + more)[..|steps + more| - 1] == steps + most;
      ShutForever(own, steps, most, t);
      RunInv(own, steps + most);
      ShutKept(Exec(own, steps + most).value, more[|more| - 1], t);
    }
  }

  // ---------------------------------------------------------------- a goroutine finishes what it is at

  /** No number about to be used is still in a table: ids have not wrapped onto active ones. */
  predicate Clear(s: State, c: Conn)
    requires c in s.pcs
  {
    match s.pcs[c]
    case Handling(k) =>
      !AnsweredHere(s, k.m) && k.m in s.routes ==> Slot(s.routes[k.m], NextId(s, s.routes[k.m])) !in s.active
    case Forwarding(_, callee) => Slot(callee, NextId(s, callee)) !in s.active
    case Numbered(_, slot) => slot !in s.active
    case _ => true
  }

  /** The run goes on from `steps` to `run`, and is fair. */
  ghost predicate Reaches(own: set<Name>, steps: seq<Step>, run: seq<Step>, s: State) {
    steps <= run && Exec(own, run) == Some(s) && FairRun(own, run)
  }

  /** The reply in hand is written. */
  lemma Finish(own: set<Name>, steps: seq<Step>, run: seq<Step>, s: State, c: Conn)
    returns (run': seq<Step>, s': State)
    requires Reaches(own, steps, run, s) && Enabled(s, Reply(c, false, true))
    ensures Reaches(own, steps, run', s') && Answered(s', s.pcs[c].k.token)
  {
    var step := Reply(c, false, true);
    Extend(own, run, s, step);
    run', s' := run + [step], Next(s, step);
    RunInv(own, run);
    RunInv(own, run');
    AnsweredByReply(s, c);
  }

  lemma AnsweredByReply(s: State, c: Conn)
    requires Located(s) && Enabled(s, Reply(c, false, true)) && Located(Next(s, Reply(c, false, true)))
    ensures Answered(Next(s, Reply(c, false, true)), s.pcs[c].k.token)
  {
    var s', t := Next(s, Reply(c, false, true)), s.pcs[c].k.token;
    assert At(s, s.pcs[c].k, InHand(c));
    TriesAppend(s.replies, Attempt(s.pcs[c].k, s.pcs[c].payload, true), t);
    LocatedIsOneOfFour(s', t);
  }

  /** A request that is still with its caller's goroutine can be answered by it: at worst with an error. */
  lemma FinishOwn(own: set<Name>, steps: seq<Step>, run: seq<Step>, s: State, c: Conn)
    returns (run': seq<Step>, s': State)
    requires Reaches(own, steps, run, s) && c in s.pcs && Clear(s, c)
    requires (Held(s.pcs[c]).Some? || Awaiting(s.pcs[c])) && !Shut(s, s.pcs[c].k.caller)
    ensures Reaches(own, steps, run', s') && Answered(s', s.pcs[c].k.token)
    decreases Distance(s.pcs[c])
  {
    if s.pcs[c].Replying? {
      run', s' := Finish(own, steps, run, s, c);
    } else {
      var step := NextOwn(s, c);
      NextOwnMoves(s, c);
      OnlyCloseShuts(s, step);
      Extend(own, run, s, step);
      run', s' := FinishOwn(own, steps, run + [step], Next(s, step), c);
    }
  }

  /** The step that brings a goroutine nearer to an answer of its own. */
  function NextOwn(s: State, c: Conn): Step
    requires c in s.pcs
  {
    match s.pcs[c]
    case Handling(k) => if AnsweredHere(s, k.m) then Local(c, CODE_GENERIC) else Lookup(c)
    case Forwarding(_, _) => Number(c)
    case Numbered(_, _) => Insert(c)
    case Registered(_, _) => SendFail(c, CODE_FAILED_TO_SEND)
    case SendFailed(_, _, _) => Remove(c)
    case _ => Reply(c, false, true)
  }

  function Distance(pc: Pc): nat {
    match pc
    case Forwarding(_, _) => 5
    case Numbered(_, _) => 4
    case Registered(_, _) => 3
    case SendFailed(_, _, _) => 2
    case Handling(_) => 6
    case _ => 0
  }

  /** No connection was closed in between. */
  ghost predicate NoMoreShut(s: State, s': State) {
    forall c :: Shut(s', c) ==> Shut(s, c)
  }

  lemma OnlyCloseShuts(s: State, step: Step)
    requires Enabled(s, step) && !step.Close?
    ensures NoMoreShut(s, Next(s, step))
  {
  }

  lemma NextOwnMoves(s: State, c: Conn)
    requires c in s.pcs && Clear(s, c) && !s.pcs[c].Replying?
    requires Held(s.pcs[c]).Some? || Awaiting(s.pcs[c])
    ensures var step := NextOwn(s, c);
            && Enabled(s, step) && Fair(s, step)
            && c in Next(s, step).pcs && Clear(Next(s, step), c)
            && (Held(Next(s, step).pcs[c]).Some? || Awaiting(Next(s, step).pcs[c]))
            && Next(s, step).pcs[c].k == s.pcs[c].k
            && Distance(Next(s, step).pcs[c]) < Distance(s.pcs[c])
  {
  }

  // ---------------------------------------------------------------- a callee gets to read its answer

  /** The entry that the callee was sent is still there, unchanged. */
  predicate Kept(s: State, s': State, slot: Slot)
    requires slot in s.active
  {
    slot in s'.active && slot in s'.delivered && s'.active[slot] == s.active[slot]
  }

  /** The step that brings a goroutine nearer to reading the next packet. */
  function NextIdle(s: State, c: Conn): Step
    requires c in s.pcs
  {
    if s.pcs[c].Replying? then Reply(c, false, !Shut(s, s.pcs[c].k.caller)) else NextOwn(s, c)
  }

  function IdleDistance(pc: Pc): nat {
    match pc
    case Idle => 0
    case Replying(_, _) => 1
    case _ => Distance(pc) + 1
  }

  lemma NextIdleMoves(s: State, c: Conn, slot: Slot)
    requires Entries(s) && c in s.pcs && Clear(s, c) && !s.pcs[c].Idle? && !Gone(s.pcs[c])
    requires slot in s.active && slot in s.delivered
    ensures var step := NextIdle(s, c);
            && Enabled(s, step) && Fair(s, step)
            && c in Next(s, step).pcs && Clear(Next(s, step), c) && !Gone(Next(s, step).pcs[c])
            && IdleDistance(Next(s, step).pcs[c]) < IdleDistance(s.pcs[c])
            && Kept(s, Next(s, step), slot)
  {
    assert EntryOf(s, c);
  }

  lemma GetIdle(own: set<Name>, steps: seq<Step>, run: seq<Step>, s: State, slot: Slot)
    returns (run': seq<Step>, s': State)
    requires Reaches(own, steps, run, s) && slot in s.active && slot in s.delivered
    requires slot.callee in s.pcs && Clear(s, slot.callee) && !Gone(s.pcs[slot.callee])
    ensures Reaches(own, steps, run', s') && Kept(s, s', slot) && NoMoreShut(s, s')
    ensures slot.callee in s'.pcs && s'.pcs[slot.callee].Idle?
    decreases IdleDistance(s.pcs[slot.callee])
  {
    var c := slot.callee;
    if s.pcs[c].Idle? {
      run', s' := run, s;
    } else {
      var step := NextIdle(s, c);
      RunInv(own, run);
      NextIdleMoves(s, c, slot);
      OnlyCloseShuts(s, step);
      Extend(own, run, s, step);
      run', s' := GetIdle(own, steps, run + [step], Next(s, step), slot);
    }
  }

  /** A callee that still reads can answer what it was sent. */
  lemma CalleeAnswers(own: set<Name>, steps: seq<Step>, run: seq<Step>, s: State, slot: Slot)
    returns (run': seq<Step>, s': State)
    requires Reaches(own, steps, run, s) && slot in s.active && slot in s.delivered
    requires slot.callee in s.pcs && Clear(s, slot.callee) && !Gone(s.pcs[slot.callee])
    requires !Shut(s, s.active[slot].caller)
    ensures Reaches(own, steps, run', s') && Answered(s', s.active[slot].token)
  {
    var idle;
    run', idle := GetIdle(own, steps, run, s, slot);
    RunInv(own, run');
    var step := Respond(slot.callee, slot.id, s.active[slot].token, Body([0xc0], [0xc0]));
    assert slot == Slot(slot.callee, slot.id);
    Extend(own, run', idle, step);
    run', s' := Finish(own, steps, run' + [step], Next(idle, step), slot.callee);
  }

  // ---------------------------------------------------------------- the exact condition

  ghost predicate Answerable(own: set<Name>, steps: seq<Step>, t: Token) {
    exists run, s :: Reaches(own, steps, run, s) && Answered(s, t)
  }

  /** The request waits in the table of a client that is gone. */
  predicate StrandedRequest(s: State, t: Token) {
    t in s.place && s.place[t].InTable? && Stranded(s, s.place[t].slot)
  }

  /** Every callee is a connection that was accepted. */
  lemma {:induction false} CalleesExist(own: set<Name>, steps: seq<Step>)
    requires Exec(own, steps).Some?
    ensures var s := Exec(own, steps).value; forall t :: t in s.target ==> s.target[t] in s.pcs
  {
    if steps != [] {
      CalleesExist(own, steps[..|steps| - 1]);
      RoutesAreLive(own, steps[..|steps| - 1]);
    }
  }

  /** The goroutine that a request waits for. */
  function Mover(s: State, t: Token): Conn
    requires t in s.place && !s.place[t].Replied?
  {
    match s.place[t]
    case InHand(c) => c
    case InTable(slot) =>
      if slot in s.active && slot !in s.delivered then s.active[slot].caller else slot.callee
  }

  /** Nothing can answer this request any more: its reply was lost, or it waits with a client that is gone, or the
      router has closed the connection of its caller. */
  ghost predicate Hopeless(s: State, t: Token)
    requires t in s.tickets
  {
    Lost(s, t) || StrandedRequest(s, t) || Shut(s, s.tickets[t].caller)
  }

  /** In every state of every fair run, some fair continuation answers a request exactly when it is answered already
      or is not hopeless.  The goroutine it waits for must not be about to take a number that is still active. */
  lemma AnswerableExactly(own: set<Name>, steps: seq<Step>, t: Token)
    requires Exec(own, steps).Some? && FairRun(own, steps) && t in Exec(own, steps).value.tickets
    requires var s := Exec(own, steps).value;
             t in s.place && (!s.place[t].Replied? && Mover(s, t) in s.pcs ==> Clear(s, Mover(s, t)))
    ensures var s := Exec(own, steps).value;
            Answerable(own, steps, t) <==> Answered(s, t) || !Hopeless(s, t)
  {
    var s := Exec(own, steps).value;
    if Answered(s, t) {
      assert Reaches(own, steps, steps, s);
    } else if Hopeless(s, t) {
      NotAnswerable(own, steps, t);
    } else {
      var run, s' := CanBeAnswered(own, steps, t);
    }
  }

  lemma NotAnswerable(own: set<Name>, steps: seq<Step>, t: Token)
    requires Exec(own, steps).Some? && FairRun(own, steps) && t in Exec(own, steps).value.tickets
    requires Hopeless(Exec(own, steps).value, t) && !Answered(Exec(own, steps).value, t)
    ensures !Answerable(own, steps, t)
  {
    var s := Exec(own, steps).value;
    RunInv(own, steps);
    assert Holds(s, s.place[t], t);
    forall run, s' | Reaches(own, steps, run, s') ensures !Answered(s', t) {
      var more := run[|steps|..];
      assert run == steps + more;
      if Lost(s, t) {
        LostForever(own, steps, more, t);
      } else if Shut(s, s.tickets[t].caller) {
        ShutForever(own, steps, more, t);
      } else {
        StrandedForever(own, steps, more, s.place[t].slot);
      }
    }
  }

  lemma CanBeAnswered(own: set<Name>, steps: seq<Step>, t: Token) returns (run: seq<Step>, s': State)
    requires Exec(own, steps).Some? && FairRun(own, steps) && t in Exec(own, steps).value.tickets
    requires var s := Exec(own, steps).value;
             t in s.place && (!s.place[t].Replied? && Mover(s, t) in s.pcs ==> Clear(s, Mover(s, t)))
    requires !Hopeless(Exec(own, steps).value, t)
    ensures Reaches(own, steps, run, s') && Answered(s', t)
  {
    var s := Exec(own, steps).value;
    RunInv(own, steps);
    assert Holds(s, s.place[t], t);
    match s.place[t]
    case Replied(i) =>
      TriesByPlace(s, t);
      run, s' := steps, s;
    case InHand(c) =>
      assert At(s, s.pcs[c].k, InHand(c));
      run, s' := FinishOwn(own, steps, steps, s, c);
    case InTable(slot) =>
      assert At(s, s.active[slot], InTable(slot));
      if slot in s.delivered {
        CalleesExist(own, steps);
        assert RoutedTo(s, s.active[slot].token, slot.callee);
        run, s' := CalleeAnswers(own, steps, steps, s, slot);
      } else {
        assert OwnerOf(s, slot);
        run, s' := FinishOwn(own, steps, steps, s, s.active[slot].caller);
      }
  }
}
