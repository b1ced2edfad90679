/** The hub with peers that answer whatever they like: how a second reply comes about, and the only way it can. */
module HubForgery {
  import opened Basics
  import opened Routes
  import opened Hub
  import opened HubInvariant
  import opened HubTheorems

  /** A goroutine handles requests of its own connection, and the entry it made, if still in a table, is where it
      put it. */
  predicate CallerOf(s: State, c: Conn)
    requires c in s.pcs
  {
    var pc := s.pcs[c];
    && (OwnRequest(pc) ==> pc.k.caller == c)
    && (Awaiting(pc) ==>
          Known(s, pc.k) && pc.k.token in s.place &&
          (s.place[pc.k.token].InTable? ==> s.place[pc.k.token].slot == pc.slot))
  }

  ghost predicate Callers(s: State) {
    forall c :: c in s.pcs ==> CallerOf(s, c)
  }

  lemma OwnCallerKept(s: State, step: Step)
    requires Located(s) && Enabled(s, step) && (step.c in s.pcs ==> CallerOf(s, step.c))
    ensures CallerOf(Next(s, step), step.c)
  {
    if step.Insert? {
      OwnInsertKept(s, step.c);
    }
  }

  lemma OwnInsertKept(s: State, c: Conn)
    requires Located(s) && Enabled(s, Insert(c)) && CallerOf(s, c)
    ensures CallerOf(Next(s, Insert(c)), c)
  {
    assert At(s, s.pcs[c].k, InHand(c));
  }

  lemma OtherCallerKept(s: State, step: Step, d: Conn)
    requires Located(s) && Enabled(s, step) && d in s.pcs && d != step.c && CallerOf(s, d)
    requires step.c in s.pcs ==> CallerOf(s, step.c)
    ensures CallerOf(Next(s, step), d)
  {
    assert Next(s, step).pcs[d] == s.pcs[d];
    if Awaiting(s.pcs[d]) {
      PlaceKept(s, step, s.pcs[d].k);
    }
  }

  /** Only the caller's own goroutine puts a request into a table. */
  lemma PlaceKept(s: State, step: Step, k: Ticket)
    requires Located(s) && Enabled(s, step) && Known(s, k) && step.c != k.caller
    requires step.c in s.pcs ==> CallerOf(s, step.c)
    ensures Known(Next(s, step), k)
    ensures k.token in NextPlace(s, step)
    ensures NextPlace(s, step)[k.token] == s.place[k.token] || !NextPlace(s, step)[k.token].InTable?
  {
    if step.Insert? {
      assert At(s, s.pcs[step.c].k, InHand(step.c));
    }
  }

  lemma CallersKept(s: State, step: Step)
    requires Located(s) && Callers(s) && Enabled(s, step)
    ensures Callers(Next(s, step))
  {
    forall d | d in Next(s, step).pcs ensures CallerOf(Next(s, step), d) {
      assert step.c in s.pcs ==> CallerOf(s, step.c);
      if d == step.c {
        OwnCallerKept(s, step);
      } else {
        assert CallerOf(s, d);
        OtherCallerKept(s, step, d);
      }
    }
  }

  lemma {:induction false} OrderlyInv(own: set<Name>, steps: seq<Step>)
    requires Exec(own, steps).Some? && OrderlyFrom(own, steps, 0)
    ensures Located(Exec(own, steps).value) && Callers(Exec(own, steps).value)
  {
    if steps != [] {
      var before, step := steps[..|steps| - 1], steps[|steps| - 1];
      OrderlyInv(own, before);
      LocatedKept(Exec(own, before).value, step);
      CallersKept(Exec(own, before).value, step);
    }
  }

  /** With forged, duplicate and misdirected replies, no request is replied to twice and none disappears, as long as
      no number wraps onto an active one and every failed send still finds its own entry. */
  lemma AtMostOnceIfOrderly(own: set<Name>, steps: seq<Step>, t: Token)
    requires Exec(own, steps).Some? && OrderlyFrom(own, steps, 0) && t in Exec(own, steps).value.tickets
    ensures Tries(Exec(own, steps).value.replies, t) <= 1 && OneOfFour(Exec(own, steps).value, t)
  {
    OrderlyInv(own, steps);
    LocatedIsOneOfFour(Exec(own, steps).value, t);
  }

  // ---------------------------------------------------------------- a failed send that finds its entry gone

  lemma {:induction false} OrderlyFromEnd(own: set<Name>, steps: seq<Step>)
    ensures OrderlyFrom(own, steps, |steps|)
  {
  }

  /** Another goroutine has the request in hand, ready to reply, or it has been replied to already. */
  lemma TakenByAnother(s: State, c: Conn)
    requires Located(s) && Callers(s) && Enabled(s, Remove(c)) && !Orderly(s, Remove(c))
    ensures var t := s.pcs[c].k.token;
            && t in s.place && Holds(s, s.place[t], t)
            && (s.place[t].Replied? ||
                (s.place[t].InHand? && s.place[t].c != c && s.place[t].c in s.pcs && s.pcs[s.place[t].c].Replying?))
  {
    var k := s.pcs[c].k;
    assert CallerOf(s, c);
    assert Holds(s, s.place[k.token], k.token);
    match s.place[k.token]
    case InHand(d) =>
      assert At(s, Held(s.pcs[d]).value, InHand(d));
      assert CallerOf(s, d);
    case InTable(slot) =>
      assert false;
    case Replied(_) =>
  }

  lemma ReplyTried(s: State, c: Conn, t: Token)
    requires Enabled(s, Reply(c, false, true)) && s.pcs[c].k.token == t
    ensures Tries(Next(s, Reply(c, false, true)).replies, t) == Tries(s.replies, t) + 1
  {
    TriesAppend(s.replies, Attempt(s.pcs[c].k, s.pcs[c].payload, true), t);
  }

  /** The other goroutine, if there is one, replies first. */
  lemma FirstReply(own: set<Name>, steps: seq<Step>, c: Conn, s: State) returns (more: seq<Step>, s': State)
    requires Exec(own, steps) == Some(s) && Located(s) && Callers(s) && Enabled(s, Remove(c)) && !Orderly(s, Remove(c))
    ensures var run, t := steps + [Remove(c)] + more, s.pcs[c].k.token;
            && Exec(own, run) == Some(s') && OrderlyFrom(own, run, |steps| + 1)
            && Enabled(s', Reply(c, false, true)) && s'.pcs[c].k.token == t && Tries(s'.replies, t) >= 1
  {
    var t := s.pcs[c].k.token;
    assert CallerOf(s, c);
    TakenByAnother(s, c);
    TriesByPlace(s, t);
    Extend(own, steps, s, Remove(c));
    OrderlyFromEnd(own, steps + [Remove(c)]);
    s' := Next(s, Remove(c));
    if s.place[t].InHand? {
      var d := s.place[t].c;
      Extend(own, steps + [Remove(c)], s', Reply(d, false, true));
      ReplyTried(s', d, t);
      more, s' := [Reply(d, false, true)], Next(s', Reply(d, false, true));
    } else {
      more := [];
      assert steps + [Remove(c)] + more == steps + [Remove(c)];
    }
  }

  lemma SecondReply(own: set<Name>, steps: seq<Step>, c: Conn) returns (more: seq<Step>)
    requires Exec(own, steps).Some? && OrderlyFrom(own, steps, 0)
    requires Enabled(Exec(own, steps).value, Remove(c)) && !Orderly(Exec(own, steps).value, Remove(c))
    ensures Doubles(own, steps, c, more)
  {
    OrderlyInv(own, steps);
    var first, s' := FirstReply(own, steps, c, Exec(own, steps).value);
    Extend(own, steps + [Remove(c)] + first, s', Reply(c, false, true));
    ReplyTried(s', c, s'.pcs[c].k.token);
    more := first + [Reply(c, false, true)];
    Assoc(steps + [Remove(c)], first, [Reply(c, false, true)]);
  }

  /** After the failed send of c, these further orderly steps reply twice to its request. */
  ghost predicate Doubles(own: set<Name>, steps: seq<Step>, c: Conn, more: seq<Step>)
    requires Exec(own, steps).Some? && Enabled(Exec(own, steps).value, Remove(c))
  {
    var run := steps + [Remove(c)] + more;
    && Exec(own, run).Some? && OrderlyFrom(own, run, |steps| + 1)
    && Tries(Exec(own, run).value.replies, Exec(own, steps).value.pcs[c].k.token) >= 2
  }

  lemma {:induction false} OrderlyJoin(own: set<Name>, steps: seq<Step>, n: nat)
    requires n <= |steps| && OrderlyFrom(own, steps, n) && OrderlyFrom(own, steps[..n], 0)
    ensures OrderlyFrom(own, steps, 0)
    decreases |steps|
  {
    if |steps| == n {
      assert steps[..n] == steps;
    } else {
      assert steps[..|steps| - 1][..n] == steps[..n];
      OrderlyJoin(own, steps[..|steps| - 1], n);
    }
  }

  lemma KnownAtMostOnce(own: set<Name>, steps: seq<Step>, more: seq<Step>, t: Token)
    requires Exec(own, steps + more).Some? && OrderlyFrom(own, steps + more, 0)
    requires Exec(own, steps).Some? && t in Exec(own, steps).value.tickets
    ensures Tries(Exec(own, steps + more).value.replies, t) <= 1
  {
    RepliesOnlyGrow(own, steps, more);
    AtMostOnceIfOrderly(own, steps + more, t);
  }

  lemma NoDouble(own: set<Name>, steps: seq<Step>, c: Conn, more: seq<Step>)
    requires Exec(own, steps).Some? && OrderlyFrom(own, steps, 0)
    requires Enabled(Exec(own, steps).value, Remove(c)) && Orderly(Exec(own, steps).value, Remove(c))
    ensures !Doubles(own, steps, c, more)
  {
    var run := steps + [Remove(c)] + more;
    if Exec(own, run).Some? && OrderlyFrom(own, run, |steps| + 1) {
      WholeOrderly(own, steps, c, more);
      OwnTicketKnown(own, steps, c);
      Assoc(steps, [Remove(c)], more);
      KnownAtMostOnce(own, steps, [Remove(c)] + more, Exec(own, steps).value.pcs[c].k.token);
    }
  }

  lemma WholeOrderly(own: set<Name>, steps: seq<Step>, c: Conn, more: seq<Step>)
    requires Exec(own, steps).Some? && OrderlyFrom(own, steps, 0)
    requires Enabled(Exec(own, steps).value, Remove(c)) && Orderly(Exec(own, steps).value, Remove(c))
    requires OrderlyFrom(own, steps + [Remove(c)] + more, |steps| + 1)
    ensures OrderlyFrom(own, steps + [Remove(c)] + more, 0)
  {
    var run := steps + [Remove(c)] + more;
    Extend(own, steps, Exec(own, steps).value, Remove(c));
    assert run[..|steps| + 1] == steps + [Remove(c)];
    OrderlyJoin(own, run, |steps| + 1);
  }

  lemma OwnTicketKnown(own: set<Name>, steps: seq<Step>, c: Conn)
    requires Exec(own, steps).Some? && OrderlyFrom(own, steps, 0) && Enabled(Exec(own, steps).value, Remove(c))
    ensures Exec(own, steps).value.pcs[c].k.token in Exec(own, steps).value.tickets
  {
    OrderlyInv(own, steps);
    assert CallerOf(Exec(own, steps).value, c);
  }

  /** Whatever the peers do: a failed send leads to a second reply exactly when it finds its own entry gone. */
  lemma SecondReplyExactly(own: set<Name>, steps: seq<Step>, c: Conn)
    requires Exec(own, steps).Some? && OrderlyFrom(own, steps, 0) && Enabled(Exec(own, steps).value, Remove(c))
    ensures (exists more :: Doubles(own, steps, c, more)) <==> !Orderly(Exec(own, steps).value, Remove(c))
  {
    if Orderly(Exec(own, steps).value, Remove(c)) {
      forall more ensures !Doubles(own, steps, c, more) {
        NoDouble(own, steps, c, more);
      }
    } else {
      var more := SecondReply(own, steps, c);
    }
  }
}
