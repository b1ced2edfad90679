/** The hub over whole runs: what happens to every request. */
module HubTheorems {
  import opened Basics
  import opened Routes
  import opened Hub
  import opened HubInvariant

  lemma {:induction false} RunInv(own: set<Name>, steps: seq<Step>)
    requires Exec(own, steps).Some? && FairRun(own, steps)
    ensures Inv(Exec(own, steps).value)
  {
    if steps != [] {
      var before, step := steps[..|steps| - 1], steps[|steps| - 1];
      RunInv(own, before);
      var s := Exec(own, before).value;
      FairIsOrderly(s, step);
      LocatedKept(s, step);
      EntriesKept(s, step);
      DeliveriesKept(s, step);
      PayloadsKept(s, step);
      TargetsKept(s, step);
      OwnersKept(s, step);
    }
  }

  /** Conservation.  In every state of every fair run, every request that ever arrived is in exactly one place:
      with one goroutine, or as one entry of one callee's table, or replied to once.  An entry sits with the client
      that the method was routed to.  A reply is addressed to the caller's own connection under the caller's own id,
      and is the router's or, if a callee gave it, that client's answer to this very request. */
  lemma Conservation(own: set<Name>, steps: seq<Step>, t: Token)
    requires Exec(own, steps).Some? && FairRun(own, steps) && t in Exec(own, steps).value.tickets
    ensures var s := Exec(own, steps).value;
            && t in s.place && Holds(s, s.place[t], t)
            && (forall p :: Holds(s, p, t) ==> p == s.place[t])
            && (s.place[t].InTable? ==> s.active[s.place[t].slot] == s.tickets[t])
            && (s.place[t].InTable? ==> RoutedTo(s, t, s.place[t].slot.callee))
            && (s.place[t].Replied? ==> s.replies[s.place[t].i].k == s.tickets[t])
            && (s.place[t].Replied? ==> RightPayload(s, s.tickets[t], s.replies[s.place[t].i].payload))
  {
    RunInv(own, steps);
    var s := Exec(own, steps).value;
    assert Holds(s, s.place[t], t);
    forall p | Holds(s, p, t) ensures p == s.place[t] {
      OnlyPlace(s, p, t);
    }
  }

  lemma OnlyPlace(s: State, p: Place, t: Token)
    requires Located(s) && Holds(s, p, t)
    ensures t in s.place && p == s.place[t]
  {
    match p
    case InHand(c) => assert At(s, Held(s.pcs[c]).value, InHand(c));
    case InTable(slot) => assert At(s, s.active[slot], InTable(slot));
    case Replied(i) => assert At(s, s.replies[i].k, Replied(i));
  }

  // ---------------------------------------------------------------- answered, lost or pending

  /** How often a reply to a request was tried. */
  function Tries(replies: seq<Attempt>, t: Token): nat {
    if replies == [] then 0
    else Tries(replies[..|replies| - 1], t) + if replies[|replies| - 1].k.token == t then 1 else 0
  }

  /** How many replies to a request were written to its caller. */
  function Answers(replies: seq<Attempt>, t: Token): nat {
    if replies == [] then 0
    else
      var last := replies[|replies| - 1];
      Answers(replies[..|replies| - 1], t) + if last.k.token == t && last.sent then 1 else 0
  }

  lemma {:induction false} NoTries(replies: seq<Attempt>, t: Token)
    requires forall i :: 0 <= i < |replies| ==> replies[i].k.token != t
    ensures Tries(replies, t) == 0 && Answers(replies, t) == 0
  {
    if replies != [] {
      NoTries(replies[..|replies| - 1], t);
    }
  }

  lemma {:induction false} OneTry(replies: seq<Attempt>, t: Token, i: nat)
    requires i < |replies| && forall j :: 0 <= j < |replies| ==> (replies[j].k.token == t <==> j == i)
    ensures Tries(replies, t) == 1 && Answers(replies, t) == if replies[i].sent then 1 else 0
  {
    if i == |replies| - 1 {
      NoTries(replies[..|replies| - 1], t);
    } else {
      OneTry(replies[..|replies| - 1], t, i);
    }
  }

  lemma TriesAppend(replies: seq<Attempt>, a: Attempt, t: Token)
    ensures Tries(replies + [a], t) == Tries(replies, t) + if a.k.token == t then 1 else 0
    ensures Answers(replies + [a], t) == Answers(replies, t) + if a.k.token == t && a.sent then 1 else 0
  {
    assert (replies + [a])[..|replies|] == replies;
  }

  /** The place on record tells how often a reply was tried, and whether it reached the caller. */
  lemma TriesByPlace(s: State, t: Token)
    requires Located(s) && t in s.tickets
    ensures !s.place[t].Replied? ==> Tries(s.replies, t) == 0 && Answers(s.replies, t) == 0
    ensures s.place[t].Replied? ==> Tries(s.replies, t) == 1
    ensures s.place[t].Replied? ==> Answers(s.replies, t) == if s.replies[s.place[t].i].sent then 1 else 0
  {
    var p := s.place[t];
    assert Holds(s, p, t);
    forall j: nat | j < |s.replies| && s.replies[j].k.token == t ensures p == Replied(j) {
      OnlyPlace(s, Replied(j), t);
    }
    if p.Replied? {
      OneTry(s.replies, t, p.i);
    } else {
      NoTries(s.replies, t);
    }
  }

  ghost predicate Answered(s: State, t: Token) {
    Answers(s.replies, t) == 1
  }

  /** The one reply to this request was tried and did not reach the caller. */
  ghost predicate Lost(s: State, t: Token) {
    Tries(s.replies, t) == 1 && Answers(s.replies, t) == 0
  }

  ghost predicate Pending(s: State, t: Token) {
    exists slot :: Holds(s, InTable(slot), t)
  }

  ghost predicate InSomeHand(s: State, t: Token) {
    exists c :: Holds(s, InHand(c), t)
  }

  /** A request is in exactly one of four conditions. */
  ghost predicate OneOfFour(s: State, t: Token) {
    && (Answered(s, t) || Lost(s, t) || Pending(s, t) || InSomeHand(s, t))
    && !(Answered(s, t) && (Lost(s, t) || Pending(s, t) || InSomeHand(s, t)))
    && !(Lost(s, t) && (Pending(s, t) || InSomeHand(s, t)))
    && !(Pending(s, t) && InSomeHand(s, t))
  }

  lemma LocatedIsOneOfFour(s: State, t: Token)
    requires Located(s) && t in s.tickets
    ensures OneOfFour(s, t) && Tries(s.replies, t) <= 1 && Answers(s.replies, t) <= 1
    ensures Pending(s, t) <==> s.place[t].InTable?
    ensures InSomeHand(s, t) <==> s.place[t].InHand?
  {
    assert Holds(s, s.place[t], t);
    TriesByPlace(s, t);
    if slot :| Holds(s, InTable(slot), t) {
      OnlyPlace(s, InTable(slot), t);
    }
    if c :| Holds(s, InHand(c), t) {
      OnlyPlace(s, InHand(c), t);
    }
  }

  /** In every state of every fair run, every request is answered exactly once, or its one reply was lost in a failed
      write, or it is pending in exactly one table, or one goroutine is at work on it: always exactly one of these.
      Without failed writes nothing is lost, by LostExactly. */
  lemma AnsweredOnceOrPending(own: set<Name>, steps: seq<Step>, t: Token)
    requires Exec(own, steps).Some? && FairRun(own, steps) && t in Exec(own, steps).value.tickets
    ensures OneOfFour(Exec(own, steps).value, t) && Answers(Exec(own, steps).value.replies, t) <= 1
    ensures var s := Exec(own, steps).value;
            forall a, b :: Holds(s, InTable(a), t) && Holds(s, InTable(b), t) ==> a == b
  {
    RunInv(own, steps);
    var s := Exec(own, steps).value;
    LocatedIsOneOfFour(s, t);
    forall a, b | Holds(s, InTable(a), t) && Holds(s, InTable(b), t) ensures a == b {
      OnlyPlace(s, InTable(a), t);
      OnlyPlace(s, InTable(b), t);
    }
  }

  /** Some step of the run tried to reply to t and failed. */
  predicate WriteFailed(own: set<Name>, steps: seq<Step>, t: Token) {
    steps != [] &&
    (WriteFailed(own, steps[..|steps| - 1], t) ||
     match Exec(own, steps[..|steps| - 1])
     case None => false
     case Some(s) => FailsReply(s, steps[|steps| - 1], t))
  }

  predicate FailsReply(s: State, step: Step, t: Token) {
    step.Reply? && !step.sent && Enabled(s, step) && s.pcs[step.c].k.token == t
  }

  lemma {:induction false} WriteFailedIsLogged(own: set<Name>, steps: seq<Step>, t: Token)
    requires Exec(own, steps).Some?
    ensures WriteFailed(own, steps, t) <==> exists a :: a in Exec(own, steps).value.replies && a.k.token == t && !a.sent
  {
    if steps != [] {
      var before := steps[..|steps| - 1];
      WriteFailedIsLogged(own, before, t);
    }
  }

  /** A request is lost exactly when the write of its reply failed. */
  lemma LostExactly(own: set<Name>, steps: seq<Step>, t: Token)
    requires Exec(own, steps).Some? && FairRun(own, steps) && t in Exec(own, steps).value.tickets
    ensures Lost(Exec(own, steps).value, t) <==> WriteFailed(own, steps, t)
  {
    RunInv(own, steps);
    var s := Exec(own, steps).value;
    WriteFailedIsLogged(own, steps, t);
    TriesByPlace(s, t);
    assert Holds(s, s.place[t], t);
    if a :| a in s.replies && a.k.token == t && !a.sent {
      var i :| 0 <= i < |s.replies| && s.replies[i] == a;
      OnlyPlace(s, Replied(i), t);
    }
  }

  /** What has been replied stays: the log of replies only grows. */
  lemma {:induction false} RepliesOnlyGrow(own: set<Name>, steps: seq<Step>, more: seq<Step>)
    requires Exec(own, steps + more).Some?
    ensures Exec(own, steps).Some? && Exec(own, steps).value.replies <= Exec(own, steps + more).value.replies
    ensures Exec(own, steps).value.tickets.Keys <= Exec(own, steps + more).value.tickets.Keys
    decreases |more|
  {
    if more == [] {
      assert steps + more == steps;
    } else {
      assert (steps + more)[..|steps + more| - 1] == steps + more[..|more| - 1];
      RepliesOnlyGrow(own, steps, more[..|more| - 1]);
    }
  }

  /** In every state of every run, fair or not, no route points to a cleaned-up connection. */
  lemma {:induction false} RoutesAreLive(own: set<Name>, steps: seq<Step>)
    requires Exec(own, steps).Some?
    ensures LiveRoutes(Exec(own, steps).value)
  {
    if steps != [] {
      var before := steps[..|steps| - 1];
      RoutesAreLive(own, before);
      LiveRoutesKept(Exec(own, before).value, steps[|steps| - 1]);
    }
  }
}
