/** Where the hub sends requests, and what it tells clients about routes, by what happened in the run. */
module HubRouting {
  import opened Basics
  import opened Routes
  import opened Hub
  import opened HubInvariant
  import opened HubTheorems

  /** What a step does to the routes. */
  function EventsOf(step: Step): seq<Event> {
    match step
    case RouteChange(_, e) => [e]
    case Clean(c) => [Disconnect(c)]
    case _ => []
  }

  /** The registrations, releases and disconnects of a run, in order. */
  function RouteHistory(steps: seq<Step>): seq<Event> {
    if steps == [] then [] else RouteHistory(steps[..|steps| - 1]) + EventsOf(steps[|steps| - 1])
  }

  lemma TableAppend(hist: seq<Event>, e: Event)
    ensures TableAfter(hist + [e]) == Apply(TableAfter(hist), e)
  {
    assert (hist + [e])[..|hist|] == hist;
  }

  /** In every run the hub's table is what the history of the run makes it. */
  lemma {:induction false} RoutesAreHistory(own: set<Name>, steps: seq<Step>)
    requires Exec(own, steps).Some?
    ensures Exec(own, steps).value.routes == TableAfter(RouteHistory(steps))
    ensures Exec(own, steps).value.internal == own
  {
    if steps != [] {
      var before, step := steps[..|steps| - 1], steps[|steps| - 1];
      RoutesAreHistory(own, before);
      if step.RouteChange? || step.Clean? {
        TableAppend(RouteHistory(before), EventsOf(step)[0]);
      } else {
        assert RouteHistory(before) + [] == RouteHistory(before);
      }
    }
  }

  /** Client b holds m by what has happened. */
  ghost predicate Holder(steps: seq<Step>, b: Conn, m: Name) {
    Owns(RouteHistory(steps), |RouteHistory(steps)|, b, m)
  }

  /** The names that are never looked up. */
  predicate Kept(own: set<Name>, m: Name) {
    || m in own || m == Ascii("$/register") || m == Ascii("$/unregister") || m == Ascii("$/reset")
    || m == Ascii("$/setMaxMsgSize")
  }

  /** The method asks for this change, for the client that calls it. */
  predicate Asks(m: Name, c: Conn, e: Event) {
    || (e.Register? && m == Ascii("$/register") && e.c == c)
    || (e.Unregister? && m == Ascii("$/unregister") && e.c == c)
    || (e.Reset? && m == Ascii("$/reset") && e.c == c)
  }

  /** In every run: a request changes the routes only as its method asks; it is looked up exactly if its
      method is not one that the router keeps; it is then forwarded to the client that holds the method, and refused
      with code 2 exactly when nobody does. */
  lemma LookupExactly(own: set<Name>, steps: seq<Step>, c: Conn)
    requires Exec(own, steps).Some? && c in Exec(own, steps).value.pcs && Exec(own, steps).value.pcs[c].Handling?
    ensures var s := Exec(own, steps).value;
            var k := s.pcs[c].k;
            && (Enabled(s, Lookup(c)) <==> !Kept(own, k.m))
            && (forall code :: Enabled(s, Local(c, code)) <==> Kept(own, k.m))
            && (forall e :: Enabled(s, RouteChange(c, e)) <==> Asks(k.m, c, e))
            && (Enabled(s, Lookup(c)) ==>
                  var s' := Next(s, Lookup(c));
                  && (forall b :: s'.pcs[c] == Forwarding(k, b) <==> Holder(steps, b, k.m))
                  && (forall b :: Holder(steps, b, k.m) ==> RoutedTo(s', k.token, b))
                  && (s'.pcs[c] == Replying(k, FromRouter(2)) <==> forall b :: !Holder(steps, b, k.m)))
  {
    RoutesAreHistory(own, steps);
    HolderIsRouted(RouteHistory(steps), Exec(own, steps).value.pcs[c].k.m);
  }

  /** In every run: what a client is told about its registration or release, by who holds the method. */
  lemma ChangesAnswered(own: set<Name>, steps: seq<Step>, c: Conn, e: Event)
    requires Exec(own, steps).Some? && Enabled(Exec(own, steps).value, RouteChange(c, e))
    ensures var s, h := Exec(own, steps).value, RouteHistory(steps);
            var told := Next(s, RouteChange(c, e)).pcs[c];
            && told.Replying? && told.k == s.pcs[c].k && told.payload.FromRouter?
            && match e
               case Register(_, m) => told.payload.code == if Free(h, |h|, c, m) then 0 else 5
               case Unregister(_, m) => told.payload.code == if Owns(h, |h|, c, m) then 0 else 4
               case Reset(_) => told.payload.code == 0
               case Disconnect(_) => false
  {
    RoutesAreHistory(own, steps);
    if e.Register? || e.Unregister? {
      ToldExactly(RouteHistory(steps), c, e.m);
    }
  }

  /** A request that could not be sent is answered with code 3, or with 6 if it was over the callee's limit; a reply
      over the caller's limit with code 6; and what the router answers itself with the code it chose. */
  lemma FailuresAnswered(s: State, c: Conn)
    requires c in s.pcs
    ensures forall code :: Enabled(s, SendFail(c, code)) <==> s.pcs[c].Registered? && (code == 3 || code == 6)
    ensures forall code :: Enabled(s, SendFail(c, code)) ==>
              Next(s, SendFail(c, code)).pcs[c] == SendFailed(s.pcs[c].k, s.pcs[c].slot, code)
    ensures forall code :: Enabled(s, Local(c, code)) ==>
              Next(s, Local(c, code)).pcs[c] == Replying(s.pcs[c].k, FromRouter(code))
    ensures s.pcs[c].SendFailed? ==> Next(s, Remove(c)).pcs[c] == Replying(s.pcs[c].k, FromRouter(s.pcs[c].code))
    ensures s.pcs[c].Replying? ==>
              Next(s, Reply(c, true, false)).replies == s.replies + [Attempt(s.pcs[c].k, FromRouter(6), false)]
    ensures Enabled(s, Reply(c, true, true)) ==>
              Next(s, Reply(c, true, true)).replies == s.replies + [Attempt(s.pcs[c].k, FromRouter(6), true)]
  {
  }

  /** Where a request went is who held its method when it was looked up. */
  lemma {:induction false} RoutedToHolder(own: set<Name>, steps: seq<Step>, t: Token) returns (n: nat)
    requires Exec(own, steps).Some? && FairRun(own, steps) && t in Exec(own, steps).value.target
    ensures var s := Exec(own, steps).value;
            && t in s.tickets && n < |steps| && steps[n] == Lookup(s.tickets[t].caller)
            && Holder(steps[..n], s.target[t], s.tickets[t].m)
  {
    var before, step := steps[..|steps| - 1], steps[|steps| - 1];
    var s := Exec(own, before).value;
    RunInv(own, before);
    if step.Lookup? && s.pcs[step.c].k.token == t && s.pcs[step.c].k.m in s.routes {
      n := |steps| - 1;
      LookedUp(own, before, step.c);
    } else {
      TargetKept(s, step, t);
      n := RoutedToHolder(own, before, t);
      assert steps[..n] == before[..n];
    }
  }

  lemma TargetKept(s: State, step: Step, t: Token)
    requires Targets(s) && Enabled(s, step) && t in Next(s, step).target
    requires !(step.Lookup? && s.pcs[step.c].k.token == t && s.pcs[step.c].k.m in s.routes)
    ensures t in s.target && Next(s, step).target[t] == s.target[t]
    ensures t in s.tickets && t in Next(s, step).tickets && Next(s, step).tickets[t] == s.tickets[t]
  {
  }

  lemma LookedUp(own: set<Name>, steps: seq<Step>, c: Conn)
    requires Exec(own, steps).Some? && Inv(Exec(own, steps).value) && Enabled(Exec(own, steps).value, Lookup(c))
    requires Exec(own, steps).value.pcs[c].k.m in Exec(own, steps).value.routes
    ensures var s := Exec(own, steps).value;
            var s', k := Next(s, Lookup(c)), s.pcs[c].k;
            && k.token in s'.tickets && s'.tickets[k.token] == k && k.caller == c
            && k.token in s'.target && Holder(steps, s'.target[k.token], k.m)
  {
    var s := Exec(own, steps).value;
    assert At(s, s.pcs[c].k, InHand(c)) && EntryOf(s, c);
    RoutesAreHistory(own, steps);
    HolderIsRouted(RouteHistory(steps), s.pcs[c].k.m);
  }
}
