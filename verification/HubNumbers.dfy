/** The numbers that the hub gives to forwarded requests. */
module HubNumbers {
  import opened Basics
  import opened Routes
  import opened Hub
  import opened HubInvariant
  import opened HubTheorems

  /** The step gives out a number of client b. */
  predicate Numbers(s: State, step: Step, b: Conn) {
    step.Number? && Enabled(s, step) && s.pcs[step.c].callee == b
  }

  /** How many numbers of client b have been given out. */
  function Numberings(own: set<Name>, steps: seq<Step>, b: Conn): nat {
    if steps == [] then 0 else
    Numberings(own, steps[..|steps| - 1], b) +
    match Exec(own, steps[..|steps| - 1])
    case None => 0
    case Some(s) => if Numbers(s, steps[|steps| - 1], b) then 1 else 0
  }

  predicate HasSlot(pc: Pc) {
    pc.Numbered? || pc.Registered? || pc.SendFailed?
  }

  function Last(s: State, b: Conn): nat {
    if b in s.last then s.last[b] else 0
  }

  /** Requests are forwarded to connections that were accepted. */
  ghost predicate CalleesKnown(s: State) {
    forall c :: c in s.pcs && s.pcs[c].Forwarding? ==> s.pcs[c].callee in s.pcs
  }

  lemma {:induction false} CalleesKnownRun(own: set<Name>, steps: seq<Step>)
    requires Exec(own, steps).Some?
    ensures CalleesKnown(Exec(own, steps).value)
  {
    if steps != [] {
      CalleesKnownRun(own, steps[..|steps| - 1]);
      RoutesAreLive(own, steps[..|steps| - 1]);
    }
  }

  // ---------------------------------------------------------------- the counter

  /** In every run the counter of a client counts its numbers, modulo 2^32. */
  lemma {:induction false} CounterCounts(own: set<Name>, steps: seq<Step>, b: Conn)
    requires Exec(own, steps).Some?
    ensures Last(Exec(own, steps).value, b) == Numberings(own, steps, b) % 0x1_0000_0000
    ensures Numberings(own, steps, b) > 0 ==> b in Exec(own, steps).value.pcs
  {
    if steps != [] {
      CounterCounts(own, steps[..|steps| - 1], b);
      CalleesKnownRun(own, steps[..|steps| - 1]);
      CounterStep(Exec(own, steps[..|steps| - 1]).value, steps[|steps| - 1], b,
                  Numberings(own, steps[..|steps| - 1], b));
    }
  }

  lemma CounterStep(s: State, step: Step, b: Conn, n: nat)
    requires Enabled(s, step) && CalleesKnown(s) && Last(s, b) == n % 0x1_0000_0000 && (n > 0 ==> b in s.pcs)
    ensures var n' := n + if Numbers(s, step, b) then 1 else 0;
            && Last(Next(s, step), b) == n' % 0x1_0000_0000
            && (n' > 0 ==> b in Next(s, step).pcs)
  {
  }

  // ---------------------------------------------------------------- no number is used twice before the counter wraps

  /** Of the numbers up to n that client b has given out, those not yet in its table are not in it, and no two
      goroutines have the same. */
  ghost predicate Fresh(s: State, b: Conn, n: nat) {
    && (forall slot :: slot in s.active && slot.callee == b ==> slot.id <= n)
    && (forall c :: c in s.pcs && HasSlot(s.pcs[c]) && s.pcs[c].slot.callee == b ==> s.pcs[c].slot.id <= n)
    && (forall c :: c in s.pcs && s.pcs[c].Numbered? && s.pcs[c].slot.callee == b ==> s.pcs[c].slot !in s.active)
    && (forall c, d :: c in s.pcs && d in s.pcs && s.pcs[c].Numbered? && s.pcs[d].Numbered? && c != d ==>
          s.pcs[c].slot.callee == b ==> s.pcs[c].slot != s.pcs[d].slot)
  }

  lemma FreshNumber(s: State, c: Conn, b: Conn, n: nat)
    requires Fresh(s, b, n) && Enabled(s, Number(c)) && s.pcs[c].callee == b && NextId(s, b) == n + 1
    ensures Fresh(Next(s, Number(c)), b, n + 1)
  {
  }

  lemma FreshInsert(s: State, c: Conn, b: Conn, n: nat)
    requires Fresh(s, b, n) && Enabled(s, Insert(c))
    ensures Fresh(Next(s, Insert(c)), b, n)
  {
  }

  lemma FreshOther(s: State, step: Step, b: Conn, n: nat)
    requires Fresh(s, b, n) && Enabled(s, step) && !Numbers(s, step, b) && !step.Insert?
    ensures Fresh(Next(s, step), b, n)
  {
  }

  lemma FreshStep(s: State, step: Step, b: Conn, n: nat)
    requires Fresh(s, b, n) && Enabled(s, step) && Last(s, b) == n % 0x1_0000_0000
    requires n < 0x1_0000_0000 && (Numbers(s, step, b) ==> n + 1 < 0x1_0000_0000)
    ensures Fresh(Next(s, step), b, n + if Numbers(s, step, b) then 1 else 0)
  {
    if Numbers(s, step, b) {
      FreshNumber(s, step.c, b, n);
    } else if step.Insert? {
      FreshInsert(s, step.c, b, n);
    } else {
      FreshOther(s, step, b, n);
    }
  }

  lemma {:induction false} FreshRun(own: set<Name>, steps: seq<Step>, b: Conn)
    requires Exec(own, steps).Some? && Numberings(own, steps, b) < 0x1_0000_0000
    ensures Fresh(Exec(own, steps).value, b, Numberings(own, steps, b))
  {
    if steps != [] {
      var before := steps[..|steps| - 1];
      FreshRun(own, before, b);
      CounterCounts(own, before, b);
      FreshStep(Exec(own, before).value, steps[|steps| - 1], b, Numberings(own, before, b));
    }
  }

  /** The assumption that no number wraps onto an active one holds by itself in every run that has given out fewer
      than 2^32 numbers of the client, whatever the peers do. */
  lemma NoWrapBeforeTheEnd(own: set<Name>, steps: seq<Step>, c: Conn)
    requires Exec(own, steps).Some? && Enabled(Exec(own, steps).value, Insert(c))
    requires Numberings(own, steps, Exec(own, steps).value.pcs[c].slot.callee) < 0x1_0000_0000
    ensures Fair(Exec(own, steps).value, Insert(c)) && Orderly(Exec(own, steps).value, Insert(c))
  {
    FreshRun(own, steps, Exec(own, steps).value.pcs[c].slot.callee);
  }
}
