/** The table of requests a connection has sent and not seen answered, under arbitrary interleavings of callers
    and with a peer that may say anything. */
module OutRequests {
  import opened Basics

  /** A call's own response handler: the closure that stores the result and closes the call's done channel. */
  type Handler = nat

  /** `numbered` are the calls between taking an id and entering the table, `ids` the id each call took, and
      `runs` how often each handler has run.  A handler's done channel is closed once per run. */
  datatype Calls = Calls(active: map<nat, Handler>, last: nat, numbered: map<Handler, nat>, ids: map<Handler, nat>,
                         runs: multiset<Handler>, cancelled: set<Handler>)

  const INIT := Calls(map[], 0, map[], map[], multiset{}, {})

  datatype Step =
    | Number(h: Handler)
    | Insert(h: Handler)
    | SendFailed(h: Handler)
    | Response(id: nat)
    | Cancel(h: Handler)

  /** The only rule: a call makes a new handler, and inserts what it numbered.  Ids may wrap onto active ones. */
  predicate Enabled(s: Calls, step: Step) {
    match step
    case Number(h) => h !in s.ids
    case Insert(h) => h in s.numbered
    case SendFailed(h) => h in s.ids && h !in s.numbered
    case _ => true
  }

  function Next(s: Calls, step: Step): Calls
    requires Enabled(s, step)
  {
    match step
    case Number(h) =>
      var id := (s.last + 1) % TWO_32;
      s.(last := id, numbered := s.numbered[h := id], ids := s.ids[h := id])
    case Insert(h) => s.(active := s.active[s.numbered[h] := h], numbered := s.numbered - {h})
    case SendFailed(h) => s.(active := s.active - {s.ids[h]})
    case Response(id) =>
      if id !in s.active then s
      else s.(active := s.active - {id}, runs := s.runs + multiset{s.active[id]})
    case Cancel(h) => s.(cancelled := s.cancelled + {h})
  }

  function Exec(steps: seq<Step>): Option<Calls> {
    if steps == [] then Some(INIT) else
    match Exec(steps[..|steps| - 1])
    case None => None
    case Some(s) => if Enabled(s, steps[|steps| - 1]) then Some(Next(s, steps[|steps| - 1])) else None
  }

  ghost predicate Inv(s: Calls) {
    && s.numbered.Keys <= s.ids.Keys
    && (forall h :: h in s.numbered ==> s.runs[h] == 0)
    && (forall h :: h !in s.ids ==> s.runs[h] == 0)
    && (forall id :: id in s.active ==>
          s.active[id] in s.ids && s.active[id] !in s.numbered && s.runs[s.active[id]] == 0)
    && (forall a, b :: a in s.active && b in s.active && s.active[a] == s.active[b] ==> a == b)
    && (forall h :: s.runs[h] <= 1)
  }

  lemma StepKeepsInv(s: Calls, step: Step)
    requires Inv(s) && Enabled(s, step)
    ensures Inv(Next(s, step))
  {
  }

  /** With duplicate, forged and late replies, with cancelled calls and with ids that wrap onto active ones:
      in every run every handler runs at most once, so no done channel is closed twice. */
  lemma {:induction false} HandlerRunsAtMostOnce(steps: seq<Step>)
    requires Exec(steps).Some?
    ensures Inv(Exec(steps).value)
    ensures forall h :: Exec(steps).value.runs[h] <= 1
  {
    if steps != [] {
      HandlerRunsAtMostOnce(steps[..|steps| - 1]);
      StepKeepsInv(Exec(steps[..|steps| - 1]).value, steps[|steps| - 1]);
    }
  }

  // ---------------------------------------------------------------- ids and the calls that have them

  /** How many calls have taken an id. */
  function Numberings(steps: seq<Step>): nat {
    if steps == [] then 0
    else Numberings(steps[..|steps| - 1]) + if steps[|steps| - 1].Number? then 1 else 0
  }

  /** Which of them h was, counting from 1; 0 if it has not taken one. */
  function Rank(steps: seq<Step>, h: Handler): nat {
    if steps == [] then 0
    else if steps[|steps| - 1] == Number(h) then Numberings(steps)
    else Rank(steps[..|steps| - 1], h)
  }

  /** The counter counts the calls, and the n-th call has id n, both modulo 2^32. */
  lemma {:induction false} IdsAreRanks(steps: seq<Step>)
    requires Exec(steps).Some?
    ensures Exec(steps).value.last == Numberings(steps) % 0x1_0000_0000
    ensures forall h :: h in Exec(steps).value.ids <==> Rank(steps, h) > 0
    ensures forall h :: Rank(steps, h) <= Numberings(steps)
    ensures forall h :: h in Exec(steps).value.ids ==> Exec(steps).value.ids[h] == Rank(steps, h) % 0x1_0000_0000
  {
    if steps != [] {
      IdsAreRanks(steps[..|steps| - 1]);
    }
  }

  lemma {:induction false} RanksDiffer(steps: seq<Step>, h: Handler, g: Handler)
    requires Exec(steps).Some? && h != g && Rank(steps, h) > 0
    ensures Rank(steps, h) != Rank(steps, g)
  {
    if steps != [] {
      IdsAreRanks(steps[..|steps| - 1]);
      if steps[|steps| - 1] != Number(h) && steps[|steps| - 1] != Number(g) {
        RanksDiffer(steps[..|steps| - 1], h, g);
      }
    }
  }

  /** Fewer than 2^32 calls lie between the two. */
  predicate Near(steps: seq<Step>, h: Handler, g: Handler) {
    Rank(steps, h) - 0x1_0000_0000 < Rank(steps, g) < Rank(steps, h) + 0x1_0000_0000
  }

  /** Two calls with fewer than 2^32 calls between them have different ids. */
  lemma IdsDiffer(steps: seq<Step>, h: Handler, g: Handler)
    requires Exec(steps).Some? && h != g && h in Exec(steps).value.ids && g in Exec(steps).value.ids
    requires Near(steps, h, g)
    ensures Exec(steps).value.ids[h] != Exec(steps).value.ids[g]
  {
    IdsAreRanks(steps);
    RanksDiffer(steps, h, g);
    ModuloDiffers(Rank(steps, h), Rank(steps, g));
  }

  lemma ModuloDiffers(a: nat, b: nat)
    requires a != b && a - 0x1_0000_0000 < b < a + 0x1_0000_0000
    ensures a % 0x1_0000_0000 != b % 0x1_0000_0000
  {
  }

  /** Entries are under the id of their call, and so is what a call is about to insert. */
  ghost predicate Filed(s: Calls) {
    && (forall id :: id in s.active ==> s.active[id] in s.ids && s.ids[s.active[id]] == id)
    && (forall h :: h in s.numbered ==> h in s.ids && s.ids[h] == s.numbered[h])
  }

  lemma {:induction false} FiledRun(steps: seq<Step>)
    requires Exec(steps).Some?
    ensures Filed(Exec(steps).value)
  {
    if steps != [] {
      FiledRun(steps[..|steps| - 1]);
    }
  }

  /** An insertion overwrites no entry of a call with fewer than 2^32 calls in between. */
  lemma InsertOverwritesNone(steps: seq<Step>, h: Handler, g: Handler)
    requires Exec(steps).Some? && Enabled(Exec(steps).value, Insert(h)) && h != g
    requires var s := Exec(steps).value; g in s.ids && s.ids[g] in s.active && s.active[s.ids[g]] == g
    requires Near(steps, h, g)
    ensures var s, s' := Exec(steps).value, Next(Exec(steps).value, Insert(h));
            s.ids[g] in s'.active && s'.active[s.ids[g]] == g
  {
    FiledRun(steps);
    IdsDiffer(steps, h, g);
  }

  /** The entry of a call is in the table. */
  ghost predicate Waits(steps: seq<Step>, h: Handler) {
    Exec(steps).Some? &&
    var s := Exec(steps).value;
    h in s.ids && s.ids[h] in s.active && s.active[s.ids[h]] == h
  }

  /** The i-th step neither answers nor gives up h, and concerns only calls with fewer than 2^32 calls in between. */
  predicate Spares(steps: seq<Step>, i: nat, h: Handler, id: nat)
    requires i < |steps|
  {
    match steps[i]
    case Insert(g) => g == h || Near(steps[..i], h, g)
    case SendFailed(g) => g != h && Near(steps[..i], h, g)
    case Response(other) => other != id
    case _ => true
  }

  lemma WaitsStep(steps: seq<Step>, step: Step, h: Handler)
    requires Waits(steps, h) && Exec(steps + [step]).Some?
    requires Spares(steps + [step], |steps|, h, Exec(steps).value.ids[h])
    ensures Waits(steps + [step], h) && Exec(steps + [step]).value.ids[h] == Exec(steps).value.ids[h]
  {
    assert (steps + [step])[..|steps|] == steps;
    FiledRun(steps);
    var s := Exec(steps).value;
    if step.Insert? && step.h != h {
      InsertOverwritesNone(steps, step.h, h);
    } else if step.SendFailed? {
      IdsDiffer(steps, h, step.h);
    }
  }

  /** A call's entry stays until it is answered or its own send fails, whatever else happens within 2^32 calls of it,
      and a response under its id then runs its handler. */
  lemma {:induction false} EntryStays(steps: seq<Step>, more: seq<Step>, h: Handler)
    requires Waits(steps, h) && Exec(steps + more).Some?
    requires forall i :: |steps| <= i < |steps + more| ==> Spares(steps + more, i, h, Exec(steps).value.ids[h])
    ensures Waits(steps + more, h) && Exec(steps + more).value.ids[h] == Exec(steps).value.ids[h]
    ensures Next(Exec(steps + more).value, Response(Exec(steps).value.ids[h])).runs ==
            Exec(steps + more).value.runs + multiset{h}
    decreases |more|
  {
    var run := steps + more;
    if more == [] {
      assert run == steps;
    } else {
      var most := more[..|more| - 1];
      assert run[..|run| - 1] == steps + most && run == (steps + most) + [more[|more| - 1]];
      forall i | |steps| <= i < |steps + most| ensures Spares(steps + most, i, h, Exec(steps).value.ids[h]) {
        assert Spares(run, i, h, Exec(steps).value.ids[h]) && run[..i] == (steps + most)[..i];
      }
      EntryStays(steps, most, h);
      WaitsStep(steps + most, more[|more| - 1], h);
    }
  }

  // ---------------------------------------------------------------- the connection's own methods

  /** The table as the connection keeps it.  Every section under the mutex, and the atomic counter, is one method and
      one step; calls of several goroutines interleave between methods. */
  class Table {
    var activeOutRequests: map<nat, Handler>
    var lastOutRequestsIndex: nat
    ghost var calls: Calls

    ghost predicate Valid()
      reads this
    {
      activeOutRequests == calls.active && lastOutRequestsIndex == calls.last && Inv(calls)
    }

    constructor ()
      ensures Valid() && calls == INIT
    {
      activeOutRequests := map[];
      lastOutRequestsIndex := 0;
      calls := INIT;
    }

    ghost method Record(step: Step)
      requires Inv(calls) && Enabled(calls, step)
      requires activeOutRequests == Next(calls, step).active && lastOutRequestsIndex == Next(calls, step).last
      modifies `calls
      ensures Valid() && calls == Next(old(calls), step)
    {
      StepKeepsInv(calls, step);
      calls := Next(calls, step);
    }

    /** Takes the next id off the counter. */
    method TakeIndex(h: Handler) returns (id: nat)
      requires Valid() && Enabled(calls, Number(h))
      modifies this
      ensures Valid() && calls == Next(old(calls), Number(h)) && calls.numbered[h] == id
    {
      lastOutRequestsIndex := (lastOutRequestsIndex + 1) % TWO_32;
      id := lastOutRequestsIndex;
      Record(Number(h));
    }

    method Put(h: Handler, id: nat)
      requires Valid() && Enabled(calls, Insert(h)) && calls.numbered[h] == id
      modifies this
      ensures Valid() && calls == Next(old(calls), Insert(h))
    {
      activeOutRequests := activeOutRequests[id := h];
      Record(Insert(h));
    }

    method Delete(h: Handler, id: nat)
      requires Valid() && Enabled(calls, SendFailed(h)) && calls.ids[h] == id
      modifies this
      ensures Valid() && calls == Next(old(calls), SendFailed(h))
    {
      activeOutRequests := activeOutRequests - {id};
      Record(SendFailed(h));
    }

    /** Sends a request with no other call in between; `delivered` tells whether writing it succeeded. */
    method SendRequest(h: Handler, delivered: bool) returns (id: Option<nat>)
      requires Valid() && Enabled(calls, Number(h))
      modifies this
      ensures Valid() && id.Some? == delivered
      ensures calls.ids == old(calls).ids[h := lastOutRequestsIndex] && calls.runs == old(calls).runs
      ensures delivered ==> id.value == lastOutRequestsIndex && calls.active == old(calls).active[id.value := h]
      ensures !delivered ==> calls.active == old(calls).active - {lastOutRequestsIndex}
    {
      var index := TakeIndex(h);
      Put(h, index);
      if !delivered {
        Delete(h, index);
        return None;
      }
      id := Some(index);
    }

    /** Takes the entry of a response out of the table and gives its handler to run; None for an unknown id.  The
        handler has not run before. */
    method HandleIncomingResponse(id: nat) returns (h: Option<Handler>)
      requires Valid()
      modifies this
      ensures Valid() && calls == Next(old(calls), Response(id))
      ensures h == if id in old(activeOutRequests) then Some(old(activeOutRequests)[id]) else None
      ensures h.Some? ==> old(calls).runs[h.value] == 0 && calls.runs[h.value] == 1
    {
      if id in activeOutRequests {
        h := Some(activeOutRequests[id]);
        activeOutRequests := activeOutRequests - {id};
      } else {
        h := None;
      }
      Record(Response(id));
    }
  }
}
