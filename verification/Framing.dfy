/** Many goroutines send on one connection while others change its limit: a step system over `send`
    and `SetMaxOutgoingMessageSize`, with one step per write of the encoder. */
module Framing {
  import opened Basics
  import opened MsgPack

  type Call = nat

  /** One call of `send`, for the message v that the encoder writes in the given chunks; `under` and `over`
      record the limit the call worked with. */
  datatype Task =
    | Waiting(v: Value, todo: seq<seq<byte>>)
    | Writing(v: Value, direct: bool, written: seq<byte>, todo: seq<seq<byte>>)
    | Done(v: Value, under: Option<nat>)
    | Failed(v: Value, over: nat)

  /** `lock` is the holder of outMutex; `order` lists the calls that succeeded, in the order they finished,
      and `sent` their messages. */
  datatype Wire = Wire(out: seq<byte>, limit: Option<nat>, buffer: seq<byte>, lock: Option<Call>,
                       tasks: map<Call, Task>, order: seq<Call>, sent: seq<Value>)

  const INIT := Wire([], None, [], None, map[], [], [])

  datatype Step =
    | Submit(t: Call, v: Value, chunks: seq<seq<byte>>)
    | Acquire(t: Call)
    | WriteChunk(t: Call)
    | Finish(t: Call)
    | SetLimit(n: nat)

  predicate Enabled(w: Wire, step: Step) {
    match step
    case Submit(t, v, chunks) => t !in w.tasks && WellFormed([v]) && Flatten(chunks) == Encode(v)
    case Acquire(t) => w.lock == None && t in w.tasks && w.tasks[t].Waiting?
    case WriteChunk(t) => w.lock == Some(t) && t in w.tasks && w.tasks[t].Writing? && w.tasks[t].todo != []
    case Finish(t) => w.lock == Some(t) && t in w.tasks && w.tasks[t].Writing? && w.tasks[t].todo == []
    case SetLimit(n) => w.lock == None
  }

  function Next(w: Wire, step: Step): Wire
    requires Enabled(w, step)
  {
    match step
    case Submit(t, v, chunks) => w.(tasks := w.tasks[t := Waiting(v, chunks)])
    case Acquire(t) =>
      w.(lock := Some(t), buffer := [],
         tasks := w.tasks[t := Writing(w.tasks[t].v, w.limit == None, [], w.tasks[t].todo)])
    case WriteChunk(t) => WriteOne(w, t, w.tasks[t])
    case Finish(t) =>
      w.(lock := None, order := w.order + [t], sent := w.sent + [w.tasks[t].v],
         tasks := w.tasks[t := Done(w.tasks[t].v, w.limit)],
         out := if w.tasks[t].direct then w.out else w.out + w.buffer)
    case SetLimit(n) => w.(limit := Some(n), buffer := [])
  }

  function WriteOne(w: Wire, t: Call, k: Task): Wire
    requires k.Writing? && k.todo != []
  {
    var chunk := k.todo[0];
    var k' := k.(written := k.written + chunk, todo := k.todo[1..]);
    if k.direct then w.(out := w.out + chunk, tasks := w.tasks[t := k'])
    else if w.limit.Some? && |w.buffer| + |chunk| > w.limit.value then
      w.(lock := None, tasks := w.tasks[t := Failed(k.v, w.limit.value)])
    else w.(buffer := w.buffer + chunk, tasks := w.tasks[t := k'])
  }

  function Exec(steps: seq<Step>): Option<Wire> {
    if steps == [] then Some(INIT) else
    match Exec(steps[..|steps| - 1])
    case None => None
    case Some(w) => if Enabled(w, steps[|steps| - 1]) then Some(Next(w, steps[|steps| - 1])) else None
  }

  // ---------------------------------------------------------------- the invariant

  /** What the lock holder has put on the wire of a message it has not finished. */
  function Partial(w: Wire): seq<byte> {
    if w.lock.Some? && w.lock.value in w.tasks && w.tasks[w.lock.value].Writing? && w.tasks[w.lock.value].direct
    then w.tasks[w.lock.value].written else []
  }

  ghost predicate TaskInv(w: Wire, t: Call)
    requires t in w.tasks
  {
    var k := w.tasks[t];
    && WellFormed([k.v])
    && (k.Waiting? ==> Flatten(k.todo) == Encode(k.v))
    && (k.Writing? ==> k.written + Flatten(k.todo) == Encode(k.v) && w.lock == Some(t))
    && (k.Writing? ==> k.direct == (w.limit == None))
    && (k.Writing? && !k.direct ==> w.buffer == k.written && |w.buffer| <= w.limit.value)
    && (k.Done? && k.under.Some? ==> |Encode(k.v)| <= k.under.value)
    && (k.Failed? ==> |Encode(k.v)| > k.over)
    && (k.Done? <==> t in w.order)
  }

  ghost predicate TasksInv(w: Wire) {
    && (forall t :: t in w.tasks ==> TaskInv(w, t))
    && |w.order| == |w.sent|
    && (forall i :: 0 <= i < |w.order| ==>
          w.order[i] in w.tasks && w.tasks[w.order[i]].Done? && w.tasks[w.order[i]].v == w.sent[i])
    && (forall i, j :: 0 <= i < j < |w.order| ==> w.order[i] != w.order[j])
  }

  ghost predicate OutInv(w: Wire) {
    WellFormed(w.sent) && w.out == EncodeAll(w.sent) + Partial(w)
  }

  ghost predicate Inv(w: Wire) {
    TasksInv(w) && OutInv(w)
  }

  lemma StepKeepsInv(w: Wire, step: Step)
    requires Inv(w) && Enabled(w, step)
    ensures Inv(Next(w, step))
  {
    match step
    case Submit(t, v, chunks) => SubmitKeepsTasks(w, step); SubmitKeepsOut(w, step);
    case Acquire(t) => AcquireKeepsInv(w, t);
    case WriteChunk(t) => WriteKeepsTasks(w, t); WriteKeepsOut(w, t);
    case Finish(t) => FinishKeepsTasks(w, t); FinishKeepsOut(w, t);
    case SetLimit(n) => SetLimitKeepsInv(w, n);
  }

  lemma SubmitKeepsTasks(w: Wire, step: Step)
    requires TasksInv(w) && Enabled(w, step) && step.Submit?
    ensures TasksInv(Next(w, step))
  {
    var w' := Next(w, step);
    assert step.t !in w.order;
    assert TaskInv(w', step.t);
    forall u | u in w'.tasks ensures TaskInv(w', u) {
      assert u != step.t ==> TaskInv(w, u);
    }
  }

  lemma SubmitKeepsOut(w: Wire, step: Step)
    requires OutInv(w) && Enabled(w, step) && step.Submit?
    ensures OutInv(Next(w, step))
  {
    assert Partial(Next(w, step)) == Partial(w);
  }

  lemma SetLimitKeepsInv(w: Wire, n: nat)
    requires Inv(w) && Enabled(w, SetLimit(n))
    ensures Inv(Next(w, SetLimit(n)))
  {
    var w' := Next(w, SetLimit(n));
    forall t | t in w'.tasks ensures TaskInv(w', t) {
      assert TaskInv(w, t);
    }
  }

  lemma AcquireKeepsInv(w: Wire, t: Call)
    requires Inv(w) && Enabled(w, Acquire(t))
    ensures Inv(Next(w, Acquire(t)))
  {
    var w' := Next(w, Acquire(t));
    assert TaskInv(w, t);
    assert [] + Flatten(w.tasks[t].todo) == Flatten(w.tasks[t].todo);
    forall u | u in w'.tasks ensures TaskInv(w', u) {
      assert TaskInv(w, u);
    }
  }

  lemma WriteKeepsTask(w: Wire, t: Call)
    requires Enabled(w, WriteChunk(t)) && TaskInv(w, t)
    ensures TaskInv(Next(w, WriteChunk(t)), t)
  {
    FlattenStep(w.tasks[t].written, w.tasks[t].todo);
  }

  lemma WriteKeepsTasks(w: Wire, t: Call)
    requires TasksInv(w) && Enabled(w, WriteChunk(t))
    ensures TasksInv(Next(w, WriteChunk(t)))
  {
    var w' := Next(w, WriteChunk(t));
    forall u | u in w'.tasks ensures TaskInv(w', u) {
      assert TaskInv(w, u);
      if u == t {
        WriteKeepsTask(w, t);
      }
    }
  }

  lemma WriteKeepsOut(w: Wire, t: Call)
    requires OutInv(w) && Enabled(w, WriteChunk(t))
    ensures OutInv(Next(w, WriteChunk(t)))
  {
    var k := w.tasks[t];
    if k.direct {
      Regroup([], EncodeAll(w.sent), k.written, k.todo[0]);
    }
  }

  lemma FinishKeepsTasks(w: Wire, t: Call)
    requires TasksInv(w) && Enabled(w, Finish(t))
    ensures TasksInv(Next(w, Finish(t)))
  {
    var w' := Next(w, Finish(t));
    assert TaskInv(w, t);
    WrittenIsWhole(w, t);
    forall u | u in w'.tasks ensures TaskInv(w', u) {
      assert TaskInv(w, u);
    }
  }

  lemma {:induction false} WellFormedAppend(vs: seq<Value>, v: Value)
    requires WellFormed(vs) && WellFormed([v])
    ensures WellFormed(vs + [v])
  {
    if vs == [] {
      assert vs + [v] == [v];
    } else {
      WellFormedAppend(vs[1..], v);
      assert (vs + [v])[1..] == vs[1..] + [v];
    }
  }

  lemma WrittenIsWhole(w: Wire, t: Call)
    requires Enabled(w, Finish(t)) && TaskInv(w, t)
    ensures w.tasks[t].written == Encode(w.tasks[t].v)
  {
    assert w.tasks[t].written + [] == w.tasks[t].written;
  }

  lemma FinishBytes(w: Wire, t: Call)
    requires OutInv(w) && Enabled(w, Finish(t)) && TaskInv(w, t)
    ensures Next(w, Finish(t)).out == (EncodeAll(w.sent) + Encode(w.tasks[t].v)) + []
  {
    WrittenIsWhole(w, t);
    if w.tasks[t].direct {
      assert Partial(w) == w.tasks[t].written;
    } else {
      assert Partial(w) == [] && w.buffer == w.tasks[t].written;
    }
    NothingBehind(EncodeAll(w.sent), Encode(w.tasks[t].v));
  }

  lemma NothingBehind(a: seq<byte>, b: seq<byte>)
    ensures a + [] == a && (a + b) + [] == a + b
  {
  }

  lemma FinishKeepsOut(w: Wire, t: Call)
    requires OutInv(w) && Enabled(w, Finish(t)) && TaskInv(w, t)
    ensures OutInv(Next(w, Finish(t)))
  {
    FinishBytes(w, t);
    EncodeAllAppend(w.sent, [w.tasks[t].v]);
    EncodeAllSingle(w.tasks[t].v);
    WellFormedAppend(w.sent, w.tasks[t].v);
  }

  lemma {:induction false} ExecInv(steps: seq<Step>)
    requires Exec(steps).Some?
    ensures Inv(Exec(steps).value)
  {
    if steps != [] {
      ExecInv(steps[..|steps| - 1]);
      StepKeepsInv(Exec(steps[..|steps| - 1]).value, steps[|steps| - 1]);
    }
  }

  // ---------------------------------------------------------------- the theorem

  /** For any interleaving of any number of senders and limit changes: the wire carries whole messages, those of
      the calls that succeeded, each once, in the order they finished; reading it gives exactly these messages
      and leaves only what the current lock holder has written so far, which is nothing when the lock is free.
      A call succeeds or fails by the length of its message and the limit it found, whatever the chunks. */
  lemma WholeMessagesOnly(steps: seq<Step>)
    requires Exec(steps).Some?
    ensures var w := Exec(steps).value;
            && |w.order| == |w.sent| && Parse(w.out, |w.order|) == Some((w.sent, Partial(w)))
            && (w.lock == None ==> Partial(w) == [])
            && (forall t :: t in w.tasks && w.tasks[t].Done? <==> t in w.order)
            && (forall t :: t in w.tasks && w.tasks[t].Done? && w.tasks[t].under.Some? ==>
                  |Encode(w.tasks[t].v)| <= w.tasks[t].under.value)
            && (forall t :: t in w.tasks && w.tasks[t].Failed? ==> |Encode(w.tasks[t].v)| > w.tasks[t].over)
            && (forall i :: 0 <= i < |w.order| ==> w.tasks[w.order[i]].Done? && w.tasks[w.order[i]].v == w.sent[i])
            && (forall i, j :: 0 <= i < j < |w.order| ==> w.order[i] != w.order[j])
  {
    ExecInv(steps);
    var w := Exec(steps).value;
    ParseInvertsEncode(w.sent, Partial(w));
    forall t ensures t in w.tasks && w.tasks[t].Done? <==> t in w.order {
      assert t in w.tasks ==> TaskInv(w, t);
    }
    assert forall t :: t in w.tasks ==> TaskInv(w, t);
  }

  // ---------------------------------------------------------------- the limit a call works under

  /** The limit that was set last; None if none was. */
  function LimitOf(steps: seq<Step>): Option<nat> {
    if steps == [] then None
    else if steps[|steps| - 1].SetLimit? then Some(steps[|steps| - 1].n)
    else LimitOf(steps[..|steps| - 1])
  }

  lemma {:induction false} LimitIsLast(steps: seq<Step>)
    requires Exec(steps).Some?
    ensures Exec(steps).value.limit == LimitOf(steps)
  {
    if steps != [] {
      LimitIsLast(steps[..|steps| - 1]);
    }
  }

  /** The j-th step ended the call t: it finished, or wrote over the limit. */
  ghost predicate EndsAt(steps: seq<Step>, j: nat, t: Call, k: Task) {
    && j < |steps|
    && (k.Done? ==> steps[j] == Finish(t) && k.under == LimitOf(steps[..j]))
    && (k.Failed? ==> steps[j] == WriteChunk(t) && Some(k.over) == LimitOf(steps[..j]))
  }

  /** In every run a call that has ended did so under the limit that was set last at that moment. */
  lemma {:induction false} EndedUnder(steps: seq<Step>, t: Call) returns (j: nat)
    requires Exec(steps).Some? && t in Exec(steps).value.tasks
    requires Exec(steps).value.tasks[t].Done? || Exec(steps).value.tasks[t].Failed?
    ensures EndsAt(steps, j, t, Exec(steps).value.tasks[t])
  {
    var before, step := steps[..|steps| - 1], steps[|steps| - 1];
    var w := Exec(before).value;
    if t in w.tasks && (w.tasks[t].Done? || w.tasks[t].Failed?) {
      EndedStays(w, step, t);
      j := EndedUnder(before, t);
      assert steps[..j] == before[..j];
    } else {
      LimitIsLast(before);
      j := |steps| - 1;
      EndingStep(w, step, t);
    }
  }

  lemma EndedStays(w: Wire, step: Step, t: Call)
    requires Enabled(w, step) && t in w.tasks && (w.tasks[t].Done? || w.tasks[t].Failed?)
    ensures t in Next(w, step).tasks && Next(w, step).tasks[t] == w.tasks[t]
  {
  }

  lemma EndingStep(w: Wire, step: Step, t: Call)
    requires Enabled(w, step) && !(t in w.tasks && (w.tasks[t].Done? || w.tasks[t].Failed?))
    requires t in Next(w, step).tasks
    ensures Next(w, step).tasks[t].Done? ==> step == Finish(t) && Next(w, step).tasks[t].under == w.limit
    ensures Next(w, step).tasks[t].Failed? ==> step == WriteChunk(t) && Some(Next(w, step).tasks[t].over) == w.limit
  {
  }

  /** The message of a call is the one it was made with. */
  lemma {:induction false} MessageIsSubmitted(steps: seq<Step>, t: Call) returns (j: nat)
    requires Exec(steps).Some? && t in Exec(steps).value.tasks
    ensures j < |steps| && steps[j].Submit? && steps[j].t == t && steps[j].v == Exec(steps).value.tasks[t].v
  {
    var before, step := steps[..|steps| - 1], steps[|steps| - 1];
    var w := Exec(before).value;
    if t in w.tasks {
      MessageStays(w, step, t);
      j := MessageIsSubmitted(before, t);
    } else {
      j := |steps| - 1;
    }
  }

  lemma MessageStays(w: Wire, step: Step, t: Call)
    requires Enabled(w, step) && t in w.tasks
    ensures t in Next(w, step).tasks && Next(w, step).tasks[t].v == w.tasks[t].v
  {
  }
}
