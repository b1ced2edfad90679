/** The serial port: one loop that opens and serves the port, and any number of calls that open or close it.

    `$/serial/open` and `$/serial/close` and the top of the loop each work under one mutex, with two condition
    variables on it.  A section under the mutex is one step; Wait ends a section and Broadcast moves all waiters.
  */
module SerialPort {
  import opened Basics

  type Channel = nat
  type Port = nat
  type Call = nat

  datatype Loop =
    | AtTop                                // about to lock
    | WaitingForOpen                       // in serialOpened.Wait
    | Opening(signal: Channel)             // unlocked, opening the device
    | Serving(signal: Channel, port: Port) // waiting for the close signal or for the connection to fail
    | Leaving(port: Port)                  // closing, waiting for the router to drop the connection

  /** `signal` is serialCloseSignal; `closed` the channels closed so far; `made` counts channels, `tried` ports.
      `ports` are the open ports and `conns` the router connections on them.  `waiting` calls sit in
      serialClosed.Wait, `woken` ones were woken up.  `panicked` records that a closed channel was closed again. */
  datatype State = State(
    signal: Option<Channel>, closed: set<Channel>, made: nat, loop: Loop, tried: nat,
    ports: set<Port>, conns: set<Port>, waiting: set<Call>, woken: set<Call>, panicked: bool)

  const INIT := State(Some(0), {}, 1, AtTop, 0, {}, {}, {}, {}, false)

  datatype Step =
    | CallOpen
    | CallClose(t: Call)
    | Resume(t: Call)
    | LoopTop
    | OpenDevice(ok: bool)
    | ConnectionEnds(port: Port)
    | Leave
    | ClosePort
    | Done

  predicate Enabled(s: State, step: Step) {
    match step
    case CallOpen => true
    case CallClose(t) => t !in s.waiting && t !in s.woken
    case Resume(t) => t in s.woken
    case LoopTop => s.loop.AtTop?
    case OpenDevice(ok) => s.loop.Opening?
    case ConnectionEnds(port) => port in s.conns
    case Leave => s.loop.Serving? && (s.loop.signal in s.closed || s.loop.port !in s.conns)
    case ClosePort => s.loop.Leaving? && s.loop.port in s.ports
    case Done => s.loop.Leaving? && s.loop.port !in s.ports && s.loop.port !in s.conns
  }

  function Next(s: State, step: Step): State
    requires Enabled(s, step)
  {
    match step
    case CallOpen =>
      if s.signal.Some? then s
      else s.(signal := Some(s.made), made := s.made + 1, loop := if s.loop.WaitingForOpen? then AtTop else s.loop)
    case CallClose(t) =>
      if s.signal == None then s
      else s.(signal := None, closed := s.closed + {s.signal.value}, waiting := s.waiting + {t},
              panicked := s.panicked || s.signal.value in s.closed)
    case Resume(t) => s.(woken := s.woken - {t})
    case LoopTop =>
      if s.signal == None then s.(waiting := {}, woken := s.woken + s.waiting, loop := WaitingForOpen)
      else s.(loop := Opening(s.signal.value))
    case OpenDevice(ok) =>
      if !ok then s.(loop := AtTop)
      else s.(loop := Serving(s.loop.signal, s.tried), tried := s.tried + 1,
              ports := s.ports + {s.tried}, conns := s.conns + {s.tried})
    case ConnectionEnds(port) => s.(conns := s.conns - {port})
    case Leave => s.(loop := Leaving(s.loop.port))
    case ClosePort => s.(ports := s.ports - {s.loop.port})
    case Done => s.(loop := AtTop)
  }

  function Exec(steps: seq<Step>): Option<State> {
    if steps == [] then Some(INIT) else
    match Exec(steps[..|steps| - 1])
    case None => None
    case Some(s) => if Enabled(s, steps[|steps| - 1]) then Some(Next(s, steps[|steps| - 1])) else None
  }

  predicate Disconnected(s: State) {
    s.ports == {} && s.conns == {}
  }

  ghost predicate Inv(s: State) {
    && !s.panicked
    && (s.signal.Some? ==> s.signal.value < s.made && s.signal.value !in s.closed)
    && (forall ch :: ch in s.closed ==> ch < s.made)
    && (s.loop.WaitingForOpen? ==> s.signal == None)
    && match s.loop
       case Serving(_, port) => s.ports == {port} && s.conns <= {port}
       case Leaving(port) => s.ports <= {port} && s.conns <= {port}
       case _ => Disconnected(s)
  }

  lemma StepKeepsInv(s: State, step: Step)
    requires Inv(s) && Enabled(s, step)
    ensures Inv(Next(s, step))
  {
  }

  /** In every run: no signal channel is closed twice, at most one port is open, with at most one router
      connection and only on that port, and the loop sleeps only while no signal is set. */
  lemma {:induction false} Safe(steps: seq<Step>)
    requires Exec(steps).Some?
    ensures var s := Exec(steps).value;
            Inv(s) && !s.panicked && (forall p, q :: p in s.ports + s.conns && q in s.ports + s.conns ==> p == q)
  {
    if steps != [] {
      Safe(steps[..|steps| - 1]);
      StepKeepsInv(Exec(steps[..|steps| - 1]).value, steps[|steps| - 1]);
    }
  }

  lemma {:induction false} Prefix(steps: seq<Step>, n: nat)
    requires Exec(steps).Some? && n <= |steps|
    ensures Exec(steps[..n]).Some?
    ensures n < |steps| ==> Enabled(Exec(steps[..n]).value, steps[n])
    ensures n < |steps| ==> Exec(steps[..n + 1]) == Some(Next(Exec(steps[..n]).value, steps[n]))
    decreases |steps| - n
  {
    if n == |steps| {
      assert steps[..n] == steps;
    } else {
      Prefix(steps, n + 1);
      assert steps[..n + 1][..n] == steps[..n];
    }
  }

  /** A close call that is waiting at some point and no longer waiting later was let go at a moment in between
      when the port was disconnected and no signal was set. */
  lemma {:induction false} ClosersWaitForDisconnect(steps: seq<Step>, i: nat, j: nat, t: Call)
    requires Exec(steps).Some? && i <= j <= |steps|
    requires Exec(steps[..i]).Some? && t in Exec(steps[..i]).value.waiting
    requires Exec(steps[..j]).Some? && t !in Exec(steps[..j]).value.waiting
    ensures exists k :: i <= k < j && steps[k] == LoopTop && Exec(steps[..k]).Some?
                     && Disconnected(Exec(steps[..k]).value) && Exec(steps[..k]).value.signal == None
    decreases j
  {
    assert i < j;
    Prefix(steps, j - 1);
    var s := Exec(steps[..j - 1]).value;
    if t in s.waiting {
      assert steps[j - 1] == LoopTop;
      Safe(steps[..j - 1]);
    } else {
      ClosersWaitForDisconnect(steps, i, j - 1, t);
    }
  }

  /** In particular a call that took the closing branch cannot return before that moment. */
  lemma CloseResumesAfterDisconnect(steps: seq<Step>, i: nat, j: nat, t: Call)
    requires Exec(steps).Some? && i < j < |steps|
    requires steps[i] == CallClose(t) && Exec(steps[..i]).Some? && Exec(steps[..i]).value.signal.Some?
    requires steps[j] == Resume(t)
    ensures exists k :: i < k < j && steps[k] == LoopTop && Exec(steps[..k]).Some?
                     && Disconnected(Exec(steps[..k]).value) && Exec(steps[..k]).value.signal == None
  {
    Prefix(steps, i);
    Prefix(steps, j);
    WokenNotWaiting(steps[..j], t);
    ClosersWaitForDisconnect(steps, i + 1, j, t);
  }

  lemma {:induction false} WokenNotWaiting(steps: seq<Step>, t: Call)
    requires Exec(steps).Some?
    ensures !(t in Exec(steps).value.waiting && t in Exec(steps).value.woken)
  {
    if steps != [] {
      WokenNotWaiting(steps[..|steps| - 1], t);
    }
  }

  // ---------------------------------------------------------------- what calls and signals do

  /** Opening an open port and closing a closed one change nothing; in particular such a close does not wait.
      A call that resumes returns. */
  lemma NothingToDo(s: State, t: Call)
    ensures s.signal.Some? ==> Next(s, CallOpen) == s
    ensures s.signal == None && Enabled(s, CallClose(t)) ==> Next(s, CallClose(t)) == s && t !in s.waiting
    ensures Enabled(s, Resume(t)) ==> t !in Next(s, Resume(t)).woken
  {
  }

  /** What the loop does with the device: a failed open changes nothing but sends it back to its top; a successful one
      makes one new port, with one connection, under the signal the loop took; leaving closes that port and no other. */
  lemma DeviceSteps(s: State)
    requires s.loop.Opening? || s.loop.Leaving?
    ensures s.loop.Opening? ==>
              var up := Next(s, OpenDevice(true));
              && Next(s, OpenDevice(false)) == s.(loop := AtTop)
              && up.loop == Serving(s.loop.signal, s.tried) && up.tried == s.tried + 1
              && up.ports == s.ports + {s.tried} && up.conns == s.conns + {s.tried}
              && up.signal == s.signal && up.closed == s.closed && up.waiting == s.waiting
    ensures Enabled(s, ClosePort) ==> Next(s, ClosePort) == s.(ports := s.ports - {s.loop.port})
    ensures Enabled(s, Done) ==> Next(s, Done) == s.(loop := AtTop) && s.loop.port !in s.ports + s.conns
  {
  }

  /** The loop works under the current signal or under one that was closed. */
  ghost predicate SignalKnown(s: State) {
    && (s.loop.Opening? || s.loop.Serving? ==> s.signal == Some(s.loop.signal) || s.loop.signal in s.closed)
  }

  lemma {:induction false} SignalKnownRun(steps: seq<Step>)
    requires Exec(steps).Some?
    ensures SignalKnown(Exec(steps).value)
  {
    if steps != [] {
      SignalKnownRun(steps[..|steps| - 1]);
    }
  }

  /** In every run: while no signal is set, a loop that serves the port has been told to leave it; and while its own
      signal is set and its connection stands, it stays. */
  lemma CloseReachesLoop(steps: seq<Step>)
    requires Exec(steps).Some? && Exec(steps).value.loop.Serving?
    ensures var s := Exec(steps).value;
            && (s.signal == None ==> Enabled(s, Leave))
            && (s.signal == Some(s.loop.signal) && s.loop.port in s.conns ==> !Enabled(s, Leave))
  {
    SignalKnownRun(steps);
    Safe(steps);
  }

  // ---------------------------------------------------------------- which closers are let go

  /** Between the i-th and the n-th step some call opened the port again, and no later one closed it. */
  ghost predicate OpenStands(steps: seq<Step>, i: nat, n: nat)
    requires n <= |steps|
  {
    exists j :: i < j < n && steps[j] == CallOpen && forall m :: j < m < n ==> !steps[m].CallClose?
  }

  /** The i-th step is a close call of t that takes the closing branch. */
  ghost predicate Closes(steps: seq<Step>, i: nat, t: Call) {
    && i < |steps| && steps[i] == CallClose(t)
    && Exec(steps[..i]).Some? && Exec(steps[..i]).value.signal.Some?
  }

  lemma OpenStandsStep(steps: seq<Step>, i: nat, n: nat)
    requires i < n < |steps|
    ensures OpenStands(steps, i, n + 1) <==> steps[n] == CallOpen || (OpenStands(steps, i, n) && !steps[n].CallClose?)
  {
    if OpenStands(steps, i, n + 1) && steps[n] != CallOpen {
      var j :| i < j < n + 1 && steps[j] == CallOpen && forall m :: j < m < n + 1 ==> !steps[m].CallClose?;
      assert j < n && !steps[n].CallClose?;
    }
  }

  lemma {:induction false} SignalAfterClose(steps: seq<Step>, i: nat, t: Call, n: nat)
    requires Exec(steps).Some? && Closes(steps, i, t) && i < n <= |steps|
    ensures Exec(steps[..n]).Some?
    ensures Exec(steps[..n]).value.signal.Some? <==> OpenStands(steps, i, n)
    decreases n
  {
    Prefix(steps, n - 1);
    if n > i + 1 {
      SignalAfterClose(steps, i, t, n - 1);
      OpenStandsStep(steps, i, n - 1);
    }
  }

  /** Whenever the loop came by its top since the close, an open stood. */
  ghost predicate OpenAtEveryTop(steps: seq<Step>, i: nat, n: nat)
    requires n <= |steps|
  {
    forall k :: i < k < n && steps[k] == LoopTop ==> OpenStands(steps, i, k)
  }

  lemma EveryTopStep(steps: seq<Step>, i: nat, n: nat)
    requires i < n < |steps|
    ensures OpenAtEveryTop(steps, i, n + 1) <==>
            OpenAtEveryTop(steps, i, n) && (steps[n] == LoopTop ==> OpenStands(steps, i, n))
  {
  }

  lemma WaitingStep(s: State, step: Step, t: Call)
    requires Enabled(s, step) && step != CallClose(t)
    ensures t in Next(s, step).waiting <==> t in s.waiting && !(step == LoopTop && s.signal == None)
  {
  }

  lemma WaitingOne(steps: seq<Step>, i: nat, t: Call, n: nat, s: State)
    requires i < n < |steps| && Enabled(s, steps[n]) && steps[n] != CallClose(t)
    requires s.signal.Some? <==> OpenStands(steps, i, n)
    requires t in s.waiting <==> OpenAtEveryTop(steps, i, n)
    ensures t in Next(s, steps[n]).waiting <==> OpenAtEveryTop(steps, i, n + 1)
  {
    EveryTopStep(steps, i, n);
    WaitingStep(s, steps[n], t);
  }

  lemma WaitsAtFirst(steps: seq<Step>, i: nat, t: Call)
    requires Exec(steps).Some? && Closes(steps, i, t)
    ensures Exec(steps[..i + 1]).Some? && t in Exec(steps[..i + 1]).value.waiting && OpenAtEveryTop(steps, i, i + 1)
  {
    Prefix(steps, i);
  }

  /** A close call that took the closing branch is still waiting exactly while, every time the loop came by its
      top, another call had opened the port again and none had closed it since; it is woken up by the first pass of
      the loop for which that is not so. */
  lemma {:induction false} StillWaitingExactly(steps: seq<Step>, i: nat, t: Call, n: nat)
    requires Exec(steps).Some? && Closes(steps, i, t) && i < n <= |steps|
    requires forall j :: i < j < n ==> steps[j] != CallClose(t)
    ensures Exec(steps[..n]).Some?
    ensures t in Exec(steps[..n]).value.waiting <==> OpenAtEveryTop(steps, i, n)
    decreases n
  {
    if n == i + 1 {
      WaitsAtFirst(steps, i, t);
    } else {
      Prefix(steps, n - 1);
      StillWaitingExactly(steps, i, t, n - 1);
      SignalAfterClose(steps, i, t, n - 1);
      WaitingOne(steps, i, t, n - 1, Exec(steps[..n - 1]).value);
    }
  }

  /** At the first pass of the loop after the close, the closer is woken up unless an open stands. */
  lemma ReleasedExactly(steps: seq<Step>, i: nat, t: Call, k: nat)
    requires Exec(steps).Some? && Closes(steps, i, t) && i < k < |steps| && steps[k] == LoopTop
    requires forall j :: i < j < k ==> steps[j] != LoopTop && steps[j] != CallClose(t)
    ensures Exec(steps[..k + 1]).Some?
    ensures t in Exec(steps[..k + 1]).value.woken <==> !OpenStands(steps, i, k)
  {
    Prefix(steps, k);
    StillWaitingExactly(steps, i, t, k);
    SignalAfterClose(steps, i, t, k);
    WokenNotWaiting(steps[..k], t);
  }

  lemma Extend(steps: seq<Step>, s: State, step: Step)
    requires Exec(steps) == Some(s) && Enabled(s, step)
    ensures Exec(steps + [step]) == Some(Next(s, step))
  {
    assert (steps + [step])[..|steps|] == steps;
  }

  const REOPENED := State(Some(1), {0}, 2, Serving(0, 0), 1, {0}, {0}, {7}, {}, false)

  lemma CloseThenOpen() returns (steps: seq<Step>)
    ensures Exec(steps) == Some(REOPENED)
  {
    Extend([], INIT, LoopTop);
    var s := Next(INIT, LoopTop);
    assert [] + [LoopTop] == [LoopTop];
    Extend([LoopTop], s, OpenDevice(true));
    s := Next(s, OpenDevice(true));
    assert [LoopTop] + [OpenDevice(true)] == [LoopTop, OpenDevice(true)];
    Extend([LoopTop, OpenDevice(true)], s, CallClose(7));
    s := Next(s, CallClose(7));
    assert [LoopTop, OpenDevice(true)] + [CallClose(7)] == [LoopTop, OpenDevice(true), CallClose(7)];
    Extend([LoopTop, OpenDevice(true), CallClose(7)], s, CallOpen);
    assert s.closed == {0} && s.waiting == {7} && s.ports == {0} && s.conns == {0};
    steps := [LoopTop, OpenDevice(true), CallClose(7), CallOpen];
    assert steps == [LoopTop, OpenDevice(true), CallClose(7)] + [CallOpen];
  }

  lemma DownAndUp(s: State)
    requires s == REOPENED
    ensures Enabled(s, Leave)
    ensures var s1 := Next(s, Leave);
            Enabled(s1, ConnectionEnds(0)) &&
            var s2 := Next(s1, ConnectionEnds(0));
            Enabled(s2, ClosePort) &&
            var s3 := Next(s2, ClosePort);
            Enabled(s3, Done) && Disconnected(s3) && Next(s3, Done) == s3.(loop := AtTop) &&
            s3.signal == Some(1) && s3.waiting == {7} && s3.tried == 1
  {
  }

  /** The converse is not promised: an open that comes before the loop is back at its top leaves the closer
      waiting although the port went down and came up again. */
  lemma CloserLeftBehind() returns (steps: seq<Step>)
    ensures Exec(steps).Some?
    ensures 7 in Exec(steps).value.waiting && Exec(steps).value.ports == {1}
  {
    steps := CloseThenOpen();
    DownAndUp(REOPENED);
    Extend(steps, REOPENED, Leave);
    var s := Next(REOPENED, Leave);
    steps := steps + [Leave];
    Extend(steps, s, ConnectionEnds(0));
    s, steps := Next(s, ConnectionEnds(0)), steps + [ConnectionEnds(0)];
    Extend(steps, s, ClosePort);
    s, steps := Next(s, ClosePort), steps + [ClosePort];
    Extend(steps, s, Done);
    s, steps := Next(s, Done), steps + [Done];
    Extend(steps, s, LoopTop);
    s, steps := Next(s, LoopTop), steps + [LoopTop];
    Extend(steps, s, OpenDevice(true));
    steps := steps + [OpenDevice(true)];
  }
}
