/** Handles of network resources: a wrapping 32-bit counter and a search for a handle that is not in use. */
module Handles {
  import opened Basics

  type Resource = nat

  const RING: int := TWO_32

  /** One step of a 32-bit counter. */
  function Succ(c: nat): (d: nat)
    requires c < RING
    ensures d < RING && d == (c + 1) % RING
  {
    if c + 1 == RING then 0 else c + 1
  }

  /** The k-th handle after c on the ring. */
  function Ahead(c: nat, k: nat): nat
    requires c < RING && k <= RING
  {
    if c + k < RING then c + k else c + k - RING
  }

  /** The first handle after c that is not in use. */
  ghost predicate FirstFree(used: set<nat>, c: nat, id: nat)
    requires c < RING
  {
    exists k :: FreeAfter(used, c, id, k)
  }

  ghost predicate FreeAfter(used: set<nat>, c: nat, id: nat, k: nat)
    requires c < RING
  {
    && 1 <= k <= RING && id == Ahead(c, k) && id !in used
    && forall j: nat :: 1 <= j < k ==> Ahead(c, j) in used
  }

  // ---------------------------------------------------------------- there is a free handle

  lemma {:induction false} Pigeonhole(used: set<nat>, n: nat)
    requires forall id: nat :: id < n ==> id in used
    ensures |used| >= n
  {
    if n > 0 {
      assert n - 1 in used;
      Pigeonhole(used - {n - 1}, n - 1);
    }
  }

  lemma SomeHandleFree(used: set<nat>) returns (f: nat)
    requires |used| < RING
    ensures f < RING && f !in used
  {
    if forall id: nat :: id < RING ==> id in used {
      Pigeonhole(used, RING);
      assert false;
    }
    f :| f < RING && f !in used;
  }

  // ---------------------------------------------------------------- the tables

  /** The live tables of the network API.  The search does not look at the UDP table. */
  class Tables {
    var nextConnectionID: nat
    var liveConnections: map<nat, Resource>
    var liveListeners: map<nat, Resource>
    var liveUdpConnections: map<nat, Resource>

    ghost predicate Valid()
      reads this
    {
      nextConnectionID < RING && liveConnections.Keys !! liveListeners.Keys
    }

    /** The state of the step system that the run theorems are about. */
    ghost function S(): Net
      reads this
    {
      Net(nextConnectionID, liveConnections, liveListeners, liveUdpConnections)
    }

    constructor ()
      ensures Valid() && S() == EMPTY
    {
      nextConnectionID := 0;
      liveConnections, liveListeners, liveUdpConnections := map[], map[], map[];
    }

    /** The search ends because the ring distance to a free handle goes down with every handle tried. */
    method TakeLockAndGenerateNextID() returns (id: nat)
      requires Valid() && |liveConnections.Keys + liveListeners.Keys| < RING
      modifies `nextConnectionID
      ensures Valid() && nextConnectionID == id
      ensures FirstFree(liveConnections.Keys + liveListeners.Keys, old(nextConnectionID), id)
    {
      ghost var used := liveConnections.Keys + liveListeners.Keys;
      ghost var c := nextConnectionID;
      ghost var f := SomeHandleFree(used);
      ghost var k: nat := 0;
      while true
        invariant Searching(used, c, f, k, nextConnectionID)
        decreases Distance(nextConnectionID, f)
      {
        SearchStep(used, c, f, k, nextConnectionID);
        nextConnectionID := Succ(nextConnectionID);
        k := k + 1;
        if nextConnectionID !in liveConnections && nextConnectionID !in liveListeners {
          assert FreeAfter(used, c, nextConnectionID, k);
          return nextConnectionID;
        }
      }
    }

    /** Every way to open a TCP connection: dial, TLS dial, accept. */
    method OpenConnection(r: Resource) returns (id: nat)
      requires Valid() && |liveConnections.Keys + liveListeners.Keys| < RING
      modifies this
      ensures Valid() && id !in old(liveConnections) && id !in old(liveListeners)
      ensures Allowed(old(S()), Connect(r, id)) && S() == Next(old(S()), Connect(r, id))
    {
      id := TakeLockAndGenerateNextID();
      liveConnections := liveConnections[id := r];
    }

    method OpenListener(r: Resource) returns (id: nat)
      requires Valid() && |liveConnections.Keys + liveListeners.Keys| < RING
      modifies this
      ensures Valid() && id !in old(liveConnections) && id !in old(liveListeners)
      ensures Allowed(old(S()), Listen(r, id)) && S() == Next(old(S()), Listen(r, id))
    {
      id := TakeLockAndGenerateNextID();
      liveListeners := liveListeners[id := r];
    }

    /** Does not promise that the handle was not live among the UDP connections. */
    method OpenUdp(r: Resource) returns (id: nat)
      requires Valid() && |liveConnections.Keys + liveListeners.Keys| < RING
      modifies this
      ensures Valid() && id !in old(liveConnections) && id !in old(liveListeners)
      ensures Allowed(old(S()), UdpConnect(r, id)) && S() == Next(old(S()), UdpConnect(r, id))
    {
      id := TakeLockAndGenerateNextID();
      liveUdpConnections := liveUdpConnections[id := r];
    }

    method CloseConnection(id: nat) returns (r: Option<Resource>)
      requires Valid()
      modifies this
      ensures Valid() && r == if id in old(liveConnections) then Some(old(liveConnections)[id]) else None
      ensures Allowed(old(S()), CloseConn(id)) && S() == Next(old(S()), CloseConn(id))
    {
      r := if id in liveConnections then Some(liveConnections[id]) else None;
      liveConnections := liveConnections - {id};
    }

    method CloseListener(id: nat) returns (r: Option<Resource>)
      requires Valid()
      modifies this
      ensures Valid() && r == if id in old(liveListeners) then Some(old(liveListeners)[id]) else None
      ensures Allowed(old(S()), CloseListen(id)) && S() == Next(old(S()), CloseListen(id))
    {
      r := if id in liveListeners then Some(liveListeners[id]) else None;
      liveListeners := liveListeners - {id};
    }

    method CloseUdpConnection(id: nat) returns (r: Option<Resource>)
      requires Valid()
      modifies this
      ensures Valid() && r == if id in old(liveUdpConnections) then Some(old(liveUdpConnections)[id]) else None
      ensures Allowed(old(S()), CloseUdp(id)) && S() == Next(old(S()), CloseUdp(id))
    {
      r := if id in liveUdpConnections then Some(liveUdpConnections[id]) else None;
      liveUdpConnections := liveUdpConnections - {id};
    }
  }

  /** Handles to try before reaching f, going up from c and around. */
  function Distance(c: nat, f: nat): nat
    requires c < RING && f < RING
  {
    if f > c then f - c else f + RING - c
  }

  lemma DistanceShrinks(c: nat, f: nat)
    requires c < RING && f < RING
    ensures Succ(c) < RING && (Succ(c) == f || Distance(Succ(c), f) == Distance(c, f) - 1)
    ensures Succ(c) == f ==> Distance(c, f) == 1
  {
  }

  /** The k handles after c are in use, n is the last of them, and the free handle f is still ahead. */
  ghost predicate Searching(used: set<nat>, c: nat, f: nat, k: nat, n: nat) {
    && c < RING && f < RING && f !in used && k < RING && n == Ahead(c, k) && n < RING
    && k + Distance(n, f) == Distance(c, f)
    && forall j: nat :: 1 <= j <= k ==> Ahead(c, j) in used
  }

  lemma SearchStep(used: set<nat>, c: nat, f: nat, k: nat, n: nat)
    requires Searching(used, c, f, k, n)
    ensures Succ(n) in used ==> Searching(used, c, f, k + 1, Succ(n)) && Distance(Succ(n), f) < Distance(n, f)
    ensures Succ(n) !in used ==> FreeAfter(used, c, Succ(n), k + 1)
  {
    DistanceShrinks(n, f);
    assert Succ(n) == Ahead(c, k + 1);
  }

  // ---------------------------------------------------------------- whole runs

  datatype Net = Net(last: nat, conns: map<nat, Resource>, listeners: map<nat, Resource>, udp: map<nat, Resource>)

  const EMPTY := Net(0, map[], map[], map[])

  /** A successful call with the handle it was given, or a close. */
  datatype Step =
    | Connect(r: Resource, id: nat)
    | Listen(r: Resource, id: nat)
    | UdpConnect(r: Resource, id: nat)
    | CloseConn(id: nat)
    | CloseListen(id: nat)
    | CloseUdp(id: nat)

  predicate Opens(step: Step) {
    step.Connect? || step.Listen? || step.UdpConnect?
  }

  ghost predicate Allowed(s: Net, step: Step) {
    s.last < RING &&
    (Opens(step) ==> FirstFree(s.conns.Keys + s.listeners.Keys, s.last, step.id))
  }

  function Next(s: Net, step: Step): Net {
    match step
    case Connect(r, id) => s.(last := id, conns := s.conns[id := r])
    case Listen(r, id) => s.(last := id, listeners := s.listeners[id := r])
    case UdpConnect(r, id) => s.(last := id, udp := s.udp[id := r])
    case CloseConn(id) => s.(conns := s.conns - {id})
    case CloseListen(id) => s.(listeners := s.listeners - {id})
    case CloseUdp(id) => s.(udp := s.udp - {id})
  }

  function After(steps: seq<Step>): Net {
    if steps == [] then EMPTY else Next(After(steps[..|steps| - 1]), steps[|steps| - 1])
  }

  ghost predicate Run(steps: seq<Step>) {
    steps == [] || (Run(steps[..|steps| - 1]) && Allowed(After(steps[..|steps| - 1]), steps[|steps| - 1]))
  }

  lemma FirstFreeIsFree(used: set<nat>, c: nat, id: nat)
    requires c < RING && FirstFree(used, c, id)
    ensures id < RING && id !in used
  {
  }

  /** Connections and listeners never share a handle, through any number of wrap-arounds. */
  lemma {:induction false} NeverShared(steps: seq<Step>)
    requires Run(steps)
    ensures After(steps).last < RING && After(steps).conns.Keys !! After(steps).listeners.Keys
  {
    if steps != [] {
      var s, step := After(steps[..|steps| - 1]), steps[|steps| - 1];
      NeverShared(steps[..|steps| - 1]);
      if Opens(step) {
        FirstFreeIsFree(s.conns.Keys + s.listeners.Keys, s.last, step.id);
      }
    }
  }

  /** A live connection or listener keeps its handle until that handle is closed: no other resource gets it. */
  lemma {:induction false} BoundUntilClosed(steps: seq<Step>, more: seq<Step>, id: nat)
    requires Run(steps + more)
    requires forall i :: 0 <= i < |more| ==> more[i] != CloseConn(id) && more[i] != CloseListen(id)
    ensures id in After(steps).conns ==>
              id in After(steps + more).conns && After(steps + more).conns[id] == After(steps).conns[id]
    ensures id in After(steps).listeners ==>
              id in After(steps + more).listeners && After(steps + more).listeners[id] == After(steps).listeners[id]
    decreases |more|
  {
    if more == [] {
      assert steps + more == steps;
    } else {
      var most, step := more[..|more| - 1], more[|more| - 1];
      assert (steps + more)[..|steps + more| - 1] == steps + most;
      BoundUntilClosed(steps, most, id);
      var s := After(steps + most);
      if Opens(step) {
        FirstFreeIsFree(s.conns.Keys + s.listeners.Keys, s.last, step.id);
      }
    }
  }

  // ---------------------------------------------------------------- the tables, by what happened

  datatype Kind = Connections | Listeners | UdpSockets

  function TableOf(s: Net, kind: Kind): map<nat, Resource> {
    match kind
    case Connections => s.conns
    case Listeners => s.listeners
    case UdpSockets => s.udp
  }

  predicate OpensAs(step: Step, kind: Kind, id: nat) {
    match kind
    case Connections => step.Connect? && step.id == id
    case Listeners => step.Listen? && step.id == id
    case UdpSockets => step.UdpConnect? && step.id == id
  }

  predicate ClosesAs(step: Step, kind: Kind, id: nat) {
    match kind
    case Connections => step == CloseConn(id)
    case Listeners => step == CloseListen(id)
    case UdpSockets => step == CloseUdp(id)
  }

  /** The i-th step bound the handle to r, and no later one closed it or bound it again. */
  ghost predicate BoundAt(steps: seq<Step>, kind: Kind, id: nat, r: Resource, i: nat) {
    && i < |steps| && OpensAs(steps[i], kind, id) && steps[i].r == r
    && forall j :: i < j < |steps| ==> !OpensAs(steps[j], kind, id) && !ClosesAs(steps[j], kind, id)
  }

  ghost predicate Bound(steps: seq<Step>, kind: Kind, id: nat, r: Resource) {
    exists i: nat :: BoundAt(steps, kind, id, r, i)
  }

  lemma BoundStep(steps: seq<Step>, kind: Kind, id: nat, r: Resource)
    requires steps != []
    ensures var before, step := steps[..|steps| - 1], steps[|steps| - 1];
            Bound(steps, kind, id, r) <==>
            (OpensAs(step, kind, id) && step.r == r) ||
            (Bound(before, kind, id, r) && !OpensAs(step, kind, id) && !ClosesAs(step, kind, id))
  {
    var before, step := steps[..|steps| - 1], steps[|steps| - 1];
    if Bound(steps, kind, id, r) {
      var i: nat :| BoundAt(steps, kind, id, r, i);
      assert i < |steps| - 1 ==> BoundAt(before, kind, id, r, i);
    }
    if OpensAs(step, kind, id) && step.r == r {
      assert BoundAt(steps, kind, id, r, |steps| - 1);
    }
    if Bound(before, kind, id, r) && !OpensAs(step, kind, id) && !ClosesAs(step, kind, id) {
      var i: nat :| BoundAt(before, kind, id, r, i);
      assert BoundAt(steps, kind, id, r, i);
    }
  }

  /** After any steps, a handle is bound in a table exactly to what the last open of that kind bound it to, unless it
      was closed since. */
  lemma {:induction false} TablesExactly(steps: seq<Step>, kind: Kind, id: nat, r: Resource)
    ensures var table := TableOf(After(steps), kind);
            (id in table && table[id] == r) <==> Bound(steps, kind, id, r)
  {
    if steps != [] {
      TablesExactly(steps[..|steps| - 1], kind, id, r);
      BoundStep(steps, kind, id, r);
    }
  }

  /** The search has one outcome: the handle at distance k is it exactly when that handle is free and all the nearer
      ones are in use. */
  lemma FirstFreeAt(used: set<nat>, c: nat, k: nat)
    requires c < RING && 1 <= k <= RING
    ensures FirstFree(used, c, Ahead(c, k)) <==>
            Ahead(c, k) !in used && forall j: nat :: 1 <= j < k ==> Ahead(c, j) in used
  {
    if FirstFree(used, c, Ahead(c, k)) {
      var n :| FreeAfter(used, c, Ahead(c, k), n);
      assert n == k;
    }
    if Ahead(c, k) !in used && forall j: nat :: 1 <= j < k ==> Ahead(c, j) in used {
      assert FreeAfter(used, c, Ahead(c, k), k);
    }
  }

  /** UDP has no such promise.  A handle that a UDP connection has, at whatever distance k from the counter, is given
      out again by the next open of any kind exactly when no connection or listener has it and each of the handles
      before it belongs to one.  A UDP connection then takes the place of the other; a connection or listener shares
      the handle with it. */
  lemma UdpHandleReused(s: Net, step: Step, k: nat)
    requires s.last < RING && 1 <= k <= RING && Opens(step) && step.id == Ahead(s.last, k) && step.id in s.udp
    ensures var used := s.conns.Keys + s.listeners.Keys;
            Allowed(s, step) <==> step.id !in used && forall j: nat :: 1 <= j < k ==> Ahead(s.last, j) in used
    ensures step.UdpConnect? ==> Next(s, step).udp == s.udp[step.id := step.r]
    ensures !step.UdpConnect? ==> Next(s, step).udp == s.udp
    ensures step.Connect? ==> step.id in Next(s, step).conns
    ensures step.Listen? ==> step.id in Next(s, step).listeners
  {
    FirstFreeAt(s.conns.Keys + s.listeners.Keys, s.last, k);
  }

  // ---------------------------------------------------------------- a run that gives a live UDP handle out again

  /** At no time have more than two UDP connections been live. */
  ghost predicate FewLive(steps: seq<Step>) {
    |After(steps).udp| <= 2 && (steps == [] || FewLive(steps[..|steps| - 1]))
  }

  /** The steps are a run with few live connections that ends in s. */
  ghost predicate Leads(steps: seq<Step>, s: Net) {
    Run(steps) && After(steps) == s && FewLive(steps)
  }

  lemma Append(steps: seq<Step>, s: Net, step: Step)
    requires Leads(steps, s) && Allowed(s, step) && |Next(s, step).udp| <= 2
    ensures Leads(steps + [step], Next(s, step))
  {
    assert (steps + [step])[..|steps + [step]| - 1] == steps;
  }

  /** One UDP connection that stays, and then others, each closed before the next is opened. */
  function Churn(n: nat): seq<Step>
    requires 1 <= n <= RING
  {
    if n == 1 then [] + [UdpConnect(1, 1)] else Churn(n - 1) + [UdpConnect(n, n % RING)] + [CloseUdp(n % RING)]
  }

  /** What is left after n of them: the counter has moved on, and the first connection is still there. */
  function Remains(n: nat): Net {
    Net(n % RING, map[], map[], map[1 := 1])
  }

  lemma SuccMod(n: nat)
    ensures Succ(n % RING) == (n + 1) % RING
    ensures 1 <= n < RING ==> (n + 1) % RING != 1
  {
  }

  lemma OpenNext(s: Net, r: Resource)
    requires s.last < RING && s.conns == map[] && s.listeners == map[]
    ensures Allowed(s, UdpConnect(r, Succ(s.last)))
  {
    assert FreeAfter(s.conns.Keys + s.listeners.Keys, s.last, Succ(s.last), 1);
  }

  lemma OpenAndClose(n: nat)
    requires 1 <= n < RING
    ensures var id := (n + 1) % RING;
            var open := Next(Remains(n), UdpConnect(n + 1, id));
            && Allowed(Remains(n), UdpConnect(n + 1, id)) && |open.udp| == 2
            && Allowed(open, CloseUdp(id)) && Next(open, CloseUdp(id)) == Remains(n + 1)
  {
    var id := (n + 1) % RING;
    SuccMod(n);
    OpenNext(Remains(n), n + 1);
    assert map[1 := 1][id := n + 1] - {id} == map[1 := 1];
    assert map[1 := 1][id := n + 1].Keys == {1, id};
  }

  lemma OneLive(r: Resource)
    ensures |map[1 := r]| == 1
  {
    assert map[1 := r].Keys == {1};
  }

  lemma ChurnFirst()
    ensures Leads(Churn(1), Remains(1))
  {
    OpenNext(EMPTY, 1);
    OneLive(1);
    Append([], EMPTY, UdpConnect(1, 1));
  }

  lemma {:induction false} ChurnRun(n: nat)
    requires 1 <= n <= RING
    ensures Leads(Churn(n), Remains(n))
  {
    if n == 1 {
      ChurnFirst();
    } else {
      ChurnRun(n - 1);
      ChurnStep(Churn(n - 1), n - 1);
    }
  }

  lemma ChurnStep(steps: seq<Step>, n: nat)
    requires 1 <= n < RING && Leads(steps, Remains(n))
    ensures var id := (n + 1) % RING;
            Leads(steps + [UdpConnect(n + 1, id)] + [CloseUdp(id)], Remains(n + 1))
  {
    var id := (n + 1) % RING;
    OpenAndClose(n);
    OneLive(1);
    Append(steps, Remains(n), UdpConnect(n + 1, id));
    Append(steps + [UdpConnect(n + 1, id)], Next(Remains(n), UdpConnect(n + 1, id)), CloseUdp(id));
  }

  lemma {:induction false} ChurnKeepsOne(n: nat)
    requires 1 <= n <= RING
    ensures forall i :: 0 <= i < |Churn(n)| ==> Churn(n)[i] != CloseUdp(1)
  {
    if n > 1 {
      ChurnKeepsOne(n - 1);
      SuccMod(n - 1);
    }
  }

  /** A run with never more than two live UDP connections that binds handle 1 to one of them and, without closing
      it, later to another. */
  lemma UdpHandleRebound() returns (steps: seq<Step>, again: Step)
    ensures Run(steps + [again]) && FewLive(steps + [again])
    ensures forall i :: 0 <= i < |steps| ==> steps[i] != CloseUdp(1)
    ensures again.UdpConnect? && again.id == 1 && again.r != 1
    ensures 1 in After(steps).udp && After(steps).udp[1] == 1 && After(steps + [again]).udp[1] == again.r
  {
    var n: nat := RING;
    steps, again := Churn(n), UdpConnect(n + 1, 1);
    ChurnRun(n);
    ChurnKeepsOne(n);
    SuccMod(n);
    OpenNext(Remains(n), n + 1);
    OneLive(n + 1);
    assert map[1 := 1][1 := n + 1] == map[1 := n + 1];
    Append(steps, Remains(n), again);
  }
}
