/** UDP packets assembled from writes and read in pieces, for any sequence of calls one after the other. */
module Udp {
  import opened Basics

  type Address = nat

  /** The four tables that the UDP calls work on. */
  datatype Tables = Tables(live: set<nat>, inbox: map<nat, seq<byte>>,
                           targets: map<nat, Address>, outbox: map<nat, seq<byte>>)

  const EMPTY := Tables({}, map[], map[], map[])

  /** A call together with what it answered. */
  datatype Event =
    | Opened(id: nat)
    | Begun(id: nat, to: Address)
    | BeginRefused(id: nat)
    | Written(id: nat, data: seq<byte>)
    | WriteRefused(id: nat)
    | Sent(id: nat, to: Address, datagram: seq<byte>)
    | EndRefused(id: nat)
    | Awaited(id: nat, packet: seq<byte>)
    | AwaitFailed(id: nat)
    | Read(id: nat, max: nat, chunk: seq<byte>)
    | Dropped(id: nat)
    | Closed(id: nat)

  function Waiting(s: Tables, id: nat): seq<byte> {
    if id in s.inbox then s.inbox[id] else []
  }

  function Piece(s: Tables, id: nat, max: nat): seq<byte> {
    if |Waiting(s, id)| > max then Waiting(s, id)[..max] else Waiting(s, id)
  }

  /** Whether the call can have answered that.  Name resolution and the sockets may fail at any time. */
  predicate Possible(s: Tables, e: Event) {
    match e
    case Begun(id, _) => id in s.live
    case Written(id, _) => id in s.outbox
    case WriteRefused(id) => id !in s.outbox
    case Sent(id, to, datagram) =>
      id in s.live && id in s.outbox && datagram == s.outbox[id] && id in s.targets && to == s.targets[id]
    case EndRefused(id) => id !in s.live || id !in s.outbox
    case Awaited(id, _) => id in s.live
    case Read(id, max, chunk) => chunk == Piece(s, id, max)
    case _ => true
  }

  function NextLive(s: Tables, e: Event): set<nat> {
    match e
    case Opened(id) => s.live + {id}
    case Closed(id) => s.live - {id}
    case _ => s.live
  }

  function NextInbox(s: Tables, e: Event): map<nat, seq<byte>> {
    match e
    case Awaited(id, packet) => s.inbox[id := packet]
    case Read(id, max, _) => if |Waiting(s, id)| > max then s.inbox[id := Waiting(s, id)[max..]] else s.inbox - {id}
    case Dropped(id) => s.inbox - {id}
    case Closed(id) => s.inbox - {id}
    case _ => s.inbox
  }

  /** An end forgets the packet, also when there is none to send. */
  predicate Ends(s: Tables, e: Event) {
    e.Sent? || (e.EndRefused? && e.id in s.live)
  }

  function NextTargets(s: Tables, e: Event): map<nat, Address> {
    if e.Begun? then s.targets[e.id := e.to] else if Ends(s, e) then s.targets - {e.id} else s.targets
  }

  function NextOutbox(s: Tables, e: Event): map<nat, seq<byte>> {
    if e.Begun? then s.outbox[e.id := []]
    else if Ends(s, e) then s.outbox - {e.id}
    else if e.Written? && e.id in s.outbox then s.outbox[e.id := s.outbox[e.id] + e.data]
    else s.outbox
  }

  function Next(s: Tables, e: Event): Tables {
    Tables(NextLive(s, e), NextInbox(s, e), NextTargets(s, e), NextOutbox(s, e))
  }

  /** The tables after the first n calls. */
  function After(hist: seq<Event>, n: nat): Tables
    requires n <= |hist|
  {
    if n == 0 then EMPTY else Next(After(hist, n - 1), hist[n - 1])
  }

  /** Each of the first n calls answered what it could. */
  predicate Run(hist: seq<Event>, n: nat)
    requires n <= |hist|
  {
    n == 0 || (Run(hist, n - 1) && Possible(After(hist, n - 1), hist[n - 1]))
  }

  // ---------------------------------------------------------------- assembling a packet

  /** The last successful begin for id among the first n calls, unless its packet was sent since. */
  function LastBegin(hist: seq<Event>, n: nat, id: nat): (r: Option<nat>)
    requires n <= |hist|
    ensures r.Some? ==> r.value < n && hist[r.value].Begun? && hist[r.value].id == id
  {
    if n == 0 then None
    else if hist[n - 1].id == id && hist[n - 1].Begun? then Some(n - 1)
    else if hist[n - 1].id == id && hist[n - 1].Sent? then None
    else LastBegin(hist, n - 1, id)
  }

  /** Everything written for id in hist[from..n]. */
  function WrittenIn(hist: seq<Event>, from: nat, n: nat, id: nat): seq<byte>
    requires n <= |hist|
  {
    if n <= from then []
    else if hist[n - 1].Written? && hist[n - 1].id == id then WrittenIn(hist, from, n - 1, id) + hist[n - 1].data
    else WrittenIn(hist, from, n - 1, id)
  }

  /** A packet is being assembled exactly when it was begun and not sent; write buffers and targets have the same
      keys; the buffer is the concatenation of the writes since the begin, and the target is the begin's. */
  lemma {:induction false} Assembly(hist: seq<Event>, n: nat, id: nat)
    requires n <= |hist| && Run(hist, n)
    ensures var s, i := After(hist, n), LastBegin(hist, n, id);
            && (id in s.outbox <==> id in s.targets)
            && (id in s.outbox <==> i.Some?)
            && (id in s.outbox ==> s.outbox[id] == WrittenIn(hist, i.value + 1, n, id))
            && (id in s.outbox ==> s.targets[id] == hist[i.value].to)
  {
    if n > 0 {
      Assembly(hist, n - 1, id);
    }
  }

  /** Every datagram that leaves is the concatenation of the writes since the last successful begin, and goes
      where that begin said. */
  lemma SentIsWritten(hist: seq<Event>, n: nat)
    requires n < |hist| && Run(hist, n + 1) && hist[n].Sent?
    ensures var i := LastBegin(hist, n, hist[n].id);
            && i.Some?
            && hist[n].datagram == WrittenIn(hist, i.value + 1, n, hist[n].id)
            && hist[n].to == hist[i.value].to
  {
    Assembly(hist, n, hist[n].id);
  }

  // ---------------------------------------------------------------- reading a packet in pieces

  /** The last packet awaited for id among the first n calls, unless it was dropped or the handle closed since. */
  function LastAwait(hist: seq<Event>, n: nat, id: nat): (r: Option<nat>)
    requires n <= |hist|
    ensures r.Some? ==> r.value < n && hist[r.value].Awaited? && hist[r.value].id == id
  {
    if n == 0 then None
    else if hist[n - 1].id == id && hist[n - 1].Awaited? then Some(n - 1)
    else if hist[n - 1].id == id && (hist[n - 1].Dropped? || hist[n - 1].Closed?) then None
    else LastAwait(hist, n - 1, id)
  }

  /** Everything read for id in hist[from..n]. */
  function ReadIn(hist: seq<Event>, from: nat, n: nat, id: nat): seq<byte>
    requires n <= |hist|
  {
    if n <= from then []
    else if hist[n - 1].Read? && hist[n - 1].id == id then ReadIn(hist, from, n - 1, id) + hist[n - 1].chunk
    else ReadIn(hist, from, n - 1, id)
  }

  lemma PieceAndRest(s: Tables, e: Event)
    requires e.Read? && Possible(s, e)
    ensures |e.chunk| <= e.max && e.chunk + Waiting(Next(s, e), e.id) == Waiting(s, e.id)
  {
  }

  lemma OthersKeepWaiting(s: Tables, e: Event, id: nat)
    requires e.id != id || !(e.Awaited? || e.Read? || e.Dropped? || e.Closed?)
    ensures Waiting(Next(s, e), id) == Waiting(s, id)
  {
  }

  /** The pieces read of the packet being read, followed by what is still waiting, are that packet. */
  ghost predicate Whole(hist: seq<Event>, n: nat, id: nat)
    requires n <= |hist|
  {
    match LastAwait(hist, n, id)
    case None => Waiting(After(hist, n), id) == []
    case Some(i) => ReadIn(hist, i + 1, n, id) + Waiting(After(hist, n), id) == hist[i].packet
  }

  predicate Touches(e: Event, id: nat) {
    e.id == id && (e.Awaited? || e.Read? || e.Dropped? || e.Closed?)
  }

  lemma WholeUntouched(hist: seq<Event>, n: nat, id: nat)
    requires 0 < n <= |hist| && Whole(hist, n - 1, id) && !Touches(hist[n - 1], id)
    ensures Whole(hist, n, id)
  {
    OthersKeepWaiting(After(hist, n - 1), hist[n - 1], id);
    var i := LastAwait(hist, n - 1, id);
    assert LastAwait(hist, n, id) == i;
    if i.Some? {
      assert ReadIn(hist, i.value + 1, n, id) == ReadIn(hist, i.value + 1, n - 1, id);
    }
  }

  lemma WholeRead(hist: seq<Event>, n: nat, id: nat)
    requires 0 < n <= |hist| && Whole(hist, n - 1, id) && hist[n - 1].Read? && hist[n - 1].id == id
    requires Possible(After(hist, n - 1), hist[n - 1])
    ensures Whole(hist, n, id)
  {
    var s, e, i := After(hist, n - 1), hist[n - 1], LastAwait(hist, n - 1, id);
    PieceAndRest(s, e);
    if i.Some? {
      var read := ReadIn(hist, i.value + 1, n - 1, id);
      Assoc(read, e.chunk, Waiting(Next(s, e), id));
    }
  }

  lemma WholeReset(hist: seq<Event>, n: nat, id: nat)
    requires 0 < n <= |hist| && Touches(hist[n - 1], id) && !hist[n - 1].Read?
    ensures Whole(hist, n, id)
  {
    if hist[n - 1].Awaited? {
      assert ReadIn(hist, n, n, id) == [];
      assert [] + hist[n - 1].packet == hist[n - 1].packet;
    }
  }

  /** Whatever sizes are asked for, the pieces read so far followed by what is still waiting are the awaited packet,
      until the next await, drop or close; nothing is waiting when no packet is. */
  lemma {:induction false} Pieces(hist: seq<Event>, n: nat, id: nat)
    requires n <= |hist| && Run(hist, n)
    ensures Whole(hist, n, id)
  {
    if n > 0 {
      Pieces(hist, n - 1, id);
      if !Touches(hist[n - 1], id) {
        WholeUntouched(hist, n, id);
      } else if hist[n - 1].Read? {
        WholeRead(hist, n, id);
      } else {
        WholeReset(hist, n, id);
      }
    }
  }

  /** The bytes of the last awaited packet that have not been read; none when no packet was awaited, or it was dropped
      or its handle closed. */
  function Unread(hist: seq<Event>, n: nat, id: nat): seq<byte>
    requires n <= |hist|
  {
    match LastAwait(hist, n, id)
    case None => []
    case Some(i) =>
      var read := |ReadIn(hist, i + 1, n, id)|;
      if read <= |hist[i].packet| then hist[i].packet[read..] else []
  }

  lemma UnreadIsWaiting(hist: seq<Event>, n: nat, id: nat)
    requires n <= |hist| && Run(hist, n)
    ensures Unread(hist, n, id) == Waiting(After(hist, n), id)
  {
    Pieces(hist, n, id);
    var i := LastAwait(hist, n, id);
    if i.Some? {
      var read := ReadIn(hist, i.value + 1, n, id);
      assert (read + Waiting(After(hist, n), id))[|read|..] == Waiting(After(hist, n), id);
    }
  }

  /** In every run a read returns the next bytes of the packet: as many as were asked for, or all that are left. */
  lemma ReadExactly(hist: seq<Event>, n: nat)
    requires n < |hist| && Run(hist, n + 1) && hist[n].Read?
    ensures var left := Unread(hist, n, hist[n].id);
            && |hist[n].chunk| == Min(hist[n].max, |left|)
            && hist[n].chunk <= left
  {
    UnreadIsWaiting(hist, n, hist[n].id);
  }

  /** How many of the calls hist[from..n] are reads for id. */
  function ReadsIn(hist: seq<Event>, from: nat, n: nat, id: nat): nat
    requires n <= |hist|
  {
    if n <= from then 0
    else ReadsIn(hist, from, n - 1, id) + if hist[n - 1].Read? && hist[n - 1].id == id then 1 else 0
  }

  function Min(a: nat, b: nat): nat { if a < b then a else b }

  /** Reads of m bytes each get through a packet: after k of them k m bytes have been read, or the whole packet, so
      that a packet is used up after its length divided by m, rounded up. */
  lemma {:induction false} ReadsAddUp(hist: seq<Event>, n: nat, id: nat, i: nat, m: nat)
    requires n <= |hist| && Run(hist, n) && LastAwait(hist, n, id) == Some(i)
    requires forall j :: i < j < n && hist[j].Read? && hist[j].id == id ==> hist[j].max == m
    ensures |ReadIn(hist, i + 1, n, id)| == Min(ReadsIn(hist, i + 1, n, id) * m, |hist[i].packet|)
    decreases n
  {
    if n > i + 1 {
      var k := ReadsIn(hist, i + 1, n - 1, id);
      assert LastAwait(hist, n - 1, id) == Some(i);
      ReadsAddUp(hist, n - 1, id, i, m);
      if hist[n - 1].Read? && hist[n - 1].id == id {
        ReadExactly(hist, n - 1);
        OneMore(k, m);
      }
    } else {
      assert ReadIn(hist, i + 1, n, id) == [];
    }
  }

  lemma OneMore(k: nat, m: nat)
    ensures (k + 1) * m == k * m + m
  {
  }

  // ---------------------------------------------------------------- which calls are refused

  /** The handle was opened and not closed since. */
  ghost predicate LiveAt(hist: seq<Event>, n: nat, id: nat)
    requires n <= |hist|
  {
    exists i :: 0 <= i < n && hist[i] == Opened(id) && forall j :: i < j < n ==> hist[j] != Closed(id)
  }

  lemma {:induction false} LiveExactly(hist: seq<Event>, n: nat, id: nat)
    requires n <= |hist|
    ensures id in After(hist, n).live <==> LiveAt(hist, n, id)
    decreases n
  {
    if n > 0 {
      LiveExactly(hist, n - 1, id);
      if LiveAt(hist, n - 1, id) && hist[n - 1] != Closed(id) {
        var i :| 0 <= i < n - 1 && hist[i] == Opened(id) && forall j :: i < j < n - 1 ==> hist[j] != Closed(id);
        assert forall j :: i < j < n ==> hist[j] != Closed(id);
      }
      if LiveAt(hist, n, id) && hist[n - 1] != Opened(id) {
        var i :| 0 <= i < n && hist[i] == Opened(id) && forall j :: i < j < n ==> hist[j] != Closed(id);
        assert i < n - 1 && hist[n - 1] != Closed(id);
      }
    }
  }

  /** In every run: what a call answers, by what happened before it.  A write needs a packet that was begun and not
      sent since, an end such a packet and a live handle, a begin and an await a live handle. */
  lemma AnsweredExactly(hist: seq<Event>, n: nat)
    requires n < |hist| && Run(hist, n + 1)
    ensures var id, begun := hist[n].id, LastBegin(hist, n, hist[n].id).Some?;
            && (hist[n].Begun? || hist[n].Awaited? ==> LiveAt(hist, n, id))
            && (hist[n].Written? ==> begun) && (hist[n].WriteRefused? ==> !begun)
            && (hist[n].Sent? ==> begun && LiveAt(hist, n, id))
            && (hist[n].EndRefused? ==> !(begun && LiveAt(hist, n, id)))
  {
    Assembly(hist, n, hist[n].id);
    LiveExactly(hist, n, hist[n].id);
  }

  // ---------------------------------------------------------------- the calls

  /** The package's tables and the calls on them; sockets and name resolution are the callers' arguments. */
  class Calls {
    var live: set<nat>
    var udpReadBuffers: map<nat, seq<byte>>
    var udpWriteTargets: map<nat, Address>
    var udpWriteBuffers: map<nat, seq<byte>>

    ghost function S(): Tables
      reads this
    {
      Tables(live, udpReadBuffers, udpWriteTargets, udpWriteBuffers)
    }

    /** A packet that is being assembled has a buffer and a target. */
    ghost predicate Valid()
      reads this
    {
      udpWriteBuffers.Keys == udpWriteTargets.Keys
    }

    constructor ()
      ensures Valid() && S() == EMPTY
    {
      live := {};
      udpReadBuffers, udpWriteTargets, udpWriteBuffers := map[], map[], map[];
    }

    method BeginPacket(id: nat, resolved: Option<Address>) returns (e: Event)
      requires Valid()
      modifies this
      ensures Valid() && Possible(old(S()), e) && S() == Next(old(S()), e)
      ensures e == if id in old(live) && resolved.Some? then Begun(id, resolved.value) else BeginRefused(id)
    {
      if id !in live || resolved == None {
        return BeginRefused(id);
      }
      udpWriteTargets := udpWriteTargets[id := resolved.value];
      udpWriteBuffers := udpWriteBuffers[id := []];
      e := Begun(id, resolved.value);
    }

    method Write(id: nat, data: seq<byte>) returns (e: Event)
      requires Valid()
      modifies this
      ensures Valid() && Possible(old(S()), e) && S() == Next(old(S()), e)
      ensures e == if id in old(udpWriteBuffers) then Written(id, data) else WriteRefused(id)
    {
      if id !in udpWriteBuffers {
        return WriteRefused(id);
      }
      udpWriteBuffers := udpWriteBuffers[id := udpWriteBuffers[id] + data];
      e := Written(id, data);
    }

    /** The datagram is handed to the socket; whether the socket takes it changes nothing here. */
    method EndPacket(id: nat) returns (e: Event)
      requires Valid()
      modifies this
      ensures Valid() && Possible(old(S()), e) && S() == Next(old(S()), e)
      ensures e == if id in old(live) && id in old(udpWriteBuffers) then
                     Sent(id, old(udpWriteTargets)[id], old(udpWriteBuffers)[id])
                   else EndRefused(id)
    {
      if id !in live {
        return EndRefused(id);
      }
      e := if id in udpWriteBuffers then Sent(id, udpWriteTargets[id], udpWriteBuffers[id]) else EndRefused(id);
      udpWriteBuffers := udpWriteBuffers - {id};
      udpWriteTargets := udpWriteTargets - {id};
    }

    method AwaitPacket(id: nat, received: Option<seq<byte>>) returns (e: Event)
      requires Valid()
      modifies this
      ensures Valid() && Possible(old(S()), e) && S() == Next(old(S()), e)
      ensures e == if id in old(live) && received.Some? then Awaited(id, received.value) else AwaitFailed(id)
    {
      if id !in live || received == None {
        return AwaitFailed(id);
      }
      udpReadBuffers := udpReadBuffers[id := received.value];
      e := Awaited(id, received.value);
    }

    method ReadPacket(id: nat, maxBytes: nat) returns (e: Event)
      requires Valid()
      modifies this
      ensures Valid() && Possible(old(S()), e) && S() == Next(old(S()), e)
      ensures e == Read(id, maxBytes, Piece(old(S()), id, maxBytes))
    {
      var buffer := if id in udpReadBuffers then udpReadBuffers[id] else [];
      var n := |buffer|;
      if id in udpReadBuffers {
        if n > maxBytes {
          udpReadBuffers := udpReadBuffers[id := buffer[maxBytes..]];
          n := maxBytes;
        } else {
          udpReadBuffers := udpReadBuffers - {id};
        }
      } else {
        assert udpReadBuffers - {id} == udpReadBuffers;
      }
      assert buffer[..|buffer|] == buffer;
      e := Read(id, maxBytes, buffer[..n]);
    }

    method DropPacket(id: nat) returns (e: Event)
      requires Valid()
      modifies this
      ensures Valid() && Possible(old(S()), e) && S() == Next(old(S()), e) && e == Dropped(id)
    {
      udpReadBuffers := udpReadBuffers - {id};
      e := Dropped(id);
    }

    /** Leaves a packet that is being assembled where it is. */
    method Close(id: nat) returns (e: Event)
      requires Valid()
      modifies this
      ensures Valid() && Possible(old(S()), e) && S() == Next(old(S()), e) && e == Closed(id)
    {
      live := live - {id};
      udpReadBuffers := udpReadBuffers - {id};
      e := Closed(id);
    }
  }
}
