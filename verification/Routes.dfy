/** The route table: which client serves which method. */
module Routes {
  import opened Basics

  type Conn = nat

  /** Go strings are bytes, of any encoding. */
  type Name = seq<byte>

  datatype Event =
    | Register(c: Conn, m: Name)
    | Unregister(c: Conn, m: Name)
    | Reset(c: Conn)
    | Disconnect(c: Conn)

  type Table = map<Name, Conn>

  /** What the caller is told. */
  predicate Succeeds(routes: Table, e: Event) {
    match e
    case Register(c, m) => m !in routes || routes[m] == c
    case Unregister(c, m) => m in routes && routes[m] == c
    case _ => true
  }

  function Without(routes: Table, c: Conn): (r: Table)
    ensures forall m :: m in r <==> m in routes && routes[m] != c
    ensures forall m :: m in r ==> r[m] == routes[m]
  {
    map m | m in routes && routes[m] != c :: routes[m]
  }

  function Apply(routes: Table, e: Event): Table {
    match e
    case Register(c, m) => if m in routes then routes else routes[m := c]
    case Unregister(c, m) => if Succeeds(routes, e) then routes - {m} else routes
    case Reset(c) => Without(routes, c)
    case Disconnect(c) => Without(routes, c)
  }

  function TableAfter(hist: seq<Event>): Table {
    if hist == [] then map[] else Apply(TableAfter(hist[..|hist| - 1]), hist[|hist| - 1])
  }

  // ---------------------------------------------------------------- the table against the history

  predicate Releases(e: Event, c: Conn, m: Name) {
    e == Unregister(c, m) || e == Reset(c) || e == Disconnect(c)
  }

  /** Client c holds m after the first n events: some registration of it went through, because nobody else
      held m then, and c has not released m since.  Says nothing about any table. */
  ghost predicate Owns(hist: seq<Event>, n: nat, c: Conn, m: Name)
    requires n <= |hist|
    decreases n, 0
  {
    exists i :: 0 <= i < n && hist[i] == Register(c, m) && Free(hist, i, c, m)
             && forall j :: i < j < n ==> !Releases(hist[j], c, m)
  }

  ghost predicate Free(hist: seq<Event>, n: nat, c: Conn, m: Name)
    requires n <= |hist|
    decreases n, 1
  {
    forall other: Conn :: other != c ==> !Owns(hist, n, other, m)
  }

  lemma OwnsStep(hist: seq<Event>, n: nat, c: Conn, m: Name)
    requires n < |hist|
    ensures Owns(hist, n + 1, c, m) <==>
            (Owns(hist, n, c, m) && !Releases(hist[n], c, m)) || (hist[n] == Register(c, m) && Free(hist, n, c, m))
  {
    if Owns(hist, n + 1, c, m) {
      var i :| 0 <= i < n + 1 && hist[i] == Register(c, m) && Free(hist, i, c, m)
            && forall j :: i < j < n + 1 ==> !Releases(hist[j], c, m);
      if i < n {
        assert !Releases(hist[n], c, m);
      }
    }
  }

  /** After any history, a method is routed to a client exactly when the client holds it. */
  lemma {:induction false} TableIsHistory(hist: seq<Event>, n: nat, c: Conn, m: Name)
    requires n <= |hist|
    ensures (m in TableAfter(hist[..n]) && TableAfter(hist[..n])[m] == c) <==> Owns(hist, n, c, m)
    decreases n
  {
    if n > 0 {
      var k: nat := n - 1;
      var before := TableAfter(hist[..k]);
      assert hist[..n][..k] == hist[..k];
      OwnsStep(hist, k, c, m);
      TableIsHistory(hist, k, c, m);
      if m in before {
        TableIsHistory(hist, k, before[m], m);
      }
      forall other: Conn ensures Owns(hist, k, other, m) <==> m in before && before[m] == other {
        TableIsHistory(hist, k, other, m);
      }
    }
  }

  /** The table as a whole says who holds a method, and the holder is the only one. */
  lemma HolderIsRouted(hist: seq<Event>, m: Name)
    ensures forall c :: Owns(hist, |hist|, c, m) <==> m in TableAfter(hist) && TableAfter(hist)[m] == c
  {
    forall c ensures Owns(hist, |hist|, c, m) <==> m in TableAfter(hist) && TableAfter(hist)[m] == c {
      assert hist[..|hist|] == hist;
      TableIsHistory(hist, |hist|, c, m);
    }
  }

  /** What a client is told: a registration succeeds exactly when no other client holds the method, so the holder may
      register again; giving up a method succeeds exactly for its holder; the rest always succeeds. */
  lemma ToldExactly(hist: seq<Event>, c: Conn, m: Name)
    ensures Succeeds(TableAfter(hist), Register(c, m)) <==> Free(hist, |hist|, c, m)
    ensures Owns(hist, |hist|, c, m) ==> Succeeds(TableAfter(hist), Register(c, m))
    ensures Succeeds(TableAfter(hist), Unregister(c, m)) <==> Owns(hist, |hist|, c, m)
    ensures Succeeds(TableAfter(hist), Reset(c)) && Succeeds(TableAfter(hist), Disconnect(c))
  {
    HolderIsRouted(hist, m);
    FreeExactly(hist, c, m);
  }

  lemma FreeExactly(hist: seq<Event>, c: Conn, m: Name)
    ensures Free(hist, |hist|, c, m) <==> m !in TableAfter(hist) || TableAfter(hist)[m] == c
  {
    HolderIsRouted(hist, m);
    var table := TableAfter(hist);
    if m in table {
      assert Owns(hist, |hist|, table[m], m);
      if table[m] != c {
        assert !Free(hist, |hist|, c, m);
      } else {
        forall other: Conn | other != c ensures !Owns(hist, |hist|, other, m) {
        }
      }
    } else {
      forall other: Conn ensures !Owns(hist, |hist|, other, m) {
      }
    }
  }

  function ClientOf(e: Event): Conn { e.c }

  /** Nothing that other clients do, in any number, removes or takes over a route. */
  lemma {:induction false} OthersCannotInterfere(hist: seq<Event>, others: seq<Event>, c: Conn, m: Name)
    requires m in TableAfter(hist) && TableAfter(hist)[m] == c
    requires forall i :: 0 <= i < |others| ==> ClientOf(others[i]) != c
    ensures m in TableAfter(hist + others) && TableAfter(hist + others)[m] == c
    decreases |others|
  {
    if others == [] {
      assert hist + others == hist;
    } else {
      var k := |others| - 1;
      OthersCannotInterfere(hist, others[..k], c, m);
      assert (hist + others)[..|hist| + k] == hist + others[..k];
    }
  }

  // ---------------------------------------------------------------- the router's methods

  /** The routes of the running router, each method run under the routes lock. */
  class Router {
    var routes: Table
    ghost var history: seq<Event>

    ghost predicate Valid()
      reads this
    {
      routes == TableAfter(history)
    }

    constructor ()
      ensures Valid() && history == []
    {
      routes := map[];
      history := [];
    }

    ghost method Record(e: Event)
      requires routes == Apply(TableAfter(history), e)
      modifies `history
      ensures Valid() && history == old(history) + [e]
    {
      assert (history + [e])[..|history|] == history;
      history := history + [e];
    }

    method RegisterMethod(m: Name, c: Conn) returns (ok: bool)
      requires Valid()
      modifies this
      ensures Valid() && history == old(history) + [Register(c, m)]
      ensures ok <==> Free(old(history), |old(history)|, c, m)
      ensures ok ==> m in routes && routes[m] == c
    {
      ToldExactly(history, c, m);
      if m in routes {
        ok := routes[m] == c;
      } else {
        routes := routes[m := c];
        ok := true;
      }
      Record(Register(c, m));
    }

    method RemoveSingleMethodFromConnection(m: Name, c: Conn) returns (ok: bool)
      requires Valid()
      modifies this
      ensures Valid() && history == old(history) + [Unregister(c, m)]
      ensures ok <==> Owns(old(history), |old(history)|, c, m)
      ensures ok ==> m !in routes
    {
      ToldExactly(history, c, m);
      if m !in routes || routes[m] != c {
        ok := false;
      } else {
        routes := routes - {m};
        ok := true;
      }
      Record(Unregister(c, m));
    }

    method RemoveMethodsFromConnection(c: Conn, gone: bool)
      requires Valid()
      modifies this
      ensures Valid() && history == old(history) + [if gone then Disconnect(c) else Reset(c)]
      ensures forall m :: m in routes ==> routes[m] != c
    {
      routes := map m | m in routes && routes[m] != c :: routes[m];
      Record(if gone then Disconnect(c) else Reset(c));
    }

    method GetConnectionForMethod(m: Name) returns (c: Conn, ok: bool)
      requires Valid()
      ensures ok ==> Owns(history, |history|, c, m)
      ensures !ok ==> forall other: Conn :: !Owns(history, |history|, other, m)
    {
      ok := m in routes;
      c := if ok then routes[m] else 0;
      HolderIsRouted(history, m);
    }
  }
}
