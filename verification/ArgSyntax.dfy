/** The argument language as it is written, and the parser against it: exactly which words are read as which value. */
module ArgSyntax {
  import opened Basics
  import opened ComposeArgs

  // ---------------------------------------------------------------- what can be written, and what it means

  /** A value as it is written: any word that stands for a scalar, a list, or keys and values in order. */
  datatype Expr = Word(w: string) | Arr(items: seq<Expr>) | Obj(entries: seq<Expr>)

  /** Words mean scalars.  A closing bracket can be a string, but not where it would close the list or map. */
  predicate Writable(lib: FloatParsers, e: Expr) {
    match e
    case Word(w) => Lex(lib, w).Value?
    case Arr(items) => Items(lib, items)
    case Obj(entries) => Entries(lib, entries)
  }

  predicate Items(lib: FloatParsers, es: seq<Expr>) {
    es == [] || (Writable(lib, es[0]) && es[0] != Word("]") && Items(lib, es[1..]))
  }

  predicate Entries(lib: FloatParsers, es: seq<Expr>) {
    es == [] ||
    (|es| >= 2 && Writable(lib, es[0]) && es[0] != Word("}") && Writable(lib, es[1]) && Entries(lib, es[2..]))
  }

  predicate Key(lib: FloatParsers, e: Expr) {
    Writable(lib, e) && e != Word("}")
  }

  function Render(e: Expr): (words: seq<string>)
    ensures |words| >= 1
    ensures words[0] == match e case Word(w) => w case Arr(_) => "[" case Obj(_) => "{"
  {
    match e
    case Word(w) => [w]
    case Arr(items) => ["["] + (RenderAll(items) + ["]"])
    case Obj(entries) => ["{"] + (RenderAll(entries) + ["}"])
  }

  function RenderAll(es: seq<Expr>): seq<string> {
    if es == [] then [] else Render(es[0]) + RenderAll(es[1..])
  }

  /** What a written value stands for; None when some key is not a scalar.  A later key replaces an earlier one. */
  function Meaning(lib: FloatParsers, e: Expr): Option<Arg> {
    match e
    case Word(w) => (match Lex(lib, w) case Value(a) => Some(Scalar(a)) case _ => None)
    case Arr(items) => (match Meanings(lib, items, []) case Some(vs) => Some(List(vs)) case None => None)
    case Obj(entries) => (match DictMeaning(lib, entries, map[]) case Some(m) => Some(Dict(m)) case None => None)
  }

  function Meanings(lib: FloatParsers, es: seq<Expr>, acc: seq<Arg>): Option<seq<Arg>> {
    if es == [] then Some(acc) else
    match Meaning(lib, es[0])
    case Some(v) => Meanings(lib, es[1..], acc + [v])
    case None => None
  }

  function DictMeaning(lib: FloatParsers, es: seq<Expr>, acc: map<Atom, Arg>): Option<map<Atom, Arg>> {
    if |es| < 2 then Some(acc) else
    match (Meaning(lib, es[0]), Meaning(lib, es[1]))
    case (Some(key), Some(v)) => if key.Scalar? then DictMeaning(lib, es[2..], acc[key.a := v]) else None
    case _ => None
  }

  /** A list means the list of what its items mean, in order. */
  lemma {:induction false} ListMeaning(lib: FloatParsers, es: seq<Expr>, acc: seq<Arg>, vs: seq<Arg>)
    requires Meanings(lib, es, acc) == Some(vs)
    ensures |vs| == |acc| + |es| && acc <= vs
    ensures forall i :: 0 <= i < |es| ==> Meaning(lib, es[i]) == Some(vs[|acc| + i])
  {
    if es != [] {
      var v := Meaning(lib, es[0]).value;
      ListMeaning(lib, es[1..], acc + [v], vs);
      forall i | 0 <= i < |es| ensures Meaning(lib, es[i]) == Some(vs[|acc| + i]) {
        if i == 0 {
          assert vs[|acc|] == (acc + [v])[|acc|];
        } else {
          assert es[1..][i - 1] == es[i];
        }
      }
    }
  }

  /** The n-th entry, counting from 0, has the key a. */
  predicate KeyAt(lib: FloatParsers, es: seq<Expr>, n: nat, a: Atom) {
    2 * n + 1 < |es| && Meaning(lib, es[2 * n]) == Some(Scalar(a))
  }

  ghost predicate HasKey(lib: FloatParsers, es: seq<Expr>, a: Atom) {
    exists n: nat :: KeyAt(lib, es, n, a)
  }

  /** The n-th entry is the last one with the key a. */
  ghost predicate LastKeyAt(lib: FloatParsers, es: seq<Expr>, n: nat, a: Atom) {
    KeyAt(lib, es, n, a) && forall j: nat :: n < j ==> !KeyAt(lib, es, j, a)
  }

  lemma EntryBehind(lib: FloatParsers, es: seq<Expr>, n: nat, a: Atom)
    requires |es| >= 2
    ensures KeyAt(lib, es, n + 1, a) <==> KeyAt(lib, es[2..], n, a)
    ensures 2 * n + 3 < |es| ==> es[2 * (n + 1) + 1] == es[2..][2 * n + 1]
  {
  }

  /** A map has exactly the keys of its entries, and under each what the last entry with that key means. */
  lemma {:induction false} DictHolds(lib: FloatParsers, es: seq<Expr>, acc: map<Atom, Arg>, m: map<Atom, Arg>, a: Atom)
    requires DictMeaning(lib, es, acc) == Some(m)
    ensures a in m <==> a in acc || HasKey(lib, es, a)
    ensures forall n: nat :: LastKeyAt(lib, es, n, a) ==> a in m && Meaning(lib, es[2 * n + 1]) == Some(m[a])
    ensures !HasKey(lib, es, a) && a in acc ==> a in m && m[a] == acc[a]
  {
    if |es| >= 2 {
      var key, v := Meaning(lib, es[0]).value.a, Meaning(lib, es[1]).value;
      DictHolds(lib, es[2..], acc[key := v], m, a);
      HasKeyStep(lib, es, a);
      forall n: nat | LastKeyAt(lib, es, n, a) ensures a in m && Meaning(lib, es[2 * n + 1]) == Some(m[a]) {
        LastKeyStep(lib, es, n, a);
        if n > 0 {
          EntryBehind(lib, es, n - 1, a);
        }
      }
    }
  }

  lemma HasKeyStep(lib: FloatParsers, es: seq<Expr>, a: Atom)
    requires |es| >= 2
    ensures HasKey(lib, es, a) <==> KeyAt(lib, es, 0, a) || HasKey(lib, es[2..], a)
  {
    if HasKey(lib, es, a) {
      var n: nat :| KeyAt(lib, es, n, a);
      if n > 0 {
        EntryBehind(lib, es, n - 1, a);
      }
    }
    if HasKey(lib, es[2..], a) {
      var n: nat :| KeyAt(lib, es[2..], n, a);
      EntryBehind(lib, es, n, a);
    }
  }

  lemma LastKeyStep(lib: FloatParsers, es: seq<Expr>, n: nat, a: Atom)
    requires |es| >= 2 && LastKeyAt(lib, es, n, a)
    ensures if n == 0 then !HasKey(lib, es[2..], a) else LastKeyAt(lib, es[2..], n - 1, a)
  {
    if n > 0 {
      EntryBehind(lib, es, n - 1, a);
    }
    forall j: nat | n <= j ensures !KeyAt(lib, es[2..], j, a) {
      EntryBehind(lib, es, j, a);
    }
  }

  // ---------------------------------------------------------------- parsing inverts rendering

  function Expected(v: Option<Arg>, rest: seq<string>): Result {
    match v
    case Some(v) => Ok(v, rest)
    case None => Panic
  }

  /** Parsing inverts rendering: the value that was written and exactly the words that follow. */
  lemma {:induction false} ParseInvertsRender(lib: FloatParsers, e: Expr, rest: seq<string>)
    requires Writable(lib, e)
    ensures Compose(lib, Render(e) + rest) == Expected(Meaning(lib, e), rest)
    decreases e, 1
  {
    match e
    case Word(w) =>
      assert (Render(e) + rest)[1..] == rest;
    case Arr(items) =>
      assert (Render(e) + rest)[1..] == RenderAll(items) + (["]"] + rest);
      ListPrefix(lib, items, [], ["]"] + rest);
      assert (["]"] + rest)[1..] == rest;
    case Obj(entries) =>
      assert (Render(e) + rest)[1..] == RenderAll(entries) + (["}"] + rest);
      DictPrefix(lib, entries, map[], ["}"] + rest);
      assert (["}"] + rest)[1..] == rest;
  }

  /** Items that were written are read one after the other, whatever comes next. */
  lemma {:induction false} ListPrefix(lib: FloatParsers, es: seq<Expr>, acc: seq<Arg>, after: seq<string>)
    requires Items(lib, es)
    ensures ComposeList(lib, RenderAll(es) + after, acc) ==
            (match Meanings(lib, es, acc) case Some(vs) => ComposeList(lib, after, vs) case None => Panic)
    decreases es, 0
  {
    if es == [] {
      assert RenderAll(es) + after == after;
    } else {
      var next := RenderAll(es[1..]) + after;
      assert RenderAll(es) + after == Render(es[0]) + next;
      ParseInvertsRender(lib, es[0], next);
      if Meaning(lib, es[0]).Some? {
        ListPrefix(lib, es[1..], acc + [Meaning(lib, es[0]).value], after);
      }
    }
  }

  lemma RenderTwo(es: seq<Expr>, after: seq<string>)
    requires |es| >= 2
    ensures RenderAll(es) + after == Render(es[0]) + (Render(es[1]) + (RenderAll(es[2..]) + after))
  {
    assert es[1..][0] == es[1] && es[1..][1..] == es[2..];
  }

  lemma {:induction false} DictPrefix(lib: FloatParsers, es: seq<Expr>, acc: map<Atom, Arg>, after: seq<string>)
    requires Entries(lib, es)
    ensures ComposeDict(lib, RenderAll(es) + after, acc) ==
            (match DictMeaning(lib, es, acc) case Some(m) => ComposeDict(lib, after, m) case None => Panic)
    decreases es, 0
  {
    if es == [] {
      assert RenderAll(es) + after == after;
    } else {
      var next := RenderAll(es[2..]) + after;
      RenderTwo(es, after);
      ParseInvertsRender(lib, es[0], Render(es[1]) + next);
      ParseInvertsRender(lib, es[1], next);
      DictPair(lib, es[0], es[1], acc, next);
      if Storable(lib, es[0], es[1]) {
        DictPrefix(lib, es[2..], acc[Meaning(lib, es[0]).value.a := Meaning(lib, es[1]).value], after);
      }
    }
  }

  /** Key and value have a meaning, and the key can be a map key. */
  predicate Storable(lib: FloatParsers, k: Expr, v: Expr) {
    Meaning(lib, k).Some? && Meaning(lib, k).value.Scalar? && Meaning(lib, v).Some?
  }

  lemma DictPair(lib: FloatParsers, k: Expr, v: Expr, acc: map<Atom, Arg>, next: seq<string>)
    requires Key(lib, k)
    requires Compose(lib, Render(k) + (Render(v) + next)) == Expected(Meaning(lib, k), Render(v) + next)
    requires Compose(lib, Render(v) + next) == Expected(Meaning(lib, v), next)
    ensures ComposeDict(lib, Render(k) + (Render(v) + next), acc) ==
            if Storable(lib, k, v) then ComposeDict(lib, next, acc[Meaning(lib, k).value.a := Meaning(lib, v).value])
            else Panic
  {
  }

  // ---------------------------------------------------------------- rendering inverts parsing

  /** Whatever the parser reads was written: the words used are the rendering of something that means the value. */
  lemma {:induction false} RenderInvertsParse(lib: FloatParsers, args: seq<string>) returns (e: Expr)
    requires Compose(lib, args).Ok?
    ensures Writable(lib, e) && Meaning(lib, e) == Some(Compose(lib, args).v)
    ensures args == Render(e) + Compose(lib, args).rest
    decreases |args|, 0
  {
    if Lex(lib, args[0]).OpenList? {
      var items := ListRead(lib, args[1..], []);
      e := Arr(items);
      Enclosed(args, RenderAll(items), "]", Compose(lib, args).rest);
    } else if Lex(lib, args[0]).OpenDict? {
      var entries := DictRead(lib, args[1..], map[]);
      e := Obj(entries);
      Enclosed(args, RenderAll(entries), "}", Compose(lib, args).rest);
    } else {
      e := Word(args[0]);
      assert args == [args[0]] + args[1..];
    }
  }

  lemma Enclosed(args: seq<string>, words: seq<string>, close: string, rest: seq<string>)
    requires args != [] && args[1..] == words + ([close] + rest)
    ensures args == ([args[0]] + (words + [close])) + rest
  {
    assert args == [args[0]] + args[1..];
  }

  lemma {:induction false} ListRead(lib: FloatParsers, args: seq<string>, acc: seq<Arg>) returns (es: seq<Expr>)
    requires ComposeList(lib, args, acc).Ok?
    ensures Items(lib, es) && ComposeList(lib, args, acc).v.List?
    ensures Meanings(lib, es, acc) == Some(ComposeList(lib, args, acc).v.items)
    ensures args == RenderAll(es) + (["]"] + ComposeList(lib, args, acc).rest)
    decreases |args|, 1
  {
    if args[0] == "]" {
      es := [];
    } else {
      var Ok(v, next) := Compose(lib, args);
      var e := RenderInvertsParse(lib, args);
      var more := ListRead(lib, next, acc + [v]);
      es := [e] + more;
      assert es[1..] == more;
      Assoc(Render(e), RenderAll(more), ["]"] + ComposeList(lib, args, acc).rest);
    }
  }

  lemma {:induction false} DictRead(lib: FloatParsers, args: seq<string>, acc: map<Atom, Arg>) returns (es: seq<Expr>)
    requires ComposeDict(lib, args, acc).Ok?
    ensures Entries(lib, es) && ComposeDict(lib, args, acc).v.Dict?
    ensures DictMeaning(lib, es, acc) == Some(ComposeDict(lib, args, acc).v.m)
    ensures args == RenderAll(es) + (["}"] + ComposeDict(lib, args, acc).rest)
    decreases |args|, 1
  {
    if args[0] == "}" {
      es := [];
    } else {
      var Ok(key, next) := Compose(lib, args);
      var Ok(v, after) := Compose(lib, next);
      var k := RenderInvertsParse(lib, args);
      var x := RenderInvertsParse(lib, next);
      var more := DictRead(lib, after, acc[key.a := v]);
      es := [k, x] + more;
      assert es[2..] == more;
      RenderTwo(es, ["}"] + ComposeDict(lib, args, acc).rest);
    }
  }

  ghost predicate Writes(lib: FloatParsers, e: Expr, args: seq<string>, v: Arg, rest: seq<string>) {
    Writable(lib, e) && Meaning(lib, e) == Some(v) && args == Render(e) + rest
  }

  /** The parser reads v from the words and leaves rest exactly when the words are v written down, and then rest. */
  lemma ReadsExactly(lib: FloatParsers, args: seq<string>, v: Arg, rest: seq<string>)
    ensures Compose(lib, args) == Ok(v, rest) <==> exists e :: Writes(lib, e, args, v, rest)
  {
    if Compose(lib, args) == Ok(v, rest) {
      var e := RenderInvertsParse(lib, args);
      assert Writes(lib, e, args, v, rest);
    }
    if e :| Writes(lib, e, args, v, rest) {
      ParseInvertsRender(lib, e, rest);
    }
  }

  // ---------------------------------------------------------------- bracketed keys

  /** Some key, at any depth, is written as a list or a map. */
  predicate BracketKey(e: Expr) {
    match e
    case Word(_) => false
    case Arr(items) => BracketKeyIn(items)
    case Obj(entries) => BracketKeyAmong(entries)
  }

  predicate BracketKeyIn(es: seq<Expr>) {
    es != [] && (BracketKey(es[0]) || BracketKeyIn(es[1..]))
  }

  predicate BracketKeyAmong(entries: seq<Expr>) {
    |entries| >= 2 && (!entries[0].Word? || BracketKey(entries[1]) || BracketKeyAmong(entries[2..]))
  }

  lemma {:induction false} MeaningExists(lib: FloatParsers, e: Expr)
    requires Writable(lib, e)
    ensures Meaning(lib, e).Some? <==> !BracketKey(e)
    ensures Meaning(lib, e).Some? ==> (Meaning(lib, e).value.Scalar? <==> e.Word?)
    decreases e, 1
  {
    match e
    case Word(w) =>
    case Arr(items) => MeaningsExist(lib, items, []);
    case Obj(entries) => DictMeaningExists(lib, entries, map[]);
  }

  lemma {:induction false} MeaningsExist(lib: FloatParsers, es: seq<Expr>, acc: seq<Arg>)
    requires Items(lib, es)
    ensures Meanings(lib, es, acc).Some? <==> !BracketKeyIn(es)
    decreases es, 0
  {
    if es != [] {
      MeaningExists(lib, es[0]);
      if Meaning(lib, es[0]).Some? {
        MeaningsExist(lib, es[1..], acc + [Meaning(lib, es[0]).value]);
      }
    }
  }

  lemma {:induction false} DictMeaningExists(lib: FloatParsers, es: seq<Expr>, acc: map<Atom, Arg>)
    requires Entries(lib, es)
    ensures DictMeaning(lib, es, acc).Some? <==> !BracketKeyAmong(es)
    decreases es, 0
  {
    if es != [] {
      MeaningExists(lib, es[0]);
      MeaningExists(lib, es[1]);
      if Storable(lib, es[0], es[1]) {
        DictMeaningExists(lib, es[2..], acc[Meaning(lib, es[0]).value.a := Meaning(lib, es[1]).value]);
      }
    }
  }
}
