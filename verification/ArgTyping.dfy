/** Every nested value with scalar keys can be typed on the command line. */
module ArgTyping {
  import opened Basics
  import opened ComposeArgs
  import opened ArgSyntax
  import opened ArgWords

  function Digit(n: nat): char
    requires n < 10
  {
    ('0' as int + n) as char
  }

  function Digits(n: nat): (s: string)
    ensures s != "" && AllDigits(s)
  {
    if n < 10 then [Digit(n)] else Digits(n / 10) + [Digit(n % 10)]
  }

  lemma {:induction false} DecimalInvertsDigits(n: nat)
    ensures Decimal(Digits(n)) == n
  {
    var s := Digits(n);
    if n < 10 {
      assert s[..|s| - 1] == "";
    } else {
      DecimalInvertsDigits(n / 10);
      assert s[..|s| - 1] == Digits(n / 10);
    }
  }

  function Itoa(i: int): string {
    if i < 0 then "-" + Digits(-i) else Digits(i)
  }

  /** Every 64-bit integer survives printing and reading. */
  lemma AtoiInvertsItoa(i: int)
    requires -MAX_INT64 - 1 <= i <= MAX_INT64
    ensures Atoi(Itoa(i)) == Some(i)
  {
    if i < 0 {
      DecimalInvertsDigits(-i);
      assert Itoa(i)[1..] == Digits(-i);
    } else {
      DecimalInvertsDigits(i);
      assert IsDigit(Digits(i)[0]);
    }
  }

  ghost predicate Spellable(lib: FloatParsers, a: Atom) {
    && (a.Int? ==> -MAX_INT64 - 1 <= a.i <= MAX_INT64)
    && (a.F32? ==> exists text :: lib.f32(text) == Some(a.bits))
    && (a.F64? ==> exists text :: lib.f64(text) == Some(a.bits))
  }

  /** A word for a scalar: strings take the explicit prefix, so that no string is mistaken for anything else. */
  lemma Spelling(lib: FloatParsers, a: Atom) returns (w: string)
    requires Spellable(lib, a)
    ensures Spells(lib, w, a) && Lex(lib, w) == Value(a) && w != "]" && w != "}"
  {
    if a.Int? {
      w := NumberSpelling(a.i);
    } else {
      w := LongSpelling(lib, a);
      assert |"]"| == 1 && |"}"| == 1;
    }
    SpelledIsRead(lib, w, a);
  }

  lemma NumberSpelling(i: int) returns (w: string)
    requires -MAX_INT64 - 1 <= i <= MAX_INT64
    ensures Numeral(w, i) && w != "]" && w != "}"
  {
    w := Itoa(i);
    AtoiInvertsItoa(i);
    AtoiIsNumeral(w, i);
    NumeralStart(w);
    assert "]"[0] == ']' && "}"[0] == '}';
  }

  lemma LongSpelling(lib: FloatParsers, a: Atom) returns (w: string)
    requires Spellable(lib, a) && !a.Int?
    ensures Spells(lib, w, a) && |w| > 1
  {
    match a
    case Nil => w := "nil";
    case Bool(b) => w := if b then "true" else "false";
    case F32(bits) =>
      var text :| lib.f32(text) == Some(bits);
      w := "f32:" + text;
    case F64(bits) =>
      var text :| lib.f64(text) == Some(bits);
      w := "f64:" + text;
    case Str(s) => w := "str:" + s;
  }

  ghost predicate AllSpellable(lib: FloatParsers, v: Arg) {
    match v
    case Scalar(a) => Spellable(lib, a)
    case List(items) => forall i :: 0 <= i < |items| ==> AllSpellable(lib, items[i])
    case Dict(m) => forall k :: k in m ==> Spellable(lib, k) && AllSpellable(lib, m[k])
  }

  lemma {:induction false} DictAppend(lib: FloatParsers, es: seq<Expr>, acc: map<Atom, Arg>, m: map<Atom, Arg>,
                                      k: Expr, v: Expr)
    requires Entries(lib, es) && DictMeaning(lib, es, acc) == Some(m)
    requires Storable(lib, k, v)
    ensures DictMeaning(lib, es + [k, v], acc) == Some(m[Meaning(lib, k).value.a := Meaning(lib, v).value])
  {
    var all := es + [k, v];
    if es == [] {
      assert all[2..] == [];
    } else {
      assert all[2..] == es[2..] + [k, v] && all[0] == es[0] && all[1] == es[1];
      DictAppend(lib, es[2..], acc[Meaning(lib, es[0]).value.a := Meaning(lib, es[1]).value], m, k, v);
    }
  }

  lemma {:induction false} EntriesAppend(lib: FloatParsers, es: seq<Expr>, k: Expr, v: Expr)
    requires Entries(lib, es) && Key(lib, k) && Writable(lib, v)
    ensures Entries(lib, es + [k, v])
  {
    var all := es + [k, v];
    if es == [] {
      assert all[2..] == [];
    } else {
      assert all[2..] == es[2..] + [k, v];
      EntriesAppend(lib, es[2..], k, v);
    }
  }

  lemma {:induction false} WriteOne(lib: FloatParsers, v: Arg) returns (e: Expr)
    requires AllSpellable(lib, v)
    ensures Writable(lib, e) && Meaning(lib, e) == Some(v) && e != Word("]")
    decreases v, 1, 0
  {
    match v
    case Scalar(a) =>
      var w := Spelling(lib, a);
      e := Word(w);
    case List(items) =>
      var es := WriteItems(lib, items, []);
      e := Arr(es);
      assert [] + items == items;
    case Dict(m) =>
      var es := WriteEntries(lib, v, m);
      e := Obj(es);
  }

  lemma {:induction false} WriteItems(lib: FloatParsers, items: seq<Arg>, acc: seq<Arg>) returns (es: seq<Expr>)
    requires forall i :: 0 <= i < |items| ==> AllSpellable(lib, items[i])
    ensures Items(lib, es) && Meanings(lib, es, acc) == Some(acc + items)
    decreases items, 0, 0
  {
    if items == [] {
      es := [];
      assert acc + items == acc;
    } else {
      var e := WriteOne(lib, items[0]);
      var more := WriteItems(lib, items[1..], acc + [items[0]]);
      es := [e] + more;
      assert es[1..] == more && acc + [items[0]] + items[1..] == acc + items;
    }
  }

  lemma {:induction false} WriteEntries(lib: FloatParsers, whole: Arg, m: map<Atom, Arg>) returns (es: seq<Expr>)
    requires whole.Dict? && AllSpellable(lib, whole)
    requires forall k :: k in m ==> k in whole.m && whole.m[k] == m[k]
    ensures Entries(lib, es) && DictMeaning(lib, es, map[]) == Some(m)
    decreases whole, 0, |m|
  {
    if m == map[] {
      es := [];
    } else {
      var k :| k in m;
      var less := m - {k};
      PutBack(m, k);
      SpellableAt(lib, whole, k);
      es := WriteEntries(lib, whole, less);
      var key := SpellKey(lib, k);
      var e := WriteOne(lib, whole.m[k]);
      WriteEntry(lib, es, less, key, e, k, m[k]);
      es := es + [key, e];
    }
  }

  lemma PutBack(m: map<Atom, Arg>, k: Atom)
    requires k in m
    ensures (m - {k})[k := m[k]] == m && |m - {k}| < |m|
  {
    assert m.Keys == (m - {k}).Keys + {k};
  }

  lemma SpellableAt(lib: FloatParsers, v: Arg, k: Atom)
    requires v.Dict? && AllSpellable(lib, v) && k in v.m
    ensures Spellable(lib, k) && AllSpellable(lib, v.m[k])
  {
  }

  lemma SpellKey(lib: FloatParsers, k: Atom) returns (e: Expr)
    requires Spellable(lib, k)
    ensures Key(lib, e) && Meaning(lib, e) == Some(Scalar(k))
  {
    var w := Spelling(lib, k);
    e := Word(w);
  }

  lemma WriteEntry(lib: FloatParsers, es: seq<Expr>, m: map<Atom, Arg>, key: Expr, e: Expr, k: Atom, v: Arg)
    requires Entries(lib, es) && DictMeaning(lib, es, map[]) == Some(m)
    requires Key(lib, key) && Writable(lib, e)
    requires Meaning(lib, key) == Some(Scalar(k)) && Meaning(lib, e) == Some(v)
    ensures Entries(lib, es + [key, e]) && DictMeaning(lib, es + [key, e], map[]) == Some(m[k := v])
  {
    DictAppend(lib, es, map[], m, key, e);
    EntriesAppend(lib, es, key, e);
  }

  /** For every nested value with scalar keys there are words that the parser turns into that value,
      whatever words follow, leaving exactly those. */
  lemma EveryValueCanBeTyped(lib: FloatParsers, v: Arg) returns (words: seq<string>)
    requires AllSpellable(lib, v)
    ensures forall rest :: Compose(lib, words + rest) == Ok(v, rest)
  {
    var e := WriteOne(lib, v);
    words := Render(e);
    forall rest ensures Compose(lib, words + rest) == Ok(v, rest) {
      ParseInvertsRender(lib, e, rest);
    }
  }

  // ---------------------------------------------------------------- the command line

  /** The arguments of a call: the words wrapped in brackets must be one list with nothing left over. */
  function CommandLine(lib: FloatParsers, words: seq<string>): Option<seq<Arg>> {
    match Compose(lib, ["["] + words + ["]"])
    case Ok(List(items), rest) => if rest == [] then Some(items) else None
    case _ => None
  }

  ghost predicate WritesList(lib: FloatParsers, es: seq<Expr>, words: seq<string>, items: seq<Arg>) {
    Items(lib, es) && Meanings(lib, es, []) == Some(items) && words == RenderAll(es)
  }

  /** A command line is accepted, as these arguments, exactly when it is these arguments written one after the other. */
  lemma CommandLineExactly(lib: FloatParsers, words: seq<string>, items: seq<Arg>)
    ensures CommandLine(lib, words) == Some(items) <==> exists es :: WritesList(lib, es, words, items)
  {
    var args := ["["] + words + ["]"];
    if CommandLine(lib, words) == Some(items) {
      var e := RenderInvertsParse(lib, args);
      assert args == Render(e) + [] && Render(e)[0] == "[";
      OnlyListsOpen(lib, e);
      assert args[1..|args| - 1] == words;
      assert Render(e)[1..|Render(e)| - 1] == RenderAll(e.items);
      assert WritesList(lib, e.items, words, items);
    }
    if es :| WritesList(lib, es, words, items) {
      ParseInvertsRender(lib, Arr(es), []);
      assert Render(Arr(es)) + [] == args;
    }
  }

  lemma OnlyListsOpen(lib: FloatParsers, e: Expr)
    requires Writable(lib, e) && Render(e)[0] == "["
    ensures e.Arr?
  {
    assert "["[0] == '[' && "{"[0] == '{' && "nil"[0] == 'n' && "true"[0] == 't' && "false"[0] == 'f';
    assert |"["| == 1 && |"f32:"| == 4 && |"f64:"| == 4 && |"str:"| == 4;
  }

  /** Typing any list of values gives exactly that list. */
  lemma CommandLineRoundTrip(lib: FloatParsers, vs: seq<Arg>) returns (words: seq<string>)
    requires forall i :: 0 <= i < |vs| ==> AllSpellable(lib, vs[i])
    ensures CommandLine(lib, words) == Some(vs)
  {
    var es := WriteItems(lib, vs, []);
    words := RenderAll(es);
    assert [] + vs == vs;
    ParseInvertsRender(lib, Arr(es), []);
    assert Render(Arr(es)) + [] == ["["] + words + ["]"];
  }
}
