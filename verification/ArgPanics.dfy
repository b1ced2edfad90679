/** Exactly which words make the argument parser panic: complete or not, valid further on or not. */
module ArgPanics {
  import opened Basics
  import opened ComposeArgs
  import opened ArgSyntax

  /** An argument up to the point where the parser stores under a list or a map: inside any number of open lists and
      maps, a map with complete entries, then a complete key in brackets, then a complete value. */
  datatype Broken =
    | InList(items: seq<Expr>, inner: Broken)
    | InKey(entries: seq<Expr>, inner: Broken)
    | InValue(entries: seq<Expr>, key: Expr, inner: Broken)
    | AtKey(entries: seq<Expr>, key: Expr, value: Expr)

  function Words(b: Broken): (words: seq<string>)
    ensures |words| >= 1 && (words[0] == "[" || words[0] == "{")
  {
    match b
    case InList(items, inner) => ["["] + (RenderAll(items) + Words(inner))
    case InKey(entries, inner) => ["{"] + (RenderAll(entries) + Words(inner))
    case InValue(entries, key, inner) => ["{"] + (RenderAll(entries) + (Render(key) + Words(inner)))
    case AtKey(entries, key, value) => ["{"] + (RenderAll(entries) + (Render(key) + Render(value)))
  }

  /** Everything before the bracketed key is well written and has scalar keys. */
  predicate WellBroken(lib: FloatParsers, b: Broken) {
    match b
    case InList(items, inner) => Items(lib, items) && !BracketKeyIn(items) && WellBroken(lib, inner)
    case InKey(entries, inner) => SoundEntries(lib, entries) && WellBroken(lib, inner)
    case InValue(entries, key, inner) => SoundEntries(lib, entries) && SoundKey(lib, key) && WellBroken(lib, inner)
    case AtKey(entries, key, value) =>
      && SoundEntries(lib, entries) && SoundKey(lib, key) && !key.Word?
      && Writable(lib, value) && !BracketKey(value)
  }

  predicate SoundEntries(lib: FloatParsers, entries: seq<Expr>) {
    Entries(lib, entries) && !BracketKeyAmong(entries)
  }

  predicate SoundKey(lib: FloatParsers, key: Expr) {
    Key(lib, key) && !BracketKey(key)
  }

  // ---------------------------------------------------------------- such words panic

  lemma OpenRest(open: string, front: seq<string>, back: seq<string>, rest: seq<string>)
    ensures ((([open] + (front + back)) + rest)[1..]) == front + (back + rest)
    ensures (([open] + (front + back)) + rest)[0] == open
  {
  }

  lemma EntriesRead(lib: FloatParsers, entries: seq<Expr>, after: seq<string>) returns (m: map<Atom, Arg>)
    requires SoundEntries(lib, entries)
    ensures ComposeDict(lib, RenderAll(entries) + after, map[]) == ComposeDict(lib, after, m)
  {
    DictMeaningExists(lib, entries, map[]);
    DictPrefix(lib, entries, map[], after);
    m := DictMeaning(lib, entries, map[]).value;
  }

  lemma KeyRead(lib: FloatParsers, key: Expr, after: seq<string>)
    requires SoundKey(lib, key)
    ensures var r := Compose(lib, Render(key) + after);
            r.Ok? && r.rest == after && (r.v.Scalar? <==> key.Word?)
    ensures (Render(key) + after)[0] != "}"
  {
    MeaningExists(lib, key);
    ParseInvertsRender(lib, key, after);
  }

  lemma {:induction false} PanicsOn(lib: FloatParsers, b: Broken, rest: seq<string>)
    requires WellBroken(lib, b)
    ensures Compose(lib, Words(b) + rest) == Panic
    decreases b
  {
    match b
    case InList(items, inner) =>
      OpenRest("[", RenderAll(items), Words(inner), rest);
      PanicsOn(lib, inner, rest);
      MeaningsExist(lib, items, []);
      ListPrefix(lib, items, [], Words(inner) + rest);
    case InKey(entries, inner) =>
      OpenRest("{", RenderAll(entries), Words(inner), rest);
      PanicsOn(lib, inner, rest);
      var m := EntriesRead(lib, entries, Words(inner) + rest);
    case InValue(entries, key, inner) =>
      PanicsOn(lib, inner, rest);
      PanicsInValue(lib, entries, key, inner, rest);
    case AtKey(entries, key, value) =>
      PanicsAtKey(lib, entries, key, value, rest);
  }

  lemma PanicsInValue(lib: FloatParsers, entries: seq<Expr>, key: Expr, inner: Broken, rest: seq<string>)
    requires SoundEntries(lib, entries) && SoundKey(lib, key) && Compose(lib, Words(inner) + rest) == Panic
    ensures Compose(lib, Words(InValue(entries, key, inner)) + rest) == Panic
  {
    OpenRest("{", RenderAll(entries), Render(key) + Words(inner), rest);
    Assoc(Render(key), Words(inner), rest);
    KeyRead(lib, key, Words(inner) + rest);
    var m := EntriesRead(lib, entries, Render(key) + (Words(inner) + rest));
  }

  lemma PanicsAtKey(lib: FloatParsers, entries: seq<Expr>, key: Expr, value: Expr, rest: seq<string>)
    requires SoundEntries(lib, entries) && SoundKey(lib, key) && !key.Word?
    requires Writable(lib, value) && !BracketKey(value)
    ensures Compose(lib, Words(AtKey(entries, key, value)) + rest) == Panic
  {
    OpenRest("{", RenderAll(entries), Render(key) + Render(value), rest);
    Assoc(Render(key), Render(value), rest);
    KeyRead(lib, key, Render(value) + rest);
    MeaningExists(lib, value);
    ParseInvertsRender(lib, value, rest);
    var m := EntriesRead(lib, entries, Render(key) + (Render(value) + rest));
  }

  // ---------------------------------------------------------------- no other words do

  ghost predicate Breaks(lib: FloatParsers, b: Broken, args: seq<string>, rest: seq<string>) {
    WellBroken(lib, b) && args == Words(b) + rest
  }

  /** What was read, without bracketed keys. */
  lemma ReadSound(lib: FloatParsers, args: seq<string>) returns (e: Expr)
    requires Compose(lib, args).Ok?
    ensures Writable(lib, e) && !BracketKey(e) && args == Render(e) + Compose(lib, args).rest
    ensures Compose(lib, args).v.Scalar? <==> e.Word?
    ensures args[0] == Render(e)[0]
  {
    e := RenderInvertsParse(lib, args);
    MeaningExists(lib, e);
  }

  lemma Opening(lib: FloatParsers, w: string)
    ensures Lex(lib, w).OpenList? ==> w == "["
    ensures Lex(lib, w).OpenDict? ==> w == "{"
  {
  }

  lemma ListWords(items: seq<Expr>, inner: Broken, args: seq<string>, rest: seq<string>)
    requires args != [] && args[0] == "[" && args[1..] == RenderAll(items) + (Words(inner) + rest)
    ensures args == Words(InList(items, inner)) + rest
  {
    assert args == ["["] + args[1..];
  }

  lemma {:induction false} FindBroken(lib: FloatParsers, args: seq<string>) returns (b: Broken, rest: seq<string>)
    requires Compose(lib, args) == Panic
    ensures Breaks(lib, b, args, rest)
    decreases |args|, 0
  {
    Opening(lib, args[0]);
    assert args == [args[0]] + args[1..];
    if Lex(lib, args[0]).OpenList? {
      var items, inner;
      items, inner, rest := ListBroken(lib, args[1..], []);
      b := InList(items, inner);
      ListWords(items, inner, args, rest);
    } else {
      b, rest := DictBroken(lib, args[1..], map[]);
    }
  }

  lemma {:induction false} ListBroken(lib: FloatParsers, args: seq<string>, acc: seq<Arg>)
    returns (items: seq<Expr>, inner: Broken, rest: seq<string>)
    requires ComposeList(lib, args, acc) == Panic
    ensures Items(lib, items) && !BracketKeyIn(items) && WellBroken(lib, inner)
    ensures args == RenderAll(items) + (Words(inner) + rest)
    decreases |args|, 1
  {
    if Compose(lib, args) == Panic {
      inner, rest := FindBroken(lib, args);
      items := [];
    } else {
      var e := ReadSound(lib, args);
      var more;
      more, inner, rest := ListBroken(lib, Compose(lib, args).rest, acc + [Compose(lib, args).v]);
      items := [e] + more;
      assert items[1..] == more;
      Assoc(Render(e), RenderAll(more), Words(inner) + rest);
    }
  }

  predicate OfDict(b: Broken) {
    !b.InList?
  }

  /** The same with one more entry in front. */
  function Behind(k: Expr, v: Expr, b: Broken): Broken
    requires OfDict(b)
  {
    match b
    case InKey(entries, inner) => InKey([k, v] + entries, inner)
    case InValue(entries, key, inner) => InValue([k, v] + entries, key, inner)
    case AtKey(entries, key, value) => AtKey([k, v] + entries, key, value)
  }

  lemma EntryInFront(lib: FloatParsers, k: Expr, v: Expr, entries: seq<Expr>, after: seq<string>)
    ensures RenderAll([k, v] + entries) + after == Render(k) + (Render(v) + (RenderAll(entries) + after))
    ensures SoundKey(lib, k) && k.Word? && Writable(lib, v) && !BracketKey(v) && SoundEntries(lib, entries) ==>
              SoundEntries(lib, [k, v] + entries)
  {
    RenderTwo([k, v] + entries, after);
    assert ([k, v] + entries)[2..] == entries;
  }

  function AfterEntries(b: Broken): seq<string>
    requires OfDict(b)
  {
    match b
    case InKey(_, inner) => Words(inner)
    case InValue(_, key, inner) => Render(key) + Words(inner)
    case AtKey(_, key, value) => Render(key) + Render(value)
  }

  lemma BehindWords(lib: FloatParsers, k: Expr, v: Expr, b: Broken, words: seq<string>, rest: seq<string>)
    requires OfDict(b) && WellBroken(lib, b) && SoundKey(lib, k) && k.Word? && Writable(lib, v) && !BracketKey(v)
    requires ["{"] + words == Words(b) + rest
    ensures WellBroken(lib, Behind(k, v, b))
    ensures ["{"] + (Render(k) + (Render(v) + words)) == Words(Behind(k, v, b)) + rest
  {
    EntryInFront(lib, k, v, b.entries, AfterEntries(b));
    InsertWords(Render(k) + Render(v), RenderAll(b.entries) + AfterEntries(b), words, rest);
    Assoc(Render(k), Render(v), RenderAll(b.entries) + AfterEntries(b));
    Assoc(Render(k), Render(v), words);
  }

  lemma InsertWords(entry: seq<string>, inside: seq<string>, words: seq<string>, rest: seq<string>)
    requires ["{"] + words == (["{"] + inside) + rest
    ensures ["{"] + (entry + words) == (["{"] + (entry + inside)) + rest
  {
    assert words == (["{"] + words)[1..] == inside + rest;
  }

  lemma FirstKey(inner: Broken, args: seq<string>, rest: seq<string>)
    requires args == Words(inner) + rest
    ensures ["{"] + args == Words(InKey([], inner)) + rest
  {
  }

  lemma FirstValue(k: Expr, inner: Broken, args: seq<string>, next: seq<string>, rest: seq<string>)
    requires args == Render(k) + next && next == Words(inner) + rest
    ensures ["{"] + args == Words(InValue([], k, inner)) + rest
  {
    assert Words(InValue([], k, inner)) == ["{"] + (Render(k) + Words(inner));
  }

  lemma {:induction false} DictBroken(lib: FloatParsers, args: seq<string>, acc: map<Atom, Arg>)
    returns (b: Broken, rest: seq<string>)
    requires ComposeDict(lib, args, acc) == Panic
    ensures OfDict(b) && Breaks(lib, b, ["{"] + args, rest)
    decreases |args|, 1
  {
    if Compose(lib, args) == Panic {
      var inner;
      inner, rest := FindBroken(lib, args);
      b := InKey([], inner);
      FirstKey(inner, args, rest);
    } else {
      var k := ReadSound(lib, args);
      var next := Compose(lib, args).rest;
      if Compose(lib, next) == Panic {
        var inner;
        inner, rest := FindBroken(lib, next);
        b := InValue([], k, inner);
        FirstValue(k, inner, args, next, rest);
      } else {
        b, rest := PairBroken(lib, args, acc, k);
      }
    }
  }

  lemma {:induction false} PairBroken(lib: FloatParsers, args: seq<string>, acc: map<Atom, Arg>, k: Expr)
    returns (b: Broken, rest: seq<string>)
    requires ComposeDict(lib, args, acc) == Panic && Compose(lib, args).Ok? && SoundKey(lib, k)
    requires args == Render(k) + Compose(lib, args).rest && (Compose(lib, args).v.Scalar? <==> k.Word?)
    requires Compose(lib, Compose(lib, args).rest).Ok?
    ensures OfDict(b) && Breaks(lib, b, ["{"] + args, rest)
    decreases |args|, 0
  {
    var Ok(key, next) := Compose(lib, args);
    var Ok(value, after) := Compose(lib, next);
    var v := ReadSound(lib, next);
    if k.Word? {
      b, rest := DictBroken(lib, after, acc[key.a := value]);
      BehindWords(lib, k, v, b, after, rest);
      b := Behind(k, v, b);
    } else {
      b, rest := AtKey([], k, v), after;
      assert Words(b) == ["{"] + (Render(k) + Render(v));
      Assoc(Render(k), Render(v), after);
    }
  }

  /** For every list of words: the parser panics exactly when the words begin like this. */
  lemma PanicsExactly(lib: FloatParsers, args: seq<string>)
    ensures Compose(lib, args) == Panic <==> exists b, rest :: Breaks(lib, b, args, rest)
  {
    if Compose(lib, args) == Panic {
      var b, rest := FindBroken(lib, args);
    }
    if b, rest :| Breaks(lib, b, args, rest) {
      PanicsOn(lib, b, rest);
    }
  }

  /** On a complete argument: the parser never rejects what was written, and panics exactly on bracketed keys. */
  lemma PanicsOnBracketKeys(lib: FloatParsers, e: Expr, rest: seq<string>)
    requires Writable(lib, e)
    ensures Compose(lib, Render(e) + rest) != Err
    ensures Compose(lib, Render(e) + rest) == Panic <==> BracketKey(e)
  {
    ParseInvertsRender(lib, e, rest);
    MeaningExists(lib, e);
  }

  /** The words `{ [ ] nil` panic, although no bracket closes the map. */
  lemma PanicsBeforeTheEnd(lib: FloatParsers)
    ensures Compose(lib, ["{", "[", "]", "nil"]) == Panic
  {
    var b := AtKey([], Arr([]), Word("nil"));
    assert Words(b) + [] == ["{", "[", "]", "nil"];
    assert SoundEntries(lib, []) && Items(lib, []) && !BracketKeyIn([]);
    assert Writable(lib, Arr([])) && !BracketKey(Arr([]));
    PanicsOn(lib, b, []);
  }
}
