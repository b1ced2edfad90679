/** The words of the argument language: which word stands for which scalar. */
module ArgWords {
  import opened Basics
  import opened ComposeArgs
  import opened ArgSyntax

  // ---------------------------------------------------------------- numerals

  function Pow10(n: nat): nat {
    if n == 0 then 1 else 10 * Pow10(n - 1)
  }

  /** The value of a row of digits, each by its place. */
  function Positional(ds: string): nat
    requires AllDigits(ds)
  {
    if ds == "" then 0 else (ds[0] as int - '0' as int) * Pow10(|ds| - 1) + Positional(ds[1..])
  }

  lemma {:induction false} PositionalSnoc(ds: string, d: char)
    requires AllDigits(ds) && IsDigit(d)
    ensures AllDigits(ds + [d]) && Positional(ds + [d]) == 10 * Positional(ds) + (d as int - '0' as int)
  {
    if ds == "" {
      assert ds + [d] == [d] && [d][1..] == "";
      assert Pow10(0) == 1;
    } else {
      assert (ds + [d])[1..] == ds[1..] + [d];
      PositionalSnoc(ds[1..], d);
      Distribute(ds[0] as int - '0' as int, Pow10(|ds| - 1));
    }
  }

  lemma Distribute(a: int, p: int)
    ensures a * (10 * p) == 10 * (a * p)
  {
  }

  lemma {:induction false} DecimalIsPositional(ds: string)
    requires AllDigits(ds)
    ensures Decimal(ds) == Positional(ds)
  {
    if ds != "" {
      var front := ds[..|ds| - 1];
      assert ds == front + [ds[|ds| - 1]];
      DecimalIsPositional(front);
      PositionalSnoc(front, ds[|ds| - 1]);
    }
  }

  /** The word is digits with or without a sign, and says i, which a 64-bit int can hold. */
  ghost predicate Numeral(w: string, i: int) {
    -0x8000_0000_0000_0000 <= i < 0x8000_0000_0000_0000 &&
    exists ds: string :: ds != "" && AllDigits(ds) && Signs(w, ds, i)
  }

  predicate Signs(w: string, ds: string, i: int)
    requires AllDigits(ds)
  {
    ((w == ds || w == "+" + ds) && i == Positional(ds)) || (w == "-" + ds && i + Positional(ds) == 0)
  }

  lemma AtoiIsNumeral(w: string, i: int)
    ensures Atoi(w) == Some(i) <==> Numeral(w, i)
  {
    if Atoi(w) == Some(i) {
      var signed := w[0] == '-' || w[0] == '+';
      var ds := if signed then w[1..] else w;
      DecimalIsPositional(ds);
      assert w == [w[0]] + w[1..];
      assert Signs(w, ds, i);
    }
    if Numeral(w, i) {
      var ds: string :| ds != "" && AllDigits(ds) && Signs(w, ds, i);
      DecimalIsPositional(ds);
      assert IsDigit(ds[0]);
      if w != ds {
        assert w[1..] == ds;
      }
    }
  }

  // ---------------------------------------------------------------- words

  /** A word that is nothing else: neither keyword, nor prefixed, nor bracket, nor numeral. */
  ghost predicate Plain(w: string) {
    && w != "nil" && w != "true" && w != "false" && w != "[" && w != "{"
    && !("f32:" <= w) && !("f64:" <= w) && !("str:" <= w)
    && forall i :: !Numeral(w, i)
  }

  /** The word w stands for the scalar a. */
  ghost predicate Spells(lib: FloatParsers, w: string, a: Atom) {
    match a
    case Nil => w == "nil"
    case Bool(b) => w == if b then "true" else "false"
    case F32(bits) => exists text :: w == "f32:" + text && lib.f32(text) == Some(bits)
    case F64(bits) => exists text :: w == "f64:" + text && lib.f64(text) == Some(bits)
    case Int(i) => Numeral(w, i)
    case Str(s) => w == "str:" + s || (w == s && Plain(w))
  }

  lemma Prefixed(p: string, text: string)
    requires |p| == 4
    ensures p <= p + text && (p + text)[4..] == text
  {
  }

  lemma Unprefixed(p: string, w: string)
    requires |p| == 4 && p <= w
    ensures w == p + w[4..]
  {
  }

  lemma NumeralStart(w: string)
    requires Atoi(w).Some?
    ensures w != "" && (w[0] == '-' || w[0] == '+' || IsDigit(w[0]))
  {
  }

  /** Keywords and prefixes start with letters, so no numeral is one of them. */
  lemma NumeralsApart(w: string)
    requires Atoi(w).Some?
    ensures w != "nil" && w != "true" && w != "false" && w != "[" && w != "{"
    ensures !("f32:" <= w) && !("f64:" <= w) && !("str:" <= w)
  {
    NumeralStart(w);
    assert "nil"[0] == 'n' && "true"[0] == 't' && "false"[0] == 'f' && "["[0] == '[' && "{"[0] == '{';
    assert "f32:"[0] == 'f' && "f64:"[0] == 'f' && "str:"[0] == 's';
  }

  lemma NoNumeral(w: string)
    ensures (forall i :: !Numeral(w, i)) <==> Atoi(w) == None
  {
    if Atoi(w).Some? {
      AtoiIsNumeral(w, Atoi(w).value);
    }
    forall i | Numeral(w, i) ensures Atoi(w) == Some(i) {
      AtoiIsNumeral(w, i);
    }
  }

  lemma SpelledIsRead(lib: FloatParsers, w: string, a: Atom)
    requires Spells(lib, w, a)
    ensures Lex(lib, w) == Value(a)
  {
    match a
    case Nil =>
    case Bool(b) => assert "true"[0] != "nil"[0] && "false"[0] != "nil"[0] && "true"[0] != "false"[0];
    case F32(bits) =>
      var text :| w == "f32:" + text && lib.f32(text) == Some(bits);
      PrefixIsRead(lib, "f32:", text);
    case F64(bits) =>
      var text :| w == "f64:" + text && lib.f64(text) == Some(bits);
      PrefixIsRead(lib, "f64:", text);
    case Int(i) =>
      AtoiIsNumeral(w, i);
      NumeralsApart(w);
    case Str(s) =>
      NoNumeral(w);
      if w == "str:" + s {
        PrefixIsRead(lib, "str:", s);
      }
  }

  lemma PrefixIsRead(lib: FloatParsers, p: string, text: string)
    requires p == "f32:" || p == "f64:" || p == "str:"
    ensures var w := p + text;
            && w[4..] == text && w != "nil" && w != "true" && w != "false"
            && ("f32:" <= w <==> p == "f32:") && ("f64:" <= w <==> p == "f64:") && ("str:" <= w <==> p == "str:")
  {
    var w := p + text;
    Prefixed(p, text);
    assert w[0] == p[0] && w[1] == p[1];
    assert "f32:"[1] == '3' && "f64:"[1] == '6' && "str:"[0] == 's' && "f32:"[0] == 'f' && "f64:"[0] == 'f';
    assert "nil"[0] == 'n' && "true"[0] == 't' && "false"[0] == 'f' && "false"[1] == 'a';
  }

  lemma ReadIsSpelled(lib: FloatParsers, w: string, a: Atom)
    requires Lex(lib, w) == Value(a)
    ensures Spells(lib, w, a)
  {
    NoNumeral(w);
    if "f32:" <= w {
      Unprefixed("f32:", w);
    } else if "f64:" <= w {
      Unprefixed("f64:", w);
    } else if "str:" <= w {
      Unprefixed("str:", w);
    } else if Atoi(w).Some? {
      AtoiIsNumeral(w, Atoi(w).value);
    }
  }

  /** For every word: it is read as the scalar that it spells, and as nothing else. */
  lemma WordsExactly(lib: FloatParsers, w: string, a: Atom, rest: seq<string>)
    ensures Compose(lib, [w] + rest) == Ok(Scalar(a), rest) <==> Spells(lib, w, a)
  {
    assert ([w] + rest)[1..] == rest;
    if Spells(lib, w, a) {
      SpelledIsRead(lib, w, a);
    } else if Compose(lib, [w] + rest) == Ok(Scalar(a), rest) {
      ScalarFromWord(lib, [w] + rest);
      ReadIsSpelled(lib, w, a);
    }
  }

  lemma ScalarFromWord(lib: FloatParsers, args: seq<string>)
    requires Compose(lib, args).Ok? && Compose(lib, args).v.Scalar?
    ensures args != [] && Lex(lib, args[0]) == Value(Compose(lib, args).v.a)
  {
    var e := RenderInvertsParse(lib, args);
    MeaningExists(lib, e);
    assert args[0] == Render(e)[0];
  }
}
