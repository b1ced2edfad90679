/** The argument parser looks only at the words it uses. */
module ArgLocality {
  import opened Basics
  import opened ComposeArgs

  predicate Suffix(rest: seq<string>, args: seq<string>) {
    |rest| < |args| && rest == args[|args| - |rest|..]
  }

  lemma SuffixStep(a: seq<string>, b: seq<string>, c: seq<string>)
    requires Suffix(b, a) && Suffix(c, b)
    ensures Suffix(c, a)
  {
  }

  /** What is left over is a shorter suffix of the words. */
  lemma {:induction false} LeavesSuffix(lib: FloatParsers, args: seq<string>)
    requires Compose(lib, args).Ok?
    ensures Suffix(Compose(lib, args).rest, args)
    decreases |args|, 0
  {
    match Lex(lib, args[0])
    case Value(a) =>
    case BadFloat =>
    case OpenList => ListLeavesSuffix(lib, args[1..], []);
    case OpenDict => DictLeavesSuffix(lib, args[1..], map[]);
  }

  lemma {:induction false} ListLeavesSuffix(lib: FloatParsers, args: seq<string>, acc: seq<Arg>)
    requires ComposeList(lib, args, acc).Ok?
    ensures Suffix(ComposeList(lib, args, acc).rest, args)
    decreases |args|, 1
  {
    if args[0] != "]" {
      var Ok(v, next) := Compose(lib, args);
      LeavesSuffix(lib, args);
      ListLeavesSuffix(lib, next, acc + [v]);
      SuffixStep(args, next, ComposeList(lib, args, acc).rest);
    }
  }

  lemma {:induction false} DictLeavesSuffix(lib: FloatParsers, args: seq<string>, acc: map<Atom, Arg>)
    requires ComposeDict(lib, args, acc).Ok?
    ensures Suffix(ComposeDict(lib, args, acc).rest, args)
    decreases |args|, 1
  {
    if args[0] != "}" {
      var Ok(key, next) := Compose(lib, args);
      var Ok(v, after) := Compose(lib, next);
      LeavesSuffix(lib, args);
      LeavesSuffix(lib, next);
      DictLeavesSuffix(lib, after, acc[key.a := v]);
      SuffixStep(args, next, after);
      SuffixStep(args, after, ComposeDict(lib, args, acc).rest);
    }
  }

  lemma Cut(p: seq<string>, r: seq<string>, next: seq<string>) returns (a: seq<string>, b: seq<string>)
    requires Suffix(next, p + r) && |r| <= |next|
    ensures p == a + b && next == b + r && p + r == a + next
  {
    var mid := |p + r| - |next|;
    a, b := p[..mid], p[mid..];
  }

  /** The parser looks at nothing beyond what it uses: other words may follow, and nothing changes. */
  lemma {:induction false} Local(lib: FloatParsers, p: seq<string>, r: seq<string>, t: seq<string>, v: Arg)
    requires Compose(lib, p + r) == Ok(v, r)
    ensures Compose(lib, p + t) == Ok(v, t)
    decreases |p|, 0
  {
    assert p != [];
    assert (p + r)[0] == p[0] == (p + t)[0] && (p + r)[1..] == p[1..] + r && (p + t)[1..] == p[1..] + t;
    match Lex(lib, p[0])
    case Value(a) => assert |p| == 1;
    case BadFloat =>
    case OpenList => LocalList(lib, p[1..], r, t, [], v);
    case OpenDict => LocalDict(lib, p[1..], r, t, map[], v);
  }

  lemma ListStep(lib: FloatParsers, args: seq<string>, acc: seq<Arg>, x: Arg, next: seq<string>)
    requires args != [] && args[0] != "]" && Compose(lib, args) == Ok(x, next)
    ensures ComposeList(lib, args, acc) == ComposeList(lib, next, acc + [x])
  {
  }

  lemma {:induction false} LocalList(lib: FloatParsers, p: seq<string>, r: seq<string>, t: seq<string>, acc: seq<Arg>,
                                     v: Arg)
    requires ComposeList(lib, p + r, acc) == Ok(v, r)
    ensures ComposeList(lib, p + t, acc) == Ok(v, t)
    decreases |p|, 3
  {
    assert p != [];
    assert (p + r)[0] == p[0] == (p + t)[0];
    if p[0] == "]" {
      assert |p| == 1 && (p + t)[1..] == t;
    } else {
      var Ok(x, next) := Compose(lib, p + r);
      LeavesSuffix(lib, p + r);
      LocalItem(lib, p, r, t, acc, v, x, next);
    }
  }

  /** The first value read from p + r, when more than r is left over, is read from p alone. */
  lemma {:induction false} LocalUpTo(lib: FloatParsers, p: seq<string>, r: seq<string>, t: seq<string>, x: Arg,
                                     next: seq<string>)
    returns (b: seq<string>)
    requires Compose(lib, p + r) == Ok(x, next) && Suffix(next, p + r) && |r| <= |next|
    ensures next == b + r && |b| < |p| && Compose(lib, p + t) == Ok(x, b + t)
    decreases |p|, 1
  {
    var a;
    a, b := Cut(p, r, next);
    Local(lib, a, next, b + t, x);
    assert p + t == a + (b + t);
  }

  lemma {:induction false} LocalItem(lib: FloatParsers, p: seq<string>, r: seq<string>, t: seq<string>, acc: seq<Arg>,
                                     v: Arg, x: Arg, next: seq<string>)
    requires p != [] && p[0] != "]" && Compose(lib, p + r) == Ok(x, next) && Suffix(next, p + r)
    requires ComposeList(lib, next, acc + [x]) == Ok(v, r)
    ensures ComposeList(lib, p + t, acc) == Ok(v, t)
    decreases |p|, 2
  {
    var b := LocalUpTo(lib, p, r, t, x, next);
    LocalList(lib, b, r, t, acc + [x], v);
    ListStep(lib, p + t, acc, x, b + t);
  }

  lemma DictStep(lib: FloatParsers, args: seq<string>, acc: map<Atom, Arg>, k: Atom, next: seq<string>, x: Arg,
                 after: seq<string>)
    requires args != [] && args[0] != "}"
    requires Compose(lib, args) == Ok(Scalar(k), next) && Compose(lib, next) == Ok(x, after)
    ensures ComposeDict(lib, args, acc) == ComposeDict(lib, after, acc[k := x])
  {
  }

  lemma {:induction false} LocalDict(lib: FloatParsers, p: seq<string>, r: seq<string>, t: seq<string>,
                                     acc: map<Atom, Arg>, v: Arg)
    requires ComposeDict(lib, p + r, acc) == Ok(v, r)
    ensures ComposeDict(lib, p + t, acc) == Ok(v, t)
    decreases |p|, 3
  {
    assert p != [];
    assert (p + r)[0] == p[0] == (p + t)[0];
    if p[0] == "}" {
      assert |p| == 1 && (p + t)[1..] == t;
    } else {
      var Ok(key, next) := Compose(lib, p + r);
      var Ok(x, after) := Compose(lib, next);
      LeavesSuffix(lib, p + r);
      LeavesSuffix(lib, next);
      LocalEntry(lib, p, r, t, acc, v, key.a, next, x, after);
    }
  }

  lemma {:induction false} LocalEntry(lib: FloatParsers, p: seq<string>, r: seq<string>, t: seq<string>,
                                      acc: map<Atom, Arg>, v: Arg,
                                      k: Atom, next: seq<string>, x: Arg, after: seq<string>)
    requires p != [] && p[0] != "}" && Compose(lib, p + r) == Ok(Scalar(k), next) && Suffix(next, p + r)
    requires Compose(lib, next) == Ok(x, after) && Suffix(after, next)
    requires ComposeDict(lib, after, acc[k := x]) == Ok(v, r)
    ensures ComposeDict(lib, p + t, acc) == Ok(v, t)
    decreases |p|, 2
  {
    var b := LocalUpTo(lib, p, r, t, Scalar(k), next);
    var d := LocalUpTo(lib, b, r, t, x, after);
    LocalDict(lib, d, r, t, acc[k := x], v);
    DictStep(lib, p + t, acc, k, b + t, x, d + t);
  }
}
