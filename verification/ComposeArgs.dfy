/** The argument language of the command-line client: words on the command line become nested values. */
module ComposeArgs {
  import opened Basics

  /** Values that can be map keys.  Floats are known by what the library's parser makes of their text. */
  datatype Atom = Nil | Bool(b: bool) | F32(bits: nat) | F64(bits: nat) | Int(i: int) | Str(s: string)

  datatype Arg = Scalar(a: Atom) | List(items: seq<Arg>) | Dict(m: map<Atom, Arg>)

  datatype FloatParsers = FloatParsers(f32: string -> Option<nat>, f64: string -> Option<nat>)

  /** Panic is what storing under a list or a map as key does. */
  datatype Result = Ok(v: Arg, rest: seq<string>) | Err | Panic

  // ---------------------------------------------------------------- integers

  const MAX_INT64: int := 0x7fff_ffff_ffff_ffff

  predicate IsDigit(c: char) { '0' <= c <= '9' }

  predicate AllDigits(s: string) {
    forall i :: 0 <= i < |s| ==> IsDigit(s[i])
  }

  function Decimal(s: string): nat
    requires AllDigits(s)
  {
    if s == "" then 0 else Decimal(s[..|s| - 1]) * 10 + (s[|s| - 1] as int - '0' as int)
  }

  /** An optional sign, then digits; None for anything else and for what a 64-bit int cannot hold. */
  function Atoi(s: string): Option<int> {
    var signed := s != "" && (s[0] == '-' || s[0] == '+');
    var digits := if signed then s[1..] else s;
    if digits == "" || !AllDigits(digits) then None else
    var d: int := Decimal(digits);
    var n := if signed && s[0] == '-' then -d else d;
    if -MAX_INT64 - 1 <= n <= MAX_INT64 then Some(n) else None
  }

  // ---------------------------------------------------------------- one word

  datatype Lexeme = Value(a: Atom) | BadFloat | OpenList | OpenDict

  function Lex(lib: FloatParsers, w: string): Lexeme {
    if w == "nil" then Value(Nil)
    else if w == "true" then Value(Bool(true))
    else if w == "false" then Value(Bool(false))
    else if "f32:" <= w then (match lib.f32(w[4..]) case Some(f) => Value(F32(f)) case None => BadFloat)
    else if "f64:" <= w then (match lib.f64(w[4..]) case Some(f) => Value(F64(f)) case None => BadFloat)
    else if "str:" <= w then Value(Str(w[4..]))
    else if w == "[" then OpenList
    else if w == "{" then OpenDict
    else match Atoi(w) case Some(i) => Value(Int(i)) case None => Value(Str(w))
  }

  // ---------------------------------------------------------------- what the parser computes

  function Compose(lib: FloatParsers, args: seq<string>): (r: Result)
    ensures r.Ok? ==> |r.rest| < |args|
    decreases |args|, 0
  {
    if args == [] then Err else
    match Lex(lib, args[0])
    case Value(a) => Ok(Scalar(a), args[1..])
    case BadFloat => Err
    case OpenList => ComposeList(lib, args[1..], [])
    case OpenDict => ComposeDict(lib, args[1..], map[])
  }

  function ComposeList(lib: FloatParsers, rest: seq<string>, acc: seq<Arg>): (r: Result)
    ensures r.Ok? ==> |r.rest| < |rest|
    decreases |rest|, 1
  {
    if rest == [] then Err
    else if rest[0] == "]" then Ok(List(acc), rest[1..])
    else
      match Compose(lib, rest)
      case Ok(v, next) => ComposeList(lib, next, acc + [v])
      case failed => failed
  }

  function ComposeDict(lib: FloatParsers, rest: seq<string>, acc: map<Atom, Arg>): (r: Result)
    ensures r.Ok? ==> |r.rest| < |rest|
    decreases |rest|, 1
  {
    if rest == [] then Err
    else if rest[0] == "}" then Ok(Dict(acc), rest[1..])
    else
      match Compose(lib, rest)
      case Ok(key, next) =>
        if next == [] then Err else
        (match Compose(lib, next)
         case Ok(v, after) => if key.Scalar? then ComposeDict(lib, after, acc[key.a := v]) else Panic
         case failed => failed)
      case failed => failed
  }

  /** The parser itself. */
  method ComposeArgs(lib: FloatParsers, args: seq<string>) returns (r: Result)
    ensures r == Compose(lib, args)
    decreases |args|
  {
    if |args| == 0 {
      return Err;
    }
    match Lex(lib, args[0])
    case Value(a) =>
      return Ok(Scalar(a), args[1..]);
    case BadFloat =>
      return Err;
    case OpenList =>
      var arr, rest := [], args[1..];
      while true
        invariant |rest| < |args| && ComposeList(lib, rest, arr) == Compose(lib, args)
        decreases |rest|
      {
        if |rest| == 0 {
          return Err;
        }
        if rest[0] == "]" {
          break;
        }
        var elem := ComposeArgs(lib, rest);
        if !elem.Ok? {
          return elem;
        }
        arr, rest := arr + [elem.v], elem.rest;
      }
      return Ok(List(arr), rest[1..]);
    case OpenDict =>
      var m: map<Atom, Arg>, rest := map[], args[1..];
      while true
        invariant |rest| < |args| && ComposeDict(lib, rest, m) == Compose(lib, args)
        decreases |rest|
      {
        if |rest| == 0 {
          return Err;
        }
        if rest[0] == "}" {
          break;
        }
        var key := ComposeArgs(lib, rest);
        if !key.Ok? {
          return key;
        }
        if |key.rest| == 0 {
          return Err;
        }
        var value := ComposeArgs(lib, key.rest);
        if !value.Ok? {
          return value;
        }
        if !key.v.Scalar? {
          return Panic;
        }
        m, rest := m[key.v.a := value.v], value.rest;
      }
      return Ok(Dict(m), rest[1..]);
  }
}
