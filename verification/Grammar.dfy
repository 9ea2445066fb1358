/**
 The script grammar as parse functions, one per production, with the semantics
 pest gives it: ordered choice, backtracking, and whitespace and comments skipped
 between the items of every sequence and repetition that is not atomic.  A
 production yields a pair (its rule, the text it spans, the pairs inside it) and
 the rest of the input.
 */
module Grammar {
  import opened Common

  datatype Rule =
    | File | EOI | Machine | MachineInstruction | MInstrName
    | Server | Load | Memory | Profile | Path
    | Expr | Function | Work | Ident | Params | Param | Value
    | Instructions | Instruction | FuncName
    | Task | Network | Port | Open | Ping | Debug
    | Args | Arg | Dynamic | DynamicName | RandomPath | RandomString | Constant
    | Dist | DistName | Exp | Zipf | Uniform | Opt

  datatype Pair = Pair(rule: Rule, text: string, inner: seq<Pair>)

  datatype Parse = Fail | Done(pair: Pair, rest: string)

  /** A repetition: the pairs it produced. */
  datatype Parses = Parses(pairs: seq<Pair>, rest: string)

  // ----- characters

  predicate IsSpace(c: char) { c == ' ' || c == '\t' || c == '\n' || c == '\r' }

  predicate IsNewline(c: char) { c == '\n' || c == '\r' }

  predicate IsAlpha(c: char) { 'a' <= c <= 'z' || 'A' <= c <= 'Z' }

  predicate IsIdentStart(c: char) { IsAlpha(c) || c == '_' || c == '$' }

  predicate IsIdentChar(c: char) { IsIdentStart(c) || IsDigit(c) }

  predicate IsValueChar(c: char) {
    IsAlpha(c) || IsDigit(c) || c == '.' || c == ' ' || c == '/' || c == ':'
  }

  // ----- implicit skipping

  function SkipSpaces(s: string): (r: string)
    ensures |r| <= |s| && (r == "" || !IsSpace(r[0]))
  {
    if s != "" && IsSpace(s[0]) then SkipSpaces(s[1..]) else s
  }

  /** The rest of a comment, up to and without its newline. */
  function SkipLine(s: string): (r: string)
    ensures |r| <= |s|
  {
    if s != "" && !IsNewline(s[0]) then SkipLine(s[1..]) else s
  }

  /** Nothing to skip here. */
  predicate Solid(s: string) {
    (s == "" || !IsSpace(s[0])) && !("//" <= s)
  }

  /** Whitespace and comments, as many as there are. */
  function Skip(s: string): (r: string)
    ensures |r| <= |s| && Solid(r)
    decreases |s|
  {
    var r := SkipSpaces(s);
    if "//" <= r then Skip(SkipLine(r[2..])) else r
  }

  // ----- building blocks

  /** A production that matched from the start of s up to rest. */
  function Spanning(rule: Rule, s: string, rest: string, inner: seq<Pair>): Pair
    requires |rest| <= |s|
  {
    Pair(rule, s[..|s| - |rest|], inner)
  }

  /** The input after a literal, if the literal is there. */
  function Lit(tok: string, s: string): (r: Option<string>)
    ensures r.Some? ==> |r.value| == |s| - |tok|
  {
    if tok <= s then Some(s[|tok|..]) else None
  }

  /** A keyword production: the literal alone. */
  function Keyword(rule: Rule, tok: string, s: string): (r: Parse)
    ensures r.Done? ==> |r.rest| == |s| - |tok| && r.pair == Pair(rule, tok, [])
  {
    if tok <= s then Done(Pair(rule, tok, []), s[|tok|..]) else Fail
  }

  /** The first of two alternatives that matches. */
  function Or(a: Parse, b: Parse): Parse {
    if a.Done? then a else b
  }

  /** A name production around the keyword that matched. */
  function Named(rule: Rule, p: Parse): Parse {
    if p.Fail? then Fail else Done(Pair(rule, p.pair.text, [p.pair]), p.rest)
  }

  // ----- identifiers, values and constants

  function IdentTail(s: string): (r: string)
    ensures |r| <= |s|
  {
    if s != "" && IsIdentChar(s[0]) then IdentTail(s[1..]) else s
  }

  /** Atomic: nothing is skipped inside and no pairs are produced. */
  function PIdent(s: string): (r: Parse)
    ensures r.Done? ==> |r.rest| < |s|
  {
    if s != "" && IsIdentStart(s[0]) then
      var rest := IdentTail(s[1..]);
      Done(Spanning(Ident, s, rest, []), rest)
    else Fail
  }

  /** Further items of a value; skipping before an item that does not come is undone. */
  function ValueTail(s: string): (r: string)
    ensures |r| <= |s|
    decreases |s|
  {
    var y := Skip(s);
    if y != "" && IsValueChar(y[0]) then ValueTail(y[1..]) else s
  }

  function ValueRest(s: string): (r: string)
    ensures |r| <= |s|
  {
    if s != "" && IsValueChar(s[0]) then ValueTail(s[1..]) else s
  }

  /** Always matches, possibly nothing. */
  function PValue(s: string): Pair {
    Spanning(Value, s, ValueRest(s), [])
  }

  function DigitTail(s: string): (r: string)
    ensures |r| <= |s|
    decreases |s|
  {
    var y := Skip(s);
    if y != "" && IsDigit(y[0]) then DigitTail(y[1..]) else s
  }

  /** One digit, a skip that is kept, then any further digits. */
  function DigitsRest(s: string): (r: string)
    requires s != ""
    ensures |r| < |s|
  {
    var y := Skip(s[1..]);
    if y != "" && IsDigit(y[0]) then DigitTail(y[1..]) else y
  }

  function PQuoted(s: string): (r: Parse)
    ensures r.Done? ==> |r.rest| < |s|
  {
    match Lit("\"", s)
    case None => Fail
    case Some(s1) =>
      var v := Skip(s1);
      var s2 := ValueRest(v);
      match Lit("\"", Skip(s2))
      case None => Fail
      case Some(rest) => Done(Spanning(Constant, s, rest, [PValue(v)]), rest)
  }

  function PDigits(s: string): (r: Parse)
    ensures r.Done? ==> |r.rest| < |s|
  {
    if s != "" && IsDigit(s[0]) then Done(Spanning(Constant, s, DigitsRest(s), []), DigitsRest(s)) else Fail
  }

  function PConstant(s: string): (r: Parse)
    ensures r.Done? ==> |r.rest| < |s|
  {
    Or(PQuoted(s), PDigits(s))
  }

  // ----- arguments

  function PDynamicName(s: string): (r: Parse)
    ensures r.Done? ==> |r.rest| < |s|
  {
    Named(DynamicName, Or(Keyword(RandomPath, "random_path", s), Keyword(RandomString, "random_string", s)))
  }

  function PDynamic(s: string): (r: Parse)
    ensures r.Done? ==> |r.rest| < |s|
    decreases |s|, 0
  {
    match PDynamicName(s)
    case Fail => Fail
    case Done(name, s1) =>
      match PArgs(Skip(s1))
      case Fail => Fail
      case Done(args, rest) => Done(Spanning(Dynamic, s, rest, [name, args]), rest)
  }

  function PArg(s: string): (r: Parse)
    ensures r.Done? ==> |r.rest| < |s|
    decreases |s|, 1
  {
    var r := Or(PDynamic(s), Or(PIdent(s), PConstant(s)));
    if r.Fail? then Fail else Done(Spanning(Arg, s, r.rest, [r.pair]), r.rest)
  }

  /** Further arguments, each after a comma. */
  function ArgTail(s: string): (r: Parses)
    ensures |r.rest| <= |s|
    decreases |s|, 0
  {
    match Lit(",", Skip(s))
    case None => Parses([], s)
    case Some(s1) =>
      match PArg(Skip(s1))
      case Fail => Parses([], s)
      case Done(arg, s2) =>
        var more := ArgTail(s2);
        Parses([arg] + more.pairs, more.rest)
  }

  /** `arg ~ ("," ~ arg)* ~ ","?`, or nothing. */
  function ArgList(s: string): (r: Parses)
    ensures |r.rest| <= |s|
    decreases |s|, 2
  {
    match PArg(s)
    case Fail => Parses([], s)
    case Done(arg, s1) =>
      var more := ArgTail(Skip(s1));
      var s2 := Skip(more.rest);
      Parses([arg] + more.pairs, if "," <= s2 then s2[1..] else s2)
  }

  function PArgs(s: string): (r: Parse)
    ensures r.Done? ==> |r.rest| < |s|
    decreases |s|, 3
  {
    match Lit("(", s)
    case None => Fail
    case Some(s1) =>
      var list := ArgList(Skip(s1));
      match Lit(")", Skip(list.rest))
      case None => Fail
      case Some(rest) => Done(Spanning(Args, s, rest, list.pairs), rest)
  }

  // ----- parameters of a work unit

  function PParam(s: string): (r: Parse)
    ensures r.Done? ==> |r.rest| < |s|
  {
    match PIdent(s)
    case Fail => Fail
    case Done(key, s1) =>
      match Lit("=", Skip(s1))
      case None => Fail
      case Some(s2) =>
        var v := Skip(s2);
        Done(Spanning(Param, s, ValueRest(v), [key, PValue(v)]), ValueRest(v))
  }

  function ParamTail(s: string): (r: Parses)
    ensures |r.rest| <= |s|
    decreases |s|
  {
    match Lit(",", Skip(s))
    case None => Parses([], s)
    case Some(s1) =>
      match PParam(Skip(s1))
      case Fail => Parses([], s)
      case Done(param, s2) =>
        var more := ParamTail(s2);
        Parses([param] + more.pairs, more.rest)
  }

  function ParamList(s: string): (r: Parses)
    ensures |r.rest| <= |s|
  {
    match PParam(s)
    case Fail => Parses([], s)
    case Done(param, s1) =>
      var more := ParamTail(Skip(s1));
      var s2 := Skip(more.rest);
      Parses([param] + more.pairs, if "," <= s2 then s2[1..] else s2)
  }

  function PParams(s: string): (r: Parse)
    ensures r.Done? ==> |r.rest| < |s|
  {
    match Lit("(", s)
    case None => Fail
    case Some(s1) =>
      var list := ParamList(Skip(s1));
      match Lit(")", Skip(list.rest))
      case None => Fail
      case Some(rest) => Done(Spanning(Params, s, rest, list.pairs), rest)
  }

  function PWork(s: string): (r: Parse)
    ensures r.Done? ==> |r.rest| < |s|
  {
    match PIdent(s)
    case Fail => Fail
    case Done(name, s1) =>
      var s2 := Skip(s1);
      match PParams(s2)
      case Fail => Done(Spanning(Work, s, s2, [name]), s2)
      case Done(params, rest) => Done(Spanning(Work, s, rest, [name, params]), rest)
  }

  // ----- distributions

  function PDistName(s: string): (r: Parse)
    ensures r.Done? ==> |r.rest| < |s|
  {
    Named(DistName, Or(Keyword(Exp, "exp", s), Or(Keyword(Zipf, "zipf", s), Keyword(Uniform, "uniform", s))))
  }

  function POpt(s: string): (r: Parse)
    ensures r.Done? ==> |r.rest| < |s|
  {
    match PIdent(s)
    case Fail => Fail
    case Done(key, s1) =>
      match Lit("=", Skip(s1))
      case None => Fail
      case Some(s2) =>
        var v := Skip(s2);
        match Lit(";", Skip(ValueRest(v)))
        case None => Fail
        case Some(rest) => Done(Spanning(Opt, s, rest, [key, PValue(v)]), rest)
  }

  function Opts(s: string): (r: Parses)
    ensures |r.rest| <= |s|
    decreases |s|
  {
    match POpt(Skip(s))
    case Fail => Parses([], s)
    case Done(opt, s1) =>
      var more := Opts(s1);
      Parses([opt] + more.pairs, more.rest)
  }

  function PDist(s: string): (r: Parse)
    ensures r.Done? ==> |r.rest| < |s|
  {
    match Lit(":", s)
    case None => Fail
    case Some(s1) =>
      match PDistName(Skip(s1))
      case Fail => Fail
      case Done(name, s2) =>
        match Lit("{", Skip(s2))
        case None => Fail
        case Some(s3) =>
          var opts := Opts(Skip(s3));
          match Lit("}", Skip(opts.rest))
          case None => Fail
          case Some(rest) => Done(Spanning(Dist, s, rest, [name] + opts.pairs), rest)
  }

  // ----- instructions and functions

  function PFuncName(s: string): (r: Parse)
    ensures r.Done? ==> |r.rest| < |s|
  {
    Named(FuncName,
          Or(Keyword(Task, "task", s), Or(Keyword(Network, "network", s), Or(Keyword(Port, "port", s),
          Or(Keyword(Open, "open", s), Or(Keyword(Ping, "ping", s), Keyword(Debug, "debug", s)))))))
  }

  /** `name ~ args? ~ ";"`, for instructions and machine instructions alike. */
  function PCall(rule: Rule, s: string, name: Parse): (r: Parse)
    requires name.Done? ==> |name.rest| < |s|
    ensures r.Done? ==> |r.rest| < |s|
  {
    match name
    case Fail => Fail
    case Done(name, s1) =>
      var s2 := Skip(s1);
      var args := PArgs(s2);
      var s3 := if args.Done? then args.rest else s2;
      match Lit(";", Skip(s3))
      case None => Fail
      case Some(rest) =>
        Done(Spanning(rule, s, rest, [name] + if args.Done? then [args.pair] else []), rest)
  }

  function PInstruction(s: string): (r: Parse)
    ensures r.Done? ==> |r.rest| < |s|
  {
    PCall(Instruction, s, PFuncName(s))
  }

  function PExpr(s: string): (r: Parse)
    ensures r.Done? ==> |r.rest| < |s|
    decreases |s|, 1
  {
    var r := Or(PFunction(s), PInstruction(s));
    if r.Fail? then Fail else Done(Spanning(Expr, s, r.rest, [r.pair]), r.rest)
  }

  function Exprs(s: string): (r: Parses)
    ensures |r.rest| <= |s|
    decreases |s|, 2
  {
    match PExpr(Skip(s))
    case Fail => Parses([], s)
    case Done(expr, s1) =>
      var more := Exprs(s1);
      Parses([expr] + more.pairs, more.rest)
  }

  function PFunction(s: string): (r: Parse)
    ensures r.Done? ==> |r.rest| < |s|
    decreases |s|, 0
  {
    match PWork(s)
    case Fail => Fail
    case Done(work, s1) =>
      match Lit("{", Skip(s1))
      case None => Fail
      case Some(s2) =>
        var s3 := Skip(s2);
        var body := Exprs(s3);
        match Lit("}", Skip(body.rest))
        case None => Fail
        case Some(s4) =>
          var s5 := Skip(s4);
          var instrs := Spanning(Instructions, s3, body.rest, body.pairs);
          match PDist(s5)
          case Fail => Done(Spanning(Function, s, s5, [work, instrs]), s5)
          case Done(dist, rest) => Done(Spanning(Function, s, rest, [work, instrs, dist]), rest)
  }

  // ----- machine and file

  function PMInstrName(s: string): (r: Parse)
    ensures r.Done? ==> |r.rest| < |s|
  {
    Named(MInstrName,
          Or(Keyword(Server, "server", s), Or(Keyword(Load, "load", s), Or(Keyword(Memory, "memory", s),
          Or(Keyword(Profile, "profile", s), Keyword(Path, "path", s))))))
  }

  function PMachineInstruction(s: string): (r: Parse)
    ensures r.Done? ==> |r.rest| < |s|
  {
    PCall(MachineInstruction, s, PMInstrName(s))
  }

  function MInstrs(s: string): (r: Parses)
    ensures |r.rest| <= |s|
    decreases |s|
  {
    match PMachineInstruction(Skip(s))
    case Fail => Parses([], s)
    case Done(instr, s1) =>
      var more := MInstrs(s1);
      Parses([instr] + more.pairs, more.rest)
  }

  function PMachine(s: string): (r: Parse)
    ensures r.Done? ==> |r.rest| < |s|
  {
    match Lit("machine", s)
    case None => Fail
    case Some(s1) =>
      match Lit("{", Skip(s1))
      case None => Fail
      case Some(s2) =>
        var body := MInstrs(Skip(s2));
        match Lit("}", Skip(body.rest))
        case None => Fail
        case Some(rest) => Done(Spanning(Machine, s, rest, body.pairs), rest)
  }

  /** The whole source, or nothing. */
  function PFile(s: string): Option<Pair> {
    var s1 := Skip(s);
    var m := PMachine(s1);
    var s2 := Skip(if m.Done? then m.rest else s1);
    var body := Exprs(s2);
    if Skip(body.rest) != "" then None
    else Some(Pair(File, s, (if m.Done? then [m.pair] else []) + body.pairs + [Pair(EOI, "", [])]))
  }
}
