/**
 A printer for scripts, as a specification of the parser.  It works backwards: a
 phrase is printed in front of the text that follows it, and a layout chooses
 the whitespace and comments after each token and whether a list gets a trailing
 comma, depending on the token and on all the text that follows.  No two tokens of a
 source are followed by the same text, so a layout can treat every place differently.
 */
module Printer {
  import opened Common
  import opened Grammar
  import opened Shape
  import A = Ast
  import Decimal

  datatype Layout = Layout(pad: (string, string) -> string, comma: string -> bool)

  /** Only whitespace and comments, every comment closed by a newline. */
  predicate SkipText(p: string)
    decreases |p|
  {
    if p == "" then true
    else if IsSpace(p[0]) then SkipText(p[1..])
    else "//" <= p && SkipLine(p[2..]) != "" && SkipText(SkipLine(p[2..]))
  }

  predicate EndsInSlash(t: string) {
    t != "" && t[|t| - 1] == '/'
  }

  /** A comment directly behind a slash: the slash becomes part of the comment. */
  predicate Swallows(t: string, p: string) {
    EndsInSlash(t) && "//" <= p
  }

  /** What may stand between the token t and the text k; a comment that ends the source needs no newline. */
  predicate Separates(p: string, t: string, k: string) {
    (if k == "" then Skip(p) == "" else SkipText(p)) && !Swallows(t, p)
  }

  ghost predicate IsLayout(w: Layout) {
    forall t, k :: Separates(w.pad(t, k), t, k)
  }

  /** The padding behind the token t, then the text that follows. */
  function Padded(t: string, w: Layout, k: string): string {
    w.pad(t, k) + k
  }

  function Tok(t: string, w: Layout, k: string): string {
    t + Padded(t, w, k)
  }

  /** The end of a non-empty list: a comma if the layout wants one, then the closing text. */
  function ListEnd(w: Layout, close: string): string {
    if w.comma(close) then Tok(",", w, close) else close
  }

  // ----- what can be printed

  /** Text that a value keeps as it is: trimmed, of value characters and inner whitespace, without `//`. */
  predicate IsValueText(t: string) {
    && Trimmed(t)
    && (forall i :: 0 <= i < |t| ==> IsValueChar(t[i]) || IsSpace(t[i]))
    && (forall i :: 0 <= i < |t| - 1 ==> !(t[i] == '/' && t[i + 1] == '/'))
  }

  predicate ValidArg(a: A.Arg) {
    match a
    case Const(text) => IsValueText(text)
    case Var(name) => IsIdentText(name)
    case Dynamic(name, args) =>
      (name == "random_path" || name == "random_string") && forall b :: b in args ==> !b.Var? && ValidArg(b)
  }

  function CallName(i: A.Instruction): string {
    match i
    case Task(_, _) => "task"
    case Open(_) => "open"
    case Debug(_) => "debug"
    case Ping(_) => "ping"
  }

  function Arguments(i: A.Instruction): seq<A.Arg> {
    match i
    case Task(name, args) => [name] + args
    case Open(path) => [path]
    case Debug(text) => [text]
    case Ping(server) => [server]
  }

  /** What a helper makes of one of its arguments: a helper in that place is reduced to its name. */
  function HelperText(a: A.Arg): string {
    match a
    case Const(text) => text
    case Var(name) => name
    case Dynamic(name, _) => name
  }

  function HelperTexts(args: seq<A.Arg>): seq<A.Arg> {
    seq(|args|, i requires 0 <= i < |args| => A.Const(HelperText(args[i])))
  }

  /** The argument that the program makes of a written one. */
  function Reduced(a: A.Arg): A.Arg {
    match a
    case Dynamic(name, args) => A.Arg.Dynamic(name, HelperTexts(args))
    case _ => a
  }

  function ReducedAll(args: seq<A.Arg>): (r: seq<A.Arg>)
    ensures |r| == |args| && forall i :: 0 <= i < |args| ==> r[i] == Reduced(args[i])
  {
    seq(|args|, i requires 0 <= i < |args| => Reduced(args[i]))
  }

  function ReducedInstruction(i: A.Instruction): A.Instruction {
    match i
    case Task(name, args) => A.Instruction.Task(Reduced(name), ReducedAll(args))
    case Open(path) => A.Instruction.Open(Reduced(path))
    case Debug(text) => A.Instruction.Debug(Reduced(text))
    case Ping(server) => A.Instruction.Ping(Reduced(server))
  }

  predicate ValidInstruction(i: A.Instruction) {
    forall a :: a in Arguments(i) ==> ValidArg(a)
  }

  /** A machine instruction as written: the target of a profile can be any argument. */
  datatype MachineSource = Server(port: nat) | Profile(target: A.Arg) | Path(value: string)

  predicate ValidMInstruction(m: MachineSource) {
    match m
    case Server(port) => port < U16
    case Profile(target) => ValidArg(target)
    case Path(value) => IsValueText(value)
  }

  /** A work unit as written: parameters in order, the rate as text. */
  datatype WorkSource = WorkSource(
    name: string,
    params: seq<(string, string)>,
    instructions: seq<A.Instruction>,
    dist: Option<DistSource>)

  /** A distribution as written: its name and its rate. */
  datatype DistSource = DistSource(name: string, rate: string)

  datatype Script = Script(machine: Option<seq<MachineSource>>, works: seq<WorkSource>)

  predicate ValidEntry(e: (string, string)) {
    IsIdentText(e.0) && IsValueText(e.1)
  }

  predicate IsDistName(name: string) {
    name == "exp" || name == "zipf" || name == "uniform"
  }

  predicate ValidWork(u: WorkSource) {
    && IsIdentText(u.name)
    && (forall e :: e in u.params ==> ValidEntry(e))
    && (forall i :: i in u.instructions ==> ValidInstruction(i))
    && (u.dist.Some? ==> IsDistName(u.dist.value.name) && IsValueText(u.dist.value.rate))
  }

  predicate ValidScript(s: Script) {
    && (s.machine.Some? ==> forall m :: m in s.machine.value ==> ValidMInstruction(m))
    && (forall u :: u in s.works ==> ValidWork(u))
  }

  // ----- printing

  function PrintQuoted(t: string, w: Layout, k: string): string {
    Tok("\"", w, Tok(t, w, Tok("\"", w, k)))
  }

  /** The last token of an argument. */
  function EndTok(a: A.Arg): string {
    match a
    case Const(_) => "\""
    case Var(name) => name
    case Dynamic(_, _) => ")"
  }

  function PrintArg(a: A.Arg, w: Layout, k: string): (r: string)
    ensures |Padded(EndTok(a), w, k)| <= |r|
    decreases a, 0
  {
    match a
    case Const(text) => PrintQuoted(text, w, k)
    case Var(name) => Tok(name, w, k)
    case Dynamic(name, args) => Tok(name, w, PrintArgs(args, w, k))
  }

  function PrintArgTail(args: seq<A.Arg>, w: Layout, k: string): (r: string)
    ensures |k| <= |r|
    decreases args, 0
  {
    if args == [] then k
    else Tok(",", w, PrintArg(args[0], w, PrintArgTail(args[1..], w, k)))
  }

  function PrintArgs(args: seq<A.Arg>, w: Layout, k: string): (r: string)
    ensures |Padded(")", w, k)| <= |r|
    decreases args, 1
  {
    var close := Tok(")", w, k);
    Tok("(", w, if args == [] then close else PrintArg(args[0], w, PrintArgTail(args[1..], w, ListEnd(w, close))))
  }

  /** An argument as it stands in the source, quotes, padding and comments included. */
  function RawText(a: A.Arg, w: Layout, k: string): string {
    var s := PrintArg(a, w, k);
    s[..|s| - |Padded(EndTok(a), w, k)|]
  }

  function PrintInstruction(i: A.Instruction, w: Layout, k: string): string {
    Tok(CallName(i), w, PrintArgs(Arguments(i), w, Tok(";", w, k)))
  }

  function PrintInstructions(body: seq<A.Instruction>, w: Layout, k: string): string {
    if body == [] then k else PrintInstruction(body[0], w, PrintInstructions(body[1..], w, k))
  }

  function PrintEntry(e: (string, string), w: Layout, k: string): string {
    Tok(e.0, w, Tok("=", w, Tok(e.1, w, k)))
  }

  function PrintParamTail(es: seq<(string, string)>, w: Layout, k: string): string {
    if es == [] then k
    else Tok(",", w, PrintEntry(es[0], w, PrintParamTail(es[1..], w, k)))
  }

  function PrintParams(es: seq<(string, string)>, w: Layout, k: string): string {
    var close := Tok(")", w, k);
    Tok("(", w, if es == [] then close else PrintEntry(es[0], w, PrintParamTail(es[1..], w, ListEnd(w, close))))
  }

  function PrintDist(dist: Option<DistSource>, w: Layout, k: string): string {
    match dist
    case None => k
    case Some(d) =>
      Tok(":", w, Tok(d.name, w, Tok("{", w, PrintEntry(("rate", d.rate), w, Tok(";", w, Tok("}", w, k))))))
  }

  function PrintWork(u: WorkSource, w: Layout, k: string): string {
    Tok(u.name, w, PrintParams(u.params, w, Tok("{", w,
      PrintInstructions(u.instructions, w, Tok("}", w, PrintDist(u.dist, w, k))))))
  }

  function PrintWorks(us: seq<WorkSource>, w: Layout): string {
    if us == [] then "" else PrintWork(us[0], w, PrintWorks(us[1..], w))
  }

  function PrintMInstruction(m: MachineSource, w: Layout, k: string): string {
    var semi := Tok(";", w, k);
    match m
    case Server(port) => Tok("server", w, Tok("(", w, Tok(Decimal.Dec(port), w, Tok(")", w, semi))))
    case Profile(target) => Tok("profile", w, PrintArgs([target], w, semi))
    case Path(value) => Tok("path", w, PrintArgs([A.Const(value)], w, semi))
  }

  function PrintMInstructions(ms: seq<MachineSource>, w: Layout, k: string): string {
    if ms == [] then k else PrintMInstruction(ms[0], w, PrintMInstructions(ms[1..], w, k))
  }

  function PrintMachine(ms: seq<MachineSource>, w: Layout, k: string): string {
    Tok("machine", w, Tok("{", w, PrintMInstructions(ms, w, Tok("}", w, k))))
  }

  function Print(s: Script, w: Layout): string {
    var works := PrintWorks(s.works, w);
    Padded("", w, match s.machine
                  case None => works
                  case Some(ms) => PrintMachine(ms, w, works))
  }
}
