/**
 From pair trees to the syntax tree.  The builder has no error result of its own:
 wherever a pair is missing, has an unexpected rule or text that does not parse,
 the program panics.  Reading a double from text is a parameter.
 */
module Builder {
  import opened Common
  import opened Grammar
  import A = Ast
  import Decimal

  datatype Result<+T> = Ok(value: T) | Panic {
    predicate IsFailure() { Panic? }
    function PropagateFailure<U>(): Result<U>
      requires Panic?
    {
      Panic
    }
    function Extract(): T
      requires Ok?
    {
      value
    }
  }

  /** `str::parse::<f64>`. */
  type ReadF64 = string -> Option<A.F64>

  /** All results, or a panic if any of them is one. */
  function Collect<T>(rs: seq<Result<T>>): Result<seq<T>> {
    if rs == [] then Ok([])
    else
      var front :- Collect(rs[..|rs| - 1]);
      var last :- rs[|rs| - 1];
      Ok(front + [last])
  }

  lemma {:induction false} CollectAll<T>(rs: seq<Result<T>>)
    ensures Collect(rs).Ok? <==> forall i :: 0 <= i < |rs| ==> rs[i].Ok?
    ensures Collect(rs).Ok? ==>
              |Collect(rs).value| == |rs| && forall i :: 0 <= i < |rs| ==> rs[i] == Ok(Collect(rs).value[i])
  {
    if rs != [] {
      var n := |rs| - 1;
      CollectAll(rs[..n]);
      assert forall i :: 0 <= i < n ==> rs[..n][i] == rs[i];
    }
  }

  /** `first_nested_pair`. */
  function First(p: Pair): Result<Pair> {
    if p.inner == [] then Panic else Ok(p.inner[0])
  }

  /** The n-th inner pair, for chains of `next().expect(..)`. */
  function Inner(p: Pair, n: nat): Result<Pair> {
    if n < |p.inner| then Ok(p.inner[n]) else Panic
  }

  // ----- arguments and instructions

  /** An argument of a dynamic helper: the text two levels down, whatever it is. */
  function BuildHelperArg(p: Pair): Result<A.Arg> {
    var a :- First(p);
    var v :- First(a);
    Ok(A.Const(v.text))
  }

  function HelperArgResults(ps: seq<Pair>): (rs: seq<Result<A.Arg>>)
    ensures |rs| == |ps| && forall i :: 0 <= i < |ps| ==> rs[i] == BuildHelperArg(ps[i])
  {
    seq(|ps|, i requires 0 <= i < |ps| => BuildHelperArg(ps[i]))
  }

  function BuildHelperArgs(ps: seq<Pair>): Result<seq<A.Arg>> {
    Collect(HelperArgResults(ps))
  }

  function BuildArg(p: Pair): Result<A.Arg> {
    var a :- First(p);
    match a.rule
    case Constant =>
      var v :- First(a);
      Ok(A.Const(v.text))
    case Ident => Ok(A.Var(a.text))
    case Dynamic =>
      var name :- Inner(a, 0);
      var list :- Inner(a, 1);
      var args :- BuildHelperArgs(list.inner);
      Ok(A.Arg.Dynamic(name.text, args))
    case _ => Panic
  }

  function ArgResults(ps: seq<Pair>): (rs: seq<Result<A.Arg>>)
    ensures |rs| == |ps| && forall i :: 0 <= i < |ps| ==> rs[i] == BuildArg(ps[i])
  {
    seq(|ps|, i requires 0 <= i < |ps| => BuildArg(ps[i]))
  }

  function BuildArgs(ps: seq<Pair>): Result<seq<A.Arg>> {
    Collect(ArgResults(ps))
  }

  /** Pick the instruction; surplus arguments are ignored except for tasks. */
  function MakeInstruction(rule: Rule, args: seq<A.Arg>): Result<A.Instruction> {
    if args == [] then Panic
    else match rule
      case Task => Ok(A.Instruction.Task(args[0], args[1..]))
      case Open => Ok(A.Instruction.Open(args[0]))
      case Debug => Ok(A.Instruction.Debug(args[0]))
      case Ping => Ok(A.Instruction.Ping(args[0]))
      case _ => Panic
  }

  function BuildInstruction(p: Pair): Result<A.Instruction> {
    var i :- First(p);
    var name :- Inner(i, 0);
    var list :- Inner(i, 1);
    var args :- BuildArgs(list.inner);
    var kind :- First(name);
    MakeInstruction(kind.rule, args)
  }

  function InstructionResults(ps: seq<Pair>): (rs: seq<Result<A.Instruction>>)
    ensures |rs| == |ps| && forall i :: 0 <= i < |ps| ==> rs[i] == BuildInstruction(ps[i])
  {
    seq(|ps|, i requires 0 <= i < |ps| => BuildInstruction(ps[i]))
  }

  function BuildInstructions(ps: seq<Pair>): Result<seq<A.Instruction>> {
    Collect(InstructionResults(ps))
  }

  // ----- machine

  /** `string_from_argument`: the text of a constant, None for the errors it returns. */
  function StringFromArgument(p: Pair): Result<Option<string>> {
    if p.rule != Rule.Arg then Panic
    else
      var a :- First(p);
      if a.rule == Constant || a.rule == Ident then
        var v :- First(a);
        Ok(Some(v.text))
      else Ok(None)
  }

  function BuildMInstruction(p: Pair): Result<A.MachineInstruction> {
    var name :- Inner(p, 0);
    var kind :- First(name);
    match kind.rule
    case Server =>
      var args :- Inner(p, 1);
      var arg :- First(args);
      (match Decimal.ParseU16(arg.text)
       case Some(port) => Ok(A.MachineInstruction.Server(port))
       case None => Panic)
    case Profile =>
      var args :- Inner(p, 1);
      var arg :- First(args);
      Ok(A.MachineInstruction.Profile(arg.text))
    case Path =>
      var args :- Inner(p, 1);
      var arg :- First(args);
      var value :- StringFromArgument(arg);
      (match value
       case Some(text) => Ok(A.MachineInstruction.Path(text))
       case None => Panic)
    case _ => Panic
  }

  function MInstructionResults(ps: seq<Pair>): (rs: seq<Result<A.MachineInstruction>>)
    ensures |rs| == |ps| && forall i :: 0 <= i < |ps| ==> rs[i] == BuildMInstruction(ps[i])
  {
    seq(|ps|, i requires 0 <= i < |ps| => BuildMInstruction(ps[i]))
  }

  function BuildMInstructions(ps: seq<Pair>): Result<seq<A.MachineInstruction>> {
    Collect(MInstructionResults(ps))
  }

  // ----- work units

  /** Key and value of a `param` or an `opt`. */
  function BuildEntry(p: Pair): Result<(string, string)> {
    var key :- Inner(p, 0);
    var value :- Inner(p, 1);
    Ok((key.text, value.text))
  }

  /** `collect::<HashMap<_, _>>`: a later entry replaces an earlier one. */
  function ToMap(entries: seq<(string, string)>): map<string, string> {
    if entries == [] then map[]
    else
      var (k, v) := entries[|entries| - 1];
      ToMap(entries[..|entries| - 1])[k := v]
  }

  function BuildParam(p: Pair): Result<(string, string)> {
    var entry :- BuildEntry(p);
    if p.inner[0].rule == Ident && p.inner[1].rule == Value then Ok(entry) else Panic
  }

  function ParamResults(ps: seq<Pair>): (rs: seq<Result<(string, string)>>)
    ensures |rs| == |ps| && forall i :: 0 <= i < |ps| ==> rs[i] == BuildParam(ps[i])
  {
    seq(|ps|, i requires 0 <= i < |ps| => BuildParam(ps[i]))
  }

  function BuildParams(ps: seq<Pair>): Result<seq<(string, string)>> {
    Collect(ParamResults(ps))
  }

  function BuildWork(p: Pair): Result<(string, map<string, string>)> {
    var name :- Inner(p, 0);
    var params :- Inner(p, 1);
    var entries :- BuildParams(params.inner);
    Ok((name.text, ToMap(entries)))
  }

  /** The pairs of one rule, in order. */
  function OfRule(ps: seq<Pair>, rule: Rule): seq<Pair> {
    if ps == [] then []
    else
      OfRule(ps[..|ps| - 1], rule) + if ps[|ps| - 1].rule == rule then [ps[|ps| - 1]] else []
  }

  function EntryResults(ps: seq<Pair>): (rs: seq<Result<(string, string)>>)
    ensures |rs| == |ps| && forall i :: 0 <= i < |ps| ==> rs[i] == BuildEntry(ps[i])
  {
    seq(|ps|, i requires 0 <= i < |ps| => BuildEntry(ps[i]))
  }

  function BuildOpts(ps: seq<Pair>): Result<seq<(string, string)>> {
    Collect(EntryResults(ps))
  }

  function RateText(opts: map<string, string>): string {
    if "rate" in opts then opts["rate"] else "0"
  }

  /** The name of the distribution is not consulted: the result is always exponential. */
  function BuildDist(read: ReadF64, p: Pair): Result<A.Dist> {
    if p.rule != Dist then Panic
    else
      var opts :- BuildOpts(OfRule(p.inner, Opt));
      match read(RateText(ToMap(opts)))
      case Some(rate) => Ok(A.Dist.Exp(rate))
      case None => Panic
  }

  function BuildFunction(read: ReadF64, p: Pair): Result<A.Node> {
    var work :- Inner(p, 0);
    var instrs :- Inner(p, 1);
    var head :- BuildWork(work);
    var instructions :- BuildInstructions(instrs.inner);
    if |p.inner| < 3 then Ok(A.Node.Work(head.0, head.1, instructions, None))
    else
      var dist :- BuildDist(read, p.inner[2]);
      Ok(A.Node.Work(head.0, head.1, instructions, Some(dist)))
  }

  // ----- file

  function BuildExpr(read: ReadF64, p: Pair): Result<A.Node>
    decreases p
  {
    match p.rule
    case Expr => if p.inner == [] then Panic else BuildExpr(read, p.inner[0])
    case Machine =>
      var instrs :- BuildMInstructions(p.inner);
      Ok(A.Node.Machine(instrs))
    case Function => BuildFunction(read, p)
    case _ => Panic
  }

  /** The top-level pairs the builder looks at. */
  function TopLevel(ps: seq<Pair>): seq<Pair> {
    if ps == [] then []
    else
      var last := ps[|ps| - 1];
      TopLevel(ps[..|ps| - 1]) + if last.rule == Expr || last.rule == Machine then [last] else []
  }

  /** Expressions and the machine are all kept. */
  lemma {:induction false} TopLevelAll(ps: seq<Pair>)
    requires forall i :: 0 <= i < |ps| ==> ps[i].rule == Expr || ps[i].rule == Machine
    ensures TopLevel(ps) == ps
  {
    if ps != [] {
      TopLevelAll(ps[..|ps| - 1]);
    }
  }

  function NodeResults(read: ReadF64, ps: seq<Pair>): (rs: seq<Result<A.Node>>)
    ensures |rs| == |ps| && forall i :: 0 <= i < |ps| ==> rs[i] == BuildExpr(read, ps[i])
  {
    seq(|ps|, i requires 0 <= i < |ps| => BuildExpr(read, ps[i]))
  }

  function BuildNodes(read: ReadF64, ps: seq<Pair>): Result<seq<A.Node>> {
    Collect(NodeResults(read, ps))
  }

  function BuildFile(read: ReadF64, p: Pair): Result<seq<A.Node>> {
    BuildNodes(read, TopLevel(p.inner))
  }

  /** `parse_instructions`: None for a syntax error. */
  function ParseInstructions(read: ReadF64, source: string): Option<Result<seq<A.Node>>> {
    match PFile(source)
    case None => None
    case Some(tree) => Some(BuildFile(read, tree))
  }

  // ----- the loops of the program

  lemma CollectNext<T>(rs: seq<Result<T>>, i: nat)
    requires i < |rs|
    ensures Collect(rs[..i + 1]) ==
            (if Collect(rs[..i]).Panic? || rs[i].Panic? then Panic
             else Ok(Collect(rs[..i]).value + [rs[i].value]))
  {
    assert rs[..i + 1][..i] == rs[..i];
  }

  lemma CollectPanics<T>(rs: seq<Result<T>>, i: nat)
    requires i < |rs| && rs[i].Panic?
    ensures Collect(rs).Panic?
  {
    CollectAll(rs);
  }

  /** `build_ast_from_minstr`. */
  method BuildAstFromMInstr(pairs: seq<Pair>) returns (r: Result<seq<A.MachineInstruction>>)
    ensures r == BuildMInstructions(pairs)
  {
    ghost var rs := MInstructionResults(pairs);
    var instr: seq<A.MachineInstruction> := [];
    for i := 0 to |pairs|
      invariant Collect(rs[..i]) == Ok(instr)
    {
      var next := BuildMInstruction(pairs[i]);
      CollectNext(rs, i);
      if next.Panic? {
        CollectPanics(rs, i);
        return Panic;
      }
      instr := instr + [next.value];
    }
    assert rs[..|pairs|] == rs;
    r := Ok(instr);
  }

  /** `build_ast_from_instr`. */
  method BuildAstFromInstr(pairs: seq<Pair>) returns (r: Result<seq<A.Instruction>>)
    ensures r == BuildInstructions(pairs)
  {
    ghost var rs := InstructionResults(pairs);
    var instr: seq<A.Instruction> := [];
    for i := 0 to |pairs|
      invariant Collect(rs[..i]) == Ok(instr)
    {
      var next := BuildInstruction(pairs[i]);
      CollectNext(rs, i);
      if next.Panic? {
        CollectPanics(rs, i);
        return Panic;
      }
      instr := instr + [next.value];
    }
    assert rs[..|pairs|] == rs;
    r := Ok(instr);
  }

  /** The loop over the file's pairs: expressions and the machine are built, the rest is passed over. */
  method BuildAst(read: ReadF64, inner: seq<Pair>) returns (r: Result<seq<A.Node>>)
    ensures r == BuildNodes(read, TopLevel(inner))
  {
    var ast: seq<A.Node> := [];
    for i := 0 to |inner|
      invariant BuildNodes(read, TopLevel(inner[..i])) == Ok(ast)
    {
      assert inner[..i + 1][..i] == inner[..i];
      if inner[i].rule == Expr || inner[i].rule == Machine {
        var node := BuildExpr(read, inner[i]);
        BuildNodesNext(read, TopLevel(inner[..i]), inner[i]);
        if node.Panic? {
          TopLevelPanics(read, inner, i);
          return Panic;
        }
        ast := ast + [node.value];
      } else {
        assert TopLevel(inner[..i + 1]) == TopLevel(inner[..i]);
      }
    }
    assert inner[..|inner|] == inner;
    r := Ok(ast);
  }

  lemma BuildNodesNext(read: ReadF64, ps: seq<Pair>, p: Pair)
    ensures BuildNodes(read, ps + [p]) ==
            (if BuildNodes(read, ps).Panic? || BuildExpr(read, p).Panic? then Panic
             else Ok(BuildNodes(read, ps).value + [BuildExpr(read, p).value]))
  {
    var qs := ps + [p];
    var rs := NodeResults(read, qs);
    assert rs[..|ps|] == NodeResults(read, ps);
  }

  lemma {:induction false} TopLevelPanics(read: ReadF64, ps: seq<Pair>, i: nat)
    requires i < |ps| && (ps[i].rule == Expr || ps[i].rule == Machine)
    requires BuildExpr(read, ps[i]).Panic?
    ensures BuildNodes(read, TopLevel(ps)).Panic?
  {
    hide BuildExpr, BuildNodes;
    var n := |ps| - 1;
    BuildNodesNext(read, TopLevel(ps[..n]), ps[n]);
    if i < n {
      TopLevelPanics(read, ps[..n], i);
      assert TopLevel(ps) == TopLevel(ps[..n]) || TopLevel(ps) == TopLevel(ps[..n]) + [ps[n]];
    }
  }
}
