/**
 Which accepted sources the builder can handle.  The grammar accepts more than the
 builder does; Supported describes, on the tree alone, exactly the part on which
 the builder returns instead of panicking.
 */
module Totality {
  import opened Common
  import opened Grammar
  import opened Shape
  import opened Builder
  import A = Ast
  import Decimal

  /** A constant in quotes, as opposed to a row of digits. */
  predicate IsQuoted(p: Pair) {
    p.rule == Constant && p.inner != []
  }

  /** What a dynamic helper may be given: quoted text, or another helper. */
  predicate SupportedHelperArg(p: Pair) {
    p.inner != [] && (IsQuoted(p.inner[0]) || p.inner[0].rule == Dynamic)
  }

  predicate SupportedArg(p: Pair) {
    p.inner != [] &&
    var a := p.inner[0];
    || a.rule == Ident
    || IsQuoted(a)
    || (a.rule == Dynamic && |a.inner| == 2 && forall q :: q in a.inner[1].inner ==> SupportedHelperArg(q))
  }

  /** A name with a list of one or more arguments. */
  predicate HasArgs(p: Pair) {
    |p.inner| == 2 && p.inner[0].inner != [] && p.inner[1].inner != []
  }

  predicate SupportedInstruction(p: Pair) {
    p.inner != [] &&
    var i := p.inner[0];
    && i.rule == Instruction && HasArgs(i)
    && i.inner[0].inner[0].rule in {Task, Open, Debug, Ping}
    && forall q :: q in i.inner[1].inner ==> SupportedArg(q)
  }

  predicate SupportedMInstruction(p: Pair) {
    HasArgs(p) &&
    var arg := p.inner[1].inner[0];
    match p.inner[0].inner[0].rule
    case Server => Decimal.IsPort(arg.text)
    case Profile => true
    case Path => arg.inner != [] && IsQuoted(arg.inner[0])
    case _ => false
  }

  /** The value of the last `rate` option, or zero. */
  function LastRate(ps: seq<Pair>): string {
    if ps == [] then "0"
    else
      var p := ps[|ps| - 1];
      if p.rule == Opt && |p.inner| == 2 && p.inner[0].text == "rate" then p.inner[1].text
      else LastRate(ps[..|ps| - 1])
  }

  predicate SupportedFunction(read: ReadF64, p: Pair) {
    && p.rule == Function && |p.inner| >= 2
    && |p.inner[0].inner| == 2
    && (forall q :: q in p.inner[1].inner ==> SupportedInstruction(q))
    && (|p.inner| == 3 ==> read(LastRate(p.inner[2].inner)).Some?)
  }

  predicate SupportedItem(read: ReadF64, p: Pair) {
    match p.rule
    case Machine => forall q :: q in p.inner ==> SupportedMInstruction(q)
    case Expr => p.inner != [] && SupportedFunction(read, p.inner[0])
    case _ => false
  }

  predicate Supported(read: ReadF64, tree: Pair) {
    forall i :: 0 <= i < |tree.inner| - 1 ==> SupportedItem(read, tree.inner[i])
  }

  // ----- what is built, read off the tree

  /** The argument of a helper: the text of a constant, or the name of another helper. */
  predicate HelperArgBuilt(p: Pair, b: A.Arg) {
    p.inner != [] && p.inner[0].inner != [] && b == A.Const(p.inner[0].inner[0].text)
  }

  predicate ArgBuilt(p: Pair, a: A.Arg) {
    p.inner != [] &&
    var q := p.inner[0];
    match q.rule
    case Ident => a == A.Var(q.text)
    case Constant => q.inner != [] && a == A.Const(q.inner[0].text)
    case Dynamic =>
      && |q.inner| == 2 && a.Dynamic? && a.name == q.inner[0].text && |a.args| == |q.inner[1].inner|
      && forall i :: 0 <= i < |a.args| ==> HelperArgBuilt(q.inner[1].inner[i], a.args[i])
    case _ => false
  }

  /** A task takes its name and all further arguments in order; the others take their first argument. */
  predicate InstructionBuilt(p: Pair, i: A.Instruction) {
    && SupportedInstruction(p)
    && var ps := p.inner[0].inner[1].inner;
       match p.inner[0].inner[0].inner[0].rule
       case Task =>
         && i.Task? && ArgBuilt(ps[0], i.name) && |i.args| == |ps| - 1
         && forall k :: 0 <= k < |i.args| ==> ArgBuilt(ps[k + 1], i.args[k])
       case Open => i.Open? && ArgBuilt(ps[0], i.path)
       case Debug => i.Debug? && ArgBuilt(ps[0], i.text)
       case Ping => i.Ping? && ArgBuilt(ps[0], i.server)
       case _ => false
  }

  predicate MInstructionBuilt(p: Pair, m: A.MachineInstruction) {
    && SupportedMInstruction(p)
    && var arg := p.inner[1].inner[0];
       match p.inner[0].inner[0].rule
       case Server => m == A.MachineInstruction.Server(Decimal.Positional(Decimal.Unsigned(arg.text)))
       case Profile => m == A.MachineInstruction.Profile(arg.text)
       case Path => m == A.MachineInstruction.Path(arg.inner[0].inner[0].text)
       case _ => false
  }

  /** Key and value of an entry, by their texts. */
  function EntryTexts(ps: seq<Pair>): (es: seq<(string, string)>)
    requires forall i :: 0 <= i < |ps| ==> |ps[i].inner| == 2
    ensures |es| == |ps|
    ensures forall i :: 0 <= i < |ps| ==> es[i] == (ps[i].inner[0].text, ps[i].inner[1].text)
  {
    seq(|ps|, i requires 0 <= i < |ps| => (ps[i].inner[0].text, ps[i].inner[1].text))
  }

  /** The i-th entry is the last one of key k. */
  predicate LastOf(es: seq<(string, string)>, k: string, i: nat) {
    i < |es| && es[i].0 == k && forall j :: i < j < |es| ==> es[j].0 != k
  }

  /** A map with the keys of the entries, each with the value of its last entry. */
  ghost predicate LastWins(es: seq<(string, string)>, m: map<string, string>) {
    && (forall i :: 0 <= i < |es| ==> es[i].0 in m)
    && (forall k :: k in m ==> exists i: nat :: LastOf(es, k, i) && m[k] == es[i].1)
  }

  ghost predicate EntriesBuilt(ps: seq<Pair>, m: map<string, string>) {
    (forall i :: 0 <= i < |ps| ==> |ps[i].inner| == 2) && LastWins(EntryTexts(ps), m)
  }

  ghost predicate FunctionBuilt(read: ReadF64, p: Pair, n: A.Node) {
    && SupportedFunction(read, p) && n.Work?
    && p.inner[0].inner[0].text == n.name
    && EntriesBuilt(p.inner[0].inner[1].inner, n.args)
    && |n.instructions| == |p.inner[1].inner|
    && (forall i :: 0 <= i < |n.instructions| ==> InstructionBuilt(p.inner[1].inner[i], n.instructions[i]))
    && (|p.inner| == 2 ==> n.dist.None?)
    && (|p.inner| == 3 ==> n.dist == Some(A.Dist.Exp(read(LastRate(p.inner[2].inner)).value)))
  }

  ghost predicate ItemBuilt(read: ReadF64, p: Pair, n: A.Node) {
    match p.rule
    case Machine =>
      && n.Machine? && |n.mInstructions| == |p.inner|
      && forall i :: 0 <= i < |p.inner| ==> MInstructionBuilt(p.inner[i], n.mInstructions[i])
    case Expr => p.inner != [] && FunctionBuilt(read, p.inner[0], n)
    case _ => false
  }

  // ----- arguments

  lemma HelperArgTotal(p: Pair)
    requires Shaped(p) && p.rule == Arg
    ensures BuildHelperArg(p).Ok? <==> SupportedHelperArg(p)
    ensures BuildHelperArg(p).Ok? ==> HelperArgBuilt(p, BuildHelperArg(p).value)
  {
    hide Shape.Shaped;
    ArgParts(p);
  }

  /** A helper given to a helper is reduced to its name; its own arguments are lost. */
  lemma NestedHelperReduced(p: Pair)
    requires Shaped(p) && p.rule == Arg && |p.inner| == 1 && p.inner[0].rule == Dynamic
    ensures p.inner[0].inner != [] && p.inner[0].inner[0].rule == DynamicName
    ensures BuildHelperArg(p) == Ok(A.Const(p.inner[0].inner[0].text))
  {
    assert Shaped(p.inner[0]);
  }

  lemma HelperArgsTotal(ps: seq<Pair>)
    requires AllShaped(ps) && AllOf(ps, Arg)
    ensures BuildHelperArgs(ps).Ok? <==> forall q :: q in ps ==> SupportedHelperArg(q)
    ensures BuildHelperArgs(ps).Ok? ==>
              var args := BuildHelperArgs(ps).value;
              |args| == |ps| && forall i :: 0 <= i < |ps| ==> HelperArgBuilt(ps[i], args[i])
  {
    hide Builder.BuildHelperArg, SupportedHelperArg, HelperArgBuilt, Shape.LocalShape;
    CollectAll(HelperArgResults(ps));
    forall i | 0 <= i < |ps|
      ensures BuildHelperArg(ps[i]).Ok? <==> SupportedHelperArg(ps[i])
      ensures BuildHelperArg(ps[i]).Ok? ==> HelperArgBuilt(ps[i], BuildHelperArg(ps[i]).value)
    {
      HelperArgTotal(ps[i]);
    }
  }

  lemma ArgTotal(p: Pair)
    requires Shaped(p) && p.rule == Arg
    ensures BuildArg(p).Ok? <==> SupportedArg(p)
    ensures BuildArg(p).Ok? ==> ArgBuilt(p, BuildArg(p).value)
  {
    hide Shape.Shaped, Builder.BuildHelperArgs, SupportedHelperArg, HelperArgBuilt;
    ArgParts(p);
    var a := p.inner[0];
    if a.rule == Dynamic {
      DynamicParts(a);
      HelperArgsTotal(a.inner[1].inner);
    }
  }

  lemma ArgsTotal(ps: seq<Pair>)
    requires AllShaped(ps) && AllOf(ps, Arg)
    ensures BuildArgs(ps).Ok? <==> forall q :: q in ps ==> SupportedArg(q)
    ensures BuildArgs(ps).Ok? ==>
              var args := BuildArgs(ps).value;
              |args| == |ps| && forall i :: 0 <= i < |ps| ==> ArgBuilt(ps[i], args[i])
  {
    hide Builder.BuildArg, SupportedArg, ArgBuilt, Shape.LocalShape;
    CollectAll(ArgResults(ps));
    forall i | 0 <= i < |ps|
      ensures BuildArg(ps[i]).Ok? <==> SupportedArg(ps[i])
      ensures BuildArg(ps[i]).Ok? ==> ArgBuilt(ps[i], BuildArg(ps[i]).value)
    {
      ArgTotal(ps[i]);
    }
  }

  // ----- instructions

  lemma InstructionTotal(p: Pair)
    requires Shaped(p) && p.rule == Expr
    ensures BuildInstruction(p).Ok? <==> SupportedInstruction(p)
    ensures BuildInstruction(p).Ok? ==> InstructionBuilt(p, BuildInstruction(p).value)
  {
    hide Shape.Shaped, Builder.BuildArgs, SupportedArg, ArgBuilt;
    ExprParts(p);
    var i := p.inner[0];
    if i.rule == Function {
      NestedFunctionPanics(p);
    } else {
      CallParts(i);
      if |i.inner| == 2 {
        ArgsTotal(i.inner[1].inner);
      }
    }
  }

  /** A function inside a function is never built, whatever it contains. */
  lemma NestedFunctionPanics(p: Pair)
    requires Shaped(p) && p.rule == Expr && |p.inner| == 1 && Shaped(p.inner[0]) && p.inner[0].rule == Function
    ensures BuildInstruction(p).Panic?
  {
    hide Shape.Shaped;
    FunctionParts(p.inner[0]);
    var ps := p.inner[0].inner[1].inner;
    CollectAll(ArgResults(ps));
    if ps != [] {
      ExprParts(ps[0]);
      assert BuildArg(ps[0]).Panic?;
    }
  }

  lemma InstructionsTotal(ps: seq<Pair>)
    requires AllShaped(ps) && AllOf(ps, Expr)
    ensures BuildInstructions(ps).Ok? <==> forall q :: q in ps ==> SupportedInstruction(q)
    ensures BuildInstructions(ps).Ok? ==>
              var body := BuildInstructions(ps).value;
              |body| == |ps| && forall k :: 0 <= k < |ps| ==> InstructionBuilt(ps[k], body[k])
  {
    hide Builder.BuildInstruction, SupportedInstruction, InstructionBuilt, Shape.LocalShape;
    CollectAll(InstructionResults(ps));
    forall i | 0 <= i < |ps|
      ensures BuildInstruction(ps[i]).Ok? <==> SupportedInstruction(ps[i])
      ensures BuildInstruction(ps[i]).Ok? ==> InstructionBuilt(ps[i], BuildInstruction(ps[i]).value)
    {
      InstructionTotal(ps[i]);
    }
  }

  lemma MInstructionTotal(p: Pair)
    requires Shaped(p) && p.rule == MachineInstruction
    ensures BuildMInstruction(p).Ok? <==> SupportedMInstruction(p)
    ensures BuildMInstruction(p).Ok? ==> MInstructionBuilt(p, BuildMInstruction(p).value)
  {
    hide Shape.Shaped, Decimal.ParseU16, Decimal.IsPort, Decimal.Positional;
    CallParts(p);
    if |p.inner| == 2 && p.inner[1].inner != [] {
      ArgParts(p.inner[1].inner[0]);
      Decimal.ParseU16Exactly(p.inner[1].inner[0].text);
    }
  }

  lemma MInstructionsTotal(ps: seq<Pair>)
    requires AllShaped(ps) && AllOf(ps, MachineInstruction)
    ensures BuildMInstructions(ps).Ok? <==> forall q :: q in ps ==> SupportedMInstruction(q)
    ensures BuildMInstructions(ps).Ok? ==>
              var ms := BuildMInstructions(ps).value;
              |ms| == |ps| && forall i :: 0 <= i < |ps| ==> MInstructionBuilt(ps[i], ms[i])
  {
    hide Builder.BuildMInstruction, SupportedMInstruction, MInstructionBuilt, Shape.LocalShape;
    CollectAll(MInstructionResults(ps));
    forall i | 0 <= i < |ps|
      ensures BuildMInstruction(ps[i]).Ok? <==> SupportedMInstruction(ps[i])
      ensures BuildMInstruction(ps[i]).Ok? ==> MInstructionBuilt(ps[i], BuildMInstruction(ps[i]).value)
    {
      MInstructionTotal(ps[i]);
    }
  }

  // ----- work units

  lemma WorkTotal(p: Pair)
    requires Shaped(p) && p.rule == Work
    ensures BuildWork(p).Ok? <==> |p.inner| == 2
    ensures BuildWork(p).Ok? ==>
              BuildWork(p).value.0 == p.inner[0].text && EntriesBuilt(p.inner[1].inner, BuildWork(p).value.1)
  {
    hide Shape.Shaped, EntriesBuilt, Builder.BuildParam, Builder.ToMap;
    WorkParts(p);
    if |p.inner| == 2 {
      ParamsTotal(p.inner[1].inner);
    }
  }

  lemma ParamsTotal(ps: seq<Pair>)
    requires AllShaped(ps) && AllOf(ps, Param)
    ensures BuildParams(ps).Ok? && EntriesBuilt(ps, ToMap(BuildParams(ps).value))
  {
    hide Shape.Shaped, LastWins, Builder.ToMap;
    CollectAll(ParamResults(ps));
    forall i | 0 <= i < |ps|
      ensures |ps[i].inner| == 2 && BuildParam(ps[i]) == Ok((ps[i].inner[0].text, ps[i].inner[1].text))
    {
      EntryParts(ps[i]);
    }
    assert BuildParams(ps).value == EntryTexts(ps);
    MapOfEntries(EntryTexts(ps));
  }

  /** Collecting entries into a map keeps the last value of each key. */
  lemma {:induction false} MapOfEntries(es: seq<(string, string)>)
    ensures LastWins(es, ToMap(es))
  {
    if es != [] {
      var n := |es| - 1;
      MapOfEntries(es[..n]);
      LastWinsNext(es[..n], ToMap(es[..n]), es[n]);
      assert es[..n] + [es[n]] == es;
    }
  }

  lemma LastWinsNext(es: seq<(string, string)>, m: map<string, string>, e: (string, string))
    requires LastWins(es, m)
    ensures LastWins(es + [e], m[e.0 := e.1])
  {
    var all, m' := es + [e], m[e.0 := e.1];
    forall k | k in m'
      ensures exists i: nat :: LastOf(all, k, i) && m'[k] == all[i].1
    {
      if k == e.0 {
        assert LastOf(all, k, |es|);
      } else {
        var i: nat :| LastOf(es, k, i) && m[k] == es[i].1;
        assert LastOf(all, k, i);
      }
    }
  }

  /** The rate the builder reads is that of the last `rate` option. */
  lemma {:induction false} RateIsLast(ps: seq<Pair>)
    requires forall i :: 0 <= i < |ps| && ps[i].rule == Opt ==> |ps[i].inner| == 2
    ensures BuildOpts(OfRule(ps, Opt)).Ok?
    ensures RateText(ToMap(BuildOpts(OfRule(ps, Opt)).value)) == LastRate(ps)
  {
    if ps != [] {
      var n := |ps| - 1;
      RateIsLast(ps[..n]);
      var front := OfRule(ps[..n], Opt);
      if ps[n].rule == Opt {
        BuildOptsNext(front, ps[n]);
        var entries := BuildOpts(front).value;
        var last := (ps[n].inner[0].text, ps[n].inner[1].text);
        assert (entries + [last])[..|entries|] == entries;
      } else {
        assert OfRule(ps, Opt) == front;
      }
    }
  }

  lemma BuildOptsNext(ps: seq<Pair>, p: Pair)
    requires BuildOpts(ps).Ok? && |p.inner| == 2
    ensures BuildOpts(ps + [p]) == Ok(BuildOpts(ps).value + [(p.inner[0].text, p.inner[1].text)])
  {
    var qs := ps + [p];
    var rs := EntryResults(qs);
    assert rs[..|ps|] == EntryResults(ps);
  }

  lemma DistTotal(read: ReadF64, p: Pair)
    requires Shaped(p) && p.rule == Dist
    ensures BuildDist(read, p).Ok? <==> read(LastRate(p.inner)).Some?
    ensures BuildDist(read, p).Ok? ==> BuildDist(read, p).value == A.Dist.Exp(read(LastRate(p.inner)).value)
  {
    forall i | 0 <= i < |p.inner| && p.inner[i].rule == Opt
      ensures |p.inner[i].inner| == 2
    {
      EntryParts(p.inner[i]);
    }
    RateIsLast(p.inner);
  }

  /** Distributions with the same options are built alike, whatever they are called. */
  lemma DistNameIgnored(read: ReadF64, p: Pair, q: Pair)
    requires Shaped(p) && Shaped(q) && p.rule == Dist && q.rule == Dist && p.inner[1..] == q.inner[1..]
    ensures BuildDist(read, p) == BuildDist(read, q)
  {
    OptsOf(p);
    OptsOf(q);
  }

  lemma OptsOf(p: Pair)
    requires Shaped(p) && p.rule == Dist
    ensures OfRule(p.inner, Opt) == p.inner[1..]
  {
    SkipHead(p.inner);
  }

  lemma {:induction false} SkipHead(ps: seq<Pair>)
    requires ps != [] && ps[0].rule == DistName && AllOf(ps[1..], Opt)
    ensures OfRule(ps, Opt) == ps[1..]
  {
    var n := |ps| - 1;
    if n > 0 {
      assert ps[n] == ps[1..][n - 1];
      assert forall i :: 0 <= i < n - 1 ==> ps[..n][1..][i] == ps[1..][i];
      SkipHead(ps[..n]);
      assert ps[1..] == ps[..n][1..] + [ps[n]];
    } else {
      assert ps[..0] == [];
    }
  }

  lemma FunctionTotal(read: ReadF64, p: Pair)
    requires Shaped(p) && p.rule == Function
    ensures BuildFunction(read, p).Ok? <==> SupportedFunction(read, p)
    ensures BuildFunction(read, p).Ok? ==> FunctionBuilt(read, p, BuildFunction(read, p).value)
  {
    hide Shape.Shaped, Builder.BuildWork, Builder.BuildInstructions, Builder.BuildDist;
    hide SupportedInstruction, InstructionBuilt, EntriesBuilt, LastRate;
    FunctionParts(p);
    WorkTotal(p.inner[0]);
    InstructionsTotal(p.inner[1].inner);
    if |p.inner| == 3 {
      DistTotal(read, p.inner[2]);
    }
  }

  lemma ItemTotal(read: ReadF64, p: Pair)
    requires Shaped(p) && (p.rule == Machine || p.rule == Expr)
    ensures BuildExpr(read, p).Ok? <==> SupportedItem(read, p)
    ensures BuildExpr(read, p).Ok? ==> ItemBuilt(read, p, BuildExpr(read, p).value)
  {
    hide Builder.BuildFunction, SupportedFunction, FunctionBuilt, MInstructionBuilt;
    if p.rule == Machine {
      MInstructionsTotal(p.inner);
    } else {
      assert Shaped(p.inner[0]);
      if p.inner[0].rule == Function {
        FunctionTotal(read, p.inner[0]);
      } else {
        InstructionUnsupported(read, p.inner[0]);
      }
    }
  }

  lemma InstructionUnsupported(read: ReadF64, p: Pair)
    requires p.rule == Instruction
    ensures !SupportedFunction(read, p)
  {
  }

  // ----- files

  lemma TopLevelOfFile(tree: Pair)
    requires Shaped(tree) && tree.rule == File
    ensures TopLevel(tree.inner) == tree.inner[..|tree.inner| - 1]
  {
    var n := |tree.inner| - 1;
    TopLevelAll(tree.inner[..n]);
    assert TopLevel(tree.inner) == TopLevel(tree.inner[..n]);
  }

  lemma BuiltIsWork(read: ReadF64, p: Pair, n: A.Node)
    requires ItemBuilt(read, p, n)
    ensures (p.rule == Machine <==> n.Machine?) && (p.rule == Expr <==> n.Work?)
  {
    hide MInstructionBuilt;
  }

  /**
   On an accepted source the builder returns exactly when the tree is supported, and
   then with one node per top-level item, in order, each what its item stands for, where
   only the first can be a machine.
   */
  lemma BuilderTotality(read: ReadF64, source: string)
    requires PFile(source).Some?
    ensures var tree := PFile(source).value;
            && (BuildFile(read, tree).Ok? <==> Supported(read, tree))
            && (BuildFile(read, tree).Ok? ==>
                  var nodes := BuildFile(read, tree).value;
                  && |nodes| == |tree.inner| - 1
                  && (forall i :: 0 <= i < |nodes| ==> ItemBuilt(read, tree.inner[i], nodes[i]))
                  && (forall i :: 0 <= i < |nodes| ==> (nodes[i].Machine? <==> tree.inner[i].rule == Machine))
                  && (forall i :: 1 <= i < |nodes| ==> nodes[i].Work?))
  {
    hide Grammar.PFile, Builder.BuildExpr, SupportedItem, ItemBuilt;
    FileShaped(source);
    var tree := PFile(source).value;
    TopLevelOfFile(tree);
    var n := |tree.inner| - 1;
    var ps := tree.inner[..n];
    CollectAll(NodeResults(read, ps));
    forall i | 0 <= i < n
      ensures BuildExpr(read, ps[i]).Ok? <==> SupportedItem(read, tree.inner[i])
      ensures BuildExpr(read, ps[i]).Ok? ==> ItemBuilt(read, tree.inner[i], BuildExpr(read, ps[i]).value)
    {
      assert Shaped(tree.inner[i]);
      ItemTotal(read, tree.inner[i]);
    }
    if BuildFile(read, tree).Ok? {
      forall i | 0 <= i < n
        ensures tree.inner[i].rule == Machine <==> BuildFile(read, tree).value[i].Machine?
      {
        BuiltIsWork(read, tree.inner[i], BuildFile(read, tree).value[i]);
      }
    }
  }
}
