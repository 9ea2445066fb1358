/**
 What every tree the grammar produces looks like: which pairs a pair can have
 inside it, what an identifier's text is, and that no value's text starts or ends
 with whitespace.
 */
module Shape {
  import opened Common
  import opened Grammar

  predicate IsIdentText(s: string) {
    s != "" && IsIdentStart(s[0]) && forall i :: 1 <= i < |s| ==> IsIdentChar(s[i])
  }

  predicate Trimmed(s: string) {
    s != "" ==> !IsSpace(s[0]) && !IsSpace(s[|s| - 1])
  }

  /** The text of a keyword. */
  function Word(rule: Rule): Option<string> {
    match rule
    case Task => Some("task")
    case Network => Some("network")
    case Port => Some("port")
    case Open => Some("open")
    case Ping => Some("ping")
    case Debug => Some("debug")
    case Exp => Some("exp")
    case Zipf => Some("zipf")
    case Uniform => Some("uniform")
    case Server => Some("server")
    case Load => Some("load")
    case Memory => Some("memory")
    case Profile => Some("profile")
    case Path => Some("path")
    case RandomPath => Some("random_path")
    case RandomString => Some("random_string")
    case _ => None
  }

  /** Exactly one pair inside, of one of the given rules. */
  predicate Wraps(p: Pair, rules: set<Rule>) {
    |p.inner| == 1 && p.inner[0].rule in rules
  }

  predicate AllOf(ps: seq<Pair>, rule: Rule) {
    forall i :: 0 <= i < |ps| ==> ps[i].rule == rule
  }

  /** A name, then optionally one more pair. */
  predicate HeadAnd(p: Pair, head: Rule, opt: Rule) {
    1 <= |p.inner| <= 2 && p.inner[0].rule == head && (|p.inner| == 2 ==> p.inner[1].rule == opt)
  }

  /** The children a pair may have, by its rule. */
  predicate LocalShape(p: Pair) {
    match p.rule
    case File =>
      && p.inner != [] && p.inner[|p.inner| - 1].rule == EOI
      && (forall i :: 0 <= i < |p.inner| - 1 ==>
            p.inner[i].rule == Expr || (i == 0 && p.inner[i].rule == Machine))
    case Machine => AllOf(p.inner, MachineInstruction)
    case MachineInstruction => HeadAnd(p, MInstrName, Args)
    case MInstrName => Wraps(p, {Server, Load, Memory, Profile, Path})
    case Expr => Wraps(p, {Function, Instruction})
    case Function =>
      && 2 <= |p.inner| <= 3 && p.inner[0].rule == Work && p.inner[1].rule == Instructions
      && (|p.inner| == 3 ==> p.inner[2].rule == Dist)
    case Work => HeadAnd(p, Ident, Params)
    case Params => AllOf(p.inner, Param)
    case Param => |p.inner| == 2 && p.inner[0].rule == Ident && p.inner[1].rule == Value
    case Opt => |p.inner| == 2 && p.inner[0].rule == Ident && p.inner[1].rule == Value
    case Instructions => AllOf(p.inner, Expr)
    case Instruction => HeadAnd(p, FuncName, Args)
    case FuncName => Wraps(p, {Task, Network, Port, Open, Ping, Debug})
    case Args => AllOf(p.inner, Arg)
    case Arg => Wraps(p, {Dynamic, Ident, Constant})
    case Dynamic => |p.inner| == 2 && p.inner[0].rule == DynamicName && p.inner[1].rule == Args
    case DynamicName => Wraps(p, {RandomPath, RandomString})
    case Constant => p.inner == [] || Wraps(p, {Value})
    case Dist => p.inner != [] && p.inner[0].rule == DistName && AllOf(p.inner[1..], Opt)
    case DistName => Wraps(p, {Exp, Zipf, Uniform})
    case Ident => p.inner == [] && IsIdentText(p.text)
    case Value => p.inner == [] && Trimmed(p.text)
    case _ => p.inner == []
  }

  predicate Shaped(p: Pair) {
    LocalShape(p) && forall q :: q in p.inner ==> Shaped(q)
  }

  predicate AllShaped(ps: seq<Pair>) {
    forall q :: q in ps ==> Shaped(q)
  }

  // ----- the shape of one pair, rule by rule

  lemma InnerShaped(p: Pair, i: nat)
    requires Shaped(p) && i < |p.inner|
    ensures Shaped(p.inner[i])
  {
    hide LocalShape;
    assert p.inner[i] in p.inner;
  }

  /** The rule of the items of a list production. */
  function ItemRule(rule: Rule): Option<Rule> {
    match rule
    case Machine => Some(MachineInstruction)
    case Params => Some(Param)
    case Instructions => Some(Expr)
    case Args => Some(Arg)
    case _ => None
  }

  /** A list production holds items of its own kind and nothing else. */
  lemma ListParts(p: Pair)
    requires ItemRule(p.rule).Some?
    ensures Shaped(p) <==> AllOf(p.inner, ItemRule(p.rule).value) && AllShaped(p.inner)
  {
  }

  lemma ArgParts(p: Pair)
    requires Shaped(p) && p.rule == Arg
    ensures |p.inner| == 1 && Shaped(p.inner[0])
    ensures p.inner[0].rule == Dynamic || p.inner[0].rule == Ident || p.inner[0].rule == Constant
    ensures p.inner[0].rule == Ident ==> p.inner[0].inner == []
    ensures p.inner[0].rule == Dynamic ==> p.inner[0].inner != []
  {
    InnerShaped(p, 0);
  }

  lemma DynamicParts(p: Pair)
    requires Shaped(p) && p.rule == Dynamic
    ensures |p.inner| == 2 && AllOf(p.inner[1].inner, Arg) && AllShaped(p.inner[1].inner)
  {
    hide AllOf, AllShaped;
    InnerShaped(p, 1);
    ListParts(p.inner[1]);
  }

  lemma ExprParts(p: Pair)
    requires Shaped(p) && p.rule == Expr
    ensures |p.inner| == 1 && Shaped(p.inner[0])
    ensures p.inner[0].rule == Function || p.inner[0].rule == Instruction
  {
    InnerShaped(p, 0);
  }

  lemma CallLocal(p: Pair)
    requires LocalShape(p) && (p.rule == Instruction || p.rule == MachineInstruction)
    ensures HeadAnd(p, if p.rule == Instruction then FuncName else MInstrName, Args)
  {
  }

  lemma NameParts(p: Pair)
    requires Shaped(p) && (p.rule == FuncName || p.rule == MInstrName)
    ensures |p.inner| == 1
  {
  }

  /** A call: a name around one keyword and, if present, a list of arguments. */
  lemma CallParts(p: Pair)
    requires Shaped(p) && (p.rule == Instruction || p.rule == MachineInstruction)
    ensures 1 <= |p.inner| <= 2 && |p.inner[0].inner| == 1
    ensures |p.inner| == 2 ==> AllOf(p.inner[1].inner, Arg) && AllShaped(p.inner[1].inner)
  {
    hide LocalShape, AllOf, AllShaped;
    CallLocal(p);
    InnerShaped(p, 0);
    NameParts(p.inner[0]);
    if |p.inner| == 2 {
      InnerShaped(p, 1);
      ListParts(p.inner[1]);
    }
  }

  lemma FunctionLocal(p: Pair)
    requires LocalShape(p) && p.rule == Function
    ensures 2 <= |p.inner| <= 3 && p.inner[0].rule == Work && p.inner[1].rule == Instructions
    ensures |p.inner| == 3 ==> p.inner[2].rule == Dist
  {
  }

  lemma FunctionParts(p: Pair)
    requires Shaped(p) && p.rule == Function
    ensures 2 <= |p.inner| <= 3
    ensures p.inner[0].rule == Work && Shaped(p.inner[0])
    ensures AllOf(p.inner[1].inner, Expr) && AllShaped(p.inner[1].inner)
    ensures |p.inner| == 3 ==> p.inner[2].rule == Dist && Shaped(p.inner[2])
  {
    hide LocalShape, AllOf, AllShaped;
    FunctionLocal(p);
    InnerShaped(p, 0);
    InnerShaped(p, 1);
    ListParts(p.inner[1]);
    if |p.inner| == 3 {
      InnerShaped(p, 2);
    }
  }

  lemma WorkLocal(p: Pair)
    requires LocalShape(p) && p.rule == Work
    ensures HeadAnd(p, Ident, Params)
  {
  }

  lemma WorkParts(p: Pair)
    requires Shaped(p) && p.rule == Work
    ensures 1 <= |p.inner| <= 2 && p.inner[0].rule == Ident
    ensures |p.inner| == 2 ==> AllOf(p.inner[1].inner, Param) && AllShaped(p.inner[1].inner)
  {
    hide LocalShape, AllOf, AllShaped;
    WorkLocal(p);
    if |p.inner| == 2 {
      InnerShaped(p, 1);
      ListParts(p.inner[1]);
    }
  }

  lemma EntryParts(p: Pair)
    requires Shaped(p) && (p.rule == Param || p.rule == Opt)
    ensures |p.inner| == 2 && p.inner[0].rule == Ident && p.inner[1].rule == Value
  {
  }

  // ----- identifiers and values

  lemma {:induction false} IdentTailChars(s: string)
    ensures forall i :: 0 <= i < |s| - |IdentTail(s)| ==> IsIdentChar(s[i])
  {
    if s != "" && IsIdentChar(s[0]) {
      IdentTailChars(s[1..]);
      assert forall i :: 0 < i < |s| ==> s[i] == s[1..][i - 1];
    }
  }

  lemma PIdentShaped(s: string)
    ensures PIdent(s).Done? ==> PIdent(s).pair.rule == Ident && Shaped(PIdent(s).pair)
  {
    if PIdent(s).Done? {
      IdentTailChars(s[1..]);
      var t := PIdent(s).pair.text;
      assert forall i :: 1 <= i < |t| ==> t[i] == s[1..][i - 1];
    }
  }

  /** Skipping leaves a suffix of its input. */
  lemma {:induction false} SkipSpacesSuffix(s: string)
    ensures SkipSpaces(s) == s[|s| - |SkipSpaces(s)|..]
  {
    if s != "" && IsSpace(s[0]) {
      SkipSpacesSuffix(s[1..]);
    }
  }

  lemma {:induction false} SkipLineSuffix(s: string)
    ensures SkipLine(s) == s[|s| - |SkipLine(s)|..]
  {
    if s != "" && !IsNewline(s[0]) {
      SkipLineSuffix(s[1..]);
    }
  }

  lemma {:induction false} SkipSuffix(s: string)
    ensures Skip(s) == s[|s| - |Skip(s)|..]
    decreases |s|
  {
    var r := SkipSpaces(s);
    SkipSpacesSuffix(s);
    if "//" <= r {
      SkipLineSuffix(r[2..]);
      SkipSuffix(SkipLine(r[2..]));
    }
  }

  /** What a value consumes ends in an item that is not a space. */
  lemma {:induction false} ValueTailEnds(s: string)
    ensures var n := |s| - |ValueTail(s)|;
            n > 0 ==> IsValueChar(s[n - 1]) && !IsSpace(s[n - 1])
    decreases |s|
  {
    hide Grammar.Skip;
    var y := Skip(s);
    SkipSuffix(s);
    if y != "" && IsValueChar(y[0]) {
      ValueTailEnds(y[1..]);
      var d := |s| - |y|;
      assert forall i :: 0 <= i < |y| ==> y[i] == s[d + i];
    }
  }

  lemma PValueShaped(s: string)
    requires Solid(s)
    ensures PValue(s).rule == Value && Shaped(PValue(s))
  {
    if s != "" && IsValueChar(s[0]) {
      ValueTailEnds(s[1..]);
    }
  }

  // ----- productions, bottom up

  lemma PConstantShaped(s: string)
    ensures PConstant(s).Done? ==> PConstant(s).pair.rule == Constant && Shaped(PConstant(s).pair)
  {
    hide Grammar.Skip, Grammar.PValue, Grammar.ValueRest, Grammar.DigitsRest;
    match Lit("\"", s)
    case None =>
    case Some(s1) => PValueShaped(Skip(s1));
  }

  lemma PDynamicNameShaped(s: string)
    ensures PDynamicName(s).Done? ==> PDynamicName(s).pair.rule == DynamicName && Shaped(PDynamicName(s).pair)
  {
    hide Grammar.Keyword;
  }

  lemma {:induction false} PDynamicShaped(s: string)
    ensures PDynamic(s).Done? ==> PDynamic(s).pair.rule == Dynamic && Shaped(PDynamic(s).pair)
    decreases |s|, 0
  {
    hide Grammar.Skip, Grammar.PDynamicName;
    PDynamicNameShaped(s);
    if PDynamicName(s).Done? {
      PArgsShaped(Skip(PDynamicName(s).rest));
    }
  }

  lemma {:induction false} PArgShaped(s: string)
    ensures PArg(s).Done? ==> PArg(s).pair.rule == Arg && Shaped(PArg(s).pair)
    decreases |s|, 1
  {
    hide Grammar.PDynamic, Grammar.PIdent, Grammar.PConstant;
    PDynamicShaped(s);
    PIdentShaped(s);
    PConstantShaped(s);
  }

  lemma {:induction false} ArgTailShaped(s: string)
    ensures AllOf(ArgTail(s).pairs, Arg) && AllShaped(ArgTail(s).pairs)
    decreases |s|, 0
  {
    hide Grammar.Skip, Grammar.PArg, LocalShape, Shaped;
    match Lit(",", Skip(s))
    case None =>
    case Some(s1) =>
      PArgShaped(Skip(s1));
      if PArg(Skip(s1)).Done? {
        ArgTailShaped(PArg(Skip(s1)).rest);
      }
  }

  lemma {:induction false} PArgsShaped(s: string)
    ensures PArgs(s).Done? ==> PArgs(s).pair.rule == Args && Shaped(PArgs(s).pair)
    decreases |s|, 3
  {
    hide Grammar.Skip, Grammar.PArg, Grammar.ArgTail, LocalShape, Shaped;
    if Lit("(", s).Some? {
      var s1 := Skip(Lit("(", s).value);
      PArgShaped(s1);
      if PArg(s1).Done? {
        ArgTailShaped(Skip(PArg(s1).rest));
      }
      if PArgs(s).Done? {
        ListParts(PArgs(s).pair);
      }
    }
  }

  lemma PParamShaped(s: string)
    ensures PParam(s).Done? ==> PParam(s).pair.rule == Param && Shaped(PParam(s).pair)
  {
    hide Grammar.Skip, Grammar.PIdent, Grammar.PValue, Grammar.ValueRest;
    PIdentShaped(s);
    if PIdent(s).Done? && Lit("=", Skip(PIdent(s).rest)).Some? {
      PValueShaped(Skip(Lit("=", Skip(PIdent(s).rest)).value));
    }
  }

  lemma {:induction false} ParamTailShaped(s: string)
    ensures AllOf(ParamTail(s).pairs, Param) && AllShaped(ParamTail(s).pairs)
    decreases |s|
  {
    hide Grammar.Skip, Grammar.PParam, LocalShape, Shaped;
    match Lit(",", Skip(s))
    case None =>
    case Some(s1) =>
      PParamShaped(Skip(s1));
      if PParam(Skip(s1)).Done? {
        ParamTailShaped(PParam(Skip(s1)).rest);
      }
  }

  lemma PParamsShaped(s: string)
    ensures PParams(s).Done? ==> PParams(s).pair.rule == Params && Shaped(PParams(s).pair)
  {
    hide Grammar.Skip, Grammar.PParam, Grammar.ParamTail, LocalShape, Shaped;
    if Lit("(", s).Some? {
      var s1 := Skip(Lit("(", s).value);
      PParamShaped(s1);
      if PParam(s1).Done? {
        ParamTailShaped(Skip(PParam(s1).rest));
      }
      if PParams(s).Done? {
        ListParts(PParams(s).pair);
      }
    }
  }

  lemma PWorkShaped(s: string)
    ensures PWork(s).Done? ==> PWork(s).pair.rule == Work && Shaped(PWork(s).pair)
  {
    hide Grammar.Skip, Grammar.PIdent, Grammar.PParams;
    PIdentShaped(s);
    if PIdent(s).Done? {
      PParamsShaped(Skip(PIdent(s).rest));
    }
  }

  lemma POptShaped(s: string)
    ensures POpt(s).Done? ==> POpt(s).pair.rule == Opt && Shaped(POpt(s).pair)
  {
    hide Grammar.Skip, Grammar.PIdent, Grammar.PValue, Grammar.ValueRest;
    PIdentShaped(s);
    if PIdent(s).Done? && Lit("=", Skip(PIdent(s).rest)).Some? {
      PValueShaped(Skip(Lit("=", Skip(PIdent(s).rest)).value));
    }
  }

  lemma {:induction false} OptsShaped(s: string)
    ensures AllOf(Opts(s).pairs, Opt) && AllShaped(Opts(s).pairs)
    decreases |s|
  {
    hide Grammar.Skip, Grammar.POpt, LocalShape, Shaped;
    POptShaped(Skip(s));
    if POpt(Skip(s)).Done? {
      OptsShaped(POpt(Skip(s)).rest);
    }
  }

  lemma PDistNameShaped(s: string)
    ensures PDistName(s).Done? ==> PDistName(s).pair.rule == DistName && Shaped(PDistName(s).pair)
  {
    hide Grammar.Keyword;
  }

  lemma PDistShaped(s: string)
    ensures PDist(s).Done? ==> PDist(s).pair.rule == Dist && Shaped(PDist(s).pair)
  {
    hide Grammar.Skip, Grammar.PDistName, Grammar.Opts, LocalShape, Shaped;
    if Lit(":", s).Some? {
      var s1 := Skip(Lit(":", s).value);
      PDistNameShaped(s1);
      if PDistName(s1).Done? {
        var s2 := Skip(PDistName(s1).rest);
        if Lit("{", s2).Some? {
          var opts := Opts(Skip(Lit("{", s2).value));
          OptsShaped(Skip(Lit("{", s2).value));
          if PDist(s).Done? {
            DistShaped(PDist(s).pair, PDistName(s1).pair, opts.pairs);
          }
        }
      }
    }
  }

  lemma DistShaped(p: Pair, name: Pair, opts: seq<Pair>)
    requires p.rule == Dist && p.inner == [name] + opts && name.rule == DistName && Shaped(name)
    requires AllOf(opts, Opt) && AllShaped(opts)
    ensures Shaped(p)
  {
    assert p.inner[1..] == opts;
  }

  /** A keyword, if any, of one of the given rules. */
  predicate KeywordOf(p: Parse, rules: set<Rule>) {
    p.Done? ==> p.pair.inner == [] && p.pair.rule in rules
  }

  lemma NamedShaped(rule: Rule, p: Parse)
    requires rule == FuncName || rule == MInstrName || rule == DistName || rule == DynamicName
    requires KeywordOf(p, KeywordRules(rule))
    ensures Named(rule, p).Done? ==> Named(rule, p).pair.rule == rule && Shaped(Named(rule, p).pair)
  {
  }

  function KeywordRules(rule: Rule): set<Rule> {
    match rule
    case FuncName => {Task, Network, Port, Open, Ping, Debug}
    case MInstrName => {Server, Load, Memory, Profile, Path}
    case DistName => {Exp, Zipf, Uniform}
    case _ => {RandomPath, RandomString}
  }

  lemma PFuncNameShaped(s: string)
    ensures PFuncName(s).Done? ==> PFuncName(s).pair.rule == FuncName && Shaped(PFuncName(s).pair)
  {
    hide Grammar.Keyword, Shaped, Grammar.Named;
    NamedShaped(FuncName,
                Or(Keyword(Task, "task", s), Or(Keyword(Network, "network", s), Or(Keyword(Port, "port", s),
                Or(Keyword(Open, "open", s), Or(Keyword(Ping, "ping", s), Keyword(Debug, "debug", s)))))));
  }

  lemma PMInstrNameShaped(s: string)
    ensures PMInstrName(s).Done? ==> PMInstrName(s).pair.rule == MInstrName && Shaped(PMInstrName(s).pair)
  {
    hide Grammar.Keyword;
  }

  lemma PInstructionShaped(s: string)
    ensures PInstruction(s).Done? ==> PInstruction(s).pair.rule == Instruction && Shaped(PInstruction(s).pair)
  {
    hide Grammar.Skip, Grammar.PFuncName, Grammar.PArgs;
    PFuncNameShaped(s);
    if PFuncName(s).Done? {
      PArgsShaped(Skip(PFuncName(s).rest));
    }
  }

  lemma PMachineInstructionShaped(s: string)
    ensures PMachineInstruction(s).Done? ==>
              PMachineInstruction(s).pair.rule == MachineInstruction && Shaped(PMachineInstruction(s).pair)
  {
    hide Grammar.Skip, Grammar.PMInstrName, Grammar.PArgs;
    PMInstrNameShaped(s);
    if PMInstrName(s).Done? {
      PArgsShaped(Skip(PMInstrName(s).rest));
    }
  }

  lemma {:induction false} PExprShaped(s: string)
    ensures PExpr(s).Done? ==> PExpr(s).pair.rule == Expr && Shaped(PExpr(s).pair)
    decreases |s|, 1
  {
    hide Grammar.PFunction, Grammar.PInstruction;
    PFunctionShaped(s);
    PInstructionShaped(s);
  }

  lemma {:induction false} ExprsShaped(s: string)
    ensures AllOf(Exprs(s).pairs, Expr) && AllShaped(Exprs(s).pairs)
    decreases |s|, 2
  {
    hide Grammar.Skip, Grammar.PExpr, LocalShape, Shaped;
    PExprShaped(Skip(s));
    if PExpr(Skip(s)).Done? {
      ExprsShaped(PExpr(Skip(s)).rest);
    }
  }

  lemma {:induction false} PFunctionShaped(s: string)
    ensures PFunction(s).Done? ==> PFunction(s).pair.rule == Function && Shaped(PFunction(s).pair)
    decreases |s|, 0
  {
    hide Grammar.Skip, Grammar.PWork, Grammar.Exprs, Grammar.PDist, LocalShape, Shaped;
    PWorkShaped(s);
    if PWork(s).Done? && Lit("{", Skip(PWork(s).rest)).Some? {
      var s3 := Skip(Lit("{", Skip(PWork(s).rest)).value);
      ExprsShaped(s3);
      var body := Exprs(s3);
      var instrs := Spanning(Instructions, s3, body.rest, body.pairs);
      ListParts(instrs);
      if Lit("}", Skip(body.rest)).Some? {
        var s5 := Skip(Lit("}", Skip(body.rest)).value);
        PDistShaped(s5);
        FunctionShaped(PFunction(s).pair, PWork(s).pair, instrs, PDist(s5));
      }
    }
  }

  lemma FunctionShaped(p: Pair, work: Pair, instrs: Pair, dist: Parse)
    requires p.rule == Function && p.inner == [work, instrs] + if dist.Done? then [dist.pair] else []
    requires work.rule == Work && Shaped(work) && instrs.rule == Instructions && Shaped(instrs)
    requires dist.Done? ==> dist.pair.rule == Dist && Shaped(dist.pair)
    ensures Shaped(p)
  {
  }

  lemma {:induction false} MInstrsShaped(s: string)
    ensures AllOf(MInstrs(s).pairs, MachineInstruction) && AllShaped(MInstrs(s).pairs)
    decreases |s|
  {
    hide Grammar.Skip, Grammar.PMachineInstruction, LocalShape, Shaped;
    PMachineInstructionShaped(Skip(s));
    if PMachineInstruction(Skip(s)).Done? {
      MInstrsShaped(PMachineInstruction(Skip(s)).rest);
    }
  }

  lemma PMachineShaped(s: string)
    ensures PMachine(s).Done? ==> PMachine(s).pair.rule == Machine && Shaped(PMachine(s).pair)
  {
    hide Grammar.Skip, Grammar.MInstrs, LocalShape, Shaped;
    if Lit("machine", s).Some? {
      var s1 := Skip(Lit("machine", s).value);
      if Lit("{", s1).Some? {
        MInstrsShaped(Skip(Lit("{", s1).value));
        if PMachine(s).Done? {
          ListParts(PMachine(s).pair);
        }
      }
    }
  }

  /** Every accepted source gives a well-shaped tree; in particular all its values are trimmed. */
  lemma FileShaped(s: string)
    ensures PFile(s).Some? ==> PFile(s).value.rule == File && Shaped(PFile(s).value)
  {
    hide Grammar.Skip, Grammar.PMachine, Grammar.Exprs;
    var s1 := Skip(s);
    PMachineShaped(s1);
    var m := PMachine(s1);
    var s2 := Skip(if m.Done? then m.rest else s1);
    ExprsShaped(s2);
    assert Shaped(Pair(EOI, "", []));
  }

  /** q is the tree p or occurs somewhere inside it. */
  ghost predicate Occurs(q: Pair, p: Pair) {
    q == p || exists c :: c in p.inner && Occurs(q, c)
  }

  lemma {:induction false} OccurringIsShaped(q: Pair, p: Pair)
    requires Shaped(p) && Occurs(q, p)
    ensures Shaped(q)
    decreases p
  {
    if q != p {
      var c :| c in p.inner && Occurs(q, c);
      OccurringIsShaped(q, c);
    }
  }

  /** Wherever a value occurs in an accepted source, its text neither starts nor ends with whitespace. */
  lemma ValuesAreTrimmed(source: string, q: Pair)
    requires PFile(source).Some? && Occurs(q, PFile(source).value) && q.rule == Value
    ensures Trimmed(q.text) && q.inner == []
  {
    hide Grammar.PFile, Occurs;
    FileShaped(source);
    OccurringIsShaped(q, PFile(source).value);
  }
}
