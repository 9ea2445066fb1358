/** How the parser and the builder read printed arguments, instructions, parameters and work units. */
module Phrases {
  import opened Grammar
  import opened Shape
  import opened Builder
  import opened Printer
  import opened Tokens
  import opened Lookahead
  import A = Ast

  // ----- literals in front of something else

  predicate NotCall(k: string) {
    k != "" && k[0] != '(' && Solid(k) && Stops(k)
  }

  /** After a keyword that starts an identifier comes no argument list. */
  lemma NoArgsAfter(t: string, name: string, w: Layout, k: string)
    requires IsIdentText(name) && IsLayout(w) && NotCall(k) && t <= name && t != ""
    ensures PArgs(Skip(Tok(name, w, k)[|t|..])).Fail?
  {
    var rest := name[|t|..];
    assert Tok(name, w, k)[|t|..] == rest + Padded(name, w, k);
    if rest == "" {
      SkipPadded(name, w, k);
      assert rest + Padded(name, w, k) == Padded(name, w, k);
    } else {
      assert IsIdentChar(rest[0]);
      assert Solid(rest + Padded(name, w, k));
    }
  }

  /** A variable is not taken for a dynamic helper. */
  lemma VariableNotDynamic(name: string, w: Layout, k: string)
    requires IsIdentText(name) && IsLayout(w) && NotCall(k)
    ensures PDynamic(Tok(name, w, k)).Fail?
  {
    hide Grammar.Skip, Grammar.PArgs, IsLayout, Printer.Padded;
    var s := Tok(name, w, k);
    PaddedStart(name, w, k);
    if "random_path" <= s {
      KeywordInIdent("random_path", name, Padded(name, w, k));
      NoArgsAfter("random_path", name, w, k);
    } else if "random_string" <= s {
      KeywordInIdent("random_string", name, Padded(name, w, k));
      NoArgsAfter("random_string", name, w, k);
    }
  }

  // ----- arguments

  /** What follows an argument: a comma or the closing parenthesis. */
  predicate AfterArg(k: string) {
    k != "" && (k[0] == ',' || k[0] == ')')
  }

  /** A pair that is built into what the argument a stands for. */
  predicate ArgIs(p: Pair, a: A.Arg) {
    && p.rule == Rule.Arg && BuildArg(p) == Ok(Reduced(a))
    && (!a.Var? ==> BuildHelperArg(p) == Ok(A.Const(HelperText(a))))
  }

  /** The argument a was read back, with the text it has in the source. */
  predicate ReadsArg(r: Parse, a: A.Arg, w: Layout, k: string) {
    r.Done? && r.rest == Padded(EndTok(a), w, k) && ArgIs(r.pair, a) && r.pair.text == RawText(a, w, k)
  }

  lemma PrintArgSolid(a: A.Arg, w: Layout, k: string)
    requires ValidArg(a)
    ensures PrintArg(a, w, k) != "" && Solid(PrintArg(a, w, k))
    ensures PrintArg(a, w, k)[0] == '"' || IsIdentStart(PrintArg(a, w, k)[0])
  {
    match a
    case Const(_) =>
    case Var(name) => assert PrintArg(a, w, k)[0] == name[0];
    case Dynamic(name, _) => assert PrintArg(a, w, k)[0] == name[0] == 'r';
  }

  lemma ConstRead(text: string, w: Layout, k: string)
    requires IsValueText(text) && IsLayout(w)
    ensures ReadsArg(PArg(PrintArg(A.Const(text), w, k)), A.Const(text), w, k)
  {
    hide Grammar.Skip, Grammar.PConstant, IsLayout, Printer.Padded;
    QuotedRead(text, w, k);
    var s := PrintQuoted(text, w, k);
    assert s[0] == '"';
    NotLit("random_path", s, 0);
    NotLit("random_string", s, 0);
  }

  lemma VarRead(name: string, w: Layout, k: string)
    requires IsIdentText(name) && IsLayout(w) && AfterArg(k)
    ensures ReadsArg(PArg(PrintArg(A.Var(name), w, k)), A.Var(name), w, k)
  {
    hide Grammar.PDynamic, Grammar.PIdent, Grammar.PConstant, IsLayout, Printer.Padded;
    VariableNotDynamic(name, w, k);
    IdentRead(name, w, k);
  }

  lemma DynamicNameRead(name: string, w: Layout, k: string)
    requires name == "random_path" || name == "random_string"
    ensures var r := PDynamicName(Tok(name, w, k));
            r.Done? && r.rest == Padded(name, w, k) && r.pair.text == name
  {
    hide Printer.Padded;
    var s := Tok(name, w, k);
    if name == "random_string" {
      NotLit("random_path", s, 7);
    }
  }

  lemma {:induction false} ArgRead(a: A.Arg, w: Layout, k: string)
    requires ValidArg(a) && IsLayout(w) && AfterArg(k)
    ensures ReadsArg(PArg(PrintArg(a, w, k)), a, w, k)
    decreases a, 0
  {
    match a
    case Const(text) => ConstRead(text, w, k);
    case Var(name) => VarRead(name, w, k);
    case Dynamic(name, args) =>
      ArgsRead(args, w, k);
      DynamicRead(name, args, w, k);
  }

  lemma DynamicRead(name: string, args: seq<A.Arg>, w: Layout, k: string)
    requires IsLayout(w) && (name == "random_path" || name == "random_string")
    requires forall b :: b in args ==> !b.Var?
    requires ReadsArgs(PArgs(PrintArgs(args, w, k)), args, w, k)
    ensures ReadsArg(PArg(PrintArg(A.Dynamic(name, args), w, k)), A.Dynamic(name, args), w, k)
  {
    hide Grammar.Skip, Grammar.PArgs, Grammar.PDynamicName, IsLayout, Printer.Padded, Printer.PrintArgs;
    hide Builder.BuildHelperArgs, Grammar.PIdent, Grammar.PConstant;
    var list := PrintArgs(args, w, k);
    PrintArgsSolid(args, w, k);
    DynamicNameRead(name, w, list);
    SkipPadded(name, w, list);
    HelperArgsBuilt(PArgs(list).pair.inner, args);
  }

  lemma HelperArgsBuilt(ps: seq<Pair>, args: seq<A.Arg>)
    requires |ps| == |args| && forall i :: 0 <= i < |ps| ==> ArgIs(ps[i], args[i])
    requires forall b :: b in args ==> !b.Var?
    ensures BuildHelperArgs(ps) == Ok(HelperTexts(args))
  {
    hide Builder.BuildArg, Builder.BuildHelperArg;
    assert forall i :: 0 <= i < |ps| ==> args[i] in args;
    CollectAll(HelperArgResults(ps));
    assert BuildHelperArgs(ps).value == HelperTexts(args);
  }

  lemma ArgsBuilt(ps: seq<Pair>, args: seq<A.Arg>)
    requires |ps| == |args| && forall i :: 0 <= i < |ps| ==> ArgIs(ps[i], args[i])
    ensures BuildArgs(ps) == Ok(ReducedAll(args))
  {
    hide Builder.BuildArg, Builder.BuildHelperArg;
    CollectAll(ArgResults(ps));
    assert BuildArgs(ps).value == ReducedAll(args);
  }

  /** What follows the first argument of a list. */
  function AfterFirst(args: seq<A.Arg>, w: Layout, k: string): string
    requires args != []
  {
    PrintArgTail(args[1..], w, ListEnd(w, Tok(")", w, k)))
  }

  /** An argument list was read back as args, the first one with its text. */
  predicate ReadsArgs(r: Parse, args: seq<A.Arg>, w: Layout, k: string) {
    && r.Done? && r.rest == Padded(")", w, k) && |r.pair.inner| == |args|
    && (forall i :: 0 <= i < |args| ==> ArgIs(r.pair.inner[i], args[i]))
    && (args != [] ==> r.pair.inner[0].text == RawText(args[0], w, AfterFirst(args, w, k)))
  }

  predicate ReadsTail(r: Parses, args: seq<A.Arg>, k: string) {
    && Skip(r.rest) == k && |r.pairs| == |args|
    && (forall i :: 0 <= i < |args| ==> ArgIs(r.pairs[i], args[i]))
  }

  lemma PrintArgsSolid(args: seq<A.Arg>, w: Layout, k: string)
    ensures PrintArgs(args, w, k) != "" && PrintArgs(args, w, k)[0] == '(' && Solid(PrintArgs(args, w, k))
  {
  }

  /** A list ends in its closing parenthesis, possibly after a trailing comma. */
  predicate EndsList(k: string, w: Layout, close: string) {
    close != "" && close[0] == ')' && (k == close || k == Tok(",", w, close))
  }

  lemma ListEndStarts(w: Layout, close: string)
    requires close != "" && close[0] == ')'
    ensures EndsList(ListEnd(w, close), w, close)
  {
  }

  lemma EndsListStarts(k: string, w: Layout, close: string)
    requires EndsList(k, w, close)
    ensures k != "" && (k[0] == ',' || k[0] == ')') && Solid(k) && Solid(close)
    ensures k != close ==> k[0] == ',' && k[1..] == Padded(",", w, close)
    ensures k == close ==> k[0] == ')'
  {
  }

  lemma PrintArgTailStarts(args: seq<A.Arg>, w: Layout, k: string)
    requires AfterArg(k)
    ensures AfterArg(PrintArgTail(args, w, k)) && Solid(PrintArgTail(args, w, k))
    ensures args != [] ==> PrintArgTail(args, w, k)[0] == ','
  {
  }

  /** At the end of a list there is no further argument, trailing comma or not. */
  lemma ArgTailEnds(w: Layout, k: string, close: string, x: string)
    requires IsLayout(w) && EndsList(k, w, close) && Skip(x) == k
    ensures ArgTail(x) == Parses([], x)
  {
    hide Grammar.Skip, Grammar.PArg, IsLayout, Printer.Padded;
    EndsListStarts(k, w, close);
    SkipPadded(",", w, close);
    NoItemAt(close);
  }

  lemma {:induction false} ArgTailRead(args: seq<A.Arg>, w: Layout, k: string, close: string, x: string)
    requires (forall b :: b in args ==> ValidArg(b)) && IsLayout(w)
    requires EndsList(k, w, close) && Skip(x) == PrintArgTail(args, w, k)
    ensures ReadsTail(ArgTail(x), args, k)
    decreases args, 0
  {
    hide Grammar.Skip, Grammar.PArg, IsLayout, Printer.Padded, Printer.PrintArg, ValidArg, ArgIs, EndsList;
    EndsListStarts(k, w, close);
    if args == [] {
      ArgTailEnds(w, k, close, x);
    } else {
      var tail := PrintArgTail(args[1..], w, k);
      var first := PrintArg(args[0], w, tail);
      PrintArgTailStarts(args[1..], w, k);
      assert args[0] in args;
      PrintArgSolid(args[0], w, tail);
      LitTok(",", w, first);
      SkipPadded(",", w, first);
      ArgRead(args[0], w, tail);
      SkipPadded(EndTok(args[0]), w, tail);
      ArgTailRead(args[1..], w, k, close, Padded(EndTok(args[0]), w, tail));
    }
  }

  lemma NoArgsRead(w: Layout, k: string)
    requires IsLayout(w)
    ensures ReadsArgs(PArgs(PrintArgs([], w, k)), [], w, k)
  {
    hide Grammar.Skip, Grammar.PArg, Grammar.ArgTail, IsLayout, Printer.Padded;
    var close := Tok(")", w, k);
    LitTok(")", w, k);
    LitTok("(", w, close);
    SkipPadded("(", w, close);
    NoItemAt(close);
    SolidSkip(close);
  }

  lemma {:induction false} ArgsRead(args: seq<A.Arg>, w: Layout, k: string)
    requires (forall b :: b in args ==> ValidArg(b)) && IsLayout(w)
    ensures ReadsArgs(PArgs(PrintArgs(args, w, k)), args, w, k)
    decreases args, 1
  {
    hide Grammar.Skip, Grammar.PArg, Grammar.ArgTail, IsLayout, Printer.Padded, Printer.PrintArg, ValidArg, ArgIs;
    var close := Tok(")", w, k);
    LitTok(")", w, k);
    if args == [] {
      NoArgsRead(w, k);
    } else {
      var end := ListEnd(w, close);
      var tail := PrintArgTail(args[1..], w, end);
      var first := PrintArg(args[0], w, tail);
      ListEndStarts(w, close);
      EndsListStarts(end, w, close);
      PrintArgTailStarts(args[1..], w, end);
      assert args[0] in args;
      PrintArgSolid(args[0], w, tail);
      LitTok("(", w, first);
      SkipPadded("(", w, first);
      ArgRead(args[0], w, tail);
      SkipPadded(EndTok(args[0]), w, tail);
      SolidSkip(tail);
      ArgTailRead(args[1..], w, end, close, tail);
      SkipPadded(",", w, close);
      SolidSkip(close);
    }
  }

  // ----- instructions

  function RuleOf(i: A.Instruction): Rule {
    match i
    case Task(_, _) => Rule.Task
    case Open(_) => Rule.Open
    case Debug(_) => Rule.Debug
    case Ping(_) => Rule.Ping
  }

  /** Each of the six function names is read as itself, in spite of the ones tried before it. */
  lemma FuncNameRead(rule: Rule, w: Layout, k: string)
    requires rule in KeywordRules(FuncName)
    ensures var r := PFuncName(Tok(Word(rule).value, w, k));
            r.Done? && r.rest == Padded(Word(rule).value, w, k) && |r.pair.inner| == 1 && r.pair.inner[0].rule == rule
  {
    hide Printer.Padded, Grammar.PFuncName;
    var t := Word(rule).value;
    FuncNameFirst(rule, Tok(t, w, k));
    LitTok(t, w, k);
  }

  /** What a script argument starts with is no parameter. */
  lemma ArgIsNoParam(a: A.Arg, w: Layout, k: string)
    requires ValidArg(a) && IsLayout(w) && AfterArg(k)
    ensures PParam(PrintArg(a, w, k)).Fail?
  {
    hide Grammar.Skip, Grammar.PIdent, IsLayout, Printer.Padded, Printer.PrintArgs;
    match a
    case Const(text) => QuoteIsNoIdent(PrintArg(a, w, k));
    case Var(name) =>
      IdentRead(name, w, k);
      SkipPadded(name, w, k);
    case Dynamic(name, args) =>
      var list := PrintArgs(args, w, k);
      PrintArgsSolid(args, w, k);
      IdentRead(name, w, list);
      SkipPadded(name, w, list);
  }

  lemma QuoteIsNoIdent(s: string)
    requires s != "" && s[0] == '"'
    ensures PIdent(s).Fail?
  {
  }

  /** A non-empty argument list is no parameter list. */
  lemma ArgsAreNoParams(args: seq<A.Arg>, w: Layout, k: string)
    requires args != [] && (forall b :: b in args ==> ValidArg(b)) && IsLayout(w)
    ensures PParams(PrintArgs(args, w, k)).Fail?
  {
    hide Grammar.Skip, Grammar.PParam, IsLayout, Printer.Padded, Printer.PrintArg, ValidArg;
    var close := Tok(")", w, k);
    var end := ListEnd(w, close);
    var tail := PrintArgTail(args[1..], w, end);
    var first := PrintArg(args[0], w, tail);
    ListEndStarts(w, close);
    EndsListStarts(end, w, close);
    PrintArgTailStarts(args[1..], w, end);
    assert args[0] in args;
    PrintArgSolid(args[0], w, tail);
    ArgIsNoParam(args[0], w, tail);
    LitTok("(", w, first);
    SkipPadded("(", w, first);
    SolidSkip(first);
  }

  /** A call with arguments is no function. */
  lemma CallIsNoFunction(name: string, args: seq<A.Arg>, w: Layout, k: string)
    requires IsIdentText(name) && args != [] && (forall b :: b in args ==> ValidArg(b)) && IsLayout(w)
    ensures PFunction(Tok(name, w, PrintArgs(args, w, k))).Fail?
  {
    hide Grammar.Skip, Grammar.PIdent, Grammar.PParams, IsLayout, Printer.Padded, Printer.PrintArgs, ValidArg;
    var list := PrintArgs(args, w, k);
    PrintArgsSolid(args, w, k);
    IdentRead(name, w, list);
    SkipPadded(name, w, list);
    ArgsAreNoParams(args, w, k);
    SolidSkip(list);
  }

  /** A call: the name read, its arguments read, the semicolon taken. */
  lemma CallRead(rule: Rule, s: string, t: string, name: Parse, args: seq<A.Arg>, w: Layout, k: string)
    requires (forall b :: b in args ==> ValidArg(b)) && IsLayout(w)
    requires name.Done? && |name.rest| < |s|
    requires name.rest == Padded(t, w, PrintArgs(args, w, Tok(";", w, k)))
    ensures var r := PCall(rule, s, name);
            && r.Done? && r.rest == Padded(";", w, k) && r.pair.rule == rule
            && |r.pair.inner| == 2 && r.pair.inner[0] == name.pair
            && |r.pair.inner[1].inner| == |args|
            && (forall i :: 0 <= i < |args| ==> ArgIs(r.pair.inner[1].inner[i], args[i]))
            && (args != [] ==> r.pair.inner[1].inner[0].text == RawText(args[0], w, AfterFirst(args, w, Tok(";", w, k))))
  {
    hide Grammar.Skip, Grammar.PArgs, IsLayout, Printer.Padded, Printer.PrintArgs, ValidArg, ArgIs;
    var semi := Tok(";", w, k);
    PrintArgsSolid(args, w, semi);
    SkipPadded(t, w, PrintArgs(args, w, semi));
    ArgsRead(args, w, semi);
    SkipPadded(")", w, semi);
    LitTok(";", w, k);
  }

  lemma KeywordIsIdent(i: A.Instruction)
    ensures IsIdentText(CallName(i))
    ensures RuleOf(i) in KeywordRules(FuncName) && Word(RuleOf(i)).value == CallName(i)
  {
  }

  lemma InstructionRead(i: A.Instruction, w: Layout, k: string)
    requires ValidInstruction(i) && IsLayout(w)
    ensures var r := PExpr(PrintInstruction(i, w, k));
            && r.Done? && r.rest == Padded(";", w, k) && BuildInstruction(r.pair) == Ok(ReducedInstruction(i))
    ensures PrintInstruction(i, w, k) != "" && IsIdentStart(PrintInstruction(i, w, k)[0])
  {
    hide Grammar.PFunction, Grammar.PFuncName, Grammar.PCall, IsLayout, Printer.Padded, Printer.PrintArgs;
    hide ValidArg, ArgIs, Builder.BuildInstruction, Shape.Word, Shape.KeywordRules;
    KeywordIsIdent(i);
    var semi := Tok(";", w, k);
    var args := Arguments(i);
    var s := PrintInstruction(i, w, k);
    CallIsNoFunction(CallName(i), args, w, semi);
    FuncNameRead(RuleOf(i), w, PrintArgs(args, w, semi));
    CallRead(Instruction, s, CallName(i), PFuncName(s), args, w, k);
    CallBuilt(PExpr(s).pair, PInstruction(s).pair, i);
    assert s[0] == CallName(i)[0];
  }

  /** An instruction is built from its name and its arguments. */
  lemma CallBuilt(e: Pair, p: Pair, i: A.Instruction)
    requires e.inner == [p] && |p.inner| == 2 && |p.inner[0].inner| == 1 && p.inner[0].inner[0].rule == RuleOf(i)
    requires |p.inner[1].inner| == |Arguments(i)|
    requires forall k :: 0 <= k < |Arguments(i)| ==> ArgIs(p.inner[1].inner[k], Arguments(i)[k])
    ensures BuildInstruction(e) == Ok(ReducedInstruction(i))
  {
    hide ArgIs, Builder.BuildArgs, Builder.MakeInstruction, ReducedInstruction;
    ArgsBuilt(p.inner[1].inner, Arguments(i));
    InstructionMade(i);
  }

  lemma InstructionMade(i: A.Instruction)
    ensures MakeInstruction(RuleOf(i), ReducedAll(Arguments(i))) == Ok(ReducedInstruction(i))
  {
    match i
    case Task(name, args) => assert ReducedAll([name] + args)[1..] == ReducedAll(args);
    case _ =>
  }

  lemma PrintInstructionsSolid(body: seq<A.Instruction>, w: Layout, k: string)
    requires (forall i :: i in body ==> ValidInstruction(i)) && IsLayout(w) && k != "" && k[0] == '}'
    ensures PrintInstructions(body, w, k) != "" && Solid(PrintInstructions(body, w, k))
  {
    hide Grammar.PExpr, Printer.PrintInstruction, Builder.BuildInstruction, ValidInstruction, IsLayout, Grammar.Skip;
    if body != [] {
      assert body[0] in body;
      InstructionRead(body[0], w, PrintInstructions(body[1..], w, k));
    }
  }

  lemma {:induction false} InstructionsRead(body: seq<A.Instruction>, w: Layout, k: string, x: string)
    requires (forall i :: i in body ==> ValidInstruction(i)) && IsLayout(w)
    requires k != "" && k[0] == '}' && Skip(x) == PrintInstructions(body, w, k)
    ensures var r := Exprs(x);
            && Skip(r.rest) == k && |r.pairs| == |body|
            && (forall i :: 0 <= i < |body| ==> BuildInstruction(r.pairs[i]) == Ok(ReducedInstruction(body[i])))
  {
    hide Grammar.Skip, Grammar.PExpr, Printer.PrintInstruction, Builder.BuildInstruction, ValidInstruction, IsLayout;
    hide Printer.Padded;
    if body == [] {
      NoExprAt(k);
    } else {
      assert body[0] in body;
      var next := PrintInstructions(body[1..], w, k);
      InstructionRead(body[0], w, next);
      PrintInstructionsSolid(body[1..], w, k);
      SkipPadded(";", w, next);
      InstructionsRead(body[1..], w, k, Padded(";", w, next));
    }
  }

  // ----- parameters and options

  predicate AfterValue(k: string) {
    k != "" && (k[0] == ',' || k[0] == ')' || k[0] == ';')
  }

  predicate EntryIs(p: Pair, e: (string, string)) {
    p.inner == [Pair(Ident, e.0, []), Pair(Value, e.1, [])]
  }

  lemma PrintEntrySolid(e: (string, string), w: Layout, k: string)
    requires ValidEntry(e)
    ensures PrintEntry(e, w, k) != "" && Solid(PrintEntry(e, w, k))
  {
    assert PrintEntry(e, w, k)[0] == e.0[0];
  }

  lemma ParamRead(e: (string, string), w: Layout, k: string)
    requires ValidEntry(e) && IsLayout(w) && AfterValue(k)
    ensures var r := PParam(PrintEntry(e, w, k));
            r.Done? && Skip(r.rest) == k && EntryIs(r.pair, e)
  {
    hide Grammar.Skip, Grammar.PIdent, Grammar.PValue, Grammar.ValueRest, IsLayout, Printer.Padded;
    var value := Tok(e.1, w, k);
    var eq := Tok("=", w, value);
    IdentRead(e.0, w, eq);
    SkipPadded(e.0, w, eq);
    LitTok("=", w, value);
    ValueRead("=", e.1, w, k);
  }

  lemma OptRead(e: (string, string), w: Layout, k: string)
    requires ValidEntry(e) && IsLayout(w)
    ensures var r := POpt(PrintEntry(e, w, Tok(";", w, k)));
            r.Done? && r.rest == Padded(";", w, k) && r.pair.rule == Opt && EntryIs(r.pair, e)
  {
    hide Grammar.Skip, Grammar.PIdent, Grammar.PValue, Grammar.ValueRest, IsLayout, Printer.Padded;
    var semi := Tok(";", w, k);
    var value := Tok(e.1, w, semi);
    var eq := Tok("=", w, value);
    IdentRead(e.0, w, eq);
    SkipPadded(e.0, w, eq);
    LitTok("=", w, value);
    ValueRead("=", e.1, w, semi);
    LitTok(";", w, k);
  }

  lemma PrintParamTailStarts(es: seq<(string, string)>, w: Layout, k: string)
    requires AfterArg(k)
    ensures AfterValue(PrintParamTail(es, w, k)) && Solid(PrintParamTail(es, w, k))
  {
  }

  lemma ParamTailEnds(w: Layout, k: string, close: string, x: string)
    requires IsLayout(w) && EndsList(k, w, close) && Skip(x) == k
    ensures ParamTail(x) == Parses([], x)
  {
    hide Grammar.Skip, Grammar.PParam, IsLayout, Printer.Padded;
    EndsListStarts(k, w, close);
    SkipPadded(",", w, close);
    NoItemAt(close);
  }

  lemma {:induction false} ParamTailRead(es: seq<(string, string)>, w: Layout, k: string, close: string, x: string)
    requires (forall e :: e in es ==> ValidEntry(e)) && IsLayout(w)
    requires EndsList(k, w, close) && Skip(x) == PrintParamTail(es, w, k)
    ensures var r := ParamTail(x);
            && Skip(r.rest) == k && |r.pairs| == |es|
            && (forall i :: 0 <= i < |es| ==> EntryIs(r.pairs[i], es[i]))
  {
    hide Grammar.Skip, Grammar.PParam, IsLayout, Printer.Padded, Printer.PrintEntry, ValidEntry, EntryIs, EndsList;
    EndsListStarts(k, w, close);
    if es == [] {
      ParamTailEnds(w, k, close, x);
    } else {
      var tail := PrintParamTail(es[1..], w, k);
      var first := PrintEntry(es[0], w, tail);
      assert es[0] in es;
      PrintParamTailStarts(es[1..], w, k);
      PrintEntrySolid(es[0], w, tail);
      LitTok(",", w, first);
      SkipPadded(",", w, first);
      ParamRead(es[0], w, tail);
      ParamTailRead(es[1..], w, k, close, PParam(first).rest);
    }
  }

  lemma ParamsRead(es: seq<(string, string)>, w: Layout, k: string)
    requires (forall e :: e in es ==> ValidEntry(e)) && IsLayout(w)
    ensures var r := PParams(PrintParams(es, w, k));
            && r.Done? && r.rest == Padded(")", w, k) && |r.pair.inner| == |es|
            && (forall i :: 0 <= i < |es| ==> EntryIs(r.pair.inner[i], es[i]))
  {
    hide Grammar.Skip, Grammar.PParam, Grammar.ParamTail, IsLayout, Printer.Padded, Printer.PrintEntry;
    hide ValidEntry, EntryIs;
    var close := Tok(")", w, k);
    LitTok(")", w, k);
    if es == [] {
      LitTok("(", w, close);
      SkipPadded("(", w, close);
      NoItemAt(close);
      SolidSkip(close);
    } else {
      var end := ListEnd(w, close);
      var tail := PrintParamTail(es[1..], w, end);
      var first := PrintEntry(es[0], w, tail);
      assert es[0] in es;
      ListEndStarts(w, close);
      EndsListStarts(end, w, close);
      PrintParamTailStarts(es[1..], w, end);
      PrintEntrySolid(es[0], w, tail);
      LitTok("(", w, first);
      SkipPadded("(", w, first);
      ParamRead(es[0], w, tail);
      SolidSkip(tail);
      ParamTailRead(es[1..], w, end, close, tail);
      SkipPadded(",", w, close);
      SolidSkip(close);
    }
  }

  lemma ParamsBuilt(ps: seq<Pair>, es: seq<(string, string)>)
    requires |ps| == |es| && forall i :: 0 <= i < |es| ==> EntryIs(ps[i], es[i])
    ensures BuildParams(ps) == Ok(es)
  {
    CollectAll(ParamResults(ps));
    forall i | 0 <= i < |es|
      ensures BuildParam(ps[i]) == Ok(es[i])
    {
      assert EntryIs(ps[i], es[i]);
    }
    assert BuildParams(ps).value == es;
  }
}
