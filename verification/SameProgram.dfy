/**
 The syntax tree does not depend on how a quoted constant is written, except where the
 builder takes the raw text of an argument: in the target of a profile.
 */
module SameProgram {
  import opened Common
  import opened Grammar
  import opened Shape
  import opened Builder
  import opened Printer
  import opened Tokens
  import opened Quotes
  import opened Respelling
  import opened Productions
  import opened Constants
  import Decimal
  import Totality
  import A = Ast

  // ----- similar trees are built alike

  lemma HelperArgSimilar(p: Pair, q: Pair)
    requires Shaped(p) && p.rule == Arg && Similar(p, q)
    ensures BuildHelperArg(q) == BuildHelperArg(p)
  {
    ArgParts(p);
    var a, b := p.inner[0], q.inner[0];
    assert Similar(a, b);
    if a.inner != [] {
      assert LocalShape(a);
      assert Similar(a.inner[0], b.inner[0]);
    }
  }

  lemma HelperArgsSimilar(ps: seq<Pair>, qs: seq<Pair>)
    requires AllOf(ps, Arg) && AllShaped(ps) && AllSimilar(ps, qs)
    ensures BuildHelperArgs(qs) == BuildHelperArgs(ps)
  {
    hide Similar, Shaped, Builder.BuildHelperArg;
    forall i | 0 <= i < |ps|
      ensures BuildHelperArg(qs[i]) == BuildHelperArg(ps[i])
    {
      HelperArgSimilar(ps[i], qs[i]);
    }
    assert HelperArgResults(qs) == HelperArgResults(ps);
  }

  /** The names and values directly inside two similar pairs. */
  lemma InnerSimilar(p: Pair, q: Pair, i: nat)
    requires Similar(p, q) && i < |p.inner|
    ensures i < |q.inner| && Similar(p.inner[i], q.inner[i]) && p.inner[i].rule == q.inner[i].rule
    ensures Kept(p.inner[i].rule) ==> p.inner[i].text == q.inner[i].text
    ensures AllSimilar(p.inner[i].inner, q.inner[i].inner)
  {
    assert Similar(p.inner[i], q.inner[i]);
  }

  lemma DynamicLocal(p: Pair)
    requires Shaped(p) && p.rule == Dynamic
    ensures |p.inner| == 2 && p.inner[0].rule == DynamicName
  {
  }

  lemma ConstantLocal(p: Pair)
    requires Shaped(p) && p.rule == Constant
    ensures p.inner == [] || (|p.inner| == 1 && p.inner[0].rule == Value)
  {
  }

  lemma ArgSimilar(p: Pair, q: Pair)
    requires Shaped(p) && p.rule == Arg && Similar(p, q)
    ensures BuildArg(q) == BuildArg(p)
  {
    hide Shaped, Builder.BuildHelperArgs, AllSimilar, AllShaped, AllOf;
    ArgParts(p);
    InnerSimilar(p, q, 0);
    var a, b := p.inner[0], q.inner[0];
    if a.rule == Dynamic {
      DynamicLocal(a);
      DynamicParts(a);
      InnerSimilar(a, b, 0);
      InnerSimilar(a, b, 1);
      HelperArgsSimilar(a.inner[1].inner, b.inner[1].inner);
    } else if a.rule == Constant && a.inner != [] {
      ConstantLocal(a);
      InnerSimilar(a, b, 0);
    }
  }

  lemma TextSimilar(p: Pair, q: Pair)
    requires Shaped(p) && p.rule == Arg && Similar(p, q)
    ensures StringFromArgument(q) == StringFromArgument(p)
  {
    hide Shaped;
    ArgParts(p);
    InnerSimilar(p, q, 0);
    var a, b := p.inner[0], q.inner[0];
    if a.rule == Constant && a.inner != [] {
      ConstantLocal(a);
      InnerSimilar(a, b, 0);
    }
  }

  lemma ArgsSimilar(ps: seq<Pair>, qs: seq<Pair>)
    requires AllOf(ps, Arg) && AllShaped(ps) && AllSimilar(ps, qs)
    ensures BuildArgs(qs) == BuildArgs(ps)
  {
    hide Similar, Shaped, Builder.BuildArg;
    forall i | 0 <= i < |ps|
      ensures BuildArg(qs[i]) == BuildArg(ps[i])
    {
      ArgSimilar(ps[i], qs[i]);
    }
    assert ArgResults(qs) == ArgResults(ps);
  }

  lemma SimilarSize(p: Pair, q: Pair)
    requires Similar(p, q)
    ensures p.rule == q.rule && |p.inner| == |q.inner| && AllSimilar(p.inner, q.inner)
  {
  }

  lemma InstructionSimilar(p: Pair, q: Pair)
    requires Shaped(p) && Shaped(q) && p.rule == Expr && Similar(p, q)
    ensures BuildInstruction(q) == BuildInstruction(p)
  {
    hide Shaped, AllOf, AllShaped, AllSimilar, Builder.BuildArgs, Similar;
    ExprParts(p);
    ExprParts(q) by { SimilarSize(p, q); }
    InnerSimilar(p, q, 0);
    var i, j := p.inner[0], q.inner[0];
    SimilarSize(p, q);
    SimilarSize(i, j);
    if i.rule == Function {
      Totality.NestedFunctionPanics(p);
      Totality.NestedFunctionPanics(q);
    } else {
      CallParts(i);
      InnerSimilar(i, j, 0);
      SimilarSize(i.inner[0], j.inner[0]);
      InnerSimilar(i.inner[0], j.inner[0], 0);
      if |i.inner| == 2 {
        InnerSimilar(i, j, 1);
        ArgsSimilar(i.inner[1].inner, j.inner[1].inner);
      }
    }
  }

  lemma InstructionsSimilar(ps: seq<Pair>, qs: seq<Pair>)
    requires AllOf(ps, Expr) && AllShaped(ps) && AllShaped(qs) && AllSimilar(ps, qs)
    ensures BuildInstructions(qs) == BuildInstructions(ps)
  {
    hide Similar, Shaped, Builder.BuildInstruction;
    forall i | 0 <= i < |ps|
      ensures BuildInstruction(qs[i]) == BuildInstruction(ps[i])
    {
      InstructionSimilar(ps[i], qs[i]);
    }
    assert InstructionResults(qs) == InstructionResults(ps);
  }

  lemma EntrySimilar(p: Pair, q: Pair)
    requires Shaped(p) && (p.rule == Param || p.rule == Opt) && Similar(p, q)
    ensures BuildEntry(q) == BuildEntry(p) && BuildParam(q) == BuildParam(p)
  {
    hide Shaped;
    EntryParts(p);
    InnerSimilar(p, q, 0);
    InnerSimilar(p, q, 1);
  }

  lemma WorkSimilar(p: Pair, q: Pair)
    requires Shaped(p) && p.rule == Work && Similar(p, q)
    ensures BuildWork(q) == BuildWork(p)
  {
    hide Shaped, Similar, Builder.BuildParam, Builder.ToMap;
    WorkParts(p);
    SimilarSize(p, q);
    InnerSimilar(p, q, 0);
    if |p.inner| == 2 {
      InnerSimilar(p, q, 1);
      var ps, qs := p.inner[1].inner, q.inner[1].inner;
      forall i | 0 <= i < |ps|
        ensures BuildParam(qs[i]) == BuildParam(ps[i])
      {
        EntrySimilar(ps[i], qs[i]);
      }
      assert ParamResults(qs) == ParamResults(ps);
    }
  }

  lemma {:induction false} OfRuleSimilar(ps: seq<Pair>, qs: seq<Pair>)
    requires AllShaped(ps) && AllSimilar(ps, qs)
    ensures var os, os' := OfRule(ps, Opt), OfRule(qs, Opt);
            && AllSimilar(os, os') && AllShaped(os) && AllOf(os, Opt)
  {
    hide Similar, Shaped;
    if ps != [] {
      var n := |ps| - 1;
      OfRuleSimilar(ps[..n], qs[..n]);
      SimilarSize(ps[n], qs[n]);
    }
  }

  lemma DistSimilar(read: ReadF64, p: Pair, q: Pair)
    requires Shaped(p) && p.rule == Dist && Similar(p, q)
    ensures BuildDist(read, q) == BuildDist(read, p)
  {
    hide Similar, Builder.BuildEntry, Builder.ToMap, Builder.OfRule, LocalShape;
    SimilarSize(p, q);
    OfRuleSimilar(p.inner, q.inner);
    var ps, qs := OfRule(p.inner, Opt), OfRule(q.inner, Opt);
    forall i | 0 <= i < |ps|
      ensures BuildEntry(qs[i]) == BuildEntry(ps[i])
    {
      EntrySimilar(ps[i], qs[i]);
    }
    assert EntryResults(qs) == EntryResults(ps);
  }

  lemma FunctionSimilar(read: ReadF64, p: Pair, q: Pair)
    requires Shaped(p) && Shaped(q) && p.rule == Function && Similar(p, q)
    ensures BuildFunction(read, q) == BuildFunction(read, p)
  {
    hide Shaped, Similar, AllSimilar, AllShaped, AllOf;
    hide Builder.BuildWork, Builder.BuildInstructions, Builder.BuildDist;
    SimilarSize(p, q);
    FunctionParts(p);
    FunctionParts(q);
    InnerSimilar(p, q, 0);
    InnerSimilar(p, q, 1);
    WorkSimilar(p.inner[0], q.inner[0]);
    InstructionsSimilar(p.inner[1].inner, q.inner[1].inner);
    if |p.inner| == 3 {
      InnerSimilar(p, q, 2);
      DistSimilar(read, p.inner[2], q.inner[2]);
    }
  }

  lemma ExprSimilar(read: ReadF64, p: Pair, q: Pair)
    requires Shaped(p) && Shaped(q) && p.rule == Expr && Similar(p, q)
    ensures BuildExpr(read, q) == BuildExpr(read, p)
  {
    hide Shaped, Similar, AllSimilar, Builder.BuildFunction;
    SimilarSize(p, q);
    ExprParts(p);
    ExprParts(q);
    InnerSimilar(p, q, 0);
    if p.inner[0].rule == Function {
      FunctionSimilar(read, p.inner[0], q.inner[0]);
    }
  }

  // ----- the text of an argument

  lemma {:induction false} ValueTailSuffix(s: string)
    ensures Leaves(s, ValueTail(s))
    decreases |s|
  {
    hide Grammar.Skip;
    SkipSuffix(s);
    var y := Skip(s);
    if y != "" && IsValueChar(y[0]) {
      ValueTailSuffix(y[1..]);
      LeavesStep(y, 1, ValueTail(y[1..]));
      LeavesStep(s, |s| - |y|, ValueTail(y[1..]));
    }
  }

  lemma ValueRestLeaves(v: string)
    ensures Leaves(v, ValueRest(v))
  {
    hide Grammar.ValueTail;
    if v != "" && IsValueChar(v[0]) {
      ValueTailSuffix(v[1..]);
      LeavesStep(v, 1, ValueTail(v[1..]));
    }
  }

  lemma LeavesAll(s: string, r: string)
    requires Leaves(s, r)
    ensures s == s[..|s| - |r|] + r
  {
  }

  /** A constant that was read ends in a quote. */
  lemma QuotedClose(s: string)
    requires PQuoted(s).Done?
    ensures s != "" && s[0] == '"' && Leaves(s[1..], CloseQuote(PQuoted(s).rest))
  {
    hide Grammar.Skip, Grammar.ValueRest, Grammar.PValue, Leaves;
    var v := Skip(s[1..]);
    var x := Skip(ValueRest(v));
    SkipLeaves(ValueRest(v));
    ValueRestLeaves(v);
    LeavesTwice(v, ValueRest(v), x);
    SkipLeaves(s[1..]);
    LeavesTwice(s[1..], v, x);
    ClosedBy(ValueRest(v), PQuoted(s).rest);
  }

  lemma QuotedSpanning(s: string)
    requires PQuoted(s).Done?
    ensures PQuoted(s).pair.text == s[..|s| - |PQuoted(s).rest|]
  {
    hide Grammar.Skip, Grammar.ValueRest, Grammar.PValue;
  }

  /** A quoted constant and what follows it make up the whole text. */
  lemma QuotedText(s: string) returns (a: string)
    requires PQuoted(s).Done?
    ensures s == "\"" + (a + CloseQuote(PQuoted(s).rest))
    ensures PQuoted(s).pair.text == "\"" + a + "\"" && s == PQuoted(s).pair.text + PQuoted(s).rest
  {
    hide Grammar.PQuoted, Leaves;
    var rest := PQuoted(s).rest;
    QuotedClose(s);
    LeavesAll(s[1..], CloseQuote(rest));
    a := s[1..][..|s[1..]| - |CloseQuote(rest)|];
    assert s == "\"" + s[1..];
    QuotedSpanning(s);
    var t := "\"" + a + "\"";
    assert s == t + rest;
    assert s[..|s| - |rest|] == t;
  }

  /** The two spellings differ in the constant itself. */
  lemma Spellings(c: Spelling) returns (k: string, k': string)
    requires SameConstant(c)
    ensures c.one == k + c.rest && c.other == k' + c.rest && k != "" && k' != ""
    ensures k == k' <==> c.one == c.other
  {
    var a := QuotedText(c.one);
    var a' := QuotedText(c.other);
    k, k' := PQuoted(c.one).pair.text, PQuoted(c.other).pair.text;
    assert c.one[..|c.one| - |c.rest|] == k && c.other[..|c.other| - |c.rest|] == k';
  }

  lemma ArgSpan(s: string)
    ensures PArg(s).Done? ==> |PArg(s).rest| < |s| && PArg(s).pair.text == s[..|s| - |PArg(s).rest|]
  {
    hide Grammar.PDynamic, Grammar.PIdent, Grammar.PConstant;
  }

  /** The constant, which starts n characters before the end, starts in the argument read at a. */
  predicate InArg(a: string, n: nat) {
    PArg(a).Done? && |PArg(a).rest| < n <= |a|
  }

  lemma CrossedText(u: string, k: string, k': string, z: string, m: nat)
    requires m <= |z| && k != "" && k' != ""
    ensures var t, t' := (u + (k + z))[..|u + (k + z)| - m], (u + (k' + z))[..|u + (k' + z)| - m];
            && (t == t' <==> k == k')
            && |u| < |t| && |u| < |t'| && t[|u|] == k[0] && t'[|u|] == k'[0]
  {
    var y := z[..|z| - m];
    var t, t' := (u + (k + z))[..|u + (k + z)| - m], (u + (k' + z))[..|u + (k' + z)| - m];
    assert t == u + k + y && t' == u + k' + y;
    if t == t' {
      assert k == t[|u|..|u| + |k|] == t'[|u|..|u| + |k'|];
    }
  }

  /** An argument's text changes exactly if it contains the constant; then it contains a quote in either spelling. */
  lemma ArgTextAt(c: Spelling, a: string)
    requires SameConstant(c) && At(c, a, false) && PArg(a).Done?
    ensures PArg(Re(c, a)).Done?
    ensures var t, t' := PArg(a).pair.text, PArg(Re(c, a)).pair.text;
            && (t == t' <==> c.one == c.other || !InArg(a, |c.one|))
            && (InArg(a, |c.one|) ==> '"' in t && '"' in t')
  {
    hide At, Re, SameConstant, Grammar.PArg, Similar;
    PArgAt(c, a);
    ArgSpan(a);
    ArgSpan(Re(c, a));
    Quoted(c);
    var rest := PArg(a).rest;
    var u := Front(c, a, false);
    var u' := Front(c, rest, false);
    if InArg(a, |c.one|) {
      var k, k' := Spellings(c);
      CrossedText(u, k, k', c.rest, |rest|);
      assert k[0] == (k + c.rest)[0] == '"' && k'[0] == (k' + c.rest)[0] == '"';
    } else if |rest| >= |c.one| {
      SameText(c, a, rest);
    }
  }

  lemma QuoteIsNoNumber(t: string)
    requires '"' in t
    ensures Decimal.ParseU16(t).None?
  {
    var i :| 0 <= i < |t| && t[i] == '"';
    assert t[0] == '+' ==> i > 0 && t[1..][i - 1] == '"';
  }

  // ----- machine instructions

  /** Where the first argument of a call starts, if the call has an argument list. */
  function FirstArg(name: Parse): Option<string> {
    if name.Fail? then None
    else match Lit("(", Skip(name.rest))
      case None => None
      case Some(s1) => Some(Skip(s1))
  }

  /** The constant belongs to the first argument of the profile read at s. */
  predicate InTarget(s: string, n: nat) {
    var name := PMInstrName(s);
    && name.Done? && name.pair.inner != [] && name.pair.inner[0].rule == Rule.Profile
    && FirstArg(name).Some? && InArg(FirstArg(name).value, n)
  }

  /** The pairs of an argument list start with the argument read first. */
  lemma ListFirst(s: string)
    requires PArgs(s).Done?
    ensures Lit("(", s).Some?
    ensures var r := PArg(Skip(Lit("(", s).value));
            && (r.Done? <==> PArgs(s).pair.inner != [])
            && (r.Done? ==> PArgs(s).pair.inner[0] == r.pair)
  {
    hide Grammar.Skip, Grammar.PArg, Grammar.ArgTail;
  }

  lemma CallParsed(rule: Rule, s: string, name: Parse)
    requires name.Done? ==> |name.rest| < |s|
    requires PCall(rule, s, name).Done?
    ensures name.Done?
    ensures var p := PCall(rule, s, name).pair;
            && var args := PArgs(Skip(name.rest));
            && p.inner == [name.pair] + (if args.Done? then [args.pair] else [])
            && (args.Fail? ==> Lit("(", Skip(name.rest)).None?)
  {
    hide Grammar.Skip, Grammar.PArgs;
    var s2 := Skip(name.rest);
    SolidSkip(s2);
  }

  /** The first argument of a call that was read. */
  lemma CallArg(rule: Rule, s: string, name: Parse)
    requires name.Done? ==> |name.rest| < |s|
    requires PCall(rule, s, name).Done?
    ensures name.Done?
    ensures var p := PCall(rule, s, name).pair;
            && 1 <= |p.inner| <= 2 && p.inner[0] == name.pair
            && (FirstArg(name).Some? <==> |p.inner| == 2)
            && (|p.inner| == 2 ==>
                  var r := PArg(FirstArg(name).value);
                  && (r.Done? <==> p.inner[1].inner != [])
                  && (r.Done? ==> p.inner[1].inner[0] == r.pair))
  {
    hide Grammar.Skip, Grammar.PArgs, Grammar.PArg, Grammar.PCall, Grammar.Lit;
    CallParsed(rule, s, name);
    if PArgs(Skip(name.rest)).Done? {
      ListFirst(Skip(name.rest));
    }
  }

  lemma FirstArgAt(c: Spelling, name: Parse, name': Parse)
    requires SameConstant(c) && Same(c, name, name')
    ensures FirstArg(name).Some? <==> FirstArg(name').Some?
    ensures FirstArg(name).Some? ==> At(c, FirstArg(name).value, false) && FirstArg(name').value == Re(c, FirstArg(name).value)
  {
    hide At, Re, SameConstant, Grammar.Skip;
    if name.Done? {
      LitNext(c, "(", name.rest);
      if FirstArg(name).Some? {
        SkipAt(c, Lit("(", Skip(name.rest)).value, false);
      }
    }
  }

  /** Two builds of one machine instruction: both panic or none, and they differ exactly in a target that was respelled. */
  predicate Matches<T(==)>(b: Result<T>, b': Result<T>, same: bool) {
    (b.Panic? <==> b'.Panic?) && (b.Ok? ==> (b == b' <==> same))
  }

  /** A machine instruction without arguments cannot be built. */
  lemma NoArgsPanic(p: Pair)
    requires |p.inner| == 1 || (|p.inner| == 2 && p.inner[1].inner == [])
    ensures BuildMInstruction(p).Panic?
  {
  }

  /** Building depends on the kind and, for ports and targets, on the text of the first argument. */
  lemma MInstructionParts(p: Pair)
    requires |p.inner| == 2 && p.inner[0].inner != [] && p.inner[1].inner != []
    ensures var kind, arg := p.inner[0].inner[0].rule, p.inner[1].inner[0];
            BuildMInstruction(p) ==
            match kind
            case Server =>
              (match Decimal.ParseU16(arg.text)
               case Some(port) => Ok(A.MachineInstruction.Server(port))
               case None => Panic)
            case Profile => Ok(A.MachineInstruction.Profile(arg.text))
            case Path => PathOf(arg)
            case _ => Panic
  {
  }

  function PathOf(arg: Pair): Result<A.MachineInstruction> {
    var value :- StringFromArgument(arg);
    match value
    case Some(text) => Ok(A.MachineInstruction.Path(text))
    case None => Panic
  }

  lemma MInstructionMatches(c: Spelling, p: Pair, q: Pair, a: string)
    requires SameConstant(c) && At(c, a, false) && PArg(a).Done? && PArg(Re(c, a)).Done?
    requires |p.inner| == 2 && |q.inner| == 2 && p.inner[0] == q.inner[0] && p.inner[0].inner != []
    requires p.inner[1].inner != [] && q.inner[1].inner != []
    requires p.inner[1].inner[0] == PArg(a).pair && q.inner[1].inner[0] == PArg(Re(c, a)).pair
    requires Shaped(PArg(a).pair) && PArg(a).pair.rule == Arg && Similar(PArg(a).pair, PArg(Re(c, a)).pair)
    ensures var target := p.inner[0].inner[0].rule == Rule.Profile && InArg(a, |c.one|);
            Matches(BuildMInstruction(p), BuildMInstruction(q), c.one == c.other || !target)
  {
    hide At, Re, SameConstant, Grammar.PArg, Shaped, Similar, Builder.BuildMInstruction;
    hide Builder.StringFromArgument, Decimal.ParseU16;
    MInstructionParts(p);
    MInstructionParts(q);
    ArgTextAt(c, a);
    TextSimilar(PArg(a).pair, PArg(Re(c, a)).pair);
    if InArg(a, |c.one|) {
      QuoteIsNoNumber(PArg(a).pair.text);
      QuoteIsNoNumber(PArg(Re(c, a)).pair.text);
    }
  }

  lemma MInstructionAt(c: Spelling, s: string)
    requires SameConstant(c) && At(c, s, false) && PMachineInstruction(s).Done?
    ensures PMachineInstruction(Re(c, s)).Done?
    ensures Matches(BuildMInstruction(PMachineInstruction(s).pair), BuildMInstruction(PMachineInstruction(Re(c, s)).pair),
                    c.one == c.other || !InTarget(s, |c.one|))
  {
    hide At, Re, SameConstant, Grammar.PMInstrName, Grammar.PCall, Grammar.PArg, Similar, Shaped, FirstArg, Matches;
    hide Builder.BuildMInstruction, LocalShape;
    PMachineInstructionAt(c, s);
    PMInstrNameAt(c, s);
    var name, name' := PMInstrName(s), PMInstrName(Re(c, s));
    CallArg(MachineInstruction, s, name);
    CallArg(MachineInstruction, Re(c, s), name');
    FirstArgAt(c, name, name');
    var p, q := PMachineInstruction(s).pair, PMachineInstruction(Re(c, s)).pair;
    PMInstrNameShaped(s);
    NameParts(name.pair);
    if FirstArg(name).Some? {
      PArgAt(c, FirstArg(name).value);
    }
    if |p.inner| == 2 && p.inner[1].inner != [] {
      var a := FirstArg(name).value;
      PArgShaped(a);
      MInstructionMatches(c, p, q, a);
    } else {
      NoArgsPanic(p);
      NoArgsPanic(q);
      BothPanic(BuildMInstruction(p), BuildMInstruction(q), c.one == c.other || !InTarget(s, |c.one|));
    }
  }

  lemma BothPanic<T>(b: Result<T>, b': Result<T>, same: bool)
    requires b.Panic? && b'.Panic?
    ensures Matches(b, b', same)
  {
  }

  /** The constant belongs to the first argument of one of the profiles of a machine's body. */
  predicate InSomeTarget(s: string, n: nat)
    decreases |s|
  {
    match PMachineInstruction(Skip(s))
    case Fail => false
    case Done(_, rest) => InTarget(Skip(s), n) || InSomeTarget(rest, n)
  }

  predicate AllMatch<T(==)>(rs: seq<Result<T>>, rs': seq<Result<T>>, same: bool) {
    && |rs| == |rs'| && (forall i :: 0 <= i < |rs| ==> (rs[i].Panic? <==> rs'[i].Panic?))
    && ((forall i :: 0 <= i < |rs| ==> rs[i].Ok?) ==> (rs == rs' <==> same))
  }

  lemma ConsMatch<T>(b: Result<T>, rs: seq<Result<T>>, b': Result<T>, rs': seq<Result<T>>, here: bool, there: bool)
    requires Matches(b, b', here) && AllMatch(rs, rs', there)
    ensures AllMatch([b] + rs, [b'] + rs', here && there)
  {
    var all, all' := [b] + rs, [b'] + rs';
    assert all[0] == b && all'[0] == b' && all[1..] == rs && all'[1..] == rs';
    assert forall i :: 1 <= i < |all| ==> all[i] == rs[i - 1] && all'[i] == rs'[i - 1];
    if forall i :: 0 <= i < |all| ==> all[i].Ok? {
      assert forall i :: 0 <= i < |rs| ==> rs[i] == all[i + 1];
    }
  }

  lemma ResultsCons(p: Pair, ps: seq<Pair>)
    ensures MInstructionResults([p] + ps) == [BuildMInstruction(p)] + MInstructionResults(ps)
  {
    hide Builder.BuildMInstruction;
  }

  lemma {:induction false} MInstrsMatch(c: Spelling, s: string)
    requires SameConstant(c) && At(c, s, false)
    ensures AllMatch(MInstructionResults(MInstrs(s).pairs), MInstructionResults(MInstrs(Re(c, s)).pairs),
                     c.one == c.other || !InSomeTarget(s, |c.one|))
    decreases |s|
  {
    hide At, Re, SameConstant, Similar, Grammar.Skip, Grammar.PMachineInstruction, Builder.MInstructionResults;
    hide Builder.BuildMInstruction, InTarget, Matches, AllMatch;
    SkipAt(c, s, false);
    var t := Skip(s);
    PMachineInstructionAt(c, t);
    var r, r' := PMachineInstruction(t), PMachineInstruction(Re(c, t));
    if r.Done? {
      MInstructionAt(c, t);
      MInstrsMatch(c, r.rest);
      var ps, ps' := MInstrs(r.rest).pairs, MInstrs(Re(c, r.rest)).pairs;
      ResultsCons(r.pair, ps);
      ResultsCons(r'.pair, ps');
      ConsMatch(BuildMInstruction(r.pair), MInstructionResults(ps), BuildMInstruction(r'.pair), MInstructionResults(ps'),
                c.one == c.other || !InTarget(t, |c.one|), c.one == c.other || !InSomeTarget(r.rest, |c.one|));
    } else {
      NothingMatches<A.MachineInstruction>();
      NoResults();
    }
  }

  lemma NoResults()
    ensures MInstructionResults([]) == []
  {
  }

  lemma NothingMatches<T>()
    ensures AllMatch<T>([], [], true)
  {
  }

  // ----- files

  lemma CollectMatch<T>(rs: seq<Result<T>>, rs': seq<Result<T>>, same: bool)
    requires AllMatch(rs, rs', same)
    ensures Matches(Collect(rs), Collect(rs'), same)
  {
    hide Builder.Collect;
    CollectAll(rs);
    CollectAll(rs');
    if Collect(rs).Ok? && Collect(rs) == Collect(rs') {
      assert rs == rs';
    }
  }

  /** The body of the machine, if the source starts with one. */
  function MachineBody(s: string): Option<string> {
    match Lit("machine", s)
    case None => None
    case Some(s1) =>
      match Lit("{", Skip(s1))
      case None => None
      case Some(s2) => Some(Skip(s2))
  }

  /** The constant that starts n characters before the end belongs to the first argument of a profile. */
  predicate InProfileTarget(source: string, n: nat) {
    var s := Skip(source);
    PMachine(s).Done? && MachineBody(s).Some? && InSomeTarget(MachineBody(s).value, n)
  }

  lemma MachineParsed(s: string)
    requires PMachine(s).Done?
    ensures MachineBody(s).Some? && PMachine(s).pair.rule == Machine
    ensures PMachine(s).pair.inner == MInstrs(MachineBody(s).value).pairs
  {
    hide Grammar.Skip, Grammar.MInstrs;
  }

  lemma MachineBodyAt(c: Spelling, s: string)
    requires SameConstant(c) && At(c, s, false) && MachineBody(s).Some?
    ensures At(c, MachineBody(s).value, false) && MachineBody(Re(c, s)) == Some(Re(c, MachineBody(s).value))
  {
    hide At, Re, SameConstant, Grammar.Skip;
    LitAt(c, "machine", s, false);
    var s1 := Lit("machine", s).value;
    LitNext(c, "{", s1);
    SkipAt(c, Lit("{", Skip(s1)).value, false);
  }

  lemma MachineMatches(read: ReadF64, c: Spelling, s: string)
    requires SameConstant(c) && At(c, s, false) && PMachine(s).Done? && PMachine(Re(c, s)).Done? && MachineBody(s).Some?
    ensures Matches(BuildExpr(read, PMachine(s).pair), BuildExpr(read, PMachine(Re(c, s)).pair),
                    c.one == c.other || !InSomeTarget(MachineBody(s).value, |c.one|))
  {
    hide At, Re, SameConstant, Grammar.PMachine, MachineBody, AllMatch, InSomeTarget, Builder.MInstructionResults;
    MachineParsed(s);
    MachineParsed(Re(c, s));
    MachineBodyAt(c, s);
    var body := MachineBody(s).value;
    MInstrsMatch(c, body);
    CollectMatch(MInstructionResults(MInstrs(body).pairs), MInstructionResults(MInstrs(Re(c, body)).pairs),
                 c.one == c.other || !InSomeTarget(body, |c.one|));
  }

  lemma ExprsSimilar(read: ReadF64, ps: seq<Pair>, qs: seq<Pair>)
    requires AllOf(ps, Expr) && AllShaped(ps) && AllShaped(qs) && AllSimilar(ps, qs)
    ensures NodeResults(read, qs) == NodeResults(read, ps)
  {
    hide Similar, Shaped, Builder.BuildExpr;
    forall i | 0 <= i < |ps|
      ensures BuildExpr(read, qs[i]) == BuildExpr(read, ps[i])
    {
      ExprSimilar(read, ps[i], qs[i]);
    }
  }

  /** What is built from an accepted source: the machine, if there is one, and then the expressions. */
  function Parts(read: ReadF64, s: string): seq<Result<A.Node>> {
    var s1 := Skip(s);
    var m := PMachine(s1);
    var body := Exprs(Skip(if m.Done? then m.rest else s1));
    (if m.Done? then [BuildExpr(read, m.pair)] else []) + NodeResults(read, body.pairs)
  }

  lemma FileParts(read: ReadF64, s: string)
    requires PFile(s).Some?
    ensures BuildFile(read, PFile(s).value) == Collect(Parts(read, s))
  {
    hide Grammar.Skip, Grammar.PMachine, Grammar.Exprs, Shaped, Builder.BuildExpr, Builder.Collect, Builder.TopLevel;
    FileShaped(s);
    var tree := PFile(s).value;
    Totality.TopLevelOfFile(tree);
    var ps := tree.inner[..|tree.inner| - 1];
    var s1 := Skip(s);
    var m := PMachine(s1);
    var body := Exprs(Skip(if m.Done? then m.rest else s1));
    assert ps == (if m.Done? then [m.pair] else []) + body.pairs;
    assert NodeResults(read, ps) == Parts(read, s);
  }

  lemma SelfMatches<T>(rs: seq<Result<T>>)
    ensures AllMatch(rs, rs, true)
  {
  }

  lemma PartsMatch(read: ReadF64, c: Spelling, s: string)
    requires SameConstant(c) && At(c, s, false)
    ensures AllMatch(Parts(read, s), Parts(read, Re(c, s)), c.one == c.other || !InProfileTarget(s, |c.one|))
  {
    hide At, Re, SameConstant, Similar, Grammar.Skip, Grammar.PMachine, Grammar.Exprs, Builder.BuildExpr, Shaped;
    hide Matches, AllMatch, MachineBody, InSomeTarget, Builder.NodeResults;
    SkipAt(c, s, false);
    var s1 := Skip(s);
    PMachineAt(c, s1);
    var m, m' := PMachine(s1), PMachine(Re(c, s1));
    var s2 := if m.Done? then m.rest else s1;
    SkipAt(c, s2, false);
    ExprsAt(c, Skip(s2));
    ExprsShaped(Skip(s2));
    ExprsShaped(Re(c, Skip(s2)));
    ExprsSimilar(read, Exprs(Skip(s2)).pairs, Exprs(Re(c, Skip(s2))).pairs);
    var rs := NodeResults(read, Exprs(Skip(s2)).pairs);
    SelfMatches(rs);
    if m.Done? {
      MachineParsed(s1);
      MachineMatches(read, c, s1);
      ConsMatch(BuildExpr(read, m.pair), rs, BuildExpr(read, m'.pair), rs,
                c.one == c.other || !InSomeTarget(MachineBody(s1).value, |c.one|), true);
      assert Parts(read, s) == [BuildExpr(read, m.pair)] + rs;
      assert Parts(read, Re(c, s)) == [BuildExpr(read, m'.pair)] + rs;
    } else {
      assert Parts(read, s) == rs && Parts(read, Re(c, s)) == rs;
    }
  }

  /**
   Writing a quoted constant differently, wherever it stands in an accepted source: the
   source is still accepted, the builder still panics or returns, and the result is the
   same if and only if the constant is not part of the first argument of a profile.
   */
  lemma Respelled(read: ReadF64, x: string, c: Spelling)
    requires SameConstant(c) && Outside(x, false) && PFile(x + c.one).Some?
    ensures var before, after := ParseInstructions(read, x + c.one), ParseInstructions(read, x + c.other);
            && after.Some?
            && (before == Some(Panic) <==> after == Some(Panic))
            && (before == after
                <==> c.one == c.other || before == Some(Panic) || !InProfileTarget(x + c.one, |c.one|))
  {
    hide At, Re, SameConstant, Grammar.PFile, Builder.BuildFile, InProfileTarget, Parts, AllMatch;
    Placed(c, x, false);
    var s := x + c.one;
    PFileAt(c, s);
    FileParts(read, s);
    FileParts(read, Re(c, s));
    PartsMatch(read, c, s);
    CollectMatch(Parts(read, s), Parts(read, Re(c, s)), c.one == c.other || !InProfileTarget(s, |c.one|));
  }

  /**
   Padding inside the quotes of a constant, after the opening and before the closing one,
   in any accepted source.
   */
  lemma PaddedConstant(read: ReadF64, x: string, a: string, rest: string, p: string, p': string)
    requires SkipText(p) && SkipText(p') && !Swallows(a, p')
    requires var one := "\"" + (a + CloseQuote(rest));
             ReadsTo(one, rest) && Outside(x, false) && PFile(x + one).Some?
    ensures var one, padded := "\"" + (a + CloseQuote(rest)), "\"" + (p + (a + (p' + CloseQuote(rest))));
            && var before, after := ParseInstructions(read, x + one), ParseInstructions(read, x + padded);
            && after.Some?
            && (before == after <==> p + p' == "" || before == Some(Panic) || !InProfileTarget(x + one, |one|))
  {
    hide Grammar.PQuoted, Printer.SkipText, Grammar.PFile, InProfileTarget, Builder.ParseInstructions, Outside;
    var q := CloseQuote(rest);
    var one, padded := "\"" + (a + q), "\"" + (p + (a + (p' + q)));
    PaddingBeforeQuote(a, p', rest);
    QuotePadding(p, a + (p' + q));
    assert "\"" + p + (a + (p' + q)) == padded;
    var c := Spelling(one, padded, rest);
    assert |padded| == |one| + |p| + |p'|;
    if p + p' == "" {
      assert p == "" && p' == "";
      assert padded == one;
    }
    Respelled(read, x, c);
  }

  /**
   The same for every quoted constant of the tree of an accepted source: it stands
   somewhere in the source, and padding inside its quotes at that place changes the
   result if and only if it is part of the first argument of a profile (and the
   builder does not panic anyway).
   */
  lemma EveryConstantPadded(read: ReadF64, source: string, q: Pair, p: string, p': string)
    returns (x: string, a: string, rest: string)
    requires PFile(source).Some? && Occurs(q, PFile(source).value) && QuotedConstant(q)
    requires SkipText(p) && SkipText(p')
    ensures q.text == "\"" + a + "\"" && source == x + q.text + rest
    ensures !Swallows(a, p') ==>
              var before := ParseInstructions(read, source);
              var after := ParseInstructions(read, x + ("\"" + (p + (a + (p' + CloseQuote(rest))))));
              && after.Some?
              && (before == after
                  <==> p + p' == "" || before == Some(Panic) || !InProfileTarget(source, |q.text + rest|))
  {
    hide Grammar.PQuoted, Printer.SkipText, Grammar.PFile, InProfileTarget, Builder.ParseInstructions, Outside;
    hide Occurs, Swallows, QuotedConstant;
    ConstantStands(source, q);
    var r;
    x, r :| source == x + r && Outside(x, false) && PQuoted(r).Done? && PQuoted(r).pair == q;
    a := QuotedText(r);
    rest := PQuoted(r).rest;
    if !Swallows(a, p') {
      PaddedConstant(read, x, a, rest, p, p');
    }
  }
}
