/** The productions above constants, read from a source and from its respelling. */
module Productions {
  import opened Grammar
  import opened Respelling

  /** A pair that spans similar pairs between the same two places. */
  lemma SpanAlike(c: Spelling, rule: Rule, s: string, rest: string, ps: seq<Pair>, qs: seq<Pair>)
    requires SameConstant(c) && At(c, s, false) && At(c, rest, false) && |rest| <= |s|
    requires AllSimilar(ps, qs) && !Kept(rule)
    ensures |Re(c, rest)| <= |Re(c, s)|
    ensures Similar(Spanning(rule, s, rest, ps), Spanning(rule, Re(c, s), Re(c, rest), qs))
  {
    hide Similar, At, Re, SameConstant;
    ReLength(c, s, rest, false, false);
    var p, q := Spanning(rule, s, rest, ps), Spanning(rule, Re(c, s), Re(c, rest), qs);
    SimilarPairs(rule, p.text, ps, q.text, qs);
  }

  /** Skip, then a literal. */
  lemma LitNext(c: Spelling, tok: string, s: string)
    requires SameConstant(c) && At(c, s, false) && PlainToken(tok)
    ensures var r, r' := Lit(tok, Skip(s)), Lit(tok, Skip(Re(c, s)));
            && (r.None? <==> r'.None?)
            && (r.Some? ==> At(c, r.value, false) && r'.value == Re(c, r.value))
  {
    hide At, Re, SameConstant, PlainToken, Grammar.Skip;
    SkipAt(c, s, false);
    LitAt(c, tok, Skip(s), false);
  }

  lemma OneSimilar(p: Pair, q: Pair)
    requires Similar(p, q)
    ensures AllSimilar([p], [q])
  {
  }

  lemma TwoSimilar(p: Pair, q: Pair, p': Pair, q': Pair)
    requires Similar(p, p') && Similar(q, q')
    ensures AllSimilar([p, q], [p', q'])
  {
  }

  lemma ConsSimilar(p: Pair, ps: seq<Pair>, p': Pair, ps': seq<Pair>)
    requires Similar(p, p') && AllSimilar(ps, ps')
    ensures AllSimilar([p] + ps, [p'] + ps')
  {
    hide Similar;
    AllSimilarAppend([p], [p'], ps, ps');
  }

  // ----- arguments

  lemma {:induction false} PDynamicAt(c: Spelling, s: string)
    requires SameConstant(c) && At(c, s, false)
    ensures Alike(c, PDynamic(s), PDynamic(Re(c, s)))
    decreases |s|, 0
  {
    hide At, Re, SameConstant, Similar, Grammar.PDynamicName, Grammar.Skip, Grammar.PArgs, Grammar.Spanning;
    PDynamicNameAt(c, s);
    if PDynamicName(s).Done? {
      var s1 := PDynamicName(s).rest;
      SimilarSelf(PDynamicName(s).pair);
      SkipAt(c, s1, false);
      PArgsAt(c, Skip(s1));
      if PArgs(Skip(s1)).Done? {
        var ps := [PDynamicName(s).pair, PArgs(Skip(s1)).pair];
        var qs := [PDynamicName(s).pair, PArgs(Skip(Re(c, s1))).pair];
        TwoSimilar(ps[0], ps[1], qs[0], qs[1]);
        SpanAlike(c, Dynamic, s, PArgs(Skip(s1)).rest, ps, qs);
      }
    }
  }

  lemma {:induction false} PArgAt(c: Spelling, s: string)
    requires SameConstant(c) && At(c, s, false)
    ensures Alike(c, PArg(s), PArg(Re(c, s)))
    decreases |s|, 1
  {
    hide At, Re, SameConstant, Similar, Grammar.PDynamic, Grammar.PIdent, Grammar.PConstant, Grammar.Spanning;
    PDynamicAt(c, s);
    PIdentAt(c, s);
    SameIsAlike(c, PIdent(s), PIdent(Re(c, s)));
    PConstantAt(c, s);
    var r := Or(PDynamic(s), Or(PIdent(s), PConstant(s)));
    var r' := Or(PDynamic(Re(c, s)), Or(PIdent(Re(c, s)), PConstant(Re(c, s))));
    if r.Done? {
      OneSimilar(r.pair, r'.pair);
      SpanAlike(c, Arg, s, r.rest, [r.pair], [r'.pair]);
    }
  }

  lemma {:induction false} ArgTailAt(c: Spelling, s: string)
    requires SameConstant(c) && At(c, s, false)
    ensures AlikeList(c, ArgTail(s), ArgTail(Re(c, s)))
    decreases |s|, 0
  {
    hide At, Re, SameConstant, Similar, Grammar.Skip, Grammar.PArg;
    LitNext(c, ",", s);
    var l := Lit(",", Skip(s));
    if l.Some? {
      SkipAt(c, l.value, false);
      PArgAt(c, Skip(l.value));
      if PArg(Skip(l.value)).Done? {
        ArgTailAt(c, PArg(Skip(l.value)).rest);
      }
    }
  }

  /** The end of a list: a comma, possibly. */
  lemma CommaAt(c: Spelling, s: string)
    requires SameConstant(c) && At(c, s, false)
    ensures var r := Skip(s);
            && var r' := Skip(Re(c, s));
            && At(c, if "," <= r then r[1..] else r, false)
            && (if "," <= r' then r'[1..] else r') == Re(c, if "," <= r then r[1..] else r)
  {
    hide At, Re, SameConstant, Grammar.Skip;
    SkipAt(c, s, false);
    LitAt(c, ",", Skip(s), false);
  }

  lemma {:induction false} ArgListAt(c: Spelling, s: string)
    requires SameConstant(c) && At(c, s, false)
    ensures AlikeList(c, ArgList(s), ArgList(Re(c, s)))
    decreases |s|, 2
  {
    hide At, Re, SameConstant, Similar, Grammar.Skip, Grammar.PArg, Grammar.ArgTail;
    PArgAt(c, s);
    var r := PArg(s);
    if r.Done? {
      SkipAt(c, r.rest, false);
      ArgTailAt(c, Skip(r.rest));
      CommaAt(c, ArgTail(Skip(r.rest)).rest);
      ConsSimilar(r.pair, ArgTail(Skip(r.rest)).pairs, PArg(Re(c, s)).pair, ArgTail(Skip(Re(c, r.rest))).pairs);
    }
  }

  lemma {:induction false} PArgsAt(c: Spelling, s: string)
    requires SameConstant(c) && At(c, s, false)
    ensures Alike(c, PArgs(s), PArgs(Re(c, s)))
    decreases |s|, 3
  {
    hide At, Re, SameConstant, Similar, Grammar.Skip, Grammar.ArgList, Grammar.Spanning;
    LitAt(c, "(", s, false);
    if Lit("(", s).Some? {
      var s1 := Lit("(", s).value;
      SkipAt(c, s1, false);
      ArgListAt(c, Skip(s1));
      var list, list' := ArgList(Skip(s1)), ArgList(Skip(Re(c, s1)));
      LitNext(c, ")", list.rest);
      var close := Lit(")", Skip(list.rest));
      if close.Some? {
        SpanAlike(c, Args, s, close.value, list.pairs, list'.pairs);
      }
    }
  }

  // ----- parameters and work units

  /** `ident = value`, up to what follows the value. */
  lemma PParamAt(c: Spelling, s: string)
    requires SameConstant(c) && At(c, s, false)
    ensures Alike(c, PParam(s), PParam(Re(c, s)))
  {
    hide At, Re, SameConstant, Similar, Grammar.Skip, Grammar.PIdent, Grammar.PValue, Grammar.ValueRest, Grammar.Spanning;
    PIdentAt(c, s);
    if PIdent(s).Done? {
      LitNext(c, "=", PIdent(s).rest);
      var eq := Lit("=", Skip(PIdent(s).rest));
      if eq.Some? {
        SkipAt(c, eq.value, false);
        var v := Skip(eq.value);
        PValueAt(c, v, false);
        AllSimilarSelf([PIdent(s).pair, PValue(v)]);
        SpanAlike(c, Param, s, ValueRest(v), [PIdent(s).pair, PValue(v)], [PIdent(s).pair, PValue(v)]);
      }
    }
  }

  lemma {:induction false} ParamTailAt(c: Spelling, s: string)
    requires SameConstant(c) && At(c, s, false)
    ensures AlikeList(c, ParamTail(s), ParamTail(Re(c, s)))
    decreases |s|
  {
    hide At, Re, SameConstant, Similar, Grammar.Skip, Grammar.PParam;
    LitNext(c, ",", s);
    var l := Lit(",", Skip(s));
    if l.Some? {
      SkipAt(c, l.value, false);
      PParamAt(c, Skip(l.value));
      if PParam(Skip(l.value)).Done? {
        ParamTailAt(c, PParam(Skip(l.value)).rest);
      }
    }
  }

  lemma ParamListAt(c: Spelling, s: string)
    requires SameConstant(c) && At(c, s, false)
    ensures AlikeList(c, ParamList(s), ParamList(Re(c, s)))
  {
    hide At, Re, SameConstant, Similar, Grammar.Skip, Grammar.PParam, Grammar.ParamTail;
    PParamAt(c, s);
    var r := PParam(s);
    if r.Done? {
      SkipAt(c, r.rest, false);
      ParamTailAt(c, Skip(r.rest));
      CommaAt(c, ParamTail(Skip(r.rest)).rest);
      ConsSimilar(r.pair, ParamTail(Skip(r.rest)).pairs, PParam(Re(c, s)).pair, ParamTail(Skip(Re(c, r.rest))).pairs);
    }
  }

  lemma PParamsAt(c: Spelling, s: string)
    requires SameConstant(c) && At(c, s, false)
    ensures Alike(c, PParams(s), PParams(Re(c, s)))
  {
    hide At, Re, SameConstant, Similar, Grammar.Skip, Grammar.ParamList, Grammar.Spanning;
    LitAt(c, "(", s, false);
    if Lit("(", s).Some? {
      var s1 := Lit("(", s).value;
      SkipAt(c, s1, false);
      ParamListAt(c, Skip(s1));
      var list, list' := ParamList(Skip(s1)), ParamList(Skip(Re(c, s1)));
      LitNext(c, ")", list.rest);
      var close := Lit(")", Skip(list.rest));
      if close.Some? {
        SpanAlike(c, Params, s, close.value, list.pairs, list'.pairs);
      }
    }
  }

  lemma PWorkAt(c: Spelling, s: string)
    requires SameConstant(c) && At(c, s, false)
    ensures Alike(c, PWork(s), PWork(Re(c, s)))
  {
    hide At, Re, SameConstant, Similar, Grammar.Skip, Grammar.PIdent, Grammar.PParams, Grammar.Spanning;
    PIdentAt(c, s);
    if PIdent(s).Done? {
      var name := PIdent(s).pair;
      SimilarSelf(name);
      SkipAt(c, PIdent(s).rest, false);
      var s2 := Skip(PIdent(s).rest);
      PParamsAt(c, s2);
      if PParams(s2).Done? {
        TwoSimilar(name, PParams(s2).pair, name, PParams(Re(c, s2)).pair);
        SpanAlike(c, Work, s, PParams(s2).rest, [name, PParams(s2).pair], [name, PParams(Re(c, s2)).pair]);
      } else {
        OneSimilar(name, name);
        SpanAlike(c, Work, s, s2, [name], [name]);
      }
    }
  }

  // ----- distributions

  lemma POptAt(c: Spelling, s: string)
    requires SameConstant(c) && At(c, s, false)
    ensures Alike(c, POpt(s), POpt(Re(c, s)))
  {
    hide At, Re, SameConstant, Similar, Grammar.Skip, Grammar.PIdent, Grammar.PValue, Grammar.ValueRest, Grammar.Spanning;
    PIdentAt(c, s);
    if PIdent(s).Done? {
      LitNext(c, "=", PIdent(s).rest);
      var eq := Lit("=", Skip(PIdent(s).rest));
      if eq.Some? {
        SkipAt(c, eq.value, false);
        var v := Skip(eq.value);
        PValueAt(c, v, false);
        LitNext(c, ";", ValueRest(v));
        var semi := Lit(";", Skip(ValueRest(v)));
        if semi.Some? {
          AllSimilarSelf([PIdent(s).pair, PValue(v)]);
          SpanAlike(c, Opt, s, semi.value, [PIdent(s).pair, PValue(v)], [PIdent(s).pair, PValue(v)]);
        }
      }
    }
  }

  lemma {:induction false} OptsAt(c: Spelling, s: string)
    requires SameConstant(c) && At(c, s, false)
    ensures AlikeList(c, Opts(s), Opts(Re(c, s)))
    decreases |s|
  {
    hide At, Re, SameConstant, Similar, Grammar.Skip, Grammar.POpt;
    SkipAt(c, s, false);
    POptAt(c, Skip(s));
    if POpt(Skip(s)).Done? {
      OptsAt(c, POpt(Skip(s)).rest);
    }
  }

  lemma PDistAt(c: Spelling, s: string)
    requires SameConstant(c) && At(c, s, false)
    ensures Alike(c, PDist(s), PDist(Re(c, s)))
  {
    hide At, Re, SameConstant, Similar, Grammar.Skip, Grammar.PDistName, Grammar.Opts, Grammar.Spanning;
    LitAt(c, ":", s, false);
    if Lit(":", s).Some? {
      SkipAt(c, Lit(":", s).value, false);
      var s1 := Skip(Lit(":", s).value);
      PDistNameAt(c, s1);
      if PDistName(s1).Done? {
        var name := PDistName(s1).pair;
        SimilarSelf(name);
        LitNext(c, "{", PDistName(s1).rest);
        var open := Lit("{", Skip(PDistName(s1).rest));
        if open.Some? {
          SkipAt(c, open.value, false);
          OptsAt(c, Skip(open.value));
          var opts, opts' := Opts(Skip(open.value)), Opts(Skip(Re(c, open.value)));
          LitNext(c, "}", opts.rest);
          var close := Lit("}", Skip(opts.rest));
          if close.Some? {
            ConsSimilar(name, opts.pairs, name, opts'.pairs);
            SpanAlike(c, Dist, s, close.value, [name] + opts.pairs, [name] + opts'.pairs);
          }
        }
      }
    }
  }

  // ----- instructions and functions

  lemma PCallAt(c: Spelling, rule: Rule, s: string, name: Parse, name': Parse)
    requires SameConstant(c) && At(c, s, false) && Same(c, name, name') && !Kept(rule)
    requires name.Done? ==> |name.rest| < |s|
    requires name'.Done? ==> |name'.rest| < |Re(c, s)|
    ensures Alike(c, PCall(rule, s, name), PCall(rule, Re(c, s), name'))
  {
    hide At, Re, SameConstant, Similar, Grammar.Skip, Grammar.PArgs, Grammar.Spanning;
    if name.Done? {
      SimilarSelf(name.pair);
      SkipAt(c, name.rest, false);
      var s2 := Skip(name.rest);
      PArgsAt(c, s2);
      var args, args' := PArgs(s2), PArgs(Re(c, s2));
      var s3 := if args.Done? then args.rest else s2;
      LitNext(c, ";", s3);
      var semi := Lit(";", Skip(s3));
      var ps := [name.pair] + if args.Done? then [args.pair] else [];
      var qs := [name.pair] + if args'.Done? then [args'.pair] else [];
      if semi.Some? {
        CallPairs(name.pair, args, args');
        SpanAlike(c, rule, s, semi.value, ps, qs);
      }
    }
  }

  lemma CallPairs(name: Pair, args: Parse, args': Parse)
    requires args.Done? <==> args'.Done?
    requires args.Done? ==> Similar(args.pair, args'.pair)
    ensures AllSimilar([name] + (if args.Done? then [args.pair] else []), [name] + if args'.Done? then [args'.pair] else [])
  {
    hide Similar;
    SimilarSelf(name);
    ConsSimilar(name, if args.Done? then [args.pair] else [], name, if args'.Done? then [args'.pair] else []);
  }

  lemma PInstructionAt(c: Spelling, s: string)
    requires SameConstant(c) && At(c, s, false)
    ensures Alike(c, PInstruction(s), PInstruction(Re(c, s)))
  {
    hide At, Re, SameConstant, Alike, Grammar.PFuncName, Grammar.PCall;
    PFuncNameAt(c, s);
    PCallAt(c, Instruction, s, PFuncName(s), PFuncName(Re(c, s)));
  }

  lemma {:induction false} PExprAt(c: Spelling, s: string)
    requires SameConstant(c) && At(c, s, false)
    ensures Alike(c, PExpr(s), PExpr(Re(c, s)))
    decreases |s|, 1
  {
    hide At, Re, SameConstant, Similar, Grammar.PFunction, Grammar.PInstruction, Grammar.Spanning;
    PFunctionAt(c, s);
    PInstructionAt(c, s);
    var r := Or(PFunction(s), PInstruction(s));
    var r' := Or(PFunction(Re(c, s)), PInstruction(Re(c, s)));
    if r.Done? {
      OneSimilar(r.pair, r'.pair);
      SpanAlike(c, Expr, s, r.rest, [r.pair], [r'.pair]);
    }
  }

  lemma {:induction false} ExprsAt(c: Spelling, s: string)
    requires SameConstant(c) && At(c, s, false)
    ensures AlikeList(c, Exprs(s), Exprs(Re(c, s)))
    decreases |s|, 2
  {
    hide At, Re, SameConstant, Similar, Grammar.Skip, Grammar.PExpr;
    SkipAt(c, s, false);
    PExprAt(c, Skip(s));
    if PExpr(Skip(s)).Done? {
      ExprsAt(c, PExpr(Skip(s)).rest);
    }
  }

  lemma {:induction false} PFunctionAt(c: Spelling, s: string)
    requires SameConstant(c) && At(c, s, false)
    ensures Alike(c, PFunction(s), PFunction(Re(c, s)))
    decreases |s|, 0
  {
    hide At, Re, SameConstant, Similar, Grammar.Skip, Grammar.PWork, Grammar.Exprs, Grammar.PDist, Grammar.Spanning;
    PWorkAt(c, s);
    if PWork(s).Done? {
      LitNext(c, "{", PWork(s).rest);
      var open := Lit("{", Skip(PWork(s).rest));
      if open.Some? {
        SkipAt(c, open.value, false);
        var s3 := Skip(open.value);
        ExprsAt(c, s3);
        var body, body' := Exprs(s3), Exprs(Re(c, s3));
        SpanAlike(c, Instructions, s3, body.rest, body.pairs, body'.pairs);
        LitNext(c, "}", body.rest);
        var close := Lit("}", Skip(body.rest));
        if close.Some? {
          SkipAt(c, close.value, false);
          var s5 := Skip(close.value);
          PDistAt(c, s5);
          FunctionPairs(c, s, s5, PWork(s).pair, Spanning(Instructions, s3, body.rest, body.pairs),
                        PWork(Re(c, s)).pair, Spanning(Instructions, Re(c, s3), body'.rest, body'.pairs));
        }
      }
    }
  }

  /** A function put together from its parts. */
  function Joined(s: string, s5: string, work: Pair, instrs: Pair): (r: Parse)
    requires |s5| <= |s|
  {
    match PDist(s5)
    case Fail => Done(Spanning(Function, s, s5, [work, instrs]), s5)
    case Done(dist, rest) => Done(Spanning(Function, s, rest, [work, instrs, dist]), rest)
  }

  lemma FunctionPairs(c: Spelling, s: string, s5: string, work: Pair, instrs: Pair, work': Pair, instrs': Pair)
    requires SameConstant(c) && At(c, s, false) && At(c, s5, false) && |s5| <= |s|
    requires Similar(work, work') && Similar(instrs, instrs')
    requires Alike(c, PDist(s5), PDist(Re(c, s5)))
    ensures |Re(c, s5)| <= |Re(c, s)|
    ensures Alike(c, Joined(s, s5, work, instrs), Joined(Re(c, s), Re(c, s5), work', instrs'))
  {
    hide At, Re, SameConstant, Similar, Grammar.PDist, Grammar.Spanning;
    TwoSimilar(work, instrs, work', instrs');
    SpanAlike(c, Function, s, s5, [work, instrs], [work', instrs']);
    if PDist(s5).Done? {
      var d, d' := PDist(s5).pair, PDist(Re(c, s5)).pair;
      OneSimilar(d, d');
      AllSimilarAppend([work, instrs], [work', instrs'], [d], [d']);
      assert [work, instrs] + [d] == [work, instrs, d] && [work', instrs'] + [d'] == [work', instrs', d'];
      SpanAlike(c, Function, s, PDist(s5).rest, [work, instrs, d], [work', instrs', d']);
    }
  }

  // ----- machine

  lemma PMachineInstructionAt(c: Spelling, s: string)
    requires SameConstant(c) && At(c, s, false)
    ensures Alike(c, PMachineInstruction(s), PMachineInstruction(Re(c, s)))
  {
    hide At, Re, SameConstant, Alike, Grammar.PMInstrName, Grammar.PCall;
    PMInstrNameAt(c, s);
    PCallAt(c, MachineInstruction, s, PMInstrName(s), PMInstrName(Re(c, s)));
  }

  lemma {:induction false} MInstrsAt(c: Spelling, s: string)
    requires SameConstant(c) && At(c, s, false)
    ensures AlikeList(c, MInstrs(s), MInstrs(Re(c, s)))
    decreases |s|
  {
    hide At, Re, SameConstant, Similar, Grammar.Skip, Grammar.PMachineInstruction;
    SkipAt(c, s, false);
    PMachineInstructionAt(c, Skip(s));
    if PMachineInstruction(Skip(s)).Done? {
      MInstrsAt(c, PMachineInstruction(Skip(s)).rest);
    }
  }

  lemma PMachineAt(c: Spelling, s: string)
    requires SameConstant(c) && At(c, s, false)
    ensures Alike(c, PMachine(s), PMachine(Re(c, s)))
  {
    hide At, Re, SameConstant, Similar, Grammar.Skip, Grammar.MInstrs, Grammar.Spanning;
    LitAt(c, "machine", s, false);
    if Lit("machine", s).Some? {
      var s1 := Lit("machine", s).value;
      LitNext(c, "{", s1);
      var open := Lit("{", Skip(s1));
      if open.Some? {
        SkipAt(c, open.value, false);
        MInstrsAt(c, Skip(open.value));
        var body, body' := MInstrs(Skip(open.value)), MInstrs(Skip(Re(c, open.value)));
        LitNext(c, "}", body.rest);
        var close := Lit("}", Skip(body.rest));
        if close.Some? {
          SpanAlike(c, Machine, s, close.value, body.pairs, body'.pairs);
        }
      }
    }
  }

  /** Both sources are accepted or refused alike, with similar trees. */
  lemma PFileAt(c: Spelling, s: string)
    requires SameConstant(c) && At(c, s, false)
    ensures PFile(s).Some? <==> PFile(Re(c, s)).Some?
    ensures PFile(s).Some? ==> Similar(PFile(s).value, PFile(Re(c, s)).value)
  {
    hide At, Re, SameConstant, Similar, Grammar.Skip, Grammar.PMachine, Grammar.Exprs;
    SkipAt(c, s, false);
    var s1 := Skip(s);
    PMachineAt(c, s1);
    var m, m' := PMachine(s1), PMachine(Re(c, s1));
    var s2 := if m.Done? then m.rest else s1;
    SkipAt(c, s2, false);
    ExprsAt(c, Skip(s2));
    var body, body' := Exprs(Skip(s2)), Exprs(Skip(Re(c, s2)));
    SkipAt(c, body.rest, false);
    HeadAt(c, Skip(body.rest), false);
    var ps, ps' := if m.Done? then [m.pair] else [], if m'.Done? then [m'.pair] else [];
    var end := [Pair(EOI, "", [])];
    if m.Done? {
      OneSimilar(m.pair, m'.pair);
    }
    AllSimilarSelf(end);
    AllSimilarAppend(ps, ps', body.pairs, body'.pairs);
    AllSimilarAppend(ps + body.pairs, ps' + body'.pairs, end, end);
    SimilarPairs(File, s, ps + body.pairs + end, Re(c, s), ps' + body'.pairs + end);
  }
}
