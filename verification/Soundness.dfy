/** Whatever the parse functions accept is derived by the grammar. */
module Soundness {
  import opened Common
  import opened Grammar
  import opened Shape
  import opened Quotes
  import opened Tokens
  import opened Lookahead
  import opened Derivation

  /** The tree p derives the text from s to r. */
  predicate Read(p: Pair, s: string, r: string) {
    p.text <= s && s[|p.text|..] == r && Derives(p, s)
  }

  predicate Sound(s: string, r: Parse) {
    r.Done? ==> Read(r.pair, s, r.rest)
  }

  // ----- chains and spans

  lemma SymbolLeaves(p: Pair, x: Symbol, s: string)
    requires SymbolStands(p, x, s)
    ensures Leaves(s, s[|SymbolText(p, x)|..])
  {
    hide Derivation.Derives;
  }

  lemma {:induction false} ChainLeaves(p: Pair, f: seq<Symbol>, s: string, r: string)
    requires Chain(p, f, s, r)
    ensures Leaves(s, r)
    decreases |f|
  {
    hide Grammar.Skip, Derivation.SymbolStands;
    if f != [] {
      var t := s[|SymbolText(p, f[0])|..];
      SymbolLeaves(p, f[0], s);
      if |f| > 1 {
        ChainLeaves(p, f[1..], Skip(t), r);
        SkipSuffix(t);
        LeavesStep(t, |t| - |Skip(t)|, r);
        LeavesStep(s, |s| - |t|, r);
      }
    }
  }

  /** Rules whose pairs are words of their own, not written by a form. */
  predicate IsWord(p: Pair) {
    p.rule == Ident || p.rule == Value || p.rule == EOI || (p.rule == Constant && p.inner == [])
  }

  /** A pair that spans a chain of its form is derived. */
  lemma SpanRead(p: Pair, comma: bool, s: string, r: string)
    requires LocalShape(p) && !IsWord(p) && Chain(p, Form(p, comma), s, r)
    requires |r| <= |s| && p.text == s[..|s| - |r|]
    ensures Read(p, s, r)
  {
    hide LocalShape, Derivation.Form, Derivation.Chain;
    ChainLeaves(p, Form(p, comma), s, r);
    assert s[|p.text|..] == r;
  }

  lemma StandsPair(p: Pair, i: nat, s: string, r: string)
    requires i < |p.inner| && Read(p.inner[i], s, r)
    ensures SymbolStands(p, N(i), s) && s[|SymbolText(p, N(i))|..] == r
  {
    hide Derivation.Derives;
  }

  lemma StandsTok(p: Pair, tok: string, s: string)
    requires tok <= s
    ensures SymbolStands(p, T(tok), s) && s[|SymbolText(p, T(tok))|..] == s[|tok|..]
  {
  }

  /** An empty literal stands anywhere. */
  lemma NothingMore(p: Pair, s: string)
    ensures Chain(p, [T("")], s, s)
  {
    ChainOne(p, T(""), s, s);
  }

  /** A list of pairs read from s to r, as symbols i to j of p; no pairs, no text. */
  predicate ListRead(p: Pair, i: nat, j: nat, s: string, r: string) {
    i <= j && if i == j then s == r else Chain(p, Each(i, j), Skip(s), r)
  }

  /** A list and what is written behind it. */
  lemma ListThen(p: Pair, i: nat, j: nat, g: seq<Symbol>, s: string, m: string, r: string)
    requires ListRead(p, i, j, s, m) && g != [] && Chain(p, g, Skip(m), r)
    ensures Chain(p, Each(i, j) + g, Skip(s), r)
  {
    hide Grammar.Skip, Derivation.Chain;
    if i == j {
      assert Each(i, j) + g == g;
    } else {
      ChainAppend(p, Each(i, j), g, Skip(s), m, r);
    }
  }

  // ----- words

  lemma PIdentSound(s: string)
    ensures Sound(s, PIdent(s))
  {
    hide Grammar.IdentTail;
    PIdentShaped(s);
    if PIdent(s).Done? {
      IdentTailEnds(s[1..]);
      assert s[|PIdent(s).pair.text|..] == IdentTail(s[1..]);
    }
  }

  lemma {:induction false} IdentTailEnds(s: string)
    ensures Leaves(s, IdentTail(s)) && (IdentTail(s) == "" || !IsIdentChar(IdentTail(s)[0]))
  {
    if s != "" && IsIdentChar(s[0]) {
      IdentTailEnds(s[1..]);
      LeavesStep(s, 1, IdentTail(s[1..]));
    }
  }

  lemma {:induction false} ValueTailSound(s: string)
    ensures var r := ValueTail(s); Leaves(s, r) && Row(IsValueChar, s, r) && RowEnds(IsValueChar, r)
    decreases |s|
  {
    hide Grammar.Skip;
    var y := Skip(s);
    SkipSuffix(s);
    if y != "" && IsValueChar(y[0]) {
      ValueTailSound(y[1..]);
      LeavesStep(y, 1, ValueTail(y[1..]));
      LeavesStep(s, |s| - |y|, ValueTail(y[1..]));
    }
  }

  lemma PValueSound(s: string)
    requires Solid(s)
    ensures Read(PValue(s), s, ValueRest(s))
  {
    hide Grammar.ValueTail, LocalShape, Grammar.Skip;
    PValueShaped(s);
    var r := ValueRest(s);
    if s != "" && IsValueChar(s[0]) {
      ValueTailSound(s[1..]);
      LeavesStep(s, 1, r);
    } else {
      SolidSkip(s);
    }
    assert s[|PValue(s).text|..] == r;
  }

  lemma {:induction false} DigitTailSound(s: string)
    ensures var r := DigitTail(s); Leaves(s, r) && Row(IsDigit, s, r) && RowEnds(IsDigit, r)
    decreases |s|
  {
    hide Grammar.Skip;
    var y := Skip(s);
    SkipSuffix(s);
    if y != "" && IsDigit(y[0]) {
      DigitTailSound(y[1..]);
      LeavesStep(y, 1, DigitTail(y[1..]));
      LeavesStep(s, |s| - |y|, DigitTail(y[1..]));
    }
  }

  lemma DigitsRestSound(s: string)
    requires s != "" && IsDigit(s[0])
    ensures Leaves(s, DigitsRest(s)) && IsNumber(s, DigitsRest(s))
  {
    hide Grammar.Skip, Grammar.DigitTail, Leaves, Row, RowEnds;
    var y := Skip(s[1..]);
    SkipLeaves(s[1..]);
    TailLeaves(s);
    LeavesTwice(s, s[1..], y);
    if y != "" && IsDigit(y[0]) {
      DigitTailSound(y[1..]);
      TailLeaves(y);
      LeavesTwice(y, y[1..], DigitTail(y[1..]));
      LeavesTwice(s, y, DigitTail(y[1..]));
    }
  }

  lemma PDigitsSound(s: string)
    ensures Sound(s, PDigits(s))
  {
    hide Grammar.DigitsRest, IsNumber;
    if s != "" && IsDigit(s[0]) {
      DigitsRestSound(s);
      assert s[|PDigits(s).pair.text|..] == DigitsRest(s);
    }
  }

  lemma PQuotedSound(s: string)
    ensures Sound(s, PQuoted(s))
  {
    hide Grammar.Skip, Grammar.ValueRest, Grammar.PValue, LocalShape, Derivation.Chain, Read;
    if PQuoted(s).Done? {
      var p := PQuoted(s).pair;
      var v := Skip(s[1..]);
      var m := ValueRest(v);
      var x := Skip(m);
      PQuotedShaped(s);
      PValueSound(v);
      StandsPair(p, 0, v, m);
      StandsTok(p, "\"", s);
      StandsTok(p, "\"", x);
      ChainOne(p, T("\""), x, x[1..]);
      ChainCons(p, N(0), [T("\"")], v, x[1..]);
      ChainCons(p, T("\""), [N(0), T("\"")], s, x[1..]);
      assert [T("\"")] + [N(0), T("\"")] == [T("\""), N(0), T("\"")] && [N(0)] + [T("\"")] == [N(0), T("\"")];
      SpanRead(p, false, s, x[1..]);
    }
  }

  lemma PQuotedShaped(s: string)
    ensures PQuoted(s).Done? ==> LocalShape(PQuoted(s).pair) && PQuoted(s).pair.rule == Constant && |PQuoted(s).pair.inner| == 1
  {
    hide Grammar.Skip, Grammar.ValueRest;
  }

  lemma PConstantSound(s: string)
    ensures Sound(s, PConstant(s))
  {
    hide Grammar.PQuoted, Grammar.PDigits, Read;
    PQuotedSound(s);
    PDigitsSound(s);
  }

  // ----- names

  lemma KeywordSound(rule: Rule, tok: string, s: string)
    requires Word(rule) == Some(tok)
    ensures Sound(s, Keyword(rule, tok, s))
  {
    if tok <= s {
      var p := Pair(rule, tok, []);
      ChainOne(p, T(tok), s, s[|tok|..]);
    }
  }

  /** A pair around a single pair that was read. */
  lemma WrapSound(p: Pair, q: Pair, s: string, r: string)
    requires LocalShape(p) && !IsWord(p) && p.inner == [q] && p.text == q.text && Read(q, s, r)
    requires Form(p, false) == Each(0, 1)
    ensures Read(p, s, r)
  {
    hide LocalShape, Derivation.Form, Derivation.Derives;
    StandsPair(p, 0, s, r);
    ChainOne(p, N(0), s, r);
    assert Each(0, 1) == [N(0)];
    SpanRead(p, false, s, r) by { assert p.text == s[..|s| - |r|]; }
  }

  lemma NamedSound(rule: Rule, s: string, r: Parse)
    requires rule == FuncName || rule == MInstrName || rule == DistName || rule == DynamicName
    requires Sound(s, r) && (r.Done? ==> LocalShape(Named(rule, r).pair))
    ensures Sound(s, Named(rule, r))
  {
    hide LocalShape, Read;
    if r.Done? {
      WrapSound(Named(rule, r).pair, r.pair, s, r.rest);
    }
  }

  lemma PDynamicNameSound(s: string)
    ensures Sound(s, PDynamicName(s))
  {
    hide Grammar.Keyword, Sound, LocalShape;
    KeywordSound(RandomPath, "random_path", s);
    KeywordSound(RandomString, "random_string", s);
    PDynamicNameShaped(s);
    NamedSound(DynamicName, s, Or(Keyword(RandomPath, "random_path", s), Keyword(RandomString, "random_string", s)));
  }

  lemma PDistNameSound(s: string)
    ensures Sound(s, PDistName(s))
  {
    hide Grammar.Keyword, Sound, LocalShape;
    KeywordSound(Exp, "exp", s);
    KeywordSound(Zipf, "zipf", s);
    KeywordSound(Uniform, "uniform", s);
    PDistNameShaped(s);
    NamedSound(DistName, s, Or(Keyword(Exp, "exp", s), Or(Keyword(Zipf, "zipf", s), Keyword(Uniform, "uniform", s))));
  }

  lemma PFuncNameSound(s: string)
    ensures Sound(s, PFuncName(s))
  {
    hide Grammar.Keyword, Sound, LocalShape;
    KeywordSound(Task, "task", s);
    KeywordSound(Network, "network", s);
    KeywordSound(Port, "port", s);
    KeywordSound(Open, "open", s);
    KeywordSound(Ping, "ping", s);
    KeywordSound(Debug, "debug", s);
    PFuncNameShaped(s);
    NamedSound(FuncName, s,
               Or(Keyword(Task, "task", s), Or(Keyword(Network, "network", s), Or(Keyword(Port, "port", s),
               Or(Keyword(Open, "open", s), Or(Keyword(Ping, "ping", s), Keyword(Debug, "debug", s)))))));
  }

  lemma PMInstrNameSound(s: string)
    ensures Sound(s, PMInstrName(s))
  {
    hide Grammar.Keyword, Sound, LocalShape;
    KeywordSound(Rule.Server, "server", s);
    KeywordSound(Load, "load", s);
    KeywordSound(Memory, "memory", s);
    KeywordSound(Rule.Profile, "profile", s);
    KeywordSound(Rule.Path, "path", s);
    PMInstrNameShaped(s);
    NamedSound(MInstrName, s,
               Or(Keyword(Rule.Server, "server", s), Or(Keyword(Load, "load", s), Or(Keyword(Memory, "memory", s),
               Or(Keyword(Rule.Profile, "profile", s), Keyword(Rule.Path, "path", s))))));
  }

  // ----- arguments

  lemma EachShort()
    ensures Each(0, 1) == [N(0)] && Each(0, 2) == [N(0)] + [N(1)]
  {
    assert Each(1, 2) == [N(1)];
  }

  /** Two pairs, one after the other. */
  lemma TwoRead(p: Pair, s: string, m: string, r: string)
    requires |p.inner| == 2 && Read(p.inner[0], s, m) && Read(p.inner[1], Skip(m), r)
    ensures Chain(p, [N(0)] + [N(1)], s, r)
  {
    hide Grammar.Skip, Derivation.Derives;
    StandsPair(p, 0, s, m);
    StandsPair(p, 1, Skip(m), r);
    ChainOne(p, N(1), Skip(m), r);
    ChainCons(p, N(0), [N(1)], s, r);
  }

  lemma {:induction false} PDynamicSound(s: string)
    ensures Sound(s, PDynamic(s))
    decreases |s|, 0
  {
    hide Grammar.Skip, Grammar.PDynamicName, Grammar.PArgs, Read, Derivation.Chain, LocalShape;
    if PDynamic(s).Done? {
      PDynamicNameSound(s);
      var s1 := PDynamicName(s).rest;
      PArgsSound(Skip(s1));
      PDynamicShaped(s);
      var p := PDynamic(s).pair;
      TwoRead(p, s, s1, PDynamic(s).rest);
      EachShort();
      SpanRead(p, false, s, PDynamic(s).rest);
    }
  }

  lemma {:induction false} PArgSound(s: string)
    ensures Sound(s, PArg(s))
    decreases |s|, 1
  {
    hide Grammar.PDynamic, Grammar.PIdent, Grammar.PConstant, Read, LocalShape;
    PDynamicSound(s);
    PIdentSound(s);
    PConstantSound(s);
    if PArg(s).Done? {
      PArgShaped(s);
      var p := PArg(s).pair;
      StandsPair(p, 0, s, PArg(s).rest);
      ChainOne(p, N(0), s, PArg(s).rest);
      EachShort();
      SpanRead(p, false, s, PArg(s).rest);
    }
  }

  /** Further items of a list, as symbols i to j of p. */
  predicate TailRead(p: Pair, i: nat, j: nat, s: string, r: string) {
    i <= j && if i == j then s == r else Chain(p, EachAfterComma(i, j), Skip(s), r)
  }

  /** A comma and an item in front of a tail. */
  lemma TailCons(p: Pair, i: nat, j: nat, s: string, m: string, r: string)
    requires i < j <= |p.inner| && "," <= Skip(s) && Read(p.inner[i], Skip(Skip(s)[1..]), m) && TailRead(p, i + 1, j, m, r)
    ensures TailRead(p, i, j, s, r)
  {
    hide Grammar.Skip, Derivation.Derives, Derivation.Chain;
    var y := Skip(s);
    var x := Skip(y[1..]);
    StandsTok(p, ",", y);
    StandsPair(p, i, x, m);
    ChainOne(p, N(i), x, m);
    ChainCons(p, T(","), [N(i)], y, m);
    assert [T(",")] + [N(i)] == [T(","), N(i)];
    if i + 1 < j {
      ChainAppend(p, [T(","), N(i)], EachAfterComma(i + 1, j), y, m, r);
    } else {
      assert [T(","), N(i)] + EachAfterComma(i + 1, j) == [T(","), N(i)];
    }
  }

  lemma SliceTail(ps: seq<Pair>, i: nat, x: Pair, more: seq<Pair>)
    requires i + 1 + |more| <= |ps| && ps[i..i + 1 + |more|] == [x] + more
    ensures ps[i] == x && ps[i + 1..i + 1 + |more|] == more
  {
    var t := ps[i..i + 1 + |more|];
    assert t[0] == ps[i];
    assert t[1..] == ps[i + 1..i + 1 + |more|];
  }

  lemma {:induction false} ArgTailSound(p: Pair, i: nat, s: string)
    requires var ps := ArgTail(s).pairs; i + |ps| <= |p.inner| && p.inner[i..i + |ps|] == ps
    ensures TailRead(p, i, i + |ArgTail(s).pairs|, s, ArgTail(s).rest)
    decreases |s|, 0
  {
    hide Grammar.Skip, Grammar.PArg, Read, TailRead;
    NoTail(p, i, s);
    var l := Lit(",", Skip(s));
    if l.Some? && PArg(Skip(l.value)).Done? {
      var x := Skip(l.value);
      PArgSound(x);
      var m := PArg(x).rest;
      var more := ArgTail(m).pairs;
      SliceTail(p.inner, i, PArg(x).pair, more);
      ArgTailSound(p, i + 1, m);
      TailCons(p, i, i + 1 + |more|, s, m, ArgTail(m).rest);
    }
  }

  lemma NoTail(p: Pair, i: nat, s: string)
    ensures TailRead(p, i, i, s, s)
  {
  }

  /** The end of a list. */
  lemma ListEndRead(p: Pair, comma: bool, y: string, r: string)
    requires Solid(y) && (comma ==> "," <= y)
    requires var z := if comma then Skip(y[1..]) else y; ")" <= z && r == z[1..]
    ensures Chain(p, (if comma then [T(",")] else []) + [T(")")], y, r)
  {
    hide Grammar.Skip, Derivation.Chain;
    var z := if comma then Skip(y[1..]) else y;
    StandsTok(p, ")", z);
    ChainOne(p, T(")"), z, r);
    if comma {
      StandsTok(p, ",", y);
      ChainCons(p, T(","), [T(")")], y, r);
    } else {
      assert [] + [T(")")] == [T(")")];
    }
  }

  /** A list in parentheses, put together. */
  lemma ListJoined(p: Pair, comma: bool, s: string, a: string, m: string, r: string)
    requires "(" <= s && p.inner != [] && Read(p.inner[0], Skip(s[1..]), a) && TailRead(p, 1, |p.inner|, Skip(a), m)
    requires var y := Skip(m); comma ==> "," <= y
    requires var y := Skip(m);
             var z := if comma then Skip(y[1..]) else y; ")" <= z && r == z[1..]
    ensures Chain(p, ListForm(|p.inner|, comma), s, r)
  {
    hide Grammar.Skip, Derivation.Derives, Derivation.Chain;
    var n := |p.inner|;
    var end := (if comma then [T(",")] else []) + [T(")")];
    var x := Skip(s[1..]);
    SolidSkip(Skip(a));
    ListEndRead(p, comma, Skip(m), r);
    StandsPair(p, 0, x, a);
    if n == 1 {
      ChainCons(p, N(0), end, x, r);
      assert EachAfterComma(1, n) + end == end;
    } else {
      ChainAppend(p, EachAfterComma(1, n), end, Skip(a), m, r);
      ChainCons(p, N(0), EachAfterComma(1, n) + end, x, r);
    }
    StandsTok(p, "(", s);
    ChainCons(p, T("("), [N(0)] + (EachAfterComma(1, n) + end), s, r);
    assert [T("(")] + ([N(0)] + (EachAfterComma(1, n) + end)) == ListForm(n, comma);
  }

  lemma EmptyList(p: Pair, s: string, r: string)
    requires "(" <= s && p.inner == [] && ")" <= Skip(s[1..]) && r == Skip(s[1..])[1..]
    ensures Chain(p, ListForm(0, false), s, r)
  {
    hide Grammar.Skip, Derivation.Chain;
    var x := Skip(s[1..]);
    StandsTok(p, ")", x);
    ChainOne(p, T(")"), x, r);
    StandsTok(p, "(", s);
    ChainCons(p, T("("), [T(")")], s, r);
    assert [T("(")] + [T(")")] == ListForm(0, false);
  }

  /** What ArgList reads, item by item; comma says whether the list ends in one. */
  lemma {:induction false} PArgsSound(s: string)
    ensures Sound(s, PArgs(s))
    decreases |s|, 3
  {
    hide Grammar.Skip, Grammar.PArg, Grammar.ArgTail, Read, TailRead, Derivation.Chain, LocalShape, Derivation.ListForm;
    if PArgs(s).Done? {
      var p, r := PArgs(s).pair, PArgs(s).rest;
      var x := Skip(s[1..]);
      PArgsShaped(s);
      PArgSound(x);
      if PArg(x).Fail? {
        SolidSkip(x);
        EmptyList(p, s, r);
        SpanRead(p, false, s, r);
      } else {
        var a := PArg(x).rest;
        var tail := ArgTail(Skip(a));
        assert p.inner == [PArg(x).pair] + tail.pairs;
        assert p.inner[1..] == tail.pairs;
        ArgTailSound(p, 1, Skip(a));
        var y := Skip(tail.rest);
        SolidSkip(y);
        ListJoined(p, "," <= y, s, a, tail.rest, r);
        SpanRead(p, "," <= y, s, r);
      }
    }
  }

  // ----- parameters and work units

  /** A key, an equals sign and a value. */
  lemma EntryRead(p: Pair, s: string, m: string, r: string)
    requires |p.inner| == 2 && Read(p.inner[0], s, m) && "=" <= Skip(m)
    requires Read(p.inner[1], Skip(Skip(m)[1..]), r)
    ensures Chain(p, [N(0), T("="), N(1)], s, r)
  {
    hide Grammar.Skip, Derivation.Derives, Derivation.Chain;
    var y := Skip(m);
    var x := Skip(y[1..]);
    StandsPair(p, 1, x, r);
    ChainOne(p, N(1), x, r);
    StandsTok(p, "=", y);
    ChainCons(p, T("="), [N(1)], y, r);
    StandsPair(p, 0, s, m);
    ChainCons(p, N(0), [T("="), N(1)], s, r);
    assert [T("=")] + [N(1)] == [T("="), N(1)] && [N(0)] + [T("="), N(1)] == [N(0), T("="), N(1)];
  }

  lemma PParamSound(s: string)
    ensures Sound(s, PParam(s))
  {
    hide Grammar.Skip, Grammar.PIdent, Grammar.PValue, Grammar.ValueRest, Read, Derivation.Chain, LocalShape;
    if PParam(s).Done? {
      var p, r := PParam(s).pair, PParam(s).rest;
      PIdentSound(s);
      PParamShaped(s);
      var v := Skip(Skip(PIdent(s).rest)[1..]);
      PValueSound(v);
      EntryRead(p, s, PIdent(s).rest, r);
      SpanRead(p, false, s, r);
    }
  }

  lemma {:induction false} ParamTailSound(p: Pair, i: nat, s: string)
    requires var ps := ParamTail(s).pairs; i + |ps| <= |p.inner| && p.inner[i..i + |ps|] == ps
    ensures TailRead(p, i, i + |ParamTail(s).pairs|, s, ParamTail(s).rest)
    decreases |s|
  {
    hide Grammar.Skip, Grammar.PParam, Read, TailRead;
    NoTail(p, i, s);
    var l := Lit(",", Skip(s));
    if l.Some? && PParam(Skip(l.value)).Done? {
      var x := Skip(l.value);
      PParamSound(x);
      var m := PParam(x).rest;
      var more := ParamTail(m).pairs;
      SliceTail(p.inner, i, PParam(x).pair, more);
      ParamTailSound(p, i + 1, m);
      TailCons(p, i, i + 1 + |more|, s, m, ParamTail(m).rest);
    }
  }

  lemma PParamsSound(s: string)
    ensures Sound(s, PParams(s))
  {
    hide Grammar.Skip, Grammar.PParam, Grammar.ParamTail, Read, TailRead, Derivation.Chain, LocalShape;
    hide Derivation.ListForm;
    if PParams(s).Done? {
      var p, r := PParams(s).pair, PParams(s).rest;
      var x := Skip(s[1..]);
      PParamsShaped(s);
      PParamSound(x);
      if PParam(x).Fail? {
        SolidSkip(x);
        EmptyList(p, s, r);
        SpanRead(p, false, s, r);
      } else {
        var a := PParam(x).rest;
        var tail := ParamTail(Skip(a));
        assert p.inner == [PParam(x).pair] + tail.pairs;
        assert p.inner[1..] == tail.pairs;
        ParamTailSound(p, 1, Skip(a));
        var y := Skip(tail.rest);
        SolidSkip(y);
        ListJoined(p, "," <= y, s, a, tail.rest, r);
        SpanRead(p, "," <= y, s, r);
      }
    }
  }

  lemma PWorkSound(s: string)
    ensures Sound(s, PWork(s))
  {
    hide Grammar.Skip, Grammar.PIdent, Grammar.PParams, Read, Derivation.Chain, LocalShape;
    if PWork(s).Done? {
      var p, r := PWork(s).pair, PWork(s).rest;
      PIdentSound(s);
      PWorkShaped(s);
      var s1 := PIdent(s).rest;
      PParamsSound(Skip(s1));
      if PParams(Skip(s1)).Done? {
        TwoRead(p, s, s1, r);
        assert [N(0)] + [N(1)] == [N(0), N(1)];
      } else {
        NothingMore(p, r);
        StandsPair(p, 0, s, s1);
        ChainCons(p, N(0), [T("")], s, r);
        assert [N(0)] + [T("")] == [N(0), T("")];
      }
      SpanRead(p, false, s, r);
    }
  }

  // ----- distributions

  lemma POptSound(s: string)
    ensures Sound(s, POpt(s))
  {
    hide Grammar.Skip, Grammar.PIdent, Grammar.PValue, Grammar.ValueRest, Read, Derivation.Chain, LocalShape;
    if POpt(s).Done? {
      var p, r := POpt(s).pair, POpt(s).rest;
      PIdentSound(s);
      POptShaped(s);
      var v := Skip(Skip(PIdent(s).rest)[1..]);
      var m := ValueRest(v);
      PValueSound(v);
      EntryRead(p, s, PIdent(s).rest, m);
      StandsTok(p, ";", Skip(m));
      ChainOne(p, T(";"), Skip(m), r);
      ChainAppend(p, [N(0), T("="), N(1)], [T(";")], s, m, r);
      assert [N(0), T("="), N(1)] + [T(";")] == [N(0), T("="), N(1), T(";")];
      SpanRead(p, false, s, r);
    }
  }

  lemma NoList(p: Pair, i: nat, s: string)
    ensures ListRead(p, i, i, s, s)
  {
  }

  /** A pair in front of a list. */
  lemma ListCons(p: Pair, i: nat, j: nat, s: string, m: string, r: string)
    requires i < j <= |p.inner| && Read(p.inner[i], Skip(s), m) && ListRead(p, i + 1, j, m, r)
    ensures ListRead(p, i, j, s, r)
  {
    hide Grammar.Skip, Derivation.Derives, Derivation.Chain;
    StandsPair(p, i, Skip(s), m);
    ChainOne(p, N(i), Skip(s), m);
    if i + 1 < j {
      ChainCons(p, N(i), Each(i + 1, j), Skip(s), r);
    } else {
      assert [N(i)] + Each(i + 1, j) == [N(i)];
    }
  }

  lemma {:induction false} OptsSound(p: Pair, i: nat, s: string)
    requires var ps := Opts(s).pairs; i + |ps| <= |p.inner| && p.inner[i..i + |ps|] == ps
    ensures ListRead(p, i, i + |Opts(s).pairs|, s, Opts(s).rest)
    decreases |s|
  {
    hide Grammar.Skip, Grammar.POpt, Read, ListRead;
    NoList(p, i, s);
    POptSound(Skip(s));
    if POpt(Skip(s)).Done? {
      var m := POpt(Skip(s)).rest;
      var more := Opts(m).pairs;
      SliceTail(p.inner, i, POpt(Skip(s)).pair, more);
      OptsSound(p, i + 1, m);
      ListCons(p, i, i + 1 + |more|, s, m, Opts(m).rest);
    }
  }

  /** A list and its closing literal. */
  lemma ClosedList(p: Pair, i: nat, j: nat, tok: string, s: string, m: string, r: string)
    requires ListRead(p, i, j, s, m) && tok <= Skip(m) && r == Skip(m)[|tok|..]
    ensures Chain(p, Each(i, j) + [T(tok)], Skip(s), r)
  {
    hide Grammar.Skip, ListRead, Derivation.Chain;
    StandsTok(p, tok, Skip(m));
    ChainOne(p, T(tok), Skip(m), r);
    ListThen(p, i, j, [T(tok)], s, m, r);
  }

  lemma PDistSound(s: string)
    ensures Sound(s, PDist(s))
  {
    hide Grammar.Skip, Grammar.PDistName, Grammar.Opts, Read, ListRead, Derivation.Chain, LocalShape, Derivation.Each;
    if PDist(s).Done? {
      var p, r := PDist(s).pair, PDist(s).rest;
      var x := Skip(s[1..]);
      PDistNameSound(x);
      PDistShaped(s);
      var a := PDistName(x).rest;
      var b := Skip(a)[1..];
      var opts := Opts(Skip(b));
      assert p.inner[1..] == opts.pairs;
      OptsSound(p, 1, Skip(b));
      SolidSkip(Skip(b));
      var n := |p.inner|;
      var end := Each(1, n) + [T("}")];
      ClosedList(p, 1, n, "}", Skip(b), opts.rest, r);
      StandsTok(p, "{", Skip(a));
      ChainCons(p, T("{"), end, Skip(a), r);
      StandsPair(p, 0, x, a);
      ChainCons(p, N(0), [T("{")] + end, x, r);
      StandsTok(p, ":", s);
      ChainCons(p, T(":"), [N(0)] + ([T("{")] + end), s, r);
      assert [T(":")] + ([N(0)] + ([T("{")] + end)) == Form(p, false);
      SpanRead(p, false, s, r);
    }
  }

  // ----- instructions and functions

  lemma PCallSound(rule: Rule, s: string, name: Parse)
    requires rule == Instruction || rule == MachineInstruction
    requires name.Done? ==> |name.rest| < |s|
    requires Sound(s, name) && (PCall(rule, s, name).Done? ==> LocalShape(PCall(rule, s, name).pair))
    ensures Sound(s, PCall(rule, s, name))
  {
    hide Grammar.Skip, Grammar.PArgs, Read, Derivation.Chain, LocalShape;
    if PCall(rule, s, name).Done? {
      var p, r := PCall(rule, s, name).pair, PCall(rule, s, name).rest;
      var s2 := Skip(name.rest);
      PArgsSound(s2);
      var m := if PArgs(s2).Done? then PArgs(s2).rest else s2;
      SolidSkip(s2);
      StandsTok(p, ";", Skip(m));
      ChainOne(p, T(";"), Skip(m), r);
      EachShort();
      if PArgs(s2).Done? {
        TwoRead(p, s, name.rest, m);
        ChainAppend(p, [N(0)] + [N(1)], [T(";")], s, m, r);
      } else {
        StandsPair(p, 0, s, name.rest);
        ChainCons(p, N(0), [T(";")], s, r);
      }
      SpanRead(p, false, s, r);
    }
  }

  lemma PInstructionSound(s: string)
    ensures Sound(s, PInstruction(s))
  {
    hide Grammar.PFuncName, Grammar.PCall, Sound, LocalShape;
    PFuncNameSound(s);
    PInstructionShaped(s);
    PCallSound(Instruction, s, PFuncName(s));
  }

  lemma {:induction false} PExprSound(s: string)
    ensures Sound(s, PExpr(s))
    decreases |s|, 1
  {
    hide Grammar.PFunction, Grammar.PInstruction, Read, LocalShape;
    PFunctionSound(s);
    PInstructionSound(s);
    if PExpr(s).Done? {
      PExprShaped(s);
      var p := PExpr(s).pair;
      StandsPair(p, 0, s, PExpr(s).rest);
      ChainOne(p, N(0), s, PExpr(s).rest);
      EachShort();
      SpanRead(p, false, s, PExpr(s).rest);
    }
  }

  lemma {:induction false} ExprsSound(p: Pair, i: nat, s: string)
    requires var ps := Exprs(s).pairs; i + |ps| <= |p.inner| && p.inner[i..i + |ps|] == ps
    ensures ListRead(p, i, i + |Exprs(s).pairs|, s, Exprs(s).rest)
    decreases |s|, 2
  {
    hide Grammar.Skip, Grammar.PExpr, Read, ListRead;
    NoList(p, i, s);
    PExprSound(Skip(s));
    if PExpr(Skip(s)).Done? {
      var m := PExpr(Skip(s)).rest;
      var more := Exprs(m).pairs;
      SliceTail(p.inner, i, PExpr(Skip(s)).pair, more);
      ExprsSound(p, i + 1, m);
      ListCons(p, i, i + 1 + |more|, s, m, Exprs(m).rest);
    }
  }

  /** The body of a function is a pair of its own. */
  lemma BodySound(s: string, p: Pair)
    requires Solid(s) && p == Spanning(Instructions, s, Exprs(s).rest, Exprs(s).pairs) && LocalShape(p)
    requires ListRead(p, 0, |p.inner|, s, Exprs(s).rest)
    ensures Read(p, s, Exprs(s).rest)
  {
    hide Grammar.Skip, Grammar.Exprs, Read, Derivation.Chain, LocalShape;
    SolidSkip(s);
    if p.inner == [] {
      assert Chain(p, [], s, s) by { NoSymbols(p, s); }
    }
    SpanRead(p, false, s, Exprs(s).rest);
  }

  lemma NoSymbols(p: Pair, s: string)
    ensures Chain(p, [], s, s)
  {
  }

  /** Head, braces and body of a function. */
  lemma BracesRead(p: Pair, s: string, a: string, b: string, m: string)
    requires |p.inner| >= 2 && Read(p.inner[0], s, a) && "{" <= Skip(a) && Read(p.inner[1], Skip(Skip(a)[1..]), b)
    requires "}" <= Skip(b) && m == Skip(b)[1..]
    ensures Chain(p, [N(0), T("{"), N(1), T("}")], s, m)
  {
    hide Grammar.Skip, Derivation.Derives, Derivation.Chain;
    StandsTok(p, "}", Skip(b));
    ChainOne(p, T("}"), Skip(b), m);
    var x := Skip(Skip(a)[1..]);
    StandsPair(p, 1, x, b);
    ChainCons(p, N(1), [T("}")], x, m);
    StandsTok(p, "{", Skip(a));
    ChainCons(p, T("{"), [N(1)] + [T("}")], Skip(a), m);
    StandsPair(p, 0, s, a);
    ChainCons(p, N(0), [T("{")] + ([N(1)] + [T("}")]), s, m);
    assert [N(0)] + ([T("{")] + ([N(1)] + [T("}")])) == [N(0), T("{"), N(1), T("}")];
  }

  /** The end of a function: a distribution, or the space in front of what follows. */
  lemma FunctionEnd(p: Pair, s: string, m: string, r: string)
    requires |p.inner| == 2 || |p.inner| == 3
    requires if |p.inner| == 3 then Read(p.inner[2], Skip(m), r) else r == Skip(m)
    requires p.rule == Function && Chain(p, [N(0), T("{"), N(1), T("}")], s, m)
    ensures Chain(p, Form(p, false), s, r)
  {
    hide Grammar.Skip, Derivation.Derives, Derivation.Chain;
    var f := [N(0), T("{"), N(1), T("}")];
    if |p.inner| == 3 {
      StandsPair(p, 2, Skip(m), r);
      ChainOne(p, N(2), Skip(m), r);
      ChainAppend(p, f, [N(2)], s, m, r);
      assert f + [N(2)] == Form(p, false);
    } else {
      NothingMore(p, r);
      ChainAppend(p, f, [T("")], s, m, r);
      assert f + [T("")] == Form(p, false);
    }
  }

  lemma {:induction false} PFunctionSound(s: string)
    ensures Sound(s, PFunction(s))
    decreases |s|, 0
  {
    hide Grammar.Skip, Grammar.PWork, Grammar.Exprs, Grammar.PDist, Read, ListRead, Derivation.Chain, LocalShape;
    if PFunction(s).Done? {
      var p, r := PFunction(s).pair, PFunction(s).rest;
      PFunctionShaped(s);
      PWorkSound(s);
      var a := PWork(s).rest;
      var x := Skip(Skip(a)[1..]);
      var body := p.inner[1];
      assert body == Spanning(Instructions, x, Exprs(x).rest, Exprs(x).pairs);
      assert Shaped(p.inner[1]) by { InnerShaped(p, 1); }
      assert body.inner[0..|body.inner|] == Exprs(x).pairs;
      ExprsSound(body, 0, x);
      BodySound(x, body);
      var m := Skip(Exprs(x).rest)[1..];
      BracesRead(p, s, a, Exprs(x).rest, m);
      PDistSound(Skip(m));
      FunctionEnd(p, s, m, r);
      SpanRead(p, false, s, r);
    }
  }

  // ----- machine and file

  lemma PMachineInstructionSound(s: string)
    ensures Sound(s, PMachineInstruction(s))
  {
    hide Grammar.PMInstrName, Grammar.PCall, Sound, LocalShape;
    PMInstrNameSound(s);
    PMachineInstructionShaped(s);
    PCallSound(MachineInstruction, s, PMInstrName(s));
  }

  lemma {:induction false} MInstrsSound(p: Pair, i: nat, s: string)
    requires var ps := MInstrs(s).pairs; i + |ps| <= |p.inner| && p.inner[i..i + |ps|] == ps
    ensures ListRead(p, i, i + |MInstrs(s).pairs|, s, MInstrs(s).rest)
    decreases |s|
  {
    hide Grammar.Skip, Grammar.PMachineInstruction, Read, ListRead;
    NoList(p, i, s);
    PMachineInstructionSound(Skip(s));
    if PMachineInstruction(Skip(s)).Done? {
      var m := PMachineInstruction(Skip(s)).rest;
      var more := MInstrs(m).pairs;
      SliceTail(p.inner, i, PMachineInstruction(Skip(s)).pair, more);
      MInstrsSound(p, i + 1, m);
      ListCons(p, i, i + 1 + |more|, s, m, MInstrs(m).rest);
    }
  }

  lemma PMachineSound(s: string)
    ensures Sound(s, PMachine(s))
  {
    hide Grammar.Skip, Grammar.MInstrs, Read, ListRead, Derivation.Chain, LocalShape, Derivation.Each;
    if PMachine(s).Done? {
      var p, r := PMachine(s).pair, PMachine(s).rest;
      PMachineShaped(s);
      var a := s[|"machine"|..];
      var b := Skip(a)[1..];
      var body := MInstrs(Skip(b));
      assert p.inner[0..|p.inner|] == body.pairs;
      MInstrsSound(p, 0, Skip(b));
      SolidSkip(Skip(b));
      var end := Each(0, |p.inner|) + [T("}")];
      ClosedList(p, 0, |p.inner|, "}", Skip(b), body.rest, r);
      StandsTok(p, "{", Skip(a));
      ChainCons(p, T("{"), end, Skip(a), r);
      StandsTok(p, "machine", s);
      ChainCons(p, T("machine"), [T("{")] + end, s, r);
      assert [T("machine")] + ([T("{")] + end) == Form(p, false);
      SpanRead(p, false, s, r);
    }
  }

  lemma {:induction false} EachLast(i: nat, j: nat)
    requires i <= j
    ensures Each(i, j + 1) == Each(i, j) + [N(j)]
    decreases j - i
  {
    if i < j {
      EachLast(i + 1, j);
    }
  }

  /** Only a machine can be read where a work unit called `machine` would be without parameters and body. */
  lemma EmptyIsMachine(s: string)
    requires PFunction(s).Done?
    requires var p := PFunction(s).pair;
             |p.inner[0].inner| == 1 && p.inner[0].inner[0].text == "machine" && p.inner[1].inner == []
    ensures PMachine(s).Done?
  {
    hide Grammar.Skip, Grammar.PIdent, Grammar.PParams, Grammar.PExpr, Grammar.PDist, LocalShape, Derivation.Derives;
    PIdentSound(s);
    var a := PIdent(s).rest;
    SolidSkip(Skip(a));
    var x := Skip(Skip(a)[1..]);
    SolidSkip(x);
    assert s[|"machine"|..] == a;
    NoExprAt(x);
  }

  /** The first expression of a file is not the empty machine. */
  lemma FirstIsNoMachine(s: string)
    requires PMachine(Skip(s)).Fail? && Exprs(Skip(s)).pairs != []
    ensures !EmptyMachine(Exprs(Skip(s)).pairs[0])
  {
    hide Grammar.Skip, Grammar.PMachine, Grammar.PFunction, Grammar.PInstruction, LocalShape;
    var x := Skip(s);
    SolidSkip(x);
    var p := PExpr(x).pair;
    assert Exprs(x).pairs[0] == p;
    PInstructionShaped(x);
    if EmptyMachine(p) {
      assert PFunction(x).Done?;
      EmptyIsMachine(x);
    }
  }

  lemma FileChain(p: Pair, i: nat, s: string, m: string)
    requires |p.inner| > 0 && i <= |p.inner| - 1 && ListRead(p, i, |p.inner| - 1, s, m)
    requires p.inner[|p.inner| - 1] == Pair(EOI, "", []) && Skip(m) == ""
    ensures Chain(p, Each(i, |p.inner|), Skip(s), "")
  {
    hide Grammar.Skip, ListRead, Derivation.Chain;
    var n := |p.inner| - 1;
    assert Read(p.inner[n], "", "");
    StandsPair(p, n, "", "");
    ChainOne(p, N(n), "", "");
    ListThen(p, i, n, [N(n)], s, m, "");
    EachLast(i, n);
  }

  /** The machine of a source, if it can be read, and the expressions behind it. */
  function MachineIn(s: string): Parse {
    PMachine(Skip(s))
  }

  function BodyOf(s: string): (r: Parses) {
    var m := MachineIn(s);
    Exprs(Skip(if m.Done? then m.rest else Skip(s)))
  }

  lemma FilePieces(s: string)
    requires PFile(s).Some?
    ensures var tree, m, body := PFile(s).value, MachineIn(s), BodyOf(s);
            && tree.inner == (if m.Done? then [m.pair] else []) + body.pairs + [Pair(EOI, "", [])]
            && Skip(body.rest) == ""
  {
    hide Grammar.Skip, Grammar.PMachine, Grammar.Exprs;
  }

  lemma BodyChain(s: string)
    requires PFile(s).Some?
    ensures var tree, m := PFile(s).value, MachineIn(s);
            var i, y := if m.Done? then 1 else 0, if m.Done? then m.rest else Skip(s);
            i < |tree.inner| && Chain(tree, Each(i, |tree.inner|), Skip(y), "")
  {
    hide Grammar.Skip, Grammar.PMachine, Grammar.PFile, Grammar.Exprs, ListRead, Derivation.Chain, Derivation.Each;
    FilePieces(s);
    var tree, m, body := PFile(s).value, MachineIn(s), BodyOf(s);
    var i, y := if m.Done? then 1 else 0, if m.Done? then m.rest else Skip(s);
    assert tree.inner[i..i + |body.pairs|] == body.pairs;
    SolidSkip(Skip(y));
    ExprsSound(tree, i, Skip(y));
    FileChain(tree, i, Skip(y), body.rest);
  }

  lemma FirstItem(s: string)
    requires PFile(s).Some?
    ensures PFile(s).value.inner != [] && !EmptyMachine(PFile(s).value.inner[0])
  {
    hide Grammar.Skip, Grammar.PMachine, Grammar.PFile, Grammar.Exprs, EmptyMachine;
    FilePieces(s);
    SolidSkip(Skip(s));
    PMachineShaped(Skip(s));
    var tree, m, body := PFile(s).value, MachineIn(s), BodyOf(s);
    if m.Done? {
      NoEmptyMachine(m.pair);
    } else if body.pairs != [] {
      FirstIsNoMachine(s);
      assert tree.inner[0] == body.pairs[0];
    } else {
      NoEmptyMachine(Pair(EOI, "", []));
    }
  }

  /** Every accepted source is derived by its tree. */
  lemma FileSound(s: string)
    requires PFile(s).Some?
    ensures DerivesFile(PFile(s).value, s)
  {
    hide Grammar.Skip, Grammar.PMachine, Grammar.PFile, Grammar.Exprs, Read, Derivation.Chain, LocalShape, EmptyMachine;
    hide Derivation.Each;
    FileShaped(s);
    FileText(s);
    FirstItem(s);
    FilePieces(s);
    BodyChain(s);
    var tree, m, x := PFile(s).value, MachineIn(s), Skip(s);
    SolidSkip(x);
    EachNotEmpty(0, |tree.inner|);
    if m.Done? {
      PMachineSound(x);
      StandsPair(tree, 0, x, m.rest);
      EachFirst(0, |tree.inner|);
      EachNotEmpty(1, |tree.inner|);
      ChainCons(tree, N(0), Each(1, |tree.inner|), x, "");
    }
  }

  lemma FileText(s: string)
    requires PFile(s).Some?
    ensures var p := PFile(s).value; p.text == s && p.rule == File && Form(p, false) == Each(0, |p.inner|)
  {
    hide Grammar.Skip, Grammar.PMachine, Grammar.Exprs, Derivation.Each;
  }

  lemma EachFirst(i: nat, j: nat)
    requires i < j
    ensures Each(i, j) == [N(i)] + Each(i + 1, j)
  {
  }

  lemma EachNotEmpty(i: nat, j: nat)
    requires i < j
    ensures Each(i, j) != []
  {
  }

  lemma NoEmptyMachine(p: Pair)
    requires p.rule != Expr
    ensures !EmptyMachine(p)
  {
  }
}
