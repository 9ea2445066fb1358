/**
 Whatever the grammar derives is accepted, with the very tree that derives it: trying
 the alternatives in order and never going back loses nothing, because every literal,
 name and list ends where the next thing tells it to.
 */
module Completeness {
  import opened Common
  import opened Grammar
  import opened Shape
  import opened Tokens
  import opened Lookahead
  import opened Derivation
  import opened Soundness

  // ----- taking chains apart

  lemma ReadText(p: Pair, s: string, r: string)
    requires Read(p, s, r)
    ensures |r| <= |s| && p.text == s[..|s| - |r|] && s[|s| - |r|..] == r && LocalShape(p)
  {
    hide LocalShape, Derivation.Chain;
  }

  /** The form that a derived pair follows. */
  lemma FormOf(p: Pair, s: string, r: string) returns (comma: bool)
    requires Read(p, s, r) && !IsWord(p)
    ensures Chain(p, Form(p, comma), s, r)
  {
    hide LocalShape, Derivation.Chain, Derivation.Form;
    comma := !Chain(p, Form(p, false), s, r);
  }

  /** The first symbol of a chain, and what follows it. */
  lemma TakeTok(p: Pair, tok: string, f: seq<Symbol>, s: string, r: string)
    requires f != [] && Chain(p, [T(tok)] + f, s, r)
    ensures tok <= s && Chain(p, f, Skip(s[|tok|..]), r)
  {
    hide Grammar.Skip, Derivation.Chain;
    ChainCons(p, T(tok), f, s, r);
  }

  lemma TakePair(p: Pair, i: nat, f: seq<Symbol>, s: string, r: string) returns (m: string)
    requires f != [] && Chain(p, [N(i)] + f, s, r)
    ensures i < |p.inner| && Read(p.inner[i], s, m) && Chain(p, f, Skip(m), r)
  {
    hide Grammar.Skip, Derivation.Chain, Derivation.Derives;
    ChainCons(p, N(i), f, s, r);
    assert SymbolStands(p, N(i), s);
    m := s[|p.inner[i].text|..];
  }

  lemma LastTok(p: Pair, tok: string, s: string, r: string)
    requires Chain(p, [T(tok)], s, r)
    ensures tok <= s && r == s[|tok|..]
  {
    ChainOne(p, T(tok), s, r);
  }

  lemma LastPair(p: Pair, i: nat, s: string, r: string)
    requires Chain(p, [N(i)], s, r)
    ensures i < |p.inner| && Read(p.inner[i], s, r)
  {
    hide Derivation.Derives;
    ChainOne(p, N(i), s, r);
    assert SymbolStands(p, N(i), s);
  }

  // ----- words

  lemma IdentComplete(p: Pair, s: string, r: string)
    requires p.rule == Ident && Read(p, s, r)
    ensures PIdent(s) == Done(p, r)
  {
    var t := p.text;
    assert s == t + r;
    assert s[0] == t[0] && s[1..] == t[1..] + r;
    IdentTailStops(t[1..], r);
    assert s[..|s| - |r|] == t;
  }

  lemma {:induction false} ValueTailComplete(s: string, r: string)
    requires Row(IsValueChar, s, r) && RowEnds(IsValueChar, r)
    ensures ValueTail(s) == r
    decreases |s|
  {
    hide Grammar.Skip;
    var y := Skip(s);
    if s != r {
      ValueTailComplete(y[1..], r);
    }
  }

  lemma ValueRestComplete(s: string, r: string)
    requires IsValue(s, r)
    ensures ValueRest(s) == r
  {
    hide Grammar.ValueTail, Grammar.Skip, Row;
    if s == r {
      SolidSkip(s);
    } else {
      ValueTailComplete(s[1..], r);
    }
  }

  lemma ValueWord(p: Pair, s: string, r: string)
    requires p.rule == Value && Read(p, s, r)
    ensures IsValue(s, r) && p.inner == []
  {
    hide Grammar.Skip, Row;
  }

  lemma ValueComplete(p: Pair, s: string, r: string)
    requires p.rule == Value && Read(p, s, r)
    ensures PValue(s) == p && ValueRest(s) == r
  {
    hide Grammar.ValueRest, Grammar.Skip, IsValue, Read, LocalShape;
    ReadText(p, s, r);
    ValueWord(p, s, r);
    ValueRestComplete(s, r);
  }

  lemma {:induction false} DigitTailComplete(s: string, r: string)
    requires Row(IsDigit, s, r) && RowEnds(IsDigit, r)
    ensures DigitTail(s) == r
    decreases |s|
  {
    hide Grammar.Skip;
    var y := Skip(s);
    if s != r {
      DigitTailComplete(y[1..], r);
    }
  }

  lemma NumberComplete(p: Pair, s: string, r: string)
    requires p.rule == Constant && p.inner == [] && Read(p, s, r)
    ensures PDigits(s) == Done(p, r) && PQuoted(s).Fail? && s != "" && IsDigit(s[0])
  {
    hide Grammar.DigitTail, Grammar.Skip, Row;
    assert IsNumber(s, r);
    var y := Skip(s[1..]);
    if y != "" && IsDigit(y[0]) {
      DigitTailComplete(y[1..], r);
    }
    assert s[..|s| - |r|] == p.text;
    assert !("\"" <= s);
  }

  lemma QuotedComplete(p: Pair, s: string, r: string)
    requires p.rule == Constant && p.inner != [] && Read(p, s, r)
    ensures PQuoted(s) == Done(p, r)
  {
    hide Grammar.Skip, Grammar.ValueRest, Grammar.PValue, Derivation.Chain, Read;
    ReadText(p, s, r);
    var comma := FormOf(p, s, r);
    assert Form(p, comma) == [T("\"")] + ([N(0)] + [T("\"")]);
    TakeTok(p, "\"", [N(0)] + [T("\"")], s, r);
    var v := Skip(s[1..]);
    var m := TakePair(p, 0, [T("\"")], v, r);
    ValueComplete(p.inner[0], v, m);
    LastTok(p, "\"", Skip(m), r);
    assert p.inner == [p.inner[0]];
  }

  lemma ConstantComplete(p: Pair, s: string, r: string)
    requires p.rule == Constant && Read(p, s, r)
    ensures PConstant(s) == Done(p, r)
    ensures s != "" && (s[0] == '"' || IsDigit(s[0]))
  {
    hide Grammar.PQuoted, Grammar.PDigits, Read;
    if p.inner == [] {
      NumberComplete(p, s, r);
    } else {
      QuotedComplete(p, s, r);
      QuoteFirst(s);
    }
  }

  lemma QuoteFirst(s: string)
    requires PQuoted(s).Done?
    ensures s != "" && s[0] == '"'
  {
    hide Grammar.Skip, Grammar.ValueRest, Grammar.PValue;
  }

  // ----- names

  /** A keyword pair is the keyword. */
  lemma WordRead(p: Pair, s: string, r: string)
    requires Read(p, s, r) && Word(p.rule).Some?
    ensures Word(p.rule).value <= s && r == s[|Word(p.rule).value|..]
    ensures p == Pair(p.rule, Word(p.rule).value, [])
  {
    hide Grammar.Skip, Derivation.Chain;
    var comma := FormOf(p, s, r);
    var w := Word(p.rule).value;
    LastTok(p, w, s, r);
    assert s[..|p.text|] == p.text && s[..|w|] == w;
  }

  /** A name is the pair of one of its keywords. */
  lemma NameRead(p: Pair, s: string, r: string)
    requires p.rule == FuncName || p.rule == MInstrName || p.rule == DistName || p.rule == DynamicName
    requires Read(p, s, r)
    ensures |p.inner| == 1 && p.inner[0].rule in KeywordRules(p.rule) && Word(p.inner[0].rule).Some?
    ensures var w := Word(p.inner[0].rule).value;
            w <= s && r == s[|w|..] && p == Pair(p.rule, w, [Pair(p.inner[0].rule, w, [])])
  {
    hide Grammar.Skip, Derivation.Chain, Read;
    ReadText(p, s, r);
    var comma := FormOf(p, s, r);
    EachShort();
    LastPair(p, 0, s, r);
    WordRead(p.inner[0], s, r);
    assert p.inner == [p.inner[0]];
    ReadText(p.inner[0], s, r);
  }

  /** Two words that differ somewhere cannot both start a text. */
  lemma OtherWord(w: string, v: string, s: string, i: nat)
    requires w <= s && i < |w| && i < |v| && w[i] != v[i]
    ensures !(v <= s)
  {
  }

  lemma FuncNameComplete(p: Pair, s: string, r: string)
    requires p.rule == FuncName && Read(p, s, r)
    ensures PFuncName(s) == Done(p, r)
    ensures s != "" && IsIdentStart(s[0])
  {
    hide Read, LocalShape, Grammar.PFuncName;
    NameRead(p, s, r);
    FuncNameFirst(p.inner[0].rule, s);
  }

  lemma MInstrNameComplete(p: Pair, s: string, r: string)
    requires p.rule == MInstrName && Read(p, s, r)
    ensures PMInstrName(s) == Done(p, r)
    ensures s != "" && IsIdentStart(s[0])
  {
    hide Read, LocalShape;
    NameRead(p, s, r);
    var w := p.text;
    if w != "server" { OtherWord(w, "server", s, 0); }
    if w != "load" { OtherWord(w, "load", s, 0); }
    if w != "memory" { OtherWord(w, "memory", s, 0); }
    if w != "profile" { OtherWord(w, "profile", s, if w == "path" then 1 else 0); }
  }

  lemma DistNameComplete(p: Pair, s: string, r: string)
    requires p.rule == DistName && Read(p, s, r)
    ensures PDistName(s) == Done(p, r)
  {
    hide Read, LocalShape;
    NameRead(p, s, r);
    var w := p.text;
    if w != "exp" { OtherWord(w, "exp", s, 0); }
    if w != "zipf" { OtherWord(w, "zipf", s, 0); }
  }

  lemma DynamicNameComplete(p: Pair, s: string, r: string)
    requires p.rule == DynamicName && Read(p, s, r)
    ensures PDynamicName(s) == Done(p, r)
    ensures IsIdentText(p.text) && s == p.text + r
  {
    hide Read, LocalShape;
    NameRead(p, s, r);
    var w := p.text;
    if w != "random_path" { OtherWord(w, "random_path", s, 7); }
    assert s == w + r;
  }

  // ----- arguments

  /** What follows an item of a list. */
  predicate ItemEnds(k: string) {
    k != "" && (k[0] == ',' || k[0] == ')')
  }

  /** A row of characters of an identifier is not continued by anything that is not one. */
  lemma WholeIdent(t: string, r: string)
    requires IsIdentText(t) && Stops(r)
    ensures PIdent(t + r) == Done(Pair(Ident, t, []), r)
  {
    var s := t + r;
    assert s[0] == t[0] && s[1..] == t[1..] + r;
    IdentTailStops(t[1..], r);
  }

  /** Behind a keyword an identifier goes on, or it ends and an item ends. */
  lemma NoArgsBehind(w: string, t: string, r: string)
    requires IsIdentText(t) && w != "" && w <= t && Skip(r) != "" && Skip(r)[0] != '('
    ensures PArgs(Skip((t + r)[|w|..])).Fail?
  {
    hide Grammar.Skip, Grammar.ArgList;
    var rest := t[|w|..];
    assert (t + r)[|w|..] == rest + r;
    if rest == "" {
      assert rest + r == r;
    } else {
      assert IsIdentChar(rest[0]) && (rest + r)[0] == rest[0];
      SolidSkip(rest + r);
    }
  }

  lemma IdentNoDynamic(t: string, r: string)
    requires IsIdentText(t) && Stops(r) && Skip(r) != "" && Skip(r)[0] != '('
    ensures PDynamic(t + r).Fail?
  {
    hide Grammar.Skip, Grammar.PArgs;
    var s := t + r;
    if "random_path" <= s {
      KeywordInIdent("random_path", t, r);
      NoArgsBehind("random_path", t, r);
    } else if "random_string" <= s {
      KeywordInIdent("random_string", t, r);
      NoArgsBehind("random_string", t, r);
    }
  }

  lemma IdentText(p: Pair, s: string, r: string)
    requires p.rule == Ident && Read(p, s, r)
    ensures IsIdentText(p.text) && Stops(r) && s == p.text + r && p.inner == []
  {
    hide Grammar.Skip, Derivation.Chain;
  }

  /** The pair around a single pair. */
  lemma OnlyPair(p: Pair, s: string, r: string)
    requires (p.rule == Arg || p.rule == Expr) && Read(p, s, r)
    ensures |p.inner| == 1 && p.inner == [p.inner[0]] && Read(p.inner[0], s, r)
    ensures p.rule == Arg ==> p.inner[0].rule in {Dynamic, Ident, Constant}
    ensures p.rule == Expr ==> p.inner[0].rule in {Function, Instruction}
  {
    hide Grammar.Skip, Derivation.Chain, Derivation.Derives;
    ReadText(p, s, r);
    var comma := FormOf(p, s, r);
    EachShort();
    LastPair(p, 0, s, r);
  }

  lemma DynamicSplit(p: Pair, s: string, r: string) returns (m: string)
    requires p.rule == Dynamic && Read(p, s, r)
    ensures |p.inner| == 2 && p.inner[0].rule == DynamicName && p.inner[1].rule == Args
    ensures Read(p.inner[0], s, m) && Read(p.inner[1], Skip(m), r)
  {
    hide Grammar.Skip, Derivation.Chain, Derivation.Derives;
    ReadText(p, s, r);
    var comma := FormOf(p, s, r);
    EachShort();
    m := TakePair(p, 0, [N(1)], s, r);
    LastPair(p, 1, Skip(m), r);
  }

  lemma {:induction false} DynamicComplete(p: Pair, s: string, r: string)
    requires p.rule == Dynamic && Read(p, s, r)
    ensures PDynamic(s) == Done(p, r)
    decreases p, 0
  {
    hide Grammar.Skip, Grammar.PDynamicName, Grammar.PArgs, Read, LocalShape;
    ReadText(p, s, r);
    var m := DynamicSplit(p, s, r);
    DynamicNameComplete(p.inner[0], s, m);
    ArgsComplete(p.inner[1], Skip(m), r);
    assert p.inner == [p.inner[0], p.inner[1]];
  }

  /** A constant starts neither a helper nor an identifier. */
  lemma ConstantFirst(s: string)
    requires s != "" && (s[0] == '"' || IsDigit(s[0]))
    ensures PDynamic(s).Fail? && PIdent(s).Fail?
  {
    assert !("random_path" <= s) && !("random_string" <= s);
  }

  lemma {:induction false} ArgComplete(p: Pair, s: string, r: string)
    requires p.rule == Arg && Read(p, s, r) && ItemEnds(Skip(r))
    ensures PArg(s) == Done(p, r)
    decreases p, 0
  {
    hide Grammar.Skip, Grammar.PDynamic, Grammar.PIdent, Grammar.PConstant, Read, LocalShape;
    ReadText(p, s, r);
    OnlyPair(p, s, r);
    var q := p.inner[0];
    match q.rule
    case Dynamic => DynamicComplete(q, s, r);
    case Ident =>
      IdentText(q, s, r);
      IdentNoDynamic(q.text, r);
      IdentComplete(q, s, r);
    case _ =>
      ConstantComplete(q, s, r);
      ConstantFirst(s);
  }

  /** The symbols of a list from its i-th item on, up to the closing parenthesis. */
  function ListRest(i: nat, n: nat, comma: bool): seq<Symbol>
    requires i <= n
  {
    EachAfterComma(i, n) + ((if comma then [T(",")] else []) + [T(")")])
  }

  /** What follows an item starts with a comma or the parenthesis. */
  lemma RestStarts(p: Pair, i: nat, comma: bool, s: string, r: string)
    requires i <= |p.inner| && Chain(p, ListRest(i, |p.inner|, comma), s, r)
    ensures ItemEnds(s) && (s[0] == ')' ==> i == |p.inner| && !comma)
  {
    hide Grammar.Skip, Derivation.Chain;
    var f := ListRest(i, |p.inner|, comma);
    if i == |p.inner| && !comma {
      assert f == [T(")")];
      LastTok(p, ")", s, r);
    } else {
      assert f == [T(",")] + f[1..] && f[1..] != [];
      TakeTok(p, ",", f[1..], s, r);
    }
  }

  /** At the end of a list, with or without a comma, no further item is read. */
  lemma ListStops(p: Pair, comma: bool, s: string, r: string)
    requires Chain(p, ListRest(|p.inner|, |p.inner|, comma), s, r)
    ensures if comma then "," <= s && ")" <= Skip(s[1..]) && r == Skip(s[1..])[1..] else ")" <= s && r == s[1..]
  {
    hide Grammar.Skip, Derivation.Chain;
    var f := ListRest(|p.inner|, |p.inner|, comma);
    if comma {
      assert f == [T(",")] + [T(")")];
      TakeTok(p, ",", [T(")")], s, r);
      LastTok(p, ")", Skip(s[1..]), r);
    } else {
      assert f == [T(")")];
      LastTok(p, ")", s, r);
    }
  }

  /** One more item of a list: what is read, and what is left. */
  lemma ListNext(p: Pair, i: nat, comma: bool, s: string, r: string) returns (m: string)
    requires i < |p.inner| && Chain(p, ListRest(i, |p.inner|, comma), s, r)
    ensures "," <= s && Read(p.inner[i], Skip(s[1..]), m)
    ensures Chain(p, ListRest(i + 1, |p.inner|, comma), Skip(m), r)
  {
    hide Grammar.Skip, Derivation.Chain, Derivation.Derives;
    var rest := ListRest(i + 1, |p.inner|, comma);
    assert ListRest(i, |p.inner|, comma) == [T(",")] + ([N(i)] + rest);
    TakeTok(p, ",", [N(i)] + rest, s, r);
    m := TakePair(p, i, rest, Skip(s[1..]), r);
  }

  lemma {:induction false} ArgTailComplete(p: Pair, i: nat, comma: bool, s: string, r: string) returns (m: string)
    requires p.rule == Args && LocalShape(p) && i <= |p.inner|
    requires Chain(p, ListRest(i, |p.inner|, comma), Skip(s), r)
    ensures ArgTail(s) == Parses(p.inner[i..], m) && Chain(p, ListRest(|p.inner|, |p.inner|, comma), Skip(m), r)
    decreases p, 1, |p.inner| - i
  {
    hide Grammar.Skip, Grammar.PArg, Derivation.Chain, Read, ListRest, ItemEnds;
    if i == |p.inner| {
      ListStops(p, comma, Skip(s), r);
      m := s;
      if comma {
        NoItemAt(Skip(Skip(s)[1..]));
      }
    } else {
      var y := Skip(s);
      var a := ListNext(p, i, comma, y, r);
      RestStarts(p, i + 1, comma, Skip(a), r);
      ArgComplete(p.inner[i], Skip(y[1..]), a);
      m := ArgTailComplete(p, i + 1, comma, a, r);
      assert p.inner[i..] == [p.inner[i]] + p.inner[i + 1..];
    }
  }

  /** The start of a list: nothing, or the first item. */
  lemma ListStart(p: Pair, comma: bool, s: string, r: string) returns (m: string)
    requires (p.rule == Args || p.rule == Params) && Chain(p, Form(p, comma), s, r)
    ensures "(" <= s
    ensures p.inner == [] ==> ")" <= Skip(s[1..]) && r == Skip(s[1..])[1..]
    ensures p.inner != [] ==>
              Read(p.inner[0], Skip(s[1..]), m) && Chain(p, ListRest(1, |p.inner|, comma), Skip(m), r)
  {
    hide Grammar.Skip, Derivation.Chain, Derivation.Derives;
    var n := |p.inner|;
    if n == 0 {
      assert Form(p, comma) == [T("(")] + [T(")")];
      TakeTok(p, "(", [T(")")], s, r);
      LastTok(p, ")", Skip(s[1..]), r);
      m := "";
    } else {
      var rest := ListRest(1, n, comma);
      assert Form(p, comma) == [T("(")] + ([N(0)] + rest);
      TakeTok(p, "(", [N(0)] + rest, s, r);
      m := TakePair(p, 0, rest, Skip(s[1..]), r);
    }
  }

  lemma {:induction false} ArgsComplete(p: Pair, s: string, r: string)
    requires p.rule == Args && Read(p, s, r)
    ensures PArgs(s) == Done(p, r)
    decreases p, 2
  {
    hide Grammar.Skip, Grammar.PArg, Grammar.ArgTail, Derivation.Chain, Read, Derivation.ListForm, ListRest, ItemEnds;
    ReadText(p, s, r);
    var comma := FormOf(p, s, r);
    var a := ListStart(p, comma, s, r);
    var x := Skip(s[1..]);
    SolidSkip(x);
    if p.inner == [] {
      NoItemAt(x);
    } else {
      RestStarts(p, 1, comma, Skip(a), r);
      ArgComplete(p.inner[0], x, a);
      SolidSkip(Skip(a));
      var m := ArgTailComplete(p, 1, comma, Skip(a), r);
      assert p.inner == [p.inner[0]] + p.inner[1..];
      ListStops(p, comma, Skip(m), r);
      SolidSkip(Skip(m));
    }
  }

  // ----- parameters and work units

  /** The parts of an entry, whatever follows its value. */
  lemma EntrySplit(p: Pair, f: seq<Symbol>, s: string, r: string) returns (m: string, e: string)
    requires f != [] && Chain(p, [N(0), T("="), N(1)] + f, s, r)
    ensures |p.inner| >= 2 && Read(p.inner[0], s, m) && "=" <= Skip(m)
    ensures Read(p.inner[1], Skip(Skip(m)[1..]), e) && Chain(p, f, Skip(e), r)
  {
    hide Grammar.Skip, Derivation.Chain, Derivation.Derives;
    assert [N(0), T("="), N(1)] + f == [N(0)] + ([T("=")] + ([N(1)] + f));
    m := TakePair(p, 0, [T("=")] + ([N(1)] + f), s, r);
    TakeTok(p, "=", [N(1)] + f, Skip(m), r);
    e := TakePair(p, 1, f, Skip(Skip(m)[1..]), r);
  }

  lemma ParamSplit(p: Pair, s: string, r: string) returns (m: string)
    requires p.rule == Param && Read(p, s, r)
    ensures |p.inner| == 2 && p.inner[0].rule == Ident && p.inner[1].rule == Value
    ensures Read(p.inner[0], s, m) && "=" <= Skip(m) && Read(p.inner[1], Skip(Skip(m)[1..]), r)
  {
    hide Grammar.Skip, Derivation.Chain, Derivation.Derives;
    ReadText(p, s, r);
    var comma := FormOf(p, s, r);
    assert Form(p, comma) == [N(0)] + ([T("=")] + [N(1)]);
    m := TakePair(p, 0, [T("=")] + [N(1)], s, r);
    TakeTok(p, "=", [N(1)], Skip(m), r);
    LastPair(p, 1, Skip(Skip(m)[1..]), r);
  }

  lemma ParamComplete(p: Pair, s: string, r: string)
    requires p.rule == Param && Read(p, s, r)
    ensures PParam(s) == Done(p, r)
  {
    hide Grammar.Skip, Grammar.PIdent, Grammar.PValue, Grammar.ValueRest, Read, LocalShape;
    ReadText(p, s, r);
    var m := ParamSplit(p, s, r);
    IdentComplete(p.inner[0], s, m);
    ValueComplete(p.inner[1], Skip(Skip(m)[1..]), r);
    assert p.inner == [p.inner[0], p.inner[1]];
  }

  lemma {:induction false} ParamTailComplete(p: Pair, i: nat, comma: bool, s: string, r: string) returns (m: string)
    requires p.rule == Params && LocalShape(p) && i <= |p.inner|
    requires Chain(p, ListRest(i, |p.inner|, comma), Skip(s), r)
    ensures ParamTail(s) == Parses(p.inner[i..], m) && Chain(p, ListRest(|p.inner|, |p.inner|, comma), Skip(m), r)
    decreases |p.inner| - i
  {
    hide Grammar.Skip, Grammar.PParam, Derivation.Chain, Read, ListRest, ItemEnds;
    if i == |p.inner| {
      ListStops(p, comma, Skip(s), r);
      m := s;
      if comma {
        NoItemAt(Skip(Skip(s)[1..]));
      }
    } else {
      var y := Skip(s);
      var a := ListNext(p, i, comma, y, r);
      ParamComplete(p.inner[i], Skip(y[1..]), a);
      m := ParamTailComplete(p, i + 1, comma, a, r);
      assert p.inner[i..] == [p.inner[i]] + p.inner[i + 1..];
    }
  }

  lemma ParamsComplete(p: Pair, s: string, r: string)
    requires p.rule == Params && Read(p, s, r)
    ensures PParams(s) == Done(p, r)
  {
    hide Grammar.Skip, Grammar.PParam, Grammar.ParamTail, Derivation.Chain, Read, Derivation.ListForm, ListRest, ItemEnds;
    ReadText(p, s, r);
    var comma := FormOf(p, s, r);
    var a := ListStart(p, comma, s, r);
    var x := Skip(s[1..]);
    SolidSkip(x);
    if p.inner == [] {
      NoItemAt(x);
    } else {
      ParamComplete(p.inner[0], x, a);
      SolidSkip(Skip(a));
      var m := ParamTailComplete(p, 1, comma, Skip(a), r);
      assert p.inner == [p.inner[0]] + p.inner[1..];
      ListStops(p, comma, Skip(m), r);
      SolidSkip(Skip(m));
    }
  }

  lemma WorkSplit(p: Pair, s: string, r: string) returns (m: string)
    requires p.rule == Work && Read(p, s, r)
    ensures 1 <= |p.inner| <= 2 && p.inner[0].rule == Ident && Read(p.inner[0], s, m)
    ensures |p.inner| == 2 ==> p.inner[1].rule == Params && Read(p.inner[1], Skip(m), r)
    ensures |p.inner| == 1 ==> r == Skip(m)
  {
    hide Grammar.Skip, Derivation.Chain, Derivation.Derives;
    ReadText(p, s, r);
    var comma := FormOf(p, s, r);
    if |p.inner| == 2 {
      assert Form(p, comma) == [N(0)] + [N(1)];
      m := TakePair(p, 0, [N(1)], s, r);
      LastPair(p, 1, Skip(m), r);
    } else {
      assert Form(p, comma) == [N(0)] + [T("")];
      m := TakePair(p, 0, [T("")], s, r);
      LastTok(p, "", Skip(m), r);
    }
  }

  /** Without parameters a brace has to follow. */
  lemma WorkComplete(p: Pair, s: string, r: string)
    requires p.rule == Work && Read(p, s, r) && "{" <= Skip(r)
    ensures PWork(s) == Done(p, r)
    ensures s != "" && IsIdentStart(s[0])
  {
    hide Grammar.Skip, Grammar.PIdent, Grammar.PParams, Read, LocalShape;
    ReadText(p, s, r);
    var m := WorkSplit(p, s, r);
    IdentComplete(p.inner[0], s, m);
    IdentText(p.inner[0], s, m);
    if |p.inner| == 2 {
      ParamsComplete(p.inner[1], Skip(m), r);
      assert p.inner == [p.inner[0], p.inner[1]];
    } else {
      SolidSkip(r);
      BraceIsNoList(r);
      assert p.inner == [p.inner[0]];
    }
  }

  lemma BraceIsNoList(s: string)
    requires s != "" && s[0] != '('
    ensures PParams(s).Fail? && PArgs(s).Fail?
  {
    hide Grammar.Skip, Grammar.ParamList, Grammar.ArgList;
  }

  // ----- distributions

  lemma OptComplete(p: Pair, s: string, r: string)
    requires p.rule == Opt && Read(p, s, r)
    ensures POpt(s) == Done(p, r)
  {
    hide Grammar.Skip, Grammar.PIdent, Grammar.PValue, Grammar.ValueRest, Read, LocalShape, Derivation.Chain;
    ReadText(p, s, r);
    var comma := FormOf(p, s, r);
    assert Form(p, comma) == [N(0), T("="), N(1)] + [T(";")];
    OptLocal(p);
    var m, e := EntrySplit(p, [T(";")], s, r);
    LastTok(p, ";", Skip(e), r);
    IdentComplete(p.inner[0], s, m);
    ValueComplete(p.inner[1], Skip(Skip(m)[1..]), e);
    assert p.inner == [p.inner[0], p.inner[1]];
  }

  lemma OptLocal(p: Pair)
    requires LocalShape(p) && p.rule == Opt
    ensures |p.inner| == 2 && p.inner[0].rule == Ident && p.inner[1].rule == Value
  {
  }

  /** A list of pairs and what is written behind it. */
  lemma ListSplit(p: Pair, i: nat, j: nat, g: seq<Symbol>, s: string, r: string) returns (m: string)
    requires i <= j && g != [] && Chain(p, Each(i, j) + g, Skip(s), r)
    ensures ListRead(p, i, j, s, m) && Chain(p, g, Skip(m), r)
  {
    hide Grammar.Skip, Derivation.Chain;
    if i == j {
      assert Each(i, j) + g == g;
      m := s;
    } else {
      m := ChainSplit(p, Each(i, j), g, Skip(s), r);
    }
  }

  /** The first pair of a list, and the rest of it. */
  lemma TakeFirst(p: Pair, i: nat, j: nat, s: string, r: string) returns (m: string)
    requires i < j && ListRead(p, i, j, s, r)
    ensures i < |p.inner| && Read(p.inner[i], Skip(s), m) && ListRead(p, i + 1, j, m, r)
  {
    hide Grammar.Skip, Derivation.Chain, Derivation.Derives;
    if i + 1 == j {
      assert Each(i, j) == [N(i)];
      LastPair(p, i, Skip(s), r);
      m := r;
    } else {
      m := TakePair(p, i, Each(i + 1, j), Skip(s), r);
    }
  }

  lemma {:induction false} OptsComplete(p: Pair, i: nat, s: string, r: string)
    requires p.rule == Dist && LocalShape(p) && 1 <= i <= |p.inner|
    requires ListRead(p, i, |p.inner|, s, r) && "}" <= Skip(r)
    ensures Opts(s) == Parses(p.inner[i..], r)
    decreases |p.inner| - i
  {
    hide Grammar.Skip, Grammar.POpt, Read, ListRead, LocalShape;
    if i == |p.inner| {
      NoneRead(p, i, s, r);
      NoOptAt(Skip(s));
    } else {
      var m := TakeFirst(p, i, |p.inner|, s, r);
      DistLocal(p, i);
      OptComplete(p.inner[i], Skip(s), m);
      OptsComplete(p, i + 1, m, r);
      assert p.inner[i..] == [p.inner[i]] + p.inner[i + 1..];
    }
  }

  lemma NoneRead(p: Pair, i: nat, s: string, r: string)
    requires ListRead(p, i, i, s, r)
    ensures s == r
  {
  }

  lemma DistLocal(p: Pair, i: nat)
    requires LocalShape(p) && p.rule == Dist && 1 <= i < |p.inner|
    ensures p.inner[i].rule == Opt
  {
    assert p.inner[i] == p.inner[1..][i - 1];
  }

  lemma DistSplit(p: Pair, s: string, r: string) returns (a: string, m: string)
    requires p.rule == Dist && Read(p, s, r)
    ensures ":" <= s && p.inner != [] && p.inner[0].rule == DistName && Read(p.inner[0], Skip(s[1..]), a)
    ensures "{" <= Skip(a) && ListRead(p, 1, |p.inner|, Skip(Skip(a)[1..]), m)
    ensures "}" <= Skip(m) && r == Skip(m)[1..]
  {
    hide Grammar.Skip, Derivation.Chain, Derivation.Derives, Derivation.Each, ListRead;
    ReadText(p, s, r);
    var comma := FormOf(p, s, r);
    var n := |p.inner|;
    var list := Each(1, n) + [T("}")];
    assert Form(p, comma) == [T(":")] + ([N(0)] + ([T("{")] + list));
    TakeTok(p, ":", [N(0)] + ([T("{")] + list), s, r);
    a := TakePair(p, 0, [T("{")] + list, Skip(s[1..]), r);
    TakeTok(p, "{", list, Skip(a), r);
    var x := Skip(Skip(a)[1..]);
    SolidSkip(x);
    m := ListSplit(p, 1, n, [T("}")], x, r);
    LastTok(p, "}", Skip(m), r);
  }

  lemma DistComplete(p: Pair, s: string, r: string)
    requires p.rule == Dist && Read(p, s, r)
    ensures PDist(s) == Done(p, r)
  {
    hide Grammar.Skip, Grammar.PDistName, Grammar.Opts, Read, LocalShape, ListRead;
    ReadText(p, s, r);
    var a, m := DistSplit(p, s, r);
    DistNameComplete(p.inner[0], Skip(s[1..]), a);
    OptsComplete(p, 1, Skip(Skip(a)[1..]), m);
    assert p.inner == [p.inner[0]] + p.inner[1..];
  }

  // ----- instructions

  lemma CallSplit(p: Pair, s: string, r: string) returns (a: string, m: string)
    requires (p.rule == Instruction || p.rule == MachineInstruction) && Read(p, s, r)
    ensures 1 <= |p.inner| <= 2 && Read(p.inner[0], s, a)
    ensures p.inner[0].rule == if p.rule == Instruction then FuncName else MInstrName
    ensures |p.inner| == 2 ==> p.inner[1].rule == Args && Read(p.inner[1], Skip(a), m)
    ensures |p.inner| == 1 ==> m == Skip(a)
    ensures ";" <= Skip(m) && r == Skip(m)[1..]
  {
    hide Grammar.Skip, Derivation.Chain, Derivation.Derives;
    ReadText(p, s, r);
    var comma := FormOf(p, s, r);
    EachShort();
    if |p.inner| == 2 {
      assert Form(p, comma) == [N(0)] + ([N(1)] + [T(";")]);
      a := TakePair(p, 0, [N(1)] + [T(";")], s, r);
      m := TakePair(p, 1, [T(";")], Skip(a), r);
    } else {
      a := TakePair(p, 0, [T(";")], s, r);
      m := Skip(a);
      SolidSkip(m);
    }
    LastTok(p, ";", Skip(m), r);
  }

  lemma CallComplete(p: Pair, s: string, r: string, a: string, m: string)
    requires (p.rule == Instruction || p.rule == MachineInstruction) && Read(p, s, r)
    requires 1 <= |p.inner| <= 2 && |a| < |s|
    requires |p.inner| == 2 ==> p.inner[1].rule == Args && Read(p.inner[1], Skip(a), m)
    requires |p.inner| == 1 ==> m == Skip(a)
    requires ";" <= Skip(m) && r == Skip(m)[1..]
    ensures PCall(p.rule, s, Done(p.inner[0], a)) == Done(p, r)
  {
    hide Grammar.Skip, Grammar.PArgs, Read, LocalShape;
    ReadText(p, s, r);
    if |p.inner| == 2 {
      ArgsComplete(p.inner[1], Skip(a), m);
      assert p.inner == [p.inner[0]] + [p.inner[1]];
    } else {
      SolidSkip(m);
      BraceIsNoList(m);
      assert p.inner == [p.inner[0]] + [];
    }
  }

  lemma InstructionComplete(p: Pair, s: string, r: string)
    requires p.rule == Instruction && Read(p, s, r)
    ensures PInstruction(s) == Done(p, r)
    ensures s != "" && IsIdentStart(s[0])
  {
    hide Grammar.Skip, Grammar.PFuncName, Grammar.PCall, Read;
    var a, m := CallSplit(p, s, r);
    FuncNameComplete(p.inner[0], s, a);
    CallComplete(p, s, r, a, m);
  }

  lemma MachineInstructionComplete(p: Pair, s: string, r: string)
    requires p.rule == MachineInstruction && Read(p, s, r)
    ensures PMachineInstruction(s) == Done(p, r)
  {
    hide Grammar.Skip, Grammar.PMInstrName, Grammar.PCall, Read;
    var a, m := CallSplit(p, s, r);
    MInstrNameComplete(p.inner[0], s, a);
    CallComplete(p, s, r, a, m);
  }

  /** A derived argument is no parameter. */
  lemma ArgNoParam(p: Pair, s: string, r: string)
    requires p.rule == Arg && Read(p, s, r) && ItemEnds(Skip(r))
    ensures PParam(s).Fail? && s != "" && s[0] != ')'
  {
    hide Grammar.Skip, Grammar.PIdent, Read, LocalShape;
    OnlyPair(p, s, r);
    var q := p.inner[0];
    match q.rule
    case Dynamic =>
      var m := DynamicSplit(q, s, r);
      DynamicNameComplete(q.inner[0], s, m);
      ParenFirst(q.inner[1], Skip(m), r);
      StopsBeforeParen(m);
      WholeIdent(q.inner[0].text, m);
    case Ident =>
      IdentText(q, s, r);
      WholeIdent(q.text, r);
    case _ =>
      ConstantComplete(q, s, r);
      ConstantFirst(s);
  }

  lemma ParenFirst(p: Pair, s: string, r: string)
    requires p.rule == Args && Read(p, s, r)
    ensures "(" <= s
  {
    hide Grammar.Skip, Derivation.Chain, Derivation.Derives, LocalShape;
    var comma := FormOf(p, s, r);
    var m := ListStart(p, comma, s, r);
  }

  /** What leads over a gap to a parenthesis, a brace or a semicolon does not continue an identifier. */
  lemma StopsBeforeParen(m: string)
    requires Skip(m) != "" && !IsIdentChar(Skip(m)[0])
    ensures Stops(m)
  {
    hide Grammar.Skip;
    if m != "" && IsIdentChar(m[0]) {
      SolidSkip(m);
    }
  }

  /** A list of arguments is a list of parameters only if it is empty. */
  lemma ArgsAsParams(p: Pair, s: string, r: string)
    requires p.rule == Args && Read(p, s, r)
    ensures "(" <= s && (PParams(s).Fail? || PParams(s).rest == r)
  {
    hide Grammar.Skip, Grammar.PParam, Grammar.ParamTail, Derivation.Chain, Derivation.Derives, Derivation.ListForm;
    hide ListRest, ItemEnds;
    ReadText(p, s, r);
    var comma := FormOf(p, s, r);
    var a := ListStart(p, comma, s, r);
    var x := Skip(s[1..]);
    SolidSkip(x);
    if p.inner == [] {
      NoItemAt(x);
    } else {
      RestStarts(p, 1, comma, Skip(a), r);
      ArgNoParam(p.inner[0], x, a);
    }
  }

  lemma NameText(p: Pair, s: string, a: string)
    requires p.rule == FuncName && Read(p, s, a)
    ensures IsIdentText(p.text) && s == p.text + a
  {
    hide Read, LocalShape;
    NameRead(p, s, a);
    assert s == p.text + a;
  }

  /** A derived instruction is no function. */
  lemma InstructionNoFunction(p: Pair, s: string, r: string)
    requires p.rule == Instruction && Read(p, s, r)
    ensures PFunction(s).Fail?
  {
    hide Grammar.Skip, Grammar.PIdent, Grammar.PParams, Read, LocalShape;
    var a, m := CallSplit(p, s, r);
    NameText(p.inner[0], s, a);
    SolidSkip(Skip(a));
    if |p.inner| == 2 {
      ArgsAsParams(p.inner[1], Skip(a), m);
    } else {
      SolidSkip(m);
      BraceIsNoList(Skip(a));
    }
    StopsBeforeParen(a);
    WholeIdent(p.inner[0].text, a);
  }

  // ----- functions

  lemma FunctionSplit(p: Pair, s: string, r: string) returns (a: string, b: string)
    requires p.rule == Function && Read(p, s, r)
    ensures 2 <= |p.inner| <= 3 && p.inner[0].rule == Work && p.inner[1].rule == Instructions
    ensures Read(p.inner[0], s, a) && "{" <= Skip(a) && Read(p.inner[1], Skip(Skip(a)[1..]), b) && "}" <= Skip(b)
    ensures |p.inner| == 3 ==> p.inner[2].rule == Dist && Read(p.inner[2], Skip(Skip(b)[1..]), r)
    ensures |p.inner| == 2 ==> r == Skip(Skip(b)[1..])
  {
    hide Grammar.Skip, Derivation.Chain, Derivation.Derives;
    ReadText(p, s, r);
    var comma := FormOf(p, s, r);
    var end := if |p.inner| == 3 then [N(2)] else [T("")];
    assert Form(p, comma) == [N(0)] + ([T("{")] + ([N(1)] + ([T("}")] + end)));
    a := TakePair(p, 0, [T("{")] + ([N(1)] + ([T("}")] + end)), s, r);
    TakeTok(p, "{", [N(1)] + ([T("}")] + end), Skip(a), r);
    b := TakePair(p, 1, [T("}")] + end, Skip(Skip(a)[1..]), r);
    TakeTok(p, "}", end, Skip(b), r);
    if |p.inner| == 3 {
      LastPair(p, 2, Skip(Skip(b)[1..]), r);
    } else {
      LastTok(p, "", Skip(Skip(b)[1..]), r);
    }
  }

  lemma BodySplit(p: Pair, s: string, r: string)
    requires p.rule == Instructions && Read(p, s, r) && Solid(s)
    ensures ListRead(p, 0, |p.inner|, s, r) && forall k :: 0 <= k < |p.inner| ==> p.inner[k].rule == Expr
  {
    hide Grammar.Skip, Derivation.Derives;
    ReadText(p, s, r);
    var comma := FormOf(p, s, r);
    SolidSkip(s);
  }

  /** An expression starts with a name. */
  lemma ExprStarts(p: Pair, s: string, r: string)
    requires p.rule == Expr && Read(p, s, r)
    ensures s != "" && IsIdentStart(s[0])
  {
    hide Grammar.Skip, Read, LocalShape;
    OnlyPair(p, s, r);
    var q := p.inner[0];
    if q.rule == Function {
      var a, b := FunctionSplit(q, s, r);
      var m := WorkSplit(q.inner[0], s, a);
      IdentText(q.inner[0].inner[0], s, m);
    } else {
      InstructionComplete(q, s, r);
    }
  }

  lemma {:induction false} FunctionComplete(p: Pair, s: string, r: string)
    requires p.rule == Function && Read(p, s, r) && NoColon(Skip(r))
    ensures PFunction(s) == Done(p, r)
    decreases p, 2, 0
  {
    hide Grammar.Skip, Grammar.PWork, Grammar.Exprs, Grammar.PDist, Read, ListRead, LocalShape, NoColon;
    ReadText(p, s, r);
    var a, b := FunctionSplit(p, s, r);
    var x := Skip(Skip(a)[1..]);
    WorkComplete(p.inner[0], s, a);
    BodySplit(p.inner[1], x, b);
    ExprsComplete(p.inner[1], 0, |p.inner[1].inner|, x, b);
    BodyPair(p.inner[1], x, b);
    if |p.inner| == 3 {
      DistComplete(p.inner[2], Skip(Skip(b)[1..]), r);
      assert p.inner == [p.inner[0], p.inner[1], p.inner[2]];
    } else {
      SolidSkip(r);
      NoDistAt(r);
      assert p.inner == [p.inner[0], p.inner[1]];
    }
  }

  lemma BodyPair(p: Pair, s: string, r: string)
    requires p.rule == Instructions && Read(p, s, r)
    ensures |r| <= |s| && p == Spanning(Instructions, s, r, p.inner) && p.inner == p.inner[0..|p.inner|]
  {
    hide Read;
    ReadText(p, s, r);
  }

  lemma {:induction false} ExprComplete(p: Pair, s: string, r: string)
    requires p.rule == Expr && Read(p, s, r) && NoColon(Skip(r))
    ensures PExpr(s) == Done(p, r)
    decreases p, 0, 0
  {
    hide Grammar.Skip, Grammar.PFunction, Grammar.PInstruction, Read, LocalShape, NoColon;
    ReadText(p, s, r);
    OnlyPair(p, s, r);
    var q := p.inner[0];
    if q.rule == Function {
      FunctionComplete(q, s, r);
    } else {
      InstructionNoFunction(q, s, r);
      InstructionComplete(q, s, r);
    }
  }

  lemma {:induction false} ExprsComplete(p: Pair, i: nat, j: nat, s: string, r: string)
    requires i <= j <= |p.inner| && forall k :: i <= k < j ==> p.inner[k].rule == Expr
    requires ListRead(p, i, j, s, r) && BlockEnds(Skip(r))
    ensures Exprs(s) == Parses(p.inner[i..j], r)
    decreases p, 1, j - i
  {
    hide Grammar.Skip, Grammar.PExpr, Read, ListRead, NoColon, BlockEnds;
    NoExprAt(Skip(r));
    if i == j {
      NoneRead(p, i, s, r);
    } else {
      var m := TakeFirst(p, i, j, s, r);
      if i + 1 < j {
        var n := TakeFirst(p, i + 1, j, m, r);
        ExprStarts(p.inner[i + 1], Skip(m), n);
        LetterNoColon(Skip(m));
      } else {
        NoneRead(p, j, m, r);
      }
      ExprComplete(p.inner[i], Skip(s), m);
      ExprsComplete(p, i + 1, j, m, r);
      assert p.inner[i..j] == [p.inner[i]] + p.inner[i + 1..j];
    }
  }

  lemma LetterNoColon(k: string)
    requires k != "" && IsIdentStart(k[0])
    ensures NoColon(k)
  {
  }

  // ----- machine

  lemma {:induction false} MInstrsComplete(p: Pair, i: nat, s: string, r: string)
    requires p.rule == Machine && LocalShape(p) && i <= |p.inner|
    requires ListRead(p, i, |p.inner|, s, r) && BlockEnds(Skip(r))
    ensures MInstrs(s) == Parses(p.inner[i..], r)
    decreases |p.inner| - i
  {
    hide Grammar.Skip, Grammar.PMachineInstruction, Read, ListRead, BlockEnds;
    if i == |p.inner| {
      NoneRead(p, i, s, r);
      NoExprAt(Skip(r));
    } else {
      var m := TakeFirst(p, i, |p.inner|, s, r);
      MachineInstructionComplete(p.inner[i], Skip(s), m);
      MInstrsComplete(p, i + 1, m, r);
      assert p.inner[i..] == [p.inner[i]] + p.inner[i + 1..];
    }
  }

  lemma MachineComplete(p: Pair, s: string, r: string)
    requires p.rule == Machine && Read(p, s, r)
    ensures PMachine(s) == Done(p, r)
  {
    hide Grammar.Skip, Grammar.MInstrs, Read, ListRead, Derivation.Chain, Derivation.Each;
    ReadText(p, s, r);
    var comma := FormOf(p, s, r);
    var list := Each(0, |p.inner|) + [T("}")];
    assert Form(p, comma) == [T("machine")] + ([T("{")] + list);
    TakeTok(p, "machine", [T("{")] + list, s, r);
    var a := s[|"machine"|..];
    TakeTok(p, "{", list, Skip(a), r);
    var x := Skip(Skip(a)[1..]);
    SolidSkip(x);
    var m := ListSplit(p, 0, |p.inner|, [T("}")], x, r);
    LastTok(p, "}", Skip(m), r);
    MInstrsComplete(p, 0, x, m);
    assert p.inner[0..] == p.inner;
  }

  // ----- what is no machine

  /** A list of parameters is a list of arguments only if it is empty. */
  lemma ParamsAsArgs(p: Pair, s: string, r: string)
    requires p.rule == Params && Read(p, s, r)
    ensures "(" <= s && (PArgs(s).Fail? || PArgs(s).rest == r)
  {
    hide Grammar.Skip, Grammar.PArg, Derivation.Chain, Derivation.Derives, Derivation.ListForm, ListRest, ItemEnds;
    ReadText(p, s, r);
    var comma := FormOf(p, s, r);
    var a := ListStart(p, comma, s, r);
    var x := Skip(s[1..]);
    SolidSkip(x);
    if p.inner == [] {
      NoItemAt(x);
    } else {
      KeyAsArg(p.inner[0], x, a);
      var m := PArg(x).rest;
      SolidSkip(Skip(m));
      assert ArgTail(Skip(m)) == Parses([], Skip(m));
    }
  }

  lemma KeyAsArg(p: Pair, s: string, r: string)
    requires p.rule == Param && Read(p, s, r)
    ensures PArg(s).Done? && "=" <= Skip(PArg(s).rest)
  {
    hide Grammar.Skip, Grammar.PIdent, Grammar.PDynamic, Grammar.PConstant, Read, LocalShape;
    var m := ParamSplit(p, s, r);
    IdentText(p.inner[0], s, m);
    IdentNoDynamic(p.inner[0].text, m);
    IdentComplete(p.inner[0], s, m);
  }

  lemma InstructionNoMInstruction(p: Pair, s: string, r: string)
    requires p.rule == Instruction && Read(p, s, r)
    ensures PMInstrName(s).Fail? && !("machine" <= s)
  {
    hide Grammar.Skip, Read, LocalShape;
    var a, m := CallSplit(p, s, r);
    NameRead(p.inner[0], s, a);
    var w := p.inner[0].text;
    OtherWord(w, "server", s, 0);
    OtherWord(w, "load", s, 0);
    OtherWord(w, "memory", s, 0);
    OtherWord(w, "machine", s, 0);
    var i := if w == "port" || w == "ping" then 1 else 0;
    OtherWord(w, "profile", s, i);
    OtherWord(w, "path", s, i);
  }

  /** A derived function is no machine instruction. */
  lemma FunctionNoMInstruction(p: Pair, s: string, r: string)
    requires p.rule == Function && Read(p, s, r)
    ensures PMachineInstruction(s).Fail?
  {
    hide Grammar.Skip, Grammar.PMInstrName, Grammar.PArgs, Read, LocalShape;
    var a, b := FunctionSplit(p, s, r);
    var u := p.inner[0];
    var m := WorkSplit(u, s, a);
    var t := u.inner[0].text;
    IdentText(u.inner[0], s, m);
    var name := PMInstrName(s);
    if name.Done? {
      MInstrNameText(s);
      var w := name.pair.text;
      KeywordInIdent(w, t, m);
      SolidSkip(Skip(m));
      if w == t {
        assert name.rest == m;
        if |u.inner| == 2 {
          ParamsAsArgs(u.inner[1], Skip(m), a);
        } else {
          SolidSkip(a);
          BraceIsNoList(Skip(m));
        }
      } else {
        NotACall(t[|w|..], m);
        assert name.rest == t[|w|..] + m;
      }
    }
  }

  lemma MInstrNameText(s: string)
    requires PMInstrName(s).Done?
    ensures var r := PMInstrName(s);
            r.pair.text <= s && r.rest == s[|r.pair.text|..] && r.pair.text != ""
            && forall i :: 0 <= i < |r.pair.text| ==> IsIdentChar(r.pair.text[i])
  {
  }

  /** A name that goes on is followed neither by arguments nor by a semicolon. */
  lemma NotACall(rest: string, m: string)
    requires rest != "" && IsIdentChar(rest[0])
    ensures PArgs(Skip(rest + m)).Fail? && Lit(";", Skip(Skip(rest + m))).None? && Lit(";", Skip(rest + m)).None?
    ensures Lit("{", Skip(rest + m)).None?
  {
    hide Grammar.Skip;
    var s := rest + m;
    assert s[0] == rest[0];
    SolidSkip(s);
    BraceIsNoList(s);
  }

  lemma ExprNoMInstruction(p: Pair, s: string, r: string)
    requires p.rule == Expr && Read(p, s, r)
    ensures PMachineInstruction(s).Fail?
  {
    hide Grammar.Skip, Grammar.PMInstrName, Grammar.PArgs, Read, LocalShape;
    OnlyPair(p, s, r);
    if p.inner[0].rule == Function {
      FunctionNoMInstruction(p.inner[0], s, r);
    } else {
      InstructionNoMInstruction(p.inner[0], s, r);
    }
  }

  /** A derived work unit is no machine, unless it is called so and has neither parameters nor body. */
  lemma FunctionNoMachine(p: Pair, s: string, r: string)
    requires p.rule == Function && Read(p, s, r)
    requires !(|p.inner[0].inner| == 1 && p.inner[0].inner[0].text == "machine" && p.inner[1].inner == [])
    ensures PMachine(s).Fail?
  {
    hide Grammar.Skip, Grammar.PMachineInstruction, Read, LocalShape, ListRead;
    var a, b := FunctionSplit(p, s, r);
    var u := p.inner[0];
    var m := WorkSplit(u, s, a);
    var t := u.inner[0].text;
    IdentText(u.inner[0], s, m);
    if "machine" <= s {
      KeywordInIdent("machine", t, m);
      if t != "machine" {
        var rest := t[|"machine"|..];
        assert rest != "" by { assert t == "machine" + rest; }
        NotACall(rest, m);
        assert s[|"machine"|..] == rest + m;
      } else {
        assert s[|"machine"|..] == m;
        SolidSkip(Skip(m));
        if |u.inner| == 2 {
          ParenOpens(u.inner[1], Skip(m), a);
        } else {
          SolidSkip(a);
          BodyNoMachine(p.inner[1], Skip(Skip(a)[1..]), b);
        }
      }
    }
  }

  lemma ParenOpens(p: Pair, s: string, r: string)
    requires p.rule == Params && Read(p, s, r)
    ensures "(" <= s
  {
    hide Grammar.Skip, Derivation.Chain, Derivation.Derives, LocalShape;
    var comma := FormOf(p, s, r);
    var m := ListStart(p, comma, s, r);
  }

  /** A body with expressions in it holds no machine instructions. */
  lemma BodyNoMachine(p: Pair, s: string, r: string)
    requires p.rule == Instructions && Read(p, s, r) && Solid(s) && p.inner != []
    ensures MInstrs(s) == Parses([], s) && !("}" <= Skip(s))
  {
    hide Grammar.Skip, Grammar.PMachineInstruction, Read, LocalShape, ListRead;
    BodySplit(p, s, r);
    SolidSkip(s);
    var m := TakeFirst(p, 0, |p.inner|, s, r);
    ExprNoMInstruction(p.inner[0], s, m);
    ExprStarts(p.inner[0], s, m);
  }

  lemma ExprNoMachine(p: Pair, s: string, r: string)
    requires p.rule == Expr && Read(p, s, r) && !EmptyMachine(p)
    ensures PMachine(s).Fail?
  {
    hide Grammar.Skip, Grammar.MInstrs, Read, LocalShape;
    OnlyPair(p, s, r);
    var q := p.inner[0];
    if q.rule == Function {
      var a, b := FunctionSplit(q, s, r);
      FunctionNoMachine(q, s, r);
    } else {
      InstructionNoMInstruction(q, s, r);
    }
  }

  // ----- files

  /** Skipping first does not change how a list is read. */
  lemma ListSkipped(p: Pair, i: nat, j: nat, s: string, r: string) returns (m: string)
    requires ListRead(p, i, j, s, r)
    ensures ListRead(p, i, j, Skip(s), m) && Skip(m) == Skip(r)
  {
    hide Grammar.Skip, Derivation.Chain;
    SolidSkip(Skip(s));
    m := if i == j then Skip(s) else r;
  }

  /** The items of a file, and then its end. */
  lemma FileItems(tree: Pair, s: string) returns (m: string)
    requires DerivesFile(tree, s)
    ensures tree.inner != [] && tree.inner[|tree.inner| - 1] == Pair(EOI, "", [])
    ensures ListRead(tree, 0, |tree.inner| - 1, s, m) && Skip(m) == ""
  {
    hide Grammar.Skip, Derivation.Chain, Derivation.Each, ListRead, EmptyMachine;
    var n := |tree.inner| - 1;
    EachLast(0, n);
    assert Form(tree, false) == Each(0, n + 1);
    m := ListSplit(tree, 0, n, [N(n)], s, "");
    LastPair(tree, n, Skip(m), "");
    EndOfInput(tree.inner[n], Skip(m), "");
  }

  lemma EndOfInput(p: Pair, s: string, r: string)
    requires p.rule == EOI && Read(p, s, r)
    ensures p == Pair(EOI, "", []) && s == ""
  {
  }

  lemma FileLocal(tree: Pair)
    requires LocalShape(tree) && tree.rule == File
    ensures tree.inner != [] && forall i :: 0 <= i < |tree.inner| - 1 ==> tree.inner[i].rule == Expr || (i == 0 && tree.inner[i].rule == Machine)
  {
  }

  /** Everything the grammar derives is accepted, with the tree that derives it. */
  lemma FileComplete(tree: Pair, s: string)
    requires DerivesFile(tree, s)
    ensures PFile(s) == Some(tree)
  {
    hide Grammar.Skip, Grammar.PMachine, Grammar.Exprs, Read, ListRead, Derivation.Chain, LocalShape, EmptyMachine;
    FileLocal(tree);
    var n := |tree.inner| - 1;
    var m := FileItems(tree, s);
    var x := Skip(s);
    SolidSkip(x);
    assert tree.inner == tree.inner[..n] + [tree.inner[n]];
    if n > 0 && tree.inner[0].rule == Machine {
      var a := TakeFirst(tree, 0, n, s, m);
      MachineComplete(tree.inner[0], x, a);
      var e := ListSkipped(tree, 1, n, a, m);
      ExprsComplete(tree, 1, n, Skip(a), e);
      assert tree.inner[..n] == [tree.inner[0]] + tree.inner[1..n];
    } else {
      if n > 0 {
        var a := TakeFirst(tree, 0, n, s, m);
        ExprNoMachine(tree.inner[0], x, a);
      } else {
        NoneRead(tree, 0, s, m);
        NoMachineAtEnd();
      }
      var e := ListSkipped(tree, 0, n, s, m);
      ExprsComplete(tree, 0, n, x, e);
      assert tree.inner[..n] == [] + tree.inner[0..n];
    }
  }

  /**
   The parser accepts exactly the sources that the grammar derives, and gives exactly
   the tree that derives them.
   */
  lemma ParserIsGrammar(s: string, tree: Pair)
    ensures PFile(s) == Some(tree) <==> DerivesFile(tree, s)
  {
    hide Grammar.PFile, DerivesFile;
    if PFile(s) == Some(tree) {
      FileSound(s);
    }
    if DerivesFile(tree, s) {
      FileComplete(tree, s);
    }
  }

  /** A source is refused exactly if no tree derives it. */
  lemma RefusedExactly(s: string)
    ensures PFile(s).None? <==> forall tree :: !DerivesFile(tree, s)
  {
    hide Grammar.PFile, DerivesFile;
    forall tree
      ensures PFile(s) == Some(tree) <==> DerivesFile(tree, s)
    {
      ParserIsGrammar(s, tree);
    }
    if PFile(s).Some? {
      assert DerivesFile(PFile(s).value, s);
    }
  }
}
