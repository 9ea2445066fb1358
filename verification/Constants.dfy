/**
 Where the quoted constants of a tree stand in the source: every one of them is read
 at a place outside comments and outside the quotes of other constants.
 */
module Constants {
  import opened Common
  import opened Grammar
  import opened Shape
  import opened Tokens
  import opened Quotes
  import opened Respelling

  /** r is what remains of s from a quote on that stands outside comments (and, unless `open`, outside quotes). */
  predicate Place(s: string, r: string, open: bool) {
    r != "" && r[0] == '"' && Leaves(s, r) && Outside(s[..|s| - |r|], open)
  }

  /** Every place in t is one in s. */
  ghost predicate Back(s: string, open: bool, t: string, open': bool) {
    forall r :: Place(t, r, open') ==> Place(s, r, open)
  }

  lemma BackTwice(s: string, o: bool, t: string, o': bool, u: string, o'': bool)
    requires Back(s, o, t, o') && Back(t, o', u, o'')
    ensures Back(s, o, u, o'')
  {
    hide Place;
  }

  /** One character that is neither a quote nor the start of a comment. */
  lemma StepBack(s: string, open: bool)
    requires s != "" && s[0] != '"' && !("//" <= s)
    ensures Back(s, open, s[1..], open)
  {
    forall r | Place(s[1..], r, open)
      ensures Place(s, r, open)
    {
      LeavesStep(s, 1, r);
      var u := s[..|s| - |r|];
      assert u[0] == s[0] && (|u| > 1 ==> u[1] == s[1]);
      assert u[1..] == s[1..][..|s| - 1 - |r|];
    }
  }

  lemma QuoteBack(s: string, open: bool)
    requires s != "" && s[0] == '"'
    ensures Back(s, open, s[1..], !open)
  {
    forall r | Place(s[1..], r, !open)
      ensures Place(s, r, open)
    {
      LeavesStep(s, 1, r);
      var u := s[..|s| - |r|];
      assert u[0] == s[0];
      assert u[1..] == s[1..][..|s| - 1 - |r|];
    }
  }

  lemma {:induction false} SkipLineCut(v: string, r: string)
    requires |SkipLine(v + r)| >= |r| && r != "" && !IsNewline(r[0])
    ensures SkipLine(v) != "" && SkipLine(v + r) == SkipLine(v) + r
  {
    assert "" + r == r;
    if v != "" {
      assert (v + r)[0] == v[0];
      if !IsNewline(v[0]) {
        assert (v + r)[1..] == v[1..] + r;
        SkipLineCut(v[1..], r);
      }
    }
  }

  lemma CommentBack(s: string, open: bool)
    requires "//" <= s
    ensures Back(s, open, SkipLine(s[2..]), open)
  {
    hide Grammar.SkipLine;
    var t := SkipLine(s[2..]);
    SkipLineSuffix(s[2..]);
    forall r | Place(t, r, open)
      ensures Place(s, r, open)
    {
      LeavesStep(s[2..], |s[2..]| - |t|, r);
      LeavesStep(s, 2, r);
      var u := s[..|s| - |r|];
      assert s[2..] == u[2..] + r;
      SkipLineCut(u[2..], r);
      assert t[..|t| - |r|] == SkipLine(u[2..]);
    }
  }

  lemma {:induction false} SkipBack(s: string, open: bool)
    ensures Back(s, open, Skip(s), open)
    decreases |s|
  {
    hide Grammar.Skip, Back;
    if s != "" && IsSpace(s[0]) {
      SkipSpaceStep(s);
      StepBack(s, open);
      SkipBack(s[1..], open);
      BackTwice(s, open, s[1..], open, Skip(s), open);
    } else if "//" <= s {
      SkipComment(s);
      CommentBack(s, open);
      SkipBack(SkipLine(s[2..]), open);
      BackTwice(s, open, SkipLine(s[2..]), open, Skip(s), open);
    } else {
      SolidSkip(s);
      BackSelf(s, open);
    }
  }

  lemma BackSelf(s: string, open: bool)
    ensures Back(s, open, s, open)
  {
  }

  lemma {:induction false} LitBack(tok: string, s: string)
    requires PlainToken(tok) && tok <= s
    ensures Back(s, false, s[|tok|..], false)
  {
    hide Back;
    StepBack(s, false);
    if |tok| > 1 {
      LitBack(tok[1..], s[1..]);
      assert s[1..][|tok| - 1..] == s[|tok|..];
      BackTwice(s, false, s[1..], false, s[|tok|..], false);
    }
  }

  lemma {:induction false} IdentTailBack(s: string)
    ensures Back(s, false, IdentTail(s), false)
  {
    hide Back;
    if s != "" && IsIdentChar(s[0]) {
      StepBack(s, false);
      IdentTailBack(s[1..]);
      BackTwice(s, false, s[1..], false, IdentTail(s), false);
    } else {
      BackSelf(s, false);
    }
  }

  lemma PIdentBack(s: string)
    ensures PIdent(s).Done? ==> Back(s, false, PIdent(s).rest, false)
  {
    hide Back, Grammar.IdentTail;
    if PIdent(s).Done? {
      StepBack(s, false);
      IdentTailBack(s[1..]);
      BackTwice(s, false, s[1..], false, IdentTail(s[1..]), false);
    }
  }

  lemma {:induction false} ValueTailBack(s: string, open: bool)
    ensures Back(s, open, ValueTail(s), open)
    decreases |s|
  {
    hide Back, Grammar.Skip;
    var y := Skip(s);
    if y != "" && IsValueChar(y[0]) {
      SkipBack(s, open);
      StepBack(y, open);
      ValueTailBack(y[1..], open);
      BackTwice(s, open, y, open, y[1..], open);
      BackTwice(s, open, y[1..], open, ValueTail(s), open);
    } else {
      BackSelf(s, open);
    }
  }

  lemma ValueRestBack(s: string, open: bool)
    requires Solid(s)
    ensures Back(s, open, ValueRest(s), open)
  {
    hide Back, Grammar.ValueTail;
    if s != "" && IsValueChar(s[0]) {
      StepBack(s, open);
      ValueTailBack(s[1..], open);
      BackTwice(s, open, s[1..], open, ValueRest(s), open);
    } else {
      BackSelf(s, open);
    }
  }

  lemma {:induction false} DigitTailBack(s: string)
    ensures Back(s, false, DigitTail(s), false)
    decreases |s|
  {
    hide Back, Grammar.Skip;
    var y := Skip(s);
    if y != "" && IsDigit(y[0]) {
      SkipBack(s, false);
      StepBack(y, false);
      DigitTailBack(y[1..]);
      BackTwice(s, false, y, false, y[1..], false);
      BackTwice(s, false, y[1..], false, DigitTail(s), false);
    } else {
      BackSelf(s, false);
    }
  }

  // ----- quoted constants in a tree

  predicate QuotedConstant(q: Pair) {
    q.rule == Constant && q.inner != []
  }

  /** The constant q is read at some place in s. */
  ghost predicate Stands(s: string, q: Pair) {
    exists r :: Place(s, r, false) && PQuoted(r).Done? && PQuoted(r).pair == q
  }

  /** Every quoted constant of the tree p stands somewhere in s. */
  ghost predicate Found(s: string, p: Pair) {
    forall q :: Occurs(q, p) && QuotedConstant(q) ==> Stands(s, q)
  }

  ghost predicate AllFound(s: string, ps: seq<Pair>) {
    forall i :: 0 <= i < |ps| ==> Found(s, ps[i])
  }

  lemma StandsBack(s: string, t: string, q: Pair)
    requires Back(s, false, t, false) && Stands(t, q)
    ensures Stands(s, q)
  {
    hide Place, Grammar.PQuoted;
    var r :| Place(t, r, false) && PQuoted(r).Done? && PQuoted(r).pair == q;
    assert Place(s, r, false);
  }

  lemma FoundBack(s: string, t: string, p: Pair)
    requires Back(s, false, t, false) && Found(t, p)
    ensures Found(s, p)
  {
    hide Stands, Back;
    forall q | Occurs(q, p) && QuotedConstant(q)
      ensures Stands(s, q)
    {
      StandsBack(s, t, q);
    }
  }

  lemma AllFoundBack(s: string, t: string, ps: seq<Pair>)
    requires Back(s, false, t, false) && AllFound(t, ps)
    ensures AllFound(s, ps)
  {
    hide Back, Found;
    forall i | 0 <= i < |ps|
      ensures Found(s, ps[i])
    {
      FoundBack(s, t, ps[i]);
    }
  }

  /** A pair that is no constant holds the constants of the pairs inside it. */
  lemma FoundInside(s: string, p: Pair)
    requires p.rule != Constant && AllFound(s, p.inner)
    ensures Found(s, p)
  {
    hide Stands;
    forall q | Occurs(q, p) && QuotedConstant(q)
      ensures Stands(s, q)
    {
      var c :| c in p.inner && Occurs(q, c);
      var i :| 0 <= i < |p.inner| && p.inner[i] == c;
      assert Found(s, p.inner[i]);
    }
  }

  /** A name and its keyword, an identifier, a parameter: no constant inside. */
  predicate NoConstants(p: Pair) {
    p.rule != Constant && forall c :: c in p.inner ==> c.rule != Constant && c.inner == []
  }

  lemma NoConstantIn(p: Pair, q: Pair)
    requires NoConstants(p) && Occurs(q, p)
    ensures !QuotedConstant(q)
  {
    if q != p {
      var c :| c in p.inner && Occurs(q, c);
    }
  }

  lemma FoundNowhere(s: string, p: Pair)
    requires NoConstants(p)
    ensures Found(s, p)
  {
    hide Stands, NoConstants, QuotedConstant;
    forall q | Occurs(q, p)
      ensures !QuotedConstant(q)
    {
      NoConstantIn(p, q);
    }
  }

  /** A production read at s: places behind it are places of s, and its constants are found. */
  ghost predicate Passed(s: string, r: Parse) {
    r.Done? ==> Back(s, false, r.rest, false) && Found(s, r.pair)
  }

  ghost predicate ListPassed(s: string, r: Parses) {
    Back(s, false, r.rest, false) && AllFound(s, r.pairs)
  }

  lemma QuotedBack(s: string)
    requires PQuoted(s).Done?
    ensures Back(s, false, PQuoted(s).rest, false)
  {
    hide Back, Grammar.Skip, Grammar.ValueRest, Grammar.PValue;
    var v := Skip(s[1..]);
    var x := Skip(ValueRest(v));
    QuoteBack(s, false);
    SkipBack(s[1..], true);
    ValueRestBack(v, true);
    SkipBack(ValueRest(v), true);
    QuoteBack(x, true);
    BackTwice(s, false, s[1..], true, v, true);
    BackTwice(s, false, v, true, ValueRest(v), true);
    BackTwice(s, false, ValueRest(v), true, x, true);
    BackTwice(s, false, x, true, x[1..], false);
  }

  lemma PlaceHere(s: string)
    requires s != "" && s[0] == '"'
    ensures Place(s, s, false)
  {
    assert s[..0] == "";
  }

  lemma QuotedFound(s: string)
    requires PQuoted(s).Done?
    ensures Found(s, PQuoted(s).pair)
  {
    hide Grammar.Skip, Grammar.ValueRest, Place;
    var p := PQuoted(s).pair;
    PlaceHere(s);
    forall q | Occurs(q, p) && QuotedConstant(q)
      ensures Stands(s, q)
    {
      if q != p {
        var c :| c in p.inner && Occurs(q, c);
        assert false;
      }
    }
  }

  lemma DigitsPassed(s: string)
    ensures Passed(s, PDigits(s))
  {
    hide Back, Grammar.Skip, Grammar.DigitTail, Stands;
    if s != "" && IsDigit(s[0]) {
      StepBack(s, false);
      SkipBack(s[1..], false);
      var y := Skip(s[1..]);
      BackTwice(s, false, s[1..], false, y, false);
      if y != "" && IsDigit(y[0]) {
        StepBack(y, false);
        DigitTailBack(y[1..]);
        BackTwice(s, false, y, false, y[1..], false);
        BackTwice(s, false, y[1..], false, DigitTail(y[1..]), false);
      }
    }
  }

  lemma PConstantPassed(s: string)
    ensures Passed(s, PConstant(s))
  {
    hide Back, Found, Grammar.PQuoted, Grammar.PDigits;
    DigitsPassed(s);
    if PQuoted(s).Done? {
      QuotedBack(s);
      QuotedFound(s);
    }
  }

  // ----- productions

  lemma KeywordBack(rule: Rule, tok: string, s: string)
    requires PlainToken(tok)
    ensures Keyword(rule, tok, s).Done? ==> Back(s, false, Keyword(rule, tok, s).rest, false)
  {
    hide Back;
    if tok <= s {
      LitBack(tok, s);
    }
  }

  lemma LitNextBack(tok: string, s: string)
    requires PlainToken(tok)
    ensures var l := Lit(tok, Skip(s)); l.Some? ==> Back(s, false, l.value, false)
  {
    hide Back, Grammar.Skip, PlainToken;
    var y := Skip(s);
    if tok <= y {
      SkipBack(s, false);
      LitBack(tok, y);
      BackTwice(s, false, y, false, y[|tok|..], false);
    }
  }

  /** A literal at s, then a skip. */
  lemma LitThenSkip(tok: string, s: string)
    requires PlainToken(tok) && tok <= s
    ensures Back(s, false, Skip(s[|tok|..]), false)
  {
    hide Back, Grammar.Skip, PlainToken;
    LitBack(tok, s);
    SkipBack(s[|tok|..], false);
    BackTwice(s, false, s[|tok|..], false, Skip(s[|tok|..]), false);
  }

  lemma FoundTwo(s: string, p: Pair, a: Pair, b: Pair)
    requires p.rule != Constant && p.inner == [a, b] && Found(s, a) && Found(s, b)
    ensures Found(s, p)
  {
    hide Found;
    FoundInside(s, p);
  }

  lemma NamePassed(s: string, r: Parse)
    requires r.Done? ==> NoConstants(r.pair) && Back(s, false, r.rest, false)
    ensures Passed(s, r)
  {
    hide Back, NoConstants, Found;
    if r.Done? {
      FoundNowhere(s, r.pair);
    }
  }

  lemma PDynamicNamePassed(s: string)
    ensures Passed(s, PDynamicName(s))
  {
    hide Grammar.Keyword, Back, Found;
    KeywordBack(RandomPath, "random_path", s);
    KeywordBack(RandomString, "random_string", s);
    NamePassed(s, PDynamicName(s));
  }

  lemma {:induction false} PDynamicPassed(s: string)
    ensures Passed(s, PDynamic(s))
    decreases |s|, 0
  {
    hide Back, Found, Grammar.PDynamicName, Grammar.Skip, Grammar.PArgs;
    PDynamicNamePassed(s);
    if PDynamic(s).Done? {
      var s1 := PDynamicName(s).rest;
      var s2 := Skip(s1);
      SkipBack(s1, false);
      BackTwice(s, false, s1, false, s2, false);
      PArgsPassed(s2);
      BackTwice(s, false, s2, false, PArgs(s2).rest, false);
      FoundBack(s, s2, PArgs(s2).pair);
      FoundTwo(s, PDynamic(s).pair, PDynamicName(s).pair, PArgs(s2).pair);
    }
  }

  lemma PIdentPassed(s: string)
    ensures Passed(s, PIdent(s))
  {
    hide Back, Found, Grammar.IdentTail;
    PIdentBack(s);
    NamePassed(s, PIdent(s));
  }

  lemma FoundOne(s: string, p: Pair, a: Pair)
    requires p.rule != Constant && p.inner == [a] && Found(s, a)
    ensures Found(s, p)
  {
    hide Found;
    FoundInside(s, p);
  }

  lemma {:induction false} PArgPassed(s: string)
    ensures Passed(s, PArg(s))
    decreases |s|, 1
  {
    hide Back, Found, Grammar.PDynamic, Grammar.PIdent, Grammar.PConstant;
    PDynamicPassed(s);
    PIdentPassed(s);
    PConstantPassed(s);
    var r := Or(PDynamic(s), Or(PIdent(s), PConstant(s)));
    if r.Done? {
      FoundOne(s, PArg(s).pair, r.pair);
    }
  }

  /** One more item in front of a list, read at t after something else was read from s. */
  lemma ListCons(s: string, t: string, r: Parse, more: Parses)
    requires Back(s, false, t, false) && Passed(t, r) && r.Done? && ListPassed(r.rest, more)
    ensures ListPassed(s, Parses([r.pair] + more.pairs, more.rest))
  {
    hide Back, Found;
    BackTwice(s, false, t, false, r.rest, false);
    BackTwice(s, false, r.rest, false, more.rest, false);
    FoundBack(s, t, r.pair);
    AllFoundBack(s, r.rest, more.pairs);
  }

  lemma NoItems(s: string)
    ensures ListPassed(s, Parses([], s))
  {
    BackSelf(s, false);
  }

  lemma {:induction false} ArgTailPassed(s: string)
    ensures ListPassed(s, ArgTail(s))
    decreases |s|, 0
  {
    hide Back, AllFound, Found, Passed, ListPassed, Grammar.Skip, Grammar.PArg;
    NoItems(s);
    LitNextBack(",", s);
    var l := Lit(",", Skip(s));
    if l.Some? {
      var t := Skip(l.value);
      SkipBack(l.value, false);
      BackTwice(s, false, l.value, false, t, false);
      PArgPassed(t);
      if PArg(t).Done? {
        ArgTailPassed(PArg(t).rest);
        ListCons(s, t, PArg(t), ArgTail(PArg(t).rest));
      }
    }
  }

  /** The end of a list, with or without a comma. */
  lemma CommaBack(s: string, t: string)
    requires Back(s, false, t, false)
    ensures var r := Skip(t); Back(s, false, if "," <= r then r[1..] else r, false)
  {
    hide Back, Grammar.Skip;
    var r := Skip(t);
    SkipBack(t, false);
    BackTwice(s, false, t, false, r, false);
    if "," <= r {
      LitBack(",", r);
      BackTwice(s, false, r, false, r[1..], false);
    }
  }

  /** An item, a skip, further items, and the end of the list. */
  lemma ListJoined(s: string, r: Parse, more: Parses, end: string)
    requires Passed(s, r) && r.Done? && ListPassed(Skip(r.rest), more)
    requires var y := Skip(more.rest); end == if "," <= y then y[1..] else y
    ensures ListPassed(s, Parses([r.pair] + more.pairs, end))
  {
    hide Back, Found, Grammar.Skip;
    SkipBack(r.rest, false);
    BackTwice(s, false, r.rest, false, Skip(r.rest), false);
    AllFoundBack(s, Skip(r.rest), more.pairs);
    BackTwice(s, false, Skip(r.rest), false, more.rest, false);
    CommaBack(s, more.rest);
  }

  lemma {:induction false} ArgListPassed(s: string)
    ensures ListPassed(s, ArgList(s))
    decreases |s|, 2
  {
    hide Back, AllFound, Found, Passed, ListPassed, Grammar.Skip, Grammar.PArg, Grammar.ArgTail;
    NoItems(s);
    PArgPassed(s);
    if PArg(s).Done? {
      ArgTailPassed(Skip(PArg(s).rest));
      ListJoined(s, PArg(s), ArgTail(Skip(PArg(s).rest)), ArgList(s).rest);
    }
  }

  /** A list between its delimiters. */
  lemma Delimited(s: string, t: string, list: Parses, tok: string, p: Pair)
    requires Back(s, false, t, false) && ListPassed(t, list) && PlainToken(tok)
    requires p.rule != Constant && p.inner == list.pairs
    ensures var l := Lit(tok, Skip(list.rest)); l.Some? ==> Passed(s, Done(p, l.value))
  {
    hide Back, Found, Grammar.Skip, PlainToken;
    LitNextBack(tok, list.rest);
    var l := Lit(tok, Skip(list.rest));
    if l.Some? {
      AllFoundBack(s, t, list.pairs);
      FoundInside(s, p);
      BackTwice(s, false, t, false, list.rest, false);
      BackTwice(s, false, list.rest, false, l.value, false);
    }
  }

  lemma {:induction false} PArgsPassed(s: string)
    ensures Passed(s, PArgs(s))
    decreases |s|, 3
  {
    hide Back, Found, Passed, ListPassed, Grammar.Skip, Grammar.ArgList;
    if PArgs(s).Done? {
      var t := Skip(s[1..]);
      LitThenSkip("(", s);
      ArgListPassed(t);
      Delimited(s, t, ArgList(t), ")", PArgs(s).pair);
    } else {
      FailPassed(s);
    }
  }

  lemma FailPassed(s: string)
    ensures Passed(s, Fail)
  {
  }

  lemma PParamPassed(s: string)
    ensures Passed(s, PParam(s))
  {
    hide Back, Grammar.Skip, Grammar.PIdent, Grammar.ValueRest;
    PIdentBack(s);
    if PParam(s).Done? {
      var s1 := PIdent(s).rest;
      LitNextBack("=", s1);
      var s2 := Lit("=", Skip(s1)).value;
      BackTwice(s, false, s1, false, s2, false);
      SkipBack(s2, false);
      BackTwice(s, false, s2, false, Skip(s2), false);
      ValueRestBack(Skip(s2), false);
      BackTwice(s, false, Skip(s2), false, ValueRest(Skip(s2)), false);
      IdentHasNone(s);
      NamePassed(s, PParam(s));
    }
  }

  lemma IdentHasNone(s: string)
    ensures PIdent(s).Done? ==> PIdent(s).pair.inner == [] && PIdent(s).pair.rule == Ident
  {
  }

  lemma {:induction false} ParamTailPassed(s: string)
    ensures ListPassed(s, ParamTail(s))
    decreases |s|
  {
    hide Back, AllFound, Found, Passed, ListPassed, Grammar.Skip, Grammar.PParam;
    NoItems(s);
    LitNextBack(",", s);
    var l := Lit(",", Skip(s));
    if l.Some? {
      var t := Skip(l.value);
      SkipBack(l.value, false);
      BackTwice(s, false, l.value, false, t, false);
      PParamPassed(t);
      if PParam(t).Done? {
        ParamTailPassed(PParam(t).rest);
        ListCons(s, t, PParam(t), ParamTail(PParam(t).rest));
      }
    }
  }

  lemma ParamListPassed(s: string)
    ensures ListPassed(s, ParamList(s))
  {
    hide Back, AllFound, Found, Passed, ListPassed, Grammar.Skip, Grammar.PParam, Grammar.ParamTail;
    NoItems(s);
    PParamPassed(s);
    if PParam(s).Done? {
      ParamTailPassed(Skip(PParam(s).rest));
      ListJoined(s, PParam(s), ParamTail(Skip(PParam(s).rest)), ParamList(s).rest);
    }
  }

  lemma PParamsPassed(s: string)
    ensures Passed(s, PParams(s))
  {
    hide Back, Found, Passed, ListPassed, Grammar.Skip, Grammar.ParamList;
    if PParams(s).Done? {
      var t := Skip(s[1..]);
      LitThenSkip("(", s);
      ParamListPassed(t);
      Delimited(s, t, ParamList(t), ")", PParams(s).pair);
    } else {
      FailPassed(s);
    }
  }

  lemma PWorkPassed(s: string)
    ensures Passed(s, PWork(s))
  {
    hide Back, Found, Grammar.Skip, Grammar.PIdent, Grammar.PParams;
    PIdentPassed(s);
    if PIdent(s).Done? {
      var t := Skip(PIdent(s).rest);
      SkipBack(PIdent(s).rest, false);
      BackTwice(s, false, PIdent(s).rest, false, t, false);
      PParamsPassed(t);
      if PParams(t).Done? {
        BackTwice(s, false, t, false, PParams(t).rest, false);
        FoundBack(s, t, PParams(t).pair);
        FoundTwo(s, PWork(s).pair, PIdent(s).pair, PParams(t).pair);
      } else {
        FoundOne(s, PWork(s).pair, PIdent(s).pair);
      }
    }
  }

  lemma POptPassed(s: string)
    ensures Passed(s, POpt(s))
  {
    hide Back, Grammar.Skip, Grammar.PIdent, Grammar.ValueRest;
    PIdentBack(s);
    if POpt(s).Done? {
      var s1 := PIdent(s).rest;
      LitNextBack("=", s1);
      var s2 := Lit("=", Skip(s1)).value;
      BackTwice(s, false, s1, false, s2, false);
      SkipBack(s2, false);
      BackTwice(s, false, s2, false, Skip(s2), false);
      ValueRestBack(Skip(s2), false);
      BackTwice(s, false, Skip(s2), false, ValueRest(Skip(s2)), false);
      LitNextBack(";", ValueRest(Skip(s2)));
      BackTwice(s, false, ValueRest(Skip(s2)), false, POpt(s).rest, false);
      IdentHasNone(s);
      NamePassed(s, POpt(s));
    }
  }

  lemma {:induction false} OptsPassed(s: string)
    ensures ListPassed(s, Opts(s))
    decreases |s|
  {
    hide Back, AllFound, Found, Passed, ListPassed, Grammar.Skip, Grammar.POpt;
    NoItems(s);
    var t := Skip(s);
    SkipBack(s, false);
    POptPassed(t);
    if POpt(t).Done? {
      OptsPassed(POpt(t).rest);
      ListCons(s, t, POpt(t), Opts(POpt(t).rest));
    }
  }

  lemma PDistNamePassed(s: string)
    ensures Passed(s, PDistName(s))
  {
    hide Grammar.Keyword, Back, Found;
    KeywordBack(Exp, "exp", s);
    KeywordBack(Zipf, "zipf", s);
    KeywordBack(Uniform, "uniform", s);
    NamePassed(s, PDistName(s));
  }

  /** A name, an opening delimiter and a list up to its closing delimiter. */
  lemma PDistPassed(s: string)
    ensures Passed(s, PDist(s))
  {
    hide Back, Found, Grammar.Skip, Grammar.PDistName, Grammar.Opts;
    if PDist(s).Done? {
      var t := Skip(s[1..]);
      LitThenSkip(":", s);
      PDistNamePassed(t);
      var name := PDistName(t);
      BackTwice(s, false, t, false, name.rest, false);
      FoundBack(s, t, name.pair);
      LitNextBack("{", name.rest);
      var u := Lit("{", Skip(name.rest)).value;
      BackTwice(s, false, name.rest, false, u, false);
      SkipBack(u, false);
      BackTwice(s, false, u, false, Skip(u), false);
      OptsPassed(Skip(u));
      var opts := Opts(Skip(u));
      AllFoundBack(s, Skip(u), opts.pairs);
      FoundInside(s, PDist(s).pair);
      BackTwice(s, false, Skip(u), false, opts.rest, false);
      LitNextBack("}", opts.rest);
      BackTwice(s, false, opts.rest, false, PDist(s).rest, false);
    }
  }

  lemma PFuncNamePassed(s: string)
    ensures Passed(s, PFuncName(s))
  {
    hide Grammar.Keyword, Back, Found;
    KeywordBack(Task, "task", s);
    KeywordBack(Network, "network", s);
    KeywordBack(Port, "port", s);
    KeywordBack(Open, "open", s);
    KeywordBack(Ping, "ping", s);
    KeywordBack(Debug, "debug", s);
    NamePassed(s, PFuncName(s));
  }

  lemma PMInstrNamePassed(s: string)
    ensures Passed(s, PMInstrName(s))
  {
    hide Grammar.Keyword, Back, Found;
    KeywordBack(Server, "server", s);
    KeywordBack(Load, "load", s);
    KeywordBack(Memory, "memory", s);
    KeywordBack(Profile, "profile", s);
    KeywordBack(Path, "path", s);
    NamePassed(s, PMInstrName(s));
  }

  lemma PCallPassed(rule: Rule, s: string, name: Parse)
    requires name.Done? ==> |name.rest| < |s|
    requires Passed(s, name) && rule != Constant
    ensures Passed(s, PCall(rule, s, name))
  {
    hide Back, Found, Grammar.Skip, Grammar.PArgs;
    if PCall(rule, s, name).Done? {
      var p := PCall(rule, s, name).pair;
      var t := Skip(name.rest);
      SkipBack(name.rest, false);
      BackTwice(s, false, name.rest, false, t, false);
      PArgsPassed(t);
      var u := if PArgs(t).Done? then PArgs(t).rest else t;
      LitNextBack(";", u);
      if PArgs(t).Done? {
        BackTwice(s, false, t, false, u, false);
        FoundBack(s, t, PArgs(t).pair);
        FoundTwo(s, p, name.pair, PArgs(t).pair);
      } else {
        FoundOne(s, p, name.pair);
      }
      BackTwice(s, false, u, false, PCall(rule, s, name).rest, false);
    }
  }

  lemma PInstructionPassed(s: string)
    ensures Passed(s, PInstruction(s))
  {
    hide Passed, Grammar.PFuncName, Grammar.PCall;
    PFuncNamePassed(s);
    PCallPassed(Instruction, s, PFuncName(s));
  }

  lemma {:induction false} PExprPassed(s: string)
    ensures Passed(s, PExpr(s))
    decreases |s|, 1
  {
    hide Back, Found, Grammar.PFunction, Grammar.PInstruction;
    PFunctionPassed(s);
    PInstructionPassed(s);
    var r := Or(PFunction(s), PInstruction(s));
    if r.Done? {
      FoundOne(s, PExpr(s).pair, r.pair);
    }
  }

  lemma {:induction false} ExprsPassed(s: string)
    ensures ListPassed(s, Exprs(s))
    decreases |s|, 2
  {
    hide Back, AllFound, Found, Passed, ListPassed, Grammar.Skip, Grammar.PExpr;
    NoItems(s);
    var t := Skip(s);
    SkipBack(s, false);
    PExprPassed(t);
    if PExpr(t).Done? {
      ExprsPassed(PExpr(t).rest);
      ListCons(s, t, PExpr(t), Exprs(PExpr(t).rest));
    }
  }

  /** Up to the closing brace of a function: its head and its body. */
  lemma {:induction false} BodyPassed(s: string)
    requires PFunction(s).Done?
    ensures PWork(s).Done? && Lit("{", Skip(PWork(s).rest)).Some?
    ensures var t := Skip(Lit("{", Skip(PWork(s).rest)).value);
            && var l := Lit("}", Skip(Exprs(t).rest));
            && l.Some? && Back(s, false, Skip(l.value), false)
            && Found(s, PWork(s).pair) && AllFound(s, Exprs(t).pairs)
    decreases |s|, 0, 0
  {
    hide Back, Found, Grammar.Skip, Grammar.PWork, Grammar.Exprs, Grammar.PDist;
    PWorkPassed(s);
    LitNextBack("{", PWork(s).rest);
    var u := Lit("{", Skip(PWork(s).rest)).value;
    BackTwice(s, false, PWork(s).rest, false, u, false);
    SkipBack(u, false);
    var t := Skip(u);
    BackTwice(s, false, u, false, t, false);
    ExprsPassed(t);
    AllFoundBack(s, t, Exprs(t).pairs);
    BackTwice(s, false, t, false, Exprs(t).rest, false);
    LitNextBack("}", Exprs(t).rest);
    var v := Lit("}", Skip(Exprs(t).rest)).value;
    BackTwice(s, false, Exprs(t).rest, false, v, false);
    SkipBack(v, false);
    BackTwice(s, false, v, false, Skip(v), false);
  }

  lemma {:induction false} PFunctionPassed(s: string)
    ensures Passed(s, PFunction(s))
    decreases |s|, 0, 1
  {
    hide Back, Found, Grammar.Skip, Grammar.PWork, Grammar.Exprs, Grammar.PDist, AllFound;
    if PFunction(s).Done? {
      BodyPassed(s);
      var p := PFunction(s).pair;
      var t := Skip(Lit("{", Skip(PWork(s).rest)).value);
      var v := Skip(Lit("}", Skip(Exprs(t).rest)).value);
      FoundInside(s, p.inner[1]);
      PDistPassed(v);
      if PDist(v).Done? {
        BackTwice(s, false, v, false, PDist(v).rest, false);
        FoundBack(s, v, PDist(v).pair);
      }
      FunctionFound(s, p, PWork(s).pair, p.inner[1], PDist(v));
    }
  }

  lemma FunctionFound(s: string, p: Pair, work: Pair, instrs: Pair, dist: Parse)
    requires p.rule == Function && p.inner == [work, instrs] + if dist.Done? then [dist.pair] else []
    requires Found(s, work) && Found(s, instrs) && (dist.Done? ==> Found(s, dist.pair))
    ensures Found(s, p)
  {
    hide Found;
    FoundInside(s, p);
  }

  lemma PMachineInstructionPassed(s: string)
    ensures Passed(s, PMachineInstruction(s))
  {
    hide Passed, Grammar.PMInstrName, Grammar.PCall;
    PMInstrNamePassed(s);
    PCallPassed(MachineInstruction, s, PMInstrName(s));
  }

  lemma {:induction false} MInstrsPassed(s: string)
    ensures ListPassed(s, MInstrs(s))
    decreases |s|
  {
    hide Back, AllFound, Found, Passed, ListPassed, Grammar.Skip, Grammar.PMachineInstruction;
    NoItems(s);
    var t := Skip(s);
    SkipBack(s, false);
    PMachineInstructionPassed(t);
    if PMachineInstruction(t).Done? {
      MInstrsPassed(PMachineInstruction(t).rest);
      ListCons(s, t, PMachineInstruction(t), MInstrs(PMachineInstruction(t).rest));
    }
  }

  lemma PMachinePassed(s: string)
    ensures Passed(s, PMachine(s))
  {
    hide Back, Found, Passed, ListPassed, Grammar.Skip, Grammar.MInstrs;
    if PMachine(s).Done? {
      var s1 := s[|"machine"|..];
      LitBack("machine", s);
      LitNextBack("{", s1);
      var s2 := Lit("{", Skip(s1)).value;
      BackTwice(s, false, s1, false, s2, false);
      SkipBack(s2, false);
      var t := Skip(s2);
      BackTwice(s, false, s2, false, t, false);
      MInstrsPassed(t);
      Delimited(s, t, MInstrs(t), "}", PMachine(s).pair);
    } else {
      FailPassed(s);
    }
  }

  lemma FilePassed(s: string)
    requires PFile(s).Some?
    ensures Found(s, PFile(s).value)
  {
    hide Back, Found, Grammar.Skip, Grammar.PMachine, Grammar.Exprs;
    var s1 := Skip(s);
    SkipBack(s, false);
    PMachinePassed(s1);
    var m := PMachine(s1);
    var s2 := if m.Done? then m.rest else s1;
    if m.Done? {
      BackTwice(s, false, s1, false, s2, false);
      FoundBack(s, s1, m.pair);
    }
    SkipBack(s2, false);
    BackTwice(s, false, s2, false, Skip(s2), false);
    ExprsPassed(Skip(s2));
    var body := Exprs(Skip(s2));
    AllFoundBack(s, Skip(s2), body.pairs);
    var end := Pair(EOI, "", []);
    FoundNowhere(s, end);
    FoundInside(s, PFile(s).value);
  }

  /** Every quoted constant of an accepted source is read at a place outside comments and other quotes. */
  lemma ConstantStands(source: string, q: Pair)
    requires PFile(source).Some? && Occurs(q, PFile(source).value) && QuotedConstant(q)
    ensures exists x, r :: source == x + r && Outside(x, false) && PQuoted(r).Done? && PQuoted(r).pair == q
  {
    hide Grammar.PFile, Occurs, Grammar.PQuoted, Outside;
    FilePassed(source);
    var r :| Place(source, r, false) && PQuoted(r).Done? && PQuoted(r).pair == q;
    var x := source[..|source| - |r|];
    assert source == x + r;
  }
}
