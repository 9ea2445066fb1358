/**
 A quoted constant written differently.  The source is left alone except that one
 constant, standing outside comments and other quotes, is replaced by another way of
 writing the same value.  Production by production, both sources are accepted or
 refused alike, and their trees differ in nothing but the text of the pairs around
 the constant.
 */
module Respelling {
  import opened Common
  import opened Grammar
  import opened Tokens
  import opened Quotes

  /** The source from the constant on, with either spelling, and what follows the constant. */
  datatype Spelling = Spelling(one: string, other: string, rest: string)

  predicate ReadsTo(s: string, rest: string) {
    PQuoted(s).Done? && PQuoted(s).rest == rest
  }

  /** Two quoted constants with the same value. */
  predicate SameConstant(c: Spelling) {
    && ReadsTo(c.one, c.rest) && ReadsTo(c.other, c.rest)
    && PQuoted(c.one).pair.inner == PQuoted(c.other).pair.inner
  }

  /** Scanning u ends outside comments, and outside quotes if it starts so (inside, if `open`). */
  predicate Outside(u: string, open: bool)
    decreases |u|
  {
    if u == "" then !open
    else if "//" <= u then SkipLine(u[2..]) != "" && Outside(SkipLine(u[2..]), open)
    else Outside(u[1..], if u[0] == '"' then !open else open)
  }

  /** A place in the source: before the constant (outside, or inside quotes if `open`) or behind it. */
  predicate At(c: Spelling, s: string, open: bool) {
    if |s| < |c.one| then |s| <= |c.rest|
    else s[|s| - |c.one|..] == c.one && Outside(s[..|s| - |c.one|], open)
  }

  /** The same place in the other source. */
  function Re(c: Spelling, s: string): string {
    if |s| < |c.one| then s else s[..|s| - |c.one|] + c.other
  }

  lemma Quoted(c: Spelling)
    requires SameConstant(c)
    ensures |c.rest| < |c.one| && |c.rest| < |c.other| && c.one[0] == c.other[0] == '"'
    ensures Solid(c.one) && Solid(c.other)
  {
    hide Grammar.Skip, Grammar.ValueRest;
  }

  lemma Placed(c: Spelling, u: string, open: bool)
    requires Outside(u, open)
    ensures At(c, u + c.one, open) && Re(c, u + c.one) == u + c.other
  {
    assert (u + c.one)[|u|..] == c.one && (u + c.one)[..|u|] == u;
  }

  /** Either the place is behind the constant, where nothing changes, or it is in front of it. */
  lemma Front(c: Spelling, s: string, open: bool) returns (u: string)
    requires At(c, s, open)
    ensures |s| >= |c.one| ==> s == u + c.one && Re(c, s) == u + c.other && Outside(u, open)
    ensures |s| < |c.one| ==> Re(c, s) == s && |s| <= |c.rest|
  {
    if |s| >= |c.one| {
      u := s[..|s| - |c.one|];
      assert s == u + c.one;
    } else {
      u := "";
    }
  }

  /** Behind the constant every shorter text is a place, too. */
  lemma Behind(c: Spelling, s: string, open: bool)
    requires SameConstant(c) && |s| <= |c.rest|
    ensures At(c, s, open) && Re(c, s) == s
  {
    Quoted(c);
  }

  lemma ReLength(c: Spelling, s: string, rest: string, open: bool, open': bool)
    requires SameConstant(c) && At(c, s, open) && At(c, rest, open') && |rest| <= |s|
    ensures |Re(c, rest)| <= |Re(c, s)|
  {
    Quoted(c);
  }

  /** What lies between two places in front of the constant is the same in both sources. */
  lemma SameText(c: Spelling, s: string, rest: string)
    requires |c.one| <= |rest| <= |s|
    ensures |Re(c, rest)| <= |Re(c, s)|
    ensures s[..|s| - |rest|] == Re(c, s)[..|Re(c, s)| - |Re(c, rest)|]
  {
  }

  // ----- moving on

  predicate PlainChar(x: char) { x != '"' && x != '/' }

  lemma OutsideStep(u: string, open: bool)
    requires u != "" && Outside(u, open) && !("//" <= u) && u[0] != '"'
    ensures Outside(u[1..], open)
  {
  }

  lemma {:induction false} OutsideDrop(u: string, n: nat, open: bool)
    requires n <= |u| && Outside(u, open) && forall i :: 0 <= i < n ==> PlainChar(u[i])
    ensures Outside(u[n..], open)
  {
    if n > 0 {
      OutsideDrop(u, n - 1, open);
      var v := u[n - 1..];
      assert v[0] == u[n - 1];
      OutsideStep(v, open);
      assert v[1..] == u[n..];
    }
  }

  lemma OutsideComment(u: string, open: bool)
    requires "//" <= u && Outside(u, open)
    ensures SkipLine(u[2..]) != "" && Outside(SkipLine(u[2..]), open)
  {
  }

  /** One character in front of the constant: no quote and not the start of a comment. */
  lemma Advance(c: Spelling, s: string, open: bool)
    requires SameConstant(c) && At(c, s, open) && s != "" && s[0] != '"' && !("//" <= s)
    ensures At(c, s[1..], open) && Re(c, s) != "" && Re(c, s)[0] == s[0] && Re(c, s)[1..] == Re(c, s[1..])
    ensures |s| >= |c.one| ==> |s[1..]| >= |c.one|
  {
    hide Outside, SameConstant, At, Re;
    Quoted(c);
    var u := Front(c, s, open);
    if |s| < |c.one| {
      Behind(c, s[1..], open);
    } else {
      assert u != "" by { assert u == "" ==> s == c.one; }
      assert s[0] == u[0] && (|u| > 1 ==> s[1] == u[1]);
      OutsideStep(u, open);
      Placed(c, u[1..], open);
      assert s[1..] == u[1..] + c.one;
      assert (u + c.other)[1..] == u[1..] + c.other;
    }
  }

  lemma {:induction false} SkipBefore(c: Spelling, u: string, open: bool) returns (v: string)
    requires SameConstant(c) && Outside(u, open)
    ensures Outside(v, open) && Skip(u + c.one) == v + c.one && Skip(u + c.other) == v + c.other
    decreases |u|
  {
    hide Grammar.Skip, Grammar.SkipLine, SameConstant, Outside;
    Quoted(c);
    SkipShrinks(u, c.one);
    SkipShrinks(u, c.other);
    if u == "" {
      v := "";
      assert u + c.one == c.one && u + c.other == c.other;
      SolidSkip(c.one);
      SolidSkip(c.other);
    } else if IsSpace(u[0]) {
      OutsideStep(u, open);
      v := SkipBefore(c, u[1..], open);
    } else if "//" <= u {
      OutsideComment(u, open);
      v := SkipBefore(c, SkipLine(u[2..]), open);
    } else {
      v := u;
      SolidBefore(u, c.one);
      SolidBefore(u, c.other);
    }
  }

  lemma SolidBefore(u: string, q: string)
    requires u != "" && Solid(u) && q != "" && q[0] == '"'
    ensures Skip(u + q) == u + q
  {
    hide Grammar.Skip;
    var s := u + q;
    assert s[0] == u[0] && (|u| > 1 ==> s[1] == u[1]) && (|u| == 1 ==> s[1] == q[0]);
    SolidSkip(s);
  }

  lemma SkipAt(c: Spelling, s: string, open: bool)
    requires SameConstant(c) && At(c, s, open)
    ensures At(c, Skip(s), open) && Skip(Re(c, s)) == Re(c, Skip(s))
    ensures |s| >= |c.one| ==> |Skip(s)| >= |c.one|
  {
    hide Grammar.Skip, SameConstant, Outside, At, Re;
    var u := Front(c, s, open);
    if |s| >= |c.one| {
      var v := SkipBefore(c, u, open);
      Placed(c, v, open);
    } else {
      Behind(c, Skip(s), open);
    }
  }

  predicate PlainToken(tok: string) {
    tok != "" && forall i :: 0 <= i < |tok| ==> PlainChar(tok[i])
  }

  /** No literal reaches into a quoted constant. */
  lemma LitInFront(tok: string, u: string, q: string)
    requires PlainToken(tok) && q != "" && q[0] == '"'
    ensures tok <= u + q <==> tok <= u
  {
    var s := u + q;
    if |tok| <= |u| {
      assert s[..|tok|] == u[..|tok|];
    } else {
      assert s[|u|] == '"' && tok[|u|] != '"';
    }
  }

  lemma AfterLit(c: Spelling, tok: string, u: string, open: bool)
    requires PlainToken(tok) && tok <= u && Outside(u, open)
    ensures var n := |tok|;
            && At(c, (u + c.one)[n..], open)
            && (u + c.other)[n..] == Re(c, (u + c.one)[n..])
  {
    hide Outside, At, Re;
    var n := |tok|;
    OutsideDrop(u, n, open);
    assert (u + c.one)[n..] == u[n..] + c.one && (u + c.other)[n..] == u[n..] + c.other;
    Placed(c, u[n..], open);
  }

  /** A literal stands in both sources or in none. */
  lemma LitAt(c: Spelling, tok: string, s: string, open: bool)
    requires SameConstant(c) && At(c, s, open) && PlainToken(tok)
    ensures tok <= s <==> tok <= Re(c, s)
    ensures tok <= s ==> At(c, s[|tok|..], open) && Re(c, s)[|tok|..] == Re(c, s[|tok|..])
  {
    hide Outside, SameConstant, At, Re, PlainToken;
    Quoted(c);
    var u := Front(c, s, open);
    if |s| < |c.one| {
      if tok <= s {
        Behind(c, s[|tok|..], open);
      }
    } else {
      LitInFront(tok, u, c.one);
      LitInFront(tok, u, c.other);
      if tok <= u {
        AfterLit(c, tok, u, open);
      }
    }
  }

  // ----- trees

  /** Rules whose text the builder reads; server ports and profile targets come on top. */
  predicate Kept(rule: Rule) {
    rule == Ident || rule == Value || rule == DynamicName
  }

  /** The same tree but for the text of pairs that the builder does not read. */
  predicate Similar(p: Pair, q: Pair)
    decreases p
  {
    && p.rule == q.rule && (Kept(p.rule) ==> p.text == q.text)
    && |p.inner| == |q.inner|
    && forall i :: 0 <= i < |p.inner| ==> Similar(p.inner[i], q.inner[i])
  }

  predicate AllSimilar(ps: seq<Pair>, qs: seq<Pair>) {
    |ps| == |qs| && forall i :: 0 <= i < |ps| ==> Similar(ps[i], qs[i])
  }

  lemma {:induction false} SimilarSelf(p: Pair)
    ensures Similar(p, p)
    decreases p
  {
    forall i | 0 <= i < |p.inner|
      ensures Similar(p.inner[i], p.inner[i])
    {
      SimilarSelf(p.inner[i]);
    }
  }

  lemma AllSimilarSelf(ps: seq<Pair>)
    ensures AllSimilar(ps, ps)
  {
    forall i | 0 <= i < |ps|
      ensures Similar(ps[i], ps[i])
    {
      SimilarSelf(ps[i]);
    }
  }

  lemma SimilarPairs(rule: Rule, t: string, ps: seq<Pair>, t': string, qs: seq<Pair>)
    requires AllSimilar(ps, qs) && (Kept(rule) ==> t == t')
    ensures Similar(Pair(rule, t, ps), Pair(rule, t', qs))
  {
  }

  lemma AllSimilarAppend(ps: seq<Pair>, ps': seq<Pair>, qs: seq<Pair>, qs': seq<Pair>)
    requires AllSimilar(ps, ps') && AllSimilar(qs, qs')
    ensures AllSimilar(ps + qs, ps' + qs')
  {
    hide Similar;
  }

  /** Both fail, or both go on to the same place with similar pairs. */
  predicate Alike(c: Spelling, r: Parse, r': Parse) {
    match r
    case Fail => r'.Fail?
    case Done(p, rest) => r'.Done? && At(c, rest, false) && r'.rest == Re(c, rest) && Similar(p, r'.pair)
  }

  predicate AlikeList(c: Spelling, r: Parses, r': Parses) {
    At(c, r.rest, false) && r'.rest == Re(c, r.rest) && AllSimilar(r.pairs, r'.pairs)
  }

  lemma AlikeSelf(c: Spelling, r: Parse)
    requires SameConstant(c) && (r.Done? ==> |r.rest| <= |c.rest|)
    ensures Alike(c, r, r)
  {
    if r.Done? {
      Behind(c, r.rest, false);
      SimilarSelf(r.pair);
    }
  }

  // ----- names and identifiers

  /** Both sources go on with the same character. */
  lemma HeadAt(c: Spelling, s: string, open: bool)
    requires SameConstant(c) && At(c, s, open)
    ensures s == "" <==> Re(c, s) == ""
    ensures s != "" ==> Re(c, s)[0] == s[0]
  {
    Quoted(c);
    var u := Front(c, s, open);
    if |s| >= |c.one| && u != "" {
      assert s[0] == u[0] == (u + c.other)[0];
    }
  }

  /** Both fail, or both read the very same pair. */
  predicate Same(c: Spelling, r: Parse, r': Parse) {
    match r
    case Fail => r'.Fail?
    case Done(p, rest) => r'.Done? && At(c, rest, false) && r'.rest == Re(c, rest) && r'.pair == p
  }

  lemma SameIsAlike(c: Spelling, r: Parse, r': Parse)
    requires Same(c, r, r')
    ensures Alike(c, r, r')
  {
    if r.Done? {
      SimilarSelf(r.pair);
    }
  }

  lemma KeywordAt(c: Spelling, rule: Rule, tok: string, s: string)
    requires SameConstant(c) && At(c, s, false) && PlainToken(tok)
    ensures Same(c, Keyword(rule, tok, s), Keyword(rule, tok, Re(c, s)))
  {
    hide At, Re, SameConstant, PlainToken;
    LitAt(c, tok, s, false);
  }

  lemma PDynamicNameAt(c: Spelling, s: string)
    requires SameConstant(c) && At(c, s, false)
    ensures Same(c, PDynamicName(s), PDynamicName(Re(c, s)))
  {
    hide Grammar.Keyword, At, Re, SameConstant;
    KeywordAt(c, RandomPath, "random_path", s);
    KeywordAt(c, RandomString, "random_string", s);
  }

  lemma PDistNameAt(c: Spelling, s: string)
    requires SameConstant(c) && At(c, s, false)
    ensures Same(c, PDistName(s), PDistName(Re(c, s)))
  {
    hide Grammar.Keyword, At, Re, SameConstant;
    KeywordAt(c, Exp, "exp", s);
    KeywordAt(c, Zipf, "zipf", s);
    KeywordAt(c, Uniform, "uniform", s);
  }

  lemma PFuncNameAt(c: Spelling, s: string)
    requires SameConstant(c) && At(c, s, false)
    ensures Same(c, PFuncName(s), PFuncName(Re(c, s)))
  {
    hide Grammar.Keyword, At, Re, SameConstant;
    KeywordAt(c, Task, "task", s);
    KeywordAt(c, Network, "network", s);
    KeywordAt(c, Port, "port", s);
    KeywordAt(c, Open, "open", s);
    KeywordAt(c, Ping, "ping", s);
    KeywordAt(c, Debug, "debug", s);
  }

  lemma PMInstrNameAt(c: Spelling, s: string)
    requires SameConstant(c) && At(c, s, false)
    ensures Same(c, PMInstrName(s), PMInstrName(Re(c, s)))
  {
    hide Grammar.Keyword, At, Re, SameConstant;
    KeywordAt(c, Rule.Server, "server", s);
    KeywordAt(c, Load, "load", s);
    KeywordAt(c, Memory, "memory", s);
    KeywordAt(c, Rule.Profile, "profile", s);
    KeywordAt(c, Rule.Path, "path", s);
  }

  lemma {:induction false} IdentTailAt(c: Spelling, s: string)
    requires SameConstant(c) && At(c, s, false)
    ensures var r := IdentTail(s);
            && At(c, r, false) && IdentTail(Re(c, s)) == Re(c, r)
            && (|s| >= |c.one| ==> |r| >= |c.one|)
  {
    hide At, Re, SameConstant;
    HeadAt(c, s, false);
    if s != "" && IsIdentChar(s[0]) {
      Advance(c, s, false);
      IdentTailAt(c, s[1..]);
    }
  }

  lemma PIdentAt(c: Spelling, s: string)
    requires SameConstant(c) && At(c, s, false)
    ensures Same(c, PIdent(s), PIdent(Re(c, s)))
  {
    hide At, SameConstant, Grammar.IdentTail;
    HeadAt(c, s, false);
    if s != "" && IsIdentStart(s[0]) {
      Advance(c, s, false);
      IdentTailAt(c, s[1..]);
      var rest := IdentTail(s[1..]);
      if |s| >= |c.one| {
        SameText(c, s, rest);
      }
    }
  }

  // ----- values and constants

  lemma {:induction false} ValueTailAt(c: Spelling, s: string, open: bool)
    requires SameConstant(c) && At(c, s, open)
    ensures var r := ValueTail(s);
            && At(c, r, open) && ValueTail(Re(c, s)) == Re(c, r)
            && (|s| >= |c.one| ==> |r| >= |c.one|)
    decreases |s|
  {
    hide At, Re, SameConstant, Grammar.Skip;
    SkipAt(c, s, open);
    var y := Skip(s);
    HeadAt(c, y, open);
    if y != "" && IsValueChar(y[0]) {
      Advance(c, y, open);
      ValueTailAt(c, y[1..], open);
    }
  }

  lemma ValueRestAt(c: Spelling, s: string, open: bool)
    requires SameConstant(c) && At(c, s, open) && Solid(s)
    ensures var r := ValueRest(s);
            && At(c, r, open) && ValueRest(Re(c, s)) == Re(c, r)
            && (|s| >= |c.one| ==> |r| >= |c.one|)
  {
    hide At, Re, SameConstant, Grammar.ValueTail;
    HeadAt(c, s, open);
    if s != "" && IsValueChar(s[0]) {
      Advance(c, s, open);
      ValueTailAt(c, s[1..], open);
    }
  }

  lemma PValueAt(c: Spelling, s: string, open: bool)
    requires SameConstant(c) && At(c, s, open) && Solid(s)
    ensures PValue(Re(c, s)) == PValue(s)
    ensures At(c, ValueRest(s), open) && ValueRest(Re(c, s)) == Re(c, ValueRest(s))
    ensures |s| >= |c.one| ==> |ValueRest(s)| >= |c.one|
  {
    hide At, SameConstant, Grammar.ValueRest;
    ValueRestAt(c, s, open);
    if |s| >= |c.one| {
      SameText(c, s, ValueRest(s));
    }
  }

  lemma {:induction false} DigitTailAt(c: Spelling, s: string)
    requires SameConstant(c) && At(c, s, false)
    ensures At(c, DigitTail(s), false) && DigitTail(Re(c, s)) == Re(c, DigitTail(s))
    decreases |s|
  {
    hide At, Re, SameConstant, Grammar.Skip;
    SkipAt(c, s, false);
    var y := Skip(s);
    HeadAt(c, y, false);
    if y != "" && IsDigit(y[0]) {
      Advance(c, y, false);
      DigitTailAt(c, y[1..]);
    }
  }

  lemma DigitsRestAt(c: Spelling, s: string)
    requires SameConstant(c) && At(c, s, false) && s != "" && IsDigit(s[0])
    ensures Re(c, s) != "" && At(c, DigitsRest(s), false) && DigitsRest(Re(c, s)) == Re(c, DigitsRest(s))
  {
    hide At, Re, SameConstant, Grammar.Skip, Grammar.DigitTail;
    Advance(c, s, false);
    SkipAt(c, s[1..], false);
    var y := Skip(s[1..]);
    HeadAt(c, y, false);
    if y != "" && IsDigit(y[0]) {
      Advance(c, y, false);
      DigitTailAt(c, y[1..]);
    }
  }

  lemma PDigitsAt(c: Spelling, s: string)
    requires SameConstant(c) && At(c, s, false)
    ensures Alike(c, PDigits(s), PDigits(Re(c, s)))
  {
    hide At, Re, SameConstant, Grammar.DigitsRest;
    HeadAt(c, s, false);
    if s != "" && IsDigit(s[0]) {
      DigitsRestAt(c, s);
    }
  }

  /** A quote in front of the constant opens or closes another constant. */
  lemma QuoteStep(c: Spelling, s: string, open: bool)
    requires SameConstant(c) && At(c, s, open) && |s| > |c.one| && s[0] == '"'
    ensures At(c, s[1..], !open) && Re(c, s)[1..] == Re(c, s[1..]) && |s[1..]| >= |c.one|
  {
    hide SameConstant, At, Re;
    var u := Front(c, s, open);
    assert s[0] == u[0];
    assert Outside(u[1..], !open);
    Placed(c, u[1..], !open);
    assert s[1..] == u[1..] + c.one;
    assert (u + c.other)[1..] == u[1..] + c.other;
  }

  /** Inside quotes the constant has not been reached. */
  lemma StillOpen(c: Spelling, s: string)
    requires At(c, s, true) && |s| >= |c.one|
    ensures |s| > |c.one|
  {
  }

  /** Another constant, in front of the one that is replaced. */
  lemma QuotedBefore(c: Spelling, s: string)
    requires SameConstant(c) && At(c, s, false) && |s| > |c.one|
    ensures Alike(c, PQuoted(s), PQuoted(Re(c, s)))
  {
    hide SameConstant, At, Re, Grammar.Skip, Grammar.ValueRest, Grammar.PValue;
    HeadAt(c, s, false);
    if s[0] == '"' {
      QuoteStep(c, s, false);
      SkipAt(c, s[1..], true);
      var v := Skip(s[1..]);
      PValueAt(c, v, true);
      SkipAt(c, ValueRest(v), true);
      var x := Skip(ValueRest(v));
      StillOpen(c, x);
      HeadAt(c, x, true);
      if x[0] == '"' {
        QuoteStep(c, x, true);
        AllSimilarSelf([PValue(v)]);
      }
    }
  }

  lemma QuotedHere(c: Spelling)
    requires SameConstant(c)
    ensures Alike(c, PQuoted(c.one), PQuoted(c.other))
  {
    hide Grammar.Skip, Grammar.ValueRest, Grammar.PValue;
    Behind(c, c.rest, false);
    var p, p' := PQuoted(c.one).pair, PQuoted(c.other).pair;
    AllSimilarSelf(p.inner);
    SimilarPairs(Constant, p.text, p.inner, p'.text, p'.inner);
  }

  lemma PQuotedAt(c: Spelling, s: string)
    requires SameConstant(c) && At(c, s, false)
    ensures Alike(c, PQuoted(s), PQuoted(Re(c, s)))
  {
    hide SameConstant, Alike, Grammar.PQuoted, Outside;
    if |s| < |c.one| {
      AlikeSelf(c, PQuoted(s));
    } else if |s| == |c.one| {
      assert s == c.one;
      assert Re(c, s) == c.other;
      QuotedHere(c);
    } else {
      QuotedBefore(c, s);
    }
  }

  lemma PConstantAt(c: Spelling, s: string)
    requires SameConstant(c) && At(c, s, false)
    ensures Alike(c, PConstant(s), PConstant(Re(c, s)))
  {
    hide SameConstant, At, Re, Grammar.PQuoted, Grammar.PDigits, Similar;
    PQuotedAt(c, s);
    PDigitsAt(c, s);
  }
}
