/**
 The grammar as a relation between trees and texts, apart from the parse functions.
 Shape.LocalShape says which pairs a pair may hold, Form with which literals and in
 which order they are written; a tree is derived if its parts stand one after the
 other with nothing but whitespace and comments in between.  There is no order of
 choice and no backtracking here.
 */
module Derivation {
  import opened Common
  import opened Grammar
  import opened Shape
  import opened Quotes
  import opened Tokens

  // ----- whitespace and comments

  /** From s to t there is nothing but whitespace and comments; a comment ends in front of a newline or at the end. */
  predicate Gap(s: string, t: string)
    decreases |s|
  {
    || s == t
    || (s != "" && IsSpace(s[0]) && Gap(s[1..], t))
    || ("//" <= s && Gap(SkipLine(s[2..]), t))
  }

  /** Skipping leads over the one gap behind which neither whitespace nor a comment starts. */
  lemma {:induction false} SkipIsGap(s: string, t: string)
    ensures Skip(s) == t <==> Gap(s, t) && Solid(t)
    decreases |s|
  {
    hide Grammar.Skip, Grammar.SkipLine;
    if s != "" && IsSpace(s[0]) {
      SkipSpaceStep(s);
      SkipIsGap(s[1..], t);
    } else if "//" <= s {
      SkipComment(s);
      SkipIsGap(SkipLine(s[2..]), t);
    } else {
      SolidSkip(s);
    }
  }

  // ----- alphabets

  const LOWER := "abcdefghijklmnopqrstuvwxyz"
  const UPPER := "ABCDEFGHIJKLMNOPQRSTUVWXYZ"
  const DIGITS := "0123456789"

  /** A row of consecutive characters holds exactly the characters from its first to its last. */
  lemma InRow(row: string, first: char, c: char)
    requires row != "" && forall i :: 0 <= i < |row| ==> row[i] as int == first as int + i
    ensures c in row <==> first as int <= c as int < first as int + |row|
  {
    if first as int <= c as int < first as int + |row| {
      assert row[c as int - first as int] == c;
    }
  }

  /** The letters and digits, one by one. */
  lemma Letters(c: char)
    ensures 'a' <= c <= 'z' <==> c in LOWER
    ensures 'A' <= c <= 'Z' <==> c in UPPER
    ensures '0' <= c <= '9' <==> c in DIGITS
  {
    InRow(LOWER, 'a', c);
    InRow(UPPER, 'A', c);
    InRow(DIGITS, '0', c);
  }

  /** Which characters stand in values, in identifiers, and between words. */
  lemma Alphabets(c: char)
    ensures IsValueChar(c) <==> c in LOWER + UPPER + DIGITS + ". /:"
    ensures IsIdentStart(c) <==> c in LOWER + UPPER + "_$"
    ensures IsIdentChar(c) <==> c in LOWER + UPPER + DIGITS + "_$"
    ensures IsDigit(c) <==> c in DIGITS
    ensures IsSpace(c) <==> c in " \t\n\r"
    ensures IsNewline(c) <==> c in "\n\r"
  {
    Letters(c);
  }

  // ----- words

  /** A row of single characters, with whitespace and comments in between. */
  predicate Row(ok: char -> bool, s: string, r: string)
    decreases |s|
  {
    s == r || (var y := Skip(s); y != "" && ok(y[0]) && Row(ok, y[1..], r))
  }

  /** The next thing is no such character. */
  predicate RowEnds(ok: char -> bool, r: string) {
    Skip(r) == "" || !ok(Skip(r)[0])
  }

  /** As many value characters as there are. */
  predicate IsValue(s: string, r: string) {
    && Solid(s) && RowEnds(IsValueChar, r)
    && (s == r || (s != "" && IsValueChar(s[0]) && Row(IsValueChar, s[1..], r)))
  }

  /** As many digits as there are; behind a single digit whitespace and comments belong to the number. */
  predicate IsNumber(s: string, r: string) {
    && s != "" && IsDigit(s[0])
    && var y := Skip(s[1..]);
       if y != "" && IsDigit(y[0]) then Row(IsDigit, y[1..], r) && RowEnds(IsDigit, r) else r == y
  }

  // ----- forms

  /** A literal, or the i-th pair inside. */
  datatype Symbol = T(tok: string) | N(i: nat)

  /** The pairs from i on, one after the other. */
  function Each(i: nat, n: nat): seq<Symbol>
    requires i <= n
    decreases n - i
  {
    if i == n then [] else [N(i)] + Each(i + 1, n)
  }

  /** The pairs from i on, each after a comma. */
  function EachAfterComma(i: nat, n: nat): seq<Symbol>
    requires i <= n
    decreases n - i
  {
    if i == n then [] else [T(","), N(i)] + EachAfterComma(i + 1, n)
  }

  /** A list in parentheses; the last comma is optional. */
  function ListForm(n: nat, comma: bool): seq<Symbol> {
    [T("(")]
    + (if n == 0 then [] else [N(0)] + EachAfterComma(1, n) + if comma then [T(",")] else [])
    + [T(")")]
  }

  /**
   How the pairs inside p are written.  Where an optional last part is missing, the
   space that would separate it belongs to the pair: an empty literal stands for it.
   */
  function Form(p: Pair, comma: bool): seq<Symbol> {
    var n := |p.inner|;
    match p.rule
    case File => Each(0, n)
    case Machine => [T("machine"), T("{")] + Each(0, n) + [T("}")]
    case MachineInstruction => Each(0, n) + [T(";")]
    case Instruction => Each(0, n) + [T(";")]
    case Function =>
      if n == 3 then [N(0), T("{"), N(1), T("}"), N(2)] else [N(0), T("{"), N(1), T("}"), T("")]
    case Work => if n == 2 then [N(0), N(1)] else [N(0), T("")]
    case Params => ListForm(n, comma)
    case Args => ListForm(n, comma)
    case Param => [N(0), T("="), N(1)]
    case Opt => [N(0), T("="), N(1), T(";")]
    case Dist => [T(":"), N(0), T("{")] + (if n == 0 then [] else Each(1, n)) + [T("}")]
    case Constant => [T("\""), N(0), T("\"")]
    case _ => if Word(p.rule).Some? then [T(Word(p.rule).value)] else Each(0, n)
  }

  /** The tree p derives a text that starts s. */
  predicate Derives(p: Pair, s: string)
    decreases p, 1, 0
  {
    && p.text <= s && LocalShape(p)
    && var r := s[|p.text|..];
       if p.rule == Ident then r == "" || !IsIdentChar(r[0])
       else if p.rule == Value then IsValue(s, r)
       else if p.rule == Constant && p.inner == [] then IsNumber(s, r)
       else if p.rule == EOI then p.text == "" && s == ""
       else Chain(p, Form(p, false), s, r) || Chain(p, Form(p, true), s, r)
  }

  /** The symbols of a form stand one after the other, from s to r. */
  predicate Chain(p: Pair, f: seq<Symbol>, s: string, r: string)
    decreases p, 0, |f|
  {
    if f == [] then s == r
    else
      && SymbolStands(p, f[0], s)
      && var t := s[|SymbolText(p, f[0])|..];
         if |f| == 1 then t == r else Chain(p, f[1..], Skip(t), r)
  }

  function SymbolText(p: Pair, x: Symbol): string {
    match x
    case T(tok) => tok
    case N(i) => if i < |p.inner| then p.inner[i].text else ""
  }

  predicate SymbolStands(p: Pair, x: Symbol, s: string)
    ensures SymbolStands(p, x, s) ==> SymbolText(p, x) <= s
    decreases p, 0, 0
  {
    match x
    case T(tok) => tok <= s
    case N(i) => i < |p.inner| && Derives(p.inner[i], s)
  }

  /**
   A source and its tree: the items of the file from the first thing in the source to
   its end.  A source that can start with a machine does: `machine{}` is no work unit.
   */
  predicate DerivesFile(tree: Pair, s: string) {
    && tree.rule == File && tree.text == s && LocalShape(tree) && tree.inner[|tree.inner| - 1].text == ""
    && Chain(tree, Form(tree, false), Skip(s), "")
    && !EmptyMachine(tree.inner[0])
  }

  /** A work unit without parameters and body that is called `machine`. */
  predicate EmptyMachine(p: Pair) {
    && p.rule == Expr && |p.inner| == 1 && p.inner[0].rule == Function && |p.inner[0].inner| >= 2
    && var work, body := p.inner[0].inner[0], p.inner[0].inner[1];
       |work.inner| == 1 && work.inner[0].text == "machine" && body.inner == []
  }

  // ----- chains

  lemma {:induction false} ChainAppend(p: Pair, f: seq<Symbol>, g: seq<Symbol>, s: string, m: string, r: string)
    requires f != [] && g != [] && Chain(p, f, s, m) && Chain(p, g, Skip(m), r)
    ensures Chain(p, f + g, s, r)
    decreases |f|
  {
    hide Grammar.Skip, SymbolStands;
    var t := s[|SymbolText(p, f[0])|..];
    assert (f + g)[0] == f[0] && (f + g)[1..] == f[1..] + g;
    if |f| > 1 {
      ChainAppend(p, f[1..], g, Skip(t), m, r);
    } else {
      assert f[1..] + g == g;
    }
  }

  lemma {:induction false} ChainSplit(p: Pair, f: seq<Symbol>, g: seq<Symbol>, s: string, r: string) returns (m: string)
    requires f != [] && g != [] && Chain(p, f + g, s, r)
    ensures Chain(p, f, s, m) && Chain(p, g, Skip(m), r)
    decreases |f|
  {
    hide Grammar.Skip, SymbolStands;
    var t := s[|SymbolText(p, f[0])|..];
    assert (f + g)[0] == f[0] && (f + g)[1..] == f[1..] + g;
    if |f| > 1 {
      m := ChainSplit(p, f[1..], g, Skip(t), r);
    } else {
      assert f[1..] + g == g;
      m := t;
    }
  }

  /** A single symbol. */
  lemma ChainOne(p: Pair, x: Symbol, s: string, r: string)
    ensures Chain(p, [x], s, r) <==> SymbolStands(p, x, s) && s[|SymbolText(p, x)|..] == r
  {
  }

  /** A symbol in front of others. */
  lemma ChainCons(p: Pair, x: Symbol, f: seq<Symbol>, s: string, r: string)
    requires f != []
    ensures Chain(p, [x] + f, s, r) <==> SymbolStands(p, x, s) && Chain(p, f, Skip(s[|SymbolText(p, x)|..]), r)
  {
    hide Grammar.Skip, SymbolStands;
    assert ([x] + f)[0] == x && ([x] + f)[1..] == f;
  }
}
