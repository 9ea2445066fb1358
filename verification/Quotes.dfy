/**
 Padding inside the quotes of a constant, in arbitrary text: whatever stands between
 the quotes and whatever follows, padding before the closing quote changes neither
 the value nor the rest of the input, unless it is a comment directly behind a slash.
 (Tokens.QuotePadding is about padding after the opening quote.)
 */
module Quotes {
  import opened Common
  import opened Grammar
  import opened Shape
  import opened Printer
  import opened Tokens

  /** A closing quote and what follows it. */
  function CloseQuote(rest: string): string {
    "\"" + rest
  }

  lemma SkipSpaceStep(s: string)
    requires s != "" && IsSpace(s[0])
    ensures Skip(s) == Skip(s[1..])
  {
  }

  lemma SkipComment(s: string)
    requires "//" <= s
    ensures Skip(s) == Skip(SkipLine(s[2..]))
  {
  }

  /** A comment that is not closed before the quote swallows it. */
  lemma {:induction false} SkipLinePast(v: string, k: string)
    requires SkipLine(v) == ""
    ensures SkipLine(v + k) == SkipLine(k)
  {
    if v == "" {
      assert v + k == k;
    } else {
      assert (v + k)[1..] == v[1..] + k;
      SkipLinePast(v[1..], k);
    }
  }

  /** u split in two: x is gone, c is left. */
  predicate Leaves(u: string, c: string) {
    |c| <= |u| && u[|u| - |c|..] == c
  }

  lemma LeavesStep(u: string, d: nat, c: string)
    requires d <= |u| && Leaves(u[d..], c)
    ensures Leaves(u, c)
  {
  }

  lemma LeavesTwice(s: string, t: string, r: string)
    requires Leaves(s, t) && Leaves(t, r)
    ensures Leaves(s, r)
  {
    LeavesStep(s, |s| - |t|, r);
  }

  lemma SkipLeaves(s: string)
    ensures Leaves(s, Skip(s))
  {
    SkipSuffix(s);
  }

  lemma TailLeaves(s: string)
    requires s != ""
    ensures Leaves(s, s[1..])
  {
  }

  /** What is left in front of the quote, once padding is put before the quote. */
  function Moved(c: string, p: string, q: string): string {
    if c == "" then q else c + (p + q)
  }

  predicate Inserted(u: string, c: string, p: string, q: string) {
    && Leaves(u, c)
    && Skip(u + q) == c + q
    && Skip(u + (p + q)) == Moved(c, p, q)
  }

  lemma SlashAtEnd(u: string, c: string, p: string)
    requires Leaves(u, c)
    ensures Swallows(c, p) ==> Swallows(u, p)
    ensures c != "" ==> (Swallows(c, p) <==> Swallows(u, p))
  {
    assert c != "" ==> u[|u| - 1] == c[|c| - 1];
  }

  /** Text that starts with something solid is not skipped, padded or not. */
  lemma SolidInsert(u: string, p: string, rest: string)
    requires SkipText(p) && u != "" && Solid(u) && !Swallows(u, p)
    ensures Inserted(u, u, p, CloseQuote(rest))
  {
    hide Printer.SkipText, Grammar.Skip;
    var q := CloseQuote(rest);
    var s, t := u + q, u + (p + q);
    SkipTextStart(p);
    assert s[0] == u[0] && t[0] == u[0];
    assert |u| >= 2 ==> s[1] == u[1] && t[1] == u[1];
    assert p + q != "" && ((p + q)[0] == '"' || (p != "" && (p + q)[0] == p[0]));
    assert |u| == 1 ==> s[1] == q[0] && t[1] == (p + q)[0];
    SolidSkip(s);
    SolidSkip(t);
  }

  lemma SpaceInsert(u: string, c: string, p: string, q: string)
    requires u != "" && IsSpace(u[0]) && Inserted(u[1..], c, p, q)
    ensures Inserted(u, c, p, q)
  {
    hide Grammar.Skip;
    assert (u + q)[1..] == u[1..] + q && (u + (p + q))[1..] == u[1..] + (p + q);
    SkipSpaceStep(u + q);
    SkipSpaceStep(u + (p + q));
    LeavesStep(u, 1, c);
  }

  lemma CommentInsert(u: string, c: string, p: string, q: string)
    requires "//" <= u && SkipLine(u[2..]) != "" && Inserted(SkipLine(u[2..]), c, p, q)
    ensures Inserted(u, c, p, q)
  {
    hide Grammar.Skip, Grammar.SkipLine;
    var v := u[2..];
    assert (u + q)[2..] == v + q && (u + (p + q))[2..] == v + (p + q);
    SkipComment(u + q);
    SkipComment(u + (p + q));
    SkipLineAppend(v, q);
    SkipLineAppend(v, p + q);
    SkipLineSuffix(v);
    LeavesStep(v, |v| - |SkipLine(v)|, c);
    LeavesStep(u, 2, c);
  }

  lemma NothingInsert(p: string, rest: string)
    requires SkipText(p)
    ensures Inserted("", "", p, CloseQuote(rest))
  {
    var q := CloseQuote(rest);
    assert "" + q == q && "" + (p + q) == p + q;
    SolidSkip(q);
    SkipPad(p, q);
  }

  /** How much is left when a leading space or comment is dropped. */
  lemma SkipShrinks(u: string, q: string)
    ensures u != "" && IsSpace(u[0]) ==> Skip(u + q) == Skip(u[1..] + q)
    ensures "//" <= u ==> Skip(u + q) == Skip(SkipLine(u[2..] + q))
    ensures "//" <= u && SkipLine(u[2..]) != "" ==> SkipLine(u[2..] + q) == SkipLine(u[2..]) + q
  {
    hide Grammar.Skip, Grammar.SkipLine;
    if u != "" && IsSpace(u[0]) {
      assert (u + q)[1..] == u[1..] + q;
      SkipSpaceStep(u + q);
    }
    if "//" <= u {
      assert (u + q)[2..] == u[2..] + q;
      SkipComment(u + q);
      if SkipLine(u[2..]) != "" {
        SkipLineAppend(u[2..], q);
      }
    }
  }

  /** Skipping that stops at or before the quote stops at the same place when padding is put before the quote. */
  lemma {:induction false} SkipInsert(u: string, p: string, rest: string) returns (c: string)
    requires SkipText(p) && !Swallows(u, p) && |Skip(u + CloseQuote(rest))| >= |CloseQuote(rest)|
    ensures Inserted(u, c, p, CloseQuote(rest))
    decreases |u|
  {
    hide Printer.SkipText, Grammar.Skip, Grammar.SkipLine, Inserted, CloseQuote, Swallows;
    var q := CloseQuote(rest);
    SkipShrinks(u, q);
    if u == "" {
      NothingInsert(p, rest);
      c := "";
    } else if IsSpace(u[0]) {
      SlashAtEnd(u, u[1..], p);
      c := SkipInsert(u[1..], p, rest);
      SpaceInsert(u, c, p, q);
    } else if "//" <= u {
      CommentCloses(u[2..], rest);
      SkipLineSuffix(u[2..]);
      SlashAtEnd(u, SkipLine(u[2..]), p);
      c := SkipInsert(SkipLine(u[2..]), p, rest);
      CommentInsert(u, c, p, q);
    } else {
      c := u;
      SolidInsert(u, p, rest);
    }
  }

  /** If skipping a comment does not swallow the quote, the comment ends before it. */
  lemma CommentCloses(v: string, rest: string)
    requires |Skip(SkipLine(v + CloseQuote(rest)))| >= |CloseQuote(rest)|
    ensures SkipLine(v) != ""
  {
    var q := CloseQuote(rest);
    assert q[1..] == rest;
    if SkipLine(v) == "" {
      SkipLinePast(v, q);
    }
  }

  predicate TailInserted(u: string, c: string, p: string, q: string) {
    && Leaves(u, c)
    && ValueTail(u + q) == c + q
    && ValueTail(u + (p + q)) == c + (p + q)
  }

  lemma NothingLeft(u: string, q: string)
    ensures Leaves(u, u) && "" + q == q
  {
  }

  lemma {:induction false} ValueTailInsert(u: string, p: string, rest: string) returns (c: string)
    requires SkipText(p) && !Swallows(u, p) && Skip(ValueTail(u + CloseQuote(rest))) == CloseQuote(rest)
    ensures TailInserted(u, c, p, CloseQuote(rest))
    decreases |u|
  {
    hide Grammar.Skip, Printer.SkipText, Printer.Swallows, Leaves;
    var q := CloseQuote(rest);
    var y := Skip(u + q);
    var b := SkipInsert(u, p, rest);
    NothingLeft(u, q);
    if IsValueChar(y[0]) {
      assert b != "";
      assert y[1..] == b[1..] + q && (b + (p + q))[1..] == b[1..] + (p + q);
      TailLeaves(b);
      SlashAtEnd(u, b, p);
      SlashAtEnd(b, b[1..], p);
      c := ValueTailInsert(b[1..], p, rest);
      LeavesTwice(b, b[1..], c);
      LeavesTwice(u, b, c);
    } else {
      c := u;
    }
  }

  /** The text between two points does not depend on what follows them. */
  lemma SameSpan(b: string, c: string, k: string, k': string)
    requires Leaves(b, c)
    ensures Spanning(Value, b + k, c + k, []) == Spanning(Value, b + k', c + k', [])
  {
    var n := |b| - |c|;
    assert (b + k)[..n] == b[..n] == (b + k')[..n];
  }

  /** A non-empty value, read with and without padding before the quote. */
  lemma ItemsInsert(b: string, p: string, rest: string) returns (c: string)
    requires SkipText(p) && b != "" && IsValueChar(b[0]) && !Swallows(b, p)
    requires Skip(ValueRest(b + CloseQuote(rest))) == CloseQuote(rest)
    ensures var q := CloseQuote(rest);
            && Leaves(b, c)
            && ValueRest(b + q) == c + q && ValueRest(b + (p + q)) == c + (p + q)
            && Skip(c + (p + q)) == q
  {
    hide Grammar.Skip, Printer.SkipText, Grammar.ValueTail;
    var q := CloseQuote(rest);
    assert (b + q)[1..] == b[1..] + q && (b + (p + q))[1..] == b[1..] + (p + q);
    assert (b + q)[0] == b[0] && (b + (p + q))[0] == b[0];
    SlashAtEnd(b, b[1..], p);
    c := ValueTailInsert(b[1..], p, rest);
    LeavesStep(b, 1, c);
    SlashAtEnd(b, c, p);
    var d := SkipInsert(c, p, rest);
    assert d == "" by { assert |d + q| == |q|; }
  }

  /** The value and what follows it, with padding put before the closing quote. */
  lemma ValueInsert(a: string, p: string, rest: string)
    requires SkipText(p) && !Swallows(a, p) && Skip(ValueRest(Skip(a + CloseQuote(rest)))) == CloseQuote(rest)
    ensures var v, v' := Skip(a + CloseQuote(rest)), Skip(a + (p + CloseQuote(rest)));
            PValue(v') == PValue(v) && Skip(ValueRest(v')) == CloseQuote(rest)
  {
    hide Grammar.Skip, Printer.SkipText, Grammar.ValueTail, Grammar.Spanning, Leaves;
    var q := CloseQuote(rest);
    var v := Skip(a + q);
    var b := SkipInsert(a, p, rest);
    SolidSkip(q);
    if b == "" {
      assert v == q;
    } else {
      SolidSkip(v);
      SlashAtEnd(a, b, p);
      assert v[0] == b[0];
      assert IsValueChar(b[0]) by { assert !IsValueChar(v[0]) ==> |v| == |q|; }
      var c := ItemsInsert(b, p, rest);
      SameSpan(b, c, q, p + q);
    }
  }

  // ----- a comment directly behind a slash

  /** Skipping goes over a swallowed slash that is all that is left. */
  lemma SolidCut(u: string, p: string, rest: string)
    requires SkipText(p) && Swallows(u, p) && Solid(u)
    ensures var q := CloseQuote(rest);
            Skip(u + q) == u + q && Skip(u + (p + q)) == if u == "/" then q else u + (p + q)
  {
    hide Printer.SkipText, Grammar.Skip;
    var q := CloseQuote(rest);
    var s, t := u + q, u + (p + q);
    assert s[0] == u[0] && t[0] == u[0];
    if |u| == 1 {
      assert s[1] == q[0];
      SlashedComment(p);
      assert t == ("/" + p) + q;
      SkipPad("/" + p, q);
      SolidSkip(q);
    } else {
      assert s[1] == u[1] && t[1] == u[1];
      SolidSkip(t);
    }
    SolidSkip(s);
  }

  lemma {:induction false} SkipCut(u: string, p: string, rest: string) returns (c: string)
    requires SkipText(p) && Swallows(u, p) && |Skip(u + CloseQuote(rest))| >= |CloseQuote(rest)|
    ensures Leaves(u, c) && Swallows(c, p)
    ensures var q := CloseQuote(rest);
            Skip(u + q) == c + q && Skip(u + (p + q)) == if c == "/" then q else c + (p + q)
    decreases |u|
  {
    hide Printer.SkipText, Grammar.Skip, Grammar.SkipLine, CloseQuote, Swallows;
    var q := CloseQuote(rest);
    SkipShrinks(u, q);
    SkipShrinks(u, p + q);
    NothingSwallowed(p);
    if IsSpace(u[0]) {
      assert u[1..] != "" by { SpaceIsNoSlash(u, p); }
      SlashAtEnd(u, u[1..], p);
      c := SkipCut(u[1..], p, rest);
      LeavesStep(u, 1, c);
    } else if "//" <= u {
      CommentCloses(u[2..], rest);
      SkipLineSuffix(u[2..]);
      SlashAtEnd(u, SkipLine(u[2..]), p);
      c := SkipCut(SkipLine(u[2..]), p, rest);
      LeavesStep(u[2..], |u[2..]| - |SkipLine(u[2..])|, c);
      LeavesStep(u, 2, c);
    } else {
      c := u;
      SolidCut(u, p, rest);
    }
  }

  lemma NothingSwallowed(p: string)
    ensures !Swallows("", p)
  {
  }

  lemma SpaceIsNoSlash(u: string, p: string)
    requires u != "" && IsSpace(u[0]) && Swallows(u, p)
    ensures u[1..] != ""
  {
  }

  /** The value ends before the slash instead of behind it, and what follows is skipped all the same. */
  lemma {:induction false} ValueTailCut(u: string, p: string, rest: string)
    requires SkipText(p) && Swallows(u, p) && Skip(ValueTail(u + CloseQuote(rest))) == CloseQuote(rest)
    ensures var q := CloseQuote(rest);
            && ValueTail(u + q) == q
            && |ValueTail(u + (p + q))| > |p + q|
            && Skip(ValueTail(u + (p + q))) == q
    decreases |u|
  {
    hide Grammar.Skip, Printer.SkipText;
    var q := CloseQuote(rest);
    var c := SkipCut(u, p, rest);
    assert (c + q)[0] == c[0] && (c + q)[1..] == c[1..] + q;
    assert c == "/" ==> c[1..] == "";
    SolidSkip(q);
    if c == "/" {
      assert c[1..] + q == q;
    } else if IsValueChar(c[0]) {
      assert (c + (p + q))[1..] == c[1..] + (p + q);
      LongerThanSlash(c, p);
      SlashAtEnd(c, c[1..], p);
      ValueTailCut(c[1..], p, rest);
    }
  }

  lemma LongerThanSlash(c: string, p: string)
    requires Swallows(c, p) && c != "/"
    ensures c[1..] != ""
  {
  }

  lemma ItemsCut(b: string, p: string, rest: string)
    requires SkipText(p) && Swallows(b, p) && IsValueChar(b[0]) && b != "/"
    requires Skip(ValueRest(b + CloseQuote(rest))) == CloseQuote(rest)
    ensures var q := CloseQuote(rest);
            && ValueRest(b + q) == q
            && |ValueRest(b + (p + q))| > |p + q|
            && Skip(ValueRest(b + (p + q))) == q
  {
    hide Grammar.Skip, Printer.SkipText, Grammar.ValueTail;
    var q := CloseQuote(rest);
    assert (b + q)[1..] == b[1..] + q && (b + (p + q))[1..] == b[1..] + (p + q);
    assert (b + q)[0] == b[0] && (b + (p + q))[0] == b[0];
    LongerThanSlash(b, p);
    SlashAtEnd(b, b[1..], p);
    ValueTailCut(b[1..], p, rest);
  }

  lemma ValueLength(v: string)
    ensures |PValue(v).text| == |v| - |ValueRest(v)|
  {
  }

  lemma ValueLost(a: string, p: string, rest: string)
    requires SkipText(p) && Swallows(a, p) && Skip(ValueRest(Skip(a + CloseQuote(rest)))) == CloseQuote(rest)
    ensures var v, v' := Skip(a + CloseQuote(rest)), Skip(a + (p + CloseQuote(rest)));
            |PValue(v').text| < |PValue(v).text| && Skip(ValueRest(v')) == CloseQuote(rest)
  {
    hide Grammar.Skip, Printer.SkipText, Grammar.ValueTail, Leaves, Grammar.PValue;
    var q := CloseQuote(rest);
    var v := Skip(a + q);
    var b := SkipCut(a, p, rest);
    SolidSkip(q);
    SolidSkip(v);
    ValueLength(v);
    ValueLength(Skip(a + (p + q)));
    assert v[0] == b[0];
    assert IsValueChar(b[0]) by { assert !IsValueChar(v[0]) ==> |v| == |q|; }
    if b == "/" {
      assert v[1..] == q;
      QuoteEndsValue(rest);
    } else {
      ItemsCut(b, p, rest);
    }
  }

  lemma QuoteEndsValue(rest: string)
    ensures ValueTail(CloseQuote(rest)) == CloseQuote(rest)
  {
    SolidSkip(CloseQuote(rest));
  }

  /**
   Padding before the closing quote of any constant: it is still read, up to the same
   place, and its value stays the same exactly when the padding is no comment directly
   behind a slash.
   */
  lemma PaddingBeforeQuote(a: string, p: string, rest: string)
    requires SkipText(p)
    requires PQuoted("\"" + (a + CloseQuote(rest))).Done? && PQuoted("\"" + (a + CloseQuote(rest))).rest == rest
    ensures var plain, padded := PQuoted("\"" + (a + CloseQuote(rest))), PQuoted("\"" + (a + (p + CloseQuote(rest))));
            && padded.Done? && padded.rest == rest
            && (padded.pair.inner == plain.pair.inner <==> !Swallows(a, p))
  {
    hide Grammar.Skip, Printer.SkipText, Grammar.ValueRest, Grammar.PValue, Grammar.Lit, Swallows;
    var q := CloseQuote(rest);
    AfterQuote(a + q);
    AfterQuote(a + (p + q));
    AfterQuote(rest);
    ClosedBy(ValueRest(Skip(a + q)), rest);
    if Swallows(a, p) {
      ValueLost(a, p, rest);
    } else {
      ValueInsert(a, p, rest);
    }
  }

  /** Only the quote that closes the constant leaves `rest`. */
  lemma ClosedBy(r: string, rest: string)
    requires Lit("\"", Skip(r)) == Some(rest)
    ensures Skip(r) == CloseQuote(rest)
  {
    var s := Skip(r);
    assert s == s[..1] + s[1..];
  }
}
