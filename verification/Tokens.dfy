/** How the parser reads single printed tokens: skipping, identifiers, values and constants. */
module Tokens {
  import opened Common
  import opened Grammar
  import opened Shape
  import opened Printer
  import Decimal

  // ----- skipping

  lemma {:induction false} SkipLineAppend(s: string, k: string)
    requires SkipLine(s) != ""
    ensures SkipLine(s + k) == SkipLine(s) + k
  {
    if !IsNewline(s[0]) {
      assert (s + k)[1..] == s[1..] + k;
      SkipLineAppend(s[1..], k);
    }
  }

  /** Skip text in front changes nothing. */
  lemma {:induction false} SkipPad(p: string, k: string)
    requires SkipText(p)
    ensures Skip(p + k) == Skip(k)
    decreases |p|
  {
    if p == "" {
      assert p + k == k;
    } else if IsSpace(p[0]) {
      assert (p + k)[1..] == p[1..] + k;
      SkipPad(p[1..], k);
    } else {
      var r := p[2..];
      assert (p + k)[2..] == r + k;
      SkipLineAppend(r, k);
      SkipPad(SkipLine(r), k);
    }
  }

  lemma SkipPadded(t: string, w: Layout, k: string)
    requires IsLayout(w)
    ensures Skip(Padded(t, w, k)) == Skip(k)
    ensures Solid(k) ==> Skip(Padded(t, w, k)) == k
  {
    assert Separates(w.pad(t, k), t, k);
    if k == "" {
      assert Padded(t, w, k) == w.pad(t, k);
    } else {
      SkipPad(w.pad(t, k), k);
    }
  }

  /** What is skipped to the end is empty or starts with whitespace or a slash. */
  lemma SkippedStart(p: string)
    requires Skip(p) == "" || SkipText(p)
    ensures p == "" || IsSpace(p[0]) || "//" <= p
  {
  }

  /** The first character after a token is whitespace, the slash of a comment or the start of what follows. */
  lemma PaddedStart(t: string, w: Layout, k: string)
    requires IsLayout(w)
    ensures var r := Padded(t, w, k);
            r == k || (r != "" && (IsSpace(r[0]) || (r[0] == '/' && !EndsInSlash(t))))
  {
    var p := w.pad(t, k);
    assert Separates(p, t, k);
    SkippedStart(p);
    assert p == "" ==> Padded(t, w, k) == k;
  }

  // ----- literals

  lemma LitTok(t: string, w: Layout, k: string)
    ensures Lit(t, Tok(t, w, k)) == Some(Padded(t, w, k))
  {
  }

  // ----- identifiers

  predicate Stops(k: string) {
    k == "" || !IsIdentChar(k[0])
  }

  lemma {:induction false} IdentTailStops(t: string, r: string)
    requires (forall i :: 0 <= i < |t| ==> IsIdentChar(t[i])) && Stops(r)
    ensures IdentTail(t + r) == r
  {
    if t == "" {
      assert t + r == r;
    } else {
      assert (t + r)[1..] == t[1..] + r;
      IdentTailStops(t[1..], r);
    }
  }

  lemma IdentRead(t: string, w: Layout, k: string)
    requires IsIdentText(t) && IsLayout(w) && Stops(k)
    ensures PIdent(Tok(t, w, k)) == Done(Pair(Ident, t, []), Padded(t, w, k))
    ensures Solid(Tok(t, w, k))
  {
    PaddedStart(t, w, k);
    var s := Tok(t, w, k);
    assert s[1..] == t[1..] + Padded(t, w, k);
    IdentTailStops(t[1..], Padded(t, w, k));
  }

  // ----- values

  predicate EndsValue(k: string) {
    k != "" && !IsValueChar(k[0]) && Solid(k)
  }

  /** A suffix of a value's text. */
  predicate ValuePart(t: string) {
    && (t != "" ==> !IsSpace(t[|t| - 1]))
    && (forall i :: 0 <= i < |t| ==> IsValueChar(t[i]) || IsSpace(t[i]))
    && (forall i :: 0 <= i < |t| - 1 ==> !(t[i] == '/' && t[i + 1] == '/'))
  }

  /** The text after leading whitespace. */
  lemma {:induction false} SpacesInPart(t: string, r: string)
    requires ValuePart(t) && t != ""
    ensures SkipSpaces(t) != "" && ValuePart(SkipSpaces(t))
    ensures SkipSpaces(t + r) == SkipSpaces(t) + r
  {
    if IsSpace(t[0]) {
      assert t[|t| - 1] == t[1..][|t| - 2];
      assert (t + r)[1..] == t[1..] + r;
      SpacesInPart(t[1..], r);
    } else {
      assert SkipSpaces(t) == t;
    }
  }

  /** No comment starts inside a value's text, nor across its end unless a slash meets a slash. */
  lemma NoCommentHere(u: string, r: string)
    requires ValuePart(u) && u != "" && !(EndsInSlash(u) && r != "" && r[0] == '/')
    ensures !("//" <= u + r)
  {
    if |u| == 1 && r != "" {
      assert (u + r)[1] == r[0];
    } else if |u| >= 2 {
      assert (u + r)[0] == u[0] && (u + r)[1] == u[1];
    }
  }

  lemma SkipStops(s: string)
    requires !("//" <= SkipSpaces(s))
    ensures Skip(s) == SkipSpaces(s)
  {
  }

  /** What follows a value: only skip text up to k, which neither continues the value nor its last slash. */
  predicate Follows(t: string, r: string, k: string) {
    Skip(r) == k && EndsValue(k) && !(EndsInSlash(t) && r != "" && r[0] == '/')
  }

  lemma {:induction false} SpacesKeepEnd(t: string)
    requires ValuePart(t) && t != ""
    ensures SkipSpaces(t) != "" && EndsInSlash(SkipSpaces(t)) == EndsInSlash(t)
  {
    if IsSpace(t[0]) {
      assert t[|t| - 1] == t[1..][|t| - 2];
      SpacesKeepEnd(t[1..]);
    }
  }

  /** Inside a value, skipping stops at the next item. */
  lemma SkipInPart(t: string, r: string, k: string)
    requires ValuePart(t) && t != "" && Follows(t, r, k)
    ensures Skip(t + r) == SkipSpaces(t) + r
    ensures SkipSpaces(t) != "" && ValuePart(SkipSpaces(t)) && IsValueChar(SkipSpaces(t)[0])
    ensures Follows(SkipSpaces(t)[1..], r, k)
  {
    hide Grammar.Skip;
    SpacesInPart(t, r);
    SpacesKeepEnd(t);
    var u := SkipSpaces(t);
    NoCommentHere(u, r);
    SkipStops(t + r);
    assert |u| > 1 ==> u[1..][|u| - 2] == u[|u| - 1];
  }

  lemma {:induction false} ValueTailRead(t: string, r: string, k: string)
    requires ValuePart(t) && Follows(t, r, k)
    ensures ValueTail(t + r) == r
    decreases |t|
  {
    hide Grammar.Skip, Follows;
    if t == "" {
      FollowsEnds(t, r, k);
      assert t + r == r;
    } else {
      SkipInPart(t, r, k);
      var u := SkipSpaces(t);
      assert (u + r)[1..] == u[1..] + r;
      ValueTailRead(u[1..], r, k);
    }
  }

  lemma FollowsEnds(t: string, r: string, k: string)
    requires Follows(t, r, k)
    ensures Skip(r) == k && EndsValue(k)
  {
  }

  lemma ValueReadNonEmpty(t: string, r: string, k: string)
    requires IsValueText(t) && t != "" && Follows(t, r, k)
    ensures Skip(t + r) == t + r && ValueRest(t + r) == r
  {
    hide Grammar.Skip, Follows, Grammar.ValueTail;
    SkipInPart(t, r, k);
    assert SkipSpaces(t) == t;
    assert (t + r)[1..] == t[1..] + r;
    ValueTailRead(t[1..], r, k);
  }

  /** A value's text followed by skip text: read back whole. */
  lemma ValueKept(t: string, r: string, k: string)
    requires IsValueText(t) && Follows(t, r, k)
    ensures var v := Skip(t + r);
            PValue(v) == Pair(Value, t, []) && Skip(ValueRest(v)) == k
  {
    hide Grammar.Skip, Grammar.ValueTail;
    if t == "" {
      assert t + r == r;
      SolidSkip(k);
    } else {
      ValueReadNonEmpty(t, r, k);
    }
  }

  // ----- a slash swallowed by a comment

  /** A slash in front of a comment makes a longer comment. */
  lemma SlashedComment(p: string)
    requires SkipText(p) && "//" <= p
    ensures SkipText("/" + p)
  {
    var q := "/" + p;
    assert q[2..] == p[1..] && q[0] == q[1] == '/';
    assert p[1..][1..] == p[2..];
    assert p[1] == '/';
  }

  /** Reading a value stops before a slash that a comment has swallowed. */
  lemma {:induction false} TailStopsEarly(t: string, p: string, k: string)
    requires ValuePart(t) && SkipText(p) && Swallows(t, p) && EndsValue(k)
    ensures |ValueTail(t + (p + k))| > |p + k|
    decreases |t|
  {
    hide Grammar.Skip, Printer.SkipText;
    var r := p + k;
    SpacesInPart(t, r);
    SpacesKeepEnd(t);
    var u := SkipSpaces(t);
    if |u| == 1 {
      SkipToEnd(t, u, p, k);
    } else {
      assert (u + r)[0] == u[0] && (u + r)[1] == u[1];
      SkipStops(t + r);
      assert u[1..][|u| - 2] == u[|u| - 1];
      assert (u + r)[1..] == u[1..] + r;
      TailStopsEarly(u[1..], p, k);
    }
  }

  /** In front of a swallowed slash there is nothing left but skip text. */
  lemma SkipToEnd(t: string, u: string, p: string, k: string)
    requires u == "/" && SkipSpaces(t + (p + k)) == u + (p + k)
    requires SkipText(p) && "//" <= p && EndsValue(k)
    ensures Skip(t + (p + k)) == k
  {
    hide Printer.SkipText;
    SlashedComment(p);
    assert u + (p + k) == ("/" + p) + k;
    SkipPad("/" + p, k);
    SpacesFirst(t + (p + k));
    SolidSkip(k);
  }

  lemma SpacesFirst(s: string)
    ensures Skip(s) == Skip(SkipSpaces(s))
  {
    var r := SkipSpaces(s);
    assert SkipSpaces(r) == r;
  }

  lemma SolidSkip(s: string)
    requires Solid(s)
    ensures Skip(s) == s
  {
  }

  /** The part of a value that is read is cut off before a swallowed slash. */
  lemma ValueCut(t: string, p: string, k: string)
    requires IsValueText(t) && SkipText(p) && Swallows(t, p) && EndsValue(k)
    ensures |PValue(Skip(t + (p + k))).text| < |t|
  {
    hide Grammar.Skip, Printer.SkipText, Grammar.ValueTail;
    var r := p + k;
    if |t| == 1 {
      assert SkipSpaces(t + r) == t + r;
      SkipToEnd(t, t, p, k);
    } else {
      assert (t + r)[0] == t[0] && (t + r)[1] == t[1];
      SolidSkip(t + r);
      assert t[1..][|t| - 2] == t[|t| - 1];
      assert (t + r)[1..] == t[1..] + r;
      TailStopsEarly(t[1..], p, k);
    }
  }

  /** The text of a value is read back exactly when no comment stands directly behind its last slash. */
  lemma ValueReadExactly(t: string, p: string, k: string)
    requires IsValueText(t) && SkipText(p) && EndsValue(k)
    ensures PValue(Skip(t + (p + k))) == Pair(Value, t, []) <==> !Swallows(t, p)
  {
    hide Grammar.Skip, Grammar.PValue, Grammar.ValueRest, Printer.SkipText;
    if Swallows(t, p) {
      ValueCut(t, p, k);
    } else {
      SkipPad(p, k);
      SolidSkip(k);
      SkipTextStart(p);
      assert p == "" ==> p + k == k;
      ValueKept(t, p + k, k);
    }
  }

  lemma SkipTextStart(p: string)
    requires SkipText(p)
    ensures p == "" || IsSpace(p[0]) || "//" <= p
  {
  }

  /** Reading a printed value where skipping has been done: its text is kept, however it is padded. */
  lemma ValueRead(b: string, t: string, w: Layout, k: string)
    requires IsValueText(t) && IsLayout(w) && EndsValue(k)
    ensures var v := Skip(Padded(b, w, Tok(t, w, k)));
            PValue(v) == Pair(Value, t, []) && Skip(ValueRest(v)) == k
  {
    hide Grammar.Skip, IsLayout, Printer.Padded, Grammar.PValue, Grammar.ValueRest;
    SkipPadded(b, w, Tok(t, w, k));
    SkipPadded(t, w, k);
    PaddedStart(t, w, k);
    ValueKept(t, Padded(t, w, k), k);
  }

  // ----- constants

  lemma QuotedRead(t: string, w: Layout, k: string)
    requires IsValueText(t) && IsLayout(w)
    ensures var r := PConstant(PrintQuoted(t, w, k));
            && r.Done? && r.rest == Padded("\"", w, k)
            && r.pair.rule == Constant && r.pair.inner == [Pair(Value, t, [])]
  {
    hide Grammar.Skip, Grammar.ValueRest, Grammar.PValue;
    var close := Tok("\"", w, k);
    LitTok("\"", w, Tok(t, w, close));
    ValueRead("\"", t, w, close);
    LitTok("\"", w, k);
  }

  lemma AfterQuote(x: string)
    ensures Lit("\"", "\"" + x) == Some(x)
  {
    assert ("\"" + x)[1..] == x;
  }

  /** Padding right after the opening quote is invisible, whatever follows it. */
  lemma QuotePadding(p: string, x: string)
    requires SkipText(p)
    ensures var plain, padded := PQuoted("\"" + x), PQuoted("\"" + p + x);
            && (plain.Done? <==> padded.Done?)
            && (plain.Done? ==> padded.rest == plain.rest && padded.pair.inner == plain.pair.inner)
  {
    hide Grammar.Skip, Grammar.ValueRest, Grammar.PValue, Grammar.Lit, Printer.SkipText;
    SkipPad(p, x);
    assert Lit("\"", "\"" + x) == Some(x) by { AfterQuote(x); }
    assert "\"" + p + x == "\"" + (p + x);
    AfterQuote(p + x);
  }

  lemma {:induction false} DigitTailRead(t: string, r: string)
    requires Decimal.AllDigits(t)
    requires Skip(r) == "" || !IsDigit(Skip(r)[0])
    ensures DigitTail(t + r) == r
  {
    if t == "" {
      assert t + r == r;
    } else {
      assert Solid(t + r) && Skip(t + r) == t + r;
      assert (t + r)[1..] == t[1..] + r;
      DigitTailRead(t[1..], r);
    }
  }

  /** A number of two or more digits keeps only its digits. */
  lemma DigitsRead(t: string, w: Layout, k: string)
    requires Decimal.AllDigits(t) && |t| >= 2 && IsLayout(w)
    requires Solid(k) && (k == "" || !IsDigit(k[0]))
    ensures PDigits(Tok(t, w, k)) == Done(Pair(Constant, t, []), Padded(t, w, k))
  {
    var r := Padded(t, w, k);
    var s := Tok(t, w, k);
    SkipPadded(t, w, k);
    assert s[1..] == t[1..] + r;
    assert Solid(s[1..]) && Skip(s[1..]) == s[1..];
    assert s[1..][1..] == t[2..] + r;
    DigitTailRead(t[2..], r);
  }

  /** A single digit keeps all the padding that follows it. */
  lemma DigitRead(d: char, p: string, k: string)
    requires IsDigit(d) && SkipText(p)
    requires Solid(k) && (k == "" || !IsDigit(k[0]))
    ensures PDigits([d] + p + k) == Done(Pair(Constant, [d] + p, []), k)
  {
    var s := [d] + p + k;
    assert s[1..] == p + k;
    SkipPad(p, k);
    assert s[..|s| - |k|] == [d] + p;
  }
}
