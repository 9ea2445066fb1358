/** Sources that show where the program does something other than one might expect of it. */
module Sources {
  import opened Common
  import opened Grammar
  import opened Shape
  import opened Builder
  import opened Printer
  import opened Tokens
  import opened Lookahead
  import opened Phrases
  import opened RoundTrip
  import opened Completeness
  import A = Ast
  import Decimal

  // ----- a comment swallows a slash

  /** Nothing between tokens, but the given padding behind one token. */
  function Sparse(token: string, p: string): Layout {
    Layout((t, k) => if t == token then p else "", k => false)
  }

  lemma SparseIsLayout(token: string, p: string)
    requires SkipText(p) && !Swallows(token, p)
    ensures IsLayout(Sparse(token, p))
  {
    assert p + "" == p;
    SkipPad(p, "");
  }

  lemma CommentIsSkipped(t: string)
    requires t == "//c\n" || t == "///c\n"
    ensures SkipText(t)
  {
    if t == "//c\n" {
      assert t[2..] == "c\n" && "c\n"[1..] == "\n";
    } else {
      assert t[2..] == "/c\n" && "/c\n"[1..] == "c\n" && "c\n"[1..] == "\n";
    }
    assert SkipLine("c\n") == "\n";
    assert "\n"[1..] == "";
  }

  lemma SpacedIsSkipped(p: string)
    requires SkipText(p)
    ensures SkipText(" " + p)
  {
    assert (" " + p)[1..] == p;
  }

  /** A work unit with one parameter and nothing to do. */
  function OneParameter(value: string): Script {
    Script(None, [WorkSource("a", [("d", value)], [], None)])
  }

  lemma OneParameterRead(read: ReadF64, value: string, w: Layout)
    requires IsValueText(value) && IsLayout(w)
    ensures ParseInstructions(read, Print(OneParameter(value), w))
         == Some(Ok([A.Node.Work("a", map["d" := value], [], None)]))
  {
    hide IsLayout, Printer.Print, Builder.ParseInstructions, IsValueText;
    var s := OneParameter(value);
    var u := s.works[0];
    assert s.works == [u];
    assert ValidEntry(("d", value));
    RoundTrip.RoundTrip(read, s, w);
    assert [("d", value)][..0] == [];
    assert ToMap([("d", value)]) == map["d" := value];
    assert Bodies([]) == [];
    assert WorksMeaning(read, s.works) == [WorkMeaning(read, u)];
  }

  /** Tokens other than the padded one stand directly in front of what follows. */
  lemma Bare(t: string, token: string, p: string, k: string)
    ensures t != token ==> Tok(t, Sparse(token, p), k) == t + k && Padded(t, Sparse(token, p), k) == k
    ensures Tok(token, Sparse(token, p), k) == token + p + k
  {
    assert "" + k == k;
    assert token + (p + k) == token + p + k;
  }

  lemma ParametersPrinted(value: string, p: string, k: string)
    requires value != "" && value[0] == '/'
    ensures PrintParams([("d", value)], Sparse(value, p), k) == "(d=" + value + p + ")" + k
  {
    hide Printer.Tok, Sparse;
    var w := Sparse(value, p);
    var close := ")" + k;
    Bare(")", value, p, k);
    Bare(value, value, p, close);
    Bare("=", value, p, value + p + close);
    Bare("d", value, p, "=" + (value + p + close));
    Bare("(", value, p, "d" + ("=" + (value + p + close)));
    assert !w.comma(close) by { NoCommas(value, p, close); }
    assert [("d", value)][1..] == [];
    assert "(" + ("d" + ("=" + (value + p + close))) == "(d=" + value + p + ")" + k;
  }

  lemma NoCommas(token: string, p: string, k: string)
    ensures !Sparse(token, p).comma(k)
  {
  }

  lemma OneWorkPrinted(u: WorkSource, w: Layout)
    ensures PrintWorks([u], w) == PrintWork(u, w, "") && PrintWorks([], w) == ""
  {
    hide Printer.PrintWork;
    assert [u][1..] == [];
  }

  /** The source of a work unit with one parameter, padded behind the value only. */
  lemma OneParameterPrinted(value: string, p: string)
    requires value != "" && value[0] == '/'
    ensures Print(OneParameter(value), Sparse(value, p)) == "a(d=" + value + p + "){}"
  {
    hide Printer.Tok, Sparse, Printer.PrintParams, Printer.Padded;
    var w := Sparse(value, p);
    var u := WorkSource("a", [("d", value)], [], None);
    Bare("}", value, p, "");
    Bare("{", value, p, "}");
    ParametersPrinted(value, p, "{}");
    var params := "(d=" + value + p + ")" + "{}";
    Bare("a", value, p, params);
    Bare("", value, p, "a" + params);
    assert "}" + "" == "}" && "{" + "}" == "{}";
    assert PrintWork(u, w, "") == "a" + params;
    OneWorkPrinted(u, w);
    assert "a" + params == "a(d=" + value + p + "){}";
  }

  /** The slash in front of the comment is lost; a space in between saves it. */
  lemma SlashLost(read: ReadF64)
    ensures ParseInstructions(read, "a(d=/x///c\n){}") == Some(Ok([A.Node.Work("a", map["d" := "/x"], [], None)]))
    ensures ParseInstructions(read, "a(d=/x/ //c\n){}") == Some(Ok([A.Node.Work("a", map["d" := "/x/"], [], None)]))
  {
    hide Builder.ParseInstructions, IsLayout, Printer.Print, OneParameter, Sparse;
    CommentIsSkipped("///c\n");
    SparseIsLayout("/x", "///c\n");
    OneParameterRead(read, "/x", Sparse("/x", "///c\n"));
    OneParameterPrinted("/x", "///c\n");
    assert "a(d=" + "/x" + "///c\n" + "){}" == "a(d=/x///c\n){}";
    CommentIsSkipped("//c\n");
    SpacedIsSkipped("//c\n");
    assert " " + "//c\n" == " //c\n";
    SparseIsLayout("/x/", " //c\n");
    OneParameterRead(read, "/x/", Sparse("/x/", " //c\n"));
    OneParameterPrinted("/x/", " //c\n");
    assert "a(d=" + "/x/" + " //c\n" + "){}" == "a(d=/x/ //c\n){}";
  }

  // ----- the target of a profile is taken as it stands

  function OneProfile(text: string): Script {
    Script(Some([MachineSource.Profile(A.Const(text))]), [])
  }

  /** A quoted argument as it stands in the source: both quotes and the padding inside them. */
  lemma RawConst(text: string, w: Layout, k: string)
    ensures var close := Tok("\"", w, k);
            RawText(A.Const(text), w, k) == "\"" + w.pad("\"", Tok(text, w, close)) + text + w.pad(text, close) + "\""
  {
    var close := Tok("\"", w, k);
    var shown := "\"" + w.pad("\"", Tok(text, w, close)) + text + w.pad(text, close) + "\"";
    var s := PrintQuoted(text, w, k);
    assert s == shown + Padded("\"", w, k);
    assert s[..|s| - |Padded("\"", w, k)|] == shown;
  }

  lemma OneInstruction(m: MachineSource, w: Layout, k: string)
    ensures PrintMInstructions([m], w, k) == PrintMInstruction(m, w, k)
    ensures MMeanings([m], w, k) == [MMeaning(m, w, k)]
  {
    hide MMeaning, Printer.PrintMInstruction;
    assert [m][1..] == [];
  }

  /** A script that is nothing but a machine with one instruction. */
  lemma OneInstructionRead(read: ReadF64, m: MachineSource, w: Layout)
    requires ValidMInstruction(m) && IsLayout(w)
    ensures var s := Script(Some([m]), []);
            var r := MMeaning(m, w, Tok("}", w, ""));
            ParseInstructions(read, Print(s, w)) == Some(if r.Ok? then Ok([A.Node.Machine([r.value])]) else Panic)
  {
    hide IsLayout, Printer.Print, Builder.ParseInstructions, ValidMInstruction, MMeaning, Builder.Collect;
    var s := Script(Some([m]), []);
    var k := Tok("}", w, "");
    var r := MMeaning(m, w, k);
    RoundTrip.RoundTrip(read, s, w);
    OneInstruction(m, w, k);
    if r.Ok? {
      CollectOks([r.value], [r]);
      assert [A.Node.Machine([r.value])] + [] == [A.Node.Machine([r.value])];
    } else {
      CollectPanics([r], 0);
    }
  }

  /** What follows the argument of the profile, if only the quotes are padded. */
  lemma AfterTarget(p: string)
    ensures var w := Sparse("\"", p);
            && Tok("}", w, "") == "}" && Tok(";", w, "}") == ";}" && AfterFirst([A.Const("a")], w, ";}") == ");}"
            && PrintArgs([A.Const("a")], w, ";}") == "(" + PrintQuoted("a", w, ");}")
  {
    hide Printer.Tok, Sparse, Printer.PrintQuoted;
    var w := Sparse("\"", p);
    Bare("}", "\"", p, "");
    assert "}" + "" == "}" && ";" + "}" == ";}" && ")" + ";}" == ");}";
    Bare(";", "\"", p, "}");
    Bare(")", "\"", p, ";}");
    NoCommas("\"", p, ");}");
    assert [A.Const("a")][1..] == [];
    Bare("(", "\"", p, PrintQuoted("a", w, ");}"));
  }

  lemma QuotedPadded(p: string)
    ensures var w := Sparse("\"", p);
            && PrintQuoted("a", w, ");}") == "\"" + p + "a\"" + p + ");}"
            && RawText(A.Const("a"), w, ");}") == "\"" + p + "a\""
  {
    hide Printer.Tok, Sparse, RawText;
    var w := Sparse("\"", p);
    var close := "\"" + p + ");}";
    Bare("\"", "\"", p, ");}");
    Bare("a", "\"", p, close);
    Bare("\"", "\"", p, "a" + close);
    RawConst("a", w, ");}");
    SparsePads("\"", p, "a", close);
    SparsePads("\"", p, "\"", "a" + close);
    assert "\"" + p + "a" + "" + "\"" == "\"" + p + "a\"";
    assert "\"" + p + ("a" + close) == "\"" + p + "a\"" + p + ");}";
  }

  /** The target and the source, if only the quotes are padded. */
  lemma QuotesPadded(p: string)
    ensures var w := Sparse("\"", p);
            && Target(MachineSource.Profile(A.Const("a")), w, Tok("}", w, "")) == "\"" + p + "a\""
            && Print(OneProfile("a"), w) == "machine{profile(\"" + p + "a\"" + p + ");}"
  {
    hide Printer.Tok, Sparse, Printer.Padded, RawText, Printer.PrintArgs, AfterFirst;
    var w := Sparse("\"", p);
    var m := MachineSource.Profile(A.Const("a"));
    AfterTarget(p);
    QuotedPadded(p);
    var list := "(" + ("\"" + p + "a\"" + p + ");}");
    Bare("profile", "\"", p, list);
    OneInstruction(m, w, "}");
    Bare("{", "\"", p, "profile" + list);
    Bare("machine", "\"", p, "{" + ("profile" + list));
    var source := "machine" + ("{" + ("profile" + list));
    Bare("", "\"", p, source);
    assert PrintWorks([], w) == "";
    assert PrintMachine([m], w, "") == source;
    assert source == "machine{profile(\"" + p + "a\"" + p + ");}";
  }

  lemma SparsePads(token: string, p: string, t: string, k: string)
    ensures Sparse(token, p).pad(t, k) == if t == token then p else ""
  {
  }

  /** Two accepted sources that differ in padding inside quotes only and give different programs. */
  lemma TargetKeepsPadding(read: ReadF64)
    ensures ParseInstructions(read, "machine{profile(\"a\");}")
         == Some(Ok([A.Node.Machine([A.MachineInstruction.Profile("\"a\"")])]))
    ensures ParseInstructions(read, "machine{profile(\" a\" );}")
         == Some(Ok([A.Node.Machine([A.MachineInstruction.Profile("\" a\"")])]))
  {
    hide Builder.ParseInstructions, IsLayout, Printer.Print, Sparse, Target, Printer.Tok;
    SparseIsLayout("\"", "");
    OneInstructionRead(read, MachineSource.Profile(A.Const("a")), Sparse("\"", ""));
    QuotesPadded("");
    assert "machine{profile(\"" + "" + "a\"" + "" + ");}" == "machine{profile(\"a\");}";
    assert "\"" + "" + "a\"" == "\"a\"";
    assert " "[1..] == "";
    SparseIsLayout("\"", " ");
    OneInstructionRead(read, MachineSource.Profile(A.Const("a")), Sparse("\"", " "));
    QuotesPadded(" ");
    assert "machine{profile(\"" + " " + "a\"" + " " + ");}" == "machine{profile(\" a\" );}";
    assert "\"" + " " + "a\"" == "\" a\"";
  }

  // ----- a padded one-digit port

  /** A machine with a one-digit port is built if and only if nothing stands between the port and the parenthesis. */
  lemma OneDigitPortRead(read: ReadF64, port: nat, w: Layout)
    requires port < 10 && IsLayout(w)
    ensures var s := Script(Some([MachineSource.Server(port)]), []);
            var p := w.pad(Decimal.Dec(port), Tok(")", w, Tok(";", w, Tok("}", w, ""))));
            var built := Ok([A.Node.Machine([A.MachineInstruction.Server(port)])]);
            ParseInstructions(read, Print(s, w)) == Some(if p == "" then built else Panic)
  {
    hide IsLayout, Printer.Print, Builder.ParseInstructions, Decimal.Dec;
    OneInstructionRead(read, MachineSource.Server(port), w);
  }

  lemma EightPrinted(p: string)
    ensures Decimal.Dec(8) == "8"
    ensures var s := Script(Some([MachineSource.Server(8)]), []);
            Print(s, Sparse("8", p)) == "machine{server(8" + p + ");}"
  {
    hide Printer.Tok, Sparse, Printer.Padded;
    var w := Sparse("8", p);
    var m := MachineSource.Server(8);
    assert Decimal.Dec(8) == "8";
    Bare("}", "8", p, "");
    assert "}" + "" == "}" && ";" + "}" == ";}" && ")" + ";}" == ");}";
    Bare(";", "8", p, "}");
    Bare(")", "8", p, ";}");
    Bare("8", "8", p, ");}");
    var port := "8" + p + ");}";
    Bare("(", "8", p, port);
    Bare("server", "8", p, "(" + port);
    OneInstruction(m, w, "}");
    Bare("{", "8", p, "server" + ("(" + port));
    Bare("machine", "8", p, "{" + ("server" + ("(" + port)));
    var source := "machine" + ("{" + ("server" + ("(" + port)));
    Bare("", "8", p, source);
    assert PrintWorks([], w) == "";
    assert PrintMachine([m], w, "") == source;
    assert source == "machine{server(8" + p + ");}";
  }

  /** Whatever stands behind the port decides between a server and a panic. */
  lemma BehindPort(read: ReadF64, p: string)
    requires SkipText(p)
    ensures var server := A.Node.Machine([A.MachineInstruction.Server(8)]);
            ParseInstructions(read, "machine{server(8" + p + ");}") == Some(if p == "" then Ok([server]) else Panic)
  {
    hide Builder.ParseInstructions, IsLayout, Printer.Print, Sparse, Printer.Tok, Decimal.Dec, Printer.SkipText;
    var w := Sparse("8", p);
    EightPrinted(p);
    SparseIsLayout("8", p);
    OneDigitPortRead(read, 8, w);
    SparsePads("8", p, "8", Tok(")", w, Tok(";", w, Tok("}", w, ""))));
  }

  // ----- a helper given to a helper

  function Nested(t: string): Script {
    var inner := A.Arg.Dynamic("random_string", [A.Const(t)]);
    Script(None, [WorkSource("a", [], [A.Instruction.Open(A.Arg.Dynamic("random_path", [inner]))], None)])
  }

  /** Whatever the inner helper is given, in whatever layout: only its name is left. */
  lemma NestedHelperLost(read: ReadF64, t: string, w: Layout)
    requires IsValueText(t) && IsLayout(w)
    ensures var path := A.Arg.Dynamic("random_path", [A.Const("random_string")]);
            var work := A.Node.Work("a", map[], [A.Instruction.Open(path)], None);
            ParseInstructions(read, Print(Nested(t), w)) == Some(Ok([work]))
  {
    hide IsLayout, Printer.Print, Builder.ParseInstructions, IsValueText;
    var s := Nested(t);
    var u := s.works[0];
    var inner := A.Arg.Dynamic("random_string", [A.Const(t)]);
    var outer := A.Arg.Dynamic("random_path", [inner]);
    assert ValidArg(A.Const(t));
    assert ValidArg(inner);
    assert ValidArg(outer);
    assert Arguments(u.instructions[0]) == [outer];
    assert ValidWork(u);
    RoundTrip.RoundTrip(read, s, w);
    assert HelperTexts([inner]) == [A.Const("random_string")];
    assert Bodies(u.instructions) == [A.Instruction.Open(A.Arg.Dynamic("random_path", [A.Const("random_string")]))];
    assert WorksMeaning(read, s.works) == [WorkMeaning(read, u)];
  }

  // ----- accepted by the grammar, not by the builder

  /** A work unit without parameter list and body. */
  function BareWork(name: string, w: Layout): string {
    Tok(name, w, Tok("{", w, Tok("}", w, "")))
  }

  /** Neither is it the machine, unless it has its name. */
  lemma BareIsNoMachine(name: string, w: Layout)
    requires IsIdentText(name) && IsLayout(w) && name != "machine"
    ensures PMachine(BareWork(name, w)).Fail?
  {
    hide Grammar.Skip, IsLayout, Printer.Padded, Grammar.MInstrs;
    var t := "machine";
    var k := Tok("{", w, Tok("}", w, ""));
    var s := BareWork(name, w);
    if t <= s {
      PaddedStart(name, w, k);
      KeywordInIdent(t, name, Padded(name, w, k));
      var rest := name[|t|..];
      assert rest != "" by { assert name == t + rest; }
      assert s[|t|..] == rest + Padded(name, w, k);
      assert IsIdentChar(rest[0]);
      SolidSkip(s[|t|..]);
    }
  }

  lemma BareFunction(name: string, w: Layout)
    requires IsIdentText(name) && IsLayout(w)
    ensures var r := PFunction(BareWork(name, w));
            && r.Done? && r.rest == "" && r.pair.rule == Function
            && |r.pair.inner| == 2 && |r.pair.inner[0].inner| == 1
    ensures Solid(BareWork(name, w)) && BareWork(name, w) != ""
  {
    hide Grammar.Skip, Grammar.PIdent, IsLayout, Printer.Padded, Grammar.PExpr;
    var close := Tok("}", w, "");
    var open := Tok("{", w, close);
    IdentRead(name, w, open);
    SkipPadded(name, w, open);
    SolidSkip(open);
    LitTok("{", w, close);
    SkipPadded("{", w, close);
    SolidSkip(close);
    NoExprAt(close);
    LitTok("}", w, "");
    SkipPadded("}", w, "");
    SolidSkip("");
  }

  /** A work unit without parameters is accepted by the grammar, and then the builder panics. */
  lemma BareWorkPanics(read: ReadF64, name: string, w: Layout)
    requires IsIdentText(name) && IsLayout(w) && name != "machine"
    ensures ParseInstructions(read, BareWork(name, w)) == Some(Panic)
  {
    hide Grammar.Skip, Grammar.PFunction, Grammar.PMachine, IsLayout, BareWork;
    var s := BareWork(name, w);
    BareIsNoMachine(name, w);
    BareFunction(name, w);
    SolidSkip(s);
    SolidSkip("");
    NoExprAt("");
    var expr := PExpr(s).pair;
    assert Exprs("") == Parses([], "");
    assert Exprs(s).pairs == [expr] && Exprs(s).rest == "";
    var tree := PFile(s).value;
    assert tree.inner == [] + [expr] + [Pair(EOI, "", [])];
    assert tree.inner[0] == expr;
    assert BuildExpr(read, expr).Panic?;
    TopLevelPanics(read, tree.inner, 0);
  }

  lemma BareWorkExample(read: ReadF64)
    ensures ParseInstructions(read, "a{}") == Some(Panic)
  {
    hide Builder.ParseInstructions, IsLayout;
    var w := Sparse("", "");
    SparseIsLayout("", "");
    Bare("}", "", "", "");
    Bare("{", "", "", "}");
    Bare("a", "", "", "{}");
    assert BareWork("a", w) == "a{}";
    BareWorkPanics(read, "a", w);
  }

  // ----- refused by the grammar

  lemma HeadBeforeParen()
    ensures PWork("a(){})").Done? && PWork("a(){})").rest == "{})"
  {
    hide Grammar.Skip, Grammar.PIdent, Grammar.PParam;
    WholeIdent("a", "(){})");
    assert "a" + "(){})" == "a(){})";
    SolidSkip("(){})");
    assert "(){})"[1..] == "){})" && "){})"[1..] == "{})";
    SolidSkip("){})");
    NoItemAt("){})");
  }

  lemma WorkBeforeParen()
    ensures PFunction("a(){})").Done? && PFunction("a(){})").rest == ")"
  {
    hide Grammar.Skip, Grammar.PWork, Grammar.PExpr, Grammar.PDist;
    HeadBeforeParen();
    assert "{})"[1..] == "})" && "})"[1..] == ")";
    SolidSkip("{})");
    SolidSkip("})");
    NoExprAt("})");
    SolidSkip(")");
    NoDistAt(")");
  }

  lemma ParenIsNoExpr()
    ensures PExpr(")").Fail?
  {
    hide Grammar.Skip;
  }

  /** Something behind the last work unit that starts none: a syntax error. */
  lemma TrailingText(read: ReadF64)
    ensures ParseInstructions(read, "a(){})") == None
  {
    hide Grammar.Skip, Grammar.PFunction, Grammar.PInstruction, Builder.BuildFile;
    var s := "a(){})";
    WorkBeforeParen();
    ParenIsNoExpr();
    SolidSkip(s);
    SolidSkip(")");
    assert PMachine(s).Fail?;
    assert Exprs(")") == Parses([], ")");
    assert Exprs(s).rest == ")";
  }
}
