/**
 Printing and parsing are inverse: every valid script, printed with any layout, is
 accepted by the grammar and built back into the syntax tree it stands for; and
 every syntax tree of the supported fragment is the meaning of some script.
 */
module RoundTrip {
  import opened Common
  import opened Grammar
  import opened Shape
  import opened Builder
  import opened Printer
  import opened Tokens
  import opened Lookahead
  import opened Phrases
  import A = Ast
  import Decimal

  // ----- meaning

  /** All rates are numbers. */
  predicate Readable(read: ReadF64, u: WorkSource) {
    u.dist.Some? ==> read(u.dist.value.rate).Some?
  }

  function Bodies(body: seq<A.Instruction>): (r: seq<A.Instruction>)
    ensures |r| == |body| && forall i :: 0 <= i < |body| ==> r[i] == ReducedInstruction(body[i])
  {
    seq(|body|, i requires 0 <= i < |body| => ReducedInstruction(body[i]))
  }

  function WorkMeaning(read: ReadF64, u: WorkSource): A.Node
    requires Readable(read, u)
  {
    A.Node.Work(u.name, ToMap(u.params), Bodies(u.instructions),
                if u.dist.None? then None else Some(A.Dist.Exp(read(u.dist.value.rate).value)))
  }

  predicate AllReadable(read: ReadF64, us: seq<WorkSource>) {
    forall u :: u in us ==> Readable(read, u)
  }

  function WorksMeaning(read: ReadF64, us: seq<WorkSource>): (r: seq<A.Node>)
    requires AllReadable(read, us)
    ensures |r| == |us| && forall i :: 0 <= i < |us| ==> r[i] == WorkMeaning(read, us[i])
  {
    if us == [] then []
    else
      assert us[0] in us;
      [WorkMeaning(read, us[0])] + WorksMeaning(read, us[1..])
  }

  /** A one-digit port must be followed directly by the parenthesis. */
  predicate Tight(m: MachineSource, w: Layout, k: string) {
    m.Server? && m.port < 10 ==> w.pad(Decimal.Dec(m.port), Tok(")", w, Tok(";", w, k))) == ""
  }

  /** The target of a profile is its argument as it stands in the source. */
  function Target(m: MachineSource, w: Layout, k: string): string {
    if m.Profile? then RawText(m.target, w, AfterFirst([m.target], w, Tok(";", w, k))) else ""
  }

  function MMeaning(m: MachineSource, w: Layout, k: string): Result<A.MachineInstruction> {
    match m
    case Server(port) => if Tight(m, w, k) then Ok(A.MachineInstruction.Server(port)) else Panic
    case Profile(_) => Ok(A.MachineInstruction.Profile(Target(m, w, k)))
    case Path(value) => Ok(A.MachineInstruction.Path(value))
  }

  function MMeanings(ms: seq<MachineSource>, w: Layout, k: string): (r: seq<Result<A.MachineInstruction>>)
    ensures |r| == |ms|
  {
    if ms == [] then []
    else [MMeaning(ms[0], w, PrintMInstructions(ms[1..], w, k))] + MMeanings(ms[1..], w, k)
  }

  function MachineMeaning(ms: seq<MachineSource>, w: Layout, k: string): Result<A.Node> {
    var instrs :- Collect(MMeanings(ms, w, Tok("}", w, k)));
    Ok(A.Node.Machine(instrs))
  }

  /** The nodes of a script; only the machine depends on the layout. */
  function Meaning(read: ReadF64, s: Script, w: Layout): Result<seq<A.Node>>
    requires AllReadable(read, s.works)
  {
    match s.machine
    case None => Ok(WorksMeaning(read, s.works))
    case Some(ms) =>
      var machine :- MachineMeaning(ms, w, PrintWorks(s.works, w));
      Ok([machine] + WorksMeaning(read, s.works))
  }

  // ----- work units

  lemma DistNameRead(name: string, w: Layout, k: string)
    requires IsDistName(name)
    ensures var r := PDistName(Tok(name, w, k));
            r.Done? && r.rest == Padded(name, w, k) && r.pair.rule == DistName
    ensures Solid(Tok(name, w, k))
  {
    hide Printer.Padded;
    var s := Tok(name, w, k);
    assert s[0] == name[0];
    if name != "exp" {
      NotLit("exp", s, 0);
      if name != "zipf" {
        NotLit("zipf", s, 0);
      }
    }
  }

  lemma OneOpt(e: (string, string), w: Layout, k: string)
    requires ValidEntry(e) && IsLayout(w) && k != "" && k[0] == '}'
    ensures var r := Opts(PrintEntry(e, w, Tok(";", w, k)));
            && r.rest == Padded(";", w, k) && |r.pairs| == 1
            && r.pairs[0].rule == Opt && EntryIs(r.pairs[0], e)
  {
    hide Grammar.Skip, Grammar.POpt, IsLayout, Printer.Padded, Printer.PrintEntry, EntryIs, ValidEntry;
    var semi := Tok(";", w, k);
    PrintEntrySolid(e, w, semi);
    SolidSkip(PrintEntry(e, w, semi));
    OptRead(e, w, k);
    SkipPadded(";", w, k);
    NoOptAt(k);
  }

  lemma DistBuilt(read: ReadF64, p: Pair, name: Pair, opt: Pair, t: string)
    requires p.rule == Dist && p.inner == [name, opt] && name.rule == DistName
    requires opt.rule == Opt && EntryIs(opt, ("rate", t)) && read(t).Some?
    ensures BuildDist(read, p) == Ok(A.Dist.Exp(read(t).value))
  {
    assert p.inner[..1] == [name];
    assert [name][..0] == [];
    assert OfRule([name], Opt) == [];
    assert OfRule(p.inner, Opt) == [opt];
    CollectAll(EntryResults([opt]));
    assert BuildOpts([opt]).value == [("rate", t)];
    assert ToMap([("rate", t)]) == map["rate" := t];
  }

  /** A printed distribution is read: its only option is the rate. */
  lemma DistParsed(d: DistSource, w: Layout, k: string)
    requires IsDistName(d.name) && IsValueText(d.rate) && IsLayout(w)
    ensures var r := PDist(PrintDist(Some(d), w, k));
            && r.Done? && r.rest == Padded("}", w, k) && r.pair.rule == Dist
            && |r.pair.inner| == 2 && r.pair.inner[0].rule == DistName
            && r.pair.inner[1].rule == Opt && EntryIs(r.pair.inner[1], ("rate", d.rate))
  {
    hide Grammar.Skip, Grammar.PDistName, Grammar.Opts, IsLayout, Printer.Padded, Printer.PrintEntry, IsValueText;
    hide EntryIs, ValidEntry, Shape.IsIdentText, IsDistName;
    var close := Tok("}", w, k);
    var entry := PrintEntry(("rate", d.rate), w, Tok(";", w, close));
    var brace := Tok("{", w, entry);
    var name := Tok(d.name, w, brace);
    RateEntry(d.rate);
    PrintEntrySolid(("rate", d.rate), w, Tok(";", w, close));
    LitTok(":", w, name);
    DistNameRead(d.name, w, brace);
    SkipPadded(":", w, name);
    SkipPadded(d.name, w, brace);
    LitTok("{", w, entry);
    SkipPadded("{", w, entry);
    OneOpt(("rate", d.rate), w, close);
    SkipPadded(";", w, close);
    LitTok("}", w, k);
  }

  lemma DistRead(read: ReadF64, d: DistSource, w: Layout, k: string)
    requires IsDistName(d.name) && IsValueText(d.rate) && IsLayout(w) && read(d.rate).Some?
    ensures var r := PDist(PrintDist(Some(d), w, k));
            r.Done? && r.rest == Padded("}", w, k) && BuildDist(read, r.pair) == Ok(A.Dist.Exp(read(d.rate).value))
  {
    hide Grammar.PDist, IsLayout, Printer.Padded, Printer.PrintDist, IsValueText, Builder.BuildDist, EntryIs;
    DistParsed(d, w, k);
    var p := PDist(PrintDist(Some(d), w, k)).pair;
    DistBuilt(read, p, p.inner[0], p.inner[1], d.rate);
  }

  lemma RateEntry(t: string)
    requires IsValueText(t)
    ensures ValidEntry(("rate", t))
  {
  }

  /** What follows a work unit: the end, or the name of the next one. */
  predicate AfterWork(k: string) {
    k == "" || IsIdentStart(k[0])
  }

  lemma PrintWorkStarts(u: WorkSource, w: Layout, k: string)
    requires ValidWork(u)
    ensures PrintWork(u, w, k) != "" && PrintWork(u, w, k)[0] == u.name[0] && AfterWork(PrintWork(u, w, k))
  {
  }

  /** The head of a work unit: its name and its parameters. */
  lemma HeadRead(u: WorkSource, w: Layout, k: string)
    requires ValidWork(u) && IsLayout(w)
    ensures var r := PWork(Tok(u.name, w, PrintParams(u.params, w, k)));
            && r.Done? && r.rest == Padded(")", w, k)
            && BuildWork(r.pair) == Ok((u.name, ToMap(u.params)))
  {
    hide Grammar.Skip, Grammar.PIdent, Grammar.PParams, IsLayout, Printer.Padded, Printer.PrintParams, EntryIs;
    hide ValidInstruction, ValidEntry, Builder.BuildParams, Builder.ToMap;
    var params := PrintParams(u.params, w, k);
    PrintParamsSolid(u.params, w, k);
    IdentRead(u.name, w, params);
    SkipPadded(u.name, w, params);
    ParamsRead(u.params, w, k);
    ParamsBuilt(PParams(params).pair.inner, u.params);
  }

  lemma PrintParamsSolid(es: seq<(string, string)>, w: Layout, k: string)
    ensures PrintParams(es, w, k) != "" && PrintParams(es, w, k)[0] == '(' && Solid(PrintParams(es, w, k))
  {
  }

  /** The body of a work unit, between its braces. */
  lemma BodyRead(u: WorkSource, w: Layout, k: string)
    requires ValidWork(u) && IsLayout(w) && k != "" && k[0] == '}'
    ensures var s := PrintInstructions(u.instructions, w, k);
            && Skip(Padded("{", w, s)) == s
            && Skip(Exprs(s).rest) == k
            && BuildInstructions(Exprs(s).pairs) == Ok(Bodies(u.instructions))
  {
    hide Grammar.Skip, Grammar.Exprs, Printer.PrintInstructions, ValidInstruction, IsLayout, Printer.Padded;
    hide Builder.BuildInstruction;
    var s := PrintInstructions(u.instructions, w, k);
    PrintInstructionsSolid(u.instructions, w, k);
    SkipPadded("{", w, s);
    SolidSkip(s);
    InstructionsRead(u.instructions, w, k, s);
    var ps := Exprs(s).pairs;
    CollectAll(InstructionResults(ps));
    assert BuildInstructions(ps).value == Bodies(u.instructions);
  }

  /** After the closing brace: the distribution, if there is one. */
  lemma EndRead(read: ReadF64, u: WorkSource, w: Layout, k: string)
    requires ValidWork(u) && IsLayout(w) && Readable(read, u) && AfterWork(k)
    ensures var s := PrintDist(u.dist, w, k);
            && Skip(Padded("}", w, s)) == s
            && (u.dist.None? ==> s == k && PDist(s).Fail? && Skip(s) == k)
            && (u.dist.Some? ==>
                  && PDist(s).Done? && Skip(PDist(s).rest) == k
                  && BuildDist(read, PDist(s).pair) == Ok(A.Dist.Exp(read(u.dist.value.rate).value)))
  {
    hide Grammar.PDist, ValidInstruction, ValidEntry, IsLayout, Printer.Padded, Builder.BuildDist, IsValueText;
    NoDistAt(k);
    var s := PrintDist(u.dist, w, k);
    if u.dist.Some? {
      DistRead(read, u.dist.value, w, k);
      SkipPadded("}", w, k);
      assert s[0] == ':';
    }
    SkipPadded("}", w, s);
  }

  lemma FunctionRead(read: ReadF64, u: WorkSource, w: Layout, k: string)
    requires ValidWork(u) && IsLayout(w) && Readable(read, u) && AfterWork(k)
    ensures var r := PFunction(PrintWork(u, w, k));
            && r.Done? && r.pair.rule == Function && Skip(r.rest) == k
            && BuildFunction(read, r.pair) == Ok(WorkMeaning(read, u))
  {
    hide Grammar.Skip, Grammar.PWork, Grammar.Exprs, Grammar.PDist, IsLayout, Printer.Padded, ValidWork;
    hide Printer.PrintParams, Printer.PrintInstructions, Printer.PrintDist;
    hide Builder.BuildWork, Builder.BuildInstructions, Builder.BuildDist, Builder.ToMap;
    var end := PrintDist(u.dist, w, k);
    var close := Tok("}", w, end);
    var body := PrintInstructions(u.instructions, w, close);
    var brace := Tok("{", w, body);
    HeadRead(u, w, brace);
    SkipPadded(")", w, brace);
    LitTok("{", w, body);
    BodyRead(u, w, close);
    LitTok("}", w, end);
    EndRead(read, u, w, k);
  }

  lemma WorkRead(read: ReadF64, u: WorkSource, w: Layout, k: string)
    requires ValidWork(u) && IsLayout(w) && Readable(read, u) && AfterWork(k)
    ensures var r := PExpr(PrintWork(u, w, k));
            && r.Done? && r.pair.rule == Expr && Skip(r.rest) == k
            && BuildExpr(read, r.pair) == Ok(WorkMeaning(read, u))
  {
    hide Grammar.Skip, Grammar.PFunction, Grammar.PInstruction, IsLayout, ValidWork, Printer.PrintWork;
    hide Builder.BuildFunction, WorkMeaning;
    FunctionRead(read, u, w, k);
  }

  lemma PrintWorksStarts(us: seq<WorkSource>, w: Layout)
    requires forall u :: u in us ==> ValidWork(u)
    ensures AfterWork(PrintWorks(us, w)) && Solid(PrintWorks(us, w))
    ensures us != [] ==> PrintWorks(us, w) == PrintWork(us[0], w, PrintWorks(us[1..], w)) && us[0] in us
  {
    hide Printer.PrintWork, ValidWork;
    if us != [] {
      PrintWorkStarts(us[0], w, PrintWorks(us[1..], w));
    }
  }

  lemma {:induction false} WorksRead(read: ReadF64, us: seq<WorkSource>, w: Layout, x: string)
    requires (forall u :: u in us ==> ValidWork(u)) && IsLayout(w) && AllReadable(read, us)
    requires Skip(x) == PrintWorks(us, w)
    ensures var r := Exprs(x);
            && Skip(r.rest) == "" && |r.pairs| == |us|
            && (forall i :: 0 <= i < |us| ==>
                  r.pairs[i].rule == Expr && BuildExpr(read, r.pairs[i]) == Ok(WorkMeaning(read, us[i])))
  {
    hide Grammar.Skip, Grammar.PExpr, IsLayout, ValidWork, Printer.PrintWork, Builder.BuildExpr, WorkMeaning;
    if us == [] {
      NoExprAt("");
    } else {
      PrintWorksStarts(us, w);
      PrintWorksStarts(us[1..], w);
      assert Readable(read, us[0]);
      WorkRead(read, us[0], w, PrintWorks(us[1..], w));
      WorksRead(read, us[1..], w, PExpr(PrintWorks(us, w)).rest);
    }
  }

  // ----- machine

  /** A digit starts neither a helper nor an identifier nor a quoted constant. */
  lemma DigitArg(s: string)
    requires s != "" && IsDigit(s[0]) && PDigits(s).Done?
    ensures PArg(s) == Done(Pair(Rule.Arg, PDigits(s).pair.text, [PDigits(s).pair]), PDigits(s).rest)
  {
    hide Grammar.Skip, Grammar.DigitsRest;
    NotLit("random_path", s, 0);
    NotLit("random_string", s, 0);
    NotLit("\"", s, 0);
  }

  /** The port argument: its text is the port, written out, and the padding if there is only one digit. */
  function PortText(port: nat, w: Layout, k: string): string {
    Decimal.Dec(port) + if port < 10 then w.pad(Decimal.Dec(port), k) else ""
  }

  lemma PortRead(port: nat, w: Layout, k: string)
    requires IsLayout(w) && k != "" && k[0] == ')'
    ensures var r := PArg(Tok(Decimal.Dec(port), w, k));
            r.Done? && Skip(r.rest) == k && r.pair.text == PortText(port, w, k)
    ensures Tok(Decimal.Dec(port), w, k) != "" && Solid(Tok(Decimal.Dec(port), w, k))
  {
    hide Grammar.PDigits, Grammar.PArg, Grammar.Skip, Printer.SkipText;
    var t := Decimal.Dec(port);
    var s := Tok(t, w, k);
    assert s[0] == t[0] && IsDigit(t[0]);
    SkipPadded(t, w, k);
    SolidSkip(k);
    if port < 10 {
      var p := w.pad(t, k);
      assert Separates(p, t, k);
      assert s == [t[0]] + p + k;
      DigitRead(t[0], p, k);
    } else {
      DigitsRead(t, w, k);
    }
    DigitArg(s);
  }

  lemma PortArgsRead(port: nat, w: Layout, k: string)
    requires IsLayout(w)
    ensures var close := Tok(")", w, k);
            && var r := PArgs(Tok("(", w, Tok(Decimal.Dec(port), w, close)));
            && r.Done? && r.rest == Padded(")", w, k)
            && |r.pair.inner| == 1 && r.pair.inner[0].text == PortText(port, w, close)
  {
    hide Grammar.Skip, Grammar.PArg, IsLayout, Printer.Padded, PortText, Decimal.Dec;
    var close := Tok(")", w, k);
    var first := Tok(Decimal.Dec(port), w, close);
    PortRead(port, w, close);
    LitTok("(", w, first);
    SkipPadded("(", w, first);
    SolidSkip(close);
    assert ArgTail(close) == Parses([], close);
    LitTok(")", w, k);
  }

  /** A one-digit port with padding behind it does not read as a number. */
  lemma PortBuilt(port: nat, w: Layout, k: string)
    requires port < U16 && IsLayout(w) && k != ""
    ensures var tight := port < 10 ==> w.pad(Decimal.Dec(port), k) == "";
            Decimal.ParseU16(PortText(port, w, k)) == if tight then Some(port) else None
  {
    hide Printer.SkipText, Decimal.ParseU16, IsLayout;
    var t := Decimal.Dec(port);
    var p := if port < 10 then w.pad(t, k) else "";
    if p == "" {
      assert PortText(port, w, k) == t;
      Decimal.ParseU16Dec(port);
    } else {
      PadIsNoDigit(t, w, k);
      NotANumber(t, p);
    }
  }

  lemma PadIsNoDigit(t: string, w: Layout, k: string)
    requires IsLayout(w) && k != "" && w.pad(t, k) != ""
    ensures !IsDigit(w.pad(t, k)[0])
  {
    assert Separates(w.pad(t, k), t, k);
  }

  lemma NotANumber(t: string, p: string)
    requires t != "" && IsDigit(t[0]) && p != "" && !IsDigit(p[0])
    ensures Decimal.ParseU16(t + p).None?
  {
    assert (t + p)[|t|] == p[0] && (t + p)[0] == t[0];
  }

  function MRule(m: MachineSource): Rule {
    match m
    case Server(_) => Rule.Server
    case Profile(_) => Rule.Profile
    case Path(_) => Rule.Path
  }

  function MKeyword(m: MachineSource): string {
    match m
    case Server(_) => "server"
    case Profile(_) => "profile"
    case Path(_) => "path"
  }

  lemma MInstrNameRead(m: MachineSource, w: Layout, k: string)
    ensures var r := PMInstrName(Tok(MKeyword(m), w, k));
            r.Done? && r.rest == Padded(MKeyword(m), w, k) && |r.pair.inner| == 1 && r.pair.inner[0].rule == MRule(m)
  {
    hide Printer.Padded;
    var t := MKeyword(m);
    var s := Tok(t, w, k);
    assert s[0] == t[0] && s[1] == t[1];
    if !m.Server? {
      NotLit("server", s, 0);
      NotLit("load", s, 0);
      NotLit("memory", s, 0);
      if m.Path? {
        NotLit("profile", s, 1);
      }
    }
  }

  predicate ReadsMInstruction(r: Parse, m: MachineSource, w: Layout, k: string) {
    r.Done? && r.rest == Padded(";", w, k) && BuildMInstruction(r.pair) == MMeaning(m, w, k)
  }

  lemma ServerRead(port: nat, w: Layout, k: string)
    requires port < U16 && IsLayout(w)
    ensures var m := MachineSource.Server(port);
            ReadsMInstruction(PMachineInstruction(PrintMInstruction(m, w, k)), m, w, k)
  {
    hide Grammar.Skip, Grammar.PArgs, Grammar.PMInstrName, IsLayout, Printer.Padded, PortText, Decimal.Dec;
    hide Decimal.ParseU16;
    var m := MachineSource.Server(port);
    var semi := Tok(";", w, k);
    var close := Tok(")", w, semi);
    var list := Tok("(", w, Tok(Decimal.Dec(port), w, close));
    MInstrNameRead(m, w, list);
    SkipPadded("server", w, list);
    PortArgsRead(port, w, semi);
    SkipPadded(")", w, semi);
    LitTok(";", w, k);
    PortBuilt(port, w, close);
  }

  lemma ProfileOrPathRead(m: MachineSource, a: A.Arg, w: Layout, k: string)
    requires ValidMInstruction(m) && IsLayout(w)
    requires (m.Profile? && a == m.target) || (m.Path? && a == A.Const(m.value))
    ensures ReadsMInstruction(PMachineInstruction(PrintMInstruction(m, w, k)), m, w, k)
  {
    hide Grammar.Skip, Grammar.PArgs, Grammar.PMInstrName, IsLayout, Printer.Padded, Printer.PrintArgs;
    hide Grammar.PCall, RawText, AfterFirst;
    var semi := Tok(";", w, k);
    var s := PrintMInstruction(m, w, k);
    MInstrNameRead(m, w, PrintArgs([a], w, semi));
    CallRead(MachineInstruction, s, MKeyword(m), PMInstrName(s), [a], w, k);
    var arg := PMachineInstruction(s).pair.inner[1].inner[0];
    assert ArgIs(arg, a);
    if m.Path? {
      PathArgument(arg, m.value);
    }
  }

  /** An argument built as a constant is one in the sense of `string_from_argument`. */
  lemma PathArgument(p: Pair, value: string)
    requires p.rule == Arg && BuildArg(p) == Ok(A.Const(value))
    ensures StringFromArgument(p) == Ok(Some(value))
  {
  }

  lemma MInstructionRead(m: MachineSource, w: Layout, k: string)
    requires ValidMInstruction(m) && IsLayout(w)
    ensures ReadsMInstruction(PMachineInstruction(PrintMInstruction(m, w, k)), m, w, k)
    ensures PrintMInstruction(m, w, k) != "" && IsIdentStart(PrintMInstruction(m, w, k)[0])
  {
    hide Grammar.PMachineInstruction, IsLayout, Printer.Padded, Printer.PrintArgs, ReadsMInstruction;
    match m
    case Server(port) => ServerRead(port, w, k);
    case Profile(target) => ProfileOrPathRead(m, target, w, k);
    case Path(value) => ProfileOrPathRead(m, A.Const(value), w, k);
    assert PrintMInstruction(m, w, k)[0] == MKeyword(m)[0];
  }

  lemma PrintMInstructionsSolid(ms: seq<MachineSource>, w: Layout, k: string)
    requires (forall m :: m in ms ==> ValidMInstruction(m)) && IsLayout(w) && k != "" && k[0] == '}'
    ensures PrintMInstructions(ms, w, k) != "" && Solid(PrintMInstructions(ms, w, k))
  {
    hide Grammar.PMachineInstruction, IsLayout, Printer.PrintMInstruction, ReadsMInstruction, ValidMInstruction;
    if ms != [] {
      assert ms[0] in ms;
      MInstructionRead(ms[0], w, PrintMInstructions(ms[1..], w, k));
    }
  }

  lemma {:induction false} MInstructionsRead(ms: seq<MachineSource>, w: Layout, k: string, x: string)
    requires (forall m :: m in ms ==> ValidMInstruction(m)) && IsLayout(w)
    requires k != "" && k[0] == '}' && Skip(x) == PrintMInstructions(ms, w, k)
    ensures var r := MInstrs(x);
            && Skip(r.rest) == k && |r.pairs| == |ms|
            && (forall i :: 0 <= i < |ms| ==> BuildMInstruction(r.pairs[i]) == MMeanings(ms, w, k)[i])
  {
    hide Grammar.Skip, Grammar.PMachineInstruction, Printer.PrintMInstruction, Builder.BuildMInstruction;
    hide ValidMInstruction, IsLayout, Printer.Padded, MMeaning;
    if ms == [] {
      NoExprAt(k);
    } else {
      assert ms[0] in ms;
      var next := PrintMInstructions(ms[1..], w, k);
      MInstructionRead(ms[0], w, next);
      PrintMInstructionsSolid(ms[1..], w, k);
      SkipPadded(";", w, next);
      MInstructionsRead(ms[1..], w, k, Padded(";", w, next));
    }
  }

  lemma MachineRead(read: ReadF64, ms: seq<MachineSource>, w: Layout, k: string)
    requires (forall m :: m in ms ==> ValidMInstruction(m)) && IsLayout(w)
    ensures var r := PMachine(PrintMachine(ms, w, k));
            && r.Done? && r.rest == Padded("}", w, k) && r.pair.rule == Machine
            && BuildExpr(read, r.pair) == MachineMeaning(ms, w, k)
    ensures Solid(PrintMachine(ms, w, k))
  {
    hide Grammar.Skip, Grammar.MInstrs, IsLayout, Printer.Padded, Printer.PrintMInstructions, ValidMInstruction;
    hide Builder.BuildMInstruction, MMeanings;
    var close := Tok("}", w, k);
    var body := PrintMInstructions(ms, w, close);
    var brace := Tok("{", w, body);
    LitTok("machine", w, brace);
    SkipPadded("machine", w, brace);
    LitTok("{", w, body);
    PrintMInstructionsSolid(ms, w, close);
    SkipPadded("{", w, body);
    SolidSkip(body);
    MInstructionsRead(ms, w, close, body);
    LitTok("}", w, k);
    var ps := MInstrs(body).pairs;
    assert MInstructionResults(ps) == MMeanings(ms, w, close);
    assert PrintMachine(ms, w, k)[0] == 'm';
  }

  /** A work unit is never taken for the machine, even if it is called `machine`. */
  lemma WorkIsNoMachine(u: WorkSource, w: Layout, k: string)
    requires ValidWork(u) && IsLayout(w)
    ensures PMachine(PrintWork(u, w, k)).Fail?
  {
    hide Grammar.Skip, IsLayout, Printer.Padded, Printer.PrintInstructions, Printer.PrintDist, Printer.PrintParams;
    hide ValidInstruction, ValidEntry, Grammar.MInstrs;
    var t := "machine";
    var params := PrintParams(u.params, w,
                              Tok("{", w, PrintInstructions(u.instructions, w, Tok("}", w, PrintDist(u.dist, w, k)))));
    var s := PrintWork(u, w, k);
    assert s == Tok(u.name, w, params);
    assert params[0] == '(' by {
      PrintParamsSolid(u.params, w,
                       Tok("{", w, PrintInstructions(u.instructions, w, Tok("}", w, PrintDist(u.dist, w, k)))));
    }
    if t <= s {
      PaddedStart(u.name, w, params);
      KeywordInIdent(t, u.name, Padded(u.name, w, params));
      NoBraceAfter(t, u.name, w, params);
    }
  }

  lemma NoBraceAfter(t: string, name: string, w: Layout, k: string)
    requires IsIdentText(name) && IsLayout(w) && k != "" && k[0] == '(' && t <= name && t != ""
    ensures Lit("{", Skip(Tok(name, w, k)[|t|..])).None?
  {
    var rest := name[|t|..];
    assert Tok(name, w, k)[|t|..] == rest + Padded(name, w, k);
    if rest == "" {
      SkipPadded(name, w, k);
      assert rest + Padded(name, w, k) == Padded(name, w, k);
    } else {
      assert IsIdentChar(rest[0]);
      SolidSkip(rest + Padded(name, w, k));
    }
  }

  lemma NoMachineInWorks(us: seq<WorkSource>, w: Layout)
    requires (forall u :: u in us ==> ValidWork(u)) && IsLayout(w)
    ensures PMachine(PrintWorks(us, w)).Fail?
  {
    hide Grammar.PMachine, Printer.PrintWork, ValidWork, IsLayout;
    PrintWorksStarts(us, w);
    if us == [] {
      NoMachineAtEnd();
    } else {
      WorkIsNoMachine(us[0], w, PrintWorks(us[1..], w));
    }
  }

  // ----- files

  /** The pairs of the machine of a printed script. */
  function MachinePairs(s: Script, w: Layout): seq<Pair> {
    match s.machine
    case None => []
    case Some(ms) =>
      var r := PMachine(PrintMachine(ms, w, PrintWorks(s.works, w)));
      if r.Done? then [r.pair] else []
  }

  /** The tree of a printed script: the machine if there is one, then the works. */
  lemma FileParsed(read: ReadF64, s: Script, w: Layout)
    requires ValidScript(s) && IsLayout(w) && AllReadable(read, s.works)
    ensures var r := PFile(Print(s, w));
            r.Some? && r.value.inner == MachinePairs(s, w) + Exprs(PrintWorks(s.works, w)).pairs + [Pair(EOI, "", [])]
  {
    hide Grammar.Skip, Grammar.PMachine, Grammar.Exprs, IsLayout, Printer.Padded, ValidWork, ValidMInstruction;
    hide Printer.PrintWorks, Printer.PrintMachine, Builder.BuildExpr, WorkMeaning, Readable, MachineMeaning;
    var works := PrintWorks(s.works, w);
    PrintWorksStarts(s.works, w);
    SkipPadded(if s.machine.None? then "" else "}", w, works);
    SolidSkip(works);
    WorksRead(read, s.works, w, works);
    match s.machine {
      case None => NoMachineInWorks(s.works, w);
      case Some(ms) =>
        MachineRead(read, ms, w, works);
        SkipPadded("", w, PrintMachine(ms, w, works));
    }
  }

  /** Top-level pairs and the nodes built from them. */
  predicate Builds(read: ReadF64, ps: seq<Pair>, rs: seq<Result<A.Node>>) {
    && |ps| == |rs|
    && forall i :: 0 <= i < |ps| ==> (ps[i].rule == Expr || ps[i].rule == Machine) && BuildExpr(read, ps[i]) == rs[i]
  }

  lemma BuildsAppend(read: ReadF64, ps: seq<Pair>, rs: seq<Result<A.Node>>, qs: seq<Pair>, ts: seq<Result<A.Node>>)
    requires Builds(read, ps, rs) && Builds(read, qs, ts)
    ensures Builds(read, ps + qs, rs + ts)
  {
    hide Builder.BuildExpr;
  }

  /** The meaning of a script, node by node: the machine, then the works. */
  function MachineNodes(s: Script, w: Layout): seq<Result<A.Node>> {
    if s.machine.None? then [] else [MachineMeaning(s.machine.value, w, PrintWorks(s.works, w))]
  }

  function WorkNodes(read: ReadF64, us: seq<WorkSource>): seq<Result<A.Node>>
    requires AllReadable(read, us)
  {
    var works := WorksMeaning(read, us);
    seq(|works|, i requires 0 <= i < |works| => Ok(works[i]))
  }

  lemma MachineBuilds(read: ReadF64, s: Script, w: Layout)
    requires ValidScript(s) && IsLayout(w)
    ensures Builds(read, MachinePairs(s, w), MachineNodes(s, w))
  {
    hide Grammar.PMachine, IsLayout, ValidMInstruction, ValidWork, Printer.PrintMachine, Printer.PrintWorks;
    hide Builder.BuildExpr, MachineMeaning;
    if s.machine.Some? {
      MachineRead(read, s.machine.value, w, PrintWorks(s.works, w));
    }
  }

  lemma WorksBuild(read: ReadF64, us: seq<WorkSource>, w: Layout)
    requires (forall u :: u in us ==> ValidWork(u)) && IsLayout(w) && AllReadable(read, us)
    ensures Builds(read, Exprs(PrintWorks(us, w)).pairs, WorkNodes(read, us))
  {
    hide Grammar.Exprs, IsLayout, ValidWork, Printer.PrintWorks, Builder.BuildExpr, WorkMeaning, AllReadable;
    PrintWorksStarts(us, w);
    SolidSkip(PrintWorks(us, w));
    WorksRead(read, us, w, PrintWorks(us, w));
  }

  lemma CollectOks<T>(xs: seq<T>, rs: seq<Result<T>>)
    requires |rs| == |xs| && forall i :: 0 <= i < |xs| ==> rs[i] == Ok(xs[i])
    ensures Collect(rs) == Ok(xs)
  {
    CollectAll(rs);
    assert Collect(rs).value == xs;
  }

  lemma CollectHead<T>(r: Result<T>, xs: seq<T>, rs: seq<Result<T>>)
    requires |rs| == |xs| && forall i :: 0 <= i < |xs| ==> rs[i] == Ok(xs[i])
    ensures Collect([r] + rs) == if r.Panic? then Panic else Ok([r.value] + xs)
  {
    if r.Panic? {
      CollectPanics([r] + rs, 0);
    } else {
      CollectOks([r.value] + xs, [r] + rs);
    }
  }

  lemma MeaningCollected(read: ReadF64, s: Script, w: Layout)
    requires AllReadable(read, s.works)
    ensures Collect(MachineNodes(s, w) + WorkNodes(read, s.works)) == Meaning(read, s, w)
  {
    hide MachineMeaning, WorksMeaning, Printer.PrintWorks, AllReadable, Builder.Collect;
    var works := WorksMeaning(read, s.works);
    var rs := WorkNodes(read, s.works);
    match s.machine
    case None =>
      assert [] + rs == rs;
      CollectOks(works, rs);
    case Some(ms) => CollectHead(MachineMeaning(ms, w, PrintWorks(s.works, w)), works, rs);
  }

  lemma TopLevelWithEnd(ps: seq<Pair>, end: Pair)
    requires (forall i :: 0 <= i < |ps| ==> ps[i].rule == Expr || ps[i].rule == Machine) && end.rule == EOI
    ensures TopLevel(ps + [end]) == ps
  {
    var all := ps + [end];
    assert all[..|all| - 1] == ps && all[|all| - 1] == end;
    TopLevelAll(ps);
  }

  lemma BuiltFile(read: ReadF64, tree: Pair, ps: seq<Pair>, rs: seq<Result<A.Node>>)
    requires tree.inner == ps + [Pair(EOI, "", [])] && Builds(read, ps, rs)
    ensures BuildFile(read, tree) == Collect(rs)
  {
    hide Builder.BuildExpr, Builder.Collect, Builder.TopLevel;
    TopLevelWithEnd(ps, Pair(EOI, "", []));
    assert NodeResults(read, ps) == rs;
  }

  /**
   Round trip: a valid script, printed with any layout, parses and builds back to
   its meaning.
   */
  lemma RoundTrip(read: ReadF64, s: Script, w: Layout)
    requires ValidScript(s) && IsLayout(w) && AllReadable(read, s.works)
    ensures ParseInstructions(read, Print(s, w)) == Some(Meaning(read, s, w))
  {
    hide Grammar.PFile, IsLayout, ValidWork, ValidMInstruction, AllReadable, Printer.Print, Meaning, MachineNodes;
    hide MachinePairs, WorkNodes, Grammar.Exprs, Builds, Builder.BuildFile, Printer.PrintWorks;
    FileParsed(read, s, w);
    MeaningCollected(read, s, w);
    MachineBuilds(read, s, w);
    WorksBuild(read, s.works, w);
    var ps, qs := MachinePairs(s, w), Exprs(PrintWorks(s.works, w)).pairs;
    var rs, ts := MachineNodes(s, w), WorkNodes(read, s.works);
    BuildsAppend(read, ps, rs, qs, ts);
    BuiltFile(read, PFile(Print(s, w)).value, ps + qs, rs + ts);
  }

  // ----- what the layout can change

  /** No one-digit port of the script is padded. */
  predicate AllTight(ms: seq<MachineSource>, w: Layout, k: string) {
    ms == [] || (Tight(ms[0], w, PrintMInstructions(ms[1..], w, k)) && AllTight(ms[1..], w, k))
  }

  /** The targets of the profiles as they stand in the source. */
  function Targets(ms: seq<MachineSource>, w: Layout, k: string): seq<string> {
    if ms == [] then []
    else [Target(ms[0], w, PrintMInstructions(ms[1..], w, k))] + Targets(ms[1..], w, k)
  }

  function MachineOf(s: Script): seq<MachineSource> {
    if s.machine.None? then [] else s.machine.value
  }

  predicate TightPorts(s: Script, w: Layout) {
    AllTight(MachineOf(s), w, Tok("}", w, PrintWorks(s.works, w)))
  }

  function ProfileTargets(s: Script, w: Layout): seq<string> {
    Targets(MachineOf(s), w, Tok("}", w, PrintWorks(s.works, w)))
  }

  lemma MMeaningTight(m: MachineSource, w: Layout, k: string)
    ensures MMeaning(m, w, k).Ok? <==> Tight(m, w, k)
  {
  }

  lemma MMeaningTarget(m: MachineSource, w: Layout, k: string, w': Layout, k': string)
    requires Tight(m, w, k) && Tight(m, w', k')
    ensures MMeaning(m, w, k) == MMeaning(m, w', k') <==> Target(m, w, k) == Target(m, w', k')
  {
  }

  lemma CollectCons<T>(r: Result<T>, rs: seq<Result<T>>)
    ensures Collect([r] + rs).Ok? <==> r.Ok? && Collect(rs).Ok?
  {
    hide Builder.Collect;
    var all := [r] + rs;
    CollectAll(all);
    CollectAll(rs);
    assert forall i :: 0 <= i < |rs| ==> rs[i] == all[i + 1];
    assert forall i :: 1 <= i < |all| ==> all[i] == rs[i - 1];
    assert all[0] == r;
  }

  lemma {:induction false} MMeaningsTight(ms: seq<MachineSource>, w: Layout, k: string)
    ensures AllTight(ms, w, k) <==> Collect(MMeanings(ms, w, k)).Ok?
  {
    hide Tight, MMeaning, Printer.PrintMInstructions;
    if ms != [] {
      var rest := PrintMInstructions(ms[1..], w, k);
      MMeaningsTight(ms[1..], w, k);
      MMeaningTight(ms[0], w, rest);
      CollectCons(MMeaning(ms[0], w, rest), MMeanings(ms[1..], w, k));
    }
  }

  lemma SameParts<T>(a: T, s: seq<T>, a': T, s': seq<T>)
    ensures [a] + s == [a'] + s' <==> a == a' && s == s'
  {
    assert ([a] + s)[0] == a && ([a'] + s')[0] == a';
    assert ([a] + s)[1..] == s && ([a'] + s')[1..] == s';
  }

  /** Two layouts give the same machine exactly when they give the same profile targets. */
  lemma {:induction false} MMeaningsTargets(ms: seq<MachineSource>, w: Layout, k: string, w': Layout, k': string)
    requires AllTight(ms, w, k) && AllTight(ms, w', k')
    ensures MMeanings(ms, w, k) == MMeanings(ms, w', k') <==> Targets(ms, w, k) == Targets(ms, w', k')
  {
    hide Tight, Target, MMeaning, Printer.PrintMInstructions;
    if ms != [] {
      var rest, rest' := PrintMInstructions(ms[1..], w, k), PrintMInstructions(ms[1..], w', k');
      MMeaningsTargets(ms[1..], w, k, w', k');
      MMeaningTarget(ms[0], w, rest, w', rest');
      SameParts(MMeaning(ms[0], w, rest), MMeanings(ms[1..], w, k), MMeaning(ms[0], w', rest'), MMeanings(ms[1..], w', k'));
      SameParts(Target(ms[0], w, rest), Targets(ms[1..], w, k), Target(ms[0], w', rest'), Targets(ms[1..], w', k'));
    }
  }

  lemma CollectInjective<T>(rs: seq<Result<T>>, rs': seq<Result<T>>)
    requires Collect(rs).Ok? && Collect(rs').Ok?
    ensures Collect(rs) == Collect(rs') <==> rs == rs'
  {
    CollectAll(rs);
    CollectAll(rs');
  }

  lemma NothingTight(w: Layout, k: string)
    ensures AllTight([], w, k) && Targets([], w, k) == []
  {
  }

  /** A machine is built exactly when no one-digit port is padded. */
  lemma MachineTight(ms: seq<MachineSource>, w: Layout, k: string)
    ensures MachineMeaning(ms, w, k).Ok? <==> AllTight(ms, w, Tok("}", w, k))
  {
    hide AllTight, MMeanings;
    MMeaningsTight(ms, w, Tok("}", w, k));
  }

  lemma MachineTargets(ms: seq<MachineSource>, w: Layout, k: string, w': Layout, k': string)
    requires AllTight(ms, w, Tok("}", w, k)) && AllTight(ms, w', Tok("}", w', k'))
    ensures MachineMeaning(ms, w, k) == MachineMeaning(ms, w', k')
            <==> Targets(ms, w, Tok("}", w, k)) == Targets(ms, w', Tok("}", w', k'))
  {
    hide AllTight, MMeanings, Targets;
    MachineTight(ms, w, k);
    MachineTight(ms, w', k');
    MMeaningsTargets(ms, w, Tok("}", w, k), w', Tok("}", w', k'));
    CollectInjective(MMeanings(ms, w, Tok("}", w, k)), MMeanings(ms, w', Tok("}", w', k')));
  }

  /** A script is built exactly when no one-digit port is padded. */
  lemma BuiltWhenTight(read: ReadF64, s: Script, w: Layout)
    requires AllReadable(read, s.works)
    ensures Meaning(read, s, w).Ok? <==> TightPorts(s, w)
  {
    hide AllTight, MachineMeaning, AllReadable, WorksMeaning, Printer.PrintWorks;
    match s.machine
    case None => NothingTight(w, Tok("}", w, PrintWorks(s.works, w)));
    case Some(ms) => MachineTight(ms, w, PrintWorks(s.works, w));
  }

  lemma SameMachine(read: ReadF64, s: Script, w: Layout, w': Layout)
    requires AllReadable(read, s.works) && TightPorts(s, w) && TightPorts(s, w')
    ensures Meaning(read, s, w) == Meaning(read, s, w') <==> ProfileTargets(s, w) == ProfileTargets(s, w')
  {
    hide AllTight, MachineMeaning, AllReadable, WorksMeaning, Printer.PrintWorks, Targets;
    var k, k' := PrintWorks(s.works, w), PrintWorks(s.works, w');
    match s.machine
    case None =>
      NothingTight(w, Tok("}", w, k));
      NothingTight(w', Tok("}", w', k'));
    case Some(ms) =>
      MachineTight(ms, w, k);
      MachineTight(ms, w', k');
      MachineTargets(ms, w, k, w', k');
      var works := WorksMeaning(read, s.works);
      SameParts(MachineMeaning(ms, w, k).value, works, MachineMeaning(ms, w', k').value, works);
  }

  /**
   Exactly what a layout can change: padding behind a one-digit port makes the builder
   panic, and the target of a profile is kept as it stands in the source.  Nothing else
   depends on whitespace, comments and trailing commas.
   */
  lemma LayoutMatters(read: ReadF64, s: Script, w: Layout, w': Layout)
    requires ValidScript(s) && IsLayout(w) && IsLayout(w') && AllReadable(read, s.works)
    ensures ParseInstructions(read, Print(s, w)) == ParseInstructions(read, Print(s, w'))
            <==> || (!TightPorts(s, w) && !TightPorts(s, w'))
                 || (TightPorts(s, w) && TightPorts(s, w') && ProfileTargets(s, w) == ProfileTargets(s, w'))
  {
    hide *;
    RoundTrip(read, s, w);
    RoundTrip(read, s, w');
    BuiltWhenTight(read, s, w);
    BuiltWhenTight(read, s, w');
    if TightPorts(s, w) && TightPorts(s, w') {
      SameMachine(read, s, w, w');
    }
  }

  /** A printed script is built exactly when no one-digit port is padded; otherwise the builder panics. */
  lemma PaddedDigitPanics(read: ReadF64, s: Script, w: Layout)
    requires ValidScript(s) && IsLayout(w) && AllReadable(read, s.works)
    ensures ParseInstructions(read, Print(s, w)) == Some(Panic) <==> !TightPorts(s, w)
  {
    hide *;
    RoundTrip(read, s, w);
    BuiltWhenTight(read, s, w);
  }

  /** Neither a one-digit port nor a profile target with more than one spelling. */
  predicate LayoutFree(m: MachineSource) {
    match m
    case Server(port) => port >= 10
    case Profile(target) => target.Var?
    case Path(_) => true
  }

  lemma {:induction false} FreeMachine(ms: seq<MachineSource>, w: Layout, k: string, w': Layout, k': string)
    requires forall m :: m in ms ==> LayoutFree(m)
    ensures AllTight(ms, w, k) && Targets(ms, w, k) == Targets(ms, w', k')
  {
    hide Printer.PrintMInstructions;
    if ms != [] {
      assert ms[0] in ms;
      FreeMachine(ms[1..], w, k, w', k');
      FreeTarget(ms[0], w, PrintMInstructions(ms[1..], w, k));
      FreeTarget(ms[0], w', PrintMInstructions(ms[1..], w', k'));
    }
  }

  lemma FreeTarget(m: MachineSource, w: Layout, k: string)
    requires LayoutFree(m)
    ensures Tight(m, w, k) && Target(m, w, k) == if m.Profile? then m.target.name else ""
  {
  }

  /** For all other scripts the layout does not matter at all. */
  lemma LayoutIrrelevant(read: ReadF64, s: Script, w: Layout, w': Layout)
    requires ValidScript(s) && IsLayout(w) && IsLayout(w') && AllReadable(read, s.works)
    requires forall m :: m in MachineOf(s) ==> LayoutFree(m)
    ensures ParseInstructions(read, Print(s, w)) == ParseInstructions(read, Print(s, w'))
  {
    hide IsLayout, ValidScript, AllReadable, Printer.Print, Builder.ParseInstructions, AllTight, Targets, LayoutFree;
    hide Printer.PrintWorks;
    var k, k' := Tok("}", w, PrintWorks(s.works, w)), Tok("}", w', PrintWorks(s.works, w'));
    FreeMachine(MachineOf(s), w, k, w', k');
    FreeMachine(MachineOf(s), w', k', w, k);
    LayoutMatters(read, s, w, w');
  }

  // ----- every supported tree is the meaning of a script

  /** The rate of a distribution can be written down. */
  ghost predicate Writable(read: ReadF64, d: A.Dist) {
    d.Exp? && exists t :: IsValueText(t) && read(t) == Some(d.rate)
  }

  /** No helper inside a helper. */
  predicate Flat(i: A.Instruction) {
    forall a :: a in Arguments(i) ==> FlatArg(a)
  }

  predicate SupportedMachine(m: A.MachineInstruction) {
    match m
    case Server(port) => port < U16
    case Profile(target) => IsIdentText(target)
    case Path(value) => IsValueText(value)
  }

  ghost predicate SupportedNode(read: ReadF64, n: A.Node) {
    match n
    case Machine(ms) => forall m :: m in ms ==> SupportedMachine(m)
    case Work(name, args, body, dist) =>
      && IsIdentText(name)
      && (forall k :: k in args ==> IsIdentText(k) && IsValueText(args[k]))
      && (forall i :: i in body ==> ValidInstruction(i) && Flat(i))
      && (dist.Some? ==> Writable(read, dist.value))
  }

  ghost predicate SupportedAst(read: ReadF64, nodes: seq<A.Node>) {
    && (forall i :: 0 <= i < |nodes| ==> SupportedNode(read, nodes[i]))
    && (forall i :: 1 <= i < |nodes| ==> nodes[i].Work?)
  }

  /** Every map can be listed. */
  lemma {:induction false} Listing(m: map<string, string>) returns (es: seq<(string, string)>)
    ensures ToMap(es) == m
    ensures forall e :: e in es ==> e.0 in m && m[e.0] == e.1
  {
    if m == map[] {
      es := [];
    } else {
      var k :| k in m;
      var front := Listing(m - {k});
      es := front + [(k, m[k])];
      assert es[..|es| - 1] == front;
    }
  }

  predicate FlatArg(a: A.Arg) {
    a.Dynamic? ==> forall b :: b in a.args ==> b.Const?
  }

  lemma FlatArgIsReduced(a: A.Arg)
    requires FlatArg(a)
    ensures Reduced(a) == a
  {
    if a.Dynamic? {
      assert forall k :: 0 <= k < |a.args| ==> a.args[k] in a.args;
      assert HelperTexts(a.args) == a.args;
    }
  }

  lemma FlatIsReduced(i: A.Instruction)
    requires Flat(i)
    ensures ReducedInstruction(i) == i
  {
    hide FlatArg, Reduced;
    forall a | a in Arguments(i)
      ensures Reduced(a) == a
    {
      FlatArgIsReduced(a);
    }
    match i
    case Task(name, args) =>
      assert name in Arguments(i);
      assert forall k :: 0 <= k < |args| ==> args[k] in Arguments(i);
      assert ReducedAll(args) == args;
    case Open(path) => assert path in Arguments(i);
    case Debug(text) => assert text in Arguments(i);
    case Ping(server) => assert server in Arguments(i);
  }

  lemma BodiesFlat(body: seq<A.Instruction>)
    requires forall i :: i in body ==> Flat(i)
    ensures Bodies(body) == body
  {
    hide Flat, ReducedInstruction;
    forall k | 0 <= k < |body|
      ensures ReducedInstruction(body[k]) == body[k]
    {
      FlatIsReduced(body[k]);
    }
  }

  lemma WorkSourceOf(read: ReadF64, n: A.Node) returns (u: WorkSource)
    requires SupportedNode(read, n) && n.Work?
    ensures ValidWork(u) && Readable(read, u) && WorkMeaning(read, u) == n
  {
    hide ValidInstruction, Flat, Bodies;
    var es := Listing(n.args);
    var dist: Option<DistSource> := None;
    if n.dist.Some? {
      var t :| IsValueText(t) && read(t) == Some(n.dist.value.rate);
      dist := Some(DistSource("exp", t));
    }
    u := WorkSource(n.name, es, n.instructions, dist);
    BodiesFlat(n.instructions);
  }

  lemma {:induction false} WorkSourcesOf(read: ReadF64, nodes: seq<A.Node>) returns (us: seq<WorkSource>)
    requires forall i :: 0 <= i < |nodes| ==> SupportedNode(read, nodes[i]) && nodes[i].Work?
    ensures (forall u :: u in us ==> ValidWork(u)) && AllReadable(read, us) && WorksMeaning(read, us) == nodes
  {
    hide ValidWork, WorkMeaning, Readable, SupportedNode;
    if nodes == [] {
      us := [];
    } else {
      var u := WorkSourceOf(read, nodes[0]);
      var rest := WorkSourcesOf(read, nodes[1..]);
      us := [u] + rest;
      assert us[1..] == rest;
    }
  }

  function MSource(m: A.MachineInstruction): MachineSource {
    match m
    case Server(port) => MachineSource.Server(port)
    case Profile(target) => MachineSource.Profile(A.Var(target))
    case Path(value) => MachineSource.Path(value)
  }

  function MSources(ms: seq<A.MachineInstruction>): seq<MachineSource> {
    if ms == [] then [] else [MSource(ms[0])] + MSources(ms[1..])
  }

  predicate OneDigitPort(m: A.MachineInstruction) {
    m.Server? && m.port < 10
  }

  /** The layout leaves single digits alone. */
  ghost predicate TightDigits(w: Layout) {
    forall t, k :: |t| == 1 && IsDigit(t[0]) ==> w.pad(t, k) == ""
  }

  lemma MSourceMeaning(m: A.MachineInstruction, w: Layout, k: string)
    requires SupportedMachine(m) && (OneDigitPort(m) ==> TightDigits(w))
    ensures ValidMInstruction(MSource(m)) && MMeaning(MSource(m), w, k) == Ok(m)
  {
    hide Printer.Padded;
    if OneDigitPort(m) {
      assert |Decimal.Dec(m.port)| == 1;
    }
  }

  lemma {:induction false} MSourcesMeaning(ms: seq<A.MachineInstruction>, w: Layout, k: string)
    requires forall m :: m in ms ==> SupportedMachine(m) && (OneDigitPort(m) ==> TightDigits(w))
    ensures forall m :: m in MSources(ms) ==> ValidMInstruction(m)
    ensures Collect(MMeanings(MSources(ms), w, k)) == Ok(ms)
  {
    hide SupportedMachine, OneDigitPort, TightDigits, MMeaning, ValidMInstruction, MSource, Printer.PrintMInstructions;
    if ms != [] {
      assert ms[0] in ms;
      MSourcesMeaning(ms[1..], w, k);
      MSourceMeaning(ms[0], w, PrintMInstructions(MSources(ms[1..]), w, k));
      var rs := MMeanings(MSources(ms), w, k);
      assert rs[1..] == MMeanings(MSources(ms[1..]), w, k);
      CollectAll(rs);
      CollectAll(rs[1..]);
      assert forall i :: 1 <= i < |rs| ==> rs[i] == rs[1..][i - 1];
      assert Collect(rs).value == ms;
    }
  }

  lemma MachineSourceOf(read: ReadF64, ms: seq<A.MachineInstruction>, us: seq<WorkSource>, w: Layout)
    requires forall m :: m in ms ==> SupportedMachine(m) && (OneDigitPort(m) ==> TightDigits(w))
    requires AllReadable(read, us)
    ensures forall m :: m in MSources(ms) ==> ValidMInstruction(m)
    ensures Meaning(read, Script(Some(MSources(ms)), us), w) == Ok([A.Node.Machine(ms)] + WorksMeaning(read, us))
  {
    hide SupportedMachine, OneDigitPort, TightDigits, MMeanings, ValidMInstruction, MSources, AllReadable;
    hide WorksMeaning, Printer.PrintWorks;
    MSourcesMeaning(ms, w, Tok("}", w, PrintWorks(us, w)));
  }

  lemma ScriptOf(read: ReadF64, nodes: seq<A.Node>, w: Layout) returns (s: Script)
    requires SupportedAst(read, nodes) && (HasOneDigitPort(nodes) ==> TightDigits(w))
    ensures ValidScript(s) && AllReadable(read, s.works) && Meaning(read, s, w) == Ok(nodes)
  {
    hide ValidWork, AllReadable, OneDigitPort, TightDigits, MachineMeaning, ValidMInstruction, MSources, WorksMeaning;
    hide SupportedMachine;
    if nodes != [] && nodes[0].Machine? {
      var us := WorkSourcesOf(read, nodes[1..]);
      var ms := nodes[0].mInstructions;
      s := Script(Some(MSources(ms)), us);
      MachineSourceOf(read, ms, us, w);
      assert nodes == [nodes[0]] + nodes[1..];
    } else {
      var us := WorkSourcesOf(read, nodes);
      s := Script(None, us);
    }
  }

  predicate HasOneDigitPort(nodes: seq<A.Node>) {
    nodes != [] && nodes[0].Machine? && exists m :: m in nodes[0].mInstructions && OneDigitPort(m)
  }

  /**
   Every supported syntax tree is what some source parses to, in any given layout; only
   for one-digit ports the layout has to leave single digits alone.
   */
  lemma EveryTreeIsParsed(read: ReadF64, nodes: seq<A.Node>, w: Layout)
    requires SupportedAst(read, nodes) && IsLayout(w) && (HasOneDigitPort(nodes) ==> TightDigits(w))
    ensures exists s :: ValidScript(s) && ParseInstructions(read, Print(s, w)) == Some(Ok(nodes))
  {
    hide ValidScript, SupportedAst, IsLayout, Builder.ParseInstructions, Printer.Print, Meaning, AllReadable;
    hide HasOneDigitPort, TightDigits;
    var s := ScriptOf(read, nodes, w);
    RoundTrip(read, s, w);
  }
}
