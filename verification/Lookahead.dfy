/** What certain characters cannot start, and where certain words end. */
module Lookahead {
  import opened Grammar
  import opened Shape
  import opened Tokens

  /** The literal t is not at the start of a text whose i-th character differs. */
  lemma NotLit(t: string, s: string, i: nat)
    requires i < |t| && i < |s| && t[i] != s[i]
    ensures !(t <= s)
  {
  }

  /** A word of a function name differs from those tried before it. */
  lemma OtherFuncNames(rule: Rule, s: string)
    requires rule in KeywordRules(FuncName) && Word(rule).value <= s
    ensures rule != Rule.Task ==> !("task" <= s)
    ensures rule != Rule.Network ==> !("network" <= s)
    ensures rule != Rule.Port ==> !("port" <= s)
    ensures rule != Rule.Open ==> !("open" <= s)
    ensures rule != Rule.Ping ==> !("ping" <= s)
  {
    var w := Word(rule).value;
    assert s[0] == w[0] && s[1] == w[1];
  }

  /** A function name is read from its word, in spite of the names tried before it. */
  lemma FuncNameFirst(rule: Rule, s: string)
    requires rule in KeywordRules(FuncName) && Word(rule).value <= s
    ensures var w := Word(rule).value;
            PFuncName(s) == Done(Pair(FuncName, w, [Pair(rule, w, [])]), s[|w|..])
  {
    OtherFuncNames(rule, s);
  }

  /** A keyword cannot reach past an identifier into what follows. */
  lemma KeywordInIdent(t: string, name: string, r: string)
    requires (forall i :: 0 <= i < |t| ==> IsIdentChar(t[i])) && Stops(r)
    requires t <= name + r
    ensures t <= name
  {
    var s := name + r;
    assert forall i :: 0 <= i < |t| ==> t[i] == s[i];
    assert |s| > |name| ==> s[|name|] == r[0];
  }

  /** No argument and no parameter starts with a closing delimiter. */
  lemma NoItemAt(s: string)
    requires s != "" && (s[0] == ')' || s[0] == '}')
    ensures PArg(s).Fail? && PIdent(s).Fail? && PParam(s).Fail?
  {
    NotLit("random_path", s, 0);
    NotLit("random_string", s, 0);
  }

  lemma NoOptAt(s: string)
    requires s != "" && s[0] == '}'
    ensures POpt(s).Fail?
  {
    hide Grammar.Skip;
  }

  /** What ends a list of expressions or machine instructions. */
  predicate BlockEnds(k: string) {
    k == "" || k[0] == '}'
  }

  lemma NoExprAt(k: string)
    requires BlockEnds(k)
    ensures PExpr(k).Fail? && PMachineInstruction(k).Fail? && NoColon(k)
  {
    hide Grammar.Skip;
  }

  lemma NoMachineAtEnd()
    ensures PMachine("").Fail?
  {
  }

  /** What is no distribution. */
  predicate NoColon(k: string) {
    k == "" || k[0] != ':'
  }

  lemma NoDistAt(k: string)
    requires NoColon(k)
    ensures PDist(k).Fail?
  {
    hide Grammar.Skip;
  }
}
