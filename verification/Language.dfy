/** From sources to programs: the grammar and the builder together. */
module Language {
  import opened Common
  import opened Grammar
  import opened Builder
  import opened Derivation
  import opened Totality
  import Completeness
  import A = Ast

  /** A derivation that the builder can handle, and the program it stands for. */
  ghost predicate StandsFor(read: ReadF64, tree: Pair, nodes: seq<A.Node>) {
    && Supported(read, tree) && |nodes| == |tree.inner| - 1
    && forall i :: 0 <= i < |nodes| ==> ItemBuilt(read, tree.inner[i], nodes[i])
  }

  /**
   A source is a syntax error if nothing derives it.  Otherwise exactly one tree does;
   the builder panics if that tree is not supported, and else returns a program whose
   nodes are what the items of the tree stand for.
   */
  lemma SourceToProgram(read: ReadF64, source: string)
    ensures ParseInstructions(read, source) == None <==> forall tree :: !DerivesFile(tree, source)
    ensures forall tree, tree' :: DerivesFile(tree, source) && DerivesFile(tree', source) ==> tree == tree'
    ensures forall tree :: DerivesFile(tree, source) ==>
              if Supported(read, tree) then
                ParseInstructions(read, source).value.Ok? && StandsFor(read, tree, ParseInstructions(read, source).value.value)
              else ParseInstructions(read, source) == Some(Panic)
  {
    hide Grammar.PFile, DerivesFile, Supported, ItemBuilt, Builder.BuildFile;
    Completeness.RefusedExactly(source);
    forall tree
      ensures PFile(source) == Some(tree) <==> DerivesFile(tree, source)
    {
      Completeness.ParserIsGrammar(source, tree);
    }
    if PFile(source).Some? {
      BuilderTotality(read, source);
    }
  }
}
