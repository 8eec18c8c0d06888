/** The parser together with the printer and with the freeing of nodes, on linked nodes. */
module JsonReprint {
  import opened Options
  import opened JsonTree
  import opened JsonLexer
  import opened JsonGrammar
  import opened JsonBuilder
  import opened JsonRun
  import opened JsonPrint
  import opened JsonRoundTrip
  import opened JsonHeap
  import opened JsonStack
  import opened JsonPrinter
  import opened JsonParsing
  import opened JsonFree

  /** A root object, printed and parsed again, is an equal tree of new nodes. */
  method PrintAndParse(root: Node, ghost kids: Kids, ghost val: Values)
    returns (copy: Node, ghost kids': Kids, ghost val': Values)
    requires Linked(kids) && AllFinished(kids, val, TextsOf(kids.Keys)) && root in val && root.parent == null
    requires val[root].kind == OBJECT && ValueOk(val[root])
    ensures copy in val' && val'[copy] == val[root]
    ensures Linked(kids') && AllFinished(kids', val', TextsOf(kids'.Keys)) && fresh(kids'.Keys)
  {
    hide Linked, AllFinished, ValueOk, Print, Document;
    PrintThenParse(val[root]);
    var code, text := TreeToString(root, kids, val);
    var parsed;
    code, parsed, kids', val' := ParseDocument(text);
    copy := parsed;
  }

  /** Any accepted text can be parsed and printed, and the print is that of its tree: it parses to the same tree. */
  method ParseAndPrint(text: Text) returns (code: Code, again: Text)
    ensures code == OK <==> Document(text).Some?
    ensures code == OK ==> Print(Document(text).value, None) == Some(again) && Document(again) == Document(text)
  {
    hide Linked, AllFinished, Print, Document;
    ghost var kids, val;
    var root;
    code, root, kids, val := ParseDocument(text);
    again := "";
    if code == OK {
      ParseThenPrint(text);
      code, again := TreeToString(root, kids, val);
    }
  }

  /**
   Any accepted text can be parsed and its tree freed: every node that stands for a part of the tree
   is freed once, and none is left.
   */
  method ParseAndFree(text: Text) returns (code: Code, ghost nodes: set<Node>, ghost freed: seq<Node>)
    ensures code == OK <==> Document(text).Some?
    ensures code == OK ==> fresh(nodes) && nodes == (set n | n in freed) && NoDuplicates(freed)
    ensures code == OK ==> |freed| == Size(Document(text).value)
  {
    hide Linked, AllFinished, Document, Size, PostOrder, Ranked, NoDuplicates;
    ghost var kids, val;
    var root;
    code, root, kids, val := ParseDocument(text);
    nodes, freed := kids.Keys, [];
    if code == OK {
      ghost var tx := TextsOf(kids.Keys);
      FinishedRanked(kids, val, tx);
      ghost var rank: Ranks := map n | n in val :: Weight(val[n]);
      PostOrderSize(kids, rank, val, tx, root);
      EveryNode(kids, rank, root);
      ghost var left;
      freed, left := FreeValue(root, kids, rank);
    }
  }

  lemma EveryNode(kids: Kids, rank: Ranks, root: Node)
    requires Linked(kids) && Ranked(kids, rank) && rank.Keys == kids.Keys && root in rank && OneRoot([root], kids)
    ensures kids.Keys == set n | n in PostOrder(kids, rank, root)
  {
    KidsInside(kids, rank);
    hide LinkedIn, PostOrder, Ranked;
    forall x | x in kids
      ensures x in PostOrder(kids, rank, root)
    {
      AllBelow(PointersOf(kids.Keys), kids, rank, root, x);
    }
    forall x | x in PostOrder(kids, rank, root)
      ensures x in kids
    {
      OnlySubtree(kids, rank, root, kids.Keys, x);
    }
  }

  lemma KidsInside(kids: Kids, rank: Ranks)
    requires Ranked(kids, rank) && rank.Keys == kids.Keys
    ensures forall y, k :: y in kids.Keys && y in kids && k in kids[y] ==> k in kids.Keys
  {
  }
}
