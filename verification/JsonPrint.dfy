/** What json_tree_to_string writes for a tree. */
module JsonPrint {
  import opened Options
  import opened JsonTree
  import opened JsonLexer
  import opened JsonGrammar

  /** Both texts, if both could be written. */
  function Both(a: Option<Text>, b: Option<Text>): Option<Text> {
    if a.Some? && b.Some? then Some(a.value + b.value) else None
  }

  lemma BothAssociates(a: Option<Text>, b: Option<Text>, c: Option<Text>)
    ensures Both(Both(a, b), c) == Both(a, Both(b, c))
  {
    if a.Some? && b.Some? && c.Some? {
      assert a.value + b.value + c.value == a.value + (b.value + c.value);
    }
  }

  /** A string below an object, or without a parent, is a label. */
  predicate IsLabel(parent: Option<Kind>) { parent == None || parent == Some(OBJECT) }

  function Quoted(text: Text): Text { "\"" + text + "\"" }

  /** The text of a node below a node of kind `parent`; nothing if a label in it has no value. */
  function Print(t: Tree, parent: Option<Kind>): Option<Text>
    decreases t, 1, 0
  {
    match t.kind
    case STRING =>
      if IsLabel(parent) then
        if t.kids == [] then None else Both(Some(Quoted(t.text) + ":"), PrintKids(t, 0))
      else Both(Some(Quoted(t.text)), PrintKids(t, 0))
    case NUMBER => Some(t.text)
    case OBJECT => Both(Both(Some("{"), PrintKids(t, 0)), Some("}"))
    case ARRAY => Both(Both(Some("["), PrintKids(t, 0)), Some("]"))
    case TRUE => Some("true")
    case FALSE => Some("false")
    case NULL => Some("null")
  }

  /** The children from number i on; each but the first after a comma. */
  function PrintKids(t: Tree, i: nat): Option<Text>
    requires i <= |t.kids|
    decreases t, 0, |t.kids| - i
  {
    if i == |t.kids| then Some("")
    else
      var comma: Text := if i > 0 then "," else "";
      Both(Both(Some(comma), Print(t.kids[i], Some(t.kind))), PrintKids(t, i + 1))
  }

  /** A value and a pair can always be printed. */
  lemma {:induction false} ValuePrints(t: Tree, parent: Option<Kind>)
    requires ValueOk(t) && !IsLabel(parent)
    ensures Print(t, parent).Some?
    decreases t, 1, 0
  {
    hide StringBody, NumberBody;
    if t.kind == OBJECT || t.kind == ARRAY || t.kind == STRING {
      KidsPrint(t, 0);
    }
  }

  lemma {:induction false} KidsPrint(t: Tree, i: nat)
    requires ValueOk(t) && i <= |t.kids|
    ensures PrintKids(t, i).Some?
    decreases t, 0, |t.kids| - i
  {
    hide StringBody, NumberBody;
    if i < |t.kids| {
      if t.kind == OBJECT {
        var pair := t.kids[i];
        assert LabelOk(pair);
        assert pair.kids[0] < pair;
        ValuePrints(pair.kids[0], Some(STRING));
        PairPrints(pair);
      } else {
        ValuePrints(t.kids[i], Some(t.kind));
      }
      KidsPrint(t, i + 1);
    }
  }

  lemma PairPrints(t: Tree)
    requires t.kind == STRING && |t.kids| == 1
    ensures var v := Print(t.kids[0], Some(STRING));
            Print(t, Some(OBJECT)) == Both(Some(Quoted(t.text) + ":"), v)
  {
    var v := Print(t.kids[0], Some(STRING));
    assert PrintKids(t, 1) == Some("");
    var none: Text := "";
    if v.Some? {
      assert none + v.value + none == v.value;
    }
    assert PrintKids(t, 0) == v;
  }
}
