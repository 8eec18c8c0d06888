/** JSON values as the library stores them. A label is a string whose one child is its value. */
module JsonTree {
  /** A char of a C string: a byte other than NUL. */
  type Char = c: char | 0 < c as int < 256 witness 'a'
  type Text = seq<Char>

  datatype Kind = STRING | NUMBER | OBJECT | ARRAY | TRUE | FALSE | NULL

  /** A node, its text and its children in order. Only strings and numbers have a text. */
  datatype Tree = Tree(kind: Kind, text: Text, kids: seq<Tree>)

  function Leaf(kind: Kind, text: Text): Tree { Tree(kind, text, []) }

  predicate IsDigit(c: Char) { '0' <= c <= '9' }

  predicate IsHexDigit(c: Char) { IsDigit(c) || 'a' <= c <= 'f' || 'A' <= c <= 'F' }

  predicate IsBlank(c: Char) { c == ' ' || c == '\t' || c == '\n' || c == '\r' }
}
