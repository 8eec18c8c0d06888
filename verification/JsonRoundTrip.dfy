/** Printing and parsing are inverse. */
module JsonRoundTrip {
  import opened Options
  import opened JsonTree
  import opened JsonLexer
  import opened JsonGrammar
  import opened JsonBuilder
  import opened JsonRun
  import opened JsonInvariant
  import opened JsonPrint
  import opened JsonReading

  /** The start of a document, or a builder that waits for a value. */
  predicate Base(m: Builder) { (m.state == 0 && m.path == [] && Settled(m)) || Awaits(m) }

  /** An open container below the base, with its first k children read. */
  function Inside(m: Builder, t: Tree, k: nat): Builder
    requires k <= |t.kids|
  {
    m.(state := (if t.kind == OBJECT then (if k == 0 then 2 else 3) else if k == 0 then 8 else 9),
       path := m.path + [Tree(t.kind, [], t.kids[..k])])
  }

  /** The builder once the container t is closed. */
  function Finish(m: Builder, t: Tree): Builder
    requires Base(m)
  {
    if m.path == [] then m.(state := 99, path := [t]) else AfterValue(m, t)
  }

  lemma InsideSettled(m: Builder, t: Tree, k: nat)
    requires Base(m) && k <= |t.kids|
    ensures Settled(Inside(m, t, k)) && Last(Inside(m, t, k).path) == Tree(t.kind, [], t.kids[..k])
  {
  }

  lemma CloseContainer(m: Builder, t: Tree)
    requires Base(m) && (t.kind == OBJECT || t.kind == ARRAY) && t.text == [] && (m.path == [] ==> t.kind == OBJECT)
    ensures React(Inside(m, t, |t.kids|), if t.kind == OBJECT then END_OBJECT else END_ARRAY) == Next(Finish(m, t))
  {
    var n := |t.kids|;
    var q := Inside(m, t, n).path;
    assert t.kids[..n] == t.kids;
    assert Last(q) == t;
    assert q[..|q| - 1] == m.path;
    if m.path != [] {
      assert Up(q) == WithKid(m.path, t);
      assert q[|q| - 2] == Last(m.path);
    } else {
      assert q == [t];
    }
  }

  lemma OpenContainer(m: Builder, s: Text, i: nat, t: Tree)
    requires Base(m) && (t.kind == OBJECT || (t.kind == ARRAY && m.path != []))
    requires At(s, i, [if t.kind == OBJECT then '{' else '[']) && i + 1 < |s|
    ensures Ready(Inside(m, t, 0)) && Rest(m, s, i) == Rest(Inside(m, t, 0), s, i + 1)
  {
    hide Rest;
    assert t.kids[..0] == [];
    var begun := m.(state := if t.kind == OBJECT then 1 else 7);
    if t.kind == OBJECT {
      ReadMark(m, s, i, '{', BEGIN_OBJECT, begun);
    } else {
      ReadMark(m, s, i, '[', BEGIN_ARRAY, begun);
    }
    ReadOpen(begun, s, i + 1);
  }

  /** After the comma, if there is one. */
  function BeforeKid(m: Builder, t: Tree, k: nat): Builder
    requires k <= |t.kids|
  {
    Inside(m, t, k).(state := if t.kind == ARRAY then 8 else if k == 0 then 2 else 4)
  }

  lemma ReadComma(m: Builder, s: Text, i: nat, t: Tree, k: nat)
    requires Base(m) && (t.kind == OBJECT || t.kind == ARRAY) && k < |t.kids|
    requires At(s, i, if k > 0 then "," else "")
    ensures var r := BeforeKid(m, t, k);
            Settled(r) && Rest(Inside(m, t, k), s, i) == Rest(r, s, i + if k > 0 then 1 else 0)
  {
    InsideSettled(m, t, k);
    if k > 0 {
      ReadMark(Inside(m, t, k), s, i, ',', VALUE_SEPARATOR, BeforeKid(m, t, k));
    }
  }

  /** What follows a child ends a number. */
  lemma KidEnds(t: Tree, k: nat, closer: Char)
    requires 0 < k <= |t.kids| && PrintKids(t, k).Some?
    ensures (PrintKids(t, k).value + [closer])[0] == if k < |t.kids| then ',' else closer
  {
    hide Print;
  }

  lemma ReadElement(m: Builder, s: Text, i: nat, t: Tree, k: nat)
    requires Base(m) && ValueOk(t) && t.kind == ARRAY && m.path != [] && k < |t.kids|
    requires var p := Print(t.kids[k], Some(ARRAY)); p.Some? && At(s, i, p.value) && Ends(s, i + |p.value|)
    ensures var r := Inside(m, t, k + 1);
            Ready(BeforeKid(m, t, k)) && Ready(r) && Rest(BeforeKid(m, t, k), s, i) ==
                Rest(r, s, i + |Print(t.kids[k], Some(ARRAY)).value|)
    decreases t, 0, |t.kids| - k, 0
  {
    hide Rest, Print;
    InsideSettled(m, t, k);
    var b := BeforeKid(m, t, k);
    ReadValue(b, s, i, t.kids[k]);
    assert t.kids[..k] + [t.kids[k]] == t.kids[..k + 1];
    assert AfterValue(b, t.kids[k]).path == Inside(m, t, k + 1).path;
  }

  /** Where the parts of a printed pair are. */
  lemma PairThere(s: Text, i: nat, pair: Tree)
    requires LabelOk(pair)
    requires var p := Print(pair, Some(OBJECT)); p.Some? && At(s, i, p.value) && Ends(s, i + |p.value|)
    ensures var v := Print(pair.kids[0], Some(ARRAY));
            var j := i + |pair.text| + 2;
            && At(s, i, Quoted(pair.text)) && At(s, j, ":")
            && v.Some? && At(s, j + 1, v.value) && Ends(s, j + 1 + |v.value|)
            && j + 1 + |v.value| == i + |Print(pair, Some(OBJECT)).value|
  {
    PairPrints(pair);
    var v := pair.kids[0];
    assert Print(v, Some(STRING)) == Print(v, Some(ARRAY));
    hide Print, PrintKids;
    var q, text := Quoted(pair.text), Print(v, Some(ARRAY)).value;
    var colon: Text := ":";
    assert |q| == |pair.text| + 2;
    hide Quoted;
    assert q + colon + text == q + (colon + text);
    AtBoth(s, i, q, colon + text);
    AtBoth(s, i + |q|, colon, text);
  }

  /** The states on the way from a label to its value. */
  lemma PairSteps(m: Builder, t: Tree, k: nat)
    requires Base(m) && t.kind == OBJECT && k < |t.kids| && t.kids[k].kind == STRING
    ensures var b := BeforeKid(m, t, k);
            var b5 := b.(state := 5, path := Opened(b.path, STRING, t.kids[k].text));
            var b6 := b5.(state := 6);
            && Settled(b) && Settled(b5) && Awaits(b6)
            && React(b.(lex := b.lex.(text := Some(t.kids[k].text))), TOKEN_STRING) == Next(b5)
            && React(b5, NAME_SEPARATOR) == Next(b6)
  {
    InsideSettled(m, t, k);
  }

  lemma ReadPair(m: Builder, s: Text, i: nat, t: Tree, k: nat)
    requires Base(m) && ValueOk(t) && t.kind == OBJECT && k < |t.kids|
    requires var p := Print(t.kids[k], Some(OBJECT)); p.Some? && At(s, i, p.value) && Ends(s, i + |p.value|)
    ensures var r := Inside(m, t, k + 1);
            Ready(BeforeKid(m, t, k)) && Ready(r) && Rest(BeforeKid(m, t, k), s, i) ==
                Rest(r, s, i + |Print(t.kids[k], Some(OBJECT)).value|)
    decreases t, 0, |t.kids| - k, 0
  {
    hide Rest, React, Print, StringBody, NumberBody, At, Ends, Quoted, Base, Inside, BeforeKid, AfterValue, Opened;
    var pair := t.kids[k];
    assert LabelOk(pair);
    var v := pair.kids[0];
    PairThere(s, i, pair);
    PairSteps(m, t, k);
    hide ValueOk;
    var j := i + |pair.text| + 2;
    var b := BeforeKid(m, t, k);
    var b5 := b.(state := 5, path := Opened(b.path, STRING, pair.text));
    var b6 := b5.(state := 6);
    ReadString(b, s, i, pair.text, b5);
    ReadMark(b5, s, j, ':', NAME_SEPARATOR, b6);
    ReadValue(b6, s, j + 1, v);
    PairInside(m, t, k, b6);
  }

  lemma PairInside(m: Builder, t: Tree, k: nat, b: Builder)
    requires Base(m) && t.kind == OBJECT && k < |t.kids| && |t.kids[k].kids| == 1 && t.kids[k].kind == STRING
    requires var c := BeforeKid(m, t, k); b == c.(state := 6, path := Opened(c.path, STRING, t.kids[k].text))
    ensures AfterValue(b, t.kids[k].kids[0]) == Inside(m, t, k + 1)
  {
    var v := t.kids[k].kids[0];
    var pair := Leaf(STRING, t.kids[k].text);
    var p := WithKid(b.path, v);
    assert [] + [v] == [v];
    assert Last(p) == t.kids[k];
    assert p[..|p| - 1] == Inside(m, t, k).path;
    assert t.kids[..k] + [t.kids[k]] == t.kids[..k + 1];
    assert Up(p) == Inside(m, t, k + 1).path;
  }

  /** A printed value is read into a finished child of the node that awaits it. */
  lemma {:induction false} ReadValue(m: Builder, s: Text, i: nat, t: Tree)
    requires Awaits(m) && ValueOk(t)
    requires Print(t, Some(ARRAY)).Some? && At(s, i, Print(t, Some(ARRAY)).value) &&
        Ends(s, i + |Print(t, Some(ARRAY)).value|)
    ensures var r := AfterValue(m, t); Ready(r) && Rest(m, s, i) == Rest(r, s, i + |Print(t, Some(ARRAY)).value|)
    decreases t, 2, 0, 0
  {
    if t.kind == OBJECT || t.kind == ARRAY {
      ReadContainer(m, s, i, t);
    } else {
      ReadLeaf(m, s, i, t);
    }
  }

  lemma {:induction false} ReadContainer(m: Builder, s: Text, i: nat, t: Tree)
    requires Base(m) && ValueOk(t) && (t.kind == OBJECT || (t.kind == ARRAY && m.path != []))
    requires Print(t, Some(ARRAY)).Some? && At(s, i, Print(t, Some(ARRAY)).value)
    ensures var r := Finish(m, t); Ready(r) && Rest(m, s, i) == Rest(r, s, i + |Print(t, Some(ARRAY)).value|)
    decreases t, 1, 0, 0
  {
    hide Rest, ValueOk;
    var opener: Char := if t.kind == OBJECT then '{' else '[';
    var closer: Char := if t.kind == OBJECT then '}' else ']';
    var kids := PrintKids(t, 0).value;
    assert Print(t, Some(ARRAY)).value == [opener] + kids + [closer];
    assert [opener] + kids + [closer] == [opener] + (kids + [closer]);
    AtBoth(s, i, [opener], kids + [closer]);
    OpenContainer(m, s, i, t);
    ReadKids(m, s, i + 1, t, 0);
  }

  /** The children from number k on, and the closing bracket. */
  lemma {:induction false} ReadKids(m: Builder, s: Text, i: nat, t: Tree, k: nat)
    requires Base(m) && ValueOk(t) && (t.kind == OBJECT || (t.kind == ARRAY && m.path != [])) && k <= |t.kids|
    requires PrintKids(t, k).Some? && At(s, i, PrintKids(t, k).value + [if t.kind == OBJECT then '}' else ']'])
    ensures var r := Finish(m, t);
            && Ready(r) && Ready(Inside(m, t, k))
            && Rest(Inside(m, t, k), s, i) == Rest(r, s, i + |PrintKids(t, k).value| + 1)
    decreases t, 0, |t.kids| - k, 1
  {
    hide Rest, React, Print, PrintKids, At, Ends, Base, Inside, BeforeKid, Finish, StringBody, NumberBody;
    var closer: Char := if t.kind == OBJECT then '}' else ']';
    InsideSettled(m, t, k);
    if k == |t.kids| {
      ReadCloser(m, s, i, t);
    } else {
      var j := i + if k > 0 then 1 else 0;
      KidThere(s, i, t, k, closer);
      var kid := Print(t.kids[k], Some(t.kind)).value;
      ReadComma(m, s, i, t, k);
      assert t.kind == OBJECT ==> LabelOk(t.kids[k]);
      hide ValueOk, LabelOk, Ready;
      if t.kind == OBJECT {
        ReadPair(m, s, j, t, k);
      } else {
        ReadElement(m, s, j, t, k);
      }
      ReadKids(m, s, j + |kid|, t, k + 1);
    }
  }

  lemma ReadCloser(m: Builder, s: Text, i: nat, t: Tree)
    requires Base(m) && ValueOk(t) && (t.kind == OBJECT || (t.kind == ARRAY && m.path != []))
    requires At(s, i, PrintKids(t, |t.kids|).value + [if t.kind == OBJECT then '}' else ']'])
    ensures var n := |t.kids|;
            && PrintKids(t, n) == Some("") && Ready(Finish(m, t)) && Ready(Inside(m, t, n))
            && Rest(Inside(m, t, n), s, i) == Rest(Finish(m, t), s, i + 1)
  {
    hide Rest, React, StringBody, NumberBody;
    var n := |t.kids|;
    var closer: Char := if t.kind == OBJECT then '}' else ']';
    InsideSettled(m, t, n);
    assert PrintKids(t, n).value + [closer] == [closer];
    CloseContainer(m, t);
    hide Base, Inside, Finish, ValueOk;
    ReadMark(Inside(m, t, n), s, i, closer, if t.kind == OBJECT then END_OBJECT else END_ARRAY, Finish(m, t));
  }

  /** Where the parts of the printed children are. */
  lemma KidThere(s: Text, i: nat, t: Tree, k: nat, closer: Char)
    requires k < |t.kids| && PrintKids(t, k).Some? && At(s, i, PrintKids(t, k).value + [closer]) && (closer == '}' ||
        closer == ']')
    ensures At(s, i, if k > 0 then "," else "")
    ensures var j := i + if k > 0 then 1 else 0;
            var p := Print(t.kids[k], Some(t.kind));
            && p.Some? && At(s, j, p.value) && Ends(s, j + |p.value|)
            && PrintKids(t, k + 1).Some? && At(s, j + |p.value|, PrintKids(t, k + 1).value + [closer])
            && j + |p.value| + |PrintKids(t, k + 1).value| == i + |PrintKids(t, k).value|
  {
    KidParts(t, k);
    KidEnds(t, k + 1, closer);
    hide Print, PrintKids;
    var kid := Print(t.kids[k], Some(t.kind)).value;
    var more := PrintKids(t, k + 1).value;
    var comma: Text := if k > 0 then "," else "";
    hide At, Ends;
    PartsThere(s, i, comma, kid, more, closer);
  }

  lemma PartsThere(s: Text, i: nat, comma: Text, kid: Text, more: Text, closer: Char)
    requires At(s, i, comma + kid + more + [closer])
    requires var c := (more + [closer])[0]; c == ',' || c == ']' || c == '}'
    ensures At(s, i, comma) && At(s, i + |comma|, kid) && At(s, i + |comma| + |kid|, more + [closer])
    ensures Ends(s, i + |comma| + |kid|)
  {
    hide At, Ends;
    var tail := more + [closer];
    FourParts(comma, kid, more, [closer]);
    AtBoth(s, i, comma, kid + tail);
    AtBoth(s, i + |comma|, kid, tail);
    EndsAt(s, i + |comma| + |kid|, tail);
  }

  lemma FourParts(a: Text, b: Text, c: Text, d: Text)
    ensures a + b + c + d == a + (b + (c + d))
  {
  }

  lemma KidParts(t: Tree, k: nat)
    requires k < |t.kids| && PrintKids(t, k).Some?
    ensures var comma: Text := if k > 0 then "," else "";
            && Print(t.kids[k], Some(t.kind)).Some? && PrintKids(t, k + 1).Some?
            && PrintKids(t, k).value == comma + Print(t.kids[k], Some(t.kind)).value + PrintKids(t, k + 1).value
  {
    hide Print;
  }

  lemma EndsAt(s: Text, i: nat, tail: Text)
    requires At(s, i, tail) && tail != [] && (tail[0] == ',' || tail[0] == ']' || tail[0] == '}')
    ensures Ends(s, i)
  {
    assert s[i..i + |tail|][0] == tail[0];
  }

  /** Printing, then parsing, is the identity on the objects that can be printed as JSON. */
  lemma {:induction false} PrintThenParse(t: Tree)
    requires t.kind == OBJECT && ValueOk(t)
    ensures Print(t, None).Some? && Document(Print(t, None).value) == Some(t)
  {
    ValuePrints(t, Some(ARRAY));
    var s := Print(t, None).value;
    assert s[0..0 + |s|] == s;
    ReadContainer(START, s, 0, t);
  }

  /** Whatever the parser accepts is such an object, so printing a parsed document loses nothing. */
  lemma {:induction false} ParseThenPrint(s: Text)
    requires Document(s).Some?
    ensures var t := Document(s).value;
            t.kind == OBJECT && ValueOk(t) && Print(t, None).Some? && Document(Print(t, None).value) == Some(t)
  {
    RestKeeps(START, s, 0);
    var m := Fragment(START, s).m;
    assert Open(m.path[0]);
    OpenIsValue(m.path[0]);
    PrintThenParse(m.path[0]);
  }
}
