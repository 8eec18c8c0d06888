/** json_escape and json_unescape. */
module JsonEscape {
  import opened Options
  import opened JsonTree
  import opened JsonLexer
  import opened JsonGrammar
  import opened JsonPrint
  import opened RcStrings

  /** The letter of a short escape, or NUL for a char that has none. */
  function ShortEscape(c: Char): char {
    if c == '\\' || c == '"' || c == '/' then c
    else if c as int == 8 then 'b'
    else if c as int == 12 then 'f'
    else if c == '\n' then 'n'
    else if c == '\r' then 'r'
    else if c == '\t' then 't'
    else '\0'
  }

  function HexDigit(n: nat): Char
    requires n < 16
  {
    if n < 10 then ('0' as int + n) as char else ('a' as int + n - 10) as char
  }

  /** What one byte becomes. Bytes from 128 on are negative chars and stay as they are. */
  function Escape(c: Char): Text {
    if ShortEscape(c) != '\0' then ['\\', ShortEscape(c)]
    else if c < ' ' then ['\\', 'u', '0', '0', HexDigit(c as int / 16), HexDigit(c as int % 16)]
    else [c]
  }

  function Escaped(s: Text): Text {
    if s == [] then [] else Escaped(s[..|s| - 1]) + Escape(s[|s| - 1])
  }

  /** json_escape. */
  method JsonEscape(text: Text) returns (out: Text)
    ensures out == Escaped(text)
  {
    var output := new RcString(|text|);
    for i := 0 to |text|
      invariant fresh(output) && fresh(output.text) && output.Valid() && output.Contents() == Escaped(text[..i])
    {
      assert text[..i + 1][..i] == text[..i];
      var c := text[i];
      if c == '\\' {
        output.CatCs("\\\\");
      } else if c == '"' {
        output.CatCs("\\\"");
      } else if c == '/' {
        output.CatCs("\\/");
      } else if c as int == 8 {
        output.CatCs("\\b");
      } else if c as int == 12 {
        output.CatCs("\\f");
      } else if c == '\n' {
        output.CatCs("\\n");
      } else if c == '\r' {
        output.CatCs("\\r");
      } else if c == '\t' {
        output.CatCs("\\t");
      } else if c as int >= 128 {
        output.CatC(c);
      } else if c as int < 0x20 {
        output.CatCs(['\\', 'u', '0', '0', HexDigit(c as int / 16), HexDigit(c as int % 16)]);
      } else {
        output.CatC(c);
      }
    }
    assert text[..|text|] == text;
    out := output.Unwrap();
  }

  /** The escape of a byte is one string character of section 7 of RFC 8259. */
  lemma EscapeIsUnit(c: Char)
    ensures Escape(c) != [] && UnitLength(Escape(c)) == |Escape(c)|
  {
  }

  /** Whatever the bytes, their escape may stand between quotes. */
  lemma {:induction false} EscapedIsBody(s: Text)
    ensures StringBody(Escaped(s))
  {
    if s != [] {
      EscapedIsBody(s[..|s| - 1]);
      var u := Escape(s[|s| - 1]);
      EscapeIsUnit(s[|s| - 1]);
      assert u[|u|..] == [];
      assert StringBody(u);
      StringBodyAppend(Escaped(s[..|s| - 1]), u);
    }
  }

  /** The lexer over a string body: it collects it and asks for more. */
  lemma {:induction false} LexBody(l: Lexer, s: Text, i: nat, body: Text)
    requires l.state == 1 && l.text.Some? && StringBody(body) && i + |body| <= |s| && s[i..i + |body|] == body
    ensures LexFrom(l, s, i) == LexFrom(l.(text := Some(l.text.value + body)), s, i + |body|)
    decreases |body|
  {
    hide StringBody, UnitLength, LexFrom;
    if body == [] {
      assert l.text.value + body == l.text.value;
    } else {
      BodyUnit(body);
      var n := UnitLength(body);
      var u, v := body[..n], body[n..];
      PartThere(s, i, u, v);
      LexUnit(l, s, i, u);
      LexBody(l.(text := Some(l.text.value + u)), s, i + n, v);
      assert l.text.value + u + v == l.text.value + body;
    }
  }

  lemma PartThere(s: Text, i: nat, u: Text, v: Text)
    requires i + |u + v| <= |s| && s[i..i + |u + v|] == u + v
    ensures forall k :: 0 <= k < |u| ==> s[i + k] == u[k]
    ensures s[i + |u|..i + |u| + |v|] == v
  {
    var t := s[i..i + |u + v|];
    forall k | 0 <= k < |u|
      ensures s[i + k] == u[k]
    {
      assert t[k] == u[k];
    }
    assert s[i + |u|..i + |u| + |v|] == s[i..i + |u + v|][|u|..];
  }

  lemma LexUnit(l: Lexer, s: Text, i: nat, u: Text)
    requires l.state == 1 && l.text.Some? && u != [] && UnitLength(u) == |u| && i + |u| <= |s|
    requires forall k :: 0 <= k < |u| ==> s[i + k] == u[k]
    ensures LexFrom(l, s, i) == LexFrom(l.(text := Some(l.text.value + u)), s, i + |u|)
  {
    var t := l.text.value;
    var t1 := t + [u[0]];
    if |u| == 1 {
      assert t1 == t + u;
      assert LexFrom(l, s, i) == LexFrom(l.(text := Some(t1)), s, i + 1);
    } else {
      var t2 := t1 + [u[1]];
      assert LexFrom(l, s, i) == LexFrom(l.(state := 2, text := Some(t1)), s, i + 1);
      if |u| == 2 {
        assert t2 == t + u;
        assert LexFrom(l.(state := 2, text := Some(t1)), s, i + 1) == LexFrom(l.(text := Some(t2)), s, i + 2);
      } else {
        var t3, t4, t5, t6 := t2 + [u[2]], t2 + [u[2]] + [u[3]], t2 + [u[2]] + [u[3]] + [u[4]],
            t2 + [u[2]] + [u[3]] + [u[4]] + [u[5]];
        assert t6 == t + u;
        assert LexFrom(l.(state := 2, text := Some(t1)), s, i + 1) ==
            LexFrom(l.(state := 3, text := Some(t2)), s, i + 2);
        assert LexFrom(l.(state := 3, text := Some(t2)), s, i + 2) ==
            LexFrom(l.(state := 4, text := Some(t3)), s, i + 3);
        assert LexFrom(l.(state := 4, text := Some(t3)), s, i + 3) ==
            LexFrom(l.(state := 5, text := Some(t4)), s, i + 4);
        assert LexFrom(l.(state := 5, text := Some(t4)), s, i + 4) ==
            LexFrom(l.(state := 6, text := Some(t5)), s, i + 5);
        assert LexFrom(l.(state := 6, text := Some(t5)), s, i + 5) == LexFrom(l.(text := Some(t6)), s, i + 6);
      }
    }
  }

  /** The quoted escape of any bytes is one string token, and its text is that escape. */
  lemma QuotedEscapeLexes(s: Text, line: nat)
    ensures LexFrom(Lexer(0, None, line), Quoted(Escaped(s)), 0) ==
            Lex(Lexer(0, Some(Escaped(s)), line), TOKEN_STRING, |Escaped(s)| + 2)
  {
    var body := Escaped(s);
    var q := Quoted(body);
    EscapedIsBody(s);
    assert q[1..1 + |body|] == body;
    assert q[0] == '"' && q[1 + |body|] == '"';
    hide StringBody, Escaped, Quoted;
    var l1 := Lexer(1, Some([]), line);
    assert LexFrom(Lexer(0, None, line), q, 0) == LexFrom(l1, q, 1);
    LexBody(l1, q, 1, body);
    assert [] + body == body;
  }
}
