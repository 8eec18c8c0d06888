/** How the parser reads the parts of a printed value. */
module JsonReading {
  import opened Options
  import opened JsonTree
  import opened JsonLexer
  import opened JsonGrammar
  import opened JsonBuilder
  import opened JsonRun
  import opened JsonPrint

  /** p stands in s at i. */
  predicate At(s: Text, i: nat, p: Text) { i + |p| <= |s| && s[i..i + |p|] == p }

  lemma AtBoth(s: Text, i: nat, p: Text, q: Text)
    requires At(s, i, p + q)
    ensures At(s, i, p) && At(s, i + |p|, q)
  {
    assert s[i..i + |p|] == (p + q)[..|p|] == p;
    assert s[i + |p|..i + |p| + |q|] == (p + q)[|p|..] == q;
  }

  lemma AtChar(s: Text, i: nat, c: Char)
    requires At(s, i, [c])
    ensures i < |s| && s[i] == c
  {
    assert s[i..i + 1][0] == c;
  }

  /** One byte lexed without a token. */
  lemma Lexes(m: Builder, s: Text, i: nat)
    requires i < |s| && Ready(m) && !Opening(m.state) && Switch(m.lex.state, s[i]).token == MORE
    ensures var m' := m.(lex := Lexed(m.lex, s[i])); Ready(m') && Rest(m, s, i) == Rest(m', s, i + 1)
  {
    SwitchOk(m.lex.state, s[i]);
    hide Switch, React;
  }

  /** One byte that completes a token. */
  lemma Reacts(m: Builder, s: Text, i: nat, r: Builder)
    requires i < |s| && Ready(m) && !Opening(m.state)
    requires var k := Switch(m.lex.state, s[i]);
             && k.token != MORE && LexerOk(Lexed(m.lex, s[i]))
             && (k.token == TOKEN_STRING || k.token == TOKEN_NUMBER ==> Lexed(m.lex, s[i]).text.Some?)
    requires React(m.(lex := Lexed(m.lex, s[i])), Switch(m.lex.state, s[i]).token) == Next(r)
    ensures Ready(r) && Rest(m, s, i) == Rest(r, s, if Switch(m.lex.state, s[i]).take then i + 1 else i)
  {
    LookReady(m, s[i]);
    LookProgress(m, s[i]);
    hide Switch, React;
  }

  /** The rest of a string up to its closing quote. */
  lemma {:induction false} ReadBody(m: Builder, s: Text, i: nat, body: Text)
    requires Ready(m) && !Opening(m.state) && m.lex.state == 1 && m.lex.text.Some?
    requires StringBody(body) && At(s, i, body)
    ensures var m' := m.(lex := m.lex.(text := Some(m.lex.text.value + body)));
            Ready(m') && Rest(m, s, i) == Rest(m', s, i + |body|)
    decreases |body|
  {
    hide Rest, StringBody, UnitLength, At;
    if body == [] {
      assert m.lex.text.value + body == m.lex.text.value;
    } else {
      BodyUnit(body);
      var n := UnitLength(body);
      var u, v := body[..n], body[n..];
      AtBoth(s, i, u, v);
      ReadUnit(m, s, i, u);
      var m1 := m.(lex := m.lex.(text := Some(m.lex.text.value + u)));
      ReadBody(m1, s, i + n, v);
      assert m.lex.text.value + u + v == m.lex.text.value + body;
    }
  }

  /** One string character: a plain byte, or an escape of two or six. */
  lemma ReadUnit(m: Builder, s: Text, i: nat, u: Text)
    requires Ready(m) && !Opening(m.state) && m.lex.state == 1 && m.lex.text.Some?
    requires u != [] && UnitLength(u) == |u| && At(s, i, u)
    ensures var m' := m.(lex := m.lex.(text := Some(m.lex.text.value + u)));
            Ready(m') && Rest(m, s, i) == Rest(m', s, i + |u|)
  {
    hide React, Rest;
    var text := m.lex.text.value;
    assert u == [u[0]] + u[1..];
    AtBoth(s, i, [u[0]], u[1..]);
    AtChar(s, i, u[0]);
    Lexes(m, s, i);
    var m1 := m.(lex := Lexed(m.lex, s[i]));
    if |u| == 1 {
      assert u == [u[0]];
    } else {
      assert u[1..] == [u[1]] + u[2..];
      AtBoth(s, i + 1, [u[1]], u[2..]);
      AtChar(s, i + 1, u[1]);
      Lexes(m1, s, i + 1);
      assert text + [u[0]] + [u[1]] + u[2..] == text + u;
      if |u| == 6 {
        var m2 := m1.(lex := Lexed(m1.lex, s[i + 1]));
        ReadHex(m2, s, i + 2, u[2..]);
      } else {
        assert u[2..] == [];
        assert text + [u[0]] + [u[1]] == text + u;
      }
    }
  }

  /** The four digits of a unicode escape. */
  lemma ReadHex(m: Builder, s: Text, i: nat, h: Text)
    requires Ready(m) && !Opening(m.state) && m.lex.state == 3 && m.lex.text.Some?
    requires |h| == 4 && At(s, i, h) && forall k :: 0 <= k < 4 ==> IsHexDigit(h[k])
    ensures var m' := m.(lex := m.lex.(state := 1, text := Some(m.lex.text.value + h)));
            Ready(m') && Rest(m, s, i) == Rest(m', s, i + 4)
  {
    hide React, Rest;
    forall k | 0 <= k < 4
      ensures s[i + k] == h[k]
    {
      assert s[i..i + |h|][k] == h[k];
    }
    assert h == [h[0]] + [h[1]] + [h[2]] + [h[3]];
    var text := m.lex.text.value;
    assert text + [h[0]] + [h[1]] + [h[2]] + [h[3]] == text + h;
    Lexes(m, s, i);
    var m1 := m.(lex := Lexed(m.lex, s[i]));
    Lexes(m1, s, i + 1);
    var m2 := m1.(lex := Lexed(m1.lex, s[i + 1]));
    Lexes(m2, s, i + 2);
    var m3 := m2.(lex := Lexed(m2.lex, s[i + 2]));
    Lexes(m3, s, i + 3);
  }

  /** A builder between two tokens. */
  predicate Settled(m: Builder) { Ready(m) && !Opening(m.state) && m.lex.state == 0 && m.lex.text == None }

  /** A whole string: the reaction is the one to a string token with this text. */
  lemma ReadString(m: Builder, s: Text, i: nat, body: Text, r: Builder)
    requires Settled(m) && StringBody(body) && At(s, i, Quoted(body))
    requires React(m.(lex := m.lex.(text := Some(body))), TOKEN_STRING) == Next(r)
    ensures Ready(r) && Rest(m, s, i) == Rest(r, s, i + |body| + 2)
  {
    hide Rest, StringBody, React;
    AtBoth(s, i, "\"" + body, "\"");
    AtBoth(s, i, "\"", body);
    AtChar(s, i, '"');
    AtChar(s, i + 1 + |body|, '"');
    Lexes(m, s, i);
    var m1 := m.(lex := Lexed(m.lex, s[i]));
    ReadBody(m1, s, i + 1, body);
    var none: Text := [];
    assert none + body == body;
    var m2 := m1.(lex := m1.lex.(text := Some(body)));
    Reacts(m2, s, i + 1 + |body|, r);
  }

  /** The bytes of a number from its k-th on. */
  lemma {:induction false} ReadDigits(m: Builder, s: Text, i: nat, text: Text, k: nat)
    requires Ready(m) && !Opening(m.state) && text != [] && k <= |text| && At(s, i, text[k..])
    requires if k == 0 then m.lex.state == 0 else m.lex.state != 0 && m.lex.text == Some(text[..k])
    requires Complete(Collect(m.lex.state, text, k))
    ensures var m' := m.(lex := m.lex.(state := Collect(m.lex.state, text, k), text := Some(text)));
            Ready(m') && Rest(m, s, i) == Rest(m', s, i + |text| - k)
    decreases |text| - k
  {
    hide Rest, Switch, Collect, React, At;
    if k == |text| {
      assert text[..k] == text;
      CollectAll(m.lex.state, text);
    } else {
      assert text[k..] == [text[k]] + text[k + 1..];
      AtBoth(s, i, [text[k]], text[k + 1..]);
      AtChar(s, i, text[k]);
      CollectStep(m.lex.state, text, k);
      Lexes(m, s, i);
      assert text[..k] + [text[k]] == text[..k + 1];
      assert k == 0 ==> [text[k]] == text[..k + 1];
      ReadDigits(m.(lex := Lexed(m.lex, s[i])), s, i + 1, text, k + 1);
    }
  }

  lemma CollectAll(state: nat, text: Text)
    ensures Collect(state, text, |text|) == state
  {
  }

  lemma CollectStep(state: nat, text: Text, k: nat)
    requires k < |text| && state <= 24 && Complete(Collect(state, text, k))
    ensures var c := Switch(state, text[k]);
            && c.token == MORE && c.next != 0 && !c.newline && c.keep == (if state == 0 then CreateWith else Append)
            && Collect(state, text, k) == Collect(c.next, text, k + 1)
  {
    if state == 0 {
      hide InNumber, InString, InLiteral;
    } else {
      hide Between, InString, InLiteral;
    }
  }

  /** A number and the bracket or comma after it, which is not taken. */
  lemma ReadNumber(m: Builder, s: Text, i: nat, text: Text, r: Builder)
    requires Settled(m) && NumberBody(text) && At(s, i, text)
    requires i + |text| < |s| && EndsNumber(s[i + |text|]) && !IsBlank(s[i + |text|])
    requires React(m.(lex := m.lex.(text := Some(text))), TOKEN_NUMBER) == Next(r)
    ensures Ready(r) && Rest(m, s, i) == Rest(r, s, i + |text|)
  {
    hide Rest, React, NumberBody;
    NumbersCollected(text);
    assert text[0..] == text;
    ReadDigits(m, s, i, text, 0);
    assert text != [];
    var m1 := m.(lex := m.lex.(state := Collect(0, text, 0), text := Some(text)));
    hide Collect;
    Reacts(m1, s, i + |text|, r);
  }

  /** The builder after the value t. */
  function AfterValue(m: Builder, t: Tree): Builder
    requires if m.state == 6 then |m.path| > 1 else m.path != []
  {
    if m.state == 6 then m.(state := 3, path := Up(WithKid(m.path, t))) else m.(state := 9, path := WithKid(m.path, t))
  }

  /** In state 6 a label and in states 8 an array waits for a value. */
  predicate Awaits(m: Builder) {
    Settled(m) && ((m.state == 6 && |m.path| > 1 && Last(m.path).kind == STRING) ||
        (m.state == 8 && Last(m.path).kind == ARRAY))
  }

  predicate Ends(s: Text, i: nat) { i < |s| && (s[i] == ',' || s[i] == ']' || s[i] == '}') }

  /** What is left of a literal in states 7 to 16. */
  function LiteralRest(state: nat): Text
    requires 7 <= state <= 16
    decreases 17 - state
  {
    if Expected(state).1 == MORE then [Expected(state).0] + LiteralRest(state + 1) else [Expected(state).0]
  }

  function LiteralToken(state: nat): Token
    requires 7 <= state <= 16
    decreases 17 - state
  {
    if Expected(state).1 == MORE then LiteralToken(state + 1) else Expected(state).1
  }

  lemma {:induction false} ReadLetters(m: Builder, s: Text, i: nat, r: Builder)
    requires Ready(m) && !Opening(m.state) && 7 <= m.lex.state <= 16 && At(s, i, LiteralRest(m.lex.state))
    requires React(m.(lex := m.lex.(state := 0)), LiteralToken(m.lex.state)) == Next(r)
    ensures Ready(r) && Rest(m, s, i) == Rest(r, s, i + |LiteralRest(m.lex.state)|)
    decreases 17 - m.lex.state
  {
    hide Rest, React;
    var q := m.lex.state;
    if Expected(q).1 == MORE {
      AtBoth(s, i, [Expected(q).0], LiteralRest(q + 1));
      AtChar(s, i, Expected(q).0);
      Lexes(m, s, i);
      ReadLetters(m.(lex := Lexed(m.lex, s[i])), s, i + 1, r);
    } else {
      AtChar(s, i, Expected(q).0);
      Reacts(m, s, i, r);
    }
  }

  lemma ReadLiteral(m: Builder, s: Text, i: nat, t: Tree)
    requires Awaits(m) && (t.kind == TRUE || t.kind == FALSE || t.kind == NULL) && ValueOk(t)
    requires At(s, i, Print(t, Some(ARRAY)).value)
    ensures var r := AfterValue(m, t); Ready(r) && Rest(m, s, i) == Rest(r, s, i + |Print(t, Some(ARRAY)).value|)
  {
    hide Rest, Switch, Print, React, AfterValue, ValueOk, LiteralRest, LiteralToken, At;
    LiteralPrint(t);
    var p := Print(t, Some(ARRAY)).value;
    var q := if t.kind == TRUE then 7 else if t.kind == FALSE then 10 else 14;
    LiteralReact(m, t);
    AtBoth(s, i, [p[0]], LiteralRest(q));
    AtChar(s, i, p[0]);
    LiteralStart(s[i]);
    Lexes(m, s, i);
    ReadLetters(m.(lex := m.lex.(state := q)), s, i + 1, AfterValue(m, t));
  }

  lemma LiteralPrint(t: Tree)
    requires t.kind == TRUE || t.kind == FALSE || t.kind == NULL
    ensures var q := if t.kind == TRUE then 7 else if t.kind == FALSE then 10 else 14;
            var c: Char := if t.kind == TRUE then 't' else if t.kind == FALSE then 'f' else 'n';
            Print(t, Some(ARRAY)).Some? && Print(t, Some(ARRAY)).value == [c] + LiteralRest(q)
  {
    LiteralText();
    hide LiteralRest;
  }

  lemma LiteralReact(m: Builder, t: Tree)
    requires Awaits(m) && (t.kind == TRUE || t.kind == FALSE || t.kind == NULL) && ValueOk(t)
    ensures var q := if t.kind == TRUE then 7 else if t.kind == FALSE then 10 else 14;
            React(m, LiteralToken(q)) == Next(AfterValue(m, t))
  {
    hide LiteralToken, StringBody, NumberBody, Ready;
    LiteralTokens();
    assert t == Leaf(t.kind, []);
  }

  lemma LiteralTokens()
    ensures LiteralToken(7) == TOKEN_TRUE && LiteralToken(10) == TOKEN_FALSE && LiteralToken(14) == TOKEN_NULL
  {
    assert LiteralToken(9) == TOKEN_TRUE && LiteralToken(8) == TOKEN_TRUE;
    assert LiteralToken(13) == TOKEN_FALSE && LiteralToken(12) == TOKEN_FALSE && LiteralToken(11) == TOKEN_FALSE;
    assert LiteralToken(16) == TOKEN_NULL && LiteralToken(15) == TOKEN_NULL;
  }

  lemma LiteralStart(c: Char)
    requires c == 't' || c == 'f' || c == 'n'
    ensures Switch(0, c) == Go(if c == 't' then 7 else if c == 'f' then 10 else 14, Nothing)
  {
  }

  lemma LiteralText()
    ensures LiteralRest(7) == "rue" && LiteralRest(10) == "alse" && LiteralRest(14) == "ull"
  {
    assert LiteralRest(9) == "e" && LiteralRest(8) == "ue";
    assert LiteralRest(13) == "e" && LiteralRest(12) == "se" && LiteralRest(11) == "lse";
    assert LiteralRest(16) == "l" && LiteralRest(15) == "ll";
  }

  lemma ReadLeaf(m: Builder, s: Text, i: nat, t: Tree)
    requires Awaits(m) && ValueOk(t) && t.kind != OBJECT && t.kind != ARRAY
    requires Print(t, Some(ARRAY)).Some? && At(s, i, Print(t, Some(ARRAY)).value) &&
        Ends(s, i + |Print(t, Some(ARRAY)).value|)
    ensures var r := AfterValue(m, t); Ready(r) && Rest(m, s, i) == Rest(r, s, i + |Print(t, Some(ARRAY)).value|)
  {
    hide Rest, StringBody, NumberBody, React;
    var r := AfterValue(m, t);
    if t.kind == STRING {
      assert t == Leaf(STRING, t.text);
      assert Print(t, Some(ARRAY)).value == Quoted(t.text);
      ReactLeaf(m, TOKEN_STRING, t);
      ReadString(m, s, i, t.text, r);
    } else if t.kind == NUMBER {
      assert t == Leaf(NUMBER, t.text);
      ReactLeaf(m, TOKEN_NUMBER, t);
      ReadNumber(m, s, i, t.text, r);
    } else {
      ReadLiteral(m, s, i, t);
    }
  }

  lemma ReactLeaf(m: Builder, token: Token, t: Tree)
    requires Awaits(m) && (token == TOKEN_STRING || token == TOKEN_NUMBER)
    requires t == Leaf(if token == TOKEN_STRING then STRING else NUMBER, t.text)
    ensures React(m.(lex := m.lex.(text := Some(t.text))), token) == Next(AfterValue(m, t))
  {
  }

  /** One structural byte. */
  lemma ReadMark(m: Builder, s: Text, i: nat, c: Char, token: Token, r: Builder)
    requires Settled(m) && At(s, i, [c]) && Between(c) == Give(token)
    requires token != TOKEN_STRING && token != TOKEN_NUMBER && token != MORE && React(m, token) == Next(r)
    ensures Ready(r) && Rest(m, s, i) == Rest(r, s, i + 1)
  {
    hide Rest, React;
    AtChar(s, i, c);
    Reacts(m, s, i, r);
  }

  /** States 1 and 7, when more input follows. */
  lemma ReadOpen(m: Builder, s: Text, i: nat)
    requires Ready(m) && Opening(m.state) && i < |s|
    ensures Ready(OpenNode(m)) && Rest(m, s, i) == Rest(OpenNode(m), s, i)
  {
    LookReady(m, s[i]);
  }
}
