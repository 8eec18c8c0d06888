/** The tokens of section 6 and 7 of RFC 8259, stated apart from the lexer's states. */
module JsonGrammar {
  import opened JsonTree
  import opened JsonLexer

  predicate Plain(c: Char) { c >= ' ' && c != '"' && c != '\\' }

  predicate SimpleEscape(c: Char) { c in "\\\"/bfnrt" }

  /** The length of the first string character: 1, 2 for a short escape, 6 for a unicode escape, 0 for none. */
  function UnitLength(s: Text): (n: nat)
    ensures n <= |s|
  {
    if s == [] then 0
    else if Plain(s[0]) then 1
    else if |s| >= 2 && s[0] == '\\' && SimpleEscape(s[1]) then 2
    else if |s| >= 6 && s[0] == '\\' && s[1] == 'u' && forall i :: 2 <= i < 6 ==> IsHexDigit(s[i]) then 6
    else 0
  }

  /** What may stand between the quotes of a string. */
  predicate StringBody(s: Text) {
    s == [] || (UnitLength(s) > 0 && StringBody(s[UnitLength(s)..]))
  }

  /** Where the run of digits that starts at i ends. */
  function DigitsEnd(s: Text, i: nat): (e: nat)
    requires i <= |s|
    ensures i <= e <= |s| && (forall k :: i <= k < e ==> IsDigit(s[k])) && (e < |s| ==> !IsDigit(s[e]))
    decreases |s| - i
  {
    if i < |s| && IsDigit(s[i]) then DigitsEnd(s, i + 1) else i
  }

  /** Digits from i up to j: one zero, or no leading zero. */
  predicate IntPart(s: Text, i: nat, j: nat)
    requires i <= j <= |s|
  {
    i < j && (s[i] == '0' ==> j == i + 1)
  }

  /** An e, an optional sign and digits up to the end, or nothing. */
  predicate OptionalExp(s: Text, i: nat)
    requires i <= |s|
  {
    i == |s| ||
    ((s[i] == 'e' || s[i] == 'E') &&
     var k := if i + 1 < |s| && (s[i + 1] == '+' || s[i + 1] == '-') then i + 2 else i + 1;
     k < |s| && DigitsEnd(s, k) == |s|)
  }

  /** An optional minus, an integer, an optional fraction and an optional exponent. */
  predicate NumberBody(s: Text) {
    var a := if s != [] && s[0] == '-' then 1 else 0;
    var i := DigitsEnd(s, a);
    && IntPart(s, a, i)
    && if i < |s| && s[i] == '.'
       then var j := DigitsEnd(s, i + 1); j > i + 1 && OptionalExp(s, j)
       else OptionalExp(s, i)
  }

  /** A value inside a document. */
  predicate ValueOk(t: Tree) {
    if t.kind == STRING then t.kids == [] && StringBody(t.text)
    else if t.kind == NUMBER then t.kids == [] && NumberBody(t.text)
    else if t.kind == OBJECT then t.text == [] && forall i :: 0 <= i < |t.kids| ==> LabelOk(t.kids[i])
    else if t.kind == ARRAY then t.text == [] && forall i :: 0 <= i < |t.kids| ==> ValueOk(t.kids[i])
    else t.text == [] && t.kids == []
  }

  /** A label with its one value. */
  predicate LabelOk(t: Tree) {
    t.kind == STRING && StringBody(t.text) && |t.kids| == 1 && ValueOk(t.kids[0])
  }

  lemma {:induction false} StringBodyAppend(a: Text, b: Text)
    requires StringBody(a) && StringBody(b)
    ensures StringBody(a + b)
    decreases |a|
  {
    if a == [] {
      assert a + b == b;
    } else {
      var n := UnitLength(a);
      assert UnitLength(a + b) == n;
      assert (a + b)[n..] == a[n..] + b;
      StringBodyAppend(a[n..], b);
    }
  }

  /** A body begins with one string character. */
  lemma BodyUnit(body: Text)
    requires StringBody(body) && body != []
    ensures var n := UnitLength(body);
            var u, v := body[..n], body[n..];
            n > 0 && body == u + v && UnitLength(u) == |u| && StringBody(v)
  {
  }

  /** The characters of an escape that is not finished in states 2 to 6, and of none in state 1. */
  predicate Pending(state: nat, e: Text) {
    && 1 <= state <= 6 && |e| == state - 1
    && (state >= 2 ==> e[0] == '\\')
    && (state >= 3 ==> e[1] == 'u')
    && forall i :: 2 <= i < |e| ==> IsHexDigit(e[i])
  }

  /** The text collected in a string: a body and the pending part of an escape. */
  predicate StringText(state: nat, s: Text) {
    1 <= state <= 6 && |s| >= state - 1 && StringBody(s[..|s| - (state - 1)]) && Pending(state, s[|s| - (state - 1)..])
  }

  lemma StringTextStep(state: nat, s: Text, c: Char)
    requires StringText(state, s) && InString(state, c).keep == Append
    ensures StringText(InString(state, c).next, s + [c])
  {
    var n := state - 1;
    var body, e := s[..|s| - n], s[|s| - n..];
    var next := InString(state, c).next;
    PendingStep(state, e, c);
    assert s + [c] == body + (e + [c]);
    hide Pending, InString;
    var t := s + [c];
    if next == 1 {
      StringBodyAppend(body, e + [c]);
      assert t[..|t| - 0] == t;
      assert t[|t| - 0..] == [];
    } else {
      assert t[..|t| - (next - 1)] == body;
      assert t[|t| - (next - 1)..] == e + [c];
    }
  }

  /** One more char of an escape: it goes on, or it is one whole string character. */
  lemma PendingStep(state: nat, e: Text, c: Char)
    requires Pending(state, e) && InString(state, c).keep == Append
    ensures var next := InString(state, c).next;
            if next == 1 then StringBody(e + [c]) && Pending(1, []) else Pending(next, e + [c]) && next == state + 1
  {
    var u := e + [c];
    if InString(state, c).next == 1 {
      assert UnitLength(u) == |u|;
      assert u[|u|..] == [];
      assert StringBody([]);
    }
  }

  const FAILED: nat := 100

  /** The state after collecting s from position i on, or FAILED. */
  function Collect(state: nat, s: Text, i: nat): nat
    requires i <= |s|
    decreases |s| - i
  {
    if i == |s| then state
    else if state == 0 && Between(s[i]).keep == CreateWith then Collect(Between(s[i]).next, s, i + 1)
    else if 17 <= state <= 24 && InNumber(state, s[i]).keep == Append then Collect(InNumber(state, s[i]).next, s, i + 1)
    else FAILED
  }

  predicate Complete(state: nat) { state == 18 || state == 19 || state == 21 || state == 24 }

  lemma {:induction false} CollectDigits(state: nat, s: Text, i: nat)
    requires i <= |s| && (state == 19 || state == 21 || state == 24)
    ensures Collect(state, s, i) == Collect(state, s, DigitsEnd(s, i))
    decreases |s| - i
  {
    if i < |s| && IsDigit(s[i]) {
      CollectDigits(state, s, i + 1);
    }
  }

  lemma CollectExp(state: nat, s: Text, i: nat)
    requires i <= |s| && (state == 18 || state == 19 || state == 21) && (i < |s| ==> !IsDigit(s[i]) && s[i] != '.')
    ensures Complete(Collect(state, s, i)) <==> OptionalExp(s, i)
  {
    if i < |s| && (s[i] == 'e' || s[i] == 'E') {
      var k := if i + 1 < |s| && (s[i + 1] == '+' || s[i + 1] == '-') then i + 2 else i + 1;
      assert Collect(state, s, i) == Collect(22, s, i + 1);
      if k < |s| && IsDigit(s[k]) {
        assert Collect(22, s, i + 1) == Collect(24, s, k + 1);
        CollectDigits(24, s, k + 1);
        assert DigitsEnd(s, k) == DigitsEnd(s, k + 1);
      }
    }
  }

  lemma CollectFrac(state: nat, s: Text, i: nat)
    requires i < |s| && (state == 18 || state == 19) && s[i] == '.'
    ensures Complete(Collect(state, s, i)) <==> DigitsEnd(s, i + 1) > i + 1 && OptionalExp(s, DigitsEnd(s, i + 1))
  {
    var j := DigitsEnd(s, i + 1);
    assert Collect(state, s, i) == Collect(20, s, i + 1);
    if j > i + 1 {
      assert Collect(20, s, i + 1) == Collect(21, s, i + 2);
      CollectDigits(21, s, i + 2);
      assert DigitsEnd(s, i + 2) == j;
      if j < |s| && s[j] == '.' {
        assert Collect(21, s, j) == FAILED;
      } else {
        CollectExp(21, s, j);
      }
    }
  }

  /** After the first digit, at a. */
  lemma CollectInt(s: Text, a: nat)
    requires a < |s| && IsDigit(s[a])
    ensures var first := if s[a] == '0' then 18 else 19;
            var i := DigitsEnd(s, a);
            Complete(Collect(first, s, a + 1)) <==>
            IntPart(s, a, i) && if i < |s| && s[i] == '.' then DigitsEnd(s, i + 1) > i + 1 &&
                OptionalExp(s, DigitsEnd(s, i + 1)) else OptionalExp(s, i)
  {
    hide OptionalExp;
    var first := if s[a] == '0' then 18 else 19;
    var i := DigitsEnd(s, a);
    assert DigitsEnd(s, a + 1) == i;
    if first == 19 {
      CollectDigits(19, s, a + 1);
    }
    if first == 18 && i > a + 1 {
      assert Collect(18, s, a + 1) == FAILED;
    } else if i < |s| && s[i] == '.' {
      CollectFrac(first, s, i);
    } else {
      CollectExp(first, s, i);
    }
  }

  /** The number states collect exactly the numbers of the grammar. */
  lemma NumbersCollected(s: Text)
    ensures Complete(Collect(0, s, 0)) <==> NumberBody(s)
  {
    hide OptionalExp;
    var a := if s != [] && s[0] == '-' then 1 else 0;
    if a == 1 {
      assert Collect(0, s, 0) == Collect(17, s, 1);
    }
    if a < |s| && IsDigit(s[a]) {
      assert Collect(0, s, 0) == Collect(if s[a] == '0' then 18 else 19, s, a + 1);
      CollectInt(s, a);
      hide Collect;
    }
  }

  lemma {:induction false} CollectAppend(state: nat, s: Text, i: nat, c: Char)
    requires i <= |s|
    ensures Collect(state, s + [c], i) == Collect(Collect(state, s, i), s + [c], |s|)
    decreases |s| - i
  {
    if i < |s| {
      if state == 0 && Between(s[i]).keep == CreateWith {
        CollectAppend(Between(s[i]).next, s, i + 1, c);
      } else if 17 <= state <= 24 && InNumber(state, s[i]).keep == Append {
        CollectAppend(InNumber(state, s[i]).next, s, i + 1, c);
      }
    }
  }

  /** The text of the lexer is what its state says it is. */
  predicate TextOk(l: Lexer) {
    && (1 <= l.state <= 6 ==> l.text.Some? && StringText(l.state, l.text.value))
    && (17 <= l.state <= 24 ==> l.text.Some? && Collect(0, l.text.value, 0) == l.state)
  }

  lemma StringStep(l: Lexer, c: Char)
    requires LexerOk(l) && TextOk(l) && 1 <= l.state <= 6
    ensures TextOk(Lexed(l, c))
    ensures Switch(l.state, c).token != TOKEN_NUMBER
    ensures Switch(l.state, c).token == TOKEN_STRING ==> StringBody(l.text.value) && Lexed(l, c).text == l.text
  {
    hide StringBody, StringText, Collect;
    var k := InString(l.state, c);
    if k.keep == Append {
      StringTextStep(l.state, l.text.value, c);
    } else if k.token == TOKEN_STRING {
      WholeBody(l.text.value);
    }
  }

  lemma WholeBody(s: Text)
    requires StringText(1, s)
    ensures StringBody(s)
  {
    assert s[..|s| - 0] == s;
  }

  lemma NumberStep(l: Lexer, c: Char)
    requires LexerOk(l) && TextOk(l) && 17 <= l.state <= 24
    ensures TextOk(Lexed(l, c))
    ensures Switch(l.state, c).token != TOKEN_STRING
    ensures Switch(l.state, c).token == TOKEN_NUMBER ==> NumberBody(l.text.value) && Lexed(l, c).text == l.text
  {
    hide StringText, NumberBody;
    var s := l.text.value;
    var k := InNumber(l.state, c);
    CollectAppend(0, s, 0, c);
    NumbersCollected(s);
    if k.keep == Append {
      assert Collect(l.state, s + [c], |s|) == Collect(k.next, s + [c], |s| + 1);
    }
  }

  lemma LexedTextOk(l: Lexer, c: Char)
    requires LexerOk(l) && TextOk(l)
    ensures TextOk(Lexed(l, c))
    ensures Switch(l.state, c).token == TOKEN_STRING ==> StringBody(l.text.value) && Lexed(l, c).text == l.text
    ensures Switch(l.state, c).token == TOKEN_NUMBER ==> NumberBody(l.text.value) && Lexed(l, c).text == l.text
  {
    hide StringBody, NumberBody;
    if 1 <= l.state <= 6 {
      StringStep(l, c);
    } else if 17 <= l.state {
      NumberStep(l, c);
    } else if l.state == 0 {
      hide InString, InLiteral, InNumber;
      assert StringText(1, []) by { EmptyText(); }
      hide StringText;
      if Between(c).keep == CreateWith {
        assert Collect(0, [c], 0) == Collect(Between(c).next, [c], 1);
      }
    } else {
      hide InString, Between, InNumber;
    }
  }

  lemma EmptyText()
    ensures StringText(1, [])
  {
  }
}
