/** The resumable lexer, one byte at a time. */
module JsonLexer {
  import opened Options
  import opened JsonTree

  datatype Token =
    | MORE
    | INVALID_CHARACTER
    | BEGIN_OBJECT | END_OBJECT | BEGIN_ARRAY | END_ARRAY
    | NAME_SEPARATOR | VALUE_SEPARATOR
    | TOKEN_TRUE | TOKEN_FALSE | TOKEN_NULL
    | TOKEN_STRING | TOKEN_NUMBER

  /** What happens to the text buffer: nothing, a new buffer, a new buffer with the byte, or the byte appended. */
  datatype Keep = Nothing | Create | CreateWith | Append

  /** One case of the lexer's switch. Without a token the loop goes on. */
  datatype Case = Case(next: nat, take: bool, keep: Keep, newline: bool, token: Token)

  function Go(next: nat, keep: Keep): Case { Case(next, true, keep, false, MORE) }
  function Give(token: Token): Case { Case(0, true, Nothing, false, token) }
  function Refuse(state: nat, take: bool): Case { Case(state, take, Nothing, false, INVALID_CHARACTER) }

  /** Case 0: between tokens. */
  function Between(c: Char): Case {
    if c == ' ' || c == '\t' then Go(0, Nothing)
    else if c == '\n' || c == '\r' then Case(0, true, Nothing, true, MORE)
    else if c == '{' then Give(BEGIN_OBJECT)
    else if c == '}' then Give(END_OBJECT)
    else if c == '[' then Give(BEGIN_ARRAY)
    else if c == ']' then Give(END_ARRAY)
    else if c == ':' then Give(NAME_SEPARATOR)
    else if c == ',' then Give(VALUE_SEPARATOR)
    else if c == '"' then Go(1, Create)
    else if c == 't' then Go(7, Nothing)
    else if c == 'f' then Go(10, Nothing)
    else if c == 'n' then Go(14, Nothing)
    else if c == '-' then Go(17, CreateWith)
    else if c == '0' then Go(18, CreateWith)
    else if IsDigit(c) then Go(19, CreateWith)
    else Refuse(0, true)
  }

  /** Cases 1 to 6: inside a string, after a backslash, and the four digits of a unicode escape. */
  function InString(state: nat, c: Char): Case
    requires 1 <= state <= 6
  {
    if state == 1 then
      if c < ' ' then Refuse(1, false)
      else if c == '"' then Give(TOKEN_STRING)
      else Go(if c == '\\' then 2 else 1, Append)
    else if state == 2 then
      if c in "\\\"/bfnrt" then Go(1, Append)
      else if c == 'u' then Go(3, Append)
      else Refuse(2, false)
    else if IsHexDigit(c) then Go(if state == 6 then 1 else state + 1, Append)
    else Refuse(state, false)
  }

  /** Cases 7 to 16: the letter a literal goes on with, and the token after the last one. */
  function Expected(state: nat): (char, Token)
    requires 7 <= state <= 16
  {
    if state == 7 then ('r', MORE)
    else if state == 8 then ('u', MORE)
    else if state == 9 then ('e', TOKEN_TRUE)
    else if state == 10 then ('a', MORE)
    else if state == 11 then ('l', MORE)
    else if state == 12 then ('s', MORE)
    else if state == 13 then ('e', TOKEN_FALSE)
    else if state == 14 then ('u', MORE)
    else if state == 15 then ('l', MORE)
    else ('l', TOKEN_NULL)
  }

  function InLiteral(state: nat, c: Char): Case
    requires 7 <= state <= 16
  {
    if c != Expected(state).0 then Refuse(state, true)
    else if Expected(state).1 == MORE then Go(state + 1, Nothing)
    else Give(Expected(state).1)
  }

  /** A blank ends a number and is taken with it (without counting a line); a bracket or comma is left. */
  predicate EndsNumber(c: Char) { IsBlank(c) || c == ']' || c == '}' || c == ',' }

  function EndNumber(c: Char): Case { Case(0, IsBlank(c), Nothing, false, TOKEN_NUMBER) }

  /** Cases 17 to 24: minus, zero, integer, point, fraction, e, exponent sign, exponent. */
  function InNumber(state: nat, c: Char): Case
    requires 17 <= state <= 24
  {
    if state == 17 then
      if c == '0' then Go(18, Append)
      else if IsDigit(c) then Go(19, Append)
      else Refuse(17, false)
    else if state == 18 then
      if EndsNumber(c) then EndNumber(c)
      else if c == '.' then Go(20, Append)
      else if c == 'e' || c == 'E' then Go(22, Append)
      else Refuse(18, false)
    else if state == 19 then
      if EndsNumber(c) then EndNumber(c)
      else if c == '.' then Go(20, Append)
      else if c == 'e' || c == 'E' then Go(22, Append)
      else if IsDigit(c) then Go(19, Append)
      else Refuse(19, false)
    else if state == 20 then
      if IsDigit(c) then Go(21, Append)
      else Refuse(20, false)
    else if state == 21 then
      if EndsNumber(c) then EndNumber(c)
      else if c == 'e' || c == 'E' then Go(22, Append)
      else if IsDigit(c) then Go(21, Append)
      else Refuse(21, false)
    else if state == 22 then
      if c == '-' || c == '+' then Go(23, Append)
      else if IsDigit(c) then Go(24, Append)
      else Refuse(22, false)
    else if state == 23 then
      if IsDigit(c) then Go(24, Append)
      else Refuse(23, false)
    else
      if EndsNumber(c) then EndNumber(c)
      else if IsDigit(c) then Go(24, Append)
      else Refuse(24, false)
  }

  function Switch(state: nat, c: Char): Case
    requires state <= 24
  {
    if state == 0 then Between(c)
    else if state <= 6 then InString(state, c)
    else if state <= 16 then InLiteral(state, c)
    else InNumber(state, c)
  }

  predicate UsesText(state: nat) { 1 <= state <= 6 || 17 <= state <= 24 }

  /** What the lexer keeps between calls: its state, the text being collected, and the line. */
  datatype Lexer = Lexer(state: nat, text: Option<Text>, line: nat)

  predicate LexerOk(l: Lexer) { l.state <= 24 && (UsesText(l.state) ==> l.text.Some?) }

  function Kept(text: Option<Text>, keep: Keep, c: Char): Option<Text>
    requires keep == Append ==> text.Some?
  {
    if keep == Nothing then text
    else if keep == Create then Some([])
    else if keep == CreateWith then Some([c])
    else Some(text.value + [c])
  }

  lemma SwitchOk(state: nat, c: Char)
    requires state <= 24
    ensures var k := Switch(state, c);
            && k.next <= 24
            && (k.keep == Append ==> UsesText(state))
            && (UsesText(k.next) ==> UsesText(state) || k.keep == Create || k.keep == CreateWith)
            && (k.token == MORE ==> k.take)
            && (k.token == TOKEN_STRING || k.token == TOKEN_NUMBER ==> UsesText(state) && k.keep == Nothing)
            && (k.token != MORE && k.token != INVALID_CHARACTER ==> k.next == 0)
            && (!k.take ==> state != 0)
  {
  }

  /** The lexer after one byte. */
  function Lexed(l: Lexer, c: Char): (l': Lexer)
    requires LexerOk(l)
    ensures LexerOk(l')
  {
    SwitchOk(l.state, c);
    var k := Switch(l.state, c);
    Lexer(k.next, Kept(l.text, k.keep, c), if k.newline then l.line + 1 else l.line)
  }

  /** A call of the lexer: lexer, token, and the position after it. */
  datatype Lex = Lex(l: Lexer, token: Token, at: nat)

  /** The lexer from position i of a piece on. */
  function LexFrom(l: Lexer, s: Text, i: nat): (r: Lex)
    requires LexerOk(l) && i <= |s|
    ensures LexerOk(r.l) && i <= r.at <= |s|
    ensures r.token == MORE ==> r.at == |s|
    decreases |s| - i
  {
    if i == |s| then Lex(l, MORE, i)
    else
      var k := Switch(l.state, s[i]);
      SwitchOk(l.state, s[i]);
      if k.token == MORE then LexFrom(Lexed(l, s[i]), s, i + 1)
      else Lex(Lexed(l, s[i]), k.token, if k.take then i + 1 else i)
  }

  /** A line end right behind a number ends the number and is not counted; the next one is. */
  lemma LineEndAfterNumber(l: Lexer)
    requires (l.state == 18 || l.state == 19 || l.state == 21 || l.state == 24) && l.text.Some?
    ensures LexFrom(l, "\n", 0) == Lex(Lexer(0, l.text, l.line), TOKEN_NUMBER, 1)
    ensures LexFrom(Lexer(0, l.text, l.line), "\n", 0) == Lex(Lexer(0, l.text, l.line + 1), MORE, 1)
  {
    var s: Text := "\n";
    assert Lexed(Lexer(0, l.text, l.line), s[0]) == Lexer(0, l.text, l.line + 1);
  }
}
