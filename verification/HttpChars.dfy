/**
 Character classes of the HTTP parser, as built with HTTP_PARSER_STRICT.
 A byte is a char below 256.
 */
module HttpChars {
  type Byte = c: char | c as int < 256

  const CR: Byte := '\r'
  const LF: Byte := '\n'
  const NUL: Byte := '\0'
  const TAB: Byte := '\t'

  /** c | 0x20. On a control character this is not the identity: it maps TAB to ')'. */
  function Lower(c: Byte): Byte {
    if c as int / 32 % 2 == 0 then (c as int + 32) as char else c
  }

  predicate IsNum(c: Byte) { '0' <= c <= '9' }

  predicate IsAlpha(c: Byte) { 'a' <= Lower(c) <= 'z' }

  predicate IsAlphaNum(c: Byte) { IsAlpha(c) || IsNum(c) }

  predicate IsHex(c: Byte) { IsNum(c) || 'a' <= Lower(c) <= 'f' }

  predicate IsMark(c: Byte) { c in "-_.!~*'()" }

  predicate IsUserinfoChar(c: Byte) { IsAlphaNum(c) || IsMark(c) || c in "%;:&=+$," }

  predicate IsHostChar(c: Byte) { IsAlphaNum(c) || c == '.' || c == '-' }

  /** The normal_url_char bitmap: printable ASCII except '#' and '?'. */
  predicate IsUrlChar(c: Byte) { '!' <= c <= '~' && c != '#' && c != '?' }

  /** The tokens table: a token character in lower case, or NUL for any other byte. */
  function Token(c: Byte): Byte {
    if IsAlpha(c) then Lower(c)
    else if IsNum(c) || c in "!#$%&'*+-.^_`|~" then c
    else NUL
  }

  predicate IsHeaderChar(c: Byte) {
    c == CR || c == LF || c == TAB || (' ' <= c && c as int != 127)
  }

  function DigitValue(c: Byte): nat
    requires IsNum(c)
  {
    c as int - '0' as int
  }

  /**
   The unhex table, -1 for "not a hex digit". The table lists 128 of its 256 entries,
   so the upper half is zero: a byte of 128 or more reads as the digit 0.
   */
  function Unhex(c: Byte): int {
    if IsNum(c) then DigitValue(c)
    else if 'a' <= c <= 'f' then c as int - 'a' as int + 10
    else if 'A' <= c <= 'F' then c as int - 'A' as int + 10
    else if c as int >= 128 then 0
    else -1
  }
}
