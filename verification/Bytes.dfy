/** Bytes, strings, and the character classes of the parser in strict mode.  A byte is a `char`; a buffer is a
    `string`. */
module Bytes {
  const CR := '\r'
  const LF := '\n'
  const NUL := '\0'
  const TAB := '\t'
  const FORM_FEED: char := 12 as char

  /** `c | 0x20` on a byte: 32 is added where bit 5 is not set. */
  function Lower(c: char): char {
    var i := c as int;
    if i < 32 || 64 <= i < 96 || 128 <= i < 160 || 192 <= i < 224 then (i + 32) as char else c
  }

  predicate IsAlpha(c: char) { 'a' <= Lower(c) <= 'z' }

  predicate IsNum(c: char) { '0' <= c <= '9' }

  predicate IsAlphaNum(c: char) { IsAlpha(c) || IsNum(c) }

  predicate IsHex(c: char) { IsNum(c) || 'a' <= Lower(c) <= 'f' }

  predicate IsMark(c: char) {
    c == '-' || c == '_' || c == '.' || c == '!' || c == '~' || c == '*' || c == '\'' || c == '(' || c == ')'
  }

  predicate IsUserinfoChar(c: char) {
    IsAlphaNum(c) || IsMark(c) || c == '%' || c == ';' || c == ':' || c == '&' || c == '=' || c == '+'
    || c == '$' || c == ','
  }

  predicate IsUrlChar(c: char) { '!' <= c <= '~' && c != '#' && c != '?' }

  predicate IsHostChar(c: char) { IsAlphaNum(c) || c == '.' || c == '-' }

  predicate IsHeaderChar(c: char) {
    c == CR || c == LF || c == TAB || (c as int > 31 && c as int != 127)
  }

  /** The `tokens` table: the lower-cased byte, or NUL for a byte that is not a token. */
  function Token(c: char): char {
    if 'A' <= c <= 'Z' then Lower(c)
    else if 'a' <= c <= 'z' || IsNum(c) || c == '!' || c == '#' || c == '$' || c == '%' || c == '&'
            || c == '\'' || c == '*' || c == '+' || c == '-' || c == '.' || c == '^' || c == '_'
            || c == '`' || c == '|' || c == '~' then c
    else NUL
  }

  predicate IsToken(c: char) { Token(c) != NUL }

  function Digit(c: char): nat
    requires IsNum(c)
  {
    c as int - '0' as int
  }

  /** The `unhex` table; -1 for a byte below 0x80 that is not a hexadecimal digit.  The table has 256 entries but lists
      128, so that the others are zero. */
  function Unhex(c: char): int {
    if IsNum(c) then Digit(c)
    else if 'a' <= c <= 'f' then c as int - 'a' as int + 10
    else if 'A' <= c <= 'F' then c as int - 'A' as int + 10
    else if c as int >= 128 then 0
    else -1
  }

  /** Element `i` of the NUL-terminated string `s`. */
  function At(s: string, i: nat): char { if i < |s| then s[i] else NUL }

  function Concat(pieces: seq<string>): string {
    if pieces == [] then [] else Concat(pieces[..|pieces| - 1]) + pieces[|pieces| - 1]
  }

  // ----- hexadecimal numerals

  /** Bytes to which the table gives a value. */
  predicate IsHexText(ds: string) { forall i :: 0 <= i < |ds| ==> Unhex(ds[i]) >= 0 }

  /** The number that the values of `ds` make after the number `c`. */
  function HexFrom(c: nat, ds: string): nat
    requires IsHexText(ds)
  {
    if ds == [] then c else HexFrom(c, ds[..|ds| - 1]) * 16 + Unhex(ds[|ds| - 1])
  }

  /** The hexadecimal digits of `n`. */
  function Hex(n: nat): (ds: string)
    ensures ds != [] && IsHexText(ds) && HexFrom(0, ds) == n
  {
    var last := HexDigit(n % 16);
    if n < 16 then
      assert [last][..0] == [];
      assert HexFrom(0, [last]) == HexFrom(0, []) * 16 + Unhex(last);
      [last]
    else
      var ds := Hex(n / 16) + [last];
      assert ds[..|ds| - 1] == Hex(n / 16);
      ds
  }

  function HexDigit(d: nat): (ch: char)
    requires d < 16
    ensures Unhex(ch) == d
  {
    if d < 10 then (d + '0' as int) as char else (d - 10 + 'a' as int) as char
  }
}
