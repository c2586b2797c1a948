/** The character classes of the parser against those of the standards. */
module Classes {
  import opened Bytes

  predicate Letter(c: char) { 'a' <= c <= 'z' || 'A' <= c <= 'Z' }

  /** ALPHA and DIGIT of RFC 5234. */
  predicate LetterOrDigit(c: char) { Letter(c) || '0' <= c <= '9' }

  /** RFC 3986 sections 2.2 and 2.3. */
  const UNRESERVED := "-._~"
  const SUB_DELIMS := "!$&'()*+,;="

  /** tchar of RFC 7230 section 3.2.6, but for letters and digits. */
  const TOKEN_MARKS := "!#$%&'*+-.^_`|~"

  lemma LettersAre(c: char)
    ensures IsAlpha(c) <==> Letter(c)
    ensures Letter(c) ==> Lower(c) == if 'A' <= c <= 'Z' then (c as int + 32) as char else c
  {
  }

  /** A header name is made of exactly the token characters, and the table folds their letters. */
  lemma TokensAre(c: char)
    ensures IsToken(c) <==> LetterOrDigit(c) || c in TOKEN_MARKS
    ensures IsToken(c) ==> Token(c) == Lower(c) || (!Letter(c) && Token(c) == c)
  {
    LettersAre(c);
    hide IsAlpha, Lower;
    assert Letter(c) ==> Lower(c) != NUL;
  }

  /** Exactly the characters of user information, each byte of a percent-encoding by itself. */
  lemma UserinfoIs(c: char)
    ensures IsUserinfoChar(c) <==> LetterOrDigit(c) || c in UNRESERVED || c in SUB_DELIMS || c == '%' || c == ':'
  {
    LettersAre(c);
    hide IsAlpha, Lower;
  }

  /** A path may have every character of RFC 3986 section 3.3, and the other visible ones but # and ?. */
  lemma UrlCharsAre(c: char)
    ensures IsUserinfoChar(c) || c == '@' || c == '/' ==> IsUrlChar(c)
    ensures IsUrlChar(c) && !IsUserinfoChar(c) && c != '@' && c != '/' <==> c in "\"<>[\\]^`{|}"
  {
    UserinfoIs(c);
    hide IsUserinfoChar;
  }

  /** Of the characters of a registered name only letters, digits, '-' and '.' are taken. */
  lemma HostCharsAre(c: char)
    ensures IsHostChar(c) ==> LetterOrDigit(c) || c in UNRESERVED || c in SUB_DELIMS || c == '%'
    ensures (LetterOrDigit(c) || c in UNRESERVED || c in SUB_DELIMS || c == '%') && !IsHostChar(c)
       <==> c in "_~%!$&'()*+,;="
  {
    LettersAre(c);
    hide IsAlpha, Lower;
  }
}
