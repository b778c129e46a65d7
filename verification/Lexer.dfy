/** The lexer: a character buffer is cut into tokens, one statement at a
    time. The buffer is a C string read with a cursor `pos` that must stay
    short of the fixed `end` of the line; string literals decode their
    escapes in place, shifting the rest of the buffer left while `end`
    stays where it was. */
module Lexer {
  import opened Common

  // ---------------------------------------------------------------------
  // Token kinds. A one-character token's kind is its character code;
  // keywords and multi-character operators are negative.

  const TokEof: int := -1
  const TokFunc: int := -2
  const TokArrow: int := -4
  const TokStruct: int := -5
  const TokIf: int := -7
  const TokFor: int := -8
  const TokIdentifier: int := -9
  const TokConstStr: int := -10
  const TokNumber: int := -11
  const TokLogicalOr: int := -12
  const TokLogicalIs: int := -13
  const TokLogicalIsNot: int := -14
  const TokLogicalAnd: int := -15
  const TokLogicalLEqual: int := -16
  const TokLogicalGEqual: int := -17
  const TokBitsLShift: int := -18
  const TokBitsRShift: int := -19
  const TokPlusPlus: int := -20
  const TokMinusMinus: int := -21
  const TokSwitch: int := -23
  const TokCase: int := -24
  const TokPlusEquals: int := -26
  const TokMinusEquals: int := -27
  const TokMultEquals: int := -28
  const TokDivEquals: int := -29
  const TokModEquals: int := -30
  const TokAndEquals: int := -31
  const TokXorEquals: int := -32
  const TokOrEquals: int := -33
  const TokLShiftEquals: int := -35
  const TokRShiftEquals: int := -36
  const TokBreak: int := -37
  const TokElse: int := -38
  const TokChar: int := -40
  const TokNewline: int := -41
  const TokError: int := -99

  /** A token: its kind, its owned text (NULL for keywords, operators and
      markers) and the text's length. */
  datatype Token = Token(value: int, text: Option<string>, size: int)

  const EofToken: Token := Token(TokEof, None, 0)
  const NewlineToken: Token := Token(TokNewline, None, 0)

  /** A statement ends at a `;` or at the end of the line. */
  predicate IsTerminator(t: Token) {
    t.value == ';' as int || t.value == TokNewline
  }

  /** The static keyword and operator table. Lookups of any other string
      give TokError. */
  const KeywordTable: map<string, int> := map[
    "fn" := TokFunc, "struct" := TokStruct, "if" := TokIf, "for" := TokFor,
    "switch" := TokSwitch, "case" := TokCase, "break" := TokBreak, "else" := TokElse,
    "->" := TokArrow, "--" := TokMinusMinus, "++" := TokPlusPlus, "||" := TokLogicalOr,
    "==" := TokLogicalIs, "!=" := TokLogicalIsNot, "&&" := TokLogicalAnd,
    "<<" := TokBitsLShift, ">>" := TokBitsRShift, ">=" := TokLogicalGEqual,
    "<=" := TokLogicalLEqual, "+=" := TokPlusEquals, "-=" := TokMinusEquals,
    "*=" := TokMultEquals, "/=" := TokDivEquals, "%=" := TokModEquals,
    "&=" := TokAndEquals, "^=" := TokXorEquals, "|=" := TokOrEquals,
    "<<=" := TokLShiftEquals, ">>=" := TokRShiftEquals]

  function Lookup(s: string): int {
    if s in KeywordTable then KeywordTable[s] else TokError
  }

  // ---------------------------------------------------------------------
  // Character classes of the C locale.

  predicate IsSpace(c: char) { c == ' ' || '\t' <= c <= '\r' }
  predicate IsDigit(c: char) { '0' <= c <= '9' }
  predicate IsAlpha(c: char) { 'a' <= c <= 'z' || 'A' <= c <= 'Z' }
  predicate IsAlnum(c: char) { IsDigit(c) || IsAlpha(c) }
  predicate IsPunct(c: char) {
    '!' <= c <= '/' || ':' <= c <= '@' || '[' <= c <= '`' || '{' <= c <= '~'
  }
  predicate IsNumberChar(c: char) { IsDigit(c) || c == '.' || c == '_' }
  predicate IsWordChar(c: char) { IsAlnum(c) || c == '_' }

  // ---------------------------------------------------------------------
  // The buffer and its cursor.

  /** The character at index i of a C string: NUL past its length. */
  function CharAt(s: seq<char>, i: nat): char {
    if i < |s| then s[i] else '\0'
  }

  /** `buf` is the line as it currently stands (string literals shorten it),
      `pos` the read cursor and `end` the line's original end. */
  datatype Cursor = Cursor(buf: seq<char>, pos: nat, end: nat)

  function Cur(c: Cursor): char {
    CharAt(c.buf, c.pos)
  }

  /** What the lexer keeps true of its cursor: it never passes `end`, the
      buffer never grows past `end`, and no NUL lies at or after the cursor
      (the line is a C string; NULs are only ever written behind it). */
  ghost predicate ValidCursor(c: Cursor) {
    && c.pos <= c.end
    && |c.buf| <= c.end
    && forall k :: c.pos <= k < |c.buf| ==> c.buf[k] != '\0'
  }

  /** A cursor at the start of a line read from input. The source reads
      bytes, so each character of the line stands for one byte. */
  function StartOfLine(line: string): (c: Cursor)
    requires forall k :: 0 <= k < |line| ==> line[k] != '\0' && line[k] as int < 256
    ensures ValidCursor(c)
  {
    Cursor(line, 0, |line|)
  }

  /** Moves the cursor one character on; reaching `end` abandons the line. */
  function Advance(c: Cursor): (r: Result<Cursor>)
    requires ValidCursor(c)
    ensures r.Success? <==> c.pos + 1 < c.end
    ensures r.Success? ==> r.value == c.(pos := c.pos + 1) && ValidCursor(r.value)
  {
    if c.pos + 1 >= c.end then Failure(UnexpectedEndOfBuffer)
    else Success(c.(pos := c.pos + 1))
  }

  /** A token and the cursor just after it. */
  datatype Lexed = Lexed(token: Token, rest: Cursor)

  // ---------------------------------------------------------------------
  // Escapes.

  /** The escape letters the lexer understands. */
  const EscapeLetters: set<char> := {'a', 'b', 'f', 'n', 'r', 't', 'v', '\\', '\'', '"', '?', '0'}

  /** The character a backslash followed by c stands for; 1 flags an
      unknown escape. */
  function CharToEscaped(c: char): (r: char)
    ensures c in EscapeLetters <==> r != 1 as char
  {
    match c
    case 'a' => 7 as char
    case 'b' => 8 as char
    case 'f' => 12 as char
    case 'n' => '\n'
    case 'r' => '\r'
    case 't' => '\t'
    case 'v' => 11 as char
    case '\\' => '\\'
    case '\'' => '\''
    case '"' => '"'
    case '?' => '?'
    case '0' => '\0'
    case _ => 1 as char
  }

  // ---------------------------------------------------------------------
  // Whitespace.

  /** Skips every character `isspace` accepts, line feeds included. */
  function SkipSpace(c: Cursor): (r: Result<Cursor>)
    requires ValidCursor(c)
    decreases c.end - c.pos
    ensures r.Success? ==> ValidCursor(r.value) && r.value.buf == c.buf && r.value.end == c.end
    ensures r.Success? ==> c.pos <= r.value.pos && !IsSpace(Cur(r.value))
    ensures r.Success? ==> forall k :: c.pos <= k < r.value.pos ==> IsSpace(CharAt(c.buf, k))
  {
    if IsSpace(Cur(c)) then
      var n :- Advance(c);
      SkipSpace(n)
    else
      Success(c)
  }

  // ---------------------------------------------------------------------
  // Numbers.

  /** The do-while loop over a numeral: always advances once, then keeps
      going over digits, `.` and `_`. A second `.` is not rejected. */
  function NumberEnd(c: Cursor): (r: Result<Cursor>)
    requires ValidCursor(c) && IsNumberChar(Cur(c))
    decreases c.end - c.pos
    ensures r.Success? ==> ValidCursor(r.value) && r.value.buf == c.buf && r.value.end == c.end
    ensures r.Success? ==> c.pos < r.value.pos <= |c.buf| && !IsNumberChar(Cur(r.value))
    ensures r.Success? ==> forall k :: c.pos <= k < r.value.pos ==> IsNumberChar(c.buf[k])
  {
    var n :- Advance(c);
    if IsNumberChar(Cur(n)) then NumberEnd(n) else Success(n)
  }

  /** The numeral with its `_` digit-group separators dropped. */
  function RemoveUnderscores(s: string): (r: string)
    ensures |r| <= |s|
    ensures forall k :: 0 <= k < |r| ==> r[k] != '_'
  {
    if |s| == 0 then []
    else (if s[0] == '_' then [] else [s[0]]) + RemoveUnderscores(s[1..])
  }

  /** A numeric token: from a digit over the longest run of digits, `.` and
      `_`; its text is that run without the `_`s. */
  function LexNumber(c: Cursor): (r: Result<Lexed>)
    requires ValidCursor(c) && IsDigit(Cur(c))
    ensures r.Success? ==> ValidCursor(r.value.rest) && r.value.rest.buf == c.buf && r.value.rest.end == c.end
    ensures r.Success? ==>
      var e := r.value.rest.pos;
      && c.pos < e <= |c.buf|
      && (forall k :: c.pos <= k < e ==> IsNumberChar(c.buf[k]))
      && !IsNumberChar(CharAt(c.buf, e))
      && r.value.token == Token(TokNumber, Some(RemoveUnderscores(c.buf[c.pos..e])), |RemoveUnderscores(c.buf[c.pos..e])|)
  {
    var e :- NumberEnd(c);
    var text := RemoveUnderscores(c.buf[c.pos..e.pos]);
    Success(Lexed(Token(TokNumber, Some(text), |text|), e))
  }

  /** The copy loop that builds a numeral's text, skipping separators. */
  method CopyNumeral(lexeme: string) returns (text: string, size: int)
    ensures text == RemoveUnderscores(lexeme)
    ensures size == |text|
  {
    text := [];
    var i := 0;
    while i < |lexeme|
      invariant 0 <= i <= |lexeme|
      invariant text == RemoveUnderscores(lexeme[..i])
    {
      RemoveUnderscoresAppend(lexeme[..i], [lexeme[i]]);
      assert lexeme[..i + 1] == lexeme[..i] + [lexeme[i]];
      if lexeme[i] != '_' {
        text := text + [lexeme[i]];
      }
      i := i + 1;
    }
    assert lexeme[..i] == lexeme;
    size := |text|;
  }

  /** Dropping separators commutes with concatenation. */
  lemma {:induction false} RemoveUnderscoresAppend(a: string, b: string)
    ensures RemoveUnderscores(a + b) == RemoveUnderscores(a) + RemoveUnderscores(b)
  {
    if |a| == 0 {
      assert a + b == b;
    } else {
      assert (a + b)[1..] == a[1..] + b;
      RemoveUnderscoresAppend(a[1..], b);
    }
  }

  // ---------------------------------------------------------------------
  // String literals.

  /** Decodes one escape in place: the rest of the C string moves one left
      over the backslash and the escape letter is overwritten by the
      character it stands for; the cursor then steps over it without
      checking `end`. */
  function Escape(c: Cursor): (r: Cursor)
    requires ValidCursor(c) && Cur(c) == '\\'
    ensures ValidCursor(r) && r.pos == c.pos + 1 && r.end == c.end && c.pos < |r.buf|
    ensures r.buf[..c.pos] == c.buf[..c.pos]
    ensures r.buf[c.pos] == CharToEscaped(CharAt(c.buf, c.pos + 1))
    ensures forall k :: c.pos < k ==> CharAt(r.buf, k) == CharAt(c.buf, k + 1)
  {
    var shifted := c.buf[..c.pos] + c.buf[c.pos + 1..];
    var e := CharToEscaped(CharAt(shifted, c.pos));
    var written := if c.pos < |shifted| then shifted[c.pos := e] else shifted + [e];
    Cursor(written, c.pos + 1, c.end)
  }

  /** The body loop of a string literal: stops on the closing quote. The
      source's checks for a NUL and for an unknown escape do nothing. */
  function StringBody(c: Cursor): (r: Result<Cursor>)
    requires ValidCursor(c)
    decreases c.end - c.pos
    ensures r.Success? ==> ValidCursor(r.value) && r.value.end == c.end
    ensures r.Success? ==> c.pos <= r.value.pos < |r.value.buf| && Cur(r.value) == '"'
    ensures r.Success? ==> |c.buf| >= c.pos && r.value.buf[..c.pos] == c.buf[..c.pos]
  {
    if Cur(c) == '"' then Success(c)
    else if Cur(c) == '\\' then StringBody(Escape(c))
    else
      var n :- Advance(c);
      StringBody(n)
  }

  /** A string literal: the token's text is the decoded body between the
      quotes, and the cursor ends after the closing quote. */
  function LexString(c: Cursor): (r: Result<Lexed>)
    requires ValidCursor(c) && Cur(c) == '"'
    ensures r.Success? ==> ValidCursor(r.value.rest) && r.value.rest.end == c.end && r.value.rest.pos > c.pos
    ensures r.Success? ==> r.value.token.value == TokConstStr && r.value.token.text.Some?
    ensures r.Success? ==> r.value.token.size == |r.value.token.text.value|
  {
    var open :- Advance(c);
    var close :- StringBody(open);
    var after :- Advance(close);
    var text := close.buf[open.pos..close.pos];
    Success(Lexed(Token(TokConstStr, Some(text), |text|), after))
  }

  // ---------------------------------------------------------------------
  // Character literals, punctuation, words.

  /** A character literal: a quote, one character, and one more character
      that is skipped without checking it is the closing quote. */
  function LexCharLiteral(c: Cursor): (r: Result<Lexed>)
    requires ValidCursor(c) && Cur(c) == '\''
    ensures r.Success? ==> r.value.rest == c.(pos := c.pos + 3) && ValidCursor(r.value.rest)
    ensures r.Success? ==> r.value.token == Token(TokChar, Some([CharAt(c.buf, c.pos + 1)]), 1)
    ensures r.Success? <==> c.pos + 3 < c.end
  {
    var quote :- Advance(c);
    var ch := Cur(quote);
    var closing :- Advance(quote);
    var after :- Advance(closing);
    Success(Lexed(Token(TokChar, Some([ch]), 1), after))
  }

  /** Punctuation: a pair of punctuation characters found in the table is
      one token; anything else is a token for the first character only. */
  function LexPunct(c: Cursor): (r: Result<Lexed>)
    requires ValidCursor(c) && IsPunct(Cur(c))
    ensures r.Success? ==> ValidCursor(r.value.rest) && r.value.rest.buf == c.buf && r.value.rest.end == c.end
    ensures
      var pair := [Cur(c), CharAt(c.buf, c.pos + 1)];
      if IsPunct(pair[1]) && pair in KeywordTable then
        r == (if c.pos + 2 < c.end then Success(Lexed(Token(KeywordTable[pair], None, 0), c.(pos := c.pos + 2)))
              else Failure(UnexpectedEndOfBuffer))
      else
        r == (if c.pos + 1 < c.end then Success(Lexed(Token(Cur(c) as int, None, 0), c.(pos := c.pos + 1)))
              else Failure(UnexpectedEndOfBuffer))
  {
    var first := Cur(c);
    var second := CharAt(c.buf, c.pos + 1);
    if IsPunct(second) && [first, second] in KeywordTable then
      var one :- Advance(c);
      var two :- Advance(one);
      Success(Lexed(Token(KeywordTable[[first, second]], None, 0), two))
    else
      var one :- Advance(c);
      Success(Lexed(Token(first as int, None, 0), one))
  }

  /** The loop over a word: letters, digits and `_`. */
  function WordEnd(c: Cursor): (r: Result<Cursor>)
    requires ValidCursor(c)
    decreases c.end - c.pos
    ensures r.Success? ==> ValidCursor(r.value) && r.value.buf == c.buf && r.value.end == c.end
    ensures r.Success? ==> c.pos <= r.value.pos && !IsWordChar(Cur(r.value))
    ensures r.Success? && r.value.pos != c.pos ==> r.value.pos <= |c.buf|
    ensures r.Success? ==> forall k :: c.pos <= k < r.value.pos ==> IsWordChar(CharAt(c.buf, k))
  {
    if IsWordChar(Cur(c)) then
      var n :- Advance(c);
      var r :- WordEnd(n);
      Success(r)
    else
      Success(c)
  }

  /** A word: a keyword if the table has it (no text), an identifier
      carrying its own copy of the lexeme otherwise. The word may be empty. */
  function LexWord(c: Cursor): (r: Result<Lexed>)
    requires ValidCursor(c)
    ensures r.Success? ==> ValidCursor(r.value.rest) && r.value.rest.buf == c.buf && r.value.rest.end == c.end
    ensures r.Success? ==>
      var e := r.value.rest.pos;
      && c.pos <= e
      && (e != c.pos ==> e <= |c.buf|)
      && (forall k :: c.pos <= k < e ==> IsWordChar(CharAt(c.buf, k)))
      && !IsWordChar(CharAt(c.buf, e))
      && var lexeme := if e == c.pos then [] else c.buf[c.pos..e];
         r.value.token == if lexeme in KeywordTable then Token(KeywordTable[lexeme], None, 0)
                          else Token(TokIdentifier, Some(lexeme), |lexeme|)
  {
    var e :- WordEnd(c);
    var lexeme := if e.pos == c.pos then [] else c.buf[c.pos..e.pos];
    if lexeme in KeywordTable then Success(Lexed(Token(KeywordTable[lexeme], None, 0), e))
    else Success(Lexed(Token(TokIdentifier, Some(lexeme), |lexeme|), e))
  }

  // ---------------------------------------------------------------------
  // Tokens and statements.

  /** The token at the cursor. A line feed, after at most one carriage
      return, is a newline token and is left in place. */
  function LexToken(c: Cursor): (r: Result<Lexed>)
    requires ValidCursor(c)
    ensures r.Success? ==> ValidCursor(r.value.rest) && r.value.rest.end == c.end
    ensures r.Success? ==> r.value.rest == c || r.value.rest.pos > c.pos
    ensures r.Success? && r.value.rest == c ==> r.value.token.value == TokNewline || r.value.token.text == Some([])
    ensures r.Success? ==> r.value.token.size == (if r.value.token.text.Some? then |r.value.token.text.value| else 0)
  {
    var c1 :- if Cur(c) == '\r' then Advance(c) else Success(c);
    if Cur(c1) == '\n' then Success(Lexed(NewlineToken, c1))
    else
      var c2 :- SkipSpace(c1);
      LexSignificant(c2)
  }

  /** Dispatch on the first character that is not whitespace. */
  function LexSignificant(c: Cursor): (r: Result<Lexed>)
    requires ValidCursor(c)
    ensures r.Success? ==> r.value.token.value != TokNewline && r.value.token.value != TokEof
    ensures r.Success? ==> ValidCursor(r.value.rest) && r.value.rest.end == c.end
    ensures r.Success? ==> r.value.rest == c || r.value.rest.pos > c.pos
    ensures r.Success? && r.value.rest == c ==> r.value.token.text == Some([])
    ensures r.Success? ==> r.value.token.size == (if r.value.token.text.Some? then |r.value.token.text.value| else 0)
  {
    var ch := Cur(c);
    if IsDigit(ch) then LexNumber(c)
    else if ch == '"' then LexString(c)
    else if ch == '\'' then LexCharLiteral(c)
    else if IsPunct(ch) then LexPunct(c)
    else LexWord(c)
  }

  /** A statement's token list: exactly one terminator, second to last,
      then the end-of-file token. */
  predicate Terminated(ts: seq<Token>) {
    && |ts| >= 2 && ts[|ts| - 1] == EofToken && IsTerminator(ts[|ts| - 2])
    && forall k :: 0 <= k < |ts| - 2 ==> !IsTerminator(ts[k])
  }

  lemma PrependTerminated(t: Token, tail: seq<Token>)
    requires !IsTerminator(t) && Terminated(tail)
    ensures Terminated([t] + tail)
  {
    var ts := [t] + tail;
    assert forall k :: 1 <= k < |ts| ==> ts[k] == tail[k - 1];
  }

  /** The tokens of one statement: up to and including the first `;` or
      newline token, then an end-of-file token. A token that leaves the
      cursor where it was and does not end the statement would be produced
      forever. */
  function LexStatement(c: Cursor): (r: Result<seq<Token>>)
    requires ValidCursor(c)
    decreases c.end - c.pos
    ensures r.Success? ==> Terminated(r.value)
  {
    match LexToken(c)
    case Failure(e) => Failure(e)
    case Success(lexed) =>
      if IsTerminator(lexed.token) then Success([lexed.token, EofToken])
      else if lexed.rest == c then Failure(NoProgress)
      else
        match LexStatement(lexed.rest)
        case Failure(e) => Failure(e)
        case Success(tail) =>
          PrependTerminated(lexed.token, tail);
          Success([lexed.token] + tail)
  }
}
