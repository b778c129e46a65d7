/** Properties of the lexer that relate several of its functions, or relate
    them to a reference reading of the input. */
module LexerFacts {
  import opened Common
  import opened Lexer

  /** A decoded string body and where it stopped. */
  datatype Quoted = Quoted(text: string, close: nat)

  /** Reference reading of a string literal's body in the coordinates of the
      unmodified line `o`, starting at index q: each backslash pair stands
      for the escaped character, the body ends at the first quote not taken
      by an escape. `esc` counts the escapes seen so far: each one shortens
      the line in the source, so a plain character only aborts once its
      index, less `esc`, is the last one before `end`. */
  function ScanQuoted(o: seq<char>, q: nat, esc: nat, end: nat): (r: Result<Quoted>)
    requires |o| <= end && q <= end + esc
    decreases end + esc - q
    ensures r.Success? ==> r.value.close < |o| && o[r.value.close] == '"'
  {
    var ch := CharAt(o, q);
    if ch == '"' then Success(Quoted([], q))
    else if ch == '\\' then
      match ScanQuoted(o, q + 2, esc + 1, end)
      case Failure(e) => Failure(e)
      case Success(rest) => Success(Quoted([CharToEscaped(CharAt(o, q + 1))] + rest.text, rest.close))
    else if q + 1 >= end + esc then Failure(UnexpectedEndOfBuffer)
    else
      match ScanQuoted(o, q + 1, esc, end)
      case Failure(e) => Failure(e)
      case Success(rest) => Success(Quoted([ch] + rest.text, rest.close))
  }

  /** The in-place decoding loop agrees with the reference reading of the
      line as it was before any escape was decoded. */
  lemma {:induction false} StringBodyRefines(c: Cursor, o: seq<char>, esc: nat)
    requires ValidCursor(c) && |o| <= c.end
    requires forall k :: c.pos <= k ==> CharAt(c.buf, k) == CharAt(o, k + esc)
    decreases c.end - c.pos, 1
    ensures StringBody(c).Success? <==> ScanQuoted(o, c.pos + esc, esc, c.end).Success?
    ensures StringBody(c).Success? ==>
      var r := StringBody(c).value;
      var s := ScanQuoted(o, c.pos + esc, esc, c.end).value;
      r.buf[c.pos..r.pos] == s.text && r.pos == c.pos + |s.text|
  {
    assert CharAt(c.buf, c.pos) == CharAt(o, c.pos + esc);
    if Cur(c) == '"' {
    } else if Cur(c) == '\\' {
      EscapeStepRefines(c, o, esc);
    } else if c.pos + 1 < c.end {
      PlainStepRefines(c, o, esc);
    }
  }

  /** One decoded escape keeps the loop in step with the reference reading. */
  lemma {:induction false} EscapeStepRefines(c: Cursor, o: seq<char>, esc: nat)
    requires ValidCursor(c) && |o| <= c.end && Cur(c) == '\\'
    requires forall k :: c.pos <= k ==> CharAt(c.buf, k) == CharAt(o, k + esc)
    decreases c.end - c.pos, 0
    ensures StringBody(c).Success? <==> ScanQuoted(o, c.pos + esc, esc, c.end).Success?
    ensures StringBody(c).Success? ==>
      var r := StringBody(c).value;
      var s := ScanQuoted(o, c.pos + esc, esc, c.end).value;
      r.buf[c.pos..r.pos] == s.text && r.pos == c.pos + |s.text|
  {
    var q := c.pos + esc;
    assert CharAt(c.buf, c.pos) == CharAt(o, q);
    assert CharAt(c.buf, c.pos + 1) == CharAt(o, q + 1);
    assert ScanQuoted(o, q, esc, c.end).Success? <==> ScanQuoted(o, q + 2, esc + 1, c.end).Success?;
    var n := Escape(c);
    EscapeAgreement(c, o, esc);
    StringBodyRefines(n, o, esc + 1);
    assert StringBody(c) == StringBody(n);
    if StringBody(n).Success? {
      var r := StringBody(n).value;
      var s := ScanQuoted(o, q + 2, esc + 1, c.end).value;
      assert ScanQuoted(o, q, esc, c.end).value.text == [CharToEscaped(CharAt(o, q + 1))] + s.text;
      SliceCons(r.buf, n.buf, c.pos, r.pos);
    }
  }

  /** After an escape is decoded, the line from the cursor on still reads as
      the unmodified line, one more position further on. */
  lemma EscapeAgreement(c: Cursor, o: seq<char>, esc: nat)
    requires ValidCursor(c) && Cur(c) == '\\'
    requires forall k :: c.pos <= k ==> CharAt(c.buf, k) == CharAt(o, k + esc)
    ensures forall k :: Escape(c).pos <= k ==> CharAt(Escape(c).buf, k) == CharAt(o, k + (esc + 1))
  {
    var n := Escape(c);
    forall k | n.pos <= k
      ensures CharAt(n.buf, k) == CharAt(o, k + (esc + 1))
    {
      assert CharAt(n.buf, k) == CharAt(c.buf, k + 1);
      assert CharAt(c.buf, k + 1) == CharAt(o, k + 1 + esc);
    }
  }

  /** A slice that starts inside a preserved prefix splits off its first
      character. */
  lemma SliceCons(r: seq<char>, b: seq<char>, i: nat, j: nat)
    requires i < j <= |r| && i < |b| && r[..i + 1] == b[..i + 1]
    ensures r[i..j] == [b[i]] + r[i + 1..j]
  {
    assert r[i] == r[..i + 1][i];
  }

  /** One plain character keeps the loop in step with the reference reading. */
  lemma {:induction false} PlainStepRefines(c: Cursor, o: seq<char>, esc: nat)
    requires ValidCursor(c) && |o| <= c.end && Cur(c) != '\\' && Cur(c) != '"'
    requires c.pos + 1 < c.end
    requires forall k :: c.pos <= k ==> CharAt(c.buf, k) == CharAt(o, k + esc)
    decreases c.end - c.pos, 0
    ensures StringBody(c).Success? <==> ScanQuoted(o, c.pos + esc, esc, c.end).Success?
    ensures StringBody(c).Success? ==>
      var r := StringBody(c).value;
      var s := ScanQuoted(o, c.pos + esc, esc, c.end).value;
      r.buf[c.pos..r.pos] == s.text && r.pos == c.pos + |s.text|
  {
    var q := c.pos + esc;
    assert CharAt(c.buf, c.pos) == CharAt(o, q);
    var n := c.(pos := c.pos + 1);
    StringBodyRefines(n, o, esc);
    assert StringBody(c) == StringBody(n);
    if StringBody(n).Success? {
      var r := StringBody(n).value;
      var s := ScanQuoted(o, q + 1, esc, c.end).value;
      assert ScanQuoted(o, q, esc, c.end).value.text == [CharAt(o, q)] + s.text;
      SliceCons(r.buf, c.buf, c.pos, r.pos);
    }
  }

  /** A string literal's token text is the reference decoding of the text
      after the opening quote, and the literal is accepted exactly when the
      opening quote, the decoded body and the closing quote all fit before
      `end` (the shortened line leaves one more position per escape). */
  lemma LexStringDecodes(c: Cursor)
    requires ValidCursor(c) && Cur(c) == '"'
    ensures c.pos + 1 < c.end ==>
      var s := ScanQuoted(c.buf, c.pos + 1, 0, c.end);
      && (LexString(c).Success? <==> s.Success? && c.pos + |s.value.text| + 2 < c.end)
      && (LexString(c).Success? ==>
            LexString(c).value.token == Token(TokConstStr, Some(s.value.text), |s.value.text|))
    ensures c.pos + 1 >= c.end ==> LexString(c) == Failure(UnexpectedEndOfBuffer)
  {
    if c.pos + 1 < c.end {
      var open := c.(pos := c.pos + 1);
      assert Advance(c) == Success(open);
      StringBodyRefines(open, c.buf, 0);
      var body := StringBody(open);
      var s := ScanQuoted(c.buf, c.pos + 1, 0, c.end);
      if body.Success? {
        var close := body.value;
        assert close.pos == c.pos + 1 + |s.value.text|;
        assert close.buf[open.pos..close.pos] == s.value.text;
        assert Advance(close).Success? <==> c.pos + |s.value.text| + 2 < c.end;
      } else {
        assert LexString(c).Failure?;
      }
    }
  }

  /** The table maps a string to `<<=` or `>>=` only for those very strings. */
  lemma ThreeCharKeys(k: string)
    requires k in KeywordTable
    ensures KeywordTable[k] == TokLShiftEquals ==> k == "<<="
    ensures KeywordTable[k] == TokRShiftEquals ==> k == ">>="
  {
  }

  /** The three-character entries of the table can never be produced: the
      operator lookup only ever asks for two characters, and a word lookup
      only for letters, digits and `_`. */
  lemma NoThreeCharOperators(c: Cursor)
    requires ValidCursor(c)
    ensures LexToken(c).Success? ==>
      LexToken(c).value.token.value != TokLShiftEquals && LexToken(c).value.token.value != TokRShiftEquals
  {
    var c1 := if Cur(c) == '\r' then Advance(c) else Success(c);
    if c1.Success? && Cur(c1.value) != '\n' && SkipSpace(c1.value).Success? {
      var c2 := SkipSpace(c1.value).value;
      assert LexToken(c) == LexSignificant(c2);
      var ch := Cur(c2);
      if !IsDigit(ch) && ch != '"' && ch != '\'' {
        if IsPunct(ch) {
          PunctIsNotThreeChars(c2);
        } else {
          WordIsNotThreeChars(c2);
        }
      }
    }
  }

  lemma PunctIsNotThreeChars(c: Cursor)
    requires ValidCursor(c) && IsPunct(Cur(c))
    ensures LexPunct(c).Success? ==>
      LexPunct(c).value.token.value != TokLShiftEquals && LexPunct(c).value.token.value != TokRShiftEquals
  {
    var pair := [Cur(c), CharAt(c.buf, c.pos + 1)];
    if IsPunct(pair[1]) && pair in KeywordTable {
      ThreeCharKeys(pair);
    }
  }

  lemma WordIsNotThreeChars(c: Cursor)
    requires ValidCursor(c) && !IsPunct(Cur(c))
    ensures LexWord(c).Success? ==>
      LexWord(c).value.token.value != TokLShiftEquals && LexWord(c).value.token.value != TokRShiftEquals
  {
    if LexWord(c).Success? {
      var e := LexWord(c).value.rest.pos;
      var lexeme := if e == c.pos then [] else c.buf[c.pos..e];
      if lexeme in KeywordTable {
        ThreeCharKeys(lexeme);
        if |lexeme| == 3 {
          assert IsWordChar(CharAt(c.buf, c.pos));
          assert lexeme[0] == CharAt(c.buf, c.pos);
        }
      }
    }
  }

  /** A line feed under the cursor, possibly after one carriage return, is a
      newline token and the cursor stays on it. */
  lemma NewlineIsNotConsumed(c: Cursor)
    requires ValidCursor(c)
    ensures Cur(c) == '\n' ==> LexToken(c) == Success(Lexed(NewlineToken, c))
    ensures Cur(c) == '\r' && CharAt(c.buf, c.pos + 1) == '\n' && c.pos + 1 < c.end ==>
      LexToken(c) == Success(Lexed(NewlineToken, c.(pos := c.pos + 1)))
  {
  }

  /** A line feed that follows other whitespace is skipped like whitespace:
      no newline token comes out of it. */
  lemma NewlineAfterSpaceIsSkipped(c: Cursor)
    requires ValidCursor(c)
    requires Cur(c) == ' ' && CharAt(c.buf, c.pos + 1) == '\n'
    ensures LexToken(c).Success? ==> LexToken(c).value.token != NewlineToken
  {
    if c.pos + 1 < c.end {
      var n := c.(pos := c.pos + 1);
      assert SkipSpace(c) == SkipSpace(n);
      if SkipSpace(n).Success? {
        assert SkipSpace(n).value.pos > n.pos;
      }
    }
  }

  /** A numeral with a second decimal point is one number token. */
  lemma SecondDotAccepted()
    ensures LexToken(StartOfLine("1.2.3;")) ==
      Success(Lexed(Token(TokNumber, Some("1.2.3"), 5), Cursor("1.2.3;", 5, 6)))
  {
    var line := "1.2.3;";
    var c := StartOfLine(line);
    assert NumberEnd(c.(pos := 4)) == Success(c.(pos := 5));
    assert NumberEnd(c.(pos := 3)) == Success(c.(pos := 5));
    assert NumberEnd(c.(pos := 2)) == Success(c.(pos := 5));
    assert NumberEnd(c.(pos := 1)) == Success(c.(pos := 5));
    assert NumberEnd(c) == Success(c.(pos := 5));
    assert line[0..5] == "1.2.3";
    assert RemoveUnderscores("1.2.3") == "1.2.3";
  }

  /** Separators vanish from a numeral and the digits keep their order. */
  lemma SeparatorsDropped()
    ensures LexToken(StartOfLine("1_000;")) ==
      Success(Lexed(Token(TokNumber, Some("1000"), 4), Cursor("1_000;", 5, 6)))
  {
    var line := "1_000;";
    var c := StartOfLine(line);
    assert NumberEnd(c.(pos := 4)) == Success(c.(pos := 5));
    assert NumberEnd(c.(pos := 3)) == Success(c.(pos := 5));
    assert NumberEnd(c.(pos := 2)) == Success(c.(pos := 5));
    assert NumberEnd(c.(pos := 1)) == Success(c.(pos := 5));
    assert NumberEnd(c) == Success(c.(pos := 5));
    assert line[0..5] == "1_000";
    assert RemoveUnderscores("1_000") == "1000";
  }
}
