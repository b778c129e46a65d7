/** Properties of the parser: the shape of the binding-power table, how
    three operands group, the declaration forms, literal classification of
    the lexer's numerals, and the places where the parser leaves a closing
    token unconsumed. */
module ParserFacts {
  import opened Common
  import opened Lexer
  import opened Types
  import opened Parser

  // ---------------------------------------------------------------------
  // Binding powers.

  /** The binary operators from the loosest-binding level to the tightest,
      assignment forms aside. */
  const Levels: seq<set<int>> := [
    {TokLogicalOr},
    {TokLogicalAnd},
    {'|' as int},
    {'^' as int},
    {'&' as int},
    {TokLogicalIs, TokLogicalIsNot},
    {'>' as int, '<' as int, TokLogicalGEqual, TokLogicalLEqual},
    {TokBitsLShift, TokBitsRShift},
    {'+' as int, '-' as int},
    {'*' as int, '/' as int, '%' as int},
    {TokPlusPlus, TokMinusMinus, '(' as int, '[' as int}
  ]

  const Assignments: set<int> := {Equals, TokPlusEquals, TokMinusEquals, TokMultEquals, TokDivEquals, TokModEquals,
                                  TokLShiftEquals, TokRShiftEquals, TokAndEquals, TokXorEquals, TokOrEquals}

  /** The table in terms of levels: assignment forms bind at 10, level `k`
      at 15 + 2k, everything else not at all; the right power is always one
      more than the left power, or 0 for a non-operator. */
  lemma BindingPowers(op: int)
    ensures op in Assignments ==> Precedence(op, true) == 10 && Precedence(op, false) == 11
    ensures forall k :: 0 <= k < |Levels| && op in Levels[k] ==>
      Precedence(op, true) == 15 + 2 * k && Precedence(op, false) == 16 + 2 * k
    ensures op !in Assignments && (forall k :: 0 <= k < |Levels| ==> op !in Levels[k]) ==>
      Precedence(op, true) == 0 && Precedence(op, false) == 0
    ensures Precedence(op, false) == if Precedence(op, true) == 0 then 0 else Precedence(op, true) + 1
  {
    if op !in Assignments && (forall k :: 0 <= k < |Levels| ==> op !in Levels[k]) {
      assert op !in Levels[0] && op !in Levels[1] && op !in Levels[2] && op !in Levels[3];
      assert op !in Levels[4] && op !in Levels[5] && op !in Levels[6] && op !in Levels[7];
      assert op !in Levels[8] && op !in Levels[9] && op !in Levels[10];
    }
  }

  // ---------------------------------------------------------------------
  // Grouping of three operands.

  predicate IsName(t: Token) {
    t.value == TokIdentifier
  }

  /** A token the binary loop treats as an operator after an identifier:
      it has a binding power and is not the `(` that starts a call. */
  predicate IsInfix(t: Token) {
    Precedence(t.value, true) > 0 && t.value != LParen
  }

  /** A token that ends an expression after an identifier. */
  predicate Stops(t: Token) {
    Precedence(t.value, true) == 0 && t.value != LParen && t.value != Colon
  }

  function IdNode(t: Token): Node {
    Fresh(Id, t)
  }

  function BinaryNode(l: Node, r: Node, op: Token): Node {
    Fresh(Binary(l, r), op)
  }

  /** An identifier followed by a token that is not postfix is just that
      identifier. */
  lemma NameOperand(toks: seq<Token>, i: nat, minBp: int)
    requires i < |toks| && IsName(toks[i])
    requires Precedence(PeekToken(toks, i + 1).value, true) < minBp
    requires PeekToken(toks, i + 1).value != LParen && PeekToken(toks, i + 1).value != Colon
    ensures ParseBinary(toks, i, minBp) == Success(Parsed(IdNode(toks[i]), i + 1))
  {
    assert ParseOperand(toks, i) == Success(Parsed(Some(IdNode(toks[i])), i + 1));
    assert ParseUnary(toks, i) == Success(Parsed(IdNode(toks[i]), i + 1));
  }

  /** `a op1 b op2 c`: if `op2` binds more tightly than `op1` it groups
      `a op1 (b op2 c)`, otherwise `(a op1 b) op2 c`; equal powers therefore
      associate to the left. */
  lemma ThreeOperands(a: Token, op1: Token, b: Token, op2: Token, c: Token, rest: seq<Token>)
    requires IsName(a) && IsName(b) && IsName(c) && IsInfix(op1) && IsInfix(op2)
    requires Stops(PeekToken(rest, 0))
    ensures var toks := [a, op1, b, op2, c] + rest;
      ParseExpression(toks, 0) ==
        if Precedence(op2.value, true) > Precedence(op1.value, true) then
          Success(Parsed(BinaryNode(IdNode(a), BinaryNode(IdNode(b), IdNode(c), op2), op1), 5))
        else
          Success(Parsed(BinaryNode(BinaryNode(IdNode(a), IdNode(b), op1), IdNode(c), op2), 5))
  {
    var toks := [a, op1, b, op2, c] + rest;
    var p1 := Precedence(op1.value, true);
    var p2 := Precedence(op2.value, true);
    BindingPowers(op1.value);
    BindingPowers(op2.value);
    assert PeekToken(toks, 5) == PeekToken(rest, 0);
    assert ParseOperand(toks, 0) == Success(Parsed(Some(IdNode(a)), 1));
    assert ParseUnary(toks, 0) == Success(Parsed(IdNode(a), 1));
    if p2 > p1 {
      NameOperand(toks, 4, p2 + 1);
      assert ParseOperand(toks, 2) == Success(Parsed(Some(IdNode(b)), 3));
      assert ParseUnary(toks, 2) == Success(Parsed(IdNode(b), 3));
      var bc := BinaryNode(IdNode(b), IdNode(c), op2);
      assert BinaryLoop(bc, toks, 5, p1 + 1) == Success(Parsed(bc, 5));
      assert BinaryLoop(IdNode(b), toks, 3, p1 + 1) == Success(Parsed(bc, 5));
      assert ParseBinary(toks, 2, p1 + 1) == Success(Parsed(bc, 5));
      var abc := BinaryNode(IdNode(a), bc, op1);
      assert BinaryLoop(abc, toks, 5, 1) == Success(Parsed(abc, 5));
      assert BinaryLoop(IdNode(a), toks, 1, 1) == Success(Parsed(abc, 5));
    } else {
      NameOperand(toks, 2, p1 + 1);
      NameOperand(toks, 4, p2 + 1);
      var ab := BinaryNode(IdNode(a), IdNode(b), op1);
      var abc := BinaryNode(ab, IdNode(c), op2);
      assert BinaryLoop(abc, toks, 5, 1) == Success(Parsed(abc, 5));
      assert BinaryLoop(ab, toks, 3, 1) == Success(Parsed(abc, 5));
      assert BinaryLoop(IdNode(a), toks, 1, 1) == Success(Parsed(abc, 5));
    }
  }

  // ---------------------------------------------------------------------
  // Declarations.

  /** `x : = y` declares `x` with no type; `x : T = y` declares it with the
      operand `T` as its type. */
  lemma DeclarationForms(x: Token, colon: Token, eq: Token, ty: Token, y: Token, rest: seq<Token>)
    requires IsName(x) && IsName(ty) && IsName(y) && colon.value == Colon && eq.value == Equals
    requires Stops(PeekToken(rest, 0))
    ensures ParseExpression([x, colon, eq, y] + rest, 0) ==
      Success(Parsed(Fresh(Decl(IdNode(x), IdNode(y), None), colon), 4))
    ensures ParseExpression([x, colon, ty, eq, y] + rest, 0) ==
      Success(Parsed(Fresh(Decl(IdNode(x), IdNode(y), Some(IdNode(ty))), colon), 5))
  {
    var untyped := [x, colon, eq, y] + rest;
    assert PeekToken(untyped, 4) == PeekToken(rest, 0);
    NameOperand(untyped, 3, 1);
    assert ParseOperand(untyped, 0) == Success(Parsed(Some(IdNode(x)), 1));
    var d1 := Fresh(Decl(IdNode(x), IdNode(y), None), colon);
    assert ParseAtom(IdNode(x), untyped, 1) == Success(Parsed(d1, 4));
    assert ParseUnary(untyped, 0) == Success(Parsed(d1, 4));

    var typed := [x, colon, ty, eq, y] + rest;
    assert PeekToken(typed, 5) == PeekToken(rest, 0);
    NameOperand(typed, 4, 1);
    assert ParseOperand(typed, 0) == Success(Parsed(Some(IdNode(x)), 1));
    assert ParseOperand(typed, 2) == Success(Parsed(Some(IdNode(ty)), 3));
    assert DeclType(typed, 2) == Success(Parsed(Some(IdNode(ty)), 4));
    var d2 := Fresh(Decl(IdNode(x), IdNode(y), Some(IdNode(ty))), colon);
    assert ParseAtom(IdNode(x), typed, 1) == Success(Parsed(d2, 5));
    assert ParseUnary(typed, 0) == Success(Parsed(d2, 5));
  }

  /** Only an identifier can be declared: any other operand before `:`
      aborts the statement. */
  lemma DeclarationNeedsName(toks: seq<Token>, i: nat)
    requires i + 1 < |toks| && toks[i].value == TokConstStr && toks[i + 1].value == Colon
    ensures ParseExpression(toks, i) == Failure(DeclarationNeedsIdentifier)
  {
    assert ParseOperand(toks, i) == Success(Parsed(Some(Fresh(Str, toks[i])), i + 1));
    assert ParseUnary(toks, i) == Failure(DeclarationNeedsIdentifier);
  }

  /** A statement that starts with `:` has no operand to check and
      dereferences NULL. */
  lemma LeadingColonCrashes(toks: seq<Token>, i: nat)
    requires i < |toks| && toks[i].value == Colon
    ensures ParseExpression(toks, i) == Failure(NullDereference)
  {
    assert ParseOperand(toks, i) == Success(Parsed(None, i));
    assert ParseUnary(toks, i) == Failure(NullDereference);
  }

  // ---------------------------------------------------------------------
  // Literals.

  /** Keeping only the characters that are not `_` keeps the characters of
      the input. */
  lemma {:induction false} RemoveUnderscoresFrom(s: string)
    ensures forall k :: 0 <= k < |RemoveUnderscores(s)| ==> RemoveUnderscores(s)[k] in s
    ensures |s| > 0 && s[0] != '_' ==> |RemoveUnderscores(s)| > 0 && RemoveUnderscores(s)[0] == s[0]
  {
    if |s| > 0 {
      RemoveUnderscoresFrom(s[1..]);
      var r := RemoveUnderscores(s);
      var head := if s[0] == '_' then [] else [s[0]];
      assert r == head + RemoveUnderscores(s[1..]);
      forall k | 0 <= k < |r|
        ensures r[k] in s
      {
        if k >= |head| {
          assert r[k] == RemoveUnderscores(s[1..])[k - |head|];
          assert r[k] in s[1..];
        }
      }
    }
  }

  /** A string of digits is its own leading digit run. */
  lemma {:induction false} AllDigitsLead(d: string)
    requires forall k :: 0 <= k < |d| ==> IsDigit(d[k])
    ensures LeadingDigits(d) == d
  {
    if |d| > 0 {
      AllDigitsLead(d[1..]);
    }
  }

  function Pow10(n: nat): (p: nat)
    ensures p >= 1
  {
    if n == 0 then 1 else 10 * Pow10(n - 1)
  }

  /** A numeral of `n` digits has a value below 10^n. */
  lemma {:induction false} DecimalValueBound(d: string)
    requires forall k :: 0 <= k < |d| ==> IsDigit(d[k])
    ensures DecimalValue(d) < Pow10(|d|)
  {
    if |d| > 0 {
      DecimalValueBound(d[..|d| - 1]);
    }
  }

  /** Up to 19 digits always fit in 64 bits, so `strtoull` does not
      saturate on them. */
  lemma ShortNumeralsExact(s: string)
    requires |LeadingDigits(s)| <= 19
    ensures Strtoull(s) == DecimalValue(LeadingDigits(s))
  {
    var d := LeadingDigits(s);
    DecimalValueBound(d);
    var n := |d|;
    Pow10Monotone(n, 19);
    Pow10Nineteen();
  }

  lemma {:induction false} Pow10Monotone(n: nat, m: nat)
    requires n <= m
    ensures Pow10(n) <= Pow10(m)
  {
    if n < m {
      Pow10Monotone(n, m - 1);
    }
  }

  lemma Pow10Nineteen()
    ensures Pow10(19) == 10000000000000000000
  {
    assert Pow10(4) == 10000;
    assert Pow10(8) == 100000000;
    assert Pow10(12) == 1000000000000;
    assert Pow10(16) == 10000000000000000;
  }

  /** What the parser makes of a number token the lexer produced: a double
      exactly when the numeral holds a `.`, and otherwise an unsigned
      integer, never a signed one, because the lexer starts numbers only at
      a digit. The unsigned value is that of all of the numeral's digits. */
  lemma LexedNumbersAreUnsigned(c: Cursor)
    requires ValidCursor(c) && IsDigit(Cur(c)) && LexNumber(c).Success?
    ensures var t := LexNumber(c).value.token;
      && NumberLiteral(t).Success?
      && (NumberLiteral(t).value.LitDouble? <==> '.' in t.text.value)
      && (!NumberLiteral(t).value.LitDouble? ==>
            NumberLiteral(t).value.LitUint? &&
            (forall k :: 0 <= k < |t.text.value| ==> IsDigit(t.text.value[k])) &&
            NumberLiteral(t).value.value == Strtoull(t.text.value) &&
            LeadingDigits(t.text.value) == t.text.value)
  {
    var e := LexNumber(c).value.rest.pos;
    var lexeme := c.buf[c.pos..e];
    var text := RemoveUnderscores(lexeme);
    assert LexNumber(c).value.token.text == Some(text);
    RemoveUnderscoresFrom(lexeme);
    assert lexeme[0] == Cur(c);
    if '.' !in text {
      forall k | 0 <= k < |text|
        ensures IsDigit(text[k])
      {
        assert text[k] in lexeme;
        var j :| 0 <= j < |lexeme| && lexeme[j] == text[k];
        assert IsNumberChar(c.buf[c.pos + j]);
      }
      AllDigitsLead(text);
    }
  }

  /** A number token from the lexer, wherever it stands in a statement's
      tokens, is one literal operand: a double exactly when its numeral
      holds a `.`, otherwise the unsigned value of its digits. */
  lemma LexedNumberOperand(c: Cursor, toks: seq<Token>, i: nat)
    requires ValidCursor(c) && IsDigit(Cur(c)) && LexNumber(c).Success?
    requires i < |toks| && toks[i] == LexNumber(c).value.token
    ensures var t := toks[i];
      var r := ParseOperand(toks, i);
      && r.Success? && r.value.next == i + 1 && r.value.value.Some?
      && r.value.value.value.tok == t && r.value.value.value.kind.Lit?
      && (r.value.value.value.kind.lit.LitDouble? <==> '.' in t.text.value)
      && (!r.value.value.value.kind.lit.LitDouble? ==>
            r.value.value.value.kind.lit == LitUint(Strtoull(t.text.value)))
  {
    LexedNumbersAreUnsigned(c);
  }

  // ---------------------------------------------------------------------
  // Tokens left unconsumed.

  /** A block stops on its `}` and leaves it to the caller. */
  lemma BlockLeavesBrace(open: Token, a: Token, close: Token, rest: seq<Token>)
    requires open.value == LBrace && IsName(a) && close.value == RBrace
    ensures ParseOperand([open, a, close] + rest, 0) ==
      Success(Parsed(Some(Fresh(Body([IdNode(a)]), open)), 2))
  {
    var toks := [open, a, close] + rest;
    NameOperand(toks, 1, 1);
    assert ParseExpression(toks, 1) == Success(Parsed(IdNode(a), 2));
    assert BlockItems(toks, 2) == Success(Parsed([], 2));
    assert [IdNode(a)] + [] == [IdNode(a)];
    assert BlockItems(toks, 1) == Success(Parsed([IdNode(a)], 2));
  }

  /** A call with no arguments leaves its `)` to the caller. */
  lemma EmptyCallLeavesParen(f: Token, open: Token, close: Token, rest: seq<Token>)
    requires IsName(f) && open.value == LParen && close.value == RParen
    ensures ParseUnary([f, open, close] + rest, 0) ==
      Success(Parsed(Fresh(Call(IdNode(f), []), open), 2))
  {
    var toks := [f, open, close] + rest;
    assert ParseOperand(toks, 0) == Success(Parsed(Some(IdNode(f)), 1));
    assert CallArgs(toks, 2) == Success(Parsed([], 2));
    var call := Fresh(Call(IdNode(f), []), open);
    assert ParseAtom(call, toks, 2) == Success(Parsed(call, 2));
  }

  /** After the `)` of a call's last argument one more token is consumed,
      so `f(a);` runs into the end of the statement and aborts. */
  lemma CallSwallowsNextToken(f: Token, open: Token, a: Token, close: Token, semi: Token)
    requires IsName(f) && open.value == LParen && IsName(a) && close.value == RParen && semi.value == Semicolon
    ensures ParseTokens([f, open, a, close, semi, EofToken]) == Failure(ExpectedOperand)
  {
    var toks := [f, open, a, close, semi, EofToken];
    assert ParseOperand(toks, 0) == Success(Parsed(Some(IdNode(f)), 1));
    NameOperand(toks, 2, 1);
    assert CloseArgument(toks, 3) == Success(4);
    assert ParseOperand(toks, 5) == Success(Parsed(None, 5));
    assert ParseUnary(toks, 5) == Failure(ExpectedOperand);
    assert ParseExpression(toks, 5) == Failure(ExpectedOperand);
    assert CallArgs(toks, 5) == Failure(ExpectedOperand);
    assert CallArgs(toks, 2) == Failure(ExpectedOperand);
    assert ParseUnary(toks, 0) == Failure(ExpectedOperand);
    assert ParseExpression(toks, 0) == Failure(ExpectedOperand);
    assert StatementItems(toks, 0) == Failure(ExpectedOperand);
  }

  /** A parameter list `()` leaves its `)` to the caller. */
  lemma EmptyParametersLeaveParen(toks: seq<Token>, i: nat)
    requires i + 1 < |toks| && toks[i].value == LParen && toks[i + 1].value == RParen
    ensures ParseArguments(toks, i) == Success(Parsed([], i + 1))
  {
  }
}
