/** The parser: one statement's tokens to a syntax tree, by recursive
    descent for operands and precedence climbing for binary operators.

    The source keeps an index into the token array; here every parse
    function takes that index and returns the node it built together with
    the index after it. Reading past the last token reads the end-of-file
    token, which the lexer always puts there, and advancing while on it
    is an error. */
module Parser {
  import opened Common
  import opened Lexer
  import opened Types

  // Single-character token kinds are the character codes.
  const LParen: int := '(' as int
  const RParen: int := ')' as int
  const LBrace: int := '{' as int
  const RBrace: int := '}' as int
  const LBracket: int := '[' as int
  const Comma: int := ',' as int
  const Colon: int := ':' as int
  const Equals: int := '=' as int
  const Semicolon: int := ';' as int

  /** The payload of a literal node. A double keeps its numeral: turning it
      into a floating-point value is not modelled. */
  datatype Literal =
    | LitUint(value: u64)
    | LitInt(value: u64)       // a negative value, as its two's-complement bits
    | LitDouble(numeral: string)
    | LitChar(value: u64)      // the character's byte, sign-extended as a C `char`

  /** A syntax-tree node: what it is, the token it was built from and the
      type the analyzer attached to it (none until then). */
  datatype Node = Node(kind: Kind, tok: Token, ty: TypeRef)

  datatype Kind =
    | ErrorNode
    | Root(exprs: seq<Node>)
    | Fn(args: seq<Node>, ret: Option<Node>)
    | FnArg(ident: Option<Token>, argType: Token)
    | If(cond: Node, thenBranch: Node)
    | Binary(left: Node, right: Node)      // the operator is the node's token
    | Id
    | Lit(lit: Literal)
    | Str
    | Body(exprs: seq<Node>)
    | Decl(target: Node, init: Node, declType: Option<Node>)
    | Call(callee: Node, args: seq<Node>)

  /** A node as the parser allocates it: from zeroed memory, so untyped. */
  function Fresh(kind: Kind, tok: Token): Node {
    Node(kind, tok, None)
  }

  /** Something parsed and the index of the first token after it. */
  datatype Parsed<+T> = Parsed(value: T, next: nat)

  // ---------------------------------------------------------------------
  // The token cursor.

  function PeekToken(toks: seq<Token>, i: nat): Token {
    if i < |toks| then toks[i] else EofToken
  }

  /** Moves past the current token; on the end-of-file token this aborts. */
  function AdvanceToken(toks: seq<Token>, i: nat): (r: Result<nat>)
    requires i <= |toks|
    ensures r.Success? <==> PeekToken(toks, i).value != TokEof
    ensures r.Success? ==> i < |toks| && r.value == i + 1
    ensures r.Failure? ==> r.error == UnexpectedEndOfTokens
  {
    if PeekToken(toks, i).value == TokEof then Failure(UnexpectedEndOfTokens) else Success(i + 1)
  }

  /** The current token, moving past it. */
  function GetToken(toks: seq<Token>, i: nat): (r: Result<Parsed<Token>>)
    requires i <= |toks|
    ensures r.Success? <==> PeekToken(toks, i).value != TokEof
    ensures r.Success? ==> i < |toks| && r.value == Parsed(toks[i], i + 1)
  {
    var next :- AdvanceToken(toks, i);
    Success(Parsed(PeekToken(toks, i), next))
  }

  /** The current token if it has the expected kind, moving past it. */
  function EatToken(toks: seq<Token>, i: nat, kind: int): (r: Result<Parsed<Token>>)
    requires i <= |toks|
    ensures r.Success? <==> kind != TokEof && PeekToken(toks, i).value == kind
    ensures r.Success? ==> i < |toks| && r.value == Parsed(toks[i], i + 1)
    ensures r.Failure? ==>
      r.error == if PeekToken(toks, i).value == TokEof then UnexpectedEndOfTokens
                 else UnexpectedToken(kind, PeekToken(toks, i).value)
  {
    var t :- GetToken(toks, i);
    if t.value.value != kind then Failure(UnexpectedToken(kind, t.value.value)) else Success(t)
  }

  // ---------------------------------------------------------------------
  // Binding powers.

  /** The binding power of a token on the left of its right operand
      (`onLeft`) or the one its right operand is parsed with; 0 for a token
      that is not a binary operator. */
  function Precedence(op: int, onLeft: bool): (p: int)
    ensures p >= 0
  {
    if op in {TokPlusPlus, TokMinusMinus, '(' as int, '[' as int} then (if onLeft then 35 else 36)
    else if op in {'*' as int, '/' as int, '%' as int} then (if onLeft then 33 else 34)
    else if op in {'+' as int, '-' as int} then (if onLeft then 31 else 32)
    else if op in {TokBitsLShift, TokBitsRShift} then (if onLeft then 29 else 30)
    else if op in {'>' as int, '<' as int, TokLogicalGEqual, TokLogicalLEqual} then (if onLeft then 27 else 28)
    else if op in {TokLogicalIs, TokLogicalIsNot} then (if onLeft then 25 else 26)
    else if op == '&' as int then (if onLeft then 23 else 24)
    else if op == '^' as int then (if onLeft then 21 else 22)
    else if op == '|' as int then (if onLeft then 19 else 20)
    else if op == TokLogicalAnd then (if onLeft then 17 else 18)
    else if op == TokLogicalOr then (if onLeft then 15 else 16)
    else if op in {Equals, TokPlusEquals, TokMinusEquals, TokMultEquals, TokDivEquals, TokModEquals,
                   TokLShiftEquals, TokRShiftEquals, TokAndEquals, TokXorEquals, TokOrEquals} then
      (if onLeft then 10 else 11)
    else 0
  }

  // ---------------------------------------------------------------------
  // Literals.

  function CharValue(c: char): (n: nat)
    requires IsDigit(c)
    ensures n < 10
  {
    c as int - '0' as int
  }

  /** The longest prefix of `s` made of decimal digits. */
  function LeadingDigits(s: string): (d: string)
    ensures |d| <= |s| && d == s[..|d|]
    ensures forall k :: 0 <= k < |d| ==> IsDigit(d[k])
    ensures |d| < |s| ==> !IsDigit(s[|d|])
  {
    if |s| == 0 || !IsDigit(s[0]) then [] else [s[0]] + LeadingDigits(s[1..])
  }

  /** The value of a string of decimal digits, most significant first. */
  function DecimalValue(d: string): nat
    requires forall k :: 0 <= k < |d| ==> IsDigit(d[k])
  {
    if |d| == 0 then 0 else 10 * DecimalValue(d[..|d| - 1]) + CharValue(d[|d| - 1])
  }

  /** `strtoull` in base 10 on a numeral: the value of its leading digits,
      saturated at the largest `u64`. */
  function Strtoull(s: string): (v: u64)
    ensures v <= DecimalValue(LeadingDigits(s))
    ensures DecimalValue(LeadingDigits(s)) < TwoTo64 ==> v == DecimalValue(LeadingDigits(s))
    ensures DecimalValue(LeadingDigits(s)) >= TwoTo64 ==> v == TwoTo64 - 1
  {
    var n := DecimalValue(LeadingDigits(s));
    if n < TwoTo64 then n else TwoTo64 - 1
  }

  /** `strtoll` in base 10 on a numeral starting with `-`, reinterpreted as
      an unsigned 64-bit pattern: the negated value of the digits, clamped
      at the smallest `i64`, in two's complement. */
  function NegativeNumeral(s: string): (v: u64)
    requires |s| > 0 && s[0] == '-'
    ensures var n := DecimalValue(LeadingDigits(s[1..]));
      (n == 0 ==> v == 0) && (0 < n <= TwoTo64 / 2 ==> v + n == TwoTo64) && (n >= TwoTo64 / 2 ==> v == TwoTo64 / 2)
  {
    var n := DecimalValue(LeadingDigits(s[1..]));
    if n == 0 then 0 else if n >= TwoTo64 / 2 then TwoTo64 / 2 else TwoTo64 - n
  }

  /** A C `char` holding `b`, widened to 64 bits: bytes from 128 up are
      negative and sign-extend. */
  function SignExtendByte(b: int): (v: u64)
    requires 0 <= b < 256
    ensures v % 256 == b
    ensures b < 128 ==> v == b
    ensures b >= 128 ==> v >= TwoTo64 - 128
  {
    if b < 128 then b else TwoTo64 - 256 + b
  }

  /** The literal of a character token: its first character (the string
      terminator if it has none). */
  function CharLiteral(t: Token): (r: Result<Literal>)
    ensures r.Success? <==> t.text.Some?
    ensures r.Success? ==>
      r.value.LitChar? && r.value.value % 256 == (if |t.text.value| == 0 then 0 else (t.text.value[0] as int) % 256)
  {
    match t.text
    case None => Failure(NullDereference)
    case Some(s) => Success(LitChar(SignExtendByte(if |s| == 0 then 0 else (s[0] as int) % 256)))
  }

  /** The literal of a number token: a double if the first `size`
      characters hold a `.`, else a signed integer if it starts with `-`,
      else an unsigned one. */
  function NumberLiteral(t: Token): (r: Result<Literal>)
    ensures r.Success? <==> t.text.Some?
    ensures r.Success? ==>
      var s := t.text.value;
      var scanned := s[..if t.size < 0 then 0 else if t.size > |s| then |s| else t.size];
      && (r.value.LitDouble? <==> '.' in scanned)
      && (r.value.LitDouble? ==> r.value.numeral == s)
      && (r.value.LitInt? <==> '.' !in scanned && |s| > 0 && s[0] == '-')
      && (r.value.LitInt? ==> r.value.value == NegativeNumeral(s))
      && (r.value.LitUint? <==> '.' !in scanned && !(|s| > 0 && s[0] == '-'))
      && (r.value.LitUint? ==> r.value.value == Strtoull(s))
  {
    match t.text
    case None => Failure(NullDereference)
    case Some(s) =>
      var scanned := s[..if t.size < 0 then 0 else if t.size > |s| then |s| else t.size];
      if '.' in scanned then Success(LitDouble(s))
      else if |s| > 0 && s[0] == '-' then Success(LitInt(NegativeNumeral(s)))
      else Success(LitUint(Strtoull(s)))
  }

  // ---------------------------------------------------------------------
  // Function literals.

  /** One parameter: `name` (the name also serves as its type) or
      `name : type`. */
  function ParseFuncArg(toks: seq<Token>, i: nat): (r: Result<Parsed<Node>>)
    requires i <= |toks|
    ensures r.Success? ==> i < r.value.next <= |toks|
    ensures r.Success? ==> PeekToken(toks, i).value == TokIdentifier && r.value.value.tok == toks[i]
    ensures r.Success? ==> r.value.value.kind.FnArg? && r.value.value.kind.argType.value == TokIdentifier
    ensures r.Success? ==>
      (r.value.value.kind.ident.None? <==> PeekToken(toks, i + 1).value != Colon) &&
      (r.value.value.kind.ident.None? ==> r.value.value.kind.argType == toks[i] && r.value.next == i + 1) &&
      (r.value.value.kind.ident.Some? ==> r.value.value.kind.ident.value == toks[i] && r.value.next == i + 3)
  {
    var id :- EatToken(toks, i, TokIdentifier);
    if PeekToken(toks, id.next).value != Colon then
      Success(Parsed(Fresh(FnArg(None, id.value), id.value), id.next))
    else
      var ty :- EatToken(toks, id.next + 1, TokIdentifier);
      Success(Parsed(Fresh(FnArg(Some(id.value), ty.value), id.value), ty.next))
  }

  /** The parameters after `(`: up to a `)` that closes the list after a
      parameter, or until the cursor is on a `)` at the start of a
      parameter, which is then left where it is. */
  function ArgumentList(toks: seq<Token>, i: nat): (r: Result<Parsed<seq<Node>>>)
    requires i <= |toks|
    decreases |toks| - i
    ensures r.Success? ==> i <= r.value.next <= |toks|
    ensures r.Success? ==> forall k :: 0 <= k < |r.value.value| ==> r.value.value[k].kind.FnArg?
    ensures PeekToken(toks, i).value == RParen ==> r == Success(Parsed([], i))
  {
    if PeekToken(toks, i).value == RParen then Success(Parsed([], i))
    else
      var arg :- ParseFuncArg(toks, i);
      if PeekToken(toks, arg.next).value != Comma then
        var close :- EatToken(toks, arg.next, RParen);
        Success(Parsed([arg.value], close.next))
      else
        var rest :- ArgumentList(toks, arg.next + 1);
        Success(Parsed([arg.value] + rest.value, rest.next))
  }

  /** `(` and a parameter list. */
  function ParseArguments(toks: seq<Token>, i: nat): (r: Result<Parsed<seq<Node>>>)
    requires i <= |toks|
    ensures r.Success? ==> PeekToken(toks, i).value == LParen && i < r.value.next <= |toks|
    ensures r.Success? ==> forall k :: 0 <= k < |r.value.value| ==> r.value.value[k].kind.FnArg?
  {
    var open :- EatToken(toks, i, LParen);
    ArgumentList(toks, open.next)
  }

  // ---------------------------------------------------------------------
  // Expressions. The functions below call one another; each returns only
  // after consuming at least one token, except where noted. Where the
  // current token's kind is already known it is not end-of-file, so moving
  // past it cannot fail and is written as `i + 1`.

  /** `fn name (params) [-> type]`. The name is consumed and dropped. */
  function ParseFunc(toks: seq<Token>, i: nat): (r: Result<Parsed<Node>>)
    requires i <= |toks|
    decreases |toks| - i, 1
    ensures r.Success? ==> i < r.value.next <= |toks|
    ensures r.Success? ==> r.value.value.kind.Fn? && r.value.value.tok == toks[i] && toks[i].value == TokFunc
    ensures r.Success? ==> i + 2 < |toks| && toks[i + 1].value == TokIdentifier
    ensures r.Success? ==>
      var args := ParseArguments(toks, i + 2);
      && args.Success? && r.value.value.kind.args == args.value.value
      && (r.value.value.kind.ret.Some? <==> PeekToken(toks, args.value.next).value == TokArrow)
      && (r.value.value.kind.ret.None? ==> r.value.next == args.value.next)
      && (r.value.value.kind.ret.Some? ==>
            var ret := ParseExpression(toks, args.value.next + 1);
            ret.Success? && r.value.value.kind.ret.value == ret.value.value && r.value.next == ret.value.next)
  {
    var fnTok :- EatToken(toks, i, TokFunc);
    var name :- EatToken(toks, fnTok.next, TokIdentifier);
    var args :- ParseArguments(toks, name.next);
    if PeekToken(toks, args.next).value == TokArrow then
      var ret :- ParseExpression(toks, args.next + 1);
      Success(Parsed(Fresh(Fn(args.value, Some(ret.value)), fnTok.value), ret.next))
    else
      Success(Parsed(Fresh(Fn(args.value, None), fnTok.value), args.next))
  }

  /** Postfix forms after an operand, repeatedly: a call `(args)` and a
      declaration `: [type] = init`. Consumes nothing when neither
      follows. */
  function ParseAtom(operand: Node, toks: seq<Token>, i: nat): (r: Result<Parsed<Node>>)
    requires i <= |toks|
    decreases |toks| - i, 2
    ensures r.Success? ==> i <= r.value.next <= |toks|
    ensures r.Success? ==> PeekToken(toks, r.value.next).value !in {LParen, Colon}
    ensures PeekToken(toks, i).value !in {LParen, Colon} ==> r == Success(Parsed(operand, i))
    ensures PeekToken(toks, i).value == Colon && !operand.kind.Id? ==> r == Failure(DeclarationNeedsIdentifier)
  {
    var t := PeekToken(toks, i);
    if t.value == LParen then
      var args :- CallArgs(toks, i + 1);
      ParseAtom(Fresh(Call(operand, args.value), t), toks, args.next)
    else if t.value == Colon then
      if !operand.kind.Id? then Failure(DeclarationNeedsIdentifier)
      else
        var annotation :- DeclType(toks, i + 1);
        var init :- ParseExpression(toks, annotation.next);
        ParseAtom(Fresh(Decl(operand, init.value, annotation.value), t), toks, init.next)
    else
      Success(Parsed(operand, i))
  }

  /** After a declaration's `:`: either `=` (no type), or an operand as the
      type followed by `=`. */
  function DeclType(toks: seq<Token>, i: nat): (r: Result<Parsed<Option<Node>>>)
    requires i <= |toks|
    decreases |toks| - i, 4
    ensures r.Success? ==> i < r.value.next <= |toks|
    ensures r.Success? ==> r.value.next > 0 && toks[r.value.next - 1].value == Equals
    ensures PeekToken(toks, i).value == Equals ==> r == Success(Parsed(None, i + 1))
    ensures r.Success? && PeekToken(toks, i).value != Equals ==> r.value.value.Some?
  {
    if PeekToken(toks, i).value == Equals then
      Success(Parsed(None, i + 1))
    else
      var ty :- ParseOperand(toks, i);
      var eq :- EatToken(toks, ty.next, Equals);
      Success(Parsed(ty.value, eq.next))
  }

  /** The arguments of a call, after its `(`. After each argument a `)` is
      expected unless a `,` follows, and then one more token is consumed
      whatever it is. The loop ends when the cursor is on a `)` at the start
      of an argument; that `)` is not consumed. */
  function CallArgs(toks: seq<Token>, i: nat): (r: Result<Parsed<seq<Node>>>)
    requires i <= |toks|
    decreases |toks| - i, 7
    ensures r.Success? ==> i <= r.value.next <= |toks| && PeekToken(toks, r.value.next).value == RParen
    ensures PeekToken(toks, i).value == RParen ==> r == Success(Parsed([], i))
  {
    if PeekToken(toks, i).value == RParen then Success(Parsed([], i))
    else
      var arg :- ParseExpression(toks, i);
      var closed :- CloseArgument(toks, arg.next);
      var skipped :- GetToken(toks, closed);
      var rest :- CallArgs(toks, skipped.next);
      Success(Parsed([arg.value] + rest.value, rest.next))
  }

  /** After a call argument: eat `)` unless the cursor is on `,`. */
  function CloseArgument(toks: seq<Token>, i: nat): (r: Result<nat>)
    requires i <= |toks|
    ensures r.Success? ==> i <= r.value <= |toks|
    ensures PeekToken(toks, i).value == Comma ==> r == Success(i)
    ensures PeekToken(toks, i).value != Comma ==>
      r == if PeekToken(toks, i).value == RParen then Success(i + 1)
           else Failure(if PeekToken(toks, i).value == TokEof then UnexpectedEndOfTokens
                        else UnexpectedToken(RParen, PeekToken(toks, i).value))
  {
    if PeekToken(toks, i).value != Comma then
      var close :- EatToken(toks, i, RParen);
      Success(close.next)
    else
      Success(i)
  }

  /** The expressions of a block, up to (not including) its `}`. */
  function BlockItems(toks: seq<Token>, i: nat): (r: Result<Parsed<seq<Node>>>)
    requires i <= |toks|
    decreases |toks| - i, 7
    ensures r.Success? ==> i <= r.value.next <= |toks| && PeekToken(toks, r.value.next).value == RBrace
    ensures PeekToken(toks, i).value == RBrace ==> r == Success(Parsed([], i))
  {
    if PeekToken(toks, i).value == RBrace then Success(Parsed([], i))
    else
      var e :- ParseExpression(toks, i);
      var rest :- BlockItems(toks, e.next);
      Success(Parsed([e.value] + rest.value, rest.next))
  }

  /** An operand, or nothing (consuming nothing) when the current token
      cannot start one. */
  function ParseOperand(toks: seq<Token>, i: nat): (r: Result<Parsed<Option<Node>>>)
    requires i <= |toks|
    decreases |toks| - i, 3
    ensures r.Success? ==> i <= r.value.next <= |toks|
    ensures r.Success? ==> (r.value.value.None? <==> r.value.next == i)
    ensures PeekToken(toks, i).value !in {TokFunc, TokIdentifier, TokChar, TokNumber, TokConstStr, LParen, LBrace, LBracket} ==>
      r == Success(Parsed(None, i))
    ensures PeekToken(toks, i).value == LBracket ==> r == Failure(AssertionFailed)
    ensures PeekToken(toks, i).value == TokIdentifier ==> r == Success(Parsed(Some(Fresh(Id, toks[i])), i + 1))
    ensures PeekToken(toks, i).value == LBrace && r.Success? ==>
      r.value.value.Some? && r.value.value.value.kind.Body? && PeekToken(toks, r.value.next).value == RBrace
    ensures PeekToken(toks, i).value in {TokChar, TokNumber} ==> (r.Success? <==> toks[i].text.Some?)
    ensures PeekToken(toks, i).value in {TokChar, TokNumber} && r.Failure? ==> r.error == NullDereference
    ensures PeekToken(toks, i).value == TokChar && r.Success? ==>
      r.value == Parsed(Some(Fresh(Lit(CharLiteral(toks[i]).value), toks[i])), i + 1)
    ensures PeekToken(toks, i).value == TokNumber && r.Success? ==>
      r.value == Parsed(Some(Fresh(Lit(NumberLiteral(toks[i]).value), toks[i])), i + 1)
    ensures PeekToken(toks, i).value == TokConstStr ==> r == Success(Parsed(Some(Fresh(Str, toks[i])), i + 1))
    ensures PeekToken(toks, i).value == LParen && r.Success? ==>
      var e := ParseExpression(toks, i + 1);
      && e.Success? && PeekToken(toks, e.value.next).value == RParen
      && r.value == Parsed(Some(e.value.value), e.value.next + 1)
    ensures PeekToken(toks, i).value == LParen && ParseExpression(toks, i + 1).Failure? ==>
      r == Failure(ParseExpression(toks, i + 1).error)
    ensures PeekToken(toks, i).value == TokFunc ==>
      var f := ParseFunc(toks, i);
      && (f.Failure? ==> r == Failure(f.error))
      && (f.Success? ==> r == Success(Parsed(Some(f.value.value), f.value.next)))
  {
    var t := PeekToken(toks, i);
    if t.value == TokFunc then
      var f :- ParseFunc(toks, i);
      Success(Parsed(Some(f.value), f.next))
    else if t.value == TokIdentifier then
      Success(Parsed(Some(Fresh(Id, t)), i + 1))
    else if t.value == TokChar then
      var lit :- CharLiteral(t);
      Success(Parsed(Some(Fresh(Lit(lit), t)), i + 1))
    else if t.value == TokNumber then
      var lit :- NumberLiteral(t);
      Success(Parsed(Some(Fresh(Lit(lit), t)), i + 1))
    else if t.value == TokConstStr then
      Success(Parsed(Some(Fresh(Str, t)), i + 1))
    else if t.value == LParen then
      var e :- ParseExpression(toks, i + 1);
      var close :- EatToken(toks, e.next, RParen);
      Success(Parsed(Some(e.value), close.next))
    else if t.value == LBrace then
      var items :- BlockItems(toks, i + 1);
      Success(Parsed(Some(Fresh(Body(items.value), t)), items.next))
    else if t.value == LBracket then
      Failure(AssertionFailed)   // array literals are not implemented
    else
      Success(Parsed(None, i))
  }

  /** `if cond then` (no postfix forms follow it), or an operand with its
      postfix forms. A missing operand aborts; before a `:` it is a NULL
      dereference. */
  function ParseUnary(toks: seq<Token>, i: nat): (r: Result<Parsed<Node>>)
    requires i <= |toks|
    decreases |toks| - i, 4
    ensures r.Success? ==> i < r.value.next <= |toks|
    ensures PeekToken(toks, i).value == TokIf && r.Success? ==> r.value.value.kind.If? && r.value.value.tok == toks[i]
    ensures PeekToken(toks, i).value == TokIf && r.Success? ==>
      var cond := ParseExpression(toks, i + 1);
      && cond.Success?
      && var body := ParseExpression(toks, cond.value.next);
      && body.Success?
      && r.value == Parsed(Fresh(If(cond.value.value, body.value.value), toks[i]), body.value.next)
    ensures PeekToken(toks, i).value != TokIf ==>
      var operand := ParseOperand(toks, i);
      && (operand.Failure? ==> r == Failure(operand.error))
      && (operand.Success? && operand.value.value.None? ==>
            r == Failure(if PeekToken(toks, i).value == Colon then NullDereference else ExpectedOperand))
      && (operand.Success? && operand.value.value.Some? ==>
            r == ParseAtom(operand.value.value.value, toks, operand.value.next))
  {
    var t := PeekToken(toks, i);
    if t.value == TokIf then
      var cond :- ParseExpression(toks, i + 1);
      var body :- ParseExpression(toks, cond.next);
      Success(Parsed(Fresh(If(cond.value, body.value), t), body.next))
    else
      var operand :- ParseOperand(toks, i);
      match operand.value
      case None => if t.value == Colon then Failure(NullDereference) else Failure(ExpectedOperand)
      case Some(n) => ParseAtom(n, toks, operand.next)
  }

  /** A unary expression followed by every operator (and its right operand)
      that binds at least as tightly as `minBp`. */
  function ParseBinary(toks: seq<Token>, i: nat, minBp: int): (r: Result<Parsed<Node>>)
    requires i <= |toks|
    decreases |toks| - i, 5
    ensures r.Success? ==> i < r.value.next <= |toks|
    ensures r.Success? ==> Precedence(PeekToken(toks, r.value.next).value, true) < minBp
  {
    var left :- ParseUnary(toks, i);
    BinaryLoop(left.value, toks, left.next, minBp)
  }

  /** The operator loop of precedence climbing: while the current token's
      left power is at least `minBp`, consume it, parse a right operand at
      its right power, and make the result the new left operand. */
  function BinaryLoop(left: Node, toks: seq<Token>, i: nat, minBp: int): (r: Result<Parsed<Node>>)
    requires i <= |toks|
    decreases |toks| - i, 0
    ensures r.Success? ==> i <= r.value.next <= |toks|
    ensures r.Success? ==> Precedence(PeekToken(toks, r.value.next).value, true) < minBp
    ensures Precedence(PeekToken(toks, i).value, true) < minBp ==> r == Success(Parsed(left, i))
  {
    var t := PeekToken(toks, i);
    if Precedence(t.value, true) < minBp then Success(Parsed(left, i))
    else
      var op :- GetToken(toks, i);
      var right :- ParseBinary(toks, op.next, Precedence(t.value, false));
      BinaryLoop(Fresh(Binary(left, right.value), t), toks, right.next, minBp)
  }

  /** An expression: every binary operator binds. */
  function ParseExpression(toks: seq<Token>, i: nat): (r: Result<Parsed<Node>>)
    requires i <= |toks|
    decreases |toks| - i, 6
    ensures r.Success? ==> i < r.value.next <= |toks|
    ensures r.Success? ==> Precedence(PeekToken(toks, r.value.next).value, true) == 0
  {
    ParseBinary(toks, i, 1)
  }

  // ---------------------------------------------------------------------
  // Statements.

  predicate EndsStatement(t: Token) {
    t.value == Semicolon || t.value == TokNewline
  }

  /** Expressions, one after another, until the cursor is on `;` or a
      newline token. */
  function StatementItems(toks: seq<Token>, i: nat): (r: Result<Parsed<seq<Node>>>)
    requires i <= |toks|
    decreases |toks| - i
    ensures r.Success? ==> i <= r.value.next <= |toks| && EndsStatement(PeekToken(toks, r.value.next))
    ensures EndsStatement(PeekToken(toks, i)) ==> r == Success(Parsed([], i))
  {
    if EndsStatement(PeekToken(toks, i)) then Success(Parsed([], i))
    else
      var e :- ParseExpression(toks, i);
      var rest :- StatementItems(toks, e.next);
      Success(Parsed([e.value] + rest.value, rest.next))
  }

  /** The root of a statement: its token is the first token and its
      children are the statement's expressions in order. */
  function ParseTokens(toks: seq<Token>): (r: Result<Node>)
    ensures r.Success? ==> r.value.kind.Root? && r.value.tok == PeekToken(toks, 0) && r.value.ty.None?
    ensures r.Success? <==> StatementItems(toks, 0).Success?
    ensures r.Success? ==> r.value.kind.exprs == StatementItems(toks, 0).value.value
  {
    var items :- StatementItems(toks, 0);
    Success(Fresh(Root(items.value), PeekToken(toks, 0)))
  }
}
