/** Properties of the bytecode generator: operands read back as written,
    how opcodes are chosen, how slots are handed out, and the layout of
    the code for each kind of expression. */
module BytecodeFacts {
  import opened Common
  import opened Lexer
  import opened Types
  import opened Parser
  import Analyzer
  import opened Bytecode

  // ---------------------------------------------------------------------
  // Operands.

  /** Any two bytes are the encoding of the word they spell: writing a word
      is onto, so every operand an interpreter may read can be written. */
  lemma WordOfBigEndian(bs: seq<byte>)
    requires |bs| == 2
    ensures Word(BigEndian(bs)) == bs
  {
    assert bs[..1] == [bs[0]];
    assert [bs[0]][..0] == [];
    assert BigEndian([bs[0]]) == bs[0] as int;
    var v := BigEndian(bs);
    assert v == bs[0] as int * 256 + bs[1] as int;
  }

  /** Writing a word keeps exactly its low 16 bits: two values are written
      the same way just when they agree modulo 2^16. */
  lemma WordsAgree(a: int, b: int)
    ensures Word(a) == Word(b) <==> a % TwoTo16 == b % TwoTo16
  {
    if a % TwoTo16 == b % TwoTo16 {
      assert Word(a) == Word(b);
    }
  }

  // ---------------------------------------------------------------------
  // Opcode choice.

  /** A boolean is operated on, loaded and stored as a 32-bit integer. */
  lemma BooleansAreInt32(first: int, b: TypeInfo, i: TypeInfo, floatable: bool)
    requires b.kind == TBool && i.kind == TInt && i.size == 32
    ensures BinaryOpcode(first, Some(b), floatable) == BinaryOpcode(first, Some(i), floatable)
    ensures TypedOpcode(first, Some(b)) == TypedOpcode(first, Some(i))
  {
  }

  /** The six sized built-in types load and store with six different
      opcodes, as long as the family fits in a byte. */
  lemma BuiltinLoadsDistinct(first: int, x: string, y: string)
    requires 0 <= first && first + 5 < 256
    requires x in ["i8", "i16", "i32", "i64", "f32", "f64"] && y in ["i8", "i16", "i32", "i64", "f32", "f64"]
    ensures TypedOpcode(first, Some(Analyzer.InitAnalyzer()[x])).Success?
    ensures x != y ==>
      TypedOpcode(first, Some(Analyzer.InitAnalyzer()[x])).value != TypedOpcode(first, Some(Analyzer.InitAnalyzer()[y])).value
  {
  }

  /** The four arithmetic variants of the built-in number types are
      different opcodes, and the 8- and 16-bit integers have none. */
  lemma BuiltinArithmeticDistinct(first: int, x: string, y: string)
    requires 0 <= first && first + 3 < 256
    requires x in ["i32", "i64", "f32", "f64"] && y in ["i32", "i64", "f32", "f64"]
    ensures |BinaryOpcode(first, Some(Analyzer.InitAnalyzer()[x]), true).value| == 1
    ensures x != y ==>
      BinaryOpcode(first, Some(Analyzer.InitAnalyzer()[x]), true).value != BinaryOpcode(first, Some(Analyzer.InitAnalyzer()[y]), true).value
    ensures BinaryOpcode(first, Some(Analyzer.InitAnalyzer()["i8"]), true) == Success([])
    ensures BinaryOpcode(first, Some(Analyzer.InitAnalyzer()["i16"]), true) == Success([])
  {
  }

  // ---------------------------------------------------------------------
  // Slots.

  /** Two stores in a row take consecutive slots; the first name keeps its
      slot unless the second store rebinds it, in which case it names the
      newer slot. */
  lemma ConsecutiveStores(ops: Opcodes, g: Gen, a: string, b: string, ta: TypeRef, tb: TypeRef)
    requires StoreValue(ops, g, Some(a), ta).Success?
    requires StoreValue(ops, StoreValue(ops, g, Some(a), ta).value, Some(b), tb).Success?
    ensures var g1 := StoreValue(ops, g, Some(a), ta).value;
      var g2 := StoreValue(ops, g1, Some(b), tb).value;
      && FindAlloc(g1, a) == g.counter
      && FindAlloc(g2, b) == (g.counter + 1) % TwoTo16
      && FindAlloc(g2, a) == (if a == b then (g.counter + 1) % TwoTo16 else g.counter)
  {
  }

  /** A variable loads from the slot it was stored into: the word after a
      load's opcode is the word after the store's. */
  lemma LoadAfterStore(ops: Opcodes, g: Gen, name: string, t: TypeRef, id: Node)
    requires StoreValue(ops, g, Some(name), t).Success?
    requires id.kind.Id? && id.tok.text == Some(name) && TypedOpcode(ops.loadB, id.ty).Success?
    ensures var stored := StoreValue(ops, g, Some(name), t).value;
      var loaded := GenerateId(ops, stored, id);
      && loaded.Success?
      && BigEndian(loaded.value.code[|loaded.value.code| - 2..]) == BigEndian(stored.code[|stored.code| - 2..])
  {
  }

  /** A name that was never stored cannot be loaded. */
  lemma NothingToLoad(ops: Opcodes, doubleToU64: string -> u64, name: string, id: Node)
    requires id.kind.Id? && id.tok.text == Some(name)
    ensures GenerateExpression(ops, doubleToU64, InitBytecode(), id) == Failure(AssertionFailed)
  {
    assert FindAlloc(InitBytecode(), name) == -1;
  }

  // ---------------------------------------------------------------------
  // Layout of the code.

  /** A declaration's code is its initializer's code followed by a store
      into the slot that was free after the initializer, which the name
      then denotes. */
  lemma DeclarationLayout(ops: Opcodes, doubleToU64: string -> u64, g: Gen, n: Node)
    requires n.kind.Decl? && n.kind.target.tok.text.Some?
    requires GenerateExpression(ops, doubleToU64, g, n).Success?
    ensures var r := GenerateExpression(ops, doubleToU64, g, n).value;
      var init := GenerateExpression(ops, doubleToU64, g, n.kind.init);
      && init.Success?
      && TypedOpcode(ops.storeB, n.ty).Success?
      && r.code == init.value.code + TypedOpcode(ops.storeB, n.ty).value + Word(init.value.counter)
      && FindAlloc(r, n.kind.target.tok.text.value) == init.value.counter
  {
  }

  /** A binary expression's code is the left operand's, then the right
      operand's, then at most one instruction, and only for `+ - * /`. */
  lemma BinaryLayout(ops: Opcodes, doubleToU64: string -> u64, g: Gen, n: Node)
    requires n.kind.Binary?
    requires GenerateExpression(ops, doubleToU64, g, n).Success?
    ensures var r := GenerateExpression(ops, doubleToU64, g, n).value;
      var left := GenerateExpression(ops, doubleToU64, g, n.kind.left);
      && left.Success?
      && var right := GenerateExpression(ops, doubleToU64, left.value, n.kind.right);
      && right.Success?
      && |right.value.code| <= |r.code| <= |right.value.code| + 1
      && r.code[..|right.value.code|] == right.value.code
      && (|r.code| > |right.value.code| ==> HasInstruction(n.tok.value))
      && r.slots == right.value.slots
  {
  }

  /** A literal's code is appended as it is: the generator adds exactly
      the literal's push. */
  lemma LiteralAppends(ops: Opcodes, doubleToU64: string -> u64, g: Gen, n: Node)
    requires n.kind.Lit? && !n.kind.lit.LitUint?
    ensures var r := GenerateExpression(ops, doubleToU64, g, n);
      && r.Success? && r.value.code[..|g.code|] == g.code
      && r.value.code[|g.code|..] == LiteralCode(ops, doubleToU64, n.kind.lit).value
      && r.value.slots == g.slots && r.value.counter == g.counter
  {
    var r := GenerateExpression(ops, doubleToU64, g, n);
    var bs := LiteralCode(ops, doubleToU64, n.kind.lit).value;
    assert r.value.code == g.code + bs;
    assert r.value.code[|g.code|..] == bs;
  }

  /** Character literals push their low byte with two bytes of code;
      integer and double literals push a 64-bit value with nine, whose
      operand reads back as that value. */
  lemma LiteralPushes(ops: Opcodes, doubleToU64: string -> u64, lit: Literal)
    requires !lit.LitUint?
    ensures var pushed := LiteralCode(ops, doubleToU64, lit).value;
      && (lit.LitChar? ==> pushed == [Low(ops.pushB), Low(lit.value)])
      && (lit.LitInt? ==>
            |pushed| == 9 && pushed[0] == Low(ops.pushW) && BigEndian(pushed[1..]) == lit.value)
      && (lit.LitDouble? ==>
            |pushed| == 9 && pushed[0] == Low(ops.pushW) && BigEndian(pushed[1..]) == doubleToU64(lit.numeral))
  {
    match lit
    case LitChar(v) =>
    case LitInt(v) =>
      assert LiteralCode(ops, doubleToU64, lit).value == PushopQword(ops, v);
      QwordPush(ops, v);
    case LitDouble(numeral) =>
      assert LiteralCode(ops, doubleToU64, lit).value == PushopQword(ops, doubleToU64(numeral));
      QwordPush(ops, doubleToU64(numeral));
  }

  /** A 64-bit value is pushed unchanged. */
  lemma QwordPush(ops: Opcodes, v: u64)
    ensures var pushed := PushopQword(ops, v);
      |pushed| == 9 && pushed[0] == Low(ops.pushW) && BigEndian(pushed[1..]) == v
  {
    var pushed := PushopQword(ops, v);
    assert BigEndian(pushed[1..]) == v % TwoTo64;
    assert v % TwoTo64 == v;
  }

  // ---------------------------------------------------------------------
  // A whole example.

  const I8: TypeRef := Some(Basic("i8", TInt, 8))

  function XToken(): Token {
    Token(TokIdentifier, Some("x"), 1)
  }

  /** `x : = 'A'` then `x`, typed as the analyzer types them, from a fresh
      generator: push the byte 65, store it as an `i8` into slot 0, load
      slot 0 as an `i8`. */
  lemma DeclareThenLoad(ops: Opcodes, doubleToU64: string -> u64, colon: Token, c: Token)
    ensures var decl := Node(Decl(Fresh(Id, XToken()), Node(Lit(LitChar(65)), c, I8), None), colon, I8);
      var use := Node(Id, XToken(), I8);
      var g1 := GenerateExpression(ops, doubleToU64, InitBytecode(), decl);
      && g1.Success?
      && g1.value.code == [Low(ops.pushB), 65, Low(ops.storeB), 0, 0]
      && GenerateExpression(ops, doubleToU64, g1.value, use).Success?
      && GenerateExpression(ops, doubleToU64, g1.value, use).value.code
         == [Low(ops.pushB), 65, Low(ops.storeB), 0, 0, Low(ops.loadB), 0, 0]
  {
    var decl := Node(Decl(Fresh(Id, XToken()), Node(Lit(LitChar(65)), c, I8), None), colon, I8);
    var g0 := InitBytecode();
    var lit := GenerateExpression(ops, doubleToU64, g0, decl.kind.init);
    assert lit == Success(Gen([Low(ops.pushB), 65], map[], 0));
    assert Word(0) == [0, 0];
    assert TypedOpcode(ops.storeB, I8) == Success([Low(ops.storeB)]);
    assert TypedOpcode(ops.loadB, I8) == Success([Low(ops.loadB)]);
    var g1 := GenerateExpression(ops, doubleToU64, g0, decl);
    assert g1 == GenerateDecl(ops, doubleToU64, g0, decl);
    assert g1 == StoreValue(ops, lit.value, Some("x"), I8);
  }
}
