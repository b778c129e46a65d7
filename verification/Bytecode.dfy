/** The bytecode generator: walks an analysed syntax tree and appends
    type-specialised instructions to a byte buffer. Operands are written
    big-endian; every declaration takes the next variable slot. */
module Bytecode {
  import opened Common
  import opened Lexer
  import opened Types
  import opened Parser

  /** The source's `u8`. */
  newtype byte = x: int | 0 <= x < 256

  /** The source's `u16`. */
  type u16 = x: int | 0 <= x < TwoTo16

  // ---------------------------------------------------------------------
  // Big-endian operands.

  function Pow256(n: nat): (p: nat)
    ensures p > 0
  {
    if n == 0 then 1 else 256 * Pow256(n - 1)
  }

  /** The number a sequence of bytes spells, most significant byte first:
      how an interpreter reads an operand back. */
  function BigEndian(bs: seq<byte>): (v: nat)
    ensures v < Pow256(|bs|)
  {
    if |bs| == 0 then 0
    else
      var high := BigEndian(bs[..|bs| - 1]);
      assert high * 256 <= (Pow256(|bs| - 1) - 1) * 256;
      high * 256 + bs[|bs| - 1] as int
  }

  /** Reading a concatenation: the first part shifted past the second. */
  lemma {:induction false} BigEndianAppend(a: seq<byte>, b: seq<byte>)
    ensures BigEndian(a + b) == BigEndian(a) * Pow256(|b|) + BigEndian(b)
  {
    if |b| == 0 {
      assert a + b == a;
    } else {
      var init, last := b[..|b| - 1], b[|b| - 1] as int;
      assert (a + b)[..|a + b| - 1] == a + init;
      assert BigEndian(a + b) == BigEndian(a + init) * 256 + last;
      assert BigEndian(b) == BigEndian(init) * 256 + last;
      BigEndianAppend(a, init);
      ShiftByte(BigEndian(a), Pow256(|init|), BigEndian(init), last);
    }
  }

  lemma ShiftByte(x: int, p: int, y: int, c: int)
    ensures (x * p + y) * 256 + c == x * (256 * p) + (y * 256 + c)
  {
  }

  /** A 64-bit value is its high 32 bits shifted past its low 32 bits. */
  lemma SplitHalves(v: int)
    requires 0 <= v < TwoTo64
    ensures (v / TwoTo32 % TwoTo32) * TwoTo32 + v % TwoTo32 == v
  {
    assert v / TwoTo32 < TwoTo32;
  }

  /** A 32-bit value is its high 16 bits shifted past its low 16 bits. */
  lemma SplitWords(v: int)
    requires 0 <= v < TwoTo32
    ensures (v / TwoTo16 % TwoTo16) * TwoTo16 + v % TwoTo16 == v
  {
    assert v / TwoTo16 < TwoTo16;
  }

  /** `push_byte`'s conversion of a wider value to `u8`. */
  function Low(v: int): (b: byte)
    ensures (v - b as int) % 256 == 0
    ensures 0 <= v < 256 ==> b as int == v
  {
    (v % 256) as byte
  }

  /** The two bytes `push_word` appends: the value is first truncated to
      16 bits, as the parameter's type does. */
  function Word(w: int): (bs: seq<byte>)
    ensures |bs| == 2 && BigEndian(bs) == w % TwoTo16
  {
    var v := w % TwoTo16;
    var bs := [Low(v / 256), Low(v)];
    assert bs[..1] == [bs[0]];
    bs
  }

  /** The four bytes `push_dword` appends: the high half, then the low
      half, each as a word. */
  function Dword(d: int): (bs: seq<byte>)
    ensures |bs| == 4 && BigEndian(bs) == d % TwoTo32
  {
    var v := d % TwoTo32;
    BigEndianAppend(Word(v / TwoTo16), Word(v));
    assert Pow256(2) == TwoTo16;
    SplitWords(v);
    Word(v / TwoTo16) + Word(v)
  }

  /** The eight bytes `push_qword` appends: the high half, then the low
      half, each as a double word. */
  function Qword(q: int): (bs: seq<byte>)
    ensures |bs| == 8 && BigEndian(bs) == q % TwoTo64
  {
    var v := q % TwoTo64;
    BigEndianAppend(Dword(v / TwoTo32), Dword(v));
    assert Pow256(4) == TwoTo32;
    SplitHalves(v);
    Dword(v / TwoTo32) + Dword(v)
  }

  // ---------------------------------------------------------------------
  // Opcodes.

  /** The opcode numbers are declared in Bytecode.h, which is not part of
      this model: they are parameters. Each names the first member of a
      family of type-specialised opcodes. */
  datatype Opcodes = Opcodes(loadB: int, storeB: int, pushB: int, pushW: int,
                             addDw: int, subDw: int, mulDw: int, divDw: int)

  /** The member `k` places after `first` of a family, as a byte. */
  function Member(first: int, k: nat): byte {
    Low(first + k)
  }

  /** The opcode of an arithmetic instruction for a type: one of four
      family members for 32- and 64-bit integers and floats, the 32-bit
      integer one for booleans, nothing at all for other integer or float
      sizes. A float operand must be allowed; any other kind of type trips
      an assertion, and a missing type is dereferenced. */
  function BinaryOpcode(first: int, t: TypeRef, floatable: bool): (r: Result<seq<byte>>)
    ensures t.None? ==> r == Failure(NullDereference)
    ensures t.Some? ==>
      (r.Success? <==> t.value.kind in {TInt, TBool} || (t.value.kind == TFloat && floatable))
    ensures r.Failure? && t.Some? ==> r.error == AssertionFailed
    ensures r.Success? ==> |r.value| <= 1
    ensures r.Success? ==>
      (|r.value| == 1 <==> t.value.kind == TBool || t.value.size in {32, 64})
  {
    match t
    case None => Failure(NullDereference)
    case Some(info) =>
      match info.kind
      case TInt =>
        Success(if info.size == 32 then [Member(first, 0)]
                else if info.size == 64 then [Member(first, 1)]
                else [])
      case TFloat =>
        if !floatable then Failure(AssertionFailed)
        else Success(if info.size == 32 then [Member(first, 2)]
                     else if info.size == 64 then [Member(first, 3)]
                     else [])
      case TBool => Success([Member(first, 0)])
      case _ => Failure(AssertionFailed)
  }

  /** The opcode of a load or store for a type: one of six family members
      for 8/16/32/64-bit integers and 32/64-bit floats, the 32-bit integer
      one for booleans, nothing for other sizes; any other kind of type
      trips an assertion, and a missing type is dereferenced. */
  function TypedOpcode(first: int, t: TypeRef): (r: Result<seq<byte>>)
    ensures t.None? ==> r == Failure(NullDereference)
    ensures t.Some? ==> (r.Success? <==> t.value.kind in {TInt, TFloat, TBool})
    ensures r.Failure? && t.Some? ==> r.error == AssertionFailed
    ensures r.Success? ==> |r.value| <= 1
    ensures r.Success? ==>
      (|r.value| == 1 <==>
         t.value.kind == TBool || (t.value.kind == TInt && t.value.size in {8, 16, 32, 64})
         || (t.value.kind == TFloat && t.value.size in {32, 64}))
  {
    match t
    case None => Failure(NullDereference)
    case Some(info) =>
      match info.kind
      case TInt =>
        Success(if info.size == 8 then [Member(first, 0)]
                else if info.size == 16 then [Member(first, 1)]
                else if info.size == 32 then [Member(first, 2)]
                else if info.size == 64 then [Member(first, 3)]
                else [])
      case TFloat =>
        Success(if info.size == 32 then [Member(first, 4)]
                else if info.size == 64 then [Member(first, 5)]
                else [])
      case TBool => Success([Member(first, 2)])
      case _ => Failure(AssertionFailed)
  }

  // ---------------------------------------------------------------------
  // The generator's state.

  /** The buffer written so far, the table from variable names to slots,
      and the slot counter of the one scope the source ever uses. The
      table and counter are global in the source and persist from one
      generation to the next. */
  datatype Gen = Gen(code: seq<byte>, slots: map<string, u16>, counter: u16)

  /** `init_bytecode`: an empty table whose lookups answer -1, with an
      empty buffer and the counter at zero. */
  function InitBytecode(): (g: Gen)
    ensures g.code == [] && g.counter == 0
    ensures forall name: string :: FindAlloc(g, name) == -1
  {
    Gen([], map[], 0)
  }

  /** `generate_bytecode`: returns a fresh empty buffer and does not look at
      the tree. */
  function GenerateBytecode(tree: Node): (code: seq<byte>)
    ensures |code| == 0
  {
    []
  }

  /** The slot of a variable, -1 if it has none. */
  function FindAlloc(g: Gen, name: string): (r: int)
    ensures r == -1 <==> name !in g.slots
    ensures r != -1 ==> 0 <= r < TwoTo16 && r == g.slots[name]
  {
    if name in g.slots then g.slots[name] else -1
  }

  function Emit(g: Gen, bs: seq<byte>): Gen
  {
    g.(code := g.code + bs)
  }

  /** `load_value`: a typed load, then the slot as a word. */
  function LoadValue(ops: Opcodes, g: Gen, alloc: int, t: TypeRef): (r: Result<Gen>)
    ensures r.Success? <==> TypedOpcode(ops.loadB, t).Success?
    ensures r.Success? ==>
      && r.value.slots == g.slots && r.value.counter == g.counter
      && |g.code| + 2 <= |r.value.code| <= |g.code| + 3 && r.value.code[..|g.code|] == g.code
      && BigEndian(r.value.code[|r.value.code| - 2..]) == alloc % TwoTo16
  {
    match TypedOpcode(ops.loadB, t)
    case Failure(e) => Failure(e)
    case Success(op) =>
      var g' := Emit(g, op + Word(alloc));
      assert g'.code[|g'.code| - 2..] == Word(alloc);
      assert g'.code[..|g.code|] == g.code;
      Success(g')
  }

  /** `store_value`: a typed store, then the next free slot as a word; the
      name is bound to that slot and the counter moves on, wrapping at 16
      bits. */
  function StoreValue(ops: Opcodes, g: Gen, name: Option<string>, t: TypeRef): (r: Result<Gen>)
    ensures r.Success? <==> TypedOpcode(ops.storeB, t).Success? && name.Some?
    ensures r.Success? ==>
      && r.value.slots == g.slots[name.value := g.counter]
      && r.value.counter == (g.counter + 1) % TwoTo16
      && |g.code| + 2 <= |r.value.code| <= |g.code| + 3 && r.value.code[..|g.code|] == g.code
      && BigEndian(r.value.code[|r.value.code| - 2..]) == g.counter
  {
    var alloc := g.counter;
    match TypedOpcode(ops.storeB, t)
    case Failure(e) => Failure(e)
    case Success(op) =>
      match name
      case None => Failure(NullDereference)
      case Some(key) =>
        var code := g.code + op + Word(alloc);
        assert code[|code| - 2..] == Word(alloc);
        assert code[..|g.code|] == g.code;
        Success(Gen(code, g.slots[key := alloc], (alloc + 1) % TwoTo16))
  }

  /** `pushop_byte`: the push-byte opcode and the value's low byte. */
  function PushopByte(ops: Opcodes, v: int): (bs: seq<byte>)
    ensures |bs| == 2 && bs[0] == Low(ops.pushB) && bs[1] as int == v % 256
  {
    [Low(ops.pushB), Low(v)]
  }

  /** `pushop_word`: the push-word opcode and a word. */
  function PushopWord(ops: Opcodes, v: int): (bs: seq<byte>)
    ensures |bs| == 3 && bs[0] == Low(ops.pushW) && BigEndian(bs[1..]) == v % TwoTo16
  {
    [Low(ops.pushW)] + Word(v)
  }

  /** `pushop_dword`: the push-word opcode too, then a double word. */
  function PushopDword(ops: Opcodes, v: int): (bs: seq<byte>)
    ensures |bs| == 5 && bs[0] == Low(ops.pushW) && BigEndian(bs[1..]) == v % TwoTo32
  {
    [Low(ops.pushW)] + Dword(v)
  }

  /** `pushop_qword`: the push-word opcode too, then a quad word. */
  function PushopQword(ops: Opcodes, v: int): (bs: seq<byte>)
    ensures |bs| == 9 && bs[0] == Low(ops.pushW) && BigEndian(bs[1..]) == v % TwoTo64
  {
    [Low(ops.pushW)] + Qword(v)
  }

  // ---------------------------------------------------------------------
  // Generation.

  /** The declarations whose stores generating a node emits: those reached
      through initializers and binary operands. */
  function Declarations(n: Node): nat {
    match n.kind
    case Decl(_, init, _) => 1 + Declarations(init)
    case Binary(l, r) => Declarations(l) + Declarations(r)
    case _ => 0
  }

  /** The operators that have an instruction. */
  predicate HasInstruction(op: int) {
    op in {'+' as int, '-' as int, '*' as int, '/' as int}
  }

  /** The arithmetic family of an operator with an instruction. */
  function ArithmeticFamily(ops: Opcodes, op: int): int
    requires HasInstruction(op)
  {
    if op == '+' as int then ops.addDw
    else if op == '-' as int then ops.subDw
    else if op == '*' as int then ops.mulDw
    else ops.divDw
  }

  /** A literal's push. A double is pushed as the 64-bit value the source
      converts it to, which `doubleToU64` supplies; an unsigned integer
      literal trips an assertion. */
  function LiteralCode(ops: Opcodes, doubleToU64: string -> u64, lit: Literal): (r: Result<seq<byte>>)
    ensures r.Failure? <==> lit.LitUint?
    ensures r.Failure? ==> r.error == AssertionFailed
    ensures lit.LitChar? ==> r == Success(PushopByte(ops, lit.value))
    ensures lit.LitInt? ==> r == Success(PushopQword(ops, lit.value))
    ensures lit.LitDouble? ==> r == Success(PushopQword(ops, doubleToU64(lit.numeral)))
  {
    match lit
    case LitChar(v) => Success(PushopByte(ops, v))
    case LitInt(v) => Success(PushopQword(ops, v))
    case LitDouble(numeral) => Success(PushopQword(ops, doubleToU64(numeral)))
    case LitUint(_) => Failure(AssertionFailed)
  }

  /** `generate_expression`: identifiers load their slot, declarations
      generate the initializer then store into a new slot, literals push
      their value, binary expressions generate both operands then operate;
      every other node emits nothing. Code is only ever appended. */
  function GenerateExpression(ops: Opcodes, doubleToU64: string -> u64, g: Gen, n: Node): (r: Result<Gen>)
    decreases n, 1
    ensures r.Success? ==> |g.code| <= |r.value.code| && r.value.code[..|g.code|] == g.code
    ensures r.Success? ==> g.slots.Keys <= r.value.slots.Keys
    ensures r.Success? ==> r.value.counter == (g.counter + Declarations(n)) % TwoTo16
    ensures !(n.kind.Id? || n.kind.Decl? || n.kind.Lit? || n.kind.Binary?) ==> r == Success(g)
    ensures n.kind.Id? && n.tok.text.Some? && n.tok.text.value !in g.slots ==> r == Failure(AssertionFailed)
    ensures n.kind.Lit? ==> r.Success? == !n.kind.lit.LitUint?
  {
    match n.kind
    case Id => GenerateId(ops, g, n)
    case Decl(_, _, _) => GenerateDecl(ops, doubleToU64, g, n)
    case Lit(lit) =>
      (match LiteralCode(ops, doubleToU64, lit)
       case Failure(e) => Failure(e)
       case Success(bs) => Success(Emit(g, bs)))
    case Binary(_, _) => GenerateBinary(ops, doubleToU64, g, n)
    case _ => Success(g)
  }

  /** An identifier: its slot, which must exist, is loaded. */
  function GenerateId(ops: Opcodes, g: Gen, n: Node): (r: Result<Gen>)
    ensures n.tok.text.None? ==> r == Failure(NullDereference)
    ensures n.tok.text.Some? && n.tok.text.value !in g.slots ==> r == Failure(AssertionFailed)
    ensures n.tok.text.Some? && n.tok.text.value in g.slots ==> r == LoadValue(ops, g, g.slots[n.tok.text.value], n.ty)
  {
    match n.tok.text
    case None => Failure(NullDereference)
    case Some(name) =>
      var alloc := FindAlloc(g, name);
      if alloc == -1 then Failure(AssertionFailed)
      else LoadValue(ops, g, alloc, n.ty)
  }

  /** A declaration: the initializer's code, then a store of its value
      into a new slot bound to the declared name. */
  function GenerateDecl(ops: Opcodes, doubleToU64: string -> u64, g: Gen, n: Node): (r: Result<Gen>)
    requires n.kind.Decl?
    decreases n, 0
    ensures r.Success? ==> |g.code| <= |r.value.code| && r.value.code[..|g.code|] == g.code
    ensures r.Success? ==> g.slots.Keys <= r.value.slots.Keys
    ensures r.Success? ==> r.value.counter == (g.counter + Declarations(n)) % TwoTo16
  {
    match GenerateExpression(ops, doubleToU64, g, n.kind.init)
    case Failure(e) => Failure(e)
    case Success(g1) =>
      var r := StoreValue(ops, g1, n.kind.target.tok.text, n.ty);
      assert r.Success? ==> r.value.code[..|g.code|] == g.code by {
        if r.Success? {
          assert r.value.code[..|g1.code|][..|g.code|] == r.value.code[..|g.code|];
        }
      }
      r
  }

  /** `generate_binary_expression`: the left operand's code, the right
      operand's code, then the instruction for `+ - * /` chosen by the
      expression's type; other operators add no instruction. */
  function GenerateBinary(ops: Opcodes, doubleToU64: string -> u64, g: Gen, n: Node): (r: Result<Gen>)
    requires n.kind.Binary?
    decreases n, 0
    ensures r.Success? ==> |g.code| <= |r.value.code| && r.value.code[..|g.code|] == g.code
    ensures r.Success? ==> g.slots.Keys <= r.value.slots.Keys
    ensures r.Success? ==> r.value.counter == (g.counter + Declarations(n)) % TwoTo16
  {
    match GenerateExpression(ops, doubleToU64, g, n.kind.left)
    case Failure(e) => Failure(e)
    case Success(g1) =>
      match GenerateExpression(ops, doubleToU64, g1, n.kind.right)
      case Failure(e) => Failure(e)
      case Success(g2) =>
        assert g2.code[..|g.code|] == g.code by {
          assert g2.code[..|g1.code|][..|g.code|] == g2.code[..|g.code|];
        }
        if !HasInstruction(n.tok.value) then Success(g2)
        else
          match BinaryOpcode(ArithmeticFamily(ops, n.tok.value), n.ty, true)
          case Failure(e) => Failure(e)
          case Success(op) =>
            assert (g2.code + op)[..|g.code|] == g.code by {
              assert (g2.code + op)[..|g2.code|] == g2.code;
            }
            Success(Emit(g2, op))
  }
}
