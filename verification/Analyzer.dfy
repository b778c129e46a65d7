/** The analyzer: walks a statement's syntax tree with a stack of scopes
    and a registry of named types, gives every expression node a type, and
    rejects redeclarations, undefined names, non-functions called, wrong
    argument counts and mismatched types. */
module Analyzer {
  import opened Common
  import opened Lexer
  import opened Types
  import opened Parser

  // ---------------------------------------------------------------------
  // The type registry.

  type Registry = map<string, TypeInfo>

  /** Registers a built-in type under its name and returns it. */
  function CreateBasicType(reg: Registry, name: string, kind: TypeKind, size: int): (Registry, TypeInfo)
  {
    var t := Basic(name, kind, size);
    (reg[name := t], t)
  }

  /** The registry as the analyzer starts: eight built-in types. */
  function InitAnalyzer(): (reg: Registry)
    ensures reg.Keys == {"i8", "i16", "i32", "i64", "f32", "f64", "b32", "string"}
    ensures reg["i8"] == Basic("i8", TInt, 8) && reg["i16"] == Basic("i16", TInt, 16)
    ensures reg["i32"] == Basic("i32", TInt, 32) && reg["i64"] == Basic("i64", TInt, 64)
    ensures reg["f32"] == Basic("f32", TFloat, 32) && reg["f64"] == Basic("f64", TFloat, 64)
    ensures reg["b32"] == Basic("b32", TBool, 32) && reg["string"] == Basic("string", TString, 0)
  {
    var reg := map[];
    var reg := CreateBasicType(reg, "i8", TInt, 8).0;
    var reg := CreateBasicType(reg, "i16", TInt, 16).0;
    var reg := CreateBasicType(reg, "i32", TInt, 32).0;
    var reg := CreateBasicType(reg, "i64", TInt, 64).0;
    var reg := CreateBasicType(reg, "f32", TFloat, 32).0;
    var reg := CreateBasicType(reg, "f64", TFloat, 64).0;
    var reg := CreateBasicType(reg, "b32", TBool, 32).0;
    CreateBasicType(reg, "string", TString, 0).0
  }

  /** The type registered under `name`, NULL if there is none. */
  function GetType(reg: Registry, name: string): (t: TypeRef)
    ensures t.Some? <==> name in reg
    ensures t.Some? ==> t.value == reg[name]
  {
    if name in reg then Some(reg[name]) else None
  }

  // ---------------------------------------------------------------------
  // Scopes.

  const MaxScopes: int := 256

  datatype Symbol = Symbol(name: string, ty: TypeRef)

  /** A scope: its symbols in declaration order and the token that opened
      it. */
  datatype Scope = Scope(symbols: seq<Symbol>, tok: Token)

  /** Open scopes, outermost first. */
  type Stack = seq<Scope>

  /** The names declared in a scope, in order. */
  function ScopeNames(sc: Scope): (names: seq<string>)
    ensures |names| == |sc.symbols|
    ensures forall j :: 0 <= j < |names| ==> names[j] == sc.symbols[j].name
  {
    seq(|sc.symbols|, j requires 0 <= j < |sc.symbols| => sc.symbols[j].name)
  }

  /** Every declared name of the stack, outermost scope first. */
  function Names(st: Stack): seq<string> {
    if |st| == 0 then [] else ScopeNames(st[0]) + Names(st[1..])
  }

  predicate Distinct(s: seq<string>) {
    forall a, b :: 0 <= a < b < |s| ==> s[a] != s[b]
  }

  /** The first symbol of a scope with the given name. */
  function FindInScope(symbols: seq<Symbol>, name: string): (r: Option<Symbol>)
    ensures r.Some? <==> exists j :: 0 <= j < |symbols| && symbols[j].name == name
    ensures r.Some? ==> r.value in symbols && r.value.name == name
  {
    if |symbols| == 0 then None
    else if symbols[0].name == name then Some(symbols[0])
    else
      var r := FindInScope(symbols[1..], name);
      assert forall j :: 1 <= j < |symbols| ==> symbols[j] == symbols[1..][j - 1];
      r
  }

  /** `s` is a symbol of scope `k`, and no scope outside `k` declares
      `name`. */
  predicate FirstDeclaredIn(st: Stack, k: int, name: string, s: Symbol) {
    && 0 <= k < |st| && s in st[k].symbols
    && forall j :: 0 <= j < k ==> name !in ScopeNames(st[j])
  }

  /** The symbol of that name in the outermost scope that has one. */
  function Lookup(st: Stack, name: string): (r: Option<Symbol>)
    ensures r.Some? <==> name in Names(st)
    ensures r.Some? ==> r.value.name == name
    ensures r.Some? ==> exists k :: FirstDeclaredIn(st, k, name, r.value)
  {
    if |st| == 0 then None
    else
      var here := FindInScope(st[0].symbols, name);
      assert here.Some? <==> name in ScopeNames(st[0]) by {
        var names := ScopeNames(st[0]);
        if name in names {
          var j :| 0 <= j < |names| && names[j] == name;
          assert st[0].symbols[j].name == name;
        }
      }
      match here
      case Some(s) =>
        assert FirstDeclaredIn(st, 0, name, s);
        Some(s)
      case None =>
        var outer := Lookup(st[1..], name);
        assert outer.Some? ==> exists k :: FirstDeclaredIn(st, k, name, outer.value) by {
          if outer.Some? {
            var k :| FirstDeclaredIn(st[1..], k, name, outer.value);
            assert FirstDeclaredIn(st, k + 1, name, outer.value);
          }
        }
        outer
  }

  /** `get_symbol`: asserts that a scope is open, then looks the name up
      from the outermost scope in. */
  function GetSymbol(st: Stack, name: string): (r: Result<Option<Symbol>>)
    ensures r.Success? <==> |st| > 0
    ensures r.Failure? ==> r.error == AssertionFailed
    ensures r.Success? ==> (r.value.Some? <==> name in Names(st))
    ensures r.Success? && r.value.Some? ==> r.value.value.name == name
    ensures r.Success? && r.value.Some? ==> exists k :: FirstDeclaredIn(st, k, name, r.value.value)
  {
    if |st| == 0 then Failure(AssertionFailed) else Success(Lookup(st, name))
  }

  /** Opens a scope. The stack has room for 256 scopes and the source does
      not check this. */
  function PushScope(st: Stack, tok: Token): (r: Stack)
    requires |st| < MaxScopes
    ensures |r| == |st| + 1 && r[..|st|] == st && r[|st|] == Scope([], tok)
    ensures Names(r) == Names(st)
  {
    NamesAppendScope(st, Scope([], tok));
    st + [Scope([], tok)]
  }

  /** Closes the innermost scope, dropping its symbols. */
  function PopScope(st: Stack): (r: Result<Stack>)
    ensures r.Success? <==> |st| > 0
    ensures r.Failure? ==> r.error == ScopeUnderflow
    ensures r.Success? ==> r.value == st[..|st| - 1]
    ensures r.Success? ==> Names(st) == Names(r.value) + ScopeNames(st[|st| - 1])
  {
    if |st| == 0 then Failure(ScopeUnderflow)
    else
      assert st == st[..|st| - 1] + [st[|st| - 1]];
      NamesAppendScope(st[..|st| - 1], st[|st| - 1]);
      Success(st[..|st| - 1])
  }

  /** Declares a name in the innermost scope. It is an error if the name
      is visible in any open scope, so names stay unique across the whole
      stack. */
  function AddSymbol(st: Stack, id: Token, ty: TypeRef): (r: Result<Stack>)
    ensures |st| == 0 ==> r == Failure(AssertionFailed)
    ensures |st| > 0 && id.text.None? ==> r == Failure(NullDereference)
    ensures |st| > 0 && id.text.Some? && id.text.value in Names(st) ==> r == Failure(Redeclaration(id.text.value))
    ensures r.Success? ==> |st| > 0 && id.text.Some? && id.text.value !in Names(st)
    ensures r.Success? ==>
      |r.value| == |st| && r.value[..|st| - 1] == st[..|st| - 1] &&
      r.value[|st| - 1] == Scope(st[|st| - 1].symbols + [Symbol(id.text.value, ty)], st[|st| - 1].tok)
    ensures r.Success? ==> Names(r.value) == Names(st) + [id.text.value]
    ensures r.Success? && Distinct(Names(st)) ==> Distinct(Names(r.value))
    ensures r.Success? ==> r.value == Declare(st, id.text.value, ty)
  {
    if |st| == 0 then Failure(AssertionFailed)
    else match id.text
      case None => Failure(NullDereference)
      case Some(name) =>
        match GetSymbol(st, name)
        case Failure(e) => Failure(e)
        case Success(found) =>
          if found.Some? then Failure(Redeclaration(name))
          else Success(Declare(st, name, ty))
  }

  /** The stack with a name appended to its innermost scope. */
  function Declare(st: Stack, name: string, ty: TypeRef): (r: Stack)
    requires |st| > 0 && name !in Names(st)
    ensures |r| == |st| && r[..|st| - 1] == st[..|st| - 1]
    ensures r[|st| - 1] == Scope(st[|st| - 1].symbols + [Symbol(name, ty)], st[|st| - 1].tok)
    ensures Names(r) == Names(st) + [name]
    ensures Distinct(Names(st)) ==> Distinct(Names(r))
  {
    var top := st[|st| - 1];
    var added := Scope(top.symbols + [Symbol(name, ty)], top.tok);
    var r := st[..|st| - 1] + [added];
    assert st == st[..|st| - 1] + [top];
    NamesAppendScope(st[..|st| - 1], top);
    NamesAppendScope(st[..|st| - 1], added);
    assert ScopeNames(added) == ScopeNames(top) + [name];
    assert r[..|st| - 1] == st[..|st| - 1];
    DistinctAppend(Names(st), name);
    r
  }

  /** A unique list stays unique when a name it lacks is appended. */
  lemma DistinctAppend(s: seq<string>, x: string)
    requires x !in s
    ensures Distinct(s) ==> Distinct(s + [x])
  {
    var t := s + [x];
    assert forall k :: 0 <= k < |s| ==> t[k] == s[k];
  }

  /** The names of a stack with one more scope on top. */
  lemma {:induction false} NamesAppendScope(st: Stack, sc: Scope)
    ensures Names(st + [sc]) == Names(st) + ScopeNames(sc)
  {
    if |st| > 0 {
      assert (st + [sc])[1..] == st[1..] + [sc];
      NamesAppendScope(st[1..], sc);
    }
  }

  /** `b` is `a` after declarations in its innermost scope: the same
      scopes, the innermost one with the same token and more symbols. */
  predicate SameFrames(a: Stack, b: Stack) {
    && |a| == |b|
    && (forall k :: 0 <= k < |a| - 1 ==> b[k] == a[k])
    && (|a| > 0 ==> b[|a| - 1].tok == a[|a| - 1].tok && a[|a| - 1].symbols <= b[|a| - 1].symbols)
  }

  lemma SameFramesTransitive(a: Stack, b: Stack, c: Stack)
    requires SameFrames(a, b) && SameFrames(b, c)
    ensures SameFrames(a, c)
  {
    if |a| > 0 {
      var x, y, z := a[|a| - 1].symbols, b[|a| - 1].symbols, c[|a| - 1].symbols;
      assert x == y[..|x|] && y == z[..|y|];
      assert z[..|y|][..|x|] == z[..|x|];
    }
  }

  /** Declarations in the innermost scope only add names: the names before
      are a prefix of the names after. */
  lemma SameFramesKeepNames(a: Stack, b: Stack)
    requires SameFrames(a, b)
    ensures Names(a) <= Names(b)
    ensures forall x :: x in Names(a) ==> x in Names(b)
  {
    var n := |a|;
    if n > 0 {
      var pre, at, bt := a[..n - 1], a[n - 1], b[n - 1];
      assert a == pre + [at];
      assert b[..n - 1] == pre;
      assert b == pre + [bt];
      NamesAppendScope(pre, at);
      NamesAppendScope(pre, bt);
      assert ScopeNames(at) == ScopeNames(bt)[..|at.symbols|];
      assert Names(a) == Names(b)[..|Names(a)|];
    }
  }

  /** A symbol appended to a scope that lacks its name is what a lookup of
      that name in the scope finds. */
  lemma {:induction false} FindAppended(symbols: seq<Symbol>, s: Symbol)
    requires forall j :: 0 <= j < |symbols| ==> symbols[j].name != s.name
    ensures FindInScope(symbols + [s], s.name) == Some(s)
  {
    if |symbols| > 0 {
      assert (symbols + [s])[1..] == symbols[1..] + [s];
      FindAppended(symbols[1..], s);
    }
  }

  /** Declaring a name, then looking it up, finds the symbol just declared
      with its type: the round trip of `add_symbol` and `get_symbol`. */
  lemma {:induction false} LookupDeclared(st: Stack, name: string, ty: TypeRef)
    requires |st| > 0 && name !in Names(st)
    ensures Lookup(Declare(st, name, ty), name) == Some(Symbol(name, ty))
  {
    var d := Declare(st, name, ty);
    assert name !in ScopeNames(st[0]);
    if |st| == 1 {
      FindAppended(st[0].symbols, Symbol(name, ty));
    } else {
      assert d[0] == st[0];
      assert FindInScope(st[0].symbols, name).None?;
      assert d[1..] == Declare(st[1..], name, ty);
      LookupDeclared(st[1..], name, ty);
    }
  }

  // ---------------------------------------------------------------------
  // Type checks.

  /** `types_match` is a parameter: the source's is a stub that always
      answers no. */
  datatype Context = Context(reg: Registry, typesMatch: (TypeRef, TypeRef) -> bool)

  /** The source's `types_match`. */
  function NeverMatch(a: TypeRef, b: TypeRef): bool {
    false
  }

  /** The analyzer as the source sets it up. */
  function SourceContext(): Context {
    Context(InitAnalyzer(), NeverMatch)
  }

  /** Accepts two types the matcher accepts. Otherwise it reports both
      types' names, which dereferences NULL for a missing type. */
  function TypesMustMatch(ctx: Context, a: TypeRef, b: TypeRef): (r: Result<()>)
    ensures r.Success? <==> ctx.typesMatch(a, b)
    ensures r.Failure? ==> r.error == if a.None? || b.None? then NullDereference else TypeMismatch
  {
    if ctx.typesMatch(a, b) then Success(())
    else if a.None? || b.None? then Failure(NullDereference)
    else Failure(TypeMismatch)
  }

  function TypeIsBoolean(t: TypeRef): (r: Result<()>)
    ensures r.Success? <==> t.Some? && t.value.kind == TBool
    ensures t.None? ==> r == Failure(NullDereference)
    ensures t.Some? && t.value.kind != TBool ==> r == Failure(ExpectedBoolean)
  {
    match t
    case None => Failure(NullDereference)
    case Some(info) => if info.kind != TBool then Failure(ExpectedBoolean) else Success(())
  }

  function TypeIsArithmetic(t: TypeRef): (r: Result<()>)
    ensures r.Success? <==> t.Some? && t.value.kind in {TInt, TFloat, TBool}
    ensures t.None? ==> r == Failure(NullDereference)
    ensures t.Some? && t.value.kind !in {TInt, TFloat, TBool} ==> r == Failure(NotArithmetic)
  {
    match t
    case None => Failure(NullDereference)
    case Some(info) =>
      if info.kind == TInt || info.kind == TFloat || info.kind == TBool then Success(()) else Failure(NotArithmetic)
  }

  /** The type of a literal: a character is `i8`, a double `f64`, a signed
      integer `i64`; an unsigned integer trips an assertion. */
  function LiteralType(reg: Registry, lit: Literal): (r: Result<TypeRef>)
    ensures lit.LitUint? <==> r.Failure?
    ensures r.Failure? ==> r.error == AssertionFailed
    ensures r.Success? ==> r.value == GetType(reg, match lit
                                                   case LitChar(_) => "i8"
                                                   case LitDouble(_) => "f64"
                                                   case _ => "i64")
  {
    match lit
    case LitChar(_) => Success(GetType(reg, "i8"))
    case LitDouble(_) => Success(GetType(reg, "f64"))
    case LitInt(_) => Success(GetType(reg, "i64"))
    case LitUint(_) => Failure(AssertionFailed)
  }

  // ---------------------------------------------------------------------
  // Annotations.

  /** A tree with every type annotation cleared: what the parser built. */
  function Erase(n: Node): (r: Node)
    ensures r.tok == n.tok && r.ty.None?
  {
    var kind := match n.kind
      case Root(es) => Root(EraseAll(es))
      case Fn(args, ret) => Fn(EraseAll(args), if ret.Some? then Some(Erase(ret.value)) else None)
      case If(c, t) => If(Erase(c), Erase(t))
      case Binary(l, r) => Binary(Erase(l), Erase(r))
      case Body(es) => Body(EraseAll(es))
      case Decl(t, i, d) => Decl(Erase(t), Erase(i), if d.Some? then Some(Erase(d.value)) else None)
      case Call(c, args) => Call(Erase(c), EraseAll(args))
      case other => other;
    Node(kind, n.tok, None)
  }

  /** A declaration rebuilt from annotated copies of its parts erases to
      the original declaration. */
  lemma EraseDecl(n: Node, init: Node, declType: Option<Node>, ty: TypeRef)
    requires n.kind.Decl? && Erase(init) == Erase(n.kind.init)
    requires declType.Some? <==> n.kind.declType.Some?
    requires declType.Some? ==> Erase(declType.value) == Erase(n.kind.declType.value)
    ensures Erase(Node(Decl(n.kind.target, init, declType), n.tok, ty)) == Erase(n)
  {
  }

  function EraseAll(s: seq<Node>): (r: seq<Node>)
    ensures |r| == |s|
  {
    if |s| == 0 then [] else [Erase(s[0])] + EraseAll(s[1..])
  }

  /** The deepest nesting of blocks in a tree: the scopes analysing it
      opens at once. */
  function Depth(n: Node): nat {
    match n.kind
    case Root(es) => DepthAll(es)
    case Fn(args, ret) => Max(DepthAll(args), if ret.Some? then Depth(ret.value) else 0)
    case If(c, t) => Max(Depth(c), Depth(t))
    case Binary(l, r) => Max(Depth(l), Depth(r))
    case Body(es) => 1 + DepthAll(es)
    case Decl(t, i, d) => Max(Depth(i), if d.Some? then Depth(d.value) else 0)
    case Call(c, args) => Max(Depth(c), DepthAll(args))
    case _ => 0
  }

  function DepthAll(s: seq<Node>): nat {
    if |s| == 0 then 0 else Max(Depth(s[0]), DepthAll(s[1..]))
  }

  function Max(a: nat, b: nat): nat {
    if a < b then b else a
  }

  // ---------------------------------------------------------------------
  // The walk.

  /** An analysed node: the node with its annotations, its type, and the
      scope stack after it. */
  datatype Analyzed = Analyzed(node: Node, ty: TypeRef, stack: Stack)

  datatype AnalyzedList = AnalyzedList(nodes: seq<Node>, types: seq<TypeRef>, stack: Stack)

  /** The type of an expression, by kind of node. Every node that returns
      records its type in its own annotation. */
  function AnalyzeExpression(ctx: Context, st: Stack, n: Node): (r: Result<Analyzed>)
    requires |st| + Depth(n) <= MaxScopes
    decreases n, 1
    ensures r.Success? ==> r.value.node.ty == r.value.ty
    ensures r.Success? ==> Erase(r.value.node) == Erase(n)
    ensures r.Success? ==> SameFrames(st, r.value.stack)
    ensures r.Success? && Distinct(Names(st)) ==> Distinct(Names(r.value.stack))
    ensures r.Success? && (n.kind.Body? || n.kind.If? || n.kind.Call?) ==> r.value.ty.None?
    ensures r.Success? && n.kind.Body? ==> r.value.stack == st
    ensures n.kind.Fn? || n.kind.FnArg? || n.kind.Root? || n.kind.ErrorNode? ==> r == Failure(UnexpectedNode)
    ensures n.kind.Decl? ==> r == AnalyzeDecl(ctx, st, n)
    ensures n.kind.Call? ==> r == AnalyzeCall(ctx, st, n)
  {
    match n.kind
    case Decl(_, _, _) => AnalyzeDecl(ctx, st, n)
    case Call(_, _) => AnalyzeCall(ctx, st, n)
    case Body(_) => AnalyzeBody(ctx, st, n)
    case Binary(_, _) => AnalyzeBinary(ctx, st, n)
    case If(_, _) => AnalyzeIf(ctx, st, n)
    case Str =>
      var t := GetType(ctx.reg, "string");
      Success(Analyzed(n.(ty := t), t, st))
    case Lit(lit) =>
      (match LiteralType(ctx.reg, lit)
       case Failure(e) => Failure(e)
       case Success(t) => Success(Analyzed(n.(ty := t), t, st)))
    case Id =>
      (match AnalyzeId(st, n.tok)
       case Failure(e) => Failure(e)
       case Success(t) => Success(Analyzed(n.(ty := t), t, st)))
    case _ => Failure(UnexpectedNode)
  }

  /** An identifier has the type of the symbol it names. */
  function AnalyzeId(st: Stack, tok: Token): (r: Result<TypeRef>)
    ensures tok.text.Some? && |st| > 0 ==>
      (r.Success? <==> tok.text.value in Names(st)) &&
      (r.Success? ==> r.value == Lookup(st, tok.text.value).value.ty) &&
      (r.Failure? ==> r.error == UndefinedIdentifier(tok.text.value))
  {
    match tok.text
    case None => Failure(NullDereference)
    case Some(name) =>
      match GetSymbol(st, name)
      case Failure(e) => Failure(e)
      case Success(found) =>
        match found
        case None => Failure(UndefinedIdentifier(name))
        case Some(sym) => Success(sym.ty)
  }

  /** A declaration: the type of the annotation, which the initializer's
      type must match, or else the initializer's type; then the name is
      declared with it. */
  function AnalyzeDecl(ctx: Context, st: Stack, n: Node): (r: Result<Analyzed>)
    requires n.kind.Decl? && |st| + Depth(n) <= MaxScopes
    decreases n, 0
    ensures r.Success? ==> r.value.node.ty == r.value.ty
    ensures r.Success? ==> Erase(r.value.node) == Erase(n)
    ensures r.Success? ==> SameFrames(st, r.value.stack)
    ensures r.Success? && Distinct(Names(st)) ==> Distinct(Names(r.value.stack))
    ensures r.Success? ==> n.kind.target.tok.text.Some?
    ensures r.Success? ==>
      var name := n.kind.target.tok.text.value;
      name !in Names(st) && Lookup(r.value.stack, name) == Some(Symbol(name, r.value.ty))
    ensures n.kind.target.tok.text.Some? && n.kind.target.tok.text.value in Names(st) ==> r.Failure?
    ensures r.Success? && n.kind.declType.Some? ==>
      var t := AnalyzeType(ctx, st, n.kind.declType.value);
      t.Success? && r.value.ty == t.value.ty
    ensures r.Success? && n.kind.declType.None? ==>
      var i := AnalyzeExpression(ctx, st, n.kind.init);
      i.Success? && r.value.ty == i.value.ty
  {
    var Decl(target, init, declType) := n.kind;
    match declType
    case Some(tn) =>
      (match AnalyzeType(ctx, st, tn)
       case Failure(e) => Failure(e)
       case Success(ta) =>
         match AnalyzeExpression(ctx, ta.stack, init)
         case Failure(e) => Failure(e)
         case Success(ia) =>
           match TypesMustMatch(ctx, ta.ty, ia.ty)
           case Failure(e) => Failure(e)
           case Success(_) =>
             SameFramesTransitive(st, ta.stack, ia.stack);
             BindTarget(st, ia.stack, target.tok, ta.ty);
             match AddSymbol(ia.stack, target.tok, ta.ty)
             case Failure(e) => Failure(e)
             case Success(st2) =>
               EraseDecl(n, ia.node, Some(ta.node), ta.ty);
               Success(Analyzed(Node(Decl(target, ia.node, Some(ta.node)), n.tok, ta.ty), ta.ty, st2)))
    case None =>
      match AnalyzeExpression(ctx, st, init)
      case Failure(e) => Failure(e)
      case Success(ia) =>
        BindTarget(st, ia.stack, target.tok, ia.ty);
        match AddSymbol(ia.stack, target.tok, ia.ty)
        case Failure(e) => Failure(e)
        case Success(st2) =>
          EraseDecl(n, ia.node, None, ia.ty);
          Success(Analyzed(Node(Decl(target, ia.node, None), n.tok, ia.ty), ia.ty, st2))
  }

  /** Declaring the target after its initializer was analysed: it fails
      for a name visible before the declaration, and otherwise binds the
      name to the type. */
  lemma BindTarget(st: Stack, mid: Stack, tok: Token, ty: TypeRef)
    requires SameFrames(st, mid)
    ensures var r := AddSymbol(mid, tok, ty);
      && (tok.text.Some? && tok.text.value in Names(st) ==> r.Failure?)
      && (r.Success? ==>
            && SameFrames(st, r.value) && tok.text.Some? && tok.text.value !in Names(st)
            && Lookup(r.value, tok.text.value) == Some(Symbol(tok.text.value, ty)))
  {
    SameFramesKeepNames(st, mid);
    var r := AddSymbol(mid, tok, ty);
    if r.Success? {
      SameFramesTransitive(st, mid, r.value);
      LookupDeclared(mid, tok.text.value, ty);
    }
  }

  /** A call: the callee must be a function whose parameter count equals
      the argument count, checked before any argument is analysed; each
      argument's type must match its parameter's. A call has no type. */
  function AnalyzeCall(ctx: Context, st: Stack, n: Node): (r: Result<Analyzed>)
    requires n.kind.Call? && |st| + Depth(n) <= MaxScopes
    decreases n, 0
    ensures r.Success? ==> r.value.node.ty == r.value.ty && r.value.ty.None?
    ensures r.Success? ==> Erase(r.value.node) == Erase(n)
    ensures r.Success? ==> SameFrames(st, r.value.stack)
    ensures r.Success? && Distinct(Names(st)) ==> Distinct(Names(r.value.stack))
    ensures Depth(n.kind.callee) <= Depth(n) && AnalyzeExpression(ctx, st, n.kind.callee).Success? ==>
      var ft := AnalyzeExpression(ctx, st, n.kind.callee).value.ty;
      && (ft.None? ==> r == Failure(NullDereference))
      && (ft.Some? && ft.value.kind != TFn ==> r == Failure(NotAFunction))
      && (ft.Some? && ft.value.kind == TFn && |ft.value.params| != |n.kind.args| ==>
            r == Failure(ArityMismatch(|ft.value.params|, |n.kind.args|)))
  {
    var Call(callee, args) := n.kind;
    match AnalyzeExpression(ctx, st, callee)
    case Failure(e) => Failure(e)
    case Success(ca) =>
      match ca.ty
      case None => Failure(NullDereference)
      case Some(fnType) =>
        if fnType.kind != TFn then Failure(NotAFunction)
        else if |fnType.params| != |args| then Failure(ArityMismatch(|fnType.params|, |args|))
        else
          match CallArguments(ctx, ca.stack, fnType.params, args)
          case Failure(e) => Failure(e)
          case Success(aa) =>
            SameFramesTransitive(st, ca.stack, aa.stack);
            Success(Analyzed(Node(Call(ca.node, aa.nodes), n.tok, None), None, aa.stack))
  }

  lemma LeafDepth(n: Node)
    requires n.kind.Id? || n.kind.Lit? || n.kind.Str?
    ensures Depth(n) == 0
  {
  }

  lemma CalleeDepth(n: Node)
    requires n.kind.Call?
    ensures Depth(n.kind.callee) <= Depth(n)
  {
  }

  /** The arguments of a call against the parameter types, in order. */
  function CallArguments(ctx: Context, st: Stack, params: seq<TypeRef>, args: seq<Node>): (r: Result<AnalyzedList>)
    requires |params| == |args| && |st| + DepthAll(args) <= MaxScopes
    decreases args
    ensures r.Success? ==> |r.value.nodes| == |args| && EraseAll(r.value.nodes) == EraseAll(args)
    ensures r.Success? ==> SameFrames(st, r.value.stack)
    ensures r.Success? && Distinct(Names(st)) ==> Distinct(Names(r.value.stack))
    ensures r.Success? ==> forall k :: 0 <= k < |args| ==> ctx.typesMatch(params[k], r.value.nodes[k].ty)
  {
    if |args| == 0 then Success(AnalyzedList([], [], st))
    else
      match AnalyzeExpression(ctx, st, args[0])
      case Failure(e) => Failure(e)
      case Success(a) =>
        match TypesMustMatch(ctx, params[0], a.ty)
        case Failure(e) => Failure(e)
        case Success(_) =>
          match CallArguments(ctx, a.stack, params[1..], args[1..])
          case Failure(e) => Failure(e)
          case Success(rest) =>
            SameFramesTransitive(st, a.stack, rest.stack);
            Success(AnalyzedList([a.node] + rest.nodes, [a.ty] + rest.types, rest.stack))
  }

  /** A block: its expressions in a scope of their own, closed afterwards,
      so the stack is as it was. A block has no type. */
  function AnalyzeBody(ctx: Context, st: Stack, n: Node): (r: Result<Analyzed>)
    requires n.kind.Body? && |st| + Depth(n) <= MaxScopes
    decreases n, 0
    ensures r.Success? ==> r.value.node.ty.None? && r.value.ty.None?
    ensures r.Success? ==> Erase(r.value.node) == Erase(n)
    ensures r.Success? ==> r.value.stack == st
  {
    var inner := PushScope(st, n.tok);
    match AnalyzeAll(ctx, inner, n.kind.exprs)
    case Failure(e) => Failure(e)
    case Success(la) =>
      assert la.stack[..|st|] == st;
      Success(Analyzed(Node(Body(la.nodes), n.tok, None), None, PopScope(la.stack).value))
  }

  /** Expressions in order, threading the stack through. */
  function AnalyzeAll(ctx: Context, st: Stack, items: seq<Node>): (r: Result<AnalyzedList>)
    requires |st| + DepthAll(items) <= MaxScopes
    decreases items
    ensures r.Success? ==> |r.value.nodes| == |items| && |r.value.types| == |items|
    ensures r.Success? ==> EraseAll(r.value.nodes) == EraseAll(items)
    ensures r.Success? ==> forall k :: 0 <= k < |items| ==> r.value.types[k] == r.value.nodes[k].ty
    ensures r.Success? ==> SameFrames(st, r.value.stack)
    ensures r.Success? && Distinct(Names(st)) ==> Distinct(Names(r.value.stack))
  {
    if |items| == 0 then Success(AnalyzedList([], [], st))
    else
      match AnalyzeExpression(ctx, st, items[0])
      case Failure(e) => Failure(e)
      case Success(a) =>
        match AnalyzeAll(ctx, a.stack, items[1..])
        case Failure(e) => Failure(e)
        case Success(rest) =>
          SameFramesTransitive(st, a.stack, rest.stack);
          Success(AnalyzedList([a.node] + rest.nodes, [a.ty] + rest.types, rest.stack))
  }

  /** A binary expression: both operands arithmetic (integer, float or
      boolean), their types matching; its type is the left one. */
  function AnalyzeBinary(ctx: Context, st: Stack, n: Node): (r: Result<Analyzed>)
    requires n.kind.Binary? && |st| + Depth(n) <= MaxScopes
    decreases n, 0
    ensures r.Success? ==> r.value.node.ty == r.value.ty
    ensures r.Success? ==> Erase(r.value.node) == Erase(n)
    ensures r.Success? ==> SameFrames(st, r.value.stack)
    ensures r.Success? && Distinct(Names(st)) ==> Distinct(Names(r.value.stack))
    ensures r.Success? ==> r.value.node.kind.Binary? && r.value.ty == r.value.node.kind.left.ty
    ensures r.Success? ==> r.value.ty.Some? && r.value.ty.value.kind in {TInt, TFloat, TBool}
    ensures r.Success? ==> ctx.typesMatch(r.value.node.kind.left.ty, r.value.node.kind.right.ty)
  {
    var Binary(left, right) := n.kind;
    match AnalyzeExpression(ctx, st, left)
    case Failure(e) => Failure(e)
    case Success(la) =>
      match AnalyzeExpression(ctx, la.stack, right)
      case Failure(e) => Failure(e)
      case Success(ra) =>
        match TypeIsArithmetic(la.ty)
        case Failure(e) => Failure(e)
        case Success(_) =>
          match TypeIsArithmetic(ra.ty)
          case Failure(e) => Failure(e)
          case Success(_) =>
            match TypesMustMatch(ctx, la.ty, ra.ty)
            case Failure(e) => Failure(e)
            case Success(_) =>
              SameFramesTransitive(st, la.stack, ra.stack);
              Success(Analyzed(Node(Binary(la.node, ra.node), n.tok, la.ty), la.ty, ra.stack))
  }

  /** `if`: the condition must be boolean; the branch is analysed; an `if`
      has no type. */
  function AnalyzeIf(ctx: Context, st: Stack, n: Node): (r: Result<Analyzed>)
    requires n.kind.If? && |st| + Depth(n) <= MaxScopes
    decreases n, 0
    ensures r.Success? ==> r.value.node.ty.None? && r.value.ty.None?
    ensures r.Success? ==> Erase(r.value.node) == Erase(n)
    ensures r.Success? ==> SameFrames(st, r.value.stack)
    ensures r.Success? && Distinct(Names(st)) ==> Distinct(Names(r.value.stack))
    ensures r.Success? ==>
      r.value.node.kind.If? && r.value.node.kind.cond.ty.Some? && r.value.node.kind.cond.ty.value.kind == TBool
  {
    var If(cond, thenBranch) := n.kind;
    match AnalyzeExpression(ctx, st, cond)
    case Failure(e) => Failure(e)
    case Success(ca) =>
      match TypeIsBoolean(ca.ty)
      case Failure(e) => Failure(e)
      case Success(_) =>
        match AnalyzeExpression(ctx, ca.stack, thenBranch)
        case Failure(e) => Failure(e)
        case Success(ta) =>
          SameFramesTransitive(st, ca.stack, ta.stack);
          Success(Analyzed(Node(If(ca.node, ta.node), n.tok, None), None, ta.stack))
  }

  /** A type annotation: a name stands for the registered type of that
      name (NULL if there is none); a function literal for a function type
      whose parameter types are those of its analysed parameters and whose
      return type is its `->` annotation, which must be present. The
      annotation node itself is not annotated. */
  function AnalyzeType(ctx: Context, st: Stack, n: Node): (r: Result<Analyzed>)
    requires |st| + Depth(n) <= MaxScopes
    decreases n, 1
    ensures r.Success? ==> r.value.node.ty == n.ty
    ensures r.Success? ==> Erase(r.value.node) == Erase(n)
    ensures r.Success? ==> SameFrames(st, r.value.stack)
    ensures r.Success? && Distinct(Names(st)) ==> Distinct(Names(r.value.stack))
    ensures r.Success? ==> n.kind.Id? || n.kind.Fn?
    ensures r.Success? && n.kind.Id? ==> n.tok.text.Some? && r.value.ty == GetType(ctx.reg, n.tok.text.value)
    ensures r.Success? && n.kind.Fn? ==> r.value.ty.Some? && r.value.ty.value.kind == TFn
    ensures !n.kind.Id? && !n.kind.Fn? ==> r == Failure(ExpectedType)
  {
    match n.kind
    case Id =>
      (match n.tok.text
       case None => Failure(NullDereference)
       case Some(name) => Success(Analyzed(n, GetType(ctx.reg, name), st)))
    case Fn(args, ret) =>
      (match AnalyzeAll(ctx, st, args)
       case Failure(e) => Failure(e)
       case Success(aa) =>
         match ret
         case None => Failure(NullDereference)
         case Some(rn) =>
           match AnalyzeType(ctx, aa.stack, rn)
           case Failure(e) => Failure(e)
           case Success(ra) =>
             SameFramesTransitive(st, aa.stack, ra.stack);
             Success(Analyzed(Node(Fn(aa.nodes, Some(ra.node)), n.tok, n.ty), Some(FnType(aa.types, ra.ty)), ra.stack)))
    case _ => Failure(ExpectedType)
  }

  /** A statement: its expressions in one scope that is closed afterwards.
      The stack is empty when a statement starts, since every earlier
      statement closed what it opened. The root itself gets no type. */
  function AnalyzeAst(ctx: Context, root: Node): (r: Result<Analyzed>)
    requires root.kind.Root? && 1 + DepthAll(root.kind.exprs) <= MaxScopes
    ensures r.Success? ==> Erase(r.value.node) == Erase(root) && r.value.node.ty == root.ty
    ensures r.Success? ==> r.value.node.kind.Root? && r.value.ty.None? && r.value.stack == []
    ensures r.Success? <==> AnalyzeAll(ctx, [Scope([], root.tok)], root.kind.exprs).Success?
  {
    var st := PushScope([], root.tok);
    match AnalyzeAll(ctx, st, root.kind.exprs)
    case Failure(e) => Failure(e)
    case Success(la) => Success(Analyzed(Node(Root(la.nodes), root.tok, root.ty), None, PopScope(la.stack).value))
  }
}
