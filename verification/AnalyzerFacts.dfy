/** Properties of the analyzer: the scope stack's discipline, what the
    always-false type matcher rejects, the typing of leaves, and the checks
    a call goes through. */
module AnalyzerFacts {
  import opened Common
  import opened Lexer
  import opened Types
  import opened Parser
  import opened Analyzer

  // ---------------------------------------------------------------------
  // Scopes.

  /** Closing a scope just opened gives back the stack. */
  lemma PushThenPop(st: Stack, tok: Token)
    requires |st| < MaxScopes
    ensures PopScope(PushScope(st, tok)) == Success(st)
  {
  }

  /** Closing a scope keeps the remaining names unique, and makes the names
      declared in it unresolvable. */
  lemma PopForgets(st: Stack, name: string)
    requires |st| > 0 && Distinct(Names(st))
    ensures Distinct(Names(PopScope(st).value))
    ensures name in ScopeNames(st[|st| - 1]) ==> Analyzer.Lookup(PopScope(st).value, name).None?
  {
    var rest := PopScope(st).value;
    var all := Names(st);
    assert all == Names(rest) + ScopeNames(st[|st| - 1]);
    assert forall a :: 0 <= a < |Names(rest)| ==> Names(rest)[a] == all[a];
    var top := ScopeNames(st[|st| - 1]);
    if name in top {
      var b :| 0 <= b < |top| && top[b] == name;
      assert all[|Names(rest)| + b] == name;
      assert forall a :: 0 <= a < |Names(rest)| ==> Names(rest)[a] != name;
    }
  }

  // ---------------------------------------------------------------------
  // The always-false matcher.

  ghost predicate NeverMatches(ctx: Context) {
    forall a: TypeRef, b: TypeRef :: !ctx.typesMatch(a, b)
  }

  lemma SourceNeverMatches()
    ensures NeverMatches(SourceContext())
  {
  }

  /** With the source's matcher, a declaration with a type annotation, any
      binary expression, and any call with an argument cannot succeed. */
  lemma NothingMatches(ctx: Context, st: Stack, n: Node)
    requires NeverMatches(ctx) && |st| + Depth(n) <= MaxScopes
    ensures n.kind.Decl? && n.kind.declType.Some? ==> AnalyzeExpression(ctx, st, n).Failure?
    ensures n.kind.Binary? ==> AnalyzeExpression(ctx, st, n).Failure?
    ensures n.kind.Call? && |n.kind.args| > 0 ==> AnalyzeExpression(ctx, st, n).Failure?
  {
    if n.kind.Call? && |n.kind.args| > 0 {
      var callee := n.kind.callee;
      var ca := AnalyzeExpression(ctx, st, callee);
      if ca.Success? && ca.value.ty.Some? && ca.value.ty.value.kind == TFn && |ca.value.ty.value.params| == |n.kind.args| {
        var args := n.kind.args;
        var r := CallArguments(ctx, ca.value.stack, ca.value.ty.value.params, args);
        assert r.Success? ==> ctx.typesMatch(ca.value.ty.value.params[0], r.value.nodes[0].ty);
      }
    }
  }

  /** With a real equality as the matcher, adding two character literals
      is well typed, with the type `i8`; with the source's matcher it is a
      type mismatch. */
  lemma CharSumTypes(plus: Token, a: Token, b: Token, x: u64, y: u64)
    ensures var n := Fresh(Binary(Fresh(Lit(LitChar(x)), a), Fresh(Lit(LitChar(y)), b)), plus);
      && AnalyzeExpression(Context(InitAnalyzer(), (s: TypeRef, t: TypeRef) => s == t), [], n).Success?
      && AnalyzeExpression(Context(InitAnalyzer(), (s: TypeRef, t: TypeRef) => s == t), [], n).value.ty
         == Some(Basic("i8", TInt, 8))
      && AnalyzeExpression(SourceContext(), [], n) == Failure(TypeMismatch)
  {
    var n := Fresh(Binary(Fresh(Lit(LitChar(x)), a), Fresh(Lit(LitChar(y)), b)), plus);
    var eq := Context(InitAnalyzer(), (s: TypeRef, t: TypeRef) => s == t);
    var i8 := Some(Basic("i8", TInt, 8));
    assert AnalyzeExpression(eq, [], Fresh(Lit(LitChar(x)), a)).value.ty == i8;
    assert AnalyzeExpression(eq, [], Fresh(Lit(LitChar(y)), b)).value.ty == i8;
    assert AnalyzeExpression(SourceContext(), [], Fresh(Lit(LitChar(x)), a)).value.ty == i8;
    assert AnalyzeExpression(SourceContext(), [], Fresh(Lit(LitChar(y)), b)).value.ty == i8;
  }

  // ---------------------------------------------------------------------
  // Leaves.

  /** The types of leaves with the built-in registry: characters are `i8`,
      doubles `f64`, signed integers `i64`, strings `string`; unsigned
      integers, which are all the integers the lexer and parser produce,
      trip an assertion. */
  lemma LeafTypes(ctx: Context, st: Stack, tok: Token, lit: Literal)
    requires ctx.reg == InitAnalyzer() && |st| <= MaxScopes
    ensures var r := AnalyzeExpression(ctx, st, Fresh(Lit(lit), tok));
      && (lit.LitChar? ==> r.Success? && r.value.ty == Some(Basic("i8", TInt, 8)))
      && (lit.LitDouble? ==> r.Success? && r.value.ty == Some(Basic("f64", TFloat, 64)))
      && (lit.LitInt? ==> r.Success? && r.value.ty == Some(Basic("i64", TInt, 64)))
      && (lit.LitUint? ==> r == Failure(AssertionFailed))
    ensures AnalyzeExpression(ctx, st, Fresh(Str, tok)) == Success(Analyzed(Node(Str, tok, Some(Basic("string", TString, 0))), Some(Basic("string", TString, 0)), st))
  {
  }

  /** An identifier gets the type of the symbol it names, and an undefined
      one aborts. */
  lemma IdentifierTypes(ctx: Context, st: Stack, tok: Token)
    requires 0 < |st| <= MaxScopes && tok.text.Some?
    ensures var r := AnalyzeExpression(ctx, st, Fresh(Id, tok));
      && (tok.text.value in Names(st) ==> r.Success? && r.value.ty == Analyzer.Lookup(st, tok.text.value).value.ty && r.value.stack == st)
      && (tok.text.value !in Names(st) ==> r == Failure(UndefinedIdentifier(tok.text.value)))
  {
  }

  /** A function type with parameters cannot be analysed: its parameters
      are parameter nodes, which are not expressions. Only `fn() -> T`
      types are usable. */
  lemma FunctionTypesTakeNoParameters(ctx: Context, st: Stack, n: Node)
    requires n.kind.Fn? && |n.kind.args| > 0 && n.kind.args[0].kind.FnArg?
    requires |st| + Depth(n) <= MaxScopes
    ensures AnalyzeType(ctx, st, n) == Failure(UnexpectedNode)
  {
    var args := n.kind.args;
    assert AnalyzeExpression(ctx, st, args[0]) == Failure(UnexpectedNode);
    assert AnalyzeAll(ctx, st, args) == Failure(UnexpectedNode);
  }

  // ---------------------------------------------------------------------
  // Calls.

  /** A call's callee must be a function, and the argument count must equal
      the parameter count, which is checked before any argument is
      analysed. */
  lemma CallChecks(ctx: Context, st: Stack, n: Node)
    requires n.kind.Call? && |st| + Depth(n) <= MaxScopes
    requires AnalyzeExpression(ctx, st, n.kind.callee).Success?
    ensures var ft := AnalyzeExpression(ctx, st, n.kind.callee).value.ty;
      && (ft.None? ==> AnalyzeExpression(ctx, st, n) == Failure(NullDereference))
      && (ft.Some? && ft.value.kind != TFn ==> AnalyzeExpression(ctx, st, n) == Failure(NotAFunction))
      && (ft.Some? && ft.value.kind == TFn && |ft.value.params| != |n.kind.args| ==>
            AnalyzeExpression(ctx, st, n) == Failure(ArityMismatch(|ft.value.params|, |n.kind.args|)))
  {
    CalleeDepth(n);
  }

  // ---------------------------------------------------------------------
  // A whole statement.

  function NameToken(name: string): Token {
    Token(TokIdentifier, Some(name), |name|)
  }

  /** `x : = 'c'`, as the parser builds it. */
  function DeclareX(colon: Token, c: Token, x: u64): (n: Node)
    ensures n.kind.Decl? && Depth(n) == 0
  {
    Fresh(Decl(Fresh(Id, NameToken("x")), Fresh(Lit(LitChar(x)), c), None), colon)
  }

  /** A use of `x`. */
  function UseX(): (n: Node)
    ensures n.kind.Id? && Depth(n) == 0
  {
    Fresh(Id, NameToken("x"))
  }

  /** A statement of two expressions without blocks. */
  function Statement(tok: Token, items: seq<Node>): (n: Node)
    requires forall k :: 0 <= k < |items| ==> Depth(items[k]) == 0
    ensures n.kind.Root? && n.kind.exprs == items && 1 + DepthAll(items) <= MaxScopes
  {
    FlatDepth(items);
    Fresh(Root(items), tok)
  }

  lemma {:induction false} FlatDepth(items: seq<Node>)
    requires forall k :: 0 <= k < |items| ==> Depth(items[k]) == 0
    ensures DepthAll(items) == 0
  {
    if |items| > 0 {
      FlatDepth(items[1..]);
    }
  }

  /** After any declaration that is accepted, a use of the declared name
      resolves to the declared type and leaves the scopes alone. */
  lemma DeclaredNameResolves(ctx: Context, st: Stack, n: Node, d: Analyzed, use: Node)
    requires n.kind.Decl? && |st| + Depth(n) <= MaxScopes
    requires AnalyzeExpression(ctx, st, n) == Success(d)
    requires use.kind.Id? && use.tok.text == n.kind.target.tok.text
    ensures |d.stack| == |st|
    ensures |d.stack| + Depth(use) <= MaxScopes &&
      AnalyzeExpression(ctx, d.stack, use) == Success(Analyzed(use.(ty := d.ty), d.ty, d.stack))
  {
    LeafDepth(use);
    var name := n.kind.target.tok.text.value;
    assert Analyzer.Lookup(d.stack, name) == Some(Symbol(name, d.ty));
    UseResolves(ctx, d.stack, use, d.ty);
  }

  lemma UseResolves(ctx: Context, st: Stack, use: Node, ty: TypeRef)
    requires use.kind.Id? && use.tok.text.Some? && |st| <= MaxScopes
    requires Analyzer.Lookup(st, use.tok.text.value) == Some(Symbol(use.tok.text.value, ty))
    ensures AnalyzeExpression(ctx, st, use) == Success(Analyzed(use.(ty := ty), ty, st))
  {
    assert AnalyzeId(st, use.tok) == Success(ty);
  }

  /** A declaration of a name that an open scope already declares is never
      accepted, whatever its initializer declares on the way. */
  lemma RedeclarationRejected(ctx: Context, st: Stack, n: Node)
    requires n.kind.Decl? && |st| + Depth(n) <= MaxScopes
    requires n.kind.target.tok.text.Some? && n.kind.target.tok.text.value in Names(st)
    ensures AnalyzeExpression(ctx, st, n).Failure?
  {
    assert AnalyzeExpression(ctx, st, n) == AnalyzeDecl(ctx, st, n);
  }

  /** The stack after `x : = 'c'` in a fresh statement: `x` of type `i8`. */
  lemma DeclaresX(colon: Token, c: Token, x: u64)
    ensures var st1 := [Scope([Symbol("x", Some(Basic("i8", TInt, 8)))], colon)];
      && AnalyzeExpression(SourceContext(), [Scope([], colon)], DeclareX(colon, c, x)).Success?
      && AnalyzeExpression(SourceContext(), [Scope([], colon)], DeclareX(colon, c, x)).value.stack == st1
      && Names(st1) == ["x"]
  {
    var ctx := SourceContext();
    var i8 := Some(Basic("i8", TInt, 8));
    var st0 := [Scope([], colon)];
    var st1 := [Scope([Symbol("x", i8)], colon)];
    assert Names(st1) == ["x"];
    assert Names(st0) == [];
    assert AnalyzeExpression(ctx, st0, Fresh(Lit(LitChar(x)), c)).value.ty == i8;
    assert st0[0].symbols + [Symbol("x", i8)] == [Symbol("x", i8)];
    assert st0[..0] + [Scope(st0[0].symbols + [Symbol("x", i8)], colon)] == st1;
    assert AddSymbol(st0, NameToken("x"), i8) == Success(st1);
    assert AnalyzeDecl(ctx, st0, DeclareX(colon, c, x)).value.stack == st1;
  }

  /** `x : = 'c'` followed by `x`: the declaration gives `x` the type `i8`
      and the later use resolves to it. */
  lemma DeclareThenUse(colon: Token, c: Token, x: u64)
    ensures var r := AnalyzeAst(SourceContext(), Statement(colon, [DeclareX(colon, c, x), UseX()]));
      r.Success? && r.value.node.kind.exprs[1].ty == Some(Basic("i8", TInt, 8))
  {
    var ctx := SourceContext();
    var decl, use := DeclareX(colon, c, x), UseX();
    var i8 := Some(Basic("i8", TInt, 8));
    var st0 := [Scope([], colon)];
    var st1 := [Scope([Symbol("x", i8)], colon)];
    FlatDepth([decl, use]);
    DeclaresX(colon, c, x);
    var a := AnalyzeExpression(ctx, st0, decl).value;
    assert Analyzer.Lookup(st1, "x") == Some(Symbol("x", i8));
    UseResolves(ctx, st1, use, i8);
    var u := AnalyzeExpression(ctx, st1, use);
    assert [use][1..] == [];
    assert AnalyzeAll(ctx, st1, []) == Success(AnalyzedList([], [], st1));
    var rest := AnalyzeAll(ctx, st1, [use]);
    assert rest == Success(AnalyzedList([u.value.node] + [], [u.value.ty] + [], st1));
    assert [decl, use][1..] == [use];
    var all := AnalyzeAll(ctx, st0, [decl, use]);
    assert all == Success(AnalyzedList([a.node] + rest.value.nodes, [a.ty] + rest.value.types, rest.value.stack));
  }

  /** Declaring `x` twice in one statement is a redeclaration. */
  lemma DeclareTwice(colon: Token, c: Token, x: u64)
    ensures var decl := DeclareX(colon, c, x);
      AnalyzeAst(SourceContext(), Statement(colon, [decl, decl])) == Failure(Redeclaration("x"))
  {
    var ctx := SourceContext();
    var decl := DeclareX(colon, c, x);
    var st0 := [Scope([], colon)];
    var st1 := [Scope([Symbol("x", Some(Basic("i8", TInt, 8)))], colon)];
    FlatDepth([decl, decl]);
    DeclaresX(colon, c, x);
    RedeclareX(colon, c, x);
    assert [decl, decl][1..] == [decl];
    assert AnalyzeAll(ctx, st0, [decl, decl]) == Failure(Redeclaration("x"));
  }

  /** With `x` already declared, `x : = 'c'` is a redeclaration. */
  lemma RedeclareX(colon: Token, c: Token, x: u64)
    ensures var st1 := [Scope([Symbol("x", Some(Basic("i8", TInt, 8)))], colon)];
      AnalyzeAll(SourceContext(), st1, [DeclareX(colon, c, x)]) == Failure(Redeclaration("x"))
  {
    var ctx := SourceContext();
    var decl := DeclareX(colon, c, x);
    var st1 := [Scope([Symbol("x", Some(Basic("i8", TInt, 8)))], colon)];
    assert AnalyzeExpression(ctx, st1, Fresh(Lit(LitChar(x)), c)).Success?;
    assert Names(st1) == ["x"];
    assert AnalyzeDecl(ctx, st1, decl) == Failure(Redeclaration("x"));
  }

  /** Every statement starts with no declarations: `x` alone is undefined,
      whatever earlier statements declared. */
  lemma UseWithoutDeclare(colon: Token)
    ensures AnalyzeAst(SourceContext(), Statement(colon, [UseX()])) == Failure(UndefinedIdentifier("x"))
  {
    var ctx := SourceContext();
    var st0 := [Scope([], colon)];
    FlatDepth([UseX()]);
    assert Names(st0) == [];
    assert AnalyzeAll(ctx, st0, [UseX()]) == Failure(UndefinedIdentifier("x"));
  }
}
