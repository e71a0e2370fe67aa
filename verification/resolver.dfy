/** The static resolution pass (src/com/sabino/lox/Resolver.kt). It walks the tree with a
    stack of block scopes, each mapping a name to whether its initializer has finished,
    and records, for every local reference, how many scopes out its binding lives. The
    interpreter's side table of distances is `locals`, keyed by the reference node's id.
    Mutable fields of the source become a state value threaded through pure functions. */
module Resolver {
  import opened Wrappers
  import opened Tokens
  import opened Ast

  /** What kind of function body is being resolved (`FunctionType`). */
  datatype FunctionType = NoFunction | PlainFunction | Initializer | Method

  /** What kind of class body is being resolved (`ClassType`). */
  datatype ClassType = NoClass | PlainClass | Subclass

  /** One block scope: a name maps to true once its declaration is complete. */
  type Scope = map<string, bool>

  /** A report made through the error hook, at a token. */
  datatype StaticError = StaticError(token: Token, message: string)

  datatype RState = RState(
    scopes: seq<Scope>,
    fnType: FunctionType,
    classType: ClassType,
    locals: map<nat, nat>,
    errors: seq<StaticError>)

  // ---------------------------------------------------------------------------
  // The scope stack (Resolver.kt:206-233)

  /** `resolveLocal`'s search: the distance from the innermost scope to the innermost
      scope that holds `name`, or nothing when no scope does (a global). */
  function Lookup(scopes: seq<Scope>, name: string): (r: Option<nat>)
    ensures r.Some? ==> r.value < |scopes| && name in scopes[|scopes| - 1 - r.value]
    ensures r.Some? ==> forall i :: |scopes| - 1 - r.value < i < |scopes| ==> name !in scopes[i]
    ensures r.None? ==> forall i :: 0 <= i < |scopes| ==> name !in scopes[i]
    decreases |scopes|
  {
    if |scopes| == 0 then None
    else if name in scopes[|scopes| - 1] then Some(0)
    else
      match Lookup(scopes[..|scopes| - 1], name)
      case None => None
      case Some(d) => Some(d + 1)
  }

  /** `resolveLocal` (Resolver.kt:224-233): records the distance under the reference's
      id when some scope holds the name, and records nothing otherwise. */
  function ResolveLocal(st: RState, id: nat, name: Token): (r: RState)
    ensures r.scopes == st.scopes && r.fnType == st.fnType && r.classType == st.classType && r.errors == st.errors
    ensures Lookup(st.scopes, name.lexeme).Some? ==> r.locals == st.locals[id := Lookup(st.scopes, name.lexeme).value]
    ensures Lookup(st.scopes, name.lexeme).None? ==> r.locals == st.locals
  {
    match Lookup(st.scopes, name.lexeme)
    case Some(d) => st.(locals := st.locals[id := d])
    case None => st
  }

  function BeginScope(st: RState): (r: RState)
    ensures r.scopes == st.scopes + [map[]]
  {
    st.(scopes := st.scopes + [map[]])
  }

  function EndScope(st: RState): (r: RState)
    requires |st.scopes| > 0
    ensures r.scopes == st.scopes[..|st.scopes| - 1]
  {
    st.(scopes := st.scopes[..|st.scopes| - 1])
  }

  /** Sets `name`'s flag in the innermost scope; nothing happens at global level. */
  function Mark(st: RState, name: Token, done: bool): (r: RState)
    ensures |r.scopes| == |st.scopes| && r.fnType == st.fnType && r.classType == st.classType
    ensures r.locals == st.locals && r.errors == st.errors
    ensures |st.scopes| == 0 ==> r == st
    ensures |st.scopes| > 0 ==>
      && r.scopes[..|r.scopes| - 1] == st.scopes[..|st.scopes| - 1]
      && r.scopes[|r.scopes| - 1] == st.scopes[|st.scopes| - 1][name.lexeme := done]
  {
    if |st.scopes| == 0 then st
    else
      var top := |st.scopes| - 1;
      st.(scopes := st.scopes[top := st.scopes[top][name.lexeme := done]])
  }

  /** `declare` (Resolver.kt:214-217): inside a block, the innermost scope now holds
      `name` as not yet initialized and every other binding is kept; at global level
      nothing happens. */
  function Declare(st: RState, name: Token): (r: RState)
    ensures StmtStep(st, r) && r.locals == st.locals && r.errors == st.errors
    ensures |st.scopes| == 0 ==> r == st
    ensures |st.scopes| > 0 ==> r.scopes[|r.scopes| - 1] == st.scopes[|st.scopes| - 1][name.lexeme := false]
  {
    Mark(st, name, false)
  }

  /** `define` (Resolver.kt:219-222): inside a block, the innermost scope now holds
      `name` as initialized and every other binding is kept; at global level nothing
      happens. */
  function Define(st: RState, name: Token): (r: RState)
    ensures StmtStep(st, r) && r.locals == st.locals && r.errors == st.errors
    ensures |st.scopes| == 0 ==> r == st
    ensures |st.scopes| > 0 ==> r.scopes[|r.scopes| - 1] == st.scopes[|st.scopes| - 1][name.lexeme := true]
  {
    Mark(st, name, true)
  }

  /** A declared name is found in the innermost scope, where it is not yet usable, and
      defining it afterwards is the same as defining it outright. */
  lemma DeclareThenDefine(st: RState, name: Token)
    ensures |st.scopes| > 0 ==> Lookup(Declare(st, name).scopes, name.lexeme) == Some(0)
    ensures Define(Declare(st, name), name) == Define(st, name)
  {
    if |st.scopes| > 0 {
      var top := |st.scopes| - 1;
      assert Define(Declare(st, name), name).scopes[..top] == Define(st, name).scopes[..top];
      assert Define(Declare(st, name), name).scopes[top] == Define(st, name).scopes[top];
      assert Define(Declare(st, name), name).scopes == Define(st, name).scopes;
    }
  }

  /** The error hook: one report is appended and nothing else changes. */
  function Report(st: RState, token: Token, message: string): (r: RState)
    ensures r.scopes == st.scopes && r.fnType == st.fnType && r.classType == st.classType && r.locals == st.locals
    ensures r.errors == st.errors + [StaticError(token, message)]
  {
    st.(errors := st.errors + [StaticError(token, message)])
  }

  // ---------------------------------------------------------------------------
  // Invariants of the walk

  /** Resolving an expression changes only the side table and the error list. */
  predicate ExprStep(st: RState, r: RState) {
    r.scopes == st.scopes && r.fnType == st.fnType && r.classType == st.classType && st.errors <= r.errors
  }

  /** Resolving a statement keeps the stack height, every scope but the innermost, and
      both context kinds. */
  predicate StmtStep(st: RState, r: RState) {
    && |r.scopes| == |st.scopes|
    && (|st.scopes| > 0 ==> r.scopes[..|r.scopes| - 1] == st.scopes[..|st.scopes| - 1])
    && r.fnType == st.fnType && r.classType == st.classType
    && st.errors <= r.errors
  }

  // ---------------------------------------------------------------------------
  // Expressions (Resolver.kt:21-101)

  /** `visitVariableExpr` (Resolver.kt:92-101): reading a name whose declaration in the
      innermost scope is not finished is reported; the reference is resolved either way. */
  function ResolveVariable(st: RState, id: nat, name: Token): (r: RState)
    ensures ExprStep(st, r)
    ensures r.locals == ResolveLocal(st, id, name).locals
    ensures InOwnInitializer(st.scopes, name.lexeme) ==>
      r.errors == st.errors + [StaticError(name, "Cannot read local variable in its own initializer.")]
    ensures !InOwnInitializer(st.scopes, name.lexeme) ==> r.errors == st.errors
  {
    var st1 := if InOwnInitializer(st.scopes, name.lexeme)
      then Report(st, name, "Cannot read local variable in its own initializer.") else st;
    ResolveLocal(st1, id, name)
  }

  /** The innermost scope declares `name` but has not finished defining it. */
  predicate InOwnInitializer(scopes: seq<Scope>, name: string) {
    |scopes| > 0 && name in scopes[|scopes| - 1] && !scopes[|scopes| - 1][name]
  }

  /** `visitThisExpr` (Resolver.kt:77-85): outside a class `this` is reported and not
      resolved; inside one it is resolved like a variable. */
  function ResolveThis(st: RState, id: nat, keyword: Token): (r: RState)
    ensures ExprStep(st, r)
    ensures st.classType == NoClass ==>
      r.locals == st.locals && r.errors == st.errors + [StaticError(keyword, "Cannot use 'this' outside of a class.")]
    ensures st.classType != NoClass ==> r == ResolveLocal(st, id, keyword)
  {
    if st.classType == NoClass then Report(st, keyword, "Cannot use 'this' outside of a class.")
    else ResolveLocal(st, id, keyword)
  }

  /** `visitSuperExpr` (Resolver.kt:65-75): `super` outside a class, or in a class with no
      superclass, is reported; the reference is resolved in every case. */
  function ResolveSuper(st: RState, id: nat, keyword: Token): (r: RState)
    ensures ExprStep(st, r)
    ensures r.locals == ResolveLocal(st, id, keyword).locals
    ensures st.classType == Subclass <==> r.errors == st.errors
    ensures st.classType == NoClass ==>
      r.errors == st.errors + [StaticError(keyword, "Cannot use 'super' oustide of a class")]
    ensures st.classType == PlainClass ==>
      r.errors == st.errors + [StaticError(keyword, "Cannot use 'super' in a class with no superclass")]
  {
    var st1 :=
      if st.classType == NoClass then Report(st, keyword, "Cannot use 'super' oustide of a class")
      else if st.classType != Subclass then Report(st, keyword, "Cannot use 'super' in a class with no superclass")
      else st;
    ResolveLocal(st1, id, keyword)
  }

  /** `resolve(expr)`: the visitor over every expression node. */
  function ResolveExpr(e: Expr, st: RState): (r: RState)
    ensures ExprStep(st, r)
    decreases e, 0
  {
    match e
    case Assign(id, name, value) => ResolveLocal(ResolveExpr(value, st), id, name)
    case Binary(left, _, right) => ResolveExpr(right, ResolveExpr(left, st))
    case Call(callee, _, args) => ResolveExprs(args, ResolveExpr(callee, st))
    case Get(obj, _) => ResolveExpr(obj, st)
    case Grouping(inner) => ResolveExpr(inner, st)
    case Literal(_) => st
    case Logical(left, _, right) => ResolveExpr(right, ResolveExpr(left, st))
    case Set(obj, _, value) => ResolveExpr(value, ResolveExpr(obj, st))
    case Super(id, keyword, _) => ResolveSuper(st, id, keyword)
    case This(id, keyword) => ResolveThis(st, id, keyword)
    case Unary(_, right) => ResolveExpr(right, st)
    case Variable(id, name) => ResolveVariable(st, id, name)
  }

  /** Arguments, left to right. */
  function ResolveExprs(es: seq<Expr>, st: RState): (r: RState)
    ensures ExprStep(st, r)
    decreases es, 1
  {
    if |es| == 0 then st else ResolveExprs(es[1..], ResolveExpr(es[0], st))
  }

  // ---------------------------------------------------------------------------
  // Statements (Resolver.kt:103-196, 235-250)

  /** `visitReturnStmt` (Resolver.kt:171-183): a `return` outside any function is
      reported; a `return` with a value inside an initializer is reported too; a value is
      resolved in either case. */
  function ResolveReturn(st: RState, keyword: Token, value: Option<Expr>): (r: RState)
    ensures ExprStep(st, r)
    ensures var reported := ReturnErrors(st.fnType, keyword, value);
      st.errors + reported <= r.errors && (value.None? ==> r.errors == st.errors + reported)
  {
    var st1 := st.(errors := st.errors + ReturnErrors(st.fnType, keyword, value));
    if value.Some? then ResolveExpr(value.value, st1) else st1
  }

  /** The reports a `return` makes before its value is resolved. */
  function ReturnErrors(fnType: FunctionType, keyword: Token, value: Option<Expr>): (errs: seq<StaticError>)
    ensures StaticError(keyword, "Cannot return from top-level code.") in errs <==> fnType == NoFunction
    ensures StaticError(keyword, "Cannot return a value from an initializer.") in errs <==>
      fnType == Initializer && value.Some?
    ensures |errs| <= 1
  {
    if fnType == NoFunction then [StaticError(keyword, "Cannot return from top-level code.")]
    else if value.Some? && fnType == Initializer then [StaticError(keyword, "Cannot return a value from an initializer.")]
    else []
  }

  /** `resolve(stmt)`: the visitor over every statement node. */
  function ResolveStmt(s: Stmt, st: RState): (r: RState)
    ensures StmtStep(st, r)
    ensures s.Block? ==> r.scopes == st.scopes
    decreases s, 0
  {
    match s
    case Block(ss) => ResolveBlock(ss, st)
    case Class(name, superclass, methods) => ResolveClass(name, superclass, methods, st)
    case Expression(e) => ResolveExpr(e, st)
    case Function(decl) => ResolveFunction(decl, PlainFunction, Define(Declare(st, decl.name), decl.name))
    case If(cond, thenBranch, elseBranch) =>
      var st1 := ResolveStmt(thenBranch, ResolveExpr(cond, st));
      if elseBranch.Some? then ResolveStmt(elseBranch.value, st1) else st1
    case Print(e) => ResolveExpr(e, st)
    case Return(keyword, value) => ResolveReturn(st, keyword, value)
    case Var(name, init) =>
      var st1 := Declare(st, name);
      var st2 := if init.Some? then ResolveExpr(init.value, st1) else st1;
      Define(st2, name)
    case While(cond, body) => ResolveStmt(body, ResolveExpr(cond, st))
  }

  /** Statements in order, in the current scope. */
  function ResolveStmts(ss: seq<Stmt>, st: RState): (r: RState)
    ensures StmtStep(st, r)
    decreases ss, 1
  {
    if |ss| == 0 then st else ResolveStmts(ss[1..], ResolveStmt(ss[0], st))
  }

  /** `visitBlockStmt` (Resolver.kt:103-107): the scope pushed for the block is popped
      again, so the stack is exactly as it was. */
  function ResolveBlock(ss: seq<Stmt>, st: RState): (r: RState)
    ensures StmtStep(st, r) && r.scopes == st.scopes
    decreases ss, 2
  {
    var inner := ResolveStmts(ss, BeginScope(st));
    EndScope(inner)
  }

  /** `resolveFunction` (Resolver.kt:235-250): the body runs in a new scope holding the
      parameters, with the function kind set to `kind`; scope and kind are restored. */
  function ResolveFunction(decl: FunDecl, kind: FunctionType, st: RState): (r: RState)
    ensures StmtStep(st, r) && r.scopes == st.scopes
    decreases decl, 0
  {
    var st1 := BeginScope(st.(fnType := kind));
    var st2 := DefineParams(decl.params, st1);
    var st3 := ResolveStmts(decl.body, st2);
    EndScope(st3).(fnType := st.fnType)
  }

  /** Declares and defines each parameter, in order, in the innermost scope. */
  function DefineParams(params: seq<Token>, st: RState): (r: RState)
    requires |st.scopes| > 0
    ensures StmtStep(st, r) && r.locals == st.locals && r.errors == st.errors
    ensures forall p :: p in params ==> Finished(r.scopes, p.lexeme)
    ensures forall k :: Finished(st.scopes, k) ==> Finished(r.scopes, k)
    decreases |params|
  {
    if |params| == 0 then st
    else
      var r := DefineParams(params[1..], Define(Declare(st, params[0]), params[0]));
      assert forall p :: p in params ==> p == params[0] || p in params[1..];
      r
  }

  /** The innermost scope holds `name` as fully defined. */
  predicate Finished(scopes: seq<Scope>, name: string) {
    |scopes| > 0 && name in scopes[|scopes| - 1] && scopes[|scopes| - 1][name]
  }

  /** `visitClassStmt` (Resolver.kt:109-146). The name is declared and defined in the
      enclosing scope; a superclass naming the class itself is reported; with a
      superclass the methods see a scope holding `super` outside the scope holding
      `this`. Scopes and the class kind are restored afterwards. */
  function ResolveClass(name: Token, superclass: Option<VariableExpr>, methods: seq<FunDecl>, st: RState): (r: RState)
    ensures StmtStep(st, r)
    ensures superclass.Some? && superclass.value.name.lexeme == name.lexeme ==>
      StaticError(superclass.value.name, "A class cannot inherit from itself.") in r.errors
    decreases methods, 2
  {
    var st1 := Define(Declare(st.(classType := PlainClass), name), name);
    var selfInherit := superclass.Some? && superclass.value.name.lexeme == name.lexeme;
    var st2 := if selfInherit then Report(st1, superclass.value.name, "A class cannot inherit from itself.") else st1;
    assert selfInherit ==> st2.errors[|st2.errors| - 1] == StaticError(superclass.value.name, "A class cannot inherit from itself.");
    var st3 :=
      if superclass.Some? then
        var s := ResolveExpr(superclass.value, st2.(classType := Subclass));
        s.(scopes := s.scopes + [map["super" := true]])
      else st2;
    var st4 := st3.(scopes := st3.scopes + [map["this" := true]]);
    var st5 := ResolveMethods(methods, st4);
    var st6 := EndScope(st5);
    var st7 := if superclass.Some? then EndScope(st6) else st6;
    assert st2.errors <= st7.errors;
    st7.(classType := st.classType)
  }

  /** The methods of a class, in order; a method named `init` is an initializer. */
  function ResolveMethods(methods: seq<FunDecl>, st: RState): (r: RState)
    ensures StmtStep(st, r) && r.scopes == st.scopes
    decreases methods, 1
  {
    if |methods| == 0 then st
    else
      var kind := if methods[0].name.lexeme == "init" then Initializer else Method;
      ResolveMethods(methods[1..], ResolveFunction(methods[0], kind, st))
  }

  /** `resolve(statements)` at top level: no scope, no function, no class. */
  function Resolve(program: seq<Stmt>): (r: RState)
    ensures r.scopes == [] && r.fnType == NoFunction && r.classType == NoClass
  {
    ResolveStmts(program, RState([], NoFunction, NoClass, map[], []))
  }

  // ---------------------------------------------------------------------------
  // Properties

  /** A scope pushed without `name` moves every binding of `name` one step further out. */
  lemma LookupPush(scopes: seq<Scope>, s: Scope, name: string)
    ensures name in s ==> Lookup(scopes + [s], name) == Some(0)
    ensures name !in s && Lookup(scopes, name).Some? ==>
      Lookup(scopes + [s], name) == Some(Lookup(scopes, name).value + 1)
    ensures name !in s && Lookup(scopes, name).None? ==> Lookup(scopes + [s], name).None?
  {
    assert (scopes + [s])[..|scopes|] == scopes;
  }

  /** At global level nothing is recorded: every reference in an expression resolved
      with an empty scope stack is left to the globals. */
  lemma {:induction false} GlobalExprUnresolved(e: Expr, st: RState)
    requires st.scopes == []
    ensures ResolveExpr(e, st).locals == st.locals
    decreases e, 0
  {
    match e
    case Assign(id, name, value) => GlobalExprUnresolved(value, st);
    case Binary(left, _, right) =>
      GlobalExprUnresolved(left, st);
      GlobalExprUnresolved(right, ResolveExpr(left, st));
    case Call(callee, _, args) =>
      GlobalExprUnresolved(callee, st);
      GlobalExprsUnresolved(args, ResolveExpr(callee, st));
    case Get(obj, _) => GlobalExprUnresolved(obj, st);
    case Grouping(inner) => GlobalExprUnresolved(inner, st);
    case Literal(_) =>
    case Logical(left, _, right) =>
      GlobalExprUnresolved(left, st);
      GlobalExprUnresolved(right, ResolveExpr(left, st));
    case Set(obj, _, value) =>
      GlobalExprUnresolved(obj, st);
      GlobalExprUnresolved(value, ResolveExpr(obj, st));
    case Super(_, _, _) =>
    case This(_, _) =>
    case Unary(_, right) => GlobalExprUnresolved(right, st);
    case Variable(_, _) =>
  }

  lemma {:induction false} GlobalExprsUnresolved(es: seq<Expr>, st: RState)
    requires st.scopes == []
    ensures ResolveExprs(es, st).locals == st.locals
    decreases es, 1
  {
    if |es| > 0 {
      GlobalExprUnresolved(es[0], st);
      GlobalExprsUnresolved(es[1..], ResolveExpr(es[0], st));
    }
  }

  /** In a method of a subclass, `this` resolves one scope out of the method's own scope
      and `super` two: the scope holding `super` encloses the one holding `this`
      (Resolver.kt:117-133). Shown for a method with no parameters whose body reads
      `super.m` and then `this`. */
  lemma SuperScopeOutsideThis(name: Token, sc: VariableExpr, fname: Token, sid: nat, kw: Token, mn: Token,
                              tid: nat, tkw: Token, st: RState)
    requires sid != tid && kw.lexeme == "super" && tkw.lexeme == "this"
    ensures var m := FunDecl(fname, [], [Expression(Super(sid, kw, mn)), Expression(This(tid, tkw))]);
            var r := ResolveClass(name, Some(sc), [m], st);
            sid in r.locals && r.locals[sid] == 2 && tid in r.locals && r.locals[tid] == 1
  {
    var m := FunDecl(fname, [], [Expression(Super(sid, kw, mn)), Expression(This(tid, tkw))]);
    var st4 := ClassBodyLocals(name, sc, [m], st);
    var kind := if fname.lexeme == "init" then Initializer else Method;
    MethodLocals(m, kind, st4);
    SuperThisLayout(st4.scopes[..|st4.scopes| - 2]);
    BodyLocals(sid, kw, mn, tid, tkw, BeginScope(st4.(fnType := kind)));
  }

  /** The side table a subclass declaration leaves is the one its methods leave when
      resolved inside the `super` and `this` scopes. */
  lemma ClassBodyLocals(name: Token, sc: VariableExpr, methods: seq<FunDecl>, st: RState) returns (st4: RState)
    ensures ResolveClass(name, Some(sc), methods, st).locals == ResolveMethods(methods, st4).locals
    ensures st4.classType == Subclass
    ensures |st4.scopes| >= 2 && st4.scopes == st4.scopes[..|st4.scopes| - 2] + [map["super" := true], map["this" := true]]
  {
    var st1 := Define(Declare(st.(classType := PlainClass), name), name);
    var st2 := if sc.name.lexeme == name.lexeme then Report(st1, sc.name, "A class cannot inherit from itself.") else st1;
    var s := ResolveExpr(sc, st2.(classType := Subclass));
    st4 := s.(scopes := s.scopes + [map["super" := true]] + [map["this" := true]]);
    assert st4.scopes[..|st4.scopes| - 2] == s.scopes;
  }

  /** Below a method's own scope, `this` is one scope out and `super` two. */
  lemma SuperThisLayout(outer: seq<Scope>)
    ensures var scopes := outer + [map["super" := true], map["this" := true]] + [map[]];
            Lookup(scopes, "super") == Some(2) && Lookup(scopes, "this") == Some(1)
  {
    LookupPush(outer, map["super" := true], "super");
    LookupPush(outer + [map["super" := true]], map["this" := true], "super");
    LookupPush(outer + [map["super" := true]], map["this" := true], "this");
    assert outer + [map["super" := true], map["this" := true]] == outer + [map["super" := true]] + [map["this" := true]];
    LookupPush(outer + [map["super" := true], map["this" := true]], map[], "super");
    LookupPush(outer + [map["super" := true], map["this" := true]], map[], "this");
  }

  /** A single method without parameters leaves the side table its body leaves in a fresh
      scope. */
  lemma MethodLocals(m: FunDecl, kind: FunctionType, st: RState)
    requires m.params == [] && kind == (if m.name.lexeme == "init" then Initializer else Method)
    ensures ResolveMethods([m], st).locals == ResolveStmts(m.body, BeginScope(st.(fnType := kind))).locals
  {
    var b := BeginScope(st.(fnType := kind));
    var f := ResolveFunction(m, kind, st);
    assert DefineParams([], b) == b;
    assert f.locals == ResolveStmts(m.body, b).locals;
    assert [m][1..] == [];
    assert ResolveMethods([m], st) == ResolveMethods([], f);
  }

  /** Two statements resolve one after the other. */
  lemma TwoStmts(a: Stmt, b: Stmt, st: RState)
    ensures ResolveStmts([a, b], st) == ResolveStmt(b, ResolveStmt(a, st))
  {
    var s1 := ResolveStmt(a, st);
    assert [a, b][1..] == [b] && [b][1..] == [];
    assert ResolveStmts([a, b], st) == ResolveStmts([b], s1);
    assert ResolveStmts([b], s1) == ResolveStmts([], ResolveStmt(b, s1));
  }

  /** `super.m` as a statement, in a subclass, records distance 2. */
  lemma SuperStmt(id: nat, kw: Token, mn: Token, st: RState)
    requires Lookup(st.scopes, kw.lexeme) == Some(2) && st.classType == Subclass
    ensures var r := ResolveStmt(Expression(Super(id, kw, mn)), st);
            r.locals == st.locals[id := 2] && r.scopes == st.scopes && r.classType == st.classType
  {
    assert ResolveStmt(Expression(Super(id, kw, mn)), st) == ResolveSuper(st, id, kw);
  }

  /** `this` as a statement, in a class, records distance 1. */
  lemma ThisStmt(id: nat, kw: Token, st: RState)
    requires Lookup(st.scopes, kw.lexeme) == Some(1) && st.classType != NoClass
    ensures ResolveStmt(Expression(This(id, kw)), st).locals == st.locals[id := 1]
  {
    assert ResolveStmt(Expression(This(id, kw)), st) == ResolveThis(st, id, kw);
    assert ResolveThis(st, id, kw) == ResolveLocal(st, id, kw);
    assert ResolveLocal(st, id, kw).locals == st.locals[id := 1];
  }

  /** A body reading `super.m` and then `this` records both distances. */
  lemma BodyLocals(sid: nat, kw: Token, mn: Token, tid: nat, tkw: Token, st: RState)
    requires sid != tid && st.classType == Subclass
    requires Lookup(st.scopes, kw.lexeme) == Some(2) && Lookup(st.scopes, tkw.lexeme) == Some(1)
    ensures var r := ResolveStmts([Expression(Super(sid, kw, mn)), Expression(This(tid, tkw))], st);
            sid in r.locals && r.locals[sid] == 2 && tid in r.locals && r.locals[tid] == 1
  {
    TwoStmts(Expression(Super(sid, kw, mn)), Expression(This(tid, tkw)), st);
    SuperStmt(sid, kw, mn, st);
    ThisStmt(tid, tkw, ResolveStmt(Expression(Super(sid, kw, mn)), st));
  }

  /** `var x = x;` in a local scope: the initializer reads `x` after `x` is declared and
      before it is defined, which is reported. */
  lemma OwnInitializerReported(st: RState, name: Token, id: nat, ref: Token)
    requires |st.scopes| > 0 && ref.lexeme == name.lexeme
    ensures ResolveStmt(Var(name, Some(Variable(id, ref))), st).errors
      == st.errors + [StaticError(ref, "Cannot read local variable in its own initializer.")]
  {
    var st1 := Declare(st, name);
    VarUnfolds(st, name, Variable(id, ref));
    VariableUnfolds(st1, id, ref);
    assert InOwnInitializer(st1.scopes, ref.lexeme);
  }

  lemma VariableUnfolds(st: RState, id: nat, name: Token)
    ensures ResolveExpr(Variable(id, name), st) == ResolveVariable(st, id, name)
  {
  }

  /** The steps of `visitVarStmt` with an initializer: declare, resolve, define. */
  lemma VarUnfolds(st: RState, name: Token, init: Expr)
    ensures ResolveStmt(Var(name, Some(init)), st) == Define(ResolveExpr(init, Declare(st, name)), name)
  {
  }

}
