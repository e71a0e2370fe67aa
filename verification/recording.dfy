/** What the resolution pass records (src/com/sabino/lox/Resolver.kt): the entries of
    the side table of distances, for each expression and each statement, stated against
    the references the tree holds. An expression records exact distances; a statement
    records an entry for every reference that a scope already holds when it starts, and
    changes no entry of any other id. */
module Recording {
  import opened Wrappers
  import opened Tokens
  import opened Ast
  import opened Resolver

  // ---------------------------------------------------------------------------
  // What the walk records (Resolver.kt:21-101, 224-233)

  /** The references of `e` the resolver looks up, as (id, name) pairs: variables,
      assignment targets and `super` always, `this` only inside a class. */
  function Refs(e: Expr, inClass: bool): set<(nat, string)>
    decreases e, 0
  {
    match e
    case Assign(id, name, value) => Refs(value, inClass) + {(id, name.lexeme)}
    case Binary(left, _, right) => Refs(left, inClass) + Refs(right, inClass)
    case Call(callee, _, args) => Refs(callee, inClass) + RefsOf(args, inClass)
    case Get(obj, _) => Refs(obj, inClass)
    case Grouping(inner) => Refs(inner, inClass)
    case Literal(_) => {}
    case Logical(left, _, right) => Refs(left, inClass) + Refs(right, inClass)
    case Set(obj, _, value) => Refs(obj, inClass) + Refs(value, inClass)
    case Super(id, keyword, _) => {(id, keyword.lexeme)}
    case This(id, keyword) => if inClass then {(id, keyword.lexeme)} else {}
    case Unary(_, right) => Refs(right, inClass)
    case Variable(id, name) => {(id, name.lexeme)}
  }

  function RefsOf(es: seq<Expr>, inClass: bool): set<(nat, string)>
    decreases es, 1
  {
    if |es| == 0 then {} else Refs(es[0], inClass) + RefsOf(es[1..], inClass)
  }

  /** No id stands for two names. Parsed trees have this property: an id is the index of
      the reference's token. */
  predicate IdsNamed(refs: set<(nat, string)>) {
    forall p, q :: p in refs && q in refs && p.0 == q.0 ==> p.1 == q.1
  }

  /** Entry `k` of the side table was recorded for a reference of `refs` named `n`. */
  ghost predicate RecordedFor(refs: set<(nat, string)>, scopes: seq<Scope>, k: nat, d: nat) {
    exists n :: (k, n) in refs && Lookup(scopes, n) == Some(d)
  }

  /** The side table `after` is `before` with entries recorded for `refs`: no entry is
      dropped; an entry that is new or changed is the distance of a reference of `refs`
      with that id; every reference of `refs` that some scope holds has an entry; and,
      when no id of `refs` stands for two names, that entry is its distance. */
  ghost predicate Records(before: map<nat, nat>, after: map<nat, nat>, refs: set<(nat, string)>, scopes: seq<Scope>) {
    && before.Keys <= after.Keys
    && (forall k :: k in after ==> (k in before && after[k] == before[k]) || RecordedFor(refs, scopes, k, after[k]))
    && (forall id, n :: (id, n) in refs && Lookup(scopes, n).Some? ==> id in after)
    && (IdsNamed(refs) ==>
          forall id, n :: (id, n) in refs && Lookup(scopes, n).Some? ==> id in after && after[id] == Lookup(scopes, n).value)
  }

  /** Recording for `r1` and then for `r2`, under the same scopes, records for both. */
  lemma RecordsThen(l0: map<nat, nat>, l1: map<nat, nat>, l2: map<nat, nat>,
                    r1: set<(nat, string)>, r2: set<(nat, string)>, scopes: seq<Scope>)
    requires Records(l0, l1, r1, scopes) && Records(l1, l2, r2, scopes)
    ensures Records(l0, l2, r1 + r2, scopes)
  {
    forall k | k in l2 && !(k in l0 && l2[k] == l0[k])
      ensures RecordedFor(r1 + r2, scopes, k, l2[k])
    {
      if k in l1 && l2[k] == l1[k] {
        var n :| (k, n) in r1 && Lookup(scopes, n) == Some(l1[k]);
        assert (k, n) in r1 + r2;
      } else {
        var n :| (k, n) in r2 && Lookup(scopes, n) == Some(l2[k]);
        assert (k, n) in r1 + r2;
      }
    }
    if IdsNamed(r1 + r2) {
      assert IdsNamed(r1) && IdsNamed(r2);
      forall id, n | (id, n) in r1 && Lookup(scopes, n).Some?
        ensures id in l2 && l2[id] == Lookup(scopes, n).value
      {
      }
    }
  }

  /** `resolveLocal` records for its one reference. */
  lemma RecordsLocal(st: RState, id: nat, name: Token)
    ensures Records(st.locals, ResolveLocal(st, id, name).locals, {(id, name.lexeme)}, st.scopes)
  {
    var r := ResolveLocal(st, id, name);
    forall k | k in r.locals && !(k in st.locals && r.locals[k] == st.locals[k])
      ensures RecordedFor({(id, name.lexeme)}, st.scopes, k, r.locals[k])
    {
      assert (k, name.lexeme) in {(id, name.lexeme)};
    }
  }

  /** Resolving an expression records, under the scopes it started with, exactly for the
      references the expression holds (Resolver.kt:21-101): every reference that some
      scope holds gets the distance to the innermost such scope, and no other entry of
      the side table changes. */
  lemma {:induction false} ResolveExprRecords(e: Expr, st: RState)
    ensures Records(st.locals, ResolveExpr(e, st).locals, Refs(e, st.classType != NoClass), st.scopes)
    decreases e, 2
  {
    var c := st.classType != NoClass;
    match e
    case Assign(_, _, _) => RecordsAssign(e, st);
    case Binary(left, _, right) => RecordsPair(e, left, right, st);
    case Call(_, _, _) => RecordsCall(e, st);
    case Get(obj, _) => ResolveExprRecords(obj, st);
    case Grouping(inner) => ResolveExprRecords(inner, st);
    case Literal(_) =>
    case Logical(left, _, right) => RecordsPair(e, left, right, st);
    case Set(obj, _, value) => RecordsPair(e, obj, value, st);
    case Super(_, _, _) => RecordsLeaf(e, st);
    case This(_, _) => RecordsLeaf(e, st);
    case Unary(_, right) => ResolveExprRecords(right, st);
    case Variable(_, _) => RecordsLeaf(e, st);
  }

  /** The value first, then the target. */
  lemma {:induction false} RecordsAssign(e: Expr, st: RState)
    requires e.Assign?
    ensures Records(st.locals, ResolveExpr(e, st).locals, Refs(e, st.classType != NoClass), st.scopes)
    decreases e, 1
  {
    var s1 := ResolveExpr(e.value, st);
    ResolveExprRecords(e.value, st);
    RecordsLocal(s1, e.id, e.name);
    RecordsThen(st.locals, s1.locals, ResolveLocal(s1, e.id, e.name).locals,
                Refs(e.value, st.classType != NoClass), {(e.id, e.name.lexeme)}, st.scopes);
  }

  /** The callee first, then the arguments in order. */
  lemma {:induction false} RecordsCall(e: Expr, st: RState)
    requires e.Call?
    ensures Records(st.locals, ResolveExpr(e, st).locals, Refs(e, st.classType != NoClass), st.scopes)
    decreases e, 1
  {
    var s1 := ResolveExpr(e.callee, st);
    ResolveExprRecords(e.callee, st);
    ResolveExprsRecords(e.arguments, s1);
    RecordsThen(st.locals, s1.locals, ResolveExprs(e.arguments, s1).locals,
                Refs(e.callee, st.classType != NoClass), RefsOf(e.arguments, st.classType != NoClass), st.scopes);
  }

  /** `super`, `this` and a variable read resolve their one reference, after any report. */
  lemma RecordsLeaf(e: Expr, st: RState)
    requires e.Super? || e.This? || e.Variable?
    ensures Records(st.locals, ResolveExpr(e, st).locals, Refs(e, st.classType != NoClass), st.scopes)
  {
    match e
    case Super(id, keyword, _) =>
      var s1 := if st.classType == NoClass then Report(st, keyword, "Cannot use 'super' oustide of a class")
        else if st.classType != Subclass then Report(st, keyword, "Cannot use 'super' in a class with no superclass")
        else st;
      RecordsLocal(s1, id, keyword);
    case This(id, keyword) =>
      if st.classType != NoClass {
        RecordsLocal(st, id, keyword);
      }
    case Variable(id, name) =>
      var s1 := if InOwnInitializer(st.scopes, name.lexeme)
        then Report(st, name, "Cannot read local variable in its own initializer.") else st;
      RecordsLocal(s1, id, name);
  }

  /** Two operands resolved left to right. */
  lemma {:induction false} RecordsPair(e: Expr, a: Expr, b: Expr, st: RState)
    requires ((e.Binary? || e.Logical?) && a == e.left && b == e.right) || (e.Set? && a == e.obj && b == e.value)
    ensures var s1 := ResolveExpr(a, st);
            Records(st.locals, ResolveExpr(b, s1).locals, Refs(a, st.classType != NoClass) + Refs(b, st.classType != NoClass), st.scopes)
    decreases e, 1
  {
    var s1 := ResolveExpr(a, st);
    ResolveExprRecords(a, st);
    ResolveExprRecords(b, s1);
    RecordsThen(st.locals, s1.locals, ResolveExpr(b, s1).locals, Refs(a, st.classType != NoClass), Refs(b, st.classType != NoClass), st.scopes);
  }

  lemma {:induction false} ResolveExprsRecords(es: seq<Expr>, st: RState)
    ensures Records(st.locals, ResolveExprs(es, st).locals, RefsOf(es, st.classType != NoClass), st.scopes)
    decreases es, 1
  {
    var c := st.classType != NoClass;
    if |es| > 0 {
      var s1 := ResolveExpr(es[0], st);
      ResolveExprRecords(es[0], st);
      ResolveExprsRecords(es[1..], s1);
      RecordsThen(st.locals, s1.locals, ResolveExprs(es[1..], s1).locals, Refs(es[0], c), RefsOf(es[1..], c), st.scopes);
    }
  }

  // ---------------------------------------------------------------------------
  // What a statement records (Resolver.kt:103-196, 235-250)

  /** The references of a statement: those of every expression it holds, including the
      bodies of its functions and, for a class, its superclass and its methods, whose
      `this` is inside a class. */
  function StmtRefs(s: Stmt, inClass: bool): set<(nat, string)>
    decreases s, 0
  {
    match s
    case Block(ss) => StmtsRefs(ss, inClass)
    case Class(_, superclass, methods) =>
      (if superclass.Some? then Refs(superclass.value, true) else {}) + MethodsRefs(methods, true)
    case Expression(e) => Refs(e, inClass)
    case Function(decl) => StmtsRefs(decl.body, inClass)
    case If(cond, thenBranch, elseBranch) =>
      Refs(cond, inClass) + StmtRefs(thenBranch, inClass)
        + (if elseBranch.Some? then StmtRefs(elseBranch.value, inClass) else {})
    case Print(e) => Refs(e, inClass)
    case Return(_, value) => if value.Some? then Refs(value.value, inClass) else {}
    case Var(_, init) => if init.Some? then Refs(init.value, inClass) else {}
    case While(cond, body) => Refs(cond, inClass) + StmtRefs(body, inClass)
  }

  function StmtsRefs(ss: seq<Stmt>, inClass: bool): set<(nat, string)>
    decreases ss, 1
  {
    if |ss| == 0 then {} else StmtRefs(ss[0], inClass) + StmtsRefs(ss[1..], inClass)
  }

  function MethodsRefs(methods: seq<FunDecl>, inClass: bool): set<(nat, string)>
    decreases methods, 1
  {
    if |methods| == 0 then {} else StmtsRefs(methods[0].body, inClass) + MethodsRefs(methods[1..], inClass)
  }

  /** The ids of a set of references. */
  function IdsOf(refs: set<(nat, string)>): set<nat> {
    set p | p in refs :: p.0
  }

  /** The side table `after` is `before` with entries added or changed for ids of `refs`
      only, and every reference of `refs` that some scope of `scopes` holds has an
      entry. */
  ghost predicate Covers(before: map<nat, nat>, after: map<nat, nat>, refs: set<(nat, string)>, scopes: seq<Scope>) {
    && before.Keys <= after.Keys
    && (forall k :: k in after ==> (k in before && after[k] == before[k]) || k in IdsOf(refs))
    && (forall id, n :: (id, n) in refs && Lookup(scopes, n).Some? ==> id in after)
  }

  /** Every name some scope of `a` holds, some scope of `b` holds too. */
  ghost predicate LookupKept(a: seq<Scope>, b: seq<Scope>) {
    forall n :: Lookup(a, n).Some? ==> Lookup(b, n).Some?
  }

  lemma RecordsCover(before: map<nat, nat>, after: map<nat, nat>, refs: set<(nat, string)>, scopes: seq<Scope>)
    requires Records(before, after, refs, scopes)
    ensures Covers(before, after, refs, scopes)
  {
    forall k | k in after && !(k in before && after[k] == before[k])
      ensures k in IdsOf(refs)
    {
      var n :| (k, n) in refs && Lookup(scopes, n) == Some(after[k]);
      assert (k, n).0 == k;
    }
  }

  lemma CoversThen(l0: map<nat, nat>, l1: map<nat, nat>, l2: map<nat, nat>,
                   r1: set<(nat, string)>, r2: set<(nat, string)>, scopes: seq<Scope>)
    requires Covers(l0, l1, r1, scopes) && Covers(l1, l2, r2, scopes)
    ensures Covers(l0, l2, r1 + r2, scopes)
  {
    assert IdsOf(r1) + IdsOf(r2) <= IdsOf(r1 + r2);
  }

  /** Coverage under later scopes is coverage under earlier ones that they keep. */
  lemma CoversFrom(before: map<nat, nat>, after: map<nat, nat>, refs: set<(nat, string)>, s0: seq<Scope>, s1: seq<Scope>)
    requires Covers(before, after, refs, s1) && LookupKept(s0, s1)
    ensures Covers(before, after, refs, s0)
  {
  }

  /** Scopes that only gain names, and scopes pushed on top, keep every name. */
  lemma KeysKept(a: seq<Scope>, b: seq<Scope>)
    requires |a| <= |b| && forall i :: 0 <= i < |a| ==> a[i].Keys <= b[i].Keys
    ensures LookupKept(a, b)
  {
    forall n | Lookup(a, n).Some?
      ensures Lookup(b, n).Some?
    {
      var i := |a| - 1 - Lookup(a, n).value;
      assert n in b[i];
    }
  }

  lemma KeptThen(a: seq<Scope>, b: seq<Scope>, c: seq<Scope>)
    requires LookupKept(a, b) && LookupKept(b, c)
    ensures LookupKept(a, c)
  {
  }

  lemma PushKept(scopes: seq<Scope>, s: Scope)
    ensures LookupKept(scopes, scopes + [s])
  {
    KeysKept(scopes, scopes + [s]);
  }

  /** `declare` and `define` only add to the innermost scope. */
  lemma MarkKept(st: RState, name: Token, done: bool)
    ensures LookupKept(st.scopes, Mark(st, name, done).scopes)
  {
    var r := Mark(st, name, done);
    if |st.scopes| > 0 {
      forall i | 0 <= i < |st.scopes|
        ensures st.scopes[i].Keys <= r.scopes[i].Keys
      {
        if i < |st.scopes| - 1 {
          assert st.scopes[i] == st.scopes[..|st.scopes| - 1][i];
          assert r.scopes[i] == r.scopes[..|r.scopes| - 1][i];
        }
      }
      KeysKept(st.scopes, r.scopes);
    }
  }

  lemma ParamsKept(params: seq<Token>, st: RState)
    requires |st.scopes| > 0
    ensures LookupKept(st.scopes, DefineParams(params, st).scopes)
    decreases |params|
  {
    if |params| > 0 {
      var s1 := Define(Declare(st, params[0]), params[0]);
      MarkKept(st, params[0], false);
      MarkKept(Declare(st, params[0]), params[0], true);
      ParamsKept(params[1..], s1);
    }
  }

  /** Resolving a statement adds or changes entries only for the ids of its references,
      gives an entry to every one of its references that a scope holds when it starts,
      and drops no name from any scope. */
  lemma {:induction false} StmtCovers(s: Stmt, st: RState)
    ensures var r := ResolveStmt(s, st);
            && Covers(st.locals, r.locals, StmtRefs(s, st.classType != NoClass), st.scopes)
            && LookupKept(st.scopes, r.scopes)
    decreases s, 2
  {
    match s
    case Block(ss) => BlockCovers(ss, st);
    case Class(name, superclass, methods) => ClassCovers(s, st);
    case Expression(e) =>
      ResolveExprRecords(e, st);
      RecordsCover(st.locals, ResolveExpr(e, st).locals, Refs(e, st.classType != NoClass), st.scopes);
    case Function(decl) =>
      var st1 := Define(Declare(st, decl.name), decl.name);
      MarkKept(st, decl.name, false);
      MarkKept(Declare(st, decl.name), decl.name, true);
      FunctionCovers(decl, PlainFunction, st1);
      CoversFrom(st.locals, ResolveStmt(s, st).locals, StmtRefs(s, st.classType != NoClass), st.scopes, st1.scopes);
    case If(_, _, _) => IfCovers(s, st);
    case Print(e) =>
      ResolveExprRecords(e, st);
      RecordsCover(st.locals, ResolveExpr(e, st).locals, Refs(e, st.classType != NoClass), st.scopes);
    case Return(keyword, value) =>
      if value.Some? {
        var st1 := st.(errors := st.errors + ReturnErrors(st.fnType, keyword, value));
        ResolveExprRecords(value.value, st1);
        RecordsCover(st.locals, ResolveExpr(value.value, st1).locals, Refs(value.value, st.classType != NoClass), st.scopes);
      }
    case Var(_, _) => VarCovers(s, st);
    case While(_, _) => WhileCovers(s, st);
  }

  lemma {:induction false} VarCovers(s: Stmt, st: RState)
    requires s.Var?
    ensures var r := ResolveStmt(s, st);
            && Covers(st.locals, r.locals, StmtRefs(s, st.classType != NoClass), st.scopes)
            && LookupKept(st.scopes, r.scopes)
  {
    var st1 := Declare(st, s.name);
    MarkKept(st, s.name, false);
    var st2 := if s.initializer.Some? then ResolveExpr(s.initializer.value, st1) else st1;
    MarkKept(st2, s.name, true);
    KeptThen(st.scopes, st1.scopes, Define(st2, s.name).scopes);
    if s.initializer.Some? {
      ResolveExprRecords(s.initializer.value, st1);
      RecordsCover(st.locals, st2.locals, Refs(s.initializer.value, st.classType != NoClass), st1.scopes);
    }
  }

  lemma {:induction false} IfCovers(s: Stmt, st: RState)
    requires s.If?
    ensures var r := ResolveStmt(s, st);
            && Covers(st.locals, r.locals, StmtRefs(s, st.classType != NoClass), st.scopes)
            && LookupKept(st.scopes, r.scopes)
    decreases s, 1
  {
    var c := st.classType != NoClass;
    var s1 := ResolveExpr(s.condition, st);
    ResolveExprRecords(s.condition, st);
    RecordsCover(st.locals, s1.locals, Refs(s.condition, c), st.scopes);
    var s2 := ResolveStmt(s.thenBranch, s1);
    StmtCovers(s.thenBranch, s1);
    CoversThen(st.locals, s1.locals, s2.locals, Refs(s.condition, c), StmtRefs(s.thenBranch, c), st.scopes);
    if s.elseBranch.Some? {
      var s3 := ResolveStmt(s.elseBranch.value, s2);
      StmtCovers(s.elseBranch.value, s2);
      CoversFrom(s2.locals, s3.locals, StmtRefs(s.elseBranch.value, c), st.scopes, s2.scopes);
      CoversThen(st.locals, s2.locals, s3.locals, Refs(s.condition, c) + StmtRefs(s.thenBranch, c),
                 StmtRefs(s.elseBranch.value, c), st.scopes);
      KeptThen(st.scopes, s2.scopes, s3.scopes);
    }
  }

  lemma {:induction false} WhileCovers(s: Stmt, st: RState)
    requires s.While?
    ensures var r := ResolveStmt(s, st);
            && Covers(st.locals, r.locals, StmtRefs(s, st.classType != NoClass), st.scopes)
            && LookupKept(st.scopes, r.scopes)
    decreases s, 1
  {
    var c := st.classType != NoClass;
    var s1 := ResolveExpr(s.condition, st);
    ResolveExprRecords(s.condition, st);
    RecordsCover(st.locals, s1.locals, Refs(s.condition, c), st.scopes);
    StmtCovers(s.body, s1);
    CoversThen(st.locals, s1.locals, ResolveStmt(s.body, s1).locals, Refs(s.condition, c), StmtRefs(s.body, c), st.scopes);
  }

  lemma {:induction false} StmtsCovers(ss: seq<Stmt>, st: RState)
    ensures var r := ResolveStmts(ss, st);
            && Covers(st.locals, r.locals, StmtsRefs(ss, st.classType != NoClass), st.scopes)
            && LookupKept(st.scopes, r.scopes)
    decreases ss, 1
  {
    if |ss| > 0 {
      var c := st.classType != NoClass;
      var s1 := ResolveStmt(ss[0], st);
      var r := ResolveStmts(ss[1..], s1);
      StmtCovers(ss[0], st);
      StmtsCovers(ss[1..], s1);
      CoversFrom(s1.locals, r.locals, StmtsRefs(ss[1..], c), st.scopes, s1.scopes);
      CoversThen(st.locals, s1.locals, r.locals, StmtRefs(ss[0], c), StmtsRefs(ss[1..], c), st.scopes);
      KeptThen(st.scopes, s1.scopes, r.scopes);
    }
  }

  /** A block's references are covered under the scopes outside it. */
  lemma {:induction false} BlockCovers(ss: seq<Stmt>, st: RState)
    ensures Covers(st.locals, ResolveBlock(ss, st).locals, StmtsRefs(ss, st.classType != NoClass), st.scopes)
    decreases ss, 2
  {
    var b := BeginScope(st);
    StmtsCovers(ss, b);
    PushKept(st.scopes, map[]);
    CoversFrom(st.locals, ResolveStmts(ss, b).locals, StmtsRefs(ss, st.classType != NoClass), st.scopes, b.scopes);
  }

  lemma {:induction false} FunctionCovers(decl: FunDecl, kind: FunctionType, st: RState)
    ensures Covers(st.locals, ResolveFunction(decl, kind, st).locals, StmtsRefs(decl.body, st.classType != NoClass), st.scopes)
    decreases decl, 2
  {
    var s1 := BeginScope(st.(fnType := kind));
    var s2 := DefineParams(decl.params, s1);
    PushKept(st.scopes, map[]);
    ParamsKept(decl.params, s1);
    KeptThen(st.scopes, s1.scopes, s2.scopes);
    StmtsCovers(decl.body, s2);
    CoversFrom(st.locals, ResolveStmts(decl.body, s2).locals, StmtsRefs(decl.body, st.classType != NoClass), st.scopes, s2.scopes);
  }

  lemma {:induction false} MethodsCovers(methods: seq<FunDecl>, st: RState)
    ensures Covers(st.locals, ResolveMethods(methods, st).locals, MethodsRefs(methods, st.classType != NoClass), st.scopes)
    decreases methods, 1
  {
    if |methods| > 0 {
      var c := st.classType != NoClass;
      var kind := if methods[0].name.lexeme == "init" then Initializer else Method;
      var s1 := ResolveFunction(methods[0], kind, st);
      FunctionCovers(methods[0], kind, st);
      MethodsCovers(methods[1..], s1);
      CoversThen(st.locals, s1.locals, ResolveMethods(methods[1..], s1).locals,
                 StmtsRefs(methods[0].body, c), MethodsRefs(methods[1..], c), st.scopes);
    }
  }

  /** A class declaration: the superclass is resolved in the enclosing scope, where the
      class name is now defined, and the methods under the `super` and `this` scopes. */
  lemma {:induction false} ClassCovers(s: Stmt, st: RState)
    requires s.Class?
    ensures var r := ResolveStmt(s, st);
            && Covers(st.locals, r.locals, StmtRefs(s, st.classType != NoClass), st.scopes)
            && LookupKept(st.scopes, r.scopes)
    decreases s, 1
  {
    var name, superclass, methods := s.name, s.superclass, s.methods;
    var st1 := Define(Declare(st.(classType := PlainClass), name), name);
    MarkKept(st.(classType := PlainClass), name, false);
    MarkKept(Declare(st.(classType := PlainClass), name), name, true);
    var selfInherit := superclass.Some? && superclass.value.name.lexeme == name.lexeme;
    var st2 := if selfInherit then Report(st1, superclass.value.name, "A class cannot inherit from itself.") else st1;
    var st3 :=
      if superclass.Some? then
        var x := ResolveExpr(superclass.value, st2.(classType := Subclass));
        x.(scopes := x.scopes + [map["super" := true]])
      else st2;
    var st4 := st3.(scopes := st3.scopes + [map["this" := true]]);
    var st5 := ResolveMethods(methods, st4);
    ClassSteps(s, st, st1, st3, st4);
    var st6 := EndScope(st5);
    var st7 := if superclass.Some? then EndScope(st6) else st6;
    assert st6.scopes == st3.scopes;
    assert st7.scopes == st1.scopes;
    assert ResolveStmt(s, st) == st7.(classType := st.classType);
    MethodsCovers(methods, st4);
    CoversFrom(st4.locals, st5.locals, MethodsRefs(methods, true), st.scopes, st4.scopes);
    var sup := if superclass.Some? then Refs(superclass.value, true) else {};
    if superclass.Some? {
      ResolveExprRecords(superclass.value, st2.(classType := Subclass));
      RecordsCover(st.locals, st3.locals, sup, st1.scopes);
    }
    CoversThen(st.locals, st3.locals, st5.locals, sup, MethodsRefs(methods, true), st.scopes);
  }

  /** The scopes a class declaration goes through: the enclosing ones with the class
      name defined, then `super` when there is a superclass, then `this`; and what is
      left afterwards. */
  lemma ClassSteps(s: Stmt, st: RState, st1: RState, st3: RState, st4: RState)
    requires s.Class?
    requires st1 == Define(Declare(st.(classType := PlainClass), s.name), s.name)
    requires LookupKept(st.scopes, st1.scopes)
    requires st3.scopes == (if s.superclass.Some? then st1.scopes + [map["super" := true]] else st1.scopes)
    requires st4 == st3.(scopes := st3.scopes + [map["this" := true]])
    ensures LookupKept(st.scopes, st4.scopes)
  {
    PushKept(st1.scopes, map["super" := true]);
    PushKept(st3.scopes, map["this" := true]);
    if s.superclass.Some? {
      KeptThen(st.scopes, st1.scopes, st3.scopes);
    }
    KeptThen(st.scopes, st3.scopes, st4.scopes);
  }

  /** An expression statement, and a `print`, record exactly what their expression
      records. */
  lemma ExpressionStmtRecords(s: Stmt, st: RState)
    requires s.Expression? || s.Print?
    ensures Records(st.locals, ResolveStmt(s, st).locals, Refs(s.expression, st.classType != NoClass), st.scopes)
  {
    ResolveExprRecords(s.expression, st);
  }

  /** Inside a block, an expression statement records under the block's new scope, so
      every local distance is one more than outside (see `LookupPush`). */
  lemma BlockExpressionRecords(e: Expr, st: RState)
    ensures Records(st.locals, ResolveStmt(Block([Expression(e)]), st).locals,
                    Refs(e, st.classType != NoClass), st.scopes + [map[]])
  {
    var b := BeginScope(st);
    ResolveExprRecords(e, b);
    OneStmt(Expression(e), b);
    assert ResolveStmt(Block([Expression(e)]), st).locals == ResolveExpr(e, b).locals;
  }

  lemma OneStmt(s: Stmt, st: RState)
    ensures ResolveStmts([s], st) == ResolveStmt(s, st)
  {
    assert [s][1..] == [];
  }

  /** The side table of a whole program holds entries only for ids of its references:
      nothing is recorded at global level that the program does not refer to. */
  lemma ResolveRecordsOnlyRefs(program: seq<Stmt>)
    ensures forall k :: k in Resolve(program).locals ==> k in IdsOf(StmtsRefs(program, false))
  {
    StmtsCovers(program, RState([], NoFunction, NoClass, map[], []));
  }
}
