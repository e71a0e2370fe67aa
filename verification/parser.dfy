/** The recursive-descent parser (src/com/sabino/lox/Parser.kt). Every grammar function is a
    pure function of the token list and a parser state (cursor plus the errors reported so
    far). A thrown `ParserError` is the `Fail` outcome; it carries the state at the throw,
    whose last error is the one reported. Termination: every grammar function either
    consumes a token before recursing or calls a function of lower rank at the same
    cursor, so the pair (tokens left, rank) decreases. */
module Parser {
  import opened Wrappers
  import opened Tokens
  import opened Ast

  datatype ParseError = ParseError(token: Token, message: string)

  datatype PState = PState(pos: nat, errors: seq<ParseError>)

  /** Outcome of a grammar function: a value and the state after it, or a `ParserError`
      thrown with the state at that point. */
  datatype Parsed<+T> = Ok(value: T, st: PState) | Fail(st: PState)

  /** The outcome of `declaration`, which never throws: the statement when one parsed. */
  datatype Recovered = Recovered(stmt: Option<Stmt>, st: PState)

  datatype Program = Program(statements: seq<Stmt>, errors: seq<ParseError>)

  /** What the scanner hands over: a non-empty list whose last token is EOF. */
  predicate Valid(ts: seq<Token>) {
    |ts| > 0 && ts[|ts| - 1].kind == EOF
  }

  predicate At(ts: seq<Token>, st: PState) {
    Valid(ts) && st.pos < |ts|
  }

  /** `st'` may follow `st`: the cursor never moves back or past the last token, and
      reported errors are never withdrawn. */
  predicate Follows(ts: seq<Token>, st: PState, st': PState) {
    st.pos <= st'.pos < |ts| && st.errors <= st'.errors
  }

  /** Common contract of a grammar function: it only moves forward, and a thrown
      `ParserError` has always been reported first. */
  predicate Moves<T>(ts: seq<Token>, st: PState, r: Parsed<T>) {
    Follows(ts, st, r.st) && (r.Fail? ==> |r.st.errors| > |st.errors|)
  }

  // ---------------------------------------------------------------------------
  // Precedence and the shape of parsed expressions

  /** Binding level of a binary or logical operator, from `or` (2) to `*` and `/` (7);
      0 for a token that is not one. */
  function OperatorLevel(kind: TokenType): nat {
    match kind
    case OR => 2
    case AND => 3
    case BANG_EQUAL => 4
    case EQUAL_EQUAL => 4
    case GREATER => 5
    case GREATER_EQUAL => 5
    case LESS => 5
    case LESS_EQUAL => 5
    case MINUS => 6
    case PLUS => 6
    case SLASH => 7
    case STAR => 7
    case _ => 0
  }

  /** Binding level of the node at the top of `e`: 1 for assignment, 2 to 7 for the
      binary levels, 8 for unary, 9 for calls, property access and primaries. */
  function Prec(e: Expr): nat {
    match e
    case Assign(_, _, _) => 1
    case Set(_, _, _) => 1
    case Logical(_, op, _) => OperatorLevel(op.kind)
    case Binary(_, op, _) => OperatorLevel(op.kind)
    case Unary(_, _) => 8
    case _ => 9
  }

  /** `e` is a tree the grammar can produce: logical nodes use `and`/`or`, binary nodes
      the operators of levels 4 to 7; a binary or logical node's left operand binds at
      least as tightly as the node and its right operand strictly more tightly (so
      chains nest to the left); unary and assignment nest to the right; callees and
      property targets are postfix-level expressions. A `Grouping` resets the level. */
  predicate WellNested(e: Expr) {
    match e
    case Assign(_, _, v) => Prec(v) >= 1 && WellNested(v)
    case Set(o, _, v) => Prec(o) == 9 && Prec(v) >= 1 && WellNested(o) && WellNested(v)
    case Logical(l, op, r) =>
      && 2 <= OperatorLevel(op.kind) <= 3
      && Prec(l) >= OperatorLevel(op.kind) && Prec(r) > OperatorLevel(op.kind)
      && WellNested(l) && WellNested(r)
    case Binary(l, op, r) =>
      && 4 <= OperatorLevel(op.kind) <= 7
      && Prec(l) >= OperatorLevel(op.kind) && Prec(r) > OperatorLevel(op.kind)
      && WellNested(l) && WellNested(r)
    case Unary(op, r) => (op.kind == BANG || op.kind == MINUS) && Prec(r) >= 8 && WellNested(r)
    case Call(c, _, args) => Prec(c) == 9 && WellNested(c) && forall a :: a in args ==> WellNested(a)
    case Get(o, _) => Prec(o) == 9 && WellNested(o)
    case Grouping(inner) => WellNested(inner)
    case _ => true
  }

  /** Every expression inside the statement is well nested. */
  predicate WellFormed(s: Stmt) {
    match s
    case Block(ss) => forall s' :: s' in ss ==> WellFormed(s')
    case Class(_, _, ms) => forall m :: m in ms ==> WellFormedFun(m)
    case Expression(e) => WellNested(e)
    case Function(d) => WellFormedFun(d)
    case If(c, t, e) => WellNested(c) && WellFormed(t) && (e.Some? ==> WellFormed(e.value))
    case Print(e) => WellNested(e)
    case Return(_, v) => v.Some? ==> WellNested(v.value)
    case Var(_, i) => i.Some? ==> WellNested(i.value)
    case While(c, b) => WellNested(c) && WellFormed(b)
  }

  predicate WellFormedFun(d: FunDecl) {
    forall s :: s in d.body ==> WellFormed(s)
  }

  /** Contract of an expression-level grammar function of binding level `level`. */
  predicate ExprParsed(ts: seq<Token>, st: PState, r: Parsed<Expr>, level: nat) {
    && Moves(ts, st, r)
    && (r.Ok? ==> r.st.pos > st.pos && WellNested(r.value) && Prec(r.value) >= level)
  }

  /** Contract of a statement-level grammar function. */
  predicate StmtParsed(ts: seq<Token>, st: PState, r: Parsed<Stmt>) {
    Moves(ts, st, r) && (r.Ok? ==> r.st.pos > st.pos && WellFormed(r.value))
  }

  // ---------------------------------------------------------------------------
  // Cursor primitives (Parser.kt:472-519)

  predicate IsAtEnd(ts: seq<Token>, st: PState)
    requires st.pos < |ts|
  {
    ts[st.pos].kind == EOF
  }

  function Peek(ts: seq<Token>, st: PState): Token
    requires st.pos < |ts|
  {
    ts[st.pos]
  }

  /** `check`: the next token has the given kind; never true at EOF. */
  predicate Check(ts: seq<Token>, st: PState, kind: TokenType)
    requires st.pos < |ts|
  {
    !IsAtEnd(ts, st) && Peek(ts, st).kind == kind
  }

  /** `advance`: moves the cursor by one token unless it is on EOF. */
  function Advance(ts: seq<Token>, st: PState): (r: PState)
    requires At(ts, st)
    ensures r.errors == st.errors && r.pos < |ts|
    ensures IsAtEnd(ts, st) ==> r.pos == st.pos
    ensures !IsAtEnd(ts, st) ==> r.pos == st.pos + 1
  {
    if IsAtEnd(ts, st) then st else PState(st.pos + 1, st.errors)
  }

  /** `error`: reports at `token` and leaves the cursor where it is. */
  function Report(st: PState, token: Token, message: string): (r: PState) {
    PState(st.pos, st.errors + [ParseError(token, message)])
  }

  /** `consume`: takes the next token if it has the expected kind, otherwise reports
      `message` at the next token and throws. */
  function Consume(ts: seq<Token>, st: PState, kind: TokenType, message: string): (r: Parsed<Token>)
    requires At(ts, st)
    ensures r.Ok? <==> Check(ts, st, kind)
    ensures IsAtEnd(ts, st) ==> r.Fail?
    ensures r.Ok? ==> r.value == ts[st.pos] && r.st == PState(st.pos + 1, st.errors)
    ensures r.Fail? ==> r.st == PState(st.pos, st.errors + [ParseError(ts[st.pos], message)])
  {
    if Check(ts, st, kind) then Ok(Peek(ts, st), Advance(ts, st))
    else Fail(Report(st, Peek(ts, st), message))
  }

  /** The keywords before which `synchronize` stops (Parser.kt:526). */
  predicate StartsStatement(kind: TokenType) {
    kind in {CLASS, FUN, VAR, FOR, IF, WHILE, PRINT, RETURN}
  }

  /** Position `p` is where `synchronize` may stop: EOF, just after a `;`, or before a
      keyword that starts a statement. */
  predicate Boundary(ts: seq<Token>, p: nat)
    requires 1 <= p < |ts|
  {
    ts[p].kind == EOF || ts[p - 1].kind == SEMICOLON || StartsStatement(ts[p].kind)
  }

  /** `synchronize` (Parser.kt:521-532): discards the current token, then tokens up to a
      statement boundary. It stops at the first boundary after the current token, or on
      the current token when that is EOF. */
  function Synchronize(ts: seq<Token>, st: PState): (r: PState)
    requires At(ts, st)
    ensures r.errors == st.errors && st.pos <= r.pos < |ts|
    ensures IsAtEnd(ts, st) ==> r.pos == st.pos
    ensures !IsAtEnd(ts, st) ==> r.pos > st.pos && Boundary(ts, r.pos)
    ensures forall k :: st.pos < k < r.pos ==> !Boundary(ts, k)
  {
    if IsAtEnd(ts, st) then st else SkipToBoundary(ts, Advance(ts, st))
  }

  function SkipToBoundary(ts: seq<Token>, st: PState): (r: PState)
    requires At(ts, st) && st.pos >= 1
    ensures r.errors == st.errors && st.pos <= r.pos < |ts|
    ensures Boundary(ts, r.pos)
    ensures forall k :: st.pos <= k < r.pos ==> !Boundary(ts, k)
    decreases |ts| - st.pos
  {
    if Boundary(ts, st.pos) then st
    else SkipToBoundary(ts, PState(st.pos + 1, st.errors))
  }

  // ---------------------------------------------------------------------------
  // Expressions (Parser.kt:306-460)

  /** `expression` (Parser.kt:306-308). */
  function ParseExpression(ts: seq<Token>, st: PState): (r: Parsed<Expr>)
    requires At(ts, st)
    ensures ExprParsed(ts, st, r, 1)
    decreases |ts| - st.pos, 100
  {
    Assignment(ts, st)
  }

  /** `assignment` (Parser.kt:310-325): a `Variable` target becomes `Assign`, a `Get`
      target becomes `Set`, and any other target is reported without throwing, the left
      expression being kept. The right side is itself an assignment. */
  function Assignment(ts: seq<Token>, st: PState): (r: Parsed<Expr>)
    requires At(ts, st)
    ensures ExprParsed(ts, st, r, 1)
    decreases |ts| - st.pos, 99
  {
    var left := Level(ts, st, 2);
    if left.Fail? || !Check(ts, left.st, EQUAL) then left
    else
      var equals := Peek(ts, left.st);
      var value := Assignment(ts, Advance(ts, left.st));
      if value.Fail? then value else AssignTarget(left.value, equals, value.value, value.st)
  }

  /** The target check of `assignment`: only a variable or a property can be assigned;
      any other target is reported and the left side returned, without throwing. */
  function AssignTarget(left: Expr, equals: Token, value: Expr, st: PState): (r: Parsed<Expr>)
    requires WellNested(left) && Prec(left) >= 1 && WellNested(value) && Prec(value) >= 1
    ensures r.Ok? && WellNested(r.value) && Prec(r.value) >= 1
    ensures r.st.pos == st.pos && st.errors <= r.st.errors
    ensures left.Variable? ==> r.value == Assign(left.id, left.name, value) && r.st == st
    ensures left.Get? ==> r.value == Set(left.obj, left.name, value) && r.st == st
    ensures !left.Variable? && !left.Get? ==>
      r.value == left && r.st == PState(st.pos, st.errors + [ParseError(equals, "Invalid assignment target.")])
  {
    match left
    case Variable(id, name) => Ok(Assign(id, name, value), st)
    case Get(obj, name) => Ok(Set(obj, name, value), st)
    case _ => Ok(left, Report(st, equals, "Invalid assignment target."))
  }

  /** An assignment that parsed is the `or` level's expression when no `=` follows it;
      otherwise it is `AssignTarget` applied to that expression and to the assignment
      parsed after the `=`, and it throws exactly when that right side does. */
  lemma AssignmentParts(ts: seq<Token>, st: PState)
    requires At(ts, st)
    ensures var r := Assignment(ts, st);
            var left := Level(ts, st, 2);
            && (left.Fail? ==> r == left)
            && (left.Ok? && !Check(ts, left.st, EQUAL) ==> r == left)
            && (left.Ok? && Check(ts, left.st, EQUAL) ==>
                  var value := Assignment(ts, Advance(ts, left.st));
                  && (value.Fail? ==> r == value)
                  && (value.Ok? ==> r == AssignTarget(left.value, ts[left.st.pos], value.value, value.st)))
  {
  }

  /** The operators of binary level `level` (2 = `or` ... 7 = `*` `/`). */
  function LevelOperators(level: nat): set<TokenType> {
    if level == 2 then {OR}
    else if level == 3 then {AND}
    else if level == 4 then {BANG_EQUAL, EQUAL_EQUAL}
    else if level == 5 then {GREATER, GREATER_EQUAL, LESS, LESS_EQUAL}
    else if level == 6 then {MINUS, PLUS}
    else {SLASH, STAR}
  }

  /** One binary level: `or` (Parser.kt:327-336), `and` (:338-348), `equality`
      (:350-360), `comparison` (:362-370), `addition` (:372-380) or `multiplication`
      (:382-390). The operand is the next level up (`unary` after level 7); `or` and `and`
      build `Logical` nodes, the others `Binary` nodes. */
  function Level(ts: seq<Token>, st: PState, level: nat): (r: Parsed<Expr>)
    requires At(ts, st) && 2 <= level <= 7
    ensures ExprParsed(ts, st, r, level)
    decreases |ts| - st.pos, 90 - 2 * level
  {
    var first := Operand(ts, st, level);
    if first.Fail? then first else LevelRest(ts, first.value, first.st, level)
  }

  function Operand(ts: seq<Token>, st: PState, level: nat): (r: Parsed<Expr>)
    requires At(ts, st) && 2 <= level <= 7
    ensures ExprParsed(ts, st, r, level + 1)
    decreases |ts| - st.pos, 89 - 2 * level
  {
    if level == 7 then UnaryExpr(ts, st) else Level(ts, st, level + 1)
  }

  /** The `while (match(...))` loop of a binary level: folds each further operand into
      the tree on the right of what was built so far. */
  function LevelRest(ts: seq<Token>, left: Expr, st: PState, level: nat): (r: Parsed<Expr>)
    requires At(ts, st) && 2 <= level <= 7
    requires WellNested(left) && Prec(left) >= level
    ensures Moves(ts, st, r)
    ensures r.Ok? ==> WellNested(r.value) && Prec(r.value) >= level
    decreases |ts| - st.pos, 89 - 2 * level
  {
    if !IsAtEnd(ts, st) && Peek(ts, st).kind in LevelOperators(level) then
      var op := Peek(ts, st);
      var right := Operand(ts, Advance(ts, st), level);
      if right.Fail? then right
      else
        LevelRest(ts, LevelNode(left, op, right.value, level), right.st, level)
    else Ok(left, st)
  }

  /** A binary level is its first operand followed by the loop over its operators. */
  lemma LevelParts(ts: seq<Token>, st: PState, level: nat)
    requires At(ts, st) && 2 <= level <= 7
    ensures var first := if level == 7 then UnaryExpr(ts, st) else Level(ts, st, level + 1);
            var r := Level(ts, st, level);
            && (first.Fail? ==> r == first)
            && (first.Ok? ==> r == LevelRest(ts, first.value, first.st, level))
  {
  }

  /** One round of a binary level's loop: an operator of the level, then an operand one
      level up, are folded into the node `LevelNode` builds, and the loop goes on after
      the operand; at any other token the loop stops with what it has built. */
  lemma LevelRestParts(ts: seq<Token>, left: Expr, st: PState, level: nat)
    requires At(ts, st) && 2 <= level <= 7
    requires WellNested(left) && Prec(left) >= level
    ensures var r := LevelRest(ts, left, st, level);
            && (!(!IsAtEnd(ts, st) && ts[st.pos].kind in LevelOperators(level)) ==> r == Ok(left, st))
            && (!IsAtEnd(ts, st) && ts[st.pos].kind in LevelOperators(level) ==>
                  var right := Operand(ts, Advance(ts, st), level);
                  && (right.Fail? ==> r == right)
                  && (right.Ok? ==>
                        r == LevelRest(ts, LevelNode(left, ts[st.pos], right.value, level), right.st, level)))
  {
  }

  /** The node one round of a binary level builds: `or` and `and` make a `Logical`
      node, the other levels a `Binary` one. */
  function LevelNode(left: Expr, op: Token, right: Expr, level: nat): (e: Expr)
    requires 2 <= level <= 7 && op.kind in LevelOperators(level)
    requires WellNested(left) && Prec(left) >= level && WellNested(right) && Prec(right) > level
    ensures WellNested(e) && Prec(e) == level
    ensures e.Logical? <==> level <= 3
    ensures e.Logical? || e.Binary?
    ensures e.left == left && e.operator == op && e.right == right
  {
    if level <= 3 then Logical(left, op, right) else Binary(left, op, right)
  }

  /** `unary` (Parser.kt:392-399): `!` and `-` nest to the right. */
  function UnaryExpr(ts: seq<Token>, st: PState): (r: Parsed<Expr>)
    requires At(ts, st)
    ensures ExprParsed(ts, st, r, 8)
    decreases |ts| - st.pos, 70
  {
    if Check(ts, st, BANG) || Check(ts, st, MINUS) then PrefixNode(Peek(ts, st), UnaryExpr(ts, Advance(ts, st)))
    else CallExpr(ts, st)
  }

  /** A `!` or `-` makes a `Unary` node over the unary expression after it, with the
      operator token; without one the result is the call expression at the cursor. */
  lemma UnaryParts(ts: seq<Token>, st: PState)
    requires At(ts, st)
    ensures var r := UnaryExpr(ts, st);
            && (Check(ts, st, BANG) || Check(ts, st, MINUS) ==>
                  var right := UnaryExpr(ts, Advance(ts, st));
                  && (r.Ok? <==> right.Ok?) && r.st == right.st
                  && (r.Ok? ==> r.value == Unary(ts[st.pos], right.value)))
            && (!Check(ts, st, BANG) && !Check(ts, st, MINUS) ==> r == CallExpr(ts, st))
  {
  }

  /** The `Unary` node over an operand already parsed, or the operand's failure. */
  function PrefixNode(op: Token, right: Parsed<Expr>): (r: Parsed<Expr>)
    requires op.kind == BANG || op.kind == MINUS
    requires right.Ok? ==> WellNested(right.value) && Prec(right.value) >= 8
    ensures r.st == right.st && r.Ok? == right.Ok?
    ensures r.Ok? ==> r.value == Unary(op, right.value) && WellNested(r.value) && Prec(r.value) == 8
  {
    if right.Fail? then right else Ok(Unary(op, right.value), right.st)
  }

  /** `call` (Parser.kt:401-414): a primary followed by any number of `(...)` and
      `.name` suffixes, folded to the left. */
  function CallExpr(ts: seq<Token>, st: PState): (r: Parsed<Expr>)
    requires At(ts, st)
    ensures ExprParsed(ts, st, r, 9)
    ensures r.Ok? ==> Primary(ts, st).Ok? && PostfixBase(r.value) == Primary(ts, st).value
    decreases |ts| - st.pos, 69
  {
    var p := Primary(ts, st);
    if p.Fail? then p else CallRest(ts, p.value, p.st)
  }

  /** A call expression that parsed is the suffix loop run over the primary at the
      cursor. */
  lemma CallExprParts(ts: seq<Token>, st: PState)
    requires At(ts, st)
    ensures var r := CallExpr(ts, st);
            var p := Primary(ts, st);
            && (p.Fail? ==> r == p)
            && (p.Ok? ==> r == CallRest(ts, p.value, p.st))
  {
  }

  /** The expression a chain of calls and property accesses starts from. */
  function PostfixBase(e: Expr): Expr {
    match e
    case Call(callee, _, _) => PostfixBase(callee)
    case Get(obj, _) => PostfixBase(obj)
    case _ => e
  }

  /** The suffix loop of `call`: each `(...)` or `.name` wraps everything parsed so far,
      so the chain folds to the left over the primary it starts from. */
  function CallRest(ts: seq<Token>, callee: Expr, st: PState): (r: Parsed<Expr>)
    requires At(ts, st) && WellNested(callee) && Prec(callee) == 9
    ensures Moves(ts, st, r)
    ensures r.Ok? ==> WellNested(r.value) && Prec(r.value) == 9
    ensures r.Ok? && r.st.pos == st.pos ==> r.value == callee
    ensures r.Ok? ==> PostfixBase(r.value) == PostfixBase(callee)
    decreases |ts| - st.pos, 68
  {
    if Check(ts, st, LEFT_PAREN) then
      var call := FinishCall(ts, callee, Advance(ts, st));
      if call.Fail? then call else CallRest(ts, call.value, call.st)
    else if Check(ts, st, DOT) then
      var name := Consume(ts, Advance(ts, st), IDENTIFIER, "Expect property name after '.'.");
      if name.Fail? then Fail(name.st) else CallRest(ts, Get(callee, name.value), name.st)
    else Ok(callee, st)
  }

  /** One round of the suffix loop: `(` wraps the expression so far in the call
      `FinishCall` builds, `.` followed by a name wraps it in a `Get` of that name, and
      the loop goes on after the suffix; any other token ends the loop. */
  lemma CallRestParts(ts: seq<Token>, callee: Expr, st: PState)
    requires At(ts, st) && WellNested(callee) && Prec(callee) == 9
    ensures var r := CallRest(ts, callee, st);
            && (Check(ts, st, LEFT_PAREN) ==>
                  var call := FinishCall(ts, callee, Advance(ts, st));
                  && (call.Fail? ==> r == Fail(call.st))
                  && (call.Ok? ==> r == CallRest(ts, call.value, call.st)))
            && (Check(ts, st, DOT) ==>
                  var name := Consume(ts, Advance(ts, st), IDENTIFIER, "Expect property name after '.'.");
                  && (name.Fail? ==> r == Fail(name.st))
                  && (name.Ok? ==> name.value == ts[st.pos + 1] && r == CallRest(ts, Get(callee, ts[st.pos + 1]), name.st)))
            && (!Check(ts, st, LEFT_PAREN) && !Check(ts, st, DOT) ==> r == Ok(callee, st))
  {
  }

  /** `finishCall` (Parser.kt:416-428), entered after the `(`. */
  function FinishCall(ts: seq<Token>, callee: Expr, st: PState): (r: Parsed<Expr>)
    requires At(ts, st) && WellNested(callee) && Prec(callee) == 9
    ensures Moves(ts, st, r)
    ensures r.Ok? ==> r.st.pos > st.pos && WellNested(r.value)
    ensures var args := ArgumentList(ts, st);
            r.Ok? <==> args.Ok? && ts[args.st.pos].kind == RIGHT_PAREN
    ensures var args := ArgumentList(ts, st);
            r.Ok? ==>
              && r.st.pos == args.st.pos + 1 && r.st.errors == args.st.errors
              && r.value == Call(callee, ts[args.st.pos], args.value)
    decreases |ts| - st.pos, 103
  {
    var args := ArgumentList(ts, st);
    if args.Fail? then Fail(args.st)
    else
      var paren := Consume(ts, args.st, RIGHT_PAREN, "Expect ')' after arguments.");
      if paren.Fail? then Fail(paren.st) else Ok(Call(callee, paren.value, args.value), paren.st)
  }

  /** The arguments of a call: none when `)` follows at once. */
  function ArgumentList(ts: seq<Token>, st: PState): (r: Parsed<seq<Expr>>)
    requires At(ts, st)
    ensures Moves(ts, st, r)
    ensures r.Ok? ==> forall a :: a in r.value ==> WellNested(a)
    ensures r.Ok? && r.value == [] <==> Check(ts, st, RIGHT_PAREN)
    decreases |ts| - st.pos, 102
  {
    if Check(ts, st, RIGHT_PAREN) then Ok([], st) else Arguments(ts, st, [])
  }

  /** Reports `message` at the next token when a list already holds 255 items: the
      report does not throw. */
  function CheckLimit(ts: seq<Token>, st: PState, count: nat, message: string): (r: PState)
    requires st.pos < |ts|
    ensures r.pos == st.pos
    ensures count < 255 ==> r == st
    ensures count >= 255 ==> r.errors == st.errors + [ParseError(ts[st.pos], message)]
  {
    if count >= 255 then Report(st, Peek(ts, st), message) else st
  }

  /** Whether an error with this message has been reported. */
  predicate Reported(errors: seq<ParseError>, message: string) {
    exists k :: 0 <= k < |errors| && errors[k].message == message
  }

  /** The argument loop of `finishCall`: before each argument after the 255th an error is
      reported, without throwing, and the list keeps growing. */
  function Arguments(ts: seq<Token>, st: PState, acc: seq<Expr>): (r: Parsed<seq<Expr>>)
    requires At(ts, st) && forall a :: a in acc ==> WellNested(a)
    ensures Moves(ts, st, r)
    ensures r.Ok? ==> |r.value| > |acc| && r.value[..|acc|] == acc
    ensures r.Ok? ==> forall a :: a in r.value ==> WellNested(a)
    decreases |ts| - st.pos, 101
  {
    var st1 := CheckLimit(ts, st, |acc|, "Cannot have more than 255 arguments.");
    var e := ParseExpression(ts, st1);
    if e.Fail? then Fail(e.st)
    else
      var acc' := acc + [e.value];
      if Check(ts, e.st, COMMA) then
        var rest := Arguments(ts, Advance(ts, e.st), acc');
        assert rest.Ok? ==> rest.value[..|acc|] == acc' [..|acc|];
        rest
      else Ok(acc', e.st)
  }

  /** One round of the argument loop: the argument appended is the expression parsed
      at the cursor, and a `,` after it continues the list. */
  lemma ArgumentsParts(ts: seq<Token>, st: PState, acc: seq<Expr>)
    requires At(ts, st) && forall a :: a in acc ==> WellNested(a)
    ensures var r := Arguments(ts, st, acc);
            var e := ParseExpression(ts, CheckLimit(ts, st, |acc|, "Cannot have more than 255 arguments."));
            r.Ok? ==>
              && e.Ok? && r.value[|acc|] == e.value
              && (Check(ts, e.st, COMMA) ==> r == Arguments(ts, Advance(ts, e.st), acc + [e.value]))
              && (!Check(ts, e.st, COMMA) ==> r == Ok(acc + [e.value], e.st))
  {
    var r := Arguments(ts, st, acc);
    var e := ParseExpression(ts, CheckLimit(ts, st, |acc|, "Cannot have more than 255 arguments."));
    if r.Ok? {
      assert r.value[..|acc| + 1] == acc + [e.value];
    }
  }

  /** An argument list longer than 255 has had the limit reported. */
  lemma {:induction false} ArgumentsReportLimit(ts: seq<Token>, st: PState, acc: seq<Expr>)
    requires At(ts, st) && forall a :: a in acc ==> WellNested(a)
    ensures var r := Arguments(ts, st, acc);
            r.Ok? && |r.value| > 255 ==> Reported(r.st.errors, "Cannot have more than 255 arguments.")
    decreases |ts| - st.pos
  {
    var st1 := CheckLimit(ts, st, |acc|, "Cannot have more than 255 arguments.");
    var e := ParseExpression(ts, st1);
    if e.Ok? {
      if Check(ts, e.st, COMMA) {
        ArgumentsReportLimit(ts, Advance(ts, e.st), acc + [e.value]);
      } else if |acc| >= 255 {
        assert e.st.errors[|st1.errors| - 1].message == "Cannot have more than 255 arguments.";
      }
    }
  }

  /** The same for the whole argument list of a call (Parser.kt:420-423). */
  lemma ArgumentListReportsLimit(ts: seq<Token>, st: PState)
    requires At(ts, st)
    ensures var r := ArgumentList(ts, st);
            r.Ok? && |r.value| > 255 ==> Reported(r.st.errors, "Cannot have more than 255 arguments.")
  {
    if !Check(ts, st, RIGHT_PAREN) {
      ArgumentsReportLimit(ts, st, []);
    }
  }

  /** `primary` (Parser.kt:430-460): literals, `super.name`, `this`, a variable or a
      parenthesised expression; anything else is reported and thrown. A reference node's
      id is the index of its token. */
  function Primary(ts: seq<Token>, st: PState): (r: Parsed<Expr>)
    requires At(ts, st)
    ensures ExprParsed(ts, st, r, 9)
    ensures r.Ok? ==> !r.value.Call? && !r.value.Get?
    decreases |ts| - st.pos, 67
  {
    if Check(ts, st, SUPER) then SuperExpr(ts, Advance(ts, st), Peek(ts, st))
    else if Check(ts, st, LEFT_PAREN) then GroupingExpr(ts, Advance(ts, st))
    else
      match Atom(ts, st)
      case Some(e) => Ok(e, Advance(ts, st))
      case None => Fail(Report(st, Peek(ts, st), "Expected expression"))
  }

  /** Which primary is parsed: `super.name` after `super`, a parenthesized expression
      after `(`, a one-token primary with the cursor moved past its token, and
      otherwise "Expected expression" is reported at the next token and thrown. */
  lemma PrimaryParts(ts: seq<Token>, st: PState)
    requires At(ts, st)
    ensures var r := Primary(ts, st);
            && (Check(ts, st, SUPER) ==> r == SuperExpr(ts, Advance(ts, st), ts[st.pos]))
            && (Check(ts, st, LEFT_PAREN) ==> r == GroupingExpr(ts, Advance(ts, st)))
            && (Atom(ts, st).Some? ==> r == Ok(Atom(ts, st).value, PState(st.pos + 1, st.errors)))
            && (!Check(ts, st, SUPER) && !Check(ts, st, LEFT_PAREN) && Atom(ts, st).None? ==>
                  r == Fail(Report(st, ts[st.pos], "Expected expression")))
  {
  }

  /** The one-token primaries: a literal, `this` or a variable, whose id is the index of
      its token. */
  function Atom(ts: seq<Token>, st: PState): (r: Option<Expr>)
    requires st.pos < |ts|
    ensures r.Some? ==> !IsAtEnd(ts, st) && WellNested(r.value) && Prec(r.value) == 9
    ensures r.Some? <==> IsLiteralToken(ts, st) || Check(ts, st, THIS) || Check(ts, st, IDENTIFIER)
    ensures IsLiteralToken(ts, st) ==> r == Some(Literal(LiteralOf(ts[st.pos])))
    ensures Check(ts, st, THIS) ==> r == Some(This(st.pos, ts[st.pos]))
    ensures Check(ts, st, IDENTIFIER) ==> r == Some(Variable(st.pos, ts[st.pos]))
  {
    var t := Peek(ts, st);
    if IsLiteralToken(ts, st) then Some(Literal(LiteralOf(t)))
    else if Check(ts, st, THIS) then Some(This(st.pos, t))
    else if Check(ts, st, IDENTIFIER) then Some(Variable(st.pos, t))
    else None
  }

  /** The next token is `false`, `true`, `nil`, a number or a string. */
  predicate IsLiteralToken(ts: seq<Token>, st: PState)
    requires st.pos < |ts|
  {
    !IsAtEnd(ts, st) && Peek(ts, st).kind in {FALSE, TRUE, NIL, NUMBER, STRING}
  }

  /** The value of a literal token: `false`, `true` and `nil` are fixed, a number or a
      string carries its value. */
  function LiteralOf(t: Token): LiteralValue {
    match t.kind
    case FALSE => BoolLit(false)
    case TRUE => BoolLit(true)
    case NIL => NilLit
    case _ => t.literal
  }

  /** `super.name`, entered after `super`; the id is the index of the keyword. */
  function SuperExpr(ts: seq<Token>, st: PState, keyword: Token): (r: Parsed<Expr>)
    requires At(ts, st) && st.pos >= 1
    ensures ExprParsed(ts, st, r, 9)
    ensures r.Ok? ==> r.st.pos == st.pos + 2 && r.value == Super(st.pos - 1, keyword, ts[st.pos + 1])
    ensures r.Ok? ==> ts[st.pos].kind == DOT && ts[st.pos + 1].kind == IDENTIFIER
  {
    var dot := Consume(ts, st, DOT, "Expect '.' after super.");
    if dot.Fail? then Fail(dot.st)
    else
      var methodName := Consume(ts, dot.st, IDENTIFIER, "Expect superclass method name.");
      if methodName.Fail? then Fail(methodName.st) else Ok(Super(st.pos - 1, keyword, methodName.value), methodName.st)
  }

  /** `( expression )`, entered after `(`. */
  function GroupingExpr(ts: seq<Token>, st: PState): (r: Parsed<Expr>)
    requires At(ts, st)
    ensures ExprParsed(ts, st, r, 9)
    ensures var inner := ExprThen(ts, st, RIGHT_PAREN, "Expect ')' after expression.");
            && (r.Ok? <==> inner.Ok?)
            && (r.Ok? ==> r.value == Grouping(inner.value) && r.st == inner.st)
    decreases |ts| - st.pos, 102
  {
    var inner := ExprThen(ts, st, RIGHT_PAREN, "Expect ')' after expression.");
    if inner.Fail? then inner else Ok(Grouping(inner.value), inner.st)
  }

  // ---------------------------------------------------------------------------
  // Statements and declarations (Parser.kt:84-304)

  /** The desugaring of `for (init; cond; incr) body` (Parser.kt:199-224): the increment
      runs after the body in a block, a missing condition becomes `true`, and the loop
      runs after the initializer in an outer block. */
  function DesugarFor(init: Option<Stmt>, cond: Option<Expr>, incr: Option<Expr>, body: Stmt): (s: Stmt)
    ensures init.Some? ==>
      s.Block? && |s.statements| == 2 && s.statements[0] == init.value && IsForLoop(s.statements[1], cond, incr, body)
    ensures init.None? ==> IsForLoop(s, cond, incr, body)
  {
    var body1 := if incr.Some? then Block([body, Expression(incr.value)]) else body;
    var loop := While(cond.GetOr(Literal(BoolLit(true))), body1);
    if init.Some? then Block([init.value, loop]) else loop
  }

  lemma DesugarForWellFormed(init: Option<Stmt>, cond: Option<Expr>, incr: Option<Expr>, body: Stmt)
    requires init.Some? ==> WellFormed(init.value)
    requires cond.Some? ==> WellNested(cond.value)
    requires incr.Some? ==> WellNested(incr.value)
    requires WellFormed(body)
    ensures WellFormed(DesugarFor(init, cond, incr, body))
  {
    var body1 := if incr.Some? then Block([body, Expression(incr.value)]) else body;
    assert WellFormed(body1);
    assert WellFormed(While(cond.GetOr(Literal(BoolLit(true))), body1));
  }

  /** `loop` is the `while` a `for` loop stands for. */
  predicate IsForLoop(loop: Stmt, cond: Option<Expr>, incr: Option<Expr>, body: Stmt) {
    && loop.While?
    && loop.condition == (if cond.Some? then cond.value else Literal(BoolLit(true)))
    && loop.body == (if incr.Some? then Block([body, Expression(incr.value)]) else body)
  }

  /** The three clauses of a `for` loop. */
  datatype ForClauses = ForClauses(init: Option<Stmt>, cond: Option<Expr>, incr: Option<Expr>)

  /** `forStatement` (Parser.kt:165-226), entered after `for`: the loop the header's
      clauses and the body stand for. */
  function ForStatement(ts: seq<Token>, st: PState): (r: Parsed<Stmt>)
    requires At(ts, st)
    ensures StmtParsed(ts, st, r)
    ensures r.Ok? ==> r.value.Block? || r.value.While?
    decreases |ts| - st.pos, 1
  {
    var clauses := ForHeader(ts, st);
    if clauses.Fail? then Fail(clauses.st)
    else
      var body := Statement(ts, clauses.st);
      if body.Fail? then body
      else
        DesugarForWellFormed(clauses.value.init, clauses.value.cond, clauses.value.incr, body.value);
        Ok(DesugarFor(clauses.value.init, clauses.value.cond, clauses.value.incr, body.value), body.st)
  }

  /** A `for` statement that parsed is the loop its header's clauses and its body stand
      for, and ends where the body does. */
  lemma ForStatementParts(ts: seq<Token>, st: PState)
    requires At(ts, st)
    ensures var r := ForStatement(ts, st);
            r.Ok? ==>
              var h := ForHeader(ts, st);
              && h.Ok?
              && var body := Statement(ts, h.st);
                 && body.Ok?
                 && r.value == DesugarFor(h.value.init, h.value.cond, h.value.incr, body.value)
                 && r.st == body.st
  {
  }

  /** `( init ; cond ; incr )` of a `for` loop (Parser.kt:180-197). */
  function ForHeader(ts: seq<Token>, st: PState): (r: Parsed<ForClauses>)
    requires At(ts, st)
    ensures Moves(ts, st, r)
    ensures r.Ok? ==> r.st.pos > st.pos
    ensures r.Ok? && r.value.init.Some? ==> WellFormed(r.value.init.value)
    ensures r.Ok? && r.value.cond.Some? ==> WellNested(r.value.cond.value)
    ensures r.Ok? && r.value.incr.Some? ==> WellNested(r.value.incr.value)
    ensures r.Ok? ==>
      && Check(ts, st, LEFT_PAREN)
      && var init := ForInitializer(ts, Advance(ts, st));
         && init.Ok? && r.value.init == init.value
         && r == ForControl(ts, init.st, init.value)
    decreases |ts| - st.pos, 0
  {
    var open := Consume(ts, st, LEFT_PAREN, "Expect '(' after 'for'.");
    if open.Fail? then Fail(open.st)
    else
      var init := ForInitializer(ts, open.st);
      if init.Fail? then Fail(init.st) else ForControl(ts, init.st, init.value)
  }

  /** `cond ; incr )` of a `for` loop, after its initializer. */
  function ForControl(ts: seq<Token>, st: PState, init: Option<Stmt>): (r: Parsed<ForClauses>)
    requires At(ts, st)
    requires init.Some? ==> WellFormed(init.value)
    ensures Moves(ts, st, r)
    ensures r.Ok? ==> r.st.pos > st.pos && r.value.init == init
    ensures r.Ok? && r.value.cond.Some? ==> WellNested(r.value.cond.value)
    ensures r.Ok? && r.value.incr.Some? ==> WellNested(r.value.incr.value)
    ensures r.Ok? ==>
      var cond := ClauseThen(ts, st, SEMICOLON, "Expect ';' after loop condition.");
      && cond.Ok? && r.value.cond == cond.value
      && var incr := ClauseThen(ts, cond.st, RIGHT_PAREN, "Expect ')' after for clauses.");
         incr.Ok? && r.value.incr == incr.value && r.st == incr.st
    decreases |ts| - st.pos, 104
  {
    var cond := ClauseThen(ts, st, SEMICOLON, "Expect ';' after loop condition.");
    if cond.Fail? then Fail(cond.st)
    else
      var incr := ClauseThen(ts, cond.st, RIGHT_PAREN, "Expect ')' after for clauses.");
      if incr.Fail? then Fail(incr.st) else Ok(ForClauses(init, cond.value, incr.value), incr.st)
  }

  /** An optional expression followed by a token of kind `terminator`, reported with
      `message` when missing. */
  function ClauseThen(ts: seq<Token>, st: PState, terminator: TokenType, message: string): (r: Parsed<Option<Expr>>)
    requires At(ts, st)
    ensures Moves(ts, st, r)
    ensures r.Ok? ==> r.st.pos > st.pos && ts[r.st.pos - 1].kind == terminator
    ensures r.Ok? ==> (r.value.None? <==> Check(ts, st, terminator))
    ensures r.Ok? && r.value.Some? ==> WellNested(r.value.value)
    ensures r.Ok? && r.value.Some? ==> ParseExpression(ts, st).Ok? && r.value.value == ParseExpression(ts, st).value
    decreases |ts| - st.pos, 103
  {
    var e := OptionalClause(ts, st, terminator);
    if e.Fail? then Fail(e.st)
    else
      var t := Consume(ts, e.st, terminator, message);
      if t.Fail? then Fail(t.st) else Ok(e.value, t.st)
  }

  /** The initializer clause of `for`: nothing (`;`), a `var` declaration or an
      expression statement (Parser.kt:181-185). */
  function ForInitializer(ts: seq<Token>, st: PState): (r: Parsed<Option<Stmt>>)
    requires At(ts, st)
    ensures Moves(ts, st, r)
    ensures r.Ok? ==> r.st.pos > st.pos && (r.value.Some? ==> WellFormed(r.value.value))
    ensures r.Ok? ==> (r.value.None? <==> Check(ts, st, SEMICOLON))
    ensures r.Ok? && Check(ts, st, VAR) ==> r.value.Some? && r.value.value.Var?
    ensures r.Ok? && !Check(ts, st, SEMICOLON) && !Check(ts, st, VAR) ==>
      ParseExpression(ts, st).Ok? && r.value == Some(Expression(ParseExpression(ts, st).value))
    decreases |ts| - st.pos, 111
  {
    if Check(ts, st, SEMICOLON) then Ok(None, Advance(ts, st))
    else
      var s := if Check(ts, st, VAR) then VarDeclaration(ts, Advance(ts, st)) else ExpressionStatement(ts, st);
      if s.Fail? then Fail(s.st) else Ok(Some(s.value), s.st)
  }

  /** An optional expression, absent when the next token is `terminator` (the condition
      and increment of `for`, the value of `return`). */
  function OptionalClause(ts: seq<Token>, st: PState, terminator: TokenType): (r: Parsed<Option<Expr>>)
    requires At(ts, st)
    ensures Moves(ts, st, r)
    ensures r.Ok? ==> (r.value.None? <==> Check(ts, st, terminator))
    ensures r.Ok? && r.value.None? ==> r.st == st
    ensures r.Ok? && r.value.Some? ==> r.st.pos > st.pos && WellNested(r.value.value)
    ensures r.Ok? && r.value.Some? ==> ParseExpression(ts, st).Ok? && r.value.value == ParseExpression(ts, st).value && r.st == ParseExpression(ts, st).st
    decreases |ts| - st.pos, 102
  {
    if Check(ts, st, terminator) then Ok(None, st) else OptionalExpr(ts, st)
  }

  /** An expression wrapped as present. */
  function OptionalExpr(ts: seq<Token>, st: PState): (r: Parsed<Option<Expr>>)
    requires At(ts, st)
    ensures Moves(ts, st, r)
    ensures r.Ok? ==> r.value.Some? && WellNested(r.value.value)
    ensures r.Ok? <==> ParseExpression(ts, st).Ok?
    ensures r.Ok? ==> r.value.value == ParseExpression(ts, st).value && r.st == ParseExpression(ts, st).st
    decreases |ts| - st.pos, 101
  {
    var e := ParseExpression(ts, st);
    if e.Fail? then Fail(e.st) else Ok(Some(e.value), e.st)
  }

  /** `ifStatement` (Parser.kt:294-304), entered after `if`. */
  function IfStatement(ts: seq<Token>, st: PState): (r: Parsed<Stmt>)
    requires At(ts, st)
    ensures StmtParsed(ts, st, r)
    ensures r.Ok? ==> r.value.If?
    decreases |ts| - st.pos, 0
  {
    var open := Consume(ts, st, LEFT_PAREN, "Expect '(' after 'if'.");
    if open.Fail? then Fail(open.st)
    else
      var cond := ExprThen(ts, open.st, RIGHT_PAREN, "Expect ')' after if condition.");
      if cond.Fail? then Fail(cond.st) else IfBranches(ts, cond.st, cond.value)
  }

  /** An `if` statement that parsed has the parenthesized condition, and its branches
      are those `IfBranches` parses after the `)`. */
  lemma IfStatementParts(ts: seq<Token>, st: PState)
    requires At(ts, st)
    ensures var r := IfStatement(ts, st);
            r.Ok? ==>
              && Check(ts, st, LEFT_PAREN)
              && var cond := ParseExpression(ts, Advance(ts, st));
                 && cond.Ok? && Check(ts, cond.st, RIGHT_PAREN)
                 && r.value.condition == cond.value
                 && r == IfBranches(ts, Advance(ts, cond.st), cond.value)
  {
  }

  /** The branches of an `if`, after its condition. */
  function IfBranches(ts: seq<Token>, st: PState, cond: Expr): (r: Parsed<Stmt>)
    requires At(ts, st) && WellNested(cond)
    ensures StmtParsed(ts, st, r)
    ensures r.Ok? ==> r.value.If? && r.value.condition == cond
    decreases |ts| - st.pos, 122
  {
    var thenBranch := Statement(ts, st);
    if thenBranch.Fail? then thenBranch
    else
      var elseBranch := ElseBranch(ts, thenBranch.st);
      if elseBranch.Fail? then Fail(elseBranch.st)
      else Ok(If(cond, thenBranch.value, elseBranch.value), elseBranch.st)
  }

  /** The then branch of an `if` that parsed is the statement after its condition, and
      its else branch is what `ElseBranch` finds after that statement. */
  lemma IfBranchesParts(ts: seq<Token>, st: PState, cond: Expr)
    requires At(ts, st) && WellNested(cond)
    ensures var r := IfBranches(ts, st, cond);
            r.Ok? ==>
              var thenBranch := Statement(ts, st);
              && thenBranch.Ok? && r.value.thenBranch == thenBranch.value
              && var elseBranch := ElseBranch(ts, thenBranch.st);
                 elseBranch.Ok? && r.value.elseBranch == elseBranch.value && r.st == elseBranch.st
  {
  }

  /** The optional `else` branch of an `if`; the `else` binds to the nearest `if`. */
  function ElseBranch(ts: seq<Token>, st: PState): (r: Parsed<Option<Stmt>>)
    requires At(ts, st)
    ensures Moves(ts, st, r)
    ensures r.Ok? ==> (r.value.Some? <==> Check(ts, st, ELSE))
    ensures r.Ok? && r.value.None? ==> r.st == st
    ensures r.Ok? && r.value.Some? ==> WellFormed(r.value.value)
    decreases |ts| - st.pos, 121
  {
    if Check(ts, st, ELSE) then
      var s := Statement(ts, Advance(ts, st));
      if s.Fail? then Fail(s.st) else Ok(Some(s.value), s.st)
    else Ok(None, st)
  }

  /** An `else` branch that is present is the statement after `else`. */
  lemma ElseBranchParts(ts: seq<Token>, st: PState)
    requires At(ts, st)
    ensures var r := ElseBranch(ts, st);
            r.Ok? && r.value.Some? ==>
              var s := Statement(ts, Advance(ts, st));
              s.Ok? && r.value.value == s.value && r.st == s.st
  {
  }

  /** An expression followed by a token of kind `kind`, reported with `message` when
      missing. */
  function ExprThen(ts: seq<Token>, st: PState, kind: TokenType, message: string): (r: Parsed<Expr>)
    requires At(ts, st)
    ensures ExprParsed(ts, st, r, 1)
    ensures r.Ok? ==> ts[r.st.pos - 1].kind == kind
    ensures var e := ParseExpression(ts, st);
            && (r.Ok? <==> e.Ok? && Check(ts, e.st, kind))
            && (r.Ok? ==> r.value == e.value && r.st == Advance(ts, e.st))
    decreases |ts| - st.pos, 101
  {
    var e := ParseExpression(ts, st);
    if e.Fail? then e
    else
      var t := Consume(ts, e.st, kind, message);
      if t.Fail? then Fail(t.st) else Ok(e.value, t.st)
  }

  /** `printStatement` (Parser.kt:228-232), entered after `print`. */
  function PrintStatement(ts: seq<Token>, st: PState): (r: Parsed<Stmt>)
    requires At(ts, st)
    ensures StmtParsed(ts, st, r)
    ensures var e := ParseExpression(ts, st);
            && (r.Ok? <==> e.Ok? && Check(ts, e.st, SEMICOLON))
            && (r.Ok? ==> r.value == Print(e.value) && r.st == Advance(ts, e.st))
    decreases |ts| - st.pos, 105
  {
    var value := ExprThen(ts, st, SEMICOLON, "Expect ';' after value");
    if value.Fail? then Fail(value.st) else Ok(Print(value.value), value.st)
  }

  /** `returnStatement` (Parser.kt:234-244), entered after `return`. */
  function ReturnStatement(ts: seq<Token>, st: PState, keyword: Token): (r: Parsed<Stmt>)
    requires At(ts, st)
    ensures Moves(ts, st, r)
    ensures r.Ok? ==> r.st.pos > st.pos && WellFormed(r.value)
    ensures r.Ok? ==> r.value.Return? && r.value.keyword == keyword
    ensures r.Ok? ==> (r.value.value.None? <==> Check(ts, st, SEMICOLON))
    ensures r.Ok? && r.value.value.Some? ==> ParseExpression(ts, st).Ok? && r.value.value.value == ParseExpression(ts, st).value
    decreases |ts| - st.pos, 105
  {
    var value := ClauseThen(ts, st, SEMICOLON, "Expect ';' after return value.");
    if value.Fail? then Fail(value.st) else Ok(Return(keyword, value.value), value.st)
  }

  /** `whileStatement` (Parser.kt:275-282), entered after `while`. */
  function WhileStatement(ts: seq<Token>, st: PState): (r: Parsed<Stmt>)
    requires At(ts, st)
    ensures StmtParsed(ts, st, r)
    ensures r.Ok? ==> r.value.While?
    decreases |ts| - st.pos, 0
  {
    var open := Consume(ts, st, LEFT_PAREN, "Expect '(' after 'while'.");
    if open.Fail? then Fail(open.st)
    else
      var cond := ExprThen(ts, open.st, RIGHT_PAREN, "Expect ')' after condition.");
      if cond.Fail? then Fail(cond.st)
      else
        var body := Statement(ts, cond.st);
        if body.Fail? then body else Ok(While(cond.value, body.value), body.st)
  }

  /** The body of a `while` that parsed is the statement after `)`, where it ends. */
  lemma WhileStatementParts(ts: seq<Token>, st: PState)
    requires At(ts, st)
    ensures var r := WhileStatement(ts, st);
            r.Ok? ==>
              && Check(ts, st, LEFT_PAREN)
              && var cond := ParseExpression(ts, Advance(ts, st));
                 && cond.Ok? && Check(ts, cond.st, RIGHT_PAREN)
                 && var body := Statement(ts, Advance(ts, cond.st));
                    body.Ok? && r.value == While(cond.value, body.value) && r.st == body.st
  {
  }

  /** `expressionStatement` (Parser.kt:246-250). */
  function ExpressionStatement(ts: seq<Token>, st: PState): (r: Parsed<Stmt>)
    requires At(ts, st)
    ensures StmtParsed(ts, st, r)
    ensures var e := ParseExpression(ts, st);
            && (r.Ok? <==> e.Ok? && Check(ts, e.st, SEMICOLON))
            && (r.Ok? ==> r.value == Expression(e.value) && r.st == Advance(ts, e.st))
    decreases |ts| - st.pos, 110
  {
    var value := ExprThen(ts, st, SEMICOLON, "Expect ';' after value");
    if value.Fail? then Fail(value.st) else Ok(Expression(value.value), value.st)
  }

  /** `varDeclaration` (Parser.kt:127-137), entered after `var`. */
  function VarDeclaration(ts: seq<Token>, st: PState): (r: Parsed<Stmt>)
    requires At(ts, st)
    ensures StmtParsed(ts, st, r)
    ensures r.Ok? ==> Check(ts, st, IDENTIFIER) && r == VarRest(ts, Advance(ts, st), ts[st.pos])
    decreases |ts| - st.pos, 0
  {
    var name := Consume(ts, st, IDENTIFIER, "Expect variable name");
    if name.Fail? then Fail(name.st) else VarRest(ts, name.st, name.value)
  }

  /** A variable declaration after its name: the optional initializer, then `;`. */
  function VarRest(ts: seq<Token>, st: PState, name: Token): (r: Parsed<Stmt>)
    requires At(ts, st)
    ensures Moves(ts, st, r)
    ensures r.Ok? ==> r.st.pos > st.pos && WellFormed(r.value)
    ensures r.Ok? ==>
      var init := VarInitializer(ts, st);
      && init.Ok? && Check(ts, init.st, SEMICOLON)
      && r.value == Var(name, init.value) && r.st == Advance(ts, init.st)
    decreases |ts| - st.pos, 103
  {
    var init := VarInitializer(ts, st);
    if init.Fail? then Fail(init.st)
    else
      var semi := Consume(ts, init.st, SEMICOLON, "Expect '; after variable declaration");
      if semi.Fail? then Fail(semi.st) else Ok(Var(name, init.value), semi.st)
  }

  /** `= expression` after a variable's name, if present. */
  function VarInitializer(ts: seq<Token>, st: PState): (r: Parsed<Option<Expr>>)
    requires At(ts, st)
    ensures Moves(ts, st, r)
    ensures r.Ok? ==> (r.value.Some? <==> Check(ts, st, EQUAL))
    ensures r.Ok? && r.value.None? ==> r.st == st
    ensures r.Ok? && r.value.Some? ==>
      var e := ParseExpression(ts, Advance(ts, st));
      e.Ok? && r.value.value == e.value && r.st == e.st && WellNested(e.value)
    decreases |ts| - st.pos, 102
  {
    if Check(ts, st, EQUAL) then OptionalExpr(ts, Advance(ts, st)) else Ok(None, st)
  }

  /** `statement` (Parser.kt:139-163): a keyword or `{` picks one of the statement
      forms, and an expression statement is what is left. Declarations are not
      statements: a `var`, `fun` or `class` node only comes out of `declaration`. */
  function Statement(ts: seq<Token>, st: PState): (r: Parsed<Stmt>)
    requires At(ts, st)
    ensures StmtParsed(ts, st, r)
    ensures r.Ok? ==> !r.value.Var? && !r.value.Class? && !r.value.Function?
    decreases |ts| - st.pos, 120
  {
    if StartsControl(ts, st) then ControlStatement(ts, st)
    else if StartsSimple(ts, st) then SimpleStatement(ts, st)
    else ExpressionStatement(ts, st)
  }

  /** The next token is `for`, `if` or `while`. */
  predicate StartsControl(ts: seq<Token>, st: PState)
    requires st.pos < |ts|
  {
    Check(ts, st, FOR) || Check(ts, st, IF) || Check(ts, st, WHILE)
  }

  /** The next token is `print`, `return` or `{`. */
  predicate StartsSimple(ts: seq<Token>, st: PState)
    requires st.pos < |ts|
  {
    Check(ts, st, PRINT) || Check(ts, st, RETURN) || Check(ts, st, LEFT_BRACE)
  }

  /** The control-flow forms of `statement`. */
  function ControlStatement(ts: seq<Token>, st: PState): (r: Parsed<Stmt>)
    requires At(ts, st) && StartsControl(ts, st)
    ensures StmtParsed(ts, st, r)
    ensures r.Ok? ==> !r.value.Var? && !r.value.Class? && !r.value.Function?
    decreases |ts| - st.pos, 119
  {
    if Check(ts, st, FOR) then ForStatement(ts, Advance(ts, st))
    else if Check(ts, st, IF) then IfStatement(ts, Advance(ts, st))
    else WhileStatement(ts, Advance(ts, st))
  }

  /** The `print`, `return` and block forms of `statement`. */
  function SimpleStatement(ts: seq<Token>, st: PState): (r: Parsed<Stmt>)
    requires At(ts, st) && StartsSimple(ts, st)
    ensures StmtParsed(ts, st, r)
    ensures r.Ok? ==> !r.value.Var? && !r.value.Class? && !r.value.Function?
    decreases |ts| - st.pos, 119
  {
    if Check(ts, st, PRINT) then PrintStatement(ts, Advance(ts, st))
    else if Check(ts, st, RETURN) then ReturnStatement(ts, Advance(ts, st), Peek(ts, st))
    else
      var body := ParseBlock(ts, Advance(ts, st));
      if body.Fail? then Fail(body.st) else Ok(Block(body.value), body.st)
  }

  /** The form `statement` parses, picked by its first token, whose parser runs after it;
      any other token starts an expression statement. */
  lemma StatementDispatch(ts: seq<Token>, st: PState)
    requires At(ts, st)
    ensures var r := Statement(ts, st);
            && (Check(ts, st, FOR) ==> r == ForStatement(ts, Advance(ts, st)))
            && (Check(ts, st, IF) ==> r == IfStatement(ts, Advance(ts, st)))
            && (Check(ts, st, PRINT) ==> r == PrintStatement(ts, Advance(ts, st)))
            && (Check(ts, st, RETURN) ==> r == ReturnStatement(ts, Advance(ts, st), ts[st.pos]))
            && (Check(ts, st, WHILE) ==> r == WhileStatement(ts, Advance(ts, st)))
            && (Check(ts, st, LEFT_BRACE) ==>
                  var body := ParseBlock(ts, Advance(ts, st));
                  (r.Ok? <==> body.Ok?) && (r.Ok? ==> r.value == Block(body.value) && r.st == body.st))
            && (!StartsControl(ts, st) && !StartsSimple(ts, st) ==> r == ExpressionStatement(ts, st))
  {
  }

  /** `block` (Parser.kt:284-292), entered after `{`: the statements of the declarations
      run up to the `}`, which must follow. */
  function ParseBlock(ts: seq<Token>, st: PState): (r: Parsed<seq<Stmt>>)
    requires At(ts, st)
    ensures Moves(ts, st, r)
    ensures r.Ok? ==> r.st.pos > st.pos && forall s :: s in r.value ==> WellFormed(s)
    decreases |ts| - st.pos, 142
  {
    BlockRest(ts, st, [])
  }

  /** A block is the statements of its run of declarations, in order, and parses
      exactly when that run ends at `}`, which it then consumes. */
  lemma ParseBlockRuns(ts: seq<Token>, st: PState)
    requires At(ts, st)
    ensures var r := ParseBlock(ts, st);
            var run := DeclarationRun(ts, st, true);
            && (r.Ok? <==> Check(ts, run.end, RIGHT_BRACE))
            && (r.Ok? ==> r.value == Kept(run.outcomes) && r.st == Advance(ts, run.end))
  {
    BlockRestRuns(ts, st, []);
  }

  function BlockRest(ts: seq<Token>, st: PState, acc: seq<Stmt>): (r: Parsed<seq<Stmt>>)
    requires At(ts, st) && forall s :: s in acc ==> WellFormed(s)
    ensures Moves(ts, st, r)
    ensures r.Ok? ==> r.st.pos > st.pos && forall s :: s in r.value ==> WellFormed(s)
    decreases |ts| - st.pos, 138
  {
    if !Check(ts, st, RIGHT_BRACE) && !IsAtEnd(ts, st) then
      var d := Declaration(ts, st);
      BlockRest(ts, d.st, if d.stmt.Some? then acc + [d.stmt.value] else acc)
    else
      var close := Consume(ts, st, RIGHT_BRACE, "Expect '}' after block.");
      if close.Fail? then Fail(close.st) else Ok(acc, close.st)
  }

  /** The loop of `block` keeps the statements of its run of declarations, in order,
      after those already collected, and succeeds exactly when the run ends at `}`. */
  lemma {:induction false} BlockRestRuns(ts: seq<Token>, st: PState, acc: seq<Stmt>)
    requires At(ts, st) && forall s :: s in acc ==> WellFormed(s)
    ensures var r := BlockRest(ts, st, acc);
            var run := DeclarationRun(ts, st, true);
            && (r.Ok? <==> Check(ts, run.end, RIGHT_BRACE))
            && (r.Ok? ==> r.value == acc + Kept(run.outcomes) && r.st == Advance(ts, run.end))
    decreases |ts| - st.pos
  {
    if !Check(ts, st, RIGHT_BRACE) && !IsAtEnd(ts, st) {
      var d := Declaration(ts, st);
      var acc' := if d.stmt.Some? then acc + [d.stmt.value] else acc;
      BlockRestRuns(ts, d.st, acc');
      BlockRound(ts, st, acc);
    }
  }

  /** One round of the loop of `block`: the result is the loop's from where the
      declaration stopped, and the run is that declaration followed by the rest. */
  lemma BlockRound(ts: seq<Token>, st: PState, acc: seq<Stmt>)
    requires At(ts, st) && forall s :: s in acc ==> WellFormed(s)
    requires !Check(ts, st, RIGHT_BRACE) && !IsAtEnd(ts, st)
    ensures var d := Declaration(ts, st);
            var acc' := if d.stmt.Some? then acc + [d.stmt.value] else acc;
            && BlockRest(ts, st, acc) == BlockRest(ts, d.st, acc')
            && DeclarationRun(ts, st, true).end == DeclarationRun(ts, d.st, true).end
            && acc + Kept(DeclarationRun(ts, st, true).outcomes) == acc' + Kept(DeclarationRun(ts, d.st, true).outcomes)
  {
    RunRound(ts, st, true, acc);
  }

  /** One round of a run, seen through the statements it keeps after `acc`. */
  lemma RunRound(ts: seq<Token>, st: PState, inBlock: bool, acc: seq<Stmt>)
    requires At(ts, st) && !RunStops(ts, st, inBlock)
    ensures var d := Declaration(ts, st);
            var acc' := if d.stmt.Some? then acc + [d.stmt.value] else acc;
            && DeclarationRun(ts, st, inBlock).end == DeclarationRun(ts, d.st, inBlock).end
            && acc + Kept(DeclarationRun(ts, st, inBlock).outcomes) == acc' + Kept(DeclarationRun(ts, d.st, inBlock).outcomes)
  {
    RunUnfolds(ts, st, inBlock);
    KeptAfter(acc, Declaration(ts, st), DeclarationRun(ts, Declaration(ts, st).st, inBlock).outcomes);
  }

  /** `function(kind)` (Parser.kt:252-273): name, parameter list, body. */
  function FunctionDecl(ts: seq<Token>, st: PState, kind: string): (r: Parsed<FunDecl>)
    requires At(ts, st)
    ensures Moves(ts, st, r)
    ensures r.Ok? ==> r.st.pos > st.pos && WellFormedFun(r.value) && r.value.name == ts[st.pos]
    decreases |ts| - st.pos, 152
  {
    var name := Consume(ts, st, IDENTIFIER, "Expected " + kind + " name");
    if name.Fail? then Fail(name.st)
    else
      var open := Consume(ts, name.st, LEFT_PAREN, "Expect '(' after " + kind + " name.");
      if open.Fail? then Fail(open.st) else FunctionRest(ts, open.st, name.value, kind)
  }

  /** A function declaration that parsed is a name and `(`, then the parameters and body
      that follow them. */
  lemma FunctionDeclParts(ts: seq<Token>, st: PState, kind: string)
    requires At(ts, st)
    ensures var r := FunctionDecl(ts, st, kind);
            r.Ok? ==>
              && Check(ts, st, IDENTIFIER) && Check(ts, Advance(ts, st), LEFT_PAREN)
              && r == FunctionRest(ts, Advance(ts, Advance(ts, st)), ts[st.pos], kind)
  {
  }

  /** The parameters and the body of a function, after the `(`: the declaration carries
      exactly the parameter list and the block parsed. */
  function FunctionRest(ts: seq<Token>, st: PState, name: Token, kind: string): (r: Parsed<FunDecl>)
    requires At(ts, st)
    ensures Moves(ts, st, r)
    ensures r.Ok? ==> r.st.pos > st.pos && WellFormedFun(r.value) && r.value.name == name
    decreases |ts| - st.pos, 151
  {
    var params := ParameterList(ts, st);
    if params.Fail? then Fail(params.st)
    else
      var body := FunctionBody(ts, params.st, kind);
      if body.Fail? then Fail(body.st) else Ok(FunDecl(name, params.value, body.value), body.st)
  }

  /** A function that parsed carries exactly the parameter list, and the block parsed
      after it. */
  lemma FunctionRestParts(ts: seq<Token>, st: PState, name: Token, kind: string)
    requires At(ts, st)
    ensures var r := FunctionRest(ts, st, name, kind);
            r.Ok? ==>
              var params := ParameterList(ts, st);
              && params.Ok? && r.value.params == params.value
              && var body := FunctionBody(ts, params.st, kind);
                 body.Ok? && r.value.body == body.value && r.st == body.st
  {
  }

  /** `) { body }` of a function, after its parameters. */
  function FunctionBody(ts: seq<Token>, st: PState, kind: string): (r: Parsed<seq<Stmt>>)
    requires At(ts, st)
    ensures Moves(ts, st, r)
    ensures r.Ok? ==> r.st.pos > st.pos && forall s :: s in r.value ==> WellFormed(s)
    decreases |ts| - st.pos, 149
  {
    var close := Consume(ts, st, RIGHT_PAREN, "Expect ')' after parameters.");
    if close.Fail? then Fail(close.st)
    else
      var brace := Consume(ts, close.st, LEFT_BRACE, "Expect '{' before " + kind + " body.");
      if brace.Fail? then Fail(brace.st) else ParseBlock(ts, brace.st)
  }

  /** A function body that parsed is `)` and `{` followed by a block. */
  lemma FunctionBodyParts(ts: seq<Token>, st: PState, kind: string)
    requires At(ts, st)
    ensures var r := FunctionBody(ts, st, kind);
            r.Ok? ==>
              && Check(ts, st, RIGHT_PAREN) && Check(ts, Advance(ts, st), LEFT_BRACE)
              && r == ParseBlock(ts, Advance(ts, Advance(ts, st)))
  {
  }

  /** The parameters of a function: none when `)` follows at once. */
  function ParameterList(ts: seq<Token>, st: PState): (r: Parsed<seq<Token>>)
    requires At(ts, st)
    ensures Moves(ts, st, r)
    ensures r.Ok? ==> forall p :: p in r.value ==> p.kind == IDENTIFIER
    ensures r.Ok? && r.value == [] <==> Check(ts, st, RIGHT_PAREN)
  {
    if Check(ts, st, RIGHT_PAREN) then Ok([], st) else Parameters(ts, st, [])
  }

  /** The parameter loop of `function`: before each parameter after the 255th an error
      is reported, without throwing, and the list keeps growing. */
  function Parameters(ts: seq<Token>, st: PState, acc: seq<Token>): (r: Parsed<seq<Token>>)
    requires At(ts, st) && forall p :: p in acc ==> p.kind == IDENTIFIER
    ensures Moves(ts, st, r)
    ensures r.Ok? ==> |r.value| > |acc| && r.value[..|acc|] == acc
    ensures r.Ok? ==> forall p :: p in r.value ==> p.kind == IDENTIFIER
    decreases |ts| - st.pos
  {
    var st1 := CheckLimit(ts, st, |acc|, "Cannot have more than 255 parameters.");
    var p := Consume(ts, st1, IDENTIFIER, "Expect parameter name.");
    if p.Fail? then Fail(p.st)
    else
      var acc' := acc + [p.value];
      if Check(ts, p.st, COMMA) then
        var rest := Parameters(ts, Advance(ts, p.st), acc');
        assert rest.Ok? ==> rest.value[..|acc|] == acc' [..|acc|];
        rest
      else Ok(acc', p.st)
  }

  /** The parameters are the identifiers at every other token from the cursor, with a
      `,` between each two, and the list ends on the last of them. */
  lemma {:induction false} ParametersAt(ts: seq<Token>, st: PState, acc: seq<Token>)
    requires At(ts, st) && forall p :: p in acc ==> p.kind == IDENTIFIER
    ensures var r := Parameters(ts, st, acc);
            r.Ok? ==> r.st.pos == st.pos + 2 * (|r.value| - |acc|) - 1 && EveryOther(ts, st.pos, r.value, |acc|)
    decreases |ts| - st.pos
  {
    var r := Parameters(ts, st, acc);
    var st1 := CheckLimit(ts, st, |acc|, "Cannot have more than 255 parameters.");
    var p := Consume(ts, st1, IDENTIFIER, "Expect parameter name.");
    if r.Ok? {
      var acc' := acc + [p.value];
      if Check(ts, p.st, COMMA) {
        var next := Advance(ts, p.st);
        assert r == Parameters(ts, next, acc');
        ParametersAt(ts, next, acc');
        EveryOtherCons(ts, st.pos, r.value, |acc|);
      } else {
        assert r == Ok(acc', p.st);
      }
    }
  }

  /** From index `from` on, `v` holds the tokens at every other position from `start`,
      with a `,` between each two. */
  predicate EveryOther(ts: seq<Token>, start: nat, v: seq<Token>, from: nat) {
    forall i :: from <= i < |v| ==> OtherAt(ts, start, v, from, i)
  }

  /** Item `i` of `v` is the token `2 * (i - from)` positions after `start`, and a `,`
      follows it unless it is the last. */
  predicate OtherAt(ts: seq<Token>, start: nat, v: seq<Token>, from: nat, i: nat)
    requires from <= i < |v|
  {
    var at := start + 2 * (i - from);
    && at < |ts| && v[i] == ts[at]
    && (i + 1 < |v| ==> at + 1 < |ts| && ts[at + 1].kind == COMMA)
  }

  lemma EveryOtherCons(ts: seq<Token>, start: nat, v: seq<Token>, from: nat)
    requires from < |v| && start + 1 < |ts| && v[from] == ts[start]
    requires from + 1 < |v| ==> ts[start + 1].kind == COMMA
    requires EveryOther(ts, start + 2, v, from + 1)
    ensures EveryOther(ts, start, v, from)
  {
    forall i | from <= i < |v|
      ensures OtherAt(ts, start, v, from, i)
    {
      if i > from {
        assert OtherAt(ts, start + 2, v, from + 1, i);
        assert start + 2 * (i - from) == start + 2 + 2 * (i - (from + 1));
      }
    }
  }

  /** A parameter list longer than 255 has had the limit reported. */
  lemma {:induction false} ParametersReportLimit(ts: seq<Token>, st: PState, acc: seq<Token>)
    requires At(ts, st) && forall p :: p in acc ==> p.kind == IDENTIFIER
    ensures var r := Parameters(ts, st, acc);
            r.Ok? && |r.value| > 255 ==> Reported(r.st.errors, "Cannot have more than 255 parameters.")
    decreases |ts| - st.pos
  {
    var st1 := CheckLimit(ts, st, |acc|, "Cannot have more than 255 parameters.");
    var p := Consume(ts, st1, IDENTIFIER, "Expect parameter name.");
    if p.Ok? {
      if Check(ts, p.st, COMMA) {
        ParametersReportLimit(ts, Advance(ts, p.st), acc + [p.value]);
      } else if |acc| >= 255 {
        assert p.st.errors[|st1.errors| - 1].message == "Cannot have more than 255 parameters.";
      }
    }
  }

  /** The same for the whole parameter list of a function (Parser.kt:260-263). */
  lemma ParameterListReportsLimit(ts: seq<Token>, st: PState)
    requires At(ts, st)
    ensures var r := ParameterList(ts, st);
            r.Ok? && |r.value| > 255 ==> Reported(r.st.errors, "Cannot have more than 255 parameters.")
  {
    if !Check(ts, st, RIGHT_PAREN) {
      ParametersReportLimit(ts, st, []);
    }
  }

  /** `classDeclaration` (Parser.kt:107-125), entered after `class`. */
  function ClassDeclaration(ts: seq<Token>, st: PState): (r: Parsed<Stmt>)
    requires At(ts, st)
    ensures StmtParsed(ts, st, r)
    ensures r.Ok? ==>
      && Check(ts, st, IDENTIFIER)
      && var superclass := Superclass(ts, Advance(ts, st));
         && superclass.Ok?
         && var methods := ClassBody(ts, superclass.st);
            && methods.Ok?
            && r.value == Class(ts[st.pos], superclass.value, methods.value)
            && r.st == methods.st
    decreases |ts| - st.pos, 0
  {
    var name := Consume(ts, st, IDENTIFIER, "Expected class name");
    if name.Fail? then Fail(name.st)
    else
      var superclass := Superclass(ts, name.st);
      if superclass.Fail? then Fail(superclass.st)
      else
        var methods := ClassBody(ts, superclass.st);
        if methods.Fail? then Fail(methods.st)
        else Ok(Class(name.value, superclass.value, methods.value), methods.st)
  }

  /** `{ methods }` of a class. */
  function ClassBody(ts: seq<Token>, st: PState): (r: Parsed<seq<FunDecl>>)
    requires At(ts, st)
    ensures Moves(ts, st, r)
    ensures r.Ok? ==> r.st.pos > st.pos && forall m :: m in r.value ==> WellFormedFun(m)
    ensures r.Ok? ==>
      && Check(ts, st, LEFT_BRACE)
      && var methods := ClassMethods(ts, Advance(ts, st), []);
         && methods.Ok? && r.value == methods.value
         && Check(ts, methods.st, RIGHT_BRACE) && r.st == Advance(ts, methods.st)
    decreases |ts| - st.pos, 161
  {
    var open := Consume(ts, st, LEFT_BRACE, "Expected '{' before class body'");
    if open.Fail? then Fail(open.st)
    else
      var methods := ClassMethods(ts, open.st, []);
      if methods.Fail? then Fail(methods.st)
      else
        var close := Consume(ts, methods.st, RIGHT_BRACE, "Expected '}' after class body");
        if close.Fail? then Fail(close.st) else Ok(methods.value, close.st)
  }

  /** `< Name` after a class name, if present; the superclass variable's id is the index
      of its name token. */
  function Superclass(ts: seq<Token>, st: PState): (r: Parsed<Option<VariableExpr>>)
    requires At(ts, st)
    ensures Moves(ts, st, r)
    ensures r.Ok? ==> (r.value.Some? <==> Check(ts, st, LESS))
    ensures r.Ok? && r.value.None? ==> r.st == st
    ensures r.Ok? && r.value.Some? ==>
      r.st.pos == st.pos + 2 && r.value.value == Variable(st.pos + 1, ts[st.pos + 1]) && ts[st.pos + 1].kind == IDENTIFIER
  {
    if Check(ts, st, LESS) then
      var sup := Consume(ts, Advance(ts, st), IDENTIFIER, "Expected superclass name");
      if sup.Fail? then Fail(sup.st) else Ok(Some(Variable(st.pos + 1, sup.value)), sup.st)
    else Ok(None, st)
  }

  /** The method loop of `classDeclaration` (Parser.kt:119-121). */
  function ClassMethods(ts: seq<Token>, st: PState, acc: seq<FunDecl>): (r: Parsed<seq<FunDecl>>)
    requires At(ts, st) && forall m :: m in acc ==> WellFormedFun(m)
    ensures Moves(ts, st, r)
    ensures r.Ok? ==> forall m :: m in r.value ==> WellFormedFun(m)
    ensures r.Ok? ==> acc <= r.value
    ensures r.Ok? ==> IsAtEnd(ts, r.st) || Check(ts, r.st, RIGHT_BRACE)
    ensures IsAtEnd(ts, st) || Check(ts, st, RIGHT_BRACE) ==> r == Ok(acc, st)
    decreases |ts| - st.pos, 160
  {
    if !Check(ts, st, RIGHT_BRACE) && !IsAtEnd(ts, st) then
      var m := FunctionDecl(ts, st, "method");
      if m.Fail? then Fail(m.st)
      else
        var acc' := acc + [m.value];
        assert forall x :: x in acc' ==> x in acc || x == m.value;
        ClassMethods(ts, m.st, acc')
    else Ok(acc, st)
  }

  /** `declaration` (Parser.kt:91-105): a class, function or variable declaration, or a
      statement. A `ParserError` is caught here: no statement results and the parser
      synchronizes. Away from EOF it always consumes at least one token. */
  function Declaration(ts: seq<Token>, st: PState): (r: Recovered)
    requires At(ts, st)
    ensures Follows(ts, st, r.st)
    ensures !IsAtEnd(ts, st) ==> r.st.pos > st.pos
    ensures r.stmt.Some? ==> WellFormed(r.stmt.value)
    ensures r.stmt.None? ==> |r.st.errors| > |st.errors|
    decreases |ts| - st.pos, 130
  {
    match DeclarationAttempt(ts, st)
    case Ok(s, st') => Recovered(Some(s), st')
    case Fail(st') => Recovered(None, Synchronize(ts, st'))
  }

  /** A declaration that parsed is kept with the state after it; one that threw leaves
      no statement, and the cursor moves on to where `synchronize` stops. */
  lemma DeclarationRecovers(ts: seq<Token>, st: PState)
    requires At(ts, st)
    ensures var attempt := DeclarationAttempt(ts, st);
            && (attempt.Ok? ==> Declaration(ts, st) == Recovered(Some(attempt.value), attempt.st))
            && (attempt.Fail? ==> Declaration(ts, st) == Recovered(None, Synchronize(ts, attempt.st)))
  {
  }

  /** The `try` part of `declaration`. */
  function DeclarationAttempt(ts: seq<Token>, st: PState): (r: Parsed<Stmt>)
    requires At(ts, st)
    ensures Moves(ts, st, r)
    ensures r.Ok? ==> r.st.pos > st.pos && WellFormed(r.value)
    decreases |ts| - st.pos, 129
  {
    if Check(ts, st, CLASS) then ClassDeclaration(ts, Advance(ts, st))
    else if Check(ts, st, FUN) then
      var f := FunctionDecl(ts, Advance(ts, st), "function");
      if f.Fail? then Fail(f.st) else Ok(Function(f.value), f.st)
    else if Check(ts, st, VAR) then VarDeclaration(ts, Advance(ts, st))
    else Statement(ts, st)
  }

  /** The keyword after which a declaration's parser runs: `class`, `fun` (a function
      declaration wrapped as a statement) or `var`; any other token starts a statement. */
  lemma DeclarationDispatch(ts: seq<Token>, st: PState)
    requires At(ts, st)
    ensures var r := DeclarationAttempt(ts, st);
            && (Check(ts, st, CLASS) ==> r == ClassDeclaration(ts, Advance(ts, st)))
            && (Check(ts, st, FUN) ==>
                  var f := FunctionDecl(ts, Advance(ts, st), "function");
                  (r.Ok? <==> f.Ok?) && (r.Ok? ==> r.value == Function(f.value) && r.st == f.st))
            && (Check(ts, st, VAR) ==> r == VarDeclaration(ts, Advance(ts, st)))
            && (!Check(ts, st, CLASS) && !Check(ts, st, FUN) && !Check(ts, st, VAR) ==> r == Statement(ts, st))
  {
  }

  // ---------------------------------------------------------------------------
  // Runs of declarations (the loops of `parse` and `block`)

  /** The outcomes of successive `declaration` calls, in order, and the state after the
      last one. */
  datatype DeclRun = DeclRun(outcomes: seq<Recovered>, end: PState)

  /** Where the loop of `parse` (at EOF) or of `block` (also before `}`) stops. */
  predicate RunStops(ts: seq<Token>, st: PState, inBlock: bool)
    requires st.pos < |ts|
  {
    IsAtEnd(ts, st) || (inBlock && Check(ts, st, RIGHT_BRACE))
  }

  /** The declarations such a loop runs from `st`: each starts where the previous one
      left the cursor, and the run ends at the first state where the loop stops. */
  function DeclarationRun(ts: seq<Token>, st: PState, inBlock: bool): (r: DeclRun)
    requires At(ts, st)
    ensures Follows(ts, st, r.end) && RunStops(ts, r.end, inBlock)
    ensures r.outcomes == [] <==> RunStops(ts, st, inBlock)
    ensures r.outcomes == [] ==> r.end == st
    ensures r.outcomes != [] ==> r.end == r.outcomes[|r.outcomes| - 1].st
    decreases |ts| - st.pos, 135
  {
    if RunStops(ts, st, inBlock) then DeclRun([], st)
    else
      var d := Declaration(ts, st);
      var rest := DeclarationRun(ts, d.st, inBlock);
      var outcomes := [d] + rest.outcomes;
      DeclRun(outcomes, rest.end)
  }

  /** The statements among declaration outcomes, in order. */
  function Kept(rs: seq<Recovered>): (ss: seq<Stmt>)
    ensures |ss| <= |rs|
  {
    if rs == [] then []
    else (if rs[0].stmt.Some? then [rs[0].stmt.value] else []) + Kept(rs[1..])
  }

  /** One round of a run: the first declaration, then the run from where it stopped. */
  lemma RunUnfolds(ts: seq<Token>, st: PState, inBlock: bool)
    requires At(ts, st) && !RunStops(ts, st, inBlock)
    ensures var d := Declaration(ts, st);
            var rest := DeclarationRun(ts, d.st, inBlock);
            DeclarationRun(ts, st, inBlock) == DeclRun([d] + rest.outcomes, rest.end)
  {
  }

  lemma KeptCons(d: Recovered, rs: seq<Recovered>)
    ensures Kept([d] + rs) == (if d.stmt.Some? then [d.stmt.value] else []) + Kept(rs)
  {
    assert ([d] + rs)[1..] == rs;
  }

  /** `KeptCons` after statements already collected. */
  lemma KeptAfter(acc: seq<Stmt>, d: Recovered, rs: seq<Recovered>)
    ensures acc + Kept([d] + rs) == (if d.stmt.Some? then acc + [d.stmt.value] else acc) + Kept(rs)
  {
    KeptCons(d, rs);
    if d.stmt.Some? {
      assert acc + ([d.stmt.value] + Kept(rs)) == (acc + [d.stmt.value]) + Kept(rs);
    } else {
      assert [] + Kept(rs) == Kept(rs);
    }
  }

  /** The loop of `parse` (Parser.kt:84-89): declarations until EOF, keeping those that
      parsed. Each round consumes a token, so at most one statement per token results. */
  function ParseFrom(ts: seq<Token>, st: PState): (r: Program)
    requires At(ts, st)
    ensures st.errors <= r.errors
    ensures |r.statements| <= |ts| - 1 - st.pos
    ensures forall s :: s in r.statements ==> WellFormed(s)
    decreases |ts| - st.pos
  {
    if IsAtEnd(ts, st) then Program([], st.errors)
    else
      var d := Declaration(ts, st);
      var rest := ParseFrom(ts, d.st);
      Program((if d.stmt.Some? then [d.stmt.value] else []) + rest.statements, rest.errors)
  }

  /** The loop of `parse` keeps the statements of its run of declarations, in order,
      and ends with the errors the run reported. */
  lemma {:induction false} ParseFromRuns(ts: seq<Token>, st: PState)
    requires At(ts, st)
    ensures var run := DeclarationRun(ts, st, false);
            ParseFrom(ts, st).statements == Kept(run.outcomes) && ParseFrom(ts, st).errors == run.end.errors
    decreases |ts| - st.pos
  {
    if !IsAtEnd(ts, st) {
      var d := Declaration(ts, st);
      ParseFromRuns(ts, d.st);
      RunUnfolds(ts, st, false);
      KeptCons(d, DeclarationRun(ts, d.st, false).outcomes);
    }
  }

  /** `parse`: the statements that parsed, in order, and every error reported. */
  function Parse(ts: seq<Token>): (r: Program)
    requires Valid(ts)
    ensures |r.statements| < |ts|
    ensures forall s :: s in r.statements ==> WellFormed(s)
    ensures var run := DeclarationRun(ts, PState(0, []), false);
            r.statements == Kept(run.outcomes) && r.errors == run.end.errors
  {
    ParseFromRuns(ts, PState(0, []));
    ParseFrom(ts, PState(0, []))
  }
}
