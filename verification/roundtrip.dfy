/** The expression grammar read backwards (src/com/sabino/lox/Parser.kt:306-460): a
    relation `Spells(ts, p, e)` saying which token lists spell a tree, a printer whose
    output spells its input, and the theorem that the parser, given tokens that spell a
    well-nested tree, returns exactly that tree. No parentheses are added: a well-nested
    tree already says where each operand ends. A reference node's id is the index of
    its token, as the parser numbers them. */
module RoundTrip {
  import opened Wrappers
  import opened Tokens
  import opened Ast
  import opened Parser

  // ---------------------------------------------------------------------------
  // Printing

  /** A token the tree does not keep: punctuation the printer supplies. */
  function Punct(kind: TokenType, lexeme: string): Token {
    Token(kind, lexeme, NilLit, 0)
  }

  /** The token of a literal. */
  function LiteralToken(l: LiteralValue): (t: Token)
    ensures t.kind in {FALSE, TRUE, NIL, NUMBER, STRING} && LiteralOf(t) == l
  {
    match l
    case NilLit => Token(NIL, "nil", NilLit, 0)
    case BoolLit(b) => if b then Token(TRUE, "true", NilLit, 0) else Token(FALSE, "false", NilLit, 0)
    case NumLit(_) => Token(NUMBER, "", l, 0)
    case StrLit(_) => Token(STRING, "", l, 0)
  }

  /** The tokens of `e`, in source order. */
  function Print(e: Expr): seq<Token>
    decreases e, 0
  {
    match e
    case Assign(_, name, value) => [name, Punct(EQUAL, "=")] + Print(value)
    case Binary(left, op, right) => Print(left) + [op] + Print(right)
    case Call(callee, paren, args) => Print(callee) + [Punct(LEFT_PAREN, "(")] + PrintArgs(args) + [paren]
    case Get(obj, name) => Print(obj) + [Punct(DOT, "."), name]
    case Grouping(inner) => [Punct(LEFT_PAREN, "(")] + Print(inner) + [Punct(RIGHT_PAREN, ")")]
    case Literal(l) => [LiteralToken(l)]
    case Logical(left, op, right) => Print(left) + [op] + Print(right)
    case Set(obj, name, value) => Print(obj) + [Punct(DOT, "."), name, Punct(EQUAL, "=")] + Print(value)
    case Super(_, keyword, methodName) => [keyword, Punct(DOT, "."), methodName]
    case This(_, keyword) => [keyword]
    case Unary(op, right) => [op] + Print(right)
    case Variable(_, name) => [name]
  }

  /** Arguments separated by commas. */
  function PrintArgs(es: seq<Expr>): seq<Token>
    decreases es, 1
  {
    if |es| == 0 then []
    else if |es| == 1 then Print(es[0])
    else Print(es[0]) + [Punct(COMMA, ",")] + PrintArgs(es[1..])
  }

  /** The tokens a tree keeps have the kinds the grammar reads them as, and no call has
      more arguments than the parser accepts without a report. */
  predicate Printable(e: Expr)
    decreases e
  {
    match e
    case Assign(_, name, value) => name.kind == IDENTIFIER && Printable(value)
    case Binary(left, _, right) => Printable(left) && Printable(right)
    case Call(callee, paren, args) =>
      paren.kind == RIGHT_PAREN && |args| <= 255 && Printable(callee) && forall a :: a in args ==> Printable(a)
    case Get(obj, name) => name.kind == IDENTIFIER && Printable(obj)
    case Grouping(inner) => Printable(inner)
    case Literal(_) => true
    case Logical(left, _, right) => Printable(left) && Printable(right)
    case Set(obj, name, value) => name.kind == IDENTIFIER && Printable(obj) && Printable(value)
    case Super(_, keyword, methodName) => keyword.kind == SUPER && methodName.kind == IDENTIFIER
    case This(_, keyword) => keyword.kind == THIS
    case Unary(_, right) => Printable(right)
    case Variable(_, name) => name.kind == IDENTIFIER
  }

  /** Every reference node's id is the index its token gets when `e` is printed from
      index `p` on. */
  predicate Numbered(e: Expr, p: nat)
    decreases e, 0
  {
    match e
    case Assign(id, _, value) => id == p && Numbered(value, p + 2)
    case Binary(left, _, right) => Numbered(left, p) && Numbered(right, p + |Print(left)| + 1)
    case Call(callee, _, args) => Numbered(callee, p) && NumberedArgs(args, p + |Print(callee)| + 1)
    case Get(obj, _) => Numbered(obj, p)
    case Grouping(inner) => Numbered(inner, p + 1)
    case Literal(_) => true
    case Logical(left, _, right) => Numbered(left, p) && Numbered(right, p + |Print(left)| + 1)
    case Set(obj, _, value) => Numbered(obj, p) && Numbered(value, p + |Print(obj)| + 3)
    case Super(id, _, _) => id == p
    case This(id, _) => id == p
    case Unary(_, right) => Numbered(right, p + 1)
    case Variable(id, _) => id == p
  }

  predicate NumberedArgs(es: seq<Expr>, p: nat)
    decreases es, 1
  {
    |es| > 0 ==> Numbered(es[0], p) && NumberedArgs(es[1..], p + |Print(es[0])| + 1)
  }

  /** A token after an expression of binding level `level` that does not extend it:
      not a call or property suffix, not an operator binding at least as tightly, and,
      for an assignment, not `=`. */
  predicate Stops(kind: TokenType, level: nat) {
    kind != LEFT_PAREN && kind != DOT && OperatorLevel(kind) < level && (level <= 1 ==> kind != EQUAL)
  }

  // ---------------------------------------------------------------------------
  // Which tokens spell a tree

  /** The number of tokens that spell `e`. */
  function Width(e: Expr): nat
    decreases e, 0
  {
    match e
    case Assign(_, _, value) => Width(value) + 2
    case Binary(left, _, right) => Width(left) + 1 + Width(right)
    case Call(callee, _, args) => Width(callee) + 1 + ArgsWidth(args) + 1
    case Get(obj, _) => Width(obj) + 2
    case Grouping(inner) => Width(inner) + 2
    case Literal(_) => 1
    case Logical(left, _, right) => Width(left) + 1 + Width(right)
    case Set(obj, _, value) => Width(obj) + 3 + Width(value)
    case Super(_, _, _) => 3
    case This(_, _) => 1
    case Unary(_, right) => 1 + Width(right)
    case Variable(_, _) => 1
  }

  function ArgsWidth(es: seq<Expr>): nat
    decreases es, 1
  {
    if |es| == 0 then 0
    else if |es| == 1 then Width(es[0])
    else Width(es[0]) + 1 + ArgsWidth(es[1..])
  }

  /** The tokens of `ts` from index `p` on spell `e`: each node's own tokens sit where
      its children's widths put them, with the kinds the grammar reads them as, and each
      reference node's id is the index of its token. A literal is spelled by any literal
      token carrying its value. */
  predicate Spells(ts: seq<Token>, p: nat, e: Expr)
    decreases e, 0
  {
    match e
    case Assign(id, name, value) =>
      && id == p && p + 1 < |ts| && ts[p] == name && name.kind == IDENTIFIER
      && ts[p + 1].kind == EQUAL && Spells(ts, p + 2, value)
    case Binary(left, op, right) =>
      && Spells(ts, p, left) && p + Width(left) < |ts| && ts[p + Width(left)] == op
      && Spells(ts, p + Width(left) + 1, right)
    case Call(callee, paren, args) =>
      var q := p + Width(callee) + 1;
      && Spells(ts, p, callee) && q + ArgsWidth(args) < |ts| && ts[q - 1].kind == LEFT_PAREN
      && |args| <= 255 && SpellsArgs(ts, q, args)
      && ts[q + ArgsWidth(args)] == paren && paren.kind == RIGHT_PAREN
    case Get(obj, name) =>
      && Spells(ts, p, obj) && p + Width(obj) + 1 < |ts|
      && ts[p + Width(obj)].kind == DOT && ts[p + Width(obj) + 1] == name && name.kind == IDENTIFIER
    case Grouping(inner) =>
      && p + Width(inner) + 1 < |ts| && ts[p].kind == LEFT_PAREN
      && Spells(ts, p + 1, inner) && ts[p + Width(inner) + 1].kind == RIGHT_PAREN
    case Literal(l) =>
      p < |ts| && ts[p].kind in {FALSE, TRUE, NIL, NUMBER, STRING} && LiteralOf(ts[p]) == l
    case Logical(left, op, right) =>
      && Spells(ts, p, left) && p + Width(left) < |ts| && ts[p + Width(left)] == op
      && Spells(ts, p + Width(left) + 1, right)
    case Set(obj, name, value) =>
      var q := p + Width(obj);
      && Spells(ts, p, obj) && q + 2 < |ts|
      && ts[q].kind == DOT && ts[q + 1] == name && name.kind == IDENTIFIER && ts[q + 2].kind == EQUAL
      && Spells(ts, q + 3, value)
    case Super(id, keyword, methodName) =>
      && id == p && p + 2 < |ts| && ts[p] == keyword && keyword.kind == SUPER
      && ts[p + 1].kind == DOT && ts[p + 2] == methodName && methodName.kind == IDENTIFIER
    case This(id, keyword) =>
      id == p && p < |ts| && ts[p] == keyword && keyword.kind == THIS
    case Unary(op, right) =>
      p < |ts| && ts[p] == op && Spells(ts, p + 1, right)
    case Variable(id, name) =>
      id == p && p < |ts| && ts[p] == name && name.kind == IDENTIFIER
  }

  /** Arguments separated by commas. */
  predicate SpellsArgs(ts: seq<Token>, p: nat, es: seq<Expr>)
    decreases es, 1
  {
    |es| > 0 ==>
      && Spells(ts, p, es[0])
      && (|es| > 1 ==>
            && p + Width(es[0]) < |ts| && ts[p + Width(es[0])].kind == COMMA
            && SpellsArgs(ts, p + Width(es[0]) + 1, es[1..]))
  }

  /** The operators of a binary level are exactly the tokens of that level. */
  lemma LevelOperatorsExact(kind: TokenType, level: nat)
    requires 2 <= level <= 7
    ensures kind in LevelOperators(level) <==> OperatorLevel(kind) == level
  {
  }

  /** `=` ends the target of an assignment; `,` and `)` end an argument or a grouping. */
  lemma StopTokens()
    ensures Stops(EQUAL, 2) == true && Stops(COMMA, 1) == true && Stops(RIGHT_PAREN, 1) == true
  {
  }

  /** An operator of a binary level ends an operand of the level above. */
  lemma OperatorStops(kind: TokenType, level: nat)
    requires 2 <= level && OperatorLevel(kind) == level
    ensures Stops(kind, level + 1) == true
  {
  }

  /** A spelled expression starts with a token that can start one, and one binding at
      call level does not start with a prefix operator. */
  lemma {:induction false} FirstToken(ts: seq<Token>, p: nat, e: Expr)
    requires Spells(ts, p, e) == true && WellNested(e) == true
    ensures p < |ts|
    ensures ts[p].kind in {IDENTIFIER, LEFT_PAREN, SUPER, THIS, FALSE, TRUE, NIL, NUMBER, STRING, BANG, MINUS}
    ensures Prec(e) == 9 ==> ts[p].kind != BANG && ts[p].kind != MINUS
  {
    match e
    case Binary(left, _, _) => FirstToken(ts, p, left);
    case Call(callee, _, _) => FirstToken(ts, p, callee);
    case Get(obj, _) => FirstToken(ts, p, obj);
    case Logical(left, _, _) => FirstToken(ts, p, left);
    case Set(obj, _, _) => FirstToken(ts, p, obj);
    case _ =>
  }

  /** Every argument is well nested. */
  predicate AllNested(es: seq<Expr>) {
    forall a :: a in es ==> WellNested(a)
  }

  // ---------------------------------------------------------------------------
  // What spelling a node says about its parts
  //
  // These unfold `Spells` and `WellNested` once for one kind of node and state the
  // results as plain facts about the children.

  lemma AssignSpelled(ts: seq<Token>, p: nat, e: Expr, target: Expr)
    requires e.Assign? && Spells(ts, p, e) == true && WellNested(e) == true
    requires target == Variable(p, e.name)
    ensures e.id == p && p + 1 < |ts| && ts[p] == e.name && e.name.kind == IDENTIFIER && ts[p + 1].kind == EQUAL
    ensures Spells(ts, p, target) == true && WellNested(target) == true && Prec(target) == 9 && Width(target) == 1
    ensures Spells(ts, p + 2, e.value) == true && WellNested(e.value) == true && Prec(e.value) >= 1
    ensures Width(e) == Width(e.value) + 2
  {
  }

  lemma SetSpelled(ts: seq<Token>, p: nat, e: Expr, g: Expr, q: nat)
    requires e.Set? && Spells(ts, p, e) == true && WellNested(e) == true
    requires g == Get(e.obj, e.name) && q == p + Width(g)
    ensures Spells(ts, p, g) == true && WellNested(g) == true && Prec(g) == 9
    ensures q < |ts| && ts[q].kind == EQUAL
    ensures Spells(ts, q + 1, e.value) == true && WellNested(e.value) == true && Prec(e.value) >= 1
    ensures Width(e) == q - p + 1 + Width(e.value)
  {
  }

  /** A binary or logical node: its operator token sits between its operands, and the
      operands bind as the node's level requires. */
  lemma NodeSpelled(ts: seq<Token>, p: nat, e: Expr, q: nat)
    requires (e.Binary? || e.Logical?) && Spells(ts, p, e) == true && WellNested(e) == true
    requires q == p + Width(e.left)
    ensures 2 <= Prec(e) <= 7 && Prec(e) == OperatorLevel(e.operator.kind)
    ensures Spells(ts, p, e.left) == true && WellNested(e.left) == true && Prec(e.left) >= Prec(e)
    ensures q < |ts| && ts[q] == e.operator
    ensures Spells(ts, q + 1, e.right) == true && WellNested(e.right) == true && Prec(e.right) > Prec(e)
    ensures Width(e) == q - p + 1 + Width(e.right)
  {
    if e.Binary? {
      assert Spells(ts, p, e) == (Spells(ts, p, e.left) && q < |ts| && ts[q] == e.operator && Spells(ts, q + 1, e.right));
    } else {
      assert Spells(ts, p, e) == (Spells(ts, p, e.left) && q < |ts| && ts[q] == e.operator && Spells(ts, q + 1, e.right));
    }
  }

  /** A well-nested binary or logical node is the node its level builds from its parts. */
  lemma NodeRebuilt(e: Expr, level: nat)
    requires (e.Binary? || e.Logical?) && WellNested(e) == true && Prec(e) == level && 2 <= level <= 7
    ensures LevelNode(e.left, e.operator, e.right, level) == e
  {
    LevelOperatorsExact(e.operator.kind, level);
  }

  lemma UnarySpelled(ts: seq<Token>, p: nat, e: Expr)
    requires e.Unary? && Spells(ts, p, e) == true && WellNested(e) == true
    ensures p < |ts| && ts[p] == e.operator && (ts[p].kind == BANG || ts[p].kind == MINUS)
    ensures Spells(ts, p + 1, e.right) == true && WellNested(e.right) == true && Prec(e.right) >= 8
    ensures Width(e) == 1 + Width(e.right)
  {
  }

  lemma CallSpelled(ts: seq<Token>, p: nat, e: Expr, q: nat, close: nat)
    requires e.Call? && Spells(ts, p, e) == true && WellNested(e) == true
    requires q == p + Width(e.callee) && close == q + 1 + ArgsWidth(e.arguments)
    ensures Spells(ts, p, e.callee) == true && WellNested(e.callee) == true && Prec(e.callee) == 9
    ensures close < |ts| && ts[q].kind == LEFT_PAREN
    ensures SpellsArgs(ts, q + 1, e.arguments) == true && AllNested(e.arguments) == true
    ensures |e.arguments| <= 255
    ensures ts[close] == e.paren && e.paren.kind == RIGHT_PAREN
    ensures Width(e) == close + 1 - p
  {
  }

  lemma GetSpelled(ts: seq<Token>, p: nat, e: Expr, q: nat)
    requires e.Get? && Spells(ts, p, e) == true && WellNested(e) == true && q == p + Width(e.obj)
    ensures Spells(ts, p, e.obj) == true && WellNested(e.obj) == true && Prec(e.obj) == 9
    ensures q + 1 < |ts| && ts[q].kind == DOT && ts[q + 1] == e.name && e.name.kind == IDENTIFIER
    ensures Width(e) == q - p + 2
  {
  }

  lemma GroupingSpelled(ts: seq<Token>, p: nat, e: Expr, close: nat)
    requires e.Grouping? && Spells(ts, p, e) == true && WellNested(e) == true
    requires close == p + Width(e.expression) + 1
    ensures close < |ts| && ts[p].kind == LEFT_PAREN
    ensures Spells(ts, p + 1, e.expression) == true && WellNested(e.expression) == true
    ensures ts[close].kind == RIGHT_PAREN
    ensures Width(e) == close + 1 - p
  {
  }

  /** The first argument, the comma after it when more follow, and the rest. */
  lemma ArgsSpelled(ts: seq<Token>, p: nat, es: seq<Expr>)
    requires |es| > 0 && SpellsArgs(ts, p, es) == true && AllNested(es) == true
    ensures Spells(ts, p, es[0]) == true && WellNested(es[0]) == true && AllNested(es[1..]) == true
    ensures |es| == 1 ==> ArgsWidth(es) == Width(es[0])
    ensures |es| > 1 ==>
              && p + Width(es[0]) < |ts| && ts[p + Width(es[0])].kind == COMMA
              && SpellsArgs(ts, p + Width(es[0]) + 1, es[1..]) == true
              && ArgsWidth(es) == Width(es[0]) + 1 + ArgsWidth(es[1..])
  {
    assert es[0] in es;
    forall a | a in es[1..]
      ensures WellNested(a) == true
    {
      assert a in es;
    }
  }

  // ---------------------------------------------------------------------------
  // One step of the parser
  //
  // These state what a grammar function does at the cursor, given what the functions it
  // calls return; they say nothing about trees spelled in the tokens.

  /** `assignment` when no `=` follows the binary expression. */
  lemma PlainStep(ts: seq<Token>, st: PState, e: Expr, s: PState)
    requires At(ts, st) && s.pos < |ts| && ts[s.pos].kind != EQUAL
    requires Level(ts, st, 2) == Ok(e, s)
    ensures Assignment(ts, st) == Ok(e, s)
  {
    assert !Check(ts, s, EQUAL);
  }

  /** `assignment` at `name = value`. */
  lemma AssignStep(ts: seq<Token>, st: PState, name: Token, value: Expr, s: PState)
    requires At(ts, st) && st.pos + 1 < |ts| && ts[st.pos] == name && ts[st.pos + 1].kind == EQUAL
    requires Level(ts, st, 2) == Ok(Variable(st.pos, name), PState(st.pos + 1, st.errors))
    requires Assignment(ts, PState(st.pos + 2, st.errors)) == Ok(value, s)
    ensures Assignment(ts, st) == Ok(Assign(st.pos, name, value), s)
  {
    var left := PState(st.pos + 1, st.errors);
    assert Check(ts, left, EQUAL) && Peek(ts, left) == ts[st.pos + 1];
    assert Advance(ts, left) == PState(st.pos + 2, st.errors);
    assert AssignTarget(Variable(st.pos, name), ts[st.pos + 1], value, s) == Ok(Assign(st.pos, name, value), s);
  }

  /** `assignment` at `obj.name = value`, the target read as a property access ending
      at `q`. */
  lemma SetStep(ts: seq<Token>, st: PState, g: Expr, q: nat, value: Expr, s: PState)
    requires At(ts, st) && g.Get? && q < |ts| && ts[q].kind == EQUAL
    requires Level(ts, st, 2) == Ok(g, PState(q, st.errors))
    requires Assignment(ts, PState(q + 1, st.errors)) == Ok(value, s)
    ensures Assignment(ts, st) == Ok(Set(g.obj, g.name, value), s)
  {
    var left := PState(q, st.errors);
    assert Check(ts, left, EQUAL) && Peek(ts, left) == ts[q];
    assert Advance(ts, left) == PState(q + 1, st.errors);
    assert AssignTarget(g, ts[q], value, s) == Ok(Set(g.obj, g.name, value), s);
  }

  /** A binary level hands its first operand to its loop. */
  lemma LevelStart(ts: seq<Token>, st: PState, e: Expr, s: PState, level: nat)
    requires At(ts, st) && 2 <= level <= 7
    requires Operand(ts, st, level) == Ok(e, s)
    ensures WellNested(e) && Prec(e) > level && At(ts, s)
    ensures Level(ts, st, level) == LevelRest(ts, e, s, level)
  {
  }

  /** A binary level's loop stops at a token that is not one of its operators. */
  lemma LevelStops(ts: seq<Token>, e: Expr, s: PState, level: nat)
    requires At(ts, s) && 2 <= level <= 7 && WellNested(e) == true && Prec(e) >= level
    requires OperatorLevel(ts[s.pos].kind) < level
    ensures LevelRest(ts, e, s, level) == Ok(e, s)
  {
    LevelOperatorsExact(ts[s.pos].kind, level);
    assert !(Peek(ts, s).kind in LevelOperators(level));
  }

  /** One round of a binary level's loop: an operator of the level, then an operand. */
  lemma LevelStep(ts: seq<Token>, left: Expr, st: PState, right: Expr, s: PState, level: nat)
    requires At(ts, st) && 2 <= level <= 7 && WellNested(left) == true && Prec(left) >= level
    requires OperatorLevel(ts[st.pos].kind) == level
    requires Operand(ts, PState(st.pos + 1, st.errors), level) == Ok(right, s)
    ensures WellNested(right) && Prec(right) > level
    ensures LevelRest(ts, left, st, level) == LevelRest(ts, LevelNode(left, ts[st.pos], right, level), s, level)
  {
    LevelOperatorsExact(ts[st.pos].kind, level);
    assert !IsAtEnd(ts, st) && Peek(ts, st).kind in LevelOperators(level);
    assert Advance(ts, st) == PState(st.pos + 1, st.errors);
  }

  /** `unary` at a prefix operator. */
  lemma UnaryStep(ts: seq<Token>, st: PState, right: Expr, s: PState)
    requires At(ts, st) && (ts[st.pos].kind == BANG || ts[st.pos].kind == MINUS)
    requires UnaryExpr(ts, PState(st.pos + 1, st.errors)) == Ok(right, s)
    ensures UnaryExpr(ts, st) == Ok(Unary(ts[st.pos], right), s)
  {
    assert Check(ts, st, BANG) || Check(ts, st, MINUS);
    assert Advance(ts, st) == PState(st.pos + 1, st.errors);
    assert PrefixNode(Peek(ts, st), Ok(right, s)) == Ok(Unary(ts[st.pos], right), s);
  }

  /** `unary` without a prefix operator is `call`. */
  lemma UnaryPass(ts: seq<Token>, st: PState)
    requires At(ts, st) && ts[st.pos].kind != BANG && ts[st.pos].kind != MINUS
    ensures UnaryExpr(ts, st) == CallExpr(ts, st)
  {
    assert !Check(ts, st, BANG) && !Check(ts, st, MINUS);
  }

  /** `call` hands the primary expression to its suffix loop. */
  lemma CallStart(ts: seq<Token>, st: PState, e: Expr, s: PState)
    requires At(ts, st) && Primary(ts, st) == Ok(e, s)
    ensures CallExpr(ts, st) == CallRest(ts, e, s)
  {
  }

  /** The suffix loop stops at a token that is neither `(` nor `.`. */
  lemma CallStops(ts: seq<Token>, e: Expr, s: PState)
    requires At(ts, s) && WellNested(e) == true && Prec(e) == 9
    requires ts[s.pos].kind != LEFT_PAREN && ts[s.pos].kind != DOT
    ensures CallRest(ts, e, s) == Ok(e, s)
  {
    assert !Check(ts, s, LEFT_PAREN) && !Check(ts, s, DOT);
  }

  /** One round of the suffix loop at `(`: the call `finishCall` builds. */
  lemma CallStep(ts: seq<Token>, callee: Expr, st: PState, call: Expr, s: PState)
    requires At(ts, st) && WellNested(callee) == true && Prec(callee) == 9 && ts[st.pos].kind == LEFT_PAREN
    requires FinishCall(ts, callee, PState(st.pos + 1, st.errors)) == Ok(call, s)
    ensures CallRest(ts, callee, st) == CallRest(ts, call, s)
  {
    assert Check(ts, st, LEFT_PAREN) && Advance(ts, st) == PState(st.pos + 1, st.errors);
  }

  /** One round of the suffix loop at `. name`. */
  lemma GetStep(ts: seq<Token>, obj: Expr, st: PState, s: PState)
    requires At(ts, st) && WellNested(obj) == true && Prec(obj) == 9 && st.pos + 1 < |ts|
    requires ts[st.pos].kind == DOT && ts[st.pos + 1].kind == IDENTIFIER
    requires s.pos == st.pos + 2 && s.errors == st.errors
    ensures CallRest(ts, obj, st) == CallRest(ts, Get(obj, ts[st.pos + 1]), s)
  {
    var a := PState(st.pos + 1, st.errors);
    assert !Check(ts, st, LEFT_PAREN) && Check(ts, st, DOT) && Advance(ts, st) == a;
    assert Check(ts, a, IDENTIFIER);
    assert Consume(ts, a, IDENTIFIER, "Expect property name after '.'.") == Ok(ts[st.pos + 1], s);
  }

  /** `finishCall`: the argument list, then the `)`. */
  lemma FinishStep(ts: seq<Token>, callee: Expr, st: PState, args: seq<Expr>, s: PState, after: nat)
    requires At(ts, st) && WellNested(callee) == true && Prec(callee) == 9
    requires ArgumentList(ts, st) == Ok(args, s) && s.pos < |ts| && ts[s.pos].kind == RIGHT_PAREN
    requires after == s.pos + 1
    ensures FinishCall(ts, callee, st) == Ok(Call(callee, ts[s.pos], args), PState(after, s.errors))
  {
    var r := FinishCall(ts, callee, st);
    assert r.Ok? && r.st.pos == after && r.st.errors == s.errors;
  }

  /** An argument list is empty exactly when `)` follows at once. */
  lemma ArgumentListStep(ts: seq<Token>, st: PState)
    requires At(ts, st)
    ensures ts[st.pos].kind == RIGHT_PAREN ==> ArgumentList(ts, st) == Ok([], st)
    ensures ts[st.pos].kind != RIGHT_PAREN ==> ArgumentList(ts, st) == Arguments(ts, st, [])
  {
  }

  lemma AllNestedSnoc(acc: seq<Expr>, e: Expr)
    requires AllNested(acc) == true && WellNested(e) == true
    ensures AllNested(acc + [e]) == true
  {
    forall a | a in acc + [e]
      ensures WellNested(a)
    {
      if a !in acc {
        assert a == e;
      }
    }
  }

  /** One round of the argument loop, below the 255-argument limit. */
  lemma ArgumentsStep(ts: seq<Token>, st: PState, acc: seq<Expr>, e: Expr, s: PState)
    requires At(ts, st) && AllNested(acc) == true && |acc| < 255
    requires ParseExpression(ts, st) == Ok(e, s)
    ensures AllNested(acc + [e]) == true && At(ts, s)
    ensures ts[s.pos].kind == COMMA && s.pos + 1 < |ts| ==>
              Arguments(ts, st, acc) == Arguments(ts, PState(s.pos + 1, s.errors), acc + [e])
    ensures ts[s.pos].kind != COMMA ==> Arguments(ts, st, acc) == Ok(acc + [e], s)
  {
    assert CheckLimit(ts, st, |acc|, "Cannot have more than 255 arguments.") == st;
    forall a | a in acc + [e]
      ensures WellNested(a)
    {
      if a in acc {
      } else {
        assert a == e;
      }
    }
  }

  /** `primary` at a `(`: the expression after it, then the `)`. */
  lemma GroupingStep(ts: seq<Token>, st: PState, inner: Expr, s: PState, after: nat)
    requires At(ts, st) && ts[st.pos].kind == LEFT_PAREN
    requires Assignment(ts, PState(st.pos + 1, st.errors)) == Ok(inner, s)
    requires s.pos < |ts| && ts[s.pos].kind == RIGHT_PAREN && after == s.pos + 1
    ensures Primary(ts, st) == Ok(Grouping(inner), PState(after, s.errors))
  {
    var a := PState(st.pos + 1, st.errors);
    assert !Check(ts, st, SUPER) && Check(ts, st, LEFT_PAREN) && Advance(ts, st) == a;
    assert ParseExpression(ts, a) == Ok(inner, s);
    assert Check(ts, s, RIGHT_PAREN) && Advance(ts, s) == PState(after, s.errors);
    assert ExprThen(ts, a, RIGHT_PAREN, "Expect ')' after expression.") == Ok(inner, PState(after, s.errors));
  }

  /** `primary` at `super . name`. */
  lemma SuperStep(ts: seq<Token>, st: PState)
    requires At(ts, st) && st.pos + 2 < |ts| && ts[st.pos].kind == SUPER
    requires ts[st.pos + 1].kind == DOT && ts[st.pos + 2].kind == IDENTIFIER
    ensures Primary(ts, st) == Ok(Super(st.pos, ts[st.pos], ts[st.pos + 2]), PState(st.pos + 3, st.errors))
  {
    SuperNameStep(ts, PState(st.pos + 1, st.errors), ts[st.pos]);
    assert Check(ts, st, SUPER) && Peek(ts, st) == ts[st.pos];
    assert Advance(ts, st) == PState(st.pos + 1, st.errors);
  }

  /** `super`'s rule, entered after the keyword, at `. name`. */
  lemma SuperNameStep(ts: seq<Token>, st: PState, keyword: Token)
    requires At(ts, st) && st.pos >= 1 && st.pos + 1 < |ts|
    requires ts[st.pos].kind == DOT && ts[st.pos + 1].kind == IDENTIFIER
    ensures SuperExpr(ts, st, keyword) == Ok(Super(st.pos - 1, keyword, ts[st.pos + 1]), PState(st.pos + 2, st.errors))
  {
    var next := PState(st.pos + 1, st.errors);
    assert Check(ts, st, DOT);
    assert Consume(ts, st, DOT, "Expect '.' after super.") == Ok(ts[st.pos], next);
    assert Check(ts, next, IDENTIFIER);
  }

  /** `primary` at a literal, `this` or a variable: the one-token node `atom` makes. */
  lemma AtomStep(ts: seq<Token>, st: PState, e: Expr)
    requires At(ts, st) && (e.Literal? || e.This? || e.Variable?) && Spells(ts, st.pos, e) == true
    ensures Primary(ts, st) == Ok(e, PState(st.pos + 1, st.errors))
  {
    assert !Check(ts, st, SUPER) && !Check(ts, st, LEFT_PAREN);
    assert Atom(ts, st) == Some(e);
    assert Advance(ts, st) == PState(st.pos + 1, st.errors);
  }

  // ---------------------------------------------------------------------------
  // The parser reads back what spells a tree, one grammar level at a time
  //
  // Each lemma takes the index `end` just past the spelled expression as a parameter.
  // A binary level's lemmas are ranked 4 * (10 - level) plus 3 (reads), 2 (reaches its
  // loop), 1 (a node of the level) and 0 (its operand).

  /** `assignment` reads back a well-nested expression spelled at the cursor and stops
      at the first token after it. */
  lemma {:induction false} AssignmentReads(ts: seq<Token>, st: PState, e: Expr, end: nat)
    requires Valid(ts) && Spells(ts, st.pos, e) == true && WellNested(e) == true
    requires end == st.pos + Width(e) && end < |ts| && Stops(ts[end].kind, 1)
    ensures Assignment(ts, st) == Ok(e, PState(end, st.errors))
    decreases Width(e), 37
  {
    if e.Assign? {
      AssignReads(ts, st, e, end);
    } else if e.Set? {
      SetReads(ts, st, e, end);
    } else {
      LevelReads(ts, st, e, 2, end);
      PlainStep(ts, st, e, PState(end, st.errors));
    }
  }

  lemma {:induction false} AssignReads(ts: seq<Token>, st: PState, e: Expr, end: nat)
    requires Valid(ts) && e.Assign? && Spells(ts, st.pos, e) == true && WellNested(e) == true
    requires end == st.pos + Width(e) && end < |ts| && Stops(ts[end].kind, 1)
    ensures Assignment(ts, st) == Ok(e, PState(end, st.errors))
    decreases Width(e), 36
  {
    var p := st.pos;
    var target := Variable(p, e.name);
    AssignSpelled(ts, p, e, target);
    StopTokens();
    LevelReads(ts, st, target, 2, p + 1);
    AssignValueReads(ts, st, e.name, e.value, end);
  }

  /** Once the binary levels have read the variable, `= value` completes the
      assignment. */
  lemma {:induction false} AssignValueReads(ts: seq<Token>, st: PState, name: Token, value: Expr, end: nat)
    requires Valid(ts) && st.pos + 1 < |ts| && ts[st.pos] == name && ts[st.pos + 1].kind == EQUAL
    requires Level(ts, st, 2) == Ok(Variable(st.pos, name), PState(st.pos + 1, st.errors))
    requires Spells(ts, st.pos + 2, value) == true && WellNested(value) == true
    requires end == st.pos + 2 + Width(value) && end < |ts| && Stops(ts[end].kind, 1)
    ensures Assignment(ts, st) == Ok(Assign(st.pos, name, value), PState(end, st.errors))
    decreases Width(value), 38
  {
    AssignmentReads(ts, PState(st.pos + 2, st.errors), value, end);
    AssignStep(ts, st, name, value, PState(end, st.errors));
  }

  lemma {:induction false} SetReads(ts: seq<Token>, st: PState, e: Expr, end: nat)
    requires Valid(ts) && e.Set? && Spells(ts, st.pos, e) == true && WellNested(e) == true
    requires end == st.pos + Width(e) && end < |ts| && Stops(ts[end].kind, 1)
    ensures Assignment(ts, st) == Ok(e, PState(end, st.errors))
    decreases Width(e), 36
  {
    var g := Get(e.obj, e.name);
    var q := st.pos + Width(g);
    SetSpelled(ts, st.pos, e, g, q);
    StopTokens();
    LevelReads(ts, st, g, 2, q);
    SetValueReads(ts, st, g, q, e.value, end);
  }

  /** Once the binary levels have read the property access, `= value` completes the
      assignment. */
  lemma {:induction false} SetValueReads(ts: seq<Token>, st: PState, g: Expr, q: nat, value: Expr, end: nat)
    requires Valid(ts) && st.pos < |ts| && g.Get? && q < |ts| && ts[q].kind == EQUAL
    requires Level(ts, st, 2) == Ok(g, PState(q, st.errors))
    requires Spells(ts, q + 1, value) == true && WellNested(value) == true
    requires end == q + 1 + Width(value) && end < |ts| && Stops(ts[end].kind, 1)
    ensures Assignment(ts, st) == Ok(Set(g.obj, g.name, value), PState(end, st.errors))
    decreases Width(value), 38
  {
    AssignmentReads(ts, PState(q + 1, st.errors), value, end);
    SetStep(ts, st, g, q, value, PState(end, st.errors));
  }

  /** A binary level reads back an expression that binds at least as tightly as the
      level, spelled at the cursor, and stops at the first token after it. */
  lemma {:induction false} LevelReads(ts: seq<Token>, st: PState, e: Expr, level: nat, end: nat)
    requires 2 <= level <= 7 && Valid(ts) && Spells(ts, st.pos, e) == true && WellNested(e) == true
    requires Prec(e) >= level
    requires end == st.pos + Width(e) && end < |ts| && Stops(ts[end].kind, level)
    ensures Level(ts, st, level) == Ok(e, PState(end, st.errors))
    decreases Width(e), 4 * (10 - level) + 3
  {
    LevelReaches(ts, st, e, level, end);
    LevelStops(ts, e, PState(end, st.errors), level);
  }

  /** A binary level started at a spelled expression reaches its operator loop just past
      that expression, holding the expression: each operator of the chain was folded in
      on the left. */
  lemma {:induction false} LevelReaches(ts: seq<Token>, st: PState, e: Expr, level: nat, end: nat)
    requires 2 <= level <= 7 && Valid(ts) && Spells(ts, st.pos, e) == true && WellNested(e) == true
    requires Prec(e) >= level
    requires end == st.pos + Width(e) && end < |ts| && Stops(ts[end].kind, level + 1)
    ensures Level(ts, st, level) == LevelRest(ts, e, PState(end, st.errors), level)
    decreases Width(e), 4 * (10 - level) + 2
  {
    if Prec(e) > level {
      OperandReads(ts, st, e, level, end);
      LevelStart(ts, st, e, PState(end, st.errors), level);
    } else {
      NodeReaches(ts, st, e, level, end);
    }
  }

  /** The node case: the left operand's chain, the operator, then the right operand. */
  lemma {:induction false} NodeReaches(ts: seq<Token>, st: PState, e: Expr, level: nat, end: nat)
    requires 2 <= level <= 7 && Valid(ts) && Spells(ts, st.pos, e) == true && WellNested(e) == true
    requires Prec(e) == level
    requires end == st.pos + Width(e) && end < |ts| && Stops(ts[end].kind, level + 1)
    ensures Level(ts, st, level) == LevelRest(ts, e, PState(end, st.errors), level)
    decreases Width(e), 4 * (10 - level) + 1
  {
    assert e.Binary? || e.Logical?;
    var q := st.pos + Width(e.left);
    NodeSpelled(ts, st.pos, e, q);
    NodeRebuilt(e, level);
    OperatorStops(ts[q].kind, level);
    LevelReaches(ts, st, e.left, level, q);
    NodeRightReads(ts, e.left, PState(q, st.errors), e.right, level, end);
  }

  /** A binary level's loop at a spelled operator and right operand folds them in. */
  lemma {:induction false} NodeRightReads(ts: seq<Token>, left: Expr, st: PState, right: Expr, level: nat, end: nat)
    requires 2 <= level <= 7 && Valid(ts) && st.pos < |ts| && OperatorLevel(ts[st.pos].kind) == level
    requires WellNested(left) == true && Prec(left) >= level
    requires Spells(ts, st.pos + 1, right) == true && WellNested(right) == true && Prec(right) > level
    requires end == st.pos + 1 + Width(right) && end < |ts| && Stops(ts[end].kind, level + 1)
    ensures LevelRest(ts, left, st, level) == LevelRest(ts, LevelNode(left, ts[st.pos], right, level), PState(end, st.errors), level)
    decreases Width(right), 4 * (10 - level) + 1
  {
    OperandReads(ts, PState(st.pos + 1, st.errors), right, level, end);
    LevelStep(ts, left, st, right, PState(end, st.errors), level);
  }

  /** The operand of a binary level: the next level up, or `unary` after level 7. */
  lemma {:induction false} OperandReads(ts: seq<Token>, st: PState, e: Expr, level: nat, end: nat)
    requires 2 <= level <= 7 && Valid(ts) && Spells(ts, st.pos, e) == true && WellNested(e) == true
    requires Prec(e) > level
    requires end == st.pos + Width(e) && end < |ts| && Stops(ts[end].kind, level + 1)
    ensures Operand(ts, st, level) == Ok(e, PState(end, st.errors))
    decreases Width(e), 4 * (10 - level)
  {
    if level == 7 {
      UnaryReads(ts, st, e, end);
    } else {
      LevelReads(ts, st, e, level + 1, end);
    }
  }

  /** `unary` reads back a prefix-level expression spelled at the cursor. */
  lemma {:induction false} UnaryReads(ts: seq<Token>, st: PState, e: Expr, end: nat)
    requires Valid(ts) && Spells(ts, st.pos, e) == true && WellNested(e) == true && Prec(e) >= 8
    requires end == st.pos + Width(e) && end < |ts| && Stops(ts[end].kind, 8)
    ensures UnaryExpr(ts, st) == Ok(e, PState(end, st.errors))
    decreases Width(e), 11
  {
    if e.Unary? {
      UnarySpelled(ts, st.pos, e);
      UnaryReads(ts, PState(st.pos + 1, st.errors), e.right, end);
      UnaryStep(ts, st, e.right, PState(end, st.errors));
    } else {
      FirstToken(ts, st.pos, e);
      UnaryPass(ts, st);
      CallReads(ts, st, e, end);
    }
  }

  /** `call` reads back a call-level expression spelled at the cursor. */
  lemma {:induction false} CallReads(ts: seq<Token>, st: PState, e: Expr, end: nat)
    requires Valid(ts) && Spells(ts, st.pos, e) == true && WellNested(e) == true && Prec(e) == 9
    requires end == st.pos + Width(e) && end < |ts| && Stops(ts[end].kind, 9)
    ensures CallExpr(ts, st) == Ok(e, PState(end, st.errors))
    decreases Width(e), 10
  {
    CallReaches(ts, st, e, end);
    CallStops(ts, e, PState(end, st.errors));
  }

  /** `call` started at a spelled call-level expression reaches its suffix loop just past
      it, holding it: each suffix was folded in on the left. */
  lemma {:induction false} CallReaches(ts: seq<Token>, st: PState, e: Expr, end: nat)
    requires Valid(ts) && Spells(ts, st.pos, e) == true && WellNested(e) == true && Prec(e) == 9
    requires end == st.pos + Width(e) && end < |ts|
    ensures CallExpr(ts, st) == CallRest(ts, e, PState(end, st.errors))
    decreases Width(e), 9
  {
    if e.Call? {
      CallNodeReaches(ts, st, e, end);
    } else if e.Get? {
      GetNodeReaches(ts, st, e, end);
    } else {
      PrimaryReads(ts, st, e, end);
      CallStart(ts, st, e, PState(end, st.errors));
    }
  }

  lemma {:induction false} CallNodeReaches(ts: seq<Token>, st: PState, e: Expr, end: nat)
    requires Valid(ts) && e.Call? && Spells(ts, st.pos, e) == true && WellNested(e) == true
    requires end == st.pos + Width(e) && end < |ts|
    ensures CallExpr(ts, st) == CallRest(ts, e, PState(end, st.errors))
    decreases Width(e), 8
  {
    var q := st.pos + Width(e.callee);
    var close := end - 1;
    CallSpelled(ts, st.pos, e, q, close);
    CallSuffixReads(ts, e, PState(q, st.errors), close, PState(end, st.errors));
    CallReaches(ts, st, e.callee, q);
  }

  /** The suffix loop at a spelled `( arguments )` after the callee folds in the call. */
  lemma {:induction false} CallSuffixReads(ts: seq<Token>, e: Expr, st: PState, close: nat, s: PState)
    requires Valid(ts) && e.Call? && WellNested(e.callee) == true && Prec(e.callee) == 9
    requires st.pos < |ts| && ts[st.pos].kind == LEFT_PAREN
    requires SpellsArgs(ts, st.pos + 1, e.arguments) == true && AllNested(e.arguments) == true
    requires |e.arguments| <= 255 && close == st.pos + 1 + ArgsWidth(e.arguments)
    requires close < |ts| && ts[close] == e.paren && e.paren.kind == RIGHT_PAREN
    requires s.pos == close + 1 && s.errors == st.errors
    ensures CallRest(ts, e.callee, st) == CallRest(ts, e, s)
    decreases ArgsWidth(e.arguments), 41
  {
    assert Call(e.callee, ts[close], e.arguments) == e;
    FinishCallReads(ts, PState(st.pos + 1, st.errors), e.callee, e.arguments, close, s.pos);
    CallStep(ts, e.callee, st, e, s);
  }

  lemma {:induction false} GetNodeReaches(ts: seq<Token>, st: PState, e: Expr, end: nat)
    requires Valid(ts) && e.Get? && Spells(ts, st.pos, e) == true && WellNested(e) == true
    requires end == st.pos + Width(e) && end < |ts|
    ensures CallExpr(ts, st) == CallRest(ts, e, PState(end, st.errors))
    decreases Width(e), 8
  {
    var q := st.pos + Width(e.obj);
    GetSpelled(ts, st.pos, e, q);
    assert Get(e.obj, ts[q + 1]) == e;
    GetStep(ts, e.obj, PState(q, st.errors), PState(end, st.errors));
    CallReaches(ts, st, e.obj, q);
  }

  /** `finishCall`, entered after the `(`, reads back spelled arguments and the `)` at
      `close`. */
  lemma {:induction false} FinishCallReads(ts: seq<Token>, st: PState, callee: Expr, args: seq<Expr>, close: nat, after: nat)
    requires Valid(ts) && WellNested(callee) == true && Prec(callee) == 9
    requires SpellsArgs(ts, st.pos, args) == true && AllNested(args) == true && |args| <= 255
    requires close == st.pos + ArgsWidth(args) && close < |ts| && ts[close].kind == RIGHT_PAREN
    requires after == close + 1
    ensures FinishCall(ts, callee, st) == Ok(Call(callee, ts[close], args), PState(after, st.errors))
    decreases ArgsWidth(args), 40
  {
    ArgumentListStep(ts, st);
    if |args| > 0 {
      ArgsSpelled(ts, st.pos, args);
      FirstToken(ts, st.pos, args[0]);
      ArgumentsReads(ts, st, [], args, close);
      assert [] + args == args;
    }
    FinishStep(ts, callee, st, args, PState(close, st.errors), after);
  }

  /** The argument loop reads back spelled arguments, up to the `)` at `close`. */
  lemma {:induction false} ArgumentsReads(ts: seq<Token>, st: PState, acc: seq<Expr>, rest: seq<Expr>, close: nat)
    requires Valid(ts) && |rest| > 0 && |acc| + |rest| <= 255
    requires AllNested(acc) == true && AllNested(rest) == true
    requires SpellsArgs(ts, st.pos, rest) == true && close == st.pos + ArgsWidth(rest) && close < |ts|
    requires ts[close].kind == RIGHT_PAREN
    ensures Arguments(ts, st, acc) == Ok(acc + rest, PState(close, st.errors))
    decreases ArgsWidth(rest), 39
  {
    ArgsSpelled(ts, st.pos, rest);
    if |rest| == 1 {
      LastArgumentReads(ts, st, acc, rest[0], close);
      assert acc + [rest[0]] == acc + rest;
    } else {
      MoreArgumentsReads(ts, st, acc, rest, close);
    }
  }

  /** The last argument, ending at the `)` at `close`. */
  lemma {:induction false} LastArgumentReads(ts: seq<Token>, st: PState, acc: seq<Expr>, e: Expr, close: nat)
    requires Valid(ts) && |acc| < 255 && AllNested(acc) == true
    requires Spells(ts, st.pos, e) == true && WellNested(e) == true
    requires close == st.pos + Width(e) && close < |ts| && ts[close].kind == RIGHT_PAREN
    ensures Arguments(ts, st, acc) == Ok(acc + [e], PState(close, st.errors))
    decreases Width(e), 38
  {
    AssignmentReads(ts, st, e, close);
    ArgumentsStep(ts, st, acc, e, PState(close, st.errors));
  }

  /** An argument followed by a comma and further arguments. */
  lemma {:induction false} MoreArgumentsReads(ts: seq<Token>, st: PState, acc: seq<Expr>, rest: seq<Expr>, close: nat)
    requires Valid(ts) && |rest| > 1 && |acc| + |rest| <= 255
    requires AllNested(acc) == true && AllNested(rest[1..]) == true && WellNested(rest[0]) == true
    requires Spells(ts, st.pos, rest[0]) == true
    requires st.pos + Width(rest[0]) < |ts| && ts[st.pos + Width(rest[0])].kind == COMMA
    requires SpellsArgs(ts, st.pos + Width(rest[0]) + 1, rest[1..]) == true
    requires close == st.pos + ArgsWidth(rest) && ArgsWidth(rest) == Width(rest[0]) + 1 + ArgsWidth(rest[1..])
    requires close < |ts| && ts[close].kind == RIGHT_PAREN
    ensures Arguments(ts, st, acc) == Ok(acc + rest, PState(close, st.errors))
    decreases ArgsWidth(rest), 38
  {
    var e := rest[0];
    var q := st.pos + Width(e);
    var more := acc + [e];
    AllNestedSnoc(acc, e);
    assert more + rest[1..] == acc + rest;
    ArgumentsReads(ts, PState(q + 1, st.errors), more, rest[1..], close);
    AssignmentReads(ts, st, e, q);
    ArgumentsStep(ts, st, acc, e, PState(q, st.errors));
  }

  /** `primary` reads back a literal, `super.name`, `this`, a variable or a grouping
      spelled at the cursor. */
  lemma {:induction false} PrimaryReads(ts: seq<Token>, st: PState, e: Expr, end: nat)
    requires Valid(ts) && Spells(ts, st.pos, e) == true && WellNested(e) == true
    requires end == st.pos + Width(e) && end < |ts|
    requires Prec(e) == 9 && !e.Call? && !e.Get?
    ensures Primary(ts, st) == Ok(e, PState(end, st.errors))
    decreases Width(e), 7
  {
    if e.Grouping? {
      var close := end - 1;
      GroupingSpelled(ts, st.pos, e, close);
      AssignmentReads(ts, PState(st.pos + 1, st.errors), e.expression, close);
      GroupingStep(ts, st, e.expression, PState(close, st.errors), end);
    } else if e.Super? {
      SuperSpelledStep(ts, st, e, end);
    } else {
      AtomStep(ts, st, e);
    }
  }

  /** `primary` reads back a spelled `super.name`. */
  lemma SuperSpelledStep(ts: seq<Token>, st: PState, e: Expr, end: nat)
    requires Valid(ts) && e.Super? && Spells(ts, st.pos, e) == true && end == st.pos + Width(e)
    ensures Primary(ts, st) == Ok(e, PState(end, st.errors))
  {
    SuperStep(ts, st);
  }

  /** The parser reads back every well-nested tree spelled at the start of a token list
      that ends there: no error is reported and every token before the end is read. */
  lemma ParseReadsSpelled(ts: seq<Token>, e: Expr)
    requires Valid(ts) && Spells(ts, 0, e) == true && WellNested(e) == true && Width(e) == |ts| - 1
    ensures ParseExpression(ts, PState(0, [])) == Ok(e, PState(|ts| - 1, []))
  {
    AssignmentReads(ts, PState(0, []), e, |ts| - 1);
  }

  // ---------------------------------------------------------------------------
  // The printer spells its input

  /** A binary or logical node is spelled by its left operand, its operator at `q`
      and its right operand. */
  lemma NodeSpellsIntro(ts: seq<Token>, p: nat, e: Expr, q: nat)
    requires (e.Binary? || e.Logical?) && Spells(ts, p, e.left) == true && q == p + Width(e.left)
    requires q < |ts| && ts[q] == e.operator && Spells(ts, q + 1, e.right) == true
    ensures Spells(ts, p, e) == true && Width(e) == q - p + 1 + Width(e.right)
  {
  }

  /** A call is spelled by its callee, `(` at `q`, its arguments and its `)`. */
  lemma CallSpellsIntro(ts: seq<Token>, p: nat, e: Expr, q: nat, close: nat)
    requires e.Call? && Spells(ts, p, e.callee) == true && q == p + Width(e.callee)
    requires close == q + 1 + ArgsWidth(e.arguments)
    requires close < |ts| && ts[q].kind == LEFT_PAREN && |e.arguments| <= 255
    requires SpellsArgs(ts, q + 1, e.arguments) == true
    requires ts[close] == e.paren && e.paren.kind == RIGHT_PAREN
    ensures Spells(ts, p, e) == true && Width(e) == close + 1 - p
  {
  }

  /** A property assignment is spelled by its object, `. name =` from `q` on, and its
      value. */
  lemma SetSpellsIntro(ts: seq<Token>, p: nat, e: Expr, q: nat)
    requires e.Set? && Spells(ts, p, e.obj) == true && q == p + Width(e.obj) && q + 2 < |ts|
    requires ts[q].kind == DOT && ts[q + 1] == e.name && e.name.kind == IDENTIFIER && ts[q + 2].kind == EQUAL
    requires Spells(ts, q + 3, e.value) == true
    ensures Spells(ts, p, e) == true && Width(e) == q - p + 3 + Width(e.value)
  {
  }

  /** Arguments are spelled by the first, a comma at `q` and the rest. */
  lemma ArgsSpellsIntro(ts: seq<Token>, p: nat, es: seq<Expr>, q: nat)
    requires |es| > 1 && Spells(ts, p, es[0]) == true && q == p + Width(es[0])
    requires q < |ts| && ts[q].kind == COMMA && SpellsArgs(ts, q + 1, es[1..]) == true
    ensures SpellsArgs(ts, p, es) == true && ArgsWidth(es) == q - p + 1 + ArgsWidth(es[1..])
  {
  }

  /** `Print(e)` placed from index `p` to `n` spells `e`, when the tree's tokens have
      the kinds the grammar reads them as and its ids are their indexes. */
  lemma {:induction false} PrintSpells(ts: seq<Token>, p: nat, e: Expr, n: nat)
    requires n == p + |Print(e)| && n <= |ts| && ts[p..n] == Print(e)
    requires Printable(e) == true && Numbered(e, p) == true
    ensures Spells(ts, p, e) == true && Width(e) == n - p
    decreases e, 2
  {
    if e.Assign? {
      PrintAssignSpells(ts, p, e, n);
    } else if e.Binary? || e.Logical? {
      PrintNodeSpells(ts, p, e, n);
    } else if e.Call? {
      PrintCallSpells(ts, p, e, n);
    } else if e.Get? {
      PrintGetSpells(ts, p, e, n);
    } else if e.Grouping? {
      PrintGroupingSpells(ts, p, e, n);
    } else if e.Set? {
      PrintSetSpells(ts, p, e, n);
    } else if e.Unary? {
      PrintUnarySpells(ts, p, e, n);
    } else {
      Pick(ts, p, n, Print(e), 0, p);
      if e.Super? {
        Pick(ts, p, n, Print(e), 1, p + 1);
        Pick(ts, p, n, Print(e), 2, p + 2);
      }
    }
  }

  lemma {:induction false} PrintAssignSpells(ts: seq<Token>, p: nat, e: Expr, n: nat)
    requires e.Assign? && n == p + |Print(e)| && n <= |ts| && ts[p..n] == Print(e)
    requires Printable(e) == true && Numbered(e, p) == true
    ensures Spells(ts, p, e) == true && Width(e) == n - p
    decreases e, 1
  {
    var eq := Punct(EQUAL, "=");
    assert Print(e) == [e.name, eq] + Print(e.value);
    Split(ts, p, p + 2, n, [e.name, eq], Print(e.value));
    Pick(ts, p, p + 2, [e.name, eq], 0, p);
    Pick(ts, p, p + 2, [e.name, eq], 1, p + 1);
    PrintSpells(ts, p + 2, e.value, n);
  }

  /** The parts of a printed binary or logical node. */
  lemma NodeParts(e: Expr, p: nat, q: nat)
    requires (e.Binary? || e.Logical?) && q == p + |Print(e.left)|
    requires Printable(e) == true && Numbered(e, p) == true
    ensures Print(e) == Print(e.left) + [e.operator] + Print(e.right)
    ensures Printable(e.left) == true && Printable(e.right) == true
    ensures Numbered(e.left, p) == true && Numbered(e.right, q + 1) == true
  {
  }

  /** Where the parts of a printed binary or logical node sit. */
  lemma NodeSlices(ts: seq<Token>, p: nat, l: seq<Token>, op: Token, r: seq<Token>, q: nat, n: nat)
    requires q == p + |l| && n == q + 1 + |r| && n <= |ts| && ts[p..n] == l + [op] + r
    ensures ts[p..q] == l && ts[q] == op && ts[q + 1..n] == r
  {
    Split(ts, p, q + 1, n, l + [op], r);
    Split(ts, p, q, q + 1, l, [op]);
    Pick(ts, q, q + 1, [op], 0, q);
  }

  lemma {:induction false} PrintNodeSpells(ts: seq<Token>, p: nat, e: Expr, n: nat)
    requires (e.Binary? || e.Logical?) && n == p + |Print(e)| && n <= |ts| && ts[p..n] == Print(e)
    requires Printable(e) == true && Numbered(e, p) == true
    ensures Spells(ts, p, e) == true && Width(e) == n - p
    decreases e, 1
  {
    var q := p + |Print(e.left)|;
    NodeParts(e, p, q);
    NodeSlices(ts, p, Print(e.left), e.operator, Print(e.right), q, n);
    PrintSpells(ts, p, e.left, q);
    PrintSpells(ts, q + 1, e.right, n);
    NodeSpellsIntro(ts, p, e, q);
  }

  /** The parts of a printed call. */
  lemma CallParts(e: Expr, p: nat, q: nat)
    requires e.Call? && q == p + |Print(e.callee)|
    requires Printable(e) == true && Numbered(e, p) == true
    ensures Print(e) == Print(e.callee) + [Punct(LEFT_PAREN, "(")] + (PrintArgs(e.arguments) + [e.paren])
    ensures Printable(e.callee) == true && AllPrintable(e.arguments) == true
    ensures |e.arguments| <= 255 && e.paren.kind == RIGHT_PAREN
    ensures Numbered(e.callee, p) == true && NumberedArgs(e.arguments, q + 1) == true
  {
  }

  /** Where the parts of a printed call sit. */
  lemma CallSlices(ts: seq<Token>, p: nat, e: Expr, n: nat, q: nat, close: nat)
    requires e.Call? && q == p + |Print(e.callee)| && close == q + 1 + |PrintArgs(e.arguments)|
    requires n == close + 1 && n <= |ts|
    requires ts[p..n] == Print(e.callee) + [Punct(LEFT_PAREN, "(")] + (PrintArgs(e.arguments) + [e.paren])
    ensures ts[p..q] == Print(e.callee) && ts[q].kind == LEFT_PAREN
    ensures ts[q + 1..close] == PrintArgs(e.arguments) && ts[close] == e.paren
  {
    var lp := Punct(LEFT_PAREN, "(");
    Split(ts, p, q + 1, n, Print(e.callee) + [lp], PrintArgs(e.arguments) + [e.paren]);
    Split(ts, p, q, q + 1, Print(e.callee), [lp]);
    Split(ts, q + 1, close, n, PrintArgs(e.arguments), [e.paren]);
    Pick(ts, q, q + 1, [lp], 0, q);
    Pick(ts, close, n, [e.paren], 0, close);
  }

  lemma {:induction false} PrintCallSpells(ts: seq<Token>, p: nat, e: Expr, n: nat)
    requires e.Call? && n == p + |Print(e)| && n <= |ts| && ts[p..n] == Print(e)
    requires Printable(e) == true && Numbered(e, p) == true
    ensures Spells(ts, p, e) == true && Width(e) == n - p
    decreases e, 1
  {
    var q := p + |Print(e.callee)|;
    var close := q + 1 + |PrintArgs(e.arguments)|;
    CallParts(e, p, q);
    CallSlices(ts, p, e, n, q, close);
    PrintSpells(ts, p, e.callee, q);
    PrintSpellsArgs(ts, q + 1, e.arguments, close);
    CallSpellsIntro(ts, p, e, q, close);
  }

  lemma {:induction false} PrintGetSpells(ts: seq<Token>, p: nat, e: Expr, n: nat)
    requires e.Get? && n == p + |Print(e)| && n <= |ts| && ts[p..n] == Print(e)
    requires Printable(e) == true && Numbered(e, p) == true
    ensures Spells(ts, p, e) == true && Width(e) == n - p
    decreases e, 1
  {
    var dot := Punct(DOT, ".");
    var q := p + |Print(e.obj)|;
    assert Print(e) == Print(e.obj) + [dot, e.name];
    Split(ts, p, q, n, Print(e.obj), [dot, e.name]);
    Pick(ts, q, n, [dot, e.name], 0, q);
    Pick(ts, q, n, [dot, e.name], 1, q + 1);
    PrintSpells(ts, p, e.obj, q);
  }

  lemma {:induction false} PrintGroupingSpells(ts: seq<Token>, p: nat, e: Expr, n: nat)
    requires e.Grouping? && n == p + |Print(e)| && n <= |ts| && ts[p..n] == Print(e)
    requires Printable(e) == true && Numbered(e, p) == true
    ensures Spells(ts, p, e) == true && Width(e) == n - p
    decreases e, 1
  {
    var inner := e.expression;
    var lp, rp := Punct(LEFT_PAREN, "("), Punct(RIGHT_PAREN, ")");
    assert Print(e) == [lp] + Print(inner) + [rp];
    Split(ts, p, n - 1, n, [lp] + Print(inner), [rp]);
    Split(ts, p, p + 1, n - 1, [lp], Print(inner));
    Pick(ts, p, p + 1, [lp], 0, p);
    Pick(ts, n - 1, n, [rp], 0, n - 1);
    PrintSpells(ts, p + 1, inner, n - 1);
  }

  lemma {:induction false} PrintSetSpells(ts: seq<Token>, p: nat, e: Expr, n: nat)
    requires e.Set? && n == p + |Print(e)| && n <= |ts| && ts[p..n] == Print(e)
    requires Printable(e) == true && Numbered(e, p) == true
    ensures Spells(ts, p, e) == true && Width(e) == n - p
    decreases e, 1
  {
    var tail := [Punct(DOT, "."), e.name, Punct(EQUAL, "=")];
    var q := p + |Print(e.obj)|;
    SetParts(e, p, q);
    Split(ts, p, q + 3, n, Print(e.obj) + tail, Print(e.value));
    Split(ts, p, q, q + 3, Print(e.obj), tail);
    Pick(ts, q, q + 3, tail, 0, q);
    Pick(ts, q, q + 3, tail, 1, q + 1);
    Pick(ts, q, q + 3, tail, 2, q + 2);
    PrintSpells(ts, p, e.obj, q);
    PrintSpells(ts, q + 3, e.value, n);
    SetSpellsIntro(ts, p, e, q);
  }

  /** The parts of a printed property assignment. */
  lemma SetParts(e: Expr, p: nat, q: nat)
    requires e.Set? && q == p + |Print(e.obj)|
    requires Printable(e) == true && Numbered(e, p) == true
    ensures Print(e) == Print(e.obj) + [Punct(DOT, "."), e.name, Punct(EQUAL, "=")] + Print(e.value)
    ensures Printable(e.obj) == true && Printable(e.value) == true && e.name.kind == IDENTIFIER
    ensures Numbered(e.obj, p) == true && Numbered(e.value, q + 3) == true
  {
  }

  lemma {:induction false} PrintUnarySpells(ts: seq<Token>, p: nat, e: Expr, n: nat)
    requires e.Unary? && n == p + |Print(e)| && n <= |ts| && ts[p..n] == Print(e)
    requires Printable(e) == true && Numbered(e, p) == true
    ensures Spells(ts, p, e) == true && Width(e) == n - p
    decreases e, 1
  {
    assert Print(e) == [e.operator] + Print(e.right);
    Split(ts, p, p + 1, n, [e.operator], Print(e.right));
    Pick(ts, p, p + 1, [e.operator], 0, p);
    PrintSpells(ts, p + 1, e.right, n);
  }

  /** Every argument is printable. */
  predicate AllPrintable(es: seq<Expr>) {
    forall a :: a in es ==> Printable(a)
  }

  /** The parts of printed arguments: the first, a comma at `q` and the rest. */
  lemma ArgsParts(es: seq<Expr>, p: nat, q: nat)
    requires |es| > 1 && q == p + |Print(es[0])|
    requires AllPrintable(es) == true && NumberedArgs(es, p) == true
    ensures PrintArgs(es) == Print(es[0]) + [Punct(COMMA, ",")] + PrintArgs(es[1..])
    ensures Printable(es[0]) == true && AllPrintable(es[1..]) == true
    ensures Numbered(es[0], p) == true && NumberedArgs(es[1..], q + 1) == true
  {
    assert es[0] in es;
    forall a | a in es[1..]
      ensures Printable(a)
    {
      assert a in es;
    }
  }

  lemma {:induction false} PrintSpellsArgs(ts: seq<Token>, p: nat, es: seq<Expr>, n: nat)
    requires n == p + |PrintArgs(es)| && n <= |ts| && ts[p..n] == PrintArgs(es)
    requires AllPrintable(es) == true && NumberedArgs(es, p) == true
    ensures SpellsArgs(ts, p, es) == true && ArgsWidth(es) == n - p
    decreases es, 1
  {
    if |es| == 1 {
      PrintSpellsLastArg(ts, p, es, n);
    } else if |es| > 1 {
      PrintSpellsMoreArgs(ts, p, es, n);
    }
  }

  lemma {:induction false} PrintSpellsLastArg(ts: seq<Token>, p: nat, es: seq<Expr>, n: nat)
    requires |es| == 1 && n == p + |PrintArgs(es)| && n <= |ts| && ts[p..n] == PrintArgs(es)
    requires AllPrintable(es) == true && NumberedArgs(es, p) == true
    ensures SpellsArgs(ts, p, es) == true && ArgsWidth(es) == n - p
    decreases es, 0
  {
    assert es[0] in es;
    PrintSpells(ts, p, es[0], n);
  }

  lemma {:induction false} PrintSpellsMoreArgs(ts: seq<Token>, p: nat, es: seq<Expr>, n: nat)
    requires |es| > 1 && n == p + |PrintArgs(es)| && n <= |ts| && ts[p..n] == PrintArgs(es)
    requires AllPrintable(es) == true && NumberedArgs(es, p) == true
    ensures SpellsArgs(ts, p, es) == true && ArgsWidth(es) == n - p
    decreases es, 0
  {
    var comma := Punct(COMMA, ",");
    var q := p + |Print(es[0])|;
    ArgsParts(es, p, q);
    Split(ts, p, q + 1, n, Print(es[0]) + [comma], PrintArgs(es[1..]));
    Split(ts, p, q, q + 1, Print(es[0]), [comma]);
    Pick(ts, q, q + 1, [comma], 0, q);
    PrintSpells(ts, p, es[0], q);
    PrintSpellsArgs(ts, q + 1, es[1..], n);
    ArgsSpellsIntro(ts, p, es, q);
  }

  /** Printing a well-nested expression whose tokens have the grammar's kinds and whose
      reference ids are its token indexes, then parsing the tokens followed by the end
      of input, gives the expression back, with no error reported and every token
      read. */
  lemma PrintThenParse(e: Expr, eof: Token)
    requires eof.kind == EOF && Printable(e) && WellNested(e) && Numbered(e, 0)
    ensures ParseExpression(Print(e) + [eof], PState(0, [])) == Ok(e, PState(|Print(e)|, []))
  {
    var ts := Print(e) + [eof];
    assert ts[0..|Print(e)|] == Print(e);
    PrintSpells(ts, 0, e, |Print(e)|);
    ParseReadsSpelled(ts, e);
    assert |ts| - 1 == |Print(e)|;
  }

  // ---------------------------------------------------------------------------
  // Slicing the printed tokens

  lemma Split(ts: seq<Token>, p: nat, m: nat, n: nat, a: seq<Token>, b: seq<Token>)
    requires m == p + |a| && n == m + |b| && n <= |ts| && ts[p..n] == a + b
    ensures ts[p..m] == a && ts[m..n] == b
  {
    assert ts[p..m] == ts[p..n][..|a|];
    assert ts[m..n] == ts[p..n][|a|..];
  }

  lemma Pick(ts: seq<Token>, p: nat, n: nat, s: seq<Token>, i: nat, k: nat)
    requires n == p + |s| && n <= |ts| && ts[p..n] == s && i < |s| && k == p + i
    ensures ts[k] == s[i]
  {
    assert ts[k] == ts[p..n][i];
  }
}
