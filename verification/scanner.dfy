/** The scanner (src/com/sabino/lox/Scanner.kt): one left-to-right pass over the source
    text that turns it into tokens. Each lexeme is scanned by a pure function from the
    position where it starts; `ScanTokens` is the driving loop. Errors are never thrown:
    they are collected, in order, for the error-reporting hook. */
module Scanner {
  import opened Wrappers
  import opened Tokens

  /** A report sent to the error hook: a line number and a message. */
  datatype ScanError = ScanError(line: nat, message: string)

  /** What scanning one lexeme produced: where the next lexeme starts, the line counter
      afterwards, the token emitted (if any) and the error reported (if any). */
  datatype Step = Step(next: nat, line: nat, token: Option<Token>, error: Option<ScanError>)

  predicate IsDigit(c: char) {
    '0' <= c <= '9'
  }

  predicate IsAlpha(c: char) {
    ('a' <= c <= 'z') || ('A' <= c <= 'Z') || c == '_'
  }

  predicate IsAlphaNumeric(c: char) {
    IsAlpha(c) || IsDigit(c)
  }

  /** Number of newline characters in `s`. */
  function Newlines(s: seq<char>): nat {
    if |s| == 0 then 0
    else Newlines(s[..|s| - 1]) + (if s[|s| - 1] == '\n' then 1 else 0)
  }

  lemma {:induction false} NewlinesAppend(a: seq<char>, b: seq<char>)
    ensures Newlines(a + b) == Newlines(a) + Newlines(b)
    decreases |b|
  {
    if |b| == 0 {
      assert a + b == a;
    } else {
      var b' := b[..|b| - 1];
      assert (a + b)[..|a + b| - 1] == a + b';
      NewlinesAppend(a, b');
    }
  }

  lemma {:induction false} NewlinesNone(s: seq<char>)
    requires forall k :: 0 <= k < |s| ==> s[k] != '\n'
    ensures Newlines(s) == 0
    decreases |s|
  {
    if |s| > 0 {
      NewlinesNone(s[..|s| - 1]);
    }
  }

  lemma NewlinesBetween(src: seq<char>, i: nat, j: nat)
    requires i <= j <= |src|
    requires forall k :: i <= k < j ==> src[k] != '\n'
    ensures Newlines(src[i..j]) == 0
  {
    NewlinesNone(src[i..j]);
  }

  /** The sixteen reserved words and their token kinds (Scanner.kt:13-28). */
  const Keywords: map<string, TokenType> :=
    map["and" := AND, "class" := CLASS, "else" := ELSE, "false" := FALSE,
        "for" := FOR, "fun" := FUN, "if" := IF, "nil" := NIL,
        "or" := OR, "print" := PRINT, "return" := RETURN, "super" := SUPER,
        "this" := THIS, "true" := TRUE, "var" := VAR, "while" := WHILE]

  /** Token kind of a character that always forms a token on its own. */
  function SingleCharKind(c: char): Option<TokenType> {
    match c
    case '(' => Some(LEFT_PAREN)
    case ')' => Some(RIGHT_PAREN)
    case '{' => Some(LEFT_BRACE)
    case '}' => Some(RIGHT_BRACE)
    case ',' => Some(COMMA)
    case '.' => Some(DOT)
    case '-' => Some(MINUS)
    case '+' => Some(PLUS)
    case ';' => Some(SEMICOLON)
    case '*' => Some(STAR)
    case _ => None
  }

  /** The characters that start a one-or-two character operator. */
  predicate IsOperatorStart(c: char) {
    c == '!' || c == '=' || c == '<' || c == '>'
  }

  /** Token kind of an operator start `c`, alone or followed by `=`. */
  function OperatorKind(c: char, withEqual: bool): TokenType
    requires IsOperatorStart(c)
  {
    match c
    case '!' => if withEqual then BANG_EQUAL else BANG
    case '=' => if withEqual then EQUAL_EQUAL else EQUAL
    case '<' => if withEqual then LESS_EQUAL else LESS
    case '>' => if withEqual then GREATER_EQUAL else GREATER
  }

  /** End of the maximal run of digits that starts at `i`. */
  function DigitRunEnd(src: string, i: nat): (j: nat)
    requires i <= |src|
    ensures i <= j <= |src|
    ensures forall k :: i <= k < j ==> IsDigit(src[k])
    ensures j == |src| || !IsDigit(src[j])
    decreases |src| - i
  {
    if i < |src| && IsDigit(src[i]) then DigitRunEnd(src, i + 1) else i
  }

  /** End of the maximal run of letters, digits and underscores that starts at `i`. */
  function WordRunEnd(src: string, i: nat): (j: nat)
    requires i <= |src|
    ensures i <= j <= |src|
    ensures forall k :: i <= k < j ==> IsAlphaNumeric(src[k])
    ensures j == |src| || !IsAlphaNumeric(src[j])
    decreases |src| - i
  {
    if i < |src| && IsAlphaNumeric(src[i]) then WordRunEnd(src, i + 1) else i
  }

  /** Position of the first character `c` at or after `i`, or the end of the text. */
  function FindChar(src: string, i: nat, c: char): (j: nat)
    requires i <= |src|
    ensures i <= j <= |src|
    ensures forall k :: i <= k < j ==> src[k] != c
    ensures j == |src| || src[j] == c
    decreases |src| - i
  {
    if i < |src| && src[i] != c then FindChar(src, i + 1, c) else i
  }

  /** Value of a run of decimal digits. */
  function DigitsValue(ds: seq<char>): nat
    requires forall k :: 0 <= k < |ds| ==> IsDigit(ds[k])
  {
    if |ds| == 0 then 0
    else
      var d := ds[|ds| - 1];
      assert IsDigit(d);
      10 * DigitsValue(ds[..|ds| - 1]) + ((d as int) - ('0' as int))
  }

  function Pow10(n: nat): (p: nat)
    ensures p > 0
  {
    if n == 0 then 1 else 10 * Pow10(n - 1)
  }

  /** The token whose lexeme is `src[start..next]`, added at line `line`. */
  function Emit(kind: TokenType, src: string, start: nat, next: nat, literal: LiteralValue, line: nat): Token
    requires start <= next <= |src|
  {
    Token(kind, src[start..next], literal, line)
  }

  /** `!`, `=`, `<` or `>` at `start`, taking a following `=` when there is one
      (Scanner.kt:55-58, with `match` at :85-90). */
  function ScanOperator(src: string, start: nat, line: nat): (s: Step)
    requires start < |src| && IsOperatorStart(src[start])
    ensures (start + 1 < |src| && src[start + 1] == '=') <==> s.next == start + 2
    ensures !(start + 1 < |src| && src[start + 1] == '=') <==> s.next == start + 1
    ensures s.token == Some(Token(OperatorKind(src[start], s.next == start + 2), src[start..s.next], NilLit, line))
    ensures s.line == line && s.error == None
  {
    var withEqual := start + 1 < |src| && src[start + 1] == '=';
    var next := if withEqual then start + 2 else start + 1;
    Step(next, line, Some(Emit(OperatorKind(src[start], withEqual), src, start, next, NilLit, line)), None)
  }

  /** `/` at `start`: a line comment when another `/` follows, a SLASH token otherwise
      (Scanner.kt:100-107). */
  function ScanSlash(src: string, start: nat, line: nat): (s: Step)
    requires start < |src| && src[start] == '/'
    ensures s.line == line && s.error == None
    ensures start + 1 < |src| && src[start + 1] == '/' ==>
      && s.token == None
      && start + 2 <= s.next <= |src|
      && (forall k :: start <= k < s.next ==> src[k] != '\n')
      && (s.next == |src| || src[s.next] == '\n')
    ensures !(start + 1 < |src| && src[start + 1] == '/') ==>
      s.token == Some(Token(SLASH, "/", NilLit, line)) && s.next == start + 1
  {
    if start + 1 < |src| && src[start + 1] == '/' then
      Step(FindChar(src, start + 2, '\n'), line, None, None)
    else
      assert src[start..start + 1] == "/";
      Step(start + 1, line, Some(Emit(SLASH, src, start, start + 1, NilLit, line)), None)
  }

  /** A string literal whose opening quote is at `start` (Scanner.kt:109-124). */
  function ScanString(src: string, start: nat, line: nat): (s: Step)
    requires start < |src| && src[start] == '"'
    ensures start < s.next <= |src|
    ensures s.line == line + Newlines(src[start..s.next])
    ensures (exists k :: start < k < |src| && src[k] == '"') <==> s.token.Some?
    ensures s.token.None? ==>
      s.next == |src| && s.error == Some(ScanError(s.line, "Unterminated string."))
    ensures s.token.Some? ==>
      && s.error == None
      && start + 2 <= s.next
      && src[s.next - 1] == '"'
      && (forall k :: start < k < s.next - 1 ==> src[k] != '"')
      && s.token.value == Token(STRING, src[start..s.next], StrLit(src[start + 1..s.next - 1]), s.line)
  {
    var close := FindChar(src, start + 1, '"');
    var line' := line + Newlines(src[start + 1..close]);
    QuotesAddNoLines(src, start, close);
    if close == |src| then
      Step(close, line', None, Some(ScanError(line', "Unterminated string.")))
    else
      Step(close + 1, line', Some(Emit(STRING, src, start, close + 1, StrLit(src[start + 1..close]), line')), None)
  }

  /** The quotes around a string's contents add no line. */
  lemma QuotesAddNoLines(src: string, start: nat, close: nat)
    requires start < close <= |src| && src[start] == '"'
    ensures Newlines(src[start..close]) == Newlines(src[start + 1..close])
    ensures close < |src| && src[close] == '"' ==>
      Newlines(src[start..close + 1]) == Newlines(src[start + 1..close])
  {
    assert src[start..close] == [src[start]] + src[start + 1..close];
    NewlinesAppend([src[start]], src[start + 1..close]);
    if close < |src| {
      assert src[start..close + 1] == src[start..close] + [src[close]];
      NewlinesAppend(src[start..close], [src[close]]);
    }
  }

  /** A number literal whose first digit is at `start` (Scanner.kt:139-147): the maximal
      digit run, then a `.` and a further digit run only when a digit follows the dot. */
  function ScanNumber(src: string, start: nat, line: nat): (s: Step)
    requires start < |src| && IsDigit(src[start])
    ensures start < s.next <= |src|
    ensures s.line == line && s.error == None
    ensures forall k :: start <= k < s.next ==> IsDigit(src[k]) || src[k] == '.'
    ensures s.next == |src| || !IsDigit(src[s.next])
    ensures var intEnd := DigitRunEnd(src, start);
      && start < intEnd <= s.next
      && (intEnd + 1 < |src| && src[intEnd] == '.' && IsDigit(src[intEnd + 1]) <==> s.next > intEnd)
    ensures s.token.Some? && s.token.value.kind == NUMBER && s.token.value.lexeme == src[start..s.next]
    ensures s.token.value.line == line && s.token.value.literal.NumLit?
  {
    var intEnd := DigitRunEnd(src, start);
    if intEnd + 1 < |src| && src[intEnd] == '.' && IsDigit(src[intEnd + 1]) then
      var end := DigitRunEnd(src, intEnd + 1);
      var value := DigitsValue(src[start..intEnd]) as real
        + (DigitsValue(src[intEnd + 1..end]) as real) / (Pow10(end - intEnd - 1) as real);
      Step(end, line, Some(Emit(NUMBER, src, start, end, NumLit(value), line)), None)
    else
      Step(intEnd, line, Some(Emit(NUMBER, src, start, intEnd, NumLit(DigitsValue(src[start..intEnd]) as real), line)), None)
  }

  /** An identifier or keyword whose first character is at `start` (Scanner.kt:149-157). */
  function ScanIdentifier(src: string, start: nat, line: nat): (s: Step)
    requires start < |src| && IsAlpha(src[start])
    ensures start < s.next <= |src|
    ensures s.line == line && s.error == None
    ensures forall k :: start <= k < s.next ==> IsAlphaNumeric(src[k])
    ensures s.next == |src| || !IsAlphaNumeric(src[s.next])
    ensures s.token.Some? && s.token.value.lexeme == src[start..s.next] && s.token.value.line == line
    ensures s.token.value.literal == NilLit
    ensures src[start..s.next] in Keywords ==> s.token.value.kind == Keywords[src[start..s.next]]
    ensures src[start..s.next] !in Keywords ==> s.token.value.kind == IDENTIFIER
  {
    var end := WordRunEnd(src, start);
    var text := src[start..end];
    var kind := if text in Keywords then Keywords[text] else IDENTIFIER;
    Step(end, line, Some(Emit(kind, src, start, end, NilLit, line)), None)
  }

  /** A character that needs no lookahead: a one-character token, discarded
      whitespace, a newline, or an unexpected character that is reported and skipped
      (Scanner.kt:45-54, :60-61, :64-67). */
  function ScanSimple(src: string, start: nat, line: nat): (s: Step)
    requires start < |src|
    requires !(IsOperatorStart(src[start]) || src[start] == '/' || src[start] == '"')
    requires !(IsDigit(src[start]) || IsAlpha(src[start]))
    ensures s.next == start + 1
    ensures s.line == line + Newlines(src[start..s.next])
    ensures SingleCharKind(src[start]).Some? <==> s.token.Some?
    ensures s.token.Some? ==> s.token.value == Token(SingleCharKind(src[start]).value, [src[start]], NilLit, line)
    ensures s.error.Some? <==> !(SingleCharKind(src[start]).Some? || src[start] in " \r\t\n")
    ensures s.error.Some? ==> s.token.None? && s.error.value == ScanError(line, "Unexpected character '" + [src[start]] + "'.")
  {
    var c := src[start];
    assert src[start..start + 1] == [c];
    assert Newlines([c]) == (if c == '\n' then 1 else 0) by {
      assert [c][..0] == [];
    }
    if SingleCharKind(c).Some? then
      Step(start + 1, line, Some(Emit(SingleCharKind(c).value, src, start, start + 1, NilLit, line)), None)
    else if c == ' ' || c == '\r' || c == '\t' then
      Step(start + 1, line, None, None)
    else if c == '\n' then
      Step(start + 1, line + 1, None, None)
    else
      Step(start + 1, line, None, Some(ScanError(line, "Unexpected character '" + [c] + "'.")))
  }

  /** Scans the lexeme that starts at `start` (Scanner.kt:43-69). */
  function ScanToken(src: string, start: nat, line: nat): (s: Step)
    requires start < |src|
    ensures start < s.next <= |src|
    ensures s.line == line + Newlines(src[start..s.next])
    ensures s.token.Some? ==>
      && s.token.value.kind != EOF
      && s.token.value.lexeme == src[start..s.next]
      && s.token.value.line == s.line
    ensures s.error.Some? ==> s.token.None? && s.error.value.line == s.line
  {
    var c := src[start];
    if c == '"' then ScanString(src, start, line)
    else if IsOperatorStart(c) || c == '/' || IsDigit(c) || IsAlpha(c) then ScanLexeme(src, start, line)
    else ScanSimple(src, start, line)
  }

  /** The lexemes that never span a newline: operators, `/` or a comment, numbers and
      words. */
  function ScanLexeme(src: string, start: nat, line: nat): (s: Step)
    requires start < |src|
    requires IsOperatorStart(src[start]) || src[start] == '/' || IsDigit(src[start]) || IsAlpha(src[start])
    ensures start < s.next <= |src|
    ensures s.line == line && Newlines(src[start..s.next]) == 0 && s.error.None?
    ensures s.token.Some? ==>
      && s.token.value.kind != EOF
      && s.token.value.lexeme == src[start..s.next]
      && s.token.value.line == line
  {
    var c := src[start];
    var s :=
      if IsOperatorStart(c) then ScanOperator(src, start, line)
      else if c == '/' then ScanSlash(src, start, line)
      else if IsDigit(c) then ScanNumber(src, start, line)
      else ScanIdentifier(src, start, line);
    assert forall k :: start <= k < s.next ==> src[k] != '\n';
    NewlinesBetween(src, start, s.next);
    s
  }

  lemma PrefixLines(src: string, i: nat, j: nat)
    requires i <= j <= |src|
    ensures Newlines(src[..j]) == Newlines(src[..i]) + Newlines(src[i..j])
  {
    assert src[..j] == src[..i] + src[i..j];
    NewlinesAppend(src[..i], src[i..j]);
  }

  /** Tokens and error reports, in the order they were produced. */
  datatype Scan = Scan(tokens: seq<Token>, errors: seq<ScanError>)

  /** The lexemes from `i` to the end of the text, scanned one after another with the
      line counter starting at `line`: what the loop of `scanTokens` collects from
      there. No lexeme is EOF, and every token and report carries a line between `line`
      and `line` plus the newlines still ahead. */
  function ScanFrom(src: string, i: nat, line: nat): (r: Scan)
    requires i <= |src|
    ensures forall k :: 0 <= k < |r.tokens| ==>
      r.tokens[k].kind != EOF && line <= r.tokens[k].line <= line + Newlines(src[i..])
    ensures forall k :: 0 < k < |r.tokens| ==> r.tokens[k - 1].line <= r.tokens[k].line
    ensures forall k :: 0 <= k < |r.errors| ==> line <= r.errors[k].line <= line + Newlines(src[i..])
    decreases |src| - i
  {
    if i == |src| then Scan([], [])
    else
      var s := ScanToken(src, i, line);
      var rest := ScanFrom(src, s.next, s.line);
      SuffixLines(src, i, s.next);
      Scan(Emitted(s.token) + rest.tokens, Emitted(s.error) + rest.errors)
  }

  /** The token or report of one step, as a list of at most one. */
  function Emitted<T>(o: Option<T>): (r: seq<T>)
    ensures |r| <= 1
    ensures o.Some? ==> r == [o.value]
    ensures o.None? ==> r == []
  {
    if o.Some? then [o.value] else []
  }

  /** One round of the scan loop: what was collected so far, followed by the scan from
      `i`, is what was collected with this lexeme's token and report, followed by the
      scan from where the lexeme ends. */
  lemma ScanFromStep(src: string, i: nat, line: nat, ts: seq<Token>, es: seq<ScanError>)
    requires i < |src|
    ensures var s := ScanToken(src, i, line);
            && ts + ScanFrom(src, i, line).tokens == (ts + Emitted(s.token)) + ScanFrom(src, s.next, s.line).tokens
            && es + ScanFrom(src, i, line).errors == (es + Emitted(s.error)) + ScanFrom(src, s.next, s.line).errors
  {
    var s := ScanToken(src, i, line);
    var rest := ScanFrom(src, s.next, s.line);
    assert ScanFrom(src, i, line) == Scan(Emitted(s.token) + rest.tokens, Emitted(s.error) + rest.errors);
    assert ts + (Emitted(s.token) + rest.tokens) == (ts + Emitted(s.token)) + rest.tokens;
    assert es + (Emitted(s.error) + rest.errors) == (es + Emitted(s.error)) + rest.errors;
  }

  lemma SuffixLines(src: string, i: nat, j: nat)
    requires i <= j <= |src|
    ensures Newlines(src[i..]) == Newlines(src[i..j]) + Newlines(src[j..])
  {
    assert src[i..] == src[i..j] + src[j..];
    NewlinesAppend(src[i..j], src[j..]);
  }

  /** The loop of `scanTokens` (Scanner.kt:30-34): it collects exactly the lexemes of
      the whole text, and its line counter ends at one more than the newlines. */
  method ScanLexemes(src: string) returns (tokens: seq<Token>, errors: seq<ScanError>, line: nat)
    ensures tokens == ScanFrom(src, 0, 1).tokens
    ensures errors == ScanFrom(src, 0, 1).errors
    ensures line == 1 + Newlines(src)
  {
    tokens := [];
    errors := [];
    var current := 0;
    line := 1;
    while current < |src|
      invariant current <= |src|
      invariant line == 1 + Newlines(src[..current])
      invariant ScanFrom(src, 0, 1).tokens == tokens + ScanFrom(src, current, line).tokens
      invariant ScanFrom(src, 0, 1).errors == errors + ScanFrom(src, current, line).errors
      decreases |src| - current
    {
      var step := ScanToken(src, current, line);
      PrefixLines(src, current, step.next);
      ScanFromStep(src, current, line, tokens, errors);
      tokens := tokens + Emitted(step.token);
      errors := errors + Emitted(step.error);
      current := step.next;
      line := step.line;
    }
    assert src[..current] == src;
  }

  /** What the lexemes of a whole text carry: no EOF, lines from 1 to the last line. */
  lemma WholeScan(src: string)
    ensures forall k :: 0 <= k < |ScanFrom(src, 0, 1).tokens| ==>
              ScanFrom(src, 0, 1).tokens[k].kind != EOF && ScanFrom(src, 0, 1).tokens[k].line <= 1 + Newlines(src)
    ensures forall k :: 0 <= k < |ScanFrom(src, 0, 1).errors| ==> 1 <= ScanFrom(src, 0, 1).errors[k].line <= 1 + Newlines(src)
  {
    assert src[0..] == src;
  }

  /** The whole scan (Scanner.kt:30-37): lexemes one after another, then a single EOF
      token with an empty lexeme carrying the final line count. */
  method ScanTokens(src: string) returns (tokens: seq<Token>, errors: seq<ScanError>)
    ensures tokens == ScanFrom(src, 0, 1).tokens + [Token(EOF, "", NilLit, 1 + Newlines(src))]
    ensures errors == ScanFrom(src, 0, 1).errors
    ensures |tokens| >= 1
    ensures tokens[|tokens| - 1] == Token(EOF, "", NilLit, 1 + Newlines(src))
    ensures forall i :: 0 <= i < |tokens| - 1 ==> tokens[i].kind != EOF
    ensures forall k :: 0 < k < |tokens| ==> tokens[k - 1].line <= tokens[k].line
    ensures forall i :: 0 <= i < |errors| ==> 1 <= errors[i].line <= 1 + Newlines(src)
  {
    var lexemes, line;
    lexemes, errors, line := ScanLexemes(src);
    WholeScan(src);
    tokens := lexemes + [Token(EOF, "", NilLit, line)];
  }
}
