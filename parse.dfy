/**
 * The parser's cursor engine: a fixed token sequence, a cursor into it, and
 * a stack of saved cursors that marks where each rule being parsed began.
 * Token access never fails: past either end it answers with a synthetic
 * `Sof` or `Eof` token. Spans are token positions shifted by the byte
 * offset at which the parsed file starts in the source map.
 */
module Parse {
  import opened Common
  import opened SourcePositions
  import opened Lex
  import AstArena

  /** The synthetic token returned past the end of the sequence. */
  const EOF_TOKEN := Token(Eof, 0, 0)

  /** The synthetic token returned before the first token. */
  const SOF_TOKEN := Token(Sof, 0, 0)

  /** The saved-cursor stack after `enter`. */
  function Pushed(stack: seq<nat>, cursor: nat): (r: seq<nat>)
    ensures |r| == |stack| + 1 && r[|stack|] == cursor
  {
    stack + [cursor]
  }

  /** The saved-cursor stack after `exit`: the top is dropped, an empty stack stays empty. */
  function Popped(stack: seq<nat>): (r: seq<nat>)
    ensures |stack| > 0 ==> |r| == |stack| - 1
    ensures |stack| == 0 ==> r == []
  {
    if |stack| > 0 then stack[..|stack| - 1] else stack
  }

  /** An `exit` undoes the `enter` before it, whatever the cursor did in between. */
  lemma EnterExitRestores(stack: seq<nat>, cursor: nat)
    ensures Popped(Pushed(stack, cursor)) == stack
  {
    assert Pushed(stack, cursor)[..|stack|] == stack;
  }

  /** `peek` as written: the window must lie strictly before the last token, and every kind must match. */
  predicate PeekMatches(tokens: seq<Token>, cursor: nat, expected: seq<TokenKind>) {
    cursor + |expected| < |tokens| &&
    forall i :: 0 <= i < |expected| ==> tokens[cursor + i].kind == expected[i]
  }

  /** A token position as the source's 32-bit field stores it. */
  function Pos(p: nat): u32 {
    Wrap(p)
  }

  /**
   * `current_span`: from the first token of the innermost open rule to the
   * last consumed token, shifted by the file's start. Without a consumed
   * token inside the sequence the span is empty at its start.
   */
  function SpanFrom(tokens: seq<Token>, stack: seq<nat>, cursor: nat, startPos: u32): (r: Span)
    ensures |stack| == 0 ==> r == EmptySpan
  {
    if |stack| == 0 then EmptySpan
    else
      var start := stack[|stack| - 1];
      var startPos' := if start < |tokens| then Pos(tokens[start].start) else 0;
      var endPos := if cursor < |tokens| && cursor > 0 then Pos(tokens[cursor - 1].end) else startPos';
      Span(startPos', endPos).WithOffset(startPos)
  }

  class Parser {
    const tokens: seq<Token>
    const startPos: u32
    var cursor: nat
    var cursorStack: seq<nat>
    /** The arena the parser builds nodes into. */
    const ast: AstArena.Ast

    /** The cursor never passes the end of the token sequence. */
    predicate InRange()
      reads this
    {
      cursor <= |tokens|
    }

    /** The cursor is in range and the arena is well formed. */
    ghost predicate Valid()
      reads this, ast
    {
      InRange() && ast.Valid()
    }

    /** `Parser(...)`: cursor at the first token, and the constructor's own `enter`. */
    constructor (tokens: seq<Token>, startPos: u32)
      ensures Valid()
      ensures this.tokens == tokens && this.startPos == startPos
      ensures cursor == 0 && cursorStack == [0]
      ensures fresh(ast) && ast.nodes == [AstArena.Invalid] && ast.children == [0]
    {
      this.tokens := tokens;
      this.startPos := startPos;
      cursor := 0;
      cursorStack := [0];
      ast := new AstArena.Ast();
    }

    /** `enter`: save the cursor. */
    method Enter()
      modifies this
      ensures cursorStack == Pushed(old(cursorStack), old(cursor))
      ensures cursor == old(cursor)
    {
      cursorStack := cursorStack + [cursor];
    }

    /** `exit`: drop the last saved cursor, if any; the cursor itself stays. */
    method Exit()
      modifies this
      ensures cursorStack == Popped(old(cursorStack))
      ensures cursor == old(cursor)
    {
      if |cursorStack| > 0 {
        cursorStack := cursorStack[..|cursorStack| - 1];
      }
    }

    /** `current_degree`: how many cursors are saved. */
    function CurrentDegree(): (r: nat)
      reads this
      ensures r == |cursorStack|
    {
      |cursorStack|
    }

    /** `peek`: do the next tokens have the expected kinds? Never moves the cursor. */
    method Peek(expected: seq<TokenKind>) returns (b: bool)
      requires InRange()
      ensures b == PeekMatches(tokens, cursor, expected)
    {
      if cursor + |expected| >= |tokens| {
        return false;
      }
      var i := 0;
      while i < |expected|
        invariant 0 <= i <= |expected|
        invariant forall j :: 0 <= j < i ==> tokens[cursor + j].kind == expected[j]
      {
        if tokens[cursor + i].kind != expected[i] {
          return false;
        }
        i := i + 1;
      }
      return true;
    }

    /** `eat_token`: consume the next token exactly when it has the expected kind. */
    method EatToken(expected: TokenKind) returns (b: bool)
      requires InRange()
      modifies this
      ensures InRange()
      ensures b <==> old(cursor) < |tokens| && tokens[old(cursor)].kind == expected
      ensures cursor == if b then old(cursor) + 1 else old(cursor)
      ensures cursorStack == old(cursorStack)
    {
      if cursor >= |tokens| {
        return false;
      }
      if tokens[cursor].kind == expected {
        cursor := cursor + 1;
        return true;
      }
      return false;
    }

    /** `eat_tokens`: skip `amount` tokens, stopping at the end. */
    method EatTokens(amount: nat)
      requires InRange()
      modifies this
      ensures InRange()
      ensures cursor == Min(old(cursor) + amount, |tokens|)
      ensures cursorStack == old(cursorStack)
    {
      cursor := cursor + amount;
      if cursor > |tokens| {
        cursor := |tokens|;
      }
    }

    /** `next_token`: the token `peek_next_token` shows, consumed; `Eof` at the end without moving. */
    method NextToken() returns (tok: Token)
      requires InRange()
      modifies this
      ensures InRange()
      ensures tok == TokenOrEof(tokens, old(cursor))
      ensures cursor == if old(cursor) < |tokens| then old(cursor) + 1 else old(cursor)
      ensures cursorStack == old(cursorStack)
    {
      if cursor >= |tokens| {
        return EOF_TOKEN;
      }
      tok := tokens[cursor];
      cursor := cursor + 1;
    }

    /** `peek_next_token`. */
    function PeekNextToken(): (r: Token)
      reads this
      ensures r == TokenOrEof(tokens, cursor)
    {
      TokenOrEof(tokens, cursor)
    }

    /** `current_token`. */
    function CurrentToken(): (r: Token)
      reads this
      ensures r == CurrentTokenAt(tokens, cursor)
    {
      CurrentTokenAt(tokens, cursor)
    }

    /** `previous_token`. */
    function PreviousToken(): (r: Token)
      reads this
      requires cursor <= |tokens|
      ensures r == PreviousTokenAt(tokens, cursor)
    {
      PreviousTokenAt(tokens, cursor)
    }

    /** `get_token`. */
    function GetToken(index: nat): (r: Token)
      reads this
      ensures r == TokenOrEof(tokens, index)
    {
      TokenOrEof(tokens, index)
    }

    /** `current_span`. */
    function CurrentSpan(): (r: Span)
      reads this
      ensures r == SpanFrom(tokens, cursorStack, cursor, startPos)
    {
      SpanFrom(tokens, cursorStack, cursor, startPos)
    }

    /** `next_token_span`. */
    function NextTokenSpan(): (r: Span)
      reads this
      ensures r == NextTokenSpanAt(tokens, cursor, startPos)
    {
      NextTokenSpanAt(tokens, cursor, startPos)
    }

    /**
     * `try_file_scope`: inside a guard, add a `FileScope` node spanning
     * the current rule; the guard's `exit` restores the saved cursors.
     */
    method TryFileScope() returns (fileScope: nat)
      requires Valid()
      modifies this, ast
      ensures Valid()
      ensures cursor == old(cursor) && cursorStack == old(cursorStack)
      ensures fileScope == |old(ast.nodes)| && ast.nodes == old(ast.nodes) + [AstArena.FileScope]
      ensures ast.spans == old(ast.spans) + [SpanFrom(tokens, old(cursorStack) + [old(cursor)], old(cursor), startPos)]
      ensures ast.children == old(ast.children)
      ensures ast.childrenStart == old(ast.childrenStart) + [|ast.children|]
      ensures ast.childrenEnd == old(ast.childrenEnd) + [|ast.children|]
      ensures ast.GetChildren(fileScope) == []
      ensures ast.root == old(ast.root)
    {
      Enter();
      var builder := new AstArena.NodeBuilder(AstArena.FileScope, CurrentSpan());
      fileScope := ast.AddNode(builder);
      Exit();
      EnterExitRestores(old(cursorStack), cursor);
    }

    /** `parse`: the file scope always succeeds here, and becomes the root. */
    method Parse() returns (root: nat)
      requires Valid()
      modifies this, ast
      ensures Valid()
      ensures cursor == old(cursor) && cursorStack == old(cursorStack)
      ensures root == |old(ast.nodes)| && ast.root == root
      ensures ast.nodes == old(ast.nodes) + [AstArena.FileScope]
      ensures ast.spans == old(ast.spans) + [SpanFrom(tokens, old(cursorStack) + [old(cursor)], old(cursor), startPos)]
      ensures ast.children == old(ast.children)
      ensures ast.childrenStart == old(ast.childrenStart) + [|ast.children|]
      ensures ast.childrenEnd == old(ast.childrenEnd) + [|ast.children|]
      ensures ast.GetChildren(root) == []
    {
      root := TryFileScope();
      ast.SetRoot(root);
    }
  }

  /** The token at an index, `Eof` past the end: what `peek_next_token` and `get_token` answer. */
  function TokenOrEof(tokens: seq<Token>, index: nat): (r: Token)
    ensures index < |tokens| ==> r == tokens[index]
    ensures index >= |tokens| ==> r == EOF_TOKEN
  {
    if index >= |tokens| then EOF_TOKEN else tokens[index]
  }

  /** `current_token`: the last consumed token, `Sof` before any (or past the end). */
  function CurrentTokenAt(tokens: seq<Token>, cursor: nat): (r: Token)
    ensures 0 < cursor <= |tokens| ==> r == tokens[cursor - 1]
    ensures cursor == 0 || cursor > |tokens| ==> r == SOF_TOKEN
  {
    if cursor == 0 || cursor > |tokens| then SOF_TOKEN else tokens[cursor - 1]
  }

  /** `previous_token`: the last consumed token, `Sof` before any. */
  function PreviousTokenAt(tokens: seq<Token>, cursor: nat): (r: Token)
    requires cursor <= |tokens|
    ensures cursor > 0 ==> r == tokens[cursor - 1]
    ensures cursor == 0 ==> r == SOF_TOKEN
  {
    if cursor == 0 then SOF_TOKEN else tokens[cursor - 1]
  }

  /** `next_token_span`: the span of the next token shifted by the file's start, empty past the end. */
  function NextTokenSpanAt(tokens: seq<Token>, cursor: nat, startPos: u32): (r: Span)
    ensures cursor >= |tokens| ==> r == EmptySpan
    ensures cursor < |tokens| ==>
      r.start == Wrap(tokens[cursor].start + startPos) && r.end == Wrap(tokens[cursor].end + startPos)
    ensures cursor < |tokens| ==> tokens[cursor].start + startPos < U32_MODULUS ==>
      tokens[cursor].end + startPos < U32_MODULUS ==>
      r.start == tokens[cursor].start + startPos && r.end == tokens[cursor].end + startPos
  {
    if cursor >= |tokens| then EmptySpan
    else
      WrapOfWrapSum(tokens[cursor].start, startPos);
      WrapOfWrapSum(tokens[cursor].end, startPos);
      Span(Pos(tokens[cursor].start), Pos(tokens[cursor].end)).WithOffset(startPos)
  }

  /**
   * Inside a rule that began at a token and has consumed at least one token
   * short of the last, the current span runs from that first token's start
   * to the last consumed token's end, shifted by the file's start.
   */
  lemma CurrentSpanOfRule(tokens: seq<Token>, stack: seq<nat>, cursor: nat, startPos: u32)
    requires |stack| > 0 && stack[|stack| - 1] < |tokens|
    requires 0 < cursor < |tokens|
    requires tokens[stack[|stack| - 1]].start + startPos < U32_MODULUS
    requires tokens[cursor - 1].end + startPos < U32_MODULUS
    ensures SpanFrom(tokens, stack, cursor, startPos) ==
            Span(tokens[stack[|stack| - 1]].start + startPos, tokens[cursor - 1].end + startPos)
  {
    var first := tokens[stack[|stack| - 1]].start;
    var last := tokens[cursor - 1].end;
    assert Pos(first) == first && Pos(last) == last;
    assert Wrap(first + startPos) == first + startPos;
    assert Wrap(last + startPos) == last + startPos;
  }

  /** A rule that has consumed nothing, or only up to the end, spans nothing from its first token. */
  lemma CurrentSpanEmptyRule(tokens: seq<Token>, stack: seq<nat>, cursor: nat, startPos: u32)
    requires |stack| > 0
    requires cursor == 0 || cursor >= |tokens|
    ensures SpanFrom(tokens, stack, cursor, startPos).start == SpanFrom(tokens, stack, cursor, startPos).end
  {
  }

  /** After consuming a token, it is the current token. */
  lemma CurrentAfterNext(tokens: seq<Token>, cursor: nat)
    requires cursor < |tokens|
    ensures CurrentTokenAt(tokens, cursor + 1) == TokenOrEof(tokens, cursor)
  {
  }

  /** While the cursor is in range, `current_token` and `previous_token` are the same token. */
  lemma CurrentIsPrevious(tokens: seq<Token>, cursor: nat)
    requires cursor <= |tokens|
    ensures CurrentTokenAt(tokens, cursor) == PreviousTokenAt(tokens, cursor)
  {
  }

  /** A successful `peek` shows the kinds `get_token` will find at those positions. */
  lemma PeekMeansTokens(tokens: seq<Token>, cursor: nat, expected: seq<TokenKind>, i: nat)
    requires PeekMatches(tokens, cursor, expected) && i < |expected|
    ensures TokenOrEof(tokens, cursor + i).kind == expected[i]
  {
  }

  /** `peek` never examines the last token: a window ending on it is refused even when the kinds match. */
  lemma PeekWindowExcludesLast()
    ensures !PeekMatches([Token(Id, 0, 3), Token(Eof, 3, 3)], 0, [Id, Eof])
    ensures PeekMatches([Token(Id, 0, 3), Token(Eof, 3, 3)], 0, [Id])
  {
  }

  /** `peek` never reads the last token: replacing it changes no answer. */
  lemma PeekIgnoresLastToken(tokens: seq<Token>, last: Token, cursor: nat, expected: seq<TokenKind>)
    requires |tokens| > 0
    ensures PeekMatches(tokens, cursor, expected) == PeekMatches(tokens[..|tokens| - 1] + [last], cursor, expected)
  {
    var other := tokens[..|tokens| - 1] + [last];
    assert |other| == |tokens|;
    assert forall k :: 0 <= k < |tokens| - 1 ==> other[k] == tokens[k];
  }

  /** Skipping `a` tokens and then `b` tokens stops where skipping `a + b` stops. */
  lemma EatTokensCompose(cursor: nat, size: nat, a: nat, b: nat)
    requires cursor <= size
    ensures Min(Min(cursor + a, size) + b, size) == Min(cursor + a + b, size)
  {
  }

  /** The nesting of two guards in the ScopedGuardBasic test: degrees 1, 2, 3, 2, 1. */
  method GuardDegrees() returns (degrees: seq<nat>)
    ensures degrees == [1, 2, 3, 2, 1]
  {
    var p := FreshParser([Token(Id, 0, 3), Token(Plus, 4, 5), Token(Int, 6, 8), Token(Eof, 8, 8)]);
    var d1 := p.CurrentDegree();
    p.Enter();
    var d2 := p.CurrentDegree();
    assert d2 == 2;
    p.Enter();
    var d3 := p.CurrentDegree();
    assert d3 == 3;
    p.Exit();
    var d4 := p.CurrentDegree();
    assert d4 == 2;
    p.Exit();
    var d5 := p.CurrentDegree();
    degrees := [d1, d2, d3, d4, d5];
  }

  /** A parser over the given tokens, as its constructor leaves it. */
  method FreshParser(tokens: seq<Token>) returns (p: Parser)
    ensures fresh(p) && p.tokens == tokens && p.startPos == 0 && p.cursor == 0 && p.cursorStack == [0]
  {
    p := new Parser(tokens, 0);
  }

  /** The ParserBasic test: over a lone `Eof`, the current token moves from `Sof` to that `Eof`. */
  method LoneEofTokens() returns (before: TokenKind, next: TokenKind, taken: TokenKind, after: TokenKind)
    ensures before == Sof && next == Eof && taken == Eof && after == Eof
  {
    var p := FreshParser([EOF_TOKEN]);
    before := p.CurrentToken().kind;
    next := p.PeekNextToken().kind;
    assert next == p.tokens[0].kind;
    var tok := p.NextToken();
    assert p.cursor == 1 && tok == p.tokens[0];
    taken := tok.kind;
    after := p.CurrentToken().kind;
    assert after == p.tokens[0].kind;
  }

  /** The tokens of `f(x) {y}` in the ScopedGuardUsageExample test. */
  function FunctionTokens(): (r: seq<Token>)
    ensures |r| == 8 && r[0].start == 0 && r[6].end == 14
    ensures r[0].kind == Id && r[1].kind == LParen && r[2].kind == Id && r[3].kind == RParen
    ensures r[4].kind == LBrace && r[5].kind == Id && r[6].kind == RBrace
  {
    [Token(Id, 0, 3), Token(LParen, 3, 4), Token(Id, 4, 5), Token(RParen, 5, 6),
     Token(LBrace, 7, 8), Token(Id, 9, 12), Token(RBrace, 13, 14), Token(Eof, 14, 14)]
  }

  /**
   * The rule of the ScopedGuardUsageExample test: a name, a parenthesised
   * parameter and a braced body, each optional inner part in its own guard.
   * Every step succeeds and the rule's span is the whole definition.
   */
  method FunctionDefinitionSpan() returns (span: Span)
    ensures span == Span(0, 14)
  {
    var p := FreshParser(FunctionTokens());
    p.Enter();
    assert p.cursor == 0 && p.cursorStack == [0, 0];
    EatSignature(p);
    EatBody(p);
    assert p.cursor == 7 && p.cursorStack == [0, 0];
    CurrentSpanOfRule(p.tokens, p.cursorStack, p.cursor, p.startPos);
    span := p.CurrentSpan();
    assert span == Span(0, 14);
    p.Exit();
  }

  /** The name and the parenthesised parameter of the example: four tokens, all taken. */
  method EatSignature(p: Parser)
    requires p.tokens == FunctionTokens() && p.cursor == 0
    modifies p
    ensures p.cursor == 4 && p.cursorStack == old(p.cursorStack)
  {
    var tokens := p.tokens;
    var name := p.PeekNextToken().kind;
    assert name == tokens[0].kind == Id;
    var _ := p.NextToken();
    assert p.cursor == 1 && tokens[1].kind == LParen;
    var open := p.EatToken(LParen);
    assert open;
    ParameterGuard(p);
    assert p.cursor == 3 && tokens[3].kind == RParen;
    var close := p.EatToken(RParen);
    assert close;
  }

  /** The braced body of the example: three tokens, all taken. */
  method EatBody(p: Parser)
    requires p.tokens == FunctionTokens() && p.cursor == 4
    modifies p
    ensures p.cursor == 7 && p.cursorStack == old(p.cursorStack)
  {
    var tokens := p.tokens;
    assert tokens[4].kind == LBrace;
    var openBody := p.EatToken(LBrace);
    assert openBody;
    ParameterGuard(p);
    assert p.cursor == 6 && tokens[6].kind == RBrace;
    var closeBody := p.EatToken(RBrace);
    assert closeBody;
  }

  /** One guarded optional identifier; the guard leaves the saved cursors as they were. */
  method ParameterGuard(p: Parser)
    requires p.InRange()
    modifies p
    ensures p.InRange()
    ensures p.cursorStack == old(p.cursorStack)
    ensures p.cursor == if old(p.cursor) < |p.tokens| && p.tokens[old(p.cursor)].kind == Id then old(p.cursor) + 1 else old(p.cursor)
  {
    p.Enter();
    var next := p.PeekNextToken();
    assert next == TokenOrEof(p.tokens, old(p.cursor));
    if next.kind == Id {
      var _ := p.NextToken();
    }
    p.Exit();
    EnterExitRestores(old(p.cursorStack), old(p.cursor));
  }
}
