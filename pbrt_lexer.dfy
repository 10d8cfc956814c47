/** The indentation-aware tokenizer of the pbrt-style scene text
    (`Tokenizer` in include/pbrt.h).

    The tokenizer walks the source once. At the start of every line outside a
    `[ ... ]` list it measures the leading spaces and emits `Indent` or
    `Dedent` tokens until its indentation level equals `spaces / 4`; then it
    dispatches on the character that was under the cursor when the iteration
    began. One iteration of that loop is `Step`; `Run` repeats it to the end of
    the source and `Lex` adds the closing `Dedent`s. The class `Tokenizer`
    holds the same loop written imperatively and is proved to compute `Lex`. */
module PbrtLexer {
  import opened Wrappers

  datatype TokenType =
    | Number
    | StringLiteral
    | ListStart
    | ListEnd
    | Identifier
    | NewLine
    | Indent
    | Dedent
    | Undefined

  /** A token; `value` is empty for every kind that carries no text. */
  datatype Token = Token(kind: TokenType, value: string)

  /** `indent_length`: spaces per indentation level. */
  const IndentLength: nat := 4

  // Character classes of the C locale.

  predicate IsAlpha(c: char) { 'a' <= c <= 'z' || 'A' <= c <= 'Z' }
  predicate IsDigit(c: char) { '0' <= c <= '9' }
  predicate IsAlnum(c: char) { IsAlpha(c) || IsDigit(c) }
  predicate IsSpace(c: char) { c == ' ' }
  predicate IsNotQuote(c: char) { c != '"' }
  predicate IsNumberChar(c: char) { IsDigit(c) || c == '.' || c == '-' || c == 'e' }

  /** The characters the dispatch accepts at the start of a token; any other
      one ends the program (`exit(1)`). */
  predicate Lexable(c: char)
  {
    c == '\n' || c == ' ' || IsAlpha(c) || c == '[' || c == ']' || c == '"' || c == '-' || IsDigit(c)
  }

  /** `peek_while(p, offset)` with the cursor at `start`: the number of
      characters from `start` on that are consumed, counting the first
      `consumed` without looking at them and then every further character
      that satisfies `p`. */
  function CountWhile(source: string, start: nat, p: char -> bool, consumed: nat): (r: nat)
    decreases |source| - (start + consumed)
    ensures consumed <= r
    ensures start + consumed <= |source| ==> start + r <= |source|
    ensures |source| <= start + consumed ==> r == consumed
    ensures forall k :: start + consumed <= k < start + r ==> k < |source| && p(source[k])
    ensures start + r < |source| ==> !p(source[start + r])
  {
    if start + consumed < |source| && p(source[start + consumed]) then
      CountWhile(source, start, p, consumed + 1)
    else
      consumed
  }

  /** The tokenizer's state between two iterations of its main loop: the
      fields `position`, `row` and `column`, and the locals `indent_level`,
      `in_array` and `tokens`. */
  datatype LexState = LexState(
    position: nat,
    row: nat,
    column: nat,
    indent: nat,
    inArray: bool,
    tokens: seq<Token>)

  /** `exit(1)` on an unexpected character, with the character and where it is. */
  datatype LexError = UnexpectedCharacter(position: nat, ch: char)

  function Mark(kind: TokenType): Token { Token(kind, "") }

  function Repeat(kind: TokenType, n: nat): (r: seq<Token>)
    ensures |r| == n
  {
    seq(n, _ => Mark(kind))
  }

  /** The tokens that move the indentation level from `from` to `to`. */
  function IndentTokens(from: nat, to: nat): seq<Token>
  {
    if to < from then Repeat(Dedent, from - to) else Repeat(Indent, to - from)
  }

  /** The number of leading spaces under the cursor. */
  function LeadingSpaces(source: string, st: LexState): nat
  {
    CountWhile(source, st.position, IsSpace, 0)
  }

  /** The indentation block at the start of a line outside a list. */
  function AdjustIndent(source: string, st: LexState): (r: LexState)
    ensures r.position == st.position + LeadingSpaces(source, st)
  {
    var ws := LeadingSpaces(source, st);
    var level := ws / IndentLength;
    st.(position := st.position + ws, column := st.column + ws, indent := level,
        tokens := st.tokens + IndentTokens(st.indent, level))
  }

  /** The state after the indentation block, which runs only in column 0
      outside a list. */
  function AfterIndent(source: string, st: LexState): LexState
  {
    if st.column == 0 && !st.inArray then AdjustIndent(source, st) else st
  }

  /** One iteration of the main loop of `tokenize`. The character `b` is read
      before the indentation block, as in the source; when the block skipped
      spaces, `b` is a space and the space branch then consumes nothing. */
  function Step(source: string, st: LexState): (r: Result<LexState, LexError>)
    requires st.position < |source|
    ensures r.Ok? <==> Lexable(source[st.position])
    ensures r.Ok? ==> st.position < r.value.position
    ensures r.Err? ==> r.error == UnexpectedCharacter(st.position, source[st.position])
  {
    var b := source[st.position];
    var s := AfterIndent(source, st);
    assert b != ' ' ==> s.position == st.position;
    Dispatch(source, s, b)
  }

  /** `'\n'`: a `NewLine` token outside a list, then the next row. */
  function EndLine(s: LexState): LexState
  {
    s.(tokens := if s.inArray then s.tokens else s.tokens + [Mark(NewLine)],
       position := s.position + 1, column := 0, row := s.row + 1)
  }

  /** `' '`: skips the run of spaces under the cursor. */
  function SkipSpaces(source: string, s: LexState): LexState
  {
    var n := CountWhile(source, s.position, IsSpace, 0);
    s.(position := s.position + n, column := s.column + n)
  }

  /** An identifier or a number: the character under the cursor and every
      following character in `p`. */
  function ScanRun(source: string, s: LexState, kind: TokenType, p: char -> bool): LexState
    requires s.position < |source|
  {
    var n := CountWhile(source, s.position, p, 1);
    s.(tokens := s.tokens + [Token(kind, source[s.position..s.position + n])],
       position := s.position + n, column := s.column + n)
  }

  /** `[` or `]`: a list token, entering or leaving the list. */
  function Bracket(s: LexState, kind: TokenType, inArray: bool): LexState
  {
    s.(tokens := s.tokens + [Mark(kind)], position := s.position + 1,
       column := s.column + 1, inArray := inArray)
  }

  /** `"`: the text up to the next quote or the end of the source; the cursor
      then moves one past the closing quote, which is one past the end when
      the literal is unterminated. */
  function ScanString(source: string, s: LexState): LexState
    requires s.position < |source|
  {
    var n := CountWhile(source, s.position, IsNotQuote, 1);
    s.(tokens := s.tokens + [Token(StringLiteral, source[s.position + 1..s.position + n])],
       position := s.position + n + 1, column := s.column + n + 1)
  }

  /** The dispatch on `b`, from the state `s` after the indentation block. */
  function Dispatch(source: string, s: LexState, b: char): (r: Result<LexState, LexError>)
    requires s.position <= |source|
    requires b != ' ' ==> s.position < |source| && source[s.position] == b
    ensures r.Ok? <==> Lexable(b)
    ensures r.Ok? && b != ' ' ==> s.position < r.value.position
    ensures r.Ok? && b == ' ' ==> s.position <= r.value.position
    ensures r.Ok? && b == ' ' && s.position < |source| && source[s.position] == ' ' ==> s.position < r.value.position
    ensures r.Err? ==> r.error == UnexpectedCharacter(s.position, b)
  {
    if b == '\n' then Ok(EndLine(s))
    else if b == ' ' then Ok(SkipSpaces(source, s))
    else if IsAlpha(b) then Ok(ScanRun(source, s, Identifier, IsAlnum))
    else if b == '[' then Ok(Bracket(s, ListStart, true))
    else if b == ']' then Ok(Bracket(s, ListEnd, false))
    else if b == '"' then Ok(ScanString(source, s))
    else if b == '-' || IsDigit(b) then Ok(ScanRun(source, s, Number, IsNumberChar))
    else Err(UnexpectedCharacter(s.position, b))
  }

  /** The main loop, from `st` until the cursor is at or past the end. */
  function Run(source: string, st: LexState): Result<LexState, LexError>
    decreases |source| - st.position
  {
    if |source| <= st.position then Ok(st)
    else
      match Step(source, st)
      case Err(e) => Err(e)
      case Ok(next) => Run(source, next)
  }

  /** The final drain: one `Dedent` for every open indentation level. */
  function Finish(st: LexState): seq<Token>
  {
    st.tokens + Repeat(Dedent, st.indent)
  }

  function Start(position: nat, row: nat, column: nat): LexState
  {
    LexState(position, row, column, 0, false, [])
  }

  /** `tokenize` on a fresh `Tokenizer`. */
  function Lex(source: string): Result<seq<Token>, LexError>
  {
    match Run(source, Start(0, 0, 0))
    case Ok(st) => Ok(Finish(st))
    case Err(e) => Err(e)
  }

  /** The loop after the main one: one `Dedent` per open level. */
  method Drain(tokens: seq<Token>, level: nat) returns (ts: seq<Token>)
    ensures ts == tokens + Repeat(Dedent, level)
  {
    ts := tokens;
    var indentLevel := level;
    while indentLevel > 0
      invariant ts + Repeat(Dedent, indentLevel) == tokens + Repeat(Dedent, level)
    {
      assert Repeat(Dedent, indentLevel) == [Mark(Dedent)] + Repeat(Dedent, indentLevel - 1);
      ts := ts + [Mark(Dedent)];
      indentLevel := indentLevel - 1;
    }
    assert ts + Repeat(Dedent, 0) == ts;
  }

  class Tokenizer {
    const source: string
    var position: nat
    var row: nat
    var column: nat

    constructor (source: string)
      ensures this.source == source && position == 0 && row == 0 && column == 0
    {
      this.source := source;
      position, row, column := 0, 0, 0;
    }

    /** `peek_while`: counts characters from the cursor without moving it. */
    method PeekWhile(p: char -> bool, offset: nat) returns (consumed: nat)
      ensures consumed == CountWhile(source, position, p, offset)
    {
      consumed := offset;
      while position + consumed < |source| && p(source[position + consumed])
        invariant offset <= consumed
        invariant CountWhile(source, position, p, consumed) == CountWhile(source, position, p, offset)
        decreases |source| - (position + consumed)
      {
        consumed := consumed + 1;
      }
    }

    /** The indentation block of `tokenize`: skips the leading spaces and
        emits the `Indent` or `Dedent` tokens that bring `level` to
        `spaces / 4`. */
    method IndentBlock(tokens: seq<Token>, level: nat, ghost inArray: bool) returns (ts: seq<Token>, lvl: nat)
      modifies this`position, this`column
      ensures LexState(position, row, column, lvl, inArray, ts)
           == AdjustIndent(source, LexState(old(position), row, old(column), level, inArray, tokens))
    {
      ts, lvl := tokens, level;
      var ws := PeekWhile(IsSpace, 0);
      position := position + ws;
      column := column + ws;
      var count := ws / IndentLength;
      if count < lvl {
        var n := lvl - count;
        for i := 0 to n
          invariant ts == tokens + Repeat(Dedent, i)
        {
          ts := ts + [Mark(Dedent)];
        }
        lvl := lvl - n;
      } else if count > lvl {
        var n := count - lvl;
        for i := 0 to n
          invariant ts == tokens + Repeat(Indent, i)
        {
          ts := ts + [Mark(Indent)];
        }
        lvl := lvl + n;
      } else {
        assert ts + IndentTokens(level, count) == ts;
      }
    }

    /** The space branch: moves the cursor past the run of spaces. */
    method SkipSpacesAt(ghost s: LexState)
      requires s.position == position && s.column == column
      modifies this`position, this`column
      ensures s.(position := position, column := column) == SkipSpaces(source, s)
    {
      var count := PeekWhile(IsSpace, 0);
      position := position + count;
      column := column + count;
    }

    /** The identifier and number branches: the token under the cursor. */
    method ScanRunAt(kind: TokenType, p: char -> bool, ghost s: LexState) returns (token: Token)
      requires s.position == position && s.column == column && position < |source|
      modifies this`position, this`column
      ensures s.(tokens := s.tokens + [token], position := position, column := column) == ScanRun(source, s, kind, p)
    {
      var count := PeekWhile(p, 1);
      token := Token(kind, source[position..position + count]);
      position := position + count;
      column := column + count;
    }

    /** The string-literal branch. */
    method ScanStringAt(ghost s: LexState) returns (token: Token)
      requires s.position == position && s.column == column && position < |source|
      modifies this`position, this`column
      ensures s.(tokens := s.tokens + [token], position := position, column := column) == ScanString(source, s)
    {
      var count := PeekWhile(IsNotQuote, 1);
      token := Token(StringLiteral, source[position + 1..position + count]);
      position := position + count + 1;
      column := column + count + 1;
    }

    /** The dispatch on the character `b` read at the start of the iteration;
        `failed` is the `exit(1)` branch. */
    method DispatchOn(b: char, tokens: seq<Token>, inArray: bool, ghost level: nat)
      returns (ts: seq<Token>, arr: bool, failed: bool)
      requires position <= |source|
      requires b != ' ' ==> position < |source| && source[position] == b
      modifies this
      ensures var r := Dispatch(source, LexState(old(position), old(row), old(column), level, inArray, tokens), b);
        if failed then r.Err? && position == old(position)
        else r == Ok(LexState(position, row, column, level, arr, ts))
    {
      ghost var s0 := LexState(position, row, column, level, inArray, tokens);
      ts, arr, failed := tokens, inArray, false;
      if b == '\n' {
        if !inArray {
          ts := ts + [Mark(NewLine)];
        }
        position := position + 1;
        column := 0;
        row := row + 1;
        assert LexState(position, row, column, level, arr, ts) == EndLine(s0);
      } else if b == ' ' {
        SkipSpacesAt(s0);
      } else if IsAlpha(b) {
        var token := ScanRunAt(Identifier, IsAlnum, s0);
        ts := ts + [token];
      } else if b == '[' {
        ts := ts + [Mark(ListStart)];
        position := position + 1;
        column := column + 1;
        arr := true;
        assert LexState(position, row, column, level, arr, ts) == Bracket(s0, ListStart, true);
      } else if b == ']' {
        ts := ts + [Mark(ListEnd)];
        position := position + 1;
        column := column + 1;
        arr := false;
        assert LexState(position, row, column, level, arr, ts) == Bracket(s0, ListEnd, false);
      } else if b == '"' {
        var token := ScanStringAt(s0);
        ts := ts + [token];
      } else if b == '-' || IsDigit(b) {
        var token := ScanRunAt(Number, IsNumberChar, s0);
        ts := ts + [token];
      } else {
        failed := true;
      }
    }

    /** `tokenize`: runs the loop from the current cursor; on success the
        cursor, row and column are those the loop ends with. */
    method Tokenize() returns (r: Result<seq<Token>, LexError>)
      modifies this
      ensures match Run(source, Start(old(position), old(row), old(column)))
        case Ok(st) => r == Ok(Finish(st)) && position == st.position && row == st.row && column == st.column
        case Err(e) => r == Err(e)
    {
      ghost var start := Start(position, row, column);
      var tokens: seq<Token> := [];
      var indentLevel: nat := 0;
      var inArray := false;
      while position < |source|
        invariant Run(source, LexState(position, row, column, indentLevel, inArray, tokens)) == Run(source, start)
        decreases |source| - position
      {
        ghost var before := LexState(position, row, column, indentLevel, inArray, tokens);
        var b := source[position];
        if column == 0 && !inArray {
          tokens, indentLevel := IndentBlock(tokens, indentLevel, inArray);
        }
        assert LexState(position, row, column, indentLevel, inArray, tokens) == AfterIndent(source, before);
        var failed;
        tokens, inArray, failed := DispatchOn(b, tokens, inArray, indentLevel);
        if failed {
          return Err(UnexpectedCharacter(position, b));
        }
      }
      ghost var last := LexState(position, row, column, indentLevel, inArray, tokens);
      assert Run(source, start) == Ok(last);
      tokens := Drain(tokens, indentLevel);
      r := Ok(tokens);
    }
  }
}
