/** What the pbrt-style tokenizer guarantees about the tokens it emits and
    the state it keeps. */
module PbrtLexerProperties {
  import opened Wrappers
  import opened PbrtLexer

  /** The number of tokens of kind `kind`. */
  function Count(ts: seq<Token>, kind: TokenType): nat
  {
    if |ts| == 0 then 0
    else Count(ts[..|ts| - 1], kind) + (if ts[|ts| - 1].kind == kind then 1 else 0)
  }

  /** Indents minus dedents: the indentation depth the tokens leave open. */
  function Depth(ts: seq<Token>): int
  {
    Count(ts, Indent) - Count(ts, Dedent)
  }

  /** No prefix of the tokens closes more levels than it opened. */
  predicate NeverNegative(ts: seq<Token>)
  {
    forall k :: 0 <= k <= |ts| ==> Depth(ts[..k]) >= 0
  }

  /** The loop's `indent_level` is the depth of the tokens so far. */
  predicate Consistent(st: LexState)
  {
    Depth(st.tokens) == st.indent && NeverNegative(st.tokens)
  }

  /** The text a token of each kind may carry. An `Undefined` token is never
      emitted. */
  predicate WellFormed(t: Token)
  {
    match t.kind
    case Identifier =>
      |t.value| > 0 && IsAlpha(t.value[0]) && forall i :: 0 <= i < |t.value| ==> IsAlnum(t.value[i])
    case Number =>
      |t.value| > 0 && (t.value[0] == '-' || IsDigit(t.value[0]))
      && forall i :: 0 <= i < |t.value| ==> IsNumberChar(t.value[i])
    case StringLiteral => forall i :: 0 <= i < |t.value| ==> t.value[i] != '"'
    case Undefined => false
    case _ => t.value == ""
  }

  predicate AllWellFormed(ts: seq<Token>)
  {
    forall i :: 0 <= i < |ts| ==> WellFormed(ts[i])
  }

  // Counting.

  lemma {:induction false} CountAppend(a: seq<Token>, b: seq<Token>, kind: TokenType)
    ensures Count(a + b, kind) == Count(a, kind) + Count(b, kind)
    decreases |b|
  {
    if |b| == 0 {
      assert a + b == a;
    } else {
      assert (a + b)[..|a + b| - 1] == a + b[..|b| - 1];
      CountAppend(a, b[..|b| - 1], kind);
    }
  }

  lemma {:induction false} CountRepeat(k: TokenType, n: nat, kind: TokenType)
    ensures Count(Repeat(k, n), kind) == if k == kind then n else 0
  {
    if n > 0 {
      assert Repeat(k, n)[..n - 1] == Repeat(k, n - 1);
      CountRepeat(k, n - 1, kind);
    }
  }

  lemma CountOne(t: Token, kind: TokenType)
    ensures Count([t], kind) == if t.kind == kind then 1 else 0
  {
    assert [t][..0] == [];
  }

  /** Closing `n` levels, no more than are open, keeps every prefix
      non-negative and lowers the depth by `n`. */
  lemma AppendDedents(ts: seq<Token>, n: nat)
    requires NeverNegative(ts) && n <= Depth(ts)
    ensures Depth(ts + Repeat(Dedent, n)) == Depth(ts) - n
    ensures NeverNegative(ts + Repeat(Dedent, n))
  {
    var all := ts + Repeat(Dedent, n);
    CountAppend(ts, Repeat(Dedent, n), Indent);
    CountAppend(ts, Repeat(Dedent, n), Dedent);
    CountRepeat(Dedent, n, Indent);
    CountRepeat(Dedent, n, Dedent);
    forall k | 0 <= k <= |all|
      ensures Depth(all[..k]) >= 0
    {
      if k <= |ts| {
        assert all[..k] == ts[..k];
      } else {
        var j := k - |ts|;
        assert all[..k] == ts + Repeat(Dedent, j);
        CountAppend(ts, Repeat(Dedent, j), Indent);
        CountAppend(ts, Repeat(Dedent, j), Dedent);
        CountRepeat(Dedent, j, Indent);
        CountRepeat(Dedent, j, Dedent);
      }
    }
  }

  /** Opening `n` levels raises the depth by `n` and keeps every prefix
      non-negative. */
  lemma AppendIndents(ts: seq<Token>, n: nat)
    requires NeverNegative(ts) && 0 <= Depth(ts)
    ensures Depth(ts + Repeat(Indent, n)) == Depth(ts) + n
    ensures NeverNegative(ts + Repeat(Indent, n))
  {
    var all := ts + Repeat(Indent, n);
    CountAppend(ts, Repeat(Indent, n), Indent);
    CountAppend(ts, Repeat(Indent, n), Dedent);
    CountRepeat(Indent, n, Indent);
    CountRepeat(Indent, n, Dedent);
    forall k | 0 <= k <= |all|
      ensures Depth(all[..k]) >= 0
    {
      if k <= |ts| {
        assert all[..k] == ts[..k];
      } else {
        var j := k - |ts|;
        assert all[..k] == ts + Repeat(Indent, j);
        CountAppend(ts, Repeat(Indent, j), Indent);
        CountAppend(ts, Repeat(Indent, j), Dedent);
        CountRepeat(Indent, j, Indent);
        CountRepeat(Indent, j, Dedent);
      }
    }
  }

  /** Any other token leaves the depth alone. */
  lemma AppendOther(ts: seq<Token>, t: Token)
    requires NeverNegative(ts) && 0 <= Depth(ts)
    requires t.kind != Indent && t.kind != Dedent
    ensures Depth(ts + [t]) == Depth(ts)
    ensures NeverNegative(ts + [t])
  {
    CountAppend(ts, [t], Indent);
    CountAppend(ts, [t], Dedent);
    CountOne(t, Indent);
    CountOne(t, Dedent);
    var all := ts + [t];
    forall k | 0 <= k <= |all|
      ensures Depth(all[..k]) >= 0
    {
      if k <= |ts| {
        assert all[..k] == ts[..k];
      } else {
        assert all[..k] == all;
      }
    }
  }

  /** The indentation block moves the depth to the new level, and each of
      the `|new - old|` tokens it emits is of one kind. */
  lemma IndentTokensEffect(ts: seq<Token>, from: nat, to: nat)
    requires NeverNegative(ts) && Depth(ts) == from
    ensures Depth(ts + IndentTokens(from, to)) == to
    ensures NeverNegative(ts + IndentTokens(from, to))
    ensures Count(ts + IndentTokens(from, to), Indent) == Count(ts, Indent) + (if to > from then to - from else 0)
    ensures Count(ts + IndentTokens(from, to), Dedent) == Count(ts, Dedent) + (if to < from then from - to else 0)
  {
    if to < from {
      AppendDedents(ts, from - to);
      CountAppend(ts, Repeat(Dedent, from - to), Indent);
      CountAppend(ts, Repeat(Dedent, from - to), Dedent);
      CountRepeat(Dedent, from - to, Indent);
      CountRepeat(Dedent, from - to, Dedent);
    } else {
      AppendIndents(ts, to - from);
      CountAppend(ts, Repeat(Indent, to - from), Indent);
      CountAppend(ts, Repeat(Indent, to - from), Dedent);
      CountRepeat(Indent, to - from, Indent);
      CountRepeat(Indent, to - from, Dedent);
    }
  }

  /** What the dispatch appends: nothing, or one token of a kind other than
      `Indent` and `Dedent`. */
  lemma DispatchAppends(source: string, s: LexState, b: char)
    requires s.position <= |source|
    requires b != ' ' ==> s.position < |source| && source[s.position] == b
    requires Dispatch(source, s, b).Ok?
    ensures var r := Dispatch(source, s, b).value;
      r.indent == s.indent &&
      (r.tokens == s.tokens ||
       (|r.tokens| == |s.tokens| + 1 && r.tokens[..|s.tokens|] == s.tokens
        && r.tokens[|s.tokens|].kind != Indent && r.tokens[|s.tokens|].kind != Dedent))
  {
    var r := Dispatch(source, s, b).value;
    if r.tokens != s.tokens {
      assert r.tokens[..|s.tokens|] == s.tokens;
    }
  }

  // The indentation depth.

  /** One iteration keeps `indent_level` equal to the open depth. */
  lemma StepKeepsConsistent(source: string, st: LexState)
    requires st.position < |source| && Consistent(st) && Step(source, st).Ok?
    ensures Consistent(Step(source, st).value)
  {
    var b := source[st.position];
    var s := AfterIndent(source, st);
    if st.column == 0 && !st.inArray {
      IndentTokensEffect(st.tokens, st.indent, LeadingSpaces(source, st) / IndentLength);
    }
    assert Consistent(s);
    DispatchAppends(source, s, b);
    var r := Dispatch(source, s, b).value;
    if r.tokens != s.tokens {
      var t := r.tokens[|s.tokens|];
      assert r.tokens == s.tokens + [t];
      AppendOther(s.tokens, t);
    }
  }

  lemma {:induction false} RunKeepsConsistent(source: string, st: LexState)
    requires Consistent(st) && Run(source, st).Ok?
    ensures Consistent(Run(source, st).value)
    decreases |source| - st.position
  {
    if st.position < |source| {
      StepKeepsConsistent(source, st);
      RunKeepsConsistent(source, Step(source, st).value);
    }
  }

  /** The tokens of a successful run are balanced: no prefix closes more
      levels than it opened, and the final drain makes the indents and the
      dedents equal in number. */
  lemma LexBalanced(source: string)
    requires Lex(source).Ok?
    ensures Depth(Lex(source).value) == 0
    ensures Count(Lex(source).value, Indent) == Count(Lex(source).value, Dedent)
    ensures NeverNegative(Lex(source).value)
  {
    var init := Start(0, 0, 0);
    assert init.tokens[..0] == [];
    assert Consistent(init);
    RunKeepsConsistent(source, init);
    var st := Run(source, init).value;
    AppendDedents(st.tokens, st.indent);
  }

  // One iteration.

  /** At the start of a line outside a list the new level is the number of
      leading spaces divided by four, and exactly `|new - old|` indentation
      tokens are emitted, all `Indent` or all `Dedent`. */
  lemma IndentationLevel(source: string, st: LexState)
    requires st.position < |source| && st.column == 0 && !st.inArray
    requires Consistent(st) && Step(source, st).Ok?
    ensures var r := Step(source, st).value;
      var level := LeadingSpaces(source, st) / IndentLength;
      r.indent == level
      && Count(r.tokens, Indent) == Count(st.tokens, Indent) + (if level > st.indent then level - st.indent else 0)
      && Count(r.tokens, Dedent) == Count(st.tokens, Dedent) + (if level < st.indent then st.indent - level else 0)
  {
    var b := source[st.position];
    var s := AfterIndent(source, st);
    IndentTokensEffect(st.tokens, st.indent, LeadingSpaces(source, st) / IndentLength);
    DispatchAppends(source, s, b);
    var r := Dispatch(source, s, b).value;
    if r.tokens != s.tokens {
      var t := r.tokens[|s.tokens|];
      assert r.tokens == s.tokens + [t];
      CountAppend(s.tokens, [t], Indent);
      CountAppend(s.tokens, [t], Dedent);
      CountOne(t, Indent);
      CountOne(t, Dedent);
    }
  }

  /** A line that starts without a space, outside a list, closes every open
      level. */
  lemma UnindentedLineDedentsFully(source: string, st: LexState)
    requires st.position < |source| && st.column == 0 && !st.inArray
    requires source[st.position] != ' '
    requires Consistent(st) && Step(source, st).Ok?
    ensures Step(source, st).value.indent == 0
    ensures Count(Step(source, st).value.tokens, Dedent) == Count(st.tokens, Dedent) + st.indent
  {
    assert LeadingSpaces(source, st) == 0;
    IndentationLevel(source, st);
  }

  /** An empty line outside a list: all levels are closed and a `NewLine`
      follows. */
  lemma BlankLine(source: string, st: LexState)
    requires st.position < |source| && st.column == 0 && !st.inArray
    requires source[st.position] == '\n'
    ensures Step(source, st).Ok?
    ensures Step(source, st).value.tokens == st.tokens + Repeat(Dedent, st.indent) + [Mark(NewLine)]
    ensures Step(source, st).value.indent == 0
  {
    assert LeadingSpaces(source, st) == 0;
  }

  /** Every `'\n'` starts the next row in column 0; a `NewLine` token is
      emitted for it exactly when the cursor is outside a list, and for no
      other character. */
  lemma RowsAndNewLines(source: string, st: LexState)
    requires st.position < |source| && Step(source, st).Ok?
    ensures var r := Step(source, st).value;
      var b := source[st.position];
      r.row == st.row + (if b == '\n' then 1 else 0)
      && (b == '\n' ==> r.column == 0)
      && Count(r.tokens, NewLine) == Count(st.tokens, NewLine) + (if b == '\n' && !st.inArray then 1 else 0)
  {
    StepIsDispatch(source, st);
    IndentKeepsNewLines(source, st);
    DispatchNewLines(source, AfterIndent(source, st), source[st.position]);
  }

  /** An iteration is the dispatch on the character it starts on, from the
      state after the indentation block, which moves the cursor only over
      spaces. */
  lemma StepIsDispatch(source: string, st: LexState)
    requires st.position < |source|
    ensures var s := AfterIndent(source, st);
      var b := source[st.position];
      s.position <= |source| && (b != ' ' ==> s.position == st.position)
      && Step(source, st) == Dispatch(source, s, b)
  {
  }

  /** The indentation block keeps the row and the `NewLine` count. */
  lemma IndentKeepsNewLines(source: string, st: LexState)
    ensures var s := AfterIndent(source, st);
      s.row == st.row && s.inArray == st.inArray && Count(s.tokens, NewLine) == Count(st.tokens, NewLine)
  {
    if st.column == 0 && !st.inArray {
      var level := LeadingSpaces(source, st) / IndentLength;
      CountAppend(st.tokens, IndentTokens(st.indent, level), NewLine);
      if level < st.indent {
        CountRepeat(Dedent, st.indent - level, NewLine);
      } else {
        CountRepeat(Indent, level - st.indent, NewLine);
      }
    }
  }

  /** The dispatch moves to the next row, in column 0, exactly on `'\n'`,
      and emits a `NewLine` exactly on `'\n'` outside a list. */
  lemma DispatchNewLines(source: string, s: LexState, b: char)
    requires s.position <= |source|
    requires b != ' ' ==> s.position < |source| && source[s.position] == b
    requires Dispatch(source, s, b).Ok?
    ensures var r := Dispatch(source, s, b).value;
      r.row == s.row + (if b == '\n' then 1 else 0)
      && (b == '\n' ==> r.column == 0)
      && Count(r.tokens, NewLine) == Count(s.tokens, NewLine) + (if b == '\n' && !s.inArray then 1 else 0)
  {
    DispatchAppends(source, s, b);
    var r := Dispatch(source, s, b).value;
    if r.tokens != s.tokens {
      var t := r.tokens[|s.tokens|];
      assert r.tokens == s.tokens + [t];
      CountAppend(s.tokens, [t], NewLine);
      CountOne(t, NewLine);
    }
  }

  /** Inside `[ ... ]` an iteration emits no `Indent`, `Dedent` or `NewLine`
      and keeps the indentation level. */
  lemma NothingStructuralInList(source: string, st: LexState)
    requires st.position < |source| && st.inArray && Step(source, st).Ok?
    ensures var r := Step(source, st).value;
      r.indent == st.indent
      && Count(r.tokens, Indent) == Count(st.tokens, Indent)
      && Count(r.tokens, Dedent) == Count(st.tokens, Dedent)
      && Count(r.tokens, NewLine) == Count(st.tokens, NewLine)
  {
    var b := source[st.position];
    DispatchAppends(source, st, b);
    var r := Dispatch(source, st, b).value;
    if r.tokens != st.tokens {
      var t := r.tokens[|st.tokens|];
      assert r.tokens == st.tokens + [t];
      assert t.kind != NewLine;
      CountAppend(st.tokens, [t], Indent);
      CountAppend(st.tokens, [t], Dedent);
      CountAppend(st.tokens, [t], NewLine);
      CountOne(t, Indent);
      CountOne(t, Dedent);
      CountOne(t, NewLine);
    }
  }

  /** An identifier is the longest run of letters and digits that starts
      with the letter under the cursor. */
  lemma IdentifierIsMaximal(source: string, st: LexState)
    requires st.position < |source| && IsAlpha(source[st.position])
    ensures Step(source, st).Ok?
    ensures var r := Step(source, st).value;
      var t := r.tokens[|r.tokens| - 1];
      t.kind == Identifier && t.value == source[st.position..r.position] && WellFormed(t)
      && (r.position == |source| || !IsAlnum(source[r.position]))
  {
    assert LeadingSpaces(source, st) == 0;
    ScanRunShape(source, AfterIndent(source, st), Identifier, IsAlnum);
  }

  /** A number is the longest run of digits, `.`, `-` and `e` that starts at
      the `-` or digit under the cursor. */
  lemma NumberIsMaximal(source: string, st: LexState)
    requires st.position < |source|
    requires source[st.position] == '-' || IsDigit(source[st.position])
    ensures Step(source, st).Ok?
    ensures var r := Step(source, st).value;
      var t := r.tokens[|r.tokens| - 1];
      t.kind == Number && t.value == source[st.position..r.position] && WellFormed(t)
      && (r.position == |source| || !IsNumberChar(source[r.position]))
  {
    assert LeadingSpaces(source, st) == 0;
    ScanRunShape(source, AfterIndent(source, st), Number, IsNumberChar);
  }

  /** The token a run scan appends: the character under the cursor and the
      longest run after it of characters in `p`. */
  lemma ScanRunShape(source: string, s: LexState, kind: TokenType, p: char -> bool)
    requires s.position < |source|
    ensures var r := ScanRun(source, s, kind, p);
      var t := r.tokens[|r.tokens| - 1];
      s.position < r.position <= |source|
      && t.kind == kind && t.value == source[s.position..r.position]
      && t.value[0] == source[s.position]
      && (forall i :: 0 < i < |t.value| ==> p(t.value[i]))
      && (r.position == |source| || !p(source[r.position]))
  {
    var n := CountWhile(source, s.position, p, 1);
    var v := source[s.position..s.position + n];
    forall i | 0 < i < |v| ensures p(v[i]) {
      assert v[i] == source[s.position + i];
    }
  }

  /** A string literal is the text after the opening quote up to the next
      quote; the cursor moves past that closing quote, or one past the end
      of the source when there is none. */
  lemma StringLiteralExtent(source: string, st: LexState)
    requires st.position < |source| && source[st.position] == '"'
    ensures Step(source, st).Ok?
    ensures var r := Step(source, st).value;
      var t := r.tokens[|r.tokens| - 1];
      st.position + 1 < r.position <= |source| + 1
      && t.kind == StringLiteral && t.value == source[st.position + 1..r.position - 1] && WellFormed(t)
      && (r.position <= |source| ==> source[r.position - 1] == '"')
  {
    assert LeadingSpaces(source, st) == 0;
    ScanStringShape(source, AfterIndent(source, st));
  }

  /** The token a string scan appends: the text after the cursor up to the
      next quote or the end of the source. */
  lemma ScanStringShape(source: string, s: LexState)
    requires s.position < |source|
    ensures var r := ScanString(source, s);
      var t := r.tokens[|r.tokens| - 1];
      s.position + 1 < r.position <= |source| + 1
      && t.kind == StringLiteral && t.value == source[s.position + 1..r.position - 1]
      && (forall i :: 0 <= i < |t.value| ==> t.value[i] != '"')
      && (r.position <= |source| ==> source[r.position - 1] == '"')
  {
    var n := CountWhile(source, s.position, IsNotQuote, 1);
    var v := source[s.position + 1..s.position + n];
    forall i | 0 <= i < |v| ensures v[i] != '"' {
      assert v[i] == source[s.position + 1 + i];
    }
  }

  // Token shapes over a whole run.

  lemma StepWellFormed(source: string, st: LexState)
    requires st.position < |source| && AllWellFormed(st.tokens) && Step(source, st).Ok?
    ensures AllWellFormed(Step(source, st).value.tokens)
  {
    var b := source[st.position];
    var s := AfterIndent(source, st);
    StepIsDispatch(source, st);
    assert AllWellFormed(s.tokens);
    DispatchAppends(source, s, b);
    var r := Step(source, st).value;
    if r.tokens != s.tokens {
      var t := r.tokens[|s.tokens|];
      assert r.tokens == s.tokens + [t];
      assert WellFormed(t) by {
        if IsAlpha(b) {
          IdentifierIsMaximal(source, st);
        } else if b == '-' || IsDigit(b) {
          NumberIsMaximal(source, st);
        } else if b == '"' {
          StringLiteralExtent(source, st);
        }
      }
      AppendWellFormed(s.tokens, t);
    }
  }

  lemma AppendWellFormed(ts: seq<Token>, t: Token)
    requires AllWellFormed(ts) && WellFormed(t)
    ensures AllWellFormed(ts + [t])
  {
    assert forall i :: 0 <= i < |ts| ==> (ts + [t])[i] == ts[i];
  }

  lemma {:induction false} RunWellFormed(source: string, st: LexState)
    requires AllWellFormed(st.tokens) && Run(source, st).Ok?
    ensures AllWellFormed(Run(source, st).value.tokens)
    decreases |source| - st.position
  {
    if st.position < |source| {
      StepWellFormed(source, st);
      RunWellFormed(source, Step(source, st).value);
    }
  }

  /** Every token of a successful run has the shape of its kind. */
  lemma LexWellFormed(source: string)
    requires Lex(source).Ok?
    ensures AllWellFormed(Lex(source).value)
  {
    RunWellFormed(source, Start(0, 0, 0));
  }

  // Failure.

  lemma {:induction false} RunFailsAtUnexpected(source: string, st: LexState)
    requires Run(source, st).Err?
    ensures var e := Run(source, st).error;
      st.position <= e.position < |source| && e.ch == source[e.position] && !Lexable(e.ch)
    decreases |source| - st.position
  {
    if Step(source, st).Ok? {
      RunFailsAtUnexpected(source, Step(source, st).value);
    }
  }

  lemma {:induction false} RunSucceedsOnLexable(source: string, st: LexState)
    requires forall i :: st.position <= i < |source| ==> Lexable(source[i])
    ensures Run(source, st).Ok?
    decreases |source| - st.position
  {
    if st.position < |source| {
      RunSucceedsOnLexable(source, Step(source, st).value);
    }
  }

  /** The tokenizer stops with an error only at a character that no token can
      start with, and always succeeds on a source made of such characters. */
  lemma LexFailure(source: string)
    ensures Lex(source).Err? ==>
      var e := Lex(source).error;
      e.position < |source| && e.ch == source[e.position] && !Lexable(e.ch)
    ensures (forall i :: 0 <= i < |source| ==> Lexable(source[i])) ==> Lex(source).Ok?
  {
    if Lex(source).Err? {
      RunFailsAtUnexpected(source, Start(0, 0, 0));
    }
    if forall i :: 0 <= i < |source| ==> Lexable(source[i]) {
      RunSucceedsOnLexable(source, Start(0, 0, 0));
    }
  }
}
