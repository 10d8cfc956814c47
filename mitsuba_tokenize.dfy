/** `Mitsuba::tokenize` (scene_parser.cpp and its older copy in
    backup/scene_parser.cpp, identical): splits a text at every character of
    `delim` (`", "` by default), keeping empty fields only when
    `includeEmpty` is set. `std::string::npos` is `None`. */
module MitsubaTokenize {
  import opened Wrappers

  /** The default delimiters. */
  const DefaultDelimiters: string := ", "

  /** `s.find_first_of(delim, from)`: the first index at or after `from`
      whose character is one of `delim`. */
  function FindFirstOf(s: string, delim: string, from: nat): (r: Option<nat>)
    decreases |s| - from
    ensures r.Some? ==>
      from <= r.value < |s| && s[r.value] in delim
      && forall i :: from <= i < r.value ==> s[i] !in delim
    ensures r.None? ==> forall i :: from <= i < |s| ==> s[i] !in delim
  {
    if |s| <= from then None
    else if s[from] in delim then Some(from)
    else FindFirstOf(s, delim, from + 1)
  }

  /** The tokens the loop pushes from `from` on. A field that ends at a
      delimiter is pushed when it is non-empty or `includeEmpty` holds; the
      field that runs to the end of the text is always pushed, since there
      `pos` is `npos` and so differs from `lastPos`. */
  function SplitFrom(s: string, delim: string, includeEmpty: bool, from: nat): seq<string>
    requires from <= |s|
    decreases |s| - from
  {
    match FindFirstOf(s, delim, from)
    case None => [s[from..]]
    case Some(p) =>
      (if p != from || includeEmpty then [s[from..p]] else []) + SplitFrom(s, delim, includeEmpty, p + 1)
  }

  /** The loop of `tokenize` as written, over `lastPos` and `pos`. */
  method Tokenize(s: string, delim: string, includeEmpty: bool) returns (tokens: seq<string>)
    ensures tokens == SplitFrom(s, delim, includeEmpty, 0)
  {
    var lastPos: Option<nat> := Some(0);
    var pos := FindFirstOf(s, delim, 0);
    tokens := [];
    assert SplitFrom(s, delim, includeEmpty, 0) == tokens + Remaining(s, delim, includeEmpty, lastPos);
    while lastPos.Some?
      invariant lastPos.Some? ==> lastPos.value <= |s| && pos == FindFirstOf(s, delim, lastPos.value)
      invariant SplitFrom(s, delim, includeEmpty, 0) == tokens + Remaining(s, delim, includeEmpty, lastPos)
      decreases if lastPos.Some? then |s| + 1 - lastPos.value else 0
    {
      ghost var from := lastPos.value;
      TurnKeepsSplit(s, delim, includeEmpty, tokens, from);
      tokens := PushField(s, delim, includeEmpty, lastPos.value, pos, tokens);
      lastPos := pos;
      if lastPos.Some? {
        lastPos := Some(lastPos.value + 1);
        pos := FindFirstOf(s, delim, lastPos.value);
      }
      assert lastPos == Resume(s, delim, from);
    }
  }

  /** One turn of the loop at `from` keeps the split equal to the tokens so
      far followed by the tokens still to come. */
  lemma TurnKeepsSplit(s: string, delim: string, includeEmpty: bool, before: seq<string>, from: nat)
    requires from <= |s|
    ensures before + Remaining(s, delim, includeEmpty, Some(from))
      == (before + Pushed(s, delim, includeEmpty, from)) + Remaining(s, delim, includeEmpty, Resume(s, delim, from))
  {
    RemainingStep(s, delim, includeEmpty, from);
  }

  /** One turn of the loop: the tokens still to come at `from` are what the
      turn pushes followed by those still to come one past the delimiter
      it stops at, or nothing when it reaches the end. */
  lemma RemainingStep(s: string, delim: string, includeEmpty: bool, from: nat)
    requires from <= |s|
    ensures Remaining(s, delim, includeEmpty, Some(from))
      == Pushed(s, delim, includeEmpty, from) + Remaining(s, delim, includeEmpty, Resume(s, delim, from))
  {
    if FindFirstOf(s, delim, from).None? {
      assert Pushed(s, delim, includeEmpty, from) + [] == Pushed(s, delim, includeEmpty, from);
    }
  }

  /** The tokens still to come when the loop is at `lastPos`. */
  ghost function Remaining(s: string, delim: string, includeEmpty: bool, lastPos: Option<nat>): seq<string>
  {
    if lastPos.Some? && lastPos.value <= |s| then SplitFrom(s, delim, includeEmpty, lastPos.value) else []
  }

  /** The push at the head of the loop body: the field from `lastPos` to
      `pos`, unless it is empty and `includeEmpty` is unset. */
  method PushField(s: string, delim: string, includeEmpty: bool, lastPos: nat, pos: Option<nat>, tokens: seq<string>)
    returns (r: seq<string>)
    requires lastPos <= |s| && pos == FindFirstOf(s, delim, lastPos)
    ensures r == tokens + Pushed(s, delim, includeEmpty, lastPos)
  {
    r := tokens;
    if pos != Some(lastPos) || includeEmpty {
      // `substr(lastPos, pos - lastPos)`: with `pos == npos` the count runs past the end.
      var end := if pos.Some? then pos.value else |s|;
      r := r + [s[lastPos..end]];
    }
    if pos.None? {
      assert s[lastPos..|s|] == s[lastPos..];
    } else if pos.value == lastPos && !includeEmpty {
      assert r == tokens + [];
    }
  }

  /** What one turn of the loop pushes at `from`. */
  ghost function Pushed(s: string, delim: string, includeEmpty: bool, from: nat): seq<string>
    requires from <= |s|
  {
    match FindFirstOf(s, delim, from)
    case None => [s[from..]]
    case Some(p) => if p != from || includeEmpty then [s[from..p]] else []
  }

  /** Where the loop resumes after a turn at `from`: one past the delimiter
      it stops at, or nowhere when it reaches the end. */
  ghost function Resume(s: string, delim: string, from: nat): Option<nat>
  {
    match FindFirstOf(s, delim, from)
    case None => None
    case Some(p) => Some(p + 1)
  }

  /** The delimiter characters of `s` from `from` on, in order. */
  function DelimitersFrom(s: string, delim: string, from: nat): seq<char>
    decreases |s| - from
  {
    if |s| <= from then []
    else (if s[from] in delim then [s[from]] else []) + DelimitersFrom(s, delim, from + 1)
  }

  /** The fields joined back together, each pair separated by its
      delimiter character. */
  function Join(fields: seq<string>, separators: seq<char>): string
    requires |fields| == |separators| + 1
    decreases |separators|
  {
    if |separators| == 0 then fields[0]
    else fields[0] + [separators[0]] + Join(fields[1..], separators[1..])
  }

  /** The tokens with the empty ones removed. */
  function NonEmpty(ts: seq<string>): (r: seq<string>)
    ensures |r| <= |ts|
  {
    if |ts| == 0 then []
    else (if ts[0] != "" then [ts[0]] else []) + NonEmpty(ts[1..])
  }

  /** The corrected split: with `includeEmpty` unset no token is empty, the
      last field included. */
  function Tokens(s: string, delim: string, from: nat): seq<string>
    requires from <= |s|
    decreases |s| - from
  {
    match FindFirstOf(s, delim, from)
    case None => if from == |s| then [] else [s[from..]]
    case Some(p) => (if p != from then [s[from..p]] else []) + Tokens(s, delim, p + 1)
  }

  lemma {:induction false} DelimitersSkipRun(s: string, delim: string, from: nat, p: nat)
    requires from <= p <= |s|
    requires forall i :: from <= i < p ==> s[i] !in delim
    ensures DelimitersFrom(s, delim, from) == DelimitersFrom(s, delim, p)
    decreases p - from
  {
    if from < p {
      DelimitersSkipRun(s, delim, from + 1, p);
      assert DelimitersFrom(s, delim, from) == [] + DelimitersFrom(s, delim, from + 1);
    }
  }

  /** No token holds a delimiter character, whichever `includeEmpty` is. */
  lemma {:induction false} TokensHaveNoDelimiter(s: string, delim: string, includeEmpty: bool, from: nat)
    requires from <= |s|
    ensures forall t, i :: t in SplitFrom(s, delim, includeEmpty, from) && 0 <= i < |t| ==> t[i] !in delim
    decreases |s| - from
  {
    match FindFirstOf(s, delim, from) {
      case None =>
      case Some(p) =>
        TokensHaveNoDelimiter(s, delim, includeEmpty, p + 1);
        var head := if p != from || includeEmpty then [s[from..p]] else [];
        assert SplitFrom(s, delim, includeEmpty, from) == head + SplitFrom(s, delim, includeEmpty, p + 1);
        FieldHasNoDelimiter(s, delim, from, p);
    }
  }

  /** A field that stops before the first delimiter holds none. */
  lemma FieldHasNoDelimiter(s: string, delim: string, from: nat, p: nat)
    requires from <= p <= |s| && forall i :: from <= i < p ==> s[i] !in delim
    ensures forall i :: 0 <= i < |s[from..p]| ==> s[from..p][i] !in delim
  {
    forall i | 0 <= i < p - from ensures s[from..p][i] !in delim {
      assert s[from..p][i] == s[from + i];
    }
  }

  /** With `includeEmpty` set there is one token more than there are
      delimiter characters, and joining the tokens with those characters
      gives the text back. */
  lemma {:induction false} SplitWithEmptyRoundTrip(s: string, delim: string, from: nat)
    requires from <= |s|
    ensures |SplitFrom(s, delim, true, from)| == |DelimitersFrom(s, delim, from)| + 1
    ensures Join(SplitFrom(s, delim, true, from), DelimitersFrom(s, delim, from)) == s[from..]
    decreases |s| - from
  {
    var ts := SplitFrom(s, delim, true, from);
    match FindFirstOf(s, delim, from) {
      case None =>
        DelimitersSkipRun(s, delim, from, |s|);
        assert DelimitersFrom(s, delim, |s|) == [];
      case Some(p) =>
        SplitWithEmptyRoundTrip(s, delim, p + 1);
        DelimitersSkipRun(s, delim, from, p);
        var ds := DelimitersFrom(s, delim, from);
        assert ds == [s[p]] + DelimitersFrom(s, delim, p + 1);
        assert ts == [s[from..p]] + SplitFrom(s, delim, true, p + 1);
        JoinAtDelimiter(s, from, p, SplitFrom(s, delim, true, p + 1), DelimitersFrom(s, delim, p + 1));
    }
  }

  /** The field before a delimiter, the delimiter and the joined rest give
      the text from the field's start. */
  lemma JoinAtDelimiter(s: string, from: nat, p: nat, rest: seq<string>, ds: seq<char>)
    requires from <= p < |s| && |rest| == |ds| + 1 && Join(rest, ds) == s[p + 1..]
    ensures Join([s[from..p]] + rest, [s[p]] + ds) == s[from..]
  {
    var ts, es := [s[from..p]] + rest, [s[p]] + ds;
    assert ts[1..] == rest && es[1..] == ds;
    assert s[from..] == s[from..p] + [s[p]] + s[p + 1..];
  }

  /** The corrected split never yields an empty token. */
  lemma {:induction false} TokensNonEmpty(s: string, delim: string, from: nat)
    requires from <= |s|
    ensures forall t :: t in Tokens(s, delim, from) ==> t != ""
    decreases |s| - from
  {
    match FindFirstOf(s, delim, from) {
      case None =>
      case Some(p) =>
        TokensNonEmpty(s, delim, p + 1);
        var head := if p != from then [s[from..p]] else [];
        assert Tokens(s, delim, from) == head + Tokens(s, delim, p + 1);
    }
  }

  lemma NonEmptyAppend(a: seq<string>, b: seq<string>)
    ensures NonEmpty(a + b) == NonEmpty(a) + NonEmpty(b)
    decreases |a|
  {
    if |a| == 0 {
      assert a + b == b;
    } else {
      assert (a + b)[1..] == a[1..] + b;
      NonEmptyAppend(a[1..], b);
    }
  }

  /** The corrected tokens are the fields of the text (the split with
      `includeEmpty` set) without the empty ones, in order. */
  lemma {:induction false} TokensAreNonEmptyFields(s: string, delim: string, from: nat)
    requires from <= |s|
    ensures Tokens(s, delim, from) == NonEmpty(SplitFrom(s, delim, true, from))
    decreases |s| - from
  {
    match FindFirstOf(s, delim, from) {
      case None =>
        assert NonEmpty([s[from..]]) == (if s[from..] != "" then [s[from..]] else []) + NonEmpty([]);
      case Some(p) =>
        TokensAreNonEmptyFields(s, delim, p + 1);
        NonEmptyAppend([s[from..p]], SplitFrom(s, delim, true, p + 1));
        assert NonEmpty([s[from..p]]) == (if s[from..p] != "" then [s[from..p]] else []) + NonEmpty([]);
    }
  }

  /** The loop as written differs from the corrected split by exactly one
      trailing empty token, which it pushes when the text (from `from` on)
      is empty or ends with a delimiter. */
  lemma {:induction false} TokenizeIsTokensPlusTrailingEmpty(s: string, delim: string, from: nat)
    requires from <= |s|
    ensures SplitFrom(s, delim, false, from)
      == Tokens(s, delim, from) + (if from == |s| || s[|s| - 1] in delim then [""] else [])
    decreases |s| - from
  {
    match FindFirstOf(s, delim, from) {
      case None =>
        if from < |s| {
          assert s[|s| - 1] !in delim;
        } else {
          assert s[from..] == "";
        }
      case Some(p) =>
        TokenizeIsTokensPlusTrailingEmpty(s, delim, p + 1);
        var head := if p != from then [s[from..p]] else [];
        assert SplitFrom(s, delim, false, from) == head + SplitFrom(s, delim, false, p + 1);
        assert Tokens(s, delim, from) == head + Tokens(s, delim, p + 1);
        if p + 1 == |s| {
          assert s[|s| - 1] in delim;
        }
    }
  }

  /** With `includeEmpty` unset the loop as written still yields an empty
      token: for a trailing delimiter and for the empty text. */
  lemma TokenizeYieldsEmptyToken()
    ensures SplitFrom("a,", DefaultDelimiters, false, 0) == ["a", ""]
    ensures SplitFrom("", DefaultDelimiters, false, 0) == [""]
    ensures Tokens("a,", DefaultDelimiters, 0) == ["a"]
    ensures Tokens("", DefaultDelimiters, 0) == []
  {
    assert FindFirstOf("a,", DefaultDelimiters, 2) == None;
    assert FindFirstOf("a,", DefaultDelimiters, 1) == Some(1);
    assert FindFirstOf("a,", DefaultDelimiters, 0) == Some(1);
    assert "a,"[0..1] == "a";
    assert "a,"[2..] == "";
  }
}
