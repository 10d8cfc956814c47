/** The token-level helpers of the pbrt-style `Parser` (include/pbrt.h): the
    split of a `"type key"` string and the scans over a `[ ... ]` value
    list. The parser holds the token vector and a cursor that every helper
    advances; `tokens.at(i)` past the end throws `std::out_of_range`, which is
    the error of the model. The conversion of a token's text to a value
    (`std::stoi`, `std::stof`) is a parameter. */
module PbrtParser {
  import opened Wrappers
  import opened PbrtLexer

  /** `std::out_of_range` from `tokens.at(index)`. */
  datatype ParseError = OutOfRange(index: nat)

  /** The index of the first space at or after `from`, as `find(" ")`. */
  function FindSpace(s: string, from: nat): (r: Option<nat>)
    decreases |s| - from
    ensures r.Some? ==>
      (from <= r.value < |s| && s[r.value] == ' ' && forall i :: from <= i < r.value ==> s[i] != ' ')
    ensures r.None? ==> forall i :: from <= i < |s| ==> s[i] != ' '
  {
    if |s| <= from then None
    else if s[from] == ' ' then Some(from)
    else FindSpace(s, from + 1)
  }

  /** The text before the first space and the text after it. Without a space
      `find` gives `npos`; `substr(0, npos)` is then the whole text and so is
      `substr(npos + 1)`, because `npos + 1` wraps round to 0. */
  function SplitTypeAndKey(value: string): (string, string)
  {
    match FindSpace(value, 0)
    case Some(k) => (value[..k], value[k + 1..])
    case None => (value, value)
  }

  /** The `[ ... ]` list that starts at `start`: the converted texts of the
      tokens before the first `ListEnd`, and the index just past that
      `ListEnd`. Running off the end of the tokens is an error at `|tokens|`. */
  function ListValues<T>(tokens: seq<Token>, start: nat, conv: string -> T): (r: Result<(seq<T>, nat), ParseError>)
    decreases |tokens| - start
    ensures r.Ok? ==> start < r.value.1 <= |tokens| && |r.value.0| == r.value.1 - 1 - start
  {
    if |tokens| <= start then Err(OutOfRange(start))
    else if tokens[start].kind == ListEnd then Ok(([], start + 1))
    else
      match ListValues(tokens, start + 1, conv)
      case Err(e) => Err(e)
      case Ok((vs, next)) => Ok(([conv(tokens[start].value)] + vs, next))
  }

  /** A list scan stops at the first `ListEnd` after `start` and gives the
      converted texts of the tokens before it, in order; it fails exactly
      when no `ListEnd` follows, with the error at the end of the tokens. */
  lemma {:induction false} ListValuesMeaning<T>(tokens: seq<Token>, start: nat, conv: string -> T)
    decreases |tokens| - start
    ensures var r := ListValues(tokens, start, conv);
      r.Ok? ==>
        var (vs, next) := r.value;
        tokens[next - 1].kind == ListEnd
        && (forall i :: start <= i < next - 1 ==> tokens[i].kind != ListEnd)
        && (forall i :: 0 <= i < |vs| ==> vs[i] == conv(tokens[start + i].value))
    ensures var r := ListValues(tokens, start, conv);
      r.Err? <==> forall i :: start <= i < |tokens| ==> tokens[i].kind != ListEnd
    ensures var r := ListValues(tokens, start, conv);
      r.Err? ==> r.error == OutOfRange(if start < |tokens| then |tokens| else start)
  {
    if start < |tokens| && tokens[start].kind != ListEnd {
      ListValuesMeaning(tokens, start + 1, conv);
    }
  }

  /** `res` followed by the values of a list scan. */
  function Prepend<T>(res: seq<T>, r: Result<(seq<T>, nat), ParseError>): Result<(seq<T>, nat), ParseError>
  {
    match r
    case Ok((vs, next)) => Ok((res + vs, next))
    case Err(e) => Err(e)
  }

  /** Prepending nothing leaves a scan as it is. */
  lemma PrependNothing<T>(r: Result<(seq<T>, nat), ParseError>)
    ensures Prepend([], r) == r
  {
    match r {
      case Ok((vs, next)) => assert [] + vs == vs;
      case Err(_) =>
    }
  }

  /** A scan that stands on a `]` ends there with what it has. */
  lemma ListValuesAtEnd<T>(tokens: seq<Token>, p: nat, res: seq<T>, conv: string -> T)
    requires p < |tokens| && tokens[p].kind == ListEnd
    ensures Prepend(res, ListValues(tokens, p, conv)) == Ok((res, p + 1))
  {
    assert res + [] == res;
  }

  /** A scan that stands on any other token moves its converted text into
      the values already read. */
  lemma ListValuesStep<T>(tokens: seq<Token>, p: nat, res: seq<T>, conv: string -> T)
    requires p < |tokens| && tokens[p].kind != ListEnd
    ensures Prepend(res, ListValues(tokens, p, conv))
      == Prepend(res + [conv(tokens[p].value)], ListValues(tokens, p + 1, conv))
  {
    var c := conv(tokens[p].value);
    match ListValues(tokens, p + 1, conv) {
      case Ok((vs, next)) => assert (res + [c]) + vs == res + ([c] + vs);
      case Err(_) =>
    }
  }

  class Parser {
    const tokens: seq<Token>
    var position: nat

    constructor (tokens: seq<Token>)
      ensures this.tokens == tokens && position == 0
    {
      this.tokens := tokens;
      position := 0;
    }

    /** `parse_type_and_key`: splits the text of the token under the cursor
        and moves the cursor by one. */
    method ParseTypeAndKey() returns (r: Result<(string, string), ParseError>)
      modifies this
      ensures old(position) < |tokens| ==>
        r == Ok(SplitTypeAndKey(tokens[old(position)].value)) && position == old(position) + 1
      ensures |tokens| <= old(position) ==> r == Err(OutOfRange(old(position))) && position == old(position)
    {
      if |tokens| <= position {
        return Err(OutOfRange(position));
      }
      var typeAndKey := tokens[position].value;
      var split := FindSpace(typeAndKey, 0);
      var kind, key;
      match split {
        case Some(k) =>
          kind, key := typeAndKey[..k], typeAndKey[k + 1..];
        case None =>
          kind, key := typeAndKey, typeAndKey;
      }
      position := position + 1;
      r := Ok((kind, key));
    }

    /** `parse_unknown_values`: skips the `[`, converts every token up to the
        first `]` and skips that `]` too. */
    method ParseUnknownValues<T>(conv: string -> T) returns (r: Result<seq<T>, ParseError>)
      modifies this
      ensures match ListValues(tokens, old(position) + 1, conv)
        case Ok((vs, next)) => r == Ok(vs) && position == next
        case Err(e) => r == Err(e)
    {
      position := position + 1;
      ghost var start := position;
      var res: seq<T> := [];
      PrependNothing(ListValues(tokens, start, conv));
      while true
        invariant start <= position
        invariant ListValues(tokens, start, conv) == Prepend(res, ListValues(tokens, position, conv))
        decreases |tokens| - position
      {
        if |tokens| <= position {
          return Err(OutOfRange(position));
        }
        if tokens[position].kind == ListEnd {
          ListValuesAtEnd(tokens, position, res, conv);
          break;
        }
        ListValuesStep(tokens, position, res, conv);
        res := res + [conv(tokens[position].value)];
        position := position + 1;
      }
      position := position + 1;
      r := Ok(res);
    }

    /** `parse_values<T, n>`: skips the `[`, converts the next `n` tokens
        whatever their kind, then skips one more token, which a well-formed
        list has as its `]`. */
    method ParseValues<T>(conv: string -> T, n: nat) returns (r: Result<seq<T>, ParseError>)
      modifies this
      ensures var start := old(position) + 1;
        if n == 0 || start + n <= |tokens| then
          r.Ok? && |r.value| == n && position == start + n + 1
          && forall i :: 0 <= i < n ==> r.value[i] == conv(tokens[start + i].value)
        else
          r == Err(OutOfRange(if start < |tokens| then |tokens| else start))
    {
      position := position + 1;
      ghost var start := position;
      var res: seq<T> := [];
      for i := 0 to n
        invariant position == start + i && |res| == i
        invariant start + i <= |tokens| || i == 0
        invariant forall k :: 0 <= k < i ==> res[k] == conv(tokens[start + k].value)
      {
        if |tokens| <= position {
          return Err(OutOfRange(position));
        }
        res := res + [conv(tokens[position].value)];
        position := position + 1;
      }
      position := position + 1;
      r := Ok(res);
    }
  }

  /** The type and the key are the text before and after the first space,
      so joining them with that space gives the text back; with no space
      both are the whole text. */
  lemma SplitTypeAndKeyRoundTrip(value: string)
    ensures var (kind, key) := SplitTypeAndKey(value);
      if ' ' in value then
        kind + " " + key == value && ' ' !in kind
      else
        kind == value && key == value
  {
    var (kind, key) := SplitTypeAndKey(value);
    match FindSpace(value, 0) {
      case Some(k) =>
        assert value == value[..k] + [value[k]] + value[k + 1..];
        assert forall i :: 0 <= i < |kind| ==> kind[i] == value[i];
      case None =>
        assert forall i :: 0 <= i < |value| ==> value[i] != ' ';
    }
  }

  /** A list scan and a fixed-size read agree on a list of exactly `n`
      values that closes with `]`. */
  lemma {:induction false} ListValuesOfFixedList<T>(tokens: seq<Token>, start: nat, n: nat, conv: string -> T)
    requires start + n < |tokens| && tokens[start + n].kind == ListEnd
    requires forall i :: start <= i < start + n ==> tokens[i].kind != ListEnd
    ensures ListValues(tokens, start, conv).Ok?
    ensures ListValues(tokens, start, conv).value.1 == start + n + 1
    ensures |ListValues(tokens, start, conv).value.0| == n
    ensures forall i :: 0 <= i < n ==> ListValues(tokens, start, conv).value.0[i] == conv(tokens[start + i].value)
    decreases n
  {
    if n > 0 {
      ListValuesOfFixedList(tokens, start + 1, n - 1, conv);
      var rest := ListValues(tokens, start + 1, conv).value.0;
      assert ListValues(tokens, start, conv).value.0 == [conv(tokens[start].value)] + rest;
    }
  }
}
