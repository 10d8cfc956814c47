/** The Mitsuba scene-attribute helpers that scene_parser.cpp and its older
    copy backup/scene_parser.cpp share line for line: `$name` references,
    integers, the enum-valued strings, transforms, colours and the film.
    An `assert` on a node's tag aborts, a `throw` ends the parse and an
    out-of-range `tokens[i]` is undefined behaviour; all three are the
    `Err` of a `Result`. Fields that the source leaves default-initialised,
    and so indeterminate, are `None`. */
module Mitsuba {
  import opened Wrappers
  import opened Xml
  import opened MitsubaTokenize

  datatype Failure =
    | TagMismatch(expected: string, actual: string)
    | ReferenceNotPresent(key: string)
    | UnsupportedFileFormat
    | UnsupportedPixelFormat
    | UnsupportedFilterType
    | IntegratorNotPresent(key: string)
    | UnsupportedIntegratorFormat
    | MissingTokens(count: nat)
    | BsdfNotPresent(id: string)

  datatype FileFormat = OpenExr
  datatype PixelFormat = Rgb
  datatype FilterType = Tent

  datatype Film = Film(
    width: Option<int>,
    height: Option<int>,
    pixelFormat: Option<PixelFormat>,
    fileFormat: Option<FileFormat>,
    filterType: Option<FilterType>)

  datatype IntegratorType = Path

  /** `Mitsuba::Integrator`. */
  datatype Integrator = Integrator(kind: IntegratorType, maxDepth: int)

  /** `Film film;`: every field indeterminate. */
  const UnsetFilm: Film := Film(None, None, None, None, None)

  /** `parse_reference_key`: the text after a leading `$` of the attribute
      `attribute` (always `"value"` in scene_parser.cpp). */
  function ParseReferenceKey(node: Node, attribute: string): (r: Option<string>)
    ensures r.Some? <==> |Attr(node, attribute)| > 0 && Attr(node, attribute)[0] == '$'
    ensures r.Some? ==> Attr(node, attribute) == "$" + r.value
  {
    var value := Attr(node, attribute);
    if |value| > 0 && value[0] == '$' then
      assert value == [value[0]] + value[1..];
      Some(value[1..])
    else None
  }

  /** `parse_integer`: a `$key` is looked up in the integers table, anything
      else is converted by `as_int`. */
  function ParseInteger(node: Node, integers: map<string, int>, conv: Conversions): (r: Result<int, Failure>)
    ensures node.name != "integer" ==> r == Err(TagMismatch("integer", node.name))
    ensures node.name == "integer" ==>
      match ParseReferenceKey(node, "value")
      case Some(key) =>
        (key in integers ==> r == Ok(integers[key]))
        && (key !in integers ==> r == Err(ReferenceNotPresent(key)))
      case None => r == Ok(conv.asInt(Attr(node, "value")))
  {
    if node.name != "integer" then Err(TagMismatch("integer", node.name))
    else match ParseReferenceKey(node, "value")
      case Some(key) => if key in integers then Ok(integers[key]) else Err(ReferenceNotPresent(key))
      case None => Ok(conv.asInt(Attr(node, "value")))
  }

  /** `parse_float` (backup/scene_parser.cpp). */
  function ParseFloat(node: Node, conv: Conversions): (r: Result<real, Failure>)
    ensures r.Ok? <==> node.name == "float"
    ensures r.Ok? ==> r.value == conv.asFloat(Attr(node, "value"))
  {
    if node.name != "float" then Err(TagMismatch("float", node.name))
    else Ok(conv.asFloat(Attr(node, "value")))
  }

  function ParseFileFormat(node: Node): (r: Result<FileFormat, Failure>)
    ensures r.Ok? <==> node.name == "string" && Attr(node, "value") == "openexr"
    ensures node.name == "string" && r.Err? ==> r.error == UnsupportedFileFormat
  {
    if node.name != "string" then Err(TagMismatch("string", node.name))
    else if Attr(node, "value") == "openexr" then Ok(OpenExr)
    else Err(UnsupportedFileFormat)
  }

  function ParsePixelFormat(node: Node): (r: Result<PixelFormat, Failure>)
    ensures r.Ok? <==> node.name == "string" && Attr(node, "value") == "rgb"
    ensures node.name == "string" && r.Err? ==> r.error == UnsupportedPixelFormat
  {
    if node.name != "string" then Err(TagMismatch("string", node.name))
    else if Attr(node, "value") == "rgb" then Ok(Rgb)
    else Err(UnsupportedPixelFormat)
  }

  /** `parse_filter_type` reads the `type` attribute and, unlike its
      siblings, does not check the tag. */
  function ParseFilterType(node: Node): (r: Result<FilterType, Failure>)
    ensures r.Ok? <==> Attr(node, "type") == "tent"
    ensures r.Err? ==> r.error == UnsupportedFilterType
  {
    if Attr(node, "type") == "tent" then Ok(Tent) else Err(UnsupportedFilterType)
  }

  /** The `for (i < n) values[i] = to_float(tokens[i])` loop of
      `parse_transform` and `parse_rgb`. Reading past the tokens is
      undefined behaviour, here an error. */
  method ConvertTokens(tokens: seq<string>, n: nat, toFloat: string -> real) returns (r: Result<seq<real>, Failure>)
    ensures r.Ok? <==> n <= |tokens|
    ensures r.Ok? ==> |r.value| == n && forall i :: 0 <= i < n ==> r.value[i] == toFloat(tokens[i])
    ensures r.Err? ==> r.error == MissingTokens(|tokens|)
  {
    var values: seq<real> := [];
    for i := 0 to n
      invariant i <= |tokens| || i == 0
      invariant |values| == i && forall k :: 0 <= k < i ==> values[k] == toFloat(tokens[k])
    {
      if |tokens| <= i {
        return Err(MissingTokens(|tokens|));
      }
      values := values + [toFloat(tokens[i])];
    }
    r := Ok(values);
  }

  /** The first `n` tokens of the `value` text of `node`, converted; what
      `parse_transform` (`n == 16`, the text of the `matrix` child) and
      `parse_rgb` (`n == 3`) compute. */
  function ValuesOf(text: string, n: nat, conv: Conversions): (r: Result<seq<real>, Failure>)
    ensures var tokens := SplitFrom(text, DefaultDelimiters, false, 0);
      (r.Ok? <==> n <= |tokens|)
      && (r.Ok? ==> |r.value| == n && forall i :: 0 <= i < n ==> r.value[i] == conv.toFloat(tokens[i]))
  {
    var tokens := SplitFrom(text, DefaultDelimiters, false, 0);
    if |tokens| < n then Err(MissingTokens(|tokens|))
    else Ok(seq(n, i requires 0 <= i < n => conv.toFloat(tokens[i])))
  }

  /** What `parse_transform` returns: the 16 numbers of the `matrix`
      child's `value`. */
  function TransformOf(node: Node, conv: Conversions): (r: Result<seq<real>, Failure>)
    ensures r.Ok? ==> node.name == "transform" && |r.value| == 16
    ensures node.name == "transform" ==> r == ValuesOf(Attr(Child(node, "matrix"), "value"), 16, conv)
  {
    if node.name != "transform" then Err(TagMismatch("transform", node.name))
    else ValuesOf(Attr(Child(node, "matrix"), "value"), 16, conv)
  }

  method ParseTransform(node: Node, conv: Conversions) returns (r: Result<seq<real>, Failure>)
    ensures r == TransformOf(node, conv)
  {
    if node.name != "transform" {
      return Err(TagMismatch("transform", node.name));
    }
    var matrixNode := Child(node, "matrix");
    var tokens := Tokenize(Attr(matrixNode, "value"), DefaultDelimiters, false);
    r := ConvertTokens(tokens, 16, conv.toFloat);
    if r.Ok? {
      assert r.value == seq(16, i requires 0 <= i < 16 => conv.toFloat(tokens[i]));
    }
  }

  /** What `parse_rgb` returns: the three numbers of the `value` text. */
  function RgbOf(node: Node, conv: Conversions): (r: Result<seq<real>, Failure>)
    ensures r.Ok? ==> node.name == "rgb" && |r.value| == 3
    ensures node.name == "rgb" ==> r == ValuesOf(Attr(node, "value"), 3, conv)
  {
    if node.name != "rgb" then Err(TagMismatch("rgb", node.name))
    else ValuesOf(Attr(node, "value"), 3, conv)
  }

  method ParseRgb(node: Node, conv: Conversions) returns (r: Result<seq<real>, Failure>)
    ensures r == RgbOf(node, conv)
  {
    if node.name != "rgb" {
      return Err(TagMismatch("rgb", node.name));
    }
    var tokens := Tokenize(Attr(node, "value"), DefaultDelimiters, false);
    r := ConvertTokens(tokens, 3, conv.toFloat);
    if r.Ok? {
      assert r.value == seq(3, i requires 0 <= i < 3 => conv.toFloat(tokens[i]));
    }
  }

  /** One turn of the `parse_film` loop: the child's `name` attribute picks
      the field; a child without one of those names but with the tag
      `rfilter` sets the filter; anything else is skipped. */
  function FilmStep(film: Film, child: Node, integers: map<string, int>, conv: Conversions): Result<Film, Failure>
  {
    var name := Attr(child, "name");
    if name == "width" then
      match ParseInteger(child, integers, conv)
      case Ok(w) => Ok(film.(width := Some(w)))
      case Err(e) => Err(e)
    else if name == "height" then
      match ParseInteger(child, integers, conv)
      case Ok(h) => Ok(film.(height := Some(h)))
      case Err(e) => Err(e)
    else if name == "file_format" then
      match ParseFileFormat(child)
      case Ok(f) => Ok(film.(fileFormat := Some(f)))
      case Err(e) => Err(e)
    else if name == "pixel_format" then
      match ParsePixelFormat(child)
      case Ok(p) => Ok(film.(pixelFormat := Some(p)))
      case Err(e) => Err(e)
    else if child.name == "rfilter" then
      match ParseFilterType(child)
      case Ok(t) => Ok(film.(filterType := Some(t)))
      case Err(e) => Err(e)
    else Ok(film)
  }

  /** The `parse_film` loop over `children`, starting from `film`. */
  function FilmFold(film: Film, children: seq<Node>, integers: map<string, int>, conv: Conversions): Result<Film, Failure>
    decreases |children|
  {
    if |children| == 0 then Ok(film)
    else match FilmStep(film, children[0], integers, conv)
      case Ok(next) => FilmFold(next, children[1..], integers, conv)
      case Err(e) => Err(e)
  }

  /** What `parse_film` returns. */
  function FilmOf(node: Node, integers: map<string, int>, conv: Conversions): Result<Film, Failure>
  {
    if node.name != "film" then Err(TagMismatch("film", node.name))
    else FilmFold(UnsetFilm, node.children, integers, conv)
  }

  /** `parse_film`: walks the children in order, each one assigning the
      field it names. */
  method ParseFilm(node: Node, integers: map<string, int>, conv: Conversions) returns (r: Result<Film, Failure>)
    ensures r == FilmOf(node, integers, conv)
  {
    if node.name != "film" {
      return Err(TagMismatch("film", node.name));
    }
    var film := UnsetFilm;
    var children := node.children;
    for i := 0 to |children|
      invariant FilmOf(node, integers, conv) == FilmFold(film, children[i..], integers, conv)
    {
      var child := children[i];
      assert children[i..][1..] == children[i + 1..];
      var name := Attr(child, "name");
      if name == "width" {
        var w := ParseInteger(child, integers, conv);
        if w.Err? { return Err(w.error); }
        film := film.(width := Some(w.value));
      } else if name == "height" {
        var h := ParseInteger(child, integers, conv);
        if h.Err? { return Err(h.error); }
        film := film.(height := Some(h.value));
      } else if name == "file_format" {
        var f := ParseFileFormat(child);
        if f.Err? { return Err(f.error); }
        film := film.(fileFormat := Some(f.value));
      } else if name == "pixel_format" {
        var p := ParsePixelFormat(child);
        if p.Err? { return Err(p.error); }
        film := film.(pixelFormat := Some(p.value));
      } else if child.name == "rfilter" {
        var t := ParseFilterType(child);
        if t.Err? { return Err(t.error); }
        film := film.(filterType := Some(t.value));
      }
    }
    r := Ok(film);
  }

  lemma {:induction false} FilmFoldAppend(film: Film, a: seq<Node>, b: seq<Node>, integers: map<string, int>, conv: Conversions)
    ensures FilmFold(film, a + b, integers, conv) ==
      match FilmFold(film, a, integers, conv)
      case Ok(mid) => FilmFold(mid, b, integers, conv)
      case Err(e) => Err(e)
    decreases |a|
  {
    if |a| == 0 {
      assert a + b == b;
    } else {
      assert (a + b)[1..] == a[1..] + b;
      match FilmStep(film, a[0], integers, conv) {
        case Ok(next) => FilmFoldAppend(next, a[1..], b, integers, conv);
        case Err(_) =>
      }
    }
  }

  /** In `parse_film` the last `width` child decides the width: a film
      whose children end with one has that child's integer as its width,
      whatever came before. */
  lemma LastWidthWins(node: Node, before: seq<Node>, last: Node, integers: map<string, int>, conv: Conversions)
    requires node.name == "film" && node.children == before + [last]
    requires Attr(last, "name") == "width"
    requires FilmOf(node, integers, conv).Ok?
    ensures ParseInteger(last, integers, conv).Ok?
    ensures FilmOf(node, integers, conv).value.width == Some(ParseInteger(last, integers, conv).value)
  {
    FilmFoldAppend(UnsetFilm, before, [last], integers, conv);
    assert [last][1..] == [];
  }

  /** An `rfilter` child (one whose `name` attribute picks no field) of any
      type other than `"tent"` makes `parse_film` fail. */
  lemma {:induction false} NonTentFilterFails(film: Film, children: seq<Node>, k: nat, integers: map<string, int>, conv: Conversions)
    requires k < |children|
    requires children[k].name == "rfilter" && Attr(children[k], "type") != "tent"
    requires Attr(children[k], "name") !in {"width", "height", "file_format", "pixel_format"}
    ensures FilmFold(film, children, integers, conv).Err?
    decreases k
  {
    if k > 0 {
      match FilmStep(film, children[0], integers, conv) {
        case Ok(next) =>
          assert children[1..][k - 1] == children[k];
          NonTentFilterFails(next, children[1..], k - 1, integers, conv);
        case Err(_) =>
      }
    }
  }

  /** The as-written split and the corrected one agree on their first `n`
      tokens whenever the corrected one has `n`, so a transform or colour
      whose text has enough non-empty fields reads the same values either
      way. */
  lemma ValuesAgreeWithCorrectedTokens(text: string, n: nat, conv: Conversions)
    requires n <= |Tokens(text, DefaultDelimiters, 0)|
    ensures ValuesOf(text, n, conv).Ok?
    ensures forall i :: 0 <= i < n ==>
      ValuesOf(text, n, conv).value[i] == conv.toFloat(Tokens(text, DefaultDelimiters, 0)[i])
  {
    TokenizeIsTokensPlusTrailingEmpty(text, DefaultDelimiters, 0);
  }
}
