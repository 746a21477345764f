/**
  * The path-template compiler `pathToRegexp` (src/core/compile.ts, and the
  * textually identical src/utils/regexp.ts): a route template such as
  * `/users/:id/files/...rest?` becomes the source text of a regular
  * expression. The text is modelled exactly; the language it denotes is given
  * separately, piece by piece, in module Matcher.
  */
module PathPattern {
  import opened Base
  import opened Text

  /** What a non-empty template segment stands for. */
  datatype Kind = Literal | Param | Wildcard

  /** A classified segment: its kind, its text (the name, or the literal) and the `?` flag. */
  datatype Piece = Piece(kind: Kind, name: string, optional: bool)

  /** The character run a parameter matches, `[^/\s?#]+`, written in two parts. */
  const Run: string := "[^/\\s" + "?#]+"

  /**
    * Classifies one `/`-separated segment: empty segments contribute nothing; a
    * trailing `?` is stripped and marks the piece optional; then `:name` is a
    * parameter, `...name` a wildcard, and anything else a literal.
    */
  function Classify(segment: string): (r: Option<Piece>)
    ensures r.None? <==> segment == ""
    ensures r.Some? ==> r.value.optional == (segment[|segment| - 1] == '?')
  {
    if segment == "" then None
    else
      var optional := segment[|segment| - 1] == '?';
      var s := if optional then segment[..|segment| - 1] else segment;
      if IsParam(s) then Some(Piece(Param, s[1..], optional))
      else if IsWildcard(s) then Some(Piece(Wildcard, s[3..], optional))
      else Some(Piece(Literal, s, optional))
  }

  /** `/^:/`: the segment names a parameter. */
  predicate IsParam(s: string) {
    |s| >= 1 && s[0] == ':'
  }

  /** `/^\.{3}/`: the segment names a wildcard. */
  predicate IsWildcard(s: string) {
    |s| >= 3 && s[0] == '.' && s[1] == '.' && s[2] == '.'
  }

  /** The opening of the named group `(?<name>` when names are captured, nothing otherwise. */
  function NameOpen(name: string, capture: bool): string {
    if capture then "(?<" + name + ">" else ""
  }

  /** The `)` closing the named group when names are captured, nothing otherwise. */
  function NameClose(capture: bool): string {
    if capture then ")" else ""
  }

  /** The regular-expression text of one piece, before the optional wrapper. */
  function RenderCore(p: Piece, capture: bool): string {
    match p.kind
    case Param => "\\/" + NameOpen(p.name, capture) + Run + NameClose(capture)
    case Wildcard =>
      "\\/" + NameOpen(p.name, capture) + "(?:" + Run + "/)*" + "(?:" + Run + ")" + NameClose(capture)
    case Literal => "/" + p.name
  }

  /** The regular-expression text of one piece: an optional piece is wrapped in `(?:…)?`. */
  function Render(p: Piece, capture: bool): string {
    if p.optional then "(?:" + RenderCore(p, capture) + ")?" else RenderCore(p, capture)
  }

  /** The pieces of a list of segments, in order, empty segments dropped. */
  function PiecesOf(segments: seq<string>): (r: seq<Piece>)
    ensures |r| <= |segments|
  {
    if segments == [] then []
    else
      var last := Classify(segments[|segments| - 1]);
      PiecesOf(segments[..|segments| - 1]) + (if last.Some? then [last.value] else [])
  }

  function RenderPieces(ps: seq<Piece>, capture: bool): string {
    if ps == [] then "" else RenderPieces(ps[..|ps| - 1], capture) + Render(ps[|ps| - 1], capture)
  }

  /** The pieces of a template path. */
  function Pieces(path: string): seq<Piece> {
    PiecesOf(Split(path, '/'))
  }

  /** The text starts with the empty marker group `()`. */
  predicate HasMarker(r: string) {
    |r| >= 2 && r[0] == '(' && r[1] == ')'
  }

  /** The pattern text `pathToRegexp(path, capture)` returns. */
  function Pattern(path: string, capture: bool): (r: string)
    ensures HasMarker(r)
  {
    if path == "/" then "()\\/" else "()" + RenderPieces(Pieces(path), capture)
  }

  /** `pathToRegexp(path, captureParamGroups)`: the segment loop appending to `pattern`. */
  method PathToRegexp(path: string, capture: bool) returns (pattern: string)
    ensures pattern == Pattern(path, capture)
  {
    pattern := "()";
    if path == "/" {
      pattern := pattern + "\\/";
      return;
    }
    var segments := Split(path, '/');
    var i := 0;
    while i < |segments|
      invariant 0 <= i <= |segments|
      invariant pattern == "()" + RenderPieces(PiecesOf(segments[..i]), capture)
    {
      PiecesOfStep(segments, i);
      var segment := segments[i];
      if segment == "" {
        assert PiecesOf(segments[..i + 1]) == PiecesOf(segments[..i]);
        i := i + 1;
        continue;
      }
      var optional := segment[|segment| - 1] == '?';
      if optional {
        segment := segment[..|segment| - 1];
      }
      ghost var p := Classify(segments[i]).value;
      assert p.optional == optional;
      var piece: string;
      if IsParam(segment) {
        assert p == Piece(Param, segment[1..], optional);
        piece := "\\/" + NameOpen(segment[1..], capture) + Run + NameClose(capture);
      } else if IsWildcard(segment) {
        assert p == Piece(Wildcard, segment[3..], optional);
        piece := "\\/" + NameOpen(segment[3..], capture) + "(?:" + Run + "/)*" + "(?:" + Run + ")" + NameClose(capture);
      } else {
        assert p == Piece(Literal, segment, optional);
        piece := "/" + segment;
      }
      assert piece == RenderCore(p, capture);
      if optional {
        piece := "(?:" + piece + ")?";
      }
      RenderPiecesStep(PiecesOf(segments[..i]), p, capture, pattern, piece);
      pattern := pattern + piece;
      i := i + 1;
    }
    assert segments[..i] == segments;
  }

  lemma PiecesOfStep(segments: seq<string>, i: nat)
    requires i < |segments|
    ensures PiecesOf(segments[..i + 1]) ==
            PiecesOf(segments[..i]) + (if segments[i] == "" then [] else [Classify(segments[i]).value])
  {
    assert segments[..i + 1][..i] == segments[..i];
  }

  /** The rendering of one more piece is the rendering so far followed by that piece's text. */
  lemma RenderPiecesSnoc(ps: seq<Piece>, p: Piece, capture: bool)
    ensures RenderPieces(ps + [p], capture) == RenderPieces(ps, capture) + Render(p, capture)
  {
    var qs := ps + [p];
    assert qs[..|qs| - 1] == ps;
  }

  /** Appending one piece's text to a pattern extends its rendering by that piece. */
  lemma RenderPiecesStep(ps: seq<Piece>, p: Piece, capture: bool, pattern: string, piece: string)
    requires pattern == "()" + RenderPieces(ps, capture) && piece == Render(p, capture)
    ensures pattern + piece == "()" + RenderPieces(ps + [p], capture)
  {
    RenderPiecesSnoc(ps, p, capture);
  }

  // ---------------------------------------------------------------------------
  // Shape of the produced text
  // ---------------------------------------------------------------------------

  /** A segment that is copied as text: not empty, not `:…`, not `...…`, no trailing `?`. */
  predicate PlainSegment(s: string) {
    s != "" && !IsParam(s) && !IsWildcard(s) && s[|s| - 1] != '?'
  }

  /** `/a/b/c`: a leading slash and plain segments only (no doubled or trailing slash). */
  predicate LiteralPath(path: string) {
    var segs := Split(path, '/');
    |segs| >= 2 && segs[0] == "" && forall i :: 1 <= i < |segs| ==> PlainSegment(segs[i])
  }

  /** A plain literal piece renders as a slash followed by its text. */
  lemma RenderLiteral(name: string, capture: bool)
    ensures Render(Piece(Literal, name, false), capture) == "/" + name
  {
  }

  /** One more plain segment extends the rendering by a slash and that segment. */
  lemma RenderPlainStep(segs: seq<string>, capture: bool)
    requires |segs| >= 1 && PlainSegment(segs[|segs| - 1])
    ensures RenderPieces(PiecesOf(segs), capture) ==
            RenderPieces(PiecesOf(segs[..|segs| - 1]), capture) + ("/" + segs[|segs| - 1])
  {
    var n := |segs| - 1;
    var lit := Piece(Literal, segs[n], false);
    assert Classify(segs[n]) == Some(lit);
    assert PiecesOf(segs) == PiecesOf(segs[..n]) + [lit];
    RenderPiecesSnoc(PiecesOf(segs[..n]), lit, capture);
    RenderLiteral(segs[n], capture);
  }

  lemma {:induction false} RenderPlainSegments(segs: seq<string>, capture: bool)
    requires |segs| >= 1
    requires forall i :: 0 <= i < |segs| ==> PlainSegment(segs[i])
    ensures RenderPieces(PiecesOf(segs), capture) == "/" + Join(segs, "/")
    decreases |segs|
  {
    var n := |segs| - 1;
    var init := segs[..n];
    RenderPlainStep(segs, capture);
    if n == 0 {
      assert init == [];
    } else {
      assert forall i :: 0 <= i < |init| ==> init[i] == segs[i];
      RenderPlainSegments(init, capture);
      JoinLast(segs, "/");
      SlashBetween(Join(init, "/"), segs[n]);
    }
  }

  /** `/j` followed by `/x` is a slash followed by `j/x`. */
  lemma SlashBetween(j: string, x: string)
    ensures ("/" + j) + ("/" + x) == "/" + (j + "/" + x)
  {
  }

  /** A list of two or more pieces joins as all but the last, the separator, and the last. */
  lemma {:induction false} JoinLast(xs: seq<string>, sep: string)
    requires |xs| >= 2
    ensures Join(xs, sep) == Join(xs[..|xs| - 1], sep) + sep + xs[|xs| - 1]
    decreases |xs|
  {
    var m := |xs| - 1;
    var init := xs[..m];
    assert init[0] == xs[0];
    if |xs| == 2 {
      assert init == [xs[0]];
    } else {
      JoinLast(xs[1..], sep);
      assert init[1..] == xs[1..][..m - 1];
      assert Join(init, sep) == xs[0] + sep + Join(init[1..], sep);
    }
  }

  lemma {:induction false} JoinSnoc(xs: seq<string>, x: string, sep: string)
    requires xs != []
    ensures Join(xs + [x], sep) == Join(xs, sep) + sep + x
    decreases |xs|
  {
    if |xs| == 1 {
      assert (xs + [x])[1..] == [x];
    } else {
      assert (xs + [x])[1..] == xs[1..] + [x];
      JoinSnoc(xs[1..], x, sep);
    }
  }

  /** A literal path is a slash followed by its plain segments joined by slashes. */
  lemma LiteralPathShape(path: string)
    requires LiteralPath(path)
    ensures Split(path, '/') == [""] + Split(path, '/')[1..]
    ensures forall i :: 0 <= i < |Split(path, '/')[1..]| ==> PlainSegment(Split(path, '/')[1..][i])
    ensures path == "/" + Join(Split(path, '/')[1..], "/")
  {
    var segs := Split(path, '/');
    var rest := segs[1..];
    forall i | 0 <= i < |rest| ensures PlainSegment(rest[i]) { assert rest[i] == segs[i + 1]; }
    JoinSplit(path, '/');
    assert Join(segs, "/") == segs[0] + "/" + Join(rest, "/");
  }

  /** The pieces of a literal path come from its segments after the leading empty one. */
  lemma LiteralPathPieces(path: string)
    requires LiteralPath(path)
    ensures path != "/"
    ensures Pieces(path) == PiecesOf(Split(path, '/')[1..])
  {
    LiteralPathShape(path);
    var rest := Split(path, '/')[1..];
    PiecesOfAppend([""], rest);
    assert PiecesOf([""]) == [] by { assert [""][..0] == []; }
    assert [] + PiecesOf(rest) == PiecesOf(rest);
    JoinHead(rest, "/");
    assert path[1] == rest[0][0];
  }

  /** The pieces of a literal path render back to the path itself, capture flag or not. */
  lemma LiteralPathRender(path: string, capture: bool)
    requires LiteralPath(path)
    ensures RenderPieces(Pieces(path), capture) == path
  {
    LiteralPathShape(path);
    LiteralPathPieces(path);
    RenderPlainSegments(Split(path, '/')[1..], capture);
  }

  /** A path made only of plain segments is its own pattern behind the marker: no escaping. */
  lemma LiteralPathVerbatim(path: string, capture: bool)
    requires LiteralPath(path)
    ensures Pattern(path, capture) == "()" + path
  {
    LiteralPathPieces(path);
    LiteralPathRender(path, capture);
  }

  lemma {:induction false} PiecesOfAppend(xs: seq<string>, ys: seq<string>)
    ensures PiecesOf(xs + ys) == PiecesOf(xs) + PiecesOf(ys)
    decreases |ys|
  {
    if ys == [] {
      assert xs + ys == xs;
    } else {
      var n := |ys| - 1;
      assert (xs + ys)[..|xs + ys| - 1] == xs + ys[..n];
      PiecesOfAppend(xs, ys[..n]);
    }
  }

  /** `a//b` splits into the segments of `a`, an empty segment, and those of `b`. */
  lemma SplitDoubledSlash(a: string, b: string)
    ensures Split(a + "//" + b, '/') == Split(a, '/') + ([""] + Split(b, '/'))
  {
    assert a + "//" + b == a + ['/'] + ([] + ['/'] + b);
    SplitAppend(a, [] + ['/'] + b, '/');
    SplitAppend([], b, '/');
  }

  /** `a/b` splits into the segments of `a` followed by those of `b`. */
  lemma SplitSingleSlash(a: string, b: string)
    ensures Split(a + "/" + b, '/') == Split(a, '/') + Split(b, '/')
  {
    assert a + "/" + b == a + ['/'] + b;
    SplitAppend(a, b, '/');
  }

  /** The empty segment between the two slashes contributes no piece. */
  lemma PiecesDoubledSlash(a: string, b: string)
    ensures Pieces(a + "//" + b) == Pieces(a + "/" + b)
  {
    var sa, sb := Split(a, '/'), Split(b, '/');
    SplitDoubledSlash(a, b);
    SplitSingleSlash(a, b);
    PiecesOfAppend(sa, [""] + sb);
    PiecesOfAppend([""], sb);
    PiecesOfAppend(sa, sb);
    assert PiecesOf([""]) == [] by { assert [""][..0] == []; }
    assert PiecesOf([""] + sb) == PiecesOf(sb);
    assert Pieces(a + "//" + b) == PiecesOf(sa) + PiecesOf(sb);
  }

  /** Doubling a slash adds an empty segment, which the compiler skips. */
  lemma DoubledSlashIgnored(a: string, b: string, capture: bool)
    requires a + "/" + b != "/"
    ensures Pattern(a + "//" + b, capture) == Pattern(a + "/" + b, capture)
  {
    PiecesDoubledSlash(a, b);
    assert |a + "//" + b| >= 2;
  }

  /** `path/` splits into the segments of `path` and a final empty one. */
  lemma PiecesTrailingSlash(path: string)
    ensures Pieces(path + "/") == Pieces(path)
  {
    assert path + "/" == path + ['/'] + [];
    SplitAppend(path, [], '/');
    PiecesOfAppend(Split(path, '/'), [""]);
    assert PiecesOf([""]) == [] by { assert [""][..0] == []; }
  }

  /** A trailing slash adds an empty segment, which the compiler skips. */
  lemma TrailingSlashIgnored(path: string, capture: bool)
    requires path != "" && path != "/"
    ensures Pattern(path + "/", capture) == Pattern(path, capture)
  {
    PiecesTrailingSlash(path);
    assert |path + "/"| >= 2;
  }

  // ---------------------------------------------------------------------------
  // Capturing groups
  // ---------------------------------------------------------------------------

  /**
    * Whether a capturing group opens at the start of `s`: a `(` not followed by
    * `?`, or a named group `(?<` that is not a look-behind `(?<=` / `(?<!`.
    */
  predicate OpensCapture(s: string) {
    |s| > 0 && s[0] == '(' &&
    (|s| == 1 || s[1] != '?' || (|s| > 2 && s[2] == '<' && (|s| == 3 || (s[3] != '=' && s[3] != '!'))))
  }

  /** The number of capturing groups in a pattern text (a `\` escapes the next character). */
  function Captures(s: string): nat
    decreases |s|
  {
    if s == [] then 0
    else if s[0] == '\\' then (if |s| == 1 then 0 else Captures(s[2..]))
    else (if OpensCapture(s) then 1 else 0) + Captures(s[1..])
  }

  /**
    * A text whose escapes and group openings are complete: no dangling `\`, and
    * every `(` is followed by enough characters to tell what kind of group it
    * opens, so text appended after it cannot change the count.
    */
  predicate Closed(s: string)
    decreases |s|
  {
    if s == [] then true
    else if s[0] == '\\' then |s| >= 2 && Closed(s[2..])
    else (s[0] == '(' ==> |s| >= 2 && (s[1] == '?' ==> |s| >= 4)) && Closed(s[1..])
  }

  lemma {:induction false} ClosedAppend(x: string, y: string)
    requires Closed(x) && Closed(y)
    ensures Closed(x + y)
    decreases |x|
  {
    if x == [] {
      assert x + y == y;
    } else if x[0] == '\\' {
      assert (x + y)[2..] == x[2..] + y;
      ClosedAppend(x[2..], y);
    } else {
      assert (x + y)[1..] == x[1..] + y;
      ClosedAppend(x[1..], y);
    }
  }

  /** Capturing groups add up across a closed prefix. */
  lemma {:induction false} CapturesAppend(x: string, y: string)
    requires Closed(x)
    ensures Captures(x + y) == Captures(x) + Captures(y)
    decreases |x|
  {
    if x == [] {
      assert x + y == y;
    } else if x[0] == '\\' {
      assert (x + y)[2..] == x[2..] + y;
      CapturesAppend(x[2..], y);
    } else {
      assert (x + y)[1..] == x[1..] + y;
      if x[0] == '(' {
        assert (x + y)[1] == x[1];
        if x[1] == '?' {
          assert (x + y)[2] == x[2] && (x + y)[3] == x[3];
        }
      }
      assert OpensCapture(x + y) == OpensCapture(x);
      CapturesAppend(x[1..], y);
    }
  }

  /** Two closed texts in a row: closed, and their captures add up. */
  lemma Glue(x: string, y: string)
    requires Closed(x) && Closed(y)
    ensures Closed(x + y) && Captures(x + y) == Captures(x) + Captures(y)
  {
    ClosedAppend(x, y);
    CapturesAppend(x, y);
  }

  /** Text with no `(` and no `\`: it neither opens a group nor escapes anything. */
  predicate Inert(s: string) {
    forall i :: 0 <= i < |s| ==> s[i] != '(' && s[i] != '\\'
  }

  lemma {:induction false} InertText(s: string)
    requires Inert(s)
    ensures Closed(s) && Captures(s) == 0
    decreases |s|
  {
    if s != [] {
      assert Inert(s[1..]) by {
        forall k | 0 <= k < |s| - 1 ensures s[1..][k] != '(' && s[1..][k] != '\\' {
          assert s[1..][k] == s[k + 1];
        }
      }
      InertText(s[1..]);
    }
  }

  /** Template text that can be copied into a pattern: inert, and no `=` or `!` either. */
  predicate Tame(s: string) {
    forall i :: 0 <= i < |s| ==> s[i] != '(' && s[i] != '\\' && s[i] != '=' && s[i] != '!'
  }

  lemma TameSlice(s: string, i: nat, j: nat)
    requires Tame(s) && i <= j <= |s|
    ensures Tame(s[i..j])
  {
    forall k | 0 <= k < j - i
      ensures s[i..j][k] != '(' && s[i..j][k] != '\\' && s[i..j][k] != '=' && s[i..j][k] != '!'
    {
      assert s[i..j][k] == s[i + k];
    }
  }

  lemma EscapedSlash()
    ensures Closed("\\/") && Captures("\\/") == 0
  {
  }

  lemma MarkerFacts()
    ensures Closed("()") && Captures("()") == 1
  {
  }

  lemma RunFacts()
    ensures Closed(Run) && Captures(Run) == 0
  {
    assert Closed("[^/\\s") && Captures("[^/\\s") == 0;
    InertText("?#]+");
    Glue("[^/\\s", "?#]+");
  }

  /** The short group-free texts the compiler writes between groups. */
  lemma InertFacts(s: string)
    requires s in [")", ")?", "/", "/)*", "|"]
    ensures Closed(s) && Captures(s) == 0
  {
    InertText(s);
  }

  /**
    * A group opener `(?` plus one character other than `<` (such as `(?:` or
    * the look-ahead `(?!`) followed by closed text: closed, and it opens no
    * capturing group.
    */
  lemma PlainGroup(a: string, opener: string, b: string)
    requires |opener| == 3 && opener[0] == '(' && opener[1] == '?'
    requires opener[2] != '<' && opener[2] != '(' && opener[2] != '\\'
    requires Closed(a) && Closed(b) && b != []
    ensures Closed(a + opener + b) && Captures(a + opener + b) == Captures(a) + Captures(b)
  {
    var s := opener + b;
    var s1 := s[1..];
    var s2 := s1[1..];
    assert s2[1..] == b && s2[0] == opener[2] && s1[0] == '?';
    assert Closed(s2) && Captures(s2) == Captures(b);
    assert Closed(s1) && Captures(s1) == Captures(b);
    assert Closed(s) && Captures(s) == Captures(b);
    Glue(a, s);
    assert a + opener + b == a + s;
  }

  /** A plain `(` followed by closed text that does not start with `?`: one capturing group. */
  lemma CapturingGroup(a: string, b: string)
    requires Closed(a) && Closed(b) && b != [] && b[0] != '?'
    ensures Closed(a + "(" + b) && Captures(a + "(" + b) == Captures(a) + 1 + Captures(b)
  {
    var s := "(" + b;
    assert s[1..] == b;
    Glue(a, s);
    assert a + "(" + b == a + s;
  }

  /** `(?<name>` opens exactly one capturing group and is closed. */
  lemma NamedGroup(name: string)
    requires Tame(name)
    ensures Closed("(?<" + name + ">") && Captures("(?<" + name + ">") == 1
  {
    var s := "(?<" + name + ">";
    var tail := "?<" + name + ">";
    assert Inert(tail) by {
      forall i | 0 <= i < |tail| ensures tail[i] != '(' && tail[i] != '\\' {
        if 2 <= i < 2 + |name| { assert tail[i] == name[i - 2]; }
      }
    }
    InertText(tail);
    assert s[1..] == tail;
    assert OpensCapture(s) by {
      if name == [] { assert s[3] == '>'; } else { assert s[3] == name[0]; }
    }
  }

  lemma NameOpenFacts(name: string, capture: bool)
    requires Tame(name)
    ensures Closed(NameOpen(name, capture))
    ensures Captures(NameOpen(name, capture)) == if capture then 1 else 0
  {
    if capture { NamedGroup(name); }
  }

  lemma NameCloseFacts(capture: bool)
    ensures Closed(NameClose(capture)) && Captures(NameClose(capture)) == 0
  {
    InertFacts(")");
  }

  /** The capture groups of a piece's core text: its name's group when capturing. */
  lemma CoreCaptures(p: Piece, capture: bool)
    requires Tame(p.name)
    ensures Closed(RenderCore(p, capture))
    ensures Captures(RenderCore(p, capture)) == if capture && p.kind != Literal then 1 else 0
  {
    var open, close := NameOpen(p.name, capture), NameClose(capture);
    NameOpenFacts(p.name, capture);
    NameCloseFacts(capture);
    EscapedSlash();
    RunFacts();
    match p.kind {
      case Literal =>
        InertFacts("/");
        InertText(p.name);
        Glue("/", p.name);
      case Param =>
        Glue("\\/", open);
        Glue("\\/" + open, Run);
        Glue("\\/" + open + Run, close);
      case Wildcard =>
        InertFacts("/)*");
        InertFacts(")");
        var a1 := "\\/" + open;
        Glue("\\/", open);
        PlainGroup(a1, "(?:", Run);
        var a2 := a1 + "(?:" + Run;
        Glue(a2, "/)*");
        var a3 := a2 + "/)*";
        PlainGroup(a3, "(?:", Run);
        var a4 := a3 + "(?:" + Run;
        Glue(a4, ")");
        Glue(a4 + ")", close);
    }
  }

  /** The capture groups one piece contributes: its name when capturing, nothing otherwise. */
  lemma PieceCaptures(p: Piece, capture: bool)
    requires Tame(p.name)
    ensures Closed(Render(p, capture))
    ensures Captures(Render(p, capture)) == if capture && p.kind != Literal then 1 else 0
  {
    var core := RenderCore(p, capture);
    CoreCaptures(p, capture);
    if p.optional {
      assert core != [] by { assert core[0] == '\\' || core[0] == '/'; }
      PlainGroup([], "(?:", core);
      assert [] + "(?:" + core == "(?:" + core;
      InertFacts(")?");
      Glue("(?:" + core, ")?");
    }
  }

  /** The number of pieces that bind a name (parameters and wildcards). */
  function NamedCount(ps: seq<Piece>): (n: nat)
    ensures n <= |ps|
  {
    if ps == [] then 0
    else NamedCount(ps[..|ps| - 1]) + (if ps[|ps| - 1].kind != Literal then 1 else 0)
  }

  lemma {:induction false} RenderPiecesCaptures(ps: seq<Piece>, capture: bool)
    requires forall i :: 0 <= i < |ps| ==> Tame(ps[i].name)
    ensures Closed(RenderPieces(ps, capture))
    ensures Captures(RenderPieces(ps, capture)) == if capture then NamedCount(ps) else 0
    decreases |ps|
  {
    if ps != [] {
      var init, last := ps[..|ps| - 1], ps[|ps| - 1];
      assert forall i :: 0 <= i < |init| ==> init[i] == ps[i];
      RenderPiecesCaptures(init, capture);
      PieceCaptures(last, capture);
      var x, y := RenderPieces(init, capture), Render(last, capture);
      assert RenderPieces(ps, capture) == x + y;
      Glue(x, y);
    }
  }

  lemma ClassifyTame(seg: string)
    requires Tame(seg) && seg != ""
    ensures Tame(Classify(seg).value.name)
  {
    var s := if seg[|seg| - 1] == '?' then seg[..|seg| - 1] else seg;
    TameSlice(seg, 0, |s|);
    assert seg[0..|s|] == s;
    if IsParam(s) {
      TameSlice(s, 1, |s|);
      assert s[1..|s|] == s[1..];
    } else if IsWildcard(s) {
      TameSlice(s, 3, |s|);
      assert s[3..|s|] == s[3..];
    }
  }

  /** Every piece of a tame template carries a tame name. */
  lemma {:induction false} PiecesTame(segs: seq<string>)
    requires forall i :: 0 <= i < |segs| ==> Tame(segs[i])
    ensures forall i :: 0 <= i < |PiecesOf(segs)| ==> Tame(PiecesOf(segs)[i].name)
    decreases |segs|
  {
    if segs != [] {
      var n := |segs| - 1;
      PiecesTame(segs[..n]);
      if segs[n] != "" {
        ClassifyTame(segs[n]);
      }
    }
  }

  lemma {:induction false} SplitTame(s: string, c: char)
    requires Tame(s)
    ensures forall i :: 0 <= i < |Split(s, c)| ==> Tame(Split(s, c)[i])
    decreases |s|
  {
    if s != [] {
      TameSlice(s, 1, |s|);
      assert s[1..|s|] == s[1..];
      SplitTame(s[1..], c);
      var t := Split(s[1..], c);
      if s[0] != c {
        var head := [s[0]] + t[0];
        assert Tame(head) by {
          forall k | 0 <= k < |head| ensures head[k] != '(' && head[k] != '\\' && head[k] != '=' && head[k] != '!' {
            if k > 0 { assert head[k] == t[0][k - 1]; }
          }
        }
        assert Split(s, c) == [head] + t[1..];
      }
    }
  }

  /**
    * Every pattern starts with the empty marker group `()`. Without name
    * capture it is the ONLY capturing group (optional and wildcard parts use
    * `(?:`); with name capture there is one more per parameter and wildcard.
    */
  lemma PatternCaptures(path: string, capture: bool)
    requires Tame(path)
    ensures OpensCapture(Pattern(path, capture))
    ensures Closed(Pattern(path, capture))
    ensures Captures(Pattern(path, capture)) == 1 + (if capture && path != "/" then NamedCount(Pieces(path)) else 0)
  {
    MarkerFacts();
    if path == "/" {
      EscapedSlash();
      Glue("()", "\\/");
    } else {
      SplitTame(path, '/');
      PiecesTame(Split(path, '/'));
      RenderPiecesCaptures(Pieces(path), capture);
      Glue("()", RenderPieces(Pieces(path), capture));
    }
  }

  /** The root path is the marker group and an escaped slash whatever the flag: one capturing group. */
  lemma RootPattern(capture: bool)
    ensures Pattern("/", capture) == "()" + "\\/"
    ensures Pattern("/", true) == Pattern("/", false)
    ensures Captures(Pattern("/", capture)) == 1
  {
    MarkerFacts();
    EscapedSlash();
    Glue("()", "\\/");
  }

  // ---------------------------------------------------------------------------
  // The per-method alternation and its group numbering
  // ---------------------------------------------------------------------------

  /** `^(https?:\/\/)[^\s\/]+`: the scheme (group 1) and the host, written in parts. */
  const RegexpScheme: string := "^" + "(" + "https?:" + "\\/\\/)" + "[^\\s\\/]+"
  /** `)(?![^?#])`: the end of the path alternation, then nothing but a query or fragment. */
  const RegexpTail: string := ")" + "(?!" + "[^?#])"

  /**
    * The per-method expression `compile` builds from the (reversed) bucket's
    * patterns: group 2, opened just after the host, spans the alternation.
    */
  function MethodRegexp(alternatives: seq<string>): string {
    RegexpScheme + "(" + Join(alternatives, "|") + RegexpTail
  }

  lemma SlashesFacts()
    ensures Closed("\\/\\/)") && Captures("\\/\\/)") == 0
  {
  }

  lemma HostFacts()
    ensures Closed("[^\\s\\/]+") && Captures("[^\\s\\/]+") == 0
  {
  }

  /** `^(https?:`…`\/\/)`: the scheme group, closed after the two slashes. */
  lemma SchemeGroupFacts(a: string, b: string, c: string)
    requires a == "^" && b == "https?:" && c == "\\/\\/)"
    ensures Closed(a + "(" + b + c) && Captures(a + "(" + b + c) == 1
  {
    InertText(a);
    InertText(b);
    SlashesFacts();
    Glue(b, c);
    CapturingGroup(a, b + c);
    assert a + "(" + (b + c) == a + "(" + b + c;
  }

  lemma SchemeFacts()
    ensures Closed(RegexpScheme) && Captures(RegexpScheme) == 1
  {
    SchemeGroupFacts("^", "https?:", "\\/\\/)");
    HostFacts();
    Glue("^" + "(" + "https?:" + "\\/\\/)", "[^\\s\\/]+");
  }

  lemma TailFacts()
    ensures Closed(RegexpTail) && Captures(RegexpTail) == 0
  {
    InertText(")");
    InertText("[^?#])");
    PlainGroup(")", "(?!", "[^?#])");
  }

  lemma {:induction false} JoinCaptures(alts: seq<string>)
    requires forall j :: 0 <= j < |alts| ==> Closed(alts[j]) && Captures(alts[j]) == 1
    ensures Closed(Join(alts, "|")) && Captures(Join(alts, "|")) == |alts|
    decreases |alts|
  {
    if |alts| > 1 {
      JoinCaptures(alts[1..]);
      InertFacts("|");
      Glue("|", Join(alts[1..], "|"));
      Glue(alts[0], "|" + Join(alts[1..], "|"));
      assert Join(alts, "|") == alts[0] + ("|" + Join(alts[1..], "|"));
    }
  }

  lemma JoinHead(xs: seq<string>, sep: string)
    requires xs != [] && xs[0] != []
    ensures Join(xs, sep) != [] && Join(xs, sep)[0] == xs[0][0]
  {
  }

  lemma {:induction false} JoinSplitAt(xs: seq<string>, k: nat)
    requires k < |xs|
    ensures Join(xs, "|") == Join(xs[..k] + [""], "|") + Join(xs[k..], "|")
    decreases k
  {
    if k == 0 {
      assert xs[..0] + [""] == [""];
      assert xs[0..] == xs;
    } else {
      JoinSplitAt(xs[1..], k - 1);
      assert xs[1..][..k - 1] + [""] == (xs[..k] + [""])[1..];
      assert xs[1..][k - 1..] == xs[k..];
      assert |xs[..k] + [""]| >= 2;
    }
  }

  /** An alternation whose alternatives each hold exactly the marker group. */
  predicate MarkerAlternatives(alts: seq<string>) {
    forall j :: 0 <= j < |alts| ==> Closed(alts[j]) && Captures(alts[j]) == 1 && HasMarker(alts[j])
  }

  /** The text of the expression in front of alternative `k`. */
  function Before(alts: seq<string>, k: nat): string
    requires k <= |alts|
  {
    RegexpScheme + "(" + Join(alts[..k] + [""], "|")
  }

  lemma BeforeCaptures(alts: seq<string>, k: nat)
    requires k < |alts| && MarkerAlternatives(alts)
    ensures Captures(Before(alts, k)) == 2 + k
  {
    SchemeFacts();
    var j := Join(alts[..k] + [""], "|");
    if k == 0 {
      assert alts[..0] + [""] == [""];
      assert j == "";
      assert Captures("(") == 1;
      CapturesAppend(RegexpScheme, "(");
      assert Before(alts, k) == RegexpScheme + "(";
    } else {
      var pre := alts[..k];
      assert forall i :: 0 <= i < |pre| ==> Closed(pre[i]) && Captures(pre[i]) == 1;
      JoinCaptures(pre);
      JoinSnoc(pre, "", "|");
      InertFacts("|");
      Glue(Join(pre, "|"), "|");
      assert pre[0] == alts[0] && HasMarker(alts[0]);
      JoinHead(pre, "|");
      assert j == Join(pre, "|") + "|";
      assert j[0] == '(';
      CapturingGroup(RegexpScheme, j);
    }
  }

  /**
    * Group numbering of the per-method expression. When every alternative
    * holds exactly one capturing group, its leading marker, the text in front
    * of alternative `k` opens `2 + k` groups, so alternative `k`'s marker is
    * group `3 + k`, and the whole expression has `2 + |alts|` groups. This is
    * what lets `fetch` turn the position of the empty capture into the
    * endpoint index.
    */
  lemma AlternativeMarkerGroup(alts: seq<string>, k: nat)
    requires k < |alts| && MarkerAlternatives(alts)
    ensures MethodRegexp(alts) == Before(alts, k) + Join(alts[k..], "|") + RegexpTail
    ensures Captures(Before(alts, k)) == 2 + k
    ensures OpensCapture(alts[k])
    ensures Captures(MethodRegexp(alts)) == 2 + |alts|
  {
    JoinSplitAt(alts, k);
    BeforeCaptures(alts, k);
    SchemeFacts();
    TailFacts();
    JoinCaptures(alts);
    var alternation := Join(alts, "|");
    JoinHead(alts, "|");
    CapturingGroup(RegexpScheme, alternation);
    Glue(RegexpScheme + "(" + alternation, RegexpTail);
  }

  /** Non-capturing patterns of tame templates are marker alternatives. */
  lemma PatternsAreMarkerAlternatives(paths: seq<string>)
    requires forall j :: 0 <= j < |paths| ==> Tame(paths[j])
    ensures MarkerAlternatives(seq(|paths|, j requires 0 <= j < |paths| => Pattern(paths[j], false)))
  {
    var alts := seq(|paths|, j requires 0 <= j < |paths| => Pattern(paths[j], false));
    forall j | 0 <= j < |alts| ensures Closed(alts[j]) && Captures(alts[j]) == 1 && HasMarker(alts[j]) {
      PatternCaptures(paths[j], false);
    }
  }

  // ---------------------------------------------------------------------------
  // Group names the RegExp constructor accepts
  // ---------------------------------------------------------------------------

  /** A character of an ASCII identifier: a letter, a digit, `_` or `$`. */
  predicate NameChar(c: char) {
    'a' <= c <= 'z' || 'A' <= c <= 'Z' || '0' <= c <= '9' || c == '_' || c == '$'
  }

  /** An ASCII identifier, as the name of a named group must be: non-empty, not starting with a digit. */
  predicate IsGroupName(name: string) {
    name != [] && !('0' <= name[0] <= '9') && forall i :: 0 <= i < |name| ==> NameChar(name[i])
  }

  /** The names of the groups the pieces open, in order. */
  function GroupNames(ps: seq<Piece>): (r: seq<string>)
    ensures |r| <= |ps|
    ensures forall p :: p in ps && p.kind != Literal ==> p.name in r
  {
    if ps == [] then []
    else
      var last := ps[|ps| - 1];
      GroupNames(ps[..|ps| - 1]) + (if last.kind != Literal then [last.name] else [])
  }

  /**
    * Whether `new RegExp` accepts the capturing pattern of a template (ASCII
    * names): every group name is an identifier and no name occurs twice.
    */
  predicate ValidGroupNames(path: string) {
    var ns := GroupNames(Pieces(path));
    (forall i :: 0 <= i < |ns| ==> IsGroupName(ns[i])) &&
    (forall i, j :: 0 <= i < j < |ns| ==> ns[i] != ns[j])
  }

  /** A parameter segment `:name` whose name has no `/` and no trailing `?`. */
  predicate PlainName(name: string) {
    '/' !in name && (name == [] || name[|name| - 1] != '?')
  }

  lemma ParamSegment(name: string)
    requires PlainName(name)
    ensures Classify(":" + name) == Some(Piece(Param, name, false))
  {
    var s := ":" + name;
    assert s[|s| - 1] != '?' by {
      if name != [] { assert s[|s| - 1] == name[|name| - 1]; }
    }
    assert IsParam(s) && s[1..] == name;
  }

  /** `/:name` is the single parameter `name`. */
  lemma OneParamPieces(name: string)
    requires PlainName(name)
    ensures Pieces("/:" + name) == [Piece(Param, name, false)]
  {
    var seg := ":" + name;
    assert '/' !in seg;
    assert "/:" + name == [] + ['/'] + seg;
    SplitAppend([], seg, '/');
    NoSeparatorSplit(seg, '/');
    assert Split("/:" + name, '/') == [""] + [seg];
    PiecesOfAppend([""], [seg]);
    assert [""][..0] == [] && PiecesOf([""]) == [];
    ParamSegment(name);
    assert [seg][..0] == [];
    assert PiecesOf([seg]) == [Piece(Param, name, false)];
  }

  /** A template with one parameter compiles exactly when the name is an identifier. */
  lemma OneParamNames(name: string)
    requires PlainName(name)
    ensures ValidGroupNames("/:" + name) <==> IsGroupName(name)
  {
    OneParamPieces(name);
    assert GroupNames([Piece(Param, name, false)]) == [name];
  }

  /** `/:name/:name` is the parameter `name` twice. */
  lemma TwoParamPieces(name: string)
    requires PlainName(name)
    ensures Pieces("/:" + name + "/:" + name) == [Piece(Param, name, false), Piece(Param, name, false)]
  {
    var seg := ":" + name;
    assert '/' !in seg;
    assert "/:" + name + "/:" + name == ("/:" + name) + ['/'] + seg;
    SplitAppend("/:" + name, seg, '/');
    NoSeparatorSplit(seg, '/');
    PiecesOfAppend(Split("/:" + name, '/'), [seg]);
    OneParamPieces(name);
    ParamSegment(name);
    assert [seg][..0] == [];
    assert PiecesOf([seg]) == [Piece(Param, name, false)];
  }

  /** The same parameter name twice gives two groups of that name, which the constructor rejects. */
  lemma RepeatedParamRejected(name: string)
    requires PlainName(name)
    ensures !ValidGroupNames("/:" + name + "/:" + name)
  {
    TwoParamPieces(name);
    var ps := [Piece(Param, name, false), Piece(Param, name, false)];
    assert ps[..1] == [Piece(Param, name, false)];
    var ns := GroupNames(ps);
    assert ns == [name, name];
    assert ns[0] == ns[1];
  }

  /** `user-id` and the empty name are not identifiers; `id` is. */
  lemma GroupNameExamples()
    ensures !IsGroupName("user-id") && !IsGroupName("") && IsGroupName("id")
  {
    assert !NameChar("user-id"[4]);
  }
}
