/**
  * What the produced patterns accept, stated piece by piece instead of
  * through a regular-expression engine, and how `fetch` reads the result of
  * the per-method alternation: the alternatives are tried in order, the
  * first whose whole text matches the path wins, and its empty marker group
  * is the only one of the markers that participates.
  */
module Matcher {
  import opened Base
  import opened Text
  import opened PathPattern

  /** A character of `[^/\s?#]`: `\s` is the same white-space class `trim` removes. */
  predicate RunChar(c: char) {
    c != '/' && !IsSpace(c) && c != '?' && c != '#'
  }

  /** `[^/\s?#]+`: a non-empty run of run characters. */
  predicate RunText(s: string) {
    s != [] && forall i :: 0 <= i < |s| ==> RunChar(s[i])
  }

  /** `(?:[^/\s?#]+/)*(?:[^/\s?#]+)`: one or more runs joined by single slashes. */
  predicate WildText(s: string) {
    forall i :: 0 <= i < |Split(s, '/')| ==> RunText(Split(s, '/')[i])
  }

  /** The texts the core of a piece (without its optional wrapper) matches. */
  predicate CoreAccepts(p: Piece, x: string) {
    match p.kind
    case Literal => x == "/" + p.name
    case Param => |x| >= 1 && x[0] == '/' && RunText(x[1..])
    case Wildcard => |x| >= 1 && x[0] == '/' && WildText(x[1..])
  }

  /** `(?:…)?` also matches nothing. */
  predicate PieceAccepts(p: Piece, x: string) {
    CoreAccepts(p, x) || (p.optional && x == "")
  }

  /** The pieces in order match consecutive parts of `x` that make up all of it. */
  predicate Accepts(ps: seq<Piece>, x: string)
    decreases |ps|
  {
    if ps == [] then x == ""
    else
      exists i :: 0 <= i <= |x| && Accepts(ps[..|ps| - 1], x[..i]) && PieceAccepts(ps[|ps| - 1], x[i..])
  }

  /** The paths (up to `?` or `#`) the pattern of template `template` matches. */
  predicate Language(template: string, x: string) {
    if template == "/" then x == "/" else Accepts(Pieces(template), x)
  }

  // ---------------------------------------------------------------------------
  // Filling a template
  // ---------------------------------------------------------------------------

  /** The path obtained by putting `values[k]` in place of the k-th parameter or wildcard. */
  function Fill(ps: seq<Piece>, values: seq<string>): (x: string)
    requires |values| == |ps|
    decreases |ps|
  {
    if ps == [] then ""
    else
      var n := |ps| - 1;
      Fill(ps[..n], values[..n]) + (if ps[n].kind == Literal then "/" + ps[n].name else "/" + values[n])
  }

  /** Values a piece accepts in its place: a run for a parameter, slash-joined runs for a wildcard. */
  predicate Fits(p: Piece, v: string) {
    match p.kind
    case Literal => true
    case Param => RunText(v)
    case Wildcard => WildText(v)
  }

  /** Every template, filled with values that fit its parameters and wildcards, matches the result. */
  lemma {:induction false} FillAccepted(ps: seq<Piece>, values: seq<string>)
    requires |values| == |ps|
    requires forall k :: 0 <= k < |ps| ==> Fits(ps[k], values[k])
    ensures Accepts(ps, Fill(ps, values))
    decreases |ps|
  {
    if ps != [] {
      var n := |ps| - 1;
      var init := Fill(ps[..n], values[..n]);
      var chunk := if ps[n].kind == Literal then "/" + ps[n].name else "/" + values[n];
      var x := init + chunk;
      FillAccepted(ps[..n], values[..n]);
      assert x[..|init|] == init && x[|init|..] == chunk;
      assert chunk[1..] == (if ps[n].kind == Literal then ps[n].name else values[n]);
      assert PieceAccepts(ps[n], x[|init|..]);
    }
  }

  /** A run is in particular a one-run wildcard value. */
  lemma RunIsWild(v: string)
    requires RunText(v)
    ensures WildText(v)
  {
    assert Split(v, '/') == [v] by {
      NoSeparatorSplit(v, '/');
    }
  }

  // ---------------------------------------------------------------------------
  // Optional pieces
  // ---------------------------------------------------------------------------

  /** An optional piece may be left out: whatever the pieces before it match is still matched. */
  lemma OptionalMayBeAbsent(ps: seq<Piece>, p: Piece, x: string)
    requires p.optional && Accepts(ps, x)
    ensures Accepts(ps + [p], x)
  {
    var qs := ps + [p];
    assert qs[..|qs| - 1] == ps && qs[|qs| - 1] == p;
    assert x[..|x|] == x && x[|x|..] == "";
  }

  /** A non-optional parameter or wildcard never matches the empty text. */
  lemma RequiredPieceNonEmpty(p: Piece, x: string)
    requires !p.optional && PieceAccepts(p, x)
    ensures x != "" && x[0] == '/'
  {
  }

  // ---------------------------------------------------------------------------
  // Literal templates
  // ---------------------------------------------------------------------------

  /** Pieces that are literal and required match exactly their own text. */
  predicate AllLiteral(ps: seq<Piece>) {
    forall k :: 0 <= k < |ps| ==> ps[k].kind == Literal && !ps[k].optional
  }

  lemma {:induction false} LiteralPiecesAccept(ps: seq<Piece>, x: string)
    requires AllLiteral(ps)
    ensures Accepts(ps, x) <==> x == RenderPieces(ps, false)
    decreases |ps|
  {
    if ps != [] {
      var n := |ps| - 1;
      var init := RenderPieces(ps[..n], false);
      var chunk := "/" + ps[n].name;
      assert Render(ps[n], false) == chunk;
      assert AllLiteral(ps[..n]);
      if Accepts(ps, x) {
        var i :| 0 <= i <= |x| && Accepts(ps[..n], x[..i]) && PieceAccepts(ps[n], x[i..]);
        LiteralPiecesAccept(ps[..n], x[..i]);
        assert x == x[..i] + x[i..];
      }
      if x == init + chunk {
        LiteralPiecesAccept(ps[..n], init);
        assert x[..|init|] == init && x[|init|..] == chunk;
      }
    }
  }

  /** The pieces of plain segments are those segments as required literals. */
  lemma {:induction false} PlainPieces(segs: seq<string>)
    requires forall i :: 0 <= i < |segs| ==> PlainSegment(segs[i])
    ensures |PiecesOf(segs)| == |segs|
    ensures forall k :: 0 <= k < |segs| ==> PiecesOf(segs)[k] == Piece(Literal, segs[k], false)
    decreases |segs|
  {
    if segs != [] {
      var n := |segs| - 1;
      PlainPieces(segs[..n]);
      assert Classify(segs[n]) == Some(Piece(Literal, segs[n], false));
    }
  }

  /** The pieces of a literal template: required literals that render back to the template. */
  lemma LiteralTemplatePieces(template: string)
    requires LiteralPath(template)
    ensures template != "/"
    ensures AllLiteral(Pieces(template))
    ensures RenderPieces(Pieces(template), false) == template
  {
    LiteralPathShape(template);
    LiteralPathPieces(template);
    LiteralPathRender(template, false);
    var rest := Split(template, '/')[1..];
    var ps := Pieces(template);
    PlainPieces(rest);
    forall k | 0 <= k < |ps| ensures ps[k].kind == Literal && !ps[k].optional {
      assert ps[k] == Piece(Literal, rest[k], false);
    }
  }

  /** A template without parameters, wildcards or optional parts matches exactly itself. */
  lemma LiteralLanguage(template: string, x: string)
    requires LiteralPath(template)
    ensures Language(template, x) <==> x == template
  {
    LiteralTemplatePieces(template);
    LiteralPiecesAccept(Pieces(template), x);
  }

  // ---------------------------------------------------------------------------
  // Choosing among the alternatives of one method
  // ---------------------------------------------------------------------------

  /** The index of the first template whose pattern matches `x`, as an ordered alternation picks it. */
  function FirstMatch(templates: seq<string>, x: string): (r: Option<nat>)
    ensures r.Some? ==> r.value < |templates| && Language(templates[r.value], x)
    ensures r.Some? ==> forall j :: 0 <= j < r.value ==> !Language(templates[j], x)
    ensures r.None? ==> forall j :: 0 <= j < |templates| ==> !Language(templates[j], x)
    decreases |templates|
  {
    if templates == [] then None
    else if Language(templates[0], x) then Some(0)
    else
      match FirstMatch(templates[1..], x)
      case None => None
      case Some(k) => Some(k + 1)
  }

  /** The bucket in reverse: alternative `k` is the endpoint declared `k`-th from the end. */
  function Reverse<T>(s: seq<T>): (r: seq<T>)
    ensures |r| == |s|
    ensures forall k :: 0 <= k < |s| ==> r[k] == s[|s| - 1 - k]
  {
    if s == [] then [] else Reverse(s[1..]) + [s[0]]
  }

  /**
    * Because `compile` reverses each bucket before building the alternation,
    * among the routes of one method whose templates match a path, the one
    * declared LAST is chosen.
    */
  lemma LastDeclaredWins(declared: seq<string>, x: string, k: nat)
    requires FirstMatch(Reverse(declared), x) == Some(k)
    ensures Language(declared[|declared| - 1 - k], x)
    ensures forall j :: |declared| - 1 - k < j < |declared| ==> !Language(declared[j], x)
  {
    var alts := Reverse(declared);
    forall j | |declared| - 1 - k < j < |declared| ensures !Language(declared[j], x) {
      assert declared[j] == alts[|declared| - 1 - j];
    }
  }

  // ---------------------------------------------------------------------------
  // The match array and the endpoint index
  // ---------------------------------------------------------------------------

  /**
    * The captures of a successful match when alternative `k` of `n` matched
    * the path: the whole match, the scheme (group 1), the path (group 2), then
    * one marker per alternative, where only the chosen one participates and
    * holds the empty string.
    */
  function MatchGroups(whole: string, scheme: string, path: string, k: nat, n: nat): (m: seq<Option<string>>)
    requires k < n
    ensures |m| == 3 + n
    ensures m[2] == Some(path)
    ensures forall j :: 3 <= j < |m| ==> (m[j] == Some("") <==> j == 3 + k)
  {
    [Some(whole), Some(scheme), Some(path)] + seq(n, j => if j == k then Some("") else None)
  }

  /** The index `fetch` derives: the first group from 3 on holding `""`, minus 3; 0 if none. */
  function MarkerIndex(m: seq<Option<string>>): (index: nat)
    ensures (exists i :: 3 <= i < |m| && m[i] == Some("")) ==> 3 + index < |m| && m[3 + index] == Some("")
    ensures forall i :: 3 <= i < |m| && i < 3 + index ==> m[i] != Some("")
    ensures (forall i :: 3 <= i < |m| ==> m[i] != Some("")) ==> index == 0
  {
    FirstEmptyFrom(m, 3)
  }

  function FirstEmptyFrom(m: seq<Option<string>>, i: nat): (index: nat)
    requires i >= 3
    ensures (exists j :: i <= j < |m| && m[j] == Some("")) ==> i <= 3 + index < |m| && m[3 + index] == Some("")
    ensures forall j :: i <= j < |m| && j < 3 + index ==> m[j] != Some("")
    ensures (forall j :: i <= j < |m| ==> m[j] != Some("")) ==> index == 0
    decreases |m| - i
  {
    if i >= |m| then 0
    else if m[i] == Some("") then i - 3
    else FirstEmptyFrom(m, i + 1)
  }

  /** The loop at the head of `fetch`. */
  method FindMarker(m: seq<Option<string>>) returns (index: nat)
    ensures index == MarkerIndex(m)
  {
    index := 0;
    var i := 3;
    while i < |m|
      invariant 3 <= i
      invariant FirstEmptyFrom(m, i) == MarkerIndex(m)
      decreases |m| - i
    {
      if m[i] == Some("") {
        index := i - 3;
        return;
      }
      i := i + 1;
    }
  }

  /** The marker groups tell `fetch` which alternative matched. */
  lemma MarkerIndexRecovers(whole: string, scheme: string, path: string, k: nat, n: nat)
    requires k < n
    ensures MarkerIndex(MatchGroups(whole, scheme, path, k, n)) == k
  {
    var m := MatchGroups(whole, scheme, path, k, n);
    assert m[3 + k] == Some("");
  }

  // ---------------------------------------------------------------------------
  // The path of a URL
  // ---------------------------------------------------------------------------

  predicate SchemeStart(c: char) {
    'a' <= c <= 'z' || 'A' <= c <= 'Z'
  }

  predicate SchemeChar(c: char) {
    SchemeStart(c) || '0' <= c <= '9' || c == '+' || c == '-' || c == '.'
  }

  /** The length of the longest prefix of `s` made of scheme characters. */
  function SchemeRun(s: string): (n: nat)
    ensures n <= |s|
    ensures forall i :: 0 <= i < n ==> SchemeChar(s[i])
    ensures n < |s| ==> !SchemeChar(s[n])
  {
    if s == [] || !SchemeChar(s[0]) then 0 else 1 + SchemeRun(s[1..])
  }

  /** The length of `[a-zA-Z][a-zA-Z\d+\-.]*:\/\/` at the start of the URL, or 0 when absent. */
  function SchemeLength(url: string): (n: nat)
    ensures n <= |url|
    ensures n > 0 ==> n >= 4 && url[n - 3] == ':' && url[n - 2] == '/' && url[n - 1] == '/'
  {
    if url == [] || !SchemeStart(url[0]) then 0
    else
      var run := 1 + SchemeRun(url[1..]);
      if run + 3 <= |url| && url[run] == ':' && url[run + 1] == '/' && url[run + 2] == '/' then run + 3 else 0
  }

  /** The first index at or after `i` holding `/`, `?` or `#`, or `|s|`: the end of `[^/?#]*`. */
  function AuthorityEnd(s: string, i: nat): (j: nat)
    requires i <= |s|
    ensures i <= j <= |s|
    ensures forall k :: i <= k < j ==> s[k] != '/' && s[k] != '?' && s[k] != '#'
    ensures j < |s| ==> s[j] == '/' || s[j] == '?' || s[j] == '#'
    decreases |s| - i
  {
    if i == |s| || s[i] == '/' || s[i] == '?' || s[i] == '#' then i else AuthorityEnd(s, i + 1)
  }

  /** The first index at or after `i` holding `?` or `#`, or `|s|`: the end of `[^?#]*`. */
  function PathEnd(s: string, i: nat): (j: nat)
    requires i <= |s|
    ensures i <= j <= |s|
    ensures forall k :: i <= k < j ==> s[k] != '?' && s[k] != '#'
    ensures j < |s| ==> s[j] == '?' || s[j] == '#'
    decreases |s| - i
  {
    if i == |s| || s[i] == '?' || s[i] == '#' then i else PathEnd(s, i + 1)
  }

  /** `path` occurs in `url` at index `k` and is followed by the end, a `?` or a `#`. */
  predicate PathAt(url: string, path: string, k: nat)
  {
    k + |path| <= |url| && url[k..k + |path|] == path
    && (k + |path| == |url| || url[k + |path|] == '?' || url[k + |path|] == '#')
  }

  /**
    * Group 1 of `getUrlPathnameRegexp`: after the optional scheme and the
    * authority (`[^/?#]*`), the text from the next `/` up to `?`, `#` or the
    * end; absent when no `/` comes before them.
    */
  function UrlPathname(url: string): (r: Option<string>)
    ensures r.Some? ==> r.value != [] && r.value[0] == '/'
    ensures r.Some? ==> forall i :: 0 <= i < |r.value| ==> r.value[i] != '?' && r.value[i] != '#'
    ensures r.Some? ==> exists k :: PathAt(url, r.value, k)
  {
    var start := AuthorityEnd(url, SchemeLength(url));
    if start == |url| || url[start] != '/' then None
    else
      var end := PathEnd(url, start);
      var path := url[start..end];
      assert PathAt(url, path, start);
      Some(path)
  }
}
