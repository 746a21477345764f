/**
  * Reading the `Cookie` request header into a name-to-value dictionary
  * (`getCookies`, identical in both generations).
  */
module Cookies {
  import opened Base
  import opened Text

  /** The `;`-separated pieces of the `Cookie` header; none without the header. */
  function CookiePieces(headers: Headers): seq<string> {
    match Lookup(headers, "cookie")
    case None => []
    case Some(h) => Split(h, ';')
  }

  /**
    * The cookie one piece declares: the trimmed piece split on `=`, with the
    * name before the first `=` and the value between the first and the
    * second; none when the piece, the name or the value is empty.
    */
  function CookieOf(piece: string): Option<(string, string)> {
    var cookie := Trim(piece);
    if cookie == "" then None
    else
      var parts := Split(cookie, '=');
      var name := parts[0];
      var value := if |parts| > 1 then parts[1] else "";
      if name == "" || value == "" then None else Some((name, value))
  }

  /** The cookies the pieces declare, in header order. */
  function CookiePairs(pieces: seq<string>): seq<(string, string)>
    decreases |pieces|
  {
    if pieces == [] then []
    else
      var before := CookiePairs(pieces[..|pieces| - 1]);
      match CookieOf(pieces[|pieces| - 1])
      case None => before
      case Some(c) => before + [c]
  }

  /** `getCookies(headers)`: every declared cookie written in header order. */
  method GetCookies(headers: Headers) returns (cookies: Dict<string>)
    ensures cookies == PutAll([], CookiePairs(CookiePieces(headers)))
    ensures Lookup(headers, "cookie").None? ==> cookies == []
  {
    var pieces := CookiePieces(headers);
    cookies := [];
    var i := 0;
    while i < |pieces|
      invariant i <= |pieces|
      invariant cookies == PutAll([], CookiePairs(pieces[..i]))
    {
      assert pieces[..i + 1][..i] == pieces[..i];
      var cookie := Trim(pieces[i]);
      if cookie != "" {
        var parts := Split(cookie, '=');
        var name := parts[0];
        var value := if |parts| > 1 then parts[1] else "";
        if name != "" && value != "" {
          PutAllSnoc([], CookiePairs(pieces[..i]), name, value);
          cookies := Put(cookies, name, value);
        }
      }
      i := i + 1;
    }
    assert pieces[..i] == pieces;
  }

  /** A name and a value, both non-empty and free of `=`. */
  predicate WellFormed(c: (string, string)) {
    c.0 != "" && c.1 != "" && '=' !in c.0 && '=' !in c.1
  }

  lemma CookieOfWellFormed(piece: string)
    ensures CookieOf(piece).Some? ==> WellFormed(CookieOf(piece).value)
  {
    var cookie := Trim(piece);
    if cookie != "" {
      SplitPiecesFree(cookie, '=');
      var parts := Split(cookie, '=');
      assert forall j :: 0 <= j < |parts[0]| ==> parts[0][j] != '=';
      if |parts| > 1 {
        assert forall j :: 0 <= j < |parts[1]| ==> parts[1][j] != '=';
      }
    }
  }

  /** Every cookie read has a non-empty name and a non-empty value, neither holding `=`. */
  lemma {:induction false} CookiePairsWellFormed(pieces: seq<string>)
    ensures forall j :: 0 <= j < |CookiePairs(pieces)| ==> WellFormed(CookiePairs(pieces)[j])
    decreases |pieces|
  {
    if pieces != [] {
      CookiePairsWellFormed(pieces[..|pieces| - 1]);
      CookieOfWellFormed(pieces[|pieces| - 1]);
    }
  }

  /**
    * The dictionary holds, under each name, the value of the LAST piece
    * declaring that name, and holds no name no piece declares.
    */
  lemma CookieLastWins(headers: Headers, name: string)
    ensures Lookup(PutAll([], CookiePairs(CookiePieces(headers))), name) ==
            LastValue(CookiePairs(CookiePieces(headers)), name)
  {
    LastWins([], CookiePairs(CookiePieces(headers)), name);
  }
}
