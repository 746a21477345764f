/**
  * The static usage analysis of the route compiler: which request facets an
  * endpoint's links mention by name in their source text. A best-effort
  * heuristic, not a guarantee: a facet read through an alias is missed, and a
  * facet named in a comment or string is counted.
  */
module Usage {
  import opened Text
  import opened Records

  /** The facets in the order their word patterns are tried. */
  const FacetOrder: seq<Facet> := [Body, Cookies, Headers, Params, Query]

  const AllFacets: set<Facet> := {Body, Cookies, Headers, Params, Query}

  function FacetName(f: Facet): string {
    match f
    case Body => "body"
    case Cookies => "cookies"
    case Headers => "headers"
    case Params => "params"
    case Query => "query"
  }

  /** The text a link contributes: a middleware's, store's or route handler's source; nothing else. */
  function LinkText(l: Link): (text: string)
    ensures l.ValidatorLink? || l.GroupLink? || l.ModuleLink? ==> text == ""
  {
    match l
    case Middleware(fn) => fn.text
    case Store(fn) => fn.text
    case RouteLink(r) => r.handler.text
    case _ => ""
  }

  /** Whether the word pattern of facet `f` matches `text`. */
  predicate Mentions(text: string, f: Facet) {
    HasWord(text, FacetName(f))
  }

  /** The facets whose name occurs as a whole word in `text`. */
  function WordsIn(text: string): (r: set<Facet>)
    ensures forall f :: f in r <==> Mentions(text, f)
  {
    set f | f in AllFacets && Mentions(text, f)
  }

  /** Some link of the chain names facet `f`. */
  predicate NamedBy(chain: seq<Link>, f: Facet) {
    exists j :: 0 <= j < |chain| && Mentions(LinkText(chain[j]), f)
  }

  /** A facet is named by a non-empty chain when it is named before the last link or by the last link. */
  lemma NamedByLast(chain: seq<Link>)
    requires chain != []
    ensures forall f :: NamedBy(chain, f) <==>
                        NamedBy(chain[..|chain| - 1], f) || Mentions(LinkText(chain[|chain| - 1]), f)
  {
    var init, last := chain[..|chain| - 1], |chain| - 1;
    forall f ensures NamedBy(chain, f) <==> NamedBy(init, f) || Mentions(LinkText(chain[last]), f) {
      if NamedBy(chain, f) {
        var j :| 0 <= j < |chain| && Mentions(LinkText(chain[j]), f);
        if j < last {
          assert init[j] == chain[j];
          assert NamedBy(init, f);
        } else {
          assert j == last;
        }
      }
      if NamedBy(init, f) {
        var j :| 0 <= j < |init| && Mentions(LinkText(init[j]), f);
        assert init[j] == chain[j];
        assert NamedBy(chain, f);
      }
      if Mentions(LinkText(chain[last]), f) {
        assert NamedBy(chain, f);
      }
    }
  }

  /** The facets named by some link of the chain. */
  function ChainUsage(chain: seq<Link>): (r: set<Facet>)
    ensures forall f :: f in r <==> NamedBy(chain, f)
  {
    if chain == [] then {}
    else
      NamedByLast(chain);
      ChainUsage(chain[..|chain| - 1]) + WordsIn(LinkText(chain[|chain| - 1]))
  }

  /** The usage set of an endpoint: what its chain names, plus what its handler names. */
  function EndpointUsage(chain: seq<Link>, handlerText: string): set<Facet> {
    ChainUsage(chain) + WordsIn(handlerText)
  }

  /** Validator links contribute no words, wherever they sit in the chain. */
  lemma ValidatorsAddNothing(chain: seq<Link>, v: Validator)
    ensures ChainUsage(chain + [ValidatorLink(v)]) == ChainUsage(chain)
  {
    assert (chain + [ValidatorLink(v)])[..|chain|] == chain;
    NothingInEmpty();
  }

  /** One pass of the five word patterns over `text`, adding each facet found. */
  method AddWords(use: set<Facet>, text: string) returns (r: set<Facet>)
    ensures r == use + WordsIn(text)
  {
    r := use;
    for i := 0 to |FacetOrder|
      invariant forall f :: f in r <==> f in use || (f in FacetOrder[..i] && Mentions(text, f))
    {
      var f := FacetOrder[i];
      assert FacetOrder[..i + 1] == FacetOrder[..i] + [f];
      if Mentions(text, f) {
        r := r + {f};
      }
    }
    assert FacetOrder[..|FacetOrder|] == FacetOrder;
  }

  /**
    * The scan of the merged chain, link by link, stopping as soon as all
    * five facets are found: what it returns is what the links before the
    * stop name.
    */
  method ScanChain(chain: seq<Link>) returns (use: set<Facet>, j: nat)
    ensures j <= |chain| && use == ChainUsage(chain[..j])
    ensures j < |chain| ==> |use| == 5
  {
    use := {};
    j := 0;
    while j < |chain|
      invariant 0 <= j <= |chain|
      invariant use == ChainUsage(chain[..j])
    {
      if |use| == 5 {
        return;
      }
      ChainUsageStep(chain, j);
      var text := LinkText(chain[j]);
      if text != "" {
        use := AddWords(use, text);
      } else {
        NothingInEmpty();
      }
      j := j + 1;
    }
  }

  /**
    * The scan `step` runs for each route: over the merged chain, stopping as
    * soon as all five facets are found, then over the handler's own text when
    * the set is still incomplete. The early stop and the fallback do not change
    * the outcome: the result is exactly the facets some link or the handler names.
    */
  method ScanUsage(chain: seq<Link>, handlerText: string) returns (use: set<Facet>)
    ensures use == EndpointUsage(chain, handlerText)
  {
    var j;
    use, j := ScanChain(chain);
    if |use| == 5 {
      FullStop(chain, j, handlerText);
    } else {
      assert chain[..j] == chain;
      use := AddWords(use, handlerText);
    }
  }

  lemma ChainUsageStep(chain: seq<Link>, j: nat)
    requires j < |chain|
    ensures ChainUsage(chain[..j + 1]) == ChainUsage(chain[..j]) + WordsIn(LinkText(chain[j]))
  {
    assert chain[..j + 1][..j] == chain[..j];
  }

  /** A prefix of the chain names no more facets than the whole chain. */
  lemma PrefixUsage(chain: seq<Link>, j: nat)
    requires j <= |chain|
    ensures ChainUsage(chain[..j]) <= ChainUsage(chain)
  {
    forall f | f in ChainUsage(chain[..j]) ensures f in ChainUsage(chain) {
      var k :| 0 <= k < j && Mentions(LinkText(chain[..j][k]), f);
      assert chain[..j][k] == chain[k];
    }
  }

  /** Every facet is one of the five. */
  lemma InAllFacets(f: Facet)
    ensures f in AllFacets
  {
    match f
    case Body =>
    case Cookies =>
    case Headers =>
    case Params =>
    case Query =>
  }

  /** A set of five facets contains every set of facets. */
  lemma FiveIsAll(five: set<Facet>, s: set<Facet>)
    requires |five| == 5
    ensures s <= five
  {
    FullUsage(five);
    forall f | f in s ensures f in five {
      InAllFacets(f);
    }
  }

  /** Once a prefix of the chain names five facets, the rest of the scan cannot add any. */
  lemma FullStop(chain: seq<Link>, j: nat, handlerText: string)
    requires j <= |chain| && |ChainUsage(chain[..j])| == 5
    ensures EndpointUsage(chain, handlerText) == ChainUsage(chain[..j])
  {
    var pre, whole := ChainUsage(chain[..j]), ChainUsage(chain);
    var e := whole + WordsIn(handlerText);
    assert pre <= e by {
      PrefixUsage(chain, j);
    }
    FiveIsAll(pre, e);
  }

  /** The empty text names no facet. */
  lemma NothingInEmpty()
    ensures WordsIn("") == {}
  {
    forall f ensures !Mentions("", f) {
      assert |FacetName(f)| > 0;
    }
  }

  lemma {:induction false} SubsetSize<T>(a: set<T>, b: set<T>)
    requires a <= b
    ensures |a| <= |b|
    decreases |a|
  {
    if a != {} {
      var x :| x in a;
      SubsetSize(a - {x}, b - {x});
    }
  }

  /** A subset of the five facets with five members is all of them. */
  lemma FullUsage(use: set<Facet>)
    requires |use| == 5
    ensures use == AllFacets
  {
    forall f | f in use ensures f in AllFacets {
      InAllFacets(f);
    }
    if use != AllFacets {
      var f :| f in AllFacets && f !in use;
      assert |AllFacets - {f}| == 4;
      SubsetSize(use, AllFacets - {f});
      assert false;
    }
  }
}
