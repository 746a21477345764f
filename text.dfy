/**
  * The JavaScript string operations the framework relies on, written out:
  * `split` on a character or a string, `join`, `trim`, `toLowerCase`,
  * `replaceAll`, `startsWith`/`endsWith`/`indexOf`, the `\bword\b` test and
  * number-to-string conversion.
  */
module Text {

  // ---------------------------------------------------------------------------
  // split / join
  // ---------------------------------------------------------------------------

  function Join(parts: seq<string>, sep: string): string {
    if parts == [] then ""
    else if |parts| == 1 then parts[0]
    else parts[0] + sep + Join(parts[1..], sep)
  }

  /** A piece followed by at least one more joins as the piece, the separator and the rest. */
  lemma JoinCons(p: string, t: seq<string>, sep: string)
    requires t != []
    ensures Join([p] + t, sep) == p + sep + Join(t, sep)
  {
    assert ([p] + t)[1..] == t;
  }

  /** A character put in front of the first piece comes out in front of the joined text. */
  lemma JoinHead(ch: char, t: seq<string>, sep: string)
    requires t != []
    ensures Join([[ch] + t[0]] + t[1..], sep) == [ch] + Join(t, sep)
  {
    if |t| > 1 {
      assert t == [t[0]] + t[1..];
      JoinCons(t[0], t[1..], sep);
      JoinCons([ch] + t[0], t[1..], sep);
    }
  }

  /** `s.split(c)` for a one-character separator. */
  function Split(s: string, c: char): (r: seq<string>)
    ensures |r| >= 1
  {
    if s == [] then [""]
    else if s[0] == c then [""] + Split(s[1..], c)
    else
      var t := Split(s[1..], c);
      [[s[0]] + t[0]] + t[1..]
  }

  lemma {:induction false} JoinSplit(s: string, c: char)
    ensures Join(Split(s, c), [c]) == s
  {
    if s != [] {
      JoinSplit(s[1..], c);
      var t := Split(s[1..], c);
      if s[0] == c {
        JoinCons("", t, [c]);
      } else {
        JoinHead(s[0], t, [c]);
      }
    }
  }

  /** No piece contains the separator. */
  lemma {:induction false} SplitPiecesFree(s: string, c: char)
    ensures forall i, j :: 0 <= i < |Split(s, c)| && 0 <= j < |Split(s, c)[i]| ==> Split(s, c)[i][j] != c
  {
    if s != [] {
      SplitPiecesFree(s[1..], c);
      var t := Split(s[1..], c);
      if s[0] == c {
        assert Split(s, c) == [""] + t;
      } else {
        var r := Split(s, c);
        assert r == [[s[0]] + t[0]] + t[1..];
        forall i, j | 0 <= i < |r| && 0 <= j < |r[i]| ensures r[i][j] != c {
          if i == 0 {
            if j > 0 { assert r[0][j] == t[0][j - 1]; }
          } else {
            assert r[i] == t[i];
          }
        }
      }
    }
  }

  /** Text without the separator is a single piece. */
  lemma {:induction false} NoSeparatorSplit(s: string, c: char)
    requires forall i :: 0 <= i < |s| ==> s[i] != c
    ensures Split(s, c) == [s]
    decreases |s|
  {
    if s != [] {
      NoSeparatorSplit(s[1..], c);
      assert [s[0]] + s[1..] == s;
    }
  }

  /** Extending the first piece commutes with appending more pieces. */
  lemma HeadAppend(ch: char, t: seq<string>, u: seq<string>)
    requires t != []
    ensures ([[ch] + t[0]] + t[1..]) + u == [[ch] + (t + u)[0]] + (t + u)[1..]
  {
    assert (t + u)[0] == t[0];
    assert (t + u)[1..] == t[1..] + u;
  }

  /** Splitting at a separator occurrence splits the two sides independently. */
  lemma {:induction false} SplitAppend(x: string, y: string, c: char)
    ensures Split(x + [c] + y, c) == Split(x, c) + Split(y, c)
    decreases |x|
  {
    var z := x + [c] + y;
    if x == [] {
      assert z == [c] + y;
      assert z[1..] == y;
    } else {
      assert z[0] == x[0];
      assert z[1..] == x[1..] + [c] + y;
      SplitAppend(x[1..], y, c);
      var t := Split(x[1..], c);
      var u := Split(y, c);
      if x[0] == c {
        assert Split(z, c) == [""] + (t + u);
      } else {
        HeadAppend(x[0], t, u);
      }
    }
  }

  /** `s.split(sep)` for a non-empty string separator (left to right, no overlap). */
  function SplitOn(s: string, sep: string): (r: seq<string>)
    requires sep != []
    ensures |r| >= 1
    decreases |s|
  {
    if s == [] then [""]
    else if StartsWith(s, sep) then [""] + SplitOn(s[|sep|..], sep)
    else
      var t := SplitOn(s[1..], sep);
      [[s[0]] + t[0]] + t[1..]
  }

  /** Text that starts with the separator splits into an empty piece and the pieces after it. */
  lemma SplitOnAtSeparator(s: string, sep: string)
    requires sep != [] && s != [] && StartsWith(s, sep)
    ensures SplitOn(s, sep) == [""] + SplitOn(s[|sep|..], sep)
    ensures s == sep + s[|sep|..]
  {
    assert s == s[..|sep|] + s[|sep|..];
  }

  /** Otherwise the first character joins the first piece of the rest. */
  lemma SplitOnOther(s: string, sep: string)
    requires sep != [] && s != [] && !StartsWith(s, sep)
    ensures SplitOn(s, sep) == [[s[0]] + SplitOn(s[1..], sep)[0]] + SplitOn(s[1..], sep)[1..]
    ensures s == [s[0]] + s[1..]
  {
  }

  lemma {:induction false} JoinSplitOn(s: string, sep: string)
    requires sep != []
    ensures Join(SplitOn(s, sep), sep) == s
    decreases |s|
  {
    if s != [] {
      if StartsWith(s, sep) {
        JoinSplitOn(s[|sep|..], sep);
        SplitOnAtSeparator(s, sep);
        JoinCons("", SplitOn(s[|sep|..], sep), sep);
      } else {
        JoinSplitOn(s[1..], sep);
        SplitOnOther(s, sep);
        JoinHead(s[0], SplitOn(s[1..], sep), sep);
      }
    }
  }

  /**
    * `s.replaceAll(pat, rep)` for a non-empty pattern and a replacement that
    * holds no `$`, which is inserted as it is (`ReplaceAllLiteral`).
    */
  function ReplaceAll(s: string, pat: string, rep: string): string
    requires pat != []
    decreases |s|
  {
    if s == [] then ""
    else if StartsWith(s, pat) then rep + ReplaceAll(s[|pat|..], pat, rep)
    else [s[0]] + ReplaceAll(s[1..], pat, rep)
  }

  /**
    * `replaceAll` keeps the text between the occurrences of the pattern and puts
    * `rep` where each occurrence was: cutting the result at the occurrences
    * gives the same pieces that rebuild `s` around `pat`.
    */
  lemma {:induction false} ReplaceAllIsSplitJoin(s: string, pat: string, rep: string)
    requires pat != []
    ensures ReplaceAll(s, pat, rep) == Join(SplitOn(s, pat), rep)
    decreases |s|
  {
    if s != [] {
      if StartsWith(s, pat) {
        ReplaceAllIsSplitJoin(s[|pat|..], pat, rep);
        SplitOnAtSeparator(s, pat);
        JoinCons("", SplitOn(s[|pat|..], pat), rep);
      } else {
        ReplaceAllIsSplitJoin(s[1..], pat, rep);
        SplitOnOther(s, pat);
        JoinHead(s[0], SplitOn(s[1..], pat), rep);
      }
    }
  }

  /** Text in which the pattern does not occur is left as it is. */
  lemma {:induction false} ReplaceAllAbsent(s: string, pat: string, rep: string)
    requires pat != []
    requires !Contains(s, pat)
    ensures ReplaceAll(s, pat, rep) == s
    decreases |s|
  {
    if s != [] {
      assert !StartsWith(s, pat) by { assert !OccursAt(s, pat, 0); }
      assert !Contains(s[1..], pat) by {
        forall i | 0 <= i <= |s[1..]| - |pat| ensures !OccursAt(s[1..], pat, i) {
          assert !OccursAt(s, pat, i + 1);
          assert s[1..][i..i + |pat|] == s[i + 1..i + 1 + |pat|];
        }
      }
      ReplaceAllAbsent(s[1..], pat, rep);
    }
  }

  /**
    * The text GetSubstitution (ECMAScript, section 22.1.3.19.1 of ECMA-262
    * 2023) makes of a replacement string for a match of a string pattern,
    * which has no capture groups: `$$` gives `$`, `$&` the matched text,
    * `` $` `` the text before the match and `$'` the text after it. Every other
    * `$`, `$1` and `$<` included, stands for itself.
    */
  function Substitution(rep: string, matched: string, before: string, after: string): string
    decreases |rep|
  {
    if rep == [] then ""
    else if |rep| >= 2 && rep[0] == '$' && rep[1] == '$' then "$" + Substitution(rep[2..], matched, before, after)
    else if |rep| >= 2 && rep[0] == '$' && rep[1] == '&' then matched + Substitution(rep[2..], matched, before, after)
    else if |rep| >= 2 && rep[0] == '$' && rep[1] == '`' then before + Substitution(rep[2..], matched, before, after)
    else if |rep| >= 2 && rep[0] == '$' && rep[1] == '\'' then after + Substitution(rep[2..], matched, before, after)
    else [rep[0]] + Substitution(rep[1..], matched, before, after)
  }

  /** A replacement without `$` is inserted as it is. */
  lemma {:induction false} SubstitutionLiteral(rep: string, matched: string, before: string, after: string)
    requires '$' !in rep
    ensures Substitution(rep, matched, before, after) == rep
    decreases |rep|
  {
    if rep != [] {
      assert rep[0] != '$' && '$' !in rep[1..];
      SubstitutionLiteral(rep[1..], matched, before, after);
    }
  }

  /**
    * What `s.replaceAll(pat, rep)` makes of `s[i..]`: each occurrence of the
    * pattern, found from left to right without overlap, is replaced by the
    * substitution of `rep` for it, with the text of the whole of `s` before and
    * after the occurrence.
    */
  function ReplaceAllFrom(s: string, pat: string, rep: string, i: nat): string
    requires pat != [] && i <= |s|
    decreases |s| - i
  {
    if i == |s| then ""
    else if OccursAt(s, pat, i) then Substitution(rep, pat, s[..i], s[i + |pat|..]) + ReplaceAllFrom(s, pat, rep, i + |pat|)
    else [s[i]] + ReplaceAllFrom(s, pat, rep, i + 1)
  }

  /** `s.replaceAll(pat, rep)` for a non-empty string pattern and a string replacement. */
  function ReplaceAllExpanding(s: string, pat: string, rep: string): string
    requires pat != []
  {
    ReplaceAllFrom(s, pat, rep, 0)
  }

  /** With a replacement holding no `$`, every occurrence is replaced by the replacement itself. */
  lemma {:induction false} ReplaceAllFromLiteral(s: string, pat: string, rep: string, i: nat)
    requires pat != [] && i <= |s| && '$' !in rep
    ensures ReplaceAllFrom(s, pat, rep, i) == ReplaceAll(s[i..], pat, rep)
    decreases |s| - i
  {
    if i < |s| {
      var t := s[i..];
      assert OccursAt(s, pat, i) <==> StartsWith(t, pat) by {
        if i + |pat| <= |s| { assert t[..|pat|] == s[i..i + |pat|]; }
      }
      if OccursAt(s, pat, i) {
        SubstitutionLiteral(rep, pat, s[..i], s[i + |pat|..]);
        ReplaceAllFromLiteral(s, pat, rep, i + |pat|);
        assert t[|pat|..] == s[i + |pat|..];
      } else {
        ReplaceAllFromLiteral(s, pat, rep, i + 1);
        assert t[1..] == s[i + 1..] && t[0] == s[i];
      }
    }
  }

  lemma ReplaceAllLiteral(s: string, pat: string, rep: string)
    requires pat != [] && '$' !in rep
    ensures ReplaceAllExpanding(s, pat, rep) == ReplaceAll(s, pat, rep)
  {
    ReplaceAllFromLiteral(s, pat, rep, 0);
    assert s[0..] == s;
  }

  /** Text from `i` on that holds no occurrence is kept as it is. */
  lemma {:induction false} ReplaceAllFromAbsent(s: string, pat: string, rep: string, i: nat)
    requires pat != [] && i <= |s|
    requires forall j :: i <= j <= |s| - |pat| ==> !OccursAt(s, pat, j)
    ensures ReplaceAllFrom(s, pat, rep, i) == s[i..]
    decreases |s| - i
  {
    if i < |s| {
      assert !OccursAt(s, pat, i);
      ReplaceAllFromAbsent(s, pat, rep, i + 1);
      assert s[i..] == [s[i]] + s[i + 1..];
    }
  }

  /** Text in which the pattern does not occur is left as it is, whatever the replacement. */
  lemma ReplaceAllExpandingAbsent(s: string, pat: string, rep: string)
    requires pat != [] && !Contains(s, pat)
    ensures ReplaceAllExpanding(s, pat, rep) == s
  {
    ReplaceAllFromAbsent(s, pat, rep, 0);
    assert s[0..] == s;
  }

  /** A stretch with no occurrence is copied, and the scan resumes after it. */
  lemma {:induction false} ReplaceAllFromSkip(s: string, pat: string, rep: string, i: nat, j: nat)
    requires pat != [] && i <= j <= |s|
    requires forall k :: i <= k < j ==> !OccursAt(s, pat, k)
    ensures ReplaceAllFrom(s, pat, rep, i) == s[i..j] + ReplaceAllFrom(s, pat, rep, j)
    decreases j - i
  {
    if i < j {
      ReplaceAllFromSkip(s, pat, rep, i + 1, j);
      assert s[i..j] == [s[i]] + s[i + 1..j];
    }
  }

  // ---------------------------------------------------------------------------
  // prefixes, suffixes, occurrences
  // ---------------------------------------------------------------------------

  predicate StartsWith(s: string, p: string) {
    |p| <= |s| && s[..|p|] == p
  }

  predicate EndsWith(s: string, p: string) {
    |p| <= |s| && s[|s| - |p|..] == p
  }

  predicate OccursAt(s: string, p: string, i: int) {
    0 <= i && i + |p| <= |s| && s[i..i + |p|] == p
  }

  /** `s.indexOf(p) !== -1` / `s.includes(p)`. */
  predicate Contains(s: string, p: string) {
    exists i | 0 <= i <= |s| - |p| :: OccursAt(s, p, i)
  }

  // ---------------------------------------------------------------------------
  // trim / toLowerCase
  // ---------------------------------------------------------------------------

  /** The characters `String.prototype.trim` removes: WhiteSpace and LineTerminator. */
  predicate IsSpace(c: char) {
    var n := c as int;
    (0x09 <= n <= 0x0D) || n == 0x20 || n == 0xA0 || n == 0x1680
    || (0x2000 <= n <= 0x200A) || n == 0x2028 || n == 0x2029
    || n == 0x202F || n == 0x205F || n == 0x3000 || n == 0xFEFF
  }

  /** The number of white-space characters `s` starts with. */
  function LeadingSpaces(s: string): (n: nat)
    ensures n <= |s|
    ensures forall k :: 0 <= k < n ==> IsSpace(s[k])
    ensures n < |s| ==> !IsSpace(s[n])
  {
    if s != [] && IsSpace(s[0]) then 1 + LeadingSpaces(s[1..]) else 0
  }

  /** The length of `s` without the white-space characters it ends with. */
  function UntrailedLength(s: string): (n: nat)
    ensures n <= |s|
    ensures forall k :: n <= k < |s| ==> IsSpace(s[k])
    ensures n > 0 ==> !IsSpace(s[n - 1])
  {
    if s != [] && IsSpace(s[|s| - 1]) then UntrailedLength(s[..|s| - 1]) else |s|
  }

  /** `s.trimStart()`. */
  function TrimStart(s: string): (r: string)
    ensures r == [] || !IsSpace(r[0])
  {
    s[LeadingSpaces(s)..]
  }

  /** `s.trimEnd()`. */
  function TrimEnd(s: string): (r: string)
    ensures r == [] || !IsSpace(r[|r| - 1])
  {
    s[..UntrailedLength(s)]
  }

  /** `s.trim()`: the text with leading and trailing white space removed. */
  function Trim(s: string): (r: string)
    ensures r == [] || (!IsSpace(r[0]) && !IsSpace(r[|r| - 1]))
  {
    TrimEnd(TrimStart(s))
  }

  function LowerChar(c: char): char {
    if 'A' <= c <= 'Z' then (c as int + 32) as char else c
  }

  /** `s.toLowerCase()` (ASCII letters). */
  function Lower(s: string): (r: string)
    ensures |r| == |s|
    ensures forall i :: 0 <= i < |s| ==> r[i] == LowerChar(s[i])
  {
    if s == [] then [] else [LowerChar(s[0])] + Lower(s[1..])
  }

  // ---------------------------------------------------------------------------
  // whole-word test: /\bword\b/
  // ---------------------------------------------------------------------------

  /** `\w`: ASCII letters, digits and `_`. */
  predicate IsWordChar(c: char) {
    ('a' <= c <= 'z') || ('A' <= c <= 'Z') || ('0' <= c <= '9') || c == '_'
  }

  /** The word `w` (made of word characters) occurs at `i` with a word boundary on both sides. */
  predicate WordAt(text: string, w: string, i: int) {
    OccursAt(text, w, i)
    && (i == 0 || !IsWordChar(text[i - 1]))
    && (i + |w| == |text| || !IsWordChar(text[i + |w|]))
  }

  /** `/\bw\b/m.test(text)` for a word `w` made of word characters. */
  predicate HasWord(text: string, w: string) {
    exists i | 0 <= i <= |text| - |w| :: WordAt(text, w, i)
  }

  // ---------------------------------------------------------------------------
  // numbers
  // ---------------------------------------------------------------------------

  function DigitChar(d: nat): char
    requires d < 10
  {
    ['0', '1', '2', '3', '4', '5', '6', '7', '8', '9'][d]
  }

  predicate IsDigit(c: char) {
    '0' <= c <= '9'
  }

  /** `String(n)` for a non-negative integer: decimal, no leading zeros. */
  function NatToString(n: nat): (r: string)
    ensures r != []
    ensures forall i :: 0 <= i < |r| ==> IsDigit(r[i])
    ensures |r| > 1 ==> r[0] != '0'
    decreases n
  {
    if n < 10 then [DigitChar(n)] else NatToString(n / 10) + [DigitChar(n % 10)]
  }

  /** `String(n)` / `n.toString()` for an integer. */
  function IntToString(n: int): string {
    if n < 0 then "-" + NatToString(-n) else NatToString(n)
  }

  /** The value of a string of decimal digits. */
  function DigitsValue(s: string): nat
    requires forall i :: 0 <= i < |s| ==> IsDigit(s[i])
  {
    if s == [] then 0
    else DigitsValue(s[..|s| - 1]) * 10 + DigitValue(s[|s| - 1])
  }

  function DigitValue(c: char): nat
    requires IsDigit(c)
  {
    (c as int) - ('0' as int)
  }

  lemma {:induction false} DigitsValueOfNatToString(n: nat)
    ensures DigitsValue(NatToString(n)) == n
    decreases n
  {
    if n >= 10 {
      var s := NatToString(n);
      DigitsValueOfNatToString(n / 10);
      assert s[..|s| - 1] == NatToString(n / 10);
    }
  }

  /**
    * A canonical array index: digits with no leading zero, as produced by
    * `String(i)`; this is how JS decides that `o["2"]` indexes an array.
    */
  predicate CanonicalIndex(s: string) {
    s != [] && (forall i :: 0 <= i < |s| ==> IsDigit(s[i])) && (|s| > 1 ==> s[0] != '0')
  }

  /** Every natural number prints as a canonical index that reads back as itself. */
  lemma NatToStringRoundTrip(n: nat)
    ensures CanonicalIndex(NatToString(n))
    ensures DigitsValue(NatToString(n)) == n
  {
    DigitsValueOfNatToString(n);
  }
}
