/**
 * The DOM Standard's ordered sets of tokens, which back an element's class
 * list: the `class` attribute is parsed by splitting it on ASCII white space
 * and dropping repeats, and a DOMTokenList writes its set back as the items
 * joined by single spaces.
 */
module ClassTokens {

  /** ASCII white space (tab, line feed, form feed, carriage return, space). */
  predicate IsAsciiWhitespace(c: char) {
    c == '\t' || c == '\n' || c == '\U{0C}' || c == '\r' || c == ' '
  }

  /** A token: non-empty, with no ASCII white space. */
  predicate IsToken(t: string) {
    t != [] && forall i :: 0 <= i < |t| ==> !IsAsciiWhitespace(t[i])
  }

  /** No item occurs twice. */
  predicate Distinct(xs: seq<string>) {
    forall i, j :: 0 <= i < j < |xs| ==> xs[i] != xs[j]
  }

  /** An ordered set of tokens, as a class list always is. */
  predicate TokenSet(xs: seq<string>) {
    Distinct(xs) && forall t :: t in xs ==> IsToken(t)
  }

  /** The length of the run of non-white-space characters s starts with. */
  function WordLen(s: string): (k: nat)
    ensures k <= |s|
    ensures forall i :: 0 <= i < k ==> !IsAsciiWhitespace(s[i])
    ensures k < |s| ==> IsAsciiWhitespace(s[k])
  {
    if s == [] || IsAsciiWhitespace(s[0]) then 0 else 1 + WordLen(s[1..])
  }

  /** Splitting on ASCII white space: the maximal runs of other characters, in order. */
  function SplitWords(s: string): (r: seq<string>)
    ensures forall w :: w in r ==> IsToken(w)
    decreases |s|
  {
    if s == [] then []
    else if IsAsciiWhitespace(s[0]) then SplitWords(s[1..])
    else
      var k := WordLen(s);
      [s[..k]] + SplitWords(s[k..])
  }

  /** The first occurrence of each item, in order (what appending to an ordered set keeps). */
  function Dedupe(xs: seq<string>): (r: seq<string>)
    ensures forall x :: x in r <==> x in xs
    ensures Distinct(r)
    decreases |xs|
  {
    if xs == [] then []
    else
      var d := Dedupe(xs[..|xs| - 1]);
      var last := xs[|xs| - 1];
      assert forall x :: x in xs <==> x in xs[..|xs| - 1] || x == last;
      if last in d then d else d + [last]
  }

  /** The ordered set parser. */
  function ParseTokens(s: string): (r: seq<string>)
    ensures TokenSet(r)
  {
    Dedupe(SplitWords(s))
  }

  /** The ordered set serializer: the items joined by single spaces. */
  function Serialize(xs: seq<string>): string
    decreases |xs|
  {
    if xs == [] then ""
    else if |xs| == 1 then xs[0]
    else xs[0] + " " + Serialize(xs[1..])
  }

  /** The items of xs that are not in ts, in order (removing tokens from an ordered set). */
  function WithoutTokens(xs: seq<string>, ts: seq<string>): (r: seq<string>)
    ensures forall x :: x in r <==> x in xs && x !in ts
    decreases |xs|
  {
    if xs == [] then []
    else
      assert forall x :: x in xs <==> x == xs[0] || x in xs[1..];
      (if xs[0] in ts then [] else [xs[0]]) + WithoutTokens(xs[1..], ts)
  }

  // ---------------------------------------------------------------------------
  // Parsing inverts serializing
  // ---------------------------------------------------------------------------

  /** A token followed by white space or by nothing is read as one word. */
  lemma {:induction false} WordLenOfToken(x: string, y: string)
    requires forall i :: 0 <= i < |x| ==> !IsAsciiWhitespace(x[i])
    requires y == [] || IsAsciiWhitespace(y[0])
    ensures WordLen(x + y) == |x|
    decreases |x|
  {
    if x != [] {
      assert (x + y)[0] == x[0];
      assert (x + y)[1..] == x[1..] + y;
      WordLenOfToken(x[1..], y);
    } else {
      assert x + y == y;
    }
  }

  /** Splitting the serialization of a list of tokens gives the list back. */
  lemma {:induction false} SplitSerialize(xs: seq<string>)
    requires forall t :: t in xs ==> IsToken(t)
    ensures SplitWords(Serialize(xs)) == xs
    decreases |xs|
  {
    if |xs| == 1 {
      var x := xs[0];
      assert IsToken(x) by { assert x in xs; }
      assert x + [] == x;
      WordLenOfToken(x, []);
      assert x[..|x|] == x && x[|x|..] == [];
    } else if |xs| > 1 {
      var x := xs[0];
      assert IsToken(x) by { assert x in xs; }
      assert forall t :: t in xs[1..] ==> t in xs;
      SplitSerialize(xs[1..]);
      SplitAfterToken(x, Serialize(xs[1..]));
      assert Serialize(xs) == x + (" " + Serialize(xs[1..]));
      assert xs == [x] + xs[1..];
    }
  }

  /** After a token and a space, the token is the first word and the rest splits on its own. */
  lemma SplitAfterToken(x: string, rest: string)
    requires IsToken(x)
    ensures SplitWords(x + (" " + rest)) == [x] + SplitWords(rest)
  {
    var s := x + (" " + rest);
    assert s[0] == x[0];
    WordLenOfToken(x, " " + rest);
    assert s[..|x|] == x && s[|x|..] == " " + rest;
    assert (" " + rest)[1..] == rest;
  }

  /** Dropping repeats from a list without repeats changes nothing. */
  lemma {:induction false} DedupeDistinct(xs: seq<string>)
    requires Distinct(xs)
    ensures Dedupe(xs) == xs
    decreases |xs|
  {
    if xs != [] {
      var init := xs[..|xs| - 1];
      DedupeDistinct(init);
      assert xs[|xs| - 1] !in init;
      assert init + [xs[|xs| - 1]] == xs;
    }
  }

  /** The parser inverts the serializer on every ordered set of tokens. */
  lemma ParseSerialize(xs: seq<string>)
    requires TokenSet(xs)
    ensures ParseTokens(Serialize(xs)) == xs
  {
    SplitSerialize(xs);
    DedupeDistinct(xs);
  }

  /** Removing tokens keeps an ordered set an ordered set. */
  lemma {:induction false} WithoutTokensSet(xs: seq<string>, ts: seq<string>)
    requires TokenSet(xs)
    ensures TokenSet(WithoutTokens(xs, ts))
    decreases |xs|
  {
    if xs != [] {
      var tail := xs[1..];
      assert TokenSet(tail) by {
        forall i, j | 0 <= i < j < |tail| ensures tail[i] != tail[j] {
          assert tail[i] == xs[i + 1] && tail[j] == xs[j + 1];
        }
        assert forall t :: t in tail ==> t in xs;
      }
      WithoutTokensSet(tail, ts);
      var rest := WithoutTokens(tail, ts);
      if xs[0] !in ts {
        assert xs[0] !in tail by {
          forall j | 0 <= j < |tail| ensures tail[j] != xs[0] {
            assert tail[j] == xs[j + 1];
          }
        }
        DistinctCons(xs[0], rest);
      }
    }
  }

  lemma DistinctCons(x: string, rest: seq<string>)
    requires Distinct(rest) && x !in rest
    ensures Distinct([x] + rest)
  {
    var l := [x] + rest;
    forall i, j | 0 <= i < j < |l| ensures l[i] != l[j] {
      assert l[j] == rest[j - 1];
      if i > 0 {
        assert l[i] == rest[i - 1];
      }
    }
  }
}
