/**
 * The slice of the JavaScript platform the library relies on: the values that
 * cross its API, the errors it can throw, and the two string primitives it
 * classifies with (String.prototype.trim and String.prototype.toLowerCase).
 */
module JsValues {

  datatype Option<T> = None | Some(value: T)

  /** Node identities of the element store (see DomModel). */
  type NodeId = nat

  /** The errors the modelled code can raise. */
  datatype JsError =
    | TypeError                                   // a member that is not a function was called, or null dereferenced
    | SyntaxError                                 // DOMException "SyntaxError": an invalid CSS selector, or an empty class token
    | InvalidCharacterError                       // DOMException "InvalidCharacterError": a bad attribute name or class token
    | UriError                                    // encodeURI given an unencodable string
    | DomException(name: string, message: string) // new DOMException(message, name)
    | Error(message: string)                      // new Error(message)

  /** A computation that either yields a value or throws. */
  datatype Outcome<T> = Ok(value: T) | Throw(error: JsError)

  /**
   * The JavaScript values the library is handed or returns.
   * Numbers are integers here (NaN and fractions are not modelled).
   * A `Collection` is an HTMLCollection/NodeList: `live` is true for the
   * collections getElementsBy* return and false for querySelectorAll's.
   */
  datatype JsValue =
    | Undefined
    | Null
    | Bool(b: bool)
    | Num(n: int)
    | Str(s: string)
    | WindowObj
    | DocumentObj
    | ElementObj(id: NodeId)
    | Collection(live: bool, items: seq<NodeId>)
    | OtherObj

  /** JavaScript's ToBoolean is false exactly for these values. */
  predicate IsFalsy(v: JsValue) {
    v == Undefined || v == Null || v == Bool(false) || v == Num(0) || v == Str("")
  }

  /** WhiteSpace and LineTerminator code points of ECMA-262 (what trim removes). */
  predicate IsJsSpace(c: char) {
    c == '\t' || c == '\n' || c == '\U{0B}' || c == '\U{0C}' || c == '\r' || c == ' '
    || c == '\U{A0}' || c == '\U{1680}' || ('\U{2000}' <= c <= '\U{200A}')
    || c == '\U{2028}' || c == '\U{2029}' || c == '\U{202F}' || c == '\U{205F}'
    || c == '\U{3000}' || c == '\U{FEFF}'
  }

  /** Leading white space removed. */
  function TrimStart(s: string): string {
    if s != [] && IsJsSpace(s[0]) then TrimStart(s[1..]) else s
  }

  /** Trailing white space removed. */
  function TrimEnd(s: string): string {
    if s != [] && IsJsSpace(s[|s| - 1]) then TrimEnd(s[..|s| - 1]) else s
  }

  /** String.prototype.trim. */
  function Trim(s: string): string {
    TrimEnd(TrimStart(s))
  }

  /**
   * The lower-case mapping of one character as far as it matters here: ASCII
   * upper-case letters and the Kelvin sign (U+212A, whose lower case is the
   * ASCII 'k') are mapped; every other character is kept. JavaScript maps more
   * characters, but onto ASCII only U+0130, whose lower case "i" + U+0307 holds
   * a non-ASCII character all the same; so whether a lower-cased selector
   * matches one of the ASCII patterns of the selector rules is decided alike.
   */
  function CharLower(c: char): char {
    if 'A' <= c <= 'Z' then ((c as int) + 32) as char
    else if c == '\U{212A}' then 'k'
    else c
  }

  /** String.prototype.toLowerCase (see CharLower). */
  function ToLowerCase(s: string): string {
    seq(|s|, i requires 0 <= i < |s| => CharLower(s[i]))
  }

  /** ASCII lowercase, the DOM's normalisation of attribute and tag names. */
  function AsciiLower(s: string): string {
    seq(|s|, i requires 0 <= i < |s| => if 'A' <= s[i] <= 'Z' then ((s[i] as int) + 32) as char else s[i])
  }

  /** Array.prototype.indexOf on strings: the first index of x, or -1. */
  function IndexOf(xs: seq<string>, x: string): (r: int)
    ensures -1 <= r < |xs|
    ensures r >= 0 ==> xs[r] == x && x !in xs[..r]
    ensures r == -1 <==> x !in xs
  {
    if xs == [] then -1
    else if xs[0] == x then 0
    else
      var k := IndexOf(xs[1..], x);
      if k == -1 then -1
      else
        assert xs[..k + 1] == [xs[0]] + xs[1..][..k];
        k + 1
  }

  // ---------------------------------------------------------------------------
  // Facts about the string primitives
  // ---------------------------------------------------------------------------

  /** Lower-casing neither creates nor removes white space. */
  lemma CharLowerKeepsSpace(c: char)
    ensures IsJsSpace(CharLower(c)) == IsJsSpace(c)
  {
  }

  /** TrimStart drops a run of white space from the front, and only that. */
  lemma {:induction false} TrimStartDropsLeadingSpace(s: string)
    ensures var r := TrimStart(s);
      && |r| <= |s| && r == s[|s| - |r|..]
      && (forall k :: 0 <= k < |s| - |r| ==> IsJsSpace(s[k]))
      && (r != [] ==> !IsJsSpace(r[0]))
  {
    if s != [] && IsJsSpace(s[0]) {
      TrimStartDropsLeadingSpace(s[1..]);
      var r := TrimStart(s[1..]);
      assert s[1..][|s| - 1 - |r|..] == s[|s| - |r|..];
    }
  }

  /** TrimEnd drops a run of white space from the back, and only that. */
  lemma {:induction false} TrimEndDropsTrailingSpace(s: string)
    ensures var r := TrimEnd(s);
      && |r| <= |s| && r == s[..|r|]
      && (forall k :: |r| <= k < |s| ==> IsJsSpace(s[k]))
      && (r != [] ==> !IsJsSpace(r[|r| - 1]))
  {
    if s != [] && IsJsSpace(s[|s| - 1]) {
      TrimEndDropsTrailingSpace(s[..|s| - 1]);
      var r := TrimEnd(s[..|s| - 1]);
      assert s[..|s| - 1][..|r|] == s[..|r|];
    }
  }

  /** Trim leaves no white space at either end. */
  lemma TrimLeavesNoSpaceAtEnds(s: string)
    ensures var t := Trim(s); t != [] ==> !IsJsSpace(t[0]) && !IsJsSpace(t[|t| - 1])
  {
    var u := TrimStart(s);
    TrimStartDropsLeadingSpace(s);
    TrimEndDropsTrailingSpace(u);
    var t := Trim(s);
    if t != [] {
      assert t == u[..|t|];
      assert t[0] == u[0];
    }
  }

  /** Trimming a string with no white space at its ends changes nothing. */
  lemma {:induction false} TrimNoOp(s: string)
    requires s != [] ==> !IsJsSpace(s[0]) && !IsJsSpace(s[|s| - 1])
    ensures Trim(s) == s
  {
  }

  /** Trim is idempotent. */
  lemma TrimIdempotent(s: string)
    ensures Trim(Trim(s)) == Trim(s)
  {
    TrimLeavesNoSpaceAtEnds(s);
    TrimNoOp(Trim(s));
  }

  /** toLowerCase commutes with trimming at the start. */
  lemma {:induction false} LowerTrimStart(s: string)
    ensures ToLowerCase(TrimStart(s)) == TrimStart(ToLowerCase(s))
  {
    var l := ToLowerCase(s);
    if s != [] {
      CharLowerKeepsSpace(s[0]);
      assert l[0] == CharLower(s[0]);
      if IsJsSpace(s[0]) {
        assert ToLowerCase(s[1..]) == l[1..];
        LowerTrimStart(s[1..]);
      }
    }
  }

  /** toLowerCase commutes with trimming at the end. */
  lemma {:induction false} LowerTrimEnd(s: string)
    ensures ToLowerCase(TrimEnd(s)) == TrimEnd(ToLowerCase(s))
  {
    var l := ToLowerCase(s);
    if s != [] {
      CharLowerKeepsSpace(s[|s| - 1]);
      assert l[|l| - 1] == CharLower(s[|s| - 1]);
      if IsJsSpace(s[|s| - 1]) {
        assert ToLowerCase(s[..|s| - 1]) == l[..|l| - 1];
        LowerTrimEnd(s[..|s| - 1]);
      }
    }
  }

  /** toLowerCase commutes with trim. */
  lemma LowerTrim(s: string)
    ensures ToLowerCase(Trim(s)) == Trim(ToLowerCase(s))
  {
    LowerTrimStart(s);
    LowerTrimEnd(TrimStart(s));
  }

  /** toLowerCase is idempotent. */
  lemma LowerIdempotent(s: string)
    ensures ToLowerCase(ToLowerCase(s)) == ToLowerCase(s)
  {
  }

  /** toLowerCase distributes over concatenation. */
  lemma LowerConcat(a: string, b: string)
    ensures ToLowerCase(a + b) == ToLowerCase(a) + ToLowerCase(b)
  {
  }

  /** The characters JavaScript lower-cases to the ASCII letter x are X and x itself (Kelvin sign aside, 'k'). */
  lemma CharLowerInverse(c: char, x: char)
    requires 'a' <= x <= 'z' && x != 'k'
    ensures CharLower(c) == x <==> c == x || (c as int) == (x as int) - 32
  {
  }
}
