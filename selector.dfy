/**
 * Selector dispatch of v.JS: `VJS.__e` (find an element or a collection from
 * a selector string or object), `VJS.__o` (resolve an element argument, with
 * a default), and the entry points `$`, `$$`, `$c` and `$t` built on them.
 */
module Selector {
  import opened JsValues
  import opened DomModel

  // ---------------------------------------------------------------------------
  // Classification of a selector string
  // ---------------------------------------------------------------------------

  /** The syntactic forms `__e` distinguishes, with the original-case text each lookup uses. */
  datatype Form =
    | DocumentKeyword           // `document` or `#document`
    | WindowKeyword             // `window` or `#window`
    | IdForm(id: string)        // `#id`: getElementById on the text after `#`
    | ClassForm(className: string)  // `.class`: getElementsByClassName on the text after `.`
    | EqualsForm(tagName: string)   // `=name`: getElementsByTagName on the text after `=`, quotes included
    | TagForm(tagName: string)      // a tag-like token: getElementsByTagName
    | QueryForm(query: string)      // anything else: querySelector / querySelectorAll

  /** Which rule of `__e` matches a lower-cased, trimmed selector. */
  datatype Rule = DocumentRule | WindowRule | IdRule | ClassRule | EqualsRule | TagRule | QueryRule

  predicate IsLowerLetter(c: char) {
    'a' <= c <= 'z'
  }

  /** The regular-expression class `[\w\-]`. */
  predicate IsWordOrDash(c: char) {
    'a' <= c <= 'z' || 'A' <= c <= 'Z' || '0' <= c <= '9' || c == '_' || c == '-'
  }

  /** `[a-z][\w\-]+`: a letter followed by at least one word character or dash. */
  predicate IsIdent(x: string) {
    |x| >= 2 && IsLowerLetter(x[0]) && forall i :: 1 <= i < |x| ==> IsWordOrDash(x[i])
  }

  predicate IsQuote(c: char) {
    c == '"' || c == '\''
  }

  /** `["']?[a-z][\w\-]+["']?`: an identifier, optionally opened and closed by a quote. */
  predicate IsEqualsTail(x: string) {
    var a := if |x| > 0 && IsQuote(x[0]) then x[1..] else x;
    var b := if |a| > 0 && IsQuote(a[|a| - 1]) then a[..|a| - 1] else a;
    IsIdent(b)
  }

  /** `h[1-6]|[abipqsu]|[a-z]{2,}`. */
  predicate IsTagToken(x: string) {
    || (|x| == 2 && x[0] == 'h' && '1' <= x[1] <= '6')
    || (|x| == 1 && x[0] in "abipqsu")
    || (|x| >= 2 && forall i :: 0 <= i < |x| ==> IsLowerLetter(x[i]))
  }

  /** `^#?document$`. */
  predicate IsDocumentKeyword(l: string) {
    l == "document" || l == "#document"
  }

  /** `^#?window$`. */
  predicate IsWindowKeyword(l: string) {
    l == "window" || l == "#window"
  }

  /** The rules of `__e`, tried in order on the lower-cased selector. */
  function RuleOf(l: string): (r: Rule)
    ensures r == IdRule || r == ClassRule || r == EqualsRule ==> |l| >= 3
  {
    if IsDocumentKeyword(l) then DocumentRule
    else if IsWindowKeyword(l) then WindowRule
    else if |l| > 0 && l[0] == '#' && IsIdent(l[1..]) then IdRule
    else if |l| > 0 && l[0] == '.' && IsIdent(l[1..]) then ClassRule
    else if |l| > 0 && l[0] == '=' && IsEqualsTail(l[1..]) then EqualsRule
    else if IsTagToken(l) then TagRule
    else QueryRule
  }

  /**
   * The string branch of `__e`: trim, classify a lower-cased copy, and keep
   * the original-case trimmed text for the lookup.
   */
  function Classify(raw: string): Form {
    var s := Trim(raw);
    var l := ToLowerCase(s);
    match RuleOf(l)
    case DocumentRule => DocumentKeyword
    case WindowRule => WindowKeyword
    case IdRule => IdForm(s[1..])
    case ClassRule => ClassForm(s[1..])
    case EqualsRule => EqualsForm(s[1..])
    case TagRule => TagForm(s)
    case QueryRule => QueryForm(s)
  }

  // ---------------------------------------------------------------------------
  // __e and __o
  // ---------------------------------------------------------------------------

  /** The collection lookups that run against a resolved context. */
  datatype Lookup = ClassLookup(className: string) | TagLookup(tagName: string) | QueryLookup(query: string)

  /** The scope a resolved context stands for; window and everything else have no lookup methods. */
  function ScopeOf(v: JsValue): Option<Scope> {
    match v
    case DocumentObj => Some(WholeDocument)
    case ElementObj(n) => Some(Subtree(n))
    case _ => None
  }

  /** getElementById's result as a JavaScript value. */
  function NodeOrNull(n: Option<NodeId>): JsValue {
    match n
    case None => Null
    case Some(x) => ElementObj(x)
  }

  /** `item(0)` of a collection: its first element, or null. */
  function First(xs: seq<NodeId>): JsValue {
    if xs == [] then Null else ElementObj(xs[0])
  }

  /** Runs a lookup on a resolved context: the whole collection when `all`, else its first item. */
  function RunLookup(dom: Dom, target: JsValue, k: Lookup, all: bool): Outcome<JsValue> {
    match ScopeOf(target)
    case None => Throw(TypeError)
    case Some(sc) =>
      match k
      case ClassLookup(c) =>
        var xs := ByClassName(dom, sc, c);
        Ok(if all then Collection(true, xs) else First(xs))
      case TagLookup(t) =>
        var xs := ByTagName(dom, sc, t);
        Ok(if all then Collection(true, xs) else First(xs))
      case QueryLookup(q) =>
        match Query(dom, sc, q)
        case None => Throw(SyntaxError)
        case Some(xs) => Ok(if all then Collection(false, xs) else First(xs))
  }

  /** Only strings lead `__e` to resolve a context; this rank bounds the mutual recursion. */
  function Rank(v: JsValue): nat {
    if v.Str? then 1 else 0
  }

  /** A single result: document, window, an element or null. */
  predicate IsSingle(v: JsValue) {
    v == DocumentObj || v == WindowObj || v == Null || v.ElementObj?
  }

  /**
   * `VJS.__e(s, e, a)`: `s` is the selector (string or object), `ctx` the context
   * it is looked up in (`e`, null by default) and `all` the flag `a`.
   */
  function FindElement(dom: Dom, s: JsValue, ctx: JsValue, all: bool): (r: Outcome<JsValue>)
    ensures r.Ok? ==> IsSingle(r.value) || (all && r.value.Collection?)
    decreases Rank(ctx), Rank(s), 1
  {
    match s
    case Str(raw) =>
      (match Classify(raw)
       case DocumentKeyword => Ok(DocumentObj)
       case WindowKeyword => Ok(WindowObj)
       case IdForm(i) => Ok(NodeOrNull(GetElementById(dom, i)))
       case ClassForm(c) => InContext(dom, ctx, ClassLookup(c), all)
       case EqualsForm(t) => InContext(dom, ctx, TagLookup(t), all)
       case TagForm(t) => InContext(dom, ctx, TagLookup(t), all)
       case QueryForm(q) => InContext(dom, ctx, QueryLookup(q), all))
    case WindowObj => if IsFalsy(ctx) && !all then Ok(DocumentObj) else Ok(WindowObj)
    case DocumentObj => Ok(DocumentObj)
    case ElementObj(n) => Ok(ElementObj(n))
    case _ => Ok(DocumentObj)
  }

  /** `VJS.__$c/__$t/__$q(VJS.__o(e, d), ...)`: resolve the context (default: document), then look up. */
  function InContext(dom: Dom, ctx: JsValue, k: Lookup, all: bool): (r: Outcome<JsValue>)
    ensures r.Ok? ==> IsSingle(r.value) || (all && r.value.Collection?)
    decreases Rank(ctx), 1, 0
  {
    match ResolveObject(dom, ctx, DocumentObj)
    case Throw(x) => Throw(x)
    case Ok(target) => RunLookup(dom, target, k, all)
  }

  /** `#` is put in front of a string that does not start with it. */
  function HashPrefixed(s: string): string {
    if |s| > 0 && s[0] == '#' then s else "#" + s
  }

  /**
   * `VJS.__o(e, d)`: a string is read as an element ID (a `#` is added when
   * missing) and found with `__e`; a null result is replaced by `d`.
   */
  function ResolveObject(dom: Dom, e: JsValue, d: JsValue): (r: Outcome<JsValue>)
    ensures r.Ok? ==> r.value == DocumentObj || r.value == WindowObj || r.value.ElementObj? || r.value == d
    ensures !e.Str? ==> r == Ok(if e.ElementObj? then e else DocumentObj)
    decreases 0, Rank(e), 2
  {
    var found := match e
      case Str(s) => FindElement(dom, Str(HashPrefixed(s)), Null, false)
      case _ => FindElement(dom, e, Null, false);
    match found
    case Throw(x) => Throw(x)
    case Ok(v) => Ok(if v == Null || v == Undefined then d else v)
  }

  // ---------------------------------------------------------------------------
  // Entry points
  // ---------------------------------------------------------------------------

  /** `$(i)` (alias getElemById): `#` is prepended unless present, then `__e(i)`. */
  function GetElemById(dom: Dom, i: string): Outcome<JsValue> {
    FindElement(dom, Str(HashPrefixed(i)), Null, false)
  }

  /** `$$(s)`: `__e(s, document, true)`. */
  function SelectAll(dom: Dom, s: JsValue): Outcome<JsValue> {
    FindElement(dom, s, DocumentObj, true)
  }

  /** `$c(c, e, f)` (alias getElemsByClassNm): `.` is prepended unless present, then `__e(c, e, !f)`. */
  function GetElemsByClassNm(dom: Dom, c: string, e: JsValue, firstElement: bool): Outcome<JsValue> {
    FindElement(dom, Str(if |c| > 0 && c[0] == '.' then c else "." + c), e, !firstElement)
  }

  /** `$t(t, e, f)` (alias getElemsByTagNm): `__e(t, e, !f)`. */
  function GetElemsByTagNm(dom: Dom, t: string, e: JsValue, firstElement: bool): Outcome<JsValue> {
    FindElement(dom, Str(t), e, !firstElement)
  }

  // ---------------------------------------------------------------------------
  // Classification: precedence, trimming, case, and the text the lookups use
  // ---------------------------------------------------------------------------

  /** The selector text a form stands for (keywords in their lower-case spelling). */
  function Render(f: Form): string {
    match f
    case DocumentKeyword => "document"
    case WindowKeyword => "window"
    case IdForm(i) => "#" + i
    case ClassForm(c) => "." + c
    case EqualsForm(t) => "=" + t
    case TagForm(t) => t
    case QueryForm(q) => q
  }

  /** The payloads each rule admits, with the earlier rules given precedence. */
  predicate WellFormed(f: Form) {
    match f
    case DocumentKeyword => true
    case WindowKeyword => true
    case IdForm(i) => IsIdent(ToLowerCase(i)) && ToLowerCase(i) != "document" && ToLowerCase(i) != "window"
    case ClassForm(c) => IsIdent(ToLowerCase(c))
    case EqualsForm(t) => IsEqualsTail(ToLowerCase(t))
    case TagForm(t) =>
      IsTagToken(ToLowerCase(t)) && !IsDocumentKeyword(ToLowerCase(t)) && !IsWindowKeyword(ToLowerCase(t))
    case QueryForm(q) => Trim(q) == q && RuleOf(ToLowerCase(q)) == QueryRule
  }

  /** The rule a form comes from. */
  function RuleOfForm(f: Form): Rule {
    match f
    case DocumentKeyword => DocumentRule
    case WindowKeyword => WindowRule
    case IdForm(_) => IdRule
    case ClassForm(_) => ClassRule
    case EqualsForm(_) => EqualsRule
    case TagForm(_) => TagRule
    case QueryForm(_) => QueryRule
  }

  /** A string whose first character is not white space keeps it through trim. */
  lemma TrimKeepsFirst(s: string)
    requires s != [] && !IsJsSpace(s[0])
    ensures Trim(s) != [] && Trim(s)[0] == s[0]
  {
    assert TrimStart(s) == s;
    TrimEndDropsTrailingSpace(s);
    assert |TrimEnd(s)| > 0;
  }

  /** toLowerCase of a string after its first character. */
  lemma LowerTail(s: string)
    requires s != []
    ensures ToLowerCase(s)[1..] == ToLowerCase(s[1..])
    ensures ToLowerCase(s) == [CharLower(s[0])] + ToLowerCase(s[1..])
  {
  }

  /** A string whose lower case is a non-empty run of word characters, quotes or `#.=` has no white space at its ends. */
  lemma NoSpaceAtEnds(s: string)
    requires s != []
    requires !IsJsSpace(CharLower(s[0])) && !IsJsSpace(CharLower(s[|s| - 1]))
    ensures Trim(s) == s
  {
    CharLowerKeepsSpace(s[0]);
    CharLowerKeepsSpace(s[|s| - 1]);
    TrimNoOp(s);
  }

  /** Classify trims first: leading and trailing white space never matters. */
  lemma ClassifyIgnoresSurroundingSpace(raw: string)
    ensures Classify(Trim(raw)) == Classify(raw)
  {
    TrimIdempotent(raw);
  }

  /** The rule is chosen on the lower-cased selector: lower-casing the selector never changes it. */
  lemma ClassifyCaseInsensitive(raw: string)
    ensures RuleOfForm(Classify(ToLowerCase(raw))) == RuleOfForm(Classify(raw))
    ensures RuleOfForm(Classify(raw)) == RuleOf(ToLowerCase(Trim(raw)))
  {
    LowerTrim(raw);
    LowerIdempotent(Trim(raw));
  }

  /**
   * Every selector is classified into a well-formed form whose rendering is the
   * trimmed selector itself: the lookups get the original-case text after the
   * sigil (`#`, `.`, `=`), quotes of the `=` form included.
   */
  lemma ClassifyWellFormed(raw: string)
    ensures WellFormed(Classify(raw))
    ensures !Classify(raw).DocumentKeyword? && !Classify(raw).WindowKeyword? ==> Render(Classify(raw)) == Trim(raw)
    ensures Classify(raw).DocumentKeyword? <==> IsDocumentKeyword(ToLowerCase(Trim(raw)))
    ensures Classify(raw).WindowKeyword? <==> !IsDocumentKeyword(ToLowerCase(Trim(raw))) && IsWindowKeyword(ToLowerCase(Trim(raw)))
  {
    var s := Trim(raw);
    var l := ToLowerCase(s);
    match RuleOf(l)
    case DocumentRule =>
    case WindowRule =>
    case IdRule => SigilWellFormed(raw);
    case ClassRule => SigilWellFormed(raw);
    case EqualsRule => SigilWellFormed(raw);
    case TagRule =>
    case QueryRule =>
      TrimIdempotent(raw);
  }

  /** The `#`, `.` and `=` rules keep the text after the sigil, whose lower case the rule checked. */
  lemma SigilWellFormed(raw: string)
    requires var r := RuleOf(ToLowerCase(Trim(raw))); r == IdRule || r == ClassRule || r == EqualsRule
    ensures WellFormed(Classify(raw)) && Render(Classify(raw)) == Trim(raw)
  {
    var s := Trim(raw);
    var l := ToLowerCase(s);
    SigilParts(s);
    assert ToLowerCase(s[1..]) == l[1..];
    match RuleOf(l)
    case IdRule =>
      IdTailNotKeyword(l);
      assert s[0] == '#' && IsIdent(l[1..]);
      assert Classify(raw) == IdForm(s[1..]);
      assert Render(IdForm(s[1..])) == [s[0]] + s[1..];
    case ClassRule =>
      assert s[0] == '.' && IsIdent(l[1..]);
      assert Classify(raw) == ClassForm(s[1..]);
      assert Render(ClassForm(s[1..])) == [s[0]] + s[1..];
    case EqualsRule =>
      assert s[0] == '=' && IsEqualsTail(l[1..]);
      assert Classify(raw) == EqualsForm(s[1..]);
      assert Render(EqualsForm(s[1..])) == [s[0]] + s[1..];
  }

  /** What follows the `#` of an ID selector is not a keyword: `#document` and `#window` are caught first. */
  lemma IdTailNotKeyword(l: string)
    requires RuleOf(l) == IdRule
    ensures l[1..] != "document" && l[1..] != "window"
  {
    assert l == [l[0]] + l[1..];
    assert l[0] == '#';
  }

  /** A text a sigil rule accepts: its first character is the sigil itself and the rest is checked in lower case. */
  lemma SigilParts(s: string)
    requires var r := RuleOf(ToLowerCase(s)); r == IdRule || r == ClassRule || r == EqualsRule
    ensures s != [] && s[0] == ToLowerCase(s)[0] && ToLowerCase(s[1..]) == ToLowerCase(s)[1..]
    ensures [s[0]] + s[1..] == s
  {
    LowerTail(s);
  }

  /** Rendering a well-formed form and classifying the text gives the form back. */
  lemma RenderRoundTrip(f: Form)
    requires WellFormed(f)
    ensures Classify(Render(f)) == f
  {
    match f
    case DocumentKeyword => KeywordRoundTrip();
    case WindowKeyword => KeywordRoundTrip();
    case IdForm(i) => IdRoundTrip(i);
    case ClassForm(c) => ClassRoundTrip(c);
    case EqualsForm(t) => EqualsRoundTrip(t);
    case TagForm(t) => TagRoundTrip(t);
    case QueryForm(q) =>
  }

  lemma IdRoundTrip(i: string)
    requires WellFormed(IdForm(i))
    ensures Classify("#" + i) == IdForm(i)
  {
    var s := "#" + i;
    var li := ToLowerCase(i);
    assert s[1..] == i;
    assert Trim(s) == s by {
      assert s[|s| - 1] == i[|i| - 1] && CharLower(i[|i| - 1]) == li[|li| - 1];
      NoSpaceAtEnds(s);
    }
    assert ToLowerCase(s) == "#" + li by {
      LowerTail(s);
    }
    assert ToLowerCase(s)[1..] == li;
    SigilRule(ToLowerCase(s));
  }

  lemma ClassRoundTrip(c: string)
    requires WellFormed(ClassForm(c))
    ensures Classify("." + c) == ClassForm(c)
  {
    var s := "." + c;
    var lc := ToLowerCase(c);
    assert s[1..] == c;
    assert Trim(s) == s by {
      assert s[|s| - 1] == c[|c| - 1] && CharLower(c[|c| - 1]) == lc[|lc| - 1];
      NoSpaceAtEnds(s);
    }
    assert ToLowerCase(s) == "." + lc by {
      LowerTail(s);
    }
    assert ToLowerCase(s)[1..] == lc;
    SigilRule(ToLowerCase(s));
  }

  lemma EqualsRoundTrip(t: string)
    requires WellFormed(EqualsForm(t))
    ensures Classify("=" + t) == EqualsForm(t)
  {
    var s := "=" + t;
    var lt := ToLowerCase(t);
    assert s[1..] == t;
    assert Trim(s) == s by {
      EqualsTailEnds(lt);
      assert s[|s| - 1] == t[|t| - 1] && CharLower(t[|t| - 1]) == lt[|lt| - 1];
      NoSpaceAtEnds(s);
    }
    var l := ToLowerCase(s);
    assert l == "=" + lt by {
      LowerTail(s);
    }
    assert l[0] == '=' && l[1..] == lt;
    SigilRule(l);
  }

  /** The rule of a lower-cased selector that starts with a sigil and has a well-formed rest. */
  lemma SigilRule(l: string)
    requires |l| > 0
    ensures l[0] == '#' && IsIdent(l[1..]) && !IsDocumentKeyword(l) && !IsWindowKeyword(l) ==> RuleOf(l) == IdRule
    ensures l[0] == '.' && IsIdent(l[1..]) ==> RuleOf(l) == ClassRule
    ensures l[0] == '=' && IsEqualsTail(l[1..]) ==> RuleOf(l) == EqualsRule
  {
  }

  lemma TagRoundTrip(t: string)
    requires WellFormed(TagForm(t))
    ensures Classify(t) == TagForm(t)
  {
    var lt := ToLowerCase(t);
    assert Trim(t) == t by {
      TagTokenEnds(lt);
      assert CharLower(t[0]) == lt[0] && CharLower(t[|t| - 1]) == lt[|lt| - 1];
      NoSpaceAtEnds(t);
    }
    TagRuleOf(lt);
  }

  /** A tag token is non-empty and starts and ends with a letter or digit. */
  lemma TagTokenEnds(x: string)
    requires IsTagToken(x)
    ensures x != [] && !IsJsSpace(x[0]) && !IsJsSpace(x[|x| - 1])
  {
    if |x| >= 2 && forall i :: 0 <= i < |x| ==> IsLowerLetter(x[i]) {
      assert IsLowerLetter(x[|x| - 1]);
    }
  }

  /** A tag token that is not a keyword falls under the tag rule. */
  lemma TagRuleOf(l: string)
    requires IsTagToken(l) && !IsDocumentKeyword(l) && !IsWindowKeyword(l)
    ensures RuleOf(l) == TagRule
  {
    assert IsLowerLetter(l[0]);
  }

  /** The keywords in their lower-case spelling classify as themselves. */
  lemma KeywordRoundTrip()
    ensures Classify("document") == DocumentKeyword
    ensures Classify("window") == WindowKeyword
  {
    TrimNoOp("document");
    TrimNoOp("window");
    assert ToLowerCase("document") == "document";
    assert ToLowerCase("window") == "window";
  }

  /** The text an `=` rule accepts is non-empty and ends, at both sides, in a quote or a word character. */
  lemma EqualsTailEnds(x: string)
    requires IsEqualsTail(x)
    ensures x != [] && !IsJsSpace(x[0]) && !IsJsSpace(x[|x| - 1])
  {
    var a := if |x| > 0 && IsQuote(x[0]) then x[1..] else x;
    var b := if |a| > 0 && IsQuote(a[|a| - 1]) then a[..|a| - 1] else a;
    assert IsIdent(b);
    assert IsWordOrDash(b[|b| - 1]);
  }

  /**
   * A selector beginning with `#` is the document, the window, an ID, or a
   * query: never a class, `=` or tag lookup.
   */
  lemma HashSelectorForms(s: string)
    requires s != [] && s[0] == '#'
    ensures var f := Classify(s); f.DocumentKeyword? || f.WindowKeyword? || f.IdForm? || f.QueryForm?
  {
    TrimKeepsFirst(s);
    var t := Trim(s);
    LowerTail(t);
  }

  /** Concrete consequences of the rule order. */
  lemma RuleOrderExamples()
    ensures Classify("#window") == WindowKeyword
    ensures Classify(" #Document ") == DocumentKeyword
    ensures Classify("#Main") == IdForm("Main")
    ensures Classify("#a") == QueryForm("#a")
    ensures Classify(".Btn") == ClassForm("Btn")
    ensures Classify("=\"div\"") == EqualsForm("\"div\"")
    ensures Classify("b") == TagForm("b")
    ensures Classify("H2") == TagForm("H2")
    ensures Classify("h7") == QueryForm("h7")
    ensures Classify("c") == QueryForm("c")
  {
    WindowExample();
    TrimDocumentExample();
    IdExample();
    ClassExample();
    EqualsExample();
    TagExamples();
    QueryExamples();
  }

  lemma WindowExample()
    ensures Classify("#window") == WindowKeyword
  {
    TrimNoOp("#window");
    assert ToLowerCase("#window") == "#window";
  }

  lemma IdExample()
    ensures Classify("#Main") == IdForm("Main")
  {
    assert ToLowerCase("Main") == "main";
    IdRoundTrip("Main");
    assert "#" + "Main" == "#Main";
  }

  lemma ClassExample()
    ensures Classify(".Btn") == ClassForm("Btn")
  {
    assert ToLowerCase("Btn") == "btn";
    ClassRoundTrip("Btn");
    assert "." + "Btn" == ".Btn";
  }

  lemma EqualsExample()
    ensures Classify("=\"div\"") == EqualsForm("\"div\"")
  {
    var t := "\"div\"";
    var a := t[1..];
    assert IsQuote(t[0]) && a == "div\"";
    assert IsQuote(a[|a| - 1]) && a[..|a| - 1] == "div";
    assert IsIdent("div");
    assert ToLowerCase(t) == t;
    EqualsRoundTrip(t);
    assert "=" + t == "=\"div\"";
  }

  lemma TagExamples()
    ensures Classify("b") == TagForm("b")
    ensures Classify("H2") == TagForm("H2")
  {
    assert ToLowerCase("b") == "b";
    assert ToLowerCase("H2") == "h2";
    TagRoundTrip("b");
    TagRoundTrip("H2");
  }

  lemma QueryExamples()
    ensures Classify("#a") == QueryForm("#a")
    ensures Classify("h7") == QueryForm("h7")
    ensures Classify("c") == QueryForm("c")
  {
    assert ToLowerCase("#a") == "#a";
    assert ToLowerCase("h7") == "h7";
    assert ToLowerCase("c") == "c";
    TrimNoOp("#a");
    TrimNoOp("h7");
    TrimNoOp("c");
  }

  lemma TrimDocumentExample()
    ensures Classify(" #Document ") == DocumentKeyword
  {
    assert TrimStart(" #Document ") == "#Document ";
    assert TrimEnd("#Document ") == "#Document";
    assert ToLowerCase("#Document") == "#document";
  }

  // ---------------------------------------------------------------------------
  // Result shapes of __e
  // ---------------------------------------------------------------------------

  /** What `item(0)` makes of a lookup's outcome: a collection becomes its first element. */
  function FirstOf(r: Outcome<JsValue>): Outcome<JsValue> {
    match r
    case Ok(Collection(_, xs)) => Ok(First(xs))
    case _ => r
  }

  /**
   * For every string selector and context, the single-result form of `__e`
   * is the first item of the all-results form (or the same error, or the same
   * single node for the keyword and ID rules).
   */
  lemma SingleIsFirstOfAll(dom: Dom, raw: string, ctx: JsValue)
    ensures FindElement(dom, Str(raw), ctx, false) == FirstOf(FindElement(dom, Str(raw), ctx, true))
  {
    var f := Classify(raw);
    if f.ClassForm? {
      ContextRule(dom, raw, ctx, ClassLookup(f.className));
    } else if f.EqualsForm? || f.TagForm? {
      ContextRule(dom, raw, ctx, TagLookup(f.tagName));
    } else if f.QueryForm? {
      ContextRule(dom, raw, ctx, QueryLookup(f.query));
    }
  }

  /** The lookup a context rule runs. */
  predicate RunsLookup(f: Form, k: Lookup) {
    match f
    case ClassForm(c) => k == ClassLookup(c)
    case EqualsForm(t) => k == TagLookup(t)
    case TagForm(t) => k == TagLookup(t)
    case QueryForm(q) => k == QueryLookup(q)
    case _ => false
  }

  /** A selector whose rule runs lookup k in the context. */
  lemma ContextRule(dom: Dom, raw: string, ctx: JsValue, k: Lookup)
    requires RunsLookup(Classify(raw), k)
    ensures FindElement(dom, Str(raw), ctx, false) == FirstOf(FindElement(dom, Str(raw), ctx, true))
  {
    RuleIsContextLookup(dom, raw, ctx, false, k);
    RuleIsContextLookup(dom, raw, ctx, true, k);
    InContextFirstOf(dom, ctx, k);
  }

  /**
   * `__e` on a selector with a context rule. The context is resolved by
   * `__o(e, document)` and its error is rethrown; a context resolving to the
   * window has no lookup methods and throws a TypeError. Otherwise the class
   * rule is getElementsByClassName and the `=` and tag rules are
   * getElementsByTagName on the document or under the element, giving the
   * live collection or its `item(0)`; the query rule is querySelectorAll
   * there, a static collection or its first node, and an invalid query
   * throws a SyntaxError.
   */
  lemma RuleRunsLookup(dom: Dom, raw: string, ctx: JsValue, all: bool, k: Lookup)
    requires RunsLookup(Classify(raw), k)
    ensures var c := ResolveObject(dom, ctx, DocumentObj); var r := FindElement(dom, Str(raw), ctx, all);
      && (c.Throw? ==> r == Throw(c.error))
      && (c == Ok(WindowObj) ==> r == Throw(TypeError))
      && (c.Ok? && c.value != WindowObj ==>
            var sc := if c.value.ElementObj? then Subtree(c.value.id) else WholeDocument;
            && (k.ClassLookup? ==>
                  r == Ok(if all then Collection(true, ByClassName(dom, sc, k.className)) else First(ByClassName(dom, sc, k.className))))
            && (k.TagLookup? ==>
                  r == Ok(if all then Collection(true, ByTagName(dom, sc, k.tagName)) else First(ByTagName(dom, sc, k.tagName))))
            && (k.QueryLookup? && Query(dom, sc, k.query).None? ==> r == Throw(SyntaxError))
            && (k.QueryLookup? && Query(dom, sc, k.query).Some? ==>
                  var xs := Query(dom, sc, k.query).value;
                  r == Ok(if all then Collection(false, xs) else First(xs))))
  {
    RuleIsContextLookup(dom, raw, ctx, all, k);
  }

  /** `__e` on a selector with a context rule is that rule's lookup in the resolved context. */
  lemma RuleIsContextLookup(dom: Dom, raw: string, ctx: JsValue, all: bool, k: Lookup)
    requires RunsLookup(Classify(raw), k)
    ensures FindElement(dom, Str(raw), ctx, all) == InContext(dom, ctx, k, all)
  {
  }

  lemma InContextFirstOf(dom: Dom, ctx: JsValue, k: Lookup)
    ensures InContext(dom, ctx, k, false) == FirstOf(InContext(dom, ctx, k, true))
  {
  }

  /**
   * With `all` set, the class, `=` and tag rules yield live collections and
   * the query rule a static one.
   */
  lemma AllResultShape(dom: Dom, raw: string, ctx: JsValue)
    requires Classify(raw).ClassForm? || Classify(raw).EqualsForm? || Classify(raw).TagForm? || Classify(raw).QueryForm?
    ensures var r := FindElement(dom, Str(raw), ctx, true);
      r.Ok? ==> r.value.Collection? && (r.value.live <==> !Classify(raw).QueryForm?)
  {
    var k := match Classify(raw)
      case ClassForm(c) => ClassLookup(c)
      case EqualsForm(t) => TagLookup(t)
      case TagForm(t) => TagLookup(t)
      case QueryForm(q) => QueryLookup(q)
      case _ => QueryLookup("");
    RuleIsContextLookup(dom, raw, ctx, true, k);
    LookupShape(dom, ctx, k);
  }

  /** With `all` set a lookup gives a collection, live unless it comes from the selector engine. */
  lemma LookupShape(dom: Dom, ctx: JsValue, k: Lookup)
    ensures var r := InContext(dom, ctx, k, true);
      r.Ok? ==> r.value.Collection? && (r.value.live <==> !k.QueryLookup?)
  {
  }

  /** The ID rule ignores the context and the `all` flag and yields the first element with that ID, or null. */
  lemma IdIgnoresContext(dom: Dom, raw: string, ctx: JsValue, all: bool)
    requires Classify(raw).IdForm?
    ensures var r := FindElement(dom, Str(raw), ctx, all);
      && r == FindElement(dom, Str(raw), Null, false)
      && r.Ok?
      && (r.value == Null <==> forall n :: n in dom.order ==> IdOf(dom, n) != Some(Classify(raw).id))
      && (r.value.ElementObj? ==> r.value.id in dom.order && IdOf(dom, r.value.id) == Some(Classify(raw).id))
  {
  }

  /** The lookups run against the resolved context; a context resolving to the window has no lookup methods. */
  lemma LookupContext(dom: Dom, ctx: JsValue, k: Lookup, all: bool)
    ensures ResolveObject(dom, ctx, DocumentObj) == Ok(WindowObj) ==> InContext(dom, ctx, k, all) == Throw(TypeError)
    ensures ResolveObject(dom, ctx, DocumentObj) == Ok(DocumentObj) ==>
      InContext(dom, ctx, k, all) == RunLookup(dom, DocumentObj, k, all)
    ensures InContext(dom, WindowObj, k, all) == InContext(dom, DocumentObj, k, all)
    ensures InContext(dom, Null, k, all) == InContext(dom, DocumentObj, k, all)
  {
  }

  /** `__e` on an object: a window with no context and `all` unset gives the document; document and elements are kept; the rest gives the document. */
  lemma ObjectSelectors(dom: Dom, s: JsValue, ctx: JsValue, all: bool)
    requires !s.Str?
    ensures var r := FindElement(dom, s, ctx, all);
      && r.Ok?
      && (s == WindowObj ==> (r.value == DocumentObj <==> IsFalsy(ctx) && !all))
      && (s == WindowObj ==> (r.value == WindowObj <==> !(IsFalsy(ctx) && !all)))
      && (s == DocumentObj || s.ElementObj? ==> r.value == s)
      && (s != WindowObj && !s.ElementObj? ==> r.value == DocumentObj)
  {
  }

  // ---------------------------------------------------------------------------
  // __o
  // ---------------------------------------------------------------------------

  /**
   * `__o` on a string reads it as an ID: the keywords give the document or the
   * window, a well-formed ID gives that element or the default, and anything
   * else is a document-wide querySelector whose null result gives the default.
   */
  lemma ResolveString(dom: Dom, s: string, d: JsValue)
    ensures var f := Classify(HashPrefixed(s));
      && (f.DocumentKeyword? || f.WindowKeyword? || f.IdForm? || f.QueryForm?)
      && (f.DocumentKeyword? ==> ResolveObject(dom, Str(s), d) == Ok(DocumentObj))
      && (f.WindowKeyword? ==> ResolveObject(dom, Str(s), d) == Ok(WindowObj))
      && (f.IdForm? ==>
            ResolveObject(dom, Str(s), d) == Ok(match GetElementById(dom, f.id) case None => d case Some(n) => ElementObj(n)))
      && (f.QueryForm? ==>
            ResolveObject(dom, Str(s), d) == (match Query(dom, WholeDocument, f.query)
              case None => Throw(SyntaxError)
              case Some(xs) => Ok(if xs == [] then d else ElementObj(xs[0]))))
  {
    HashSelectorForms(HashPrefixed(s));
    var f := Classify(HashPrefixed(s));
    if f.IdForm? {
      ResolveId(dom, s, d, f.id);
    } else if f.QueryForm? {
      ResolveQuery(dom, s, d, f.query);
    }
  }

  lemma ResolveId(dom: Dom, s: string, d: JsValue, i: string)
    requires Classify(HashPrefixed(s)) == IdForm(i)
    ensures ResolveObject(dom, Str(s), d) == Ok(match GetElementById(dom, i) case None => d case Some(n) => ElementObj(n))
  {
    assert FindElement(dom, Str(HashPrefixed(s)), Null, false) == Ok(NodeOrNull(GetElementById(dom, i)));
  }

  lemma ResolveQuery(dom: Dom, s: string, d: JsValue, q: string)
    requires Classify(HashPrefixed(s)) == QueryForm(q)
    ensures ResolveObject(dom, Str(s), d) == (match Query(dom, WholeDocument, q)
              case None => Throw(SyntaxError)
              case Some(xs) => Ok(if xs == [] then d else ElementObj(xs[0])))
  {
    assert ResolveObject(dom, Null, DocumentObj) == Ok(DocumentObj);
    assert FindElement(dom, Str(HashPrefixed(s)), Null, false) == RunLookup(dom, DocumentObj, QueryLookup(q), false);
  }

  /** A reference `__o` hands to the selector engine: a string that is neither a keyword nor an ID. */
  predicate QueryReference(e: JsValue) {
    e.Str? && Classify(HashPrefixed(e.s)).QueryForm?
  }

  /**
   * Keyword, ID and object references depend only on tree order and IDs; a
   * query reference is answered by the selector engine on the current store,
   * which class and attribute changes can alter.
   */
  lemma ResolveStable(dom: Dom, dom': Dom, e: JsValue, d: JsValue)
    requires SameIdentities(dom, dom')
    ensures !QueryReference(e) ==> ResolveObject(dom', e, d) == ResolveObject(dom, e, d)
    ensures QueryReference(e) && dom'.elements == dom.elements ==> ResolveObject(dom', e, d) == ResolveObject(dom, e, d)
  {
    if e.Str? {
      ResolveString(dom, e.s, d);
      ResolveString(dom', e.s, d);
      var f := Classify(HashPrefixed(e.s));
      if f.IdForm? {
        GetElementByIdStable(dom, dom', f.id);
      }
    }
  }

  lemma GetElementByIdStable(dom: Dom, dom': Dom, i: string)
    requires SameIdentities(dom, dom')
    ensures GetElementById(dom', i) == GetElementById(dom, i)
  {
    FirstIdIndexStable(dom, dom', dom.order, i);
  }

  lemma {:induction false} FirstIdIndexStable(dom: Dom, dom': Dom, xs: seq<NodeId>, i: string)
    requires SameIdentities(dom, dom')
    ensures FirstIdIndex(dom', xs, i) == FirstIdIndex(dom, xs, i)
  {
    if xs != [] {
      assert IdOf(dom', xs[0]) == IdOf(dom, xs[0]);
      FirstIdIndexStable(dom, dom', xs[1..], i);
    }
  }

  // ---------------------------------------------------------------------------
  // Entry points
  // ---------------------------------------------------------------------------

  /** `$(i)` is `__o(i)` with a null default: one element, the document, the window or null. */
  lemma GetElemByIdIsResolve(dom: Dom, i: string)
    ensures GetElemById(dom, i) == ResolveObject(dom, Str(i), Null)
    ensures GetElemById(dom, i).Ok? ==> IsSingle(GetElemById(dom, i).value)
  {
  }

  /** `$$` looks up in the whole document and, for the collection rules, returns the whole collection. */
  lemma SelectAllInDocument(dom: Dom, raw: string)
    ensures Classify(raw).ClassForm? ==>
      SelectAll(dom, Str(raw)) == Ok(Collection(true, ByClassName(dom, WholeDocument, Classify(raw).className)))
    ensures Classify(raw).TagForm? ==>
      SelectAll(dom, Str(raw)) == Ok(Collection(true, ByTagName(dom, WholeDocument, Classify(raw).tagName)))
    ensures Classify(raw).EqualsForm? ==>
      SelectAll(dom, Str(raw)) == Ok(Collection(true, ByTagName(dom, WholeDocument, Classify(raw).tagName)))
    ensures Classify(raw).QueryForm? ==>
      SelectAll(dom, Str(raw)) == match Query(dom, WholeDocument, Classify(raw).query)
        case None => Throw(SyntaxError)
        case Some(xs) => Ok(Collection(false, xs))
  {
    assert ResolveObject(dom, DocumentObj, DocumentObj) == Ok(DocumentObj);
    match Classify(raw)
    case ClassForm(c) =>
      assert InContext(dom, DocumentObj, ClassLookup(c), true) == RunLookup(dom, DocumentObj, ClassLookup(c), true);
    case TagForm(t) =>
      assert InContext(dom, DocumentObj, TagLookup(t), true) == RunLookup(dom, DocumentObj, TagLookup(t), true);
    case EqualsForm(t) =>
      assert InContext(dom, DocumentObj, TagLookup(t), true) == RunLookup(dom, DocumentObj, TagLookup(t), true);
    case QueryForm(q) =>
      assert InContext(dom, DocumentObj, QueryLookup(q), true) == RunLookup(dom, DocumentObj, QueryLookup(q), true);
    case _ =>
  }

  /** `$c` on a class name (`.` optional) is a class lookup in the resolved context. */
  lemma GetElemsByClassNmLooksUpClass(dom: Dom, c: string, e: JsValue, firstElement: bool)
    requires IsIdent(ToLowerCase(c))
    ensures GetElemsByClassNm(dom, c, e, firstElement) == InContext(dom, e, ClassLookup(c), !firstElement)
    ensures GetElemsByClassNm(dom, "." + c, e, firstElement) == GetElemsByClassNm(dom, c, e, firstElement)
  {
    assert CharLower(c[0]) == ToLowerCase(c)[0];
    RenderRoundTrip(ClassForm(c));
  }

  /** `$t` on a tag token is a tag lookup in the resolved context. */
  lemma GetElemsByTagNmLooksUpTag(dom: Dom, t: string, e: JsValue, firstElement: bool)
    requires WellFormed(TagForm(t))
    ensures GetElemsByTagNm(dom, t, e, firstElement) == InContext(dom, e, TagLookup(t), !firstElement)
  {
    RenderRoundTrip(TagForm(t));
  }
}
