/**
 * The attribute helpers of v.JS (`$ha`, `$ga`, `$sa`, `$ra`), their
 * data-attribute forms (`$hda`, `$gda`, `$sda`, `$rda`) with the name builder
 * `VJS.__d`, and the class-list helper `VJS.__c`. Every helper first resolves
 * its element argument with `VJS.__o`; the mutators are given here as the
 * document they produce (the Vjs module applies them to its state).
 */
module Attributes {
  import opened JsValues
  import opened ClassTokens
  import opened DomModel
  import opened Selector

  // ---------------------------------------------------------------------------
  // __d
  // ---------------------------------------------------------------------------

  /** `VJS.__d(n, p)`: `''` for an empty name, `data-<p>-<n>` with a prefix, else `data-<n>`. */
  function DataAttrName(n: string, p: string): (r: string)
    ensures r == "" <==> n == ""
    ensures n != "" ==> |r| >= 5 + |n| && r[..5] == "data-" && r[|r| - |n|..] == n
    ensures n != "" && p == "" ==> r[5..] == n
    ensures n != "" && p != "" ==> |r| == 6 + |p| + |n| && r[5..5 + |p|] == p && r[5 + |p|] == '-' && r[6 + |p|..] == n
  {
    if n == "" then ""
    else if p != "" then "data-" + p + "-" + n
    else "data-" + n
  }

  /** Without a prefix, different names give different attribute names. */
  lemma DataAttrNameInjective(n: string, n': string, p: string)
    requires n != "" && n' != ""
    requires DataAttrName(n, p) == DataAttrName(n', p)
    ensures n == n'
  {
    var r := DataAttrName(n, p);
    if p == "" {
      assert n == r[5..] == n';
    } else {
      assert n == r[6 + |p|..] == n';
    }
  }

  /** A prefix can be confused with part of a name: `(b, a)` and `(a-b, '')` give the same attribute. */
  lemma DataAttrNamePrefixAmbiguous()
    ensures DataAttrName("b", "a") == DataAttrName("a-b", "") == "data-a-b"
  {
  }

  // ---------------------------------------------------------------------------
  // Platform checks the helpers run into
  // ---------------------------------------------------------------------------

  /** The DOM Standard's valid attribute local name, which Element.setAttribute demands. */
  predicate ValidAttributeName(n: string) {
    n != [] && forall i :: 0 <= i < |n| ==> !IsAsciiWhitespace(n[i]) && n[i] !in "\U{0}/=>"
  }

  /**
   * DOMTokenList.add/remove check each token in turn: empty is a SyntaxError,
   * white space an InvalidCharacterError; the first bad token decides.
   */
  function TokenError(tokens: seq<string>): (r: Option<JsError>)
    ensures r == None <==> forall t :: t in tokens ==> IsToken(t)
    ensures r.Some? ==> r.value == SyntaxError || r.value == InvalidCharacterError
    ensures forall j :: 0 <= j < |tokens| && !IsToken(tokens[j]) && (forall j' :: 0 <= j' < j ==> IsToken(tokens[j'])) ==>
      r == Some(if tokens[j] == "" then SyntaxError else InvalidCharacterError)
  {
    if tokens == [] then None
    else if tokens[0] == "" then assert tokens[0] in tokens; Some(SyntaxError)
    else if exists i :: 0 <= i < |tokens[0]| && IsAsciiWhitespace(tokens[0][i]) then assert tokens[0] in tokens; Some(InvalidCharacterError)
    else
      assert forall t :: t in tokens <==> t == tokens[0] || t in tokens[1..];
      assert forall j :: 0 < j < |tokens| ==> tokens[1..][j - 1] == tokens[j];
      TokenError(tokens[1..])
  }

  // ---------------------------------------------------------------------------
  // $ha and $ga
  // ---------------------------------------------------------------------------

  /**
   * `$ha(e, n)`: false when `e` resolves to null; otherwise hasAttributes()
   * for an empty name and hasAttribute(n) else. The document and the window
   * have neither method.
   */
  function HasAttrib(dom: Dom, e: JsValue, n: string): (r: Outcome<bool>)
    ensures ResolveObject(dom, e, Null) == Ok(Null) ==> r == Ok(false)
    ensures ResolveObject(dom, e, Null).Throw? ==> r == Throw(ResolveObject(dom, e, Null).error)
    ensures ResolveObject(dom, e, Null) == Ok(DocumentObj) || ResolveObject(dom, e, Null) == Ok(WindowObj) ==> r == Throw(TypeError)
    ensures ResolveObject(dom, e, Null).Ok? && ResolveObject(dom, e, Null).value.ElementObj? ==>
      var k := ResolveObject(dom, e, Null).value.id;
      r == Ok(if n == "" then ElementAt(dom, k).attrs != map[] else AsciiLower(n) in ElementAt(dom, k).attrs)
  {
    match ResolveObject(dom, e, Null)
    case Throw(x) => Throw(x)
    case Ok(v) =>
      if v == Null then Ok(false)
      else if v.ElementObj? then Ok(if n == "" then HasAttributes(dom, v.id) else HasAttribute(dom, v.id, n))
      else Throw(TypeError)
  }

  /**
   * `$ga(e, n)`: `''` when `e` resolves to null or `$ha` says no; otherwise
   * getAttribute(n), which is null for the empty name.
   */
  function GetAttrib(dom: Dom, e: JsValue, n: string): (r: Outcome<JsValue>)
    ensures ResolveObject(dom, e, Null) == Ok(Null) ==> r == Ok(Str(""))
    ensures !ResolveObject(dom, e, Null).Ok? || ResolveObject(dom, e, Null).value in {DocumentObj, WindowObj} ==> r.Throw?
    ensures r.Ok? ==> r.value.Str? || r.value == Null
  {
    match ResolveObject(dom, e, Null)
    case Throw(x) => Throw(x)
    case Ok(v) =>
      if v == Null then Ok(Str(""))
      else if v.ElementObj? then
        match HasAttrib(dom, v, n)
        case Throw(x) => Throw(x)
        case Ok(has) =>
          if !has then Ok(Str(""))
          else
            match ReadAttribute(dom, v.id, n)
            case None => Ok(Null)
            case Some(a) => Ok(Str(a))
      else Throw(TypeError)
  }

  /** `$ga` reads the stored value of a present attribute, and `''` for an absent one. */
  lemma GetAttribReadsStore(dom: Dom, k: NodeId, n: string)
    requires n != ""
    ensures GetAttrib(dom, ElementObj(k), n) ==
      Ok(Str(if AsciiLower(n) in ElementAt(dom, k).attrs then ElementAt(dom, k).attrs[AsciiLower(n)] else ""))
  {
  }

  /** `$ga` with an empty name: `''` on an element without attributes, null on one with attributes. */
  lemma GetAttribEmptyName(dom: Dom, k: NodeId)
    requires "" !in ElementAt(dom, k).attrs
    ensures GetAttrib(dom, ElementObj(k), "") == Ok(if HasAttributes(dom, k) then Null else Str(""))
  {
    assert AsciiLower("") == "";
  }

  // ---------------------------------------------------------------------------
  // $sa and $ra
  // ---------------------------------------------------------------------------

  /** The value argument of `$sa`: a boolean, or any other value as the text setAttribute converts it to. */
  datatype AttrInput = FlagInput(flag: bool) | TextInput(text: string)

  /** What `$sa` stores: a boolean stores the attribute's own name. */
  function StoredText(n: string, v: AttrInput): string {
    match v
    case FlagInput(_) => n
    case TextInput(t) => t
  }

  /**
   * `$sa(e, n, v)`: nothing when `e` resolves to null; otherwise
   * setAttribute(n, v), or setAttribute(n, n) for a boolean `v`.
   */
  function SetAttribEffect(dom: Dom, e: JsValue, n: string, v: AttrInput): (r: Outcome<Dom>)
    ensures ResolveObject(dom, e, Null) == Ok(Null) ==> r == Ok(dom)
    ensures !ResolveObject(dom, e, Null).Ok? || ResolveObject(dom, e, Null).value in {DocumentObj, WindowObj} ==> r.Throw?
    ensures ResolveObject(dom, e, Null).Ok? && ResolveObject(dom, e, Null).value.ElementObj? ==>
      (r.Throw? <==> !ValidAttributeName(n)) && (r.Throw? ==> r.error == InvalidCharacterError)
    ensures ResolveObject(dom, e, Null).Ok? && ResolveObject(dom, e, Null).value.ElementObj? && r.Ok? ==>
      var k := ResolveObject(dom, e, Null).value.id;
      && ReadAttribute(r.value, k, n) == Some(StoredText(n, v))
      && ClassesOf(r.value, k) == (if AsciiLower(n) == "class" then ParseTokens(StoredText(n, v)) else ClassesOf(dom, k))
  {
    match ResolveObject(dom, e, Null)
    case Throw(x) => Throw(x)
    case Ok(t) =>
      if t == Null then Ok(dom)
      else if !t.ElementObj? then Throw(TypeError)
      else if !ValidAttributeName(n) then Throw(InvalidCharacterError)
      else Ok(WriteAttribute(dom, t.id, n, StoredText(n, v)))
  }

  /** `$ra(e, n)`: removeAttribute(n) on the resolved element, nothing when it is null. */
  function RemAttribEffect(dom: Dom, e: JsValue, n: string): (r: Outcome<Dom>)
    ensures ResolveObject(dom, e, Null) == Ok(Null) ==> r == Ok(dom)
    ensures !ResolveObject(dom, e, Null).Ok? || ResolveObject(dom, e, Null).value in {DocumentObj, WindowObj} ==> r.Throw?
    ensures ResolveObject(dom, e, Null).Ok? && ResolveObject(dom, e, Null).value.ElementObj? ==>
      var k := ResolveObject(dom, e, Null).value.id;
      && r.Ok?
      && ReadAttribute(r.value, k, n) == None
      && ClassesOf(r.value, k) == (if AsciiLower(n) == "class" then [] else ClassesOf(dom, k))
  {
    match ResolveObject(dom, e, Null)
    case Throw(x) => Throw(x)
    case Ok(t) =>
      if t == Null then Ok(dom)
      else if !t.ElementObj? then Throw(TypeError)
      else Ok(DropAttribute(dom, t.id, n))
  }

  /** A boolean value, true or false, stores the attribute's own name. */
  lemma FlagStoresOwnName(dom: Dom, e: JsValue, n: string, b: bool)
    ensures SetAttribEffect(dom, e, n, FlagInput(b)) == SetAttribEffect(dom, e, n, TextInput(n))
  {
  }

  /** `$sa` on an element, then `$ha`/`$ga` with the same name: present, with the stored value. */
  lemma SetThenGet(dom: Dom, k: NodeId, n: string, v: AttrInput)
    requires SetAttribEffect(dom, ElementObj(k), n, v).Ok?
    ensures var dom' := SetAttribEffect(dom, ElementObj(k), n, v).value;
      && HasAttrib(dom', ElementObj(k), n) == Ok(true)
      && GetAttrib(dom', ElementObj(k), n) == Ok(Str(StoredText(n, v)))
      && HasAttrib(dom', ElementObj(k), "") == Ok(true)
  {
  }

  /** `$ra` on an element, then `$ha`/`$ga` with the same name: absent, and `''`. */
  lemma RemoveThenGet(dom: Dom, k: NodeId, n: string)
    requires n != ""
    ensures RemAttribEffect(dom, ElementObj(k), n).Ok?
    ensures var dom' := RemAttribEffect(dom, ElementObj(k), n).value;
      && HasAttrib(dom', ElementObj(k), n) == Ok(false)
      && GetAttrib(dom', ElementObj(k), n) == Ok(Str(""))
  {
  }

  /**
   * `$sa` and `$ra` touch one attribute of one element: every other element,
   * that element's tag and its other attributes (compared by their lower-case
   * names) stay as they were, and so does its class list unless the
   * attribute is `class` itself.
   */
  lemma AttributeUpdatesAreLocal(dom: Dom, e: JsValue, n: string, v: AttrInput, k: NodeId, m: NodeId, a: string)
    requires ResolveObject(dom, e, Null) == Ok(ElementObj(k))
    ensures SetAttribEffect(dom, e, n, v).Ok? ==>
      var dom' := SetAttribEffect(dom, e, n, v).value;
      && dom'.order == dom.order && dom'.query == dom.query && dom'.formEntries == dom.formEntries
      && (m != k ==> ElementAt(dom', m) == ElementAt(dom, m))
      && ElementAt(dom', k).tag == ElementAt(dom, k).tag
      && (AsciiLower(n) != "class" ==> ClassesOf(dom', k) == ClassesOf(dom, k))
      && (a != AsciiLower(n) ==> (a in ElementAt(dom', k).attrs <==> a in ElementAt(dom, k).attrs))
      && (a != AsciiLower(n) && a in ElementAt(dom, k).attrs ==> ElementAt(dom', k).attrs[a] == ElementAt(dom, k).attrs[a])
    ensures
      var dom' := RemAttribEffect(dom, e, n).value;
      && dom'.order == dom.order && dom'.query == dom.query && dom'.formEntries == dom.formEntries
      && (m != k ==> ElementAt(dom', m) == ElementAt(dom, m))
      && ElementAt(dom', k).tag == ElementAt(dom, k).tag
      && (AsciiLower(n) != "class" ==> ClassesOf(dom', k) == ClassesOf(dom, k))
      && (a != AsciiLower(n) ==> (a in ElementAt(dom', k).attrs <==> a in ElementAt(dom, k).attrs))
      && (a != AsciiLower(n) && a in ElementAt(dom, k).attrs ==> ElementAt(dom', k).attrs[a] == ElementAt(dom, k).attrs[a])
  {
  }

  /**
   * Unless the attribute is `id`, `$sa` and `$ra` keep every keyword, ID and
   * object reference resolving as before (query references go to the
   * selector engine, which sees the change).
   */
  lemma AttributeUpdatesKeepResolution(dom: Dom, e: JsValue, n: string, v: AttrInput, x: JsValue, d: JsValue)
    requires AsciiLower(n) != "id"
    ensures SetAttribEffect(dom, e, n, v).Ok? && !QueryReference(x) ==>
      ResolveObject(SetAttribEffect(dom, e, n, v).value, x, d) == ResolveObject(dom, x, d)
    ensures RemAttribEffect(dom, e, n).Ok? && !QueryReference(x) ==>
      ResolveObject(RemAttribEffect(dom, e, n).value, x, d) == ResolveObject(dom, x, d)
  {
    SetAttribKeepsResolution(dom, e, n, v, x, d);
    RemAttribKeepsResolution(dom, e, n, x, d);
  }

  lemma SetAttribKeepsResolution(dom: Dom, e: JsValue, n: string, v: AttrInput, x: JsValue, d: JsValue)
    requires AsciiLower(n) != "id"
    ensures SetAttribEffect(dom, e, n, v).Ok? && !QueryReference(x) ==>
      ResolveObject(SetAttribEffect(dom, e, n, v).value, x, d) == ResolveObject(dom, x, d)
  {
    var t := ResolveObject(dom, e, Null);
    if t.Ok? && t.value.ElementObj? && ValidAttributeName(n) {
      var dom' := WriteAttribute(dom, t.value.id, n, StoredText(n, v));
      assert SetAttribEffect(dom, e, n, v) == Ok(dom');
      ClassAndAttributeUpdatesKeepIdentities(dom, t.value.id, n, StoredText(n, v), []);
      ResolveStable(dom, dom', x, d);
    }
  }

  lemma RemAttribKeepsResolution(dom: Dom, e: JsValue, n: string, x: JsValue, d: JsValue)
    requires AsciiLower(n) != "id"
    ensures RemAttribEffect(dom, e, n).Ok? && !QueryReference(x) ==>
      ResolveObject(RemAttribEffect(dom, e, n).value, x, d) == ResolveObject(dom, x, d)
  {
    var t := ResolveObject(dom, e, Null);
    if t.Ok? && t.value.ElementObj? {
      var dom' := DropAttribute(dom, t.value.id, n);
      assert RemAttribEffect(dom, e, n) == Ok(dom');
      ClassAndAttributeUpdatesKeepIdentities(dom, t.value.id, n, "", []);
      ResolveStable(dom, dom', x, d);
    }
  }

  // ---------------------------------------------------------------------------
  // Data attributes
  // ---------------------------------------------------------------------------

  /** `$hda(e, n, p)`: `$ha(e)` for an empty name, else `$ha` on the data attribute's name. */
  function HasDataAttrib(dom: Dom, e: JsValue, n: string, p: string): (r: Outcome<bool>)
    ensures r == HasAttrib(dom, e, DataAttrName(n, p))
  {
    if n == "" then HasAttrib(dom, e, "") else HasAttrib(dom, e, DataAttrName(n, p))
  }

  /** `$gda(e, n, p)`: `''` for an empty name, else `$ga` on the data attribute's name. */
  function GetDataAttrib(dom: Dom, e: JsValue, n: string, p: string): (r: Outcome<JsValue>)
    ensures n == "" ==> r == Ok(Str(""))
    ensures n != "" ==> r == GetAttrib(dom, e, DataAttrName(n, p))
  {
    if n == "" then Ok(Str("")) else GetAttrib(dom, e, DataAttrName(n, p))
  }

  /** `$sda` turns a boolean into 0 or 1 (`v|0`), which setAttribute stores as text. */
  function DataText(v: AttrInput): string {
    match v
    case FlagInput(b) => if b then "1" else "0"
    case TextInput(t) => t
  }

  /** `$sda(e, n, p, v)`: nothing for an empty name, else `$sa` on the data attribute with the 0/1-converted value. */
  function SetDataAttribEffect(dom: Dom, e: JsValue, n: string, p: string, v: AttrInput): (r: Outcome<Dom>)
    ensures n == "" ==> r == Ok(dom)
    ensures n != "" ==> r == SetAttribEffect(dom, e, DataAttrName(n, p), TextInput(DataText(v)))
  {
    if n == "" then Ok(dom) else SetAttribEffect(dom, e, DataAttrName(n, p), TextInput(DataText(v)))
  }

  /** `$rda(e, n, p)`: nothing for an empty name, else `$ra` on the data attribute. */
  function RemDataAttribEffect(dom: Dom, e: JsValue, n: string, p: string): (r: Outcome<Dom>)
    ensures n == "" ==> r == Ok(dom)
    ensures n != "" ==> r == RemAttribEffect(dom, e, DataAttrName(n, p))
  {
    if n == "" then Ok(dom) else RemAttribEffect(dom, e, DataAttrName(n, p))
  }

  /** `$sda` then `$gda`: the value comes back, a boolean as "1" or "0"; `$hda` then says yes. */
  lemma SetDataThenGet(dom: Dom, k: NodeId, n: string, p: string, v: AttrInput)
    requires n != ""
    requires SetDataAttribEffect(dom, ElementObj(k), n, p, v).Ok?
    ensures var dom' := SetDataAttribEffect(dom, ElementObj(k), n, p, v).value;
      && GetDataAttrib(dom', ElementObj(k), n, p) == Ok(Str(DataText(v)))
      && HasDataAttrib(dom', ElementObj(k), n, p) == Ok(true)
  {
    SetThenGet(dom, k, DataAttrName(n, p), TextInput(DataText(v)));
  }

  /** `$rda` then `$hda`: the data attribute is gone, and `$gda` gives `''`. */
  lemma RemoveDataThenGet(dom: Dom, k: NodeId, n: string, p: string)
    requires n != ""
    ensures RemDataAttribEffect(dom, ElementObj(k), n, p).Ok?
    ensures var dom' := RemDataAttribEffect(dom, ElementObj(k), n, p).value;
      && HasDataAttrib(dom', ElementObj(k), n, p) == Ok(false)
      && GetDataAttrib(dom', ElementObj(k), n, p) == Ok(Str(""))
  {
    RemoveThenGet(dom, k, DataAttrName(n, p));
  }

  /** A data attribute name never hits the element's `id`, so keyword, ID and object references resolve as before. */
  lemma DataUpdatesKeepResolution(dom: Dom, e: JsValue, n: string, p: string, v: AttrInput, x: JsValue, d: JsValue)
    ensures SetDataAttribEffect(dom, e, n, p, v).Ok? && !QueryReference(x) ==>
      ResolveObject(SetDataAttribEffect(dom, e, n, p, v).value, x, d) == ResolveObject(dom, x, d)
    ensures RemDataAttribEffect(dom, e, n, p).Ok? && !QueryReference(x) ==>
      ResolveObject(RemDataAttribEffect(dom, e, n, p).value, x, d) == ResolveObject(dom, x, d)
  {
    if n != "" {
      var a := DataAttrName(n, p);
      assert AsciiLower(a)[0] == 'd' && |AsciiLower(a)| > 2;
      AttributeUpdatesKeepResolution(dom, e, a, TextInput(DataText(v)), x, d);
    }
  }

  // ---------------------------------------------------------------------------
  // __c
  // ---------------------------------------------------------------------------

  /** The class-list methods `__c` is called with. */
  datatype ClassOp = AddOp | RemoveOp

  /** The class argument of `__c`: an array of tokens, or any other single value. */
  datatype ClassArg = ClassArray(tokens: seq<string>) | ClassScalar(token: string)

  /**
   * `VJS.__c(e, c, f)`: nothing when `e` resolves to null; a non-array `c` is
   * wrapped into an array but never applied; an array is passed to
   * `classList[f](...c)`, which the document and the window do not have.
   */
  function ApplyClassesEffect(dom: Dom, e: JsValue, c: ClassArg, op: ClassOp): (r: Outcome<Dom>)
    ensures ResolveObject(dom, e, Null).Throw? ==> r.Throw?
    ensures ResolveObject(dom, e, Null).Ok? && (ResolveObject(dom, e, Null).value == Null || c.ClassScalar?) ==> r == Ok(dom)
    ensures ResolveObject(dom, e, Null).Ok? && ResolveObject(dom, e, Null).value in {DocumentObj, WindowObj} && c.ClassArray? ==>
      r == Throw(TypeError)
    ensures ResolveObject(dom, e, Null).Ok? && ResolveObject(dom, e, Null).value.ElementObj? && c.ClassArray? ==>
      (r.Throw? <==> TokenError(c.tokens).Some?) && (r.Throw? ==> r.error == TokenError(c.tokens).value)
    ensures ResolveObject(dom, e, Null).Ok? && ResolveObject(dom, e, Null).value.ElementObj? && c.ClassArray? && r.Ok? ==>
      var k := ResolveObject(dom, e, Null).value.id;
      ClassesOf(r.value, k) ==
        if op == AddOp then Dedupe(ClassesOf(dom, k) + c.tokens) else WithoutTokens(ClassesOf(dom, k), c.tokens)
  {
    match ResolveObject(dom, e, Null)
    case Throw(x) => Throw(x)
    case Ok(v) =>
      if v == Null then Ok(dom)
      else
        match c
        case ClassScalar(_) => Ok(dom)
        case ClassArray(tokens) =>
          if !v.ElementObj? then Throw(TypeError)
          else
            match TokenError(tokens)
            case Some(x) => Throw(x)
            case None =>
              ClassListUpdates(dom, v.id, tokens, "");
              WriteThenReadClasses(dom, v.id, Dedupe(ClassesOf(dom, v.id) + tokens));
              WriteThenReadClasses(dom, v.id, WithoutTokens(ClassesOf(dom, v.id), tokens));
              Ok(if op == AddOp then AddClasses(dom, v.id, tokens) else RemoveClasses(dom, v.id, tokens))
  }

  /**
   * Adding puts every token on the element and removing takes every token
   * off; the other classes stay. The `class` attribute then holds the
   * serialized class list, and is created by an add but never by a remove.
   * The element's other attributes and every other element stay as they were.
   */
  lemma ClassUpdates(dom: Dom, e: JsValue, tokens: seq<string>, op: ClassOp, k: NodeId, m: NodeId, t: string)
    requires ResolveObject(dom, e, Null) == Ok(ElementObj(k))
    requires ApplyClassesEffect(dom, e, ClassArray(tokens), op).Ok?
    ensures var dom' := ApplyClassesEffect(dom, e, ClassArray(tokens), op).value;
      && (t in tokens ==> (t in ClassesOf(dom', k) <==> op == AddOp))
      && (t !in tokens ==> (t in ClassesOf(dom', k) <==> t in ClassesOf(dom, k)))
      && ("class" in ElementAt(dom', k).attrs <==> "class" in ElementAt(dom, k).attrs || (op == AddOp && tokens != []))
      && ("class" in ElementAt(dom', k).attrs ==> ElementAt(dom', k).attrs["class"] == Serialize(ClassesOf(dom', k)))
      && (t != "class" ==> (t in ElementAt(dom', k).attrs <==> t in ElementAt(dom, k).attrs))
      && (t != "class" && t in ElementAt(dom, k).attrs ==> ElementAt(dom', k).attrs[t] == ElementAt(dom, k).attrs[t])
      && ElementAt(dom', k).tag == ElementAt(dom, k).tag
      && (m != k ==> ElementAt(dom', m) == ElementAt(dom, m))
      && SameIdentities(dom, dom')
  {
    var before := ClassesOf(dom, k);
    var cs := if op == AddOp then Dedupe(before + tokens) else WithoutTokens(before, tokens);
    assert ApplyClassesEffect(dom, e, ClassArray(tokens), op).value == WriteClasses(dom, k, cs);
    ClassListUpdates(dom, k, tokens, t);
    WriteThenReadClasses(dom, k, cs);
    if op == AddOp && tokens != [] {
      assert tokens[0] in cs;
    }
    ClassAndAttributeUpdatesKeepIdentities(dom, k, "", "", tokens);
  }

  /** Class updates keep every keyword, ID and object reference resolving as before. */
  lemma ClassUpdatesKeepResolution(dom: Dom, e: JsValue, c: ClassArg, op: ClassOp, x: JsValue, d: JsValue)
    requires ApplyClassesEffect(dom, e, c, op).Ok?
    ensures !QueryReference(x) ==> ResolveObject(ApplyClassesEffect(dom, e, c, op).value, x, d) == ResolveObject(dom, x, d)
  {
    match ResolveObject(dom, e, Null)
    case Ok(ElementObj(k)) =>
      if c.ClassArray? {
        ClassAndAttributeUpdatesKeepIdentities(dom, k, "", "", c.tokens);
        ResolveStable(dom, ApplyClassesEffect(dom, e, c, op).value, x, d);
      }
    case _ =>
  }

  /** `__c(e, ['on'], 'add')` on an element without a class attribute: `$ha(e, 'class')` and `$ga(e, 'class')` then see "on". */
  lemma AddedClassShowsInAttribute(dom: Dom, k: NodeId)
    requires "class" !in ElementAt(dom, k).attrs
    ensures ApplyClassesEffect(dom, ElementObj(k), ClassArray(["on"]), AddOp).Ok?
    ensures var dom' := ApplyClassesEffect(dom, ElementObj(k), ClassArray(["on"]), AddOp).value;
      HasAttrib(dom', ElementObj(k), "class") == Ok(true) && GetAttrib(dom', ElementObj(k), "class") == Ok(Str("on"))
  {
    assert TokenError(["on"]) == None by {
      assert IsToken("on");
    }
    var dom' := AddClasses(dom, k, ["on"]);
    assert ApplyClassesEffect(dom, ElementObj(k), ClassArray(["on"]), AddOp) == Ok(dom');
    FirstClassOnBareElement(dom, k, "on");
    assert AsciiLower("class") == "class";
    GetAttribReadsStore(dom', k, "class");
  }

  /** `$sa(e, 'class', v)` puts the element into exactly the class lookups for the tokens of v. */
  lemma ClassAttributeSetsClassList(dom: Dom, k: NodeId, v: string, c: string)
    requires k in dom.elements
    ensures SetAttribEffect(dom, ElementObj(k), "class", TextInput(v)).Ok?
    ensures var dom' := SetAttribEffect(dom, ElementObj(k), "class", TextInput(v)).value;
      k in ByClassName(dom', WholeDocument, c) <==> k in dom.order && c in ParseTokens(v)
  {
    assert AsciiLower("class") == "class";
    assert ValidAttributeName("class");
    var dom' := SetAttribEffect(dom, ElementObj(k), "class", TextInput(v)).value;
    assert InScope(dom', WholeDocument, k);
  }
}
