/**
 * An abstract browser document: a store of elements keyed by node identity,
 * the document (tree) order, and the native lookups the library delegates to.
 * getElementById, getElementsByClassName and getElementsByTagName are computed
 * from the store; the CSS selector engine and the construction of a form's
 * entry list are left uninterpreted (function-valued fields), but both are
 * handed the current store, so they see every attribute and class change.
 */
module DomModel {
  import opened JsValues
  import opened ClassTokens

  /** A form field value: text, or a File (only its name is kept). */
  datatype FormValue = TextValue(text: string) | FileValue(fileName: string)

  /** One (name, value) entry of a FormData entry list. */
  datatype Entry = Entry(name: string, value: FormValue)

  /**
   * An element: its tag name (lower case, as the HTML parser stores it), its
   * attributes by (lower-case) name, and the set of its ancestors in the
   * tree. Its class list is not stored apart: it is read from the `class`
   * attribute (see ClassesOf).
   */
  datatype Element = Element(tag: string, attrs: map<string, string>, ancestors: set<NodeId>)

  /** The element store. */
  type Store = map<NodeId, Element>

  /** Where a collection lookup searches: the whole document, or below one element. */
  datatype Scope = WholeDocument | Subtree(root: NodeId)

  datatype Dom = Dom(
    order: seq<NodeId>,                                      // the elements of the document, in tree order
    elements: Store,                                         // the element store
    query: (Store, Scope, string) -> Option<seq<NodeId>>,    // querySelectorAll; None is a SyntaxError
    formEntries: (Store, NodeId) -> seq<Entry>               // the entry list `new FormData(form)` builds
  )

  /** querySelectorAll on the current store. */
  function Query(dom: Dom, sc: Scope, q: string): Option<seq<NodeId>> {
    dom.query(dom.elements, sc, q)
  }

  /** `new FormData(form)` on the current store. */
  function FormEntries(dom: Dom, n: NodeId): seq<Entry> {
    dom.formEntries(dom.elements, n)
  }

  /** A node the store does not hold stands for a detached element with nothing set on it. */
  const Detached := Element("", map[], {})

  function ElementAt(dom: Dom, n: NodeId): Element {
    if n in dom.elements then dom.elements[n] else Detached
  }

  /** The element's ID: its id attribute, unless absent or empty. */
  function IdOf(dom: Dom, n: NodeId): Option<string> {
    var attrs := ElementAt(dom, n).attrs;
    if "id" in attrs && attrs["id"] != "" then Some(attrs["id"]) else None
  }

  /** The index of the first node of xs whose ID is i, or -1. */
  function FirstIdIndex(dom: Dom, xs: seq<NodeId>, i: string): (k: int)
    ensures -1 <= k < |xs|
    ensures k >= 0 ==> IdOf(dom, xs[k]) == Some(i) && forall j :: 0 <= j < k ==> IdOf(dom, xs[j]) != Some(i)
    ensures k == -1 <==> forall n :: n in xs ==> IdOf(dom, n) != Some(i)
  {
    if xs == [] then -1
    else if IdOf(dom, xs[0]) == Some(i) then 0
    else
      var k := FirstIdIndex(dom, xs[1..], i);
      assert forall n :: n in xs <==> n == xs[0] || n in xs[1..];
      if k == -1 then -1 else k + 1
  }

  /** document.getElementById: the first element in tree order with that ID. */
  function GetElementById(dom: Dom, i: string): (r: Option<NodeId>)
    ensures r.Some? ==> r.value in dom.order && IdOf(dom, r.value) == Some(i)
    ensures r.Some? ==> exists k :: (0 <= k < |dom.order| && dom.order[k] == r.value &&
      forall j :: 0 <= j < k ==> IdOf(dom, dom.order[j]) != Some(i))
    ensures r.None? <==> forall n :: n in dom.order ==> IdOf(dom, n) != Some(i)
  {
    var k := FirstIdIndex(dom, dom.order, i);
    if k == -1 then None else Some(dom.order[k])
  }

  predicate InScope(dom: Dom, sc: Scope, n: NodeId) {
    n in dom.elements && match sc {
      case WholeDocument => true
      case Subtree(root) => root in dom.elements[n].ancestors
    }
  }

  /** What a getElementsBy* lookup matches. */
  datatype Match = HasClass(className: string) | HasTag(tagName: string)

  predicate Matches(dom: Dom, sc: Scope, m: Match, n: NodeId) {
    InScope(dom, sc, n) && match m {
      case HasClass(c) => c in ClassesOf(dom, n)
      case HasTag(t) => dom.elements[n].tag == AsciiLower(t)
    }
  }

  /** The nodes of xs that match, in the order of xs. */
  function Collect(dom: Dom, xs: seq<NodeId>, sc: Scope, m: Match): (r: seq<NodeId>)
    ensures |r| <= |xs|
    ensures forall n :: n in r <==> n in xs && Matches(dom, sc, m, n)
  {
    if xs == [] then []
    else
      var rest := Collect(dom, xs[1..], sc, m);
      assert forall n :: n in xs <==> n == xs[0] || n in xs[1..];
      if Matches(dom, sc, m, xs[0]) then [xs[0]] + rest else rest
  }

  /** The indices of xs from `from` on whose node matches, in increasing order. */
  function MatchingIndices(dom: Dom, xs: seq<NodeId>, sc: Scope, m: Match, from: nat): (ix: seq<nat>)
    requires from <= |xs|
    ensures forall p :: 0 <= p < |ix| ==> from <= ix[p] < |xs| && Matches(dom, sc, m, xs[ix[p]])
    ensures forall p, q :: 0 <= p < q < |ix| ==> ix[p] < ix[q]
    ensures forall j :: from <= j < |xs| && Matches(dom, sc, m, xs[j]) ==> j in ix
    decreases |xs| - from
  {
    if from == |xs| then []
    else
      var rest := MatchingIndices(dom, xs, sc, m, from + 1);
      if Matches(dom, sc, m, xs[from]) then [from] + rest else rest
  }

  /** Collect keeps exactly the matching nodes and keeps them in the order of xs. */
  lemma CollectInOrder(dom: Dom, xs: seq<NodeId>, sc: Scope, m: Match)
    ensures var r := Collect(dom, xs, sc, m); var ix := MatchingIndices(dom, xs, sc, m, 0);
      |r| == |ix| && forall p :: 0 <= p < |r| ==> r[p] == xs[ix[p]]
  {
    CollectFrom(dom, xs, sc, m, 0);
    assert xs[0..] == xs;
  }

  lemma {:induction false} CollectFrom(dom: Dom, xs: seq<NodeId>, sc: Scope, m: Match, from: nat)
    requires from <= |xs|
    ensures var r := Collect(dom, xs[from..], sc, m); var ix := MatchingIndices(dom, xs, sc, m, from);
      |r| == |ix| && forall p :: 0 <= p < |r| ==> r[p] == xs[ix[p]]
    decreases |xs| - from
  {
    if from < |xs| {
      CollectFrom(dom, xs, sc, m, from + 1);
      var r := Collect(dom, xs[from..], sc, m);
      var rest := Collect(dom, xs[from + 1..], sc, m);
      var ix := MatchingIndices(dom, xs, sc, m, from);
      var ixr := MatchingIndices(dom, xs, sc, m, from + 1);
      assert r == (if Matches(dom, sc, m, xs[from]) then [xs[from]] + rest else rest) by {
        assert xs[from..][1..] == xs[from + 1..];
        assert xs[from..][0] == xs[from];
      }
      if Matches(dom, sc, m, xs[from]) {
        assert ix == [from] + ixr;
        PicksCons(xs, rest, ixr, from);
      } else {
        assert ix == ixr;
      }
    }
  }

  /** Picking xs at the indices ixr gives rest; then one more index in front picks one more node in front. */
  lemma PicksCons(xs: seq<NodeId>, rest: seq<NodeId>, ixr: seq<nat>, from: nat)
    requires from < |xs| && |rest| == |ixr|
    requires forall p :: 0 <= p < |ixr| ==> ixr[p] < |xs| && rest[p] == xs[ixr[p]]
    ensures forall p :: 0 <= p < |rest| + 1 ==> ([xs[from]] + rest)[p] == xs[([from] + ixr)[p]]
  {
    forall p | 0 <= p < |rest| + 1 ensures ([xs[from]] + rest)[p] == xs[([from] + ixr)[p]] {
      if p > 0 {
        assert ([xs[from]] + rest)[p] == rest[p - 1] && ([from] + ixr)[p] == ixr[p - 1];
      }
    }
  }

  /** The first node Collect keeps is the first matching node of xs. */
  lemma CollectFirst(dom: Dom, xs: seq<NodeId>, sc: Scope, m: Match)
    ensures var r := Collect(dom, xs, sc, m);
      r != [] ==> exists j :: (0 <= j < |xs| && r[0] == xs[j] && Matches(dom, sc, m, xs[j]) &&
        forall j' :: 0 <= j' < j ==> !Matches(dom, sc, m, xs[j']))
  {
    var r := Collect(dom, xs, sc, m);
    var ix := MatchingIndices(dom, xs, sc, m, 0);
    CollectInOrder(dom, xs, sc, m);
    if r != [] {
      var j := ix[0];
      assert r[0] == xs[j];
      assert forall p :: 0 <= p < |ix| ==> j <= ix[p];
      forall j' | 0 <= j' < j ensures !Matches(dom, sc, m, xs[j']) {
        assert j' !in ix;
      }
    }
  }

  /** getElementsByClassName (one class token) on a scope: a live collection's contents. */
  function ByClassName(dom: Dom, sc: Scope, c: string): seq<NodeId> {
    Collect(dom, dom.order, sc, HasClass(c))
  }

  /** getElementsByTagName on a scope (HTML elements: the name is compared in ASCII lower case). */
  function ByTagName(dom: Dom, sc: Scope, t: string): seq<NodeId> {
    Collect(dom, dom.order, sc, HasTag(t))
  }

  // ---------------------------------------------------------------------------
  // Attributes and class lists of one element
  // ---------------------------------------------------------------------------

  /** Element.hasAttributes. */
  predicate HasAttributes(dom: Dom, n: NodeId) {
    ElementAt(dom, n).attrs != map[]
  }

  /** Element.hasAttribute (the name is ASCII-lower-cased first). */
  predicate HasAttribute(dom: Dom, n: NodeId, name: string) {
    AsciiLower(name) in ElementAt(dom, n).attrs
  }

  /** Element.getAttribute: the value, or None for null. */
  function ReadAttribute(dom: Dom, n: NodeId, name: string): Option<string> {
    var attrs := ElementAt(dom, n).attrs;
    if AsciiLower(name) in attrs then Some(attrs[AsciiLower(name)]) else None
  }

  /** The document with one element replaced. */
  function UpdateElement(dom: Dom, n: NodeId, e: Element): Dom {
    dom.(elements := dom.elements[n := e])
  }

  /** Element.setAttribute. */
  function WriteAttribute(dom: Dom, n: NodeId, name: string, value: string): Dom {
    var e := ElementAt(dom, n);
    UpdateElement(dom, n, e.(attrs := e.attrs[AsciiLower(name) := value]))
  }

  /** Element.removeAttribute. */
  function DropAttribute(dom: Dom, n: NodeId, name: string): Dom {
    var e := ElementAt(dom, n);
    UpdateElement(dom, n, e.(attrs := e.attrs - {AsciiLower(name)}))
  }

  /** Element.classList: the ordered set the `class` attribute parses to, empty without one. */
  function ClassesOf(dom: Dom, n: NodeId): (r: seq<string>)
    ensures TokenSet(r)
  {
    var attrs := ElementAt(dom, n).attrs;
    if "class" in attrs then ParseTokens(attrs["class"]) else []
  }

  /**
   * A DOMTokenList's update steps: the `class` attribute is set to the
   * serialized set, except that an element without the attribute keeps
   * having none when the set is empty.
   */
  function WriteClasses(dom: Dom, n: NodeId, cs: seq<string>): Dom {
    var e := ElementAt(dom, n);
    if "class" !in e.attrs && cs == [] then dom
    else UpdateElement(dom, n, e.(attrs := e.attrs["class" := Serialize(cs)]))
  }

  /** classList.add(...tokens): each token is appended unless present. */
  function AddClasses(dom: Dom, n: NodeId, tokens: seq<string>): Dom {
    WriteClasses(dom, n, Dedupe(ClassesOf(dom, n) + tokens))
  }

  /** classList.remove(...tokens). */
  function RemoveClasses(dom: Dom, n: NodeId, tokens: seq<string>): Dom {
    WriteClasses(dom, n, WithoutTokens(ClassesOf(dom, n), tokens))
  }

  /** Writing an ordered set of tokens back and reading the class list again gives that set. */
  lemma WriteThenReadClasses(dom: Dom, n: NodeId, cs: seq<string>)
    requires TokenSet(cs)
    ensures ClassesOf(WriteClasses(dom, n, cs), n) == cs
    ensures forall a :: a != "class" ==>
      (a in ElementAt(WriteClasses(dom, n, cs), n).attrs <==> a in ElementAt(dom, n).attrs) &&
      (a in ElementAt(dom, n).attrs ==> ElementAt(WriteClasses(dom, n, cs), n).attrs[a] == ElementAt(dom, n).attrs[a])
    ensures "class" in ElementAt(WriteClasses(dom, n, cs), n).attrs <==> "class" in ElementAt(dom, n).attrs || cs != []
    ensures "class" in ElementAt(WriteClasses(dom, n, cs), n).attrs ==>
      ElementAt(WriteClasses(dom, n, cs), n).attrs["class"] == Serialize(cs)
    ensures forall m :: m != n ==> ElementAt(WriteClasses(dom, n, cs), m) == ElementAt(dom, m)
  {
    if "class" in ElementAt(dom, n).attrs || cs != [] {
      ParseSerialize(cs);
    }
  }

  /** Adding one token to an element without a class attribute creates the attribute holding just that token. */
  lemma FirstClassOnBareElement(dom: Dom, n: NodeId, t: string)
    requires "class" !in ElementAt(dom, n).attrs && IsToken(t)
    ensures "class" in ElementAt(AddClasses(dom, n, [t]), n).attrs
    ensures ElementAt(AddClasses(dom, n, [t]), n).attrs["class"] == t
  {
    assert ClassesOf(dom, n) == [];
    assert [] + [t] == [t];
    assert Dedupe([t]) == [t] by {
      DedupeDistinct([t]);
    }
  }

  /** After add, the class list holds the old classes and the tokens; after remove, the old ones not removed. */
  lemma ClassListUpdates(dom: Dom, n: NodeId, tokens: seq<string>, t: string)
    requires forall x :: x in tokens ==> IsToken(x)
    ensures t in ClassesOf(AddClasses(dom, n, tokens), n) <==> t in ClassesOf(dom, n) || t in tokens
    ensures t in ClassesOf(RemoveClasses(dom, n, tokens), n) <==> t in ClassesOf(dom, n) && t !in tokens
    ensures TokenSet(Dedupe(ClassesOf(dom, n) + tokens))
    ensures TokenSet(WithoutTokens(ClassesOf(dom, n), tokens))
  {
    var before := ClassesOf(dom, n);
    var added := Dedupe(before + tokens);
    assert forall x :: x in before + tokens <==> x in before || x in tokens;
    WriteThenReadClasses(dom, n, added);
    WithoutTokensSet(before, tokens);
    WriteThenReadClasses(dom, n, WithoutTokens(before, tokens));
  }

  /**
   * Two documents agree on what getElementById depends on: tree order and
   * every ID (and they share the selector engine and the form entry builder,
   * though those see the stores, which may differ).
   */
  ghost predicate SameIdentities(dom: Dom, dom': Dom) {
    && dom'.order == dom.order
    && dom'.query == dom.query
    && dom'.formEntries == dom.formEntries
    && forall n :: IdOf(dom', n) == IdOf(dom, n)
  }

  /** Changing classes, or an attribute other than id, leaves every ID as it was. */
  lemma ClassAndAttributeUpdatesKeepIdentities(dom: Dom, n: NodeId, name: string, value: string, tokens: seq<string>)
    ensures SameIdentities(dom, AddClasses(dom, n, tokens))
    ensures SameIdentities(dom, RemoveClasses(dom, n, tokens))
    ensures AsciiLower(name) != "id" ==> SameIdentities(dom, WriteAttribute(dom, n, name, value))
    ensures AsciiLower(name) != "id" ==> SameIdentities(dom, DropAttribute(dom, n, name))
  {
    var e := ElementAt(dom, n);
    WriteClassesKeepsIdentities(dom, n, Dedupe(ClassesOf(dom, n) + tokens));
    WriteClassesKeepsIdentities(dom, n, WithoutTokens(ClassesOf(dom, n), tokens));
    if AsciiLower(name) != "id" {
      UpdateKeepsIdentities(dom, n, e.(attrs := e.attrs[AsciiLower(name) := value]));
      UpdateKeepsIdentities(dom, n, e.(attrs := e.attrs - {AsciiLower(name)}));
    }
  }

  /** Replacing an element by one with the same id attribute keeps every ID. */
  lemma UpdateKeepsIdentities(dom: Dom, n: NodeId, e: Element)
    requires "id" in e.attrs <==> "id" in ElementAt(dom, n).attrs
    requires "id" in e.attrs ==> e.attrs["id"] == ElementAt(dom, n).attrs["id"]
    ensures SameIdentities(dom, UpdateElement(dom, n, e))
  {
    var dom' := UpdateElement(dom, n, e);
    forall m
      ensures IdOf(dom', m) == IdOf(dom, m)
    {
      if m != n {
        assert ElementAt(dom', m) == ElementAt(dom, m);
      }
    }
  }

  /** Writing the class list back keeps every ID. */
  lemma WriteClassesKeepsIdentities(dom: Dom, n: NodeId, cs: seq<string>)
    ensures SameIdentities(dom, WriteClasses(dom, n, cs))
  {
    var e := ElementAt(dom, n);
    if "class" in e.attrs || cs != [] {
      UpdateKeepsIdentities(dom, n, e.(attrs := e.attrs["class" := Serialize(cs)]));
    }
  }
}
