/**
 * The VJS facade over one document: the attribute and class mutators and
 * `$fd`, which applies validation classes to the fields `__fd` reports.
 * The document is the state these methods change; the lookups (`$`, `$$`,
 * `$c`, `$t`, `$ha`, `$ga`, `$hda`, `$gda`) read it and are the functions of
 * the Selector and Attributes modules.
 */
module Vjs {
  import opened JsValues
  import opened DomModel
  import opened Selector
  import opened Attributes
  import opened Forms

  /** `$fd`'s validation classes `{error, success}`. */
  datatype Validation = Validation(error: string, success: string)

  /** `v && v.error && v.success`: both classes given and non-empty. */
  predicate Truthy(v: Option<Validation>) {
    v.Some? && v.value.error != "" && v.value.success != ""
  }

  /** The document after marking some fields, and the error that stopped the marking, if any. */
  datatype Marked = Marked(dom: Dom, error: Option<JsError>)

  /** Removes class `gone` from the element i names, then adds class `added`. */
  function Swap(dom: Dom, i: string, gone: string, added: string): Marked {
    match ApplyClassesEffect(dom, Str(i), ClassArray([gone]), RemoveOp)
    case Throw(x) => Marked(dom, Some(x))
    case Ok(d1) =>
      match ApplyClassesEffect(d1, Str(i), ClassArray([added]), AddOp)
      case Throw(x) => Marked(d1, Some(x))
      case Ok(d2) => Marked(d2, None)
  }

  /** One field of the `forEach`: a missing one gets the error class, any other the success class. */
  function MarkField(dom: Dom, i: string, missing: seq<string>, v: Validation): Marked {
    if i in missing then Swap(dom, i, v.success, v.error) else Swap(dom, i, v.error, v.success)
  }

  /** The whole `forEach` over the visited names, stopping at the first error. */
  function MarkFields(dom: Dom, ids: seq<string>, missing: seq<string>, v: Validation): Marked
    decreases |ids|
  {
    if ids == [] then Marked(dom, None)
    else
      var m := MarkField(dom, ids[0], missing, v);
      if m.error.Some? then m else MarkFields(m.dom, ids[1..], missing, v)
  }

  /** A class token DOMTokenList accepts. */
  predicate GoodToken(c: string) {
    TokenError([c]).None?
  }

  /**
   * One `__c` call with a single valid token on an element: only that token
   * of that element changes, and every reference that is not a selector
   * query resolves as before.
   */
  lemma ClassStep(dom: Dom, i: string, k: NodeId, c: string, op: ClassOp)
    requires ResolveObject(dom, Str(i), Null) == Ok(ElementObj(k)) && GoodToken(c)
    ensures ApplyClassesEffect(dom, Str(i), ClassArray([c]), op).Ok?
    ensures var d := ApplyClassesEffect(dom, Str(i), ClassArray([c]), op).value;
      && (c in ClassesOf(d, k) <==> op == AddOp)
      && (forall t :: t != c ==> (t in ClassesOf(d, k) <==> t in ClassesOf(dom, k)))
      && (forall m :: m != k ==> ElementAt(d, m) == ElementAt(dom, m))
      && (forall x :: !QueryReference(x) ==> ResolveObject(d, x, Null) == ResolveObject(dom, x, Null))
  {
    var r := ApplyClassesEffect(dom, Str(i), ClassArray([c]), op);
    assert r.Ok?;
    var d := r.value;
    assert c in ClassesOf(d, k) <==> op == AddOp by {
      ClassUpdates(dom, Str(i), [c], op, k, k, c);
    }
    forall t | t != c
      ensures t in ClassesOf(d, k) <==> t in ClassesOf(dom, k)
    {
      ClassUpdates(dom, Str(i), [c], op, k, k, t);
    }
    forall m | m != k
      ensures ElementAt(d, m) == ElementAt(dom, m)
    {
      ClassUpdates(dom, Str(i), [c], op, k, m, c);
    }
    forall x | !QueryReference(x)
      ensures ResolveObject(d, x, Null) == ResolveObject(dom, x, Null)
    {
      ClassUpdatesKeepResolution(dom, Str(i), ClassArray([c]), op, x, Null);
    }
  }

  /**
   * When i names an element by ID, the swap succeeds: afterwards the element
   * has `added` and not `gone`, its other classes and all other elements are
   * as they were, and every reference that is not a selector query resolves
   * as before.
   */
  lemma SwapEffect(dom: Dom, i: string, k: NodeId, gone: string, added: string)
    requires ResolveObject(dom, Str(i), Null) == Ok(ElementObj(k)) && !QueryReference(Str(i))
    requires GoodToken(gone) && GoodToken(added) && gone != added
    ensures var r := Swap(dom, i, gone, added);
      && r.error.None?
      && added in ClassesOf(r.dom, k) && gone !in ClassesOf(r.dom, k)
      && (forall t :: t != gone && t != added ==> (t in ClassesOf(r.dom, k) <==> t in ClassesOf(dom, k)))
      && (forall m :: m != k ==> ElementAt(r.dom, m) == ElementAt(dom, m))
      && (forall x :: !QueryReference(x) ==> ResolveObject(r.dom, x, Null) == ResolveObject(dom, x, Null))
  {
    ClassStep(dom, i, k, gone, RemoveOp);
    var d1 := ApplyClassesEffect(dom, Str(i), ClassArray([gone]), RemoveOp).value;
    ClassStep(d1, i, k, added, AddOp);
  }

  /** When i names nothing, both calls of the swap return early and nothing changes. */
  lemma SwapNothing(dom: Dom, i: string, gone: string, added: string)
    requires ResolveObject(dom, Str(i), Null) == Ok(Null)
    ensures Swap(dom, i, gone, added) == Marked(dom, None)
  {
  }

  /**
   * The visited names as `__o` resolves them: `nodes[j]` is the element
   * `ids[j]` names by ID, or None when no element has that ID. Different
   * names that name elements name different ones.
   */
  predicate NamesElements(dom: Dom, ids: seq<string>, nodes: seq<Option<NodeId>>) {
    && |nodes| == |ids|
    && (forall j :: 0 <= j < |ids| ==> !QueryReference(Str(ids[j])))
    && (forall j :: 0 <= j < |ids| ==>
          ResolveObject(dom, Str(ids[j]), Null) == Ok(if nodes[j].Some? then ElementObj(nodes[j].value) else Null))
    && (forall j, j' :: 0 <= j < |ids| && 0 <= j' < |ids| && ids[j] != ids[j'] && nodes[j].Some? ==> nodes[j] != nodes[j'])
  }

  /** The classes a visited field ends with: the error class and not the success class exactly when it is missing. */
  predicate Marks(d: Dom, k: NodeId, isMissing: bool, v: Validation) {
    && (v.error in ClassesOf(d, k) <==> isMissing)
    && (v.success in ClassesOf(d, k) <==> !isMissing)
  }

  /**
   * With two distinct, valid validation classes, marking succeeds; every
   * visited field that names an element ends with the error class and
   * without the success class when it is missing, the other way round
   * otherwise, and no element that no field names changes.
   */
  lemma {:induction false} MarkFieldsEffect(dom: Dom, ids: seq<string>, nodes: seq<Option<NodeId>>, missing: seq<string>, v: Validation)
    requires NamesElements(dom, ids, nodes)
    requires GoodToken(v.error) && GoodToken(v.success) && v.error != v.success
    ensures var r := MarkFields(dom, ids, missing, v);
      && r.error.None?
      && (forall j :: 0 <= j < |ids| && nodes[j].Some? ==> Marks(r.dom, nodes[j].value, ids[j] in missing, v))
      && (forall m: NodeId :: Some(m) !in nodes ==> ElementAt(r.dom, m) == ElementAt(dom, m))
    decreases |ids|
  {
    if ids != [] {
      var i := ids[0];
      assert !QueryReference(Str(i));
      var d1 := MarkField(dom, i, missing, v).dom;
      if nodes[0].Some? {
        if i in missing {
          SwapEffect(dom, i, nodes[0].value, v.success, v.error);
        } else {
          SwapEffect(dom, i, nodes[0].value, v.error, v.success);
        }
      } else {
        SwapNothing(dom, i, v.success, v.error);
        SwapNothing(dom, i, v.error, v.success);
      }
      NamesElementsTail(dom, d1, ids, nodes);
      MarkFieldsEffect(d1, ids[1..], nodes[1..], missing, v);
      var r := MarkFields(d1, ids[1..], missing, v);
      MarkedTail(r.dom, ids, nodes, missing, v);
      if nodes[0].Some? {
        HeadMarked(d1, r.dom, ids, nodes, missing, v);
      }
      forall m: NodeId | Some(m) !in nodes ensures ElementAt(r.dom, m) == ElementAt(dom, m) {
        assert Some(m) !in nodes[1..] && nodes[0] != Some(m);
      }
    }
  }

  /**
   * The first field keeps its marks to the end: either no later field names
   * its element, or the one that does has the same name and so the same marks.
   */
  lemma HeadMarked(d1: Dom, d: Dom, ids: seq<string>, nodes: seq<Option<NodeId>>, missing: seq<string>, v: Validation)
    requires |nodes| == |ids| && ids != [] && nodes[0].Some?
    requires forall j, j' :: 0 <= j < |ids| && 0 <= j' < |ids| && ids[j] != ids[j'] && nodes[j].Some? ==> nodes[j] != nodes[j']
    requires Marks(d1, nodes[0].value, ids[0] in missing, v)
    requires forall m: NodeId :: Some(m) !in nodes[1..] ==> ElementAt(d, m) == ElementAt(d1, m)
    requires forall j :: 1 <= j < |ids| && nodes[j].Some? ==> Marks(d, nodes[j].value, ids[j] in missing, v)
    ensures Marks(d, nodes[0].value, ids[0] in missing, v)
  {
    var k := nodes[0].value;
    if Some(k) in nodes[1..] {
      var j :| 0 <= j < |nodes[1..]| && nodes[1..][j] == Some(k);
      assert nodes[j + 1] == Some(k);
      assert ids[j + 1] == ids[0];
    } else {
      assert ElementAt(d, k) == ElementAt(d1, k);
    }
  }

  /** The fields after the first still name their elements once every ID resolves as before. */
  lemma NamesElementsTail(dom: Dom, d1: Dom, ids: seq<string>, nodes: seq<Option<NodeId>>)
    requires NamesElements(dom, ids, nodes) && ids != []
    requires forall x :: !QueryReference(x) ==> ResolveObject(d1, x, Null) == ResolveObject(dom, x, Null)
    ensures NamesElements(d1, ids[1..], nodes[1..])
  {
    var ids', nodes' := ids[1..], nodes[1..];
    forall j | 0 <= j < |ids'|
      ensures !QueryReference(Str(ids'[j]))
      ensures ResolveObject(d1, Str(ids'[j]), Null) == Ok(if nodes'[j].Some? then ElementObj(nodes'[j].value) else Null)
    {
      assert ids'[j] == ids[j + 1] && nodes'[j] == nodes[j + 1];
    }
    forall j, j' | 0 <= j < |ids'| && 0 <= j' < |ids'| && ids'[j] != ids'[j'] && nodes'[j].Some?
      ensures nodes'[j] != nodes'[j']
    {
      assert ids'[j] == ids[j + 1] && nodes'[j] == nodes[j + 1];
      assert ids'[j'] == ids[j' + 1] && nodes'[j'] == nodes[j' + 1];
    }
  }

  /** Marks stated for the fields after the first, re-indexed over the whole list. */
  lemma MarkedTail(d: Dom, ids: seq<string>, nodes: seq<Option<NodeId>>, missing: seq<string>, v: Validation)
    requires |nodes| == |ids| && ids != []
    requires forall j :: 0 <= j < |ids[1..]| && nodes[1..][j].Some? ==> Marks(d, nodes[1..][j].value, ids[1..][j] in missing, v)
    ensures forall j :: 1 <= j < |ids| && nodes[j].Some? ==> Marks(d, nodes[j].value, ids[j] in missing, v)
  {
    forall j | 1 <= j < |ids|
      ensures ids[j] == ids[1..][j - 1] && nodes[j] == nodes[1..][j - 1]
    {
    }
  }

  /** What `$fd` returns when it does not throw. */
  datatype FdReturn = NullReturn | DataReturn(payload: Payload)

  /** The library bound to one document, with the platform's encodeURI and query-string serialiser. */
  class Library {
    var dom: Dom
    const codecs: Codecs

    constructor (dom0: Dom, codecs0: Codecs)
      ensures dom == dom0 && codecs == codecs0
    {
      dom := dom0;
      codecs := codecs0;
    }

    /** `$sa(e, n, v)`: on success the document is the effect's result; a throw leaves it as it was. */
    method SetAttrib(e: JsValue, n: string, v: AttrInput) returns (err: Option<JsError>)
      modifies this
      ensures var x := SetAttribEffect(old(dom), e, n, v);
        if x.Ok? then dom == x.value && err.None? else dom == old(dom) && err == Some(x.error)
    {
      var x := SetAttribEffect(dom, e, n, v);
      if x.Ok? {
        dom := x.value;
        err := None;
      } else {
        err := Some(x.error);
      }
    }

    /** `$ra(e, n)`. */
    method RemAttrib(e: JsValue, n: string) returns (err: Option<JsError>)
      modifies this
      ensures var x := RemAttribEffect(old(dom), e, n);
        if x.Ok? then dom == x.value && err.None? else dom == old(dom) && err == Some(x.error)
    {
      var x := RemAttribEffect(dom, e, n);
      if x.Ok? {
        dom := x.value;
        err := None;
      } else {
        err := Some(x.error);
      }
    }

    /** `$sda(e, n, p, v)`. */
    method SetDataAttrib(e: JsValue, n: string, p: string, v: AttrInput) returns (err: Option<JsError>)
      modifies this
      ensures var x := SetDataAttribEffect(old(dom), e, n, p, v);
        if x.Ok? then dom == x.value && err.None? else dom == old(dom) && err == Some(x.error)
    {
      var x := SetDataAttribEffect(dom, e, n, p, v);
      if x.Ok? {
        dom := x.value;
        err := None;
      } else {
        err := Some(x.error);
      }
    }

    /** `$rda(e, n, p)`. */
    method RemDataAttrib(e: JsValue, n: string, p: string) returns (err: Option<JsError>)
      modifies this
      ensures var x := RemDataAttribEffect(old(dom), e, n, p);
        if x.Ok? then dom == x.value && err.None? else dom == old(dom) && err == Some(x.error)
    {
      var x := RemDataAttribEffect(dom, e, n, p);
      if x.Ok? {
        dom := x.value;
        err := None;
      } else {
        err := Some(x.error);
      }
    }

    /** `VJS.__c(e, c, f)`. */
    method ApplyClasses(e: JsValue, c: ClassArg, op: ClassOp) returns (err: Option<JsError>)
      modifies this
      ensures var x := ApplyClassesEffect(old(dom), e, c, op);
        if x.Ok? then dom == x.value && err.None? else dom == old(dom) && err == Some(x.error)
    {
      var x := ApplyClassesEffect(dom, e, c, op);
      if x.Ok? {
        dom := x.value;
        err := None;
      } else {
        err := Some(x.error);
      }
    }

    /** The `forEach` of `$fd` over the visited names, through `__c`. */
    method MarkAll(ids: seq<string>, missing: seq<string>, v: Validation) returns (err: Option<JsError>)
      modifies this
      ensures var m := MarkFields(old(dom), ids, missing, v); dom == m.dom && err == m.error
    {
      var j := 0;
      while j < |ids|
        invariant 0 <= j <= |ids|
        invariant MarkFields(dom, ids[j..], missing, v) == MarkFields(old(dom), ids, missing, v)
      {
        var i := ids[j];
        var gone, added := v.error, v.success;
        if i in missing {
          gone, added := v.success, v.error;
        }
        assert ids[j..][1..] == ids[j + 1..];
        ghost var before := dom;
        err := ApplyClasses(Str(i), ClassArray([gone]), RemoveOp);
        if err.Some? {
          return;
        }
        err := ApplyClasses(Str(i), ClassArray([added]), AddOp);
        if err.Some? {
          return;
        }
        assert MarkField(before, i, missing, v) == Marked(dom, None);
        j := j + 1;
      }
      err := None;
    }

    /**
     * `$fd(f, r, e, t, v)`. `fd` is the FormData `__fd` worked on (the caller's
     * own one when `f` is a FormData); it is the data returned for the FormData
     * output type.
     */
    method GetFormData(f: FormArg, required: seq<string>, extra: ExtraArg, t: string, v: Option<Validation>)
      returns (r: Outcome<FdReturn>, fd: FormData?)
      modifies this, if f.ExistingFormData? then {f.fd} else {}
      ensures var o := FdOutcome(old(dom), codecs, old(StartEntries(dom, f)), required, extra, NormalizeType(t));
        if o.Throw? then r == Throw(o.error) && dom == old(dom)
        else if o.value.NotForm? then r == Throw(DomException("NotFoundError", "Form not found")) && dom == old(dom)
        else if o.value.Extracted? then r == Ok(DataReturn(o.value.payload)) && dom == old(dom)
        else if !Truthy(v) then r == Throw(Error("Fill up required fields")) && dom == old(dom)
        else
          var m := MarkFields(old(dom), o.value.ids, o.value.missing, v.value);
          dom == m.dom && r == (if m.error.Some? then Throw(m.error.value) else Ok(NullReturn))
    ensures f.ExistingFormData? ==>
      fd == f.fd && fd.entries == Extract(old(dom), codecs, old(f.fd.entries), required, extra, NormalizeType(t)).entries
    ensures f.Source? ==>
      match Convert(old(dom), f.src)
      case Ok(Some(es)) => fd != null && fresh(fd) && fd.entries == Extract(old(dom), codecs, es, required, extra, NormalizeType(t)).entries
      case _ => fd == null
    {
      var o;
      o, fd := ExtractFormData(dom, codecs, f, required, extra, NormalizeType(t));
      if o.Throw? {
        return Throw(o.error), fd;
      }
      match o.value
      case NotForm =>
        r := Throw(DomException("NotFoundError", "Form not found"));
      case Extracted(p) =>
        r := Ok(DataReturn(p));
      case MissingRequired(missing, ids) =>
        if !Truthy(v) {
          r := Throw(Error("Fill up required fields"));
        } else {
          var err := MarkAll(ids, missing, v.value);
          r := if err.Some? then Throw(err.value) else Ok(NullReturn);
        }
    }
  }

  /**
   * `$fd` with validation classes, when `__fd` reports missing required
   * fields and the visited names resolve by ID: marking succeeds, and every
   * visited field that names an element carries the error class exactly when
   * `__fd` listed it as missing, and the success class exactly when not.
   */
  lemma ValidationMarksFields(dom: Dom, codecs: Codecs, start: Outcome<Option<seq<Entry>>>, required: seq<string>,
                              extra: ExtraArg, t: string, nodes: seq<Option<NodeId>>, v: Validation)
    requires FdOutcome(dom, codecs, start, required, extra, t).Ok?
    requires FdOutcome(dom, codecs, start, required, extra, t).value.MissingRequired?
    requires NamesElements(dom, FdOutcome(dom, codecs, start, required, extra, t).value.ids, nodes)
    requires GoodToken(v.error) && GoodToken(v.success) && v.error != v.success
    ensures var o := FdOutcome(dom, codecs, start, required, extra, t).value;
      var m := MarkFields(dom, o.ids, o.missing, v);
      && m.error.None?
      && (forall j :: 0 <= j < |o.ids| && nodes[j].Some? ==>
            (v.error in ClassesOf(m.dom, nodes[j].value) <==> o.ids[j] in o.missing) &&
            (v.success in ClassesOf(m.dom, nodes[j].value) <==> o.ids[j] !in o.missing))
  {
    var o := FdOutcome(dom, codecs, start, required, extra, t).value;
    MarkFieldsEffect(dom, o.ids, nodes, o.missing, v);
  }
}
