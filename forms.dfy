/**
 * Form extraction of v.JS: `VJS.__fd` converts its form argument to a
 * FormData object, walks the entries once to track the missing required
 * fields, appends the extra data and produces a query string, an object or
 * the FormData itself; `$fd` normalises the output type (see also Vjs).
 *
 * FormData is the only in-place state here: a class whose entry list the
 * methods update, iterated live as the platform does (an entry list changed
 * by `set` during the walk is seen by the rest of the walk).
 */
module Forms {
  import opened JsValues
  import opened DomModel
  import opened Selector
  import opened Attributes

  // ---------------------------------------------------------------------------
  // Entry lists and FormData
  // ---------------------------------------------------------------------------

  /** The names of an entry list, in order. */
  function Names(es: seq<Entry>): (r: seq<string>)
    ensures |r| == |es| && forall i :: 0 <= i < |es| ==> r[i] == es[i].name
  {
    seq(|es|, i requires 0 <= i < |es| => es[i].name)
  }

  /** The entries with name k, in order. */
  function WithName(es: seq<Entry>, k: string): seq<Entry> {
    if es == [] then []
    else if es[0].name == k then [es[0]] + WithName(es[1..], k)
    else WithName(es[1..], k)
  }

  /** The entries with a name other than k, in order. */
  function WithoutName(es: seq<Entry>, k: string): seq<Entry> {
    if es == [] then []
    else if es[0].name == k then WithoutName(es[1..], k)
    else [es[0]] + WithoutName(es[1..], k)
  }

  lemma NamesSplit(es: seq<Entry>)
    requires es != []
    ensures Names(es) == [es[0].name] + Names(es[1..])
  {
  }

  /** A list is its prefix, the element at i, and its suffix. */
  lemma SplitAt<T>(s: seq<T>, i: nat)
    requires i < |s|
    ensures s == s[..i] + [s[i]] + s[i + 1..]
  {
  }

  lemma NamesConcat(a: seq<Entry>, b: seq<Entry>)
    ensures Names(a + b) == Names(a) + Names(b)
  {
  }

  /** Filtering a list without the name k: every entry is kept, none selected. */
  lemma {:induction false} FilterUnnamed(es: seq<Entry>, k: string)
    requires k !in Names(es)
    ensures WithoutName(es, k) == es && WithName(es, k) == []
  {
    if es != [] {
      NamesSplit(es);
      FilterUnnamed(es[1..], k);
    }
  }

  /** Removing the entries named k removes that name and keeps every other. */
  lemma {:induction false} NamesOfWithout(es: seq<Entry>, k: string)
    ensures |WithoutName(es, k)| <= |es|
    ensures forall n :: n in Names(WithoutName(es, k)) <==> n in Names(es) && n != k
  {
    if es != [] {
      NamesSplit(es);
      NamesOfWithout(es[1..], k);
      var w := WithoutName(es[1..], k);
      if es[0].name != k {
        assert Names([es[0]] + w) == [es[0].name] + Names(w) by {
          NamesSplit([es[0]] + w);
          assert ([es[0]] + w)[1..] == w;
        }
      }
    }
  }

  /** Filtering by name distributes over concatenation. */
  lemma FilterConcat(a: seq<Entry>, b: seq<Entry>, k: string)
    ensures WithName(a + b, k) == WithName(a, k) + WithName(b, k)
    ensures WithoutName(a + b, k) == WithoutName(a, k) + WithoutName(b, k)
  {
    WithNameConcat(a, b, k);
    WithoutNameConcat(a, b, k);
  }

  lemma {:induction false} WithNameConcat(a: seq<Entry>, b: seq<Entry>, k: string)
    ensures WithName(a + b, k) == WithName(a, k) + WithName(b, k)
  {
    if a == [] {
      assert a + b == b;
    } else {
      assert (a + b)[0] == a[0] && (a + b)[1..] == a[1..] + b;
      WithNameConcat(a[1..], b, k);
    }
  }

  lemma {:induction false} WithoutNameConcat(a: seq<Entry>, b: seq<Entry>, k: string)
    ensures WithoutName(a + b, k) == WithoutName(a, k) + WithoutName(b, k)
  {
    if a == [] {
      assert a + b == b;
    } else {
      assert (a + b)[0] == a[0] && (a + b)[1..] == a[1..] + b;
      WithoutNameConcat(a[1..], b, k);
    }
  }

  /**
   * FormData's set(name, value): the first entry with that name is replaced
   * and the others with that name are removed; without one, the entry is
   * appended (the set() method of the XMLHttpRequest Standard).
   */
  function SetEntry(es: seq<Entry>, k: string, v: FormValue): seq<Entry> {
    var i := IndexOf(Names(es), k);
    if i == -1 then es + [Entry(k, v)]
    else es[..i] + [Entry(k, v)] + WithoutName(es[i + 1..], k)
  }

  /** Where set puts the entry, how long the list gets, and which names it holds. */
  lemma SetEntryShape(es: seq<Entry>, k: string, v: FormValue)
    ensures var r := SetEntry(es, k, v);
      && (k !in Names(es) ==> |r| == |es| + 1 && r[|es|] == Entry(k, v) && r[..|es|] == es)
      && (k in Names(es) ==> |r| <= |es|)
      && (k in Names(es) ==> var i := IndexOf(Names(es), k); i < |r| && r[..i] == es[..i] && r[i] == Entry(k, v))
      && (forall n :: n in Names(r) <==> n in Names(es) || n == k)
  {
    if k in Names(es) {
      SetEntryShorter(es, k, v);
      SetEntryPlace(es, k, v);
    }
    SetEntryNames(es, k, v);
  }

  /** A present name: the entries before its first occurrence stay, and the new entry takes that place. */
  lemma SetEntryPlace(es: seq<Entry>, k: string, v: FormValue)
    requires k in Names(es)
    ensures var r := SetEntry(es, k, v); var i := IndexOf(Names(es), k);
      i < |r| && r[..i] == es[..i] && r[i] == Entry(k, v)
  {
    var i := IndexOf(Names(es), k);
    var r := SetEntry(es, k, v);
    assert r == es[..i] + [Entry(k, v)] + WithoutName(es[i + 1..], k);
  }

  /** After set, the names are the old ones and k. */
  lemma SetEntryNames(es: seq<Entry>, k: string, v: FormValue)
    ensures forall n :: n in Names(SetEntry(es, k, v)) <==> n in Names(es) || n == k
  {
    var r := SetEntry(es, k, v);
    var e := Entry(k, v);
    var i := IndexOf(Names(es), k);
    if i == -1 {
      assert Names(r) == Names(es) + [k] by {
        NamesConcat(es, [e]);
        assert Names([e]) == [k];
      }
    } else {
      var h := es[..i];
      var t := es[i + 1..];
      var w := WithoutName(t, k);
      assert Names(r) == Names(h) + [k] + Names(w) by {
        assert r == h + [e] + w;
        NamesConcat(h, [e]);
        NamesConcat(h + [e], w);
        assert Names([e]) == [k];
      }
      assert Names(es) == Names(h) + [k] + Names(t) by {
        SplitAt(es, i);
        assert es[i].name == Names(es)[i] == k;
        NamesConcat(h, [es[i]]);
        NamesConcat(h + [es[i]], t);
        assert Names([es[i]]) == [k];
      }
      NamesOfWithout(t, k);
    }
  }

  lemma SetEntryShorter(es: seq<Entry>, k: string, v: FormValue)
    requires k in Names(es)
    ensures |SetEntry(es, k, v)| <= |es|
  {
    NamesOfWithout(es[IndexOf(Names(es), k) + 1..], k);
  }

  /** After set there is exactly one entry named k, and the others are those of es, in order. */
  lemma SetEntryKeepsOthers(es: seq<Entry>, k: string, v: FormValue)
    ensures WithName(SetEntry(es, k, v), k) == [Entry(k, v)]
    ensures WithoutName(SetEntry(es, k, v), k) == WithoutName(es, k)
  {
    SetEntrySingle(es, k, v);
    SetEntryOthers(es, k, v);
  }

  /** The prefix before the first k, and what follows after removing k, carry no k. */
  lemma SetEntryParts(es: seq<Entry>, k: string)
    requires k in Names(es)
    ensures var i := IndexOf(Names(es), k);
      && k !in Names(es[..i])
      && k !in Names(WithoutName(es[i + 1..], k))
      && WithoutName(es[..i], k) == es[..i] && WithName(es[..i], k) == []
      && WithoutName(WithoutName(es[i + 1..], k), k) == WithoutName(es[i + 1..], k)
  {
    var i := IndexOf(Names(es), k);
    var w := WithoutName(es[i + 1..], k);
    assert Names(es[..i]) == Names(es)[..i];
    FilterUnnamed(es[..i], k);
    NamesOfWithout(es[i + 1..], k);
    FilterUnnamed(w, k);
  }

  lemma SetEntrySingle(es: seq<Entry>, k: string, v: FormValue)
    ensures WithName(SetEntry(es, k, v), k) == [Entry(k, v)]
  {
    var e := Entry(k, v);
    var i := IndexOf(Names(es), k);
    if i == -1 {
      FilterUnnamed(es, k);
      WithNameConcat(es, [e], k);
    } else {
      SetEntryParts(es, k);
      var w := WithoutName(es[i + 1..], k);
      FilterUnnamed(w, k);
      WithNameAround(es[..i], e, w, k);
    }
  }

  /** The entries named k around one entry named k, between lists without k. */
  lemma WithNameAround(h: seq<Entry>, x: Entry, t: seq<Entry>, k: string)
    requires x.name == k && WithName(h, k) == [] && WithName(t, k) == []
    ensures WithName(h + [x] + t, k) == [x]
  {
    WithNameConcat(h, [x], k);
    WithNameConcat(h + [x], t, k);
  }

  lemma SetEntryOthers(es: seq<Entry>, k: string, v: FormValue)
    ensures WithoutName(SetEntry(es, k, v), k) == WithoutName(es, k)
  {
    var e := Entry(k, v);
    var i := IndexOf(Names(es), k);
    if i == -1 {
      FilterUnnamed(es, k);
      WithoutNameConcat(es, [e], k);
    } else {
      SetEntryParts(es, k);
      WithoutAround(es[..i], e, WithoutName(es[i + 1..], k), k);
      assert es[i].name == Names(es)[i];
      SplitAt(es, i);
      WithoutAround(es[..i], es[i], es[i + 1..], k);
    }
  }

  /** Removing k around an entry named k, from a prefix without k. */
  lemma WithoutAround(h: seq<Entry>, x: Entry, t: seq<Entry>, k: string)
    requires x.name == k && WithoutName(h, k) == h
    ensures WithoutName(h + [x] + t, k) == h + WithoutName(t, k)
  {
    WithoutNameConcat(h, [x], k);
    WithoutNameConcat(h + [x], t, k);
  }

  /** No two entries share a name. */
  predicate DistinctNames(es: seq<Entry>) {
    forall i, j :: 0 <= i < j < |es| ==> Names(es)[i] != Names(es)[j]
  }

  /** With distinct names, set on an existing name replaces that entry in place. */
  lemma SetEntryDistinct(es: seq<Entry>, i: nat, v: FormValue)
    requires DistinctNames(es) && i < |es|
    ensures SetEntry(es, es[i].name, v) == es[i := Entry(es[i].name, v)]
  {
    var k := es[i].name;
    var names := Names(es);
    var j := IndexOf(names, k);
    assert names[i] == k;
    assert j == i;
    var t := es[i + 1..];
    assert k !in Names(t) by {
      assert Names(t) == names[i + 1..];
      forall m | i + 1 <= m < |es| ensures names[m] != k {
      }
    }
    FilterUnnamed(t, k);
    assert es[..i] + [Entry(k, v)] + t == es[i := Entry(k, v)];
  }

  /** A FormData object: its entry list. */
  class FormData {
    var entries: seq<Entry>

    /** `new FormData()`. */
    constructor ()
      ensures entries == []
    {
      entries := [];
    }

    /** `new FormData(form)`: the form's entry list. */
    constructor OfForm(es: seq<Entry>)
      ensures entries == es
    {
      entries := es;
    }

    /** append(name, value). */
    method Append(name: string, value: FormValue)
      modifies this
      ensures entries == old(entries) + [Entry(name, value)]
    {
      entries := entries + [Entry(name, value)];
    }

    /** set(name, value). */
    method Set(name: string, value: FormValue)
      modifies this
      ensures entries == SetEntry(old(entries), name, value)
    {
      entries := SetEntry(entries, name, value);
    }
  }

  // ---------------------------------------------------------------------------
  // The arguments of __fd
  // ---------------------------------------------------------------------------

  /** encodeURI (None: it throws a URIError) and the URLSearchParams serialisation of (name, value) pairs. */
  datatype Codecs = Codecs(encodeUri: string -> Option<string>, serialize: seq<(string, string)> -> string)

  /** A form argument other than a FormData object. */
  datatype FormSource =
    | PlainObject(pairs: seq<(string, FormValue)>)  // `{}`-constructed: its enumerable (key, value) pairs
    | OtherValue(v: JsValue)                         // anything else, resolved with `__o`

  /** The form argument: a FormData object (used and changed in place), or something to convert. */
  datatype FormArg = ExistingFormData(fd: FormData) | Source(src: FormSource)

  /** The extra data: an object's (key, value) pairs, or a value that is not an object (nothing is added). */
  datatype ExtraArg = ExtraObject(pairs: seq<(string, JsValue)>) | NotAnObject

  /** The entries a FormData built from a plain object holds. */
  function PairEntries(pairs: seq<(string, FormValue)>): (r: seq<Entry>)
    ensures |r| == |pairs| && forall i :: 0 <= i < |r| ==> r[i] == Entry(pairs[i].0, pairs[i].1)
  {
    seq(|pairs|, i requires 0 <= i < |pairs| => Entry(pairs[i].0, pairs[i].1))
  }

  /**
   * The conversion of a form argument that is not a FormData: a plain object
   * gives its pairs; null and undefined throw at `f.constructor`; anything else
   * is resolved with `__o` and must be a form element (None: `'nfe'`).
   */
  function Convert(dom: Dom, src: FormSource): (r: Outcome<Option<seq<Entry>>>)
    ensures src.PlainObject? ==> r == Ok(Some(PairEntries(src.pairs)))
    ensures src == OtherValue(Null) || src == OtherValue(Undefined) ==> r == Throw(TypeError)
    ensures r.Ok? && r.value.Some? && src.OtherValue? ==>
      exists k :: ResolveObject(dom, src.v, Null) == Ok(ElementObj(k)) && ElementAt(dom, k).tag == "form" && r.value.value == FormEntries(dom, k)
    ensures src.OtherValue? && src.v != Null && src.v != Undefined ==>
      var t := ResolveObject(dom, src.v, Null);
      && (t.Throw? ==> r == Throw(t.error))
      && (t.Ok? && t.value.ElementObj? && ElementAt(dom, t.value.id).tag == "form" ==> r == Ok(Some(FormEntries(dom, t.value.id))))
    ensures r == Ok(None) <==>
      && src.OtherValue? && src.v != Null && src.v != Undefined
      && ResolveObject(dom, src.v, Null).Ok?
      && !(ResolveObject(dom, src.v, Null).value.ElementObj? && ElementAt(dom, ResolveObject(dom, src.v, Null).value.id).tag == "form")
  {
    match src
    case PlainObject(pairs) => Ok(Some(PairEntries(pairs)))
    case OtherValue(v) =>
      if v == Null || v == Undefined then Throw(TypeError)
      else
        match ResolveObject(dom, v, Null)
        case Throw(x) => Throw(x)
        case Ok(t) =>
          if t.ElementObj? && ElementAt(dom, t.id).tag == "form" then Ok(Some(FormEntries(dom, t.id)))
          else Ok(None)
  }

  // ---------------------------------------------------------------------------
  // The required-field walk
  // ---------------------------------------------------------------------------

  /** The state of the walk: the entry list, the missing list `_r` and the names seen `i`. */
  datatype Pass = Pass(entries: seq<Entry>, missing: seq<string>, ids: seq<string>)

  /** A walk that went on, or one that threw (with the entry list as it was then). */
  datatype Step = Stepped(pass: Pass) | Stopped(error: JsError, entries: seq<Entry>)

  /** `_r.splice(_i, 1)` when `_i > -1`. */
  function RemoveAt(xs: seq<string>, i: int): (r: seq<string>)
    ensures 0 <= i < |xs| ==> multiset(r) == multiset(xs) - multiset{xs[i]}
    ensures !(0 <= i < |xs|) ==> r == xs
  {
    if 0 <= i < |xs| then
      assert xs == xs[..i] + [xs[i]] + xs[i + 1..];
      xs[..i] + xs[i + 1..]
    else xs
  }

  /**
   * One iteration of the `for…of` loop on the entry at index `idx`: note the
   * name; a text value is trimmed and URI-encoded and written back with
   * set; an empty value whose field is marked required (`check`, see
   * RequiredCheck) adds the name to the missing list; a non-empty value removes
   * the first occurrence of the name from it.
   */
  function Visit(check: string -> Outcome<bool>, codecs: Codecs, p: Pass, idx: nat): (r: Step)
    requires idx < |p.entries|
    ensures r.Stepped? ==> |r.pass.entries| <= |p.entries| && r.pass.ids == p.ids + [p.entries[idx].name]
  {
    var k := p.entries[idx].name;
    var pos := IndexOf(p.missing, k);
    var ids := p.ids + [k];
    match p.entries[idx].value
    case FileValue(_) => Stepped(Pass(p.entries, RemoveAt(p.missing, pos), ids))
    case TextValue(s) =>
      match codecs.encodeUri(Trim(s))
      case None => Stopped(UriError, p.entries)
      case Some(enc) =>
        assert Names(p.entries)[idx] == k;
        SetEntryShorter(p.entries, k, TextValue(enc));
        var es := SetEntry(p.entries, k, TextValue(enc));
        if enc != "" then Stepped(Pass(es, RemoveAt(p.missing, pos), ids))
        else
          match check(k)
          case Throw(x) => Stopped(x, es)
          case Ok(req) => Stepped(Pass(es, if req then p.missing + [k] else p.missing, ids))
  }

  /** Whether the field named k is marked required: `$ha(k, 'required')`, which resolves k as an element ID. */
  function RequiredCheck(dom: Dom): string -> Outcome<bool> {
    k => HasAttrib(dom, Str(k), "required")
  }

  /** The rest of the walk from index `idx` of the live entry list. */
  function Walk(check: string -> Outcome<bool>, codecs: Codecs, p: Pass, idx: nat): (r: Step)
    ensures r.Stepped? ==> |r.pass.ids| >= |p.ids| && r.pass.ids[..|p.ids|] == p.ids
    decreases |p.entries| - idx
  {
    if idx >= |p.entries| then Stepped(p)
    else
      match Visit(check, codecs, p, idx)
      case Stopped(x, es) => Stopped(x, es)
      case Stepped(q) =>
        var r := Walk(check, codecs, q, idx + 1);
        assert r.Stepped? ==> r.pass.ids[..|p.ids|] == r.pass.ids[..|q.ids|][..|p.ids|];
        r
  }

  /** Whether the walk counts a value as filled, when encodeURI keeps exactly the empty string empty. */
  predicate Filled(v: FormValue) {
    v.FileValue? || Trim(v.text) != ""
  }

  /** encodeURI maps the empty string, and only it, to the empty string. */
  ghost predicate KeepsEmptiness(codecs: Codecs) {
    forall s :: codecs.encodeUri(s).Some? ==> (codecs.encodeUri(s).value == "" <==> s == "")
  }

  /**
   * How one visit changes the missing list: a filled field removes one
   * occurrence of its name (if any), an empty one marked required appends it,
   * and any other empty one leaves the list as it was.
   */
  lemma VisitMissing(check: string -> Outcome<bool>, codecs: Codecs, p: Pass, idx: nat)
    requires idx < |p.entries| && KeepsEmptiness(codecs)
    requires Visit(check, codecs, p, idx).Stepped?
    ensures var k := p.entries[idx].name; var q := Visit(check, codecs, p, idx).pass;
      && (Filled(p.entries[idx].value) ==> multiset(q.missing) == multiset(p.missing) - multiset{k})
      && (Filled(p.entries[idx].value) && k in p.missing ==> |q.missing| == |p.missing| - 1)
      && (!Filled(p.entries[idx].value) && check(k) == Ok(true) ==> q.missing == p.missing + [k])
      && (!Filled(p.entries[idx].value) && check(k) == Ok(false) ==> q.missing == p.missing)
  {
    var k := p.entries[idx].name;
    var pos := IndexOf(p.missing, k);
    if pos == -1 {
      assert multiset(p.missing)[k] == 0;
    }
    var v := p.entries[idx].value;
    if v.TextValue? {
      var enc := codecs.encodeUri(Trim(v.text));
      assert enc.Some?;
    }
  }

  /** An entry the walk throws on: a URIError from encodeURI, or whatever `$ha` throws for an empty field. */
  lemma VisitThrows(check: string -> Outcome<bool>, codecs: Codecs, p: Pass, idx: nat)
    requires idx < |p.entries| && p.entries[idx].value.TextValue?
    ensures var k := p.entries[idx].name; var enc := codecs.encodeUri(Trim(p.entries[idx].value.text));
      && (enc.None? ==> Visit(check, codecs, p, idx) == Stopped(UriError, p.entries))
      && (enc == Some("") && check(k).Throw? ==>
            Visit(check, codecs, p, idx) == Stopped(check(k).error, SetEntry(p.entries, k, TextValue(""))))
  {
  }

  /** A visit keeps the set of names of the entry list and does not lengthen it. */
  lemma VisitNames(check: string -> Outcome<bool>, codecs: Codecs, p: Pass, idx: nat)
    requires idx < |p.entries| && Visit(check, codecs, p, idx).Stepped?
    ensures var q := Visit(check, codecs, p, idx).pass;
      |q.entries| <= |p.entries| && forall n :: n in Names(q.entries) <==> n in Names(p.entries)
  {
    var k := p.entries[idx].name;
    assert Names(p.entries)[idx] == k;
    var v := p.entries[idx].value;
    if v.TextValue? {
      SetEntryShape(p.entries, k, TextValue(codecs.encodeUri(Trim(v.text)).value));
    }
  }

  /** Removing the first k leaves the count of every other string as it was. */
  lemma RemoveFirstKeepsOthers(xs: seq<string>, k: string, x: string)
    requires x != k
    ensures multiset(RemoveAt(xs, IndexOf(xs, k)))[x] == multiset(xs)[x]
  {
    var pos := IndexOf(xs, k);
    if pos >= 0 {
      assert xs[pos] == k;
    }
  }

  /** A visit changes the missing list only at the visited name. */
  lemma VisitKeepsOtherCounts(check: string -> Outcome<bool>, codecs: Codecs, p: Pass, idx: nat, x: string)
    requires idx < |p.entries| && Visit(check, codecs, p, idx).Stepped?
    requires x != p.entries[idx].name
    ensures multiset(Visit(check, codecs, p, idx).pass.missing)[x] == multiset(p.missing)[x]
  {
    var k := p.entries[idx].name;
    var q := Visit(check, codecs, p, idx).pass;
    var v := p.entries[idx].value;
    if v.FileValue? || codecs.encodeUri(Trim(v.text)).value != "" {
      assert q.missing == RemoveAt(p.missing, IndexOf(p.missing, k));
      RemoveFirstKeepsOthers(p.missing, k, x);
    } else {
      assert q.missing == p.missing + [k] || q.missing == p.missing;
      assert multiset(p.missing + [k])[x] == multiset(p.missing)[x];
    }
  }

  /** A name no entry carries is never removed from the missing list: required fields absent from the form stay missing. */
  lemma {:induction false} AbsentStayMissing(check: string -> Outcome<bool>, codecs: Codecs, p: Pass, idx: nat, x: string)
    requires x !in Names(p.entries)
    requires Walk(check, codecs, p, idx).Stepped?
    ensures multiset(Walk(check, codecs, p, idx).pass.missing)[x] >= multiset(p.missing)[x]
    decreases |p.entries| - idx
  {
    if idx < |p.entries| {
      var q := Visit(check, codecs, p, idx).pass;
      AbsentWalkStep(check, codecs, p, idx, x);
      AbsentStayMissing(check, codecs, q, idx + 1, x);
    }
  }

  /** One step of a walk that goes on, seen from a name no entry carries. */
  lemma AbsentWalkStep(check: string -> Outcome<bool>, codecs: Codecs, p: Pass, idx: nat, x: string)
    requires x !in Names(p.entries)
    requires idx < |p.entries| && Walk(check, codecs, p, idx).Stepped?
    ensures var q := Visit(check, codecs, p, idx).pass;
      && Visit(check, codecs, p, idx).Stepped?
      && x !in Names(q.entries)
      && multiset(q.missing)[x] == multiset(p.missing)[x]
      && Walk(check, codecs, q, idx + 1).Stepped?
      && Walk(check, codecs, p, idx).pass.missing == Walk(check, codecs, q, idx + 1).pass.missing
  {
    WalkStep(check, codecs, p, idx);
    AbsentStep(check, codecs, p, idx, x);
  }

  /** A visit neither introduces an absent name nor changes its count in the missing list. */
  lemma AbsentStep(check: string -> Outcome<bool>, codecs: Codecs, p: Pass, idx: nat, x: string)
    requires x !in Names(p.entries)
    requires idx < |p.entries| && Visit(check, codecs, p, idx).Stepped?
    ensures var q := Visit(check, codecs, p, idx).pass;
      x !in Names(q.entries) && multiset(q.missing)[x] == multiset(p.missing)[x]
  {
    assert x != p.entries[idx].name by {
      assert Names(p.entries)[idx] == p.entries[idx].name;
    }
    VisitNames(check, codecs, p, idx);
    VisitKeepsOtherCounts(check, codecs, p, idx, x);
  }

  /** A walk that goes on is its first visit followed by the rest of the walk. */
  lemma WalkStep(check: string -> Outcome<bool>, codecs: Codecs, p: Pass, idx: nat)
    requires idx < |p.entries| && Walk(check, codecs, p, idx).Stepped?
    ensures Visit(check, codecs, p, idx).Stepped?
    ensures Walk(check, codecs, p, idx) == Walk(check, codecs, Visit(check, codecs, p, idx).pass, idx + 1)
  {
  }

  /**
   * With distinct names the walk visits every entry once and in order: `ids`
   * gets every name from `idx` on, the entry names are kept, and the entries
   * before `idx` are not touched.
   */
  lemma {:induction false} WalkDistinct(check: string -> Outcome<bool>, codecs: Codecs, p: Pass, idx: nat)
    requires DistinctNames(p.entries) && idx <= |p.entries|
    requires Walk(check, codecs, p, idx).Stepped?
    ensures var q := Walk(check, codecs, p, idx).pass;
      && q.ids == p.ids + Names(p.entries)[idx..]
      && Names(q.entries) == Names(p.entries)
      && q.entries[..idx] == p.entries[..idx]
    decreases |p.entries| - idx
  {
    if idx < |p.entries| {
      WalkStep(check, codecs, p, idx);
      DistinctStep(check, codecs, p, idx);
      var q := Visit(check, codecs, p, idx).pass;
      WalkDistinct(check, codecs, q, idx + 1);
      var w := Walk(check, codecs, q, idx + 1).pass;
      ConsSlice(p.ids, Names(p.entries), idx, q.ids, w.ids);
      PrefixSlice(w.entries, q.entries, p.entries, idx);
    }
  }

  /** a + [n[idx]] followed by n[idx + 1..] is a + n[idx..]. */
  lemma ConsSlice(a: seq<string>, n: seq<string>, idx: nat, b: seq<string>, c: seq<string>)
    requires idx < |n| && b == a + [n[idx]] && c == b + n[idx + 1..]
    ensures c == a + n[idx..]
  {
    assert n[idx..] == [n[idx]] + n[idx + 1..];
  }

  /** Prefixes of length idx + 1 that agree, of a list whose first idx entries are those of z, agree with z on idx. */
  lemma PrefixSlice<T>(x: seq<T>, y: seq<T>, z: seq<T>, idx: nat)
    requires idx + 1 <= |x| && idx + 1 <= |y| && idx <= |z|
    requires x[..idx + 1] == y[..idx + 1] && y[..idx + 1][..idx] == z[..idx]
    ensures x[..idx] == z[..idx]
  {
    assert x[..idx] == x[..idx + 1][..idx];
  }

  /** One visit with distinct names: the names stay distinct and unchanged, the entries before idx stay. */
  lemma DistinctStep(check: string -> Outcome<bool>, codecs: Codecs, p: Pass, idx: nat)
    requires DistinctNames(p.entries) && idx < |p.entries|
    requires Visit(check, codecs, p, idx).Stepped?
    ensures var q := Visit(check, codecs, p, idx).pass;
      && DistinctNames(q.entries)
      && Names(q.entries) == Names(p.entries)
      && q.ids == p.ids + [Names(p.entries)[idx]]
      && q.entries[..idx + 1][..idx] == p.entries[..idx]
  {
    var q := Visit(check, codecs, p, idx).pass;
    VisitDistinct(check, codecs, p, idx);
    RenameFree(p.entries, idx, q.entries[idx]);
    assert q.entries[..idx + 1][..idx] == q.entries[..idx];
  }

  /** With distinct names a visit rewrites only the visited entry, keeping its name. */
  lemma VisitDistinct(check: string -> Outcome<bool>, codecs: Codecs, p: Pass, idx: nat)
    requires DistinctNames(p.entries) && idx < |p.entries|
    requires Visit(check, codecs, p, idx).Stepped?
    ensures var q := Visit(check, codecs, p, idx).pass;
      |q.entries| == |p.entries| && q.entries[idx].name == p.entries[idx].name && q.entries == p.entries[idx := q.entries[idx]]
  {
    if p.entries[idx].value.TextValue? {
      var enc := codecs.encodeUri(Trim(p.entries[idx].value.text)).value;
      SetEntryDistinct(p.entries, idx, TextValue(enc));
    }
  }

  /** Replacing an entry by one with the same name keeps the names, and their distinctness. */
  lemma RenameFree(es: seq<Entry>, i: nat, e: Entry)
    requires i < |es| && e.name == es[i].name
    ensures Names(es[i := e]) == Names(es)
    ensures DistinctNames(es) ==> DistinctNames(es[i := e])
  {
    var es' := es[i := e];
    assert forall j :: 0 <= j < |es| ==> es'[j].name == es[j].name;
  }

  /**
   * Two text fields with the same name: the first one's set removes the
   * second, so only one is seen, checked and kept.
   */
  lemma DuplicateNamesCollapse(check: string -> Outcome<bool>, codecs: Codecs, k: string, a: string, b: string, x: string)
    requires codecs.encodeUri(Trim(a)) == Some(x) && x != ""
    ensures var es := [Entry(k, TextValue(a)), Entry(k, TextValue(b))];
      Walk(check, codecs, Pass(es, [k, k], []), 0) == Stepped(Pass([Entry(k, TextValue(x))], [k], [k]))
  {
    var es := [Entry(k, TextValue(a)), Entry(k, TextValue(b))];
    var q := Pass([Entry(k, TextValue(x))], [k], [k]);
    CollapseSet(es, k, TextValue(x));
    assert IndexOf([k, k], k) == 0;
    assert RemoveAt([k, k], 0) == [k];
    assert Visit(check, codecs, Pass(es, [k, k], []), 0) == Stepped(q);
  }

  /** set on a list of two entries with the same name leaves the one new entry. */
  lemma CollapseSet(es: seq<Entry>, k: string, v: FormValue)
    requires |es| == 2 && es[0].name == k && es[1].name == k
    ensures SetEntry(es, k, v) == [Entry(k, v)]
  {
    assert Names(es)[0] == k;
    assert WithoutName(es[1..], k) == [] by {
      assert es[1..][1..] == [];
    }
  }

  // ---------------------------------------------------------------------------
  // Extra data and output
  // ---------------------------------------------------------------------------

  /** The outcome of appending the extra data: the entry list, and the error that stopped it, if any. */
  datatype Appended = Appended(entries: seq<Entry>, error: Option<JsError>)

  /** `for (let k in e) f.append(k, e[k].trim())`: a value without trim (not a string) throws a TypeError. */
  function AppendExtras(es: seq<Entry>, pairs: seq<(string, JsValue)>): (r: Appended)
    ensures r.error.None? || r.error == Some(TypeError)
    ensures r.error.None? <==> forall i :: 0 <= i < |pairs| ==> pairs[i].1.Str?
    decreases |pairs|
  {
    if pairs == [] then Appended(es, None)
    else if !pairs[0].1.Str? then Appended(es, Some(TypeError))
    else
      var r := AppendExtras(es + [Entry(pairs[0].0, TextValue(Trim(pairs[0].1.s)))], pairs[1..]);
      assert forall i :: 1 <= i < |pairs| ==> pairs[i] == pairs[1..][i - 1];
      r
  }

  /** The extra pairs as entries, with their values trimmed. */
  function TrimmedExtras(pairs: seq<(string, JsValue)>): (r: seq<Entry>)
    requires forall i :: 0 <= i < |pairs| ==> pairs[i].1.Str?
    ensures |r| == |pairs|
  {
    seq(|pairs|, i requires 0 <= i < |pairs| => Entry(pairs[i].0, TextValue(Trim(pairs[i].1.s))))
  }

  /** Each extra pair is appended after the form's entries, in order, its value trimmed. */
  lemma {:induction false} AppendExtrasAppends(es: seq<Entry>, pairs: seq<(string, JsValue)>)
    requires forall i :: 0 <= i < |pairs| ==> pairs[i].1.Str?
    ensures AppendExtras(es, pairs) == Appended(es + TrimmedExtras(pairs), None)
    decreases |pairs|
  {
    if pairs != [] {
      var e := Entry(pairs[0].0, TextValue(Trim(pairs[0].1.s)));
      assert forall i :: 0 <= i < |pairs[1..]| ==> pairs[1..][i] == pairs[i + 1];
      AppendExtrasAppends(es + [e], pairs[1..]);
      assert TrimmedExtras(pairs) == [e] + TrimmedExtras(pairs[1..]);
    }
  }

  /** The extra data of the `ExtraArg`, as `AppendExtras` sees it. */
  function ExtraPairs(extra: ExtraArg): seq<(string, JsValue)> {
    match extra
    case ExtraObject(pairs) => pairs
    case NotAnObject => []
  }

  /** `Object.fromEntries`: each name gets the value of its last entry. */
  function FromEntries(es: seq<Entry>): (r: map<string, FormValue>)
    ensures forall k :: k in r <==> k in Names(es)
  {
    if es == [] then map[]
    else
      var init := es[..|es| - 1];
      var last := es[|es| - 1];
      assert Names(es) == Names(init) + [last.name];
      FromEntries(init)[last.name := last.value]
  }

  /** Each name gets the value of its last entry. */
  lemma {:induction false} FromEntriesLastWins(es: seq<Entry>, i: nat)
    requires i < |es| && forall j :: i < j < |es| ==> es[j].name != es[i].name
    ensures es[i].name in FromEntries(es) && FromEntries(es)[es[i].name] == es[i].value
  {
    var init := es[..|es| - 1];
    if i < |es| - 1 {
      assert init[i] == es[i];
      assert forall j :: i < j < |init| ==> init[j] == es[j];
      FromEntriesLastWins(init, i);
    }
  }

  /** `URLSearchParams(f)`: each entry as a pair of strings; a File value becomes "[object File]". */
  function Pairs(es: seq<Entry>): (r: seq<(string, string)>)
    ensures |r| == |es|
    ensures forall i :: 0 <= i < |es| ==> r[i].0 == es[i].name
    ensures forall i :: 0 <= i < |es| ==> r[i].1 == (if es[i].value.TextValue? then es[i].value.text else "[object File]")
  {
    seq(|es|, i requires 0 <= i < |es| =>
      (es[i].name, match es[i].value case TextValue(s) => s case FileValue(_) => "[object File]"))
  }

  /** The data `__fd` returns: a query string (`'s'`), an object (`'j'`) or the FormData itself (anything else). */
  datatype Payload = QueryString(text: string) | JsonObject(fields: map<string, FormValue>) | FormDataItself

  /** The three results of `__fd`: `{err:'nfe'}`, `{err:'mrf', data, ids}`, or `{err:'', data}`. */
  datatype FdValue = NotForm | MissingRequired(missing: seq<string>, ids: seq<string>) | Extracted(payload: Payload)

  function Output(codecs: Codecs, es: seq<Entry>, t: string): (r: Payload)
    ensures t == "s" ==> r.QueryString?
    ensures t == "j" ==> r.JsonObject? && forall k :: k in r.fields <==> k in Names(es)
    ensures t != "s" && t != "j" ==> r == FormDataItself
  {
    if t == "s" then QueryString(codecs.serialize(Pairs(es)))
    else if t == "j" then JsonObject(FromEntries(es))
    else FormDataItself
  }

  /** What `__fd` ends with: its result, and the entry list of the FormData it worked on. */
  datatype Ended = Ended(result: Outcome<FdValue>, entries: seq<Entry>)

  /**
   * `__fd` once the FormData holds `es`: the walk, then `'mrf'` exactly when
   * the missing list is non-empty, else the extra data and the output.
   */
  function Extract(dom: Dom, codecs: Codecs, es: seq<Entry>, required: seq<string>, extra: ExtraArg, t: string): (r: Ended)
    ensures Walk(RequiredCheck(dom), codecs, Pass(es, required, []), 0).Stopped? ==> r.result.Throw?
    ensures r.result.Ok? && r.result.value.MissingRequired? <==>
      var w := Walk(RequiredCheck(dom), codecs, Pass(es, required, []), 0); w.Stepped? && w.pass.missing != []
    ensures r.result.Ok? && r.result.value.MissingRequired? ==>
      var w := Walk(RequiredCheck(dom), codecs, Pass(es, required, []), 0).pass; r.result.value == MissingRequired(w.missing, w.ids)
    ensures r.result.Ok? ==> !r.result.value.NotForm?
  {
    match Walk(RequiredCheck(dom), codecs, Pass(es, required, []), 0)
    case Stopped(x, es') => Ended(Throw(x), es')
    case Stepped(p) =>
      if p.missing != [] then Ended(Ok(MissingRequired(p.missing, p.ids)), p.entries)
      else
        var a := AppendExtras(p.entries, ExtraPairs(extra));
        match a.error
        case Some(x) => Ended(Throw(x), a.entries)
        case None => Ended(Ok(Extracted(Output(codecs, a.entries, t))), a.entries)
  }

  /** Required names absent from the form always make `__fd` report them as missing. */
  lemma AbsentRequiredReported(dom: Dom, codecs: Codecs, es: seq<Entry>, required: seq<string>, extra: ExtraArg, t: string, x: string)
    requires x in required && x !in Names(es)
    requires Extract(dom, codecs, es, required, extra, t).result.Ok?
    ensures Extract(dom, codecs, es, required, extra, t).result.value.MissingRequired?
    ensures x in Extract(dom, codecs, es, required, extra, t).result.value.missing
  {
    AbsentStayMissing(RequiredCheck(dom), codecs, Pass(es, required, []), 0, x);
    var w := Walk(RequiredCheck(dom), codecs, Pass(es, required, []), 0).pass;
    assert multiset(w.missing)[x] > 0;
  }

  /** On success the extra data follows the walked entries, trimmed, in order. */
  lemma ExtractSuccess(dom: Dom, codecs: Codecs, es: seq<Entry>, required: seq<string>, extra: ExtraArg, t: string)
    requires Walk(RequiredCheck(dom), codecs, Pass(es, required, []), 0).Stepped?
    requires Walk(RequiredCheck(dom), codecs, Pass(es, required, []), 0).pass.missing == []
    requires forall i :: 0 <= i < |ExtraPairs(extra)| ==> ExtraPairs(extra)[i].1.Str?
    ensures var w := Walk(RequiredCheck(dom), codecs, Pass(es, required, []), 0).pass;
      var all := w.entries + TrimmedExtras(ExtraPairs(extra));
      Extract(dom, codecs, es, required, extra, t) == Ended(Ok(Extracted(Output(codecs, all, t))), all)
  {
    var w := Walk(RequiredCheck(dom), codecs, Pass(es, required, []), 0).pass;
    AppendExtrasAppends(w.entries, ExtraPairs(extra));
  }

  // ---------------------------------------------------------------------------
  // __fd as a procedure over a FormData object
  // ---------------------------------------------------------------------------

  /** The required-field walk over the live entry list of `fd`. */
  method CheckFields(dom: Dom, codecs: Codecs, fd: FormData, required: seq<string>) returns (r: Step)
    modifies fd
    ensures r == Walk(RequiredCheck(dom), codecs, Pass(old(fd.entries), required, []), 0)
    ensures fd.entries == (if r.Stepped? then r.pass.entries else r.entries)
  {
    var missing := required;
    var ids: seq<string> := [];
    var idx := 0;
    while idx < |fd.entries|
      invariant Walk(RequiredCheck(dom), codecs, Pass(fd.entries, missing, ids), idx) == Walk(RequiredCheck(dom), codecs, Pass(old(fd.entries), required, []), 0)
      decreases |fd.entries| - idx
    {
      var step := VisitEntry(dom, codecs, fd, missing, ids, idx);
      if step.Stopped? {
        return step;
      }
      missing, ids, idx := step.pass.missing, step.pass.ids, idx + 1;
    }
    return Stepped(Pass(fd.entries, missing, ids));
  }

  /** One iteration of the walk's loop on the entry at `idx` of `fd`. */
  method VisitEntry(dom: Dom, codecs: Codecs, fd: FormData, missing: seq<string>, ids: seq<string>, idx: nat) returns (r: Step)
    requires idx < |fd.entries|
    modifies fd
    ensures r == Visit(RequiredCheck(dom), codecs, Pass(old(fd.entries), missing, ids), idx)
    ensures fd.entries == (if r.Stepped? then r.pass.entries else r.entries)
  {
    var k := fd.entries[idx].name;
    var v := fd.entries[idx].value;
    var pos := IndexOf(missing, k);
    var ids' := ids + [k];
    if v.FileValue? {
      return Stepped(Pass(fd.entries, RemoveAt(missing, pos), ids'));
    }
    var enc := codecs.encodeUri(Trim(v.text));
    if enc.None? {
      return Stopped(UriError, fd.entries);
    }
    fd.Set(k, TextValue(enc.value));
    if enc.value != "" {
      return Stepped(Pass(fd.entries, RemoveAt(missing, pos), ids'));
    }
    var req := HasAttrib(dom, Str(k), "required");
    assert req == RequiredCheck(dom)(k);
    if req.Throw? {
      return Stopped(req.error, fd.entries);
    }
    return Stepped(Pass(fd.entries, if req.value then missing + [k] else missing, ids'));
  }

  /** Appends the extra data to `fd`, stopping at the first value that is not a string. */
  method AddExtras(fd: FormData, pairs: seq<(string, JsValue)>) returns (err: Option<JsError>)
    modifies fd
    ensures Appended(fd.entries, err) == AppendExtras(old(fd.entries), pairs)
  {
    var i := 0;
    while i < |pairs|
      invariant 0 <= i <= |pairs|
      invariant AppendExtras(fd.entries, pairs[i..]) == AppendExtras(old(fd.entries), pairs)
    {
      if !pairs[i].1.Str? {
        return Some(TypeError);
      }
      assert pairs[i..][1..] == pairs[i + 1..];
      fd.Append(pairs[i].0, TextValue(Trim(pairs[i].1.s)));
      i := i + 1;
    }
    return None;
  }

  /** The entry list `__fd` starts from: the FormData's own, or the conversion's. */
  function StartEntries(dom: Dom, f: FormArg): Outcome<Option<seq<Entry>>>
    reads if f.ExistingFormData? then {f.fd} else {}
  {
    if f.ExistingFormData? then Ok(Some(f.fd.entries)) else Convert(dom, f.src)
  }

  /** The value `__fd` returns, given where it starts from. */
  function FdOutcome(dom: Dom, codecs: Codecs, start: Outcome<Option<seq<Entry>>>, required: seq<string>, extra: ExtraArg, t: string): Outcome<FdValue> {
    match start
    case Throw(x) => Throw(x)
    case Ok(es) => if es.None? then Ok(NotForm) else Extract(dom, codecs, es.value, required, extra, t).result
  }

  /**
   * `VJS.__fd(f, r, e, t)`. `fd` is the FormData worked on: the caller's own
   * object when `f` is one (it is changed in place), a new one otherwise,
   * none when the conversion throws or finds no form.
   */
  method ExtractFormData(dom: Dom, codecs: Codecs, f: FormArg, required: seq<string>, extra: ExtraArg, t: string)
    returns (r: Outcome<FdValue>, fd: FormData?)
    modifies if f.ExistingFormData? then {f.fd} else {}
    ensures f.ExistingFormData? ==>
      var x := Extract(dom, codecs, old(f.fd.entries), required, extra, t);
      fd == f.fd && r == x.result && fd.entries == x.entries
    ensures f.Source? ==>
      match Convert(dom, f.src)
      case Throw(x) => r == Throw(x) && fd == null
      case Ok(None) => r == Ok(NotForm) && fd == null
      case Ok(Some(es)) =>
        var x := Extract(dom, codecs, es, required, extra, t);
        fd != null && fresh(fd) && r == x.result && fd.entries == x.entries
    ensures r == FdOutcome(dom, codecs, old(StartEntries(dom, f)), required, extra, t)
  {
    if f.ExistingFormData? {
      fd := f.fd;
    } else {
      var src := f.src;
      if src.PlainObject? {
        var pairs := src.pairs;
        fd := new FormData();
        var i := 0;
        while i < |pairs|
          invariant 0 <= i <= |pairs|
          invariant fresh(fd) && fd.entries == PairEntries(pairs[..i])
        {
          fd.Append(pairs[i].0, pairs[i].1);
          assert pairs[..i + 1] == pairs[..i] + [pairs[i]];
          i := i + 1;
        }
        assert pairs[..i] == pairs;
      } else {
        var v := src.v;
        if v == Null || v == Undefined {
          return Throw(TypeError), null;
        }
        var target := ResolveObject(dom, v, Null);
        if target.Throw? {
          return Throw(target.error), null;
        }
        if !(target.value.ElementObj? && ElementAt(dom, target.value.id).tag == "form") {
          return Ok(NotForm), null;
        }
        fd := new FormData.OfForm(FormEntries(dom, target.value.id));
      }
    }
    ghost var start := fd.entries;
    var w := CheckFields(dom, codecs, fd, required);
    if w.Stopped? {
      return Throw(w.error), fd;
    }
    if w.pass.missing != [] {
      return Ok(MissingRequired(w.pass.missing, w.pass.ids)), fd;
    }
    var err := AddExtras(fd, ExtraPairs(extra));
    if err.Some? {
      return Throw(err.value), fd;
    }
    r := Ok(Extracted(Output(codecs, fd.entries, t)));
    assert Extract(dom, codecs, start, required, extra, t) == Ended(r, fd.entries);
  }

  // ---------------------------------------------------------------------------
  // The output type of $fd
  // ---------------------------------------------------------------------------

  /** `$fd`'s `t.toLowerCase()`, then `'string'`/`'json'` to their first letter and anything else to `'fd'`. */
  function NormalizeType(t: string): string {
    var l := ToLowerCase(t);
    if l == "string" then "s" else if l == "json" then "j" else "fd"
  }

  /** t spells w (lower-case letters other than k) in any mix of upper and lower case. */
  predicate SpellsIgnoringCase(t: string, w: string) {
    |t| == |w| && forall i :: 0 <= i < |t| ==> t[i] == w[i] || t[i] as int == w[i] as int - 32
  }

  lemma LowerIsWord(t: string, w: string)
    requires forall i :: 0 <= i < |w| ==> 'a' <= w[i] <= 'z' && w[i] != 'k'
    ensures ToLowerCase(t) == w <==> SpellsIgnoringCase(t, w)
  {
    if ToLowerCase(t) == w {
      forall i | 0 <= i < |t| ensures t[i] == w[i] || t[i] as int == w[i] as int - 32 {
        assert CharLower(t[i]) == w[i];
        CharLowerInverse(t[i], w[i]);
      }
    }
    if SpellsIgnoringCase(t, w) {
      forall i | 0 <= i < |t| ensures ToLowerCase(t)[i] == w[i] {
        CharLowerInverse(t[i], w[i]);
      }
    }
  }

  /** `$fd` picks `'s'` exactly for "string" and `'j'` exactly for "json", in any case, and `'fd'` for everything else. */
  lemma NormalizeTypeCases(t: string)
    ensures NormalizeType(t) == "s" <==> SpellsIgnoringCase(t, "string")
    ensures NormalizeType(t) == "j" <==> SpellsIgnoringCase(t, "json")
    ensures NormalizeType(t) == "fd" <==> !SpellsIgnoringCase(t, "string") && !SpellsIgnoringCase(t, "json")
  {
    LowerIsWord(t, "string");
    LowerIsWord(t, "json");
  }
}
