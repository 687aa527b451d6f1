# v.JS core in Dafny

This project models the core of v.JS (`src/v.js`), a small wrapper around the browser DOM, and proves properties of the model. The core covers four things:

- **Element selection.** `VJS.__e` classifies a selector string, or takes an object, and returns the document, the window, one element, a collection or null. `VJS.__o` reads a string as an element ID. The entry points `$`, `$$`, `$c` and `$t` are built on `__e`. The instance aliases (`getElemById`, `getElemsByClassNm`, `getElemsByTagNm`, `hasAttrib`, …) forward to the same methods, so the same members model them.
- **Attributes.** `$ha`, `$ga`, `$sa` and `$ra` work on attributes. The data-attribute forms `$hda`, `$gda`, `$sda` and `$rda` build their names with `VJS.__d`.
- **Class lists.** `VJS.__c` adds or removes classes.
- **Form extraction.** `VJS.__fd` converts a form, an object or a FormData, checks required fields, appends extra data and produces a query string, an object or the FormData. `$fd` normalises the output type and applies validation classes.

Modules (one file each):

- **JsValues** (`jsvalues.dfy`): the JavaScript values that cross the API, the errors thrown, `Outcome` (a value or a throw), and the string primitives used (`trim`, `toLowerCase`, `indexOf`), with lemmas about them.
- **ClassTokens** (`tokens.dfy`): the DOM Standard's ordered sets of tokens behind `classList`. This covers the parser (split on ASCII white space, drop repeats), the serializer (join with single spaces), and the proof that parsing inverts serializing.
- **DomModel** (`dommodel.dfy`): the document as a value.
  - It holds the tree order, an element store (tag, attribute map, ancestors), the CSS selector engine and the form entry builder.
  - An element's class list is not stored: it is the parse of its `class` attribute. A class-list update writes the serialized list back to that attribute, as DOMTokenList's update steps do.
  - `getElementById`, `getElementsByClassName` and `getElementsByTagName` are computed from the store.
  - `querySelectorAll` and `new FormData(form)` are left uninterpreted: they are function-valued fields applied to the current element store, so changing an element can change what they return.
- **Selector** (`selector.dfy`): `__e`, `__o` and the entry points.
  - `Classify` is the rule order of the string branch: trim, lower-case, then `#?document`, `#?window`, `#id`, `.class`, `=tag`, tag token, and otherwise a CSS query.
  - `FindElement`, `InContext` and `ResolveObject` are mutually recursive, as `__e` and `__o` are.
- **Attributes** (`attributes.dfy`): `__d` and the attribute helpers.
  - The mutators are effect functions from a document to the resulting document, or to the error they throw.
  - This includes the setAttribute name check and the DOMTokenList token checks.
- **Forms** (`forms.dfy`): FormData as a class whose entry list is updated in place, with `append` and `set`.
  - `ExtractFormData` is `__fd` as a method. Its loops are proved against the recursive specification `Walk`, one `Visit` per entry. The walk runs over the live entry list, since `set` during the `for…of` changes what the loop sees next.
  - `Extract` is the whole specification, ending with the output type.
- **Vjs** (`vjs.dfy`): a class `Library` whose `dom` field is the document.
  - Its methods apply the mutators.
  - `GetFormData` is `$fd`. It specifies the validation-class `forEach` by the fold `MarkFields`.

## Model

| member | source | states |
|---|---|---|
| JsValues.IndexOf | src/v.js:1076 | `Array.prototype.indexOf`: -1 exactly when absent, otherwise the first index holding the string. |
| JsValues.TrimIdempotent | src/v.js:1028 | Trimming a selector twice is trimming it once. |
| JsValues.LowerTrim | src/v.js:1028-1029 | Lower-casing commutes with trim, so the classified text does not depend on the order of the two steps. |
| DomModel.GetElementById | src/v.js:961 | `__$`: the element found carries that ID, is in the document, and no element before it in tree order carries that ID. Null is returned exactly when no element in tree order has it. |
| DomModel.Collect | src/v.js:963-964 | `__$t`/`__$c`: a collection holds exactly the matching elements of the scope, and is no longer than the tree order. |
| DomModel.MatchingIndices | src/v.js:963-964 | The positions in tree order of the matching elements, increasing, and containing every matching position. |
| DomModel.CollectInOrder | src/v.js:963-964 | The collection is the tree order picked at exactly the matching positions, in increasing order, so it is in document order. |
| DomModel.CollectFirst | src/v.js:963-964 | `item(0)` of a collection is the first matching element in tree order. |
| DomModel.ClassesOf | src/v.js:991 | `classList` is always an ordered set of tokens: no repeats, no empty or white-space tokens. |
| DomModel.WriteThenReadClasses | src/v.js:991 | After DOMTokenList writes a set back, `classList` reads that set again. The `class` attribute holds its serialization, and is created only for a non-empty set. The other attributes are kept, and so is every other element. |
| DomModel.FirstClassOnBareElement | src/v.js:991 | Adding one class to an element with no `class` attribute creates the attribute holding just that class. |
| DomModel.ClassListUpdates | src/v.js:991 | After `add` the class list holds the old classes and the tokens. After `remove` it holds the old ones that were not removed. Both are ordered sets. |
| DomModel.WriteClassesKeepsIdentities | src/v.js:991 | Writing a class list back keeps the tree order and every ID. |
| ClassTokens.SplitWords | src/v.js:991 | Splitting on ASCII white space yields only tokens. |
| ClassTokens.Dedupe | src/v.js:991 | Dropping repeats keeps exactly the same items, without repeats. |
| ClassTokens.WithoutTokens | src/v.js:991 | Removing tokens keeps exactly the items not removed. |
| ClassTokens.ParseSerialize | src/v.js:991 | Parsing the serialization of an ordered set of tokens gives the set back. |
| ClassTokens.WithoutTokensSet | src/v.js:991 | Removing tokens from an ordered set leaves an ordered set. |
| Selector.RuleOf | src/v.js:1031-1046 | The ID, class and `=` rules only match selectors of at least three characters, because their patterns need a sigil and two name characters. |
| Selector.FindElement | src/v.js:1024-1054 | `__e` yields one node (document, window, element or null), or a collection only when `all` is set. |
| Selector.InContext | src/v.js:1035-1046 | A lookup in a resolved context has the same result shape. |
| Selector.ClassifyWellFormed | src/v.js:1027-1046 | Every selector falls into exactly one rule, with the payload that rule admits. The text handed to the lookup is the trimmed selector in its original case, minus the sigil. The keyword rules hold exactly for `#?document` and `#?window` after trim and lower-casing. |
| Selector.ClassifyIgnoresSurroundingSpace | src/v.js:1028 | Leading and trailing white space never changes the classification. |
| Selector.ClassifyCaseInsensitive | src/v.js:1029-1046 | The rule is chosen on the lower-cased text: lower-casing the selector never changes the rule. |
| Selector.RenderRoundTrip | src/v.js:1031-1046 | Rendering any well-formed form as selector text and classifying it gives the same form back. |
| Selector.HashSelectorForms | src/v.js:1031-1033 | A `#`-prefixed selector is a keyword, an ID or a query, never a class, `=` or tag lookup. |
| Selector.RuleOrderExamples | src/v.js:1031-1046 | Concrete cases of the rule precedence: `#window`, ` #Document `, `#Main`, the too-short ID `#a`, `.Btn`, `="div"`, `b`, `H2`, `h7`, `c`. |
| Selector.SingleIsFirstOfAll | src/v.js:1034-1046 | For every string and context, the single result is `item(0)` of the all-results form, or the same error or node. |
| Selector.AllResultShape | src/v.js:1034-1046 | With `all` set, the class, `=` and tag rules give live collections and the query rule a static one. |
| Selector.RuleRunsLookup | src/v.js:1034-1046 | For the class, `=`, tag and query rules, `__e` first resolves the context with `__o(e, document)` and rethrows its error. A context that is the window throws a TypeError. Otherwise `__e` is getElementsByClassName (class rule) or getElementsByTagName (`=` and tag rules), on the document or under the element: the live collection, or its first element. The query rule is querySelectorAll there, a static collection or its first node, and invalid CSS throws a SyntaxError. |
| Selector.LookupShape | src/v.js:1034-1046 | A lookup with `all` set gives a collection, live for class and tag lookups and static for `querySelectorAll`. |
| Selector.IdIgnoresContext | src/v.js:1033 | The ID rule ignores context and `all`. Its result is null exactly when no element has that ID; otherwise it is an element with that ID. |
| Selector.LookupContext | src/v.js:1035-1046 | Lookups use `__o(e, document)`. A null or window context means the document. A context resolving to the window (the string `window`) throws a TypeError. |
| Selector.ObjectSelectors | src/v.js:1048-1053 | A window selector gives the document exactly when the context is falsy and `all` unset. A document or element is returned as is. Any other object gives the document. |
| Selector.ResolveObject | src/v.js:974-977 | `__o` yields the document, the window, an element or the default. A non-string yields itself if it is an element, and the document otherwise. |
| Selector.ResolveString | src/v.js:974-977 | `__o` on a string reads it as an ID. The keywords give the document or window. A well-formed ID gives its element or the default. Anything else runs a document-wide `querySelector`: a SyntaxError on invalid CSS, the default when nothing matches. |
| Selector.ResolveId | src/v.js:974-977 | A string `__o` reads as a well-formed ID gives the first element with that ID, or the default when there is none. |
| Selector.ResolveQuery | src/v.js:974-977 | A string that `__e` sends to the selector engine is matched against the whole document: invalid CSS throws a SyntaxError, no match gives the default, otherwise the first match. |
| Selector.ResolveStable | src/v.js:974-977 | Keyword, ID and object references resolve alike in any two documents with the same tree order and IDs. A reference handed to the selector engine also needs the same element store. |
| Selector.GetElemByIdIsResolve | src/v.js:62-65 | `$(i)` is `__o(i)` with a null default and gives a single node. |
| Selector.SelectAllInDocument | src/v.js:84 | `$$` searches the whole document and returns the whole collection for each collection rule. |
| Selector.GetElemsByClassNmLooksUpClass | src/v.js:134-137 | `$c` on a class name, with or without `.`, is a class lookup in the resolved context. The flag `f` selects the first element. |
| Selector.GetElemsByTagNmLooksUpTag | src/v.js:115 | `$t` on a tag token is a tag lookup in the resolved context. |
| Attributes.DataAttrName | src/v.js:980-984 | `__d`: empty exactly for an empty name. Otherwise `data-` followed by the name, or `data-`, the prefix, `-` and the name. |
| Attributes.DataAttrNameInjective | src/v.js:980-984 | For a fixed prefix, distinct non-empty names give distinct attribute names. |
| Attributes.DataAttrNamePrefixAmbiguous | src/v.js:980-984 | Across prefixes the naming is ambiguous: `("b", "a")` and `("a-b", "")` both give `data-a-b`. |
| Attributes.TokenError | src/v.js:991 | DOMTokenList add/remove accept the tokens exactly when each is non-empty and free of ASCII white space. The first bad token gives SyntaxError (empty) or InvalidCharacterError. |
| Attributes.HasAttrib | src/v.js:297-301 | `$ha`: false when null, a TypeError on the document or window, and otherwise `hasAttributes` (empty name) or `hasAttribute`. |
| Attributes.GetAttrib | src/v.js:319-323 | `$ga`: `''` when null, a throw on the document or window, and otherwise a string or null. |
| Attributes.GetAttribReadsStore | src/v.js:319-323 | On an element, `$ga` gives the stored value of a present attribute and `''` for an absent one. |
| Attributes.GetAttribEmptyName | src/v.js:319-323 | With an empty name, `$ga` gives null on an element with attributes and `''` on one without. |
| Attributes.SetAttribEffect | src/v.js:340-345 | `$sa`: a no-op when null, a throw on the document or window. On an element it throws InvalidCharacterError exactly when the name is not a valid attribute name. Otherwise the attribute then reads the stored text, and the class list is the parse of that text when the name is `class`, and unchanged otherwise. |
| Attributes.RemAttribEffect | src/v.js:361-364 | `$ra`: a no-op when null, a throw on the document or window. On an element it always succeeds: the attribute is gone, and so is the whole class list when the name is `class`. |
| Attributes.FlagStoresOwnName | src/v.js:343 | A boolean value stores the attribute's own name, whatever the boolean. |
| Attributes.SetThenGet | src/v.js:340-345 | After `$sa`, `$ha` says yes (also with an empty name) and `$ga` reads back the stored text. |
| Attributes.RemoveThenGet | src/v.js:361-364 | After `$ra`, `$ha` says no and `$ga` gives `''`. |
| Attributes.AttributeUpdatesAreLocal | src/v.js:340-364 | `$sa`/`$ra` change one attribute of one element and nothing else. The class list changes only through the `class` attribute. |
| Attributes.AttributeUpdatesKeepResolution | src/v.js:340-364 | Unless the attribute is `id`, `$sa`/`$ra` leave every keyword, ID and object reference resolving as before. |
| Attributes.ClassAttributeSetsClassList | src/v.js:340-345 | After `$sa(e, 'class', v)` on an element, `getElementsByClassName(c)` finds the element exactly when `c` is one of the tokens of `v`. |
| Attributes.HasDataAttrib | src/v.js:461-464 | `$hda` is `$ha` on the `__d` name. An empty name means `$ha(e)`, which `__d` giving `''` matches. |
| Attributes.GetDataAttrib | src/v.js:483-486 | `$gda`: `''` for an empty name, otherwise `$ga` on the `__d` name. |
| Attributes.SetDataAttribEffect | src/v.js:504-509 | `$sda`: a no-op for an empty name, otherwise `$sa` on the `__d` name, with a boolean stored as `v \| 0`. |
| Attributes.RemDataAttribEffect | src/v.js:526 | `$rda`: a no-op for an empty name, otherwise `$ra` on the `__d` name. |
| Attributes.SetDataThenGet | src/v.js:504-509 | After `$sda`, `$gda` reads the value back (a boolean as "1"/"0") and `$hda` says yes. |
| Attributes.RemoveDataThenGet | src/v.js:526 | After `$rda`, `$hda` says no and `$gda` gives `''`. |
| Attributes.DataUpdatesKeepResolution | src/v.js:504-526 | Data-attribute updates never touch `id`, so every keyword, ID and object reference resolves as before. |
| Attributes.ApplyClassesEffect | src/v.js:987-992 | `__c`: a no-op when null or when the class argument is not an array. An array on the document or window is a TypeError. On an element, the call throws exactly when a token is bad, with the error of the first bad token. Otherwise the class list becomes the old list followed by the new tokens without repeats (`add`), or the old list minus the tokens (`remove`). |
| Attributes.ClassUpdates | src/v.js:987-992 | After `add` every token is present, and after `remove` every token is absent; other classes stay. The `class` attribute then holds the serialized class list; `add` creates it and `remove` never does. Other attributes and elements stay as they were. |
| Attributes.ClassUpdatesKeepResolution | src/v.js:987-992 | Class changes leave every keyword, ID and object reference resolving as before. |
| Attributes.AddedClassShowsInAttribute | src/v.js:987-992 | Adding the class `on` to an element with no `class` attribute makes `$ha(e, 'class')` true and `$ga(e, 'class')` read `on`. |
| Forms.FormData.Append | src/v.js:1062 | `append` adds one entry at the end. |
| Forms.FormData.Set | src/v.js:1081 | `set` makes the entry list `SetEntry` of the old one. |
| Forms.SetEntryShape | src/v.js:1081 | `set` on a present name keeps the entries before the first occurrence, puts the new entry there and does not lengthen the list. On an absent name it appends. The set of names gains exactly `k`. |
| Forms.SetEntryKeepsOthers | src/v.js:1081 | After `set` exactly one entry carries the name, and the entries with other names are unchanged and in order. |
| Forms.SetEntryDistinct | src/v.js:1081 | With distinct names, `set` replaces that entry in place. |
| Forms.Convert | src/v.js:1059-1070 | A plain object gives its pairs. Null and undefined throw a TypeError. Anything else is resolved with `__o`. Its error is rethrown, and a form element gives that form's entries. `'nfe'` is returned exactly when the value resolves to something that is not a form element. |
| Forms.Visit | src/v.js:1075-1087 | One loop iteration appends the visited name to `ids` and never lengthens the live entry list. |
| Forms.Walk | src/v.js:1075-1087 | The walk only appends to `ids`. |
| Forms.VisitMissing | src/v.js:1083-1086 | When encodeURI keeps exactly `''` empty: a filled field (a File, or text non-empty after trim) removes one occurrence of its name from the missing list. An empty field marked required appends its name; any other empty field changes nothing. |
| Forms.VisitThrows | src/v.js:1080-1084 | An unencodable value throws a URIError from the current entry list. An empty field whose `$ha` throws stops the walk with that error, after its `set`. |
| Forms.VisitNames | src/v.js:1081 | A visit keeps the names of the entry list and never lengthens it. |
| Forms.VisitKeepsOtherCounts | src/v.js:1083-1086 | A visit changes the missing list only at the visited name. |
| Forms.AbsentStayMissing | src/v.js:1073-1087 | A required name that no entry carries is never removed from the missing list. |
| Forms.WalkDistinct | src/v.js:1075-1087 | With distinct names every entry is visited once, in order. `ids` is exactly the list of names, and the names are unchanged. |
| Forms.VisitDistinct | src/v.js:1081 | With distinct names a visit rewrites only the visited entry, keeping its name. |
| Forms.DuplicateNamesCollapse | src/v.js:1075-1087 | Two text fields with the same name collapse into one: the first `set` removes the second, which is never visited. |
| Forms.CollapseSet | src/v.js:1080-1081 | `set` on two entries of one name leaves a single entry holding the new value. |
| Forms.AppendExtras | src/v.js:1093-1095 | The extra data is appended without error exactly when every value is a string. Otherwise a TypeError is thrown. |
| Forms.AppendExtrasAppends | src/v.js:1093-1095 | On success the entries are the old ones followed by every extra pair, trimmed, in order. |
| Forms.FromEntries | src/v.js:1099 | `Object.fromEntries` has exactly the entry names as keys. |
| Forms.FromEntriesLastWins | src/v.js:1099 | Each key gets the value of its last entry. |
| Forms.Pairs | src/v.js:1098 | URLSearchParams sees each entry's name and its text; a File becomes `[object File]`. |
| Forms.Output | src/v.js:1097-1100 | `'s'` gives a query string, `'j'` an object with exactly the entry names as keys, and anything else the FormData itself. |
| Forms.Extract | src/v.js:1072-1102 | A walk that throws makes `__fd` throw. `'mrf'` is reported exactly when the walk ends with missing names, carrying the missing list and `ids`. `'nfe'` never comes from here. |
| Forms.AbsentRequiredReported | src/v.js:1073-1090 | A required name absent from the form always yields `'mrf'` with that name in the missing list. |
| Forms.ExtractSuccess | src/v.js:1090-1102 | With no missing names and string extras, the result is the output of the walked entries followed by the trimmed extras. |
| Forms.CheckFields | src/v.js:1073-1087 | The loop over the live FormData computes exactly `Walk`, and leaves the FormData holding the walk's entry list. |
| Forms.VisitEntry | src/v.js:1075-1085 | One pass of the loop body changes the missing list, the visited names and the FormData exactly as the function `Visit` says. |
| Forms.AddExtras | src/v.js:1093-1095 | The extras loop computes exactly `AppendExtras` on the FormData. |
| Forms.ExtractFormData | src/v.js:1058-1103 | `__fd` returns `FdOutcome` of its start. An existing FormData is changed in place; otherwise a fresh one is built. No FormData exists when the conversion throws or `'nfe'` is returned. |
| Forms.NormalizeTypeCases | src/v.js:422-424 | `$fd` picks `'s'` exactly for `string`, and `'j'` exactly for `json`, in any mix of case. Everything else is `'fd'`. |
| Vjs.ClassStep | src/v.js:987-992 | A single valid token on an element: that token is present exactly after `add`, and the other classes and elements are unchanged. Keyword, ID and object references resolve as before. |
| Vjs.SwapEffect | src/v.js:431-437 | The remove-then-add pair of one field whose name is an ID succeeds on an element. It leaves the added class present and the removed one absent, and touches nothing else. |
| Vjs.SwapNothing | src/v.js:431-437 | When the field's name finds no element, both calls return early and the document is unchanged. |
| Vjs.MarkFieldsEffect | src/v.js:430-438 | With two distinct valid classes, marking succeeds for field names that are IDs, each naming an element or nothing. Different names may not name the same element. A missing field's element gets the error class and loses the success class; the others the reverse. Names that find nothing are skipped, and elements no field names are untouched. |
| Vjs.ValidationMarksFields | src/v.js:429-440 | When `__fd` reports missing fields and the names are IDs, marking succeeds. Each visited field's element then has the error class exactly when `__fd` listed the name as missing, and the success class exactly when it did not. |
| Vjs.Library.SetAttrib | src/v.js:340-345 | The document becomes the `$sa` effect, or stays unchanged while the error is reported. |
| Vjs.Library.RemAttrib | src/v.js:361-364 | The same, for `$ra`. |
| Vjs.Library.SetDataAttrib | src/v.js:504-509 | The same, for `$sda`. |
| Vjs.Library.RemDataAttrib | src/v.js:526 | The same, for `$rda`. |
| Vjs.Library.ApplyClasses | src/v.js:987-992 | The same, for `__c`. |
| Vjs.Library.MarkAll | src/v.js:430-438 | The `forEach` loop leaves exactly the document of `MarkFields`, keeping the partial changes made before an error. |
| Vjs.Library.GetFormData | src/v.js:421-447 | `$fd` rethrows the error of `__fd`. `'nfe'` becomes a DOMException NotFoundError. Data is returned as is. `'mrf'` marks the fields and returns null when both validation classes are given; otherwise it throws "Fill up required fields". The FormData worked on is the caller's own one, or a fresh one built by the conversion, or none when no form was found; its entries end as `Extract` leaves them. |

## Left out

- Geometry and layout are not modelled, because they need a layout engine: `__hw`, `$h`, `$w`, `height`, `width`, `offset`, `position`, `$pos`, `isHidden` and `isVisible`.
- Timers (`$st`, `$ct`) and the event-listener wrappers (`$ael`, `$rel`, `$aels`, `$rels`) are not modelled: they only forward to platform scheduling and events.
- `$ce`, `$cels`, `$html`, `isLive`, `toArray` and `$val` are outside the modelled core.
- `register` and `getInstance` (global installation and the singleton `__i`) are left out: they are module plumbing with no behaviour of their own. `Library` simply stands for the one instance.
- Wrappers that call members that do not exist are not modelled:
  - `$n` (src/v.js:96) calls `VJS.__n`.
  - `querySel` (src/v.js:161).
  - `setDataAttrib` (src/v.js:514) calls `$dsa`.
  - `classCont` (src/v.js:550).
  - `serialize` (src/v.js:879-884).
- `getElemsByName` and `document.getElementsByName` are not part of this model.
- CSS selector semantics are not modelled. `querySelector(All)` is the uninterpreted `query` field of the document, where None means a SyntaxError. How `new FormData(form)` builds a form's entry list is the uninterpreted `formEntries` field.
- `encodeURI` and the URLSearchParams serialiser are abstract functions (`Codecs`). Forms.VisitMissing assumes that encodeURI maps exactly `''` to `''`, which the real function does.
- `toLowerCase` is modelled on ASCII letters and the Kelvin sign only. Other Unicode case mappings cannot make a lower-cased selector match one of the ASCII rule patterns differently.
- Numbers are integers only, with no NaN or fractions. `$sa` takes either a boolean or the text that setAttribute would convert its value to.
- The object from `Object.fromEntries` is a map, so its key order is not kept.
- The `console.log` in `$fd` (src/v.js:429) is output only and is left out.
- The attribute-name check follows the current DOM Standard. Older browsers apply the stricter XML Name rule.
- Non-string arguments to `$`, `$c` and `$t` are left out (the code indexes them as strings): these functions take strings here, while the selector given to `__e` and `$$` can be any value.
- Only HTML elements are modelled, so `instanceof HTMLElement` holds for every element.
- Collections are snapshots that carry a `live` flag. Later changes to the document are not reflected in a collection already returned.
- Selector.FindElement, Selector.InContext: their contracts state only the result shape. The per-rule behaviour is stated by the Selector lemmas in the table.
- Selector.ResolveStable: a reference that `__o` hands to the selector engine is a string that is neither a keyword nor an ID. It is answered on the current element store. The engine is uninterpreted, so nothing is promised about such a reference after an element changes.
- Attributes.AttributeUpdatesKeepResolution: the same restriction to keyword, ID and object references, for the same reason.
- Attributes.DataUpdatesKeepResolution: the same restriction to keyword, ID and object references.
- Attributes.ClassUpdatesKeepResolution: the same restriction to keyword, ID and object references.
- Vjs.ClassStep: the same restriction to keyword, ID and object references.
- Vjs.SwapEffect: field names that `__o` sends to the selector engine (names that are not valid IDs) are excluded. The second `__c` call re-resolves the name after the first call changed the classes, and the uninterpreted engine may then answer differently.
- Vjs.MarkFieldsEffect: the same exclusion of field names that are not valid IDs.
- Vjs.ValidationMarksFields: the same exclusion of field names that are not valid IDs.

Where the library's written description and its code disagree, the model follows the code:

- Errors from `querySelector(All)` are not caught: an invalid CSS selector throws a SyntaxError out of `__e`, `__o` and everything built on them.
- `__fd` can throw. `f.constructor` throws a TypeError on null or undefined, `encodeURI` throws a URIError, `$ha` throws on a field ID naming the window, and `e[k].trim()` throws a TypeError on extra data that is not a string.
- The JSON output is `Object.fromEntries` of the entries as they are: no camel-casing of names and no conversion of values.
- The `=tag` rule hands the text after `=` to `getElementsByTagName`, quotes included, as the code does.
