# xtype-svg in Dafny

A model of the library `xtype-svg` (`dist/xtype-svg.js`). The library builds
SVG (and HTML) element trees from nested JSON configs. The model has three
parts:

* **The manager.** A `Manager` holds two tables:
  * `xtypes` maps a type tag to a control class. Registration is first-wins.
  * `objects` maps the key `scope + ":" + id` to a registered object.

  `create` turns a config into a registered control. It throws on a null
  config or an unknown tag.
* **The controls.** A `Control` has:
  * an id and a scope, with defaults from a global counter that counts down;
  * a parent element;
  * an ordered list of child entries (configs or controls);
  * a declarative payload: attr, prop, cls, style, listeners, data, html.

  `render` creates the control's element, appends it to the parent, writes
  the payload in a fixed order, then creates and renders each child under the
  new element. `clear` and `destroy` tear this down again. An SVG control
  differs in two ways: it creates its element in the SVG namespace, and it
  sends `xlink…` attributes to the XLink namespace.
* **The tag table.** There are 65 `addXType` registrations on the exported
  manager `SVG`. Each maps a lower-case tag to an SVG control class that
  creates one element, for example `g` → `g`, `animatemotion` →
  `animateMotion`, `colorprofile` → `color-profile`.

The document is a `Dom.Document` object holding a sequence of element
records. Element 0 is `document.body`. Each element remembers:
* its namespace and tag;
* the writes made to it, in order: attributes, property assignments, class,
  style, handler slots, data, inner HTML;
* its child list.

Warnings sent to `console.warn` are returned as values. A thrown exception is
an `Outcome`, either `Done` or `Threw(failure)`. The stack depth is an explicit
`fuel`: when it runs out, the call throws `StackOverflow`.

Rendering is specified for a *declarative* control: one whose children, at any
depth, are all configs, and whose parent is null or an element that already
exists. For such a control the contract gives:
* the exact outcome, `XType.RenderOutcome`;
* the exact element trees put under the parent, `XType.RenderTrees`. Each tree
  node carries its namespace, its tag and the list of writes.

It also gives a frame: no existing element changes, except that the parent
gains the new elements at the end of its child list.

The model follows the code where the code has quirks:
* The id and scope setters warn and still store the new value.
* `create(control)` registers the manager itself under the control's key.
* `children` keeps the original configs after a render.
* Rendering twice appends a second element.
* The helper inside `clear` is a strict-mode plain function, so `this` is
  undefined there. Any visited entry with a truthy id therefore throws
  (`XType.WalkDoneNoIds`).
* `clear` calls `listeners.forEach` on a plain object, which throws after the
  element has been detached (`XType.ClearOutcome`).

## Model

| member | source | states |
|---|---|---|
| Keys.ScopeColonCollides | dist/xtype-svg.js:334-335 | the registry key is a plain concatenation, so a colon moved between scope and id gives the same key |
| Keys.KeyCollisionExample | dist/xtype-svg.js:364-366 | scope "a:b" with id "c" and scope "a" with id "b:c" address the same entry |
| Keys.ObjectKeyInjective | dist/xtype-svg.js:334-335 | for colon-free scopes two keys agree exactly when both scopes and ids agree |
| Keys.DefaultIdsDiffer | dist/xtype-svg.js:16 | default ids built for one constructor name from different counter values differ |
| Keys.DefaultIdTruthy | dist/xtype-svg.js:16 | a default id is never empty, so it is truthy |
| Decimal.NatRoundTrip | dist/xtype-svg.js:16 | the decimal text of the counter reads back as the same number |
| Decimal.IntRoundTrip | dist/xtype-svg.js:16 | negative counter values print with a leading minus and read back unchanged |
| Decimal.IntToStringInjective | dist/xtype-svg.js:16 | different counter values print differently |
| Splice.SpliceStart | dist/xtype-svg.js:74 | the start position of `splice` is clamped into the array |
| Splice.InsertAtPlaces | dist/xtype-svg.js:73-75 | after `insert` the new entry sits at the clamped index and removing it gives back the old list |
| Splice.IndexOf | dist/xtype-svg.js:82 | `indexOf` returns -1 exactly when the entry is absent, else the first position holding it |
| Splice.RemoveFirstSpec | dist/xtype-svg.js:81-87 | `remove` deletes exactly the first occurrence and keeps the others in order; an absent entry leaves the list alone |
| Dom.Without | dist/xtype-svg.js:191 | `removeChild` takes the element out of the child list and keeps every other child; an absent element leaves the list as it was |
| Dom.WithoutOnce | dist/xtype-svg.js:191 | for a child held once, exactly its position is removed and the other children keep their order |
| Dom.Document.CreateElement | dist/xtype-svg.js:231-233 | a new element is added, bare and detached, as the newest element |
| Dom.Document.AppendChild | dist/xtype-svg.js:113-114 | appending adds the element at the end of the parent's children; a null parent or a non-element throws and nothing changes |
| Dom.Document.RemoveChild | dist/xtype-svg.js:191 | removing needs an element parent that has the child; otherwise it throws and nothing changes |
| Dom.SlotsClearedByWrite | dist/xtype-svg.js:180 | setting a handler slot to null only adds a null-slot write |
| Payload.AttrWrite | dist/xtype-svg.js:241-246 | an SVG control sends exactly the `xlink…` attribute names to `setAttributeNS` in the XLink namespace; all others use `setAttribute` |
| Payload.AttrWrites | dist/xtype-svg.js:239-248 | one write per attribute, in key order |
| Payload.SlotWrites | dist/xtype-svg.js:139-143 | one `on`+name slot write per listener, in key order, holding the handler |
| Payload.LaterOrdered | dist/xtype-svg.js:124-154 | prop, cls, style, listeners, data and html are written in that order, and none of them is an attribute write |
| Payload.PayloadOrdered | dist/xtype-svg.js:116-154 | the whole payload is written in the order attr, prop, cls, style, listeners, data, html |
| Payload.AttributesFirst | dist/xtype-svg.js:116-121 | the first writes are exactly the attribute writes, routed by name, and nothing after them is an attribute write |
| Payload.HtmlNeverNamespaced | dist/xtype-svg.js:117-121 | a plain control never calls `setAttributeNS` |
| Payload.ListenerSlots | dist/xtype-svg.js:139-143 | every listener ends up in its `on`+name slot |
| Payload.EmptyPayload | dist/xtype-svg.js:116-154 | a control without payload writes nothing into its element |
| Payload.FalsyStringsSkipped | dist/xtype-svg.js:146-154 | empty `cls`/`html` write nothing while an empty `data` object still resets `dom.data` |
| Tags.TableTagsDistinct | dist/xtype-svg.js:408-1571 | the table has 65 registrations with 65 different tags |
| Tags.FirstWins | dist/xtype-svg.js:297-303 | after a series of `addXType` calls a tag is present exactly when some call named it |
| Tags.FirstWinsNext | dist/xtype-svg.js:297-303 | one more `addXType` adds a new tag with its class and leaves the table alone for a taken tag |
| Tags.FirstWinsFresh | dist/xtype-svg.js:297-303 | with distinct tags no registration finds its tag taken |
| Tags.FirstRegistrationWins | dist/xtype-svg.js:297-303 | a tag keeps the class of its first registration whatever comes later |
| Tags.TableLookup | dist/xtype-svg.js:408-1571 | every registered tag looks up to the class registered for it |
| Tags.EntryAt | dist/xtype-svg.js:433-437 | the table positions of `animatemotion`, `fefunca`/`b`/`g`, `g` and `colorprofile` |
| Tags.NoFeFuncRInTable | dist/xtype-svg.js:408-1571 | no registration uses the tag `fefuncr` |
| Tags.NoFeFuncR | dist/xtype-svg.js:833-869 | `fefunca`, `fefuncb` and `fefuncg` are registered, `fefuncr` is not |
| Tags.TableExamples | dist/xtype-svg.js:1241-1247 | `g` creates `g`, `animatemotion` creates `animateMotion`, `colorprofile` creates `color-profile` |
| XType.KeptRendersAlike | dist/xtype-svg.js:129-154 | dropping falsy `cls`/`html` changes nothing that is rendered |
| XType.FailureSticks | dist/xtype-svg.js:157-161 | once a child throws, the rest of the children are not rendered and the loop ends with that failure |
| XType.RenderFuelMonotone | dist/xtype-svg.js:92-98 | a deeper stack changes no render outcome except a stack overflow |
| XType.ChildrenFuelMonotone | dist/xtype-svg.js:157-161 | the same for the children loop |
| XType.EntryFuelMonotone | dist/xtype-svg.js:158-160 | the same for one child |
| XType.UnknownTagStops | dist/xtype-svg.js:391-396 | a child config with an unregistered tag makes the loop throw at `new` once the children before it rendered |
| XType.WalkFailureSticks | dist/xtype-svg.js:173-185 | in the `clear` helper the first failing entry ends the walk |
| XType.WalkDoneNoIds | dist/xtype-svg.js:173-176 | the `clear` helper gets through only if no entry is null and none has a truthy id |
| XType.ClearOutcome | dist/xtype-svg.js:190-199 | `clear` succeeds exactly when its helper did and, if it had an element, that element was a child of an element parent and there are no listeners |
| XType.AfterClear | dist/xtype-svg.js:191 | after the removal the element is not a child of the parent, the parent keeps its namespace, tag and writes and its children are the old ones without that element, and no other element changes |
| XType.ClearItems | dist/xtype-svg.js:168-186 | the helper ends as `WalkItems` says, only sets handler slots to null, and writes nothing for a tree of configs |
| XType.EffectsStick | dist/xtype-svg.js:157-161 | once a child has thrown, the later children add no registry key, counter step or warning |
| XType.ClearEntry | dist/xtype-svg.js:173-185 | one entry: the id test, null slots for a control's listeners, then the helper on its children |
| XType.IdCounter.constructor | dist/xtype-svg.js:7 | the counter starts at -1 |
| XType.Manager.constructor | dist/xtype-svg.js:287-290 | a new manager has empty tables |
| XType.Manager.AddXType | dist/xtype-svg.js:297-303 | a new name is added with its class; a taken name leaves the table unchanged and warns |
| XType.Manager.RemoveXType | dist/xtype-svg.js:309-315 | a present name is deleted and nothing else; an absent one only warns |
| XType.Manager.GetXType | dist/xtype-svg.js:321-326 | the class registered under the name, or nothing and a warning; the table is not changed |
| XType.Manager.Get | dist/xtype-svg.js:364-367 | the object under `scope:id`, with scope "global" by default |
| XType.Manager.Add | dist/xtype-svg.js:334-342 | the object is stored under its key, replacing any occupant; it warns on a taken key; the object's manager becomes this one and `get` finds it |
| XType.Manager.Remove | dist/xtype-svg.js:349-357 | a present entry loses its manager and its key, and nothing else changes; an absent one only warns |
| XType.Manager.Create | dist/xtype-svg.js:373-399 | a control instance is returned with the manager registered under its key; a null config or an unknown tag throws after its warnings; otherwise a fresh control of the registered class is built, owned and registered |
| XType.Control.constructor | dist/xtype-svg.js:14-30 | defaults: body parent, class name plus counter as id (the counter then decreases), scope "global", falsy `cls`/`html` dropped, no manager |
| XType.Control.SetId | dist/xtype-svg.js:40-43 | the setter warns and stores the new id anyway |
| XType.Control.SetScope | dist/xtype-svg.js:53-56 | the setter warns and stores the new scope anyway |
| XType.Control.Add | dist/xtype-svg.js:64-66 | appends the entry |
| XType.Control.Insert | dist/xtype-svg.js:73-75 | inserts the entry at the clamped index |
| XType.Control.Remove | dist/xtype-svg.js:81-87 | the first occurrence leaves the list and loses its manager; a null entry throws; an absent entry changes nothing |
| XType.Control.ApplyPayload | dist/xtype-svg.js:116-154 | the element receives exactly `PayloadWrites` after its earlier writes, and no other element changes |
| XType.Control.ApplyLater | dist/xtype-svg.js:123-154 | the element receives exactly the non-attribute payload writes |
| XType.Control.Render | dist/xtype-svg.js:92-98 | for every control the document never shrinks; for a declarative control: the outcome is `RenderOutcome`, the document only grows at the parent, on success the parent's new children hold `RenderTrees` and `dom` is the new element, and the registry keys, the id counter and the warnings end as `RenderEffects` says |
| XType.Control.RenderDom | dist/xtype-svg.js:112-162 | a null parent throws at `appendChild` with the document, counter and warnings unchanged; otherwise the element becomes `dom` and the parent's last child, gets the payload, then holds the trees of the children, and the registry, counter and warnings end as `ChildrenEffects` says |
| XType.Control.RenderEach | dist/xtype-svg.js:157-161 | the children render in order under the target, the first failure ends the loop, on success their trees line up one after another, and the registry, counter and warnings end as `ChildrenEffects` says |
| XType.Control.RenderNext | dist/xtype-svg.js:158-160 | one turn of the children loop: a null manager throws with nothing changed; otherwise the loop state moves past a child that ended well, or a child that threw fixes the outcome and effects of the whole loop |
| XType.Control.RenderEntry | dist/xtype-svg.js:158-160 | one child: a null manager throws with nothing changed, otherwise the child's outcome, trees, registry keys, counter and warnings are those `EntryOutcome`, `EntryTrees` and `EntryEffects` give for its config |
| XType.Control.Attach | dist/xtype-svg.js:159-160 | the created control, given its parent, renders as its config prescribes, with the effects `RenderEffects` gives |
| XType.Control.Mount | dist/xtype-svg.js:112-154 | the new element becomes `dom`; a null parent or a non-element throws with the document unchanged; otherwise the element is appended to the parent and receives exactly the payload writes |
| XType.Control.Clear | dist/xtype-svg.js:167-201 | the outcome is `ClearOutcome`; after the helper `children` is empty, the element is detached, and `dom` is null when `clear` completes |
| XType.Control.Destroy | dist/xtype-svg.js:206-215 | after a completed `clear`: parent null, the own `scope:id` entry deleted if the id is truthy (a null manager throws there), manager null |
| Svg.Load | dist/xtype-svg.js:401-1571 | loading fills `SVG.xtypes` with exactly the table, with no warning |
| Svg.AddAll | dist/xtype-svg.js:417-1571 | a series of `addXType` calls on an empty table gives `FirstWins`, and distinct tags cause no warning |
| Svg.GroupRegisters | dist/xtype-svg.js:379-399 | with the loaded table `{xtype: 'g', id: 'r1'}` registers `global:r1` without a warning, warns when the key is taken, an id-less config moves the counter down by one, and `fefuncr` only warns |
| Svg.GroupRendersFeFuncRThrows | dist/xtype-svg.js:1241-1247 | `{xtype: 'g'}` renders one SVG `g` element with its payload; `{xtype: 'fefuncr'}` throws |

## Left out

- The browser DOM is an abstract record store. `createElement`, `appendChild`, `removeChild` and the property writes are modelled as they affect element records. `Object.assign`, `style`, `data` and `innerHTML` are recorded as opaque writes, and inner HTML is not parsed.
- `console.warn` is modelled as returned warning values, and the message texts are not modelled.
- `constructor.name` is replaced by the name stored in each control class (`Tags.Kind.name`).
- The module wrapper, the exports and the build configuration carry no logic and are not modelled.
- A JavaScript stack depth is an explicit `fuel` parameter. Only a `StackOverflow` outcome depends on its value (`XType.RenderFuelMonotone`).
- XType.Control.Render: the outcome, the trees and the effects on the registry, the id counter and the warnings are stated only for a declarative control. When a control instance is among the children, the contract states only the `modifies` frame and that the document never shrinks, because a cycle through instances can make a control render itself.
- XType.Control.RenderDom: the same restriction (its null-parent case is stated for every control). It additionally requires the element to be the newest and still bare.
- XType.Control.RenderEach: the same restriction.
- XType.Control.RenderNext: the same restriction.
- XType.Control.RenderEntry: the same restriction (its null-manager case is stated for every entry).
- XType.Control.Attach: the same restriction.
- XType.Control.RenderDom: the `className` assignment of an SVG control is recorded as a class write. In a browser `className` on an SVG element is a read-only accessor, so in this strict-mode code the assignment throws a `TypeError` when `cls` is set; the abstract document does not model that.
- XType.Control.constructor: `children` is a copy of the config's list. In JavaScript the control and its config share one array, so the in-place changes made by `add`, `insert`, `remove` and `clear` are visible through the config and through every control later built from it. The model does not capture this sharing.
- XType.Manager.Create: the same copy of the config's `children`. A second control created from the same config starts from the list as the config gave it, not from the list the first control changed in place.
- XType.Control.Add: changes only the control's own list; the push through the array shared with the config is not captured.
- XType.Control.Insert: changes only the control's own list; the `splice` through the shared array is not captured.
- XType.Control.Remove: changes only the control's own list; the `splice` through the shared array is not captured.
- XType.Control.Clear: empties only the control's own list; `children.length = 0` also empties the config's array in JavaScript, so a later render of that config renders no children there, which the model does not capture.
- XType.Manager.AddXType: the table starts as a map with no keys, whereas `xtypes = {}` inherits the names of `Object.prototype` (`constructor`, `toString`, …). In JavaScript `addXType('constructor', c)` warns and adds nothing; the model adds it.
- XType.Manager.RemoveXType: the same inherited names. In JavaScript removing `toString` finds it, deletes nothing own and does not warn; the model warns.
- XType.Manager.GetXType: the same inherited names. In JavaScript `getXType('toString')` returns a function without a warning; the model returns nothing and warns.
- XType.Manager.Create: the same inherited names. In JavaScript a config whose `xtype` is such a name finds a built-in function and reaches `new` with it without the unknown-tag warning (`constructor` gives `new Object(config)`, the config itself); the model warns and throws `NotAConstructor`.
- Keys.DefaultIdsDiffer: the counter `ID` is an unbounded integer. In JavaScript it is a double, so past -2^53 `ID--` stops changing it, and past 1e21 in magnitude `String()` switches to exponent form. The lemma holds only within that range in JavaScript.
- Decimal.IntToStringInjective: the same unbounded counter. JavaScript's `String()` of a double is modelled only as the plain decimal form.
- XType.ClearItems: the writes are stated as "only null handler slots" rather than as the exact list of slots.
- XType.Control.Remove: entries are compared as values, whereas JavaScript compares config objects by identity. Two equal configs are one entry in the model.
- A `null` xtype is treated like a missing one. The code would look up the tag "null" and skip the second warning.
- Ids, scopes and payload fields that are not strings or plain objects (numbers, arrays, functions) are not modelled.
- A config's own `dom` property is not modelled. Configs have no element, so `clear` writes nothing for them.
