/** Controls and their manager: the object model of the library.

    A `Control` holds an id and scope, a parent element, an ordered list of
    child entries (configs or control instances) and a declarative payload;
    rendering it creates DOM elements under its parent. A `Manager` maps type
    tags to control classes (`xtypes`) and `scope:id` keys to registered
    objects (`objects`), and turns configs into controls. */
module XType {
  import opened Common
  import opened Dom
  import opened Payload
  import opened Tags
  import opened Trees
  import Keys
  import Splice

  /** A config object as handed to `Manager.create` or to a constructor.
      A missing `children` array and an empty one behave alike. */
  datatype Config = Config(
    xtype: Option<string>,
    parent: Option<ElemRef>,
    id: Option<string>,
    scope: Option<string>,
    children: seq<Entry>,
    decl: Decl)

  /** An entry of a `children` array: `null`, a config, or a control. */
  datatype Entry = Null | Cfg(config: Config) | Instance(control: Control)

  /** What a manager can hold under a key: normally a control, but
      `create(control)` stores the manager itself. */
  datatype Registered = Ctl(control: Control) | Mgr(manager: Manager)

  /** The messages the library sends to `console.warn`. */
  datatype Warning =
    | XTypeAlreadyAdded(name: string)
    | XTypeNotDefined(name: string)
    | ObjectAlreadyAdded(id: string)
    | ObjectNotDefined(id: string)
    | ConfigUndefined
    | ConfigXTypeUndefined
    | XTypeUndefined(name: string)
    | IdReassigned
    | ScopeReassigned

  /** The namespace an element of this kind is created in. */
  function Namespace(kind: Kind): string {
    if kind.svg then SvgNS else HtmlNS
  }

  /** The payload a constructor keeps: `cls` and `html` become null unless
      they are non-empty strings, the object-valued fields are kept as given. */
  function Kept(d: Decl): (k: Decl)
    ensures k.cls == OrNull(d.cls) && k.html == OrNull(d.html)
    ensures k.attr == d.attr && k.prop == d.prop && k.style == d.style
    ensures k.listeners == d.listeners && k.data == d.data
  {
    d.(cls := OrNull(d.cls), html := OrNull(d.html))
  }

  /** Dropping falsy `cls` and `html` does not change what is rendered. */
  lemma KeptRendersAlike(svg: bool, d: Decl)
    ensures PayloadWrites(svg, Kept(d)) == PayloadWrites(svg, d)
  {
  }

  function ControlsOf(r: Registered): set<Control> {
    if r.Ctl? then {r.control} else {}
  }

  function ManagersOf(r: Registered): set<Manager> {
    if r.Mgr? then {r.manager} else {}
  }

  function EntryControls(e: Entry): set<Control> {
    if e.Instance? then {e.control} else {}
  }

  /** The `manager` property of a registered object. */
  ghost function OwnerOf(r: Registered): Manager?
    reads ControlsOf(r)`manager, ManagersOf(r)`manager
  {
    match r
    case Ctl(c) => c.manager
    case Mgr(m) => m.manager
  }

  // ---------------------------------------------------------------------
  // Entries as a tree

  /** The controls an entry holds, itself or inside nested configs. */
  ghost function InstancesOf(e: Entry): set<Control>
    decreases e, 0
  {
    match e
    case Null => {}
    case Cfg(c) => InstancesIn(c.children)
    case Instance(c) => {c}
  }

  ghost function InstancesIn(es: seq<Entry>): set<Control>
    decreases es, 1
  {
    if es == [] then {} else InstancesIn(es[..|es| - 1]) + InstancesOf(es[|es| - 1])
  }

  lemma {:induction false} InstancesInMember(es: seq<Entry>, i: nat)
    requires i < |es|
    ensures InstancesOf(es[i]) <= InstancesIn(es)
    ensures InstancesIn(es[..i]) <= InstancesIn(es)
  {
    if i < |es| - 1 {
      assert es[..|es| - 1][i] == es[i];
      assert es[..|es| - 1][..i] == es[..i];
      InstancesInMember(es[..|es| - 1], i);
    } else {
      assert es[..|es| - 1] == es[..i];
    }
  }

  /** Every control reachable through the children of a control in `Cs` is
      in `Cs`, and so is the manager of each. */
  ghost predicate Closed(Cs: set<Control>, Ms: set<Manager>)
    reads Cs`children, Cs`manager
  {
    forall c :: c in Cs ==> InstancesIn(c.children) <= Cs && (c.manager != null ==> c.manager in Ms)
  }

  ghost predicate ChildrenClosed(Cs: set<Control>)
    reads Cs`children
  {
    forall c :: c in Cs ==> InstancesIn(c.children) <= Cs
  }

  /** A reference that names nothing or an element of a document of `size` elements. */
  predicate Placed(r: Option<ElemRef>, size: nat) {
    r.None? || r.value < size
  }

  function Hosts(r: Option<ElemRef>): set<ElemRef> {
    if r.Some? then {r.value} else {}
  }

  // ---------------------------------------------------------------------
  // What rendering a declarative tree does

  /** How `render` ends for a control of `kind` with the given children,
      when every child is a config: `managed` says whether the control has a
      manager, `attached` whether its parent is an element, `fuel` how many
      more nested calls the stack allows. */
  ghost function RenderOutcome(xtypes: map<string, Kind>, managed: bool, kind: Kind, attached: bool,
                               children: seq<Entry>, fuel: nat): Outcome
    decreases children, 2
  {
    if fuel == 0 then Threw(StackOverflow)
    else if kind.element.Some? && !attached then Threw(NullDereference)
    else if children != [] && !managed then Threw(NullDereference)
    else ChildrenOutcome(xtypes, children, fuel - 1, kind.element.Some? || attached)
  }

  /** The children are rendered in order and the first failure ends the loop. */
  ghost function ChildrenOutcome(xtypes: map<string, Kind>, es: seq<Entry>, fuel: nat, attached: bool): Outcome
    decreases es, 1
  {
    if es == [] then Done
    else
      var o := ChildrenOutcome(xtypes, es[..|es| - 1], fuel, attached);
      if o.Threw? then o else EntryOutcome(xtypes, es[|es| - 1], fuel, attached)
  }

  /** One child: `manager.create(n)` followed by `control.render()`. */
  ghost function EntryOutcome(xtypes: map<string, Kind>, e: Entry, fuel: nat, attached: bool): Outcome
    decreases e, 0
  {
    match e
    case Null => Threw(NullDereference)
    case Instance(_) => Done
    case Cfg(c) =>
      var key := Keys.TagKey(c.xtype);
      if key !in xtypes then Threw(NotAConstructor)
      else RenderOutcome(xtypes, true, xtypes[key], attached, c.children, fuel)
  }

  /** The elements `render` puts under the parent: one element for a kind
      that creates one, holding the trees of its children; for a kind that
      does not, the trees of its children directly. */
  ghost function RenderTrees(xtypes: map<string, Kind>, kind: Kind, decl: Decl, children: seq<Entry>): seq<Tree>
    decreases children, 2
  {
    if kind.element.Some? then
      [Tree(Namespace(kind), kind.element.value, PayloadWrites(kind.svg, decl), ChildrenTrees(xtypes, children))]
    else ChildrenTrees(xtypes, children)
  }

  ghost function ChildrenTrees(xtypes: map<string, Kind>, es: seq<Entry>): seq<Tree>
    decreases es, 1
  {
    if es == [] then []
    else ChildrenTrees(xtypes, es[..|es| - 1]) + EntryTrees(xtypes, es[|es| - 1])
  }

  ghost function EntryTrees(xtypes: map<string, Kind>, e: Entry): seq<Tree>
    decreases e, 0
  {
    match e
    case Cfg(c) =>
      var key := Keys.TagKey(c.xtype);
      if key in xtypes then RenderTrees(xtypes, xtypes[key], c.decl, c.children) else []
    case _ => []
  }

  /** What a render does besides building elements: the keys the manager's
      `objects` table holds afterwards, the value of the id counter, and the
      warnings printed on the way. */
  datatype Effects = Effects(keys: set<string>, counter: int, warnings: seq<Warning>)

  /** `first` followed by `next`, which started where `first` ended. */
  function Then(first: Effects, next: Effects): (r: Effects)
    ensures r.keys == next.keys && r.counter == next.counter
    ensures |r.warnings| == |first.warnings| + |next.warnings| && r.warnings[..|first.warnings|] == first.warnings
  {
    Effects(next.keys, next.counter, first.warnings + next.warnings)
  }

  /** The effects of the `render` that `RenderOutcome` describes, starting
      from a registry with `keys` and the counter at `counter`: nothing
      happens before the children loop, and the loop does what its children
      do. */
  ghost function RenderEffects(xtypes: map<string, Kind>, managed: bool, kind: Kind, attached: bool,
                               children: seq<Entry>, fuel: nat, keys: set<string>, counter: int): Effects
    decreases children, 2
  {
    if fuel == 0 || (kind.element.Some? && !attached) || (children != [] && !managed) then Effects(keys, counter, [])
    else ChildrenEffects(xtypes, children, fuel - 1, kind.element.Some? || attached, keys, counter)
  }

  /** The children in order, each starting where the one before ended; a
      child that throws ends the loop, so the later ones have no effect. */
  ghost function ChildrenEffects(xtypes: map<string, Kind>, es: seq<Entry>, fuel: nat, attached: bool,
                                 keys: set<string>, counter: int): Effects
    decreases es, 1
  {
    if es == [] then Effects(keys, counter, [])
    else
      var before := ChildrenEffects(xtypes, es[..|es| - 1], fuel, attached, keys, counter);
      if ChildrenOutcome(xtypes, es[..|es| - 1], fuel, attached).Threw? then before
      else Then(before, EntryEffects(xtypes, es[|es| - 1], fuel, attached, before.keys, before.counter))
  }

  /** One child: `create` warns about a missing `xtype` and an unknown tag,
      and otherwise builds a control (taking a default id from the counter
      when the config has no truthy id), registers it under `scope:id`,
      warning when that key is taken, and renders it. A control instance
      lies outside the declarative case and is given no effect here. */
  ghost function EntryEffects(xtypes: map<string, Kind>, e: Entry, fuel: nat, attached: bool,
                              keys: set<string>, counter: int): Effects
    decreases e, 0
  {
    match e
    case Null => Effects(keys, counter, [ConfigUndefined])
    case Instance(_) => Effects(keys, counter, [])
    case Cfg(c) =>
      var undefined := if c.xtype.None? then [ConfigUndefined, ConfigXTypeUndefined] else [];
      var tag := Keys.TagKey(c.xtype);
      if tag !in xtypes then Effects(keys, counter, undefined + [XTypeUndefined(tag)])
      else
        var kind := xtypes[tag];
        var id := if Truthy(c.id) then c.id.value else Keys.DefaultId(kind.name, counter);
        var key := Keys.ObjectKey(id, OrElse(c.scope, "global"));
        var made := Effects(keys + {key}, if Truthy(c.id) then counter else counter - 1,
                            undefined + (if key in keys then [ObjectAlreadyAdded(id)] else []));
        Then(made, RenderEffects(xtypes, true, kind, attached, c.children, fuel, made.keys, made.counter))
  }

  /** A config child with a registered tag: `create` registers the new
      control and takes an id from the counter when it needs one (`made`),
      then the control renders. */
  lemma EntryEffectsMade(xtypes: map<string, Kind>, c: Config, fuel: nat, attached: bool,
                         keys: set<string>, counter: int, made: Effects)
    requires Keys.TagKey(c.xtype) in xtypes
    requires var kind := xtypes[Keys.TagKey(c.xtype)];
      var id := if Truthy(c.id) then c.id.value else Keys.DefaultId(kind.name, counter);
      var key := Keys.ObjectKey(id, OrElse(c.scope, "global"));
      && made.keys == keys + {key}
      && made.counter == (if Truthy(c.id) then counter else counter - 1)
      && made.warnings == (if c.xtype.None? then [ConfigUndefined, ConfigXTypeUndefined] else [])
                          + (if key in keys then [ObjectAlreadyAdded(id)] else [])
    ensures EntryEffects(xtypes, Cfg(c), fuel, attached, keys, counter)
         == Then(made, RenderEffects(xtypes, true, xtypes[Keys.TagKey(c.xtype)], attached, c.children, fuel,
                                     made.keys, made.counter))
  {
  }

  /** One more child after `i` that ended well: its effects follow theirs. */
  lemma EffectsStep(xtypes: map<string, Kind>, es: seq<Entry>, i: nat, fuel: nat, attached: bool,
                    keys: set<string>, counter: int)
    requires i < |es|
    requires ChildrenOutcome(xtypes, es[..i], fuel, attached) == Done
    ensures var before := ChildrenEffects(xtypes, es[..i], fuel, attached, keys, counter);
      ChildrenEffects(xtypes, es[..i + 1], fuel, attached, keys, counter)
      == Then(before, EntryEffects(xtypes, es[i], fuel, attached, before.keys, before.counter))
  {
    assert es[..i + 1][..i] == es[..i];
  }

  /** Once a child has thrown, the effects of the whole loop are those up to
      and including that child. */
  lemma {:induction false} EffectsStick(xtypes: map<string, Kind>, es: seq<Entry>, i: nat, fuel: nat, attached: bool,
                                        keys: set<string>, counter: int)
    requires i <= |es|
    requires ChildrenOutcome(xtypes, es[..i], fuel, attached).Threw?
    ensures ChildrenEffects(xtypes, es, fuel, attached, keys, counter)
         == ChildrenEffects(xtypes, es[..i], fuel, attached, keys, counter)
    decreases |es| - i
  {
    if i < |es| {
      assert es[..i + 1][..i] == es[..i];
      ChildrenStep(xtypes, es, i, fuel, attached);
      EffectsStick(xtypes, es, i + 1, fuel, attached, keys, counter);
    } else {
      assert es[..i] == es;
    }
  }

  /** A child threw after the first `i` ended well: the loop's effects are
      theirs followed by the failing child's. */
  lemma EffectsFailed(xtypes: map<string, Kind>, es: seq<Entry>, i: nat, fuel: nat, attached: bool,
                      keys: set<string>, counter: int)
    requires i < |es|
    requires ChildrenOutcome(xtypes, es[..i], fuel, attached) == Done
    requires EntryOutcome(xtypes, es[i], fuel, attached).Threw?
    ensures var before := ChildrenEffects(xtypes, es[..i], fuel, attached, keys, counter);
      ChildrenEffects(xtypes, es, fuel, attached, keys, counter)
      == Then(before, EntryEffects(xtypes, es[i], fuel, attached, before.keys, before.counter))
  {
    EffectsStep(xtypes, es, i, fuel, attached, keys, counter);
    ChildrenStep(xtypes, es, i, fuel, attached);
    EffectsStick(xtypes, es, i + 1, fuel, attached, keys, counter);
  }

  /** Where the children loop stands after its first `i` children ended
      well: the document `now` only extends `b0` at the target, the target
      gained the elements `tops` holding those children's trees, and the
      registry, counter and warnings are `eff`. */
  ghost predicate EachSoFar(xtypes: map<string, Kind>, es: seq<Entry>, i: nat, fuel: nat, target: Option<ElemRef>,
                            b0: seq<Element>, now: seq<Element>, tops: seq<ElemRef>,
                            keys: set<string>, counter: int, eff: Effects)
  {
    && i <= |es|
    && Extends(b0, now, Hosts(target))
    && ChildrenOutcome(xtypes, es[..i], fuel, target.Some?) == Done
    && Realizes(now, tops, ChildrenTrees(xtypes, es[..i]), |b0|, |now|)
    && Appended(b0, now, Hosts(target), tops)
    && eff == ChildrenEffects(xtypes, es[..i], fuel, target.Some?, keys, counter)
  }

  /** The loop moves on past a child that ended well. */
  lemma EachDone(xtypes: map<string, Kind>, es: seq<Entry>, i: nat, fuel: nat, target: Option<ElemRef>,
                 b0: seq<Element>, mid: seq<Element>, now: seq<Element>, tops: seq<ElemRef>, t: seq<ElemRef>,
                 keys: set<string>, counter: int, eff: Effects, next: Effects)
    requires i < |es| && Placed(target, |b0|)
    requires EachSoFar(xtypes, es, i, fuel, target, b0, mid, tops, keys, counter, eff)
    requires EntryOutcome(xtypes, es[i], fuel, target.Some?) == Done
    requires Extends(mid, now, Hosts(target))
    requires Realizes(now, t, EntryTrees(xtypes, es[i]), |mid|, |now|) && Appended(mid, now, Hosts(target), t)
    requires next == EntryEffects(xtypes, es[i], fuel, target.Some?, eff.keys, eff.counter)
    ensures ChildrenOutcome(xtypes, es[..i + 1], fuel, target.Some?) == Done
    ensures Extends(b0, now, Hosts(target))
    ensures Realizes(now, tops + t, ChildrenTrees(xtypes, es[..i + 1]), |b0|, |now|)
    ensures Appended(b0, now, Hosts(target), tops + t)
    ensures Then(eff, next) == ChildrenEffects(xtypes, es[..i + 1], fuel, target.Some?, keys, counter)
    ensures EachSoFar(xtypes, es, i + 1, fuel, target, b0, now, tops + t, keys, counter, Then(eff, next))
  {
    ChildDone(xtypes, es, i, fuel, target.Some?, b0, mid, now, Hosts(target), tops, t);
    EffectsStep(xtypes, es, i, fuel, target.Some?, keys, counter);
    assert ChildrenEffects(xtypes, es[..i + 1], fuel, target.Some?, keys, counter) == Then(eff, next);
  }

  /** The loop ends at a child that threw. */
  lemma EachFailed(xtypes: map<string, Kind>, es: seq<Entry>, i: nat, fuel: nat, target: Option<ElemRef>,
                   b0: seq<Element>, mid: seq<Element>, now: seq<Element>, tops: seq<ElemRef>,
                   keys: set<string>, counter: int, eff: Effects, next: Effects)
    requires i < |es|
    requires EachSoFar(xtypes, es, i, fuel, target, b0, mid, tops, keys, counter, eff)
    requires EntryOutcome(xtypes, es[i], fuel, target.Some?).Threw?
    requires Extends(mid, now, Hosts(target))
    requires next == EntryEffects(xtypes, es[i], fuel, target.Some?, eff.keys, eff.counter)
    ensures Extends(b0, now, Hosts(target))
    ensures ChildrenOutcome(xtypes, es, fuel, target.Some?) == EntryOutcome(xtypes, es[i], fuel, target.Some?)
    ensures ChildrenEffects(xtypes, es, fuel, target.Some?, keys, counter) == Then(eff, next)
  {
    ChildFailed(xtypes, es, i, fuel, target.Some?, b0, mid, now, Hosts(target));
    EffectsFailed(xtypes, es, i, fuel, target.Some?, keys, counter);
  }

  lemma ChildrenStep(xtypes: map<string, Kind>, es: seq<Entry>, i: nat, fuel: nat, attached: bool)
    requires i < |es|
    ensures ChildrenOutcome(xtypes, es[..i + 1], fuel, attached) ==
      (var o := ChildrenOutcome(xtypes, es[..i], fuel, attached);
       if o.Threw? then o else EntryOutcome(xtypes, es[i], fuel, attached))
    ensures ChildrenTrees(xtypes, es[..i + 1]) == ChildrenTrees(xtypes, es[..i]) + EntryTrees(xtypes, es[i])
  {
    assert es[..i + 1][..i] == es[..i];
  }

  /** A config child renders as a control of its registered kind that keeps
      the config's payload and children. */
  lemma EntryAsRender(xtypes: map<string, Kind>, c: Config, fuel: nat, attached: bool)
    requires Keys.TagKey(c.xtype) in xtypes
    ensures var kind := xtypes[Keys.TagKey(c.xtype)];
      && EntryOutcome(xtypes, Cfg(c), fuel, attached) == RenderOutcome(xtypes, true, kind, attached, c.children, fuel)
      && EntryTrees(xtypes, Cfg(c)) == RenderTrees(xtypes, kind, Kept(c.decl), c.children)
  {
    KeptRendersAlike(xtypes[Keys.TagKey(c.xtype)].svg, c.decl);
  }

  /** One more child rendered successfully after the first `i`: the loop's
      outcome stays `Done` and the forests line up. */
  lemma ChildDone(xtypes: map<string, Kind>, es: seq<Entry>, i: nat, fuel: nat, attached: bool,
                  b0: seq<Element>, mid: seq<Element>, now: seq<Element>, hosts: set<ElemRef>,
                  tops: seq<ElemRef>, t: seq<ElemRef>)
    requires i < |es|
    requires forall h :: h in hosts ==> h < |b0|
    requires ChildrenOutcome(xtypes, es[..i], fuel, attached) == Done
    requires EntryOutcome(xtypes, es[i], fuel, attached) == Done
    requires Extends(b0, mid, hosts) && Extends(mid, now, hosts)
    requires Realizes(mid, tops, ChildrenTrees(xtypes, es[..i]), |b0|, |mid|)
    requires Realizes(now, t, EntryTrees(xtypes, es[i]), |mid|, |now|)
    requires Appended(b0, mid, hosts, tops) && Appended(mid, now, hosts, t)
    ensures ChildrenOutcome(xtypes, es[..i + 1], fuel, attached) == Done
    ensures Extends(b0, now, hosts)
    ensures Realizes(now, tops + t, ChildrenTrees(xtypes, es[..i + 1]), |b0|, |now|)
    ensures Appended(b0, now, hosts, tops + t)
  {
    ChildrenStep(xtypes, es, i, fuel, attached);
    ForestStep(b0, mid, now, hosts, tops, ChildrenTrees(xtypes, es[..i]), t, EntryTrees(xtypes, es[i]));
  }

  /** A child failed after the first `i` succeeded: the loop ends with its
      failure, and the document still only extends. */
  lemma ChildFailed(xtypes: map<string, Kind>, es: seq<Entry>, i: nat, fuel: nat, attached: bool,
                    b0: seq<Element>, mid: seq<Element>, now: seq<Element>, hosts: set<ElemRef>)
    requires i < |es|
    requires ChildrenOutcome(xtypes, es[..i], fuel, attached) == Done
    requires EntryOutcome(xtypes, es[i], fuel, attached).Threw?
    requires Extends(b0, mid, hosts) && Extends(mid, now, hosts)
    ensures ChildrenOutcome(xtypes, es, fuel, attached) == EntryOutcome(xtypes, es[i], fuel, attached)
    ensures Extends(b0, now, hosts)
  {
    ChildrenStep(xtypes, es, i, fuel, attached);
    ExtendsTrans(b0, mid, now, hosts, hosts);
    FailureSticks(xtypes, es, i + 1, fuel, attached);
  }

  /** Once a child has failed, the rest of the loop never runs. */
  lemma {:induction false} FailureSticks(xtypes: map<string, Kind>, es: seq<Entry>, i: nat, fuel: nat, attached: bool)
    requires i <= |es|
    requires ChildrenOutcome(xtypes, es[..i], fuel, attached).Threw?
    ensures ChildrenOutcome(xtypes, es, fuel, attached) == ChildrenOutcome(xtypes, es[..i], fuel, attached)
    decreases |es| - i
  {
    if i < |es| {
      ChildrenStep(xtypes, es, i, fuel, attached);
      FailureSticks(xtypes, es, i + 1, fuel, attached);
    } else {
      assert es[..i] == es;
    }
  }

  /** A deeper stack changes nothing but a stack overflow: a render that
      ends in any other way ends the same way with more `fuel`. */
  lemma {:induction false} RenderFuelMonotone(xtypes: map<string, Kind>, managed: bool, kind: Kind, attached: bool,
                                              children: seq<Entry>, fuel: nat, more: nat)
    requires fuel <= more
    requires RenderOutcome(xtypes, managed, kind, attached, children, fuel) != Threw(StackOverflow)
    ensures RenderOutcome(xtypes, managed, kind, attached, children, more)
         == RenderOutcome(xtypes, managed, kind, attached, children, fuel)
    decreases children, 2
  {
    if !(kind.element.Some? && !attached) && !(children != [] && !managed) {
      ChildrenFuelMonotone(xtypes, children, fuel - 1, more - 1, kind.element.Some? || attached);
    }
  }

  lemma {:induction false} ChildrenFuelMonotone(xtypes: map<string, Kind>, es: seq<Entry>, fuel: nat, more: nat,
                                                attached: bool)
    requires fuel <= more
    requires ChildrenOutcome(xtypes, es, fuel, attached) != Threw(StackOverflow)
    ensures ChildrenOutcome(xtypes, es, more, attached) == ChildrenOutcome(xtypes, es, fuel, attached)
    decreases es, 1
  {
    if es != [] {
      var init := es[..|es| - 1];
      if ChildrenOutcome(xtypes, init, fuel, attached).Threw? {
        ChildrenFuelMonotone(xtypes, init, fuel, more, attached);
      } else {
        ChildrenFuelMonotone(xtypes, init, fuel, more, attached);
        EntryFuelMonotone(xtypes, es[|es| - 1], fuel, more, attached);
      }
    }
  }

  lemma {:induction false} EntryFuelMonotone(xtypes: map<string, Kind>, e: Entry, fuel: nat, more: nat, attached: bool)
    requires fuel <= more
    requires EntryOutcome(xtypes, e, fuel, attached) != Threw(StackOverflow)
    ensures EntryOutcome(xtypes, e, more, attached) == EntryOutcome(xtypes, e, fuel, attached)
    decreases e, 0
  {
    if e.Cfg? && Keys.TagKey(e.config.xtype) in xtypes {
      RenderFuelMonotone(xtypes, true, xtypes[Keys.TagKey(e.config.xtype)], attached, e.config.children, fuel, more);
    }
  }

  /** A config child whose tag is not registered stops the loop: once the
      children before it have rendered, the whole loop throws at `new`. */
  lemma UnknownTagStops(xtypes: map<string, Kind>, es: seq<Entry>, i: nat, fuel: nat, attached: bool)
    requires i < |es| && es[i].Cfg? && Keys.TagKey(es[i].config.xtype) !in xtypes
    requires ChildrenOutcome(xtypes, es[..i], fuel, attached) == Done
    ensures ChildrenOutcome(xtypes, es, fuel, attached) == Threw(NotAConstructor)
  {
    ChildrenStep(xtypes, es, i, fuel, attached);
    FailureSticks(xtypes, es, i + 1, fuel, attached);
  }

  // ---------------------------------------------------------------------
  // What the helper inside `clear` does

  /** `remove(items)`, the recursive helper `clear` runs over its children.
      Calling it takes one of the `fuel` frames left on the stack. An empty
      (or missing) `items` ends at once. */
  ghost function WalkItems(es: seq<Entry>, fuel: nat, Cs: set<Control>): Outcome
    requires InstancesIn(es) <= Cs && ChildrenClosed(Cs)
    reads Cs
    decreases fuel, 0, 0
  {
    if fuel == 0 then Threw(StackOverflow) else WalkEach(es, fuel - 1, Cs)
  }

  /** `items.forEach(n => ...)`: the entries in order; the first failure ends it. */
  ghost function WalkEach(es: seq<Entry>, fuel: nat, Cs: set<Control>): Outcome
    requires InstancesIn(es) <= Cs && ChildrenClosed(Cs)
    reads Cs
    decreases fuel, 2, |es|
  {
    if es == [] then Done
    else
      var o := WalkEach(es[..|es| - 1], fuel, Cs);
      if o.Threw? then o else WalkEntry(es[|es| - 1], fuel, Cs)
  }

  /** One entry `n`. Reading `n.id` on `null` throws. The helper is a plain
      function in strict mode, so `this` is undefined in it and a truthy id
      throws at `this.manager`. Otherwise the walk goes on into `n.children`. */
  ghost function WalkEntry(e: Entry, fuel: nat, Cs: set<Control>): Outcome
    requires InstancesOf(e) <= Cs && ChildrenClosed(Cs)
    reads Cs
    decreases fuel, 1, 0
  {
    match e
    case Null => Threw(NullDereference)
    case Cfg(c) => if Truthy(c.id) then Threw(NullDereference) else WalkItems(c.children, fuel, Cs)
    case Instance(k) => if k.id != "" then Threw(NullDereference) else WalkItems(k.children, fuel, Cs)
  }

  /** The `id` the helper tests: a config's own, or a control's. */
  function EntryId(e: Entry): Option<string>
    reads EntryControls(e)
  {
    match e
    case Null => None
    case Cfg(c) => c.id
    case Instance(k) => Some(k.id)
  }

  lemma WalkStep(es: seq<Entry>, i: nat, fuel: nat, Cs: set<Control>)
    requires i < |es| && InstancesIn(es) <= Cs && ChildrenClosed(Cs)
    ensures InstancesIn(es[..i]) <= Cs && InstancesOf(es[i]) <= Cs && InstancesIn(es[..i + 1]) <= Cs
    ensures WalkEach(es[..i + 1], fuel, Cs) ==
      (var o := WalkEach(es[..i], fuel, Cs); if o.Threw? then o else WalkEntry(es[i], fuel, Cs))
  {
    InstancesInMember(es, i);
    assert es[..i + 1][..i] == es[..i];
    if i + 1 < |es| {
      InstancesInMember(es, i + 1);
    } else {
      assert es[..i + 1] == es;
    }
  }

  /** Once an entry has failed, the rest of the `forEach` never runs. */
  lemma {:induction false} WalkFailureSticks(es: seq<Entry>, i: nat, fuel: nat, Cs: set<Control>)
    requires i <= |es| && InstancesIn(es) <= Cs && ChildrenClosed(Cs)
    requires InstancesIn(es[..i]) <= Cs && WalkEach(es[..i], fuel, Cs).Threw?
    ensures WalkEach(es, fuel, Cs) == WalkEach(es[..i], fuel, Cs)
    decreases |es| - i
  {
    if i < |es| {
      WalkStep(es, i, fuel, Cs);
      WalkFailureSticks(es, i + 1, fuel, Cs);
    } else {
      assert es[..i] == es;
    }
  }

  /** The entry after `i` finished ones ended with `o`: the loop either
      goes on or ends with `o`. */
  lemma WalkNext(es: seq<Entry>, i: nat, fuel: nat, Cs: set<Control>, o: Outcome)
    requires i < |es| && InstancesIn(es) <= Cs && ChildrenClosed(Cs)
    requires InstancesIn(es[..i]) <= Cs && WalkEach(es[..i], fuel, Cs) == Done
    requires InstancesOf(es[i]) <= Cs && o == WalkEntry(es[i], fuel, Cs)
    ensures InstancesIn(es[..i + 1]) <= Cs
    ensures o.Threw? ==> WalkEach(es, fuel, Cs) == o
    ensures !o.Threw? ==> WalkEach(es[..i + 1], fuel, Cs) == Done
  {
    WalkStep(es, i, fuel, Cs);
    if o.Threw? {
      WalkFailureSticks(es, i + 1, fuel, Cs);
    }
  }

  /** `clear` gets past its helper only when no entry of the children is
      `null` and none has a truthy id: every default id is truthy, so any
      child control built without an explicit empty id makes it throw. */
  lemma {:induction false} WalkDoneNoIds(es: seq<Entry>, fuel: nat, Cs: set<Control>)
    requires InstancesIn(es) <= Cs && ChildrenClosed(Cs)
    requires WalkEach(es, fuel, Cs) == Done
    ensures forall k :: 0 <= k < |es| ==> !es[k].Null? && !Truthy(EntryId(es[k]))
    decreases |es|
  {
    if es != [] {
      var init := es[..|es| - 1];
      InstancesInMember(es, |es| - 1);
      WalkDoneNoIds(init, fuel, Cs);
      forall k | 0 <= k < |es| ensures !es[k].Null? && !Truthy(EntryId(es[k])) {
        if k < |es| - 1 {
          assert es[k] == init[k];
        }
      }
    }
  }

  /** How `clear` ends, given how its helper ended, the control's element,
      its parent, the document after the helper and whether the control has
      listeners: `parent.removeChild(dom)` throws on a null parent, on one
      that is not an element and when `dom` is not its child, and then
      `this.listeners.forEach` throws because `listeners` is a plain object. */
  function ClearOutcome(walk: Outcome, dom: Option<ElemRef>, parent: Option<ElemRef>,
                        elements: seq<Element>, listening: bool): (o: Outcome)
    ensures o == Done <==>
      && walk == Done
      && (dom.None? || (parent.Some? && parent.value < |elements|
                        && dom.value in elements[parent.value].children && !listening))
    ensures walk.Threw? ==> o == walk
  {
    if walk.Threw? then walk
    else if dom.None? then Done
    else if parent.None? then Threw(NullDereference)
    else if parent.value >= |elements| then Threw(NotANode)
    else if dom.value !in elements[parent.value].children then Threw(NotFound)
    else if listening then Threw(NotAFunction)
    else Done
  }

  /** The document after `clear`'s `parent.removeChild(dom)`: `dom` leaves
      the children of `parent` when it is one of them. */
  function AfterClear(elements: seq<Element>, dom: Option<ElemRef>, parent: Option<ElemRef>): (r: seq<Element>)
    ensures |r| == |elements|
    ensures dom.Some? && parent.Some? && parent.value < |elements| ==>
              dom.value !in r[parent.value].children
    ensures forall x :: 0 <= x < |elements| && (parent.None? || x != parent.value) ==> r[x] == elements[x]
    ensures dom.Some? && parent.Some? && parent.value < |elements| ==>
              var p := parent.value;
              && r[p].ns == elements[p].ns && r[p].tag == elements[p].tag && r[p].writes == elements[p].writes
              && r[p].children == Without(elements[p].children, dom.value)
  {
    if dom.Some? && parent.Some? && parent.value < |elements| && dom.value in elements[parent.value].children
    then elements[parent.value := elements[parent.value].(children := Without(elements[parent.value].children, dom.value))]
    else elements
  }

  /** The helper `remove(items)` of `clear`: only handler slots of the
      elements of nested controls are set to null, and a tree of configs
      leaves the document as it was. */
  method ClearItems(doc: Document, items: seq<Entry>, fuel: nat, ghost Cs: set<Control>) returns (out: Outcome)
    requires InstancesIn(items) <= Cs && ChildrenClosed(Cs)
    modifies doc
    decreases fuel, 0
    ensures out == WalkItems(items, fuel, Cs)
    ensures SlotsCleared(old(doc.elements), doc.elements)
    ensures InstancesIn(items) == {} ==> doc.elements == old(doc.elements)
  {
    ghost var before := doc.elements;
    SlotsClearedRefl(before);
    if fuel == 0 {
      return Threw(StackOverflow);
    }
    out := Done;
    if |items| == 0 {
      return;
    }
    var f := fuel - 1;
    forall j | 0 <= j < |items| ensures InstancesOf(items[j]) <= InstancesIn(items) {
      InstancesInMember(items, j);
    }
    var i := 0;
    while i < |items|
      invariant 0 <= i <= |items|
      invariant InstancesIn(items[..i]) <= Cs && WalkEach(items[..i], f, Cs) == Done
      invariant SlotsCleared(before, doc.elements)
      invariant InstancesIn(items) == {} ==> doc.elements == before
    {
      ghost var mid := doc.elements;
      var o := ClearEntry(doc, items[i], f, Cs);
      SlotsClearedTrans(before, mid, doc.elements);
      WalkNext(items, i, f, Cs, o);
      if o.Threw? {
        return o;
      }
      i := i + 1;
    }
    assert items[..i] == items;
  }

  /** One entry `n` of the helper: the id test, then `n.dom['on' + m] =
      null` for every listener `m` when `n` has an element (a config has
      none), then the helper on `n.children`. */
  method ClearEntry(doc: Document, e: Entry, fuel: nat, ghost Cs: set<Control>) returns (out: Outcome)
    requires InstancesOf(e) <= Cs && ChildrenClosed(Cs)
    modifies doc
    decreases fuel, 1
    ensures out == WalkEntry(e, fuel, Cs)
    ensures SlotsCleared(old(doc.elements), doc.elements)
    ensures InstancesOf(e) == {} ==> doc.elements == old(doc.elements)
  {
    ghost var before := doc.elements;
    SlotsClearedRefl(before);
    match e {
      case Null =>
        out := Threw(NullDereference);
      case Cfg(c) =>
        if Truthy(c.id) {
          return Threw(NullDereference);
        }
        out := ClearItems(doc, c.children, fuel, Cs);
      case Instance(k) =>
        if k.id != "" {
          return Threw(NullDereference);
        }
        var listeners := k.decl.listeners.GetOr([]);
        var j := 0;
        while j < |listeners|
          invariant 0 <= j <= |listeners|
          invariant SlotsCleared(before, doc.elements)
        {
          if k.dom.Some? {
            ghost var mid := doc.elements;
            doc.Write(k.dom.value, SetSlot("on" + listeners[j].0, None));
            if k.dom.value < |mid| {
              SlotsClearedByWrite(mid, k.dom.value, "on" + listeners[j].0);
            }
            SlotsClearedTrans(before, mid, doc.elements);
          }
          j := j + 1;
        }
        ghost var mid := doc.elements;
        out := ClearItems(doc, k.children, fuel, Cs);
        SlotsClearedTrans(before, mid, doc.elements);
    }
  }

  // ---------------------------------------------------------------------

  /** The module-level counter `ID` that default ids are built from. */
  class IdCounter {
    var value: int

    constructor ()
      ensures value == -1
    {
      value := -1;
    }
  }

  class Manager {
    var xtypes: map<string, Kind>
    var objects: map<string, Registered>
    /** Set when the manager itself is registered by `create(control)`. */
    var manager: Manager?

    constructor ()
      ensures xtypes == map[] && objects == map[] && manager == null
    {
      xtypes := map[];
      objects := map[];
      manager := null;
    }

    /** `addXType(name, cls)`: the first class registered under a name stays. */
    method AddXType(name: string, cls: Kind) returns (warning: Option<Warning>)
      modifies this`xtypes
      ensures name in old(xtypes) ==> xtypes == old(xtypes) && warning == Some(XTypeAlreadyAdded(name))
      ensures name !in old(xtypes) ==> xtypes == old(xtypes)[name := cls] && warning == None
    {
      if name !in xtypes {
        xtypes := xtypes[name := cls];
        warning := None;
      } else {
        warning := Some(XTypeAlreadyAdded(name));
      }
    }

    /** `removeXType(name)`: deletes that name only; an absent name only warns. */
    method RemoveXType(name: string) returns (warning: Option<Warning>)
      modifies this`xtypes
      ensures name in old(xtypes) ==> xtypes == old(xtypes) - {name} && warning == None
      ensures name !in old(xtypes) ==> xtypes == old(xtypes) && warning == Some(XTypeNotDefined(name))
    {
      if name in xtypes {
        xtypes := xtypes - {name};
        warning := None;
      } else {
        warning := Some(XTypeNotDefined(name));
      }
    }

    /** `getXType(name)`: the registered class, or nothing and a warning. */
    function GetXType(name: string): (r: (Option<Kind>, Option<Warning>))
      reads this`xtypes
      ensures r.0.Some? <==> name in xtypes
      ensures r.0.Some? ==> r.0.value == xtypes[name]
      ensures r.1.Some? <==> name !in xtypes
      ensures r.1.Some? ==> r.1.value == XTypeNotDefined(name)
    {
      if name in xtypes then (Some(xtypes[name]), None) else (None, Some(XTypeNotDefined(name)))
    }

    /** `get(id, scope)`; an omitted scope means "global". */
    function Get(id: string, scope: Option<string>): (r: Option<Registered>)
      reads this`objects
      ensures r.Some? <==> Keys.ObjectKey(id, scope.GetOr("global")) in objects
      ensures r.Some? ==> r.value == objects[Keys.ObjectKey(id, scope.GetOr("global"))]
    {
      var key := Keys.ObjectKey(id, scope.GetOr("global"));
      if key in objects then Some(objects[key]) else None
    }

    /** The objects registered under `key`, for frames. */
    function OccupantControls(key: string): set<Control>
      reads this`objects
    {
      if key in objects then ControlsOf(objects[key]) else {}
    }

    function OccupantManagers(key: string): set<Manager>
      reads this`objects
    {
      if key in objects then ManagersOf(objects[key]) else {}
    }

    /** `add(id, obj, scope)`: stores `obj` under `scope:id`, replacing any
        previous occupant without touching it, and makes this manager its owner. */
    method Add(id: string, obj: Registered, scope: Option<string>) returns (warning: Option<Warning>)
      modifies this`objects, ControlsOf(obj)`manager, ManagersOf(obj)`manager
      ensures var key := Keys.ObjectKey(id, scope.GetOr("global"));
        && objects == old(objects)[key := obj]
        && warning == (if key in old(objects) then Some(ObjectAlreadyAdded(id)) else None)
      ensures OwnerOf(obj) == this
      ensures Get(id, scope) == Some(obj)
    {
      var key := Keys.ObjectKey(id, scope.GetOr("global"));
      warning := if key in objects then Some(ObjectAlreadyAdded(id)) else None;
      match obj {
        case Ctl(c) => c.manager := this;
        case Mgr(m) => m.manager := this;
      }
      objects := objects[key := obj];
    }

    /** `remove(id, scope)`: a present entry loses its owner and its key; an
        absent one only warns. */
    method Remove(id: string, scope: Option<string>) returns (warning: Option<Warning>)
      modifies this`objects
      modifies OccupantControls(Keys.ObjectKey(id, scope.GetOr("global")))`manager
      modifies OccupantManagers(Keys.ObjectKey(id, scope.GetOr("global")))`manager
      ensures var key := Keys.ObjectKey(id, scope.GetOr("global"));
        && (key in old(objects) ==>
              && objects == old(objects) - {key} && warning == None
              && OwnerOf(old(objects)[key]) == null)
        && (key !in old(objects) ==> objects == old(objects) && warning == Some(ObjectNotDefined(id)))
      ensures Get(id, scope) == None
    {
      var key := Keys.ObjectKey(id, scope.GetOr("global"));
      if key in objects {
        match objects[key] {
          case Ctl(c) => c.manager := null;
          case Mgr(m) => m.manager := null;
        }
        objects := objects - {key};
        warning := None;
      } else {
        warning := Some(ObjectNotDefined(id));
      }
    }

    /** `create(config)`. A control instance is returned as it is, but the
        manager registers itself under the control's key. A config needs a
        registered `xtype`: a null config throws on reading `xtype`, an
        unknown tag throws at `new undefined(...)`. Otherwise a new control
        of the registered class is built from the config and registered. */
    method Create(e: Entry, counter: IdCounter) returns (r: Result<Control>, warnings: seq<Warning>)
      modifies this`objects, this`manager, counter
      ensures e.Instance? ==> r == Ok(e.control) && manager == this && counter.value == old(counter.value)
      ensures e.Instance? ==> objects == old(objects)[Keys.ObjectKey(e.control.id, e.control.scope) := Mgr(this)]
      ensures e.Instance? ==>
        warnings == (if Keys.ObjectKey(e.control.id, e.control.scope) in old(objects)
                     then [ObjectAlreadyAdded(e.control.id)] else [])
      ensures e.Null? ==>
        && r == Err(NullDereference) && warnings == [ConfigUndefined]
        && objects == old(objects) && manager == old(manager) && counter.value == old(counter.value)
      ensures e.Cfg? && Keys.TagKey(e.config.xtype) !in xtypes ==>
        && r == Err(NotAConstructor)
        && warnings == (if e.config.xtype.None? then [ConfigUndefined, ConfigXTypeUndefined] else [])
                       + [XTypeUndefined(Keys.TagKey(e.config.xtype))]
        && objects == old(objects) && manager == old(manager) && counter.value == old(counter.value)
      ensures e.Cfg? && Keys.TagKey(e.config.xtype) in xtypes ==>
        var cfg := e.config;
        && r.Ok? && fresh(r.value)
        && r.value.kind == xtypes[Keys.TagKey(cfg.xtype)]
        && r.value.parent == Some(cfg.parent.GetOr(Body))
        && r.value.id == (if Truthy(cfg.id) then cfg.id.value else Keys.DefaultId(r.value.kind.name, old(counter.value)))
        && counter.value == (if Truthy(cfg.id) then old(counter.value) else old(counter.value) - 1)
        && r.value.scope == OrElse(cfg.scope, "global")
        && r.value.children == cfg.children
        && r.value.decl == Kept(cfg.decl)
        && r.value.dom.None?
        && r.value.manager == this
        && manager == old(manager)
        && objects == old(objects)[Keys.ObjectKey(r.value.id, r.value.scope) := Ctl(r.value)]
        && warnings == (if cfg.xtype.None? then [ConfigUndefined, ConfigXTypeUndefined] else [])
                       + (if Keys.ObjectKey(r.value.id, r.value.scope) in old(objects)
                          then [ObjectAlreadyAdded(r.value.id)] else [])
    {
      match e {
        case Instance(c) =>
          var w := Add(c.id, Mgr(this), Some(c.scope));
          warnings := w.ToSeq();
          r := Ok(c);
        case Null =>
          warnings := [ConfigUndefined];
          r := Err(NullDereference);
        case Cfg(cfg) =>
          warnings := if cfg.xtype.None? then [ConfigUndefined, ConfigXTypeUndefined] else [];
          var key := Keys.TagKey(cfg.xtype);
          if key !in xtypes {
            warnings := warnings + [XTypeUndefined(key)];
            r := Err(NotAConstructor);
          } else {
            var control := new Control(xtypes[key], cfg, counter);
            var w := Add(control.id, Ctl(control), Some(control.scope));
            warnings := warnings + w.ToSeq();
            r := Ok(control);
          }
      }
    }
  }

  class Control {
    /** The class the control was built with (`this.constructor`). */
    const kind: Kind
    /** The element the control renders into; `None` once destroyed. */
    var parent: Option<ElemRef>
    var id: string
    var scope: string
    var children: seq<Entry>
    var decl: Decl
    /** The element of the last render, if any. */
    var dom: Option<ElemRef>
    var manager: Manager?

    /** `new Control(options)`, `new SvgControl(options)` and the SVG classes:
        a missing id is the class name followed by the counter, which then
        counts down; a missing scope is "global"; the parent defaults to the
        document body. */
    constructor (kind: Kind, options: Config, counter: IdCounter)
      modifies counter
      ensures this.kind == kind
      ensures parent == Some(options.parent.GetOr(Body))
      ensures Truthy(options.id) ==> id == options.id.value && counter.value == old(counter.value)
      ensures !Truthy(options.id) ==>
                id == Keys.DefaultId(kind.name, old(counter.value)) && counter.value == old(counter.value) - 1
      ensures scope == OrElse(options.scope, "global")
      ensures children == options.children
      ensures decl == Kept(options.decl)
      ensures dom.None? && manager == null
    {
      this.kind := kind;
      parent := Some(options.parent.GetOr(Body));
      if Truthy(options.id) {
        id := options.id.value;
      } else {
        id := Keys.DefaultId(kind.name, counter.value);
        counter.value := counter.value - 1;
      }
      scope := OrElse(options.scope, "global");
      children := options.children;
      decl := Kept(options.decl);
      dom := None;
      manager := null;
    }

    /** The `id` setter warns and stores the value anyway. */
    method SetId(newId: string) returns (warning: Warning)
      modifies this`id
      ensures id == newId && warning == IdReassigned
    {
      warning := IdReassigned;
      id := newId;
    }

    /** The `scope` setter warns and stores the value anyway. */
    method SetScope(newScope: string) returns (warning: Warning)
      modifies this`scope
      ensures scope == newScope && warning == ScopeReassigned
    {
      warning := ScopeReassigned;
      scope := newScope;
    }

    /** `add(obj)` appends. */
    method Add(obj: Entry)
      modifies this`children
      ensures children == old(children) + [obj]
    {
      children := children + [obj];
    }

    /** `insert(index, obj)`: `splice(index, 0, obj)`. */
    method Insert(index: int, obj: Entry)
      modifies this`children
      ensures children == Splice.InsertAt(old(children), index, obj)
    {
      children := Splice.InsertAt(children, index, obj);
    }

    /** `remove(obj)`: the first occurrence loses its manager and leaves the
        list; a `null` entry cannot lose its manager and throws; an absent
        entry changes nothing. */
    method Remove(obj: Entry) returns (out: Outcome)
      modifies this`children, EntryControls(obj)`manager
      ensures obj !in old(children) ==> out == Done && children == old(children)
      ensures obj in old(children) && obj.Null? ==> out == Threw(NullDereference) && children == old(children)
      ensures obj in old(children) && !obj.Null? ==>
                out == Done && children == Splice.RemoveFirst(old(children), obj)
      ensures obj in old(children) && obj.Instance? ==> obj.control.manager == null
      ensures obj !in old(children) && obj.Instance? ==> obj.control.manager == old(obj.control.manager)
    {
      var index := Splice.IndexOf(children, obj);
      if index > -1 {
        match obj {
          case Null =>
            out := Threw(NullDereference);
            return;
          case Cfg(_) =>
          case Instance(c) =>
            c.manager := null;
        }
        children := children[..index] + children[index + 1..];
      }
      out := Done;
    }
  
    /** The manager's type table as this control sees it. */
    ghost function Xtypes(): map<string, Kind>
      reads this`manager, (if manager == null then {} else {manager})`xtypes
    {
      if manager == null then map[] else manager.xtypes
    }

    /** The keys of the manager's `objects` table as this control sees it. */
    ghost function Registry(): set<string>
      reads this`manager, (if manager == null then {} else {manager})`objects
    {
      if manager == null then {} else manager.objects.Keys
    }

    /** Where the children of this control go: its element after
        `renderDom`, its own parent in the base `render`. */
    function Target(viaDom: bool): Option<ElemRef>
      reads this`dom, this`parent
    {
      if viaDom then dom else parent
    }

    /** The payload part of `renderDom`: attributes, properties, class,
        style, listener slots, data and inner HTML are written into `d`. */
    method ApplyPayload(doc: Document, d: ElemRef)
      requires d < |doc.elements|
      modifies doc
      ensures doc.elements == AddWrites(old(doc.elements), d, PayloadWrites(kind.svg, decl))
    {
      ghost var before := doc.elements;
      ghost var acc: seq<Write> := [];
      AddWritesNone(before, d);
      var attrs := decl.attr.GetOr([]);
      var k := 0;
      while k < |attrs|
        invariant 0 <= k <= |attrs|
        invariant acc == AttrWrites(kind.svg, attrs[..k])
        invariant doc.elements == AddWrites(before, d, acc)
      {
        var w := AttrWrite(kind.svg, attrs[k].0, attrs[k].1);
        doc.Write(d, w);
        AddWritesTwice(before, d, acc, [w]);
        assert attrs[..k + 1][..k] == attrs[..k];
        acc := acc + [w];
        k := k + 1;
      }
      assert attrs[..k] == attrs;
      ApplyLater(doc, d);
      AddWritesTwice(before, d, acc, LaterWrites(decl));
    }

    /** The rest of the payload, after the attributes. */
    method ApplyLater(doc: Document, d: ElemRef)
      requires d < |doc.elements|
      modifies doc
      ensures doc.elements == AddWrites(old(doc.elements), d, LaterWrites(decl))
    {
      ghost var before := doc.elements;
      AddWritesNone(before, d);
      ghost var acc := if decl.prop.Some? then [AssignProps(decl.prop.value)] else [];
      if decl.prop.Some? {
        doc.Write(d, AssignProps(decl.prop.value));
      }
      ghost var stage := if Truthy(decl.cls) then [SetClassName(decl.cls.value)] else [];
      if Truthy(decl.cls) {
        doc.Write(d, SetClassName(decl.cls.value));
        AddWritesTwice(before, d, acc, stage);
      } else {
        assert acc + stage == acc;
      }
      acc := acc + stage;
      stage := if decl.style.Some? then [AssignStyle(decl.style.value)] else [];
      if decl.style.Some? {
        doc.Write(d, AssignStyle(decl.style.value));
        AddWritesTwice(before, d, acc, stage);
      } else {
        assert acc + stage == acc;
      }
      acc := acc + stage;
      ghost var head := acc;
      var listeners := decl.listeners.GetOr([]);
      var k := 0;
      while k < |listeners|
        invariant 0 <= k <= |listeners|
        invariant acc == head + SlotWrites(listeners[..k])
        invariant doc.elements == AddWrites(before, d, acc)
      {
        var w := SetSlot("on" + listeners[k].0, Some(listeners[k].1));
        doc.Write(d, w);
        AddWritesTwice(before, d, acc, [w]);
        assert listeners[..k + 1][..k] == listeners[..k];
        acc := acc + [w];
        k := k + 1;
      }
      assert listeners[..k] == listeners;
      stage := if decl.data.Some? then [AssignData(decl.data.value)] else [];
      if decl.data.Some? {
        doc.Write(d, AssignData(decl.data.value));
        AddWritesTwice(before, d, acc, stage);
      } else {
        assert acc + stage == acc;
      }
      acc := acc + stage;
      stage := if Truthy(decl.html) then [SetInnerHtml(decl.html.value)] else [];
      if Truthy(decl.html) {
        doc.Write(d, SetInnerHtml(decl.html.value));
        AddWritesTwice(before, d, acc, stage);
      } else {
        assert acc + stage == acc;
      }
      acc := acc + stage;
    }

    /** `render()`. A class with an element of its own runs
        `renderDom(createElement(tag))`: the element is created (in the SVG
        namespace for an SVG control) and handed to `RenderDom`. The base
        `Control.prototype.render` creates no element and renders the
        children under its own parent. `fuel` is the remaining call depth: at
        0 the stack overflows.

        For every control the document never shrinks, and no control outside
        `Cs` moves (the frame). For a declarative control (every child,
        however deep, is a config) `Cs` may be empty, so no existing control
        moves; when its parent is an element of the document or null, the
        document only gains new elements and new children of the parent, the
        outcome is `RenderOutcome`, and on success the new children of the
        parent hold exactly `RenderTrees`. */
    method Render(doc: Document, counter: IdCounter, fuel: nat, ghost Cs: set<Control>, ghost Ms: set<Manager>)
      returns (out: Outcome, warnings: seq<Warning>, ghost tops: seq<ElemRef>)
      requires InstancesIn(children) <= Cs && (manager != null ==> manager in Ms) && Closed(Cs, Ms)
      modifies this`dom, Cs`parent, Cs`dom, Ms`objects, Ms`manager, doc, counter
      decreases fuel, 0
      ensures |doc.elements| >= old(|doc.elements|)
      ensures InstancesIn(children) == {} && Placed(old(parent), old(|doc.elements|)) ==>
        && parent == old(parent)
        && Extends(old(doc.elements), doc.elements, Hosts(old(parent)))
        && out == RenderOutcome(Xtypes(), manager != null, kind, old(parent).Some?, children, fuel)
        && Effects(Registry(), counter.value, warnings)
           == RenderEffects(Xtypes(), manager != null, kind, old(parent).Some?, children, fuel,
                            old(Registry()), old(counter.value))
      ensures InstancesIn(children) == {} && Placed(old(parent), old(|doc.elements|)) && out == Done ==>
        && Realizes(doc.elements, tops, RenderTrees(Xtypes(), kind, decl, children), old(|doc.elements|), |doc.elements|)
        && Appended(old(doc.elements), doc.elements, Hosts(old(parent)), tops)
        && (kind.element.Some? ==> dom == Some(old(|doc.elements|)))
    {
      ghost var b0 := doc.elements;
      ghost var declarative := InstancesIn(children) == {} && Placed(parent, |b0|);
      ghost var Ds := if declarative then {} else Cs;
      if fuel == 0 {
        out, warnings, tops := Threw(StackOverflow), [], [];
        ExtendsRefl(b0, Hosts(parent));
        return;
      }
      match kind.element {
        case None =>
          out, warnings, tops := RenderEach(doc, counter, fuel - 1, false, Ds, Ms);
        case Some(tag) =>
          var d := doc.CreateElement(Namespace(kind), tag);
          assert doc.elements[..d] == b0;
          out, warnings := RenderDom(doc, d, counter, fuel - 1, Ds, Ms);
          tops := [d];
      }
    }

    /** `renderDom(dom)`: `dom` becomes the control's element and is
        appended to `parent`, the payload is written into it, and then every
        child is created and rendered under it.

        When `dom` is the newest element of the document, still bare, and the
        control is declarative with its parent placed before `dom`: the
        document before `dom` is only extended at the parent, which gains
        `dom` as its last child, and on success `dom` holds the tree of the
        control. */
    method RenderDom(doc: Document, d: ElemRef, counter: IdCounter, fuel: nat,
                     ghost Cs: set<Control>, ghost Ms: set<Manager>)
      returns (out: Outcome, warnings: seq<Warning>)
      requires d < |doc.elements|
      requires InstancesIn(children) <= Cs && (manager != null ==> manager in Ms) && Closed(Cs, Ms)
      modifies this`dom, Cs`parent, Cs`dom, Ms`objects, Ms`manager, doc, counter
      decreases fuel, 5
      ensures |doc.elements| >= old(|doc.elements|)
      ensures && InstancesIn(children) == {} && Placed(old(parent), d) && d + 1 == old(|doc.elements|)
              && old(doc.elements[d].writes) == [] && old(doc.elements[d].children) == [] ==>
        && parent == old(parent) && dom == Some(d)
        && Extends(old(doc.elements)[..d], doc.elements, Hosts(old(parent)))
        && out == (if old(parent).None? || (children != [] && manager == null) then Threw(NullDereference)
                   else ChildrenOutcome(Xtypes(), children, fuel, true))
        && Effects(Registry(), counter.value, warnings)
           == (if old(parent).None? || (children != [] && manager == null)
               then Effects(old(Registry()), old(counter.value), [])
               else ChildrenEffects(Xtypes(), children, fuel, true, old(Registry()), old(counter.value)))
      ensures old(parent).None? ==>
        && out == Threw(NullDereference) && dom == Some(d) && doc.elements == old(doc.elements)
        && warnings == [] && counter.value == old(counter.value)
      ensures && InstancesIn(children) == {} && Placed(old(parent), d) && d + 1 == old(|doc.elements|)
              && old(doc.elements[d].writes) == [] && old(doc.elements[d].children) == [] && out == Done ==>
        && Appended(old(doc.elements)[..d], doc.elements, Hosts(old(parent)), [d])
        && Realizes(doc.elements, [d], [Tree(old(doc.elements[d].ns), old(doc.elements[d].tag),
                                             PayloadWrites(kind.svg, decl), ChildrenTrees(Xtypes(), children))],
                    d, |doc.elements|)
    {
      ghost var b1 := doc.elements;
      ghost var b0 := b1[..d];
      ghost var declarative := && InstancesIn(children) == {} && Placed(parent, d) && d + 1 == |b1|
                               && b1[d].writes == [] && b1[d].children == [];
      ghost var Ds := if declarative then {} else Cs;
      out := Mount(doc, d);
      warnings := [];
      if out.Threw? {
        if declarative {
          ExtendsByNew(b0, doc.elements, Hosts(parent));
        }
        return;
      }
      ghost var p := parent.value;
      ghost var b3 := doc.elements;
      if declarative {
        MountedExtends(b1, p, d, PayloadWrites(kind.svg, decl), b3);
      }
      ghost var kids;
      out, warnings, kids := RenderEach(doc, counter, fuel, true, Ds, Ms);
      if declarative {
        ghost var t := Tree(b1[d].ns, b1[d].tag, PayloadWrites(kind.svg, decl), ChildrenTrees(Xtypes(), children));
        if out == Done {
          LeafStep(b0, b3, doc.elements, p, d, kids, t);
        } else {
          ExtendsTrans(b0, b3, doc.elements, {p}, {d});
        }
      }
    }

    /** The start of `renderDom`: `dom` becomes the control's element and is
        appended to `parent`, and then the payload is written into it. A
        parent that is null or not an element throws before any write. */
    method Mount(doc: Document, d: ElemRef) returns (out: Outcome)
      requires d < |doc.elements|
      modifies this`dom, doc
      ensures dom == Some(d)
      ensures parent.None? ==> out == Threw(NullDereference) && doc.elements == old(doc.elements)
      ensures parent.Some? && parent.value >= |old(doc.elements)| ==>
                out == Threw(NotANode) && doc.elements == old(doc.elements)
      ensures parent.Some? && parent.value < |old(doc.elements)| ==>
        var p := parent.value;
        && out == Done
        && doc.elements == AddWrites(old(doc.elements)[p := old(doc.elements)[p].(children := old(doc.elements)[p].children + [d])],
                                     d, PayloadWrites(kind.svg, decl))
    {
      dom := Some(d);
      out := doc.AppendChild(parent, d);
      if out.Done? {
        ApplyPayload(doc, d);
      }
    }

    /** `this.children.forEach(n => { ... })` in `render` (children go to
        `parent`) or in `renderDom` (children go to `dom`). */
    method RenderEach(doc: Document, counter: IdCounter, fuel: nat, viaDom: bool,
                      ghost Cs: set<Control>, ghost Ms: set<Manager>)
      returns (out: Outcome, warnings: seq<Warning>, ghost tops: seq<ElemRef>)
      requires InstancesIn(children) <= Cs && (manager != null ==> manager in Ms) && Closed(Cs, Ms)
      modifies Cs`parent, Cs`dom, Ms`objects, Ms`manager, doc, counter
      decreases fuel, 4
      ensures |doc.elements| >= old(|doc.elements|)
      ensures InstancesIn(children) == {} && Placed(old(Target(viaDom)), old(|doc.elements|)) ==>
        && Extends(old(doc.elements), doc.elements, Hosts(old(Target(viaDom))))
        && out == (if children != [] && manager == null then Threw(NullDereference)
                   else ChildrenOutcome(Xtypes(), children, fuel, old(Target(viaDom)).Some?))
        && Effects(Registry(), counter.value, warnings)
           == (if children != [] && manager == null then Effects(old(Registry()), old(counter.value), [])
               else ChildrenEffects(Xtypes(), children, fuel, old(Target(viaDom)).Some?, old(Registry()), old(counter.value)))
      ensures InstancesIn(children) == {} && Placed(old(Target(viaDom)), old(|doc.elements|)) && out == Done ==>
        && Realizes(doc.elements, tops, ChildrenTrees(Xtypes(), children), old(|doc.elements|), |doc.elements|)
        && Appended(old(doc.elements), doc.elements, Hosts(old(Target(viaDom))), tops)
    {
      ghost var T := Target(viaDom);
      ghost var b0 := doc.elements;
      ghost var declarative := InstancesIn(children) == {} && Placed(T, |b0|);
      ghost var Ds := if declarative then {} else Cs;
      ghost var X := Xtypes();
      ghost var K0, C0 := Registry(), counter.value;
      out, warnings, tops := Done, [], [];
      ExtendsRefl(b0, Hosts(T));
      if declarative {
        AppendedNone(b0, Hosts(T));
        assert children[..0] == [];
      }
      var i := 0;
      while i < |children|
        invariant 0 <= i <= |children|
        invariant |doc.elements| >= |b0|
        invariant declarative ==>
          && Target(viaDom) == T && Xtypes() == X
          && (i > 0 ==> manager != null)
          && EachSoFar(X, children, i, fuel, T, b0, doc.elements, tops, K0, C0, Effects(Registry(), counter.value, warnings))
      {
        var o, w, t := RenderNext(i, Target(viaDom), doc, counter, fuel, X, b0, tops, K0, C0, warnings, Ds, Ms);
        warnings := warnings + w;
        if o.Threw? {
          out := o;
          return;
        }
        tops := tops + t;
        i := i + 1;
      }
      assert children[..i] == children;
    }

    /** One turn of the loop above: the `i`th child is created and rendered
        under `target`. When the loop is declarative and stands as
        `EachSoFar` says after `i` children, the turn either ends the loop
        with the child's failure or moves it on past the child. */
    method RenderNext(i: nat, target: Option<ElemRef>, doc: Document, counter: IdCounter, fuel: nat,
                      ghost X: map<string, Kind>, ghost b0: seq<Element>, ghost tops: seq<ElemRef>,
                      ghost K0: set<string>, ghost C0: int, ghost before: seq<Warning>,
                      ghost Cs: set<Control>, ghost Ms: set<Manager>)
      returns (o: Outcome, w: seq<Warning>, ghost t: seq<ElemRef>)
      requires i < |children|
      requires InstancesIn(children) <= Cs && (manager != null ==> manager in Ms) && Closed(Cs, Ms)
      requires manager != null ==> manager.xtypes == X
      modifies Cs`parent, Cs`dom, Ms`objects, Ms`manager, doc, counter
      decreases fuel, 3
      ensures |doc.elements| >= old(|doc.elements|)
      ensures manager == null ==>
        && o == Threw(NullDereference) && w == []
        && doc.elements == old(doc.elements) && Registry() == old(Registry()) && counter.value == old(counter.value)
      ensures && InstancesIn(children) == {} && Placed(target, |b0|) && manager != null
              && old(EachSoFar(X, children, i, fuel, target, b0, doc.elements, tops, K0, C0,
                               Effects(Registry(), counter.value, before))) ==>
        && (o.Threw? ==>
              && Extends(b0, doc.elements, Hosts(target))
              && ChildrenOutcome(X, children, fuel, target.Some?) == o
              && ChildrenEffects(X, children, fuel, target.Some?, K0, C0) == Effects(Registry(), counter.value, before + w))
        && (o == Done ==>
              EachSoFar(X, children, i + 1, fuel, target, b0, doc.elements, tops + t, K0, C0,
                        Effects(Registry(), counter.value, before + w)))
    {
      ghost var mid := doc.elements;
      ghost var eff := Effects(Registry(), counter.value, before);
      ghost var declarative := && InstancesIn(children) == {} && Placed(target, |b0|) && manager != null
                               && EachSoFar(X, children, i, fuel, target, b0, mid, tops, K0, C0, eff);
      InstancesInMember(children, i);
      o, w, t := RenderEntry(children[i], target, doc, counter, fuel, X, Cs, Ms);
      if declarative {
        if o.Threw? {
          EachFailed(X, children, i, fuel, target, b0, mid, doc.elements, tops, K0, C0, eff,
                     Effects(Registry(), counter.value, w));
        } else {
          EachDone(X, children, i, fuel, target, b0, mid, doc.elements, tops, t, K0, C0, eff,
                   Effects(Registry(), counter.value, w));
        }
      }
    }

    /** `control.parent = target; control.render();` for the control that
        `create` returned for the entry `e`, under the type table `X`. */
    method Attach(target: Option<ElemRef>, doc: Document, counter: IdCounter, fuel: nat,
                  ghost e: Entry, ghost X: map<string, Kind>, ghost Cs: set<Control>, ghost Ms: set<Manager>)
      returns (out: Outcome, warnings: seq<Warning>, ghost tops: seq<ElemRef>)
      requires InstancesIn(children) <= Cs && (manager != null ==> manager in Ms) && Closed(Cs, Ms)
      requires InstancesOf(e) == {} ==>
        && e.Cfg? && Keys.TagKey(e.config.xtype) in X && kind == X[Keys.TagKey(e.config.xtype)]
        && children == e.config.children && decl == Kept(e.config.decl)
        && manager != null && manager.xtypes == X
      modifies this`parent, this`dom, Cs`parent, Cs`dom, Ms`objects, Ms`manager, doc, counter
      decreases fuel, 1
      ensures |doc.elements| >= old(|doc.elements|)
      ensures InstancesOf(e) == {} && Placed(target, old(|doc.elements|)) ==>
        && Extends(old(doc.elements), doc.elements, Hosts(target))
        && out == EntryOutcome(X, e, fuel, target.Some?)
        && Effects(Registry(), counter.value, warnings)
           == RenderEffects(X, true, kind, target.Some?, children, fuel, old(Registry()), old(counter.value))
      ensures InstancesOf(e) == {} && Placed(target, old(|doc.elements|)) && out == Done ==>
        && Realizes(doc.elements, tops, EntryTrees(X, e), old(|doc.elements|), |doc.elements|)
        && Appended(old(doc.elements), doc.elements, Hosts(target), tops)
    {
      ghost var K0 := Registry();
      parent := target;
      ghost var declarative := InstancesOf(e) == {};
      if declarative {
        EntryAsRender(X, e.config, fuel, target.Some?);
        assert InstancesIn(children) == {} && Xtypes() == X && Registry() == K0;
      }
      ghost var trees := RenderTrees(X, kind, decl, children);
      out, warnings, tops := Render(doc, counter, fuel, Cs, Ms);
      if declarative {
        assert Xtypes() == X && RenderTrees(Xtypes(), kind, decl, children) == trees;
      }
    }

    /** One child in the loop above: `var control = this.manager.create(n);
        control.parent = target; control.render();`, where `X` is the type
        table of the manager. */
    method RenderEntry(e: Entry, target: Option<ElemRef>, doc: Document, counter: IdCounter, fuel: nat,
                       ghost X: map<string, Kind>, ghost Cs: set<Control>, ghost Ms: set<Manager>)
      returns (out: Outcome, warnings: seq<Warning>, ghost tops: seq<ElemRef>)
      requires InstancesOf(e) <= Cs && (manager != null ==> manager in Ms) && Closed(Cs, Ms)
      requires manager != null ==> manager.xtypes == X
      modifies Cs`parent, Cs`dom, Ms`objects, Ms`manager, doc, counter
      decreases fuel, 2
      ensures |doc.elements| >= old(|doc.elements|)
      ensures manager == null ==>
        out == Threw(NullDereference) && warnings == [] && doc.elements == old(doc.elements)
        && counter.value == old(counter.value)
      ensures InstancesOf(e) == {} && Placed(target, old(|doc.elements|)) ==>
        && Extends(old(doc.elements), doc.elements, Hosts(target))
        && out == (if manager == null then Threw(NullDereference)
                   else EntryOutcome(X, e, fuel, target.Some?))
        && Effects(Registry(), counter.value, warnings)
           == (if manager == null then Effects(old(Registry()), old(counter.value), [])
               else EntryEffects(X, e, fuel, target.Some?, old(Registry()), old(counter.value)))
      ensures InstancesOf(e) == {} && Placed(target, old(|doc.elements|)) && out == Done ==>
        && Realizes(doc.elements, tops, EntryTrees(X, e), old(|doc.elements|), |doc.elements|)
        && Appended(old(doc.elements), doc.elements, Hosts(target), tops)
    {
      ghost var b0 := doc.elements;
      ghost var T := target;
      warnings, tops := [], [];
      if manager == null {
        out := Threw(NullDereference);
        ExtendsRefl(b0, Hosts(T));
        return;
      }
      ghost var K0, C0 := Registry(), counter.value;
      var r, w := manager.Create(e, counter);
      warnings := w;
      if r.Err? {
        out := Threw(r.failure);
        ExtendsRefl(b0, Hosts(T));
        return;
      }
      var control := r.value;
      ghost var made := Effects(Registry(), counter.value, w);
      var w2;
      out, w2, tops := control.Attach(target, doc, counter, fuel, e, X, Cs, Ms);
      warnings := warnings + w2;
      if InstancesOf(e) == {} {
        EntryEffectsMade(X, e.config, fuel, target.Some?, K0, C0, made);
      }
    }

    /** `clear()`: the helper walks the children, `children` is emptied,
        and an element the control has is removed from `parent` and
        forgotten; when the control has listeners the removal is followed by
        a throw and `dom` stays. `walked` is the document after the helper. */
    method Clear(doc: Document, fuel: nat, ghost Cs: set<Control>) returns (out: Outcome, ghost walked: seq<Element>)
      requires InstancesIn(children) <= Cs && ChildrenClosed(Cs)
      modifies this`children, this`dom, doc
      ensures SlotsCleared(old(doc.elements), walked)
      ensures InstancesIn(old(children)) == {} ==> walked == old(doc.elements)
      ensures out == ClearOutcome(old(WalkItems(children, fuel, Cs)), old(dom), parent, walked, decl.listeners.Some?)
      ensures old(WalkItems(children, fuel, Cs)).Threw? ==>
                children == old(children) && doc.elements == walked
      ensures old(WalkItems(children, fuel, Cs)) == Done ==>
                children == [] && doc.elements == AfterClear(walked, old(dom), parent)
      ensures dom == (if out == Done then None else old(dom))
      ensures out == Done && old(dom).Some? ==>
                parent.Some? && parent.value < |doc.elements| && old(dom).value !in doc.elements[parent.value].children
    {
      out := ClearItems(doc, children, fuel, Cs);
      walked := doc.elements;
      if out.Threw? {
        return;
      }
      children := [];
      if dom.Some? {
        out := doc.RemoveChild(parent, dom.value);
        if out.Threw? {
          return;
        }
        if decl.listeners.Some? {
          out := Threw(NotAFunction);
          return;
        }
        dom := None;
      }
    }

    /** `destroy()`: `clear()`, then `parent` becomes null, the control's own
        `scope:id` entry is removed from its manager when the id is truthy
        (with a null manager that call throws), and `manager` becomes null.
        `cleared` is how `clear` ended, `walked` the document after its helper. */
    method Destroy(doc: Document, fuel: nat, ghost Cs: set<Control>)
      returns (out: Outcome, warnings: seq<Warning>, ghost cleared: Outcome, ghost walked: seq<Element>)
      requires InstancesIn(children) <= Cs && ChildrenClosed(Cs)
      modifies this`children, this`dom, this`parent, this`manager, doc
      modifies (if manager == null then {} else {manager})`objects
      modifies (if manager == null then {} else manager.OccupantControls(Keys.ObjectKey(id, scope)))`manager
      modifies (if manager == null then {} else manager.OccupantManagers(Keys.ObjectKey(id, scope)))`manager
      ensures SlotsCleared(old(doc.elements), walked)
      ensures cleared == ClearOutcome(old(WalkItems(children, fuel, Cs)), old(dom), old(parent), walked, decl.listeners.Some?)
      ensures children == (if old(WalkItems(children, fuel, Cs)) == Done then [] else old(children))
      ensures doc.elements == (if old(WalkItems(children, fuel, Cs)) == Done then AfterClear(walked, old(dom), old(parent)) else walked)
      ensures dom == (if cleared == Done then None else old(dom))
      ensures cleared.Threw? ==> out == cleared && warnings == [] && parent == old(parent) && manager == old(manager)
      ensures cleared == Done ==> parent.None? && manager == null
      ensures cleared == Done && id != "" && old(manager) == null ==> out == Threw(NullDereference) && warnings == []
      ensures cleared == Done && id == "" ==> out == Done && warnings == []
      ensures (cleared.Threw? || id == "") && old(manager) != null ==> old(manager).objects == old(manager.objects)
      ensures cleared == Done && id != "" && old(manager) != null ==>
        var key := Keys.ObjectKey(id, scope);
        && out == Done
        && old(manager).objects == old(manager.objects) - {key}
        && warnings == (if key in old(manager.objects) then [] else [ObjectNotDefined(id)])
        && (key in old(manager.objects) ==> OwnerOf(old(manager.objects[key])) == null)
    {
      var o;
      o, walked := Clear(doc, fuel, Cs);
      cleared := o;
      warnings := [];
      if o.Threw? {
        return o, warnings, cleared, walked;
      }
      if parent.Some? {
        parent := None;
      }
      if id != "" {
        if manager == null {
          return Threw(NullDereference), warnings, cleared, walked;
        }
        var w := manager.Remove(id, Some(scope));
        warnings := w.ToSeq();
      }
      manager := null;
      out := Done;
    }
  }
}
