/** The shared manager `SVG` the library exports, and the 65 `addXType`
    calls that fill its type table when the library loads. */
module Svg {
  import opened Common
  import opened Tags
  import opened XType

  /** `const SVG = new Manager();` followed by `SVG.addXType(tag, cls)` for
      every registration of the table, in order. No tag repeats, so no call
      warns, and the table holds exactly the registered classes. */
  method Load() returns (svg: Manager, warnings: seq<Warning>)
    ensures fresh(svg)
    ensures svg.xtypes == FirstWins(Table) && svg.objects == map[] && svg.manager == null
    ensures warnings == []
  {
    svg := new Manager();
    TableTagsDistinct();
    warnings := AddAll(svg, Table);
  }

  /** `addXType(b.tag, b.cls)` for each registration `b` in turn, on a
      manager whose table is empty: the first class registered for a tag
      stays, and only a repeated tag warns. */
  method AddAll(svg: Manager, bs: seq<Binding>) returns (warnings: seq<Warning>)
    requires svg.xtypes == map[]
    modifies svg`xtypes
    ensures svg.xtypes == FirstWins(bs)
    ensures DistinctTags(bs) ==> warnings == []
    ensures |warnings| <= |bs|
  {
    warnings := [];
    var i := 0;
    while i < |bs|
      invariant 0 <= i <= |bs|
      invariant svg.xtypes == FirstWins(bs[..i])
      invariant DistinctTags(bs) ==> warnings == []
      invariant |warnings| <= i
    {
      FirstWinsNext(bs, i);
      if DistinctTags(bs) {
        FirstWinsFresh(bs, i);
      }
      var w := svg.AddXType(bs[i].tag, bs[i].Class());
      warnings := warnings + w.ToSeq();
      i := i + 1;
    }
    assert bs[..i] == bs;
  }

  /** With the loaded table, a childless `{xtype: 'g'}` config renders,
      under an element and with a frame to spare, into one `g` element in the
      SVG namespace that carries its payload; `{xtype: 'fefuncr'}` throws at
      `new`, as that tag was never registered. */
  lemma GroupRendersFeFuncRThrows(xtypes: map<string, Kind>, decl: Payload.Decl, fuel: nat)
    requires xtypes == FirstWins(Table) && fuel >= 1
    ensures var g := Cfg(Config(Some("g"), None, None, None, [], decl));
      && EntryOutcome(xtypes, g, fuel, true) == Done
      && EntryTrees(xtypes, g) == [Trees.Tree(Dom.SvgNS, "g", Payload.PayloadWrites(true, decl), [])]
    ensures EntryOutcome(xtypes, Cfg(Config(Some("fefuncr"), None, None, None, [], decl)), fuel, true)
         == Threw(NotAConstructor)
  {
    TableExamples(xtypes);
    NoFeFuncR(xtypes);
  }

  /** With the loaded table, a childless `{xtype: 'g', id: 'r1'}` config
      registers the key `global:r1` and leaves the counter alone; rendered
      again into the same registry it warns that the object was already
      added. Without an id it takes one from the counter, which moves down.
      An unregistered tag only warns. */
  lemma GroupRegisters(xtypes: map<string, Kind>, decl: Payload.Decl, fuel: nat)
    requires xtypes == FirstWins(Table)
    ensures var g := Cfg(Config(Some("g"), None, Some("r1"), None, [], decl));
      && EntryEffects(xtypes, g, fuel, true, {}, -1) == Effects({"global:r1"}, -1, [])
      && EntryEffects(xtypes, g, fuel, true, {"global:r1"}, -1)
         == Effects({"global:r1"}, -1, [ObjectAlreadyAdded("r1")])
    ensures EntryEffects(xtypes, Cfg(Config(Some("g"), None, None, None, [], decl)), fuel, true, {}, -1).counter == -2
    ensures EntryEffects(xtypes, Cfg(Config(Some("fefuncr"), None, None, None, [], decl)), fuel, true, {}, -1)
         == Effects({}, -1, [XTypeUndefined("fefuncr")])
  {
    TableExamples(xtypes);
    NoFeFuncR(xtypes);
    ChildlessRegisters(xtypes, "g", "fefuncr", decl, fuel);
  }

  /** The same for any registered `tag` and any unregistered `other`. */
  lemma ChildlessRegisters(xtypes: map<string, Kind>, tag: string, other: string, decl: Payload.Decl, fuel: nat)
    requires tag in xtypes && other !in xtypes
    ensures var g := Cfg(Config(Some(tag), None, Some("r1"), None, [], decl));
      && EntryEffects(xtypes, g, fuel, true, {}, -1) == Effects({"global:r1"}, -1, [])
      && EntryEffects(xtypes, g, fuel, true, {"global:r1"}, -1)
         == Effects({"global:r1"}, -1, [ObjectAlreadyAdded("r1")])
    ensures EntryEffects(xtypes, Cfg(Config(Some(tag), None, None, None, [], decl)), fuel, true, {}, -1).counter == -2
    ensures EntryEffects(xtypes, Cfg(Config(Some(other), None, None, None, [], decl)), fuel, true, {}, -1)
         == Effects({}, -1, [XTypeUndefined(other)])
  {
    assert Keys.ObjectKey("r1", "global") == "global:r1";
    var g := Config(Some(tag), None, Some("r1"), None, [], decl);
    EntryEffectsMade(xtypes, g, fuel, true, {}, -1, Effects({"global:r1"}, -1, []));
    EntryEffectsMade(xtypes, g, fuel, true, {"global:r1"}, -1, Effects({"global:r1"}, -1, [ObjectAlreadyAdded("r1")]));
  }
}
