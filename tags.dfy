/** The type-tag table: the 65 `xtype` names the library registers on its
    shared manager, each bound to an SVG control class that renders one SVG
    element. Every class is an `SvgControl` whose `render` creates its element
    in the SVG namespace; they differ only in class name and element name. */
module Tags {
  import opened Common

  /** A control class: its constructor name (the prefix of default ids),
      whether it is an `SvgControl`, and the element its `render` creates.
      `None` stands for a class that keeps the base `Control.prototype.render`,
      which creates no element of its own. */
  datatype Kind = Kind(name: string, svg: bool, element: Option<string>)

  /** One `addXType(tag, cls)` call of the table, where `cls` is the
      `SvgControl` subclass `name` whose `render` creates `element`. */
  datatype Binding = Binding(tag: string, name: string, element: string) {
    function Class(): (k: Kind)
      ensures k.svg && k.element == Some(element) && k.name == name
    {
      Kind(name, true, Some(element))
    }
  }

  // The registrations in source order, cut into slices of eight (the last
  // one of nine) so that facts about them can be checked slice by slice.
  const Slice0: seq<Binding> := [
    Binding("animate", "Animate", "animate"),
    Binding("animatemotion", "AnimateMotion", "animateMotion"),
    Binding("animatetransform", "AnimateTransform", "animateTransform"),
    Binding("discard", "Discard", "discard"),
    Binding("mpath", "MPath", "mpath"),
    Binding("set", "Set", "set"),
    Binding("defs", "Defs", "defs"),
    Binding("marker", "Marker", "marker")
  ]

  const Slice1: seq<Binding> := [
    Binding("mask", "Mask", "mask"),
    Binding("pattern", "Pattern", "pattern"),
    Binding("svg", "SvgDom", "svg"),
    Binding("desc", "Desc", "desc"),
    Binding("metadata", "MetaData", "metadata"),
    Binding("title", "Title", "title"),
    Binding("feblend", "feBlend", "feBlend"),
    Binding("fecolormatrix", "feColorMatrix", "feColorMatrix")
  ]

  const Slice2: seq<Binding> := [
    Binding("fecomponenttransfer", "feComponentTransfer", "feComponentTransfer"),
    Binding("fecomposite", "feComposite", "feComposite"),
    Binding("feconvolvematrix", "feConvolveMatrix", "feConvolveMatrix"),
    Binding("fediffuselighting", "feDiffuseLighting", "feDiffuseLighting"),
    Binding("fedisplacementmap", "feDisplacementMap", "feDisplacementMap"),
    Binding("fedropshadow", "feDropShadow", "feDropShadow"),
    Binding("feflood", "feFlood", "feFlood"),
    Binding("fefunca", "feFuncA", "feFuncA")
  ]

  const Slice3: seq<Binding> := [
    Binding("fefuncb", "feFuncB", "feFuncB"),
    Binding("fefuncg", "feFuncG", "feFuncG"),
    Binding("fegaussianblur", "feGaussianBlur", "feGaussianBlur"),
    Binding("feimage", "feImage", "feImage"),
    Binding("femerge", "feMerge", "feMerge"),
    Binding("femergenode", "feMergeNode", "feMergeNode"),
    Binding("femorphology", "feMorphology", "feMorphology"),
    Binding("feoffset", "feOffset", "feOffset")
  ]

  const Slice4: seq<Binding> := [
    Binding("fespecularlighting", "feSpecularLighting", "feSpecularLighting"),
    Binding("fetile", "feTile", "feTile"),
    Binding("feturbulence", "feTurbulence", "feTurbulence"),
    Binding("font", "Font", "font"),
    Binding("lineargradient", "LinearGradient", "linearGradient"),
    Binding("radialgradient", "RadialGradient", "radialGradient"),
    Binding("stop", "Stop", "stop"),
    Binding("fedistantlight", "feDistantLight", "feDistantLight")
  ]

  const Slice5: seq<Binding> := [
    Binding("fepointlight", "fePointLight", "fePointLight"),
    Binding("fespotlight", "feSpotLight", "feSpotLight"),
    Binding("a", "Anchor", "a"),
    Binding("circle", "Circle", "circle"),
    Binding("ellipse", "Ellipse", "ellipse"),
    Binding("foreignobject", "ForeignObject", "foreignObject"),
    Binding("g", "Group", "g"),
    Binding("image", "Image", "image")
  ]

  const Slice6: seq<Binding> := [
    Binding("line", "Line", "line"),
    Binding("path", "Path", "path"),
    Binding("polygon", "Polygon", "polygon"),
    Binding("polyline", "Polyline", "polyline"),
    Binding("rect", "Rect", "rect"),
    Binding("switch", "Switch", "switch"),
    Binding("symbol", "Symbol", "symbol"),
    Binding("text", "Text", "text")
  ]

  const Slice7: seq<Binding> := [
    Binding("textpath", "TextPath", "textPath"),
    Binding("tspan", "TSpan", "tspan"),
    Binding("use", "Use", "use"),
    Binding("clippath", "ClipPath", "clipPath"),
    Binding("colorprofile", "ColorProfile", "color-profile"),
    Binding("filter", "Filter", "filter"),
    Binding("script", "Script", "script"),
    Binding("style", "Style", "style"),
    Binding("view", "View", "view")
  ]

  /** All registrations, in the order they are made. */
  const Table: seq<Binding> := Slice0 + Slice1 + Slice2 + Slice3 + Slice4 + Slice5 + Slice6 + Slice7

  /** No tag occurs twice. */
  predicate DistinctTags(bs: seq<Binding>) {
    forall i, j :: 0 <= i < j < |bs| ==> bs[i].tag != bs[j].tag
  }

  /** No tag occurs in both. */
  predicate DisjointTags(a: seq<Binding>, b: seq<Binding>) {
    forall i, j :: 0 <= i < |a| && 0 <= j < |b| ==> a[i].tag != b[j].tag
  }

  lemma DistinctAppend(a: seq<Binding>, b: seq<Binding>)
    requires DistinctTags(a) && DistinctTags(b) && DisjointTags(a, b)
    ensures DistinctTags(a + b)
  {
    forall i, j | 0 <= i < j < |a + b| ensures (a + b)[i].tag != (a + b)[j].tag {
      if j < |a| {
      } else if i < |a| {
        assert (a + b)[j] == b[j - |a|];
      } else {
        assert (a + b)[i] == b[i - |a|] && (a + b)[j] == b[j - |a|];
      }
    }
  }

  lemma DisjointAppend(a: seq<Binding>, b: seq<Binding>, c: seq<Binding>)
    requires DisjointTags(a, c) && DisjointTags(b, c)
    ensures DisjointTags(a + b, c)
  {
    forall i, j | 0 <= i < |a + b| && 0 <= j < |c| ensures (a + b)[i].tag != c[j].tag {
      if i >= |a| {
        assert (a + b)[i] == b[i - |a|];
      }
    }
  }

  lemma Slice0Distinct()
    ensures DistinctTags(Slice0)
  {
  }

  lemma Slice1Distinct()
    ensures DistinctTags(Slice1)
  {
  }

  lemma Slice2Distinct()
    ensures DistinctTags(Slice2)
  {
  }

  lemma Slice3Distinct()
    ensures DistinctTags(Slice3)
  {
  }

  lemma Slice4Distinct()
    ensures DistinctTags(Slice4)
  {
  }

  lemma Slice5Distinct()
    ensures DistinctTags(Slice5)
  {
  }

  lemma Slice6Distinct()
    ensures DistinctTags(Slice6)
  {
  }

  lemma Slice7Distinct()
    ensures DistinctTags(Slice7)
  {
  }

  lemma Slice0VersusSlice1()
    ensures DisjointTags(Slice0, Slice1)
  {
  }

  lemma Slice0VersusSlice2()
    ensures DisjointTags(Slice0, Slice2)
  {
  }

  lemma Slice0VersusSlice3()
    ensures DisjointTags(Slice0, Slice3)
  {
  }

  lemma Slice0VersusSlice4()
    ensures DisjointTags(Slice0, Slice4)
  {
  }

  lemma Slice0VersusSlice5()
    ensures DisjointTags(Slice0, Slice5)
  {
  }

  lemma Slice0VersusSlice6()
    ensures DisjointTags(Slice0, Slice6)
  {
  }

  lemma Slice0VersusSlice7()
    ensures DisjointTags(Slice0, Slice7)
  {
  }

  lemma Slice1VersusSlice2()
    ensures DisjointTags(Slice1, Slice2)
  {
  }

  lemma Slice1VersusSlice3()
    ensures DisjointTags(Slice1, Slice3)
  {
  }

  lemma Slice1VersusSlice4()
    ensures DisjointTags(Slice1, Slice4)
  {
  }

  lemma Slice1VersusSlice5()
    ensures DisjointTags(Slice1, Slice5)
  {
  }

  lemma Slice1VersusSlice6()
    ensures DisjointTags(Slice1, Slice6)
  {
  }

  lemma Slice1VersusSlice7()
    ensures DisjointTags(Slice1, Slice7)
  {
  }

  lemma Slice2VersusSlice3()
    ensures DisjointTags(Slice2, Slice3)
  {
  }

  lemma Slice2VersusSlice4()
    ensures DisjointTags(Slice2, Slice4)
  {
  }

  lemma Slice2VersusSlice5()
    ensures DisjointTags(Slice2, Slice5)
  {
  }

  lemma Slice2VersusSlice6()
    ensures DisjointTags(Slice2, Slice6)
  {
  }

  lemma Slice2VersusSlice7()
    ensures DisjointTags(Slice2, Slice7)
  {
  }

  lemma Slice3VersusSlice4()
    ensures DisjointTags(Slice3, Slice4)
  {
  }

  lemma Slice3VersusSlice5()
    ensures DisjointTags(Slice3, Slice5)
  {
  }

  lemma Slice3VersusSlice6()
    ensures DisjointTags(Slice3, Slice6)
  {
  }

  lemma Slice3VersusSlice7()
    ensures DisjointTags(Slice3, Slice7)
  {
  }

  lemma Slice4VersusSlice5()
    ensures DisjointTags(Slice4, Slice5)
  {
  }

  lemma Slice4VersusSlice6()
    ensures DisjointTags(Slice4, Slice6)
  {
  }

  lemma Slice4VersusSlice7()
    ensures DisjointTags(Slice4, Slice7)
  {
  }

  lemma Slice5VersusSlice6()
    ensures DisjointTags(Slice5, Slice6)
  {
  }

  lemma Slice5VersusSlice7()
    ensures DisjointTags(Slice5, Slice7)
  {
  }

  lemma Slice6VersusSlice7()
    ensures DisjointTags(Slice6, Slice7)
  {
  }

  /** The first 2 slices use different tags. */
  lemma Prefix1Distinct()
    ensures DistinctTags(Slice0 + Slice1)
  {
    Slice0Distinct();
    Slice1Distinct();
    Slice0VersusSlice1();
    DistinctAppend(Slice0, Slice1);
  }

  /** The first 3 slices use different tags. */
  lemma Prefix2Distinct()
    ensures DistinctTags(Slice0 + Slice1 + Slice2)
  {
    Prefix1Distinct();
    Slice2Distinct();
    Slice0VersusSlice2();
    Slice1VersusSlice2();
    DisjointAppend(Slice0, Slice1, Slice2);
    DistinctAppend(Slice0 + Slice1, Slice2);
  }

  /** The first 4 slices use different tags. */
  lemma Prefix3Distinct()
    ensures DistinctTags(Slice0 + Slice1 + Slice2 + Slice3)
  {
    Prefix2Distinct();
    Slice3Distinct();
    Slice0VersusSlice3();
    Slice1VersusSlice3();
    Slice2VersusSlice3();
    DisjointAppend(Slice0, Slice1, Slice3);
    DisjointAppend(Slice0 + Slice1, Slice2, Slice3);
    DistinctAppend(Slice0 + Slice1 + Slice2, Slice3);
  }

  /** The first 5 slices use different tags. */
  lemma Prefix4Distinct()
    ensures DistinctTags(Slice0 + Slice1 + Slice2 + Slice3 + Slice4)
  {
    Prefix3Distinct();
    Slice4Distinct();
    Slice0VersusSlice4();
    Slice1VersusSlice4();
    Slice2VersusSlice4();
    Slice3VersusSlice4();
    DisjointAppend(Slice0, Slice1, Slice4);
    DisjointAppend(Slice0 + Slice1, Slice2, Slice4);
    DisjointAppend(Slice0 + Slice1 + Slice2, Slice3, Slice4);
    DistinctAppend(Slice0 + Slice1 + Slice2 + Slice3, Slice4);
  }

  /** The first 6 slices use different tags. */
  lemma Prefix5Distinct()
    ensures DistinctTags(Slice0 + Slice1 + Slice2 + Slice3 + Slice4 + Slice5)
  {
    Prefix4Distinct();
    Slice5Distinct();
    Slice0VersusSlice5();
    Slice1VersusSlice5();
    Slice2VersusSlice5();
    Slice3VersusSlice5();
    Slice4VersusSlice5();
    DisjointAppend(Slice0, Slice1, Slice5);
    DisjointAppend(Slice0 + Slice1, Slice2, Slice5);
    DisjointAppend(Slice0 + Slice1 + Slice2, Slice3, Slice5);
    DisjointAppend(Slice0 + Slice1 + Slice2 + Slice3, Slice4, Slice5);
    DistinctAppend(Slice0 + Slice1 + Slice2 + Slice3 + Slice4, Slice5);
  }

  /** The first 7 slices use different tags. */
  lemma Prefix6Distinct()
    ensures DistinctTags(Slice0 + Slice1 + Slice2 + Slice3 + Slice4 + Slice5 + Slice6)
  {
    Prefix5Distinct();
    Slice6Distinct();
    Slice0VersusSlice6();
    Slice1VersusSlice6();
    Slice2VersusSlice6();
    Slice3VersusSlice6();
    Slice4VersusSlice6();
    Slice5VersusSlice6();
    DisjointAppend(Slice0, Slice1, Slice6);
    DisjointAppend(Slice0 + Slice1, Slice2, Slice6);
    DisjointAppend(Slice0 + Slice1 + Slice2, Slice3, Slice6);
    DisjointAppend(Slice0 + Slice1 + Slice2 + Slice3, Slice4, Slice6);
    DisjointAppend(Slice0 + Slice1 + Slice2 + Slice3 + Slice4, Slice5, Slice6);
    DistinctAppend(Slice0 + Slice1 + Slice2 + Slice3 + Slice4 + Slice5, Slice6);
  }

  /** The first 8 slices use different tags. */
  lemma Prefix7Distinct()
    ensures DistinctTags(Slice0 + Slice1 + Slice2 + Slice3 + Slice4 + Slice5 + Slice6 + Slice7)
  {
    Prefix6Distinct();
    Slice7Distinct();
    Slice0VersusSlice7();
    Slice1VersusSlice7();
    Slice2VersusSlice7();
    Slice3VersusSlice7();
    Slice4VersusSlice7();
    Slice5VersusSlice7();
    Slice6VersusSlice7();
    DisjointAppend(Slice0, Slice1, Slice7);
    DisjointAppend(Slice0 + Slice1, Slice2, Slice7);
    DisjointAppend(Slice0 + Slice1 + Slice2, Slice3, Slice7);
    DisjointAppend(Slice0 + Slice1 + Slice2 + Slice3, Slice4, Slice7);
    DisjointAppend(Slice0 + Slice1 + Slice2 + Slice3 + Slice4, Slice5, Slice7);
    DisjointAppend(Slice0 + Slice1 + Slice2 + Slice3 + Slice4 + Slice5, Slice6, Slice7);
    DistinctAppend(Slice0 + Slice1 + Slice2 + Slice3 + Slice4 + Slice5 + Slice6, Slice7);
  }

  /** The 65 registrations use 65 different tags. */
  lemma TableTagsDistinct()
    ensures |Table| == 65
    ensures DistinctTags(Table)
  {
    Prefix7Distinct();
  }

  /** The `xtypes` table after the given `addXType` calls, in order, on an
      empty one: a tag is present exactly when some call named it, and every
      class it holds is an SVG control that creates its own element. */
  function FirstWins(bs: seq<Binding>): (m: map<string, Kind>)
    ensures forall t :: t in m <==> exists k :: 0 <= k < |bs| && bs[k].tag == t
    ensures forall t :: t in m ==> m[t].svg && m[t].element.Some?
  {
    if bs == [] then map[]
    else
      var m := FirstWins(bs[..|bs| - 1]);
      var b := bs[|bs| - 1];
      if b.tag in m then m else m[b.tag := b.Class()]
  }

  /** One more registration: a new tag is added with its class, a repeated
      one changes nothing. */
  lemma FirstWinsNext(bs: seq<Binding>, i: nat)
    requires i < |bs|
    ensures var m := FirstWins(bs[..i]);
      FirstWins(bs[..i + 1]) == if bs[i].tag in m then m else m[bs[i].tag := bs[i].Class()]
  {
    assert bs[..i + 1][..i] == bs[..i];
  }

  /** With distinct tags, no registration finds its tag already taken. */
  lemma FirstWinsFresh(bs: seq<Binding>, i: nat)
    requires i < |bs| && DistinctTags(bs)
    ensures bs[i].tag !in FirstWins(bs[..i])
  {
    assert forall k :: 0 <= k < i ==> bs[..i][k].tag != bs[i].tag;
  }

  /** A tag keeps the class of its first registration; later registrations
      of the same tag are ignored. */
  lemma {:induction false} FirstRegistrationWins(bs: seq<Binding>, k: nat)
    requires k < |bs|
    requires forall j :: 0 <= j < k ==> bs[j].tag != bs[k].tag
    ensures bs[k].tag in FirstWins(bs) && FirstWins(bs)[bs[k].tag] == bs[k].Class()
  {
    var init := bs[..|bs| - 1];
    if k < |bs| - 1 {
      assert init[k] == bs[k];
      FirstRegistrationWins(init, k);
    } else {
      assert forall j :: 0 <= j < |init| ==> init[j].tag != bs[k].tag;
    }
  }

  /** Every registered tag looks up to the class registered for it. */
  lemma TableLookup(k: nat)
    requires k < |Table|
    ensures Table[k].tag in FirstWins(Table) && FirstWins(Table)[Table[k].tag] == Table[k].Class()
  {
    TableTagsDistinct();
    FirstRegistrationWins(Table, k);
  }

  /** Where each slice of the table starts. */
  lemma TableParts()
    ensures Table[..8] == Slice0 && Table[8..16] == Slice1 && Table[16..24] == Slice2 && Table[24..32] == Slice3
    ensures Table[32..40] == Slice4 && Table[40..48] == Slice5 && Table[48..56] == Slice6 && Table[56..] == Slice7
  {
  }

  /** Table positions the examples below rely on. */
  lemma EntryAt(k: nat)
    requires k in {1, 23, 24, 25, 46, 60}
    ensures k == 1 ==> Table[k] == Binding("animatemotion", "AnimateMotion", "animateMotion")
    ensures k == 23 ==> Table[k] == Binding("fefunca", "feFuncA", "feFuncA")
    ensures k == 24 ==> Table[k] == Binding("fefuncb", "feFuncB", "feFuncB")
    ensures k == 25 ==> Table[k] == Binding("fefuncg", "feFuncG", "feFuncG")
    ensures k == 46 ==> Table[k] == Binding("g", "Group", "g")
    ensures k == 60 ==> Table[k] == Binding("colorprofile", "ColorProfile", "color-profile")
  {
    TableParts();
    if k < 8 {
      assert Table[k] == Table[..8][k];
    } else if k < 24 {
      assert Table[k] == Table[16..24][k - 16];
    } else if k < 32 {
      assert Table[k] == Table[24..32][k - 24];
    } else if k < 48 {
      assert Table[k] == Table[40..48][k - 40];
    } else {
      assert Table[k] == Table[56..][k - 56];
    }
  }

  /** There is no `fefuncr` among the filter primitives, although `fefunca`,
      `fefuncb` and `fefuncg` are registered. */
  lemma NoFeFuncR(xtypes: map<string, Kind>)
    requires xtypes == FirstWins(Table)
    ensures "fefuncr" !in xtypes
    ensures "fefunca" in xtypes && "fefuncb" in xtypes && "fefuncg" in xtypes
  {
    NoFeFuncRInTable();
    EntryAt(23);
    EntryAt(24);
    EntryAt(25);
  }

  /** No registration of `bs` uses the tag `t`. */
  predicate Lacks(bs: seq<Binding>, t: string) {
    forall k :: 0 <= k < |bs| ==> bs[k].tag != t
  }

  lemma LacksAppend(a: seq<Binding>, b: seq<Binding>, t: string)
    requires Lacks(a, t) && Lacks(b, t)
    ensures Lacks(a + b, t)
  {
    forall k | 0 <= k < |a + b| ensures (a + b)[k].tag != t {
      if k >= |a| {
        assert (a + b)[k] == b[k - |a|];
      }
    }
  }

  lemma NoFeFuncRInTable()
    ensures forall k :: 0 <= k < |Table| ==> Table[k].tag != "fefuncr"
  {
    assert Lacks(Slice0, "fefuncr");
    assert Lacks(Slice1, "fefuncr");
    assert Lacks(Slice2, "fefuncr");
    assert Lacks(Slice3, "fefuncr");
    assert Lacks(Slice4, "fefuncr");
    assert Lacks(Slice5, "fefuncr");
    assert Lacks(Slice6, "fefuncr");
    assert Lacks(Slice7, "fefuncr");
    LacksAppend(Slice0, Slice1, "fefuncr");
    LacksAppend(Slice0 + Slice1, Slice2, "fefuncr");
    LacksAppend(Slice0 + Slice1 + Slice2, Slice3, "fefuncr");
    LacksAppend(Slice0 + Slice1 + Slice2 + Slice3, Slice4, "fefuncr");
    LacksAppend(Slice0 + Slice1 + Slice2 + Slice3 + Slice4, Slice5, "fefuncr");
    LacksAppend(Slice0 + Slice1 + Slice2 + Slice3 + Slice4 + Slice5, Slice6, "fefuncr");
    LacksAppend(Slice0 + Slice1 + Slice2 + Slice3 + Slice4 + Slice5 + Slice6, Slice7, "fefuncr");
  }

  /** Lower-case tags name camel-cased or hyphenated elements: `g` creates
      `g`, `animatemotion` creates `animateMotion`, `colorprofile` creates
      `color-profile`. */
  lemma TableExamples(xtypes: map<string, Kind>)
    requires xtypes == FirstWins(Table)
    ensures "g" in xtypes && xtypes["g"] == Kind("Group", true, Some("g"))
    ensures "animatemotion" in xtypes && xtypes["animatemotion"] == Kind("AnimateMotion", true, Some("animateMotion"))
    ensures "colorprofile" in xtypes && xtypes["colorprofile"] == Kind("ColorProfile", true, Some("color-profile"))
  {
    EntryAt(46);
    EntryAt(1);
    EntryAt(60);
    TableLookup(46);
    TableLookup(1);
    TableLookup(60);
  }
}
