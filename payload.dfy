/** The declarative payload of a control and the writes `renderDom` makes
    with it into a freshly created element: attributes, properties, class,
    style, listener slots, data and inner HTML, in that order. */
module Payload {
  import opened Common
  import opened Dom

  /** The payload fields of a control or of a config. */
  datatype Decl = Decl(
    attr: Option<Bag>,
    prop: Option<Bag>,
    cls: Option<string>,
    style: Option<Bag>,
    listeners: Option<Listeners>,
    data: Option<Bag>,
    html: Option<string>)

  /** `name.startsWith('xlink')` */
  predicate IsXLinkName(name: string) {
    |name| >= 5 && name[..5] == "xlink"
  }

  /** How one attribute is written: an SVG control sends `xlink…` names to
      the XLink namespace, everything else goes through `setAttribute`. */
  function AttrWrite(svg: bool, name: string, value: string): (w: Write)
    ensures w.SetAttributeNS? <==> svg && IsXLinkName(name)
    ensures w.SetAttributeNS? ==> w == SetAttributeNS(XLinkNS, name, value)
    ensures w.SetAttribute? ==> w == SetAttribute(name, value)
  {
    if svg && IsXLinkName(name) then SetAttributeNS(XLinkNS, name, value) else SetAttribute(name, value)
  }

  /** One write per attribute, in key order. */
  function AttrWrites(svg: bool, attrs: Bag): (ws: seq<Write>)
    ensures |ws| == |attrs|
    ensures forall k :: 0 <= k < |attrs| ==> ws[k] == AttrWrite(svg, attrs[k].0, attrs[k].1)
  {
    if attrs == [] then []
    else AttrWrites(svg, attrs[..|attrs| - 1]) + [AttrWrite(svg, attrs[|attrs| - 1].0, attrs[|attrs| - 1].1)]
  }

  /** `dom['on' + name] = handler` for every listener, in key order. */
  function SlotWrites(listeners: Listeners): (ws: seq<Write>)
    ensures |ws| == |listeners|
    ensures forall k :: 0 <= k < |listeners| ==>
              ws[k] == SetSlot("on" + listeners[k].0, Some(listeners[k].1))
  {
    if listeners == [] then []
    else SlotWrites(listeners[..|listeners| - 1])
         + [SetSlot("on" + listeners[|listeners| - 1].0, Some(listeners[|listeners| - 1].1))]
  }

  /** Every write `renderDom` makes into the new element, in order: the
      attributes, then the rest of the payload. */
  function PayloadWrites(svg: bool, d: Decl): seq<Write> {
    AttrWrites(svg, d.attr.GetOr([])) + LaterWrites(d)
  }

  /** The writes after the attributes. Objects are truthy even when empty;
      `cls` and `html` are written only when they are non-empty strings. */
  function LaterWrites(d: Decl): seq<Write> {
    (if d.prop.Some? then [AssignProps(d.prop.value)] else [])
    + (if Truthy(d.cls) then [SetClassName(d.cls.value)] else [])
    + (if d.style.Some? then [AssignStyle(d.style.value)] else [])
    + SlotWrites(d.listeners.GetOr([]))
    + (if d.data.Some? then [AssignData(d.data.value)] else [])
    + (if Truthy(d.html) then [SetInnerHtml(d.html.value)] else [])
  }

  /** The position of a write in the fixed payload order. */
  function Stage(w: Write): nat {
    match w
    case SetAttribute(_, _) => 0
    case SetAttributeNS(_, _, _) => 0
    case AssignProps(_) => 1
    case SetClassName(_) => 2
    case AssignStyle(_) => 3
    case SetSlot(_, _) => 4
    case AssignData(_) => 5
    case SetInnerHtml(_) => 6
  }

  predicate Staged(ws: seq<Write>) {
    forall i, j :: 0 <= i < j < |ws| ==> Stage(ws[i]) <= Stage(ws[j])
  }

  predicate AllAt(ws: seq<Write>, stage: nat) {
    forall k :: 0 <= k < |ws| ==> Stage(ws[k]) == stage
  }

  /** Every write of `ws` is at a stage from `lo` to `hi`. */
  predicate Within(ws: seq<Write>, lo: nat, hi: nat) {
    forall k :: 0 <= k < |ws| ==> lo <= Stage(ws[k]) <= hi
  }

  lemma StagedAppend(a: seq<Write>, b: seq<Write>, sa: nat, sb: nat)
    requires Staged(a) && AllAt(b, sb) && Within(a, 1, sa)
    requires 1 <= sa <= sb
    ensures Staged(a + b) && Within(a + b, 1, sb)
  {
  }

  /** Staged runs at or below `s` followed by staged runs above `s` stay staged. */
  lemma StagedJoin(a: seq<Write>, b: seq<Write>, s: nat)
    requires Staged(a) && Staged(b)
    requires forall k :: 0 <= k < |a| ==> Stage(a[k]) <= s
    requires forall k :: 0 <= k < |b| ==> Stage(b[k]) > s
    ensures Staged(a + b)
  {
  }

  /** Six runs, each at one stage from 1 to 6 in turn, make a staged run. */
  lemma StagedSix(p: seq<Write>, c: seq<Write>, s: seq<Write>, l: seq<Write>, t: seq<Write>, h: seq<Write>)
    requires AllAt(p, 1) && AllAt(c, 2) && AllAt(s, 3) && AllAt(l, 4) && AllAt(t, 5) && AllAt(h, 6)
    ensures Staged(p + c + s + l + t + h) && Within(p + c + s + l + t + h, 1, 6)
  {
    assert Staged(p + c) && Within(p + c, 1, 2) by {
      StagedAppend([], p, 1, 1);
      assert [] + p == p;
      StagedAppend(p, c, 1, 2);
    }
    assert Staged(p + c + s) && Within(p + c + s, 1, 3) by {
      StagedAppend(p + c, s, 2, 3);
    }
    assert Staged(p + c + s + l) && Within(p + c + s + l, 1, 4) by {
      StagedAppend(p + c + s, l, 3, 4);
    }
    assert Staged(p + c + s + l + t) && Within(p + c + s + l + t, 1, 5) by {
      StagedAppend(p + c + s + l, t, 4, 5);
    }
    StagedAppend(p + c + s + l + t, h, 5, 6);
  }

  /** The rest of the payload is written in the order prop, cls, style,
      listeners, data, html, and holds no attribute write. */
  lemma LaterOrdered(d: Decl)
    ensures Staged(LaterWrites(d))
    ensures forall k :: 0 <= k < |LaterWrites(d)| ==> Stage(LaterWrites(d)[k]) > 0
  {
    StagedSix(if d.prop.Some? then [AssignProps(d.prop.value)] else [],
              if Truthy(d.cls) then [SetClassName(d.cls.value)] else [],
              if d.style.Some? then [AssignStyle(d.style.value)] else [],
              SlotWrites(d.listeners.GetOr([])),
              if d.data.Some? then [AssignData(d.data.value)] else [],
              if Truthy(d.html) then [SetInnerHtml(d.html.value)] else []);
  }

  /** The payload is written in the order attr, prop, cls, style, listeners,
      data, html: no write of a later kind precedes one of an earlier kind. */
  lemma PayloadOrdered(svg: bool, d: Decl)
    ensures Staged(PayloadWrites(svg, d))
  {
    LaterOrdered(d);
    StagedJoin(AttrWrites(svg, d.attr.GetOr([])), LaterWrites(d), 0);
  }

  /** Past position `n`, no write of `w + x` is an attribute write, given
      that this holds of `w` and of all of `x`. */
  lemma NoAttributesAfter(w: seq<Write>, x: seq<Write>, n: nat)
    requires n <= |w|
    requires forall k :: n <= k < |w| ==> Stage(w[k]) > 0
    requires forall k :: 0 <= k < |x| ==> Stage(x[k]) > 0
    ensures forall k :: n <= k < |w + x| ==> Stage((w + x)[k]) > 0
  {
    forall k | n <= k < |w + x| ensures Stage((w + x)[k]) > 0 {
      if k >= |w| {
        assert (w + x)[k] == x[k - |w|];
      }
    }
  }

  /** The payload starts with one write per attribute, in key order, routed
      by name; only an SVG control ever writes into the XLink namespace. */
  lemma AttributesFirst(svg: bool, d: Decl)
    ensures var attrs, ws := d.attr.GetOr([]), PayloadWrites(svg, d);
      && |attrs| <= |ws|
      && (forall k :: 0 <= k < |attrs| ==>
            ws[k] == (if svg && IsXLinkName(attrs[k].0) then SetAttributeNS(XLinkNS, attrs[k].0, attrs[k].1)
                      else SetAttribute(attrs[k].0, attrs[k].1)))
      && (forall k :: |attrs| <= k < |ws| ==> Stage(ws[k]) > 0)
  {
    LaterOrdered(d);
    NoAttributesAfter(AttrWrites(svg, d.attr.GetOr([])), LaterWrites(d), |d.attr.GetOr([])|);
  }

  /** A plain (non-SVG) control never uses `setAttributeNS`. */
  lemma HtmlNeverNamespaced(d: Decl)
    ensures forall w :: w in PayloadWrites(false, d) ==> !w.SetAttributeNS?
  {
  }

  /** Listeners become handler slots named `on` + event, carrying the handler. */
  lemma ListenerSlots(svg: bool, d: Decl)
    ensures var ls := d.listeners.GetOr([]);
      forall k :: 0 <= k < |ls| ==> SetSlot("on" + ls[k].0, Some(ls[k].1)) in PayloadWrites(svg, d)
  {
    var ls := d.listeners.GetOr([]);
    forall k | 0 <= k < |ls| ensures SetSlot("on" + ls[k].0, Some(ls[k].1)) in PayloadWrites(svg, d) {
      assert SlotWrites(ls)[k] == SetSlot("on" + ls[k].0, Some(ls[k].1));
    }
  }

  /** A control with no payload gets a bare element: nothing is written. */
  lemma EmptyPayload(svg: bool)
    ensures PayloadWrites(svg, Decl(None, None, None, None, None, None, None)) == []
  {
  }

  /** Empty strings for `cls` and `html` are falsy and write nothing, while
      an empty object for `data` still resets `dom.data`. */
  lemma FalsyStringsSkipped(svg: bool)
    ensures PayloadWrites(svg, Decl(None, None, Some(""), None, None, Some([]), Some(""))) == [AssignData([])]
  {
  }
}
