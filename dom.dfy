/** An abstract document: the small part of the browser DOM the library uses.
    Elements are records held by one `Document`; an `ElemRef` is an element's
    position in it, `Body` stands for `document.body`. An element remembers the
    writes made to it (attributes, properties, class, style, handler slots,
    data, inner HTML) in the order they were made, and its child list. */
module Dom {
  import opened Common

  type ElemRef = nat

  /** `document.body`, the default parent of every control. */
  const Body: ElemRef := 0

  /** The namespace `document.createElement` uses in an HTML document. */
  const HtmlNS := "http://www.w3.org/1999/xhtml"
  const SvgNS := "http://www.w3.org/2000/svg"
  const XLinkNS := "http://www.w3.org/1999/xlink"

  /** A plain object's own enumerable properties, in `Object.keys` order. */
  type Bag = seq<(string, string)>

  /** An opaque event-listener function. */
  type Handler = nat

  /** A `listeners` object: event name to handler, in `Object.keys` order. */
  type Listeners = seq<(string, Handler)>

  /** One write into an element, as the library performs it. */
  datatype Write =
    | SetAttribute(name: string, value: string)               // dom.setAttribute(name, value)
    | SetAttributeNS(ns: string, name: string, value: string) // dom.setAttributeNS(ns, name, value)
    | AssignProps(props: Bag)                                 // Object.assign(dom, props)
    | SetClassName(className: string)                         // dom.className = ...
    | AssignStyle(style: Bag)                                 // Object.assign(dom.style, style)
    | SetSlot(slot: string, handler: Option<Handler>)         // dom['on' + event] = handler or null
    | AssignData(data: Bag)                                   // dom.data = {}; Object.assign(dom.data, data)
    | SetInnerHtml(html: string)                              // dom.innerHTML = html

  datatype Element = Element(ns: string, tag: string, writes: seq<Write>, children: seq<ElemRef>)

  /** `s` with every occurrence of `e` taken out. */
  function Without(s: seq<ElemRef>, e: ElemRef): (r: seq<ElemRef>)
    ensures forall x :: x in r <==> x in s && x != e
    ensures |r| <= |s|
    ensures e !in s ==> r == s
  {
    if s == [] then []
    else if s[0] == e then Without(s[1..], e)
    else [s[0]] + Without(s[1..], e)
  }

  /** A child list holds an element at most once, so removing it takes out
      exactly that position and the others keep their order. */
  lemma {:induction false} WithoutOnce(s: seq<ElemRef>, e: ElemRef, i: nat)
    requires i < |s| && s[i] == e && e !in s[..i] && e !in s[i + 1..]
    ensures Without(s, e) == s[..i] + s[i + 1..]
    decreases i
  {
    if i == 0 {
      assert s[1..] == s[i + 1..];
    } else {
      assert s[1..][..i - 1] == s[1..i];
      assert s[1..][i - 1 + 1..] == s[i + 1..];
      assert e !in s[1..][..i - 1];
      WithoutOnce(s[1..], e, i - 1);
      assert s[..i] + s[i + 1..] == [s[0]] + (s[1..i] + s[i + 1..]);
    }
  }

  /** `elements` after the writes `ws` into element `e`. */
  function AddWrites(elements: seq<Element>, e: ElemRef, ws: seq<Write>): (r: seq<Element>)
    requires e < |elements|
    ensures |r| == |elements| && r[e].writes == elements[e].writes + ws
    ensures r[e].ns == elements[e].ns && r[e].tag == elements[e].tag && r[e].children == elements[e].children
    ensures forall x :: 0 <= x < |elements| && x != e ==> r[x] == elements[x]
  {
    elements[e := elements[e].(writes := elements[e].writes + ws)]
  }

  /** Writing `ws1` and then `ws2` is writing `ws1 + ws2`. */
  lemma AddWritesTwice(elements: seq<Element>, e: ElemRef, ws1: seq<Write>, ws2: seq<Write>)
    requires e < |elements|
    ensures AddWrites(AddWrites(elements, e, ws1), e, ws2) == AddWrites(elements, e, ws1 + ws2)
  {
    assert elements[e].writes + ws1 + ws2 == elements[e].writes + (ws1 + ws2);
  }

  lemma AddWritesNone(elements: seq<Element>, e: ElemRef)
    requires e < |elements|
    ensures AddWrites(elements, e, []) == elements
  {
    assert elements[e].writes + [] == elements[e].writes;
  }

  /** `after` is `before` with children appended, each of them an element
      numbered `bound` or higher. */
  ghost predicate Grows(before: Element, after: Element, bound: nat) {
    && after.ns == before.ns && after.tag == before.tag && after.writes == before.writes
    && |before.children| <= |after.children|
    && after.children[..|before.children|] == before.children
    && forall k :: |before.children| <= k < |after.children| ==> after.children[k] >= bound
  }

  /** The document `after` came from `before` by creating elements and
      appending new elements to the `hosts`; every other element of `before`
      is untouched. */
  ghost predicate Extends(before: seq<Element>, after: seq<Element>, hosts: set<ElemRef>) {
    && |before| <= |after|
    && forall x :: 0 <= x < |before| ==>
         if x in hosts then Grows(before[x], after[x], |before|) else after[x] == before[x]
  }

  lemma ExtendsRefl(a: seq<Element>, hosts: set<ElemRef>)
    ensures Extends(a, a, hosts)
  {
    forall x | 0 <= x < |a| && x in hosts ensures Grows(a[x], a[x], |a|) {
      assert a[x].children[..|a[x].children|] == a[x].children;
    }
  }

  /** Creating elements and writing into new ones extends a document. */
  lemma ExtendsByNew(before: seq<Element>, after: seq<Element>, hosts: set<ElemRef>)
    requires |before| <= |after|
    requires forall x :: 0 <= x < |before| ==> after[x] == before[x]
    ensures Extends(before, after, hosts)
  {
    ExtendsRefl(before, hosts);
  }

  /** Creating elements and appending one new element to a host extends a
      document. */
  lemma ExtendsByAppend(before: seq<Element>, after: seq<Element>, p: ElemRef, e: ElemRef)
    requires p < |before| <= e && |before| <= |after|
    requires after[p] == before[p].(children := before[p].children + [e])
    requires forall x :: 0 <= x < |before| && x != p ==> after[x] == before[x]
    ensures Extends(before, after, {p})
  {
    assert after[p].children[..|before[p].children|] == before[p].children;
  }

  /** Appending a bare new element `d` to `p` and then writing `ws` into it
      extends the document before `d` at `p`. */
  lemma MountedExtends(b1: seq<Element>, p: ElemRef, d: ElemRef, ws: seq<Write>, b3: seq<Element>)
    requires p < d && d + 1 == |b1| && b1[d].writes == [] && b1[d].children == []
    requires b3 == AddWrites(b1[p := b1[p].(children := b1[p].children + [d])], d, ws)
    ensures Extends(b1[..d], b3, {p}) && b3[p].children == b1[p].children + [d]
    ensures b3[d] == Element(b1[d].ns, b1[d].tag, ws, [])
  {
    ExtendsByAppend(b1[..d], b3, p, d);
  }

  /** Two extensions in a row are one, provided the second one's hosts were
      hosts of the first or did not exist before it. */
  lemma {:induction false} ExtendsTrans(a: seq<Element>, b: seq<Element>, c: seq<Element>,
                                        h1: set<ElemRef>, h2: set<ElemRef>)
    requires Extends(a, b, h1) && Extends(b, c, h2)
    requires forall q :: q in h2 && q < |a| ==> q in h1
    ensures Extends(a, c, h1)
  {
    forall x | 0 <= x < |a| && x in h1 ensures Grows(a[x], c[x], |a|) {
      if x in h2 {
        var n := |a[x].children|;
        assert c[x].children[..n] == c[x].children[..|b[x].children|][..n];
      }
    }
  }

  /** The children of every host grew by exactly `refs`, at the end. */
  ghost predicate Appended(before: seq<Element>, after: seq<Element>, hosts: set<ElemRef>, refs: seq<ElemRef>) {
    forall h :: h in hosts ==> h < |before| && h < |after| && after[h].children == before[h].children + refs
  }

  lemma AppendedNone(a: seq<Element>, hosts: set<ElemRef>)
    requires forall h :: h in hosts ==> h < |a|
    ensures Appended(a, a, hosts, [])
  {
    forall h | h in hosts ensures a[h].children == a[h].children + [] { }
  }

  lemma AppendedTrans(a: seq<Element>, b: seq<Element>, c: seq<Element>, hosts: set<ElemRef>,
                      r1: seq<ElemRef>, r2: seq<ElemRef>)
    requires Appended(a, b, hosts, r1) && Appended(b, c, hosts, r2)
    ensures Appended(a, c, hosts, r1 + r2)
  {
    forall h | h in hosts ensures c[h].children == a[h].children + (r1 + r2) {
      assert a[h].children + r1 + r2 == a[h].children + (r1 + r2);
    }
  }

  /** The only writes are handler slots set to null. */
  ghost predicate SlotsCleared(before: seq<Element>, after: seq<Element>) {
    && |after| == |before|
    && forall x :: 0 <= x < |before| ==>
         && after[x].ns == before[x].ns && after[x].tag == before[x].tag
         && after[x].children == before[x].children
         && |before[x].writes| <= |after[x].writes|
         && after[x].writes[..|before[x].writes|] == before[x].writes
         && forall k :: |before[x].writes| <= k < |after[x].writes| ==>
              after[x].writes[k].SetSlot? && after[x].writes[k].handler.None?
  }

  lemma SlotsClearedRefl(a: seq<Element>)
    ensures SlotsCleared(a, a)
  {
    forall x | 0 <= x < |a| ensures a[x].writes[..|a[x].writes|] == a[x].writes { }
  }

  /** Setting one handler slot to null is such a write. */
  lemma SlotsClearedByWrite(a: seq<Element>, e: ElemRef, slot: string)
    requires e < |a|
    ensures SlotsCleared(a, AddWrites(a, e, [SetSlot(slot, None)]))
  {
    var b := AddWrites(a, e, [SetSlot(slot, None)]);
    forall x | 0 <= x < |a| ensures b[x].writes[..|a[x].writes|] == a[x].writes {
      if x == e {
        assert b[x].writes == a[x].writes + [SetSlot(slot, None)];
      } else {
        assert b[x] == a[x];
      }
    }
  }

  lemma {:induction false} SlotsClearedTrans(a: seq<Element>, b: seq<Element>, c: seq<Element>)
    requires SlotsCleared(a, b) && SlotsCleared(b, c)
    ensures SlotsCleared(a, c)
  {
    forall x | 0 <= x < |a|
      ensures c[x].writes[..|a[x].writes|] == a[x].writes
      ensures forall k :: |a[x].writes| <= k < |c[x].writes| ==>
                c[x].writes[k].SetSlot? && c[x].writes[k].handler.None?
    {
      var n := |a[x].writes|;
      assert c[x].writes[..n] == c[x].writes[..|b[x].writes|][..n];
      forall k | n <= k < |c[x].writes|
        ensures c[x].writes[k].SetSlot? && c[x].writes[k].handler.None?
      {
        if k < |b[x].writes| {
          assert c[x].writes[k] == c[x].writes[..|b[x].writes|][k] == b[x].writes[k];
        }
      }
    }
  }

  class Document {
    var elements: seq<Element>

    /** A document holding only `document.body`. */
    constructor ()
      ensures elements == [Element(HtmlNS, "body", [], [])]
    {
      elements := [Element(HtmlNS, "body", [], [])];
    }

    /** `document.createElementNS(ns, tag)`: a new, detached element. */
    method CreateElement(ns: string, tag: string) returns (e: ElemRef)
      modifies this
      ensures e == |old(elements)|
      ensures elements == old(elements) + [Element(ns, tag, [], [])]
    {
      e := |elements|;
      elements := elements + [Element(ns, tag, [], [])];
    }

    /** `parent.appendChild(e)`, which throws when `parent` is null or not an element. */
    method AppendChild(parent: Option<ElemRef>, e: ElemRef) returns (out: Outcome)
      modifies this
      ensures parent.None? ==> out == Threw(NullDereference) && elements == old(elements)
      ensures parent.Some? && parent.value >= |old(elements)| ==>
                out == Threw(NotANode) && elements == old(elements)
      ensures parent.Some? && parent.value < |old(elements)| ==>
                && out == Done
                && elements == old(elements)[parent.value := old(elements)[parent.value].(
                     children := old(elements)[parent.value].children + [e])]
    {
      match parent {
        case None => out := Threw(NullDereference);
        case Some(p) =>
          if p < |elements| {
            elements := elements[p := elements[p].(children := elements[p].children + [e])];
            out := Done;
          } else {
            out := Threw(NotANode);
          }
      }
    }

    /** `parent.removeChild(e)`, which throws when `parent` is null or not an
        element, or when `e` is not one of its children. */
    method RemoveChild(parent: Option<ElemRef>, e: ElemRef) returns (out: Outcome)
      modifies this
      ensures parent.None? ==> out == Threw(NullDereference) && elements == old(elements)
      ensures parent.Some? && parent.value >= |old(elements)| ==>
                out == Threw(NotANode) && elements == old(elements)
      ensures parent.Some? && parent.value < |old(elements)| && e !in old(elements)[parent.value].children ==>
                out == Threw(NotFound) && elements == old(elements)
      ensures parent.Some? && parent.value < |old(elements)| && e in old(elements)[parent.value].children ==>
                && out == Done
                && elements == old(elements)[parent.value := old(elements)[parent.value].(
                     children := Without(old(elements)[parent.value].children, e))]
    {
      match parent {
        case None => out := Threw(NullDereference);
        case Some(p) =>
          if p >= |elements| {
            out := Threw(NotANode);
          } else if e !in elements[p].children {
            out := Threw(NotFound);
          } else {
            elements := elements[p := elements[p].(children := Without(elements[p].children, e))];
            out := Done;
          }
      }
    }

    /** One property write into element `e`; a reference to no element is ignored. */
    method Write(e: ElemRef, w: Write)
      modifies this
      ensures e < |old(elements)| ==> elements == AddWrites(old(elements), e, [w])
      ensures e >= |old(elements)| ==> elements == old(elements)
    {
      if e < |elements| {
        elements := elements[e := elements[e].(writes := elements[e].writes + [w])];
      }
    }
  }
}
