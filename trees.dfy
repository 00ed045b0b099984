/** Element trees as values, and what it means for a run of references in a
    document to hold such trees. Rendering a declarative config is specified
    by the trees it must produce under its parent. */
module Trees {
  import opened Dom

  /** An element with its writes and, in order, its child elements. */
  datatype Tree = Tree(ns: string, tag: string, writes: seq<Write>, kids: seq<Tree>)

  /** `refs` are elements of `elements`, numbered in `lo..hi`, that hold
      `trees` one for one, down to the leaves. */
  ghost predicate Realizes(elements: seq<Element>, refs: seq<ElemRef>, trees: seq<Tree>, lo: nat, hi: nat)
    decreases trees
  {
    && |refs| == |trees|
    && forall i :: 0 <= i < |trees| ==>
         && lo <= refs[i] < hi && refs[i] < |elements|
         && elements[refs[i]].ns == trees[i].ns
         && elements[refs[i]].tag == trees[i].tag
         && elements[refs[i]].writes == trees[i].writes
         && Realizes(elements, elements[refs[i]].children, trees[i].kids, lo, hi)
  }

  /** A wider range of element numbers still holds the same trees. */
  lemma {:induction false} RealizesWiden(elements: seq<Element>, refs: seq<ElemRef>, trees: seq<Tree>,
                                         lo: nat, hi: nat, lo': nat, hi': nat)
    requires Realizes(elements, refs, trees, lo, hi)
    requires lo' <= lo && hi <= hi'
    ensures Realizes(elements, refs, trees, lo', hi')
    decreases trees
  {
    forall i | 0 <= i < |trees|
      ensures Realizes(elements, elements[refs[i]].children, trees[i].kids, lo', hi')
    {
      RealizesWiden(elements, elements[refs[i]].children, trees[i].kids, lo, hi, lo', hi');
    }
  }

  /** Two runs side by side hold the two forests one after the other. */
  lemma RealizesAppend(elements: seq<Element>, r1: seq<ElemRef>, t1: seq<Tree>,
                       r2: seq<ElemRef>, t2: seq<Tree>, lo: nat, hi: nat)
    requires Realizes(elements, r1, t1, lo, hi) && Realizes(elements, r2, t2, lo, hi)
    ensures Realizes(elements, r1 + r2, t1 + t2, lo, hi)
  {
    var r, t := r1 + r2, t1 + t2;
    forall i | 0 <= i < |t|
      ensures && lo <= r[i] < hi && r[i] < |elements|
              && elements[r[i]].ns == t[i].ns && elements[r[i]].tag == t[i].tag
              && elements[r[i]].writes == t[i].writes
              && Realizes(elements, elements[r[i]].children, t[i].kids, lo, hi)
    {
      if i < |t1| {
        assert r[i] == r1[i] && t[i] == t1[i];
      } else {
        assert r[i] == r2[i - |t1|] && t[i] == t2[i - |t1|];
      }
    }
  }

  /** Trees held by elements outside the hosts of an extension survive it. */
  lemma {:induction false} RealizesStable(a: seq<Element>, b: seq<Element>, hosts: set<ElemRef>,
                                          refs: seq<ElemRef>, trees: seq<Tree>, lo: nat, hi: nat)
    requires Realizes(a, refs, trees, lo, hi)
    requires Extends(a, b, hosts)
    requires forall h :: h in hosts ==> h < lo || hi <= h
    ensures Realizes(b, refs, trees, lo, hi)
    decreases trees
  {
    forall i | 0 <= i < |trees|
      ensures && refs[i] < |b| && b[refs[i]] == a[refs[i]]
              && Realizes(b, b[refs[i]].children, trees[i].kids, lo, hi)
    {
      assert refs[i] !in hosts;
      RealizesStable(a, b, hosts, a[refs[i]].children, trees[i].kids, lo, hi);
    }
  }

  /** One element numbered in `lo..hi` whose children hold `kids` holds the tree. */
  lemma RealizesNode(elements: seq<Element>, r: ElemRef, t: Tree, lo: nat, hi: nat)
    requires lo <= r < hi && r < |elements|
    requires elements[r].ns == t.ns && elements[r].tag == t.tag && elements[r].writes == t.writes
    requires Realizes(elements, elements[r].children, t.kids, lo, hi)
    ensures Realizes(elements, [r], [t], lo, hi)
  {
  }

  /** One more child rendered after the earlier ones: the document keeps
      extending, the earlier trees survive, and the forests line up. */
  lemma ForestStep(b0: seq<Element>, mid: seq<Element>, now: seq<Element>, hosts: set<ElemRef>,
                   tops: seq<ElemRef>, done: seq<Tree>, t: seq<ElemRef>, more: seq<Tree>)
    requires forall h :: h in hosts ==> h < |b0|
    requires Extends(b0, mid, hosts) && Extends(mid, now, hosts)
    requires Realizes(mid, tops, done, |b0|, |mid|)
    requires Realizes(now, t, more, |mid|, |now|)
    requires Appended(b0, mid, hosts, tops) && Appended(mid, now, hosts, t)
    ensures Extends(b0, now, hosts)
    ensures Realizes(now, tops + t, done + more, |b0|, |now|)
    ensures Appended(b0, now, hosts, tops + t)
  {
    AppendedTrans(b0, mid, now, hosts, tops, t);
    ExtendsTrans(b0, mid, now, hosts, hosts);
    RealizesStable(mid, now, hosts, tops, done, |b0|, |mid|);
    RealizesWiden(now, tops, done, |b0|, |mid|, |b0|, |now|);
    RealizesWiden(now, t, more, |mid|, |now|, |b0|, |now|);
    RealizesAppend(now, tops, done, t, more, |b0|, |now|);
  }

  /** A new element `d`, appended to `p` and given its writes, whose own
      children then came to hold `kids`, holds the tree `t`. */
  lemma LeafStep(b0: seq<Element>, b3: seq<Element>, now: seq<Element>, p: ElemRef, d: ElemRef,
                 kids: seq<ElemRef>, t: Tree)
    requires p < |b0| == d < |b3|
    requires b3[d] == Element(t.ns, t.tag, t.writes, [])
    requires Extends(b0, b3, {p}) && Extends(b3, now, {d})
    requires b3[p].children == b0[p].children + [d]
    requires Appended(b3, now, {d}, kids)
    requires Realizes(now, kids, t.kids, |b3|, |now|)
    ensures Extends(b0, now, {p}) && Appended(b0, now, {p}, [d])
    ensures Realizes(now, [d], [t], |b0|, |now|)
  {
    ExtendsTrans(b0, b3, now, {p}, {d});
    assert now[d].children == kids;
    RealizesWiden(now, kids, t.kids, |b3|, |now|, |b0|, |now|);
    RealizesNode(now, d, t, |b0|, |now|);
  }
}
