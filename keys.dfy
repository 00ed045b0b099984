/** The strings the library builds to address things: registry keys
    (`${scope}:${id}`), the property name an `xtype` lookup really uses, and
    default control ids (constructor name followed by the global counter). */
module Keys {
  import opened Common
  import Decimal

  /** The key `Manager.add`, `remove` and `get` build from an id and a scope. */
  function ObjectKey(id: string, scope: string): string {
    scope + ":" + id
  }

  /** The property name `xtypes[config.xtype]` reads: an absent tag is
      converted to the string "undefined". */
  function TagKey(xtype: Option<string>): string {
    xtype.GetOr("undefined")
  }

  /** `this.constructor.name + ID--`: the id a control gets when none is given. */
  function DefaultId(name: string, counter: int): string {
    name + Decimal.IntToString(counter)
  }

  /** Keys are plain concatenations, so a colon inside a scope can collide
      with a colon inside an id. */
  lemma ScopeColonCollides(scope: string, middle: string, id: string)
    ensures ObjectKey(id, scope + ":" + middle) == ObjectKey(middle + ":" + id, scope)
  {
    assert scope + ":" + middle + ":" + id == scope + ":" + (middle + ":" + id);
  }

  /** For instance scope "a:b" with id "c" and scope "a" with id "b:c" share a key. */
  lemma KeyCollisionExample()
    ensures ObjectKey("c", "a:b") == ObjectKey("b:c", "a")
    ensures ("a:b", "c") != ("a", "b:c")
  {
    ScopeColonCollides("a", "b", "c");
  }

  /** When neither scope contains a colon, two keys agree exactly when both the
      scopes and the ids agree. */
  lemma ObjectKeyInjective(id1: string, scope1: string, id2: string, scope2: string)
    requires ':' !in scope1 && ':' !in scope2
    ensures ObjectKey(id1, scope1) == ObjectKey(id2, scope2) <==> id1 == id2 && scope1 == scope2
  {
    var k1, k2 := ObjectKey(id1, scope1), ObjectKey(id2, scope2);
    // Each key's first colon sits right after its scope.
    assert k1[|scope1|] == ':' && k2[|scope2|] == ':';
    assert forall j :: 0 <= j < |scope1| ==> k1[j] == scope1[j] != ':';
    assert forall j :: 0 <= j < |scope2| ==> k2[j] == scope2[j] != ':';
    if k1 == k2 {
      assert |scope1| == |scope2|;
      assert scope1 == k1[..|scope1|] == k2[..|scope2|] == scope2;
      assert id1 == k1[|scope1| + 1..] == k2[|scope2| + 1..] == id2;
    }
  }

  /** Two default ids built for the same constructor name from different
      counter values differ. */
  lemma DefaultIdsDiffer(name: string, a: int, b: int)
    requires a != b
    ensures DefaultId(name, a) != DefaultId(name, b)
  {
    Decimal.IntToStringInjective(a, b);
    var sa, sb := Decimal.IntToString(a), Decimal.IntToString(b);
    assert (name + sa)[|name|..] == sa && (name + sb)[|name|..] == sb;
  }

  /** A default id is never the empty string, so it is always truthy. */
  lemma DefaultIdTruthy(name: string, counter: int)
    ensures DefaultId(name, counter) != ""
  {
  }
}
