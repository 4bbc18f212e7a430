/** `ORDER BY key ASC, id ASC` over a set of row ids. */
module Order {

  predicate Le(key: nat -> nat, x: nat, y: nat)
  {
    key(x) < key(y) || (key(x) == key(y) && x <= y)
  }

  lemma LeChains(key: nat -> nat, x: nat, y: nat, z: nat)
    requires Le(key, x, y) && Le(key, y, z)
    ensures Le(key, x, z)
  {}

  lemma {:induction false} FirstExists(ids: set<nat>, key: nat -> nat)
    requires ids != {}
    ensures exists f :: f in ids && forall x :: x in ids ==> Le(key, f, x)
    decreases |ids|
  {
    var k :| k in ids;
    var rest := ids - {k};
    if rest == {} {
      assert ids == {k};
      assert forall x :: x in ids ==> Le(key, k, x);
    } else {
      FirstExists(rest, key);
      var f :| f in rest && forall x :: x in rest ==> Le(key, f, x);
      if Le(key, k, f) {
        forall x | x in ids ensures Le(key, k, x) {
          if x in rest { LeChains(key, k, f, x); }
        }
      } else {
        assert forall x :: x in ids ==> Le(key, f, x);
      }
    }
  }

  function First(ids: set<nat>, key: nat -> nat): (f: nat)
    requires ids != {}
    ensures f in ids && forall x :: x in ids ==> Le(key, f, x)
  {
    FirstExists(ids, key);
    var f :| f in ids && forall x :: x in ids ==> Le(key, f, x);
    f
  }

  function Sorted(ids: set<nat>, key: nat -> nat): (order: seq<nat>)
    ensures forall x :: x in order <==> x in ids
    ensures forall i, j :: 0 <= i < j < |order| ==> order[i] != order[j] && Le(key, order[i], order[j])
    ensures |order| == |ids|
    decreases |ids|
  {
    if ids == {} then []
    else
      var f := First(ids, key);
      [f] + Sorted(ids - {f}, key)
  }

  /** `ORDER BY id`. */
  function ById(): nat -> nat { (x: nat) => 0 }
}
