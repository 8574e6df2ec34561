/** A value that may be absent, and the outcome of an operation that may fail. */
module Wrappers {
  datatype Option<+T> = None | Some(value: T)

  datatype Result<+T, +E> = Ok(value: T) | Err(error: E)
}

/**
  What the source asks of a `BTreeMap`: its first and last keys. A map is a plain Dafny `map`,
  the order is that of its integer keys.
 */
module OrderedMaps {

  lemma {:induction false} HasMaximum(s: set<nat>)
    requires s != {}
    ensures exists k :: k in s && forall j :: j in s ==> j <= k
  {
    var x :| x in s;
    var greater := set j | j in s && j > x;
    if greater == {} {
      assert forall j :: j in s && j > x ==> j in greater;
    } else {
      HasMaximum(greater);
      var m :| m in greater && forall j :: j in greater ==> j <= m;
      assert m in s && forall j :: j in s && j > x ==> j in greater;
    }
  }

  lemma {:induction false} HasMinimum(s: set<nat>)
    requires s != {}
    ensures exists k :: k in s && forall j :: j in s ==> k <= j
  {
    var x :| x in s;
    var smaller := set j | j in s && j < x;
    if smaller == {} {
      assert forall j :: j in s && j < x ==> j in smaller;
    } else {
      HasMinimum(smaller);
      var m :| m in smaller && forall j :: j in smaller ==> m <= j;
      assert m in s && forall j :: j in s && j < x ==> j in smaller;
    }
  }

  function Max(s: set<nat>): (k: nat)
    requires s != {}
    ensures k in s && forall j :: j in s ==> j <= k
  {
    HasMaximum(s);
    var k :| k in s && forall j :: j in s ==> j <= k;
    k
  }

  function Min(s: set<nat>): (k: nat)
    requires s != {}
    ensures k in s && forall j :: j in s ==> k <= j
  {
    HasMinimum(s);
    var k :| k in s && forall j :: j in s ==> k <= j;
    k
  }

  /** The key of `last_key_value`. */
  function MaxKey<V>(m: map<nat, V>): (k: nat)
    requires m.Keys != {}
    ensures k in m && forall j :: j in m ==> j <= k
  {
    Max(m.Keys)
  }

  /** The key of `first_key_value`. */
  function MinKey<V>(m: map<nat, V>): (k: nat)
    requires m.Keys != {}
    ensures k in m && forall j :: j in m ==> k <= j
  {
    Min(m.Keys)
  }

  /** What writing one value under every key of `lo..hi`, one after the other, does to a map. */
  function Filled<V>(m: map<nat, V>, lo: nat, hi: nat, v: V): (r: map<nat, V>)
    ensures forall b :: b in r <==> b in m || lo <= b < hi
    ensures forall b :: b in r ==> r[b] == if lo <= b < hi then v else m[b]
  {
    if lo >= hi then m else Filled(m, lo, hi - 1, v)[hi - 1 := v]
  }

  /** What is left of a map once every key at or above `n` is gone. */
  function Below<V>(m: map<nat, V>, n: nat): (r: map<nat, V>)
    ensures forall b :: b in r <==> b in m && b < n
    ensures forall b :: b in r ==> r[b] == m[b]
  {
    map b | b in m && b < n :: m[b]
  }
}
