/** Lists the pages or chapters a controller grain knows, in ascending order.

    The grains start their children in parallel, so the order does not
    matter to them. A sequence in a fixed order lets the model pair each
    child with the outcome of its call. */
module Ordering {

  /** The pages 0, 1, ..., n - 1. */
  function Range(n: int): (r: set<int>)
    ensures forall p :: p in r <==> 0 <= p < n
  {
    if n <= 0 then {} else Range(n - 1) + {n - 1}
  }

  lemma {:induction false} RangeSize(n: nat)
    ensures |Range(n)| == n
  {
    if n > 0 {
      RangeSize(n - 1);
      assert Range(n) == Range(n - 1) + {n - 1};
      assert n - 1 !in Range(n - 1);
    }
  }

  /** A set of keys is dense when it is exactly 0, 1, ..., |keys| - 1. */
  predicate Dense(keys: set<int>) {
    keys == Range(|keys|)
  }

  /** Adding the next key keeps a dense set dense. */
  lemma DenseAddNext(keys: set<int>)
    requires Dense(keys)
    ensures Dense(keys + {|keys|}) && |keys + {|keys|}| == |keys| + 1
  {
    var n := |keys|;
    assert n !in keys;
    assert Range(n + 1) == Range(n) + {n};
  }

  predicate IsMin(keys: set<int>, m: int) {
    m in keys && forall k :: k in keys ==> m <= k
  }

  /** A set is empty or has an element. */
  lemma EmptyOrInhabited(keys: set<int>)
    ensures keys == {} || exists k :: k in keys
  {
    if !(exists k :: k in keys) {
      assert keys == {};
    }
  }

  lemma {:induction false} MinExists(keys: set<int>)
    requires keys != {}
    ensures exists m :: IsMin(keys, m)
    decreases |keys|
  {
    EmptyOrInhabited(keys);
    var k :| k in keys;
    if keys == {k} {
      assert IsMin(keys, k);
    } else {
      MinExists(keys - {k});
      var m :| IsMin(keys - {k}, m);
      var least := if k < m then k else m;
      forall j | j in keys
        ensures least <= j
      {
        if j != k {
          assert j in keys - {k};
        }
      }
      assert IsMin(keys, least);
    }
  }

  /** The smallest key. */
  function Min(keys: set<int>): (m: int)
    requires keys != {}
    ensures IsMin(keys, m)
  {
    MinExists(keys);
    var m :| IsMin(keys, m);
    m
  }

  predicate IsMax(keys: set<int>, m: int) {
    m in keys && forall k :: k in keys ==> k <= m
  }

  lemma {:induction false} MaxExists(keys: set<int>)
    requires keys != {}
    ensures exists m :: IsMax(keys, m)
    decreases |keys|
  {
    EmptyOrInhabited(keys);
    var k :| k in keys;
    if keys == {k} {
      assert IsMax(keys, k);
    } else {
      MaxExists(keys - {k});
      var m :| IsMax(keys - {k}, m);
      var most := if k > m then k else m;
      forall j | j in keys
        ensures j <= most
      {
        if j != k {
          assert j in keys - {k};
        }
      }
      assert IsMax(keys, most);
    }
  }

  /** The largest key. */
  function Max(keys: set<int>): (m: int)
    requires keys != {}
    ensures IsMax(keys, m)
  {
    MaxExists(keys);
    var m :| IsMax(keys, m);
    m
  }

  predicate StrictlyAscending(s: seq<int>) {
    forall i, j :: 0 <= i < j < |s| ==> s[i] < s[j]
  }

  /** The keys, smallest first, each once. */
  function Ascending(keys: set<int>): (r: seq<int>)
    ensures StrictlyAscending(r)
    ensures forall k :: k in r <==> k in keys
    ensures |r| == |keys|
    decreases |keys|
  {
    if keys == {} then []
    else
      var m := Min(keys);
      var rest := Ascending(keys - {m});
      [m] + rest
  }
}
