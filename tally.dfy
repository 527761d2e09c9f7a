/** The counting the aggregate endpoints do with `acc[k] = (acc[k] || 0) + 1`:
    a map from each key seen to the number of times it was seen. */
module Tally {

  /** The counts over `keys`, built one key at a time in order. */
  function Tally<K(==)>(keys: seq<K>): (m: map<K, nat>)
    ensures m.Keys == set i | 0 <= i < |keys| :: keys[i]
    ensures forall k :: k in m ==> m[k] == multiset(keys)[k]
  {
    if keys == [] then map[]
    else
      var init := keys[..|keys| - 1];
      var k := keys[|keys| - 1];
      assert keys == init + [k];
      Bump(Tally(init), k)
  }

  /** `acc[k] = (acc[k] || 0) + 1`: one more `k`, every other count unchanged. */
  function Bump<K>(m: map<K, nat>, k: K): (r: map<K, nat>)
    ensures r.Keys == m.Keys + {k}
    ensures r[k] == (if k in m then m[k] else 0) + 1
    ensures forall j :: j in m && j != k ==> r[j] == m[j]
  {
    m[k := (if k in m then m[k] else 0) + 1]
  }

  /** Counting one more key is bumping its count. */
  lemma TallySnoc<K>(keys: seq<K>, k: K)
    ensures Tally(keys + [k]) == Bump(Tally(keys), k)
  {
    assert (keys + [k])[..|keys|] == keys;
  }

  predicate NoDup<K(==)>(ks: seq<K>) {
    forall i, j :: 0 <= i < j < |ks| ==> ks[i] != ks[j]
  }

  /** The sum of the values `m` has at the keys `ks` (0 where it has none). */
  function SumOver<K(==)>(m: map<K, nat>, ks: seq<K>): nat {
    if ks == [] then 0 else (if ks[0] in m then m[ks[0]] else 0) + SumOver(m, ks[1..])
  }

  /** The counts add up to the number of keys counted, summed over any duplicate-free
      list of keys that covers every key seen. */
  lemma TallySum<K>(keys: seq<K>, ks: seq<K>)
    requires NoDup(ks)
    requires forall k :: k in keys ==> k in ks
    ensures SumOver(Tally(keys), ks) == |keys|
  {
    TallyIsMultiplicity(keys, ks);
    MultiplicitySum(keys, ks);
  }

  ghost function SumMultiplicity<K>(ms: multiset<K>, ks: seq<K>): nat {
    if ks == [] then 0 else ms[ks[0]] + SumMultiplicity(ms, ks[1..])
  }

  lemma {:induction false} TallyIsMultiplicity<K>(keys: seq<K>, ks: seq<K>)
    ensures SumOver(Tally(keys), ks) == SumMultiplicity(multiset(keys), ks)
  {
    if ks != [] {
      TallyIsMultiplicity(keys, ks[1..]);
    }
  }

  lemma {:induction false} MultiplicitySum<K>(keys: seq<K>, ks: seq<K>)
    requires NoDup(ks)
    requires forall k :: k in keys ==> k in ks
    ensures SumMultiplicity(multiset(keys), ks) == |keys|
  {
    if keys == [] {
      ZeroSum(ks);
    } else {
      var init := keys[..|keys| - 1];
      var x := keys[|keys| - 1];
      assert keys == init + [x];
      MultiplicitySum(init, ks);
      AddOneSum(multiset(init), x, ks);
      OccursOnce(ks, x);
    }
  }

  lemma {:induction false} ZeroSum<K>(ks: seq<K>)
    ensures SumMultiplicity(multiset{}, ks) == 0
  {
    if ks != [] {
      ZeroSum(ks[1..]);
    }
  }

  lemma {:induction false} AddOneSum<K>(ms: multiset<K>, x: K, ks: seq<K>)
    ensures SumMultiplicity(ms + multiset{x}, ks) == SumMultiplicity(ms, ks) + multiset(ks)[x]
  {
    if ks != [] {
      AddOneSum(ms, x, ks[1..]);
      assert ks == [ks[0]] + ks[1..];
    }
  }

  lemma {:induction false} OccursOnce<K>(ks: seq<K>, x: K)
    requires NoDup(ks) && x in ks
    ensures multiset(ks)[x] == 1
  {
    assert ks == [ks[0]] + ks[1..];
    if ks[0] == x {
      assert x !in ks[1..] by {
        forall j | 0 <= j < |ks[1..]| ensures ks[1..][j] != x {
          assert ks[j + 1] != ks[0];
        }
      }
    } else {
      OccursOnce(ks[1..], x);
    }
  }
}
