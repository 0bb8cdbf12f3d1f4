/** Counters keyed by a label, as a loop fills them, and their totals. */
module Tally {
  import opened Counting

  function Get<K>(counter: map<K, nat>, key: K): nat {
    if key in counter then counter[key] else 0
  }

  function AddOne<K>(counter: map<K, nat>, key: K): map<K, nat> {
    counter[key := Get(counter, key) + 1]
  }

  /** The counter after one addition for each element of `s`. */
  ghost function TallyOf<T, K>(s: seq<T>, key: T -> K): map<K, nat> {
    if s == [] then map[]
    else AddOne(TallyOf(s[..|s| - 1], key), key(s[|s| - 1]))
  }

  ghost function Total<K>(counter: map<K, nat>): nat {
    if counter == map[] then 0
    else
      var k :| k in counter;
      counter[k] + Total(counter - {k})
  }

  lemma {:induction false} TotalTakes<K>(counter: map<K, nat>, key: K)
    requires key in counter
    ensures Total(counter) == counter[key] + Total(counter - {key})
    decreases |counter|
  {
    var k :| k in counter && Total(counter) == counter[k] + Total(counter - {k});
    if k != key {
      TotalTakes(counter - {k}, key);
      TotalTakes(counter - {key}, k);
      assert counter - {k} - {key} == counter - {key} - {k};
    }
  }

  lemma TotalAfterOne<K>(counter: map<K, nat>, key: K)
    ensures Total(AddOne(counter, key)) == Total(counter) + 1
  {
    var after := AddOne(counter, key);
    TotalTakes(after, key);
    if key in counter {
      TotalTakes(counter, key);
      assert after - {key} == counter - {key};
    } else {
      assert after - {key} == counter;
    }
  }

  /** Whatever the key, a counter totals the number of additions. */
  lemma {:induction false} TotalIsLength<T, K>(s: seq<T>, key: T -> K)
    ensures Total(TallyOf(s, key)) == |s|
  {
    if s != [] {
      var n := |s| - 1;
      TotalIsLength(s[..n], key);
      TotalAfterOne(TallyOf(s[..n], key), key(s[n]));
    }
  }

  ghost function HasKey<T, K>(key: T -> K, k: K): T -> bool {
    (x: T) => key(x) == k
  }

  /** Each entry counts the elements with that key. */
  lemma {:induction false} TallyCounts<T, K>(s: seq<T>, key: T -> K, k: K)
    ensures Get(TallyOf(s, key), k) == Count(s, HasKey(key, k))
  {
    if s != [] {
      TallyCounts(s[..|s| - 1], key, k);
    }
  }

  /** One more iteration of a loop over `s`. */
  lemma TallyStep<T, K>(s: seq<T>, x: T, key: T -> K)
    ensures TallyOf(s + [x], key) == AddOne(TallyOf(s, key), key(x))
  {
    assert (s + [x])[..|s|] == s;
  }
}
