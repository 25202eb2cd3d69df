/**
  "Since when" records over whole runs. A record is rebuilt at every observation: a key that is seen
  again with the same value keeps its time, any other key seen gets the time of the observation.
  The lemmas say what such a time means in the history of all observations.
 */
module Stretches {

  datatype Since<V> = Since(value: V, since: int)

  /** One observation: its time, and the keys seen with their values. */
  datatype Sight<K, V> = Sight(now: int, seen: map<K, V>)

  function Advance<K, V(==)>(prev: map<K, Since<V>>, s: Sight<K, V>): map<K, Since<V>> {
    map k | k in s.seen :: if k in prev && prev[k].value == s.seen[k] then prev[k] else Since(s.seen[k], s.now)
  }

  /** The records after a whole run of observations. */
  ghost function Replay<K, V>(h: seq<Sight<K, V>>): map<K, Since<V>> {
    if h == [] then map[] else Advance(Replay(h[..|h|-1]), h[|h|-1])
  }

  ghost predicate SeenAs<K, V>(s: Sight<K, V>, k: K, v: V) {
    k in s.seen && s.seen[k] == v
  }

  /** `start` begins the unbroken stretch, up to the last observation, in which `k` was seen as `v`. */
  ghost predicate StretchFrom<K, V>(h: seq<Sight<K, V>>, k: K, v: V, start: nat) {
    && start < |h|
    && (forall i :: start <= i < |h| ==> SeenAs(h[i], k, v))
    && (start > 0 ==> !SeenAs(h[start-1], k, v))
  }

  ghost function StretchStart<K, V>(h: seq<Sight<K, V>>, k: K, v: V): nat {
    if |h| > 1 && SeenAs(h[|h|-2], k, v) then StretchStart(h[..|h|-1], k, v)
    else if h == [] then 0 else |h| - 1
  }

  lemma {:induction false} StretchStartIsStart<K, V>(h: seq<Sight<K, V>>, k: K, v: V)
    requires h != [] && SeenAs(h[|h|-1], k, v)
    ensures StretchFrom(h, k, v, StretchStart(h, k, v))
  {
    if |h| > 1 && SeenAs(h[|h|-2], k, v) {
      var init := h[..|h|-1];
      assert init[|init|-1] == h[|h|-2];
      StretchStartIsStart(init, k, v);
      forall i | StretchStart(h, k, v) <= i < |h| ensures SeenAs(h[i], k, v) {
        if i < |init| { assert SeenAs(init[i], k, v); }
      }
    }
  }

  /**
    After any run, a key has a record exactly when the last observation saw it, and the record holds
    the value seen and the time at which the unbroken stretch of that value began.
   */
  lemma {:induction false} RecordMeansStretch<K, V>(h: seq<Sight<K, V>>, k: K)
    requires h != []
    ensures k in Replay(h) <==> k in h[|h|-1].seen
    ensures k in Replay(h) ==>
      var v := h[|h|-1].seen[k]; var start := StretchStart(h, k, v);
      StretchFrom(h, k, v, start) && Replay(h)[k] == Since(v, h[start].now)
  {
    var init, s := h[..|h|-1], h[|h|-1];
    if k in s.seen {
      var v := s.seen[k];
      StretchStartIsStart(h, k, v);
      if init != [] {
        RecordMeansStretch(init, k);
        assert init[|init|-1] == h[|h|-2];
        if SeenAs(h[|h|-2], k, v) {
          assert Replay(init)[k] == Since(v, init[StretchStart(init, k, v)].now);
          StretchStartIsStart(init, k, v);
        }
      }
    }
  }
}
