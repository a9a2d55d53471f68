/** What a least-recently-used cache of a given capacity holds, said of the log of its touches alone. */
module LruSpec {
  import opened Finite

  function Without<K(==)>(keys: seq<K>, k: K): seq<K> {
    if keys == [] then []
    else if keys[0] == k then Without(keys[1..], k)
    else [keys[0]] + Without(keys[1..], k)
  }

  /** The distinct keys of a log, by their last touch. */
  function Recent<K(==)>(log: seq<K>): seq<K> {
    if log == [] then [] else Without(Recent(log[..|log| - 1]), log[|log| - 1]) + [log[|log| - 1]]
  }

  function LastN<T>(s: seq<T>, n: nat): seq<T> {
    if |s| <= n then s else s[|s| - n..]
  }

  function LastTouch<K(==)>(log: seq<K>, k: K): (i: nat)
    requires k in log
    ensures i < |log| && log[i] == k && k !in log[i + 1..]
  {
    if log[|log| - 1] == k then |log| - 1
    else
      assert log == log[..|log| - 1] + [log[|log| - 1]];
      var i := LastTouch(log[..|log| - 1], k);
      assert log[i + 1..] == log[..|log| - 1][i + 1..] + [log[|log| - 1]];
      i
  }

  lemma {:induction false} WithoutElements<K>(keys: seq<K>, k: K)
    ensures forall x :: x in Without(keys, k) <==> x in keys && x != k
    ensures k !in keys ==> Without(keys, k) == keys
  {
    if keys != [] {
      WithoutElements(keys[1..], k);
      assert keys == [keys[0]] + keys[1..];
    }
  }

  lemma {:induction false} WithoutDistinct<K>(keys: seq<K>, k: K)
    requires Distinct(keys)
    ensures Distinct(Without(keys, k))
  {
    if keys != [] {
      WithoutDistinct(keys[1..], k);
      WithoutElements(keys[1..], k);
      assert keys[0] !in keys[1..] by {
        forall i | 0 <= i < |keys[1..]| ensures keys[1..][i] != keys[0] {}
      }
      DistinctCons(keys[0], Without(keys[1..], k));
    }
  }

  lemma {:induction false} WithoutAppend<K>(a: seq<K>, b: seq<K>, k: K)
    ensures Without(a + b, k) == Without(a, k) + Without(b, k)
  {
    if a == [] {
      assert a + b == b;
    } else {
      assert (a + b)[1..] == a[1..] + b;
      WithoutAppend(a[1..], b, k);
    }
  }

  lemma {:induction false} RecentDistinct<K>(log: seq<K>)
    ensures Distinct(Recent(log))
    ensures forall x :: x in Recent(log) <==> x in log
  {
    if log != [] {
      var front, last := log[..|log| - 1], log[|log| - 1];
      RecentDistinct(front);
      WithoutDistinct(Recent(front), last);
      WithoutElements(Recent(front), last);
      assert log == front + [last];
    }
  }

  /** The keys behind k in the recency order are those touched after the last touch of k. */
  lemma {:induction false} BehindKey<K>(log: seq<K>, k: K) returns (i: nat)
    requires k in log
    ensures i < |Recent(log)| && Recent(log)[i] == k
    ensures Elements(Recent(log)[i + 1..]) == Elements(log[LastTouch(log, k) + 1..])
  {
    var front, last := log[..|log| - 1], log[|log| - 1];
    assert log == front + [last];
    if last == k {
      i := |Without(Recent(front), last)|;
    } else {
      var j := BehindKey(front, k);
      i := BehindAfterTouch(Recent(front), j, last);
      LastTouchKept(front, last, k);
      assert Elements(Recent(log)[i + 1..]) == Elements(front[LastTouch(front, k) + 1..]) + {last};
    }
  }

  /** Another key's touch moves it behind k and leaves the rest behind k where it is. */
  lemma {:induction false} BehindAfterTouch<K>(r: seq<K>, j: nat, last: K) returns (i: nat)
    requires j < |r| && r[j] != last
    ensures var r' := Without(r, last) + [last];
            i < |r'| && r'[i] == r[j] && Elements(r'[i + 1..]) == Elements(r[j + 1..]) + {last}
  {
    var before, k, behind := r[..j], r[j], r[j + 1..];
    assert r == before + ([k] + behind);
    WithoutAppend(before, [k] + behind, last);
    WithoutAppend([k], behind, last);
    WithoutElements([k], last);
    i := |Without(before, last)|;
    var r' := Without(r, last) + [last];
    assert r' == Without(before, last) + ([k] + (Without(behind, last) + [last]));
    assert r'[i + 1..] == Without(behind, last) + [last];
    TouchElements(behind, last);
  }

  lemma {:induction false} TouchElements<K>(keys: seq<K>, k: K)
    ensures Elements(Without(keys, k) + [k]) == Elements(keys) + {k}
  {
    WithoutElements(keys, k);
    assert Elements(Without(keys, k) + [k]) == Elements(Without(keys, k)) + {k};
  }

  lemma {:induction false} LastTouchKept<K>(front: seq<K>, last: K, k: K)
    requires k in front && last != k
    ensures LastTouch(front + [last], k) == LastTouch(front, k)
    ensures Elements((front + [last])[LastTouch(front, k) + 1..]) == Elements(front[LastTouch(front, k) + 1..]) + {last}
  {
    var log := front + [last];
    assert log[..|log| - 1] == front;
    assert log[LastTouch(front, k) + 1..] == front[LastTouch(front, k) + 1..] + [last];
  }

  /** A key is held exactly when fewer than `capacity` other keys were touched after its last touch. */
  lemma {:induction false} HeldExactly<K>(log: seq<K>, k: K, capacity: nat)
    ensures k in LastN(Recent(log), capacity) <==>
              k in log && |Elements(log[LastTouch(log, k) + 1..])| < capacity
  {
    RecentDistinct(log);
    if k in log {
      var i := BehindKey(log, k);
      var r := Recent(log);
      DistinctSize(r[i + 1..]);
      assert |Elements(log[LastTouch(log, k) + 1..])| == |r| - 1 - i;
      HeldAt(r, i, capacity);
    }
  }

  lemma {:induction false} HeldAt<K>(r: seq<K>, i: nat, capacity: nat)
    requires Distinct(r) && i < |r|
    ensures r[i] in LastN(r, capacity) <==> |r| - i <= capacity
  {
    if |r| - i <= capacity {
      if |r| > capacity {
        assert LastN(r, capacity)[i - (|r| - capacity)] == r[i];
      }
    } else {
      forall j | 0 <= j < |LastN(r, capacity)| ensures LastN(r, capacity)[j] != r[i] {
        assert LastN(r, capacity)[j] == r[|r| - capacity + j];
      }
    }
  }

  /** Touching a key: the holdings forget it, append it, and drop from the front what exceeds the capacity. */
  lemma {:induction false} TouchHeld<K>(log: seq<K>, k: K, capacity: nat)
    requires capacity > 0
    ensures LastN(Recent(log + [k]), capacity) == LastN(Without(LastN(Recent(log), capacity), k) + [k], capacity)
  {
    assert (log + [k])[..|log|] == log;
    var r := Recent(log);
    RecentDistinct(log);
    if |r| > capacity {
      var older, held := r[..|r| - capacity], r[|r| - capacity..];
      assert r == older + held;
      WithoutAppend(older, held, k);
      WithoutElements(older, k);
      WithoutElements(held, k);
      WithoutLength(held, k);
      assert k in held ==> k !in older;
      assert Without(r, k) + [k] == Without(older, k) + (Without(held, k) + [k]);
      LastNAppend(Without(older, k), Without(held, k) + [k], capacity);
    }
  }

  lemma {:induction false} WithoutLength<K>(keys: seq<K>, k: K)
    requires Distinct(keys)
    ensures |Without(keys, k)| == |keys| - if k in keys then 1 else 0
  {
    if keys != [] {
      WithoutLength(keys[1..], k);
      WithoutElements(keys[1..], k);
      assert keys == [keys[0]] + keys[1..];
    }
  }

  lemma {:induction false} LastNAppend<T>(a: seq<T>, b: seq<T>, n: nat)
    requires |b| >= n || a == []
    ensures LastN(a + b, n) == LastN(b, n)
  {
    if a == [] {
      assert a + b == b;
    }
  }
}
