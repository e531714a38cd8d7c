/** Walking a ring: a sequence that repeats another one over and over. */
module Cyclic {

  /** `out` walks `ring` over and over. */
  ghost predicate Cycles<T>(out: seq<T>, ring: seq<T>) {
    ring != [] && forall k :: 0 <= k < |out| ==> out[k] == ring[k % |ring|]
  }

  /** Serving the head first and walking the turned ring afterwards walks the ring. */
  lemma TurnsAll<T>(ring: seq<T>, rest: seq<T>)
    requires ring != [] && Cycles(rest, ring[1..] + [ring[0]])
    ensures Cycles([ring[0]] + rest, ring)
  {
    forall k | 0 <= k < |rest| + 1 ensures ([ring[0]] + rest)[k] == ring[k % |ring|] {
      if k > 0 { Turn(ring, k - 1); }
    }
  }

  lemma Turn<T>(ring: seq<T>, k: nat)
    requires ring != []
    ensures (ring[1..] + [ring[0]])[k % |ring|] == ring[(k + 1) % |ring|]
  {
    var n := |ring|;
    var r := k % n;
    assert k == n * (k / n) + r;
    if r + 1 < n {
      assert (k + 1) == n * (k / n) + (r + 1);
      ModOf(k / n, r + 1, n);
    } else {
      assert (k + 1) == n * (k / n + 1) + 0;
      ModOf(k / n + 1, 0, n);
    }
  }

  lemma ModOf(q: nat, r: nat, n: nat)
    requires r < n
    ensures (n * q + r) % n == r
  {
    var x := n * q + r;
    assert x == n * (x / n) + x % n;
    assert n * (q - x / n) == n * q - n * (x / n);
    Squeeze(n, q - x / n, x % n - r);
  }

  lemma Squeeze(n: int, d: int, e: int)
    requires n * d == e && -n < e < n
    ensures d == 0
  {
    assert d >= 1 ==> n * d >= n;
    assert d <= -1 ==> n * d <= -n;
  }

  /** A window as long as the ring meets every member. */
  lemma WindowMeets<T>(ring: seq<T>, out: seq<T>, start: nat, x: T)
    requires x in ring && start + |ring| <= |out| && Cycles(out, ring)
    ensures x in out[start..start + |ring|]
  {
    var r :| 0 <= r < |ring| && ring[r] == x;
    var k := InWindow(start, r, |ring|);
    assert out[start..start + |ring|][k - start] == out[k] == ring[r];
  }

  /** Every window of n consecutive numbers meets every residue. */
  lemma InWindow(start: nat, r: nat, n: nat) returns (k: nat)
    requires r < n
    ensures start <= k < start + n && k % n == r
  {
    var q := start / n;
    assert start == n * q + start % n;
    if start % n <= r {
      k := n * q + r;
      ModOf(q, r, n);
    } else {
      k := n * (q + 1) + r;
      ModOf(q + 1, r, n);
    }
  }
}
