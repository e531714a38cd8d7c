/** Vocabulary shared by every component: optional values, results, measured
    addresses and the integer clock. */
module Common {
  datatype Option<+T> = None | Some(value: T)

  datatype Result<+T, +E> = Ok(value: T) | Err(error: E)

  /** A public address: opaque, or the invalid zero address of an unmeasured slot. */
  datatype Addr = NoAddr | Addr(id: nat)

  /** Instants are integers on one clock that starts above the zero time. */
  type Time = int
  const ZERO_TIME: Time := 0

  function Max(a: int, b: int): int { if a < b then b else a }

  function Min(a: int, b: int): int { if a < b then a else b }

  /** The decrement of every counter in the pool: it never goes below zero. */
  function Dec(n: nat): nat { if n > 0 then n - 1 else 0 }

  ghost predicate Distinct<T>(s: seq<T>) {
    forall i, j :: 0 <= i < j < |s| ==> s[i] != s[j]
  }

  ghost predicate Injective<K, V>(m: map<K, V>) {
    forall k, l :: k in m && l in m && k != l ==> m[k] != m[l]
  }
}
