/** The rate limit on new tunnels: at most `budget` contacts in any window, kept
    with a pruned list of recent contacts and a counter of contacts under way. */
module TunnelBudget {
  import opened Common

  /** Drop the leading contacts that have left the window: the scan stops at the
      first one that is still inside. */
  function PruneOpens(opens: seq<Time>, now: Time, window: int): seq<Time> {
    if opens == [] || opens[0] > now - window then opens else PruneOpens(opens[1..], now, window)
  }

  lemma {:induction false} PruneDropsPrefix(opens: seq<Time>, now: Time, window: int)
    ensures var kept := PruneOpens(opens, now, window);
            && |kept| <= |opens| && kept == opens[|opens| - |kept|..]
            && (kept != [] ==> kept[0] > now - window)
            && forall i :: 0 <= i < |opens| - |kept| ==> opens[i] <= now - window
  {
    if opens != [] && opens[0] <= now - window {
      PruneDropsPrefix(opens[1..], now, window);
      var kept := PruneOpens(opens, now, window);
      assert kept == opens[1..][|opens| - 1 - |kept|..];
      forall i | 0 <= i < |opens| - |kept| ensures opens[i] <= now - window {
        if i > 0 { assert opens[i] == opens[1..][i - 1]; }
      }
    }
  }

  /** The contacts of the whole history that are later than `cutoff`. */
  function After(history: seq<Time>, cutoff: Time): (r: seq<Time>)
    ensures |r| <= |history|
  {
    if history == [] then []
    else
      var n := |history| - 1;
      After(history[..n], cutoff) + (if history[n] > cutoff then [history[n]] else [])
  }

  /** How many contacts fall in the half-open window (lo, hi]. */
  function CountIn(history: seq<Time>, lo: Time, hi: Time): nat {
    if history == [] then 0
    else
      var n := |history| - 1;
      CountIn(history[..n], lo, hi) + (if lo < history[n] <= hi then 1 else 0)
  }

  /** The contacts in the window of length `window` that ends at `t`. */
  function Contacts(history: seq<Time>, t: Time, window: int): nat {
    CountIn(history, t - window, t)
  }

  ghost predicate Ascending(s: seq<Time>) {
    forall i, j :: 0 <= i < j < |s| ==> s[i] <= s[j]
  }

  /** What ties the kept list to the full history of contacts. */
  ghost predicate Tracks(history: seq<Time>, opens: seq<Time>, clock: Time, window: int) {
    && Ascending(history)
    && (forall i :: 0 <= i < |history| ==> history[i] <= clock)
    && |opens| <= |history|
    && opens == history[|history| - |opens|..]
    && (forall i :: 0 <= i < |history| - |opens| ==> history[i] <= clock - window)
  }

  /** Contacts in the current window plus contacts under way fit the budget, and no
      window in the past or future of the history ever held more. */
  ghost predicate WithinBudget(history: seq<Time>, pending: nat, clock: Time, window: int, budget: int) {
    budget > 0 ==>
      && |After(history, clock - window)| + pending <= budget
      && forall t: Time :: Contacts(history, t, window) <= budget
  }

  lemma {:induction false} AfterIsSuffix(history: seq<Time>, cutoff: Time, k: nat)
    requires Ascending(history) && k <= |history|
    requires forall i :: 0 <= i < k ==> history[i] <= cutoff
    requires forall i :: k <= i < |history| ==> history[i] > cutoff
    ensures After(history, cutoff) == history[k..]
  {
    if history != [] {
      var n := |history| - 1;
      if k <= n {
        AfterIsSuffix(history[..n], cutoff, k);
        assert history[k..] == history[..n][k..] + [history[n]];
      } else {
        AfterIsSuffix(history[..n], cutoff, n);
        assert history[..n][n..] == [];
      }
    }
  }

  lemma SuffixOfSuffix(history: seq<Time>, opens: seq<Time>, kept: seq<Time>)
    requires |opens| <= |history| && opens == history[|history| - |opens|..]
    requires |kept| <= |opens| && kept == opens[|opens| - |kept|..]
    ensures kept == history[|history| - |kept|..]
  {}

  lemma DroppedAreOld(history: seq<Time>, opens: seq<Time>, kept: seq<Time>, cutoff: Time)
    requires |kept| <= |opens| <= |history| && opens == history[|history| - |opens|..]
    requires forall i :: 0 <= i < |history| - |opens| ==> history[i] <= cutoff
    requires forall i :: 0 <= i < |opens| - |kept| ==> opens[i] <= cutoff
    ensures forall i :: 0 <= i < |history| - |kept| ==> history[i] <= cutoff
  {
    var base := |history| - |opens|;
    forall i | base <= i < |history| - |kept| ensures history[i] <= cutoff {
      assert opens[i - base] == history[i];
    }
  }

  lemma LaterFrom(history: seq<Time>, k: nat, cutoff: Time)
    requires Ascending(history) && k <= |history|
    requires k < |history| ==> history[k] > cutoff
    ensures forall i :: k <= i < |history| ==> history[i] > cutoff
  {}

  /** The pruned list is the full history filtered to the window. */
  lemma PrunedIsWindow(history: seq<Time>, opens: seq<Time>, clock: Time, now: Time, window: int)
    requires Tracks(history, opens, clock, window) && clock <= now
    ensures PruneOpens(opens, now, window) == After(history, now - window)
    ensures Tracks(history, PruneOpens(opens, now, window), now, window)
  {
    PruneDropsPrefix(opens, now, window);
    KeptIsWindow(history, opens, PruneOpens(opens, now, window), clock, now, window);
  }

  lemma KeptIsWindow(history: seq<Time>, opens: seq<Time>, kept: seq<Time>, clock: Time, now: Time, window: int)
    requires Tracks(history, opens, clock, window) && clock <= now
    requires |kept| <= |opens| && kept == opens[|opens| - |kept|..]
    requires kept != [] ==> kept[0] > now - window
    requires forall i :: 0 <= i < |opens| - |kept| ==> opens[i] <= now - window
    ensures kept == After(history, now - window)
    ensures Tracks(history, kept, now, window)
  {
    var k := |history| - |kept|;
    SuffixOfSuffix(history, opens, kept);
    DroppedAreOld(history, opens, kept, now - window);
    LaterFrom(history, k, now - window);
    AfterIsSuffix(history, now - window, k);
  }

  lemma {:induction false} AfterShrinks(history: seq<Time>, c0: Time, c1: Time)
    requires c0 <= c1
    ensures |After(history, c1)| <= |After(history, c0)|
  {
    if history != [] { AfterShrinks(history[..|history| - 1], c0, c1); }
  }

  lemma {:induction false} CountIsAfter(history: seq<Time>, lo: Time, hi: Time)
    requires forall i :: 0 <= i < |history| ==> history[i] <= hi
    ensures CountIn(history, lo, hi) == |After(history, lo)|
  {
    if history != [] { CountIsAfter(history[..|history| - 1], lo, hi); }
  }

  lemma {:induction false} CountMonotone(history: seq<Time>, lo: Time, hi: Time, lo': Time, hi': Time)
    requires lo' <= lo
    requires forall i :: 0 <= i < |history| ==> history[i] <= hi'
    ensures CountIn(history, lo, hi) <= CountIn(history, lo', hi')
  {
    if history != [] { CountMonotone(history[..|history| - 1], lo, hi, lo', hi'); }
  }

  /** Time passing, or a pruning, never breaks the budget. */
  lemma ClockKeepsBudget(history: seq<Time>, pending: nat, clock: Time, now: Time, window: int, budget: int)
    requires clock <= now && WithinBudget(history, pending, clock, window, budget)
    ensures WithinBudget(history, pending, now, window, budget)
  {
    AfterShrinks(history, clock - window, now - window);
  }

  /** A reservation is granted only when contacts and reservations leave room. */
  lemma ReserveKeepsBudget(history: seq<Time>, opens: seq<Time>, pending: nat, clock: Time, now: Time, window: int,
                           budget: int)
    requires clock <= now && Tracks(history, opens, clock, window)
             && WithinBudget(history, pending, clock, window, budget)
    requires budget > 0 ==> |PruneOpens(opens, now, window)| + pending < budget
    ensures WithinBudget(history, pending + 1, now, window, budget)
  {
    PrunedIsWindow(history, opens, clock, now, window);
    ClockKeepsBudget(history, pending, clock, now, window, budget);
  }

  /** A committed contact spends its own reservation, whenever it happens. */
  lemma CommitKeepsBudget(history: seq<Time>, opens: seq<Time>, pending: nat, clock: Time, now: Time, window: int,
                          budget: int)
    requires clock <= now && window > 0 && pending > 0
    requires Tracks(history, opens, clock, window) && WithinBudget(history, pending, clock, window, budget)
    ensures Tracks(history + [now], PruneOpens(opens, now, window) + [now], now, window)
    ensures WithinBudget(history + [now], pending - 1, now, window, budget)
  {
    PrunedIsWindow(history, opens, clock, now, window);
    ClockKeepsBudget(history, pending, clock, now, window, budget);
    TrackAppend(history, PruneOpens(opens, now, window), now, window);
    assert (history + [now])[..|history|] == history;
    if budget > 0 {
      AppendKeepsWindows(history, now, window, budget);
    }
  }

  lemma TrackAppend(history: seq<Time>, kept: seq<Time>, now: Time, window: int)
    requires Tracks(history, kept, now, window)
    ensures Tracks(history + [now], kept + [now], now, window)
  {
    assert kept + [now] == (history + [now])[|history| - |kept|..];
  }

  lemma AppendKeepsWindows(history: seq<Time>, now: Time, window: int, budget: int)
    requires forall i :: 0 <= i < |history| ==> history[i] <= now
    requires window > 0 && |After(history, now - window)| < budget
    requires forall t: Time :: Contacts(history, t, window) <= budget
    ensures forall t: Time :: Contacts(history + [now], t, window) <= budget
  {
    var h := history + [now];
    assert h[..|h| - 1] == history;
    forall t: Time ensures Contacts(h, t, window) <= budget {
      assert Contacts(history, t, window) <= budget;
      if now <= t {
        CountMonotone(history, t - window, t, now - window, now);
        CountIsAfter(history, now - window, now);
      }
    }
  }
}
