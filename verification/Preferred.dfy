/** Last-good exits per destination: a bounded ring without repeated addresses. */
module Preferred {
  import opened Common

  datatype PreferredExit = PreferredExit(slotID: string, publicIP: Addr, expiresAt: Time)

  /** The entries that satisfy `keep`, in order: what filtering in place leaves. */
  function Filter(s: seq<PreferredExit>, keep: PreferredExit -> bool): (kept: seq<PreferredExit>)
    ensures |kept| <= |s|
    ensures forall e :: e in kept <==> e in s && keep(e)
  {
    if s == [] then []
    else if keep(s[|s| - 1]) then Filter(s[..|s| - 1], keep) + [s[|s| - 1]]
    else Filter(s[..|s| - 1], keep)
  }

  function Prune(s: seq<PreferredExit>, now: Time): seq<PreferredExit> {
    Filter(s, (e: PreferredExit) => now < e.expiresAt)
  }

  function RemoveIP(s: seq<PreferredExit>, ip: Addr): seq<PreferredExit> {
    Filter(s, (e: PreferredExit) => e.publicIP != ip)
  }

  /** The first entry at or after `i` that names `ip`, or |s|. */
  function FindIP(s: seq<PreferredExit>, ip: Addr, i: nat): (k: nat)
    requires i <= |s|
    ensures i <= k <= |s|
    ensures forall j :: i <= j < k ==> s[j].publicIP != ip
    ensures k < |s| ==> s[k].publicIP == ip
    decreases |s| - i
  {
    if i == |s| || s[i].publicIP == ip then i else FindIP(s, ip, i + 1)
  }

  /** A non-positive bound falls back to eight entries. */
  function Bound(max: int): nat { if max <= 0 then 8 else max }

  /** Keep the newest entries. */
  function Newest(s: seq<PreferredExit>, max: nat): seq<PreferredExit> {
    if |s| > max then s[|s| - max..] else s
  }

  function Remember(s: seq<PreferredExit>, slotID: string, ip: Addr, until: Time, max: int): seq<PreferredExit> {
    var k := FindIP(s, ip, 0);
    if k < |s| then
      s[k := PreferredExit(slotID, ip, until)]
    else
      Newest(s + [PreferredExit(slotID, ip, until)], Bound(max))
  }

  /** The first entry of `slotID` that is not already last, or |s|. */
  function FindSlot(s: seq<PreferredExit>, slotID: string, i: nat): (k: nat)
    requires i <= |s|
    ensures i <= k <= |s|
    ensures forall j :: i <= j < k ==> s[j].slotID != slotID || j == |s| - 1
    ensures k < |s| ==> s[k].slotID == slotID && k != |s| - 1
    decreases |s| - i
  {
    if i == |s| then i
    else if s[i].slotID != slotID || i == |s| - 1 then FindSlot(s, slotID, i + 1)
    else i
  }

  function MoveToTail(s: seq<PreferredExit>, k: nat): seq<PreferredExit>
    requires k < |s|
  {
    s[..k] + s[k + 1..] + [s[k]]
  }

  function RotateToTail(s: seq<PreferredExit>, slotID: string): seq<PreferredExit> {
    var k := FindSlot(s, slotID, 0);
    if k < |s| then MoveToTail(s, k) else s
  }

  // ---------------------------------------------------------------------
  // What every operation keeps.

  ghost predicate DistinctIPs(s: seq<PreferredExit>) {
    forall i, j :: 0 <= i < j < |s| ==> s[i].publicIP != s[j].publicIP
  }

  ghost predicate DistinctSlots(s: seq<PreferredExit>) {
    forall i, j :: 0 <= i < j < |s| ==> s[i].slotID != s[j].slotID
  }

  ghost predicate Valid(s: seq<PreferredExit>, max: int) {
    && |s| <= Bound(max)
    && DistinctIPs(s)
    && forall e :: e in s ==> e.publicIP != NoAddr
  }

  lemma {:induction false} FilterKeepsDistinct(s: seq<PreferredExit>, keep: PreferredExit -> bool)
    requires DistinctIPs(s)
    ensures DistinctIPs(Filter(s, keep))
  {
    if s != [] {
      var n := |s| - 1;
      FilterKeepsDistinct(s[..n], keep);
      var rest := Filter(s[..n], keep);
      forall i | 0 <= i < |rest| ensures rest[i].publicIP != s[n].publicIP {
        assert rest[i] in s[..n];
      }
    }
  }

  lemma FilterKeepsValid(s: seq<PreferredExit>, keep: PreferredExit -> bool, max: int)
    requires Valid(s, max)
    ensures Valid(Filter(s, keep), max)
  {
    FilterKeepsDistinct(s, keep);
  }

  lemma RememberKeepsValid(s: seq<PreferredExit>, slotID: string, ip: Addr, until: Time, max: int)
    requires Valid(s, max) && ip != NoAddr
    ensures Valid(Remember(s, slotID, ip, until, max), max)
    ensures PreferredExit(slotID, ip, until) in Remember(s, slotID, ip, until, max)
    ensures forall e :: e in Remember(s, slotID, ip, until, max) ==>
                       e == PreferredExit(slotID, ip, until) || (e in s && e.publicIP != ip)
  {
    if FindIP(s, ip, 0) < |s| {
      RenewsOne(s, slotID, ip, until, max);
    } else {
      AddsOne(s, PreferredExit(slotID, ip, until), max);
    }
  }

  /** An address the ring names already is renewed in place. */
  lemma RenewsOne(s: seq<PreferredExit>, slotID: string, ip: Addr, until: Time, max: int)
    requires Valid(s, max) && ip != NoAddr && FindIP(s, ip, 0) < |s|
    ensures var k, r := FindIP(s, ip, 0), Remember(s, slotID, ip, until, max);
            && r == s[k := PreferredExit(slotID, ip, until)]
            && Valid(r, max) && r[k] in r
            && forall e :: e in r ==> e == r[k] || (e in s && e.publicIP != ip)
  {
    var k, r := FindIP(s, ip, 0), Remember(s, slotID, ip, until, max);
    assert r == s[k := PreferredExit(slotID, ip, until)];
    forall i | 0 <= i < |r| && i != k ensures r[i] == s[i] && r[i].publicIP != ip {
      assert s[i].publicIP != s[k].publicIP;
    }
  }

  /** A new address goes to the tail, and the oldest entries leave a full ring. */
  lemma AddsOne(s: seq<PreferredExit>, e: PreferredExit, max: int)
    requires Valid(s, max) && e.publicIP != NoAddr && forall j :: 0 <= j < |s| ==> s[j].publicIP != e.publicIP
    ensures var r := Newest(s + [e], Bound(max));
            && Valid(r, max) && e in r
            && forall d :: d in r ==> d == e || (d in s && d.publicIP != e.publicIP)
  {
    var all := s + [e];
    var r := Newest(all, Bound(max));
    assert r[|r| - 1] == e;
    forall i | 0 <= i < |r| ensures r[i] == all[|all| - |r| + i] {}
  }

  /** With distinct slots the rotation moves exactly the named entry and keeps the
      order of the rest. */
  lemma RotateMovesOne(s: seq<PreferredExit>, k: nat)
    requires k < |s| && DistinctSlots(s)
    ensures RotateToTail(s, s[k].slotID) == MoveToTail(s, k)
  {
    if k == |s| - 1 {
      assert FindSlot(s, s[k].slotID, 0) == |s|;
      assert MoveToTail(s, k) == s;
    } else {
      assert FindSlot(s, s[k].slotID, 0) == k;
    }
  }

  lemma RotateKeepsValid(s: seq<PreferredExit>, slotID: string, max: int)
    requires Valid(s, max)
    ensures Valid(RotateToTail(s, slotID), max)
    ensures multiset(RotateToTail(s, slotID)) == multiset(s)
  {
    var k := FindSlot(s, slotID, 0);
    if k < |s| {
      MovePermutes(s, k);
    }
  }

  lemma MovePermutes(s: seq<PreferredExit>, k: nat)
    requires k < |s|
    ensures multiset(MoveToTail(s, k)) == multiset(s)
    ensures DistinctIPs(s) ==> DistinctIPs(MoveToTail(s, k))
    ensures forall e :: e in MoveToTail(s, k) ==> e in s
  {
    var r := MoveToTail(s, k);
    MovedFrom(s, k);
    assert s == s[..k] + [s[k]] + s[k + 1..];
    assert r == s[..k] + s[k + 1..] + [s[k]];
    hide MoveToTail;
  }

  /** Where the entry at `i` of the moved ring comes from. */
  function Origin(n: nat, k: nat, i: nat): nat
    requires k < n && i < n
  {
    if i < k then i else if i < n - 1 then i + 1 else k
  }

  lemma MovedFrom(s: seq<PreferredExit>, k: nat)
    requires k < |s|
    ensures |MoveToTail(s, k)| == |s|
    ensures forall i :: 0 <= i < |s| ==> Origin(|s|, k, i) < |s| && MoveToTail(s, k)[i] == s[Origin(|s|, k, i)]
  {}

  // ---------------------------------------------------------------------
  // Selection from the ring.

  /** The first least-loaded entry among the first `n` that may serve. */
  function LeastLoaded(s: seq<PreferredExit>, serves: PreferredExit -> bool, load: PreferredExit -> int,
                       n: nat): (best: Option<nat>)
    requires n <= |s|
    ensures best.Some? ==> best.value < n && serves(s[best.value])
    ensures best.Some? ==> forall i :: 0 <= i < n && serves(s[i]) ==> load(s[best.value]) <= load(s[i])
    ensures best.Some? ==> forall i :: 0 <= i < best.value && serves(s[i]) ==> load(s[best.value]) < load(s[i])
    ensures best.None? ==> forall i :: 0 <= i < n ==> !serves(s[i])
  {
    if n == 0 then None
    else
      var prev := LeastLoaded(s, serves, load, n - 1);
      if !serves(s[n - 1]) then prev
      else if prev.None? || load(s[n - 1]) < load(s[prev.value]) then Some(n - 1)
      else prev
  }

  /** One pick from the ring: the served entry and the ring it leaves. */
  function Serve(s: seq<PreferredExit>, serves: PreferredExit -> bool,
                 load: PreferredExit -> int): Option<(PreferredExit, seq<PreferredExit>)> {
    var best := LeastLoaded(s, serves, load, |s|);
    if best.None? then None
    else Some((s[best.value], RotateToTail(s, s[best.value].slotID)))
  }

  lemma ServeHead(s: seq<PreferredExit>, serves: PreferredExit -> bool, load: PreferredExit -> int, common: int)
    requires s != [] && DistinctSlots(s)
    requires forall e :: e in s ==> serves(e) && load(e) == common
    ensures Serve(s, serves, load) == Some((s[0], s[1..] + [s[0]]))
    ensures DistinctSlots(s[1..] + [s[0]])
    ensures forall e :: e in s[1..] + [s[0]] ==> serves(e) && load(e) == common
  {
    var best := LeastLoaded(s, serves, load, |s|);
    assert serves(s[0]);
    assert s[best.value] in s && s[0] in s;
    RotateMovesOne(s, 0);
    assert MoveToTail(s, 0) == s[1..] + [s[0]];
    forall e | e in s[1..] + [s[0]] ensures e in s {}
  }
}
