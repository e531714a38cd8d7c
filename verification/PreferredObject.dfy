/** The ring of last-good exits as an object over a slice of a shared buffer: filtering
    overwrites the buffer from the front of the slice, and dropping the oldest entries
    only moves the front. */
module PreferredObject {
  import opened Common
  import opened Preferred

  class PreferredSet {
    var buf: array<PreferredExit>
    var lo: nat
    var hi: nat

    ghost predicate Valid()
      reads this
    {
      lo <= hi <= buf.Length
    }

    ghost function Contents(): seq<PreferredExit>
      requires Valid()
      reads this, buf
    {
      buf[lo..hi]
    }

    constructor ()
      ensures Valid() && fresh(buf) && Contents() == []
    {
      buf := new PreferredExit[0];
      lo, hi := 0, 0;
    }

    /** Keep the entries that satisfy `keep`, in order, overwriting from the front. */
    method KeepIf(keep: PreferredExit -> bool)
      requires Valid()
      modifies this`hi, buf
      ensures Valid() && lo == old(lo) && Contents() == Filter(old(Contents()), keep)
    {
      ghost var s, out := Contents(), [];
      var entries, from, n := buf, lo, hi - lo;
      var kept := 0;
      FirstNone(s, keep);
      hide FirstKept;
      hide Holds;
      assert Holds(entries[from..from + n], out, s, 0) by { StartHolds(s); }
      for k := 0 to n
        invariant kept == |out| <= k && out == FirstKept(s, k, keep)
        invariant Holds(entries[from..from + n], out, s, k)
        modifies entries
      {
        kept, out := KeepStep(entries, from, n, kept, k, keep, s, out);
      }
      ghost var view := entries[from..from + n];
      HeldPrefix(view, out, s, n);
      hi := from + kept;
      assert buf[lo..hi] == view[..kept];
      FirstAll(s, keep);
    }

    /** Keep the entries that have not expired. */
    method Prune(now: Time)
      requires Valid()
      modifies this`hi, buf
      ensures Valid() && lo == old(lo) && Contents() == Preferred.Prune(old(Contents()), now)
    {
      KeepIf((e: PreferredExit) => now < e.expiresAt);
    }

    /** Keep the entries that name another address. */
    method RemoveIP(ip: Addr)
      requires Valid()
      modifies this`hi, buf
      ensures Valid() && lo == old(lo) && Contents() == Preferred.RemoveIP(old(Contents()), ip)
    {
      KeepIf((e: PreferredExit) => e.publicIP != ip);
    }

    /** Make room for one more entry, in a larger buffer when the slice reaches the end. */
    method Grow()
      requires Valid()
      modifies this
      ensures Valid() && hi < buf.Length && Contents() == old(Contents())
      ensures buf == old(buf) || fresh(buf)
    {
      if hi == buf.Length {
        var n, from, before := hi - lo, lo, buf;
        var larger := new PreferredExit[2 * n + 1];
        for i := 0 to n
          invariant larger[..i] == before[from..from + i]
          invariant unchanged(this) && before[..] == old(buf[..])
          modifies larger
        {
          larger[i] := before[from + i];
        }
        buf, lo, hi := larger, 0, n;
        assert larger[0..n] == before[from..from + n];
      }
    }

    /** The position of the entry that names `ip`, or the end of the slice. */
    method Find(ip: Addr) returns (i: nat)
      requires Valid()
      ensures lo <= i <= hi && i - lo == FindIP(Contents(), ip, 0)
    {
      ghost var s := Contents();
      i := lo;
      while i < hi && buf[i].publicIP != ip
        invariant lo <= i <= hi
        invariant forall j :: 0 <= j < i - lo ==> s[j].publicIP != ip
      {
        assert buf[i] == s[i - lo];
        i := i + 1;
      }
      if i < hi { FirstWithIP(s, ip, i - lo); } else { NoneWithIP(s, ip); }
    }

    /** Record an address: in place when the ring names it already, else at the tail, with
        the oldest entries dropped beyond the bound. */
    method Remember(slotID: string, ip: Addr, until: Time, max: int)
      requires Valid()
      modifies this, buf
      ensures Valid() && Contents() == Preferred.Remember(old(Contents()), slotID, ip, until, max)
      ensures buf == old(buf) || fresh(buf)
    {
      ghost var s := Contents();
      var e := PreferredExit(slotID, ip, until);
      var bound := if max <= 0 then 8 else max;
      var i := Find(ip);
      hide FindIP;
      if i < hi {
        buf[i] := e;
        assert Contents() == s[i - lo := e];
        return;
      }
      Append(e);
      if hi - lo > bound {
        lo := hi - bound;
      }
    }

    method Append(e: PreferredExit)
      requires Valid()
      modifies this, buf
      ensures Valid() && Contents() == old(Contents()) + [e]
      ensures buf == old(buf) || fresh(buf)
    {
      ghost var s := Contents();
      Grow();
      buf[hi] := e;
      hi := hi + 1;
      assert Contents()[..|s|] == s;
    }

    /** Shift the entries after `i` one place to the front and put `i`'s entry last. */
    method MoveToEnd(i: nat)
      requires Valid() && lo <= i < hi
      modifies buf
      ensures Valid() && Contents() == MoveToTail(old(Contents()), i - lo)
    {
      ghost var s := Contents();
      var entries, from, at, last := buf, lo, i - lo, hi - lo - 1;
      var moved := entries[i];
      hide Shifted;
      assert Shifted(entries[from..from + last + 1], s, at, at) by { StartShift(s, at); }
      for k := at to last
        invariant Shifted(entries[from..from + last + 1], s, at, k)
        modifies entries
      {
        ghost var view := entries[from..from + last + 1];
        ShiftNext(view, s, at, k);
        entries[from + k] := entries[from + k + 1];
        assert entries[from..from + last + 1] == view[k := view[k + 1]];
      }
      ghost var view := entries[from..from + last + 1];
      EndShift(view, s, at);
      hide MoveToTail;
      entries[from + last] := moved;
      assert entries[from..from + last + 1] == view[last := moved];
    }

    /** Move the slot's entry behind the others, which keep their order. */
    method RotateToTail(slotID: string)
      requires Valid()
      modifies buf
      ensures Valid() && Contents() == Preferred.RotateToTail(old(Contents()), slotID)
    {
      ghost var s := Contents();
      var i := lo;
      while i < hi && (buf[i].slotID != slotID || i == hi - 1)
        invariant lo <= i <= hi
        invariant forall j :: 0 <= j < i - lo ==> s[j].slotID != slotID || j == |s| - 1
      {
        assert buf[i] == s[i - lo];
        i := i + 1;
      }
      if i == hi {
        NoneOfSlot(s, slotID);
        return;
      }
      assert buf[i] == s[i - lo];
      FirstOfSlot(s, slotID, i - lo);
      hide FindSlot;
      MoveToEnd(i);
    }
  }

  /** The entries from `at` up to `k` have moved one place to the front. */
  ghost predicate Shifted(view: seq<PreferredExit>, s: seq<PreferredExit>, at: nat, k: nat) {
    && at <= k < |s| == |view|
    && view[..at] == s[..at]
    && view[at..k] == s[at + 1..k + 1]
    && view[k + 1..] == s[k + 1..]
  }

  lemma StartShift(s: seq<PreferredExit>, at: nat)
    requires at < |s|
    ensures Shifted(s, s, at, at)
  {}

  lemma ShiftNext(view: seq<PreferredExit>, s: seq<PreferredExit>, at: nat, k: nat)
    requires Shifted(view, s, at, k) && k + 1 < |s|
    ensures |view| == |s| && Shifted(view[k := view[k + 1]], s, at, k + 1)
  {
    var next := view[k := view[k + 1]];
    assert view[k + 1] == view[k + 1..][0] == s[k + 1..][0] == s[k + 1];
    assert next[..at] == view[..at];
    assert next[at..k + 1] == view[at..k] + [s[k + 1]];
    assert next[k + 2..] == view[k + 1..][1..] && s[k + 2..] == s[k + 1..][1..];
  }

  lemma EndShift(view: seq<PreferredExit>, s: seq<PreferredExit>, at: nat)
    requires s != [] && Shifted(view, s, at, |s| - 1)
    ensures |view| == |s| && view[|s| - 1 := s[at]] == MoveToTail(s, at)
  {
    var next := view[|s| - 1 := s[at]];
    assert next == view[..at] + view[at..|s| - 1] + [s[at]];
  }

  /** One step of filtering in place: keep or skip the entry at `k`. */
  method KeepStep(entries: array<PreferredExit>, from: nat, n: nat, kept: nat, k: nat, keep: PreferredExit -> bool,
                  ghost s: seq<PreferredExit>, ghost out: seq<PreferredExit>)
                        returns (kept': nat, ghost out': seq<PreferredExit>)
    requires from + n <= entries.Length && k < n == |s| && kept == |out| <= k
    requires out == FirstKept(s, k, keep) && Holds(entries[from..from + n], out, s, k)
    modifies entries
    ensures kept' == |out'| <= k + 1 && out' == FirstKept(s, k + 1, keep)
    ensures Holds(entries[from..from + n], out', s, k + 1)
  {
    FirstStep(s, k, keep);
    hide FirstKept;
    hide Holds;
    ghost var view := entries[from..from + n];
    ReadNext(view, out, s, k);
    var e := entries[from + k];
    assert view[k] == e;
    if keep(e) {
      entries[from + kept] := e;
      assert entries[from..from + n] == view[kept := e];
      return kept + 1, out + [e];
    }
    return kept, out;
  }

  /** What filtering leaves of the first `k` entries. */
  ghost function FirstKept(s: seq<PreferredExit>, k: nat, keep: PreferredExit -> bool): seq<PreferredExit>
    requires k <= |s|
  {
    Filter(s[..k], keep)
  }

  /** The slice starts with what was kept and still holds the entries not looked at. */
  ghost predicate Holds(view: seq<PreferredExit>, out: seq<PreferredExit>, s: seq<PreferredExit>, k: nat) {
    && |out| <= k <= |s| == |view|
    && view[..|out|] == out
    && view[k..] == s[k..]
  }

  lemma StartHolds(s: seq<PreferredExit>)
    ensures Holds(s, [], s, 0)
  {}

  lemma HeldPrefix(view: seq<PreferredExit>, out: seq<PreferredExit>, s: seq<PreferredExit>, k: nat)
    requires Holds(view, out, s, k)
    ensures |out| <= |view| && view[..|out|] == out
  {}

  lemma ReadNext(view: seq<PreferredExit>, out: seq<PreferredExit>, s: seq<PreferredExit>, k: nat)
    requires Holds(view, out, s, k) && k < |s|
    ensures |out| < |view| == |s| && view[k] == s[k]
    ensures Holds(view[|out| := s[k]], out + [s[k]], s, k + 1)
    ensures Holds(view, out, s, k + 1)
  {
    assert view[k] == view[k..][0] == s[k..][0];
    assert view[k + 1..] == view[k..][1..] && s[k + 1..] == s[k..][1..];
    var next := view[|out| := s[k]];
    assert next[..|out|] == view[..|out|] && next[k + 1..] == view[k + 1..];
  }

  lemma FirstNone(s: seq<PreferredExit>, keep: PreferredExit -> bool)
    ensures FirstKept(s, 0, keep) == []
  {}

  lemma FirstAll(s: seq<PreferredExit>, keep: PreferredExit -> bool)
    ensures FirstKept(s, |s|, keep) == Filter(s, keep)
  {
    assert s[..|s|] == s;
  }

  lemma FirstStep(s: seq<PreferredExit>, k: nat, keep: PreferredExit -> bool)
    requires k < |s|
    ensures keep(s[k]) ==> FirstKept(s, k + 1, keep) == FirstKept(s, k, keep) + [s[k]]
    ensures !keep(s[k]) ==> FirstKept(s, k + 1, keep) == FirstKept(s, k, keep)
  {
    assert s[..k + 1][..k] == s[..k];
  }

  lemma FirstWithIP(s: seq<PreferredExit>, ip: Addr, k: nat)
    requires k < |s| && s[k].publicIP == ip && forall j :: 0 <= j < k ==> s[j].publicIP != ip
    ensures FindIP(s, ip, 0) == k
  {
    hide FindIP;
  }

  lemma NoneWithIP(s: seq<PreferredExit>, ip: Addr)
    requires forall j :: 0 <= j < |s| ==> s[j].publicIP != ip
    ensures FindIP(s, ip, 0) == |s|
  {
    hide FindIP;
  }

  lemma FirstOfSlot(s: seq<PreferredExit>, slotID: string, k: nat)
    requires k < |s| - 1 && s[k].slotID == slotID && forall j :: 0 <= j < k ==> s[j].slotID != slotID
    ensures FindSlot(s, slotID, 0) == k
  {
    hide FindSlot;
  }

  lemma NoneOfSlot(s: seq<PreferredExit>, slotID: string)
    requires forall j :: 0 <= j < |s| ==> s[j].slotID != slotID || j == |s| - 1
    ensures FindSlot(s, slotID, 0) == |s|
  {
    hide FindSlot;
  }
}
