/** Unique-IP batches: which slots and addresses one generation of a batch has
    consumed, and the burn ring an exhausted batch recycles from. */
module Batches {
  import opened Common

  /** One generation of a batch. `gen` stands for the identity of the object. */
  datatype BatchState = BatchState(
    gen: nat,
    usedIPs: map<Addr, Time>,
    burnSeq: map<Addr, nat>,
    nextBurn: nat,
    usedSlots: set<string>,
    slotIPs: map<string, set<Addr>>,
    expiresAt: Time)
  {
    /** The addresses attributed to one reservation. */
    function IPsOf(slotID: string): set<Addr> {
      if slotID in slotIPs then slotIPs[slotID] else {}
    }

    function Stamp(ip: Addr, at: Time): BatchState {
      this.(usedIPs := usedIPs[ip := at], nextBurn := nextBurn + 1, burnSeq := burnSeq[ip := nextBurn + 1])
    }

    function AddIP(slotID: string, ip: Addr, at: Time): BatchState {
      if ip == NoAddr || ip in IPsOf(slotID) then
        this
      else
        this.(slotIPs := slotIPs[slotID := IPsOf(slotID) + {ip}]).Stamp(ip, at)
    }

    function Reserve(slotID: string, ip: Addr, at: Time): BatchState {
      this.(usedSlots := usedSlots + {slotID}).AddIP(slotID, ip, at)
    }

    /** Some reservation other than `slotID` still owns `ip`. */
    predicate OwnedByOther(slotID: string, ip: Addr) {
      exists other | other in slotIPs.Keys :: other != slotID && ip in slotIPs[other]
    }

    function Release(slotID: string): BatchState {
      this.(
        slotIPs := slotIPs - {slotID},
        usedSlots := usedSlots - {slotID},
        usedIPs := map ip | ip in usedIPs.Keys && !(ip in IPsOf(slotID) && !OwnedByOther(slotID, ip)) :: usedIPs[ip])
    }

    /** Some reservation owns `ip`. */
    ghost predicate Owned(ip: Addr) {
      exists slotID :: slotID in slotIPs && ip in slotIPs[slotID]
    }

    /** The bookkeeping every operation keeps. */
    ghost predicate Valid() {
      Books() && Burns()
    }

    /** The used addresses are exactly those the reservations own. */
    ghost predicate Books() {
      && (forall ip :: ip in usedIPs <==> Owned(ip))
      && slotIPs.Keys <= usedSlots
      && NoAddr !in usedIPs
    }

    /** Burn numbers are distinct and bounded, and every used address has one. */
    ghost predicate Burns() {
      && usedIPs.Keys <= burnSeq.Keys
      && Injective(burnSeq)
      && (forall ip :: ip in burnSeq ==> 1 <= burnSeq[ip] <= nextBurn)
    }

    /** What later selections can observe, apart from burn times and burn order. */
    ghost function View(): (set<string>, map<string, set<Addr>>, set<Addr>) {
      (usedSlots, slotIPs, usedIPs.Keys)
    }
  }

  function NewBatch(gen: nat, expiresAt: Time): BatchState {
    BatchState(gen, map[], map[], 0, {}, map[], expiresAt)
  }

  lemma NewIsValid(gen: nat, expiresAt: Time)
    ensures NewBatch(gen, expiresAt).Valid()
  {}

  lemma StampKeepsValid(b: BatchState, ip: Addr, at: Time)
    requires b.Valid() && ip in b.usedIPs
    ensures b.Stamp(ip, at).Valid()
  {
    var c := b.Stamp(ip, at);
    assert forall x :: b.Owned(x) <==> c.Owned(x);
  }

  lemma AddIPKeepsValid(b: BatchState, slotID: string, ip: Addr, at: Time)
    requires b.Valid() && slotID in b.usedSlots
    ensures b.AddIP(slotID, ip, at).Valid()
    ensures ip != NoAddr ==> ip in b.AddIP(slotID, ip, at).IPsOf(slotID)
  {
    var c := b.AddIP(slotID, ip, at);
    if c != b {
      assert c.slotIPs[slotID] == b.IPsOf(slotID) + {ip};
      forall x ensures x in c.usedIPs <==> c.Owned(x) {
        if x == ip {
          assert slotID in c.slotIPs && ip in c.slotIPs[slotID];
        } else if b.Owned(x) {
          var s :| s in b.slotIPs && x in b.slotIPs[s];
          assert s in c.slotIPs && x in c.slotIPs[s];
        }
      }
    }
  }

  lemma ReserveKeepsValid(b: BatchState, slotID: string, ip: Addr, at: Time)
    requires b.Valid()
    ensures b.Reserve(slotID, ip, at).Valid()
    ensures slotID in b.Reserve(slotID, ip, at).usedSlots
    ensures ip != NoAddr ==> ip in b.Reserve(slotID, ip, at).IPsOf(slotID)
  {
    var c := b.(usedSlots := b.usedSlots + {slotID});
    assert forall x :: b.Owned(x) <==> c.Owned(x);
    AddIPKeepsValid(c, slotID, ip, at);
  }

  /** Releasing removes exactly the slot and the addresses no other slot owns. */
  lemma ReleaseKeepsValid(b: BatchState, slotID: string)
    requires b.Valid()
    ensures b.Release(slotID).Valid()
    ensures b.Release(slotID).usedSlots == b.usedSlots - {slotID}
    ensures forall other :: other != slotID ==> b.Release(slotID).IPsOf(other) == b.IPsOf(other)
    ensures forall ip :: ip in b.Release(slotID).usedIPs <==> ip in b.usedIPs && b.OwnedByOther(slotID, ip)
  {
    var c := b.Release(slotID);
    forall x ensures x in c.usedIPs <==> c.Owned(x)
      ensures x in c.usedIPs <==> x in b.usedIPs && b.OwnedByOther(slotID, x)
    {
      if c.Owned(x) {
        var s :| s in c.slotIPs && x in c.slotIPs[s];
        assert s in b.slotIPs && x in b.slotIPs[s] && s != slotID;
      }
      if b.OwnedByOther(slotID, x) {
        var s :| s in b.slotIPs.Keys && s != slotID && x in b.slotIPs[s];
        assert s in c.slotIPs && x in c.slotIPs[s];
      }
      if x in b.usedIPs && !b.OwnedByOther(slotID, x) {
        var s :| s in b.slotIPs && x in b.slotIPs[s];
        assert s == slotID;
      }
    }
  }

  // ---------------------------------------------------------------------
  // Rollback undoes a reservation, whatever happened to the batch since.

  datatype Op =
    | Reserving(slotID: string, ip: Addr, at: Time)
    | Backfilling(slotID: string, ip: Addr, at: Time)
    | Releasing(slotID: string)

  function Apply(b: BatchState, op: Op): BatchState {
    match op
    case Reserving(slotID, ip, at) => b.Reserve(slotID, ip, at)
    // A measurement reaches a batch only when the batch reserved the slot.
    case Backfilling(slotID, ip, at) => if slotID in b.usedSlots then b.AddIP(slotID, ip, at) else b
    case Releasing(slotID) => b.Release(slotID)
  }

  function ApplyAll(b: BatchState, ops: seq<Op>): BatchState
    decreases ops
  {
    if ops == [] then b else ApplyAll(Apply(b, ops[0]), ops[1..])
  }

  /** The operations that are not about `slotID`. */
  function Without(ops: seq<Op>, slotID: string): seq<Op> {
    if ops == [] then []
    else if ops[0].slotID == slotID then Without(ops[1..], slotID)
    else [ops[0]] + Without(ops[1..], slotID)
  }

  lemma ApplyKeepsValid(b: BatchState, op: Op)
    requires b.Valid()
    ensures Apply(b, op).Valid()
  {
    match op
    case Reserving(slotID, ip, at) => ReserveKeepsValid(b, slotID, ip, at);
    case Backfilling(slotID, ip, at) => if slotID in b.usedSlots { AddIPKeepsValid(b, slotID, ip, at); }
    case Releasing(slotID) => ReleaseKeepsValid(b, slotID);
  }

  /** The two batches agree on everything but `slotID`. */
  ghost predicate AgreeBut(b: BatchState, c: BatchState, slotID: string) {
    && b.usedSlots - {slotID} == c.usedSlots - {slotID}
    && b.slotIPs - {slotID} == c.slotIPs - {slotID}
  }

  lemma AddIPAgrees(b: BatchState, c: BatchState, t: string, ip: Addr, at: Time, slotID: string)
    requires AgreeBut(b, c, slotID)
    ensures t == slotID ==> AgreeBut(b.AddIP(t, ip, at), c, slotID)
    ensures t != slotID ==> AgreeBut(b.AddIP(t, ip, at), c.AddIP(t, ip, at), slotID)
  {
    if t == slotID {
      assert b.AddIP(t, ip, at).slotIPs - {slotID} == b.slotIPs - {slotID};
    } else {
      assert t in b.slotIPs <==> t in b.slotIPs - {slotID};
      assert t in c.slotIPs <==> t in c.slotIPs - {slotID};
      assert b.IPsOf(t) == c.IPsOf(t);
      var ips := b.IPsOf(t) + {ip};
      assert b.slotIPs[t := ips] - {slotID} == (b.slotIPs - {slotID})[t := ips];
      assert c.slotIPs[t := ips] - {slotID} == (c.slotIPs - {slotID})[t := ips];
    }
  }

  lemma OpsOnOthersAgree(b: BatchState, c: BatchState, op: Op, slotID: string)
    requires AgreeBut(b, c, slotID)
    ensures op.slotID == slotID ==> AgreeBut(Apply(b, op), c, slotID)
    ensures op.slotID != slotID ==> AgreeBut(Apply(b, op), Apply(c, op), slotID)
  {
    match op
    case Reserving(t, ip, at) =>
      var b', c' := b.(usedSlots := b.usedSlots + {t}), c.(usedSlots := c.usedSlots + {t});
      if t == slotID {
        assert b'.usedSlots - {slotID} == b.usedSlots - {slotID};
        AddIPAgrees(b', c, t, ip, at, slotID);
      } else {
        assert b'.usedSlots - {slotID} == (b.usedSlots - {slotID}) + {t};
        assert c'.usedSlots - {slotID} == (c.usedSlots - {slotID}) + {t};
        AddIPAgrees(b', c', t, ip, at, slotID);
      }
    case Backfilling(t, ip, at) =>
      if t != slotID {
        assert t in b.usedSlots <==> t in b.usedSlots - {slotID};
        assert t in c.usedSlots <==> t in c.usedSlots - {slotID};
      }
      AddIPAgrees(b, c, t, ip, at, slotID);
    case Releasing(t) =>
      assert b.slotIPs - {t} - {slotID} == b.slotIPs - {slotID} - {t};
      assert c.slotIPs - {t} - {slotID} == c.slotIPs - {slotID} - {t};
      assert b.usedSlots - {t} - {slotID} == b.usedSlots - {slotID} - {t};
      assert c.usedSlots - {t} - {slotID} == c.usedSlots - {slotID} - {t};
      if t == slotID {
        assert b.slotIPs - {t} - {t} == b.slotIPs - {t};
        assert b.usedSlots - {t} - {t} == b.usedSlots - {t};
      }
  }

  lemma {:induction false} OtherOpsAgree(b: BatchState, c: BatchState, ops: seq<Op>, slotID: string)
    requires b.Valid() && c.Valid() && AgreeBut(b, c, slotID)
    ensures AgreeBut(ApplyAll(b, ops), ApplyAll(c, Without(ops, slotID)), slotID)
    ensures ApplyAll(b, ops).Valid() && ApplyAll(c, Without(ops, slotID)).Valid()
    decreases ops
  {
    if ops != [] {
      OpsOnOthersAgree(b, c, ops[0], slotID);
      ApplyKeepsValid(b, ops[0]);
      if ops[0].slotID == slotID {
        OtherOpsAgree(Apply(b, ops[0]), c, ops[1..], slotID);
      } else {
        ApplyKeepsValid(c, ops[0]);
        OtherOpsAgree(Apply(b, ops[0]), Apply(c, ops[0]), ops[1..], slotID);
        assert ([ops[0]] + Without(ops[1..], slotID))[1..] == Without(ops[1..], slotID);
      }
    }
  }

  lemma {:induction false} WithoutKeepsFree(c: BatchState, ops: seq<Op>, slotID: string)
    requires c.Valid() && slotID !in c.usedSlots
    ensures slotID !in ApplyAll(c, Without(ops, slotID)).usedSlots
    decreases ops
  {
    if ops != [] {
      if ops[0].slotID == slotID {
        WithoutKeepsFree(c, ops[1..], slotID);
      } else {
        ApplyKeepsValid(c, ops[0]);
        WithoutKeepsFree(Apply(c, ops[0]), ops[1..], slotID);
        assert ([ops[0]] + Without(ops[1..], slotID))[1..] == Without(ops[1..], slotID);
      }
    }
  }

  /** Reserve a fresh slot, let any reservations, measurements and releases follow,
      and release it: what remains is what the others alone would have left. */
  lemma ReleaseUndoesReserve(b: BatchState, slotID: string, ip: Addr, at: Time, ops: seq<Op>)
    requires b.Valid() && slotID !in b.usedSlots
    ensures ApplyAll(b.Reserve(slotID, ip, at), ops).Release(slotID).View()
            == ApplyAll(b, Without(ops, slotID)).View()
  {
    var c := b.Reserve(slotID, ip, at);
    ReserveKeepsValid(b, slotID, ip, at);
    OpsOnOthersAgree(b, b, Reserving(slotID, ip, at), slotID);
    OtherOpsAgree(c, b, ops, slotID);
    WithoutKeepsFree(b, ops, slotID);
    ReleaseErases(ApplyAll(c, ops), ApplyAll(b, Without(ops, slotID)), slotID);
  }

  lemma ReleaseErases(d: BatchState, e: BatchState, slotID: string)
    requires d.Valid() && e.Valid() && AgreeBut(d, e, slotID) && slotID !in e.usedSlots
    ensures d.Release(slotID).View() == e.View()
  {
    ReleaseKeepsValid(d, slotID);
    var r := d.Release(slotID);
    assert e.slotIPs - {slotID} == e.slotIPs;
    assert r.slotIPs == e.slotIPs;
    assert e.usedSlots - {slotID} == e.usedSlots;
    forall x ensures x in r.usedIPs.Keys <==> x in e.usedIPs.Keys {
      assert r.Owned(x) <==> e.Owned(x);
    }
    assert r.usedIPs.Keys == e.usedIPs.Keys;
  }

  // ---------------------------------------------------------------------
  // The burn ring.

  /** One slot that may be recycled, with its current address. */
  datatype Candidate = Candidate(slotID: string, ip: Addr)

  function BurnOf(b: BatchState, ip: Addr): nat {
    if ip in b.burnSeq then b.burnSeq[ip] else 0
  }

  /** The first candidate with the oldest burn among the first `n`. */
  function OldestIn(b: BatchState, cands: seq<Candidate>, n: nat): (best: Option<nat>)
    requires n <= |cands|
    ensures best.Some? ==> best.value < n && cands[best.value].ip in b.usedIPs
    ensures best.Some? ==> forall i :: 0 <= i < n && cands[i].ip in b.usedIPs ==>
                                         BurnOf(b, cands[best.value].ip) <= BurnOf(b, cands[i].ip)
    ensures best.None? ==> forall i :: 0 <= i < n ==> cands[i].ip !in b.usedIPs
  {
    if n == 0 then None
    else
      var prev := OldestIn(b, cands, n - 1);
      var ip := cands[n - 1].ip;
      if ip !in b.usedIPs then prev
      else if prev.None? || BurnOf(b, ip) < BurnOf(b, cands[prev.value].ip) then Some(n - 1)
      else prev
  }

  /** The candidate addresses this batch has burned. */
  ghost function Burned(b: BatchState, cands: seq<Candidate>): set<Addr> {
    set i | 0 <= i < |cands| && cands[i].ip in b.usedIPs :: cands[i].ip
  }

  /** A recycled pick moves the address to the back of the ring, then reserves. */
  function Recycle(b: BatchState, c: Candidate, at: Time): BatchState {
    b.Stamp(c.ip, at).Reserve(c.slotID, c.ip, at)
  }

  lemma {:induction false} OldestExists(b: BatchState, addrs: set<Addr>)
    requires addrs != {}
    ensures exists ip :: ip in addrs && forall other :: other in addrs ==> BurnOf(b, ip) <= BurnOf(b, other)
  {
    var x :| x in addrs;
    var rest := addrs - {x};
    if rest != {} {
      OldestExists(b, rest);
      var y :| y in rest && forall other :: other in rest ==> BurnOf(b, y) <= BurnOf(b, other);
      var z := if BurnOf(b, x) <= BurnOf(b, y) then x else y;
      assert z in addrs && forall other :: other in addrs ==> BurnOf(b, z) <= BurnOf(b, other);
    } else {
      assert addrs == {x};
    }
  }

  /** The addresses in the order they were burned, oldest first. */
  ghost function RingOf(b: BatchState, addrs: set<Addr>): (ring: seq<Addr>)
    ensures |ring| == |addrs|
    ensures forall ip :: ip in ring <==> ip in addrs
    ensures Distinct(ring)
    ensures forall i, j :: 0 <= i < j < |ring| ==> BurnOf(b, ring[i]) <= BurnOf(b, ring[j])
  {
    if addrs == {} then []
    else
      OldestExists(b, addrs);
      var ip :| ip in addrs && forall other :: other in addrs ==> BurnOf(b, ip) <= BurnOf(b, other);
      [ip] + RingOf(b, addrs - {ip})
  }

  /** `ring` lists the burned candidate addresses, strictly oldest first. */
  ghost predicate IsRing(b: BatchState, cands: seq<Candidate>, ring: seq<Addr>) {
    && (forall ip :: ip in ring <==> ip in Burned(b, cands))
    && StrictlyOlder(b, ring)
  }

  ghost predicate StrictlyOlder(b: BatchState, ring: seq<Addr>) {
    forall i, j :: 0 <= i < j < |ring| ==> BurnOf(b, ring[i]) < BurnOf(b, ring[j])
  }

  lemma RingIsStrict(b: BatchState, addrs: set<Addr>)
    requires b.Burns() && addrs <= b.usedIPs.Keys
    ensures StrictlyOlder(b, RingOf(b, addrs))
  {
    hide RingOf;
    var ring := RingOf(b, addrs);
    forall i, j | 0 <= i < j < |ring| ensures BurnOf(b, ring[i]) < BurnOf(b, ring[j]) {
      assert BurnOf(b, ring[i]) <= BurnOf(b, ring[j]);
      assert ring[i] in addrs && ring[j] in addrs;
      DifferentBurns(b, ring[i], ring[j]);
    }
  }

  lemma DifferentBurns(b: BatchState, x: Addr, y: Addr)
    requires b.Burns() && x in b.usedIPs && y in b.usedIPs && x != y
    ensures BurnOf(b, x) != BurnOf(b, y)
  {}

  /** The oldest candidate holds the address at the head of the ring. */
  lemma OldestIsHead(b: BatchState, cands: seq<Candidate>, ring: seq<Addr>)
    requires IsRing(b, cands, ring) && ring != []
    ensures OldestIn(b, cands, |cands|).Some?
    ensures cands[OldestIn(b, cands, |cands|).value].ip == ring[0]
  {
    assert ring[0] in Burned(b, cands);
    var i :| 0 <= i < |cands| && cands[i].ip == ring[0];
    var best := OldestIn(b, cands, |cands|);
    var ip := cands[best.value].ip;
    assert ip in Burned(b, cands);
    var k :| 0 <= k < |ring| && ring[k] == ip;
    assert BurnOf(b, ip) <= BurnOf(b, ring[0]);
  }

  /** Stamping the head turns the ring by one. */
  lemma StampTurnsRing(b: BatchState, cands: seq<Candidate>, ring: seq<Addr>, at: Time)
    requires b.Burns() && IsRing(b, cands, ring) && ring != []
    ensures b.Stamp(ring[0], at).Burns()
    ensures IsRing(b.Stamp(ring[0], at), cands, ring[1..] + [ring[0]])
  {
    var d := b.Stamp(ring[0], at);
    assert ring[0] in Burned(b, cands);
    assert d.usedIPs.Keys == b.usedIPs.Keys;
    assert Burned(d, cands) == Burned(b, cands);
    var turned := ring[1..] + [ring[0]];
    forall x ensures x in turned <==> x in ring {
      assert ring == [ring[0]] + ring[1..];
    }
    forall p | 0 < p < |ring|
      ensures BurnOf(d, ring[p]) == BurnOf(b, ring[p]) < BurnOf(d, ring[0])
    {
      assert ring[p] in Burned(b, cands);
      assert BurnOf(b, ring[0]) < BurnOf(b, ring[p]);
    }
    forall p, q | 0 <= p < q < |turned| ensures BurnOf(d, turned[p]) < BurnOf(d, turned[q]) {
      assert turned[p] == ring[p + 1];
    }
  }

  /** Reserving an address that was stamped last leaves the ring as it is. */
  lemma ReserveKeepsRing(b: BatchState, cands: seq<Candidate>, ring: seq<Addr>, slotID: string, at: Time)
    requires b.Burns() && IsRing(b, cands, ring) && ring != []
    requires forall ip :: ip in b.burnSeq ==> b.burnSeq[ip] <= BurnOf(b, ring[|ring| - 1])
    ensures IsRing(b.Reserve(slotID, ring[|ring| - 1], at), cands, ring)
  {
    var last := ring[|ring| - 1];
    assert last in Burned(b, cands);
    var d := b.Reserve(slotID, last, at);
    assert d.usedIPs.Keys == b.usedIPs.Keys;
    assert Burned(d, cands) == Burned(b, cands);
    forall i, j | 0 <= i < j < |ring| ensures BurnOf(d, ring[i]) < BurnOf(d, ring[j]) {
      assert ring[i] in Burned(b, cands);
      assert BurnOf(b, ring[i]) < BurnOf(b, ring[j]) && ring[i] != last;
    }
  }

  /** One recycled pick returns the head of the ring and turns the ring by one. */
  lemma RecycleRotates(b: BatchState, cands: seq<Candidate>, ring: seq<Addr>, at: Time)
    requires b.Valid() && IsRing(b, cands, ring) && ring != []
    ensures var best := OldestIn(b, cands, |cands|);
            && best.Some? && cands[best.value].ip == ring[0]
            && Recycle(b, cands[best.value], at).Valid()
            && IsRing(Recycle(b, cands[best.value], at), cands, ring[1..] + [ring[0]])
  {
    OldestIsHead(b, cands, ring);
    var c := cands[OldestIn(b, cands, |cands|).value];
    var s := b.Stamp(c.ip, at);
    StampKeepsValid(b, c.ip, at);
    StampTurnsRing(b, cands, ring, at);
    ReserveKeepsRing(s, cands, ring[1..] + [ring[0]], c.slotID, at);
    ReserveKeepsValid(s, c.slotID, c.ip, at);
  }
}
