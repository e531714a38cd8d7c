/** A unique-IP batch as an object: its identity, not its name, is what reservations
    remember. */
module BatchObject {
  import opened Common
  import opened Batches

  class Batch {
    /** The number of the generation this object is. */
    ghost const gen: nat
    var usedIPs: map<Addr, Time>
    var burnSeq: map<Addr, nat>
    var nextBurn: nat
    var usedSlots: set<string>
    var slotIPs: map<string, set<Addr>>
    var expiresAt: Time

    ghost function Value(): BatchState
      reads this
    {
      BatchState(gen, usedIPs, burnSeq, nextBurn, usedSlots, slotIPs, expiresAt)
    }

    constructor (ghost gen: nat, expiresAt: Time)
      ensures this.gen == gen && Value() == NewBatch(gen, expiresAt)
    {
      this.gen := gen;
      usedIPs, burnSeq, nextBurn, usedSlots, slotIPs := map[], map[], 0, {}, map[];
      this.expiresAt := expiresAt;
    }

    /** Record a burn and move the address to the back of the ring. */
    method Stamp(ip: Addr, at: Time)
      modifies this
      ensures Value() == old(Value()).Stamp(ip, at)
    {
      usedIPs := usedIPs[ip := at];
      nextBurn := nextBurn + 1;
      burnSeq := burnSeq[ip := nextBurn];
    }

    method AddIP(slotID: string, ip: Addr, at: Time)
      modifies this
      ensures Value() == old(Value()).AddIP(slotID, ip, at)
    {
      if ip == NoAddr { return; }
      var ips := if slotID in slotIPs then slotIPs[slotID] else {};
      if ip in ips { return; }
      slotIPs := slotIPs[slotID := ips + {ip}];
      Stamp(ip, at);
    }

    method Reserve(slotID: string, ip: Addr, at: Time)
      modifies this
      ensures Value() == old(Value()).Reserve(slotID, ip, at)
    {
      usedSlots := usedSlots + {slotID};
      AddIP(slotID, ip, at);
    }

    /** Some reservation owns the address. */
    method StillUsed(ip: Addr) returns (used: bool)
      ensures used <==> exists other :: other in slotIPs && ip in slotIPs[other]
    {
      used := false;
      var rest := slotIPs.Keys;
      while rest != {} && !used
        invariant rest <= slotIPs.Keys
        invariant used ==> exists other :: other in slotIPs && ip in slotIPs[other]
        invariant !used ==> forall other :: other in slotIPs && other !in rest ==> ip !in slotIPs[other]
        decreases |rest|
      {
        var other :| other in rest;
        rest := rest - {other};
        used := ip in slotIPs[other];
      }
    }

    /** Give up a slot and the addresses no other reservation owns. */
    method Release(slotID: string)
      modifies this
      ensures Value() == old(Value()).Release(slotID)
    {
      var ips := if slotID in slotIPs then slotIPs[slotID] else {};
      slotIPs := slotIPs - {slotID};
      usedSlots := usedSlots - {slotID};
      ghost var before := usedIPs;
      var rest := ips;
      while rest != {}
        invariant rest <= ips
        invariant slotIPs == old(slotIPs) - {slotID} && usedSlots == old(usedSlots) - {slotID}
        invariant burnSeq == old(burnSeq) && nextBurn == old(nextBurn) && expiresAt == old(expiresAt)
        invariant forall ip :: ip in usedIPs <==> ip in before
                                                  && !(ip in ips && ip !in rest && !OwnedBut(old(slotIPs), slotID, ip))
        invariant forall ip :: ip in usedIPs ==> usedIPs[ip] == before[ip]
        decreases |rest|
      {
        var ip :| ip in rest;
        rest := rest - {ip};
        var used := StillUsed(ip);
        OwnedWithout(old(slotIPs), slotID, ip);
        assert used <==> OwnedBut(old(slotIPs), slotID, ip);
        if !used {
          usedIPs := usedIPs - {ip};
        }
      }
      ReleasedIPs(old(Value()), slotID, usedIPs);
    }
  }

  /** Some reservation other than `slotID` owns `ip`. */
  ghost predicate OwnedBut(slotIPs: map<string, set<Addr>>, slotID: string, ip: Addr) {
    exists other :: other in slotIPs && other != slotID && ip in slotIPs[other]
  }

  lemma OwnedWithout(slotIPs: map<string, set<Addr>>, slotID: string, ip: Addr)
    ensures (exists other :: other in slotIPs - {slotID} && ip in (slotIPs - {slotID})[other]) <==>
            OwnedBut(slotIPs, slotID, ip)
  {
    if other :| other in slotIPs && other != slotID && ip in slotIPs[other] {
      assert other in slotIPs - {slotID} && ip in (slotIPs - {slotID})[other];
    }
  }

  lemma ReleasedIPs(b: BatchState, slotID: string, usedIPs: map<Addr, Time>)
    requires forall ip :: ip in usedIPs <==> ip in b.usedIPs
                                             && !(ip in b.IPsOf(slotID) && !OwnedBut(b.slotIPs, slotID, ip))
    requires forall ip :: ip in usedIPs ==> usedIPs[ip] == b.usedIPs[ip]
    ensures usedIPs == b.Release(slotID).usedIPs
  {
    forall ip ensures OwnedBut(b.slotIPs, slotID, ip) <==> b.OwnedByOther(slotID, ip) {}
  }
}
