/** Unique batches over whole runs: the bookkeeping of every stored generation, and the
    uniqueness of what a generation grants. */
module BatchRuns {
  import opened Common
  import opened PolicyTypes
  import opened Batches
  import opened Preferred
  import opened PoolState
  import opened Selection
  import opened PoolSystem
  import opened WellFormed

  // ---------------------------------------------------------------------
  // Bookkeeping and backfill.

  /** A consumed member's current address is recorded with it. */
  ghost predicate BackfilledIn(p: Pool, b: BatchState) {
    forall id :: id in b.usedSlots && id in p.slots && p.Slot(id).publicIP != NoAddr ==>
        p.Slot(id).publicIP in b.IPsOf(id)
  }

  /** A stored generation keeps exact books, is not empty, and is backfilled. */
  ghost predicate FineIn(p: Pool, b: BatchState) {
    b.Valid() && b.usedSlots != {} && BackfilledIn(p, b)
  }

  ghost predicate BatchesFine(p: Pool) {
    && (forall n :: n in p.batches ==> FineIn(p, p.batches[n]))
    && |p.batches| <= p.opts.maxUniqueBatches
  }

  /** The same members with the same addresses. */
  ghost predicate SameIPs(p: Pool, q: Pool) {
    && q.opts == p.opts && q.slots == p.slots
    && forall id :: id in p.slots ==> q.Slot(id).publicIP == p.Slot(id).publicIP
  }

  lemma SubsetSize(a: set<string>, b: set<string>)
    requires a <= b
    ensures |a| <= |b|
  {
    assert b == a + (b - a);
  }

  /** Generations only disappear, or keep what they consumed. */
  ghost predicate Inherits(p: Pool, q: Pool) {
    && p.nextGen <= q.nextGen
    && forall n :: n in q.batches ==> n in p.batches && KeepsConsumed(p.batches[n], q.batches[n])
  }

  ghost predicate KeepsConsumed(b: BatchState, c: BatchState) {
    && c.gen == b.gen
    && b.usedSlots <= c.usedSlots
    && forall id :: b.IPsOf(id) <= c.IPsOf(id)
  }

  lemma BurnsKeepConsumed(b: BatchState, c: BatchState)
    requires SameButBurns(b, c)
    ensures KeepsConsumed(b, c) && c.usedSlots == b.usedSlots && c.slotIPs == b.slotIPs
  {}

  lemma AddIPKeepsConsumed(b: BatchState, slotID: string, ip: Addr, now: Time)
    ensures KeepsConsumed(b, b.AddIP(slotID, ip, now)) && b.AddIP(slotID, ip, now).usedSlots == b.usedSlots
    ensures ip != NoAddr ==> ip in b.AddIP(slotID, ip, now).IPsOf(slotID)
  {}

  lemma ReserveKeepsConsumed(b: BatchState, slotID: string, ip: Addr, now: Time)
    ensures KeepsConsumed(b, b.Reserve(slotID, ip, now))
    ensures b.Reserve(slotID, ip, now).usedSlots == b.usedSlots + {slotID}
    ensures ip != NoAddr ==> ip in b.Reserve(slotID, ip, now).IPsOf(slotID)
  {
    AddIPKeepsConsumed(b.(usedSlots := b.usedSlots + {slotID}), slotID, ip, now);
  }

  lemma ReleaseKeepsOthers(b: BatchState, slotID: string)
    ensures b.Release(slotID).gen == b.gen && b.Release(slotID).usedSlots == b.usedSlots - {slotID}
    ensures forall id :: id != slotID ==> b.Release(slotID).IPsOf(id) == b.IPsOf(id)
  {}

  // ---------------------------------------------------------------------
  // Steps and the books.

  lemma UntouchedBatches(p: Pool, q: Pool)
    requires BatchesFine(p) && SameIPs(p, q) && q.batches == p.batches
    ensures BatchesFine(q)
  {
    forall n | n in q.batches ensures FineIn(q, q.batches[n]) {
      assert FineIn(p, p.batches[n]);
      SameIPsFine(p, q, p.batches[n]);
    }
  }

  lemma SameIPsFine(p: Pool, q: Pool, b: BatchState)
    requires SameIPs(p, q) && FineIn(p, b)
    ensures FineIn(q, b)
  {
    hide BatchState.Valid;
  }

  lemma MildIPs(p: Pool, q: Pool, now: Time)
    requires p.Wf() && Mild(p, q, now)
    ensures SameIPs(p, q)
  {
    hide MildBatches;
    hide MildCooldowns;
    hide RingsValid;
    forall id | id in p.slots ensures q.Slot(id).publicIP == p.Slot(id).publicIP {
      assert SameButTunnel(p.states[p.slots[id]], q.states[p.slots[id]], now);
    }
  }

  lemma MildBooks(p: Pool, q: Pool, now: Time)
    requires p.Wf() && Mild(p, q, now) && BatchesFine(p)
    ensures BatchesFine(q) && Inherits(p, q)
  {
    MildIPs(p, q, now);
    hide MildStates;
    hide MildCooldowns;
    hide RingsValid;
    hide Pool.Wf;
    hide BatchState.Valid;
    SubsetSize(q.batches.Keys, p.batches.Keys);
    forall n | n in q.batches ensures FineIn(q, q.batches[n]) && KeepsConsumed(p.batches[n], q.batches[n]) {
      assert SameButBurns(p.batches[n], q.batches[n]);
      assert FineIn(p, p.batches[n]);
      BurnsFine(p, q, p.batches[n], q.batches[n]);
      hide SameButBurns;
      hide FineIn;
    }
  }

  lemma BurnsFine(p: Pool, q: Pool, b: BatchState, c: BatchState)
    requires SameIPs(p, q) && FineIn(p, b) && SameButBurns(b, c)
    ensures FineIn(q, c) && KeepsConsumed(b, c)
  {
    BurnsKeepConsumed(b, c);
  }

  lemma EnteredIsFine(p: Pool, pol: Policy, now: Time)
    requires BatchesFine(p)
    ensures EnteredBatch(p, pol, now).Valid() && BackfilledIn(p, EnteredBatch(p, pol, now))
    ensures Renews(p, pol.uniqueBatch, now) ==> EnteredBatch(p, pol, now).gen == p.nextGen
                                                && EnteredBatch(p, pol, now).usedSlots == {}
    ensures !Renews(p, pol.uniqueBatch, now) ==>
            pol.uniqueBatch in p.batches && KeepsConsumed(p.batches[pol.uniqueBatch], EnteredBatch(p, pol, now))
  {
    NewIsValid(p.nextGen, now + BatchTTL(p, pol));
    if !Renews(p, pol.uniqueBatch, now) {
      var b := p.batches[pol.uniqueBatch];
      assert FineIn(p, b);
      MovedExpiryIsValid(b, now + BatchTTL(p, pol));
    }
    hide BatchState.Valid;
  }

  lemma MovedExpiryIsValid(b: BatchState, at: Time)
    requires b.Valid()
    ensures b.(expiresAt := at).Valid()
  {
    assert forall ip :: b.Owned(ip) <==> b.(expiresAt := at).Owned(ip);
  }

  lemma ReservedBooks(p: Pool, pol: Policy, h: Handle, now: Time)
    requires p.Wf() && p.IsMember(h) && BatchesFine(p) && Refusal(p, pol, now).None?
    ensures BatchesFine(Reserved(p, pol, h, now))
  {
    hide Pool.Wf;
    hide FineIn;
    var q := Reserved(p, pol, h, now);
    ReservedIPs(p, pol, h, now);
    if pol.uniqueBatch == "" {
      ReservedNoBatch(p, pol, h, now);
      hide Reserved;
      hide Refusal;
      UntouchedBatches(p, q);
    } else {
      ReservedBatches(p, pol, h, now);
      ReservedSize(p, pol, h, now);
      hide Reserved;
      hide Refusal;
      ReservedFine(p, q, pol, h, now);
      hide EnteredBatch;
      hide BatchState.Reserve;
      forall n | n in q.batches ensures FineIn(q, q.batches[n]) {
        if n != pol.uniqueBatch {
          assert FineIn(p, p.batches[n]);
          SameIPsFine(p, q, p.batches[n]);
        }
      }
    }
  }

  lemma ReservedFine(p: Pool, q: Pool, pol: Policy, h: Handle, now: Time)
    requires p.IsMember(h) && BatchesFine(p) && SameIPs(p, q)
    ensures FineIn(q, EnteredBatch(p, pol, now).Reserve(p.At(h).spec.id, p.At(h).publicIP, now))
  {
    EnteredIsFine(p, pol, now);
    hide BatchesFine;
    var id, ip := p.At(h).spec.id, p.At(h).publicIP;
    var b := EnteredBatch(p, pol, now);
    hide EnteredBatch;
    hide Renews;
    ReserveKeepsValid(b, id, ip, now);
    ReserveKeepsConsumed(b, id, ip, now);
    hide BatchState.Valid;
    hide BatchState.Reserve;
    hide BackfilledIn;
    ReservedBackfilled(p, q, b, h, id, ip, now);
  }

  lemma ReservedBackfilled(p: Pool, q: Pool, b: BatchState, h: Handle, id: string, ip: Addr, now: Time)
    requires p.IsMember(h) && id == p.At(h).spec.id && ip == p.At(h).publicIP
    requires SameIPs(p, q) && BackfilledIn(p, b)
    requires KeepsConsumed(b, b.Reserve(id, ip, now)) && b.Reserve(id, ip, now).usedSlots == b.usedSlots + {id}
    requires ip != NoAddr ==> ip in b.Reserve(id, ip, now).IPsOf(id)
    ensures BackfilledIn(q, b.Reserve(id, ip, now))
  {
    hide BatchState.Reserve;
    var c := b.Reserve(id, ip, now);
    forall k | k in c.usedSlots && k in q.slots
        && q.Slot(k).publicIP != NoAddr ensures q.Slot(k).publicIP in c.IPsOf(k) {
      if k == id {
        assert q.slots[id] == h;
      } else {
        assert k in b.usedSlots && b.IPsOf(k) <= c.IPsOf(k);
      }
    }
  }

  lemma ReservedIPs(p: Pool, pol: Policy, h: Handle, now: Time)
    ensures SameIPs(p, Reserved(p, pol, h, now))
  {}

  lemma ReservedNoBatch(p: Pool, pol: Policy, h: Handle, now: Time)
    requires pol.uniqueBatch == ""
    ensures Reserved(p, pol, h, now).batches == p.batches && Reserved(p, pol, h, now).nextGen == p.nextGen
  {}

  lemma ReservedBatches(p: Pool, pol: Policy, h: Handle, now: Time)
    requires pol.uniqueBatch != ""
    ensures Reserved(p, pol, h, now).batches
            == p.batches[pol.uniqueBatch := EnteredBatch(p, pol, now).Reserve(p.At(h).spec.id, p.At(h).publicIP, now)]
    ensures Reserved(p, pol, h, now).nextGen == if Renews(p, pol.uniqueBatch, now) then p.nextGen + 1 else p.nextGen
  {}

  /** A renewed generation is only admitted below the limit. */
  lemma ReservedSize(p: Pool, pol: Policy, h: Handle, now: Time)
    requires pol.uniqueBatch != "" && Refusal(p, pol, now).None? && |p.batches| <= p.opts.maxUniqueBatches
    ensures |Reserved(p, pol, h, now).batches| <= p.opts.maxUniqueBatches
  {
    ReservedBatches(p, pol, h, now);
    var name := pol.uniqueBatch;
    assert Renews(p, name, now) ==> |p.batches - {name}| < p.opts.maxUniqueBatches;
    assert !Renews(p, name, now) ==> name in p.batches;
    var q := Reserved(p, pol, h, now);
    hide Reserved;
    hide EnteredBatch;
    hide Refusal;
    hide Renews;
    PutSize(p.batches, name, q.batches[name]);
  }

  lemma PutSize<V>(m: map<string, V>, name: string, b: V)
    ensures |m[name := b]| == |m - {name}| + 1
    ensures name in m ==> |m[name := b]| == |m|
  {
    assert (m - {name}).Keys == m.Keys - {name};
    assert m[name := b].Keys == (m.Keys - {name}) + {name};
    assert name in m ==> m[name := b].Keys == m.Keys;
  }

  lemma ReleasedFine(p: Pool, q: Pool, b: BatchState, slotID: string)
    requires FineIn(p, b) && SameIPs(p, q)
    ensures b.Release(slotID).usedSlots != {} ==> FineIn(q, b.Release(slotID))
  {
    ReleaseKeepsValid(b, slotID);
    ReleaseKeepsOthers(b, slotID);
    hide BatchState.Release;
    hide BatchState.Valid;
    var c := b.Release(slotID);
    forall k | k in c.usedSlots && k in q.slots
        && q.Slot(k).publicIP != NoAddr ensures q.Slot(k).publicIP in c.IPsOf(k) {
      assert k in b.usedSlots && k != slotID;
    }
  }

  lemma RollbackIPs(p: Pool, r: Reservation)
    ensures SameIPs(p, Rollback(p, r))
    ensures Rollback(p, r).batches == if r.batch.Some? && StillStored(p, r.batch.value)
                                      then ReleaseIn(p.batches, r.batch.value.name, r.batch.value.slotID) else p.batches
    ensures Rollback(p, r).nextGen == p.nextGen
  {
    hide ReleaseIn;
  }

  lemma RollbackBooks(p: Pool, r: Reservation)
    requires BatchesFine(p)
    ensures BatchesFine(Rollback(p, r))
  {
    RollbackIPs(p, r);
    hide Rollback;
    var q := Rollback(p, r);
    assert q.opts == p.opts;
    hide FineIn;
    hide SameIPs;
    hide BatchState.Release;
    SubsetSize(q.batches.Keys, p.batches.Keys);
    forall n | n in q.batches ensures FineIn(q, q.batches[n]) {
      assert FineIn(p, p.batches[n]);
      SameIPsFine(p, q, p.batches[n]);
      if q.batches[n] != p.batches[n] {
        ReleasedFine(p, q, p.batches[n], r.batch.value.slotID);
      }
    }
  }

  lemma PunishIPs(p: Pool, id: string, c: Complaint, now: Time)
    requires id in p.slots
    ensures SameIPs(p, Punish(p, id, c, now)) && Punish(p, id, c, now).batches == ReleaseEverywhere(p.batches, id)
    ensures Punish(p, id, c, now).nextGen == p.nextGen
  {
    hide ReleaseEverywhere;
    hide Cooled;
    hide Unpreferred;
  }

  lemma PunishBooks(p: Pool, id: string, c: Complaint, now: Time)
    requires BatchesFine(p) && id in p.slots
    ensures BatchesFine(Punish(p, id, c, now))
  {
    PunishIPs(p, id, c, now);
    hide Punish;
    var q := Punish(p, id, c, now);
    assert q.opts == p.opts;
    hide FineIn;
    hide SameIPs;
    hide BatchState.Release;
    SubsetSize(q.batches.Keys, p.batches.Keys);
    forall n | n in q.batches ensures FineIn(q, q.batches[n]) {
      assert FineIn(p, p.batches[n]);
      SameIPsFine(p, q, p.batches[n]);
      ReleasedFine(p, q, p.batches[n], id);
    }
  }

  lemma MeasuredIPs(p: Pool, h: Handle, ip: Addr, checkedAt: Time, probed: bool, now: Time)
    requires p.Wf() && h in p.states
    ensures var q := Measure(p, h, ip, checkedAt, probed, now);
            && q.opts == p.opts && q.slots == p.slots && q.nextGen == p.nextGen
            && (forall id :: id in p.slots ==> q.Slot(id).publicIP == if p.slots[id] == h then ip
                else p.Slot(id).publicIP)
            && (forall id :: id in p.slots && p.slots[id] == h ==> p.At(h).spec.id == id)
            && q.batches == map n | n in p.batches.Keys && !(now > p.batches[n].expiresAt) ::
                Backfilled(p.batches[n], p.At(h).spec.id, ip, now)
  {
    hide Backfilled;
  }

  lemma MeasureBooks(p: Pool, h: Handle, ip: Addr, checkedAt: Time, probed: bool, now: Time)
    requires p.Wf() && h in p.states && BatchesFine(p)
    ensures BatchesFine(Measure(p, h, ip, checkedAt, probed, now))
            && Inherits(p, Measure(p, h, ip, checkedAt, probed, now))
  {
    MeasuredIPs(p, h, ip, checkedAt, probed, now);
    hide Measure;
    hide Pool.Wf;
    var q := Measure(p, h, ip, checkedAt, probed, now);
    var id := p.At(h).spec.id;
    SubsetSize(q.batches.Keys, p.batches.Keys);
    forall n | n in q.batches ensures FineIn(q, q.batches[n]) && KeepsConsumed(p.batches[n], q.batches[n]) {
      assert FineIn(p, p.batches[n]);
      BackfillOne(p, q, p.batches[n], h, id, ip, now);
      hide FineIn;
      hide Backfilled;
    }
  }

  lemma BackfillOne(p: Pool, q: Pool, b: BatchState, h: Handle, id: string, ip: Addr, now: Time)
    requires FineIn(p, b) && q.slots == p.slots
    requires forall k :: k in p.slots ==> q.Slot(k).publicIP == if p.slots[k] == h then ip else p.Slot(k).publicIP
    requires forall k :: k in p.slots && p.slots[k] == h ==> k == id
    ensures FineIn(q, Backfilled(b, id, ip, now)) && KeepsConsumed(b, Backfilled(b, id, ip, now))
  {
    if id in b.usedSlots { AddIPKeepsValid(b, id, ip, now); }
    AddIPKeepsConsumed(b, id, ip, now);
    hide BatchState.AddIP;
    hide BatchState.Valid;
    var c := Backfilled(b, id, ip, now);
    forall k | k in c.usedSlots && k in q.slots
        && q.Slot(k).publicIP != NoAddr ensures q.Slot(k).publicIP in c.IPsOf(k) {
      assert b.IPsOf(k) <= c.IPsOf(k);
      if q.slots[k] == h { assert k == id; }
    }
  }

  lemma ReconciledBooks(p: Pool, q: Pool)
    requires p.Wf() && Reconciled(p, q) && q.Wf() && BatchesFine(p)
    ensures BatchesFine(q)
  {
    hide BatchState.Valid;
    forall n | n in q.batches ensures FineIn(q, q.batches[n]) {
      assert FineIn(p, p.batches[n]);
      forall id | id in q.batches[n].usedSlots && id in q.slots && q.Slot(id).publicIP != NoAddr
        ensures q.Slot(id).publicIP in q.batches[n].IPsOf(id)
      {
        ReconciledIP(p, q, id);
      }
    }
  }

  /** A name kept across the swap keeps its measured address; a new one has none. */
  lemma ReconciledIP(p: Pool, q: Pool, id: string)
    requires p.Wf() && Reconciled(p, q) && q.Wf() && id in q.slots
    ensures id in p.slots ==> q.Slot(id).publicIP == p.Slot(id).publicIP
    ensures id !in p.slots ==> q.Slot(id).publicIP == NoAddr
  {
    var h := q.slots[id];
    assert h in q.states;
    if id in p.slots {
      assert h == p.slots[id] && h in p.states && Respecced(p.states[h], q.states[h]);
    } else {
      assert h !in p.states && FreshRelay(p, q, h);
    }
  }

  // ---------------------------------------------------------------------
  // The steps that leave every batch alone.

  predicate LeavesBatches(step: Step) {
    !step.Picking? && !step.RollingBack? && !step.Reporting? && !step.Measuring? && !step.Housekeeping?
        && !step.Saving? && !step.Reconciling?
  }

  ghost predicate SameBatches(p: Pool, q: Pool) {
    SameIPs(p, q) && q.batches == p.batches && q.nextGen == p.nextGen
  }

  lemma LeaseBatches(p: Pool, r: Reservation, pol: Policy, h: Handle, now: Time)
    ensures SameBatches(p, Establish(p, r, pol, now)) && SameBatches(p, ReleaseLease(p, h, now))
  {
    hide Unhold;
  }

  lemma FailureBatches(p: Pool, h: Handle, name: string, now: Time)
    requires h in p.states
    ensures SameBatches(p, NoteFailure(p, h, now)) && SameBatches(p, DropSession(p, name))
  {
    hide Backoff;
  }

  lemma PraiseBatches(p: Pool, praise: Praise, scope: string, e: PreferredExit, ip: Addr, until: Time, now: Time)
    ensures SameBatches(p, Prefer(p, praise, now).0) && SameBatches(p, RestorePreference(p, scope, e, now))
    ensures SameBatches(p, RestoreCooldown(p, scope, ip, until, now))
  {
    hide Remember;
    hide Cooled;
  }

  lemma OpeningBatches(p: Pool, t: TunnelOf, victim: Handle, now: Time)
    requires p.Wf() && MayOpen(p, t)
    ensures SameBatches(p, OpenTunnel(p, t, victim, now))
  {
    hide Mild;
    hide BeginOpen;
    hide ReserveCapacity;
    hide BudgetAvailable;
    hide Pool.Wf;
    hide MarkOpening;
    BeginShape(p, victim, now);
    CapacityIsMild(p, victim, now);
    var q, b := ReserveCapacity(p, victim).0, BeginOpen(p, now, victim).0;
    MildIPs(p, q, now);
    MarkBatches(b, t);
    assert SameBatches(p, b);
  }

  lemma MarkBatches(p: Pool, t: TunnelOf)
    requires MayOpen(p, t) || TunnelExists(p, t)
    ensures SameBatches(p, MarkOpening(p, t, true))
  {}

  lemma TunnelBatches(p: Pool, t: TunnelOf, ok: bool, now: Time)
    requires p.Wf() && TunnelExists(p, t)
    ensures SameBatches(p, MarkOpening(p, t, ok)) && SameBatches(p, FinishOpen(p, t, ok, now))
    ensures SameBatches(p, RollbackOpen(p)) && SameBatches(p, CommitOpen(p, now))
  {
    hide Backoff;
    hide Pool.Wf;
  }

  lemma EntryBatches(p: Pool, i: nat, now: Time)
    requires i < |p.entries|
    ensures SameBatches(p, FailEntry(p, i, now))
  {
    hide Backoff;
  }

  lemma CountingBatches(p: Pool, h: Handle, now: Time)
    ensures SameBatches(p, TrimOpens(p, now)) && (h in p.states ==> SameBatches(p, CountFailure(p, h)))
  {
  }

  lemma QuietBatches(s: System, step: Step)
    requires Base(s) && Enabled(s, step) && LeavesBatches(step)
    ensures SameBatches(s.pool, PoolAfter(s, step))
  {
    hide Pick;
    hide Establish;
    hide Rollback;
    hide ReleaseLease;
    hide NoteFailure;
    hide DropSession;
    hide Report;
    hide Prefer;
    hide Measure;
    hide RestorePreference;
    hide RestoreCooldown;
    hide Housekeep;
    hide Expire;
    hide Reconcile;
    hide OpenTunnel;
    hide RollbackOpen;
    hide MarkOpening;
    hide CommitOpen;
    hide FinishOpen;
    hide FailEntry;
    hide CountFailure;
    hide TrimOpens;
    hide SameBatches;
    hide Pool.Wf;
    var p := s.pool;
    var noExit, noPraise := PreferredExit("", NoAddr, ZERO_TIME), Praise("", NoAddr, "", 0);
    match step
    case Establishing(id, now) => LeaseBatches(p, s.inflight[id].reservation, s.inflight[id].pol, 0, now);
    case Releasing(id, now) => LeaseBatches(p, Reservation(None, "", 0), EMPTY_POLICY, s.leases[id], now);
    case FailingSlot(h, now) => FailureBatches(p, h, "", now);
    case DroppingSession(name) => DropBatches(p, name);
    case Preferring(c, now) => PraiseBatches(p, c, "", noExit, NoAddr, ZERO_TIME, now);
    case RestoringPreference(scope, e, now) => PraiseBatches(p, noPraise, scope, e, NoAddr, ZERO_TIME, now);
    case RestoringCooldown(scope, ip, until, now) => PraiseBatches(p, noPraise, scope, noExit, ip, until, now);
    case Opening(t, victim, now) => OpeningBatches(p, t, victim, now);
    case CallingOff(_) => TunnelBatches(p, ProbeTunnel, false, ZERO_TIME);
    case Abandoning(id) => TunnelBatches(p, s.openers[id].tunnel, false, ZERO_TIME);
    case Charging(_, now) => TunnelBatches(p, ProbeTunnel, false, now);
    case Opened(id, ok, now) => TunnelBatches(p, s.openers[id].tunnel, ok, now);
    case ClosingProbe(_) => TunnelBatches(p, ProbeTunnel, false, ZERO_TIME);
    case FailingEntry(i, now) => EntryBatches(p, i, now);
    case FailingProbe(h) => CountingBatches(p, h, ZERO_TIME);
    case Trimming(now) => CountingBatches(p, 0, now);
  }

  lemma DropBatches(p: Pool, name: string)
    ensures SameBatches(p, DropSession(p, name))
  {}

  lemma HousekeepIPs(p: Pool, now: Time)
    requires p.Wf()
    ensures SameIPs(Expire(p, now), Housekeep(p, now)) && Housekeep(p, now).batches == Expire(p, now).batches
    ensures Housekeep(p, now).nextGen == Expire(p, now).nextGen
  {
    hide IdleTooLong;
    ExpireIsMild(p, now);
    MildKeepsWf(p, Expire(p, now), now);
    hide Expire;
    hide Mild;
  }

  lemma ExpiryBooks(p: Pool, now: Time)
    requires p.Wf() && BatchesFine(p)
    ensures BatchesFine(Expire(p, now)) && BatchesFine(Housekeep(p, now))
  {
    hide Expire;
    hide Housekeep;
    hide BatchesFine;
    ExpireIsMild(p, now);
    MildBooks(p, Expire(p, now), now);
    HousekeepIPs(p, now);
    UntouchedBatches(Expire(p, now), Housekeep(p, now));
  }

  lemma ReconcileBooks(p: Pool, specs: seq<Spec>, done: set<string>)
    requires p.Wf() && BatchesFine(p)
    ensures BatchesFine(Reconcile(p, specs, done).0)
  {
    hide Reconcile;
    hide BatchesFine;
    ReconcileKeeps(p, specs, done);
    ReconciledBooks(p, Reconcile(p, specs, done).0);
  }

  lemma BooksStep(s: System, step: Step)
    requires Base(s) && Enabled(s, step) && BatchesFine(s.pool)
    ensures BatchesFine(PoolAfter(s, step))
  {
    hide Pick;
    hide Establish;
    hide Rollback;
    hide ReleaseLease;
    hide NoteFailure;
    hide DropSession;
    hide Report;
    hide Prefer;
    hide Measure;
    hide RestorePreference;
    hide RestoreCooldown;
    hide Housekeep;
    hide Expire;
    hide Reconcile;
    hide OpenTunnel;
    hide RollbackOpen;
    hide MarkOpening;
    hide CommitOpen;
    hide FinishOpen;
    hide FailEntry;
    hide CountFailure;
    hide TrimOpens;
    hide BatchesFine;
    hide Pool.Wf;
    var p := s.pool;
    match step
    case Picking(pol, target, now, luck) => PickBooks(p, pol, target, now, luck);
    case RollingBack(id) => RollbackBooks(p, s.inflight[id].reservation);
    case Reporting(c, now) => ReportBooks(p, c, now);
    case Measuring(h, ip, checkedAt, probed, now) => MeasureBooks(p, h, ip, checkedAt, probed, now);
    case Housekeeping(now) => ExpiryBooks(p, now);
    case Saving(now) => ExpiryBooks(p, now);
    case Reconciling(specs, done) => ReconcileBooks(p, specs, done);
    case _ =>
      QuietBatches(s, step);
      UntouchedBatches(p, PoolAfter(s, step));
  }

  lemma ReportBooks(p: Pool, c: Complaint, now: Time)
    requires BatchesFine(p)
    ensures BatchesFine(Report(p, c, now).0)
  {
    hide BatchesFine;
    hide Punish;
    match ReportedSlot(p, c)
    case Err(_) =>
    case Ok(id) => PunishBooks(p, id, c, now);
  }

  lemma PickBooks(p: Pool, pol: Policy, requested: string, now: Time, luck: Luck)
    requires p.Wf() && BatchesFine(p)
    ensures BatchesFine(Pick(p, pol, requested, now, luck).0)
  {
    hide Pick;
    hide Shaped;
    hide Mild;
    hide BatchesFine;
    hide Reserved;
    hide Eligible;
    hide MayRecycle;
    var chosenIn, q := PickShape(p, pol, requested, now, luck);
    var r := Pick(p, pol, requested, now, luck);
    if r.1.Ok? {
      GrantedShape(p, chosenIn, q, pol, Scope(pol, requested), now, r);
      MildBooks(p, q, now);
      MildKeepsWf(p, q, now);
      MildKeepsMember(chosenIn, q, r.1.value.state, now);
      ReservedBooks(q, pol, r.1.value.state, now);
    } else {
      DeniedShape(p, chosenIn, q, pol, Scope(pol, requested), now, r);
      MildBooks(p, r.0, now);
    }
  }

  lemma MildKeepsMember(p: Pool, q: Pool, h: Handle, now: Time)
    requires Mild(p, q, now) && p.IsMember(h)
    ensures q.IsMember(h) && q.At(h).spec == p.At(h).spec && q.At(h).publicIP == p.At(h).publicIP
  {
    hide MildBatches;
    hide MildCooldowns;
    hide RingsValid;
    assert SameButTunnel(p.states[h], q.states[h], now);
  }
}
