/** Every step keeps the pool well formed: the order lists the members, identities
    match, counters of pending names stay positive and generations stay distinct. */
module WellFormed {
  import opened Common
  import opened PolicyTypes
  import opened Ordering
  import opened Batches
  import opened Preferred
  import opened PoolState
  import opened Selection
  import opened PoolSystem

  /** Same members under the same names; counters and generations in order. */
  ghost predicate SameShape(p: Pool, q: Pool) {
    && q.opts == p.opts && q.slots == p.slots && q.order == p.order && q.nextHandle == p.nextHandle
    && q.states.Keys == p.states.Keys
    && (forall h :: h in p.states ==> q.states[h].spec == p.states[h].spec)
  }

  ghost predicate GensFrom(p: Pool, q: Pool) {
    && p.nextGen <= q.nextGen
    && forall n :: n in q.batches ==> n in p.batches && q.batches[n].gen == p.batches[n].gen
  }

  ghost predicate NamesPending(m: map<string, nat>) {
    "" !in m && forall n :: n in m ==> m[n] > 0
  }

  lemma ShapeKeepsWf(p: Pool, q: Pool)
    requires p.Wf() && SameShape(p, q) && GensFrom(p, q) && NamesPending(q.pendingSessions)
    ensures q.Wf()
  {}

  lemma HoldKeepsNames(m: map<string, nat>, name: string)
    requires NamesPending(m)
    ensures NamesPending(Hold(m, name)) && NamesPending(Unhold(m, name))
  {}

  lemma ReservedWf(p: Pool, pol: Policy, h: Handle, now: Time)
    requires p.Wf() && h in p.states
    ensures Reserved(p, pol, h, now).Wf()
  {
    var q := Reserved(p, pol, h, now);
    HoldKeepsNames(p.pendingSessions, SessionToHold(p, pol));
    hide SessionToHold;
    hide Hold;
    if pol.uniqueBatch != "" {
      ReserveKeepsGen(EnteredBatch(p, pol, now), p.At(h).spec.id, p.At(h).publicIP, now);
    }
  }

  lemma ReserveKeepsGen(b: BatchState, slotID: string, ip: Addr, now: Time)
    ensures b.Reserve(slotID, ip, now).gen == b.gen
    ensures b.AddIP(slotID, ip, now).gen == b.gen
    ensures b.Release(slotID).gen == b.gen
  {}

  lemma SettleWf(p: Pool, r: Reservation)
    requires p.Wf() && r.state in p.states
    ensures Settle(p, r).Wf()
  {
    HoldKeepsNames(p.pendingSessions, r.session);
    hide Unhold;
    ShapeKeepsWf(p, Settle(p, r));
  }

  lemma RollbackWf(p: Pool, r: Reservation)
    requires p.Wf() && r.state in p.states
    ensures Rollback(p, r).Wf()
  {
    SettleWf(p, r);
    hide Settle;
    hide BatchState.Release;
    var q := Settle(p, r);
    var t := Rollback(p, r);
    assert q.batches == p.batches && q.nextGen == p.nextGen by { SettleFrame(p, r); }
    if r.batch.Some? && StillStored(p, r.batch.value) {
      ReserveKeepsGen(p.batches[r.batch.value.name], r.batch.value.slotID, NoAddr, ZERO_TIME);
    }
    ShapeKeepsWf(q, t);
  }

  lemma SettleFrame(p: Pool, r: Reservation)
    ensures Settle(p, r).batches == p.batches && Settle(p, r).nextGen == p.nextGen
  {}

  lemma EstablishWf(p: Pool, r: Reservation, pol: Policy, now: Time)
    requires p.Wf() && r.state in p.states
    ensures Establish(p, r, pol, now).Wf()
  {
    HoldKeepsNames(p.pendingSessions, r.session);
    hide Unhold;
    ShapeKeepsWf(p, Establish(p, r, pol, now));
  }

  lemma PunishWf(p: Pool, id: string, c: Complaint, now: Time)
    requires p.Wf() && id in p.slots
    ensures Punish(p, id, c, now).Wf()
  {
    hide BatchState.Release;
    hide Cooled;
    hide Unpreferred;
    var q := Punish(p, id, c, now);
    forall n | n in q.batches ensures q.batches[n].gen == p.batches[n].gen {
      ReserveKeepsGen(p.batches[n], id, NoAddr, ZERO_TIME);
    }
    ShapeKeepsWf(p, q);
  }

  lemma MeasureWf(p: Pool, h: Handle, ip: Addr, checkedAt: Time, now: Time)
    requires p.Wf() && h in p.states
    ensures SetPublicIP(p, h, ip, checkedAt, now).Wf()
  {
    hide BatchState.AddIP;
    var q := SetPublicIP(p, h, ip, checkedAt, now);
    forall n | n in q.batches ensures q.batches[n].gen == p.batches[n].gen {
      ReserveKeepsGen(p.batches[n], p.At(h).spec.id, ip, now);
    }
    ShapeKeepsWf(p, q);
  }

  /** Changing one state without renaming it keeps the pool well formed. */
  lemma OneStateWf(p: Pool, q: Pool, h: Handle, s: SlotState)
    requires p.Wf() && h in p.states && s.spec == p.states[h].spec
    requires q.states == p.states[h := s] && q.opts == p.opts && q.slots == p.slots && q.order == p.order
    requires q.nextHandle == p.nextHandle && q.pendingSessions == p.pendingSessions
    requires q.batches == p.batches && q.nextGen == p.nextGen
    ensures q.Wf()
  {}

  // ---------------------------------------------------------------------
  // Reconciliation.

  /** What installing relays leaves of the old store: specs may change, identities
      and kinds do not, and new states start fresh. */
  ghost predicate Installed(p: Pool, q: Pool) {
    && q == p.(states := q.states, nextHandle := q.nextHandle)
    && p.nextHandle <= q.nextHandle
    && (forall h :: h in p.states ==> h in q.states && Respecced(p.states[h], q.states[h]))
    && (forall h :: h in q.states && h !in p.states ==> FreshRelay(p, q, h))
  }

  ghost predicate FreshRelay(p: Pool, q: Pool, h: Handle)
    requires h in q.states
  {
    p.nextHandle <= h < q.nextHandle && q.states[h] == NewSlotState(q.states[h].spec)
        && q.states[h].spec.kind == RelaySocks
  }

  ghost predicate Respecced(s: SlotState, t: SlotState) {
    && t == s.(spec := t.spec)
    && t.spec.id == s.spec.id
    && t.spec.kind == s.spec.kind
  }

  ghost predicate StoreBounded(q: Pool) { forall h :: h in q.states ==> h < q.nextHandle }

  ghost predicate Names(q: Pool, m: map<string, Handle>) {
    forall id :: id in m ==> m[id] in q.states && q.states[m[id]].spec.id == id
  }

  ghost predicate Listed(specs: seq<Spec>, n: nat, id: string)
    requires n <= |specs|
  {
    exists i :: 0 <= i < n && specs[i].id == id
  }

  /** The next membership so far: kept slots, then the first `n` relays. */
  ghost predicate Covers(p: Pool, specs: seq<Spec>, n: nat, m: map<string, Handle>)
    requires n <= |specs|
  {
    forall id :: id in m <==> id in KeptSlots(p) || Listed(specs, n, id)
  }

  /** A name known before keeps its state; a new name gets a state nobody holds. */
  ghost predicate Retains(p: Pool, m: map<string, Handle>) {
    && (forall id :: id in m && id in p.slots ==> m[id] == p.slots[id])
    && (forall id :: id in m && id !in p.slots ==> m[id] !in p.states)
  }

  lemma InstallOneStore(p: Pool, q0: Pool, spec: Spec, m0: map<string, Handle>)
    requires p.Wf() && Installed(p, q0) && StoreBounded(q0)
    requires spec.kind == RelaySocks
    requires spec.id in p.slots ==> p.Slot(spec.id).spec.kind == RelaySocks
    ensures Installed(p, InstallRelay(q0, spec, m0).0) && StoreBounded(InstallRelay(q0, spec, m0).0)
  {
    var q := InstallRelay(q0, spec, m0).0;
    if spec.id in p.slots {
      var h := p.slots[spec.id];
      assert h in p.states && Respecced(p.states[h], q0.states[h]);
      assert Respecced(p.states[h], q.states[h]);
    } else {
      assert q0.nextHandle !in p.states;
      assert FreshRelay(p, q, q0.nextHandle);
    }
    forall h | h in q.states && h !in p.states ensures FreshRelay(p, q, h) {
      if h in q0.states { assert FreshRelay(p, q0, h); }
    }
    forall h | h in p.states ensures h in q.states && Respecced(p.states[h], q.states[h]) {
      assert h in q0.states && Respecced(p.states[h], q0.states[h]);
    }
  }

  /** The state a relay is installed under is its own, or new. */
  ghost predicate OwnHandle(q: Pool, spec: Spec) {
    if spec.id in q.slots then q.slots[spec.id] in q.states && q.states[q.slots[spec.id]].spec.id == spec.id
    else q.nextHandle !in q.states
  }

  lemma InstallOwns(p: Pool, q0: Pool, spec: Spec)
    requires p.Wf() && Installed(p, q0) && StoreBounded(q0)
    ensures OwnHandle(q0, spec)
    ensures spec.id !in p.slots ==> q0.nextHandle !in p.states
  {
    if spec.id in p.slots {
      var h := p.slots[spec.id];
      assert h in p.states && Respecced(p.states[h], q0.states[h]);
    }
  }

  lemma InstallNames(q0: Pool, spec: Spec, m0: map<string, Handle>)
    requires OwnHandle(q0, spec) && Names(q0, m0)
    ensures Names(InstallRelay(q0, spec, m0).0, InstallRelay(q0, spec, m0).1)
  {
    var (q, m) := InstallRelay(q0, spec, m0);
    forall id | id in m ensures m[id] in q.states && q.states[m[id]].spec.id == id {
      if id != spec.id { assert id in m0 && m0[id] in q0.states; }
    }
  }

  lemma InstallRetains(p: Pool, q0: Pool, spec: Spec, m0: map<string, Handle>)
    requires q0.slots == p.slots && Retains(p, m0) && (spec.id !in p.slots ==> q0.nextHandle !in p.states)
    ensures Retains(p, InstallRelay(q0, spec, m0).1)
  {}

  lemma InstallOneNames(p: Pool, q0: Pool, spec: Spec, m0: map<string, Handle>)
    requires p.Wf() && Installed(p, q0) && StoreBounded(q0) && Names(q0, m0) && Retains(p, m0)
    ensures Names(InstallRelay(q0, spec, m0).0, InstallRelay(q0, spec, m0).1)
    ensures Retains(p, InstallRelay(q0, spec, m0).1)
  {
    hide Names;
    hide Retains;
    hide StoreBounded;
    hide Pool.Wf;
    hide OwnHandle;
    hide InstallRelay;
    assert q0.slots == p.slots;
    InstallOwns(p, q0, spec);
    hide Installed;
    InstallNames(q0, spec, m0);
    InstallRetains(p, q0, spec, m0);
  }

  lemma {:induction false} InstallKeeps(p: Pool, specs: seq<Spec>, n: nat)
    requires p.Wf() && RelaysWellFormed(specs) && !Collides(p, specs) && n <= |specs|
    ensures var (q, m) := InstallRelays(p, specs, n, KeptSlots(p));
            Installed(p, q) && StoreBounded(q) && Names(q, m) && Retains(p, m) && Covers(p, specs, n, m)
  {
    if n > 0 {
      InstallKeeps(p, specs, n - 1);
      var (q0, m0) := InstallRelays(p, specs, n - 1, KeptSlots(p));
      var spec := specs[n - 1];
      NoCollision(p, specs, n - 1);
      InstallOneStore(p, q0, spec, m0);
      InstallOneNames(p, q0, spec, m0);
      CoverOne(p, q0, specs, n, m0);
    } else {
      InstallNone(p, specs);
    }
  }

  lemma NoCollision(p: Pool, specs: seq<Spec>, i: nat)
    requires RelaysWellFormed(specs) && !Collides(p, specs) && i < |specs|
    ensures specs[i].kind == RelaySocks
    ensures specs[i].id in p.slots ==> p.Slot(specs[i].id).spec.kind == RelaySocks
  {}

  lemma InstallNone(p: Pool, specs: seq<Spec>)
    requires p.Wf()
    ensures Installed(p, p) && StoreBounded(p) && Names(p, KeptSlots(p)) && Retains(p, KeptSlots(p))
    ensures Covers(p, specs, 0, KeptSlots(p))
  {}

  lemma CoverOne(p: Pool, q0: Pool, specs: seq<Spec>, n: nat, m0: map<string, Handle>)
    requires 0 < n <= |specs| && Covers(p, specs, n - 1, m0)
    ensures Covers(p, specs, n, InstallRelay(q0, specs[n - 1], m0).1)
  {
    var m := InstallRelay(q0, specs[n - 1], m0).1;
    forall id ensures id in m <==> id in KeptSlots(p) || Listed(specs, n, id) {
      if id == specs[n - 1].id {
        assert Listed(specs, n, id);
      } else {
        assert Listed(specs, n, id) <==> Listed(specs, n - 1, id);
      }
    }
  }

  // ---------------------------------------------------------------------
  // The outcome of a reconciliation, accepted or not.

  ghost predicate Reconciled(p: Pool, q: Pool) {
    && q == p.(states := q.states, nextHandle := q.nextHandle, slots := q.slots, order := q.order,
        sessions := q.sessions)
    && p.nextHandle <= q.nextHandle
    && (forall h :: h in p.states ==> h in q.states && Respecced(p.states[h], q.states[h]))
    && (forall h :: h in q.states && h !in p.states ==> FreshRelay(p, q, h))
    && Retains(p, q.slots)
    && q.sessions.Keys <= p.sessions.Keys
    && (forall id :: id in p.slots && p.Slot(id).spec.kind != RelaySocks ==> id in q.slots)
    && (forall id :: id in q.slots && id !in p.slots ==> q.slots[id] in q.states && q.Slot(id).spec.kind == RelaySocks)
  }

  /** Only the specs of relays changed. */
  ghost predicate OnlyRespecced(p: Pool, q: Pool) {
    && q == p.(states := q.states)
    && q.states.Keys == p.states.Keys
    && forall h :: h in p.states ==> Respecced(p.states[h], q.states[h])
  }

  lemma RespecOne(p: Pool, q0: Pool, spec: Spec, done: set<string>)
    requires OnlyRespecced(p, q0) && q0.Wf() && spec.kind == RelaySocks
    ensures OnlyRespecced(p, RespecRelay(q0, spec, done)) && RespecRelay(q0, spec, done).Wf()
  {
    RespecOnly(p, q0, spec, done);
    RespecWf(q0, spec, done);
  }

  lemma RespecOnly(p: Pool, q0: Pool, spec: Spec, done: set<string>)
    requires OnlyRespecced(p, q0) && q0.Wf() && spec.kind == RelaySocks
    ensures OnlyRespecced(p, RespecRelay(q0, spec, done))
  {
    var q := RespecRelay(q0, spec, done);
    var touched := spec.id in q0.slots;
    var h := if touched then q0.slots[spec.id] else 0;
    assert touched ==> h in q0.states && q0.states[h].spec.id == spec.id;
    hide Pool.Wf;
    forall g | g in p.states ensures g in q.states && Respecced(p.states[g], q.states[g]) {
      assert Respecced(p.states[g], q0.states[g]);
    }
    assert q.states.Keys == p.states.Keys;
  }

  lemma RespecWf(q0: Pool, spec: Spec, done: set<string>)
    requires q0.Wf()
    ensures RespecRelay(q0, spec, done).Wf()
  {}

  lemma {:induction false} RespecKeeps(p: Pool, specs: seq<Spec>, done: set<string>, n: nat)
    requires p.Wf() && n <= |specs| && RelaysWellFormed(specs)
    ensures OnlyRespecced(p, Respec(p, specs, done, n)) && Respec(p, specs, done, n).Wf()
  {
    hide Pool.Wf;
    if n > 0 {
      RespecKeeps(p, specs, done, n - 1);
      hide RespecRelay;
      hide OnlyRespecced;
      assert specs[n - 1].kind == RelaySocks;
      RespecOne(p, Respec(p, specs, done, n - 1), specs[n - 1], done);
    }
  }

  lemma RespecIsReconciled(p: Pool, q: Pool)
    requires p.Wf() && OnlyRespecced(p, q)
    ensures Reconciled(p, q)
  {}

  /** A reconciliation keeps the pool well formed; every state survives with its counts,
      members that are not relays stay members, and new members start fresh. */
  lemma ReconcileKeeps(p: Pool, specs: seq<Spec>, done: set<string>)
    requires p.Wf()
    ensures Reconcile(p, specs, done).0.Wf() && Reconciled(p, Reconcile(p, specs, done).0)
  {
    if !RelaysWellFormed(specs) {
      RespecIsReconciled(p, p);
    } else if Collides(p, specs) {
      RespecKeeps(p, specs, done, |specs|);
      hide Pool.Wf;
      RespecIsReconciled(p, Respec(p, specs, done, |specs|));
    } else {
      InstallKeeps(p, specs, |specs|);
      var (q, m) := InstallRelays(p, specs, |specs|, KeptSlots(p));
      InstalledKeeps(p, q, specs, m);
    }
  }

  /** The pool after the new membership `m` replaced the old one. */
  ghost function Swapped(q: Pool, m: map<string, Handle>): Pool {
    q.(slots := m, order := Listing(m.Keys),
       sessions := map n | n in q.sessions.Keys && q.sessions[n].slotID in m :: q.sessions[n])
  }

  lemma SwappedWf(p: Pool, q: Pool, m: map<string, Handle>)
    requires p.Wf() && Installed(p, q) && StoreBounded(q) && Names(q, m)
    ensures Swapped(q, m).Wf()
  {
    hide FreshRelay;
    hide Respecced;
    ListingSorted(m.Keys);
  }

  lemma SwappedMembers(p: Pool, q: Pool, specs: seq<Spec>, m: map<string, Handle>)
    requires Installed(p, q) && Names(q, m) && Retains(p, m) && Covers(p, specs, |specs|, m)
    ensures forall id :: id in p.slots && p.Slot(id).spec.kind != RelaySocks ==> id in m
    ensures forall id :: id in m && id !in p.slots ==> m[id] in q.states && q.states[m[id]].spec.kind == RelaySocks
  {
    forall id | id in p.slots && p.Slot(id).spec.kind != RelaySocks ensures id in m {
      assert id in KeptSlots(p);
    }
    forall id | id in m && id !in p.slots ensures m[id] in q.states && q.states[m[id]].spec.kind == RelaySocks {
      assert m[id] !in p.states && FreshRelay(p, q, m[id]);
    }
  }

  lemma InstalledKeeps(p: Pool, q: Pool, specs: seq<Spec>, m: map<string, Handle>)
    requires p.Wf() && Installed(p, q) && StoreBounded(q) && Names(q, m) && Retains(p, m)
             && Covers(p, specs, |specs|, m)
    ensures Swapped(q, m).Wf() && Reconciled(p, Swapped(q, m))
  {
    hide Pool.Wf;
    hide Names;
    hide Covers;
    hide Listing;
    hide Respecced;
    hide FreshRelay;
    hide Retains;
    SwappedWf(p, q, m);
    SwappedMembers(p, q, specs, m);
    var r := Swapped(q, m);
    forall h | h in r.states && h !in p.states ensures FreshRelay(p, r, h) {
      assert FreshRelay(p, q, h);
      SwappedFresh(p, q, m, h);
    }
  }

  lemma SwappedFresh(p: Pool, q: Pool, m: map<string, Handle>, h: Handle)
    requires h in q.states && FreshRelay(p, q, h)
    ensures FreshRelay(p, Swapped(q, m), h)
  {
    hide Listing;
  }

  // ---------------------------------------------------------------------
  // Whole steps.

  /** Everything under way refers to states, entries and identifiers that exist. */
  ghost predicate Base(s: System) {
    && s.pool.Wf()
    && (forall id :: id in s.inflight ==> id < s.nextID && s.inflight[id].reservation.state in s.pool.states)
    && (forall id :: id in s.leases ==> id < s.nextID && s.leases[id] in s.pool.states)
    && (forall id :: id in s.openers ==> id < s.nextID && TunnelExists(s.pool, s.openers[id].tunnel))
    && (forall id :: id in s.grants ==> id < s.nextID)
  }

  ghost predicate TunnelExists(p: Pool, t: TunnelOf) {
    match t
    case SlotTunnel(h) => h in p.states
    case EntryTunnel(i) => i < |p.entries|
    case ProbeTunnel => true
  }

  /** States are never dropped from the store, nor entries from the list. */
  ghost predicate Grows(p: Pool, q: Pool) {
    p.states.Keys <= q.states.Keys && |q.entries| == |p.entries|
  }

  lemma SelectionWf(p: Pool, pol: Policy, target: string, now: Time, luck: Luck)
    requires p.Wf()
    ensures Pick(p, pol, target, now, luck).0.Wf() && Grows(p, Pick(p, pol, target, now, luck).0)
    ensures Pick(p, pol, target, now, luck).1.Ok? ==>
              Pick(p, pol, target, now, luck).1.value.reservation.state in p.states
  {
    var chosenIn, q := PickShape(p, pol, target, now, luck);
    var r := Pick(p, pol, target, now, luck);
    hide PickSticky;
    hide Eligible;
    hide MayRecycle;
    hide MildCooldowns;
    hide MildBatches;
    hide RingsValid;
    if r.1.Ok? {
      MildKeepsWf(p, q, now);
      ReservedWf(q, pol, r.1.value.state, now);
    } else {
      MildKeepsWf(p, r.0, now);
    }
  }

  lemma OpeningWf(p: Pool, t: TunnelOf, victim: Handle, now: Time)
    requires p.Wf() && MayOpen(p, t)
    ensures BeginOpen(p, now, victim).0.Wf() && Grows(p, BeginOpen(p, now, victim).0)
    ensures OpenTunnel(p, t, victim, now).Wf() && Grows(p, OpenTunnel(p, t, victim, now))
  {
    var q := ReserveCapacity(p, victim).0;
    CapacityIsMild(p, victim, now);
    MildKeepsWf(p, q, now);
    var r := BudgetAvailable(q, now).0;
    BudgetIsMild(q, now);
    MildKeepsWf(q, r, now);
    hide Mild;
    BeginShape(p, victim, now);
    var b := BeginOpen(p, now, victim).0;
    hide BeginOpen;
    hide ReserveCapacity;
    hide BudgetAvailable;
    hide Evicts;
    BegunWf(r, b);
    MarkWf(b, t, true);
  }

  lemma BegunWf(r: Pool, b: Pool)
    requires r.Wf() && b == r.(opens := b.opens, pendingOpens := b.pendingOpens)
    ensures b.Wf()
  {}

  /** Starting to open touches only the victim's tunnel, the pruned list and the
      pending counter. */
  lemma BeginShape(p: Pool, victim: Handle, now: Time)
    ensures var q := ReserveCapacity(p, victim).0;
            var b := BeginOpen(p, now, victim).0;
            && b == q.(opens := b.opens, pendingOpens := b.pendingOpens)
            && b == BudgetAvailable(q, now).0.(opens := b.opens, pendingOpens := b.pendingOpens)
            && q == p.(states := q.states)
            && q.states.Keys == p.states.Keys
  {}

  lemma MarkWf(p: Pool, t: TunnelOf, opening: bool)
    requires p.Wf() && TunnelExists(p, t)
    ensures MarkOpening(p, t, opening).Wf() && Grows(p, MarkOpening(p, t, opening))
  {}

  lemma FinishWf(p: Pool, t: TunnelOf, ok: bool, now: Time)
    requires p.Wf() && TunnelExists(p, t)
    ensures FinishOpen(p, t, ok, now).Wf() && Grows(p, FinishOpen(p, t, ok, now))
  {
    hide Backoff;
  }

  lemma HousekeepWf(p: Pool, now: Time)
    requires p.Wf()
    ensures Housekeep(p, now).Wf() && Grows(p, Housekeep(p, now))
  {
    hide Expire;
    hide IdleTooLong;
    var q := Expire(p, now);
    ExpireIsMild(p, now);
    MildKeepsWf(p, q, now);
    var r := Housekeep(p, now);
    assert r.states.Keys == q.states.Keys == p.states.Keys;
    ShapeKeepsWf(q, r);
  }

  /** The steps of acquisitions, leases and feedback; the others measure, maintain and
      open tunnels. */
  predicate ServesClients(step: Step) {
    || step.Picking? || step.Establishing? || step.RollingBack? || step.Releasing? || step.FailingSlot?
    || step.DroppingSession? || step.Reporting? || step.Preferring? || step.Measuring? || step.RestoringPreference?
  }

  lemma ServingStep(s: System, step: Step)
    requires Base(s) && Enabled(s, step) && ServesClients(step)
    ensures PoolAfter(s, step).Wf() && Grows(s.pool, PoolAfter(s, step))
  {
    hide Pick;
    hide Housekeep;
    hide Reconcile;
    hide OpenTunnel;
    hide MarkOpening;
    hide FinishOpen;
    hide Establish;
    hide Rollback;
    hide Report;
    hide Measure;
    hide Expire;
    hide Prefer;
    hide CommitOpen;
    hide RollbackOpen;
    hide RestorePreference;
    hide RestoreCooldown;
    hide FailEntry;
    hide CountFailure;
    hide TrimOpens;
    hide NoteFailure;
    hide ReleaseLease;
    hide DropSession;
    hide Pool.Wf;
    hide Grows;
    var p := s.pool;
    match step
    case Picking(pol, target, now, luck) => SelectionWf(p, pol, target, now, luck);
    case Establishing(id, now) => EstablishingWf(p, s.inflight[id].reservation, s.inflight[id].pol, now);
    case RollingBack(id) => RollingBackWf(p, s.inflight[id].reservation);
    case Releasing(id, now) => ReleasingWf(p, s.leases[id], now);
    case FailingSlot(h, now) => FailWf(p, h, now);
    case DroppingSession(name) => SmallWf(p, name);
    case Reporting(c, now) => ReportWf(p, c, now);
    case Preferring(c, now) => PreferWf(p, c, now);
    case Measuring(h, ip, checkedAt, probed, now) => MeasuringWf(p, h, ip, checkedAt, probed, now);
    case RestoringPreference(scope, e, now) => RestoreWf(p, scope, e, NoAddr, ZERO_TIME, now);
  }

  lemma MaintainingStep(s: System, step: Step)
    requires Base(s) && Enabled(s, step) && !ServesClients(step)
    ensures PoolAfter(s, step).Wf() && Grows(s.pool, PoolAfter(s, step))
  {
    hide Pick;
    hide Housekeep;
    hide Reconcile;
    hide OpenTunnel;
    hide MarkOpening;
    hide FinishOpen;
    hide Establish;
    hide Rollback;
    hide Report;
    hide Measure;
    hide Expire;
    hide Prefer;
    hide CommitOpen;
    hide RollbackOpen;
    hide RestorePreference;
    hide RestoreCooldown;
    hide FailEntry;
    hide CountFailure;
    hide TrimOpens;
    hide NoteFailure;
    hide ReleaseLease;
    hide DropSession;
    hide Pool.Wf;
    hide Grows;
    var p := s.pool;
    match step
    case RestoringCooldown(scope, ip, until, now) => RestoreWf(p, scope, PreferredExit("", NoAddr, now), ip, until,
        now);
    case Housekeeping(now) => HousekeepWf(p, now);
    case Saving(now) => ExpireWf(p, now);
    case Reconciling(specs, done) => ReconcileWf(p, specs, done);
    case Opening(t, victim, now) => OpeningWf(p, t, victim, now);
    case CallingOff(id) => SmallWf(p, "");
    case Abandoning(id) => MarkWf(p, s.openers[id].tunnel, false);
    case Charging(id, now) => CommitWf(p, now);
    case Opened(id, ok, now) => FinishWf(p, s.openers[id].tunnel, ok, now);
    case ClosingProbe(id) => MarkWf(p, ProbeTunnel, false);
    case FailingEntry(i, now) => FailEntryWf(p, i, now);
    case FailingProbe(h) => CountingWf(p, h, ZERO_TIME);
    case Trimming(now) => CountingWf(p, 0, now);
  }

  lemma PoolStep(s: System, step: Step)
    requires Base(s) && Enabled(s, step)
    ensures PoolAfter(s, step).Wf() && Grows(s.pool, PoolAfter(s, step))
  {
    hide PoolAfter;
    hide Base;
    hide Enabled;
    hide Pool.Wf;
    hide Grows;
    if ServesClients(step) { ServingStep(s, step); } else { MaintainingStep(s, step); }
  }

  lemma EstablishingWf(p: Pool, r: Reservation, pol: Policy, now: Time)
    requires p.Wf() && r.state in p.states
    ensures Establish(p, r, pol, now).Wf() && Grows(p, Establish(p, r, pol, now))
  {
    EstablishWf(p, r, pol, now);
    GrowsByOne(p, r, pol, now);
  }

  lemma RollingBackWf(p: Pool, r: Reservation)
    requires p.Wf() && r.state in p.states
    ensures Rollback(p, r).Wf() && Grows(p, Rollback(p, r))
  {
    RollbackWf(p, r);
    GrowsByOne(p, r, EMPTY_POLICY, ZERO_TIME);
  }

  lemma ReleasingWf(p: Pool, h: Handle, now: Time)
    requires p.Wf() && h in p.states
    ensures ReleaseLease(p, h, now).Wf() && Grows(p, ReleaseLease(p, h, now))
  {
    OneStateWf(p, ReleaseLease(p, h, now), h, p.At(h).(leases := Dec(p.At(h).leases), lastUsed := now));
  }

  lemma SmallWf(p: Pool, name: string)
    requires p.Wf()
    ensures DropSession(p, name).Wf() && Grows(p, DropSession(p, name))
    ensures RollbackOpen(p).Wf() && Grows(p, RollbackOpen(p))
  {
    ShapeKeepsWf(p, DropSession(p, name));
    ShapeKeepsWf(p, RollbackOpen(p));
  }

  lemma RestoreWf(p: Pool, scope: string, e: PreferredExit, ip: Addr, until: Time, now: Time)
    requires p.Wf()
    ensures RestorePreference(p, scope, e, now).Wf() && Grows(p, RestorePreference(p, scope, e, now))
    ensures RestoreCooldown(p, scope, ip, until, now).Wf() && Grows(p, RestoreCooldown(p, scope, ip, until, now))
  {
    hide Remember;
    hide Cooled;
    ShapeKeepsWf(p, RestorePreference(p, scope, e, now));
    ShapeKeepsWf(p, RestoreCooldown(p, scope, ip, until, now));
  }

  lemma FailEntryWf(p: Pool, i: nat, now: Time)
    requires p.Wf() && i < |p.entries|
    ensures FailEntry(p, i, now).Wf() && Grows(p, FailEntry(p, i, now))
  {
    hide Backoff;
    ShapeKeepsWf(p, FailEntry(p, i, now));
  }

  lemma GrowsByOne(p: Pool, r: Reservation, pol: Policy, now: Time)
    requires r.state in p.states
    ensures Grows(p, Establish(p, r, pol, now)) && Grows(p, Rollback(p, r))
  {}

  lemma FailWf(p: Pool, h: Handle, now: Time)
    requires p.Wf() && h in p.states
    ensures NoteFailure(p, h, now).Wf() && Grows(p, NoteFailure(p, h, now))
  {
    hide Backoff;
  }

  lemma CountingWf(p: Pool, h: Handle, now: Time)
    requires p.Wf()
    ensures TrimOpens(p, now).Wf() && Grows(p, TrimOpens(p, now))
    ensures h in p.states ==> CountFailure(p, h).Wf() && Grows(p, CountFailure(p, h))
  {
    ShapeKeepsWf(p, TrimOpens(p, now));
  }

  lemma ReportWf(p: Pool, c: Complaint, now: Time)
    requires p.Wf()
    ensures Report(p, c, now).0.Wf() && Grows(p, Report(p, c, now).0)
  {
    match ReportedSlot(p, c)
    case Err(_) =>
    case Ok(id) => PunishWf(p, id, c, now);
  }

  lemma PreferWf(p: Pool, c: Praise, now: Time)
    requires p.Wf()
    ensures Prefer(p, c, now).0.Wf() && Grows(p, Prefer(p, c, now).0)
  {
    hide Remember;
    assert SameShape(p, Prefer(p, c, now).0) && GensFrom(p, Prefer(p, c, now).0);
    assert NamesPending(p.pendingSessions);
    hide Pool.Wf;
    ShapeKeepsWf(p, Prefer(p, c, now).0);
  }

  lemma MeasuringWf(p: Pool, h: Handle, ip: Addr, checkedAt: Time, probed: bool, now: Time)
    requires p.Wf() && h in p.states
    ensures Measure(p, h, ip, checkedAt, probed, now).Wf() && Grows(p, Measure(p, h, ip, checkedAt, probed, now))
  {
    MeasureWf(p, h, ip, checkedAt, now);
    var q := SetPublicIP(p, h, ip, checkedAt, now);
    assert Grows(p, q) && h in q.states;
    hide SetPublicIP;
    var r := Measure(p, h, ip, checkedAt, probed, now);
    if probed {
      OneStateWf(q, r, h, q.At(h).(failures := 0, disabledUntil := ZERO_TIME));
    }
  }

  lemma ExpireWf(p: Pool, now: Time)
    requires p.Wf()
    ensures Expire(p, now).Wf() && Grows(p, Expire(p, now))
  {
    hide Expire;
    ExpireIsMild(p, now);
    MildKeepsWf(p, Expire(p, now), now);
  }

  lemma ReconcileWf(p: Pool, specs: seq<Spec>, done: set<string>)
    requires p.Wf()
    ensures Reconcile(p, specs, done).0.Wf() && Grows(p, Reconcile(p, specs, done).0)
  {
    hide Reconcile;
    ReconcileKeeps(p, specs, done);
  }

  lemma CommitWf(p: Pool, now: Time)
    requires p.Wf()
    ensures CommitOpen(p, now).Wf() && Grows(p, CommitOpen(p, now))
  {
    ShapeKeepsWf(p, CommitOpen(p, now));
  }

  /** Reachable pools stay well formed, and nothing under way ever dangles. */
  lemma BaseStep(s: System, step: Step)
    requires Base(s) && Enabled(s, step)
    ensures Base(After(s, step))
  {
    PoolStep(s, step);
    InflightExists(s, step);
    OpenersExist(s, step);
    GrantsNumbered(s, step);
    hide Pool.Wf;
    hide PoolAfter;
    hide InflightAfter;
    hide LeasesAfter;
    hide OpenersAfter;
    hide GrantsAfter;
    hide TaintedAfter;
    hide BansAfter;
    hide Enabled;
  }

  lemma InflightExists(s: System, step: Step)
    requires Base(s) && Enabled(s, step)
    ensures forall id :: id in InflightAfter(s, step) ==>
              id < s.nextID + 1 && InflightAfter(s, step)[id].reservation.state in s.pool.states
    ensures forall id :: id in LeasesAfter(s, step) ==> id < s.nextID + 1 && LeasesAfter(s, step)[id] in s.pool.states
  {
    ReservedStateExists(s, step);
    hide Pool.Wf;
    hide Pick;
    hide Chosen;
    hide TunnelExists;
  }

  lemma OpenersExist(s: System, step: Step)
    requires Base(s) && Enabled(s, step) && Grows(s.pool, PoolAfter(s, step))
    ensures forall id :: id in OpenersAfter(s, step) ==>
              id < s.nextID + 1 && TunnelExists(PoolAfter(s, step), OpenersAfter(s, step)[id].tunnel)
  {
    hide Pool.Wf;
    hide PoolAfter;
    hide OpensNow;
  }

  lemma GrantsNumbered(s: System, step: Step)
    requires Base(s) && Enabled(s, step)
    ensures forall id :: id in GrantsAfter(s, step) ==> id < s.nextID + 1
  {
    hide Pool.Wf;
    hide Pick;
    hide Chosen;
    hide ReportedSlot;
  }

  lemma ReservedStateExists(s: System, step: Step)
    requires Base(s)
    ensures Chosen(s, step).Some? ==> Chosen(s, step).value.reservation.state in s.pool.states
  {
    if step.Picking? {
      SelectionWf(s.pool, step.pol, step.target, step.now, step.luck);
    }
    hide Pick;
  }

  // ---------------------------------------------------------------------
  // The start of a run.

  ghost predicate FreshStore(slots: map<string, Handle>, states: map<Handle, SlotState>, specs: seq<Spec>, n: nat)
    requires n <= |specs|
  {
    && (forall h :: h in states <==> 0 <= h < n)
    && (forall h :: 0 <= h < n ==> states[h] == NewSlotState(specs[h]))
    && (forall id :: id in slots ==> slots[id] < n && specs[slots[id]].id == id)
  }

  lemma {:induction false} InitialStore(specs: seq<Spec>, n: nat)
    requires n <= |specs|
    ensures FreshStore(InitialSlots(specs, n).0, InitialSlots(specs, n).1, specs, n)
  {
    if n > 0 { InitialStore(specs, n - 1); }
  }

  /** A new pool: fresh states only, and nothing in any table. */
  ghost predicate BrandNew(p: Pool) {
    && (forall h :: h in p.states ==> p.states[h] == NewSlotState(p.states[h].spec))
    && p.sessions == map[] && p.pendingSessions == map[] && p.batches == map[] && p.preferred == map[]
    && p.ipCooldowns == map[] && p.opens == [] && p.pendingOpens == 0 && p.probes == 0
    && p.leased == 0 && p.pendingLeases == 0
    && (forall i :: 0 <= i < |p.entries| ==> p.entries[i] == NEW_ENTRY)
  }

  lemma NewPoolIsWf(p: Pool, specs: seq<Spec>)
    requires p.opts.Defaulted() && p.nextHandle == |specs|
    requires FreshStore(p.slots, p.states, specs, |specs|)
    requires StrictlySorted(p.order) && forall id :: id in p.order <==> id in p.slots
    requires p.pendingSessions == map[] && p.batches == map[]
    ensures p.Wf()
  {}

  lemma NewPoolIsBrandNew(specs: seq<Spec>, entries: nat, opts: Options)
    requires Constructible(specs, entries, opts)
    ensures NewPool(specs, entries, opts).Wf() && BrandNew(NewPool(specs, entries, opts))
  {
    InitialStore(specs, |specs|);
    var p := NewPool(specs, entries, opts);
    ListingSorted(p.slots.Keys);
    assert opts.Defaulted();
    hide Constructible;
    hide Listing;
    hide InitialSlots;
    hide StrictlySorted;
    NewPoolIsWf(p, specs);
  }

  lemma InitialBase(s: System)
    requires Initial(s)
    ensures Base(s) && BrandNew(s.pool)
  {
    var specs: seq<Spec>, entries: nat, opts: Options :|
      Constructible(specs, entries, opts) && s.pool == NewPool(specs, entries, opts);
    NewPoolIsBrandNew(specs, entries, opts);
    hide NewPool;
    hide Pool.Wf;
    hide Constructible;
  }

  /** Every pool a run reaches is well formed. */
  lemma {:induction false} ReachableIsWellFormed(states: seq<System>, steps: seq<Step>, i: nat)
    requires Run(states, steps) && i < |states|
    ensures Base(states[i])
  {
    hide Base;
    hide Initial;
    if i == 0 {
      InitialBase(states[0]);
    } else {
      ReachableIsWellFormed(states, steps, i - 1);
      assert Next(states[i - 1], steps[i - 1], states[i]);
      BaseIsWf(states[i - 1]);
      BaseStep(states[i - 1], steps[i - 1]);
    }
  }

  lemma BaseIsWf(s: System)
    requires Base(s)
    ensures s.pool.Wf()
  {}
}
