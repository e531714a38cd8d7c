/** Helpers for concrete runs: steps whose effect on the pool is known, and selections in
    a pool in which nothing is stale. */
module Scenario {
  import opened Common
  import opened PolicyTypes
  import opened PoolState
  import opened PoolSystem

  const LUCK: Luck := Luck(0, 0, {})

  /** Ten of everything that is limited or measured in time, and no cap on connections. */
  const OPTIONS: Options := Options(0, 0, 0, 10, 10, 10, 10, 10, 10, 10, 10, 8, 0, 2, 1, 0, 1, 100)

  /** The state of a run, as far as its next step depends on it. */
  ghost predicate Stands(s: System, p: Pool, clock: Time, nextID: nat, inflight: map<nat, Inflight>) {
    s.pool == p && s.clock == clock && s.nextID == nextID && s.inflight == inflight
  }

  /** Nothing in the pool is past its time. */
  ghost predicate AllLive(p: Pool, now: Time) {
    && (forall n :: n in p.sessions ==> now <= p.sessions[n].expiresAt)
    && (forall n :: n in p.batches ==> now <= p.batches[n].expiresAt)
    && (forall h, t :: h in p.states && t in p.states[h].cooldowns ==> now <= p.states[h].cooldowns[t])
    && (forall k :: k in p.ipCooldowns ==> now <= p.ipCooldowns[k])
    && p.preferred == map[]
  }

  /** Expiry leaves such a pool as it is. */
  lemma NothingStale(p: Pool, now: Time)
    requires AllLive(p, now)
    ensures DropLapsed(Expire(p, now), {}, now) == p
  {
    var q := Expire(p, now);
    assert q.sessions == p.sessions && q.batches == p.batches && q.preferred == p.preferred
           && q.ipCooldowns == p.ipCooldowns;
    forall h | h in p.states ensures q.states[h] == p.states[h] {
      assert ExpireCooldowns(p.states[h], now).cooldowns == p.states[h].cooldowns;
    }
    assert q.states == p.states;
    assert DropLapsed(q, {}, now).ipCooldowns == q.ipCooldowns;
  }

  /** The only candidate of a pool of one slot is ready, so a selection without a live
      session takes it. */
  lemma TakesTheOnly(p: Pool, pol: Policy, now: Time)
    requires p.order == ["a"] && p.slots == map["a" := 0] && 0 in p.states && p.At(0).Ready() && p.preferred == map[]
    requires Eligible(p, p.At(0), pol, "", now) && StickySlot(p, pol, "", now).None? && ForgetSession(p, pol, now) == p
    ensures PickSticky(p, pol, "", now, LUCK) == Choose(p, pol, 0, FromReady, now)
  {
    hide Eligible;
    hide Choose;
    hide StickySlot;
    hide ForgetSession;
    assert Candidates(p, pol, "", now, 0) == [];
    assert p.order[0] == "a";
    assert Candidates(p, pol, "", now, 1) == [0];
    assert [0][..0] == [];
    assert ReadyOnes(p, []) == [];
    assert ReadyOnes(p, [0]) == [0];
  }

  lemma NothingIdle(p: Pool)
    requires forall h :: h in p.states ==> !p.states[h].open
    ensures FairVictim(p, 0)
  {
    forall h ensures !IsVictim(p, h) {}
  }

  lemma PickStep(s: System, pol: Policy, now: Time, q: Pool, c: Choice) returns (t: System)
    requires s.pool.Wf() && s.clock <= now && (forall h :: h in s.pool.states ==> !s.pool.states[h].open)
    requires Pick(s.pool, pol, "", now, LUCK) == (q, Ok(c))
    ensures Next(s, Picking(pol, "", now, LUCK), t)
    ensures Stands(t, q, now, s.nextID + 1, s.inflight[s.nextID := Inflight(c.reservation, pol)])
    ensures c.reservation.batch.Some? ==>
              var b := c.reservation.batch.value;
              t.grants == s.grants[s.nextID := Grant(b.gen, b.slotID, s.pool.At(c.state).publicIP)]
  {
    hide Pool.Wf;
    hide Pick;
    hide TaintedAfter;
    hide FairVictim;
    NothingIdle(s.pool);
    t := After(s, Picking(pol, "", now, LUCK));
  }

  lemma BindStep(s: System, id: nat, now: Time, q: Pool) returns (t: System)
    requires s.pool.Wf() && s.clock <= now && id in s.inflight
    requires Establish(s.pool, s.inflight[id].reservation, s.inflight[id].pol, now) == q
    ensures Next(s, Establishing(id, now), t) && Stands(t, q, now, s.nextID + 1, s.inflight - {id})
  {
    hide Pool.Wf;
    hide Establish;
    hide GrantsAfter;
    t := After(s, Establishing(id, now));
  }

  lemma UndoStep(s: System, id: nat, q: Pool) returns (t: System)
    requires s.pool.Wf() && id in s.inflight && Rollback(s.pool, s.inflight[id].reservation) == q
    ensures Next(s, RollingBack(id), t) && Stands(t, q, s.clock, s.nextID + 1, s.inflight - {id})
  {
    hide Pool.Wf;
    hide Rollback;
    hide GrantsAfter;
    t := After(s, RollingBack(id));
  }

  lemma ReportStep(s: System, c: Complaint, now: Time, q: Pool) returns (t: System)
    requires s.pool.Wf() && s.clock <= now && Report(s.pool, c, now).0 == q
    ensures Next(s, Reporting(c, now), t) && Stands(t, q, now, s.nextID + 1, s.inflight)
  {
    hide Pool.Wf;
    hide Report;
    hide GrantsAfter;
    hide BansAfter;
    t := After(s, Reporting(c, now));
  }

  lemma DropStep(s: System, name: string, q: Pool) returns (t: System)
    requires s.pool.Wf() && DropSession(s.pool, name) == q
    ensures Next(s, DroppingSession(name), t) && Stands(t, q, s.clock, s.nextID + 1, s.inflight)
  {
    hide Pool.Wf;
    hide DropSession;
    hide GrantsAfter;
    t := After(s, DroppingSession(name));
  }

  lemma MeasureStep(s: System, h: Handle, ip: Addr, now: Time, q: Pool) returns (t: System)
    requires s.pool.Wf() && s.clock <= now && h in s.pool.states && Measure(s.pool, h, ip, now, false, now) == q
    ensures Next(s, Measuring(h, ip, now, false, now), t) && Stands(t, q, now, s.nextID + 1, s.inflight)
    ensures t.grants == s.grants
  {
    hide Pool.Wf;
    hide Measure;
    t := After(s, Measuring(h, ip, now, false, now));
  }

  lemma RefreshStep(s: System, specs: seq<Spec>, done: set<string>, q: Pool) returns (t: System)
    requires s.pool.Wf() && Reconcile(s.pool, specs, done).0 == q
    ensures Next(s, Reconciling(specs, done), t) && Stands(t, q, s.clock, s.nextID + 1, s.inflight)
  {
    hide Pool.Wf;
    hide Reconcile;
    hide GrantsAfter;
    t := After(s, Reconciling(specs, done));
  }
}
