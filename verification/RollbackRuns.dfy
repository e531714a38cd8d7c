/** Rolling back an acquisition: an exact undo of its reservation, also when other
    acquisitions, measurements and reports came in between. */
module RollbackRuns {
  import opened Common
  import opened PolicyTypes
  import opened Batches
  import opened Preferred
  import opened PoolState
  import opened Selection
  import opened PoolSystem
  import opened WellFormed
  import opened BatchRuns
  import opened GrantRuns

  // ---------------------------------------------------------------------
  // At once.

  /** The entered generation had not consumed the slot. */
  ghost predicate Unconsumed(p: Pool, pol: Policy, h: Handle, now: Time) {
    pol.uniqueBatch != "" ==> p.At(h).spec.id !in EnteredBatch(p, pol, now).usedSlots
  }

  lemma UndoneCounters(p: Pool, pol: Policy, h: Handle, now: Time)
    requires NamesPending(p.pendingSessions) && h in p.states
    ensures var q := Rollback(Reserved(p, pol, h, now), Ticket(p, pol, h, now));
            && q.pendingSessions == p.pendingSessions && q.pendingLeases == p.pendingLeases
            && q.states == p.states
            && q == p.(batches := q.batches, nextGen := q.nextGen)
  {
    var held := SessionToHold(p, pol);
    HoldThenUnhold(p.pendingSessions, held);
    hide SessionToHold;
    hide Hold;
    hide Unhold;
    hide EnteredBatch;
    hide ReleaseIn;
    var s := p.At(h);
    var bumped := s.(pendingLeases := s.pendingLeases + 1);
    assert p.states[h := bumped][h := bumped.(pendingLeases := Dec(bumped.pendingLeases))] == p.states;
  }

  lemma FreshReserveUndone(b: BatchState, slotID: string, ip: Addr, now: Time)
    requires b.Valid() && slotID !in b.usedSlots
    ensures b.Reserve(slotID, ip, now).Release(slotID).View() == b.View()
  {
    ReleaseUndoesReserve(b, slotID, ip, now, []);
  }

  /** Undoing a reservation at once restores every counter and every table; the entered
      generation gets its slots and addresses back, and one that was new is forgotten. */
  lemma RollbackUndoesReserve(p: Pool, pol: Policy, h: Handle, now: Time)
    requires p.Wf() && h in p.states && BatchesFine(p) && Unconsumed(p, pol, h, now)
    ensures var q := Rollback(Reserved(p, pol, h, now), Ticket(p, pol, h, now));
            && q == p.(batches := q.batches, nextGen := q.nextGen)
            && (pol.uniqueBatch == "" ==> q.batches == p.batches)
            && (pol.uniqueBatch != "" ==>
                  && q.batches - {pol.uniqueBatch} == p.batches - {pol.uniqueBatch}
                  && (Renews(p, pol.uniqueBatch, now) ==> pol.uniqueBatch !in q.batches)
                  && (!Renews(p, pol.uniqueBatch, now) ==>
                        pol.uniqueBatch in q.batches && pol.uniqueBatch in p.batches
                        && q.batches[pol.uniqueBatch].View() == p.batches[pol.uniqueBatch].View()))
  {
    UndoneCounters(p, pol, h, now);
    var r, t := Reserved(p, pol, h, now), Ticket(p, pol, h, now);
    if pol.uniqueBatch == "" {
      ReservedNoBatch(p, pol, h, now);
      assert t.batch.None?;
      hide Reserved;
      RollbackIPs(r, t);
      hide Rollback;
    } else {
      ReservedBatches(p, pol, h, now);
      UndoneBatch(p, pol, h, now);
    }
  }

  lemma UndoneBatch(p: Pool, pol: Policy, h: Handle, now: Time)
    requires p.Wf() && h in p.states && BatchesFine(p) && Unconsumed(p, pol, h, now) && pol.uniqueBatch != ""
    requires Reserved(p, pol, h, now).batches
            == p.batches[pol.uniqueBatch := EnteredBatch(p, pol, now).Reserve(p.At(h).spec.id, p.At(h).publicIP, now)]
    ensures var q := Rollback(Reserved(p, pol, h, now), Ticket(p, pol, h, now));
            && q.batches - {pol.uniqueBatch} == p.batches - {pol.uniqueBatch}
            && (Renews(p, pol.uniqueBatch, now) ==> pol.uniqueBatch !in q.batches)
            && (!Renews(p, pol.uniqueBatch, now) ==>
                  pol.uniqueBatch in q.batches && pol.uniqueBatch in p.batches
                  && q.batches[pol.uniqueBatch].View() == p.batches[pol.uniqueBatch].View())
  {
    hide Pool.Wf;
    var name, id, ip := pol.uniqueBatch, p.At(h).spec.id, p.At(h).publicIP;
    var b := EnteredBatch(p, pol, now);
    EnteredIsFine(p, pol, now);
    FreshReserveUndone(b, id, ip, now);
    ReserveKeepsGen(b, id, ip, now);
    var r, t := Reserved(p, pol, h, now), Ticket(p, pol, h, now);
    assert t.batch == Some(BatchReservation(name, b.gen, id));
    EnteredView(p, pol, now);
    hide Reserved;
    hide Ticket;
    RollbackIPs(r, t);
    hide Rollback;
    hide EnteredBatch;
    var c := b.Reserve(id, ip, now);
    hide BatchState.Reserve;
    hide BatchState.Release;
    hide BatchState.View;
    hide BatchState.Valid;
    hide ReleaseIn;
    hide BatchesFine;
    ReleasedMap(p.batches, name, id, c);
    assert c.Release(id).usedSlots == b.usedSlots by { SameViewSameSlots(c.Release(id), b); }
    assert r.batches[name] == c;
  }

  lemma SameViewSameSlots(b: BatchState, c: BatchState)
    requires b.View() == c.View()
    ensures b.usedSlots == c.usedSlots
  {}

  lemma ReleasedMap(m: map<string, BatchState>, name: string, slotID: string, c: BatchState)
    ensures var q := ReleaseIn(m[name := c], name, slotID);
            && q - {name} == m - {name}
            && (if c.Release(slotID).usedSlots == {} then name !in q else name in q && q[name] == c.Release(slotID))
  {
    hide BatchState.Release;
  }

  lemma EnteredView(p: Pool, pol: Policy, now: Time)
    requires BatchesFine(p)
    ensures Renews(p, pol.uniqueBatch, now) ==> EnteredBatch(p, pol, now).usedSlots == {}
    ensures !Renews(p, pol.uniqueBatch, now) ==>
              && pol.uniqueBatch in p.batches
              && EnteredBatch(p, pol, now).View() == p.batches[pol.uniqueBatch].View()
              && EnteredBatch(p, pol, now).usedSlots != {}
  {
    if !Renews(p, pol.uniqueBatch, now) {
      assert FineIn(p, p.batches[pol.uniqueBatch]);
    }
    hide BatchState.Valid;
  }

  // ---------------------------------------------------------------------
  // One rollback, in any state.

  /** A rollback releases the slot from its own generation and leaves every other
      generation alone, also a newer one of the same name; addresses another slot owns
      stay used, and a generation that becomes empty is forgotten. */
  lemma RollbackIsExact(p: Pool, r: Reservation)
    requires BatchesFine(p) && r.batch.Some?
    ensures var q, b := Rollback(p, r), r.batch.value;
            && (forall n :: n != b.name ==> (n in q.batches <==> n in p.batches))
            && (forall n :: n != b.name && n in q.batches ==> q.batches[n] == p.batches[n])
            && (!StillStored(p, b) ==> q.batches == p.batches)
            && (StillStored(p, b) ==>
                  (b.name !in q.batches <==> p.batches[b.name].usedSlots == {b.slotID}))
            && (StillStored(p, b) && b.name in q.batches ==>
                  var before, after := p.batches[b.name], q.batches[b.name];
                  && after.usedSlots == before.usedSlots - {b.slotID}
                  && (forall other :: other != b.slotID ==> after.IPsOf(other) == before.IPsOf(other))
                  && after.IPsOf(b.slotID) == {}
                  && (forall ip :: ip in after.usedIPs <==> ip in before.usedIPs && before.OwnedByOther(b.slotID, ip))
                  && after.burnSeq == before.burnSeq && after.expiresAt == before.expiresAt && after.gen == before.gen)
  {
    RollbackIPs(p, r);
    hide Rollback;
    var b := r.batch.value;
    if StillStored(p, b) {
      var before := p.batches[b.name];
      assert FineIn(p, before);
      ReleaseKeepsValid(before, b.slotID);
      ReleasedRest(before, b.slotID);
      hide BatchState.Release;
      hide BatchState.Valid;
    }
  }

  lemma ReleasedRest(b: BatchState, slotID: string)
    ensures var c := b.Release(slotID);
            c.burnSeq == b.burnSeq && c.expiresAt == b.expiresAt && c.gen == b.gen && c.IPsOf(slotID) == {}
  {}

  // ---------------------------------------------------------------------
  // Over whole runs: what one step does to one stored generation.

  /** The step's operations on the slots and addresses of generation `gen`. */
  function OpsAt(s: System, step: Step, gen: nat): seq<Op>
    requires s.pool.Wf() && Enabled(s, step)
  {
    match step
    case Picking(_, _, now, _) =>
      if Chosen(s, step).Some? && Chosen(s, step).value.reservation.batch.Some?
         && Chosen(s, step).value.reservation.batch.value.gen == gen
      then [Reserving(Chosen(s, step).value.reservation.batch.value.slotID,
          s.pool.At(Chosen(s, step).value.state).publicIP, now)]
      else []
    case RollingBack(id) =>
      if s.inflight[id].reservation.batch.Some? && s.inflight[id].reservation.batch.value.gen == gen
         && StillStored(s.pool, s.inflight[id].reservation.batch.value)
      then [Op.Releasing(s.inflight[id].reservation.batch.value.slotID)] else []
    case Reporting(c, _) =>
      (match ReportedSlot(s.pool, c)
       case Ok(id) => [Op.Releasing(id)]
       case Err(_) => [])
    case Measuring(h, ip, _, _, now) => [Backfilling(s.pool.At(h).spec.id, ip, now)]
    case _ => []
  }

  lemma ApplyOne(b: BatchState, op: Op)
    ensures ApplyAll(b, [op]) == Apply(b, op)
  {
    assert ApplyAll(Apply(b, op), [op][1..]) == Apply(b, op);
  }

  lemma ReleaseRespectsView(b: BatchState, c: BatchState, slotID: string)
    requires b.View() == c.View()
    ensures b.Release(slotID).View() == c.Release(slotID).View()
  {
    var d, e := b.Release(slotID), c.Release(slotID);
    forall ip ensures ip in d.usedIPs.Keys <==> ip in e.usedIPs.Keys {
      assert ip in b.usedIPs.Keys <==> ip in c.usedIPs.Keys;
    }
    assert d.usedIPs.Keys == e.usedIPs.Keys;
  }

  lemma ApplyRespectsView(b: BatchState, c: BatchState, op: Op)
    requires b.View() == c.View()
    ensures Apply(b, op).View() == Apply(c, op).View()
  {
    match op
    case Reserving(slotID, ip, at) =>
      AddIPRespectsView(b.(usedSlots := b.usedSlots + {slotID}), c.(usedSlots := c.usedSlots + {slotID}), slotID, ip,
          at);
    case Backfilling(slotID, ip, at) => AddIPRespectsView(b, c, slotID, ip, at);
    case Releasing(slotID) => ReleaseRespectsView(b, c, slotID);
  }

  lemma AddIPRespectsView(b: BatchState, c: BatchState, slotID: string, ip: Addr, at: Time)
    requires b.View() == c.View()
    ensures b.AddIP(slotID, ip, at).View() == c.AddIP(slotID, ip, at).View()
  {
    assert b.usedIPs[ip := at].Keys == b.usedIPs.Keys + {ip};
    assert c.usedIPs[ip := at].Keys == c.usedIPs.Keys + {ip};
  }

  lemma {:induction false} ApplyAllRespectsView(b: BatchState, c: BatchState, ops: seq<Op>)
    requires b.View() == c.View()
    ensures ApplyAll(b, ops).View() == ApplyAll(c, ops).View()
    decreases ops
  {
    if ops != [] {
      ApplyRespectsView(b, c, ops[0]);
      ApplyAllRespectsView(Apply(b, ops[0]), Apply(c, ops[0]), ops[1..]);
    }
  }

  lemma {:induction false} ApplyInTwo(b: BatchState, ops: seq<Op>, more: seq<Op>)
    ensures ApplyAll(b, ops + more) == ApplyAll(ApplyAll(b, ops), more)
    decreases ops
  {
    if ops == [] {
      assert [] + more == more;
    } else {
      assert (ops + more)[1..] == ops[1..] + more;
      ApplyInTwo(Apply(b, ops[0]), ops[1..], more);
    }
  }

  lemma BurnsKeepView(b: BatchState, c: BatchState)
    requires SameButBurns(b, c)
    ensures c.View() == b.View()
  {}

  lemma MildKeepsView(p: Pool, q: Pool, now: Time, n: string)
    requires Mild(p, q, now) && n in q.batches
    ensures n in p.batches && q.batches[n].View() == p.batches[n].View() && q.batches[n].gen == p.batches[n].gen
  {
    hide MildStates;
    hide MildCooldowns;
    hide RingsValid;
    assert SameButBurns(p.batches[n], q.batches[n]);
    BurnsKeepView(p.batches[n], q.batches[n]);
  }

  lemma ReservedView(p: Pool, pol: Policy, h: Handle, now: Time, n: string)
    requires p.Wf() && BatchesFine(p) && n in Reserved(p, pol, h, now).batches
    requires n in p.batches && Reserved(p, pol, h, now).batches[n].gen == p.batches[n].gen
    ensures var ops := if pol.uniqueBatch != "" && EnteredBatch(p, pol, now).gen == p.batches[n].gen
                       then [Reserving(p.At(h).spec.id, p.At(h).publicIP, now)] else [];
            Reserved(p, pol, h, now).batches[n].View() == ApplyAll(p.batches[n], ops).View()
  {
    if pol.uniqueBatch == "" {
      ReservedNoBatch(p, pol, h, now);
    } else {
      ReservedBatches(p, pol, h, now);
      hide Reserved;
      var b, op := EnteredBatch(p, pol, now), Reserving(p.At(h).spec.id, p.At(h).publicIP, now);
      ReserveKeepsGen(b, op.slotID, op.ip, now);
      ApplyOne(p.batches[n], op);
      EnteredGen(p, pol, now);
      if n == pol.uniqueBatch {
        EnteredView(p, pol, now);
        hide EnteredBatch;
        ApplyRespectsView(b, p.batches[n], op);
      } else {
        OtherGens(p, pol, now, n);
      }
    }
  }

  lemma PickView(s: System, step: Step, n: string)
    requires Base(s) && Granted(s) && Enabled(s, step) && step.Picking?
    requires n in s.pool.batches && n in PoolAfter(s, step).batches
             && PoolAfter(s, step).batches[n].gen == s.pool.batches[n].gen
    ensures PoolAfter(s, step).batches[n].View()
            == ApplyAll(s.pool.batches[n], OpsAt(s, step, s.pool.batches[n].gen)).View()
  {
    hide Pick;
    hide Shaped;
    hide Mild;
    hide Pool.Wf;
    hide BatchesFine;
    hide GrantsFine;
    hide Reserved;
    hide ChosenFrom;
    hide Refusal;
    hide EnteredBatch;
    hide ApplyAll;
    hide BatchState.View;
    var p, now, pol, target := s.pool, step.now, step.pol, Scope(step.pol, step.target);
    var chosenIn, q := PickShape(p, pol, step.target, now, step.luck);
    var r := Pick(p, pol, step.target, now, step.luck);
    if r.1.Ok? {
      GrantedShape(p, chosenIn, q, pol, target, now, r);
      var c := r.1.value;
      MildBooks(p, q, now);
      MildKeepsWf(p, q, now);
      ReservedFrom(q, pol, c.state, now, n);
      if n in q.batches {
        MildKeepsView(p, q, now, n);
        ReservedView(q, pol, c.state, now, n);
        ChosenIP(p, chosenIn, q, c.state, now);
        ApplyAllRespectsView(p.batches[n], q.batches[n], OpsAt(s, step, p.batches[n].gen));
      } else {
        OldGen(p, n);
      }
    } else {
      DeniedShape(p, chosenIn, q, pol, target, now, r);
      MildKeepsView(p, r.0, now, n);
      NoOps(p.batches[n]);
    }
  }

  lemma NoOps(b: BatchState)
    ensures ApplyAll(b, []) == b
  {}

  lemma OldGen(p: Pool, n: string)
    requires p.Wf() && n in p.batches
    ensures p.batches[n].gen < p.nextGen
  {}

  /** A generation that was not stored before is new. */
  lemma ReservedFrom(p: Pool, pol: Policy, h: Handle, now: Time, n: string)
    requires n in Reserved(p, pol, h, now).batches
    ensures n !in p.batches ==> Reserved(p, pol, h, now).batches[n].gen == p.nextGen
  {
    if pol.uniqueBatch != "" {
      ReservedBatches(p, pol, h, now);
      ReserveKeepsGen(EnteredBatch(p, pol, now), p.At(h).spec.id, p.At(h).publicIP, now);
    }
  }

  lemma RollbackView(s: System, id: nat, n: string)
    requires Base(s) && Granted(s) && Enabled(s, RollingBack(id))
    requires n in s.pool.batches && n in PoolAfter(s, RollingBack(id)).batches
    ensures PoolAfter(s, RollingBack(id)).batches[n].View()
            == ApplyAll(s.pool.batches[n], OpsAt(s, RollingBack(id), s.pool.batches[n].gen)).View()
  {
    hide Rollback;
    hide BatchState.View;
    hide BatchState.Release;
    hide GrantsFine;
    hide BatchesFine;
    hide ApplyAll;
    var p, r := s.pool, s.inflight[id].reservation;
    assert forall m :: m in p.batches && p.batches[m].gen == p.batches[n].gen ==> m == n;
    hide Pool.Wf;
    RollbackIPs(p, r);
    NoOps(p.batches[n]);
    if r.batch.Some? && StillStored(p, r.batch.value) {
      ApplyOne(p.batches[n], Op.Releasing(r.batch.value.slotID));
    }
  }

  lemma ReportView(s: System, c: Complaint, now: Time, n: string)
    requires Base(s) && Granted(s) && Enabled(s, Reporting(c, now))
    requires n in s.pool.batches && n in PoolAfter(s, Reporting(c, now)).batches
    ensures PoolAfter(s, Reporting(c, now)).batches[n].View()
            == ApplyAll(s.pool.batches[n], OpsAt(s, Reporting(c, now), s.pool.batches[n].gen)).View()
  {
    var p := s.pool;
    NoOps(p.batches[n]);
    assert FineIn(p, p.batches[n]);
    hide Granted;
    hide Base;
    hide FineIn;
    hide Punish;
    match ReportedSlot(s.pool, c)
    case Err(_) =>
    case Ok(id) =>
      PunishIPs(p, id, c, now);
      ReportedView(p, p.batches[n], id);
      hide ReportedSlot;
      hide BatchState.View;
      hide ApplyAll;
      hide Released;
  }

  lemma ReportedView(p: Pool, b: BatchState, id: string)
    requires FineIn(p, b)
    ensures Released(b, id).View() == ApplyAll(b, [Op.Releasing(id)]).View()
  {
    ApplyOne(b, Op.Releasing(id));
    if id !in b.usedSlots { ReleaseUnused(b, id); }
    hide BatchState.Release;
    hide BatchState.View;
    hide FineIn;
  }

  /** Releasing a slot the generation has not consumed changes nothing. */
  lemma ReleaseUnused(b: BatchState, slotID: string)
    requires b.Valid() && slotID !in b.usedSlots
    ensures b.Release(slotID).View() == b.View()
  {
    var c := b.Release(slotID);
    assert b.IPsOf(slotID) == {};
    assert c.slotIPs == b.slotIPs && c.usedSlots == b.usedSlots && c.usedIPs == b.usedIPs;
  }

  lemma MeasureView(s: System, step: Step, n: string)
    requires Base(s) && Enabled(s, step) && step.Measuring?
    requires n in s.pool.batches && n in PoolAfter(s, step).batches
    ensures PoolAfter(s, step).batches[n].View()
            == ApplyAll(s.pool.batches[n], OpsAt(s, step, s.pool.batches[n].gen)).View()
  {
    var p := s.pool;
    MeasuredIPs(p, step.h, step.ip, step.checkedAt, step.probed, step.now);
    ApplyOne(p.batches[n], Backfilling(p.At(step.h).spec.id, step.ip, step.now));
    hide Measure;
    hide BatchState.AddIP;
    hide BatchState.View;
    hide ApplyAll;
  }

  lemma ExpireView(p: Pool, now: Time, n: string)
    requires p.Wf()
    ensures n in Expire(p, now).batches ==> n in p.batches && Expire(p, now).batches[n].View() == p.batches[n].View()
    ensures n in Housekeep(p, now).batches ==> n in p.batches
                                               && Housekeep(p, now).batches[n].View() == p.batches[n].View()
  {
    ExpireIsMild(p, now);
    HousekeepIPs(p, now);
    hide Expire;
    hide Housekeep;
    hide BatchState.View;
    if n in Expire(p, now).batches { MildKeepsView(p, Expire(p, now), now, n); }
    hide Mild;
  }

  /** A stored generation goes through exactly the step's operations on it. */
  lemma StepAppliesOps(s: System, step: Step, n: string)
    requires Base(s) && Granted(s) && Enabled(s, step)
    requires n in s.pool.batches && n in PoolAfter(s, step).batches
             && PoolAfter(s, step).batches[n].gen == s.pool.batches[n].gen
    ensures PoolAfter(s, step).batches[n].View()
            == ApplyAll(s.pool.batches[n], OpsAt(s, step, s.pool.batches[n].gen)).View()
  {
    hide Pick;
    hide Establish;
    hide Rollback;
    hide ReleaseLease;
    hide NoteFailure;
    hide DropSession;
    hide Report;
    hide Prefer;
    hide Measure;
    hide RestorePreference;
    hide RestoreCooldown;
    hide Housekeep;
    hide Expire;
    hide Reconcile;
    hide OpenTunnel;
    hide RollbackOpen;
    hide MarkOpening;
    hide CommitOpen;
    hide FinishOpen;
    hide FailEntry;
    hide CountFailure;
    hide TrimOpens;
    hide Granted;
    hide Pool.Wf;
    hide BatchState.View;
    hide Chosen;
    var p := s.pool;
    NoOps(p.batches[n]);
    hide ApplyAll;
    match step
    case Picking(_, _, _, _) => PickView(s, step, n);
    case RollingBack(id) => RollbackView(s, id, n);
    case Reporting(c, now) => ReportView(s, c, now, n);
    case Measuring(_, _, _, _, _) => MeasureView(s, step, n);
    case Housekeeping(now) => ExpireView(p, now, n);
    case Saving(now) => ExpireView(p, now, n);
    case Reconciling(specs, done) => ReconcileKeeps(p, specs, done);
    case _ => QuietBatches(s, step);
  }

  // ---------------------------------------------------------------------
  // Whole runs.

  /** What happened to generation `gen` in the steps from `i` up to `j`. Every reachable
      step counts: its pool is well formed. */
  ghost function OpsBetween(states: seq<System>, steps: seq<Step>, gen: nat, i: nat, j: nat): seq<Op>
    requires i <= j <= |steps| < |states|
    decreases j - i
  {
    if i == j then [] else OpsBetween(states, steps, gen, i, j - 1) + OpsOfStep(states[j - 1], steps[j - 1], gen)
  }

  ghost function OpsOfStep(s: System, step: Step, gen: nat): seq<Op> {
    if s.pool.Wf() && Enabled(s, step) then OpsAt(s, step, gen) else []
  }

  ghost predicate StoredThroughout(states: seq<System>, b: BatchReservation, i: nat, j: nat)
    requires i <= j < |states|
  {
    forall k :: i <= k <= j ==> StillStored(states[k].pool, b)
  }

  ghost function StoredView(p: Pool, b: BatchReservation): (set<string>, map<string, set<Addr>>, set<Addr>)
    requires StillStored(p, b)
  {
    p.batches[b.name].View()
  }

  /** While it stays stored, a generation goes through exactly those operations. */
  lemma {:induction false} GenerationFollowsOps(states: seq<System>, steps: seq<Step>, b: BatchReservation, i: nat,
                                                j: nat)
    requires Run(states, steps) && i <= j <= |steps|
    requires StoredThroughout(states, b, i, j)
    ensures StillStored(states[i].pool, b) && StillStored(states[j].pool, b)
    ensures StoredView(states[j].pool, b) == ApplyAll(states[i].pool.batches[b.name],
            OpsBetween(states, steps, b.gen, i, j)).View()
    decreases j - i
  {
    hide Initial;
    hide Next;
    hide Granted;
    hide Base;
    hide OpsOfStep;
    hide BatchState.View;
    hide ApplyAll;
    assert StillStored(states[i].pool, b) && StillStored(states[j].pool, b);
    if i == j {
      NoOps(states[i].pool.batches[b.name]);
    } else {
      GenerationFollowsOps(states, steps, b, i, j - 1);
      AlwaysGranted(states, steps, j - 1);
      assert Next(states[j - 1], steps[j - 1], states[j]);
      var before, start := states[j - 1].pool.batches[b.name], states[i].pool.batches[b.name];
      var ops, more := OpsBetween(states, steps, b.gen, i, j - 1), OpsOfStep(states[j - 1], steps[j - 1], b.gen);
      OneStepOps(states[j - 1], steps[j - 1], states[j], b);
      AppliedInTwo(start, ops, before, more, states[j].pool.batches[b.name]);
    }
  }

  lemma AppliedInTwo(start: BatchState, ops: seq<Op>, before: BatchState, more: seq<Op>, after: BatchState)
    requires before.View() == ApplyAll(start, ops).View() && after.View() == ApplyAll(before, more).View()
    ensures after.View() == ApplyAll(start, ops + more).View()
  {
    ApplyAllRespectsView(before, ApplyAll(start, ops), more);
    ApplyInTwo(start, ops, more);
    hide BatchState.View;
  }

  lemma OneStepOps(s: System, step: Step, s': System, b: BatchReservation)
    requires Base(s) && Granted(s) && Next(s, step, s') && StillStored(s.pool, b) && StillStored(s'.pool, b)
    ensures StoredView(s'.pool, b) == ApplyAll(s.pool.batches[b.name], OpsOfStep(s, step, b.gen)).View()
  {
    StepAppliesOps(s, step, b.name);
    hide Granted;
    hide PoolAfter;
    hide InflightAfter;
    hide LeasesAfter;
    hide OpenersAfter;
    hide GrantsAfter;
    hide TaintedAfter;
    hide BansAfter;
    hide Enabled;
    hide Pool.Wf;
    hide OpsAt;
  }

  // ---------------------------------------------------------------------
  // The acquisition itself.

  /** The step granted a slot of a batch under the identifier `id`. */
  ghost predicate GrantsAs(s: System, step: Step, id: nat, c: Choice) {
    && s.pool.Wf() && Enabled(s, step) && step.Picking? && id == s.nextID
    && Chosen(s, step) == Some(c) && c.reservation.batch.Some?
  }

  lemma InflightAfterPick(s: System, step: Step, s': System, id: nat, c: Choice)
    requires GrantsAs(s, step, id, c) && Next(s, step, s')
    ensures id in s'.inflight && s'.inflight[id].reservation == c.reservation && s'.nextID == id + 1
  {
    hide Chosen;
    hide Pool.Wf;
    hide PoolAfter;
    hide GrantsAfter;
    hide TaintedAfter;
  }

  lemma InflightKept(s: System, step: Step, s': System, id: nat)
    requires s.pool.Wf() && Next(s, step, s') && id < s.nextID
    ensures id in s'.inflight ==> id in s.inflight && s'.inflight[id] == s.inflight[id]
    ensures id < s'.nextID
  {
    hide Chosen;
    hide Pool.Wf;
    hide PoolAfter;
    hide GrantsAfter;
    hide TaintedAfter;
  }

  /** An acquisition keeps its reservation until it ends. */
  lemma {:induction false} ReservationsAreFixed(states: seq<System>, steps: seq<Step>, i: nat, j: nat, c: Choice)
    requires Run(states, steps) && i < j < |states| && GrantsAs(states[i], steps[i], states[i].nextID, c)
    ensures var id := states[i].nextID;
            id < states[j].nextID && (id in states[j].inflight ==> states[j].inflight[id].reservation == c.reservation)
    decreases j
  {
    hide Initial;
    hide GrantsAs;
    hide Next;
    var id := states[i].nextID;
    assert Next(states[j - 1], steps[j - 1], states[j]);
    if j == i + 1 {
      InflightAfterPick(states[i], steps[i], states[j], id, c);
    } else {
      ReservationsAreFixed(states, steps, i, j - 1, c);
      ReachableIsWellFormed(states, steps, j - 1);
      BaseIsWf(states[j - 1]);
      hide Base;
      hide Pool.Wf;
      InflightKept(states[j - 1], steps[j - 1], states[j], id);
    }
  }

  /** The generation a granted selection enters, as it stood before: the stored one, or
      an empty new one. */
  function EnteredFrom(p: Pool, name: string, now: Time): BatchState {
    if name in p.batches && !Renews(p, name, now) then p.batches[name] else NewBatch(p.nextGen, now)
  }

  lemma EnteredFromView(p: Pool, q: Pool, pol: Policy, now: Time)
    requires Mild(p, q, now)
    ensures EnteredFrom(p, pol.uniqueBatch, now).View() == EnteredBatch(q, pol, now).View()
  {
    var name := pol.uniqueBatch;
    if name in q.batches { SharedExpiry(p, q, name, now); MildKeepsView(p, q, now, name); }
    if name in p.batches && !(now > p.batches[name].expiresAt) { MildKeepsLive(p, q, now, name); }
    MildGen(p, q, now);
    hide Mild;
  }

  lemma MildGen(p: Pool, q: Pool, now: Time)
    requires Mild(p, q, now)
    ensures q.nextGen == p.nextGen
  {
    hide MildStates;
    hide MildBatches;
    hide MildCooldowns;
    hide RingsValid;
  }

  lemma MildKeepsLive(p: Pool, q: Pool, now: Time, name: string)
    requires Mild(p, q, now) && name in p.batches && !(now > p.batches[name].expiresAt)
    ensures name in q.batches
  {
    hide MildStates;
    hide MildCooldowns;
    hide RingsValid;
  }

  /** A grant leaves its generation as one fresh reservation of the entered one. */
  lemma GrantReserves(s: System, step: Step, s': System, c: Choice)
    requires Base(s) && Granted(s) && Next(s, step, s') && GrantsAs(s, step, s.nextID, c)
    ensures var b := c.reservation.batch.value;
            var start := EnteredFrom(s.pool, b.name, step.now);
            && start.Valid()
            && StillStored(s'.pool, b)
            && StoredView(s'.pool, b) == start.Reserve(b.slotID, s.pool.At(c.state).publicIP, step.now).View()
            && (!Reuses(s.pool, c, step.now) ==> b.slotID !in start.usedSlots)
  {
    hide Pick;
    hide Shaped;
    hide Mild;
    hide Pool.Wf;
    hide GrantsFine;
    hide Reserved;
    hide ChosenFrom;
    hide Refusal;
    hide EnteredBatch;
    hide Reuses;
    hide BatchState.View;
    hide BatchState.Reserve;
    hide BatchState.Valid;
    hide BatchesFine;
    hide GrantsAfter;
    hide TaintedAfter;
    hide BansAfter;
    var p, now, pol, target := s.pool, step.now, step.pol, Scope(step.pol, step.target);
    var chosenIn, q := PickShape(p, pol, step.target, now, step.luck);
    var r := Pick(p, pol, step.target, now, step.luck);
    GrantedShape(p, chosenIn, q, pol, target, now, r);
    assert r.1.value == c && s'.pool == r.0;
    var b, ip := c.reservation.batch.value, s.pool.At(c.state).publicIP;
    var start, entered := EnteredFrom(p, b.name, now), EnteredBatch(q, pol, now);
    assert b == BatchReservation(pol.uniqueBatch, entered.gen, q.At(c.state).spec.id) && pol.uniqueBatch != "";
    ReservedBatches(q, pol, c.state, now);
    ChosenIP(p, chosenIn, q, c.state, now);
    EnteredFromView(p, q, pol, now);
    StartIsValid(p, b.name, now);
    ReserveKeepsGen(entered, b.slotID, ip, now);
    hide EnteredFrom;
    hide Ticket;
    SameReserve(start, entered, b.slotID, ip, now);
    if !Reuses(p, c, now) {
      NotReusedIsNew(p, chosenIn, q, pol, target, now, c);
      SameViewSameSlots(start, entered);
    }
  }

  lemma StartIsValid(p: Pool, name: string, now: Time)
    requires BatchesFine(p)
    ensures EnteredFrom(p, name, now).Valid()
  {
    NewIsValid(p.nextGen, now);
    if name in p.batches { assert FineIn(p, p.batches[name]); }
    hide BatchState.Valid;
  }

  lemma SameReserve(b: BatchState, c: BatchState, slotID: string, ip: Addr, now: Time)
    requires b.View() == c.View()
    ensures b.Reserve(slotID, ip, now).View() == c.Reserve(slotID, ip, now).View()
  {
    ApplyRespectsView(b, c, Reserving(slotID, ip, now));
    hide BatchState.View;
  }

  /** The generation after a rollback: forgotten if nothing is left, else stored. */
  ghost predicate LeftWith(p: Pool, b: BatchReservation, others: BatchState) {
    if others.usedSlots == {} then b.name !in p.batches
    else StillStored(p, b) && StoredView(p, b) == others.View()
  }

  lemma RollbackLeaves(p: Pool, r: Reservation, others: BatchState)
    requires r.batch.Some? && StillStored(p, r.batch.value)
    requires p.batches[r.batch.value.name].Release(r.batch.value.slotID).View() == others.View()
    ensures LeftWith(Rollback(p, r), r.batch.value, others)
  {
    var b := r.batch.value;
    RollbackIPs(p, r);
    ReserveKeepsGen(p.batches[b.name], b.slotID, NoAddr, ZERO_TIME);
    SameViewSameSlots(p.batches[b.name].Release(b.slotID), others);
    hide Rollback;
    hide BatchState.Release;
    hide BatchState.View;
  }

  /** Whatever reservations, measurements, reports and rollbacks came in between, a
      rolled-back grant leaves its generation exactly as the operations on the other
      slots alone would have left it; an emptied generation is forgotten. */
  lemma RollbackErases(states: seq<System>, steps: seq<Step>, i: nat, j: nat, c: Choice)
    requires Run(states, steps) && i < j < |steps|
    requires GrantsAs(states[i], steps[i], states[i].nextID, c) && !Reuses(states[i].pool, c, steps[i].now)
    requires steps[j] == RollingBack(states[i].nextID)
    requires StoredThroughout(states, c.reservation.batch.value, i + 1, j)
    ensures var b := c.reservation.batch.value;
            var start := EnteredFrom(states[i].pool, b.name, steps[i].now);
            var ops := OpsBetween(states, steps, b.gen, i + 1, j);
            LeftWith(states[j + 1].pool, b, ApplyAll(start, Without(ops, b.slotID)))
  {
    var b, ip, now := c.reservation.batch.value, states[i].pool.At(c.state).publicIP, steps[i].now;
    hide Initial;
    hide Next;
    hide GrantsAs;
    hide Granted;
    hide Base;
    hide Reuses;
    hide EnteredFrom;
    hide OpsOfStep;
    hide LeftWith;
    hide ApplyAll;
    hide BatchState.View;
    hide BatchState.Reserve;
    hide BatchState.Release;
    hide BatchState.Valid;
    var start := EnteredFrom(states[i].pool, b.name, now);
    var ops := OpsBetween(states, steps, b.gen, i + 1, j);
    assert Next(states[i], steps[i], states[i + 1]) && Next(states[j], steps[j], states[j + 1]);
    AlwaysGranted(states, steps, i);
    AlwaysGranted(states, steps, j);
    GrantReserves(states[i], steps[i], states[i + 1], c);
    GenerationFollowsOps(states, steps, b, i + 1, j);
    ReservationsAreFixed(states, steps, i, j, c);
    RolledBackPool(states[j], states[i].nextID, states[j + 1], c.reservation);
    ErasedView(start, b.slotID, ip, now, states[i + 1].pool.batches[b.name], ops, states[j].pool.batches[b.name]);
    RollbackLeaves(states[j].pool, c.reservation, ApplyAll(start, Without(ops, b.slotID)));
  }

  lemma RolledBackPool(s: System, id: nat, s': System, r: Reservation)
    requires Base(s) && Next(s, RollingBack(id), s') && (id in s.inflight ==> s.inflight[id].reservation == r)
    ensures s'.pool == Rollback(s.pool, r)
  {
    hide Pool.Wf;
    hide Rollback;
    hide GrantsAfter;
  }

  lemma ErasedView(start: BatchState, slotID: string, ip: Addr, now: Time, first: BatchState, ops: seq<Op>,
                   last: BatchState)
    requires start.Valid() && slotID !in start.usedSlots
    requires first.View() == start.Reserve(slotID, ip, now).View()
    requires last.View() == ApplyAll(first, ops).View()
    ensures last.Release(slotID).View() == ApplyAll(start, Without(ops, slotID)).View()
  {
    ApplyAllRespectsView(first, start.Reserve(slotID, ip, now), ops);
    ReleaseRespectsView(last, ApplyAll(start.Reserve(slotID, ip, now), ops), slotID);
    ReleaseUndoesReserve(start, slotID, ip, now, ops);
    hide BatchState.View;
  }
}
