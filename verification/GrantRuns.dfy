/** What a batch generation grants: slots and addresses never repeat, over whole runs. */
module GrantRuns {
  import opened Common
  import opened PolicyTypes
  import opened Batches
  import opened PoolState
  import opened Selection
  import opened PoolSystem
  import opened WellFormed
  import opened BatchRuns

  /** The generation remembers a live grant of its own. */
  ghost predicate Remembers(b: BatchState, g: Grant) {
    b.gen == g.gen ==> g.slotID in b.usedSlots && (g.ip != NoAddr ==> g.ip in b.IPsOf(g.slotID))
  }

  ghost predicate AllRemembered(p: Pool, grants: map<nat, Grant>) {
    forall n, id :: n in p.batches && id in grants ==> Remembers(p.batches[n], grants[id])
  }

  ghost predicate GensKnown(p: Pool, grants: map<nat, Grant>) {
    forall id :: id in grants ==> grants[id].gen < p.nextGen
  }

  ghost predicate Apart(g: Grant, k: Grant) { g.slotID != k.slotID && g.ip != k.ip }

  /** Live grants of one untainted generation differ in slot and in address, and every
      one of them had a measured address. */
  ghost predicate GrantsUnique(grants: map<nat, Grant>, tainted: set<nat>) {
    && (forall id :: id in grants && grants[id].gen !in tainted ==> grants[id].ip != NoAddr)
    && (forall i, j ::
          i in grants && j in grants && i != j && grants[i].gen == grants[j].gen && grants[i].gen !in tainted ==>
            Apart(grants[i], grants[j]))
  }

  ghost predicate GrantsFine(p: Pool, grants: map<nat, Grant>, tainted: set<nat>) {
    AllRemembered(p, grants) && GensKnown(p, grants) && GrantsUnique(grants, tainted)
  }

  lemma InheritedGrants(p: Pool, q: Pool, grants: map<nat, Grant>, tainted: set<nat>)
    requires Inherits(p, q) && GrantsFine(p, grants, tainted)
    ensures GrantsFine(q, grants, tainted)
  {
    hide GrantsUnique;
    forall n, id | n in q.batches && id in grants ensures Remembers(q.batches[n], grants[id]) {
      assert KeepsConsumed(p.batches[n], q.batches[n]);
      assert Remembers(p.batches[n], grants[id]);
    }
  }

  lemma FewerGrants(p: Pool, grants: map<nat, Grant>, fewer: map<nat, Grant>, tainted: set<nat>)
    requires GrantsFine(p, grants, tainted)
    requires fewer.Keys <= grants.Keys && forall id :: id in fewer ==> fewer[id] == grants[id]
    ensures GrantsFine(p, fewer, tainted)
  {
    forall n, id | n in p.batches && id in fewer ensures Remembers(p.batches[n], fewer[id]) {
      assert Remembers(p.batches[n], grants[id]);
    }
    forall i, j | i in fewer && j in fewer && i != j && fewer[i].gen == fewer[j].gen && fewer[i].gen !in tainted
      ensures Apart(fewer[i], fewer[j])
    {
      assert Apart(grants[i], grants[j]);
    }
  }

  /** Releasing a slot keeps what other slots' grants rely on. */
  lemma ReleasedRemembers(b: BatchState, slotID: string, g: Grant)
    requires Remembers(b, g) && !(b.gen == g.gen && g.slotID == slotID)
    ensures Remembers(b.Release(slotID), g)
  {
    ReleaseKeepsOthers(b, slotID);
    hide BatchState.Release;
  }

  lemma RollbackGrants(p: Pool, r: Reservation, grants: map<nat, Grant>, tainted: set<nat>)
    requires GrantsFine(p, grants, tainted)
    requires r.batch.Some? && StillStored(p, r.batch.value) ==>
               forall id :: id in grants ==> !(grants[id].gen == r.batch.value.gen
                                             && grants[id].slotID == r.batch.value.slotID)
    ensures GrantsFine(Rollback(p, r), grants, tainted)
  {
    RollbackIPs(p, r);
    hide Rollback;
    hide GrantsUnique;
    var q := Rollback(p, r);
    forall n, id | n in q.batches && id in grants ensures Remembers(q.batches[n], grants[id]) {
      hide BatchState.Release;
      assert n in p.batches && Remembers(p.batches[n], grants[id]);
      if q.batches[n] != p.batches[n] {
        ReleasedRemembers(p.batches[n], r.batch.value.slotID, grants[id]);
      }
    }
  }

  lemma PunishGrants(p: Pool, slotID: string, c: Complaint, now: Time, grants: map<nat, Grant>, tainted: set<nat>)
    requires slotID in p.slots && GrantsFine(p, grants, tainted)
    requires forall id :: id in grants ==> !(StoredGen(p, grants[id].gen) && grants[id].slotID == slotID)
    ensures GrantsFine(Punish(p, slotID, c, now), grants, tainted)
  {
    PunishIPs(p, slotID, c, now);
    hide Punish;
    hide GrantsUnique;
    var q := Punish(p, slotID, c, now);
    forall n, id | n in q.batches && id in grants ensures Remembers(q.batches[n], grants[id]) {
      hide BatchState.Release;
      assert n in p.batches && Remembers(p.batches[n], grants[id]);
      if p.batches[n].gen == grants[id].gen {
        assert StoredGen(p, grants[id].gen);
        ReleasedRemembers(p.batches[n], slotID, grants[id]);
      } else {
        ReleaseKeepsOthers(p.batches[n], slotID);
      }
    }
  }

  // ---------------------------------------------------------------------
  // A new grant.

  /** The generation a grant enters, as it was stored, excluded neither the slot nor its
      address: the grant is new to it. */
  ghost predicate NewTo(b: BatchState, slotID: string, ip: Addr) {
    slotID !in b.usedSlots && ip !in b.usedIPs && ip != NoAddr
  }

  lemma NewToIsApart(b: BatchState, slotID: string, ip: Addr, g: Grant)
    requires b.Books() && NewTo(b, slotID, ip) && Remembers(b, g) && g.gen == b.gen
    ensures Apart(g, Grant(b.gen, slotID, ip))
  {
    assert b.Owned(ip) ==> ip in b.usedIPs;
    assert g.slotID in b.slotIPs && ip in b.slotIPs[g.slotID] ==> b.Owned(ip);
  }

  /** The books of the entered generation after the reservation. */
  lemma ReservedRemembers(p: Pool, q: Pool, pol: Policy, h: Handle, now: Time, grants: map<nat, Grant>, k: nat)
    requires p.Wf() && AllRemembered(p, grants) && GensKnown(p, grants)
    requires q == Reserved(p, pol, h, now) && pol.uniqueBatch != ""
    ensures var g := Grant(EnteredBatch(p, pol, now).gen, p.At(h).spec.id, p.At(h).publicIP);
            AllRemembered(q, grants[k := g]) && GensKnown(q, grants[k := g])
  {
    var g := Grant(EnteredBatch(p, pol, now).gen, p.At(h).spec.id, p.At(h).publicIP);
    var grants' := grants[k := g];
    ReservedBatches(p, pol, h, now);
    EnteredGen(p, pol, now);
    hide Reserved;
    forall n, i | n in q.batches && i in grants' ensures Remembers(q.batches[n], grants'[i]) {
      RemembersOne(p, q, pol, h, now, grants, k, n, i);
    }
    hide EnteredBatch;
  }

  lemma RemembersOne(p: Pool, q: Pool, pol: Policy, h: Handle, now: Time, grants: map<nat, Grant>, k: nat, n: string,
                     i: nat)
    requires p.Wf() && AllRemembered(p, grants) && GensKnown(p, grants) && pol.uniqueBatch != ""
    requires q.batches == p.batches[pol.uniqueBatch := EnteredBatch(p, pol, now).Reserve(p.At(h).spec.id,
             p.At(h).publicIP, now)]
    requires n in q.batches && (i == k || i in grants)
    ensures Remembers(q.batches[n], grants[k := Grant(EnteredBatch(p, pol, now).gen, p.At(h).spec.id,
            p.At(h).publicIP)][i])
  {
    var b := EnteredBatch(p, pol, now);
    ReserveKeepsConsumed(b, p.At(h).spec.id, p.At(h).publicIP, now);
    hide BatchState.Reserve;
    if n == pol.uniqueBatch {
      if i != k { EnteredRemembers(p, pol, now, grants, i); }
    } else {
      OtherGens(p, pol, now, n);
      if i != k { assert Remembers(p.batches[n], grants[i]); }
    }
    hide EnteredBatch;
    hide Pool.Wf;
  }

  lemma EnteredGen(p: Pool, pol: Policy, now: Time)
    requires p.Wf()
    ensures Renews(p, pol.uniqueBatch, now) ==> EnteredBatch(p, pol, now).gen == p.nextGen
    ensures !Renews(p, pol.uniqueBatch, now) ==>
            EnteredBatch(p, pol, now).gen == p.batches[pol.uniqueBatch].gen < p.nextGen
  {}

  lemma OtherGens(p: Pool, pol: Policy, now: Time, n: string)
    requires p.Wf() && n in p.batches && n != pol.uniqueBatch
    ensures p.batches[n].gen != EnteredBatch(p, pol, now).gen
  {}

  lemma EnteredRemembers(p: Pool, pol: Policy, now: Time, grants: map<nat, Grant>, i: nat)
    requires AllRemembered(p, grants) && GensKnown(p, grants) && i in grants
    ensures Remembers(EnteredBatch(p, pol, now), grants[i])
  {
    if !Renews(p, pol.uniqueBatch, now) {
      assert Remembers(p.batches[pol.uniqueBatch], grants[i]);
    }
  }

  /** Adding a grant that is new to its generation keeps uniqueness. */
  lemma NewGrantUnique(p: Pool, pol: Policy, h: Handle, now: Time, grants: map<nat, Grant>, tainted: set<nat>, k: nat)
    requires BatchesFine(p) && GrantsFine(p, grants, tainted) && k !in grants
    requires var b := EnteredBatch(p, pol, now); b.gen !in tainted ==> NewTo(b, p.At(h).spec.id, p.At(h).publicIP)
    ensures GrantsUnique(grants[k := Grant(EnteredBatch(p, pol, now).gen, p.At(h).spec.id, p.At(h).publicIP)], tainted)
  {
    var b := EnteredBatch(p, pol, now);
    var g := Grant(b.gen, p.At(h).spec.id, p.At(h).publicIP);
    EnteredIsFine(p, pol, now);
    forall i | i in grants && grants[i].gen == b.gen && b.gen !in tainted ensures Apart(grants[i], g) {
      EnteredRemembers(p, pol, now, grants, i);
      hide EnteredBatch;
      NewToIsApart(b, g.slotID, g.ip, grants[i]);
    }
    hide EnteredBatch;
    hide BatchesFine;
    hide AllRemembered;
    hide GensKnown;
  }

  /** An eligible slot is new to the generation it enters, unless that generation
      expires at this very instant. */
  lemma EligibleIsNew(p: Pool, q: Pool, s: SlotState, pol: Policy, target: string, now: Time)
    requires pol.uniqueBatch != "" && Eligible(p, s, pol, target, now) && MildBatches(p, q, now)
    requires pol.uniqueBatch in q.batches ==> q.batches[pol.uniqueBatch].expiresAt != now
    ensures NewTo(EnteredBatch(q, pol, now), s.spec.id, s.publicIP)
  {
    hide ContainsFold;
    hide BatchState.Valid;
    var name := pol.uniqueBatch;
    if !Renews(q, name, now) {
      assert SameButBurns(p.batches[name], q.batches[name]);
    }
  }

  /** Adding a taint only excuses more. */
  lemma MoreTaint(p: Pool, grants: map<nat, Grant>, tainted: set<nat>, more: set<nat>)
    requires GrantsFine(p, grants, tainted) && tainted <= more
    ensures GrantsFine(p, grants, more)
  {
    hide AllRemembered;
    hide GensKnown;
  }

  lemma ChoiceGrants(p: Pool, chosenIn: Pool, q: Pool, pol: Policy, target: string, now: Time, c: Choice,
                     k: nat, grants: map<nat, Grant>, tainted: set<nat>)
    requires p.Wf() && Mild(p, q, now) && Mild(chosenIn, q, now)
             && ChosenFrom(chosenIn, pol, target, now, c.state, c.origin)
    requires BatchesFine(p) && GrantsFine(p, grants, tainted) && k !in grants
    requires c.reservation == Ticket(q, pol, c.state, now)
    ensures pol.uniqueBatch == "" ==> GrantsFine(Reserved(q, pol, c.state, now), grants, tainted)
    ensures pol.uniqueBatch != "" ==>
              var b := EnteredBatch(q, pol, now);
              var more := if Reuses(p, c, now) then tainted + {b.gen} else tainted;
              GrantsFine(Reserved(q, pol, c.state, now), grants[k := Grant(b.gen, q.At(c.state).spec.id,
                  q.At(c.state).publicIP)], more)
  {
    MildBooks(p, q, now);
    MildKeepsWf(p, q, now);
    InheritedGrants(p, q, grants, tainted);
    MildKeepsMember(chosenIn, q, c.state, now);
    var r := Reserved(q, pol, c.state, now);
    if pol.uniqueBatch == "" {
      ReservedNoBatch(q, pol, c.state, now);
      hide Reserved;
      SameBatchGrants(q, r, grants, tainted);
    } else {
      hide GrantsFine;
      hide Reserved;
      hide Mild;
      hide ChosenFrom;
      var b := EnteredBatch(q, pol, now);
      var more := if Reuses(p, c, now) then tainted + {b.gen} else tainted;
      MoreTaint(q, grants, tainted, more);
      if !Reuses(p, c, now) {
        NotReusedIsNew(p, chosenIn, q, pol, target, now, c);
      }
      hide EnteredBatch;
      hide Reuses;
      hide Ticket;
      hide Pool.Wf;
      GrantOne(q, pol, c.state, now, grants, more, k);
    }
  }

  lemma GrantOne(q: Pool, pol: Policy, h: Handle, now: Time, grants: map<nat, Grant>, tainted: set<nat>, k: nat)
    requires q.Wf() && BatchesFine(q) && GrantsFine(q, grants, tainted) && k !in grants && pol.uniqueBatch != ""
    requires var b := EnteredBatch(q, pol, now); b.gen !in tainted ==> NewTo(b, q.At(h).spec.id, q.At(h).publicIP)
    ensures GrantsFine(Reserved(q, pol, h, now),
            grants[k := Grant(EnteredBatch(q, pol, now).gen, q.At(h).spec.id, q.At(h).publicIP)], tainted)
  {
    NewGrantUnique(q, pol, h, now, grants, tainted, k);
    ReservedRemembers(q, Reserved(q, pol, h, now), pol, h, now, grants, k);
    hide AllRemembered;
    hide GensKnown;
    hide GrantsUnique;
    hide Reserved;
    hide EnteredBatch;
  }

  lemma SameBatchGrants(p: Pool, q: Pool, grants: map<nat, Grant>, tainted: set<nat>)
    requires q.batches == p.batches && q.nextGen == p.nextGen && GrantsFine(p, grants, tainted)
    ensures GrantsFine(q, grants, tainted)
  {
    hide GrantsUnique;
    hide Remembers;
  }

  lemma NotReusedIsNew(p: Pool, chosenIn: Pool, q: Pool, pol: Policy, target: string, now: Time, c: Choice)
    requires pol.uniqueBatch != "" && Mild(p, q, now) && Mild(chosenIn, q, now)
    requires ChosenFrom(chosenIn, pol, target, now, c.state, c.origin)
    requires c.reservation == Ticket(q, pol, c.state, now) && !Reuses(p, c, now)
    ensures NewTo(EnteredBatch(q, pol, now), q.At(c.state).spec.id, q.At(c.state).publicIP)
  {
    MildKeepsMember(chosenIn, q, c.state, now);
    var name := pol.uniqueBatch;
    if name in q.batches {
      SharedExpiry(p, q, name, now);
    }
    hide MildStates;
    hide MildBatches;
    hide MildCooldowns;
    hide RingsValid;
    hide Eligible;
    EligibleIsNew(chosenIn, q, chosenIn.At(c.state), pol, target, now);
  }

  lemma SharedExpiry(p: Pool, q: Pool, name: string, now: Time)
    requires MildBatches(p, q, now) && name in q.batches
    ensures name in p.batches && p.batches[name].expiresAt == q.batches[name].expiresAt
  {
    hide BatchState.Valid;
    assert SameButBurns(p.batches[name], q.batches[name]);
  }

  // ---------------------------------------------------------------------
  // Steps and runs.

  ghost predicate Granted(s: System) {
    BatchesFine(s.pool) && GrantsFine(s.pool, s.grants, s.tainted)
  }

  lemma PickGrants(s: System, step: Step)
    requires Base(s) && Granted(s) && Enabled(s, step) && step.Picking?
    ensures GrantsFine(PoolAfter(s, step), GrantsAfter(s, step), TaintedAfter(s, step))
  {
    hide Pick;
    hide Shaped;
    hide Mild;
    hide Pool.Wf;
    hide BatchesFine;
    hide GrantsFine;
    hide Reserved;
    hide ChosenFrom;
    hide Refusal;
    hide EnteredBatch;
    hide Reuses;
    var p, now, pol, target := s.pool, step.now, step.pol, Scope(step.pol, step.target);
    var chosenIn, q := PickShape(p, pol, step.target, now, step.luck);
    var r := Pick(p, pol, step.target, now, step.luck);
    if r.1.Ok? {
      GrantedShape(p, chosenIn, q, pol, target, now, r);
      var c := r.1.value;
      ChoiceGrants(p, chosenIn, q, pol, target, now, c, s.nextID, s.grants, s.tainted);
      ChosenIP(p, chosenIn, q, c.state, now);
      NoBatchNoReuse(p, c, now);
    } else {
      DeniedShape(p, chosenIn, q, pol, target, now, r);
      MildBooks(p, r.0, now);
      InheritedGrants(p, r.0, s.grants, s.tainted);
    }
  }

  lemma NoBatchNoReuse(p: Pool, c: Choice, now: Time)
    ensures Reuses(p, c, now) ==> c.reservation.batch.Some?
  {}

  lemma ChosenIP(p: Pool, chosenIn: Pool, q: Pool, h: Handle, now: Time)
    requires Mild(p, q, now)
    ensures q.At(h).publicIP == p.At(h).publicIP
  {
    hide MildBatches;
    hide MildCooldowns;
    hide RingsValid;
    if h in p.states { assert SameButTunnel(p.states[h], q.states[h], now); }
  }

  lemma ReportGrants(s: System, c: Complaint, now: Time)
    requires Base(s) && Granted(s) && Enabled(s, Reporting(c, now))
    ensures GrantsFine(PoolAfter(s, Reporting(c, now)), GrantsAfter(s, Reporting(c, now)), s.tainted)
  {
    hide Punish;
    hide Pool.Wf;
    match ReportedSlot(s.pool, c)
    case Err(_) =>
    case Ok(slotID) =>
      var left := GrantsAfter(s, Reporting(c, now));
      FewerGrants(s.pool, s.grants, left, s.tainted);
      PunishGrants(s.pool, slotID, c, now, left, s.tainted);
  }

  lemma RollingBackGrants(s: System, id: nat)
    requires Base(s) && Granted(s) && Enabled(s, RollingBack(id))
    ensures GrantsFine(PoolAfter(s, RollingBack(id)), GrantsAfter(s, RollingBack(id)), s.tainted)
  {
    hide Pool.Wf;
    hide Rollback;
    hide GrantsFine;
    hide BatchesFine;
    var left := GrantsAfter(s, RollingBack(id));
    FewerGrants(s.pool, s.grants, left, s.tainted);
    RollbackGrants(s.pool, s.inflight[id].reservation, left, s.tainted);
  }

  lemma MeasuringGrants(s: System, step: Step)
    requires Base(s) && Granted(s) && Enabled(s, step) && step.Measuring?
    ensures GrantsFine(PoolAfter(s, step), s.grants, s.tainted)
  {
    hide Pool.Wf;
    hide Measure;
    hide GrantsFine;
    hide BatchesFine;
    MeasureBooks(s.pool, step.h, step.ip, step.checkedAt, step.probed, step.now);
    InheritedGrants(s.pool, PoolAfter(s, step), s.grants, s.tainted);
  }

  lemma ExpiringGrants(p: Pool, now: Time, grants: map<nat, Grant>, tainted: set<nat>)
    requires p.Wf() && BatchesFine(p) && GrantsFine(p, grants, tainted)
    ensures GrantsFine(Expire(p, now), grants, tainted) && GrantsFine(Housekeep(p, now), grants, tainted)
  {
    ExpireIsMild(p, now);
    MildBooks(p, Expire(p, now), now);
    HousekeepIPs(p, now);
    hide Expire;
    hide Housekeep;
    hide Mild;
    InheritedGrants(p, Expire(p, now), grants, tainted);
    SameBatchGrants(Expire(p, now), Housekeep(p, now), grants, tainted);
  }

  lemma ReconcilingGrants(p: Pool, specs: seq<Spec>, done: set<string>, grants: map<nat, Grant>, tainted: set<nat>)
    requires p.Wf() && GrantsFine(p, grants, tainted)
    ensures GrantsFine(Reconcile(p, specs, done).0, grants, tainted)
  {
    hide Reconcile;
    ReconcileKeeps(p, specs, done);
    hide Pool.Wf;
    SameBatchGrants(p, Reconcile(p, specs, done).0, grants, tainted);
  }

  lemma GrantedStep(s: System, step: Step)
    requires Base(s) && Granted(s) && Enabled(s, step)
    ensures Granted(After(s, step))
  {
    BooksStep(s, step);
    GrantsStep(s, step);
    hide BatchesFine;
    hide GrantsFine;
    hide PoolAfter;
    hide Pool.Wf;
    hide InflightAfter;
    hide LeasesAfter;
    hide OpenersAfter;
    hide GrantsAfter;
    hide TaintedAfter;
    hide BansAfter;
    hide Enabled;
  }

  lemma GrantsStep(s: System, step: Step)
    requires Base(s) && Granted(s) && Enabled(s, step)
    ensures GrantsFine(PoolAfter(s, step), GrantsAfter(s, step), TaintedAfter(s, step))
  {
    hide Pick;
    hide Establish;
    hide Rollback;
    hide ReleaseLease;
    hide NoteFailure;
    hide DropSession;
    hide Report;
    hide Prefer;
    hide Measure;
    hide RestorePreference;
    hide RestoreCooldown;
    hide Housekeep;
    hide Expire;
    hide Reconcile;
    hide OpenTunnel;
    hide RollbackOpen;
    hide MarkOpening;
    hide CommitOpen;
    hide FinishOpen;
    hide FailEntry;
    hide CountFailure;
    hide TrimOpens;
    hide BatchesFine;
    hide GrantsFine;
    hide Pool.Wf;
    hide Reuses;
    assert !step.Picking? ==> TaintedAfter(s, step) == s.tainted;
    match step
    case Picking(_, _, _, _) => PickGrants(s, step);
    case RollingBack(id) => RollingBackGrants(s, id);
    case Reporting(c, now) => ReportGrants(s, c, now);
    case Measuring(_, _, _, _, _) => MeasuringGrants(s, step);
    case Housekeeping(now) => ExpiringGrants(s.pool, now, s.grants, s.tainted);
    case Saving(now) => ExpiringGrants(s.pool, now, s.grants, s.tainted);
    case Reconciling(specs, done) => ReconcilingGrants(s.pool, specs, done, s.grants, s.tainted);
    case _ =>
      QuietBatches(s, step);
      SameBatchGrants(s.pool, PoolAfter(s, step), s.grants, s.tainted);
  }

  lemma InitialGranted(s: System)
    requires Initial(s)
    ensures Granted(s)
  {
    InitialBase(s);
    InitialGrants(s);
    hide Initial;
    assert s.pool.opts.maxUniqueBatches > 0;
    hide Base;
    NewGranted(s.pool, s.tainted);
  }

  lemma NewGranted(p: Pool, tainted: set<nat>)
    requires BrandNew(p) && p.opts.maxUniqueBatches > 0
    ensures BatchesFine(p) && GrantsFine(p, map[], tainted)
  {}

  lemma InitialGrants(s: System)
    requires Initial(s)
    ensures s.grants == map[]
  {}

  lemma {:induction false} AlwaysGranted(states: seq<System>, steps: seq<Step>, i: nat)
    requires Run(states, steps) && i < |states|
    ensures Base(states[i]) && Granted(states[i])
  {
    hide Base;
    hide Granted;
    hide Initial;
    ReachableIsWellFormed(states, steps, i);
    if i == 0 {
      InitialGranted(states[0]);
    } else {
      AlwaysGranted(states, steps, i - 1);
      assert Next(states[i - 1], steps[i - 1], states[i]);
      BaseIsWf(states[i - 1]);
      GrantedStep(states[i - 1], steps[i - 1]);
    }
  }

  /** In every reachable state, two live grants of one generation differ in slot and in
      the address held at selection, unless that generation was ever entered by
      recycling or at the very instant it expired. */
  lemma GrantsNeverRepeat(states: seq<System>, steps: seq<Step>, i: nat, a: nat, b: nat)
    requires Run(states, steps) && i < |states|
    requires a in states[i].grants && b in states[i].grants && a != b
    requires states[i].grants[a].gen == states[i].grants[b].gen && states[i].grants[a].gen !in states[i].tainted
    ensures states[i].grants[a].slotID != states[i].grants[b].slotID
    ensures states[i].grants[a].ip != states[i].grants[b].ip
    ensures states[i].grants[a].ip != NoAddr
  {
    AlwaysGranted(states, steps, i);
    hide Base;
    hide BatchesFine;
    hide AllRemembered;
    hide GensKnown;
    hide Run;
    assert Apart(states[i].grants[a], states[i].grants[b]);
  }

  /** In every reachable state each stored generation keeps exact books: the used
      addresses are those its reservations own, no generation is empty, their number is
      bounded, and a consumed slot's current address is recorded with it. */
  lemma BatchesAreExact(states: seq<System>, steps: seq<Step>, i: nat)
    requires Run(states, steps) && i < |states|
    ensures var p := states[i].pool;
            && |p.batches| <= p.opts.maxUniqueBatches
            && forall n :: n in p.batches ==>
                 && p.batches[n].usedSlots != {}
                 && p.batches[n].slotIPs.Keys <= p.batches[n].usedSlots
                 && (forall ip :: ip in p.batches[n].usedIPs <==> p.batches[n].Owned(ip))
                 && forall id :: id in p.batches[n].usedSlots && id in p.slots && p.Slot(id).publicIP != NoAddr ==>
                      p.Slot(id).publicIP in p.batches[n].IPsOf(id)
  {
    AlwaysGranted(states, steps, i);
    hide Base;
    hide GrantsFine;
    hide Run;
    var p := states[i].pool;
    forall n | n in p.batches
      ensures p.batches[n].usedSlots != {} && p.batches[n].Books() && BackfilledIn(p, p.batches[n])
    {
      assert FineIn(p, p.batches[n]);
    }
  }
}
