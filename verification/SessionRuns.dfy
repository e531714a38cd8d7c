/** The bound on sticky sessions: bound and pending names against the limit. */
module SessionRuns {
  import opened Common
  import opened PolicyTypes
  import opened Batches
  import opened Preferred
  import opened PoolState
  import opened Selection
  import opened PoolSystem
  import opened WellFormed
  import opened Leases

  /** The acquisitions under way that hold a session name. */
  function NameHolders(inflight: map<nat, Inflight>, name: string): set<nat> {
    set id | id in inflight.Keys && inflight[id].reservation.session == name
  }

  /** The names that are bound or held. */
  function Names(p: Pool): set<string> { p.sessions.Keys + p.pendingSessions.Keys }

  /** The names acquisitions will bind without holding them, because the session was
      bound when they were selected. */
  function Unheld(inflight: map<nat, Inflight>): set<string> {
    set id | id in inflight.Keys && inflight[id].reservation.session == "" && inflight[id].pol.session != "" ::
        inflight[id].pol.session
  }

  /** The counters of pending names are right, and an acquisition only holds the name
      of its own session. */
  ghost predicate NamesCounted(p: Pool, inflight: map<nat, Inflight>) {
    && (forall name :: name != "" ==> PendingCount(p.pendingSessions, name) == |NameHolders(inflight, name)|)
    && (forall id :: id in inflight ==>
          inflight[id].reservation.session == "" || inflight[id].reservation.session == inflight[id].pol.session)
  }

  /** Nobody is about to bind a name that has meanwhile been forgotten. */
  ghost predicate NoOrphans(s: System) { Unheld(s.inflight) <= Names(s.pool) }

  lemma SubsetSize<T>(a: set<T>, b: set<T>)
    requires a <= b
    ensures |a| <= |b|
  {
    assert b == a + (b - a);
  }

  lemma UnionSize<T>(a: set<T>, b: set<T>)
    ensures |a + b| <= |a| + |b|
  {
    assert a + b == a + (b - a);
    SubsetSize(b - a, b);
  }

  /** At most one unheld name per acquisition. */
  lemma {:induction false} UnheldSize(inflight: map<nat, Inflight>)
    ensures |Unheld(inflight)| <= |inflight|
    decreases |inflight|
  {
    if inflight == map[] {
      assert Unheld(inflight) == {};
    } else {
      var id :| id in inflight;
      var rest := inflight - {id};
      assert rest.Keys == inflight.Keys - {id};
      UnheldSize(rest);
      var one := {inflight[id].pol.session};
      forall n | n in Unheld(inflight) ensures n in Unheld(rest) + one {
        var k :| k in inflight.Keys && inflight[k].reservation.session == "" && inflight[k].pol.session != ""
            && inflight[k].pol.session == n;
        if k != id { assert k in rest.Keys && rest[k] == inflight[k]; }
      }
      SubsetSize(Unheld(inflight), Unheld(rest) + one);
      UnionSize(Unheld(rest), one);
    }
  }

  lemma AddNameHolder(inflight: map<nat, Inflight>, id: nat, f: Inflight, name: string)
    requires id !in inflight
    ensures |NameHolders(inflight[id := f], name)|
            == |NameHolders(inflight, name)| + (if f.reservation.session == name then 1 else 0)
  {
    if f.reservation.session == name {
      assert NameHolders(inflight[id := f], name) == NameHolders(inflight, name) + {id};
    } else {
      assert NameHolders(inflight[id := f], name) == NameHolders(inflight, name);
    }
  }

  lemma RemoveNameHolder(inflight: map<nat, Inflight>, id: nat, name: string)
    requires id in inflight
    ensures |NameHolders(inflight - {id}, name)|
            == |NameHolders(inflight, name)| - (if inflight[id].reservation.session == name then 1 else 0)
  {
    if inflight[id].reservation.session == name {
      assert NameHolders(inflight - {id}, name) == NameHolders(inflight, name) - {id};
    } else {
      assert NameHolders(inflight - {id}, name) == NameHolders(inflight, name);
    }
  }

  // ---------------------------------------------------------------------
  // Reserving, settling and binding names.

  lemma HoldCounts(m: map<string, nat>, held: string, name: string)
    requires name != ""
    ensures PendingCount(Hold(m, held), name) == PendingCount(m, name) + (if name == held then 1 else 0)
    ensures PendingCount(m, name) > 0 ==>
              PendingCount(Unhold(m, held), name) == PendingCount(m, name) - (if name == held then 1 else 0)
    ensures name != held ==> PendingCount(Unhold(m, held), name) == PendingCount(m, name)
  {}

  lemma ReservedNames(p: Pool, pol: Policy, h: Handle, now: Time)
    ensures var q := Reserved(p, pol, h, now);
            q.pendingSessions == Hold(p.pendingSessions, SessionToHold(p, pol)) && q.sessions == p.sessions
                && q.opts == p.opts
    ensures Ticket(p, pol, h, now).session == SessionToHold(p, pol)
  {}

  lemma ReserveNames(p: Pool, pol: Policy, h: Handle, now: Time, id: nat, inflight: map<nat, Inflight>)
    requires NamesCounted(p, inflight) && id !in inflight
    ensures NamesCounted(Reserved(p, pol, h, now), inflight[id := Inflight(Ticket(p, pol, h, now), pol)])
  {
    ReservedNames(p, pol, h, now);
    hide Reserved;
    var f := Inflight(Ticket(p, pol, h, now), pol);
    hide Ticket;
    forall name | name != ""
      ensures PendingCount(Reserved(p, pol, h, now).pendingSessions, name) == |NameHolders(inflight[id := f], name)|
    {
      AddNameHolder(inflight, id, f, name);
      HoldCounts(p.pendingSessions, SessionToHold(p, pol), name);
    }
  }

  lemma SettleNames(p: Pool, q: Pool, id: nat, inflight: map<nat, Inflight>)
    requires NamesCounted(p, inflight) && id in inflight
    requires q.pendingSessions == Unhold(p.pendingSessions, inflight[id].reservation.session)
    ensures NamesCounted(q, inflight - {id})
  {
    var held := inflight[id].reservation.session;
    forall name | name != "" ensures PendingCount(q.pendingSessions, name) == |NameHolders(inflight - {id}, name)| {
      RemoveNameHolder(inflight, id, name);
      if name == held { assert id in NameHolders(inflight, name); }
      HoldCounts(p.pendingSessions, held, name);
    }
  }

  /** A held name stays known when its acquisition binds it; an unheld one is added if it
      was forgotten. */
  lemma EstablishedNames(p: Pool, r: Reservation, pol: Policy, now: Time)
    ensures var q := Establish(p, r, pol, now);
            && q.pendingSessions == Unhold(p.pendingSessions, r.session)
            && q.sessions.Keys == p.sessions.Keys + (if pol.session == "" then {} else {pol.session})
            && q.opts == p.opts
  {
    hide Unhold;
  }

  lemma RolledBackNames(p: Pool, r: Reservation)
    ensures Rollback(p, r).pendingSessions == Unhold(p.pendingSessions, r.session)
    ensures Rollback(p, r).sessions == p.sessions && Rollback(p, r).opts == p.opts
  {
    hide ReleaseIn;
    hide Unhold;
  }

  lemma BoundNames(m: map<string, nat>, bound: set<string>, held: string, name: string)
    requires held == "" || held == name
    ensures name != "" ==> bound + {name} + Unhold(m, held).Keys == bound + m.Keys + {name}
    ensures name == "" ==> bound + Unhold(m, held).Keys == bound + m.Keys
  {
    UnholdKeys(m, held);
    if held != "" { hide Unhold; }
  }

  lemma AddOneSize<T>(a: set<T>, x: T)
    ensures |a + {x}| == |a| + (if x in a then 0 else 1)
  {
    if x in a { assert a + {x} == a; }
  }

  lemma OwnNames(p: Pool, inflight: map<nat, Inflight>, id: nat)
    requires NamesCounted(p, inflight) && id in inflight
    ensures inflight[id].reservation.session == "" || inflight[id].reservation.session == inflight[id].pol.session
  {}

  /** Binding exceeds the names known before exactly when the name was forgotten. */
  lemma EstablishGrowsExactly(s: System, id: nat, now: Time)
    requires id in s.inflight && NamesCounted(s.pool, s.inflight)
    ensures var f := s.inflight[id];
            var q := Establish(s.pool, f.reservation, f.pol, now);
            && Names(q) == Names(s.pool) + (if f.pol.session == "" then {} else {f.pol.session})
            && |Names(q)| == |Names(s.pool)| + (if f.pol.session != "" && f.pol.session !in Names(s.pool) then 1 else 0)
  {
    var f := s.inflight[id];
    OwnNames(s.pool, s.inflight, id);
    EstablishedNames(s.pool, f.reservation, f.pol, now);
    BoundNames(s.pool.pendingSessions, s.pool.sessions.Keys, f.reservation.session, f.pol.session);
    hide NamesCounted;
    hide Establish;
    hide Unhold;
    AddOneSize(Names(s.pool), f.pol.session);
  }

  lemma UnholdKeys(m: map<string, nat>, name: string)
    ensures m.Keys - {name} <= Unhold(m, name).Keys <= m.Keys
    ensures Hold(m, name).Keys == if name == "" then m.Keys else m.Keys + {name}
  {}

  // ---------------------------------------------------------------------
  // Steps that only forget sessions.

  /** No pending name changed and no session appeared. */
  ghost predicate OnlyForgets(p: Pool, q: Pool) {
    q.opts == p.opts && q.pendingSessions == p.pendingSessions && q.sessions.Keys <= p.sessions.Keys
  }

  predicate TouchesNames(step: Step) { step.Picking? || step.Establishing? || step.RollingBack? }

  lemma FeedbackForgets(p: Pool, c: Complaint, now: Time)
    ensures OnlyForgets(p, Report(p, c, now).0)
  {
    hide ReleaseEverywhere;
    hide Cooled;
    hide Unpreferred;
  }

  lemma ExpireForgets(p: Pool, now: Time)
    ensures OnlyForgets(p, Expire(p, now)) && OnlyForgets(p, Housekeep(p, now))
  {
    ExpireIsMild(p, now);
    hide IdleTooLong;
    hide Expire;
    hide MildStates;
    hide MildBatches;
    hide MildCooldowns;
    hide RingsValid;
  }

  lemma ReconcileForgets(p: Pool, specs: seq<Spec>, done: set<string>)
    requires p.Wf()
    ensures OnlyForgets(p, Reconcile(p, specs, done).0)
  {
    hide Reconcile;
    ReconcileKeeps(p, specs, done);
    hide Pool.Wf;
  }

  lemma PraiseForgets(p: Pool, praise: Praise, scope: string, e: PreferredExit, ip: Addr, until: Time, now: Time)
    ensures OnlyForgets(p, Prefer(p, praise, now).0) && OnlyForgets(p, RestorePreference(p, scope, e, now))
    ensures OnlyForgets(p, RestoreCooldown(p, scope, ip, until, now))
  {
    hide Remember;
    hide Cooled;
  }

  lemma SlotForgets(p: Pool, h: Handle, ip: Addr, at: Time, probed: bool, name: string, now: Time)
    ensures OnlyForgets(p, ReleaseLease(p, h, now)) && OnlyForgets(p, NoteFailure(p, h, now))
    ensures OnlyForgets(p, DropSession(p, name)) && OnlyForgets(p, Measure(p, h, ip, at, probed, now))
  {
    hide Backoff;
    hide Backfilled;
  }

  lemma OpeningForgets(p: Pool, t: TunnelOf, victim: Handle, now: Time)
    ensures OnlyForgets(p, OpenTunnel(p, t, victim, now))
  {
    hide BeginOpen;
    hide ReserveCapacity;
    hide BudgetAvailable;
    hide MarkOpening;
    BeginShape(p, victim, now);
    MarkForgets(BeginOpen(p, now, victim).0, t, true);
  }

  lemma TunnelForgets(p: Pool, t: TunnelOf, ok: bool, now: Time)
    ensures OnlyForgets(p, MarkOpening(p, t, ok)) && OnlyForgets(p, FinishOpen(p, t, ok, now))
    ensures OnlyForgets(p, RollbackOpen(p)) && OnlyForgets(p, CommitOpen(p, now))
  {
    MarkForgets(p, t, ok);
    FinishForgets(p, t, ok, now);
    hide MarkOpening;
    hide FinishOpen;
  }

  lemma MarkForgets(p: Pool, t: TunnelOf, opening: bool)
    ensures OnlyForgets(p, MarkOpening(p, t, opening))
  {}

  lemma FinishForgets(p: Pool, t: TunnelOf, ok: bool, now: Time)
    ensures OnlyForgets(p, FinishOpen(p, t, ok, now))
  {
    hide Backoff;
  }

  lemma EntryForgets(p: Pool, i: nat, now: Time)
    requires i < |p.entries|
    ensures OnlyForgets(p, FailEntry(p, i, now))
  {
    hide Backoff;
  }

  lemma CountingForgets(p: Pool, h: Handle, now: Time)
    ensures OnlyForgets(p, TrimOpens(p, now)) && OnlyForgets(p, CountFailure(p, h))
  {
  }

  lemma QuietForgets(s: System, step: Step)
    requires Base(s) && Enabled(s, step) && !TouchesNames(step)
    ensures OnlyForgets(s.pool, PoolAfter(s, step))
  {
    hide Pick;
    hide Establish;
    hide Rollback;
    hide ReleaseLease;
    hide NoteFailure;
    hide DropSession;
    hide Report;
    hide Prefer;
    hide Measure;
    hide RestorePreference;
    hide RestoreCooldown;
    hide Housekeep;
    hide Expire;
    hide Reconcile;
    hide OpenTunnel;
    hide RollbackOpen;
    hide MarkOpening;
    hide CommitOpen;
    hide FinishOpen;
    hide FailEntry;
    hide CountFailure;
    hide TrimOpens;
    hide OnlyForgets;
    hide Pool.Wf;
    var p := s.pool;
    var noExit, noPraise := PreferredExit("", NoAddr, ZERO_TIME), Praise("", NoAddr, "", 0);
    match step
    case Releasing(id, now) => SlotForgets(p, s.leases[id], NoAddr, 0, false, "", now);
    case FailingSlot(h, now) => SlotForgets(p, h, NoAddr, 0, false, "", now);
    case DroppingSession(name) => SlotForgets(p, 0, NoAddr, 0, false, name, 0);
    case Measuring(h, ip, at, probed, now) => SlotForgets(p, h, ip, at, probed, "", now);
    case Reporting(c, now) => FeedbackForgets(p, c, now);
    case Preferring(c, now) => PraiseForgets(p, c, "", noExit, NoAddr, ZERO_TIME, now);
    case RestoringPreference(scope, e, now) => PraiseForgets(p, noPraise, scope, e, NoAddr, ZERO_TIME, now);
    case RestoringCooldown(scope, ip, until, now) => PraiseForgets(p, noPraise, scope, noExit, ip, until, now);
    case Housekeeping(now) => ExpireForgets(p, now);
    case Saving(now) => ExpireForgets(p, now);
    case Reconciling(specs, done) => ReconcileForgets(p, specs, done);
    case Opening(t, victim, now) => OpeningForgets(p, t, victim, now);
    case CallingOff(_) => TunnelForgets(p, ProbeTunnel, false, 0);
    case Abandoning(id) => TunnelForgets(p, s.openers[id].tunnel, false, 0);
    case Charging(_, now) => TunnelForgets(p, ProbeTunnel, false, now);
    case Opened(id, ok, now) => TunnelForgets(p, s.openers[id].tunnel, ok, now);
    case ClosingProbe(_) => TunnelForgets(p, ProbeTunnel, false, 0);
    case FailingEntry(i, now) => EntryForgets(p, i, now);
    case FailingProbe(h) => CountingForgets(p, h, ZERO_TIME);
    case Trimming(now) => CountingForgets(p, 0, now);
  }

  // ---------------------------------------------------------------------
  // Whole steps.

  /** Known names, and those still to be bound, against the limit. */
  ghost predicate SessionsBounded(s: System) {
    && NamesCounted(s.pool, s.inflight)
    && (s.pool.opts.maxConcurrentConns > 0 ==>
          |Names(s.pool) + Unheld(s.inflight)| <= s.pool.opts.maxSessions + s.pool.opts.maxConcurrentConns)
  }

  ghost predicate WithinSessions(p: Pool) { |Names(p)| <= p.opts.maxSessions }

  lemma ForgettingBounds(p: Pool, q: Pool, inflight: map<nat, Inflight>, fewer: map<nat, Inflight>, limit: int)
    requires Names(q) <= Names(p) && Unheld(fewer) <= Unheld(inflight)
    ensures |Names(p) + Unheld(inflight)| <= limit ==> |Names(q) + Unheld(fewer)| <= limit
    ensures |Names(q)| <= |Names(p)|
  {
    SubsetSize(Names(q) + Unheld(fewer), Names(p) + Unheld(inflight));
    SubsetSize(Names(q), Names(p));
  }

  lemma UnheldFewer(inflight: map<nat, Inflight>, id: nat)
    ensures Unheld(inflight - {id}) <= Unheld(inflight)
  {}

  lemma ReservedNameSets(q: Pool, pol: Policy, h: Handle, now: Time)
    ensures Names(Reserved(q, pol, h, now)) == Names(q)
            + (if SessionToHold(q, pol) == "" then {} else {SessionToHold(q, pol)})
  {
    ReservedNames(q, pol, h, now);
    UnholdKeys(q.pendingSessions, SessionToHold(q, pol));
    hide Reserved;
    hide Hold;
  }

  /** The name is bound already, or somebody holds it: nothing new is known. */
  lemma KnownNameBounds(p: Pool, q: Pool, r: Pool, inflight: map<nat, Inflight>, after: map<nat, Inflight>, limit: int)
    requires Names(q) <= Names(p) && Names(r) == Names(q) && Unheld(after) <= Unheld(inflight) + Names(q)
    ensures |Names(p) + Unheld(inflight)| <= limit ==> |Names(r) + Unheld(after)| <= limit
    ensures |Names(r)| <= |Names(p)|
  {
    SubsetSize(Names(r) + Unheld(after), Names(p) + Unheld(inflight));
    SubsetSize(Names(r), Names(p));
  }

  /** A granted selection adds a name only below the limit. */
  lemma ReserveBounds(p: Pool, q: Pool, pol: Policy, h: Handle, now: Time, id: nat, inflight: map<nat, Inflight>)
    requires OnlyForgets(p, q) && Refusal(q, pol, now).None? && id !in inflight && q.opts == p.opts
    requires p.opts.maxConcurrentConns > 0 ==>
               && |inflight| <= p.opts.maxConcurrentConns
               && |Names(p) + Unheld(inflight)| <= p.opts.maxSessions + p.opts.maxConcurrentConns
    ensures var r := Reserved(q, pol, h, now);
            var after := inflight[id := Inflight(Ticket(q, pol, h, now), pol)];
            && (p.opts.maxConcurrentConns > 0 ==>
                  |Names(r) + Unheld(after)| <= p.opts.maxSessions + p.opts.maxConcurrentConns)
            && (WithinSessions(p) ==> WithinSessions(r))
  {
    hide OnlyForgets;
    hide Reserved;
    hide Ticket;
    hide Refusal;
    hide SessionsFull;
    hide SessionToHold;
    hide Unheld;
    hide Names;
    ReservedNames(q, pol, h, now);
    ReservedNameSets(q, pol, h, now);
    NotRefusedNotFull(q, pol, now);
    ForgetsNames(p, q);
    var r := Reserved(q, pol, h, now);
    var held := SessionToHold(q, pol);
    var f := Inflight(Ticket(q, pol, h, now), pol);
    var limit := p.opts.maxSessions + p.opts.maxConcurrentConns;
    if held == "" || held in q.pendingSessions {
      KnownNames(q, r, pol, f, id, inflight);
      KnownNameBounds(p, q, r, inflight, inflight[id := f], limit);
    } else {
      HeldAdds(inflight, id, f);
      NewNameFits(q, pol, held, inflight);
    }
  }

  lemma KnownNames(q: Pool, r: Pool, pol: Policy, f: Inflight, id: nat, inflight: map<nat, Inflight>)
    requires SessionToHold(q, pol) == "" || SessionToHold(q, pol) in q.pendingSessions
    requires Names(r) == Names(q) + (if SessionToHold(q, pol) == "" then {} else {SessionToHold(q, pol)})
    requires f.pol == pol && f.reservation.session == SessionToHold(q, pol) && id !in inflight
    ensures Names(r) == Names(q) && Unheld(inflight[id := f]) <= Unheld(inflight) + Names(q)
  {
    var held := SessionToHold(q, pol);
    if held == "" {
      HeldNothing(q, pol, f, id, inflight);
    } else {
      HeldAdds(inflight, id, f);
      assert Names(q) + {held} == Names(q);
    }
    hide Unheld;
  }

  lemma ForgetsNames(p: Pool, q: Pool)
    requires OnlyForgets(p, q)
    ensures Names(q) <= Names(p)
  {}

  lemma NotRefusedNotFull(q: Pool, pol: Policy, now: Time)
    requires Refusal(q, pol, now).None?
    ensures !SessionsFull(q, pol)
  {}

  lemma HeldNothing(q: Pool, pol: Policy, f: Inflight, id: nat, inflight: map<nat, Inflight>)
    requires SessionToHold(q, pol) == "" && f.pol == pol && f.reservation.session == "" && id !in inflight
    ensures Unheld(inflight[id := f]) <= Unheld(inflight) + Names(q)
  {
    var after := inflight[id := f];
    forall n | n in Unheld(after) ensures n in Unheld(inflight) + Names(q) {
      var k :| k in after.Keys && after[k].reservation.session == "" && after[k].pol.session != ""
          && after[k].pol.session == n;
      if k != id { assert k in inflight.Keys && inflight[k] == after[k]; }
    }
  }

  lemma HeldAdds(inflight: map<nat, Inflight>, id: nat, f: Inflight)
    requires f.reservation.session != "" && id !in inflight
    ensures Unheld(inflight[id := f]) == Unheld(inflight)
  {
    var after := inflight[id := f];
    forall n | n in Unheld(inflight) ensures n in Unheld(after) {
      var k :| k in inflight.Keys && inflight[k].reservation.session == "" && inflight[k].pol.session != ""
          && inflight[k].pol.session == n;
      assert k in after.Keys && after[k] == inflight[k];
    }
  }

  lemma NewNameFits(q: Pool, pol: Policy, held: string, inflight: map<nat, Inflight>)
    requires held == SessionToHold(q, pol) != "" && held !in q.pendingSessions && !SessionsFull(q, pol)
    ensures |Names(q) + {held}| <= q.opts.maxSessions
    ensures |Names(q) + {held} + Unheld(inflight)| <= q.opts.maxSessions + |inflight|
  {
    UnionSize(q.sessions.Keys, q.pendingSessions.Keys);
    UnionSize(Names(q), {held});
    UnionSize(Names(q) + {held}, Unheld(inflight));
    UnheldSize(inflight);
  }

  lemma PickSessions(s: System, step: Step)
    requires Base(s) && SessionsBounded(s) && Accounted(s) && Enabled(s, step) && step.Picking?
    ensures SessionsBounded(After(s, step))
    ensures WithinSessions(s.pool) ==> WithinSessions(PoolAfter(s, step))
  {
    hide Pick;
    hide Shaped;
    hide MildStates;
    hide MildBatches;
    hide MildCooldowns;
    hide RingsValid;
    hide Reserved;
    hide ChosenFrom;
    hide Refusal;
    hide GrantsAfter;
    hide TaintedAfter;
    var p, now, pol, target := s.pool, step.now, step.pol, Scope(step.pol, step.target);
    assert NamesPending(p.pendingSessions);
    assert s.pool.opts.maxConcurrentConns > 0 ==>
           |s.inflight| <= s.pool.opts.maxConcurrentConns by { InflightCapped(s); }
    hide Pool.Wf;
    hide Accounted;
    var chosenIn, q := PickShape(p, pol, step.target, now, step.luck);
    var r := Pick(p, pol, step.target, now, step.luck);
    hide Enabled;
    hide NamesCounted;
    if r.1.Ok? {
      GrantedShape(p, chosenIn, q, pol, target, now, r);
      var c := r.1.value;
      SamePending(p, q, s.inflight);
      ReserveNames(q, pol, c.state, now, s.nextID, s.inflight);
      ReserveBounds(p, q, pol, c.state, now, s.nextID, s.inflight);
      ReservedNames(q, pol, c.state, now);
    } else {
      DeniedShape(p, chosenIn, q, pol, target, now, r);
      SamePending(p, r.0, s.inflight);
      ForgettingBounds(p, r.0, s.inflight, s.inflight, p.opts.maxSessions + p.opts.maxConcurrentConns);
    }
  }

  lemma SamePending(p: Pool, q: Pool, inflight: map<nat, Inflight>)
    requires NamesCounted(p, inflight) && q.pendingSessions == p.pendingSessions
    ensures NamesCounted(q, inflight)
  {}

  lemma InflightCapped(s: System)
    requires Base(s) && Accounted(s)
    ensures s.pool.opts.maxConcurrentConns > 0 ==> |s.inflight| <= s.pool.opts.maxConcurrentConns
  {
    assert Pending(s.inflight).Keys == s.inflight.Keys;
    assert |Pending(s.inflight)| == |s.inflight|;
  }

  lemma EstablishSessions(s: System, id: nat, now: Time)
    requires Base(s) && SessionsBounded(s) && Enabled(s, Establishing(id, now))
    ensures SessionsBounded(After(s, Establishing(id, now)))
    ensures NoOrphans(s) && WithinSessions(s.pool) ==> WithinSessions(PoolAfter(s, Establishing(id, now)))
  {
    var f := s.inflight[id];
    EstablishedNames(s.pool, f.reservation, f.pol, now);
    EstablishGrowsExactly(s, id, now);
    hide Establish;
    hide Pool.Wf;
    var q := Establish(s.pool, f.reservation, f.pol, now);
    SettleNames(s.pool, q, id, s.inflight);
    UnheldFewer(s.inflight, id);
    OwnNameKnown(s, id);
    assert Names(q) + Unheld(s.inflight - {id}) <= Names(s.pool) + Unheld(s.inflight);
    SubsetSize(Names(q) + Unheld(s.inflight - {id}), Names(s.pool) + Unheld(s.inflight));
    hide NamesCounted;
    hide GrantsAfter;
    hide TaintedAfter;
    if NoOrphans(s) { SubsetSize(Names(q), Names(s.pool)); }
  }

  /** The name an acquisition will bind is held by it, or unheld. */
  lemma OwnNameKnown(s: System, id: nat)
    requires id in s.inflight && NamesCounted(s.pool, s.inflight)
    ensures var n := s.inflight[id].pol.session; n != "" ==> n in s.pool.pendingSessions || n in Unheld(s.inflight)
  {
    var n := s.inflight[id].pol.session;
    if n != "" && s.inflight[id].reservation.session != "" {
      assert id in NameHolders(s.inflight, n);
    }
  }

  lemma RollbackSessions(s: System, id: nat)
    requires Base(s) && SessionsBounded(s) && Enabled(s, RollingBack(id))
    ensures SessionsBounded(After(s, RollingBack(id)))
    ensures WithinSessions(s.pool) ==> WithinSessions(PoolAfter(s, RollingBack(id)))
  {
    var f := s.inflight[id];
    RolledBackNames(s.pool, f.reservation);
    hide Rollback;
    hide Pool.Wf;
    var q := Rollback(s.pool, f.reservation);
    SettleNames(s.pool, q, id, s.inflight);
    UnheldFewer(s.inflight, id);
    UnholdKeys(s.pool.pendingSessions, f.reservation.session);
    hide NamesCounted;
    hide Unhold;
    hide GrantsAfter;
    hide TaintedAfter;
    ForgettingBounds(s.pool, q, s.inflight, s.inflight - {id}, q.opts.maxSessions + q.opts.maxConcurrentConns);
  }

  lemma SessionsStep(s: System, step: Step)
    requires Base(s) && SessionsBounded(s) && Accounted(s) && Enabled(s, step)
    ensures SessionsBounded(After(s, step))
    ensures NoOrphans(s) && WithinSessions(s.pool) ==> WithinSessions(After(s, step).pool)
  {
    hide Accounted;
    hide Pool.Wf;
    hide NamesCounted;
    hide PoolAfter;
    hide GrantsAfter;
    hide TaintedAfter;
    hide WithinSessions;
    match step
    case Picking(_, _, _, _) => PickSessions(s, step);
    case Establishing(id, now) => EstablishSessions(s, id, now);
    case RollingBack(id) => RollbackSessions(s, id);
    case _ => QuietSessions(s, step);
  }

  lemma QuietSessions(s: System, step: Step)
    requires Base(s) && SessionsBounded(s) && Enabled(s, step) && !TouchesNames(step)
    ensures SessionsBounded(After(s, step))
    ensures WithinSessions(s.pool) ==> WithinSessions(After(s, step).pool)
  {
    hide Pool.Wf;
    hide NamesCounted;
    hide PoolAfter;
    hide GrantsAfter;
    hide TaintedAfter;
    hide BansAfter;
    QuietForgets(s, step);
    var q := PoolAfter(s, step);
    SamePending(s.pool, q, s.inflight);
    assert InflightAfter(s, step) == s.inflight;
    hide Enabled;
    hide InflightAfter;
    hide LeasesAfter;
    hide OpenersAfter;
    ForgettingBounds(s.pool, q, s.inflight, s.inflight, q.opts.maxSessions + q.opts.maxConcurrentConns);
  }

  // ---------------------------------------------------------------------
  // Whole runs.

  lemma InitialSessions(s: System)
    requires Initial(s)
    ensures SessionsBounded(s) && WithinSessions(s.pool)
  {
    InitialBase(s);
    InitialIdle(s);
    hide Initial;
    assert s.pool.opts.Defaulted();
    hide Base;
    NewSessions(s.pool);
  }

  lemma NewSessions(p: Pool)
    requires BrandNew(p)
    ensures NamesCounted(p, map[]) && Names(p) == {} && Unheld(map[]) == {}
  {
    forall name ensures NameHolders(map[], name) == {} {}
  }

  lemma {:induction false} AlwaysBounded(states: seq<System>, steps: seq<Step>, i: nat)
    requires Run(states, steps) && i < |states|
    ensures SessionsBounded(states[i])
    ensures (forall j :: 0 <= j < i ==> NoOrphans(states[j])) ==> WithinSessions(states[i].pool)
  {
    hide Base;
    hide Accounted;
    hide SessionsBounded;
    hide WithinSessions;
    hide NoOrphans;
    hide Initial;
    if i == 0 {
      InitialSessions(states[0]);
    } else {
      AlwaysBounded(states, steps, i - 1);
      AlwaysAccounted(states, steps, i - 1);
      assert Next(states[i - 1], steps[i - 1], states[i]);
      BaseIsWf(states[i - 1]);
      SessionsStep(states[i - 1], steps[i - 1]);
    }
  }

  /** The counter of every pending name is the number of acquisitions that hold it. */
  lemma PendingNamesAreCounted(states: seq<System>, steps: seq<Step>, i: nat, name: string)
    requires Run(states, steps) && i < |states| && name != ""
    ensures PendingCount(states[i].pool.pendingSessions, name) == |NameHolders(states[i].inflight, name)|
  {
    AlwaysBounded(states, steps, i);
  }

  /** Bound and pending names stay within the limit in runs where no bound session is
      forgotten under an acquisition that holds no name for it. */
  lemma SessionsStayBounded(states: seq<System>, steps: seq<Step>, i: nat)
    requires Run(states, steps) && i < |states|
    requires forall j :: 0 <= j < i ==> NoOrphans(states[j])
    ensures |states[i].pool.sessions.Keys + states[i].pool.pendingSessions.Keys| <= states[i].pool.opts.maxSessions
  {
    AlwaysBounded(states, steps, i);
  }

  /** In every run, with a connection limit, they exceed it by at most that limit. */
  lemma SessionsNearlyBounded(states: seq<System>, steps: seq<Step>, i: nat)
    requires Run(states, steps) && i < |states| && states[i].pool.opts.maxConcurrentConns > 0
    ensures |states[i].pool.sessions.Keys + states[i].pool.pendingSessions.Keys|
            <= states[i].pool.opts.maxSessions + states[i].pool.opts.maxConcurrentConns
  {
    AlwaysBounded(states, steps, i);
    SubsetSize(Names(states[i].pool), Names(states[i].pool) + Unheld(states[i].inflight));
  }

  /** The step binds a name nobody knows any more while all places are taken. */
  ghost predicate Overflows(s: System, step: Step) {
    && step.Establishing? && step.id in s.inflight
    && var name := s.inflight[step.id].pol.session;
       name != "" && name !in Names(s.pool) && |Names(s.pool)| == s.pool.opts.maxSessions
  }

  lemma BindingOverflows(s: System, id: nat, now: Time)
    requires Base(s) && SessionsBounded(s) && Enabled(s, Establishing(id, now)) && WithinSessions(s.pool)
    ensures !WithinSessions(PoolAfter(s, Establishing(id, now))) <==> Overflows(s, Establishing(id, now))
  {
    EstablishGrowsExactly(s, id, now);
    var f := s.inflight[id];
    assert Establish(s.pool, f.reservation, f.pol, now).opts == s.pool.opts by {
      EstablishedNames(s.pool, f.reservation, f.pol, now);
    }
    hide NamesCounted;
    hide Establish;
    hide Pool.Wf;
    hide Names;
  }

  lemma OthersNeverOverflow(s: System, step: Step)
    requires Base(s) && SessionsBounded(s) && Accounted(s) && Enabled(s, step) && WithinSessions(s.pool)
             && !step.Establishing?
    ensures WithinSessions(PoolAfter(s, step))
  {
    hide Accounted;
    hide Pool.Wf;
    hide NamesCounted;
    hide PoolAfter;
    hide WithinSessions;
    hide SessionsBounded;
    match step
    case Picking(_, _, _, _) => PickSessions(s, step);
    case RollingBack(id) => RollbackSessions(s, id);
    case _ => QuietSessions(s, step);
  }

  /** In every run, the step that takes bound and pending names over the limit is the
      binding of a session that was forgotten under its acquisition while all places were
      taken, and every such binding does. */
  lemma LimitBreaksExactly(states: seq<System>, steps: seq<Step>, i: nat)
    requires Run(states, steps) && i < |steps|
    requires |Names(states[i].pool)| <= states[i].pool.opts.maxSessions
    ensures |Names(states[i + 1].pool)| > states[i + 1].pool.opts.maxSessions <==> Overflows(states[i], steps[i])
  {
    hide Base;
    hide Accounted;
    hide SessionsBounded;
    hide Names;
    hide Overflows;
    hide Initial;
    var s, step := states[i], steps[i];
    assert WithinSessions(s.pool);
    AlwaysBounded(states, steps, i);
    AlwaysAccounted(states, steps, i);
    assert Next(s, step, states[i + 1]);
    BaseIsWf(s);
    OverflowsExactly(s, step);
    assert states[i + 1].pool == PoolAfter(s, step);
    hide PoolAfter;
    hide Pool.Wf;
  }

  lemma OverflowsExactly(s: System, step: Step)
    requires Base(s) && SessionsBounded(s) && Accounted(s) && Enabled(s, step) && WithinSessions(s.pool)
    ensures !WithinSessions(PoolAfter(s, step)) <==> Overflows(s, step)
  {
    hide Accounted;
    hide SessionsBounded;
    hide Pool.Wf;
    hide PoolAfter;
    hide WithinSessions;
    if step.Establishing? {
      BindingOverflows(s, step.id, step.now);
    } else {
      OthersNeverOverflow(s, step);
    }
  }
}
