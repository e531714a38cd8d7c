/** Tunnels over whole runs: the cap on tunnels open or being opened, one opening at a
    time, and the rate limit on new ones. */
module TunnelRuns {
  import opened Common
  import opened PolicyTypes
  import opened Batches
  import opened Preferred
  import opened TunnelBudget
  import opened PoolState
  import opened Selection
  import PoolSystem
  import opened WellFormed

  type System = PoolSystem.System
  type Step = PoolSystem.Step
  type Opener = PoolSystem.Opener
  type TunnelOf = PoolSystem.TunnelOf

  // ---------------------------------------------------------------------
  // What the pool's flags and counters mean.

  /** The openings under way, and the probe tunnels up, of one tunnel. */
  function OpenersOf(openers: map<nat, Opener>, t: TunnelOf): set<nat> {
    set id | id in openers.Keys && openers[id].tunnel == t
  }

  function Waiters(openers: map<nat, Opener>): set<nat> {
    set id | id in openers.Keys && openers[id].phase == PoolSystem.Waiting
  }

  function One(b: bool): nat { if b then 1 else 0 }

  /** Only members that are not relays ever have a tunnel, and all of those stay members. */
  ghost predicate PlacedState(p: Pool, h: Handle)
    requires h in p.states
  {
    && (p.states[h].spec.kind != RelaySocks ==> p.IsMember(h))
    && (p.states[h].Occupied() ==> p.states[h].spec.kind != RelaySocks)
    && !(p.states[h].open && p.states[h].opening)
  }

  ghost predicate Placed(p: Pool) {
    && (forall h :: h in p.states ==> PlacedState(p, h))
    && (forall i :: 0 <= i < |p.entries| ==> !(p.entries[i].open && p.entries[i].opening))
  }

  /** Every opening flag stands for exactly one opening, every probe for one tunnel. */
  ghost predicate Attended(p: Pool, openers: map<nat, Opener>) {
    && (forall h :: h in p.states ==> |OpenersOf(openers, PoolSystem.SlotTunnel(h))| == One(p.states[h].opening))
    && (forall i :: 0 <= i < |p.entries| ==> |OpenersOf(openers, PoolSystem.EntryTunnel(i))|
                                             == One(p.entries[i].opening))
    && p.probes == |OpenersOf(openers, PoolSystem.ProbeTunnel)|
  }

  ghost predicate WithinActive(p: Pool) { p.opts.maxActive > 0 ==> TunnelCount(p) <= p.opts.maxActive }

  ghost predicate TunnelsFine(p: Pool, openers: map<nat, Opener>) {
    Placed(p) && Attended(p, openers) && WithinActive(p)
  }

  // ---------------------------------------------------------------------
  // Steps that open nothing: tunnels may only close.

  ghost predicate FlagsKept(s: SlotState, t: SlotState) {
    t.opening == s.opening && (t.open ==> s.open) && t.spec.id == s.spec.id && t.spec.kind == s.spec.kind
  }

  ghost predicate EntriesKept(e: seq<EntryState>, f: seq<EntryState>) {
    |f| == |e| && forall i :: 0 <= i < |e| ==> f[i].opening == e[i].opening && (f[i].open ==> e[i].open)
  }

  ghost predicate KeepsFlags(p: Pool, q: Pool) {
    && q.opts == p.opts && q.probes == p.probes
    && EntriesKept(p.entries, q.entries)
    && (forall h :: h in p.states ==> h in q.states && FlagsKept(p.states[h], q.states[h]))
    && (forall h :: h in q.states && h !in p.states ==> q.states[h].spec.kind == RelaySocks && !q.states[h].Occupied())
    && (forall h :: h in p.states && p.states[h].spec.kind != RelaySocks && p.IsMember(h) ==> q.IsMember(h))
  }

  lemma SubsetSize<T>(a: set<T>, b: set<T>)
    requires a <= b
    ensures |a| <= |b|
  {
    assert b == a + (b - a);
  }

  lemma {:induction false} FewerEntries(e: seq<EntryState>, f: seq<EntryState>)
    requires EntriesKept(e, f)
    ensures CountEntries(f) <= CountEntries(e)
  {
    if e != [] { FewerEntries(e[..|e| - 1], f[..|f| - 1]); }
  }

  lemma KeptPlaces(p: Pool, q: Pool)
    requires KeepsFlags(p, q) && Placed(p)
    ensures Placed(q)
  {
    forall h | h in q.states ensures PlacedState(q, h) {
      if h in p.states {
        assert PlacedState(p, h) && FlagsKept(p.states[h], q.states[h]);
      }
    }
  }

  lemma KeptOccupied(p: Pool, q: Pool)
    requires KeepsFlags(p, q) && Placed(p) && q.Wf()
    ensures Occupied(q) <= Occupied(p)
  {
    forall id | id in Occupied(q) ensures id in Occupied(p) {
      var h := q.slots[id];
      assert h in q.states && h in p.states;
      assert FlagsKept(p.states[h], q.states[h]) && PlacedState(p, h);
      assert q.states[h].spec.id == id;
    }
  }

  lemma KeptCount(p: Pool, q: Pool)
    requires KeepsFlags(p, q) && Placed(p) && q.Wf()
    ensures TunnelCount(q) <= TunnelCount(p)
  {
    KeptOccupied(p, q);
    SubsetSize(Occupied(q), Occupied(p));
    FewerEntries(p.entries, q.entries);
  }

  lemma NobodyOpens(p: Pool, openers: map<nat, Opener>, h: Handle)
    requires h !in p.states
    requires forall id :: id in openers ==> PoolSystem.SlotTunnel(h) != openers[id].tunnel
    ensures OpenersOf(openers, PoolSystem.SlotTunnel(h)) == {}
  {}

  lemma KeptAttended(p: Pool, q: Pool, openers: map<nat, Opener>)
    requires KeepsFlags(p, q) && Attended(p, openers)
    requires forall id :: id in openers ==> TunnelExists(p, openers[id].tunnel)
    ensures Attended(q, openers)
  {
    forall h | h in q.states ensures |OpenersOf(openers, PoolSystem.SlotTunnel(h))| == One(q.states[h].opening) {
      if h in p.states {
        assert FlagsKept(p.states[h], q.states[h]);
      } else {
        forall id | id in openers ensures PoolSystem.SlotTunnel(h) != openers[id].tunnel {
          assert TunnelExists(p, openers[id].tunnel);
        }
        NobodyOpens(p, openers, h);
      }
    }
  }

  lemma KeptFine(p: Pool, q: Pool, openers: map<nat, Opener>)
    requires KeepsFlags(p, q) && TunnelsFine(p, openers) && q.Wf()
    requires forall id :: id in openers ==> TunnelExists(p, openers[id].tunnel)
    ensures TunnelsFine(q, openers)
  {
    KeptPlaces(p, q);
    KeptCount(p, q);
    KeptAttended(p, q, openers);
    hide Placed;
    hide Attended;
    hide TunnelCount;
    hide Pool.Wf;
  }

  // ---------------------------------------------------------------------
  // Room for one more.

  lemma {:induction false} OldestExists(used: map<Handle, Time>, idle: set<Handle>)
    requires idle != {} && idle <= used.Keys
    ensures exists h :: h in idle && forall g :: g in idle ==> used[h] <= used[g]
  {
    var x :| x in idle;
    var rest := idle - {x};
    if rest == {} {
      assert idle == {x};
    } else {
      OldestExists(used, rest);
      var y :| y in rest && forall g :: g in rest ==> used[y] <= used[g];
      var z := if used[x] <= used[y] then x else y;
      assert z in idle && forall g :: g in idle ==> used[z] <= used[g];
    }
  }

  function LastUses(p: Pool): map<Handle, Time> { map g | g in p.states.Keys :: p.states[g].lastUsed }

  lemma Oldest(used: map<Handle, Time>, idle: set<Handle>) returns (v: Handle)
    requires idle != {} && idle <= used.Keys
    ensures v in idle && forall g :: g in idle ==> used[v] <= used[g]
  {
    OldestExists(used, idle);
    v :| v in idle && forall g :: g in idle ==> used[v] <= used[g];
  }

  lemma VictimExists(p: Pool, h: Handle)
    requires Idle(p, h)
    ensures exists g :: IsVictim(p, g)
  {
    var idle := set g | g in p.states.Keys && Idle(p, g);
    assert h in idle;
    hide Idle;
    hide IsVictim;
    var v := Oldest(LastUses(p), idle);
    forall g | g in p.states.Keys && Idle(p, g) ensures p.At(v).lastUsed <= p.At(g).lastUsed {
      assert g in idle;
      assert LastUses(p)[v] <= LastUses(p)[g];
    }
    OldestIsVictim(p, v);
  }

  lemma OldestIsVictim(p: Pool, v: Handle)
    requires Idle(p, v)
    requires forall g :: g in p.states.Keys && Idle(p, g) ==> p.At(v).lastUsed <= p.At(g).lastUsed
    ensures IsVictim(p, v)
  {
    hide Idle;
  }

  /** Capacity is refused exactly when the cap is reached and no tunnel is idle; the
      tunnel closed to make room is one that has been idle longest, and nothing else
      changes. */
  lemma CapacityIsExact(p: Pool, victim: Handle)
    requires FairVictim(p, victim)
    ensures var (q, ok) := ReserveCapacity(p, victim);
            && (!ok <==> p.opts.maxActive > 0 && TunnelCount(p) >= p.opts.maxActive && forall h :: !Idle(p, h))
            && q == p.(states := q.states)
            && (q.states != p.states ==>
                  && p.opts.maxActive > 0 && TunnelCount(p) >= p.opts.maxActive
                  && Idle(p, victim)
                  && (forall h :: Idle(p, h) ==> p.At(victim).lastUsed <= p.At(h).lastUsed)
                  && q.states == p.states[victim := p.states[victim].(open := false)])
  {
    hide TunnelCount;
    forall h | Idle(p, h) ensures IsVictim(p, victim) {
      VictimExists(p, h);
    }
  }

  lemma EvictionFrees(p: Pool, victim: Handle)
    requires p.Wf() && Placed(p) && Evicts(p, victim)
    ensures TunnelCount(ReserveCapacity(p, victim).0) == TunnelCount(p) - 1
  {
    var q := ReserveCapacity(p, victim).0;
    var id := p.states[victim].spec.id;
    assert PlacedState(p, victim);
    assert q.states == p.states[victim := p.states[victim].(open := false)];
    forall k | k in p.slots ensures k in Occupied(q) <==> k in Occupied(p) && k != id {
      assert p.states[p.slots[k]].spec.id == k;
    }
    assert Occupied(q) == Occupied(p) - {id};
  }

  lemma CapacityMakesRoom(p: Pool, victim: Handle)
    requires p.Wf() && Placed(p) && WithinActive(p)
    ensures ReserveCapacity(p, victim).1 && p.opts.maxActive > 0 ==>
            TunnelCount(ReserveCapacity(p, victim).0) < p.opts.maxActive
  {
    if Evicts(p, victim) { EvictionFrees(p, victim); }
    hide TunnelCount;
    hide Placed;
    hide Pool.Wf;
  }

  // ---------------------------------------------------------------------
  // Starting and ending an opening.

  lemma {:induction false} CountUpdate(entries: seq<EntryState>, i: nat, e: EntryState)
    requires i < |entries|
    ensures CountEntries(entries[i := e]) == CountEntries(entries) - One(entries[i].Occupied()) + One(e.Occupied())
  {
    var n := |entries| - 1;
    if i == n {
      assert entries[i := e][..n] == entries[..n];
    } else {
      assert entries[i := e][..n] == entries[..n][i := e];
      CountUpdate(entries[..n], i, e);
    }
  }

  lemma SlotUpdate(p: Pool, h: Handle, s: SlotState)
    requires p.Wf() && h in p.states && s.spec == p.states[h].spec && p.IsMember(h)
    ensures |Occupied(p.With(h, s))| == |Occupied(p)| - One(p.states[h].Occupied()) + One(s.Occupied())
  {
    var q := p.With(h, s);
    var id := p.states[h].spec.id;
    forall k | k in p.slots && k != id ensures k in Occupied(q) <==> k in Occupied(p) {
      assert p.states[p.slots[k]].spec.id == k;
    }
    assert Occupied(q) - {id} == Occupied(p) - {id};
    assert id in Occupied(q) <==> s.Occupied();
    assert id in Occupied(p) <==> p.states[h].Occupied();
    SplitOff(Occupied(q), id);
    SplitOff(Occupied(p), id);
  }

  lemma SplitOff<T>(s: set<T>, x: T)
    ensures |s| == |s - {x}| + One(x in s)
  {
    if x in s {
      assert s == (s - {x}) + {x};
    } else {
      assert s - {x} == s;
    }
  }

  lemma AddOpener(openers: map<nat, Opener>, id: nat, o: Opener, t: TunnelOf)
    requires id !in openers
    ensures |OpenersOf(openers[id := o], t)| == |OpenersOf(openers, t)| + One(o.tunnel == t)
  {
    if o.tunnel == t {
      assert OpenersOf(openers[id := o], t) == OpenersOf(openers, t) + {id};
    } else {
      assert OpenersOf(openers[id := o], t) == OpenersOf(openers, t);
    }
  }

  lemma RemoveOpener(openers: map<nat, Opener>, id: nat, t: TunnelOf)
    requires id in openers
    ensures |OpenersOf(openers - {id}, t)| == |OpenersOf(openers, t)| - One(openers[id].tunnel == t)
  {
    if openers[id].tunnel == t {
      assert OpenersOf(openers - {id}, t) == OpenersOf(openers, t) - {id};
    } else {
      assert OpenersOf(openers - {id}, t) == OpenersOf(openers, t);
    }
  }

  lemma PhaseOnly(openers: map<nat, Opener>, id: nat, phase: PoolSystem.Phase, t: TunnelOf)
    requires id in openers
    ensures OpenersOf(openers[id := openers[id].(phase := phase)], t) == OpenersOf(openers, t)
  {
    var after := openers[id := openers[id].(phase := phase)];
    forall k ensures k in OpenersOf(after, t) <==> k in OpenersOf(openers, t) {}
  }

  lemma StartPlaced(p: Pool, t: TunnelOf)
    requires p.Wf() && Placed(p) && PoolSystem.MayOpen(p, t)
    ensures Placed(PoolSystem.MarkOpening(p, t, true))
  {
    var q := PoolSystem.MarkOpening(p, t, true);
    forall h | h in q.states ensures PlacedState(q, h) {
      assert PlacedState(p, h);
    }
  }

  lemma StartCount(p: Pool, t: TunnelOf)
    requires p.Wf() && PoolSystem.MayOpen(p, t)
    ensures TunnelCount(PoolSystem.MarkOpening(p, t, true)) == TunnelCount(p) + 1
  {
    var q := PoolSystem.MarkOpening(p, t, true);
    match t
    case SlotTunnel(h) => SlotUpdate(p, h, p.At(h).(opening := true));
    case EntryTunnel(i) =>
      CountUpdate(p.entries, i, p.entries[i].(opening := true));
      assert Occupied(q) == Occupied(p);
    case ProbeTunnel => assert Occupied(q) == Occupied(p);
  }

  lemma StartAttended(p: Pool, t: TunnelOf, openers: map<nat, Opener>, id: nat)
    requires p.Wf() && Attended(p, openers) && PoolSystem.MayOpen(p, t) && id !in openers
    ensures Attended(PoolSystem.MarkOpening(p, t, true), openers[id := PoolSystem.Opener(t, PoolSystem.Waiting)])
  {
    hide Pool.Wf;
    forall u: TunnelOf ensures |OpenersOf(openers[id := PoolSystem.Opener(t, PoolSystem.Waiting)], u)|
        == |OpenersOf(openers, u)| + One(t == u) {
      AddOpener(openers, id, PoolSystem.Opener(t, PoolSystem.Waiting), u);
    }
    hide OpenersOf;
  }

  /** An opening that is let through takes the place the capacity check made. */
  lemma StartFine(p: Pool, t: TunnelOf, openers: map<nat, Opener>, id: nat)
    requires p.Wf() && TunnelsFine(p, openers) && PoolSystem.MayOpen(p, t) && id !in openers
    requires p.opts.maxActive > 0 ==> TunnelCount(p) < p.opts.maxActive
    ensures TunnelsFine(PoolSystem.MarkOpening(p, t, true), openers[id := PoolSystem.Opener(t, PoolSystem.Waiting)])
  {
    StartPlaced(p, t);
    StartCount(p, t);
    StartAttended(p, t, openers, id);
    MarkFrame(p, t, true);
    hide Placed;
    hide Attended;
    hide TunnelCount;
    hide PoolSystem.MarkOpening;
    hide Pool.Wf;
  }

  lemma MarkFrame(p: Pool, t: TunnelOf, opening: bool)
    ensures PoolSystem.MarkOpening(p, t, opening).opts == p.opts
  {}

  lemma SomebodyOpens(openers: map<nat, Opener>, id: nat)
    requires id in openers
    ensures |OpenersOf(openers, openers[id].tunnel)| >= 1
  {
    assert id in OpenersOf(openers, openers[id].tunnel);
  }

  lemma FewerOpeners(openers: map<nat, Opener>, id: nat)
    requires id in openers
    ensures forall u: TunnelOf ::
              |OpenersOf(openers - {id}, u)| == |OpenersOf(openers, u)| - One(openers[id].tunnel == u)
  {
    forall u: TunnelOf ensures |OpenersOf(openers - {id}, u)|
        == |OpenersOf(openers, u)| - One(openers[id].tunnel == u) {
      RemoveOpener(openers, id, u);
    }
  }

  lemma OnePlaced(p: Pool, h: Handle, s: SlotState)
    requires Placed(p) && h in p.states && p.states[h].opening && s.spec == p.states[h].spec && !s.opening
    ensures Placed(p.With(h, s)) && p.IsMember(h)
  {
    var q := p.With(h, s);
    forall g | g in q.states ensures PlacedState(q, g) {
      assert PlacedState(p, g);
    }
    assert PlacedState(p, h);
  }

  lemma OneAttended(p: Pool, h: Handle, s: SlotState, openers: map<nat, Opener>, id: nat)
    requires Attended(p, openers) && h in p.states && !s.opening
    requires id in openers && openers[id].tunnel == PoolSystem.SlotTunnel(h)
    ensures Attended(p.With(h, s), openers - {id}) && p.states[h].opening
  {
    SomebodyOpens(openers, id);
    FewerOpeners(openers, id);
    hide OpenersOf;
  }

  /** A slot's opening ends: the tunnel is up or it is not. */
  lemma SlotEnds(p: Pool, h: Handle, s: SlotState, openers: map<nat, Opener>, id: nat)
    requires p.Wf() && TunnelsFine(p, openers) && h in p.states
    requires id in openers && openers[id].tunnel == PoolSystem.SlotTunnel(h)
    requires s.spec == p.states[h].spec && !s.opening
    ensures TunnelsFine(p.With(h, s), openers - {id})
  {
    OneAttended(p, h, s, openers, id);
    OnePlaced(p, h, s);
    SlotUpdate(p, h, s);
    hide Pool.Wf;
    hide Placed;
    hide Attended;
    hide Occupied;
  }

  lemma EntryEnds(p: Pool, i: nat, e: EntryState, openers: map<nat, Opener>, id: nat)
    requires p.Wf() && TunnelsFine(p, openers) && i < |p.entries|
    requires id in openers && openers[id].tunnel == PoolSystem.EntryTunnel(i)
    requires !e.opening
    ensures TunnelsFine(p.(entries := p.entries[i := e]), openers - {id})
  {
    EntryAttended(p, i, e, openers, id);
    EntryPlaced(p, i, e);
    CountUpdate(p.entries, i, e);
    assert Occupied(p.(entries := p.entries[i := e])) == Occupied(p);
    hide Pool.Wf;
    hide Placed;
    hide Attended;
    hide Occupied;
    hide CountEntries;
  }

  lemma EntryAttended(p: Pool, i: nat, e: EntryState, openers: map<nat, Opener>, id: nat)
    requires Attended(p, openers) && i < |p.entries| && !e.opening
    requires id in openers && openers[id].tunnel == PoolSystem.EntryTunnel(i)
    ensures Attended(p.(entries := p.entries[i := e]), openers - {id}) && p.entries[i].opening
  {
    SomebodyOpens(openers, id);
    FewerOpeners(openers, id);
    hide OpenersOf;
  }

  lemma EntryPlaced(p: Pool, i: nat, e: EntryState)
    requires Placed(p) && i < |p.entries| && !e.opening
    ensures Placed(p.(entries := p.entries[i := e]))
  {
    var q := p.(entries := p.entries[i := e]);
    forall g | g in q.states ensures PlacedState(q, g) {
      assert PlacedState(p, g);
    }
  }

  lemma ProbeEnds(p: Pool, openers: map<nat, Opener>, id: nat)
    requires p.Wf() && TunnelsFine(p, openers)
    requires id in openers && openers[id].tunnel == PoolSystem.ProbeTunnel
    ensures TunnelsFine(p.(probes := Dec(p.probes)), openers - {id})
    ensures p.probes > 0
  {
    var q := p.(probes := Dec(p.probes));
    SomebodyOpens(openers, id);
    assert Occupied(q) == Occupied(p);
    FewerOpeners(openers, id);
    hide OpenersOf;
    hide Pool.Wf;
    forall g | g in q.states ensures PlacedState(q, g) {
      assert PlacedState(p, g);
    }
  }

  lemma PhaseFine(p: Pool, openers: map<nat, Opener>, id: nat, phase: PoolSystem.Phase)
    requires TunnelsFine(p, openers) && id in openers
    ensures TunnelsFine(p, openers[id := openers[id].(phase := phase)])
  {
    forall u: TunnelOf ensures OpenersOf(openers[id := openers[id].(phase := phase)], u) == OpenersOf(openers, u) {
      PhaseOnly(openers, id, phase, u);
    }
    hide OpenersOf;
  }

  // ---------------------------------------------------------------------
  // Every step.

  predicate MovesTunnels(step: Step) {
    step.Opening? || step.Abandoning? || step.Opened? || step.ClosingProbe?
  }

  lemma SameFlags(p: Pool, q: Pool)
    requires q.states == p.states && q.slots == p.slots && q.entries == p.entries && q.opts == p.opts
             && q.probes == p.probes
    ensures KeepsFlags(p, q)
  {}

  lemma KeepsTransitive(p: Pool, q: Pool, r: Pool)
    requires KeepsFlags(p, q) && KeepsFlags(q, r)
    ensures KeepsFlags(p, r)
  {
    forall h | h in p.states ensures h in r.states && FlagsKept(p.states[h], r.states[h]) {
      assert FlagsKept(p.states[h], q.states[h]) && FlagsKept(q.states[h], r.states[h]);
    }
    forall h | h in r.states && h !in p.states ensures r.states[h].spec.kind == RelaySocks && !r.states[h].Occupied() {
      if h in q.states { assert FlagsKept(q.states[h], r.states[h]); }
    }
    forall h | h in p.states && p.states[h].spec.kind != RelaySocks && p.IsMember(h) ensures r.IsMember(h) {
      assert FlagsKept(p.states[h], q.states[h]);
    }
  }

  lemma MildFlags(p: Pool, q: Pool, now: Time)
    requires Mild(p, q, now)
    ensures KeepsFlags(p, q)
  {
    hide MildBatches;
    hide MildCooldowns;
    hide RingsValid;
    forall h | h in p.states ensures h in q.states && FlagsKept(p.states[h], q.states[h]) {
      assert SameButTunnel(p.states[h], q.states[h], now);
    }
    forall h | h in p.states && p.IsMember(h) ensures q.IsMember(h) {
      assert SameButTunnel(p.states[h], q.states[h], now);
    }
  }

  /** Only fields a tunnel does not look at changed in one state. */
  lemma OneStateFlags(p: Pool, q: Pool, h: Handle, s: SlotState)
    requires h in p.states && q.states == p.states[h := s] && FlagsKept(p.states[h], s)
    requires q.slots == p.slots && q.entries == p.entries && q.opts == p.opts && q.probes == p.probes
    ensures KeepsFlags(p, q)
  {}

  lemma ReservedFlags(p: Pool, pol: Policy, h: Handle, now: Time)
    requires h in p.states
    ensures KeepsFlags(p, Reserved(p, pol, h, now))
    ensures Reserved(p, pol, h, now).opens == p.opens && Reserved(p, pol, h, now).pendingOpens == p.pendingOpens
    ensures Reserved(p, pol, h, now).opts == p.opts
  {
    var q := Reserved(p, pol, h, now);
    OneStateFlags(p, q, h, p.At(h).(pendingLeases := p.At(h).pendingLeases + 1));
  }

  lemma LeaseFlags(p: Pool, r: Reservation, pol: Policy, now: Time)
    requires r.state in p.states
    ensures KeepsFlags(p, Establish(p, r, pol, now)) && KeepsFlags(p, Rollback(p, r))
            && KeepsFlags(p, ReleaseLease(p, r.state, now))
  {
    hide Unhold;
    hide ReleaseIn;
    hide KeepsFlags;
    var h, t := r.state, p.At(r.state);
    OneStateFlags(p, Establish(p, r, pol, now), h,
                  t.(pendingLeases := Dec(t.pendingLeases), leases := t.leases + 1, lastUsed := now, failures := 0));
    OneStateFlags(p, Rollback(p, r), h, t.(pendingLeases := Dec(t.pendingLeases)));
    OneStateFlags(p, ReleaseLease(p, h, now), h, t.(leases := Dec(t.leases), lastUsed := now));
  }

  lemma FailureFlags(p: Pool, h: Handle, name: string, now: Time)
    requires h in p.states
    ensures KeepsFlags(p, NoteFailure(p, h, now)) && KeepsFlags(p, DropSession(p, name))
  {
    hide Backoff;
  }

  lemma CountingFlags(p: Pool, h: Handle, now: Time)
    ensures KeepsFlags(p, TrimOpens(p, now)) && (h in p.states ==> KeepsFlags(p, CountFailure(p, h)))
  {
    hide PruneOpens;
    SameFlags(p, TrimOpens(p, now));
    if h in p.states { OneStateFlags(p, CountFailure(p, h), h, p.At(h).(failures := p.At(h).failures + 1)); }
    hide KeepsFlags;
  }

  lemma DropFlags(p: Pool, name: string)
    ensures KeepsFlags(p, DropSession(p, name)) && KeepsFlags(p, RollbackOpen(p))
  {
    hide KeepsFlags;
    SameFlags(p, DropSession(p, name));
    SameFlags(p, RollbackOpen(p));
  }

  lemma ReportFlags(p: Pool, c: Complaint, now: Time)
    requires p.Wf()
    ensures KeepsFlags(p, Report(p, c, now).0)
  {
    hide ReleaseEverywhere;
    hide Cooled;
    hide Unpreferred;
    match ReportedSlot(p, c)
    case Err(_) => SameFlags(p, p);
    case Ok(id) =>
      assert p.slots[id] in p.states;
      OneStateFlags(p, Punish(p, id, c, now), p.slots[id],
          Punished(p.At(p.slots[id]), c.target, now + CooldownOf(p, c)));
  }

  lemma PraiseFlags(p: Pool, praise: Praise, scope: string, e: PreferredExit, ip: Addr, until: Time, now: Time)
    ensures KeepsFlags(p, Prefer(p, praise, now).0) && KeepsFlags(p, RestorePreference(p, scope, e, now))
    ensures KeepsFlags(p, RestoreCooldown(p, scope, ip, until, now)) && KeepsFlags(p, CommitOpen(p, now))
  {
    hide KeepsFlags;
    hide Remember;
    hide Cooled;
    PreferFlags(p, praise, now);
    SameFlags(p, RestorePreference(p, scope, e, now));
    SameFlags(p, RestoreCooldown(p, scope, ip, until, now));
    SameFlags(p, CommitOpen(p, now));
    hide Prefer;
  }

  lemma PreferFlags(p: Pool, praise: Praise, now: Time)
    ensures KeepsFlags(p, Prefer(p, praise, now).0)
  {
    hide KeepsFlags;
    hide Remember;
    SameFlags(p, Prefer(p, praise, now).0);
  }

  lemma MeasureFlags(p: Pool, h: Handle, ip: Addr, checkedAt: Time, probed: bool, now: Time)
    requires h in p.states
    ensures KeepsFlags(p, PoolSystem.Measure(p, h, ip, checkedAt, probed, now))
  {
    hide Backfilled;
  }

  lemma HousekeepFlags(p: Pool, now: Time)
    ensures KeepsFlags(p, Expire(p, now)) && KeepsFlags(p, Housekeep(p, now))
  {
    ExpireIsMild(p, now);
    MildFlags(p, Expire(p, now), now);
    hide Mild;
    hide Expire;
    hide IdleTooLong;
    IdleFlags(Expire(p, now), Housekeep(p, now));
    KeepsTransitive(p, Expire(p, now), Housekeep(p, now));
  }

  lemma IdleFlags(q: Pool, r: Pool)
    requires r == q.(states := r.states) && r.states.Keys == q.states.Keys
    requires forall h :: h in q.states ==> r.states[h] == q.states[h] || r.states[h] == q.states[h].(open := false)
    ensures KeepsFlags(q, r)
  {}

  /** Relays never own tunnels, so a reconciliation leaves every tunnel in place. */
  lemma ReconcileFlags(p: Pool, specs: seq<Spec>, done: set<string>)
    requires p.Wf()
    ensures KeepsFlags(p, Reconcile(p, specs, done).0)
  {
    hide Reconcile;
    ReconcileKeeps(p, specs, done);
    ReconciledFlags(p, Reconcile(p, specs, done).0);
  }

  lemma ReconciledFlags(p: Pool, q: Pool)
    requires p.Wf() && Reconciled(p, q)
    ensures KeepsFlags(p, q)
  {
    forall h | h in p.states ensures h in q.states && FlagsKept(p.states[h], q.states[h]) {
      assert Respecced(p.states[h], q.states[h]);
    }
    forall h | h in q.states && h !in p.states ensures q.states[h].spec.kind == RelaySocks && !q.states[h].Occupied() {
      assert FreshRelay(p, q, h);
    }
    forall h | h in p.states && p.states[h].spec.kind != RelaySocks && p.IsMember(h) ensures q.IsMember(h) {
      assert Respecced(p.states[h], q.states[h]);
    }
  }

  lemma FailEntryFlags(p: Pool, i: nat, now: Time)
    requires i < |p.entries|
    ensures KeepsFlags(p, PoolSystem.FailEntry(p, i, now))
  {
    hide Backoff;
  }

  lemma PickFlags(p: Pool, pol: Policy, requested: string, now: Time, luck: Luck)
    requires p.Wf()
    ensures var q := Pick(p, pol, requested, now, luck).0;
            && KeepsFlags(p, q) && q.pendingOpens == p.pendingOpens
            && (q.opens == p.opens || q.opens == PruneOpens(p.opens, now, p.opts.newTunnelWindow))
  {
    hide Pick;
    hide Shaped;
    hide MildStates;
    hide MildBatches;
    hide MildCooldowns;
    hide RingsValid;
    hide Pool.Wf;
    hide Reserved;
    var chosenIn, q := PickShape(p, pol, requested, now, luck);
    var r := Pick(p, pol, requested, now, luck);
    if r.1.Ok? {
      GrantedShape(p, chosenIn, q, pol, Scope(pol, requested), now, r);
      MildMembers(chosenIn, q, r.1.value.state, now);
      hide ChosenFrom;
      MildFlags(p, q, now);
      ReservedFlags(q, pol, r.1.value.state, now);
      hide KeepsFlags;
      KeepsTransitive(p, q, r.0);
    } else {
      DeniedShape(p, chosenIn, q, pol, Scope(pol, requested), now, r);
      MildFlags(p, r.0, now);
    }
  }

  lemma MildMembers(p: Pool, q: Pool, h: Handle, now: Time)
    requires Mild(p, q, now) && p.IsMember(h)
    ensures h in q.states
  {
    hide MildBatches;
    hide MildCooldowns;
    hide RingsValid;
  }

  lemma QuietFlags(s: System, step: Step)
    requires Base(s) && PoolSystem.Enabled(s, step) && !MovesTunnels(step)
    ensures KeepsFlags(s.pool, PoolSystem.PoolAfter(s, step))
  {
    hide Pick;
    hide Establish;
    hide Rollback;
    hide ReleaseLease;
    hide NoteFailure;
    hide DropSession;
    hide Report;
    hide Prefer;
    hide RestorePreference;
    hide RestoreCooldown;
    hide Housekeep;
    hide Expire;
    hide Reconcile;
    hide RollbackOpen;
    hide CommitOpen;
    hide PoolSystem.Measure;
    hide PoolSystem.OpenTunnel;
    hide PoolSystem.MarkOpening;
    hide PoolSystem.FinishOpen;
    hide PoolSystem.FailEntry;
    hide CountFailure;
    hide TrimOpens;
    hide KeepsFlags;
    hide Pool.Wf;
    var p := s.pool;
    var noExit, noPraise := PreferredExit("", NoAddr, ZERO_TIME), Praise("", NoAddr, "", 0);
    match step
    case Picking(pol, target, now, luck) => PickFlags(p, pol, target, now, luck);
    case Establishing(id, now) => LeaseFlags(p, s.inflight[id].reservation, s.inflight[id].pol, now);
    case RollingBack(id) => LeaseFlags(p, s.inflight[id].reservation, s.inflight[id].pol, ZERO_TIME);
    case Releasing(id, now) => LeaseFlags(p, Reservation(None, "", s.leases[id]), EMPTY_POLICY, now);
    case FailingSlot(h, now) => FailureFlags(p, h, "", now);
    case DroppingSession(name) => DropFlags(p, name);
    case Reporting(c, now) => ReportFlags(p, c, now);
    case Preferring(c, now) => PraiseFlags(p, c, "", noExit, NoAddr, ZERO_TIME, now);
    case Measuring(h, ip, checkedAt, probed, now) => MeasureFlags(p, h, ip, checkedAt, probed, now);
    case RestoringPreference(scope, e, now) => PraiseFlags(p, noPraise, scope, e, NoAddr, ZERO_TIME, now);
    case RestoringCooldown(scope, ip, until, now) => PraiseFlags(p, noPraise, scope, noExit, ip, until, now);
    case Housekeeping(now) => HousekeepFlags(p, now);
    case Saving(now) => HousekeepFlags(p, now);
    case Reconciling(specs, done) => ReconcileFlags(p, specs, done);
    case CallingOff(_) => DropFlags(p, "");
    case Charging(_, now) => PraiseFlags(p, noPraise, "", noExit, NoAddr, ZERO_TIME, now);
    case FailingEntry(i, now) => FailEntryFlags(p, i, now);
    case FailingProbe(h) => CountingFlags(p, h, ZERO_TIME);
    case Trimming(now) => CountingFlags(p, 0, now);
  }

  lemma OpeningFine(s: System, step: Step)
    requires Base(s) && PoolSystem.Enabled(s, step) && step.Opening? && TunnelsFine(s.pool, s.openers)
    ensures TunnelsFine(PoolSystem.PoolAfter(s, step), PoolSystem.OpenersAfter(s, step))
  {
    hide Mild;
    hide BeginOpen;
    hide ReserveCapacity;
    hide BudgetAvailable;
    hide PoolSystem.MarkOpening;
    hide KeepsFlags;
    hide TunnelsFine;
    hide Placed;
    hide WithinActive;
    hide TunnelCount;
    var p, t, now, victim := s.pool, step.tunnel, step.now, step.victim;
    TunnelsMean(p, s.openers);
    var q := ReserveCapacity(p, victim).0;
    var b := BeginOpen(p, now, victim).0;
    CapacityIsMild(p, victim, now);
    MildFlags(p, q, now);
    MildKeepsWf(p, q, now);
    BeginShape(p, victim, now);
    OpeningWf(p, t, victim, now);
    CapacityMakesRoom(p, victim);
    KeptFine(p, q, s.openers);
    BegunRoom(p, victim, now);
    hide Pool.Wf;
    SameFlags(q, b);
    BegunFine(p, q, b, t, s.openers);
    if PoolSystem.OpensNow(s, step) {
      BegunMayOpen(p, q, b, victim, t);
      StartFine(b, t, s.openers, s.nextID);
    }
  }

  lemma TunnelsMean(p: Pool, openers: map<nat, Opener>)
    requires TunnelsFine(p, openers)
    ensures Placed(p) && Attended(p, openers) && WithinActive(p)
  {}

  lemma BegunRoom(p: Pool, victim: Handle, now: Time)
    ensures BeginOpen(p, now, victim).1.None? ==> ReserveCapacity(p, victim).1
    ensures ReserveCapacity(p, victim).0.opts == p.opts
  {
    hide TunnelCount;
    hide IsVictim;
    hide PruneOpens;
  }

  lemma BegunFine(p: Pool, q: Pool, b: Pool, t: TunnelOf, openers: map<nat, Opener>)
    requires b == q.(opens := b.opens, pendingOpens := b.pendingOpens) && KeepsFlags(q, b)
    requires b.Wf() && TunnelsFine(q, openers) && q.states.Keys == p.states.Keys && |q.entries| == |p.entries|
    requires forall id :: id in openers ==> TunnelExists(p, openers[id].tunnel)
    ensures TunnelsFine(b, openers) && TunnelCount(b) == TunnelCount(q)
  {
    KeptFine(q, b, openers);
    assert Occupied(b) == Occupied(q);
  }

  lemma BegunMayOpen(p: Pool, q: Pool, b: Pool, victim: Handle, t: TunnelOf)
    requires q == ReserveCapacity(p, victim).0 && b == q.(opens := b.opens, pendingOpens := b.pendingOpens)
    requires PoolSystem.MayOpen(p, t)
    ensures PoolSystem.MayOpen(b, t)
  {
    hide TunnelCount;
    hide IsVictim;
  }

  /** Only probes keep a tunnel after their opening has ended. */
  ghost predicate OnlyProbesStayUp(openers: map<nat, Opener>) {
    forall id :: id in openers && openers[id].phase == PoolSystem.Up ==> openers[id].tunnel.ProbeTunnel?
  }

  lemma EndingFine(s: System, step: Step)
    requires Base(s) && PoolSystem.Enabled(s, step) && TunnelsFine(s.pool, s.openers) && OnlyProbesStayUp(s.openers)
    requires step.Abandoning? || step.Opened? || step.ClosingProbe?
    ensures TunnelsFine(PoolSystem.PoolAfter(s, step), PoolSystem.OpenersAfter(s, step))
  {
    hide TunnelsFine;
    hide Pool.Wf;
    hide Backoff;
    hide PoolSystem.OpensNow;
    var p, id, o := s.pool, step.id, s.openers[step.id];
    assert TunnelExists(p, o.tunnel) && p.Wf();
    hide Base;
    match o.tunnel
    case SlotTunnel(h) =>
      var t := p.At(h).(opening := false);
      SlotEnds(p, h, t, s.openers, id);
      SlotEnds(p, h, t.(open := true), s.openers, id);
    case EntryTunnel(i) =>
      assert step.Abandoning? || step.Opened?;
      if step.Abandoning? {
        EntryEnds(p, i, p.entries[i].(opening := false), s.openers, id);
      } else {
        EntryEnds(p, i, PoolSystem.FinishOpen(p, o.tunnel, step.ok, step.now).entries[i], s.openers, id);
      }
    case ProbeTunnel =>
      ProbeEnds(p, s.openers, id);
      PhaseFine(p, s.openers, id, PoolSystem.Up);
  }

  lemma TunnelsStep(s: System, step: Step)
    requires Base(s) && PoolSystem.Enabled(s, step) && TunnelsFine(s.pool, s.openers) && OnlyProbesStayUp(s.openers)
    ensures TunnelsFine(PoolSystem.PoolAfter(s, step), PoolSystem.OpenersAfter(s, step))
    ensures OnlyProbesStayUp(PoolSystem.OpenersAfter(s, step))
  {
    hide TunnelsFine;
    hide PoolSystem.PoolAfter;
    hide PoolSystem.OpensNow;
    ProbesStep(s, step);
    hide OnlyProbesStayUp;
    if step.Opening? {
      OpeningFine(s, step);
    } else if MovesTunnels(step) {
      EndingFine(s, step);
    } else {
      QuietTunnels(s, step);
    }
    hide Base;
    hide Pool.Wf;
  }

  lemma ProbesStep(s: System, step: Step)
    requires OnlyProbesStayUp(s.openers)
    ensures OnlyProbesStayUp(PoolSystem.OpenersAfter(s, step))
  {
    hide PoolSystem.OpensNow;
  }

  lemma QuietTunnels(s: System, step: Step)
    requires Base(s) && PoolSystem.Enabled(s, step) && !MovesTunnels(step) && TunnelsFine(s.pool, s.openers)
    ensures TunnelsFine(PoolSystem.PoolAfter(s, step), PoolSystem.OpenersAfter(s, step))
  {
    hide TunnelsFine;
    hide PoolSystem.PoolAfter;
    hide PoolSystem.OpensNow;
    hide KeepsFlags;
    hide Pool.Wf;
    QuietFlags(s, step);
    PoolStep(s, step);
    KeptFine(s.pool, PoolSystem.PoolAfter(s, step), s.openers);
    match step
    case CallingOff(id) => PhaseFine(PoolSystem.PoolAfter(s, step), s.openers, id, PoolSystem.CalledOff);
    case Charging(id, _) => PhaseFine(PoolSystem.PoolAfter(s, step), s.openers, id, PoolSystem.Charged);
    case _ =>
  }

  // ---------------------------------------------------------------------
  // The rate limit.

  ghost predicate BudgetFine(p: Pool, openers: map<nat, Opener>, contacts: seq<Time>, clock: Time) {
    && p.pendingOpens == |Waiters(openers)|
    && Tracks(contacts, p.opens, clock, p.opts.newTunnelWindow)
    && WithinBudget(contacts, p.pendingOpens, clock, p.opts.newTunnelWindow, p.opts.newTunnelBudget)
  }

  ghost predicate Budgeted(s: System) { BudgetFine(s.pool, s.openers, s.contacts, s.clock) }

  ghost predicate SameOpens(p: Pool, q: Pool) {
    q.opts == p.opts && q.opens == p.opens && q.pendingOpens == p.pendingOpens
  }

  predicate MovesBudget(step: Step) {
    step.Picking? || step.Opening? || step.CallingOff? || step.Charging? || step.Trimming?
  }

  lemma LeaseOpens(p: Pool, r: Reservation, pol: Policy, h: Handle, now: Time)
    ensures SameOpens(p, Establish(p, r, pol, now)) && SameOpens(p, Rollback(p, r))
            && SameOpens(p, ReleaseLease(p, h, now))
    ensures SameOpens(p, NoteFailure(p, h, now)) && SameOpens(p, DropSession(p, pol.session))
  {
    hide Unhold;
    hide ReleaseIn;
    hide Backoff;
  }

  lemma FeedbackOpens(p: Pool, c: Complaint, h: Handle, ip: Addr, at: Time, probed: bool, now: Time)
    ensures SameOpens(p, Report(p, c, now).0) && SameOpens(p, PoolSystem.Measure(p, h, ip, at, probed, now))
  {
    hide ReleaseEverywhere;
    hide Cooled;
    hide Unpreferred;
    hide Backfilled;
  }

  lemma PraiseOpens(p: Pool, praise: Praise, scope: string, e: PreferredExit, ip: Addr, until: Time, now: Time)
    ensures SameOpens(p, Prefer(p, praise, now).0) && SameOpens(p, RestorePreference(p, scope, e, now))
    ensures SameOpens(p, RestoreCooldown(p, scope, ip, until, now))
  {
    hide Remember;
    hide Cooled;
  }

  lemma ExpireOpens(p: Pool, now: Time)
    ensures SameOpens(p, Expire(p, now)) && SameOpens(p, Housekeep(p, now))
  {
    hide IdleTooLong;
  }

  lemma ReconcileOpens(p: Pool, specs: seq<Spec>, done: set<string>)
    requires p.Wf()
    ensures SameOpens(p, Reconcile(p, specs, done).0)
  {
    hide Reconcile;
    ReconcileKeeps(p, specs, done);
    hide Pool.Wf;
  }

  lemma TunnelOpens(p: Pool, t: TunnelOf, ok: bool, i: nat, now: Time)
    ensures SameOpens(p, PoolSystem.MarkOpening(p, t, ok)) && SameOpens(p, PoolSystem.FinishOpen(p, t, ok, now))
    ensures i < |p.entries| ==> SameOpens(p, PoolSystem.FailEntry(p, i, now))
  {
    hide Backoff;
  }

  lemma CountingOpens(p: Pool, h: Handle)
    ensures SameOpens(p, CountFailure(p, h))
  {}

  lemma QuietOpens(s: System, step: Step)
    requires Base(s) && PoolSystem.Enabled(s, step) && !MovesBudget(step)
    ensures SameOpens(s.pool, PoolSystem.PoolAfter(s, step))
  {
    hide Pick;
    hide Establish;
    hide Rollback;
    hide ReleaseLease;
    hide NoteFailure;
    hide DropSession;
    hide Report;
    hide Prefer;
    hide RestorePreference;
    hide RestoreCooldown;
    hide Housekeep;
    hide Expire;
    hide Reconcile;
    hide RollbackOpen;
    hide CommitOpen;
    hide PoolSystem.Measure;
    hide PoolSystem.OpenTunnel;
    hide PoolSystem.MarkOpening;
    hide PoolSystem.FinishOpen;
    hide PoolSystem.FailEntry;
    hide CountFailure;
    hide TrimOpens;
    hide SameOpens;
    hide Pool.Wf;
    var p := s.pool;
    var none, noExit, noPraise := Reservation(None, "", 0), PreferredExit("", NoAddr, ZERO_TIME),
        Praise("", NoAddr, "", 0);
    var noComplaint := Complaint("", "", NoAddr, "", 0);
    match step
    case Establishing(id, now) => LeaseOpens(p, s.inflight[id].reservation, s.inflight[id].pol, 0, now);
    case RollingBack(id) => LeaseOpens(p, s.inflight[id].reservation, EMPTY_POLICY, 0, ZERO_TIME);
    case Releasing(id, now) => LeaseOpens(p, none, EMPTY_POLICY, s.leases[id], now);
    case FailingSlot(h, now) => LeaseOpens(p, none, EMPTY_POLICY, h, now);
    case DroppingSession(name) => LeaseOpens(p, none, EMPTY_POLICY.(session := name), 0, ZERO_TIME);
    case Reporting(c, now) => FeedbackOpens(p, c, 0, NoAddr, ZERO_TIME, false, now);
    case Preferring(c, now) => PraiseOpens(p, c, "", noExit, NoAddr, ZERO_TIME, now);
    case Measuring(h, ip, at, probed, now) => FeedbackOpens(p, noComplaint, h, ip, at, probed, now);
    case RestoringPreference(scope, e, now) => PraiseOpens(p, noPraise, scope, e, NoAddr, ZERO_TIME, now);
    case RestoringCooldown(scope, ip, until, now) => PraiseOpens(p, noPraise, scope, noExit, ip, until, now);
    case Housekeeping(now) => ExpireOpens(p, now);
    case Saving(now) => ExpireOpens(p, now);
    case Reconciling(specs, done) => ReconcileOpens(p, specs, done);
    case Abandoning(id) => TunnelOpens(p, s.openers[id].tunnel, false, 0, ZERO_TIME);
    case Opened(id, ok, now) => TunnelOpens(p, s.openers[id].tunnel, ok, 0, now);
    case ClosingProbe(_) => TunnelOpens(p, PoolSystem.ProbeTunnel, false, 0, ZERO_TIME);
    case FailingEntry(i, now) => TunnelOpens(p, PoolSystem.ProbeTunnel, false, i, now);
    case FailingProbe(h) => CountingOpens(p, h);
  }

  lemma WaitersQuiet(openers: map<nat, Opener>, id: nat, phase: PoolSystem.Phase)
    requires id in openers
    ensures openers[id].phase != PoolSystem.Waiting ==>
              Waiters(openers - {id}) == Waiters(openers)
              && (phase != PoolSystem.Waiting ==> Waiters(openers[id := openers[id].(phase := phase)])
                                                  == Waiters(openers))
    ensures openers[id].phase == PoolSystem.Waiting && phase != PoolSystem.Waiting ==>
              && id in Waiters(openers)
              && Waiters(openers[id := openers[id].(phase := phase)]) == Waiters(openers) - {id}
  {
    var after := openers[id := openers[id].(phase := phase)];
    forall k | k != id ensures k in Waiters(after) <==> k in Waiters(openers) {}
  }

  lemma ClockKeepsTracks(history: seq<Time>, opens: seq<Time>, clock: Time, now: Time, window: int)
    requires Tracks(history, opens, clock, window) && clock <= now
    ensures Tracks(history, opens, now, window)
  {}

  lemma QuietBudget(s: System, step: Step)
    requires Base(s) && PoolSystem.Enabled(s, step) && Budgeted(s) && !MovesBudget(step)
    ensures BudgetFine(PoolSystem.PoolAfter(s, step), PoolSystem.OpenersAfter(s, step), s.contacts,
            PoolSystem.ClockAfter(s.clock, step))
  {
    hide Tracks;
    hide WithinBudget;
    hide Pool.Wf;
    hide PoolSystem.PoolAfter;
    QuietOpens(s, step);
    var clock := PoolSystem.ClockAfter(s.clock, step);
    var p := s.pool;
    assert s.clock <= clock;
    ClockKeepsTracks(s.contacts, p.opens, s.clock, clock, p.opts.newTunnelWindow);
    ClockKeepsBudget(s.contacts, p.pendingOpens, s.clock, clock, p.opts.newTunnelWindow, p.opts.newTunnelBudget);
    hide Base;
    match step
    case Abandoning(id) => WaitersQuiet(s.openers, id, PoolSystem.Up);
    case Opened(id, _, _) => WaitersQuiet(s.openers, id, PoolSystem.Up);
    case ClosingProbe(id) => WaitersQuiet(s.openers, id, PoolSystem.Up);
    case _ =>
  }

  /** A prune at a later instant keeps tracking the history. */
  lemma PrunedFine(contacts: seq<Time>, p: Pool, opens: seq<Time>, clock: Time, now: Time)
    requires clock <= now && Tracks(contacts, p.opens, clock, p.opts.newTunnelWindow)
    requires opens == p.opens || opens == PruneOpens(p.opens, now, p.opts.newTunnelWindow)
    ensures Tracks(contacts, opens, now, p.opts.newTunnelWindow)
  {
    ClockKeepsTracks(contacts, p.opens, clock, now, p.opts.newTunnelWindow);
    PrunedIsWindow(contacts, p.opens, clock, now, p.opts.newTunnelWindow);
  }

  lemma PickBudget(s: System, step: Step)
    requires Base(s) && PoolSystem.Enabled(s, step) && Budgeted(s) && step.Picking?
    ensures BudgetFine(PoolSystem.PoolAfter(s, step), PoolSystem.OpenersAfter(s, step), s.contacts, step.now)
  {
    var p, now := s.pool, step.now;
    PickFlags(p, step.pol, step.target, now, step.luck);
    var q := Pick(p, step.pol, step.target, now, step.luck).0;
    PrunedFine(s.contacts, p, q.opens, s.clock, now);
    ClockKeepsBudget(s.contacts, p.pendingOpens, s.clock, now, p.opts.newTunnelWindow, p.opts.newTunnelBudget);
    hide Tracks;
    hide WithinBudget;
    hide Pool.Wf;
    hide Pick;
  }

  /** What starting to open does to the budget. */
  lemma BeginBudget(p: Pool, t: TunnelOf, victim: Handle, now: Time)
    ensures var (b, e) := BeginOpen(p, now, victim);
            var q := PoolSystem.OpenTunnel(p, t, victim, now);
            && q.opts == p.opts && q.opens == b.opens && q.pendingOpens == b.pendingOpens
            && (b.opens == p.opens || b.opens == PruneOpens(p.opens, now, p.opts.newTunnelWindow))
            && b.pendingOpens == p.pendingOpens + One(e.None?)
            && (e.None? && p.opts.newTunnelBudget > 0 ==>
                  |PruneOpens(p.opens, now, p.opts.newTunnelWindow)| + p.pendingOpens < p.opts.newTunnelBudget)
  {
    hide ReserveCapacity;
    hide PruneOpens;
    var q := ReserveCapacity(p, victim).0;
    CapacityFrame(p, victim);
    ReserveOpenBudget(q, now);
    hide ReserveOpen;
    var b := BeginOpen(p, now, victim).0;
    MarkBudget(b, t);
    hide PoolSystem.MarkOpening;
  }

  lemma CapacityFrame(p: Pool, victim: Handle)
    ensures SameOpens(p, ReserveCapacity(p, victim).0)
  {
    hide Evicts;
    hide IsVictim;
    hide TunnelCount;
  }

  lemma MarkBudget(p: Pool, t: TunnelOf)
    ensures SameOpens(p, PoolSystem.MarkOpening(p, t, true))
  {}

  lemma ReserveOpenBudget(p: Pool, now: Time)
    ensures var (q, ok) := ReserveOpen(p, now);
            && q.opts == p.opts
            && (q.opens == p.opens || q.opens == PruneOpens(p.opens, now, p.opts.newTunnelWindow))
            && q.pendingOpens == p.pendingOpens + One(ok)
            && (ok && p.opts.newTunnelBudget > 0 ==>
                  |PruneOpens(p.opens, now, p.opts.newTunnelWindow)| + p.pendingOpens < p.opts.newTunnelBudget)
  {
    hide PruneOpens;
  }

  lemma OpeningBudget(s: System, step: Step)
    requires Base(s) && PoolSystem.Enabled(s, step) && Budgeted(s) && step.Opening?
    ensures BudgetFine(PoolSystem.PoolAfter(s, step), PoolSystem.OpenersAfter(s, step), s.contacts, step.now)
  {
    hide Pool.Wf;
    hide PoolSystem.OpenTunnel;
    hide BudgetFine;
    assert s.nextID !in s.openers;
    hide Base;
    BeginningBudget(s.pool, step.tunnel, step.victim, s.openers, s.nextID, s.contacts, s.clock, step.now);
    hide BeginOpen;
  }

  lemma BeginningBudget(p: Pool, t: TunnelOf, victim: Handle, openers: map<nat, Opener>, id: nat, contacts: seq<Time>,
                        clock: Time, now: Time)
    requires BudgetFine(p, openers, contacts, clock) && clock <= now && id !in openers
    ensures BudgetFine(PoolSystem.OpenTunnel(p, t, victim, now),
                       if BeginOpen(p, now, victim).1.None? then openers[id := PoolSystem.Opener(t,
                           PoolSystem.Waiting)] else openers,
                       contacts, now)
  {
    BeginBudget(p, t, victim, now);
    var q := PoolSystem.OpenTunnel(p, t, victim, now);
    hide BeginOpen;
    hide PoolSystem.OpenTunnel;
    PrunedFine(contacts, p, q.opens, clock, now);
    ClockKeepsBudget(contacts, p.pendingOpens, clock, now, p.opts.newTunnelWindow, p.opts.newTunnelBudget);
    if BeginOpen(p, now, victim).1.None? {
      ReserveKeepsBudget(contacts, p.opens, p.pendingOpens, clock, now, p.opts.newTunnelWindow, p.opts.newTunnelBudget);
      NewWaiter(openers, id, t);
      assert id !in Waiters(openers);
    }
    hide Tracks;
    hide WithinBudget;
    hide PruneOpens;
  }

  lemma NewWaiter(openers: map<nat, Opener>, id: nat, t: TunnelOf)
    ensures Waiters(openers[id := PoolSystem.Opener(t, PoolSystem.Waiting)]) == Waiters(openers) + {id}
  {
    var after := openers[id := PoolSystem.Opener(t, PoolSystem.Waiting)];
    forall k ensures k in Waiters(after) <==> k in Waiters(openers) + {id} {}
  }

  lemma ChargingBudget(s: System, step: Step)
    requires Base(s) && PoolSystem.Enabled(s, step) && Budgeted(s) && step.Charging?
    ensures BudgetFine(PoolSystem.PoolAfter(s, step), PoolSystem.OpenersAfter(s, step), s.contacts + [step.now],
            step.now)
  {
    var p, now := s.pool, step.now;
    WaitersQuiet(s.openers, step.id, PoolSystem.Charged);
    assert p.opts.newTunnelWindow > 0 && p.pendingOpens > 0;
    CommitKeepsBudget(s.contacts, p.opens, p.pendingOpens, s.clock, now, p.opts.newTunnelWindow,
        p.opts.newTunnelBudget);
    hide Tracks;
    hide WithinBudget;
    hide Pool.Wf;
  }

  lemma CallingOffBudget(s: System, step: Step)
    requires Base(s) && PoolSystem.Enabled(s, step) && Budgeted(s) && step.CallingOff?
    ensures BudgetFine(PoolSystem.PoolAfter(s, step), PoolSystem.OpenersAfter(s, step), s.contacts, s.clock)
  {
    WaitersQuiet(s.openers, step.id, PoolSystem.CalledOff);
    hide Tracks;
    hide Pool.Wf;
  }

  lemma TrimmingBudget(s: System, step: Step)
    requires Base(s) && PoolSystem.Enabled(s, step) && Budgeted(s) && step.Trimming?
    ensures BudgetFine(PoolSystem.PoolAfter(s, step), PoolSystem.OpenersAfter(s, step), s.contacts, step.now)
  {
    var p, now := s.pool, step.now;
    PrunedFine(s.contacts, p, TrimOpens(p, now).opens, s.clock, now);
    ClockKeepsBudget(s.contacts, p.pendingOpens, s.clock, now, p.opts.newTunnelWindow, p.opts.newTunnelBudget);
    hide Tracks;
    hide WithinBudget;
    hide PruneOpens;
    hide Pool.Wf;
  }

  lemma BudgetStep(s: System, step: Step)
    requires Base(s) && PoolSystem.Enabled(s, step) && Budgeted(s)
    ensures Budgeted(PoolSystem.After(s, step))
  {
    hide BudgetFine;
    hide Pool.Wf;
    hide PoolSystem.PoolAfter;
    hide PoolSystem.OpenersAfter;
    hide PoolSystem.After;
    assert s.pool.Wf();
    hide Base;
    hide PoolSystem.Enabled;
    StepAfter(s, step);
    match step
    case Picking(_, _, _, _) => PickBudget(s, step);
    case Opening(_, _, _) => OpeningBudget(s, step);
    case Charging(_, _) => ChargingBudget(s, step);
    case CallingOff(_) => CallingOffBudget(s, step);
    case Trimming(_) => TrimmingBudget(s, step);
    case _ => QuietBudget(s, step);
  }

  lemma StepAfter(s: System, step: Step)
    requires s.pool.Wf() && PoolSystem.Enabled(s, step)
    ensures var t := PoolSystem.After(s, step);
            && t.pool == PoolSystem.PoolAfter(s, step) && t.openers == PoolSystem.OpenersAfter(s, step)
            && t.clock == PoolSystem.ClockAfter(s.clock, step)
            && t.contacts == (if step.Charging? then s.contacts + [step.now] else s.contacts)
            && (step.Picking? || step.Opening? || step.Charging? || step.Trimming? ==> t.clock == step.now)
  {
    hide Pool.Wf;
    hide PoolSystem.PoolAfter;
    hide PoolSystem.GrantsAfter;
    hide PoolSystem.TaintedAfter;
    hide PoolSystem.BansAfter;
    hide PoolSystem.InflightAfter;
    hide PoolSystem.OpenersAfter;
    hide PoolSystem.LeasesAfter;
  }

  // ---------------------------------------------------------------------
  // Whole runs.

  ghost predicate Tunnelled(s: System) {
    TunnelsFine(s.pool, s.openers) && OnlyProbesStayUp(s.openers) && Budgeted(s)
  }

  lemma TunnelledStep(s: System, step: Step)
    requires Base(s) && PoolSystem.Enabled(s, step) && Tunnelled(s)
    ensures Tunnelled(PoolSystem.After(s, step))
  {
    TunnelsStep(s, step);
    BudgetStep(s, step);
    hide TunnelsFine;
    hide OnlyProbesStayUp;
    hide BudgetFine;
    hide PoolSystem.PoolAfter;
    hide PoolSystem.OpenersAfter;
    hide Pool.Wf;
  }

  lemma {:induction false} NoEntries(entries: seq<EntryState>)
    requires forall i :: 0 <= i < |entries| ==> entries[i] == NEW_ENTRY
    ensures CountEntries(entries) == 0
  {
    if entries != [] { NoEntries(entries[..|entries| - 1]); }
  }

  lemma InitialQuiet(s: System)
    requires PoolSystem.Initial(s)
    ensures s.openers == map[] && s.contacts == []
  {}

  lemma InitialMembers(s: System)
    requires PoolSystem.Initial(s)
    ensures forall h :: h in s.pool.states ==> s.pool.IsMember(h)
  {
    var specs: seq<Spec>, entries: nat, opts: Options :|
      Constructible(specs, entries, opts) && s.pool == NewPool(specs, entries, opts);
    hide PoolSystem.Initial;
    InitialNamed(specs, |specs|);
    InitialStore(specs, |specs|);
  }

  lemma {:induction false} InitialNamed(specs: seq<Spec>, n: nat)
    requires n <= |specs|
    requires forall i, j :: 0 <= i < j < |specs| ==> specs[i].id != specs[j].id
    ensures forall h :: 0 <= h < n ==> specs[h].id in InitialSlots(specs, n).0
                                       && InitialSlots(specs, n).0[specs[h].id] == h
  {
    if n > 0 { InitialNamed(specs, n - 1); }
  }

  lemma InitialTunnelled(s: System)
    requires PoolSystem.Initial(s)
    ensures Tunnelled(s)
  {
    InitialBase(s);
    InitialQuiet(s);
    InitialMembers(s);
    hide PoolSystem.Initial;
    FreshTunnels(s.pool);
    NewBudget(s.pool, s.clock);
  }

  lemma FreshTunnels(p: Pool)
    requires p.Wf() && BrandNew(p) && forall h :: h in p.states ==> p.IsMember(h)
    ensures TunnelsFine(p, map[])
  {
    NoEntries(p.entries);
    assert forall id :: id in p.slots ==> !p.At(p.slots[id]).Occupied();
    assert Occupied(p) == {};
    hide Pool.Wf;
    forall t: TunnelOf ensures OpenersOf(map[], t) == {} {}
    forall h | h in p.states ensures PlacedState(p, h) {}
  }

  lemma NewBudget(p: Pool, clock: Time)
    requires BrandNew(p)
    ensures BudgetFine(p, map[], [], clock)
  {
    assert Waiters(map[]) == {};
    assert After([], clock - p.opts.newTunnelWindow) == [];
  }

  lemma {:induction false} AlwaysTunnelled(states: seq<System>, steps: seq<Step>, i: nat)
    requires PoolSystem.Run(states, steps) && i < |states|
    ensures Base(states[i]) && Tunnelled(states[i])
  {
    hide Base;
    hide Tunnelled;
    hide PoolSystem.Initial;
    ReachableIsWellFormed(states, steps, i);
    if i == 0 {
      InitialTunnelled(states[0]);
    } else {
      AlwaysTunnelled(states, steps, i - 1);
      assert PoolSystem.Next(states[i - 1], steps[i - 1], states[i]);
      BaseIsWf(states[i - 1]);
      TunnelledStep(states[i - 1], steps[i - 1]);
    }
  }

  /** In every reachable state of a capped pool the tunnels that are open or being
      opened, entries and probes included, never exceed the cap. */
  lemma TunnelsStayCapped(states: seq<System>, steps: seq<Step>, i: nat)
    requires PoolSystem.Run(states, steps) && i < |states| && states[i].pool.opts.maxActive > 0
    ensures TunnelCount(states[i].pool) <= states[i].pool.opts.maxActive
  {
    AlwaysTunnelled(states, steps, i);
  }

  /** At most one opening of a slot's or an entry's tunnel is under way, and none while
      it is up; detached states have no tunnel. */
  lemma OpeningsAreSingle(states: seq<System>, steps: seq<Step>, i: nat)
    requires PoolSystem.Run(states, steps) && i < |states|
    ensures var p := states[i].pool;
            && (forall h :: h in p.states ==>
                  |OpenersOf(states[i].openers, PoolSystem.SlotTunnel(h))| <= One(!p.states[h].open))
            && (forall k :: 0 <= k < |p.entries| ==>
                  |OpenersOf(states[i].openers, PoolSystem.EntryTunnel(k))| <= One(!p.entries[k].open))
            && (forall h :: h in p.states && !p.IsMember(h) ==>
                !p.states[h].Occupied() && p.states[h].spec.kind == RelaySocks)
            && p.probes == |OpenersOf(states[i].openers, PoolSystem.ProbeTunnel)|
  {
    AlwaysTunnelled(states, steps, i);
    hide Base;
    hide BudgetFine;
    hide PoolSystem.Run;
    var p := states[i].pool;
    assert forall h :: h in p.states ==> PlacedState(p, h);
  }

  /** The instants at which tunnels were charged to the budget. */
  function ContactTimes(steps: seq<Step>): seq<Time> {
    if steps == [] then []
    else ContactTimes(steps[..|steps| - 1]) + (if steps[|steps| - 1].Charging? then [steps[|steps| - 1].now] else [])
  }

  lemma {:induction false} ContactsAreRecorded(states: seq<System>, steps: seq<Step>, i: nat)
    requires PoolSystem.Run(states, steps) && i < |states|
    ensures states[i].contacts == ContactTimes(steps[..i])
  {
    hide PoolSystem.Initial;
    if i == 0 {
      InitialQuiet(states[0]);
    } else {
      ContactsAreRecorded(states, steps, i - 1);
      ReachableIsWellFormed(states, steps, i - 1);
      BaseIsWf(states[i - 1]);
      hide Base;
      hide Pool.Wf;
      assert PoolSystem.Next(states[i - 1], steps[i - 1], states[i]);
      assert steps[..i][..i - 1] == steps[..i - 1];
      hide PoolSystem.PoolAfter;
      hide PoolSystem.Enabled;
      hide PoolSystem.GrantsAfter;
      hide PoolSystem.TaintedAfter;
      hide PoolSystem.BansAfter;
      hide PoolSystem.InflightAfter;
      hide PoolSystem.OpenersAfter;
    }
  }

  /** With a positive budget no window of the configured length, wherever it ends, ever
      holds more tunnel openings than the budget. */
  lemma RateLimitHolds(states: seq<System>, steps: seq<Step>, i: nat, t: Time)
    requires PoolSystem.Run(states, steps) && i < |states| && states[i].pool.opts.newTunnelBudget > 0
    ensures Contacts(ContactTimes(steps[..i]), t,
            states[i].pool.opts.newTunnelWindow) <= states[i].pool.opts.newTunnelBudget
  {
    AlwaysTunnelled(states, steps, i);
    ContactsAreRecorded(states, steps, i);
    hide Base;
    hide TunnelsFine;
    hide PoolSystem.Run;
  }

  /** The kept list, pruned at any later instant, is the whole history filtered to the
      window, and the pending counter is the number of openings not yet charged. */
  lemma PrunedListIsTheWindow(states: seq<System>, steps: seq<Step>, i: nat, now: Time)
    requires PoolSystem.Run(states, steps) && i < |states| && states[i].clock <= now
    ensures var p := states[i].pool;
            && PruneOpens(p.opens, now, p.opts.newTunnelWindow)
                == After(ContactTimes(steps[..i]), now - p.opts.newTunnelWindow)
            && p.pendingOpens == |Waiters(states[i].openers)|
  {
    hide PoolSystem.Run;
    hide Base;
    hide TunnelsFine;
    hide OnlyProbesStayUp;
    hide BudgetFine;
    hide ContactTimes;
    hide After;
    hide PruneOpens;
    AlwaysTunnelled(states, steps, i);
    ContactsAreRecorded(states, steps, i);
    BudgetMeans(states[i].pool, states[i].openers, states[i].contacts, states[i].clock, now);
  }

  lemma BudgetMeans(p: Pool, openers: map<nat, Opener>, contacts: seq<Time>, clock: Time, now: Time)
    requires BudgetFine(p, openers, contacts, clock) && clock <= now
    ensures PruneOpens(p.opens, now, p.opts.newTunnelWindow) == After(contacts, now - p.opts.newTunnelWindow)
    ensures p.pendingOpens == |Waiters(openers)|
  {
    PrunedIsWindow(contacts, p.opens, clock, now, p.opts.newTunnelWindow);
  }
}
