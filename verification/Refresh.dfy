/** A relay refresh that is refused for a collision: what it has changed by then, when it
    has changed nothing, and a new pool it changes. */
module Refresh {
  import opened Common
  import opened Ordering
  import opened PoolState
  import opened PoolSystem
  import opened WellFormed
  import opened Scenario

  /** The spec names a relay the pool has already. */
  predicate Retained(p: Pool, spec: Spec) {
    spec.id in p.slots && p.Slot(spec.id).spec.kind == RelaySocks
  }

  /** What the first `n` specs of a refused refresh have changed. */
  ghost predicate Changed(p: Pool, q: Pool, specs: seq<Spec>, done: set<string>, n: nat)
    requires n <= |specs|
  {
    q == p.(states := q.states) && StatesChanged(p, q.states, specs, done, n)
  }

  ghost predicate StatesChanged(p: Pool, states: map<Handle, SlotState>, specs: seq<Spec>, done: set<string>, n: nat)
    requires n <= |specs|
  {
    && states.Keys == p.states.Keys
    && (forall i :: 0 <= i < n && specs[i].id in done && Retained(p, specs[i]) ==>
          var h := p.slots[specs[i].id]; h in states && states[h] == p.Slot(specs[i].id).(spec := specs[i]))
    && (forall h :: h in p.states && Untouched(p, specs, done, n, h) ==> states[h] == p.states[h])
  }

  /** None of the first `n` specs in `done` is of the relay behind this handle. */
  ghost predicate Untouched(p: Pool, specs: seq<Spec>, done: set<string>, n: nat, h: Handle)
    requires n <= |specs|
  {
    forall i :: 0 <= i < n && specs[i].id in done && Retained(p, specs[i]) ==> p.slots[specs[i].id] != h
  }

  /** Different members have different states. */
  lemma MembersApart(p: Pool, a: string, b: string)
    requires p.Wf() && a in p.slots && b in p.slots && a != b
    ensures p.slots[a] != p.slots[b]
  {
    assert p.states[p.slots[a]].spec.id == a && p.states[p.slots[b]].spec.id == b;
  }

  /** Earlier specs have not touched the slot the next one names. */
  lemma NotYet(p: Pool, q: Pool, specs: seq<Spec>, done: set<string>, n: nat)
    requires p.Wf() && RelaysWellFormed(specs) && n < |specs| && Changed(p, q, specs, done, n)
    requires specs[n].id in p.slots
    ensures q.slots == p.slots && q.Slot(specs[n].id) == p.Slot(specs[n].id) && p.slots[specs[n].id] in p.states
    ensures forall i :: 0 <= i < n && specs[i].id in p.slots ==> p.slots[specs[i].id] != p.slots[specs[n].id]
  {
    forall i | 0 <= i < n && specs[i].id in p.slots ensures p.slots[specs[i].id] != p.slots[specs[n].id] {
      MembersApart(p, specs[i].id, specs[n].id);
    }
    assert p.slots[specs[n].id] in p.states;
    hide Pool.Wf;
    hide RelaysWellFormed;
    assert Untouched(p, specs, done, n, p.slots[specs[n].id]);
  }

  lemma ChangedNext(p: Pool, q: Pool, specs: seq<Spec>, done: set<string>, n: nat)
    requires p.Wf() && RelaysWellFormed(specs) && n < |specs| && Changed(p, q, specs, done, n)
    ensures Changed(p, RespecRelay(q, specs[n], done), specs, done, n + 1)
  {
    if specs[n].id in p.slots { NotYet(p, q, specs, done, n); }
    hide Pool.Wf;
    hide RelaysWellFormed;
    if specs[n].id in done && Retained(p, specs[n]) {
      OneChanged(p, q.states, specs, done, n);
    } else {
      NoneChanged(p, q.states, specs, done, n);
    }
    hide StatesChanged;
  }

  lemma OneChanged(p: Pool, states: map<Handle, SlotState>, specs: seq<Spec>, done: set<string>, n: nat)
    requires n < |specs| && StatesChanged(p, states, specs, done, n)
    requires specs[n].id in done && Retained(p, specs[n]) && p.slots[specs[n].id] in p.states
    requires forall i :: 0 <= i < n && specs[i].id in p.slots ==> p.slots[specs[i].id] != p.slots[specs[n].id]
    ensures StatesChanged(p, states[p.slots[specs[n].id] := p.Slot(specs[n].id).(spec := specs[n])], specs, done, n + 1)
  {
    var k := p.slots[specs[n].id];
    var after := states[k := p.Slot(specs[n].id).(spec := specs[n])];
    forall h | h in p.states && Untouched(p, specs, done, n + 1, h) ensures after[h] == p.states[h] {
      assert h != k && Untouched(p, specs, done, n, h);
    }
    hide Untouched;
    hide Pool.At;
  }

  lemma NoneChanged(p: Pool, states: map<Handle, SlotState>, specs: seq<Spec>, done: set<string>, n: nat)
    requires n < |specs| && StatesChanged(p, states, specs, done, n)
    requires !(specs[n].id in done && Retained(p, specs[n]))
    ensures StatesChanged(p, states, specs, done, n + 1)
  {
    forall h | h in p.states && Untouched(p, specs, done, n + 1, h) ensures states[h] == p.states[h] {
      assert Untouched(p, specs, done, n, h);
    }
    hide Untouched;
  }

  lemma {:induction false} RespecChanges(p: Pool, specs: seq<Spec>, done: set<string>, n: nat)
    requires p.Wf() && RelaysWellFormed(specs) && n <= |specs|
    ensures Changed(p, Respec(p, specs, done, n), specs, done, n)
  {
    if n == 0 {
      assert Respec(p, specs, done, 0) == p;
    } else {
      RespecChanges(p, specs, done, n - 1);
      ChangedNext(p, Respec(p, specs, done, n - 1), specs, done, n - 1);
      hide Changed;
      hide RespecRelay;
      hide Pool.Wf;
      hide RelaysWellFormed;
    }
  }

  /** A refused refresh gives the retained relays in `done` their new spec and changes
      nothing else. */
  lemma RefusalChanges(p: Pool, specs: seq<Spec>, done: set<string>)
    requires p.Wf() && RelaysWellFormed(specs) && Collides(p, specs)
    ensures !Reconcile(p, specs, done).1 && Changed(p, Reconcile(p, specs, done).0, specs, done, |specs|)
  {
    RespecChanges(p, specs, done, |specs|);
    hide Changed;
  }

  /** The retained relays in `done` have the spec the refresh gives them already. */
  ghost predicate SpecsKept(p: Pool, specs: seq<Spec>, done: set<string>) {
    forall i :: 0 <= i < |specs| && specs[i].id in done && Retained(p, specs[i]) ==>
      p.Slot(specs[i].id).spec == specs[i]
  }

  /** A refused refresh leaves the pool alone exactly when none of the relays met before
      the collision was to get a different spec. */
  lemma RefusalHarmlessExactly(p: Pool, specs: seq<Spec>, done: set<string>)
    requires p.Wf() && RelaysWellFormed(specs) && Collides(p, specs)
    ensures Reconcile(p, specs, done).0 == p <==> SpecsKept(p, specs, done)
  {
    RefusalChanges(p, specs, done);
    var q := Reconcile(p, specs, done).0;
    hide Reconcile;
    hide RelaysWellFormed;
    if SpecsKept(p, specs, done) {
      forall h | h in p.states ensures q.states[h] == p.states[h] {
        if !Untouched(p, specs, done, |specs|, h) {
          var i :| 0 <= i < |specs| && specs[i].id in done && Retained(p, specs[i]) && p.slots[specs[i].id] == h;
          assert q.Slot(specs[i].id) == p.Slot(specs[i].id).(spec := specs[i]);
        }
      }
      assert q.states == p.states;
    }
    if q == p {
      forall i | 0 <= i < |specs| && specs[i].id in done && Retained(p, specs[i])
        ensures p.Slot(specs[i].id).spec == specs[i]
      {
        assert q.Slot(specs[i].id) == p.Slot(specs[i].id).(spec := specs[i]);
      }
    }
  }

  /** When a refresh is refused, and when that changed nothing. */
  lemma RefreshOutcome(p: Pool, specs: seq<Spec>, done: set<string>)
    requires p.Wf()
    ensures var (q, ok) := Reconcile(p, specs, done);
            && (ok <==> RelaysWellFormed(specs) && !Collides(p, specs))
            && (!ok ==> (q == p <==> !RelaysWellFormed(specs) || SpecsKept(p, specs, done)))
  {
    hide Pool.Wf;
    hide RelaysWellFormed;
    hide Collides;
    hide SpecsKept;
    if RelaysWellFormed(specs) && Collides(p, specs) {
      RefusalHarmlessExactly(p, specs, done);
      RefusalChanges(p, specs, done);
      hide Reconcile;
      hide Changed;
    } else if RelaysWellFormed(specs) {
      hide InstallRelays;
      hide KeptSlots;
    }
  }

  /** Whichever relays a refused refresh meets first, it leaves the pool alone, exactly
      when no retained relay's spec differs from the refreshed one. */
  lemma RefusalsHarmlessExactly(p: Pool, specs: seq<Spec>)
    requires p.Wf() && RelaysWellFormed(specs) && Collides(p, specs)
    ensures (forall done :: Reconcile(p, specs, done).0 == p)
            <==> forall i :: 0 <= i < |specs| && Retained(p, specs[i]) ==> p.Slot(specs[i].id).spec == specs[i]
  {
    forall done ensures Reconcile(p, specs, done).0 == p <==> SpecsKept(p, specs, done) {
      RefusalHarmlessExactly(p, specs, done);
    }
    var all := set i | 0 <= i < |specs| :: specs[i].id;
    hide Reconcile;
    hide Collides;
    hide RelaysWellFormed;
    hide Pool.Wf;
    if forall done :: Reconcile(p, specs, done).0 == p {
      assert Reconcile(p, specs, all).0 == p;
    }
  }

  // ---------------------------------------------------------------------
  // A new pool that a refused refresh changes.

  const RELAY: Spec := Spec("a", "se", "se-got", "", false, RelaySocks)

  const MOVED: Spec := RELAY.(city := "se-sto")

  const TUNNEL: Spec := Spec("w", "se", "se-got", "", false, WireGuard)

  /** The refresh moves the relay and takes the ID of the WireGuard slot. */
  const REFRESHED: seq<Spec> := [MOVED, TUNNEL.(kind := RelaySocks)]

  lemma NewPoolHas() returns (p: Pool)
    ensures p == NewPool([RELAY, TUNNEL], 1, OPTIONS) && Constructible([RELAY, TUNNEL], 1, OPTIONS)
    ensures p.slots == map["a" := 0, "w" := 1]
    ensures p.states == map[0 := NewSlotState(RELAY), 1 := NewSlotState(TUNNEL)]
  {
    var specs := [RELAY, TUNNEL];
    assert InitialSlots(specs, 0) == (map[], map[]);
    assert InitialSlots(specs, 1) == (map["a" := 0], map[0 := NewSlotState(RELAY)]);
    assert InitialSlots(specs, 2).0 == map["a" := 0, "w" := 1];
    assert InitialSlots(specs, 2).1 == map[0 := NewSlotState(RELAY), 1 := NewSlotState(TUNNEL)];
    p := NewPool(specs, 1, OPTIONS);
  }

  lemma RefreshCollides(p: Pool)
    requires p.slots == map["a" := 0, "w" := 1]
    requires p.states == map[0 := NewSlotState(RELAY), 1 := NewSlotState(TUNNEL)]
    ensures RelaysWellFormed(REFRESHED) && Collides(p, REFRESHED) && Retained(p, REFRESHED[0])
  {
    assert REFRESHED[0] == MOVED && REFRESHED[1].id == "w";
    assert p.Slot("a") == NewSlotState(RELAY) && p.Slot("w") == NewSlotState(TUNNEL);
  }

  lemma RelayMoves(p: Pool)
    requires p.Wf() && p.slots == map["a" := 0, "w" := 1]
    requires p.states == map[0 := NewSlotState(RELAY), 1 := NewSlotState(TUNNEL)]
    ensures var q := Reconcile(p, REFRESHED, {"a"}).0;
            && !Reconcile(p, REFRESHED, {"a"}).1 && q.slots == p.slots
            && p.Slot("a").spec == RELAY && q.Slot("a").spec == MOVED
  {
    RefreshCollides(p);
    RefusalChanges(p, REFRESHED, {"a"});
    hide Reconcile;
    hide Pool.Wf;
    hide Collides;
    hide RelaysWellFormed;
    assert REFRESHED[0] == MOVED;
  }

  /** The refresh of a new pool of one relay and one WireGuard slot is refused, and the
      relay has moved. */
  lemma RefusedRefreshChanges() returns (states: seq<System>, steps: seq<Step>)
    ensures Run(states, steps) && steps == [Reconciling(REFRESHED, {"a"})]
    ensures var p, q := states[0].pool, states[1].pool;
            && !Reconcile(p, REFRESHED, {"a"}).1
            && p.slots.Keys == q.slots.Keys == {"a", "w"}
            && p.Slot("a").spec == RELAY && q.Slot("a").spec == MOVED
  {
    hide NewPool;
    hide Reconcile;
    hide Pool.Wf;
    hide Constructible;
    var p := NewPoolHas();
    NewPoolIsBrandNew([RELAY, TUNNEL], 1, OPTIONS);
    RelayMoves(p);
    var s0 := System(p, 1, 0, map[], map[], map[], map[], {}, {}, []);
    var s1 := RefreshStep(s0, REFRESHED, {"a"}, Reconcile(p, REFRESHED, {"a"}).0);
    hide Next;
    states, steps := [s0, s1], [Reconciling(REFRESHED, {"a"})];
  }
}
