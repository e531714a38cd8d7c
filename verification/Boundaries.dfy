/** Where the batch rules stop holding: exact conditions, and runs from a new pool. */
module Boundaries {
  import opened Common
  import opened PolicyTypes
  import opened Ordering
  import opened Batches
  import opened Preferred
  import opened PoolState
  import opened PoolSystem
  import opened WellFormed
  import opened BatchRuns
  import opened RollbackRuns
  import opened Scenario

  /** The slot passes every rule except the batch's own exclusion. */
  predicate PassesOtherRules(p: Pool, s: SlotState, pol: Policy, target: string, now: Time) {
    Eligible(p.(batches := p.batches - {pol.uniqueBatch}), s, pol, target, now)
  }

  predicate Consumed(b: BatchState, s: SlotState) {
    s.spec.id in b.usedSlots || s.publicIP in b.usedIPs
  }

  lemma ExclusionAlone(p: Pool, s: SlotState, pol: Policy, target: string, now: Time)
    requires PassesOtherRules(p, s, pol, target, now)
    ensures Eligible(p, s, pol, target, now) <==> pol.uniqueBatch == "" || !BatchExcludes(p, s, pol.uniqueBatch, now)
  {
    hide ContainsFold;
  }

  /** A slot a generation has consumed is granted again in that same generation exactly
      at the instant the generation expires: eligibility already counts that instant as
      over, renewal does not yet. */
  lemma RegrantedExactlyAtExpiry(p: Pool, s: SlotState, pol: Policy, target: string, now: Time)
    requires p.Wf() && pol.uniqueBatch != "" && pol.uniqueBatch in p.batches
    requires Consumed(p.batches[pol.uniqueBatch], s) && PassesOtherRules(p, s, pol, target, now)
    ensures Eligible(p, s, pol, target, now) && EnteredBatch(p, pol, now).gen == p.batches[pol.uniqueBatch].gen
            <==> now == p.batches[pol.uniqueBatch].expiresAt
  {
    ExclusionAlone(p, s, pol, target, now);
    hide Eligible;
    hide PassesOtherRules;
  }

  /** A rollback keeps the grant of another acquisition in the same generation exactly
      when the two are of different slots: after a report has freed a slot and it was
      granted again, the older rollback frees the newer grant. */
  lemma RollbackKeepsOtherExactly(p: Pool, r: Reservation, other: BatchReservation)
    requires BatchesFine(p) && r.batch.Some? && StillStored(p, r.batch.value)
    requires other.name == r.batch.value.name && StillStored(p, other)
    requires other.slotID in p.batches[other.name].usedSlots
    ensures var q := Rollback(p, r);
            StillStored(q, other) && other.slotID in q.batches[other.name].usedSlots <==>
                other.slotID != r.batch.value.slotID
  {
    RollbackIsExact(p, r);
    hide Rollback;
    hide BatchesFine;
    hide BatchState.OwnedByOther;
    hide BatchState.IPsOf;
  }

  // ---------------------------------------------------------------------
  // A run that grants one slot twice in one generation.

  const BATCH: Policy := EMPTY_POLICY.(uniqueBatch := "b")

  const SLOT: Spec := Spec("a", "", "", "", false, RelaySocks)

  /** A slot whose address was measured at `at`, with this many acquisitions under way. */
  function Measured(spec: Spec, ip: Addr, at: Time, pending: nat): SlotState {
    NewSlotState(spec).(publicIP := ip, ipCheckedAt := at, pendingLeases := pending)
  }

  function Holding(slotID: string): Reservation {
    Reservation(Some(BatchReservation("b", 0, slotID)), "", if slotID == "a" then 0 else 1)
  }

  /** A pool of one slot. */
  function OneSlot(s: SlotState, batches: map<string, BatchState>, gens: nat, reserved: nat): Pool {
    Pool(OPTIONS, map[0 := s], 1, map["a" := 0], ["a"], map[], map[], batches, gens, map[], map[], [NEW_ENTRY], [], 0,
        0, 0, reserved)
  }

  lemma OneSlotIsWf(s: SlotState, batches: map<string, BatchState>, gens: nat, reserved: nat)
    requires s.spec == SLOT && batches.Keys <= {"b"} && forall n :: n in batches ==> batches[n].gen < gens
    ensures OneSlot(s, batches, gens, reserved).Wf()
  {
    var p := OneSlot(s, batches, gens, reserved);
    assert p.order == ["a"];
    assert forall id :: id in p.order <==> id == "a";
  }

  lemma StartsWithOne() returns (s: System)
    ensures Initial(s) && Stands(s, OneSlot(NewSlotState(SLOT), map[], 0, 0), 10, 0, map[]) && s.grants == map[]
  {
    var specs := [SLOT];
    var p := NewPool(specs, 1, OPTIONS);
    assert InitialSlots(specs, 0) == (map[], map[]);
    assert InitialSlots(specs, 1) == (map["a" := 0], map[0 := NewSlotState(SLOT)]);
    ListingSorted({"a"});
    SortedIsUnique(Listing({"a"}), ["a"]);
    assert map["a" := 0].Keys == {"a"};
    assert seq(1, _ => NEW_ENTRY) == [NEW_ENTRY];
    assert p == OneSlot(NewSlotState(SLOT), map[], 0, 0);
    assert Constructible(specs, 1, OPTIONS);
    s := System(p, 10, 0, map[], map[], map[], map[], {}, {}, []);
  }

  lemma MeasuresOnly()
    ensures Measure(OneSlot(NewSlotState(SLOT), map[], 0, 0), 0, Addr(7), 10, false, 10)
            == OneSlot(Measured(SLOT, Addr(7), 10, 0), map[], 0, 0)
  {
    var p := OneSlot(NewSlotState(SLOT), map[], 0, 0);
    var s := Measured(SLOT, Addr(7), 10, 0);
    assert p.states[0 := s] == map[0 := s];
    assert SetPublicIP(p, 0, Addr(7), 10, 10).batches == map[];
  }

  /** A selection of the only slot. */
  lemma PicksOnly(p: Pool, now: Time)
    requires p.Wf() && AllLive(p, now) && p.opts == OPTIONS && p.order == ["a"] && p.slots == map["a" := 0]
             && p.At(0).Ready()
    requires Eligible(p, p.At(0), BATCH, "", now) && Refusal(p, BATCH, now).None?
    ensures Pick(p, BATCH, "", now, LUCK)
            == (Reserved(p, BATCH, 0, now), Ok(Choice(0, FromReady, Ticket(p, BATCH, 0, now))))
  {
    NothingStale(p, now);
    hide Expire;
    hide DropLapsed;
    hide AllLive;
    hide Eligible;
    hide Pool.Wf;
    hide Reserved;
    hide Ticket;
    hide Refusal;
    assert ForgetSession(p, BATCH, now) == p;
    TakesTheOnly(p, BATCH, now);
    hide PickSticky;
  }

  /** The slot burned at instant 10: the generation expires at instant 20. */
  function Burned(): BatchState { NewBatch(0, 20).Reserve("a", Addr(7), 10) }

  lemma BurnedIs()
    ensures Burned().usedSlots == {"a"} && Burned().usedIPs.Keys == {Addr(7)} && Burned().gen == 0
            && Burned().expiresAt == 20
  {}

  function BurnedAgain(): BatchState { Burned().(expiresAt := 30).Reserve("a", Addr(7), 20) }

  /** A measured slot may serve unless the batch excludes it. */
  lemma ServesBatch(p: Pool, s: SlotState, now: Time)
    requires p.opts == OPTIONS && !s.spec.rotating && s.disabledUntil <= now && s.publicIP != NoAddr
    requires ZERO_TIME < s.ipCheckedAt && now < s.ipCheckedAt + 100
    ensures Eligible(p, s, BATCH, "", now) <==> !BatchExcludes(p, s, "b", now)
  {
    hide BatchExcludes;
    hide ContainsFold;
  }

  lemma ReservesOnly(s: SlotState, batches: map<string, BatchState>, gens: nat, reserved: nat, now: Time)
    requires s.spec == SLOT
    ensures var p := OneSlot(s, batches, gens, reserved);
            var b := EnteredBatch(p, BATCH, now);
            && Reserved(p, BATCH, 0, now)
               == OneSlot(s.(pendingLeases := s.pendingLeases + 1), batches["b" := b.Reserve("a", s.publicIP, now)],
                          if Renews(p, "b", now) then gens + 1 else gens, reserved + 1)
            && (b.gen == 0 ==> Ticket(p, BATCH, 0, now) == Holding("a"))
  {
    hide EnteredBatch;
    hide Renews;
    hide BatchState.Reserve;
    var t := s.(pendingLeases := s.pendingLeases + 1);
    assert map[0 := s][0 := t] == map[0 := t];
  }

  lemma FirstEnters()
    ensures var p := OneSlot(Measured(SLOT, Addr(7), 10, 0), map[], 0, 0);
            && Eligible(p, p.At(0), BATCH, "", 10) && Refusal(p, BATCH, 10).None?
            && EnteredBatch(p, BATCH, 10) == NewBatch(0, 20) && Renews(p, "b", 10)
  {
    var p := OneSlot(Measured(SLOT, Addr(7), 10, 0), map[], 0, 0);
    assert |p.batches - {"b"}| == 0;
    ServesBatch(p, p.At(0), 10);
    hide Eligible;
  }

  lemma PickedFirst()
    ensures var p := OneSlot(Measured(SLOT, Addr(7), 10, 0), map[], 0, 0);
            p.Wf() && Pick(p, BATCH, "", 10, LUCK)
                      == (OneSlot(Measured(SLOT, Addr(7), 10, 1), map["b" := Burned()], 1, 1),
                          Ok(Choice(0, FromReady, Holding("a"))))
  {
    hide Pool.Wf;
    hide Eligible;
    hide Reserved;
    hide Ticket;
    hide Refusal;
    hide EnteredBatch;
    hide Renews;
    hide BatchState.Reserve;
    hide Pick;
    var s := Measured(SLOT, Addr(7), 10, 0);
    OneSlotIsWf(s, map[], 0, 0);
    FirstEnters();
    ReservesOnly(s, map[], 0, 0, 10);
    PicksOnly(OneSlot(s, map[], 0, 0), 10);
  }

  lemma AgainEnters()
    ensures var p := OneSlot(Measured(SLOT, Addr(7), 10, 1), map["b" := Burned()], 1, 1);
            && Eligible(p, p.At(0), BATCH, "", 20) && Refusal(p, BATCH, 20).None?
            && EnteredBatch(p, BATCH, 20) == Burned().(expiresAt := 30) && !Renews(p, "b", 20)
  {
    var p := OneSlot(Measured(SLOT, Addr(7), 10, 1), map["b" := Burned()], 1, 1);
    BurnedIs();
    hide Burned;
    ServesBatch(p, p.At(0), 20);
    hide Eligible;
  }

  lemma PickedAgain()
    ensures var p := OneSlot(Measured(SLOT, Addr(7), 10, 1), map["b" := Burned()], 1, 1);
            p.Wf() && Pick(p, BATCH, "", 20, LUCK)
                      == (OneSlot(Measured(SLOT, Addr(7), 10, 2), map["b" := BurnedAgain()], 1, 2),
                          Ok(Choice(0, FromReady, Holding("a"))))
  {
    hide Pool.Wf;
    hide Eligible;
    hide Reserved;
    hide Ticket;
    hide Refusal;
    hide EnteredBatch;
    hide Renews;
    hide BatchState.Reserve;
    hide Pick;
    hide Burned;
    var s, batches := Measured(SLOT, Addr(7), 10, 1), map["b" := Burned()];
    BurnedIs();
    OneSlotIsWf(s, batches, 1, 1);
    AgainEnters();
    ReservesOnly(s, batches, 1, 1, 20);
    assert batches["b" := BurnedAgain()] == map["b" := BurnedAgain()];
    PicksOnly(OneSlot(s, batches, 1, 1), 20);
  }

  /** One instant before the expiry nothing is selected. */
  lemma NotBefore()
    ensures var p := OneSlot(Measured(SLOT, Addr(7), 10, 1), map["b" := Burned()], 1, 1);
            p.Wf() && Pick(p, BATCH, "", 19, LUCK).1 == Err(NoCandidate)
  {
    var p := OneSlot(Measured(SLOT, Addr(7), 10, 1), map["b" := Burned()], 1, 1);
    BurnedIs();
    hide Burned;
    OneSlotIsWf(p.At(0), p.batches, 1, 1);
    NothingStale(p, 19);
    hide Expire;
    hide DropLapsed;
    hide PickSticky;
    hide Pool.Wf;
    ServesBatch(p, p.At(0), 19);
    TakesNothing(p, BATCH, 19, LUCK);
    hide Eligible;
  }

  lemma TakesNothing(p: Pool, pol: Policy, now: Time, luck: Luck)
    requires p.order == ["a"] && p.slots == map["a" := 0] && p.preferred == map[] && pol.session == ""
             && !pol.recycleBatch
    requires !Eligible(p, p.At(0), pol, "", now)
    ensures PickSticky(p, pol, "", now, luck) == (p, Err(NoCandidate))
  {
    hide Eligible;
    assert Candidates(p, pol, "", now, 0) == [];
    assert p.order[0] == "a";
    assert Candidates(p, pol, "", now, 1) == [];
    assert ForgetSession(p, pol, now) == p;
  }

  lemma OneMeasured() returns (s0: System, s1: System)
    ensures Initial(s0) && Next(s0, Measuring(0, Addr(7), 10, false, 10), s1)
    ensures Stands(s1, OneSlot(Measured(SLOT, Addr(7), 10, 0), map[], 0, 0), 10, 1, map[]) && s1.grants == map[]
  {
    hide Initial;
    hide Next;
    hide Measure;
    hide Pool.Wf;
    s0 := StartsWithOne();
    MeasuresOnly();
    OneSlotIsWf(NewSlotState(SLOT), map[], 0, 0);
    s1 := MeasureStep(s0, 0, Addr(7), 10, OneSlot(Measured(SLOT, Addr(7), 10, 0), map[], 0, 0));
  }

  lemma PickedTwice(s1: System) returns (s2: System, s3: System)
    requires Stands(s1, OneSlot(Measured(SLOT, Addr(7), 10, 0), map[], 0, 0), 10, 1, map[]) && s1.grants == map[]
    ensures Next(s1, Picking(BATCH, "", 10, LUCK), s2) && Next(s2, Picking(BATCH, "", 20, LUCK), s3)
    ensures s2.pool == OneSlot(Measured(SLOT, Addr(7), 10, 1), map["b" := Burned()], 1, 1)
    ensures s3.grants == map[1 := Grant(0, "a", Addr(7)), 2 := Grant(0, "a", Addr(7))]
    ensures s3.inflight == map[1 := Inflight(Holding("a"), BATCH), 2 := Inflight(Holding("a"), BATCH)]
  {
    hide Next;
    hide Pick;
    hide Pool.Wf;
    hide Burned;
    hide BurnedAgain;
    PickedFirst();
    var c := Choice(0, FromReady, Holding("a"));
    s2 := PickStep(s1, BATCH, 10, OneSlot(Measured(SLOT, Addr(7), 10, 1), map["b" := Burned()], 1, 1), c);
    PickedAgain();
    s3 := PickStep(s2, BATCH, 20, OneSlot(Measured(SLOT, Addr(7), 10, 2), map["b" := BurnedAgain()], 1, 2), c);
  }

  /** From a new pool of one slot: measure it, select it for a batch, and select for the
      batch again at the instant its generation expires. Both acquisitions are under way
      then, with the same slot and address in the same generation; one instant earlier
      nothing is selected. */
  lemma SameGenerationTwice() returns (states: seq<System>, steps: seq<Step>)
    ensures Run(states, steps) && |states| == 4 && steps[2] == Picking(BATCH, "", 20, LUCK)
    ensures states[3].grants == map[1 := Grant(0, "a", Addr(7)), 2 := Grant(0, "a", Addr(7))]
    ensures states[3].inflight == map[1 := Inflight(Holding("a"), BATCH), 2 := Inflight(Holding("a"), BATCH)]
    ensures states[2].pool.Wf() && Pick(states[2].pool, BATCH, "", 19, LUCK).1 == Err(NoCandidate)
  {
    hide Initial;
    hide Next;
    hide Pick;
    hide Measure;
    hide Pool.Wf;
    hide Burned;
    hide BurnedAgain;
    var s0, s1 := OneMeasured();
    var s2, s3 := PickedTwice(s1);
    NotBefore();
    states := [s0, s1, s2, s3];
    steps := [Measuring(0, Addr(7), 10, false, 10), Picking(BATCH, "", 10, LUCK), Picking(BATCH, "", 20, LUCK)];
  }

  // ---------------------------------------------------------------------
  // A run in which a rollback frees a newer grant.

  const OTHER: Spec := SLOT.(id := "c")

  const COMPLAINT: Complaint := Complaint("", "a", NoAddr, "x", 5)

  const REPORTED: map<(string, Addr), Time> := map[("x", Addr(7)) := 25]

  function First(pending: nat, cooldowns: map<string, Time>): SlotState {
    Measured(SLOT, Addr(7), 20, pending).(cooldowns := cooldowns)
  }

  function Second(pending: nat): SlotState { Measured(OTHER, Addr(8), 20, pending) }

  /** A pool of two slots. */
  function TwoSlots(s: SlotState, t: SlotState, batches: map<string, BatchState>, gens: nat,
                    cooldowns: map<(string, Addr), Time>, reserved: nat): Pool {
    Pool(OPTIONS, map[0 := s, 1 := t], 2, map["a" := 0, "c" := 1], ["a", "c"], map[], map[], batches, gens, map[],
         cooldowns, [NEW_ENTRY], [], 0, 0, 0, reserved)
  }

  lemma TwoSlotsWf(s: SlotState, t: SlotState, batches: map<string, BatchState>, gens: nat,
                   cooldowns: map<(string, Addr), Time>, reserved: nat)
    requires s.spec == SLOT && t.spec == OTHER
    requires batches.Keys <= {"b"} && forall n :: n in batches ==> batches[n].gen < gens
    ensures TwoSlots(s, t, batches, gens, cooldowns, reserved).Wf()
  {
    var p := TwoSlots(s, t, batches, gens, cooldowns, reserved);
    assert p.order == ["a", "c"] && p.order[0] == "a" && p.order[1] == "c";
    assert Below("a", "c");
    assert forall id :: id in p.order <==> id == "a" || id == "c";
  }

  lemma BothListed()
    ensures Listing({"a", "c"}) == ["a", "c"]
  {
    ListingSorted({"a", "c"});
    var order := ["a", "c"];
    assert order[0] == "a" && order[1] == "c" && Below("a", "c");
    assert forall id :: id in order <==> id == "a" || id == "c";
    hide Below;
    hide Listing;
    SortedIsUnique(Listing({"a", "c"}), order);
  }

  lemma TwoInstalled()
    ensures InitialSlots([SLOT, OTHER], 2)
            == (map["a" := 0, "c" := 1], map[0 := NewSlotState(SLOT), 1 := NewSlotState(OTHER)])
  {
    var specs := [SLOT, OTHER];
    assert InitialSlots(specs, 0) == (map[], map[]);
    assert InitialSlots(specs, 1) == (map["a" := 0], map[0 := NewSlotState(SLOT)]);
    assert InitialSlots(specs, 2).0 == map["a" := 0, "c" := 1];
    assert InitialSlots(specs, 2).1 == map[0 := NewSlotState(SLOT), 1 := NewSlotState(OTHER)];
  }

  lemma StartsWithTwo() returns (s: System)
    ensures Initial(s)
    ensures Stands(s, TwoSlots(NewSlotState(SLOT), NewSlotState(OTHER), map[], 0, map[], 0), 20, 0, map[])
  {
    hide InitialSlots;
    hide Listing;
    TwoInstalled();
    BothListed();
    var specs := [SLOT, OTHER];
    var p := NewPool(specs, 1, OPTIONS);
    assert map["a" := 0, "c" := 1].Keys == {"a", "c"};
    assert seq(1, _ => NEW_ENTRY) == [NEW_ENTRY];
    assert p == TwoSlots(NewSlotState(SLOT), NewSlotState(OTHER), map[], 0, map[], 0);
    hide NewPool;
    assert Constructible(specs, 1, OPTIONS);
    s := System(p, 20, 0, map[], map[], map[], map[], {}, {}, []);
  }

  lemma MeasuresBoth()
    ensures Measure(TwoSlots(NewSlotState(SLOT), NewSlotState(OTHER), map[], 0, map[], 0), 0, Addr(7), 20, false, 20)
            == TwoSlots(First(0, map[]), NewSlotState(OTHER), map[], 0, map[], 0)
    ensures Measure(TwoSlots(First(0, map[]), NewSlotState(OTHER), map[], 0, map[], 0), 1, Addr(8), 20, false, 20)
            == TwoSlots(First(0, map[]), Second(0), map[], 0, map[], 0)
  {
    var p := TwoSlots(NewSlotState(SLOT), NewSlotState(OTHER), map[], 0, map[], 0);
    var q := TwoSlots(First(0, map[]), NewSlotState(OTHER), map[], 0, map[], 0);
    assert SetPublicIP(p, 0, Addr(7), 20, 20).batches == map[] && SetPublicIP(q, 1, Addr(8), 20, 20).batches == map[];
    assert p.states[0 := First(0, map[])] == q.states;
    assert q.states[1 := Second(0)] == map[0 := First(0, map[]), 1 := Second(0)];
  }

  /** A selection takes the first of two ready slots that may serve. */
  lemma PicksFirst(p: Pool, h: Handle)
    requires p.Wf() && AllLive(p, 20) && p.opts == OPTIONS && p.order == ["a", "c"]
             && p.slots == map["a" := 0, "c" := 1] && p.At(0).Ready() && p.At(1).Ready()
    requires h == if Eligible(p, p.At(0), BATCH, "", 20) then 0 else 1
    requires Eligible(p, p.At(h), BATCH, "", 20) && Refusal(p, BATCH, 20).None?
    ensures Pick(p, BATCH, "", 20, LUCK)
            == (Reserved(p, BATCH, h, 20), Ok(Choice(h, FromReady, Ticket(p, BATCH, h, 20))))
  {
    NothingStale(p, 20);
    hide Expire;
    hide DropLapsed;
    hide AllLive;
    hide Eligible;
    hide Pool.Wf;
    hide Reserved;
    hide Ticket;
    hide Refusal;
    assert ForgetSession(p, BATCH, 20) == p;
    TakesFirst(p, h);
    hide PickSticky;
  }

  lemma TakesFirst(p: Pool, h: Handle)
    requires p.order == ["a", "c"] && p.slots == map["a" := 0, "c" := 1] && p.preferred == map[]
             && p.At(0).Ready() && p.At(1).Ready()
    requires h == if Eligible(p, p.At(0), BATCH, "", 20) then 0 else 1
    requires Eligible(p, p.At(h), BATCH, "", 20)
    ensures PickSticky(p, BATCH, "", 20, LUCK) == Choose(p, BATCH, h, FromReady, 20)
  {
    hide Eligible;
    hide Choose;
    assert Candidates(p, BATCH, "", 20, 0) == [];
    assert p.order[0] == "a" && p.order[1] == "c";
    var one := Candidates(p, BATCH, "", 20, 1);
    assert one == if h == 0 then [0] else [];
    var two := Candidates(p, BATCH, "", 20, 2);
    assert two == if Eligible(p, p.At(1), BATCH, "", 20) then one + [1] else one;
    hide Candidates;
    assert ForgetSession(p, BATCH, 20) == p;
    AllReady(p, two);
    hide ReadyOnes;
  }

  lemma {:induction false} AllReady(p: Pool, hs: seq<Handle>)
    requires forall i :: 0 <= i < |hs| ==> p.At(hs[i]).Ready()
    ensures ReadyOnes(p, hs) == hs
  {
    if hs != [] {
      AllReady(p, hs[..|hs| - 1]);
      assert hs == hs[..|hs| - 1] + [hs[|hs| - 1]];
    }
  }

  function AfterOne(): BatchState { NewBatch(0, 30).Reserve("a", Addr(7), 20) }

  function AfterTwo(): BatchState { AfterOne().Reserve("c", Addr(8), 20) }

  function Freed(): BatchState { AfterTwo().Release("a") }

  function Regranted(): BatchState { Freed().Reserve("a", Addr(7), 20) }

  ghost predicate Uses(b: BatchState, slots: set<string>, ips: set<Addr>) {
    b.usedSlots == slots && b.usedIPs.Keys == ips && b.gen == 0 && b.expiresAt == 30
  }

  lemma BatchesUse()
    ensures Uses(AfterOne(), {"a"}, {Addr(7)}) && Uses(AfterTwo(), {"a", "c"}, {Addr(7), Addr(8)})
    ensures Uses(Freed(), {"c"}, {Addr(8)}) && Uses(Regranted(), {"a", "c"}, {Addr(7), Addr(8)})
    ensures Uses(Regranted().Release("a"), {"c"}, {Addr(8)})
  {
    hide BatchState.Reserve;
    hide BatchState.Release;
    var one, two, freed, again := AfterOne(), AfterTwo(), Freed(), Regranted();
    ReservesNew(NewBatch(0, 30), "a", Addr(7));
    ReservesNew(one, "c", Addr(8));
    FirstReleased(two, freed);
    ReservesNew(freed, "a", Addr(7));
    FirstReleased(again, again.Release("a"));
  }

  lemma ReservesNew(b: BatchState, slotID: string, ip: Addr)
    requires slotID !in b.slotIPs && ip != NoAddr
    ensures var c := b.Reserve(slotID, ip, 20);
            && c.slotIPs == b.slotIPs[slotID := {ip}] && c.usedSlots == b.usedSlots + {slotID}
            && c.usedIPs.Keys == b.usedIPs.Keys + {ip} && c.gen == b.gen && c.expiresAt == b.expiresAt
  {
    assert b.IPsOf(slotID) + {ip} == {ip};
  }

  lemma FirstReleased(b: BatchState, c: BatchState)
    requires Uses(b, {"a", "c"}, {Addr(7), Addr(8)}) && b.slotIPs == map["a" := {Addr(7)}, "c" := {Addr(8)}]
    requires c == b.Release("a")
    ensures Uses(c, {"c"}, {Addr(8)}) && c.slotIPs == map["c" := {Addr(8)}]
  {
    assert b.IPsOf("a") == {Addr(7)} && !b.OwnedByOther("a", Addr(7));
    assert c.usedIPs.Keys == {Addr(8)};
  }

  /** The parts of a selection that takes the first slot or the second. */
  lemma ReservesFirst(s: SlotState, t: SlotState, batches: map<string, BatchState>, gens: nat,
                      cooldowns: map<(string, Addr), Time>, reserved: nat)
    requires s.spec == SLOT
    ensures var p := TwoSlots(s, t, batches, gens, cooldowns, reserved);
            var b := EnteredBatch(p, BATCH, 20);
            && Reserved(p, BATCH, 0, 20)
               == TwoSlots(s.(pendingLeases := s.pendingLeases + 1), t,
                           batches["b" := b.Reserve("a", s.publicIP, 20)],
                           if Renews(p, "b", 20) then gens + 1 else gens, cooldowns, reserved + 1)
            && (b.gen == 0 ==> Ticket(p, BATCH, 0, 20) == Holding("a"))
  {
    hide EnteredBatch;
    hide Renews;
    hide BatchState.Reserve;
    var u := s.(pendingLeases := s.pendingLeases + 1);
    assert map[0 := s, 1 := t][0 := u] == map[0 := u, 1 := t];
  }

  lemma ReservesSecond(s: SlotState, t: SlotState, batches: map<string, BatchState>, gens: nat,
                       cooldowns: map<(string, Addr), Time>, reserved: nat)
    requires t.spec == OTHER
    ensures var p := TwoSlots(s, t, batches, gens, cooldowns, reserved);
            var b := EnteredBatch(p, BATCH, 20);
            && Reserved(p, BATCH, 1, 20)
               == TwoSlots(s, t.(pendingLeases := t.pendingLeases + 1),
                           batches["b" := b.Reserve("c", t.publicIP, 20)],
                           if Renews(p, "b", 20) then gens + 1 else gens, cooldowns, reserved + 1)
            && (b.gen == 0 ==> Ticket(p, BATCH, 1, 20) == Holding("c"))
  {
    hide EnteredBatch;
    hide Renews;
    hide BatchState.Reserve;
    var u := t.(pendingLeases := t.pendingLeases + 1);
    assert map[0 := s, 1 := t][1 := u] == map[0 := s, 1 := u];
  }

  /** A slot may serve a batch that has used neither it nor its address. */
  lemma NewBatchServes(cooldowns: map<string, Time>, reported: map<(string, Addr), Time>, pending: nat, reserved: nat)
    ensures var p := TwoSlots(First(pending, cooldowns), Second(pending), map[], 0, reported, reserved);
            && Eligible(p, p.At(0), BATCH, "", 20) && Refusal(p, BATCH, 20).None?
            && EnteredBatch(p, BATCH, 20) == NewBatch(0, 30) && Renews(p, "b", 20)
  {
    var p := TwoSlots(First(pending, cooldowns), Second(pending), map[], 0, reported, reserved);
    assert |p.batches - {"b"}| == 0;
    ServesBatch(p, p.At(0), 20);
    hide Eligible;
  }

  ghost predicate Fresh(s: SlotState, spec: Spec, ip: Addr) {
    && s.spec == spec && s.publicIP == ip && s.ipCheckedAt == 20 && s.disabledUntil == ZERO_TIME && !s.open
    && forall t :: t in s.cooldowns ==> 20 <= s.cooldowns[t]
  }

  lemma LiveBatchServes(s: SlotState, t: SlotState, b: BatchState, slots: set<string>, ips: set<Addr>,
                        reported: map<(string, Addr), Time>, reserved: nat)
    requires Uses(b, slots, ips) && Fresh(s, SLOT, Addr(7)) && Fresh(t, OTHER, Addr(8))
    requires forall k :: k in reported ==> 20 <= reported[k]
    ensures var p := TwoSlots(s, t, map["b" := b], 1, reported, reserved);
            && p.Wf() && AllLive(p, 20)
            && (Eligible(p, s, BATCH, "", 20) <==> "a" !in slots && Addr(7) !in ips)
            && (Eligible(p, t, BATCH, "", 20) <==> "c" !in slots && Addr(8) !in ips)
            && Refusal(p, BATCH, 20).None? && EnteredBatch(p, BATCH, 20) == b && !Renews(p, "b", 20)
  {
    var p := TwoSlots(s, t, map["b" := b], 1, reported, reserved);
    TwoSlotsWf(s, t, map["b" := b], 1, reported, reserved);
    hide Pool.Wf;
    ServesBatch(p, s, 20);
    ServesBatch(p, t, 20);
    hide Eligible;
  }

  /** The first slot is selected when the batch has used only the second, and the second
      when it has used only the first. */
  lemma PicksUnused(s: SlotState, t: SlotState, b: BatchState, reported: map<(string, Addr), Time>, reserved: nat)
    requires Fresh(s, SLOT, Addr(7)) && Fresh(t, OTHER, Addr(8)) && forall k :: k in reported ==> 20 <= reported[k]
    ensures var p := TwoSlots(s, t, map["b" := b], 1, reported, reserved);
            Uses(b, {"c"}, {Addr(8)}) ==>
              p.Wf() && Pick(p, BATCH, "", 20, LUCK)
              == (TwoSlots(s.(pendingLeases := s.pendingLeases + 1), t, map["b" := b.Reserve("a", Addr(7), 20)], 1,
                           reported, reserved + 1),
                  Ok(Choice(0, FromReady, Holding("a"))))
    ensures var p := TwoSlots(s, t, map["b" := b], 1, reported, reserved);
            Uses(b, {"a"}, {Addr(7)}) ==>
              p.Wf() && Pick(p, BATCH, "", 20, LUCK)
              == (TwoSlots(s, t.(pendingLeases := t.pendingLeases + 1), map["b" := b.Reserve("c", Addr(8), 20)], 1,
                           reported, reserved + 1),
                  Ok(Choice(1, FromReady, Holding("c"))))
  {
    hide Pool.Wf;
    hide Eligible;
    hide Reserved;
    hide Ticket;
    hide Refusal;
    hide EnteredBatch;
    hide Renews;
    hide AllLive;
    hide BatchState.Reserve;
    hide Pick;
    var p := TwoSlots(s, t, map["b" := b], 1, reported, reserved);
    if Uses(b, {"c"}, {Addr(8)}) {
      LiveBatchServes(s, t, b, {"c"}, {Addr(8)}, reported, reserved);
      ReservesFirst(s, t, map["b" := b], 1, reported, reserved);
      var c := b.Reserve("a", Addr(7), 20);
      assert map["b" := b]["b" := c] == map["b" := c];
      PicksFirst(p, 0);
    } else if Uses(b, {"a"}, {Addr(7)}) {
      LiveBatchServes(s, t, b, {"a"}, {Addr(7)}, reported, reserved);
      ReservesSecond(s, t, map["b" := b], 1, reported, reserved);
      var c := b.Reserve("c", Addr(8), 20);
      assert map["b" := b]["b" := c] == map["b" := c];
      PicksFirst(p, 1);
    }
  }

  lemma FreesIn(b: BatchState)
    requires "a" in b.usedSlots && b.Release("a").usedSlots != {}
    ensures ReleaseEverywhere(map["b" := b], "a") == map["b" := b.Release("a")]
  {
    hide BatchState.Release;
  }

  /** A report of the first slot for one destination. */
  lemma ReportsFirst(s: SlotState, t: SlotState, b: BatchState, reserved: nat)
    requires Fresh(s, SLOT, Addr(7)) && s.cooldowns == map[] && Uses(b, {"a", "c"}, {Addr(7), Addr(8)})
    requires Uses(b.Release("a"), {"c"}, {Addr(8)})
    ensures Report(TwoSlots(s, t, map["b" := b], 1, map[], reserved), COMPLAINT, 20).0
            == TwoSlots(s.(cooldowns := map["x" := 25]), t, map["b" := b.Release("a")], 1, REPORTED, reserved)
  {
    FreesIn(b);
    hide BatchState.Release;
    hide ReleaseEverywhere;
    PunishesFirst(s, t, b, reserved);
    hide Punish;
    hide Uses;
  }

  lemma PunishesFirst(s: SlotState, t: SlotState, b: BatchState, reserved: nat)
    requires s.publicIP == Addr(7) && s.cooldowns == map[]
    ensures Punish(TwoSlots(s, t, map["b" := b], 1, map[], reserved), "a", COMPLAINT, 20)
            == TwoSlots(s.(cooldowns := map["x" := 25]), t, ReleaseEverywhere(map["b" := b], "a"), 1, REPORTED,
                        reserved)
  {
    hide ReleaseEverywhere;
    var p, u := TwoSlots(s, t, map["b" := b], 1, map[], reserved), s.(cooldowns := map["x" := 25]);
    assert p.slots["a"] == 0 && p.At(0) == s;
    assert p.states[0 := u] == map[0 := u, 1 := t];
  }

  /** Rolling back an acquisition of the first slot. */
  lemma UndoesFirst(s: SlotState, t: SlotState, b: BatchState, reported: map<(string, Addr), Time>, reserved: nat)
    requires s.pendingLeases > 0 && b.gen == 0 && b.Release("a").usedSlots != {} && reserved > 0
    ensures Rollback(TwoSlots(s, t, map["b" := b], 1, reported, reserved), Holding("a"))
            == TwoSlots(s.(pendingLeases := s.pendingLeases - 1), t, map["b" := b.Release("a")], 1, reported,
                        reserved - 1)
  {
    hide BatchState.Release;
    var p, u := TwoSlots(s, t, map["b" := b], 1, reported, reserved), s.(pendingLeases := s.pendingLeases - 1);
    assert p.At(0) == s;
    assert p.batches["b" := b.Release("a")] == map["b" := b.Release("a")];
    assert p.states[0 := u] == map[0 := u, 1 := t];
  }

  // The pools of the run.

  function BothMeasured(): Pool { TwoSlots(First(0, map[]), Second(0), map[], 0, map[], 0) }

  function FirstHeld(): Pool { TwoSlots(First(1, map[]), Second(0), map["b" := AfterOne()], 1, map[], 1) }

  function BothHeld(): Pool { TwoSlots(First(1, map[]), Second(1), map["b" := AfterTwo()], 1, map[], 2) }

  function FirstReported(): Pool {
    TwoSlots(First(1, map["x" := 25]), Second(1), map["b" := Freed()], 1, REPORTED, 2)
  }

  function FirstHeldTwice(): Pool {
    TwoSlots(First(2, map["x" := 25]), Second(1), map["b" := Regranted()], 1, REPORTED, 3)
  }

  function OlderGone(): Pool {
    TwoSlots(First(1, map["x" := 25]), Second(1), map["b" := Regranted().Release("a")], 1, REPORTED, 2)
  }

  lemma FirstPick()
    ensures BothMeasured().Wf()
            && Pick(BothMeasured(), BATCH, "", 20, LUCK) == (FirstHeld(), Ok(Choice(0, FromReady, Holding("a"))))
  {
    hide Pool.Wf;
    hide Eligible;
    hide Reserved;
    hide Ticket;
    hide Refusal;
    hide EnteredBatch;
    hide Renews;
    hide BatchState.Reserve;
    hide Pick;
    TwoSlotsWf(First(0, map[]), Second(0), map[], 0, map[], 0);
    NewBatchServes(map[], map[], 0, 0);
    ReservesFirst(First(0, map[]), Second(0), map[], 0, map[], 0);
    PicksFirst(BothMeasured(), 0);
  }

  lemma SecondPick()
    ensures FirstHeld().Wf()
            && Pick(FirstHeld(), BATCH, "", 20, LUCK) == (BothHeld(), Ok(Choice(1, FromReady, Holding("c"))))
  {
    BatchesUse();
    hide Pool.Wf;
    hide Pick;
    hide BatchState.Reserve;
    hide BatchState.Release;
    PicksUnused(First(1, map[]), Second(0), AfterOne(), map[], 1);
  }

  lemma ReportFrees()
    ensures BothHeld().Wf() && Report(BothHeld(), COMPLAINT, 20).0 == FirstReported()
  {
    BatchesUse();
    hide Pool.Wf;
    hide Report;
    hide BatchState.Reserve;
    hide BatchState.Release;
    TwoSlotsWf(First(1, map[]), Second(1), map["b" := AfterTwo()], 1, map[], 2);
    ReportsFirst(First(1, map[]), Second(1), AfterTwo(), 2);
  }

  lemma ThirdPick()
    ensures FirstReported().Wf()
            && Pick(FirstReported(), BATCH, "", 20, LUCK)
               == (FirstHeldTwice(), Ok(Choice(0, FromReady, Holding("a"))))
  {
    BatchesUse();
    hide Pool.Wf;
    hide Pick;
    hide BatchState.Reserve;
    hide BatchState.Release;
    PicksUnused(First(1, map["x" := 25]), Second(1), Freed(), REPORTED, 2);
  }

  lemma OlderLeaves()
    ensures FirstHeldTwice().Wf() && Rollback(FirstHeldTwice(), Holding("a")) == OlderGone()
  {
    BatchesUse();
    hide Pool.Wf;
    hide Rollback;
    hide BatchState.Reserve;
    hide BatchState.Release;
    TwoSlotsWf(First(2, map["x" := 25]), Second(1), map["b" := Regranted()], 1, REPORTED, 3);
    UndoesFirst(First(2, map["x" := 25]), Second(1), Regranted(), REPORTED, 3);
  }

  const OF_FIRST: Inflight := Inflight(Holding("a"), BATCH)

  const OF_SECOND: Inflight := Inflight(Holding("c"), BATCH)

  /** Measure both slots and select both for a batch. */
  lemma BothSelected() returns (s0: System, s1: System, s2: System, s3: System, s4: System)
    ensures Initial(s0)
    ensures Next(s0, Measuring(0, Addr(7), 20, false, 20), s1) && Next(s1, Measuring(1, Addr(8), 20, false, 20), s2)
    ensures Next(s2, Picking(BATCH, "", 20, LUCK), s3) && Next(s3, Picking(BATCH, "", 20, LUCK), s4)
    ensures Stands(s4, BothHeld(), 20, 4, map[2 := OF_FIRST, 3 := OF_SECOND])
  {
    hide Initial;
    hide Next;
    hide Pick;
    hide Measure;
    hide Pool.Wf;
    hide AfterOne;
    hide AfterTwo;
    s0 := StartsWithTwo();
    MeasuresBoth();
    TwoSlotsWf(NewSlotState(SLOT), NewSlotState(OTHER), map[], 0, map[], 0);
    TwoSlotsWf(First(0, map[]), NewSlotState(OTHER), map[], 0, map[], 0);
    s1 := MeasureStep(s0, 0, Addr(7), 20, TwoSlots(First(0, map[]), NewSlotState(OTHER), map[], 0, map[], 0));
    s2 := MeasureStep(s1, 1, Addr(8), 20, BothMeasured());
    FirstPick();
    s3 := PickStep(s2, BATCH, 20, FirstHeld(), Choice(0, FromReady, Holding("a")));
    SecondPick();
    s4 := PickStep(s3, BATCH, 20, BothHeld(), Choice(1, FromReady, Holding("c")));
    assert map[2 := OF_FIRST][3 := OF_SECOND] == map[2 := OF_FIRST, 3 := OF_SECOND];
  }

  /** Report the first slot, select it again, and roll the older acquisition back. */
  lemma FreedAndLost(s4: System) returns (s5: System, s6: System, s7: System)
    requires Stands(s4, BothHeld(), 20, 4, map[2 := OF_FIRST, 3 := OF_SECOND])
    ensures Next(s4, Reporting(COMPLAINT, 20), s5) && Next(s5, Picking(BATCH, "", 20, LUCK), s6)
    ensures Next(s6, RollingBack(2), s7)
    ensures s6.pool == FirstHeldTwice()
    ensures Stands(s7, OlderGone(), 20, 7, map[3 := OF_SECOND, 5 := OF_FIRST])
  {
    hide Next;
    hide Pick;
    hide Report;
    hide Rollback;
    hide Pool.Wf;
    hide AfterTwo;
    hide Freed;
    hide Regranted;
    hide BatchState.Release;
    ReportFrees();
    s5 := ReportStep(s4, COMPLAINT, 20, FirstReported());
    ThirdPick();
    s6 := PickStep(s5, BATCH, 20, FirstHeldTwice(), Choice(0, FromReady, Holding("a")));
    OlderLeaves();
    s7 := UndoStep(s6, 2, OlderGone());
    assert s6.inflight - {2} == map[3 := OF_SECOND, 5 := OF_FIRST];
  }

  /** From a new pool of two slots: measure both, select both for a batch, report the first
      while its acquisition is under way, select it again, and roll the older acquisition
      back. The generation no longer remembers a slot that the newer acquisition, still
      under way, was granted. */
  lemma OlderRollbackFreesNewer() returns (states: seq<System>, steps: seq<Step>)
    ensures Run(states, steps) && |states| == 8 && steps[6] == RollingBack(2)
    ensures states[7].inflight == map[3 := OF_SECOND, 5 := OF_FIRST]
    ensures var b := OF_FIRST.reservation.batch.value;
            && StillStored(states[6].pool, b) && b.slotID in states[6].pool.batches[b.name].usedSlots
            && StillStored(states[7].pool, b) && b.slotID !in states[7].pool.batches[b.name].usedSlots
  {
    hide Initial;
    hide Next;
    var s0, s1, s2, s3, s4 := BothSelected();
    var s5, s6, s7 := FreedAndLost(s4);
    BatchesUse();
    hide Regranted;
    hide BatchState.Release;
    states := [s0, s1, s2, s3, s4, s5, s6, s7];
    steps := [Measuring(0, Addr(7), 20, false, 20), Measuring(1, Addr(8), 20, false, 20), Picking(BATCH, "", 20, LUCK),
              Picking(BATCH, "", 20, LUCK), Reporting(COMPLAINT, 20), Picking(BATCH, "", 20, LUCK), RollingBack(2)];
  }
}
