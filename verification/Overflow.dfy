/** A run that takes the sessions over their limit: a sticky selection holds no name, so
    forgetting its session and starting another leaves no place for its own binding. */
module Overflow {
  import opened Common
  import opened PolicyTypes
  import opened Ordering
  import opened Preferred
  import opened PoolState
  import opened PoolSystem
  import opened WellFormed
  import opened Scenario
  import SessionRuns

  const SLOT: Spec := Spec("a", "", "", "", false, RelaySocks)

  /** One session at most. */
  const ONE_SESSION: Options := OPTIONS.(maxSessions := 1)

  const NOW: Time := 20

  function Asking(name: string): Policy { EMPTY_POLICY.(session := name) }

  /** A pool of one relay slot with these sessions, pending names and counters. */
  function OneSlot(sessions: map<string, Session>, pending: map<string, nat>, s: SlotState, leased: nat,
                   reserved: nat): Pool {
    Pool(ONE_SESSION, map[0 := s], 1, map["a" := 0], ["a"], sessions, pending, map[], 0, map[], map[], [NEW_ENTRY], [],
        0, 0, leased, reserved)
  }

  /** The slot may serve anybody. */
  predicate Willing(s: SlotState) {
    s.spec == SLOT && s.disabledUntil == ZERO_TIME && s.cooldowns == map[] && s.publicIP == NoAddr
  }

  ghost predicate Lasting(sessions: map<string, Session>) {
    forall n :: n in sessions ==> sessions[n] == Session("a", NOW + 10)
  }

  lemma OneSlotIsWf(sessions: map<string, Session>, pending: map<string, nat>, s: SlotState, leased: nat, reserved: nat)
    requires Willing(s) && NamesPending(pending)
    ensures OneSlot(sessions, pending, s, leased, reserved).Wf()
  {
    var p := OneSlot(sessions, pending, s, leased, reserved);
    assert p.order == ["a"];
    assert forall id :: id in p.order <==> id == "a";
  }

  lemma OneSlotStays(sessions: map<string, Session>, pending: map<string, nat>, s: SlotState, leased: nat,
                     reserved: nat)
    requires Willing(s) && Lasting(sessions)
    ensures var p := OneSlot(sessions, pending, s, leased, reserved); DropLapsed(Expire(p, NOW), {}, NOW) == p
  {
    hide Expire;
    hide DropLapsed;
    NothingStale(OneSlot(sessions, pending, s, leased, reserved), NOW);
  }

  lemma Serves(p: Pool, s: SlotState, pol: Policy)
    requires Willing(s) && p.batches == map[] && p.opts.maxConnsPerExit == 0 && pol == Asking(pol.session)
    ensures Eligible(p, s, pol, "", NOW)
  {}

  /** One more pending lease, and the name held. */
  lemma Takes(sessions: map<string, Session>, pending: map<string, nat>, s: SlotState, leased: nat, reserved: nat,
              pol: Policy, origin: Origin)
    requires pol == Asking(pol.session)
    ensures var p := OneSlot(sessions, pending, s, leased, reserved);
            !SessionsFull(p, pol) ==>
              Choose(p, pol, 0, origin, NOW)
              == (OneSlot(sessions, Hold(pending, SessionToHold(p, pol)), s.(pendingLeases := s.pendingLeases + 1),
                  leased, reserved + 1),
                  Ok(Choice(0, origin, Reservation(None, SessionToHold(p, pol), 0))))
  {
    hide SessionsFull;
    hide SessionToHold;
    hide Hold;
    hide EnteredBatch;
    var t := s.(pendingLeases := s.pendingLeases + 1);
    assert map[0 := s][0 := t] == map[0 := t];
  }

  /** A selection for a session that is not bound takes the slot and holds the name. */
  lemma PickNew(sessions: map<string, Session>, pending: map<string, nat>, s: SlotState, leased: nat, reserved: nat,
                name: string)
    requires Willing(s) && Lasting(sessions) && NamesPending(pending) && name != "" && name !in sessions
             && name !in pending
    requires |sessions| + |pending| == 0
    ensures var p := OneSlot(sessions, pending, s, leased, reserved);
            && p.Wf()
            && Pick(p, Asking(name), "", NOW, LUCK)
               == (OneSlot(sessions, pending[name := 1], s.(pendingLeases := s.pendingLeases + 1), leased, reserved
                   + 1),
                   Ok(Choice(0, FromReady, Reservation(None, name, 0))))
  {
    var p, pol := OneSlot(sessions, pending, s, leased, reserved), Asking(name);
    OneSlotIsWf(sessions, pending, s, leased, reserved);
    OneSlotStays(sessions, pending, s, leased, reserved);
    Serves(p, s, pol);
    hide Eligible;
    hide Expire;
    hide DropLapsed;
    hide Pool.Wf;
    assert p.At(0) == s && StickySlot(p, pol, "", NOW).None? && ForgetSession(p, pol, NOW) == p;
    hide StickySlot;
    hide ForgetSession;
    assert !SessionsFull(p, pol) && SessionToHold(p, pol) == name && Hold(pending, name) == pending[name := 1];
    hide SessionsFull;
    hide SessionToHold;
    hide Hold;
    hide PickSticky;
    hide Choose;
    Takes(sessions, pending, s, leased, reserved, pol, FromReady);
    TakesTheOnly(p, pol, NOW);
  }

  /** A selection for a bound session takes the slot and holds no name. */
  lemma PickAgain(sessions: map<string, Session>, pending: map<string, nat>, s: SlotState, leased: nat, reserved: nat,
                  name: string)
    requires Willing(s) && Lasting(sessions) && NamesPending(pending) && name != "" && name in sessions
    ensures var p := OneSlot(sessions, pending, s, leased, reserved);
            && p.Wf()
            && Pick(p, Asking(name), "", NOW, LUCK)
               == (OneSlot(sessions, pending, s.(pendingLeases := s.pendingLeases + 1), leased, reserved + 1),
                   Ok(Choice(0, FromSession, Reservation(None, "", 0))))
  {
    var p, pol := OneSlot(sessions, pending, s, leased, reserved), Asking(name);
    OneSlotIsWf(sessions, pending, s, leased, reserved);
    OneSlotStays(sessions, pending, s, leased, reserved);
    Serves(p, s, pol);
    Takes(sessions, pending, s, leased, reserved, pol, FromSession);
    hide Eligible;
    hide Expire;
    hide DropLapsed;
    hide Pool.Wf;
    hide Choose;
    assert p.At(0) == s && p.Slot("a") == s;
    assert StickySlot(p, pol, "", NOW) == Some(0);
    assert sessions[name].(expiresAt := NOW + 10) == sessions[name];
    assert sessions[name := sessions[name]] == sessions;
    assert ExtendSession(p, pol, NOW) == p;
  }

  /** A bound acquisition. */
  lemma Binds(sessions: map<string, Session>, pending: map<string, nat>, s: SlotState, leased: nat, reserved: nat,
              name: string, held: string)
    requires s.pendingLeases > 0 && reserved > 0 && name != "" && s.spec == SLOT
             && (held == "" || (held in pending && pending[held] == 1))
    ensures Establish(OneSlot(sessions, pending, s, leased, reserved), Reservation(None, held, 0), Asking(name), NOW)
            == OneSlot(sessions[name := Session("a", NOW + 10)], if held == "" then pending else pending - {held},
                       s.(pendingLeases := s.pendingLeases - 1, leases := s.leases + 1, lastUsed := NOW,
                           failures := 0), leased + 1, reserved - 1)
  {}

  lemma Starts() returns (s: System)
    ensures Initial(s) && s.pool == OneSlot(map[], map[], NewSlotState(SLOT), 0, 0)
    ensures s.inflight == map[] && s.nextID == 0 && s.clock == NOW
  {
    var specs := [SLOT];
    var p := NewPool(specs, 1, ONE_SESSION);
    assert InitialSlots(specs, 0) == (map[], map[]);
    assert InitialSlots(specs, 1) == (map["a" := 0], map[0 := NewSlotState(SLOT)]);
    ListingSorted({"a"});
    SortedIsUnique(Listing({"a"}), ["a"]);
    assert map["a" := 0].Keys == {"a"};
    assert seq(1, _ => NEW_ENTRY) == [NEW_ENTRY];
    assert p == OneSlot(map[], map[], NewSlotState(SLOT), 0, 0);
    assert Constructible(specs, 1, ONE_SESSION);
    s := System(p, NOW, 0, map[], map[], map[], map[], {}, {}, []);
  }

  /** The slot with this many pending and established leases. */
  function Used(pending: nat, leases: nat, lastUsed: Time): SlotState {
    NewSlotState(SLOT).(pendingLeases := pending, leases := leases, lastUsed := lastUsed)
  }

  function Bound(name: string): map<string, Session> { map[name := Session("a", NOW + 10)] }

  function Sticky(name: string): Inflight { Inflight(Reservation(None, "", 0), Asking(name)) }

  /** Bind the only session there may be. */
  lemma First(s0: System, a: string) returns (s1: System, s2: System)
    requires a != "" && Stands(s0, OneSlot(map[], map[], Used(0, 0, ZERO_TIME), 0, 0), NOW, 0, map[])
    ensures Next(s0, Picking(Asking(a), "", NOW, LUCK), s1) && Next(s1, Establishing(0, NOW), s2)
    ensures Stands(s2, OneSlot(Bound(a), map[], Used(0, 1, NOW), 1, 0), NOW, 2, map[])
  {
    hide Pick;
    hide Establish;
    hide Next;
    hide Pool.Wf;
    PickNew(map[], map[], Used(0, 0, ZERO_TIME), 0, 0, a);
    s1 := PickStep(s0, Asking(a), NOW, OneSlot(map[], map[a := 1], Used(1, 0, ZERO_TIME), 0, 1),
        Choice(0, FromReady, Reservation(None, a, 0)));
    Binds(map[], map[a := 1], Used(1, 0, ZERO_TIME), 0, 1, a, a);
    assert map[a := 1] - {a} == map[];
    OneSlotIsWf(map[], map[a := 1], Used(1, 0, ZERO_TIME), 0, 1);
    s2 := BindStep(s1, 0, NOW, OneSlot(Bound(a), map[], Used(0, 1, NOW), 1, 0));
  }

  /** Select for it again, then forget it. */
  lemma Second(s2: System, a: string) returns (s3: System, s4: System)
    requires a != "" && Stands(s2, OneSlot(Bound(a), map[], Used(0, 1, NOW), 1, 0), NOW, 2, map[])
    ensures Next(s2, Picking(Asking(a), "", NOW, LUCK), s3) && Next(s3, DroppingSession(a), s4)
    ensures Stands(s4, OneSlot(map[], map[], Used(1, 1, NOW), 1, 1), NOW, 4, map[2 := Sticky(a)])
  {
    hide Pick;
    hide Next;
    hide Pool.Wf;
    PickAgain(Bound(a), map[], Used(0, 1, NOW), 1, 0, a);
    s3 := PickStep(s2, Asking(a), NOW, OneSlot(Bound(a), map[], Used(1, 1, NOW), 1, 1),
        Choice(0, FromSession, Reservation(None, "", 0)));
    assert Bound(a) - {a} == map[];
    OneSlotIsWf(Bound(a), map[], Used(1, 1, NOW), 1, 1);
    s4 := DropStep(s3, a, OneSlot(map[], map[], Used(1, 1, NOW), 1, 1));
  }

  /** Select for another one, then bind the sticky selection. */
  lemma Third(s4: System, a: string, b: string) returns (s5: System, s6: System)
    requires a != "" && b != "" && Stands(s4, OneSlot(map[], map[], Used(1, 1, NOW), 1, 1), NOW, 4, map[2 := Sticky(a)])
    ensures Next(s4, Picking(Asking(b), "", NOW, LUCK), s5) && Next(s5, Establishing(2, NOW), s6)
    ensures s6.pool == OneSlot(Bound(a), map[b := 1], Used(1, 2, NOW), 2, 1)
  {
    hide Pick;
    hide Establish;
    hide Next;
    hide Pool.Wf;
    PickNew(map[], map[], Used(1, 1, NOW), 1, 1, b);
    s5 := PickStep(s4, Asking(b), NOW, OneSlot(map[], map[b := 1], Used(2, 1, NOW), 1, 2),
        Choice(0, FromReady, Reservation(None, b, 0)));
    Binds(map[], map[b := 1], Used(2, 1, NOW), 1, 2, a, "");
    OneSlotIsWf(map[], map[b := 1], Used(2, 1, NOW), 1, 2);
    s6 := BindStep(s5, 2, NOW, OneSlot(Bound(a), map[b := 1], Used(1, 2, NOW), 2, 1));
  }

  /** From a new pool that allows one session: bind it, select for it again, forget it,
      select for another one, and bind the sticky selection. Two sessions are known then,
      one more than the limit. */
  lemma LimitBreaks(a: string, b: string) returns (states: seq<System>, steps: seq<Step>)
    requires a != b && a != "" && b != ""
    ensures Run(states, steps) && |states| == 7
    ensures states[6].pool.opts.maxSessions == 1 && SessionRuns.Names(states[6].pool) == {a, b}
  {
    hide Initial;
    hide Next;
    var s0 := Starts();
    var s1, s2 := First(s0, a);
    var s3, s4 := Second(s2, a);
    var s5, s6 := Third(s4, a, b);
    states := [s0, s1, s2, s3, s4, s5, s6];
    steps := [Picking(Asking(a), "", NOW, LUCK), Establishing(0, NOW), Picking(Asking(a), "", NOW, LUCK),
        DroppingSession(a),
              Picking(Asking(b), "", NOW, LUCK), Establishing(2, NOW)];
  }
}
