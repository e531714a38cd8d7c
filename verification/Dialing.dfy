/** One goroutine inside a run: acquiring a lease and connecting through it, while any
    number of other goroutines take steps of their own in between. */
module Dialing {
  import opened Common
  import opened PolicyTypes
  import opened PoolState
  import opened PoolSystem
  import opened WellFormed
  import SelectionExact

  /** A step this goroutine took, with the identifier it was taken under. */
  datatype Event = Event(id: nat, step: Step)

  /** The step leaves the acquisition or the lease `id` alone. */
  predicate Spares(step: Step, id: nat) {
    match step
    case Establishing(i, _) => i != id
    case RollingBack(i) => i != id
    case Releasing(i, _) => i != id
    case _ => true
  }

  /** The identifiers of everything these events may have started. */
  function Ids(ours: seq<Event>): set<nat> { set k | 0 <= k < |ours| :: ours[k].id }

  ghost predicate SparesAll(step: Step, ours: seq<Event>) { forall id :: id in Ids(ours) ==> Spares(step, id) }

  /** Of everything these events started, exactly `pending` is still under way and
      exactly `held` is leased. */
  ghost predicate Owing(s: System, ours: seq<Event>, pending: set<nat>, held: set<nat>) {
    && (forall id :: id in Ids(ours) ==> id < s.nextID)
    && Ids(ours) * s.inflight.Keys == pending
    && Ids(ours) * s.leases.Keys == held
  }

  /** How many selections the events contain. */
  function Picks(ours: seq<Event>): nat {
    if ours == [] then 0 else Picks(ours[..|ours| - 1]) + (if ours[|ours| - 1].step.Picking? then 1 else 0)
  }

  /** The step is a selection that is granted a slot. */
  ghost predicate Grants(s: System, step: Step) { s.pool.Wf() && Chosen(s, step).Some? }

  /** The acquisition, or the lease, that a step ends. */
  function Ended(step: Step): set<nat> { if step.Establishing? || step.RollingBack? then {step.id} else {} }

  function Returned(step: Step): set<nat> { if step.Releasing? then {step.id} else {} }

  function Started(started: bool, id: nat): set<nat> { if started then {id} else {} }

  /** What a step does to acquisitions and leases: it starts at most one, under the next
      identifier, and ends at most the one it names. */
  ghost predicate Effect(s: System, t: System, step: Step, granted: bool) {
    && t.nextID == s.nextID + 1
    && (forall id :: id in Ended(step) + Returned(step) ==> id < s.nextID)
    && s.nextID !in s.inflight.Keys + s.leases.Keys
    && t.inflight.Keys == s.inflight.Keys - Ended(step) + Started(granted, s.nextID)
    && t.leases.Keys == s.leases.Keys - Returned(step) + Started(step.Establishing?, s.nextID)
  }

  lemma StepEffect(s: System, step: Step)
    requires Base(s) && Enabled(s, step)
    ensures Effect(s, After(s, step), step, Grants(s, step))
  {
    hide PoolAfter;
    hide GrantsAfter;
    hide BansAfter;
    hide TaintedAfter;
    hide OpenersAfter;
    hide Chosen;
    hide Pool.Wf;
    InflightEffect(s, step);
    var t := After(s, step);
    assert t.inflight == InflightAfter(s, step) && t.leases == LeasesAfter(s, step) && t.nextID == s.nextID + 1;
    assert s.nextID !in s.inflight && s.nextID !in s.leases;
    forall id | id in Ended(step) + Returned(step) ensures id < s.nextID {
      assert id in s.inflight || id in s.leases;
    }
    hide Base;
    hide Enabled;
  }

  lemma InflightEffect(s: System, step: Step)
    requires s.pool.Wf() && Enabled(s, step)
    ensures InflightAfter(s, step).Keys == s.inflight.Keys - Ended(step) + Started(Grants(s, step), s.nextID)
    ensures LeasesAfter(s, step).Keys == s.leases.Keys - Returned(step) + Started(step.Establishing?, s.nextID)
  {
    hide Chosen;
    hide Pool.Wf;
    hide FairVictim;
    assert Grants(s, step) ==> step.Picking? by { OnlyPickingGrants(s, step); }
  }

  lemma OnlyPickingGrants(s: System, step: Step)
    requires s.pool.Wf()
    ensures Grants(s, step) ==> step.Picking?
  {
    hide Pool.Wf;
  }

  /** Steps of others neither end nor start anything of ours. */
  lemma OthersKeep(s: System, t: System, step: Step, granted: bool, ours: seq<Event>, pending: set<nat>, held: set<nat>)
    requires Effect(s, t, step, granted) && SparesAll(step, ours) && Owing(s, ours, pending, held)
    ensures Owing(t, ours, pending, held)
  {
    hide Ids;
    assert s.nextID !in Ids(ours);
    forall id | id in Ended(step) + Returned(step) ensures id !in Ids(ours) {
      assert !Spares(step, id);
    }
  }

  /** After a step of ours, only what it started is new, and what it ended is gone. */
  lemma OurStep(s: System, t: System, step: Step, granted: bool, ours: seq<Event>, pending: set<nat>, held: set<nat>)
    requires Effect(s, t, step, granted) && Owing(s, ours, pending, held)
    ensures Owing(t, ours + [Event(s.nextID, step)], pending - Ended(step) + Started(granted, s.nextID),
                  held - Returned(step) + Started(step.Establishing?, s.nextID))
  {
    OneMoreID(ours, Event(s.nextID, step));
    hide Ids;
    assert s.nextID !in Ids(ours);
  }

  lemma OneMoreID(ours: seq<Event>, e: Event)
    ensures Ids(ours + [e]) == Ids(ours) + {e.id}
  {
    var more := ours + [e];
    forall id | id in Ids(ours) ensures id in Ids(more) {
      var k :| 0 <= k < |ours| && ours[k].id == id;
      assert more[k].id == id;
    }
    assert more[|ours|].id == e.id;
  }

  lemma OwedExists(s: System, ours: seq<Event>, pending: set<nat>, held: set<nat>)
    requires Owing(s, ours, pending, held)
    ensures pending <= s.inflight.Keys && held <= s.leases.Keys
  {}

  /** A lease's state is in the store. */
  lemma LeasedState(s: System, id: nat)
    requires Base(s) && id in s.leases
    ensures s.leases[id] in s.pool.states
  {}

  lemma FairChoice(p: Pool) returns (victim: Handle)
    ensures FairVictim(p, victim)
  {
    victim := 0;
    if h :| IsVictim(p, h) { victim := h; }
  }

  lemma PickedOne(ours: seq<Event>, e: Event)
    ensures Picks(ours + [e]) == Picks(ours) + (if e.step.Picking? then 1 else 0)
  {
    assert (ours + [e])[..|ours|] == ours;
  }

  /** States are never dropped from the store. */
  lemma StatesStay(s: System, step: Step)
    requires Base(s) && Enabled(s, step)
    ensures s.pool.states.Keys <= After(s, step).pool.states.Keys
    ensures After(s, step).nextID == s.nextID + 1
  {
    PoolStep(s, step);
    hide PoolAfter;
    hide Base;
    hide Enabled;
  }

  lemma ChosenState(s: System, step: Step)
    requires Base(s) && step.Picking?
    ensures var r := Pick(s.pool, step.pol, step.target, step.now, step.luck).1;
            && (r.Ok? <==> Grants(s, step))
            && (r.Ok? ==> r.value.state in s.pool.states)
  {
    SelectionChoice(s.pool, step.pol, step.target, step.now, step.luck);
    hide Pick;
    hide Pool.Wf;
  }

  lemma SelectionChoice(p: Pool, pol: Policy, target: string, now: Time, luck: Luck)
    requires p.Wf()
    ensures var r := Pick(p, pol, target, now, luck).1;
            r.Ok? ==> r.value.reservation.state == r.value.state && r.value.state in p.states
  {
    hide Pick;
    if Pick(p, pol, target, now, luck).1.Ok? { SelectionExact.SelectionIsSound(p, pol, target, now, luck); }
  }

  datatype Failure = Refused(error: Error) | OutOfAttempts | DialFailed | Forbidden | Cancelled | NothingTried

  /** The states and steps of a run up to now. */
  ghost predicate Reached(states: seq<System>, steps: seq<Step>) {
    |states| > 0 && Run(states, steps) && Base(states[|states| - 1])
  }

  lemma ReachedBase(states: seq<System>, steps: seq<Step>)
    requires Reached(states, steps)
    ensures Base(states[|states| - 1])
  {}

  lemma ReachedWf(states: seq<System>, steps: seq<Step>)
    requires Reached(states, steps)
    ensures states[|states| - 1].pool.Wf()
  {}

  /** A goroutine in a run: the run so far, and the steps that were its own. */
  class Worker {
    ghost var states: seq<System>
    ghost var steps: seq<Step>
    ghost var ours: seq<Event>

    ghost predicate Valid()
      reads this
    {
      |states| > 0 && Reached(states, steps)
    }

    ghost function Now(): System
      requires |states| > 0
      reads this
    {
      states[|states| - 1]
    }

    /** The run has gone on, and the goroutine's own steps so far are still its first. */
    twostate predicate Continued()
      reads this
    {
      && |old(states)| > 0 && old(states) <= states && old(steps) <= steps && old(ours) <= ours
      && old(Now()).nextID <= Now().nextID
    }

    /** The run goes on with one step. */
    ghost method Go(step: Step)
      requires Valid() && Enabled(Now(), step)
      modifies this`states, this`steps
      ensures Valid() && states == old(states) + [After(old(Now()), step)] && steps == old(steps) + [step]
      ensures Effect(old(Now()), Now(), step, Grants(old(Now()), step))
      ensures Now().nextID == old(Now()).nextID + 1
      ensures old(Now()).pool.states.Keys <= Now().pool.states.Keys
    {
      hide Reached;
      hide Enabled;
      hide After;
      hide Effect;
      RunGoesOn(states, steps, step);
      ghost var next := After(Now(), step);
      states := states + [next];
      steps := steps + [step];
    }

    /** Any number of steps of others, which leave what is ours alone. */
    ghost method Others(pending: set<nat>, held: set<nat>)
      requires Valid() && Owing(Now(), ours, pending, held)
      modifies this`states, this`steps
      ensures Valid() && Continued() && Owing(Now(), ours, pending, held)
      ensures pending <= Now().inflight.Keys && held <= Now().leases.Keys
      ensures old(Now()).pool.states.Keys <= Now().pool.states.Keys
    {
      hide Reached;
      hide Enabled;
      hide After;
      hide Effect;
      hide Owing;
      hide SparesAll;
      var n: nat := *;
      while n > 0
        invariant Valid() && Owing(Now(), ours, pending, held)
        invariant old(states) <= states && old(steps) <= steps
        invariant old(Now()).pool.states.Keys <= Now().pool.states.Keys
        invariant old(Now()).nextID <= Now().nextID
      {
        var step: Step := *;
        if Enabled(Now(), step) && SparesAll(step, ours) {
          var before := Now();
          Go(step);
          OthersKeep(before, Now(), step, Grants(before, step), ours, pending, held);
        }
        n := n - 1;
      }
      OwedExists(Now(), ours, pending, held);
    }

    /** A step of this goroutine. */
    ghost method Act(step: Step, pending: set<nat>, held: set<nat>)
      requires Valid() && Enabled(Now(), step) && Owing(Now(), ours, pending, held)
      modifies this
      ensures Valid() && Continued()
      ensures Picks(ours) == Picks(old(ours)) + (if step.Picking? then 1 else 0)
      ensures Owing(Now(), ours, pending - Ended(step) + Started(Grants(old(Now()), step), old(Now()).nextID),
                    held - Returned(step) + Started(step.Establishing?, old(Now()).nextID))
      ensures Effect(old(Now()), Now(), step, Grants(old(Now()), step))
      ensures Now().nextID == old(Now()).nextID + 1
      ensures old(Now()).pool.states.Keys <= Now().pool.states.Keys
    {
      hide Reached;
      hide Enabled;
      hide After;
      hide Effect;
      hide Owing;
      hide Picks;
      var before := Now();
      PickedOne(ours, Event(before.nextID, step));
      Go(step);
      OurStep(before, Now(), step, Grants(before, step), ours, pending, held);
      ours := ours + [Event(before.nextID, step)];
    }

    /** An instant the clock may show next. */
    ghost method Clock() returns (now: Time)
      requires Valid()
      ensures Now().clock <= now
    {
      assert Now().clock <= Now().clock;
      now :| Now().clock <= now;
    }

    /** One selection: the slot granted, if any, with the identifier it is held under. */
    ghost method Select(pol: Policy, target: string, held: set<nat>) returns (r: Result<Choice, Error>, id: nat)
      requires Valid() && Owing(Now(), ours, {}, held)
      modifies this
      ensures Valid() && Continued() && Picks(ours) == Picks(old(ours)) + 1
      ensures Owing(Now(), ours, if r.Ok? then {id} else {}, held)
      ensures r.Ok? ==> id in Now().inflight && r.value.state in Now().pool.states
    {
      hide Pool.Wf;
      hide Reached;
      hide Owing;
      hide Picks;
      hide Pick;
      hide Chosen;
      hide FairVictim;
      var before := Now();
      ReachedWf(states, steps);
      var now := Clock();
      var roll: nat, lapsed: set<(string, Addr)> := *, *;
      var victim := FairChoice(before.pool);
      var step := Picking(pol, target, now, Luck(roll, victim, lapsed));
      assert Enabled(before, step);
      ReachedBase(states, steps);
      ChosenState(before, step);
      id := before.nextID;
      r := Pick(before.pool, pol, target, now, step.luck).1;
      Act(step, {}, held);
      assert {} - Ended(step) + Started(r.Ok?, id) == if r.Ok? then {id} else {};
      assert held - Returned(step) + {} == held;
    }

    /** A step of ours that starts nothing; a rollback ends an acquisition, a release a
        lease. */
    ghost method Plain(step: Step, pending: set<nat>, held: set<nat>)
      requires Valid() && Owing(Now(), ours, pending, held) && Enabled(Now(), step)
      requires !step.Picking? && !step.Establishing?
      modifies this
      ensures Valid() && Continued() && Picks(ours) == Picks(old(ours))
      ensures step.RollingBack? ==> Owing(Now(), ours, pending - {step.id}, held)
      ensures step.Releasing? ==> Owing(Now(), ours, pending, held - {step.id})
      ensures !step.RollingBack? && !step.Releasing? ==> Owing(Now(), ours, pending, held)
      ensures old(Now()).pool.states.Keys <= Now().pool.states.Keys
    {
      hide Pool.Wf;
      hide Reached;
      hide Owing;
      hide Picks;
      hide Enabled;
      hide Effect;
      var before := Now();
      assert !Grants(before, step);
      assert pending - Ended(step) + {} == if step.RollingBack? then pending - {step.id} else pending;
      assert held - Returned(step) + {} == if step.Releasing? then held - {step.id} else held;
      Act(step, pending, held);
    }

    /** Undo a selection whose dial failed: roll it back, back the slot off, and unpin a
        session that pointed at it. */
    ghost method GiveUp(c: Choice, id: nat, session: string, held: set<nat>)
      requires Valid() && Owing(Now(), ours, {id}, held) && id in Now().inflight && c.state in Now().pool.states
      modifies this
      ensures Valid() && Continued() && Picks(ours) == Picks(old(ours))
      ensures Owing(Now(), ours, {}, held)
    {
      hide Pool.Wf;
      hide Reached;
      hide Owing;
      hide Picks;
      assert {id} - {id} == {};
      Plain(RollingBack(id), {id}, held);
      Others({}, held);
      BackOff(c, session, held);
    }

    ghost method BackOff(c: Choice, session: string, held: set<nat>)
      requires Valid() && Owing(Now(), ours, {}, held) && c.state in Now().pool.states
      modifies this
      ensures Valid() && Continued() && Picks(ours) == Picks(old(ours)) && Owing(Now(), ours, {}, held)
    {
      hide Reached;
      hide Owing;
      hide Picks;
      var now := Clock();
      Plain(FailingSlot(c.state, now), {}, held);
      if c.origin.FromSession? && session != "" {
        Others({}, held);
        Plain(DroppingSession(session), {}, held);
      }
    }

    /** The dial succeeded: the acquisition becomes a lease. */
    ghost method Bind(id: nat, held: set<nat>) returns (r: Result<nat, Failure>)
      requires Valid() && Owing(Now(), ours, {id}, held) && id in Now().inflight
      modifies this
      ensures Valid() && Continued() && Picks(ours) == Picks(old(ours))
      ensures r.Ok? && r.value in Now().leases && r.value >= old(Now()).nextID
              && Owing(Now(), ours, {}, held + {r.value})
    {
      hide Pool.Wf;
      hide Reached;
      hide Owing;
      hide Picks;
      var before := Now();
      var now := Clock();
      var step := Establishing(id, now);
      assert !Grants(before, step);
      r := Ok(before.nextID);
      Act(step, {id}, held);
      assert {id} - Ended(step) + {} == {};
      assert held - Returned(step) + {before.nextID} == held + {before.nextID};
    }

    /** Select and dial until a dial succeeds, at most `attempts` times. A failure leaves
        nothing behind; a success leaves exactly the returned lease. */
    ghost method Acquire(pol: Policy, target: string, attempts: nat, held: set<nat>) returns (r: Result<nat, Failure>)
      requires Valid() && Owing(Now(), ours, {}, held)
      modifies this
      ensures Valid() && Continued()
      ensures Picks(ours) <= Picks(old(ours)) + attempts
      ensures r.Ok? ==> r.value in Now().leases && r.value >= old(Now()).nextID
                        && Owing(Now(), ours, {}, held + {r.value})
      ensures r.Err? ==> Owing(Now(), ours, {}, held)
      ensures r.Err? && r.error == OutOfAttempts ==> Picks(ours) == Picks(old(ours)) + attempts
    {
      hide Pool.Wf;
      hide Reached;
      hide Owing;
      hide Picks;
      var lastErr: Option<Failure> := None;
      for attempt := 0 to attempts
        invariant Valid() && Continued()
        invariant Owing(Now(), ours, {}, held)
        invariant Picks(ours) == Picks(old(ours)) + attempt
        invariant lastErr.Some? ==> lastErr.value == DialFailed
      {
        Others({}, held);
        var choice, id := Select(pol, target, held);
        if choice.Err? { return Err(if lastErr.Some? then lastErr.value else Failure.Refused(choice.error)); }
        Others({id}, held);
        var dialed: bool := *;
        if dialed {
          r := Bind(id, held);
          return;
        }
        GiveUp(choice.value, id, pol.session, held);
        lastErr := Some(DialFailed);
      }
      return Err(OutOfAttempts);
    }

    /** Back off the entry or the slot that failed. */
    ghost method Blame(h: Handle, pending: set<nat>, held: set<nat>)
      requires Valid() && Owing(Now(), ours, pending, held) && h in Now().pool.states
      modifies this
      ensures Valid() && Continued() && Picks(ours) == Picks(old(ours)) && Owing(Now(), ours, pending, held)
    {
      hide Reached;
      hide Owing;
      hide Picks;
      var now := Clock();
      var entry: nat, viaEntry: bool := *, *;
      if !viaEntry {
        Plain(FailingSlot(h, now), pending, held);
      } else if entry < |Now().pool.entries| {
        Plain(FailingEntry(entry, now), pending, held);
      }
    }

    /** Blame the entry or the slot for a failed connection, then give the lease back. */
    ghost method Return(id: nat, held: set<nat>)
      requires Valid() && Owing(Now(), ours, {}, held + {id}) && id in Now().leases && id !in held
      modifies this
      ensures Valid() && Continued() && Picks(ours) == Picks(old(ours))
      ensures Owing(Now(), ours, {}, held)
    {
      hide Reached;
      hide Owing;
      hide Picks;
      ReachedBase(states, steps);
      LeasedState(Now(), id);
      Blame(Now().leases[id], {}, held + {id});
      Others({}, held + {id});
      var now := Clock();
      Plain(Releasing(id, now), {}, held + {id});
      assert held + {id} - {id} == held;
    }

    /** Connect through one slot after another until a connection stands, at most `attempts`
        times. A failure leaves no lease and no acquisition behind; a success leaves exactly
        the lease the connection owns. */
    ghost method ConnectUpstream(pol: Policy, host: string, allowed: bool, attempts: nat, selections: nat,
                                 held: set<nat>) returns (r: Result<nat, Failure>)
      requires Valid() && Owing(Now(), ours, {}, held)
      modifies this
      ensures Valid() && Continued()
      ensures !allowed ==> r == Err(Forbidden) && ours == old(ours) && states == old(states)
      ensures Picks(ours) <= Picks(old(ours)) + attempts * selections
      ensures r.Ok? ==> r.value in Now().leases && r.value >= old(Now()).nextID
                        && Owing(Now(), ours, {}, held + {r.value})
      ensures r.Err? ==> Owing(Now(), ours, {}, held)
    {
      hide Reached;
      hide Picks;
      if !allowed { return Err(Forbidden); }
      var lastErr: Failure := NothingTried;
      for attempt := 0 to attempts
        invariant Valid() && Continued()
        invariant Owing(Now(), ours, {}, held)
        invariant Picks(ours) <= Picks(old(ours)) + attempt * selections
      {
        var cancelled: bool := *;
        if cancelled { return Err(Cancelled); }
        var lease := Acquire(pol, host, selections, held);
        assert (attempt + 1) * selections == attempt * selections + selections;
        if lease.Err? { return Err(if lastErr == NothingTried then lease.error else lastErr); }
        Others({}, held + {lease.value});
        var connected: bool := *;
        if connected { return lease; }
        Return(lease.value, held);
        lastErr := DialFailed;
      }
      return Err(lastErr);
    }
  }

  lemma RunGoesOn(states: seq<System>, steps: seq<Step>, step: Step)
    requires Reached(states, steps) && Enabled(states[|states| - 1], step)
    ensures states[|states| - 1].pool.Wf()
    ensures var s, t := states[|states| - 1], After(states[|states| - 1], step);
            && Reached(states + [t], steps + [step]) && Effect(s, t, step, Grants(s, step))
            && s.pool.states.Keys <= t.pool.states.Keys && t.nextID == s.nextID + 1
  {
    hide Initial;
    hide Enabled;
    hide Base;
    hide After;
    hide Grants;
    hide Effect;
    hide Pool.Wf;
    var s := states[|states| - 1];
    BaseStep(s, step);
    StepEffect(s, step);
    StatesStay(s, step);
    BaseWf(s);
    var more, all := states + [After(s, step)], steps + [step];
    forall i | 0 <= i < |all| ensures Next(more[i], all[i], more[i + 1]) {
      if i < |steps| { assert Next(states[i], steps[i], states[i + 1]); }
    }
  }

  lemma BaseWf(s: System)
    requires Base(s)
    ensures s.pool.Wf()
  {}
}
