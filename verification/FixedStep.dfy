/** The fixed-step gate of src/sidra_ai/creation/animation.py: TICK and TICK_FREEZE.
    Times are exact, in thirds of a millisecond: a step of 1000/60 ms is then 50. */
module FixedStep {
  import opened Wrappers

  const TICK_MS := 50.0
  const TICK_MIN := TICK_MS - 3.0
  const TICK_CAP := TICK_MS * 4.0

  /** What a callback brings: `None` is anything that is not a finite number. */
  type Stamp = Option<real>

  datatype State = State(acc: real, last: Stamp)

  const Start := State(0.0, None)

  /** One callback: the state it leaves, and whether the world may advance. */
  function Call(s: State, now: Stamp): (State, bool) {
    if now.None? then (s, true)
    else if s.last.None? then (s.(last := now), true)
    else
      var dt := now.value - s.last.value;
      if !(dt > 0.0) then (s.(last := now), true)
      else
        var acc := if s.acc + dt > TICK_CAP then TICK_CAP else s.acc + dt;
        if acc < (if dt >= TICK_MIN then TICK_MIN else TICK_MS) then (State(acc, now), false)
        else (State(if acc - TICK_MS < 0.0 then 0.0 else acc - TICK_MS, now), true)
  }

  /** A deliberate hold of `ms`. */
  function Freeze(s: State, ms: Stamp): State {
    if s.last.None? || ms.None? || !(ms.value > 0.0) then s
    else s.(last := Some(s.last.value + ms.value))
  }

  /** The gate as the page keeps it, with the account of steps the template raises. */
  class Gate {
    var acc: real
    var last: Stamp
    var worldSteps: nat

    ghost function Snapshot(): State reads this { State(acc, last) }

    constructor ()
      ensures Snapshot() == Start && worldSteps == 0
    {
      acc, last, worldSteps := 0.0, None, 0;
    }

    method Tick(now: Stamp) returns (advance: bool)
      modifies this`acc, this`last
      ensures (Snapshot(), advance) == Call(old(Snapshot()), now)
    {
      if now.None? { return true; }
      if last.None? {
        last := now;
        return true;
      }
      var dt := now.value - last.value;
      last := now;
      if !(dt > 0.0) { return true; }
      acc := acc + dt;
      if acc > TICK_CAP { acc := TICK_CAP; }
      if acc < (if dt >= TICK_MIN then TICK_MIN else TICK_MS) { return false; }
      acc := acc - TICK_MS;
      if acc < 0.0 { acc := 0.0; }
      return true;
    }

    method TickFreeze(ms: Stamp)
      modifies this`last
      ensures Snapshot() == Freeze(old(Snapshot()), ms)
    {
      if last.None? { return; }
      if ms.None? || !(ms.value > 0.0) { return; }
      last := Some(last.value + ms.value);
    }

    method WorldStep()
      modifies this`worldSteps
      ensures worldSteps == old(worldSteps) + 1
    {
      worldSteps := worldSteps + 1;
    }

    /** What a template does on a callback: ask, and raise the account where it advances. */
    method Callback(now: Stamp)
      modifies this
      ensures forall held :: Run(Snapshot(), worldSteps, held) == Step(Run(old(Snapshot()), old(worldSteps), held), Called(now))
    {
      var advance := Tick(now);
      if advance {
        WorldStep();
      }
    }
  }

  // --- schedules -----------------------------------------------------------

  /** What reaches the gate: a callback, or a hold. */
  datatype Event = Called(now: Stamp) | Held(ms: Stamp)

  datatype Run = Run(state: State, steps: nat, held: real)

  function Step(r: Run, e: Event): Run {
    match e
    case Called(now) =>
      var (s, advance) := Call(r.state, now);
      Run(s, if advance then r.steps + 1 else r.steps, r.held)
    case Held(ms) =>
      var s := Freeze(r.state, ms);
      Run(s, r.steps, if s == r.state then r.held else r.held + ms.value)
  }

  /** A schedule, played from a gate that has already seen its first callback. */
  function Play(s: State, events: seq<Event>): Run {
    if events == [] then Run(s, 0, 0.0)
    else Step(Play(s, events[..|events| - 1]), events[|events| - 1])
  }

  /** Every callback is charged for some time (since the last one, less the holds), and for
      less than `bar` of it. */
  ghost predicate ChargedUnder(s: State, events: seq<Event>, bar: Option<real>) {
    events == [] ||
    var before, e := events[..|events| - 1], events[|events| - 1];
    && ChargedUnder(s, before, bar)
    && (e.Called? ==> MovesForward(Play(s, before).state, e.now, bar))
  }

  ghost predicate MovesForward(s: State, now: Stamp, bar: Option<real>) {
    && s.last.Some? && now.Some?
    && 0.0 < now.value - s.last.value
    && (bar.Some? ==> now.value - s.last.value < bar.value)
  }

  ghost predicate FasterThanTheWorld(s: State, events: seq<Event>) { ChargedUnder(s, events, Some(TICK_MIN)) }

  ghost predicate Forward(s: State, events: seq<Event>) { ChargedUnder(s, events, None) }

  /** Real time that passed, less the time held. */
  function Unfrozen(s: State, events: seq<Event>): real
    requires s.last.Some? && Play(s, events).state.last.Some?
  {
    Play(s, events).state.last.value - s.last.value - Play(s, events).held
  }

  /** The callback is charged what it is worth, by `ChargedExactly`. */
  ghost predicate ChargedInFull(s: State, now: Stamp) {
    && s.last.Some? && now.Some?
    && var dt := now.value - s.last.value;
    0.0 < dt && s.acc + dt <= TICK_CAP && (dt >= TICK_MIN ==> s.acc + dt >= TICK_MS)
  }

  /** Every callback of the schedule is. */
  ghost predicate Paced(s: State, events: seq<Event>) {
    events == [] ||
    var before, e := events[..|events| - 1], events[|events| - 1];
    Paced(s, before) && (e.Called? ==> ChargedInFull(Play(s, before).state, e.now))
  }

  /** On such a schedule nothing is lost or invented: the steps taken and the remainder account
      for exactly the unfrozen time. */
  lemma {:induction false} TimeIsConserved(s: State, events: seq<Event>)
    requires s.last.Some? && 0.0 <= s.acc && Paced(s, events)
    ensures Play(s, events).state.last.Some? && 0.0 <= Play(s, events).state.acc
    ensures Play(s, events).steps as real * TICK_MS + Play(s, events).state.acc == s.acc + Unfrozen(s, events)
  {
    if events == [] {
    } else {
      var before, e := events[..|events| - 1], events[|events| - 1];
      TimeIsConserved(s, before);
      StepCharge(Play(s, before), e);
    }
  }

  lemma StepCharge(r: Run, e: Event)
    requires r.state.last.Some? && 0.0 <= r.state.acc
    requires e.Called? ==> ChargedInFull(r.state, e.now)
    ensures
      var r' := Step(r, e);
      && r'.state.last.Some? && 0.0 <= r'.state.acc
      && (r'.steps as real) * TICK_MS + r'.state.acc - r'.state.last.value + r'.held
      == (r.steps as real) * TICK_MS + r.state.acc - r.state.last.value + r.held
  {
    assert (r.steps + 1) as real == r.steps as real + 1.0;
  }

  /** The number of steps is what the unfrozen time is worth exactly when no whole step is left
      waiting in the remainder. */
  lemma StepsAreElapsedTime(s: State, events: seq<Event>)
    requires s.last.Some? && 0.0 <= s.acc && Paced(s, events)
    ensures Play(s, events).state.last.Some?
    ensures Play(s, events).steps == ((s.acc + Unfrozen(s, events)) / TICK_MS).Floor <==> Play(s, events).state.acc < TICK_MS
  {
    TimeIsConserved(s, events);
    WholeSteps(s.acc + Unfrozen(s, events), Play(s, events).steps, Play(s, events).state.acc);
  }

  lemma WholeSteps(time: real, steps: nat, rest: real)
    requires steps as real * TICK_MS + rest == time && 0.0 <= rest
    ensures steps == (time / TICK_MS).Floor <==> rest < TICK_MS
  {
    assert time / TICK_MS == steps as real + rest / TICK_MS;
  }

  /** Two displays, two schedules, any holds: the same unfrozen time, with no whole step left
      waiting on either, is the same world. */
  lemma RefreshRateIndependence(s1: State, events1: seq<Event>, s2: State, events2: seq<Event>)
    requires s1.last.Some? && s2.last.Some? && 0.0 <= s1.acc == s2.acc
    requires Paced(s1, events1) && Paced(s2, events2)
    requires Play(s1, events1).state.acc < TICK_MS && Play(s2, events2).state.acc < TICK_MS
    requires Play(s1, events1).state.last.Some? && Play(s2, events2).state.last.Some?
    requires Unfrozen(s1, events1) == Unfrozen(s2, events2)
    ensures Play(s1, events1).steps == Play(s2, events2).steps
    ensures Play(s1, events1).state.acc == Play(s2, events2).state.acc
  {
    hide Play, Paced;
    StepsAreElapsedTime(s1, events1);
    StepsAreElapsedTime(s2, events2);
    TimeIsConserved(s1, events1);
    TimeIsConserved(s2, events2);
  }

  /** A display faster than the world is charged in full throughout, and never keeps a step waiting. */
  lemma {:induction false} FastIsPaced(s: State, events: seq<Event>)
    requires s.last.Some? && 0.0 <= s.acc < TICK_MS && FasterThanTheWorld(s, events)
    ensures Paced(s, events) && Play(s, events).state.last.Some? && 0.0 <= Play(s, events).state.acc < TICK_MS
  {
    if events == [] {
    } else {
      FastIsPaced(s, events[..|events| - 1]);
    }
  }

  /** So any two displays faster than the world, however uneven, show the same one. */
  lemma FastDisplaysAgree(s1: State, events1: seq<Event>, s2: State, events2: seq<Event>)
    requires s1.last.Some? && 0.0 <= s1.acc < TICK_MS && FasterThanTheWorld(s1, events1)
    requires s2.last.Some? && s1.acc == s2.acc && FasterThanTheWorld(s2, events2)
    requires Play(s1, events1).state.last.Some? && Play(s2, events2).state.last.Some?
    requires Unfrozen(s1, events1) == Unfrozen(s2, events2)
    ensures Play(s1, events1).steps == Play(s2, events2).steps
    ensures Play(s1, events1).state.acc == Play(s2, events2).state.acc
  {
    hide Play, Paced, FasterThanTheWorld, Unfrozen;
    FastIsPaced(s1, events1);
    FastIsPaced(s2, events2);
    RefreshRateIndependence(s1, events1, s2, events2);
  }

  // --- from the page's first callback --------------------------------------

  /** A schedule that follows another is played from where that one left the gate. */
  lemma {:induction false} PlayJoins(s: State, first: seq<Event>, rest: seq<Event>)
    ensures
      var a := Play(s, first);
      var b := Play(a.state, rest);
      Play(s, first + rest) == Run(b.state, a.steps + b.steps, a.held + b.held)
  {
    if rest == [] {
      assert first + rest == first;
    } else {
      var before, e := rest[..|rest| - 1], rest[|rest| - 1];
      assert first + rest == first + before + [e];
      PlayJoins(s, first, before);
      PlayOneMore(s, first + before, e);
    }
  }

  /** n callbacks that bring no usable stamp. */
  function Unstamped(n: nat): seq<Event> {
    if n == 0 then [] else Unstamped(n - 1) + [Called(None)]
  }

  /** They all advance, and the gate knows no more than before: the page never stops for want of a
      clock. */
  lemma {:induction false} UnstampedAdvance(s: State, n: nat)
    ensures Play(s, Unstamped(n)) == Run(s, n, 0.0)
  {
    if n == 0 {
    } else {
      UnstampedAdvance(s, n - 1);
      PlayOneMore(s, Unstamped(n - 1), Called(None));
    }
  }

  /** The first stamp a new gate sees advances, and is kept: time is counted from it, with nothing
      in hand. */
  lemma FirstStampIsKept(s: State, t: real)
    requires s.last.None?
    ensures Call(s, Some(t)) == (State(s.acc, Some(t)), true)
    ensures Play(s, [Called(Some(t))]) == Run(State(s.acc, Some(t)), 1, 0.0)
  {
    assert [Called(Some(t))][..0] == [];
  }

  /** A page's schedule: some callbacks without a stamp, the first one with, and the rest. */
  function FromStart(n: nat, t: real, rest: seq<Event>): Run {
    Play(Start, Unstamped(n) + ([Called(Some(t))] + rest))
  }

  lemma StartedAt(n: nat, t: real, rest: seq<Event>)
    ensures
      var r := Play(State(0.0, Some(t)), rest);
      FromStart(n, t, rest) == Run(r.state, n + 1 + r.steps, r.held)
  {
    hide Play, Unstamped;
    UnstampedAdvance(Start, n);
    FirstStampIsKept(Start, t);
    PlayJoins(Start, Unstamped(n), [Called(Some(t))] + rest);
    PlayJoins(Start, [Called(Some(t))], rest);
  }

  /** A new page steps its world once for each callback up to the first stamp, and from there as
      often as the unfrozen time is worth, exactly when no whole step is left waiting. */
  lemma StepsFromStart(n: nat, t: real, rest: seq<Event>)
    requires Paced(State(0.0, Some(t)), rest)
    ensures Play(State(0.0, Some(t)), rest).state.last.Some?
    ensures FromStart(n, t, rest).steps == n + 1 + (Unfrozen(State(0.0, Some(t)), rest) / TICK_MS).Floor
            <==> FromStart(n, t, rest).state.acc < TICK_MS
  {
    hide Play, Paced, Unfrozen;
    StartedAt(n, t, rest);
    StepsAreElapsedTime(State(0.0, Some(t)), rest);
  }

  /** Two new pages on any two displays faster than the bar, however uneven, show the same world
      the same unfrozen time after their first stamps. */
  lemma NewPagesAgree(n: nat, t1: real, rest1: seq<Event>, t2: real, rest2: seq<Event>)
    requires FasterThanTheWorld(State(0.0, Some(t1)), rest1) && FasterThanTheWorld(State(0.0, Some(t2)), rest2)
    ensures Play(State(0.0, Some(t1)), rest1).state.last.Some? && Play(State(0.0, Some(t2)), rest2).state.last.Some?
    ensures Unfrozen(State(0.0, Some(t1)), rest1) == Unfrozen(State(0.0, Some(t2)), rest2) ==>
              && FromStart(n, t1, rest1).steps == FromStart(n, t2, rest2).steps
              && FromStart(n, t1, rest1).state.acc == FromStart(n, t2, rest2).state.acc
  {
    hide Play, Paced, Unfrozen, FasterThanTheWorld;
    StartedAt(n, t1, rest1);
    StartedAt(n, t2, rest2);
    FastIsPaced(State(0.0, Some(t1)), rest1);
    FastIsPaced(State(0.0, Some(t2)), rest2);
    if Unfrozen(State(0.0, Some(t1)), rest1) == Unfrozen(State(0.0, Some(t2)), rest2) {
      FastDisplaysAgree(State(0.0, Some(t1)), rest1, State(0.0, Some(t2)), rest2);
    }
  }

  /** Whatever the gaps, the world never outruns the slack bar, and the backlog is bounded. */
  lemma {:induction false} NeverOutruns(s: State, events: seq<Event>)
    requires s.last.Some? && 0.0 <= s.acc <= TICK_CAP && Forward(s, events)
    ensures Play(s, events).state.last.Some? && 0.0 <= Play(s, events).state.acc <= TICK_CAP
    ensures Play(s, events).steps as real * TICK_MIN + Play(s, events).state.acc <= s.acc + Unfrozen(s, events)
  {
    if events == [] {
    } else {
      var before, e := events[..|events| - 1], events[|events| - 1];
      NeverOutruns(s, before);
      StepBound(Play(s, before), e);
    }
  }

  lemma StepBound(r: Run, e: Event)
    requires r.state.last.Some? && 0.0 <= r.state.acc <= TICK_CAP
    requires e.Called? ==> MovesForward(r.state, e.now, None)
    ensures
      var r' := Step(r, e);
      && r'.state.last.Some? && 0.0 <= r'.state.acc <= TICK_CAP
      && (r'.steps as real) * TICK_MIN + r'.state.acc - r'.state.last.value + r'.held
      <= (r.steps as real) * TICK_MIN + r.state.acc - r.state.last.value + r.held
  {
    assert (r.steps + 1) as real == r.steps as real + 1.0;
  }

  /** From any gate the page can reach, a callback a bar or more after the last one advances
      and leaves at most three steps of backlog, however long the stall. */
  lemma EveryLongGapAdvances(s: State, now: real)
    requires s.last.Some? && 0.0 <= s.acc
    ensures now - s.last.value >= 47.0 ==> Call(s, Some(now)).1
    ensures now - s.last.value > 0.0 ==> Call(s, Some(now)).0.acc <= 150.0
    ensures now - s.last.value >= 200.0 ==> Call(s, Some(now)).0.acc == 150.0
  {
  }

  /** A shorter gap advances exactly when what is in hand makes up a whole step with it. */
  lemma ShortGapWaits(s: State, now: real)
    requires s.last.Some? && 0.0 <= s.acc && 0.0 < now - s.last.value < 47.0
    ensures Call(s, Some(now)).1 <==> s.acc + (now - s.last.value) >= 50.0
  {
  }

  /** The catch-up after a stall: on a fast display, at most three steps more than the time
      since, and never fewer than the time since is worth. */
  lemma {:induction false} CatchUpIsBounded(s: State, events: seq<Event>)
    requires s.last.Some? && 0.0 <= s.acc <= TICK_CAP - TICK_MS && FasterThanTheWorld(s, events)
    ensures Play(s, events).state.last.Some?
    ensures
      var worth := Unfrozen(s, events) / TICK_MS;
      worth - 1.0 < Play(s, events).steps as real <= worth + 3.0
  {
    BacklogIsConserved(s, events);
  }

  lemma {:induction false} BacklogIsConserved(s: State, events: seq<Event>)
    requires s.last.Some? && 0.0 <= s.acc <= TICK_CAP - TICK_MS && FasterThanTheWorld(s, events)
    ensures Play(s, events).state.last.Some?
    ensures 0.0 <= Play(s, events).state.acc <= TICK_CAP - TICK_MS
    ensures Play(s, events).state.acc < TICK_MS || Play(s, events).state.acc <= s.acc
    ensures Play(s, events).steps as real * TICK_MS + Play(s, events).state.acc == s.acc + Unfrozen(s, events)
  {
    if events == [] {
    } else {
      var before, e := events[..|events| - 1], events[|events| - 1];
      BacklogIsConserved(s, before);
      assert (Play(s, before).steps + 1) as real == Play(s, before).steps as real + 1.0;
    }
  }

  // --- where the accounting fails ------------------------------------------

  /** One callback is charged exactly, a step's worth or nothing, if and only if time moved
      forward, the cap was not met, and the slack bar did not give a short step away. */
  lemma ChargedExactly(s: State, now: real)
    requires s.last.Some? && 0.0 <= s.acc
    ensures
      var dt := now - s.last.value;
      var (s', advance) := Call(s, Some(now));
      (s'.acc + (if advance then TICK_MS else 0.0) == s.acc + dt) <==>
      (0.0 < dt && s.acc + dt <= TICK_CAP && (dt >= TICK_MIN ==> s.acc + dt >= TICK_MS))
  {
  }

  /** A hold that reaches past the next callback buys a free step, and moves the clock back. */
  lemma LongHoldIsFree(s: State, ms: real, now: real)
    requires s.last.Some? && ms > 0.0 && now <= s.last.value + ms
    ensures Call(Freeze(s, Some(ms)), Some(now)) == (State(s.acc, Some(now)), true)
  {
  }

  /** n gaps of g. */
  function Elapsed(g: real, n: nat): real {
    if n == 0 then 0.0 else Elapsed(g, n - 1) + g
  }

  lemma {:induction false} ElapsedIsProduct(g: real, n: nat)
    ensures Elapsed(g, n) == g * n as real
  {
    if n == 0 {
    } else {
      ElapsedIsProduct(g, n - 1);
      var m := (n - 1) as real;
      assert n as real == m + 1.0;
      assert g * (m + 1.0) == g * m + g;
    }
  }

  /** A display of constant gap g, n callbacks after the first. */
  function Uniform(t0: real, g: real, n: nat): seq<Event> {
    if n == 0 then [] else Uniform(t0, g, n - 1) + [Called(Some(t0 + Elapsed(g, n)))]
  }

  lemma UniformStep(r: Run, t0: real, g: real, n: nat)
    requires g > 0.0 && UniformResult(r, t0, g, n)
    ensures UniformResult(Step(r, Called(Some(t0 + Elapsed(g, n + 1)))), t0, g, n + 1)
  {
    var later := Elapsed(g, n + 1);
    assert later == Elapsed(g, n) + g;
    hide Elapsed;
    assert (r.steps + 1) as real == r.steps as real + 1.0;
  }

  lemma UniformOneMore(t0: real, g: real, n: nat)
    ensures
      var s := State(0.0, Some(t0));
      Play(s, Uniform(t0, g, n + 1)) == Step(Play(s, Uniform(t0, g, n)), Called(Some(t0 + Elapsed(g, n + 1))))
  {
    hide Play, Step, Elapsed;
    PlayOneMore(State(0.0, Some(t0)), Uniform(t0, g, n), Called(Some(t0 + Elapsed(g, n + 1))));
  }

  lemma UniformStart(t0: real, g: real)
    ensures UniformResult(Play(State(0.0, Some(t0)), Uniform(t0, g, 0)), t0, g, 0)
  {
    hide Step;
    assert Uniform(t0, g, 0) == [];
  }

  lemma {:induction false} UniformSteps(t0: real, g: real, n: nat)
    requires g > 0.0
    ensures UniformResult(Play(State(0.0, Some(t0)), Uniform(t0, g, n)), t0, g, n)
  {
    hide Play, Step, Elapsed, Uniform, UniformResult;
    if n == 0 {
      UniformStart(t0, g);
    } else {
      UniformSteps(t0, g, n - 1);
      UniformOneMore(t0, g, n - 1);
      UniformStep(Play(State(0.0, Some(t0)), Uniform(t0, g, n - 1)), t0, g, n - 1);
    }
  }

  ghost predicate UniformResult(r: Run, t0: real, g: real, n: nat) {
    && r.state.last == Some(t0 + Elapsed(g, n)) && r.held == 0.0 && r.state.acc >= 0.0
    && (g >= TICK_MIN ==> r.steps == n)
    && (g < TICK_MIN ==>
          r.state.acc < TICK_MS && r.steps as real * TICK_MS + r.state.acc == Elapsed(g, n))
  }

  lemma PlayOneMore(s: State, events: seq<Event>, e: Event)
    ensures Play(s, events + [e]) == Step(Play(s, events), e)
  {
    assert (events + [e])[..|events|] == events;
  }

  /** Which displays of constant rate are charged in full for n callbacks: those faster than the
      bar, and those not faster than the world while their backlog stays under the cap. */
  lemma {:induction false} UniformIsPaced(t0: real, g: real, n: nat)
    requires g > 0.0
    ensures Paced(State(0.0, Some(t0)), Uniform(t0, g, n)) <==> UniformFits(g, n)
    ensures g >= TICK_MS && UniformFits(g, n) ==>
              Play(State(0.0, Some(t0)), Uniform(t0, g, n)).state.acc == Backlog(g, n)
  {
    if n == 0 {
    } else {
      hide Play, Uniform, Paced, Elapsed, ChargedInFull;
      UniformIsPaced(t0, g, n - 1);
      UniformSteps(t0, g, n - 1);
      UniformOnce(t0, g, n);
      BacklogGrows(g, n);
    }
  }

  /** What is waiting after n callbacks that each advanced. */
  function Backlog(g: real, n: nat): real { Elapsed(g, n) - n as real * TICK_MS }

  lemma BacklogGrows(g: real, n: nat)
    requires n > 0
    ensures Backlog(g, n) == Backlog(g, n - 1) + g - TICK_MS
    ensures n == 1 ==> Backlog(g, n - 1) == 0.0
  {
    assert n as real == (n - 1) as real + 1.0;
  }

  lemma UniformOnce(t0: real, g: real, n: nat)
    requires g > 0.0 && n > 0
    requires UniformResult(Play(State(0.0, Some(t0)), Uniform(t0, g, n - 1)), t0, g, n - 1)
    ensures
      var s := State(0.0, Some(t0));
      var acc := Play(s, Uniform(t0, g, n - 1)).state.acc;
      var fits := acc + g <= TICK_CAP && (g >= TICK_MIN ==> acc + g >= TICK_MS);
      && (Paced(s, Uniform(t0, g, n)) <==> Paced(s, Uniform(t0, g, n - 1)) && fits)
      && (g >= TICK_MS && fits ==> Play(s, Uniform(t0, g, n)).state.acc == acc + g - TICK_MS)
  {
    var s, before := State(0.0, Some(t0)), Uniform(t0, g, n - 1);
    assert Uniform(t0, g, n)[..|before|] == before;
    PlayOneMore(s, before, Called(Some(t0 + Elapsed(g, n))));
  }

  predicate UniformFits(g: real, n: nat) {
    n == 0 || g < TICK_MIN || (g >= TICK_MS && Backlog(g, n) <= TICK_CAP - TICK_MS)
  }

  /** A 60 Hz display shows the world any display faster than the bar does: n steps in its n
      callbacks, and in m callbacks of the other that take as long. */
  lemma SixtyHertzAgrees(t0: real, n: nat, t1: real, g: real, m: nat)
    requires 0.0 < g < TICK_MIN && Elapsed(g, m) == Elapsed(TICK_MS, n)
    ensures Play(State(0.0, Some(t0)), Uniform(t0, TICK_MS, n)) == Run(State(0.0, Some(t0 + Elapsed(g, m))), n, 0.0)
    ensures Play(State(0.0, Some(t1)), Uniform(t1, g, m)) == Run(State(0.0, Some(t1 + Elapsed(g, m))), n, 0.0)
  {
    hide Play, Paced, Uniform;
    ElapsedIsProduct(TICK_MS, n);
    if n > 0 {
      ElapsedIsProduct(TICK_MS, n - 1);
    }
    UniformIsPaced(t0, TICK_MS, n);
    UniformIsPaced(t1, g, m);
    UniformSteps(t0, TICK_MS, n);
    UniformSteps(t1, g, m);
    RefreshRateIndependence(State(0.0, Some(t0)), Uniform(t0, TICK_MS, n), State(0.0, Some(t1)), Uniform(t1, g, m));
  }

  /** A display of constant rate has stepped the world as real time asks, n callbacks on, if and
      only if its gap is under the slack bar, or n steps happen to be what real time is worth. */
  lemma UniformKeepsTime(t0: real, g: real, n: nat)
    requires g > 0.0
    ensures
      Play(State(0.0, Some(t0)), Uniform(t0, g, n)).steps == (Elapsed(g, n) / TICK_MS).Floor <==>
      g < TICK_MIN || n as real * TICK_MS <= Elapsed(g, n) < (n + 1) as real * TICK_MS
  {
    UniformSteps(t0, g, n);
    KeepsTime(Play(State(0.0, Some(t0)), Uniform(t0, g, n)), t0, g, n);
  }

  lemma KeepsTime(r: Run, t0: real, g: real, n: nat)
    requires UniformResult(r, t0, g, n)
    ensures r.steps == (Elapsed(g, n) / TICK_MS).Floor <==>
            g < TICK_MIN || n as real * TICK_MS <= Elapsed(g, n) < (n + 1) as real * TICK_MS
  {
    var time := Elapsed(g, n);
    if g < TICK_MIN {
      WholeSteps(time, r.steps, r.state.acc);
    } else {
      FloorIs(time, n);
    }
  }

  lemma FloorIs(time: real, n: nat)
    ensures (time / TICK_MS).Floor == n <==> n as real * TICK_MS <= time < (n + 1) as real * TICK_MS
  {
  }

  /** So a display whose gap lies between the bar and a step runs the world ahead of real time,
      by a step in about g/(TICK_MS - g) callbacks. */
  lemma SlackRunsAhead(t0: real, g: real, n: nat)
    requires TICK_MIN <= g < TICK_MS
    ensures Play(State(0.0, Some(t0)), Uniform(t0, g, n)).steps as real * TICK_MS == Elapsed(g, n) + (TICK_MS - g) * n as real
  {
    hide Play, Uniform, Elapsed;
    UniformSteps(t0, g, n);
    ElapsedIsProduct(g, n);
    assert (TICK_MS - g) * n as real == TICK_MS * n as real - g * n as real;
  }
}
