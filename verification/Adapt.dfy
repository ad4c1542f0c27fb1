/** The difficulty easing of src/sidra_ai/creation/adapt.py. */
module Adapt {
  import opened Wrappers

  const ADAPT_AFTER := 3

  /** What the stored string reads as: a finite number, or nothing usable. */
  type Stored = Option<real>

  function Abs(x: real): real { if x < 0.0 then -x else x }

  /** `adaptStreak`, of what is stored. */
  function Streak(stored: Stored): (r: nat) {
    if stored.Some? && stored.value > 0.0 then stored.value.Floor else 0
  }

  /** The first rung of the ladder nearest to v. */
  ghost predicate NearestFirst(steps: seq<real>, v: real, at: nat) {
    && at < |steps|
    && (forall i :: 0 <= i < at ==> Abs(steps[at] - v) < Abs(steps[i] - v))
    && (forall i :: at <= i < |steps| ==> Abs(steps[at] - v) <= Abs(steps[i] - v))
  }

  /** What both functions are asked: is a game opened at v eased? Not against a hand-set speed,
      only after enough losses, and only if there is a rung to step down to. */
  ghost predicate StepsDown(manual: bool, stored: Stored, steps: seq<real>, v: real) {
    !manual && Streak(stored) >= ADAPT_AFTER && exists at: nat :: NearestFirst(steps, v, at) && at > 0
  }

  /** The rungs of one ladder, and the page's own copy of the store and its flag. */
  class Page {
    const steps: seq<real>
    const base: real
    const manual: bool  // a hand-set speed
    var working: bool  // whether the store takes writes
    var stored: Stored
    var eased: bool

    constructor (steps: seq<real>, base: real, manual: bool, working: bool, stored: Stored)
      ensures this.steps == steps && this.base == base && this.manual == manual
      ensures this.working == working && this.stored == stored
    {
      this.steps, this.base, this.manual, this.working, this.stored := steps, base, manual, working, stored;
      eased := false;
    }

    /** One step toward easy, from the rung nearest v, after enough losses. */
    method AdaptSpeed(v: real) returns (speed: real)
      modifies this`eased
      ensures eased <==> StepsDown(manual, stored, steps, v)
      ensures eased ==> !manual && stored.Some? && stored.value >= 3.0
      ensures !eased ==> speed == v
      ensures eased ==> exists at: nat :: NearestFirst(steps, v, at) && at > 0 && speed == steps[at - 1]
    {
      eased := false;
      if manual || Streak(stored) < ADAPT_AFTER || |steps| == 0 { return v; }
      var at, best := 0, None;
      for i := 0 to |steps|
        invariant i == 0 ==> best == None && at == 0
        invariant i > 0 ==> NearestFirst(steps[..i], v, at) && best == Some(Abs(steps[at] - v))
      {
        var d := Abs(steps[i] - v);
        if best.None? || d < best.value { best, at := Some(d), i; }
      }
      assert steps[..|steps|] == steps;
      NearestIsUnique(steps, v, at);
      if at == 0 { return v; }
      eased := true;
      return steps[at - 1];
    }

    /** The panel's own question, asked with a loop of its own. */
    method AdaptEasing() returns (easing: bool)
      ensures easing <==> StepsDown(manual, stored, steps, base)
      ensures easing ==> !manual && stored.Some? && stored.value >= 3.0
    {
      if manual || Streak(stored) < ADAPT_AFTER || |steps| <= 1 {
        assert |steps| <= 1 ==> forall at: nat :: NearestFirst(steps, base, at) ==> at == 0;
        return false;
      }
      var at, best := 0, None;
      for i := 0 to |steps|
        invariant i == 0 ==> best == None && at == 0
        invariant i > 0 ==> NearestFirst(steps[..i], base, at) && best == Some(Abs(steps[at] - base))
      {
        var d := Abs(steps[i] - base);
        if best.None? || d < best.value { best, at := Some(d), i; }
      }
      assert steps[..|steps|] == steps;
      NearestIsUnique(steps, base, at);
      return at > 0;
    }

    method AdaptRecord(lost: bool) returns (next: nat)
      modifies this`stored
      ensures next == if lost then Streak(old(stored)) + 1 else 0
      ensures stored == if working then Some(next as real) else old(stored)
    {
      next := if lost then Streak(stored) + 1 else 0;
      if working { stored := Some(next as real); }
    }
  }

  lemma NearestIsUnique(steps: seq<real>, v: real, at: nat)
    requires NearestFirst(steps, v, at)
    ensures forall b: nat :: NearestFirst(steps, v, b) ==> b == at
  {
    forall b: nat | NearestFirst(steps, v, b)
      ensures b == at
    {
      assert b <= at ==> Abs(steps[b] - v) <= Abs(steps[at] - v);
      assert at <= b ==> Abs(steps[at] - v) <= Abs(steps[b] - v);
    }
  }

  /** Three losses are enough, with no hand-set speed, for a game opened above its ladder's first
      rung; two are not, nor is any number against a hand-set speed. */
  lemma ThreeLossesEase(manual: bool, losses: nat, steps: seq<real>, at: nat)
    requires 0 < at < |steps| && forall i, j :: 0 <= i < j < |steps| ==> steps[i] != steps[j]
    ensures StepsDown(manual, Some(losses as real), steps, steps[at]) <==> !manual && losses >= 3
  {
    OwnRungIsNearest(steps, at);
  }

  /** On a ladder of distinct rungs, a speed that is one of them is its own nearest: easing moves
      it exactly one rung. */
  lemma OwnRungIsNearest(steps: seq<real>, at: nat)
    requires at < |steps| && forall i, j :: 0 <= i < j < |steps| ==> steps[i] != steps[j]
    ensures NearestFirst(steps, steps[at], at)
    ensures forall b: nat :: NearestFirst(steps, steps[at], b) ==> b == at
  {
    forall i | 0 <= i < at
      ensures Abs(steps[at] - steps[at]) < Abs(steps[i] - steps[at])
    {
      assert steps[i] != steps[at];
    }
    NearestIsUnique(steps, steps[at], at);
  }

  /** What is stored after a sequence of rounds, on a working store. */
  function After(stored: Stored, rounds: seq<bool>): Stored {
    if rounds == [] then stored
    else
      var before := After(stored, rounds[..|rounds| - 1]);
      Some((if rounds[|rounds| - 1] then Streak(before) + 1 else 0) as real)
  }

  /** The losses a sequence of rounds ends with. */
  function TrailingLosses(rounds: seq<bool>): nat {
    if rounds == [] || !rounds[|rounds| - 1] then 0 else 1 + TrailingLosses(rounds[..|rounds| - 1])
  }

  /** The streak is the run of losses the rounds end with, on top of the old one if none was won. */
  lemma {:induction false} StreakIsTrailingLosses(stored: Stored, rounds: seq<bool>)
    ensures Streak(After(stored, rounds)) ==
            TrailingLosses(rounds) + (if false in rounds then 0 else Streak(stored))
  {
    if rounds == [] {
    } else {
      var before := rounds[..|rounds| - 1];
      StreakIsTrailingLosses(stored, before);
      assert rounds == before + [rounds[|rounds| - 1]];
    }
  }
}
