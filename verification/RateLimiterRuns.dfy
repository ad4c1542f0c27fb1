/** Whole runs of the limiter, against the unbounded log of everything it ever admitted. */
module RateLimiterRuns {
  import opened RateLimiting
  import opened FiniteSets

  /** One atomic critical section; `at` is what the monotonic clock read inside it. */
  datatype Op = Check(client: Client, at: real) | RetryAfter(client: Client, at: real)

  datatype Hit = Hit(client: Client, at: real)

  datatype Verdict = Verdict(at: real, admitted: bool)

  /** The table, every admission ever made, and the last answer each client was given. */
  datatype Run = Run(table: Table, log: seq<Hit>, last: map<Client, Verdict>)

  ghost predicate Timed(ops: seq<Op>) {
    forall i, j :: 0 <= i < j < |ops| ==> ops[i].at <= ops[j].at
  }

  ghost predicate Usable(lim: Limits) { lim.perMinute > 0 && lim.maxClients > 0 }

  function Step(lim: Limits, r: Run, op: Op): (r': Run)
    requires lim.perMinute > 0 && WellFormed(r.table)
    ensures WellFormed(r'.table)
  {
    match op
    case Check(c, now) =>
      CheckWellFormed(lim, r.table, c, now);
      var (t, ok) := CheckStep(lim, r.table, c, now);
      Run(t, if ok then r.log + [Hit(c, now)] else r.log, r.last[c := Verdict(now, ok)])
    case RetryAfter(c, now) =>
      r.(table := RetryStep(lim, r.table, c, now).0)
  }

  function Continue(lim: Limits, r: Run, ops: seq<Op>): (r': Run)
    requires lim.perMinute > 0 && WellFormed(r.table)
    ensures WellFormed(r'.table)
  {
    if ops == [] then r
    else Step(lim, Continue(lim, r, ops[..|ops| - 1]), ops[|ops| - 1])
  }

  function Play(lim: Limits, ops: seq<Op>): (r: Run)
    requires lim.perMinute > 0
    ensures WellFormed(r.table)
  {
    Continue(lim, Run(Empty, [], map[]), ops)
  }

  /** The unbounded log, one client's part of it. */
  function Hits(log: seq<Hit>, c: Client): seq<real> {
    if log == [] then []
    else
      var before := Hits(log[..|log| - 1], c);
      var h := log[|log| - 1];
      if h.client == c then before + [h.at] else before
  }

  function Window(t: Table, c: Client): seq<real> {
    if c in t.windows then t.windows[c] else []
  }

  /** How many of `h` fall in the closed interval from `lo` to `hi`. */
  function Within(h: seq<real>, lo: real, hi: real): nat {
    if h == [] then 0 else (if lo <= h[0] <= hi then 1 else 0) + Within(h[1..], lo, hi)
  }

  function Live(log: seq<Hit>, c: Client, now: real): nat {
    Within(Hits(log, c), now - WINDOW, now)
  }

  ghost predicate Ascending(h: seq<real>, now: real) {
    && (forall i, j :: 0 <= i < j < |h| ==> h[i] <= h[j])
    && (forall i :: 0 <= i < |h| ==> h[i] <= now)
  }

  // --- pruning -------------------------------------------------------------

  lemma {:induction false} PruneLater(h: seq<real>, now: real, later: real)
    requires now <= later
    ensures Prune(Prune(h, now), later) == Prune(h, later)
  {
    if h == [] || now - h[0] <= WINDOW {
    } else {
      PruneLater(h[1..], now, later);
    }
  }

  lemma {:induction false} PruneAppend(h: seq<real>, now: real)
    ensures Prune(h + [now], now) == Prune(h, now) + [now]
    ensures |Prune(h, now)| <= |h|
  {
    if h != [] && now - h[0] > WINDOW {
      PruneAppend(h[1..], now);
      assert (h + [now])[1..] == h[1..] + [now];
    } else if h == [] {
      assert [now][0] == now;
      assert h + [now] == [now];
    }
  }

  lemma {:induction false} PruneCountsLive(h: seq<real>, now: real)
    requires Ascending(h, now)
    ensures |Prune(h, now)| == Within(h, now - WINDOW, now)
  {
    if h != [] && now - h[0] > WINDOW {
      PruneCountsLive(h[1..], now);
    } else {
      AllWithin(h, now - WINDOW, now);
    }
  }

  lemma {:induction false} AllWithin(h: seq<real>, lo: real, hi: real)
    requires forall i :: 0 <= i < |h| ==> lo <= h[i] <= hi
    ensures Within(h, lo, hi) == |h|
  {
    if h == [] {
    } else {
      AllWithin(h[1..], lo, hi);
    }
  }

  lemma {:induction false} WithinAtMost(h: seq<real>, lo: real, hi: real, now: real)
    requires now - WINDOW <= lo
    ensures Within(h, lo, hi) <= |Prune(h, now)|
  {
    if h != [] && now - h[0] > WINDOW {
      WithinAtMost(h[1..], lo, hi, now);
    } else {
      WithinLength(h, lo, hi);
    }
  }

  lemma {:induction false} WithinLength(h: seq<real>, lo: real, hi: real)
    ensures Within(h, lo, hi) <= |h|
  {
    if h == [] {
    } else {
      WithinLength(h[1..], lo, hi);
    }
  }

  lemma {:induction false} WithinAppend(h: seq<real>, x: real, lo: real, hi: real)
    ensures Within(h + [x], lo, hi) == Within(h, lo, hi) + (if lo <= x <= hi then 1 else 0)
  {
    if h == [] {
      assert h + [x] == [x];
    } else {
      WithinAppend(h[1..], x, lo, hi);
      assert (h + [x])[1..] == h[1..] + [x];
    }
  }

  lemma HitsAppend(log: seq<Hit>, h: Hit, c: Client)
    ensures Hits(log + [h], c) == if h.client == c then Hits(log, c) + [h.at] else Hits(log, c)
  {
    assert (log + [h])[..|log|] == log;
  }

  // --- what every step keeps -----------------------------------------------

  /** The window kept for `c` holds the same live hits as its part of the unbounded log. */
  ghost predicate FaithfulFor(lim: Limits, r: Run, c: Client, now: real) {
    && Ascending(Hits(r.log, c), now)
    && Prune(Hits(r.log, c), now) == Prune(Window(r.table, c), now)
    && |Window(r.table, c)| <= lim.perMinute
  }

  ghost predicate Faithful(lim: Limits, r: Run, now: real) {
    && WellFormed(r.table)
    && |r.table.order| <= lim.maxClients
    && (forall c :: FaithfulFor(lim, r, c, now))
  }

  lemma FaithfulLater(lim: Limits, r: Run, now: real, later: real)
    requires Faithful(lim, r, now) && now <= later
    ensures Faithful(lim, r, later)
  {
    forall c
      ensures FaithfulFor(lim, r, c, later)
    {
      assert FaithfulFor(lim, r, c, now);
      PruneLater(Hits(r.log, c), now, later);
      PruneLater(Window(r.table, c), now, later);
    }
  }

  lemma {:induction false} ReclaimForgetsNothingLive(t: Table, now: real, c: Client)
    requires WellFormed(t)
    ensures WellFormed(Reclaim(t, now))
    ensures Prune(Window(Reclaim(t, now), c), now) == Prune(Window(t, c), now)
    ensures |Window(Reclaim(t, now), c)| <= |Window(t, c)|
    decreases |t.order|
  {
    ReclaimWellFormed(t, now);
    if t.order == [] {
    } else {
      var first := t.order[0];
      var w := Prune(t.windows[first], now);
      PruneLater(t.windows[first], now, now);
      PruneAppend(t.windows[first], now);
      if w == [] {
        DropFirstWellFormed(t);
        ReclaimForgetsNothingLive(Table(t.order[1..], t.windows - {first}), now, c);
      }
    }
  }

  /** Pruning `c`'s own window, and recording a hit when there is room, keeps it faithful. */
  lemma AdmitFaithful(lim: Limits, r: Run, t: Table, c: Client, now: real, d: Client)
    requires lim.perMinute > 0 && c in t.windows
    requires FaithfulFor(lim, r.(table := t), c, now) && FaithfulFor(lim, r.(table := t), d, now)
    ensures
      var (t', ok) := Admit(lim, t, c, now);
      FaithfulFor(lim, r.(table := t', log := if ok then r.log + [Hit(c, now)] else r.log), d, now)
  {
    hide Hits, Prune;
    var w := t.windows[c];
    HitsAppend(r.log, Hit(c, now), d);
    PruneLater(w, now, now);
    PruneAppend(w, now);
    PruneAppend(Prune(w, now), now);
    PruneAppend(Hits(r.log, c), now);
  }

  lemma CheckFaithful(lim: Limits, r: Run, c: Client, now: real, d: Client)
    requires Usable(lim) && Faithful(lim, r, now)
    ensures FaithfulFor(lim, Step(lim, r, Check(c, now)), d, now)
  {
    assert FaithfulFor(lim, r, c, now) && FaithfulFor(lim, r, d, now);
    if c in r.table.windows {
      AdmitFaithful(lim, r, r.table.(order := Without(r.table.order, c) + [c]), c, now, d);
    } else {
      var t1 := Reclaim(r.table, now);
      ReclaimOnlyDrops(r.table, c, now);
      ReclaimForgetsNothingLive(r.table, now, c);
      ReclaimForgetsNothingLive(r.table, now, d);
      if |t1.order| < lim.maxClients {
        var t2 := Table(t1.order + [c], t1.windows[c := []]);
        assert Window(t2, d) == Window(t1, d) && Window(t2, c) == [];
        AdmitFaithful(lim, r, t2, c, now, d);
      }
    }
  }

  lemma RetryFaithful(lim: Limits, r: Run, c: Client, now: real, d: Client)
    requires Usable(lim) && Faithful(lim, r, now)
    ensures FaithfulFor(lim, Step(lim, r, RetryAfter(c, now)), d, now)
  {
    assert FaithfulFor(lim, r, c, now) && FaithfulFor(lim, r, d, now);
    PruneLater(Window(r.table, c), now, now);
    PruneAppend(Window(r.table, c), now);
  }

  lemma StepFaithful(lim: Limits, r: Run, op: Op)
    requires Usable(lim) && Faithful(lim, r, op.at)
    ensures Faithful(lim, Step(lim, r, op), op.at)
  {
    forall d
      ensures FaithfulFor(lim, Step(lim, r, op), d, op.at)
    {
      match op
      case Check(c, now) => CheckFaithful(lim, r, c, now, d);
      case RetryAfter(c, now) => RetryFaithful(lim, r, c, now, d);
    }
    StepOrder(lim, r, op);
  }

  lemma StepOrder(lim: Limits, r: Run, op: Op)
    requires Usable(lim) && WellFormed(r.table) && |r.table.order| <= lim.maxClients
    ensures |Step(lim, r, op).table.order| <= lim.maxClients
  {
    ReclaimWellFormed(r.table, op.at);
    if op.Check? && op.client in r.table.windows {
      WithoutShrinks(r.table.order, op.client);
    }
  }

  lemma {:induction false} WithoutShrinks(order: seq<Client>, c: Client)
    requires c in order
    ensures |Without(order, c)| < |order|
  {
    if order[0] == c {
    } else {
      WithoutShrinks(order[1..], c);
    }
  }

  lemma {:induction false} ContinueFaithful(lim: Limits, r: Run, ops: seq<Op>, start: real, now: real)
    requires Usable(lim) && Faithful(lim, r, start) && start <= now
    requires Timed(ops) && (forall i :: 0 <= i < |ops| ==> start <= ops[i].at <= now)
    ensures Faithful(lim, Continue(lim, r, ops), now)
  {
    if ops == [] {
      FaithfulLater(lim, r, start, now);
    } else {
      var op := ops[|ops| - 1];
      ContinueFaithful(lim, r, ops[..|ops| - 1], start, op.at);
      StepFaithful(lim, Continue(lim, r, ops[..|ops| - 1]), op);
      FaithfulLater(lim, Continue(lim, r, ops), op.at, now);
    }
  }

  lemma PlayFaithful(lim: Limits, ops: seq<Op>, now: real)
    requires Usable(lim) && Timed(ops + [Check("", now)])
    ensures Faithful(lim, Play(lim, ops), now)
  {
    var all := ops + [Check("", now)];
    assert forall i :: 0 <= i < |ops| ==> all[i] == ops[i];
    assert all[|ops|].at == now;
    var start := if ops == [] then now else ops[0].at;
    assert forall i :: 0 <= i < |ops| ==> start <= ops[i].at;
    ContinueFaithful(lim, Run(Empty, [], map[]), ops, start, now);
  }

  // --- the cap, the verdict ------------------------------------------------

  lemma TimedPrefix(ops: seq<Op>, op: Op)
    requires Timed(ops + [op])
    ensures Timed(ops)
    ensures Timed(ops + [Check("", op.at)])
    ensures forall i :: 0 <= i < |ops| ==> ops[i].at <= op.at
  {
    var all := ops + [op];
    assert forall i :: 0 <= i < |ops| ==> all[i] == ops[i];
    assert all[|ops|] == op;
  }

  /** Over any run, no client is admitted more than `perMinute` times in any closed minute,
      however often the table forgot and re-created it, and the table stays bounded. */
  lemma {:induction false} CapAcrossEvictions(lim: Limits, ops: seq<Op>, c: Client, a: real)
    requires Usable(lim) && Timed(ops)
    ensures Within(Hits(Play(lim, ops).log, c), a, a + WINDOW) <= lim.perMinute
    ensures |Play(lim, ops).table.order| <= lim.maxClients
  {
    if ops == [] {
    } else {
      var before, op := ops[..|ops| - 1], ops[|ops| - 1];
      assert ops == before + [op];
      TimedPrefix(before, op);
      CapAcrossEvictions(lim, before, c, a);
      PlayFaithful(lim, before, op.at);
      var r := Play(lim, before);
      StepOrder(lim, r, op);
      if op.Check? && op.client == c && CheckStep(lim, r.table, c, op.at).1 {
        HitsAppend(r.log, Hit(c, op.at), c);
        WithinAppend(Hits(r.log, c), op.at, a, a + WINDOW);
        AdmittedHadRoom(lim, before, c, op.at);
        if a <= op.at <= a + WINDOW {
          WithinAtMost(Hits(r.log, c), a, a + WINDOW, op.at);
        }
      } else if op.Check? {
        HitsAppend(r.log, Hit(op.client, op.at), c);
      }
    }
  }

  lemma AdmittedHadRoom(lim: Limits, ops: seq<Op>, c: Client, now: real)
    requires Usable(lim) && Faithful(lim, Play(lim, ops), now)
    requires CheckStep(lim, Play(lim, ops).table, c, now).1
    ensures |Prune(Hits(Play(lim, ops).log, c), now)| < lim.perMinute
  {
    var r := Play(lim, ops);
    assert FaithfulFor(lim, r, c, now);
  }

  /** A tracked client is judged by its whole history, not by what the table remembers;
      an untracked one has no live hit, so only the table's room decides. */
  lemma VerdictIsTheLogs(lim: Limits, ops: seq<Op>, c: Client, now: real)
    requires Usable(lim) && Timed(ops + [Check(c, now)])
    ensures
      var r := Play(lim, ops);
      && (c in r.table.windows ==>
            (CheckStep(lim, r.table, c, now).1 <==> Live(r.log, c, now) < lim.perMinute))
      && (c !in r.table.windows ==>
            && Live(r.log, c, now) == 0
            && (CheckStep(lim, r.table, c, now).1 <==> |Reclaim(r.table, now).order| < lim.maxClients))
  {
    TimedPrefix(ops, Check(c, now));
    PlayFaithful(lim, ops, now);
    var r := Play(lim, ops);
    assert FaithfulFor(lim, r, c, now);
    PruneCountsLive(Hits(r.log, c), now);
  }

  // --- the advice ----------------------------------------------------------

  /** `c`, tracked, is refused at t0 for its full window, and asks again at t; `between` is
      what anyone did meanwhile, without `c` being admitted. */
  ghost predicate AsksAgain(lim: Limits, ops: seq<Op>, c: Client, t0: real, between: seq<Op>, t: real)
    requires lim.perMinute > 0
  {
    && Timed(ops + [Check(c, t0)] + between + [Check(c, t)])
    && c in Play(lim, ops).table.windows
    && !CheckStep(lim, Play(lim, ops).table, c, t0).1
    && Hits(Play(lim, ops + [Check(c, t0)] + between).log, c) == Hits(Play(lim, ops).log, c)
  }

  lemma TimedSplit(ops: seq<Op>, op: Op, between: seq<Op>, last: Op)
    requires Timed(ops + [op] + between + [last])
    ensures Timed(ops + [Check("", op.at)]) && Timed(ops + [op] + between + [Check("", last.at)]) && op.at <= last.at
  {
    var all := ops + [op] + between;
    TimedPrefix(all, last);
    assert all[|ops|] == op && forall i :: 0 <= i < |ops| ==> all[i] == ops[i];
    assert forall i :: 0 <= i < |ops| ==> all[i].at <= all[|ops|].at;
  }

  lemma FaithfulBothTimes(lim: Limits, ops: seq<Op>, c: Client, t0: real, between: seq<Op>, t: real)
    requires Usable(lim) && AsksAgain(lim, ops, c, t0, between, t)
    ensures t0 <= t
    ensures Faithful(lim, Play(lim, ops), t0)
    ensures Faithful(lim, Play(lim, ops + [Check(c, t0)] + between), t)
  {
    hide Timed, Play, Faithful, CheckStep, Hits;
    TimedSplit(ops, Check(c, t0), between, Check(c, t));
    PlayFaithful(lim, ops, t0);
    PlayFaithful(lim, ops + [Check(c, t0)] + between, t);
  }

  lemma WindowSlides(lim: Limits, r0: Run, r: Run, c: Client, t0: real, t: real)
    requires Usable(lim) && Faithful(lim, r0, t0) && Faithful(lim, r, t) && t0 <= t
    requires c in r0.table.windows && !CheckStep(lim, r0.table, c, t0).1
    requires Hits(r.log, c) == Hits(r0.log, c)
    ensures Prune(Hits(r0.log, c), t0) != []
    ensures
      var oldest := Prune(Hits(r0.log, c), t0)[0];
      && (t <= oldest + WINDOW ==> c in r.table.windows && !CheckStep(lim, r.table, c, t).1)
      && (t > oldest + WINDOW && c in r.table.windows ==> CheckStep(lim, r.table, c, t).1)
  {
    hide Hits, Reclaim, WellFormed;
    assert FaithfulFor(lim, r0, c, t0) && FaithfulFor(lim, r, c, t);
    var h := Hits(r0.log, c);
    PruneAppend(Window(r0.table, c), t0);
    PruneLater(h, t0, t);
    var full := Prune(h, t0);
    assert |full| == lim.perMinute;
    if t > full[0] + WINDOW {
      PruneAppend(full[1..], t);
    }
  }

  /** A full window refuses until its oldest hit is more than a minute old, and then admits. */
  lemma FullWindowSlides(lim: Limits, ops: seq<Op>, c: Client, t0: real, between: seq<Op>, t: real)
    requires Usable(lim) && AsksAgain(lim, ops, c, t0, between, t)
    ensures Prune(Hits(Play(lim, ops).log, c), t0) != []
    ensures
      var oldest := Prune(Hits(Play(lim, ops).log, c), t0)[0];
      var r := Play(lim, ops + [Check(c, t0)] + between);
      && (t <= oldest + WINDOW ==> c in r.table.windows && !CheckStep(lim, r.table, c, t).1)
      && (t > oldest + WINDOW && c in r.table.windows ==> CheckStep(lim, r.table, c, t).1)
  {
    hide Timed, Play, Faithful, CheckStep, Hits, Prune;
    FaithfulBothTimes(lim, ops, c, t0, between, t);
    WindowSlides(lim, Play(lim, ops), Play(lim, ops + [Check(c, t0)] + between), c, t0, t);
  }

  /** Such a refusal at t0, then `mid`, then `retry_after` at t1, then `after`, then the next
      check at t; nobody admits `c` meanwhile. */
  ghost predicate AsksAsAdvised(lim: Limits, ops: seq<Op>, c: Client, t0: real, mid: seq<Op>, t1: real, after: seq<Op>, t: real)
    requires lim.perMinute > 0
  {
    && Timed(ops + [Check(c, t0)] + mid + [RetryAfter(c, t1)])
    && AsksAgain(lim, ops, c, t0, mid + [RetryAfter(c, t1)] + after, t)
  }

  /** How long `c`'s window stays full, seen from t1. */
  function Wait(lim: Limits, ops: seq<Op>, c: Client, t0: real, t1: real): real
    requires lim.perMinute > 0 && Prune(Hits(Play(lim, ops).log, c), t0) != []
  {
    Prune(Hits(Play(lim, ops).log, c), t0)[0] + WINDOW - t1
  }

  /** `retry_after`, whenever it is asked after such a refusal: it covers the wait that is left
      and never overstates it by more than a second. A client that comes back later than advised
      is admitted; one that comes back on the advised instant is refused exactly when the wait
      was a whole number of seconds, one at least. */
  lemma RetryAdvice(lim: Limits, ops: seq<Op>, c: Client, t0: real, mid: seq<Op>, t1: real, after: seq<Op>, t: real)
    requires Usable(lim) && AsksAsAdvised(lim, ops, c, t0, mid, t1, after, t)
    ensures Prune(Hits(Play(lim, ops).log, c), t0) != []
    ensures
      var wait := Wait(lim, ops, c, t0, t1);
      var advice := RetryStep(lim, Play(lim, ops + [Check(c, t0)] + mid).table, c, t1).1 as real;
      var r := Play(lim, ops + [Check(c, t0)] + (mid + [RetryAfter(c, t1)] + after));
      var admitted := CheckStep(lim, r.table, c, t).1;
      && advice >= 1.0
      && (wait >= 0.0 ==> wait <= advice <= wait + 1.0)
      && (wait < 0.0 ==> advice == 1.0)
      && (t > t1 + advice && c in r.table.windows ==> admitted)
      && (t == t1 + advice && c in r.table.windows ==> (!admitted <==> wait >= 1.0 && wait.Floor as real == wait))
  {
    hide Timed, Play, Faithful, CheckStep, RetryStep, Hits, Prune, Ceil, Max;
    var whole := mid + [RetryAfter(c, t1)] + after;
    var r := Play(lim, ops + [Check(c, t0)] + whole);
    FaithfulBothTimes(lim, ops, c, t0, whole, t);
    AskedMeanwhile(lim, ops, c, t0, mid, t1, after, t);
    WindowSlides(lim, Play(lim, ops), r, c, t0, t);
    AdviceAsked(lim, Play(lim, ops), Play(lim, ops + [Check(c, t0)] + mid), c, t0, t1);
    AdviceCoversTheWait(Wait(lim, ops, c, t0, t1));
  }

  /** Between the refusal and the next check the run is still the log's, and `c` gained nothing. */
  lemma AskedMeanwhile(lim: Limits, ops: seq<Op>, c: Client, t0: real, mid: seq<Op>, t1: real, after: seq<Op>, t: real)
    requires Usable(lim) && AsksAsAdvised(lim, ops, c, t0, mid, t1, after, t)
    ensures t0 <= t1 && Faithful(lim, Play(lim, ops + [Check(c, t0)] + mid), t1)
    ensures Hits(Play(lim, ops + [Check(c, t0)] + mid).log, c) == Hits(Play(lim, ops).log, c)
  {
    hide Timed, Play, Faithful, CheckStep, Hits;
    var start, asked := ops + [Check(c, t0)], mid + [RetryAfter(c, t1)];
    TimedSplit(ops, Check(c, t0), mid, RetryAfter(c, t1));
    PlayFaithful(lim, start + mid, t1);
    assert start + (asked + after) == start + mid + ([RetryAfter(c, t1)] + after);
    HitsOnlyGrow(lim, ops, [Check(c, t0)] + mid, c);
    assert ops + ([Check(c, t0)] + mid) == start + mid;
    HitsOnlyGrow(lim, start + mid, [RetryAfter(c, t1)] + after, c);
  }

  /** No step takes a hit out of the log. */
  lemma {:induction false} HitsOnlyGrow(lim: Limits, ops: seq<Op>, more: seq<Op>, c: Client)
    requires lim.perMinute > 0
    ensures Hits(Play(lim, ops).log, c) <= Hits(Play(lim, ops + more).log, c)
  {
    if more == [] {
      assert ops + more == ops;
    } else {
      var before, op := more[..|more| - 1], more[|more| - 1];
      assert ops + more == ops + before + [op];
      HitsOnlyGrow(lim, ops, before, c);
      PlayOneMore(lim, ops + before, op);
      HitsAppend(Play(lim, ops + before).log, Hit(op.client, op.at), c);
    }
  }

  lemma AdviceAsked(lim: Limits, r0: Run, r: Run, c: Client, t0: real, t1: real)
    requires Usable(lim) && Faithful(lim, r0, t0) && Faithful(lim, r, t1) && t0 <= t1
    requires c in r0.table.windows && !CheckStep(lim, r0.table, c, t0).1
    requires Hits(r.log, c) == Hits(r0.log, c)
    ensures Prune(Hits(r0.log, c), t0) != []
    ensures
      var wait := Prune(Hits(r0.log, c), t0)[0] + WINDOW - t1;
      RetryStep(lim, r.table, c, t1).1 == if wait < 0.0 then 1 else Max(1, Ceil(wait))
  {
    hide Hits, Reclaim, WellFormed, Ceil, Max;
    WindowSlides(lim, r0, r, c, t0, t1);
    assert FaithfulFor(lim, r0, c, t0) && FaithfulFor(lim, r, c, t1);
    var h := Hits(r0.log, c);
    PruneAppend(Window(r0.table, c), t0);
    PruneAppend(Window(r.table, c), t1);
    PruneLater(h, t0, t1);
    var full := Prune(h, t0);
    assert |full| == lim.perMinute;
    if t1 > full[0] + WINDOW {
      PruneAppend(full[1..], t1);
    }
  }

  lemma AdviceCoversTheWait(wait: real)
    ensures wait >= 0.0 ==> wait <= Max(1, Ceil(wait)) as real <= wait + 1.0
    ensures Max(1, Ceil(wait)) as real == wait <==> wait >= 1.0 && wait.Floor as real == wait
    ensures Max(1, Ceil(wait)) >= 1
  {
    CeilIsNext(wait);
  }

  lemma CeilIsNext(x: real)
    ensures Ceil(x) as real - 1.0 < x <= Ceil(x) as real
    ensures x == Ceil(x) as real <==> x.Floor as real == x
  {
    var down := (-x).Floor;
    assert down as real <= -x < down as real + 1.0;
    assert Ceil(x) as real == -(down as real);
    if x.Floor as real == x {
      assert -x == (-x.Floor) as real;
    }
  }

  /** The instant exists: one admission at 0, a refusal and its advice in the same moment, and a
      client that does as it is told is refused again. */
  lemma AdvisedAndRefused(c: Client)
    ensures
      var lim := Limits(1, 1);
      && AsksAsAdvised(lim, [Check(c, 0.0)], c, 0.0, [], 0.0, [], 60.0)
      && RetryStep(lim, Play(lim, [Check(c, 0.0)] + [Check(c, 0.0)] + []).table, c, 0.0).1 == 60
      && !CheckStep(lim, Play(lim, [Check(c, 0.0)] + [Check(c, 0.0)] + ([] + [RetryAfter(c, 0.0)] + [])).table, c, 60.0).1
  {
    var lim, first := Limits(1, 1), [Check(c, 0.0)];
    PlayOneMore(lim, [], Check(c, 0.0));
    assert [] + [Check(c, 0.0)] == first;
    FreshCheck(lim, Empty, c, 0.0);
    var t := Table([c], map[c := [0.0]]);
    assert Play(lim, first).table == t by {
      assert [] + [c] == [c];
    }
    PlayOneMore(lim, first, Check(c, 0.0));
    var twice := first + [Check(c, 0.0)];
    assert Without([c], c) == [];
    assert Prune([0.0], 0.0) == [0.0] == Prune([0.0], 60.0);
    FullCheck(lim, t, c, 0.0);
    assert Play(lim, twice) == Run(t, Play(lim, first).log, Play(lim, twice).last) by {
      assert [] + [c] == [c];
    }
    assert twice + [] == twice;
    var asked := [] + [RetryAfter(c, 0.0)] + [];
    assert asked == [RetryAfter(c, 0.0)];
    PlayOneMore(lim, twice, RetryAfter(c, 0.0));
    assert Play(lim, twice + asked) == Play(lim, twice) by {
      assert t.windows[c := [0.0]] == t.windows;
    }
    FullCheck(lim, t, c, 60.0);
  }

  lemma PlayOneMore(lim: Limits, ops: seq<Op>, op: Op)
    requires lim.perMinute > 0
    ensures Play(lim, ops + [op]) == Step(lim, Play(lim, ops), op)
  {
    assert (ops + [op])[..|ops|] == ops;
  }

  // --- reclaiming ----------------------------------------------------------

  ghost predicate ByRecency(order: seq<Client>, last: map<Client, Verdict>) {
    && (forall c :: c in order ==> c in last)
    && (forall i, j :: 0 <= i < j < |order| ==> last[order[i]].at <= last[order[j]].at)
  }

  /** The order is by last check, and an admission is the client's newest hit. */
  ghost predicate Recent(r: Run, now: real) {
    && WellFormed(r.table)
    && ByRecency(r.table.order, r.last)
    && (forall c :: c in r.last ==> r.last[c].at <= now)
    && (forall c :: c in r.last && r.last[c].admitted ==>
          Hits(r.log, c) != [] && Hits(r.log, c)[|Hits(r.log, c)| - 1] == r.last[c].at)
  }

  lemma FirstIsOldest(order: seq<Client>, last: map<Client, Verdict>)
    requires ByRecency(order, last) && order != []
    ensures forall d :: d in order[1..] ==> last[order[0]].at <= last[d].at
  {
    forall d | d in order[1..]
      ensures last[order[0]].at <= last[d].at
    {
      var i :| 0 <= i < |order| - 1 && order[1..][i] == d;
      assert order[i + 1] == d;
    }
  }

  lemma {:induction false} WithoutByRecency(order: seq<Client>, c: Client, last: map<Client, Verdict>)
    requires ByRecency(order, last)
    ensures ByRecency(Without(order, c), last)
  {
    if order == [] {
    } else {
      var rest := order[1..];
      assert order == [order[0]] + rest;
      WithoutByRecency(rest, c, last);
      WithoutKeepsOthers(rest, c);
      FirstIsOldest(order, last);
    }
  }

  lemma {:induction false} ReclaimByRecency(t: Table, now: real, last: map<Client, Verdict>)
    requires WellFormed(t) && ByRecency(t.order, last)
    ensures ByRecency(Reclaim(t, now).order, last)
    decreases |t.order|
  {
    if t.order == [] {
    } else {
      DropFirstWellFormed(t);
      assert t.order == [t.order[0]] + t.order[1..];
      ReclaimByRecency(Table(t.order[1..], t.windows - {t.order[0]}), now, last);
    }
  }

  /** The client just checked goes to the new end. */
  lemma CheckedLast(order: seq<Client>, last: map<Client, Verdict>, c: Client, v: Verdict)
    requires ByRecency(order, last) && c !in order
    requires forall d :: d in last ==> last[d].at <= v.at
    ensures ByRecency(order, last[c := v]) && ByRecency(order + [c], last[c := v])
  {
    var longer := order + [c];
    assert forall d :: d in order ==> d != c && d in last;
    forall i, j | 0 <= i < j < |longer|
      ensures last[c := v][longer[i]].at <= last[c := v][longer[j]].at
    {
      assert longer[i] == order[i] && order[i] in order;
      assert j < |order| ==> longer[j] == order[j] && order[j] in order;
    }
    assert forall i :: 0 <= i < |order| ==> longer[i] == order[i];
  }

  lemma StepByRecency(lim: Limits, r: Run, op: Op)
    requires Usable(lim) && Recent(r, op.at)
    ensures ByRecency(Step(lim, r, op).table.order, Step(lim, r, op).last)
  {
    hide ByRecency, Without, Distinct, Prune, Hits;
    var c, now := op.client, op.at;
    if op.Check? {
      var v := Verdict(now, CheckStep(lim, r.table, c, now).1);
      if c in r.table.windows {
        WithoutByRecency(r.table.order, c, r.last);
        WithoutKeepsOthers(r.table.order, c);
        CheckedLast(Without(r.table.order, c), r.last, c, v);
      } else {
        ReclaimByRecency(r.table, now, r.last);
        ReclaimOnlyDrops(r.table, c, now);
        ReclaimWellFormed(r.table, now);
        CheckedLast(Reclaim(r.table, now).order, r.last, c, v);
      }
    }
  }

  lemma StepRecent(lim: Limits, r: Run, op: Op)
    requires Usable(lim) && Recent(r, op.at)
    ensures Recent(Step(lim, r, op), op.at)
  {
    StepByRecency(lim, r, op);
    var r' := Step(lim, r, op);
    if op.Check? {
      forall d | d in r'.last && r'.last[d].admitted
        ensures Hits(r'.log, d) != [] && Hits(r'.log, d)[|Hits(r'.log, d)| - 1] == r'.last[d].at
      {
        HitsAppend(r.log, Hit(op.client, op.at), d);
      }
    }
  }

  lemma {:induction false} PlayRecent(lim: Limits, ops: seq<Op>, now: real)
    requires Usable(lim) && Timed(ops + [Check("", now)])
    ensures Recent(Play(lim, ops), now)
  {
    TimedPrefix(ops, Check("", now));
    if ops == [] {
    } else {
      var before, op := ops[..|ops| - 1], ops[|ops| - 1];
      assert ops == before + [op];
      TimedPrefix(before, op);
      PlayRecent(lim, before, op.at);
      StepRecent(lim, Play(lim, before), op);
    }
  }

  ghost predicate NoneRefusedSinceAdmission(r: Run) {
    forall c :: c in r.table.windows ==> c in r.last && r.last[c].admitted
  }

  ghost function LiveClients(log: seq<Hit>, now: real): set<Client> {
    set h | h in log && Live(log, h.client, now) > 0 :: h.client
  }

  lemma {:induction false} LiveIsLogged(log: seq<Hit>, c: Client, now: real)
    ensures c in LiveClients(log, now) <==> Live(log, c, now) > 0
  {
    if Live(log, c, now) > 0 {
      HitIsLogged(log, c);
    }
  }

  lemma {:induction false} HitIsLogged(log: seq<Hit>, c: Client)
    requires Hits(log, c) != []
    ensures exists h :: h in log && h.client == c
  {
    var h := log[|log| - 1];
    if h.client == c {
    } else {
      HitIsLogged(log[..|log| - 1], c);
    }
  }

  lemma {:induction false} ReclaimStopsAtLive(t: Table, now: real)
    requires WellFormed(t)
    ensures WellFormed(Reclaim(t, now))
    ensures
      var t' := Reclaim(t, now);
      t'.order != [] ==> t'.windows[t'.order[0]] != [] && Prune(t'.windows[t'.order[0]], now) != []
    decreases |t.order|
  {
    ReclaimWellFormed(t, now);
    if t.order == [] {
    } else {
      PruneLater(t.windows[t.order[0]], now, now);
      DropFirstWellFormed(t);
      ReclaimStopsAtLive(Table(t.order[1..], t.windows - {t.order[0]}), now);
    }
  }

  lemma {:induction false} NewestHitDecides(h: seq<real>, now: real)
    requires Ascending(h, now) && h != []
    ensures Prune(h, now) != [] <==> now - h[|h| - 1] <= WINDOW
  {
    if now - h[0] <= WINDOW || |h| == 1 {
    } else {
      NewestHitDecides(h[1..], now);
    }
  }

  lemma {:induction false} ReclaimKeepsKeys(t: Table, now: real, c: Client)
    requires WellFormed(t) && c in Reclaim(t, now).windows
    ensures c in t.windows
    decreases |t.order|
  {
    if t.order == [] || Prune(t.windows[t.order[0]], now) != [] {
    } else {
      DropFirstWellFormed(t);
      ReclaimKeepsKeys(Table(t.order[1..], t.windows - {t.order[0]}), now, c);
    }
  }

  lemma LiveIsTracked(lim: Limits, ops: seq<Op>, now: real, c: Client)
    requires Usable(lim) && Timed(ops + [Check("", now)])
    ensures Live(Play(lim, ops).log, c, now) > 0 ==> c in Reclaim(Play(lim, ops).table, now).windows
  {
    PlayFaithful(lim, ops, now);
    var r := Play(lim, ops);
    assert FaithfulFor(lim, r, c, now);
    PruneCountsLive(Hits(r.log, c), now);
    ReclaimForgetsNothingLive(r.table, now, c);
  }

  lemma TrackedIsLive(lim: Limits, ops: seq<Op>, now: real, c: Client)
    requires Usable(lim) && Timed(ops + [Check("", now)])
    requires NoneRefusedSinceAdmission(Play(lim, ops))
    requires c in Reclaim(Play(lim, ops).table, now).windows
    ensures Live(Play(lim, ops).log, c, now) > 0
  {
    hide Play, Timed, Reclaim, Hits, Prune;
    PlayFaithful(lim, ops, now);
    PlayRecent(lim, ops, now);
    var r := Play(lim, ops);
    var t := Reclaim(r.table, now);
    ReclaimStopsAtLive(r.table, now);
    ReclaimByRecency(r.table, now, r.last);
    var first := t.order[0];
    ReclaimForgetsNothingLive(r.table, now, first);
    ReclaimKeepsKeys(r.table, now, first);
    ReclaimKeepsKeys(r.table, now, c);
    assert FaithfulFor(lim, r, first, now) && FaithfulFor(lim, r, c, now);
    NewestHitDecides(Hits(r.log, first), now);
    NewestHitDecides(Hits(r.log, c), now);
    PruneCountsLive(Hits(r.log, c), now);
  }

  lemma {:induction false} DistinctCount(s: seq<Client>)
    requires Distinct(s)
    ensures |s| == |set c | c in s|
  {
    if s == [] {
    } else {
      var rest := s[1..];
      assert s == [s[0]] + rest;
      DistinctCount(rest);
      assert (set c | c in s) == {s[0]} + (set c | c in rest);
    }
  }

  /** An unseen client is turned away exactly when the table is full and its least recently used
      client is live: reclaiming looks no further. */
  lemma TurnedAwayWhen(lim: Limits, ops: seq<Op>, c: Client, now: real)
    requires Usable(lim) && Timed(ops + [Check(c, now)]) && c !in Play(lim, ops).table.windows
    ensures
      var r := Play(lim, ops);
      !CheckStep(lim, r.table, c, now).1 <==> |r.table.order| == lim.maxClients && Live(r.log, r.table.order[0], now) > 0
  {
    TimedPrefix(ops, Check(c, now));
    VerdictIsTheLogs(lim, ops, c, now);
    PlayFaithful(lim, ops, now);
    var r := Play(lim, ops);
    if r.table.order != [] {
      var first := r.table.order[0];
      assert FaithfulFor(lim, r, first, now);
      PruneCountsLive(Hits(r.log, first), now);
      DropFirstWellFormed(r.table);
      ReclaimWellFormed(Table(r.table.order[1..], r.table.windows - {first}), now);
    }
  }

  /** As many clients are live as the table holds exactly when it is full of live clients: no
      client is live that it does not track. */
  lemma LiveFillTheTable(lim: Limits, ops: seq<Op>, now: real)
    requires Usable(lim) && Timed(ops + [Check("", now)])
    ensures
      var r := Play(lim, ops);
      |LiveClients(r.log, now)| >= lim.maxClients <==>
      |r.table.order| == lim.maxClients && forall d :: d in r.table.windows ==> Live(r.log, d, now) > 0
  {
    hide Play, Timed, Reclaim, Live;
    PlayFaithful(lim, ops, now);
    var r := Play(lim, ops);
    DistinctCount(r.table.order);
    var tracked := set d | d in r.table.order;
    forall d | d in LiveClients(r.log, now)
      ensures d in tracked
    {
      LiveIsLogged(r.log, d, now);
      LiveIsTracked(lim, ops, now, d);
      ReclaimKeepsKeys(r.table, now, d);
    }
    SubsetCount(LiveClients(r.log, now), tracked);
    if |LiveClients(r.log, now)| >= lim.maxClients {
      forall d | d in r.table.windows
        ensures Live(r.log, d, now) > 0
      {
        assert d in tracked;
        LiveIsLogged(r.log, d, now);
      }
    } else if forall d :: d in r.table.windows ==> Live(r.log, d, now) > 0 {
      forall d | d in tracked
        ensures d in LiveClients(r.log, now)
      {
        LiveIsLogged(r.log, d, now);
      }
      SubsetCount(tracked, LiveClients(r.log, now));
    }
  }

  /** Who turns an unseen client away: the table, full, with a live client at its old end. It is
      rightly turned away, with as many clients live as the table holds, exactly when every
      tracked client is live; that is always so when none was refused since its last admission,
      and so many live clients always do turn it away. */
  lemma UnseenTurnedAway(lim: Limits, ops: seq<Op>, c: Client, now: real)
    requires Usable(lim) && Timed(ops + [Check(c, now)]) && c !in Play(lim, ops).table.windows
    ensures
      var r := Play(lim, ops);
      var turnedAway := !CheckStep(lim, r.table, c, now).1;
      var crowded := |LiveClients(r.log, now)| >= lim.maxClients;
      && (turnedAway <==> |r.table.order| == lim.maxClients && Live(r.log, r.table.order[0], now) > 0)
      && (turnedAway ==> (crowded <==> forall d :: d in r.table.windows ==> Live(r.log, d, now) > 0))
      && (crowded ==> turnedAway)
      && (NoneRefusedSinceAdmission(r) ==> (turnedAway <==> crowded))
  {
    hide Timed, Play, Live, LiveClients, Reclaim, CheckStep;
    TimedPrefix(ops, Check(c, now));
    TurnedAwayWhen(lim, ops, c, now);
    LiveFillTheTable(lim, ops, now);
    var r := Play(lim, ops);
    if NoneRefusedSinceAdmission(r) && !CheckStep(lim, r.table, c, now).1 {
      AllTrackedAreLive(lim, ops, c, now);
    }
  }

  lemma AllTrackedAreLive(lim: Limits, ops: seq<Op>, c: Client, now: real)
    requires Usable(lim) && Timed(ops + [Check(c, now)]) && c !in Play(lim, ops).table.windows
    requires NoneRefusedSinceAdmission(Play(lim, ops)) && !CheckStep(lim, Play(lim, ops).table, c, now).1
    ensures forall d :: d in Play(lim, ops).table.windows ==> Live(Play(lim, ops).log, d, now) > 0
  {
    hide Timed, Play, Live;
    TimedPrefix(ops, Check(c, now));
    PlayFaithful(lim, ops, now);
    var r := Play(lim, ops);
    NothingReclaimed(r.table, now);
    VerdictIsTheLogs(lim, ops, c, now);
    ReclaimWellFormed(r.table, now);
    forall d | d in r.table.windows
      ensures Live(r.log, d, now) > 0
    {
      TrackedIsLive(lim, ops, now, d);
    }
  }

  /** Reclaiming that leaves as many keys as there were drops none. */
  lemma NothingReclaimed(t: Table, now: real)
    requires WellFormed(t)
    ensures |Reclaim(t, now).order| >= |t.order| ==> forall c :: c in t.windows ==> c in Reclaim(t, now).windows
  {
    if t.order != [] {
      DropFirstWellFormed(t);
      ReclaimWellFormed(Table(t.order[1..], t.windows - {t.order[0]}), now);
    }
  }

  /** The premise is needed: a refused check moves an idle client behind a busy one, and
      reclaiming, which stops at the first live client, no longer reaches it. */
  lemma RefusalHidesAnIdleClient(a: Client, b: Client, c: Client)
    requires a != b && b != c && c != a
    ensures
      var lim := Limits(1, 2);
      var ops := [Check(a, 0.0), Check(b, 50.0), Check(a, 55.0)];
      var r := Play(lim, ops);
      && Timed(ops + [Check(c, 70.0)])
      && !CheckStep(lim, r.table, c, 70.0).1
      && a in r.table.windows && Live(r.log, a, 70.0) == 0
  {
    NoHits(a);
    hide Play, Hits;
    var ops := [Check(a, 0.0), Check(b, 50.0), Check(a, 55.0)];
    assert ops == [Check(a, 0.0), Check(b, 50.0)] + [Check(a, 55.0)];
    BusyBeforeIdle(a, b);
    assert Prune([50.0], 70.0) == [50.0];
    assert Reclaim(Play(Limits(1, 2), ops).table, 70.0).order == [b, a];
    HitsAppend([], Hit(a, 0.0), a);
    HitsAppend([] + [Hit(a, 0.0)], Hit(b, 50.0), a);
    assert Hits(Play(Limits(1, 2), ops).log, a) == [0.0];
    assert Within([0.0], 10.0, 70.0) == 0;
  }

  lemma NoHits(c: Client)
    ensures Hits([], c) == []
  {
  }

  lemma TwoAdmitted(a: Client, b: Client)
    requires a != b
    ensures Play(Limits(1, 2), [Check(a, 0.0), Check(b, 50.0)]).table == Table([a, b], map[a := [0.0]][b := [50.0]])
    ensures Play(Limits(1, 2), [Check(a, 0.0), Check(b, 50.0)]).log == [] + [Hit(a, 0.0)] + [Hit(b, 50.0)]
  {
    var lim := Limits(1, 2);
    PlayOneMore(lim, [], Check(a, 0.0));
    FreshCheck(lim, Empty, a, 0.0);
    assert [] + [Check(a, 0.0)] == [Check(a, 0.0)];
    assert Play(lim, [Check(a, 0.0)]).table == Table([a], map[a := [0.0]]) by {
      assert [] + [a] == [a];
    }
    PlayOneMore(lim, [Check(a, 0.0)], Check(b, 50.0));
    assert [Check(a, 0.0)] + [Check(b, 50.0)] == [Check(a, 0.0), Check(b, 50.0)];
    assert Prune([0.0], 50.0) == [0.0];
    FreshCheck(lim, Table([a], map[a := [0.0]]), b, 50.0);
    assert [a] + [b] == [a, b];
  }

  lemma BusyBeforeIdle(a: Client, b: Client)
    requires a != b
    ensures
      var r := Play(Limits(1, 2), [Check(a, 0.0), Check(b, 50.0)] + [Check(a, 55.0)]);
      && r.log == [] + [Hit(a, 0.0)] + [Hit(b, 50.0)]
      && r.table == Table([b, a], map[a := [0.0]][b := [50.0]])
  {
    TwoAdmitted(a, b);
    PlayOneMore(Limits(1, 2), [Check(a, 0.0), Check(b, 50.0)], Check(a, 55.0));
    var t := Table([a, b], map[a := [0.0]][b := [50.0]]);
    assert Prune([0.0], 55.0) == [0.0];
    FullCheck(Limits(1, 2), t, a, 55.0);
    WithoutFirst(a, b);
    assert [b] + [a] == [b, a];
  }

  lemma WithoutFirst(a: Client, b: Client)
    requires a != b
    ensures Without([a, b], a) == [b]
  {
    assert [a, b][1..] == [b] && [b][1..] == [];
  }

  lemma FreshCheck(lim: Limits, t: Table, c: Client, now: real)
    requires WellFormed(t) && c !in t.windows && lim.perMinute > 0 && |t.order| < lim.maxClients
    requires t.order != [] ==> t.windows[t.order[0]] != [] && Prune(t.windows[t.order[0]], now) == t.windows[t.order[0]]
    ensures CheckStep(lim, t, c, now) == (Table(t.order + [c], t.windows[c := [now]]), true)
  {
    if t.order != [] {
      assert t.windows[t.order[0] := t.windows[t.order[0]]] == t.windows;
    }
    assert Reclaim(t, now) == t;
    assert [] + [now] == [now];
    assert t.windows[c := []][c := [now]] == t.windows[c := [now]];
  }

  lemma FullCheck(lim: Limits, t: Table, c: Client, now: real)
    requires WellFormed(t) && c in t.windows && |t.windows[c]| >= lim.perMinute
    requires Prune(t.windows[c], now) == t.windows[c]
    ensures CheckStep(lim, t, c, now) == (Table(Without(t.order, c) + [c], t.windows), false)
  {
    assert t.windows[c := t.windows[c]] == t.windows;
  }
}
