/** The sliding-window limiter of src/sidra_ai/api/app.py: its table, step by step. */
module RateLimiting {
  import opened Wrappers

  type Client = string

  const WINDOW := 60.0

  datatype Limits = Limits(perMinute: int, maxClients: int)

  /** An ordered dictionary: `order` lists the keys, least recently used first. */
  datatype Table = Table(order: seq<Client>, windows: map<Client, seq<real>>)

  const Empty := Table([], map[])

  ghost predicate Distinct(s: seq<Client>) {
    forall i, j :: 0 <= i < j < |s| ==> s[i] != s[j]
  }

  ghost predicate WellFormed(t: Table) {
    && Distinct(t.order)
    && (forall c :: c in t.order <==> c in t.windows)
  }

  /** A window after `_prune_window`: the hits more than a minute old leave from the left. */
  function Prune(w: seq<real>, now: real): seq<real> {
    if w != [] && now - w[0] > WINDOW then Prune(w[1..], now) else w
  }

  function Reclaim(t: Table, now: real): Table
    requires WellFormed(t)
    decreases |t.order|
  {
    if t.order == [] then t
    else
      var c := t.order[0];
      var w := Prune(t.windows[c], now);
      if w != [] then t.(windows := t.windows[c := w])
      else
        DropFirstWellFormed(t);
        Reclaim(Table(t.order[1..], t.windows - {c}), now)
  }

  lemma DropFirstWellFormed(t: Table)
    requires WellFormed(t) && t.order != []
    ensures WellFormed(Table(t.order[1..], t.windows - {t.order[0]}))
  {
    assert t.order == [t.order[0]] + t.order[1..];
  }

  function Without(order: seq<Client>, c: Client): (r: seq<Client>)
    ensures |r| <= |order|
  {
    if order == [] then []
    else if order[0] == c then Without(order[1..], c)
    else [order[0]] + Without(order[1..], c)
  }

  /** The tail of `_check_locked`: prune, compare with the limit, record the hit. */
  function Admit(lim: Limits, t: Table, c: Client, now: real): (Table, bool)
    requires c in t.windows
  {
    var w := Prune(t.windows[c], now);
    if |w| >= lim.perMinute then (t.(windows := t.windows[c := w]), false)
    else (t.(windows := t.windows[c := w + [now]]), true)
  }

  function CheckStep(lim: Limits, t: Table, c: Client, now: real): (Table, bool)
    requires WellFormed(t)
  {
    if c !in t.windows then
      var t1 := Reclaim(t, now);
      if |t1.order| >= lim.maxClients then (t1, false)
      else Admit(lim, Table(t1.order + [c], t1.windows[c := []]), c, now)
    else
      Admit(lim, t.(order := Without(t.order, c) + [c]), c, now)
  }

  function Ceil(x: real): int { -((-x).Floor) }

  function Max(a: int, b: int): int { if a < b then b else a }

  /** A limiter that admits nobody records no hit. */
  predicate Askable(lim: Limits, t: Table) {
    lim.perMinute > 0 || forall c :: c in t.windows ==> t.windows[c] == []
  }

  function RetryStep(lim: Limits, t: Table, c: Client, now: real): (Table, int)
    requires Askable(lim, t)
  {
    if c !in t.windows || t.windows[c] == [] then (t, 1)
    else
      var w := Prune(t.windows[c], now);
      var t1 := t.(windows := t.windows[c := w]);
      if |w| < lim.perMinute then (t1, 1)
      else (t1, Max(1, Ceil(w[0] + WINDOW - now)))
  }

  lemma {:induction false} WithoutKeepsOthers(order: seq<Client>, c: Client)
    ensures c !in Without(order, c)
    ensures forall d :: d != c ==> (d in Without(order, c) <==> d in order)
    ensures Distinct(order) ==> Distinct(Without(order, c))
  {
    if order == [] {
    } else {
      var rest := order[1..];
      WithoutKeepsOthers(rest, c);
      assert order == [order[0]] + rest;
      if Distinct(order) {
        assert Distinct(rest) && order[0] !in rest;
      }
    }
  }

  /** Reclaiming keeps the table an ordered dictionary over a suffix of its keys. */
  lemma {:induction false} ReclaimWellFormed(t: Table, now: real)
    requires WellFormed(t)
    ensures WellFormed(Reclaim(t, now))
    ensures |Reclaim(t, now).order| <= |t.order|
    decreases |t.order|
  {
    if t.order == [] {
    } else {
      var c := t.order[0];
      if Prune(t.windows[c], now) == [] {
        DropFirstWellFormed(t);
        ReclaimWellFormed(Table(t.order[1..], t.windows - {c}), now);
      }
    }
  }

  lemma CheckWellFormed(lim: Limits, t: Table, c: Client, now: real)
    requires WellFormed(t)
    ensures WellFormed(CheckStep(lim, t, c, now).0)
  {
    if c !in t.windows {
      ReclaimWellFormed(t, now);
      ReclaimOnlyDrops(t, c, now);
    } else {
      WithoutKeepsOthers(t.order, c);
    }
  }

  lemma {:induction false} ReclaimOnlyDrops(t: Table, c: Client, now: real)
    requires WellFormed(t) && c !in t.windows
    ensures c !in Reclaim(t, now).windows
    decreases |t.order|
  {
    if t.order == [] {
    } else {
      DropFirstWellFormed(t);
      ReclaimOnlyDrops(Table(t.order[1..], t.windows - {t.order[0]}), c, now);
    }
  }

  lemma {:induction false} ReclaimAskable(lim: Limits, t: Table, now: real)
    requires WellFormed(t) && Askable(lim, t)
    ensures Askable(lim, Reclaim(t, now))
    decreases |t.order|
  {
    if t.order == [] {
    } else {
      DropFirstWellFormed(t);
      ReclaimAskable(lim, Table(t.order[1..], t.windows - {t.order[0]}), now);
    }
  }

  /** Whatever its limit, a limiter can always say when to come back. */
  lemma CheckAskable(lim: Limits, t: Table, c: Client, now: real)
    requires WellFormed(t) && Askable(lim, t)
    ensures Askable(lim, CheckStep(lim, t, c, now).0)
  {
    ReclaimAskable(lim, t, now);
  }

  // --- the class -----------------------------------------------------------

  class RateLimiter {
    const limits: Limits
    var order: seq<Client>
    var windows: map<Client, seq<real>>

    ghost predicate Valid() reads this { WellFormed(Snapshot()) && Askable(limits, Snapshot()) }

    ghost function Snapshot(): Table reads this { Table(order, windows) }

    constructor (limits: Limits)
      ensures this.limits == limits && Valid() && Snapshot() == Empty
    {
      this.limits := limits;
      order, windows := [], map[];
    }

    /** `__init__` refuses a client budget that is not positive. */
    static method Create(limits: Limits) returns (r: Result<RateLimiter, string>)
      ensures r.Ok? <==> limits.maxClients > 0
      ensures r.Ok? ==> fresh(r.value) && r.value.limits == limits && r.value.Valid() && r.value.Snapshot() == Empty
    {
      if limits.maxClients <= 0 {
        return Err("max_clients must be positive");
      }
      var limiter := new RateLimiter(limits);
      return Ok(limiter);
    }

    static method PruneWindow(window: seq<real>, now: real) returns (w: seq<real>)
      ensures w == Prune(window, now)
    {
      w := window;
      while w != [] && now - w[0] > WINDOW
        invariant Prune(w, now) == Prune(window, now)
        decreases |w|
      {
        w := w[1..];
      }
    }

    method ReclaimExpiredClients(now: real)
      requires Valid()
      modifies this
      ensures Valid() && Snapshot() == Reclaim(old(Snapshot()), now)
    {
      while order != []
        invariant Valid() && Reclaim(Snapshot(), now) == Reclaim(old(Snapshot()), now)
        decreases |order|
      {
        var client := order[0];
        assert client in windows;
        var window := PruneWindow(windows[client], now);
        if window != [] {
          windows := windows[client := window];
          break;
        }
        DropFirstWellFormed(Snapshot());
        order, windows := order[1..], windows - {client};
      }
    }

    method Check(client: Client, now: real) returns (ok: bool)
      requires Valid()
      modifies this
      ensures Valid()
      ensures (Snapshot(), ok) == CheckStep(limits, old(Snapshot()), client, now)
    {
      hide Reclaim, Without, Distinct, Admit, Askable;
      CheckWellFormed(limits, Snapshot(), client, now);
      CheckAskable(limits, Snapshot(), client, now);
      if client !in windows {
        ReclaimExpiredClients(now);
        if |order| >= limits.maxClients {
          return false;
        }
        order, windows := order + [client], windows[client := []];
      } else {
        order := Without(order, client) + [client];
      }
      ok := AdmitIfRoom(client, now);
    }

    /** The tail of `_check_locked`. */
    method AdmitIfRoom(client: Client, now: real) returns (ok: bool)
      requires client in windows
      modifies this`windows
      ensures (Snapshot(), ok) == Admit(limits, old(Snapshot()), client, now)
    {
      var window := PruneWindow(windows[client], now);
      windows := windows[client := window];
      if |window| >= limits.perMinute {
        return false;
      }
      windows := windows[client := window + [now]];
      assert windows == old(windows)[client := window + [now]];
      return true;
    }

    method RetryAfter(client: Client, now: real) returns (seconds: int)
      requires Valid()
      modifies this`windows
      ensures Valid()
      ensures (Snapshot(), seconds) == RetryStep(limits, old(Snapshot()), client, now)
    {
      if client !in windows || windows[client] == [] {
        return 1;
      }
      var window := PruneWindow(windows[client], now);
      windows := windows[client := window];
      if |window| < limits.perMinute {
        return 1;
      }
      return Max(1, Ceil(window[0] + WINDOW - now));
    }
  }
}
