/** What the adventure's comments promise and its code does not: for each, exactly when the
    promise holds, and a world in which it fails. */
module AdventureFindings {
  import opened Wrappers
  import opened AdventureMap
  import opened KnowledgeLock
  import opened Adventure
  import opened AdventureRuns
  import opened AdventureTheorems

  // --- some wakings --------------------------------------------------------

  /** Draws that are all different and all land on open floor are all taken. */
  lemma {:induction false} CarveTakes(m: Grid, code: int, draws: seq<Spot>)
    requires code != 0
    requires forall i :: 0 <= i < |draws| ==> At(m, draws[i].x, draws[i].y) == 0
    requires forall i, j :: 0 <= i < j < |draws| ==> draws[i] != draws[j]
    ensures Carve(m, code, |draws|, draws).1 == 0
    ensures forall x, y ::
              At(Carve(m, code, |draws|, draws).0, x, y) == if Cell(x, y) in draws then code else At(m, x, y)
    decreases |draws|
  {
    if draws == [] {
    } else {
      var d, rest := draws[0], draws[1..];
      assert draws == [d] + rest;
      CarveTakes(Put(m, d.x, d.y, code), code, rest);
    }
  }

  /** n spots side by side. */
  function InARow(x: int, y: int, n: nat): (r: seq<Spot>)
    requires 2 <= x && x + n <= GW - 2 && 2 <= y < GH - 2
    ensures |r| == n && forall i :: 0 <= i < n ==> r[i] == Cell(x + i, y)
  {
    seq(n, i requires 0 <= i < n => Cell(x + i, y))
  }

  /** Fourteen tufts, three of them where the tablet, the shrine and the stone will stand. */
  function Buried(): seq<Spot> { [Cell(3, 3), Cell(6, 6), Cell(6, 2), Cell(3, 4)] + InARow(8, 3, 10) }

  /** Fourteen tufts, one of them under the first swing. */
  function WithinReach(): seq<Spot> { [Cell(2, 4), Cell(3, 4), Cell(3, 5), Cell(3, 6)] + InARow(8, 3, 10) }

  lemma FourteenSpots()
    ensures |Buried()| == |WithinReach()| == 14 && Scattered(Buried()) && Scattered(WithinReach())
    ensures Cell(2, 4) in WithinReach() && Cell(2, 4) !in Buried()
    ensures Cell(3, 3) in Buried() && Cell(6, 6) in Buried() && Cell(6, 2) in Buried() && Cell(3, 4) in Buried()
  {
    hide InARow;
    assert Buried()[0] == Cell(3, 3) && Buried()[1] == Cell(6, 6) && Buried()[2] == Cell(6, 2) && Buried()[3] == Cell(3, 4);
    assert WithinReach()[0] == Cell(2, 4);
  }

  /** A waking on those draws, with one roamer in each dungeon room. */
  function WakingOn(forest: seq<Spot>): Waking {
    Waking([0, 1, 2], Draws(forest, 4, 2, InARow(2, 3, 10), InARow(2, 2, 6)), [Cell(10, 5)], [Cell(5, 6)])
  }

  ghost predicate Scattered(draws: seq<Spot>) {
    forall i, j :: 0 <= i < j < |draws| ==> draws[i] != draws[j]
  }

  lemma CaveOf(forest: seq<Spot>)
    ensures
      var m := Cave(WakingOn(forest).d);
      At(m, 10, 5) == 0 && At(m, 9, 5) == 0
  {
    hide Put, Carve, Empty, At, InARow;
    CarveTakes(Empty(), WALL, InARow(2, 3, 10));
  }

  lemma AltarOf(forest: seq<Spot>)
    ensures
      var m := Altar(WakingOn(forest).d);
      && At(m, 5, 6) == 0 && At(m, 9, 4) == 0 && At(m, 10, 4) == CHEST
      && At(m, 17, 3) == 0 && At(m, 18, 3) == 0 && At(m, 19, 3) == WALL
  {
    hide Put, Carve, Empty, Arena, At, InARow;
    CarveTakes(Empty(), WALL, InARow(2, 2, 6));
  }

  lemma WakesOn(forest: seq<Spot>)
    requires |forest| == 14 && Scattered(forest)
    ensures CanWake(WakingOn(forest))
    ensures forall x, y :: At(Carve(Empty(), GRASS, 14, forest).0, x, y) == if Cell(x, y) in forest then GRASS else At(Empty(), x, y)
  {
    hide Carve, Cave, Altar, Empty, At, InARow;
    CarveTakes(Empty(), GRASS, forest);
    CaveOf(forest);
    AltarOf(forest);
    assert multiset([0, 1, 2]) == multiset{0, 1, 2};
  }

  // --- buried tufts --------------------------------------------------------

  /** A waking that buries three tufts keeps eleven, and with the worst luck, however it is
      played, pays four gems at most: not the shrine's three and the door's two. */
  lemma BuriedTuftsFallShort()
    ensures CanWake(WakingOn(Buried())) && Played(WakingOn(Buried()), []).led.tufts == 11
    ensures forall ops :: NeverLucky(ops) ==> Played(WakingOn(Buried()), ops).led.paid <= 4
  {
    hide Buried, WakingOn, Played, CanWake, NeverLucky, Grass, Forest, Carve, At;
    FourteenSpots();
    WakesOn(Buried());
    var k := WakingOn(Buried());
    BuriedTufts();
    WokenTufts(k);
    forall ops | NeverLucky(ops)
      ensures Played(k, ops).led.paid <= 4
    {
      FloorOfTufts(k, ops);
    }
  }

  lemma BuriedTufts()
    ensures |Grass(Forest(WakingOn(Buried()).d))| == 11
  {
    hide Carve, Empty, Forest, At, Buried, Pond, Cave, Altar, InARow;
    FourteenSpots();
    WakesOn(Buried());
    var d := WakingOn(Buried()).d;
    var carved := Grass(Carve(Empty(), GRASS, 14, Buried()).0);
    TuftsInTheForest(d);
    forall c | c in {Cell(3, 3), Cell(6, 6), Cell(6, 2), Cell(3, 4)}
      ensures c in carved
    {
      assert c == Cell(c.x, c.y) && c in Buried();
      assert At(Carve(Empty(), GRASS, 14, Buried()).0, c.x, c.y) == GRASS;
    }
    var buried := {Cell(3, 3), Cell(6, 6), Cell(6, 2)};
    assert carved * buried == buried;
  }

  lemma WokenTufts(k: Waking)
    requires CanWake(k)
    ensures Played(k, []).led.tufts == |Grass(Forest(k.d))|
  {
    hide CanWake, Forest, Cave, Altar, Swarm, At;
  }

  lemma FloorOfTufts(k: Waking, ops: seq<Op>)
    requires CanWake(k) && NeverLucky(ops)
    ensures
      var tufts := Played(k, []).led.tufts;
      Played(k, ops).led.paid <= 1 + (tufts - 1) / 3
  {
    hide Played, CanWake, NeverLucky, Grass;
    PlayedIsGood(k, ops);
    WorstLuckIsExact(k, ops);
    GemEconomy(k, ops);
  }

  // --- the first swing -----------------------------------------------------

  lemma TileCuts(w: World, tx: int, ty: int, lucky: bool)
    requires Formed(w) && InGrid(tx, ty)
    ensures StrikeTile(w, tx, ty, lucky).led.cuts == w.led.cuts + (if At(Here(w), tx, ty) == GRASS then 1 else 0)
  {
    hide Put, At;
  }

  /** A free arm cuts exactly when the tile under the blade's tip is grass. */
  lemma SwingCuts(w: World, lucky: bool)
    requires Formed(w) && w.phase == Playing && w.hero.swing <= 0
    ensures
      var h := w.hero;
      var t := TileAt(Here(w), h.x + Across(h.dir, 20.0), h.y + Down(h.dir, 20.0));
      Swing(w, lucky).led.cuts == w.led.cuts + (if t == GRASS then 1 else 0)
  {
    hide StrikeTile, Near, StrikeRoamers, Col, Row;
    var h := w.hero;
    var fx, fy := h.x + Across(h.dir, 20.0), h.y + Down(h.dir, 20.0);
    var tx, ty := Col(fx), Row(fy);
    var w1 := w.(hero := h.(swing := 10));
    if InGrid(tx, ty) {
      TileCuts(w1, tx, ty, lucky);
    }
    StrikeRoamersLeaves(if InGrid(tx, ty) then StrikeTile(w1, tx, ty, lucky) else w1, fx, fy, 0);
  }

  /** The tuft put where the hero wakes is not under its first swing: waking, it faces down at the
      next tile, and cuts something only if that one was drawn as grass. */
  lemma FirstSwing(k: Waking, lucky: bool)
    requires CanWake(k)
    ensures Played(k, [Press(lucky)]).led.cuts == if At(Carve(Empty(), GRASS, 14, k.d.forest).0, 2, 4) == GRASS then 1 else 0
  {
    hide *;
    WakesFacingDown(k);
    SwingCuts(Played(k, []), lucky);
    OnePress(k, lucky);
  }

  lemma OnePress(k: Waking, lucky: bool)
    requires CanWake(k)
    ensures Played(k, [Press(lucky)]) == Swing(Played(k, []), lucky)
  {
    hide Swing, CanWake, Wake;
    assert [Press(lucky)][..0] == [];
  }

  lemma WakesFacingDown(k: Waking)
    requires CanWake(k)
    ensures
      var w := Played(k, []);
      var t := TileAt(Here(w), w.hero.x + Across(w.hero.dir, 20.0), w.hero.y + Down(w.hero.dir, 20.0));
      && w.phase == Playing && w.hero.swing <= 0 && w.led.cuts == 0
      && (t == GRASS <==> At(Carve(Empty(), GRASS, 14, k.d.forest).0, 2, 4) == GRASS)
  {
    hide *;
    ForestOfWaking(k);
    WokenHero(k);
    TipFacingDown(Forest(k.d));
  }

  lemma TipFacingDown(m: Grid)
    ensures TileAt(m, WAKE_X + Across(2, 20.0), WAKE_Y + Down(2, 20.0)) == At(m, 2, 4)
  {
    hide At;
    assert Col(WAKE_X) == 2 && Row(WAKE_Y + 20.0) == 4;
  }

  lemma ForestOfWaking(k: Waking)
    requires CanWake(k)
    ensures At(Forest(k.d), 2, 4) == GRASS <==> At(Carve(Empty(), GRASS, 14, k.d.forest).0, 2, 4) == GRASS
  {
    ForestAt24(k.d);
    hide *;
  }

  lemma WokenHero(k: Waking)
    requires CanWake(k)
    ensures
      var w := Played(k, []);
      && w.phase == Playing && w.hero.swing == 0 && w.led.cuts == 0 && Here(w) == Forest(k.d)
      && w.hero.x == WAKE_X && w.hero.y == WAKE_Y && w.hero.dir == 2
  {
    hide CanWake, Forest, Cave, Altar, Swarm, Tufts;
  }

  lemma ForestAt24(d: Draws)
    requires Drawable(d)
    ensures At(Forest(d), 2, 4) == At(Carve(Empty(), GRASS, 14, d.forest).0, 2, 4)
    ensures At(Forest(d), 2, 4) == GRASS || At(Forest(d), 2, 4) == 0
  {
    hide Put, Carve, Empty, Pond, At;
    CarveChangesOnlySpots(Empty(), GRASS, 14, d.forest);
  }

  /** Both happen: on one waking the first swing cuts, on the other it cuts nothing. */
  lemma FirstSwingCanMiss(lucky: bool)
    ensures CanWake(WakingOn(WithinReach())) && Played(WakingOn(WithinReach()), [Press(lucky)]).led.cuts == 1
    ensures CanWake(WakingOn(Buried())) && Played(WakingOn(Buried()), [Press(lucky)]).led.cuts == 0
  {
    hide Carve, Empty, At, Played, CanWake, Buried, WithinReach;
    FourteenSpots();
    WakesOn(WithinReach());
    WakesOn(Buried());
    FirstSwing(WakingOn(WithinReach()), lucky);
    FirstSwing(WakingOn(Buried()), lucky);
    OpenFloor(2, 4);
  }

  lemma OpenFloor(x: int, y: int)
    requires 0 < x < GW - 1 && 0 < y < GH - 1
    ensures At(Empty(), x, y) == 0
  {
    hide At, Empty;
  }

  /** On one line, near is just that. */
  lemma NearAbreast(px: real, y: real, qx: real, r: real)
    requires r > 0.0
    ensures Near(px, y, qx, y, r) <==> -r < px - qx < r
  {
    var d := px - qx;
    assert (px - qx) * (px - qx) + (y - y) * (y - y) == d * d;
    if 0.0 <= d < r {
      assert d * d <= d * r < r * r;
    } else if -r < d < 0.0 {
      assert (-d) * (-d) <= (-d) * r < r * r;
    } else if d >= r {
      assert d * d >= r * r;
    } else {
      assert (-d) * (-d) >= r * r;
    }
  }

  // --- the spare key -------------------------------------------------------

  /** Which roamers a swing fells, and when it drops a key: it does, whether or not one is
      already held, exactly when it fells the cave's last ones. */
  lemma {:induction false} SwingFells(w: World, fx: real, fy: real, i: nat)
    requires Formed(w) && i <= |w.roamers[w.room]|
    ensures
      var rs := w.roamers[w.room];
      var r := StrikeRoamers(w, fx, fy, i);
      && |r.roamers| == 3 && r.room == w.room && |r.roamers[r.room]| == |rs|
      && (forall k :: 0 <= k < |rs| ==>
            r.roamers[r.room][k] == if k >= i && rs[k].alive && Near(rs[k].x, rs[k].y, fx, fy, 22.0) then rs[k].(alive := false) else rs[k])
      && (r.room == CAVE && AllDown(r.roamers[CAVE]) && !AllDown(rs) ==> r.keyDrop.Some?)
      && (!(r.room == CAVE && AllDown(r.roamers[CAVE]) && !AllDown(rs)) ==> r.keyDrop == w.keyDrop)
    decreases |w.roamers[w.room]| - i
  {
    hide Near;
    if i == |w.roamers[w.room]| {
    } else {
      var en := w.roamers[w.room][i];
      if en.alive && Near(en.x, en.y, fx, fy, 22.0) {
        var w1 := WithRoamer(w, i, en.(alive := false));
        var w2 := if w.room == CAVE && AllDown(w1.roamers[CAVE]) then w1.(keyDrop := Some((en.x, en.y))) else w1;
        SwingFells(w2, fx, fy, i + 1);
        if AllDown(w1.roamers[w.room]) {
          assert forall k :: i + 1 <= k < |w1.roamers[w.room]| ==> !w1.roamers[w.room][k].alive;
        }
      } else {
        SwingFells(w, fx, fy, i + 1);
      }
    }
  }

  lemma TileLeavesCreatures(w: World, tx: int, ty: int, lucky: bool)
    requires Formed(w) && InGrid(tx, ty)
    ensures
      var r := StrikeTile(w, tx, ty, lucky);
      && r.room == w.room && r.roamers == w.roamers && r.guard == w.guard
      && r.hero == w.hero.(gems := r.hero.gems, hp := r.hero.hp, maxhp := r.hero.maxhp)
      && (w.hero.key ==> r.keyDrop == w.keyDrop)
  {
    hide Put, At;
  }

  /** Where the tip of the blade is. */
  function TipX(w: World): real { w.hero.x + Across(w.hero.dir, 20.0) }

  function TipY(w: World): real { w.hero.y + Down(w.hero.dir, 20.0) }

  predicate ArmFree(w: World) { w.phase == Playing && w.hero.swing <= 0 }

  /** Every living roamer of the cave, and there is one, is within the blade's reach. */
  ghost predicate LastOnesInReach(w: World)
    requires Formed(w)
  {
    && w.room == CAVE && !AllDown(w.roamers[CAVE])
    && forall i :: 0 <= i < |w.roamers[CAVE]| && w.roamers[CAVE][i].alive ==>
                     Near(w.roamers[CAVE][i].x, w.roamers[CAVE][i].y, TipX(w), TipY(w), 22.0)
  }

  /** So the lock and the last roamers can each give a key: the spare the lock refuses to drop is
      dropped by the sword, exactly when one swing reaches all that still live in the cave. */
  lemma SpareKey(w: World, lucky: bool)
    requires Formed(w) && w.hero.key && w.keyDrop.None?
    ensures Swing(w, lucky).hero.key
    ensures Swing(w, lucky).keyDrop.Some? <==> ArmFree(w) && LastOnesInReach(w)
  {
    hide Near, StrikeTile, StrikeRoamers, Col, Row;
    if ArmFree(w) {
      var fx, fy := TipX(w), TipY(w);
      var w1 := w.(hero := w.hero.(swing := 10));
      if InGrid(Col(fx), Row(fy)) {
        TileLeavesCreatures(w1, Col(fx), Row(fy), lucky);
      }
      var w2 := if InGrid(Col(fx), Row(fy)) then StrikeTile(w1, Col(fx), Row(fy), lucky) else w1;
      StrikeRoamersLeaves(w2, fx, fy, 0);
      SwingFells(w2, fx, fy, 0);
      AllFelled(w.roamers[w.room], StrikeRoamers(w2, fx, fy, 0).roamers[w.room], fx, fy);
    }
  }

  lemma AllFelled(rs: seq<Roamer>, left: seq<Roamer>, fx: real, fy: real)
    requires |left| == |rs|
    requires forall k :: 0 <= k < |rs| ==>
               left[k] == if rs[k].alive && Near(rs[k].x, rs[k].y, fx, fy, 22.0) then rs[k].(alive := false) else rs[k]
    ensures AllDown(left) <==> forall k :: 0 <= k < |rs| && rs[k].alive ==> Near(rs[k].x, rs[k].y, fx, fy, 22.0)
  {
    hide Near;
    forall k | 0 <= k < |rs|
      ensures !left[k].alive <==> !rs[k].alive || Near(rs[k].x, rs[k].y, fx, fy, 22.0)
    {
    }
  }

  /** What a round wakes with, on those draws. */
  lemma Woken(forest: seq<Spot>)
    requires CanWake(WakingOn(forest))
    ensures
      var w := Played(WakingOn(forest), []);
      && Good(w) && Waiting(w) && w.room == FOREST && w.roamers[CAVE] == [Roamer(368.0, 184.0, true)]
      && w.rooms == Build(WakingOn(forest).d)
  {
    hide Good, CanWake, Forest, Cave, Altar;
    WokenIsGood(WakingOn(forest));
  }

  /** The round woken on the draws that bury three tufts, before anything happens in it. */
  function Morning(): (w: World)
    ensures Formed(w)
  {
    hide CanWake, Played, Buried, WakingOn;
    FourteenSpots();
    WakesOn(Buried());
    Played(WakingOn(Buried()), [])
  }

  lemma MorningIsGood()
    ensures Good(Morning()) && Waiting(Morning()) && Morning().roamers[CAVE] == [Roamer(368.0, 184.0, true)]
    ensures
      var m := Morning().rooms[ALTAR];
      && At(m, 9, 4) == 0 && At(m, 10, 4) == CHEST && At(m, 18, 3) == 0 && At(m, 19, 3) == WALL
  {
    hide CanWake, Played, Good, Build, Altar, Buried, WakingOn, Waiting, At;
    FourteenSpots();
    WakesOn(Buried());
    Woken(Buried());
    AltarOf(Buried());
    BuildsAltar(WakingOn(Buried()).d);
  }

  /** Nothing has happened yet. */
  ghost predicate Waiting(w: World) {
    && Formed(w) && w.order == [0, 1, 2] && w.hero == AtWaking && w.guard == Guarding
    && w.phase == Playing && w.keyDrop.None? && w.led == NothingYet(w.led.tufts)
    && |w.roamers[CAVE]| == |w.roamers[ALTAR]| == 1
  }

  /** The lock has been opened and its key picked up; the hero faces the cave's roamer. */
  function LockOpened(w: World): (r: World)
    requires Formed(w)
    ensures Formed(r)
  {
    w.(room := CAVE, hero := w.hero.(x := 338.0, y := 184.0, dir := 1, key := true),
       seal := Seal(3, true), led := w.led.(knocks := [0, 1, 2], frames := 1200))
  }

  lemma KnockedInOrder()
    ensures Knocks([0, 1, 2], [0, 1, 2]) == Seal(3, true)
  {
    assert [0, 1, 2][..2] == [0, 1] && [0, 1][..1] == [0] && [0][..0] == [];
    assert Knocks([0, 1, 2], [0]) == Seal(1, false);
    assert Knocks([0, 1, 2], [0, 1]) == Seal(2, false);
  }

  lemma LockOpenedIsGood(w: World)
    requires Good(w) && Waiting(w)
    ensures Good(LockOpened(w))
  {
    hide Sound, Grass, At, OnGround, AllDown, IsOrder, Knocks;
    KnockedInOrder();
  }

  lemma SpareKeyHappens(lucky: bool)
    ensures
      var w := LockOpened(Morning());
      Good(w) && Swing(w, lucky).hero.key && Swing(w, lucky).keyDrop.Some?
  {
    hide Morning, Good, Swing, Near;
    MorningIsGood();
    LockOpenedIsGood(Morning());
    NearAbreast(368.0, 184.0, 358.0, 22.0);
    assert LockOpened(Morning()).roamers[CAVE][0].alive;
    SpareKey(LockOpened(Morning()), lucky);
  }

  // --- the guardian and the walls ------------------------------------------

  /** The blow about to be struck reaches the guardian, and its armour is down. */
  predicate Lands(w: World) {
    && ArmFree(w) && w.room == ALTAR && w.guard.alive && w.guard.inv <= 0
    && Near(w.guard.x, w.guard.y, TipX(w), TipY(w), 30.0)
  }

  /** Where it pushes the guardian, without asking what is there. */
  function PushedX(w: World): real { w.guard.x + Across(w.hero.dir, 12.0) }

  function PushedY(w: World): real { w.guard.y + Down(w.hero.dir, 12.0) }

  predicate GuardInWall(w: World) requires Formed(w) { SolidAt(w.rooms[ALTAR], w.guard.x, w.guard.y) }

  /** The blow puts it inside something solid. */
  predicate DrivesIn(w: World)
    requires Formed(w)
  {
    Lands(w) && SolidAt(w.rooms[ALTAR], PushedX(w), PushedY(w))
  }

  lemma TileLeavesAltar(w: World, tx: int, ty: int, lucky: bool)
    requires Formed(w) && Sound(w.rooms) && InGrid(tx, ty)
    ensures StrikeTile(w, tx, ty, lucky).rooms[ALTAR] == w.rooms[ALTAR]
  {
    hide Put, At, SoundRoom;
    OnlyWhere(Here(w), w.room, tx, ty);
  }

  lemma StrikeGuardMoves(w: World, fx: real, fy: real)
    ensures
      var g := w.guard;
      var lands := w.room == ALTAR && g.alive && g.inv <= 0 && Near(g.x, g.y, fx, fy, 30.0);
      var r := StrikeGuard(w, fx, fy);
      && r == w.(guard := r.guard, led := r.led)
      && r.guard == if lands then Guardian(PushedX(w), PushedY(w), g.hp - 1, g.hp - 1 > 0, 30) else g
  {
    hide Near;
  }

  /** A swing moves the guardian by a landed blow only, and leaves the altar's map as it is. */
  lemma SwingOnGuard(w: World, lucky: bool)
    requires Formed(w) && Sound(w.rooms)
    ensures
      var r := Swing(w, lucky);
      && r.rooms[ALTAR] == w.rooms[ALTAR]
      && r.guard == if Lands(w) then Guardian(PushedX(w), PushedY(w), w.guard.hp - 1, w.guard.hp - 1 > 0, 30) else w.guard
  {
    hide Near, StrikeTile, StrikeRoamers, StrikeGuard, Col, Row, Sound;
    if ArmFree(w) {
      var fx, fy := TipX(w), TipY(w);
      var w1 := w.(hero := w.hero.(swing := 10));
      if InGrid(Col(fx), Row(fy)) {
        TileLeavesCreatures(w1, Col(fx), Row(fy), lucky);
        TileLeavesAltar(w1, Col(fx), Row(fy), lucky);
      }
      var w2 := if InGrid(Col(fx), Row(fy)) then StrikeTile(w1, Col(fx), Row(fy), lucky) else w1;
      StrikeRoamersLeaves(w2, fx, fy, 0);
      StrikeGuardMoves(StrikeRoamers(w2, fx, fy, 0), fx, fy);
    }
  }

  /** The one mover that asks no wall: after a landed blow the guardian stands in something solid
      exactly when the point it was pushed to is solid, whichever way the hero faced. */
  lemma BladeDrivesGuardIntoWall(w: World, lucky: bool)
    requires Formed(w) && Sound(w.rooms)
    ensures GuardInWall(Swing(w, lucky)) <==>
            if Lands(w) then SolidAt(w.rooms[ALTAR], PushedX(w), PushedY(w)) else GuardInWall(w)
  {
    hide Swing, SolidAt, Lands, Sound;
    SwingOnGuard(w, lucky);
  }

  lemma {:induction false} MoveRoamersLeave(w: World, turns: seq<Turn>, i: nat)
    requires Formed(w) && i <= |w.roamers[w.room]|
    ensures MoveRoamers(w, turns, i).rooms == w.rooms && MoveRoamers(w, turns, i).guard == w.guard
    decreases |w.roamers[w.room]| - i
  {
    hide Near, Tread, Slide;
    if i == |w.roamers[w.room]| {
    } else {
      MoveRoamersLeave(MoveRoamer(w, TurnAt(turns, i), i), turns, i + 1);
    }
  }

  lemma MoveHeroLeavesAltar(w: World, keys: Keys)
    requires Formed(w) && Sound(w.rooms)
    ensures MoveHero(w, keys).rooms[ALTAR] == w.rooms[ALTAR]
  {
    hide Put, At, SoundRoom, Slide, Near, Col, Row;
    var h := Walk(w, keys).hero;
    if InGrid(Col(h.x), Row(h.y)) {
      OnlyWhere(Here(w), w.room, Col(h.x), Row(h.y));
    } else {
      OutsideIsWall(Here(w), Col(h.x), Row(h.y));
    }
  }

  lemma OutsideIsWall(m: Grid, x: int, y: int)
    requires !InGrid(x, y)
    ensures At(m, x, y) == WALL
  {
  }

  lemma MoveGuardStaysOut(w: World, turn: Turn)
    requires Formed(w) && !GuardInWall(w)
    ensures !GuardInWall(MoveGuard(w, turn))
  {
    hide SolidAt, Near, Slide;
    if w.room == ALTAR && w.guard.alive {
      TreadKeepsToGround(Here(w), w.guard.x, w.guard.y, turn.vx, turn.vy);
    }
  }

  /** The blow a frame strikes is the queued one, when the arm comes free. */
  function ArmLowered(w: World): World { w.(hero := w.hero.(swing := 0, queued := false)) }

  ghost predicate DrivenBy(w: World, op: Op)
    requires Formed(w)
  {
    match op
    case Press(_) => DrivesIn(w)
    case Advance(_) => w.phase == Playing && w.hero.swing == 1 && w.hero.queued && DrivesIn(ArmLowered(w))
  }

  lemma FrameKeepsGuardOut(w: World, input: Input)
    requires Formed(w) && Good(w) && !GuardInWall(w) && !DrivenBy(w, Advance(input))
    ensures !GuardInWall(Frame(w, input))
  {
    hide Good, Swing, MoveHero, MoveRoamers, MoveGuard, SolidAt, Lands, Sound;
    if w.phase == Playing {
      GoodIsSound(w);
      SwingOnGuard(ArmLowered(w), input.lucky);
      LowerArmKeeps(w, input.lucky);
      var w1 := LowerArm(w, input.lucky);
      GoodIsSound(w1);
      var w2 := LoseMercy(w1);
      MoveHeroLeavesAltar(w2, input.keys);
      MoveHeroLeaves(w2, input.keys);
      var w3 := MoveHero(w2, input.keys);
      MoveRoamersLeave(w3, input.roamers, 0);
      MoveGuardStaysOut(MoveRoamers(w3, input.roamers, 0), input.guard);
    }
  }

  /** No landed blow of the round drives the guardian in. */
  ghost predicate NeverDriven(w: World, ops: seq<Op>)
    requires Formed(w)
  {
    ops == [] ||
    (NeverDriven(w, ops[..|ops| - 1]) && !DrivenBy(Round(w, ops[..|ops| - 1]), ops[|ops| - 1]))
  }

  lemma {:induction false} RoundKeepsGuardOut(w: World, ops: seq<Op>)
    requires Formed(w) && Good(w) && !GuardInWall(w) && NeverDriven(w, ops)
    ensures !GuardInWall(Round(w, ops))
  {
    hide Good, Swing, Frame, GuardInWall, Lands, SolidAt, Sound;
    if ops == [] {
    } else {
      var before := ops[..|ops| - 1];
      RoundKeepsGuardOut(w, before);
      RoundKeeps(w, before);
      GoodIsSound(Round(w, before));
      match ops[|ops| - 1]
      case Press(lucky) => BladeDrivesGuardIntoWall(Round(w, before), lucky);
      case Advance(input) => FrameKeepsGuardOut(Round(w, before), input);
    }
  }

  /** The guardian keeps to open floor through every round in which no blow drives it off. */
  lemma GuardianKeepsToTheFloor(k: Waking, ops: seq<Op>)
    requires CanWake(k) && NeverDriven(Played(k, []), ops)
    ensures !GuardInWall(Played(k, ops))
  {
    hide CanWake, Good, GuardInWall, NeverDriven, Wake;
    WokenIsGood(k);
    WakesInArena(k);
    RoundKeepsGuardOut(Played(k, []), ops);
  }

  lemma WakesInArena(k: Waking)
    requires CanWake(k)
    ensures !GuardInWall(Played(k, []))
  {
    hide At, Altar, CanWake, Played;
    WokenAltar(k);
    ArenaIsOpen(k.d);
  }

  lemma WokenAltar(k: Waking)
    requires CanWake(k)
    ensures Played(k, []).rooms[ALTAR] == Altar(k.d) && Played(k, []).guard == Guarding
  {
    hide CanWake, Drawn, Forest, Cave, Altar, Swarm, Tufts;
  }

  lemma ArenaIsOpen(d: Draws)
    ensures At(Altar(d), 15, 4) == 0
  {
    hide Put, Carve, Empty, At;
  }

  /** The guardian has been drawn to the altar's right-hand wall; the hero faces it. */
  function Cornered(w: World): (r: World)
    requires Formed(w)
    ensures Formed(r)
  {
    w.(room := ALTAR, hero := w.hero.(x := 613.0, y := 128.0, dir := 1), guard := w.guard.(x := 643.0, y := 128.0),
       led := w.led.(frames := 1500))
  }

  lemma CorneredIsGood(w: World)
    requires Good(w) && Waiting(w)
    ensures Good(Cornered(w))
  {
    hide Sound, Grass, At, OnGround, AllDown, IsOrder, Knocks;
  }

  /** A world in order, its guardian on open floor, whose next blow puts it in a wall. */
  ghost predicate AboutToDrive(w: World, lucky: bool)
    requires Formed(w)
  {
    Good(w) && !GuardInWall(w) && GuardInWall(Swing(w, lucky))
  }

  lemma DrivenIntoTheWall(lucky: bool)
    ensures AboutToDrive(Cornered(Morning()), lucky)
  {
    hide Morning, Good, Swing, GuardInWall, Cornered, At;
    MorningIsGood();
    CorneredIsDriven(Morning(), lucky);
  }

  lemma CorneredIsDriven(w: World, lucky: bool)
    requires Good(w) && Waiting(w) && At(w.rooms[ALTAR], 18, 3) == 0 && At(w.rooms[ALTAR], 19, 3) == WALL
    ensures AboutToDrive(Cornered(w), lucky)
  {
    hide Good, Swing, At, Near, Sound;
    CorneredIsGood(w);
    GoodIsSound(Cornered(w));
    NearAbreast(643.0, 128.0, 633.0, 30.0);
    assert Col(643.0) == 18 && Col(655.0) == 19 && Row(128.0) == 3;
    BladeDrivesGuardIntoWall(Cornered(w), lucky);
  }

  lemma BuildsAltar(d: Draws)
    ensures Build(d)[ALTAR] == Altar(d)
  {
  }

  // --- the win taken back --------------------------------------------------

  /** A living roamer, the i-th or a later one, is on the hero. */
  ghost predicate Beset(w: World, i: nat)
    requires Formed(w)
  {
    exists j :: i <= j < |w.roamers[w.room]| && w.roamers[w.room][j].alive
                && Near(w.hero.x, w.hero.y, w.roamers[w.room][j].x, w.roamers[w.room][j].y, 16.0)
  }

  /** While mercy lasts the roamers settle nothing. */
  lemma {:induction false} MercyHolds(w: World, turns: seq<Turn>, i: nat)
    requires Formed(w) && i <= |w.roamers[w.room]| && w.hero.inv > 0
    ensures MoveRoamers(w, turns, i).phase == w.phase
    decreases |w.roamers[w.room]| - i
  {
    hide Near, Tread, Slide;
    if i == |w.roamers[w.room]| {
    } else {
      MercyHolds(MoveRoamer(w, TurnAt(turns, i), i), turns, i + 1);
    }
  }

  lemma {:induction false} RoamersAfterWin(w: World, turns: seq<Turn>, i: nat)
    requires Formed(w) && i <= |w.roamers[w.room]| && w.phase == Won && w.hero.hp >= 1
    ensures
      var r := MoveRoamers(w, turns, i);
      && (r.phase == Lost <==> w.hero.inv <= 0 && w.hero.hp == 1 && !w.hero.charm && Beset(w, i))
      && (r.phase != Lost ==> r.phase == Won)
    decreases |w.roamers[w.room]| - i
  {
    hide Near, Tread, Slide;
    if i == |w.roamers[w.room]| {
    } else {
      var w1 := MoveRoamer(w, TurnAt(turns, i), i);
      var en := w.roamers[w.room][i];
      if w.hero.inv > 0 {
        MercyHolds(w, turns, i);
      } else if en.alive && Near(w.hero.x, w.hero.y, en.x, en.y, 16.0) {
        MercyHolds(w1, turns, i + 1);
      } else {
        RoamersAfterWin(w1, turns, i + 1);
        assert w1.hero == w.hero;
        assert forall j :: i < j < |w.roamers[w.room]| ==> w1.roamers[w1.room][j] == w.roamers[w.room][j];
        assert Beset(w, i) <==> Beset(w1, i + 1);
      }
    }
  }

  /** The world a frame's creatures find: the arm lowered, mercy worn, the hero moved. */
  function BeforeCreatures(w: World, input: Input): (r: World)
    requires Formed(w)
    ensures Formed(r)
  {
    MoveHero(LoseMercy(LowerArm(w, input.lucky)), input.keys)
  }

  /** A win inside a frame, by the queued blow, is taken back before the frame ends exactly when
      the creatures, who still move, take the last heart: mercy has run out, one heart is left
      and no charm, and a living roamer is on the hero. */
  lemma WinTakenBack(w: World, input: Input)
    requires Formed(w) && Good(w) && w.phase == Playing && LowerArm(w, input.lucky).phase == Won
    ensures
      var v := BeforeCreatures(w, input);
      && (Frame(w, input).phase == Lost <==> v.hero.inv <= 0 && v.hero.hp == 1 && !v.hero.charm && Beset(v, 0))
      && (Frame(w, input).phase != Lost ==> Frame(w, input).phase == Won)
  {
    hide Good, LowerArm, MoveHero, MoveRoamers, LoseMercy, Beset;
    LowerArmKeeps(w, input.lucky);
    var w1 := LowerArm(w, input.lucky);
    LoseMercyKeeps(w1);
    LosingMercyLeavesPhase(w1);
    MoveHeroKeeps(LoseMercy(w1), input.keys);
    var v := BeforeCreatures(w, input);
    WonIsGuardless(v);
    RoamersAfterWin(v, input.roamers, 0);
    MoveRoamersLeave(v, input.roamers, 0);
  }

  lemma LosingMercyLeavesPhase(w: World)
    ensures LoseMercy(w).phase == w.phase
  {
  }

  lemma WonIsGuardless(w: World)
    requires Good(w) && w.phase == Won
    ensures Formed(w) && !w.guard.alive && w.hero.hp >= 1
  {
    hide Sound, Grass, At, OnGround, AllDown, IsOrder, Knocks, Armoured;
  }

  /** The guardian lies felled, the key is held, two hearts are gone; the last blow is queued at
      the chest, and a roamer is behind. */
  function AtTheChest(w: World): (r: World)
    requires Formed(w)
    ensures Formed(r)
  {
    w.(room := ALTAR, hero := w.hero.(x := 344.0, y := 160.0, dir := 1, hp := 1, key := true, swing := 1, queued := true),
       roamers := [[], w.roamers[CAVE], [Roamer(334.0, 160.0, true)]],
       guard := w.guard.(hp := 0, alive := false), seal := Seal(3, true),
       led := w.led.(knocks := [0, 1, 2], frames := 1000, blows := [100, 200, 300, 400, 500, 600], hurts := [700, 800]))
  }

  lemma AtTheChestIsGood(w: World)
    requires Good(w) && Waiting(w) && At(w.rooms[ALTAR], 9, 4) == 0
    ensures Good(AtTheChest(w))
  {
    hide Sound, Grass, At, AllDown, IsOrder, Knocks;
    KnockedInOrder();
    assert Col(334.0) == 9 && Row(160.0) == 4;
    assert OnGround(w.rooms[ALTAR], AtTheChest(w).roamers[ALTAR]);
    assert OnGround(w.rooms[CAVE], w.roamers[CAVE]);
  }

  const HandsOff := Input(Keys(false, false, false, false), false, [], Still)

  lemma WinTakenBackHappens()
    ensures
      var w := AtTheChest(Morning());
      && Good(w) && w.phase == Playing && LowerArm(w, false).phase == Won && Frame(w, HandsOff).phase == Lost
  {
    hide Morning, Good, LowerArm, Frame, At, AtTheChest, BeforeCreatures, Beset, Waiting;
    MorningIsGood();
    AtTheChestIsGood(Morning());
    OpensTheChest(Morning());
    WinTakenBack(AtTheChest(Morning()), HandsOff);
  }

  lemma OpensTheChest(w: World)
    requires Waiting(w) && At(w.rooms[ALTAR], 9, 4) == 0 && At(w.rooms[ALTAR], 10, 4) == CHEST
    ensures AtTheChest(w).phase == Playing && LowerArm(AtTheChest(w), false).phase == Won
    ensures
      var v := BeforeCreatures(AtTheChest(w), HandsOff);
      v.hero.inv <= 0 && v.hero.hp == 1 && !v.hero.charm && Beset(v, 0)
  {
    hide At, Near, Swing, Clear, MoveHero;
    var w0 := ArmLowered(AtTheChest(w));
    ChestOpened(w0);
    assert Col(344.0) == 9 && Row(160.0) == 4;
    var w1 := Swing(w0, false);
    assert LowerArm(AtTheChest(w), false) == w1;
    StandsStill(LoseMercy(w1));
    NearAbreast(344.0, 160.0, 334.0, 16.0);
    var v := BeforeCreatures(AtTheChest(w), HandsOff);
    assert v.hero.x == 344.0 && v.hero.y == 160.0 && v.roamers[v.room][0] == Roamer(334.0, 160.0, true);
  }

  lemma ChestOpened(w: World)
    requires Formed(w) && ArmFree(w) && w.room == ALTAR && w.hero.key && !w.guard.alive
    requires At(w.rooms[ALTAR], 10, 4) == CHEST && TipX(w) == 364.0 && TipY(w) == 160.0
    requires w.roamers[ALTAR] == [Roamer(334.0, 160.0, true)]
    ensures Swing(w, false) == w.(hero := w.hero.(swing := 10), phase := Won)
  {
    hide At, Near;
    assert Col(364.0) == 10 && Row(160.0) == 4;
    NearAbreast(334.0, 160.0, 364.0, 22.0);
    var w1 := w.(hero := w.hero.(swing := 10));
    var w2 := w1.(phase := Won);
    assert StrikeTile(w1, 10, 4, false) == w2;
    hide StrikeTile;
    assert StrikeRoamers(w2, 364.0, 160.0, 1) == w2;
    assert StrikeRoamers(w2, 364.0, 160.0, 0) == w2;
  }

  /** With no key down and nothing underfoot the hero does not move. */
  lemma StandsStill(w: World)
    requires Formed(w) && At(Here(w), Col(w.hero.x), Row(w.hero.y)) == 0 && w.keyDrop.None?
    ensures MoveHero(w, HandsOff.keys) == w
  {
    hide At, Col, Row, Clear;
  }
}
