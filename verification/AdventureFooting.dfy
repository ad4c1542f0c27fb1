/** Where the hero can come to stand, over every round whatever was drawn, and what the walled
    alcove of the cave is worth. */
module AdventureFooting {
  import opened Wrappers
  import opened AdventureMap
  import opened KnowledgeLock
  import opened Adventure
  import opened AdventureRuns
  import opened AdventureTheorems

  // --- clear, or not yet moved ---------------------------------------------

  ghost predicate StillWaking(w: World) { w.room == FOREST && w.hero.x == WAKE_X && w.hero.y == WAKE_Y }

  /** The hero is off everything solid, or has not left the spot it woke on. */
  ghost predicate Footed(w: World)
    requires Formed(w)
  {
    Clear(Here(w), w.hero.x, w.hero.y) || StillWaking(w)
  }

  lemma SlideLandsOrStays(m: Grid, x: real, y: real, dx: real, dy: real)
    ensures
      var (x', y') := Slide(m, x, y, dx, dy);
      Clear(m, x', y') || (x' == x && y' == y)
  {
    hide Clear;
  }

  // --- the alcove ----------------------------------------------------------

  /** The wall around the charm, but for the paid door. */
  ghost predicate Walled(m: Grid) {
    && At(m, 16, 1) == WALL && At(m, 17, 1) == WALL && At(m, 16, 3) == WALL && At(m, 17, 3) == WALL
    && At(m, 18, 2) == WALL
  }

  ghost predicate InAlcove(x: real, y: real) { Col(x) == 17 && Row(y) == 2 }

  /** While the door is shut the charm is there and the hero is not. */
  ghost predicate Sealed(w: World)
    requires Formed(w)
  {
    && Walled(w.rooms[CAVE])
    && (At(w.rooms[CAVE], 16, 2) == PAID_DOOR ==>
          At(w.rooms[CAVE], 17, 2) == CHARM && !(w.room == CAVE && InAlcove(w.hero.x, w.hero.y)))
  }

  predicate UnderATile(d: real) { -TILE < d < TILE }

  lemma StepAcross(m: Grid, x: real, y: real, dx: real)
    requires Walled(m) && At(m, 16, 2) == PAID_DOOR && !SolidAt(m, x, y) && !InAlcove(x, y) && UnderATile(dx)
    ensures !InAlcove(x + dx, y)
  {
    if Row(y) == 2 {
      assert Col(x) != 16 && Col(x) != 18;
    }
  }

  lemma StepDown(m: Grid, x: real, y: real, dy: real)
    requires Walled(m) && !SolidAt(m, x, y) && !InAlcove(x, y) && UnderATile(dy)
    ensures !InAlcove(x, y + dy)
  {
    if Col(x) == 17 {
      assert Row(y) != 1 && Row(y) != 3;
    }
  }

  /** Nothing that moves a hero by less than a tile moves it past the wall. */
  lemma SlideKeepsOut(m: Grid, x: real, y: real, dx: real, dy: real)
    requires Walled(m) && At(m, 16, 2) == PAID_DOOR && Clear(m, x, y) && !InAlcove(x, y)
    requires UnderATile(dx) && UnderATile(dy)
    ensures var (x', y') := Slide(m, x, y, dx, dy); !InAlcove(x', y')
  {
    hide Clear, InAlcove, Walled, SolidAt, At;
    FootprintIsClear(m, x, y, x, y);
    StepAcross(m, x, y, dx);
    var x' := if Clear(m, x + dx, y) then x + dx else x;
    FootprintIsClear(m, x', y, x', y);
    StepDown(m, x', y, dy);
  }

  /** What every transition keeps, the seal only where shoves are gentle. */
  ghost predicate Kept(w: World, gentle: bool) { Formed(w) && Sound(w.rooms) && Footed(w) && (gentle ==> Sealed(w)) }

  lemma ShoveKeeps(w: World, dx: real, dy: real, gentle: bool)
    requires Kept(w, gentle) && (gentle ==> UnderATile(dx) && UnderATile(dy))
    ensures Kept(Shove(w, dx, dy), gentle)
  {
    hide Clear, InAlcove, Walled, At, Sound;
    SlideLandsOrStays(Here(w), w.hero.x, w.hero.y, dx, dy);
    if gentle && w.room == CAVE && At(w.rooms[CAVE], 16, 2) == PAID_DOOR {
      SlideKeepsOut(Here(w), w.hero.x, w.hero.y, dx, dy);
    }
  }

  // --- the swing -----------------------------------------------------------

  lemma TakeTileSeals(w: World, tx: int, ty: int, gentle: bool)
    requires Kept(w, gentle) && InGrid(tx, ty)
    requires At(Here(w), tx, ty) == GRASS || At(Here(w), tx, ty) == PAID_DOOR
    ensures Footed(TakeTile(w, tx, ty)) && (gentle ==> Sealed(TakeTile(w, tx, ty)))
  {
    hide Clear, InAlcove, Put, At, SoundRoom;
    OnlyWhere(Here(w), w.room, tx, ty);
    if Clear(Here(w), w.hero.x, w.hero.y) {
      RemovingKeepsClear(Here(w), tx, ty, w.hero.x, w.hero.y);
    }
  }

  lemma StrikeTileSeals(w: World, tx: int, ty: int, lucky: bool, gentle: bool)
    requires Kept(w, gentle) && InGrid(tx, ty)
    ensures Footed(StrikeTile(w, tx, ty, lucky)) && (gentle ==> Sealed(StrikeTile(w, tx, ty, lucky)))
  {
    hide Clear, InAlcove, Walled, At, Sound, TakeTile;
    if At(Here(w), tx, ty) == GRASS || At(Here(w), tx, ty) == PAID_DOOR {
      TakeTileSeals(w, tx, ty, gentle);
      TakeTileStays(w, tx, ty);
    }
  }

  lemma TakeTileStays(w: World, tx: int, ty: int)
    requires Formed(w) && InGrid(tx, ty)
    ensures TakeTile(w, tx, ty) == w.(rooms := TakeTile(w, tx, ty).rooms)
  {
  }

  lemma SwingSeals(w: World, lucky: bool, gentle: bool)
    requires Kept(w, gentle)
    ensures Footed(Swing(w, lucky)) && (gentle ==> Sealed(Swing(w, lucky)))
  {
    hide Clear, InAlcove, Walled, At, Sound, StrikeTile, StrikeRoamers, Near, Col, Row;
    if w.phase == Playing && w.hero.swing <= 0 {
      var h := w.hero;
      var fx, fy := h.x + Across(h.dir, 20.0), h.y + Down(h.dir, 20.0);
      var tx, ty := Col(fx), Row(fy);
      var w1 := w.(hero := h.(swing := 10));
      if InGrid(tx, ty) {
        StrikeTileSeals(w1, tx, ty, lucky, gentle);
      }
      StrikeRoamersLeaves(if InGrid(tx, ty) then StrikeTile(w1, tx, ty, lucky) else w1, fx, fy, 0);
    }
  }

  // --- the hero's move -----------------------------------------------------

  lemma LandingsAreOutside(y: real)
    ensures !InAlcove(ENTER_LEFT, y) && !InAlcove(ENTER_RIGHT, y)
  {
    assert Col(ENTER_LEFT) == 1 && Col(ENTER_RIGHT) == GW - 2;
  }

  /** Waking, the hero stands on nothing that takes it anywhere. */
  lemma NothingUnderfoot(w: World)
    requires Formed(w) && Sound(w.rooms) && StillWaking(w)
    ensures StandOn(w) == w
  {
    assert SoundRoom(Here(w), FOREST);
    assert Col(WAKE_X) == 2 && Row(WAKE_Y) == 4;
    hide At;
    assert At(Here(w), 2, 4) != DOOR_ON && At(Here(w), 2, 4) != CHARM;
  }

  lemma StandOnSeals(w: World, gentle: bool)
    requires Kept(w, gentle)
    ensures Footed(StandOn(w)) && (gentle ==> Sealed(StandOn(w)))
  {
    if StillWaking(w) {
      NothingUnderfoot(w);
    } else {
      hide Put, Sound, Clear, Walled;
      StandOnStands(w);
      LandingsAreOutside(w.hero.y);
      if TileAt(Here(w), w.hero.x, w.hero.y) == CHARM {
        TakesTheCharm(w, gentle);
      }
    }
  }

  lemma TakesTheCharm(w: World, gentle: bool)
    requires Kept(w, gentle) && TileAt(Here(w), w.hero.x, w.hero.y) == CHARM
    ensures gentle ==> Sealed(StandOn(w))
  {
    hide Put, At, Clear, Col, Row, SoundRoom;
    TileInGrid(Here(w), Col(w.hero.x), Row(w.hero.y));
    OnlyWhere(Here(w), w.room, Col(w.hero.x), Row(w.hero.y));
  }

  lemma MoveHeroSeals(w: World, keys: Keys, gentle: bool)
    requires Kept(w, gentle)
    ensures Footed(MoveHero(w, keys)) && (gentle ==> Sealed(MoveHero(w, keys)))
  {
    hide Clear, InAlcove, Walled, At, Sound, Shove, StandOn, Near;
    var vx := if keys.right then STRIDE else if keys.left then -STRIDE else 0.0;
    var vy := if keys.down then STRIDE else if keys.up then -STRIDE else 0.0;
    var dir := if keys.down then 2 else if keys.up then 0 else if keys.right then 1 else if keys.left then 3 else w.hero.dir;
    ShoveKeeps(w.(hero := w.hero.(dir := dir)), vx, vy, gentle);
    StandOnSeals(Walk(w, keys), gentle);
  }

  // --- the creatures -------------------------------------------------------

  /** The page shoves by 12 and by 20; less than a tile is enough. */
  predicate Gentle(turn: Turn) { UnderATile(turn.sx) && UnderATile(turn.sy) }

  lemma TakeBlowKeepsFooting(w: World, sx: real, sy: real, gentle: bool)
    requires Kept(w, gentle) && (gentle ==> UnderATile(sx) && UnderATile(sy))
    ensures Kept(TakeBlow(w, sx, sy), gentle)
  {
    hide Clear, InAlcove, Walled, At, Sound, Shove;
    var hurt := w.(hero := w.hero.(hp := w.hero.hp - 1, inv := 60), led := w.led.(hurts := w.led.hurts + [w.led.frames]));
    ShoveKeeps(hurt, sx, sy, gentle);
  }

  lemma MoveRoamerKeepsFooting(w: World, turn: Turn, i: nat, gentle: bool)
    requires Kept(w, gentle) && (gentle ==> Gentle(turn)) && i < |w.roamers[w.room]|
    ensures Kept(MoveRoamer(w, turn, i), gentle)
  {
    hide Clear, InAlcove, Walled, At, Sound, TakeBlow, Near, Tread;
    var en := w.roamers[w.room][i];
    var (x, y) := Tread(Here(w), en.x, en.y, turn.vx, turn.vy);
    TakeBlowKeepsFooting(WithRoamer(w, i, en.(x := x, y := y)), turn.sx, turn.sy, gentle);
  }

  lemma {:induction false} MoveRoamersKeepFooting(w: World, turns: seq<Turn>, i: nat, gentle: bool)
    requires Kept(w, gentle) && i <= |w.roamers[w.room]| && (gentle ==> forall j :: 0 <= j < |turns| ==> Gentle(turns[j]))
    ensures Kept(MoveRoamers(w, turns, i), gentle)
    decreases |w.roamers[w.room]| - i
  {
    hide Footed, Sealed, Sound, MoveRoamer;
    if i == |w.roamers[w.room]| {
    } else {
      assert gentle ==> Gentle(TurnAt(turns, i));
      MoveRoamerKeepsFooting(w, TurnAt(turns, i), i, gentle);
      MoveRoamersKeepFooting(MoveRoamer(w, TurnAt(turns, i), i), turns, i + 1, gentle);
    }
  }

  /** The guardian strikes in the altar alone, where there is no alcove: it may shove at will. */
  lemma MoveGuardKeepsFooting(w: World, turn: Turn, gentle: bool)
    requires Kept(w, gentle)
    ensures Kept(MoveGuard(w, turn), gentle)
  {
    hide Clear, InAlcove, Walled, At, Sound, Near, Tread, Slide;
    SlideLandsOrStays(Here(w), w.hero.x, w.hero.y, turn.sx, turn.sy);
  }

  // --- a round -------------------------------------------------------------

  ghost predicate GentleOps(ops: seq<Op>) {
    forall i :: 0 <= i < |ops| && ops[i].Advance? ==>
                  forall j :: 0 <= j < |ops[i].input.roamers| ==> Gentle(ops[i].input.roamers[j])
  }

  lemma GoodAndKept(w: World, gentle: bool)
    requires Formed(w) && Good(w) && Footed(w) && (gentle ==> Sealed(w))
    ensures Kept(w, gentle)
  {
  }

  lemma FrameKeepsFooting(w: World, input: Input, gentle: bool)
    requires Formed(w) && Good(w) && Kept(w, gentle) && (gentle ==> forall j :: 0 <= j < |input.roamers| ==> Gentle(input.roamers[j]))
    ensures Kept(Frame(w, input), gentle)
  {
    hide Good, Sound, Footed, Sealed, Swing, MoveHero, MoveRoamers, MoveGuard, LowerArm;
    if w.phase == Playing {
      LowerArmKeeps(w, input.lucky);
      var w1 := LowerArm(w, input.lucky);
      LowerArmKeepsFooting(w, input.lucky, gentle);
      LoseMercyKeeps(w1);
      var w2 := LoseMercy(w1);
      LoseMercyKeepsFooting(w1, gentle);
      GoodAndKept(w2, gentle);
      MoveHeroKeeps(w2, input.keys);
      var w3 := MoveHero(w2, input.keys);
      MoveHeroSeals(w2, input.keys, gentle);
      GoodAndKept(w3, gentle);
      MoveRoamersKeepFooting(w3, input.roamers, 0, gentle);
      MoveGuardKeepsFooting(MoveRoamers(w3, input.roamers, 0), input.guard, gentle);
    }
  }

  lemma LowerArmKeepsFooting(w: World, lucky: bool, gentle: bool)
    requires Kept(w, gentle)
    ensures Footed(LowerArm(w, lucky)) && (gentle ==> Sealed(LowerArm(w, lucky)))
  {
    hide Clear, InAlcove, Walled, At, Sound, Swing;
    SwingSeals(w.(hero := w.hero.(swing := 0, queued := false)), lucky, gentle);
  }

  lemma LoseMercyKeepsFooting(w: World, gentle: bool)
    requires Formed(w) && Footed(w) && (gentle ==> Sealed(w))
    ensures Footed(LoseMercy(w)) && (gentle ==> Sealed(LoseMercy(w)))
  {
    hide Clear, InAlcove, Walled, At;
  }

  lemma {:induction false} RoundKeepsFooting(w: World, ops: seq<Op>, gentle: bool)
    requires Formed(w) && Good(w) && Kept(w, gentle) && (gentle ==> GentleOps(ops))
    ensures Kept(Round(w, ops), gentle)
  {
    hide Good, Kept, Footed, Sealed, Swing, Frame;
    if ops == [] {
    } else {
      var before := ops[..|ops| - 1];
      RoundKeepsFooting(w, before, gentle);
      RoundKeeps(w, before);
      RoundKeeps(w, ops);
      match ops[|ops| - 1]
      case Press(lucky) =>
        SwingSeals(Round(w, before), lucky, gentle);
        GoodAndKept(Round(w, ops), gentle);
      case Advance(input) => FrameKeepsFooting(Round(w, before), input, gentle);
    }
  }

  lemma WalledCave(d: Draws)
    ensures Walled(Cave(d))
  {
    hide Put, Carve, Empty, At;
  }

  lemma WokenWhere(k: Waking)
    requires CanWake(k)
    ensures StillWaking(Played(k, [])) && Played(k, []).rooms[CAVE] == Cave(k.d)
  {
    hide CanWake, Drawn, Forest, Cave, Altar, Swarm, Tufts;
  }

  lemma WakesKept(k: Waking)
    requires CanWake(k)
    ensures Good(Played(k, [])) && Kept(Played(k, []), true)
  {
    hide CanWake, Played, Good, Cave, Clear, At, InAlcove, Sound;
    WokenIsGood(k);
    GoodIsSound(Played(k, []));
    WokenWhere(k);
    WalledCave(k.d);
    CaveHoldsDoorAndCharm(k.d);
  }

  lemma PlayedKeepsFooting(k: Waking, ops: seq<Op>, gentle: bool)
    requires CanWake(k) && (gentle ==> GentleOps(ops))
    ensures Good(Played(k, ops)) && Kept(Played(k, ops), gentle)
  {
    hide CanWake, Good, GentleOps, Wake, Sound, Footed, Sealed;
    WakesKept(k);
    PlayedIsGood(k, ops);
    RoundKeepsFooting(Played(k, []), ops, gentle);
  }

  /** Whatever was drawn, also where grass stands on the waking spot: in every round, whatever
      shoves it, the hero is off everything solid, or has not left that spot. */
  lemma NeverStuckElsewhere(k: Waking, ops: seq<Op>)
    requires CanWake(k)
    ensures
      var r := Played(k, ops);
      Clear(Here(r), r.hero.x, r.hero.y) || (r.room == FOREST && r.hero.x == WAKE_X && r.hero.y == WAKE_Y)
  {
    hide CanWake, Played, Good, Clear, Sound;
    PlayedKeepsFooting(k, ops, false);
  }

  /** The walls around the charm hold: while no roamer shoves by a tile or more, it is taken in no
      round, whatever was drawn, before the door was paid for. */
  lemma CharmIsPaidFor(k: Waking, ops: seq<Op>)
    requires CanWake(k) && GentleOps(ops)
    ensures Played(k, ops).led.charms <= Played(k, ops).led.doors
  {
    hide CanWake, Played, GentleOps, Good, Kept;
    PlayedKeepsFooting(k, ops, true);
    SealedIsPaid(Played(k, ops));
  }

  lemma SealedIsPaid(w: World)
    requires Good(w) && Kept(w, true)
    ensures w.led.charms <= w.led.doors
  {
    hide Sound, At, Grass, OnGround, IsOrder, AllDown, Knocks, Armoured, Clear;
  }
}
