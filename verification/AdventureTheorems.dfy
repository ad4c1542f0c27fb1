/** The adventure's promises, over every round from waking on. */
module AdventureTheorems {
  import opened Wrappers
  import opened AdventureMap
  import opened KnowledgeLock
  import opened Adventure
  import opened AdventureRuns

  // --- waking --------------------------------------------------------------

  lemma SpawnsOnOpenFloor(m: Grid, at: Spot)
    requires At(m, at.x, at.y) == 0
    ensures !SolidAt(m, Spawned(at).x, Spawned(at).y)
  {
    assert Col(Spawned(at).x) == at.x && Row(Spawned(at).y) == at.y;
  }

  lemma SwarmOnGround(m: Grid, r: int, spots: seq<Spot>)
    requires forall i :: 0 <= i < |spots| ==> Spawnable(m, r, spots[i])
    ensures OnGround(m, Swarm(spots))
  {
    forall i | 0 <= i < |spots|
      ensures !SolidAt(m, Swarm(spots)[i].x, Swarm(spots)[i].y)
    {
      assert Spawnable(m, r, spots[i]);
      SpawnsOnOpenFloor(m, spots[i]);
    }
  }

  lemma CaveHoldsDoorAndCharm(d: Draws)
    ensures At(Cave(d), 16, 2) == PAID_DOOR && At(Cave(d), 17, 2) == CHARM
  {
    hide Put, Carve, Empty, At;
  }

  /** Whatever is drawn, the world wakes with everything in order. */
  lemma WakeIsGood(order: seq<Mark>, d: Draws, cave: seq<Spot>, altar: seq<Spot>)
    requires IsOrder(order) && Drawn(d, cave, altar)
    ensures Good(Wake(order, d, cave, altar))
  {
    hide Forest, Cave, Altar, At, Sound, Swarm, SolidAt;
    BuildIsSound(d);
    CaveHoldsDoorAndCharm(d);
    SwarmOnGround(Cave(d), CAVE, cave);
    SwarmOnGround(Altar(d), ALTAR, altar);
  }

  // --- collision -----------------------------------------------------------

  ghost predicate Standing(w: World) { Formed(w) && Sound(w.rooms) && Clear(Here(w), w.hero.x, w.hero.y) }

  lemma StrikeTileStands(w: World, tx: int, ty: int, lucky: bool)
    requires Standing(w) && InGrid(tx, ty)
    ensures
      var r := StrikeTile(w, tx, ty, lucky);
      r.room == w.room && Clear(Here(r), r.hero.x, r.hero.y)
  {
    hide Put, At, Sound, Clear;
    RemovingKeepsClear(Here(w), tx, ty, w.hero.x, w.hero.y);
  }

  lemma SwingStands(w: World, lucky: bool)
    requires Standing(w)
    ensures
      var r := Swing(w, lucky);
      r.room == w.room && Clear(Here(r), r.hero.x, r.hero.y)
  {
    hide StrikeTile, StrikeRoamers, Clear, Near, Sound;
    if w.phase == Playing && w.hero.swing <= 0 {
      var h := w.hero;
      var fx, fy := h.x + Across(h.dir, 20.0), h.y + Down(h.dir, 20.0);
      var tx, ty := Col(fx), Row(fy);
      var w1 := w.(hero := h.(swing := 10));
      if InGrid(tx, ty) {
        StrikeTileStands(w1, tx, ty, lucky);
      }
      StrikeRoamersLeaves(if InGrid(tx, ty) then StrikeTile(w1, tx, ty, lucky) else w1, fx, fy, 0);
    }
  }

  lemma SlideStands(m: Grid, x: real, y: real, dx: real, dy: real)
    requires Clear(m, x, y)
    ensures Clear(m, Slide(m, x, y, dx, dy).0, Slide(m, x, y, dx, dy).1)
  {
    hide Clear;
  }

  lemma StandOnStands(w: World)
    requires Standing(w)
    ensures var r := StandOn(w); Clear(Here(r), r.hero.x, r.hero.y)
  {
    hide Put, At, SoundRoom, Clear, Row, Col;
    var h := w.hero;
    var t := TileAt(Here(w), h.x, h.y);
    assert SoundRoom(Here(w), w.room);
    if t == DOOR_ON || t == DOOR_BACK {
      OnADoor(Here(w), w.room, h.x, h.y);
      if w.room < 2 {
        assert SoundRoom(w.rooms[w.room + 1], w.room + 1);
        LandingIsClear(w.rooms[w.room + 1], w.room + 1, h.y);
      }
      if w.room > 0 {
        assert SoundRoom(w.rooms[w.room - 1], w.room - 1);
        LandingIsClear(w.rooms[w.room - 1], w.room - 1, h.y);
      }
    } else if t == CHARM {
      TileInGrid(Here(w), Col(h.x), Row(h.y));
      RemovingKeepsClear(Here(w), Col(h.x), Row(h.y), h.x, h.y);
    }
  }

  lemma MoveHeroStands(w: World, keys: Keys)
    requires Standing(w)
    ensures var r := MoveHero(w, keys); Clear(Here(r), r.hero.x, r.hero.y)
  {
    hide Clear, Slide, StandOn, Near, Sound;
    var walked := Walk(w, keys);
    SlideStands(Here(w), w.hero.x, w.hero.y,
                if keys.right then STRIDE else if keys.left then -STRIDE else 0.0,
                if keys.down then STRIDE else if keys.up then -STRIDE else 0.0);
    StandOnStands(walked);
  }

  /** Roamers and the guardian touch neither the maps nor the room, and shove only to clear ground. */
  lemma {:induction false} MoveRoamersStand(w: World, turns: seq<Turn>, i: nat)
    requires Standing(w) && i <= |w.roamers[w.room]|
    ensures Standing(MoveRoamers(w, turns, i))
    decreases |w.roamers[w.room]| - i
  {
    hide Clear, Slide, Near, Sound, Tread;
    if i == |w.roamers[w.room]| {
    } else {
      var turn := TurnAt(turns, i);
      SlideStands(Here(w), w.hero.x, w.hero.y, turn.sx, turn.sy);
      MoveRoamersStand(MoveRoamer(w, turn, i), turns, i + 1);
    }
  }

  lemma MoveGuardStands(w: World, turn: Turn)
    requires Standing(w)
    ensures Standing(MoveGuard(w, turn))
  {
    hide Clear, Slide, Near, Sound, Tread;
    SlideStands(Here(w), w.hero.x, w.hero.y, turn.sx, turn.sy);
  }

  lemma FrameStands(w: World, input: Input)
    requires Formed(w) && Good(w) && Standing(w)
    ensures Standing(Frame(w, input))
  {
    hide Good, Clear, Sound, Swing, MoveHero, MoveRoamers, MoveGuard;
    if w.phase == Playing {
      LowerArmKeeps(w, input.lucky);
      SwingStands(w.(hero := w.hero.(swing := 0, queued := false)), input.lucky);
      var w1 := LowerArm(w, input.lucky);
      GoodIsSound(w1);
      LoseMercyKeeps(w1);
      var w2 := LoseMercy(w1);
      MoveHeroStands(w2, input.keys);
      MoveHeroKeeps(w2, input.keys);
      var w3 := MoveHero(w2, input.keys);
      GoodIsSound(w3);
      MoveRoamersStand(w3, input.roamers, 0);
      MoveGuardStands(MoveRoamers(w3, input.roamers, 0), input.guard);
    }
  }

  lemma GoodIsSound(w: World)
    requires Good(w)
    ensures Formed(w) && Sound(w.rooms)
  {
  }

  lemma {:induction false} RoundStands(w: World, ops: seq<Op>)
    requires Formed(w) && Good(w) && Standing(w)
    ensures Standing(Round(w, ops))
  {
    hide Good, Clear, Sound, Swing, Frame;
    if ops == [] {
    } else {
      var before := ops[..|ops| - 1];
      RoundStands(w, before);
      RoundKeeps(w, before);
      RoundKeeps(w, ops);
      GoodIsSound(Round(w, ops));
      match ops[|ops| - 1]
      case Press(lucky) => SwingStands(Round(w, before), lucky);
      case Advance(input) => FrameStands(Round(w, before), input);
    }
  }

  /** Collision freedom: once the hero's corners are off everything solid, no walking, shoving,
      cutting or changing of rooms ever puts any part of its footprint on a solid tile. */
  lemma CollisionFreedom(w: World, ops: seq<Op>)
    requires Good(w) && Clear(Here(w), w.hero.x, w.hero.y)
    ensures
      var r := Round(w, ops);
      forall px, py :: r.hero.x - RADIUS <= px <= r.hero.x + RADIUS && r.hero.y - RADIUS <= py <= r.hero.y + RADIUS ==>
                         !SolidAt(Here(r), px, py)
  {
    RoundStands(w, ops);
    var r := Round(w, ops);
    forall px, py | r.hero.x - RADIUS <= px <= r.hero.x + RADIUS && r.hero.y - RADIUS <= py <= r.hero.y + RADIUS
      ensures !SolidAt(Here(r), px, py)
    {
      FootprintIsClear(Here(r), r.hero.x, r.hero.y, px, py);
    }
  }

  // --- the round's promises ------------------------------------------------

  /** What a reset draws. */
  datatype Waking = Waking(order: seq<Mark>, d: Draws, cave: seq<Spot>, altar: seq<Spot>)

  ghost predicate CanWake(k: Waking) {
    && IsOrder(k.order) && Drawn(k.d, k.cave, k.altar)
    && Carve(Empty(), GRASS, 14, k.d.forest).1 == 0
  }

  /** A round as the page can play it: woken on some draws, then any ops. */
  function Played(k: Waking, ops: seq<Op>): (r: World)
    requires CanWake(k)
    ensures Formed(r)
  {
    Round(Wake(k.order, k.d, k.cave, k.altar), ops)
  }

  lemma WokenIsGood(k: Waking)
    requires CanWake(k)
    ensures Good(Played(k, []))
    ensures var w := Played(k, []); w.order == k.order && w.firstCut && w.pity == 0 && w.led.cuts == 0 && 11 <= w.led.tufts <= 15
  {
    hide Good, Drawn, Forest, Cave, Altar, Swarm, Carve, Grass, Tufts;
    WakeIsGood(k.order, k.d, k.cave, k.altar);
    TuftsCounted(k);
  }

  lemma TuftsCounted(k: Waking)
    requires CanWake(k)
    ensures 11 <= Tufts(Forest(k.d)) <= 15
  {
    hide Forest, Carve, At, Spawnable;
    TuftsInTheForest(k.d);
    assert Tufts(Forest(k.d)) == |Grass(Forest(k.d))|;
  }

  lemma PlayedIsGood(k: Waking, ops: seq<Op>)
    requires CanWake(k)
    ensures Good(Played(k, ops))
    ensures Played(k, ops).order == k.order
    ensures Played(k, ops).led.tufts == Played(k, []).led.tufts && 11 <= Played(k, ops).led.tufts <= 15
  {
    hide Good, CanWake;
    WokenIsGood(k);
    RoundKeeps(Played(k, []), ops);
    RoundCarries(Played(k, []), ops);
  }

  /** The seeded order and the tufts counted at waking are the round's for good. */
  lemma {:induction false} RoundCarries(w: World, ops: seq<Op>)
    requires Formed(w)
    ensures Round(w, ops).order == w.order && Round(w, ops).led.tufts == w.led.tufts
  {
    hide Swing, Frame;
    if ops == [] {
    } else {
      RoundCarries(w, ops[..|ops| - 1]);
      StepCarries(Round(w, ops[..|ops| - 1]), ops[|ops| - 1]);
    }
  }

  lemma TileCarries(w: World, tx: int, ty: int, lucky: bool)
    requires Formed(w) && InGrid(tx, ty)
    ensures StrikeTile(w, tx, ty, lucky).order == w.order && StrikeTile(w, tx, ty, lucky).led.tufts == w.led.tufts
  {
    hide Put, At;
  }

  lemma SwingCarries(w: World, lucky: bool)
    requires Formed(w)
    ensures Swing(w, lucky).order == w.order && Swing(w, lucky).led.tufts == w.led.tufts
  {
    hide StrikeTile, StrikeRoamers, Near, Col, Row;
    if w.phase == Playing && w.hero.swing <= 0 {
      var h := w.hero;
      var fx, fy := h.x + Across(h.dir, 20.0), h.y + Down(h.dir, 20.0);
      var tx, ty := Col(fx), Row(fy);
      var w1 := w.(hero := h.(swing := 10));
      if InGrid(tx, ty) {
        TileCarries(w1, tx, ty, lucky);
      }
      StrikeRoamersLeaves(if InGrid(tx, ty) then StrikeTile(w1, tx, ty, lucky) else w1, fx, fy, 0);
    }
  }

  lemma {:induction false} MoveRoamersCarry(w: World, turns: seq<Turn>, i: nat)
    requires Formed(w) && i <= |w.roamers[w.room]|
    ensures MoveRoamers(w, turns, i).order == w.order && MoveRoamers(w, turns, i).led.tufts == w.led.tufts
    decreases |w.roamers[w.room]| - i
  {
    hide Near, Tread, Slide;
    if i == |w.roamers[w.room]| {
    } else {
      MoveRoamersCarry(MoveRoamer(w, TurnAt(turns, i), i), turns, i + 1);
    }
  }

  lemma StepCarries(w: World, op: Op)
    requires Formed(w)
    ensures Step(w, op).order == w.order && Step(w, op).led.tufts == w.led.tufts
  {
    hide Swing, MoveRoamers, MoveHero, Near, Tread, Slide;
    match op
    case Press(lucky) => SwingCarries(w, lucky);
    case Advance(input) =>
      SwingCarries(w.(hero := w.hero.(swing := 0, queued := false)), input.lucky);
      var w2 := LoseMercy(LowerArm(w, input.lucky));
      MoveHeroLeaves(w2, input.keys);
      MoveHeroCarries(w2, input.keys);
      MoveRoamersCarry(MoveHero(w2, input.keys), input.roamers, 0);
  }

  lemma MoveHeroCarries(w: World, keys: Keys)
    requires Formed(w)
    ensures MoveHero(w, keys).order == w.order
  {
    hide Put, At, Slide, Near, Col, Row;
  }

  ghost predicate MissionKept(r: World)
    requires Formed(r)
  {
    && (r.hero.key || r.keyDrop.Some? ==> r.seal.solved || AllDown(r.roamers[CAVE]))
    && (r.seal.solved <==> Occurs(r.led.knocks, r.order))
    && (r.phase == Won ==> r.hero.key && !r.guard.alive && |r.led.blows| == 6)
    && Spaced(r.led.blows, 30)
    && (r.phase == Playing ==> 1 <= r.hero.hp <= r.hero.maxhp <= HP_CAP)
    && (r.phase == Lost ==> r.hero.hp == 0)
    && Spaced(r.led.hurts, 60)
    && r.led.saves <= r.led.charms <= 1
  }

  /** The mission, over every round. */
  lemma MissionSafety(k: Waking, ops: seq<Op>)
    requires CanWake(k)
    ensures Played(k, ops).order == k.order && MissionKept(Played(k, ops))
  {
    hide *;
    PlayedIsGood(k, ops);
    GoodMission(Played(k, ops));
  }

  lemma GoodMission(r: World)
    requires Formed(r) && Good(r)
    ensures MissionKept(r)
  {
    hide Sound, Occurs, AllDown, Spaced, Knocks, Grass, At;
    LockIsExact(r.order, r.led.knocks);
  }

  ghost predicate GemsAddUp(r: World)
    requires Formed(r)
  {
    && r.led.paid == r.hero.gems + 3 * r.led.hearts + 2 * r.led.doors
    && r.hero.gems >= 0 && r.led.hearts == r.hero.maxhp - 3 <= 2 && r.led.doors <= 1
    && (r.led.cuts >= 1 ==> r.led.paid >= 1 + (r.led.cuts - 1) / 3)
    && r.led.paid <= r.led.cuts && r.led.cuts + |Grass(r.rooms[FOREST])| == r.led.tufts <= 15
  }

  /** The gems, over every round: what was paid is held or spent, and paying never dries up. */
  lemma GemEconomy(k: Waking, ops: seq<Op>)
    requires CanWake(k)
    ensures GemsAddUp(Played(k, ops))
  {
    hide *;
    PlayedIsGood(k, ops);
    GoodGems(Played(k, ops));
  }

  lemma GoodGems(r: World)
    requires Formed(r) && Good(r) && r.led.tufts <= 15
    ensures GemsAddUp(r)
  {
    hide IsOrder, Sound, Grass, At, Knocks, AllDown, Armoured, OnGround;
  }

  /** Roamers keep to open floor in every room, for ever. */
  lemma RoamersKeepToTheFloor(k: Waking, ops: seq<Op>, room: int, i: int)
    requires CanWake(k) && 0 <= room < 3
    ensures
      var r := Played(k, ops);
      0 <= i < |r.roamers[room]| ==> !SolidAt(r.rooms[room], r.roamers[room][i].x, r.roamers[room][i].y)
  {
    hide CanWake, Played, IsOrder, Sound, Grass;
    PlayedIsGood(k, ops);
    var r := Played(k, ops);
    assert OnGround(r.rooms[room], r.roamers[room]);
  }

  /** A blow ends the round exactly when it takes the last heart and no charm is left. A charm
      spent on it leaves one heart, and mercy that outlasts an ordinary blow's. */
  lemma BlowOutcome(w: World, sx: real, sy: real)
    requires Formed(w) && Vital(w) && w.phase != Lost
    ensures
      var r := TakeBlow(w, sx, sy);
      && (r.phase == Lost <==> w.hero.hp == 1 && !w.hero.charm)
      && (r.led.saves > w.led.saves <==> w.hero.hp == 1 && w.hero.charm)
      && r.hero.charm == (w.hero.charm && w.hero.hp > 1)
      && (r.phase != Lost ==> r.hero.hp == Max(1, w.hero.hp - 1))
      && (r.led.saves > w.led.saves ==> r.hero.inv > TakeBlow(w.(hero := w.hero.(hp := 2)), sx, sy).hero.inv)
      && r.led.hurts == w.led.hurts + [w.led.frames]
  {
    hide Slide, Put, At;
  }

  /** At most one heart between w and r, and none unless mercy had run out; then it is back. */
  ghost predicate OneHeartAtMost(w: World, r: World) {
    || (r.led.hurts == w.led.hurts && r.hero.hp == w.hero.hp && r.hero.inv == w.hero.inv)
    || (w.hero.inv <= 0 < r.hero.inv && |r.led.hurts| == |w.led.hurts| + 1 && r.hero.hp >= w.hero.hp - 1)
  }

  lemma {:induction false} RoamersCostOneHeart(w: World, turns: seq<Turn>, i: nat)
    requires Formed(w) && i <= |w.roamers[w.room]|
    ensures OneHeartAtMost(w, MoveRoamers(w, turns, i))
    decreases |w.roamers[w.room]| - i
  {
    hide Near, Tread, Slide;
    if i == |w.roamers[w.room]| {
    } else {
      RoamersCostOneHeart(MoveRoamer(w, TurnAt(turns, i), i), turns, i + 1);
    }
  }

  lemma GuardCostsOneHeart(w: World, turn: Turn)
    requires Formed(w)
    ensures OneHeartAtMost(w, MoveGuard(w, turn))
  {
    hide Near, Tread, Slide;
  }

  lemma TileCostsNoHeart(w: World, tx: int, ty: int, lucky: bool)
    requires Formed(w) && InGrid(tx, ty) && w.hero.hp <= w.hero.maxhp
    ensures
      var r := StrikeTile(w, tx, ty, lucky);
      r.led.hurts == w.led.hurts && w.hero.hp <= r.hero.hp <= r.hero.maxhp
  {
    hide Put, At;
  }

  lemma SwingCostsNoHeart(w: World, lucky: bool)
    requires Formed(w) && w.hero.hp <= w.hero.maxhp
    ensures Swing(w, lucky).led.hurts == w.led.hurts && Swing(w, lucky).hero.hp >= w.hero.hp
    ensures Swing(w, lucky).hero.hp <= Swing(w, lucky).hero.maxhp
  {
    hide StrikeTile, StrikeRoamers, Near, Col, Row;
    if w.phase == Playing && w.hero.swing <= 0 {
      var h := w.hero;
      var fx, fy := h.x + Across(h.dir, 20.0), h.y + Down(h.dir, 20.0);
      var tx, ty := Col(fx), Row(fy);
      var w1 := w.(hero := h.(swing := 10));
      if InGrid(tx, ty) {
        TileCostsNoHeart(w1, tx, ty, lucky);
      }
      StrikeRoamersLeaves(if InGrid(tx, ty) then StrikeTile(w1, tx, ty, lucky) else w1, fx, fy, 0);
    }
  }

  lemma MoveHeroCostsNoHeart(w: World, keys: Keys)
    requires Formed(w) && w.hero.hp <= w.hero.maxhp
    ensures MoveHero(w, keys).led.hurts == w.led.hurts && MoveHero(w, keys).hero.hp >= w.hero.hp
  {
    hide Put, At, Slide, Near, Col, Row;
  }

  /** A frame costs one heart at most, whoever is near, the guardian included. */
  lemma FrameCostsOneHeart(w: World, input: Input)
    requires Formed(w) && w.hero.hp <= w.hero.maxhp
    ensures Frame(w, input).hero.hp >= w.hero.hp - 1
    ensures |Frame(w, input).led.hurts| <= |w.led.hurts| + 1
  {
    hide Swing, MoveHero, MoveRoamers, MoveGuard;
    if w.phase == Playing {
      SwingCostsNoHeart(w.(hero := w.hero.(swing := 0, queued := false)), input.lucky);
      var w2 := LoseMercy(LowerArm(w, input.lucky));
      MoveHeroCostsNoHeart(w2, input.keys);
      var w3 := MoveHero(w2, input.keys);
      RoamersCostOneHeart(w3, input.roamers, 0);
      GuardCostsOneHeart(MoveRoamers(w3, input.roamers, 0), input.guard);
    }
  }

  /** A heart is bought for three gems and comes full; at the ceiling, or short of three, the
      shrine takes nothing. */
  lemma ShrineTrade(w: World, tx: int, ty: int, lucky: bool)
    requires Formed(w) && Vital(w) && InGrid(tx, ty) && At(Here(w), tx, ty) == SHRINE
    ensures
      var r := StrikeTile(w, tx, ty, lucky);
      var sold := r.hero.maxhp > w.hero.maxhp;
      && (sold <==> w.hero.gems >= 3 && w.hero.maxhp < HP_CAP)
      && w.hero.gems - r.hero.gems == 3 * (r.hero.maxhp - w.hero.maxhp)
      && (sold ==> r.hero.hp == r.hero.maxhp == w.hero.maxhp + 1)
      && (!sold ==> r == w)
  {
    hide Put, At;
  }

  // --- the worst luck ------------------------------------------------------

  /** All the pity counter has given is all that was paid. */
  ghost predicate Unlucky(w: World) {
    && (w.firstCut ==> w.led.cuts == 0 && w.pity == 0)
    && (!w.firstCut ==> w.led.cuts - 1 == 3 * (w.led.paid - 1) + w.pity)
  }

  lemma UnluckyTile(w: World, tx: int, ty: int)
    requires Formed(w) && InGrid(tx, ty) && Pitied(w) && Unlucky(w)
    ensures Unlucky(StrikeTile(w, tx, ty, false))
  {
    hide Put, At;
  }

  lemma UnluckyPress(w: World)
    requires Formed(w) && Pitied(w) && Unlucky(w)
    ensures Unlucky(Swing(w, false))
  {
    hide StrikeTile, StrikeRoamers, Near;
    if w.phase == Playing && w.hero.swing <= 0 {
      var h := w.hero;
      var fx, fy := h.x + Across(h.dir, 20.0), h.y + Down(h.dir, 20.0);
      var w1 := w.(hero := h.(swing := 10));
      if InGrid(Col(fx), Row(fy)) {
        UnluckyTile(w1, Col(fx), Row(fy));
      }
      StrikeRoamersLeaves(if InGrid(Col(fx), Row(fy)) then StrikeTile(w1, Col(fx), Row(fy), false) else w1, fx, fy, 0);
    }
  }

  ghost predicate SamePurse(v: World, w: World) {
    v.firstCut == w.firstCut && v.pity == w.pity && v.led.cuts == w.led.cuts && v.led.paid == w.led.paid
  }

  lemma {:induction false} MoveRoamersSpendNothing(w: World, turns: seq<Turn>, i: nat)
    requires Formed(w) && i <= |w.roamers[w.room]|
    ensures SamePurse(MoveRoamers(w, turns, i), w)
    decreases |w.roamers[w.room]| - i
  {
    hide Near, Tread, Slide;
    if i == |w.roamers[w.room]| {
    } else {
      MoveRoamersSpendNothing(MoveRoamer(w, TurnAt(turns, i), i), turns, i + 1);
    }
  }

  lemma MoveHeroSpendsNothing(w: World, keys: Keys)
    requires Formed(w)
    ensures SamePurse(MoveHero(w, keys), w)
  {
    hide Put, At, Slide, Near, Col, Row;
  }

  lemma UnluckyFrame(w: World, input: Input)
    requires Formed(w) && Pitied(w) && Unlucky(w) && !input.lucky
    ensures Unlucky(Frame(w, input))
  {
    hide Swing, MoveRoamers, MoveHero, Near, Tread, Slide;
    if w.phase == Playing {
      UnluckyPress(w.(hero := w.hero.(swing := 0, queued := false)));
      var w2 := LoseMercy(LowerArm(w, input.lucky));
      MoveHeroSpendsNothing(w2, input.keys);
      MoveRoamersSpendNothing(MoveHero(w2, input.keys), input.roamers, 0);
    }
  }

  ghost predicate NeverLucky(ops: seq<Op>) {
    forall i :: 0 <= i < |ops| ==> match ops[i] case Press(lucky) => !lucky case Advance(input) => !input.lucky
  }

  lemma {:induction false} UnluckyRound(w: World, ops: seq<Op>)
    requires Formed(w) && Good(w) && Unlucky(w) && NeverLucky(ops)
    ensures Unlucky(Round(w, ops))
  {
    hide Good, Unlucky, Swing, Frame;
    if ops == [] {
    } else {
      var before := ops[..|ops| - 1];
      UnluckyRound(w, before);
      RoundKeeps(w, before);
      GoodIsPitied(Round(w, before));
      match ops[|ops| - 1]
      case Press(lucky) => UnluckyPress(Round(w, before));
      case Advance(input) => UnluckyFrame(Round(w, before), input);
    }
  }

  lemma GoodIsPitied(w: World)
    requires Good(w)
    ensures Pitied(w)
  {
  }

  /** A round paid just what the pity counter owes; so if every tuft was cut, five gems were paid
      exactly when there were thirteen tufts to cut. */
  ghost predicate PaidTheFloor(r: World)
    requires Formed(r)
  {
    && r.led.paid == (if r.led.cuts == 0 then 0 else 1 + (r.led.cuts - 1) / 3)
    && (Grass(r.rooms[FOREST]) == {} ==> (r.led.paid >= 5 <==> r.led.tufts >= 13))
  }

  /** The floor under the odds is exact: with the worst luck a round pays just that. */
  lemma WorstLuckIsExact(k: Waking, ops: seq<Op>)
    requires CanWake(k) && NeverLucky(ops)
    ensures PaidTheFloor(Played(k, ops))
  {
    hide Good, Unlucky, CanWake, Wake, NeverLucky, PaidTheFloor;
    WakesUnlucky(k);
    PlayedIsGood(k, ops);
    UnluckyRound(Played(k, []), ops);
    UnluckyPaysTheFloor(Played(k, ops));
  }

  lemma UnluckyPaysTheFloor(r: World)
    requires Formed(r) && Good(r) && Unlucky(r)
    ensures PaidTheFloor(r)
  {
    hide IsOrder, Sound, Grass, At, Knocks, AllDown, Armoured, OnGround;
  }

  lemma WakesUnlucky(k: Waking)
    requires CanWake(k)
    ensures Unlucky(Played(k, [])) && Good(Played(k, []))
  {
    hide Good, CanWake, Wake;
    WokenIsGood(k);
  }
}
