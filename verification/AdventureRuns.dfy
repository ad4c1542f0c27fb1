/** What every transition of the adventure keeps, and what that says about whole rounds. */
module AdventureRuns {
  import opened Wrappers
  import opened AdventureMap
  import opened KnowledgeLock
  import opened Adventure

  ghost predicate Placed(w: World) { Formed(w) && Sound(w.rooms) && IsOrder(w.order) }

  /** Hearts: while the round is on the hero has some, and never more than the ceiling. */
  ghost predicate Vital(w: World) {
    && 0 <= w.hero.hp <= w.hero.maxhp <= HP_CAP && w.hero.inv >= 0
    && (w.phase != Lost ==> w.hero.hp >= 1)
    && (w.phase == Lost ==> w.hero.hp == 0 && w.hero.inv > 0)
  }

  /** Gems: everything paid is held, or became a heart or the door. */
  ghost predicate Balanced(w: World) {
    && w.hero.gems >= 0
    && w.led.paid == w.hero.gems + 3 * w.led.hearts + 2 * w.led.doors
    && w.hero.maxhp == 3 + w.led.hearts
  }

  /** The pity counter: at most two cuts in a row went unpaid, and the first never did. */
  ghost predicate Pitied(w: World) {
    && w.led.paid <= w.led.cuts
    && 0 <= w.pity <= 2
    && (w.firstCut ==> w.led.cuts == 0)
    && (!w.firstCut ==> 1 <= w.led.paid && w.led.cuts - 1 <= 3 * (w.led.paid - 1) + w.pity)
  }

  /** Each thing the maps hold once is there or was taken. */
  ghost predicate Conserved(w: World)
    requires Formed(w)
  {
    && w.led.cuts + |Grass(w.rooms[FOREST])| == w.led.tufts
    && w.led.doors + (if At(w.rooms[CAVE], 16, 2) == PAID_DOOR then 1 else 0) == 1
    && w.led.charms + (if At(w.rooms[CAVE], 17, 2) == CHARM then 1 else 0) == 1
    && w.led.saves + (if w.hero.charm then 1 else 0) == w.led.charms
  }

  /** The key is earned: by the lock, or by the last roamer of the cave. */
  ghost predicate Earned(w: World)
    requires Formed(w)
  {
    w.hero.key || w.keyDrop.Some? ==> w.seal.solved || AllDown(w.roamers[CAVE])
  }

  ghost predicate Spaced(stamps: seq<nat>, gap: nat) {
    forall i :: 0 < i < |stamps| ==> stamps[i - 1] + gap <= stamps[i]
  }

  ghost predicate Armoured(stamps: seq<nat>, gap: nat, frames: nat, left: int) {
    && left >= 0
    && Spaced(stamps, gap)
    && (stamps != [] ==> stamps[|stamps| - 1] + gap <= frames + left)
  }

  /** The guardian falls to six blows, each after thirty turns of armour. */
  ghost predicate Guarded(w: World) {
    && Armoured(w.led.blows, 30, w.led.frames, w.guard.inv)
    && |w.led.blows| == 6 - w.guard.hp
    && w.guard.hp >= 0 && (w.guard.alive <==> w.guard.hp > 0)
    && (w.phase == Won ==> w.hero.key && !w.guard.alive)
  }

  /** Hearts are lost at least sixty frames apart. */
  ghost predicate Merciful(w: World) { Armoured(w.led.hurts, 60, w.led.frames, w.hero.inv) }

  ghost predicate Listening(w: World)
    requires Formed(w)
  {
    w.seal == Knocks(w.order, w.led.knocks)
  }

  ghost predicate OnGround(m: Grid, rs: seq<Roamer>) {
    forall i :: 0 <= i < |rs| ==> !SolidAt(m, rs[i].x, rs[i].y)
  }

  ghost predicate Afoot(w: World)
    requires Formed(w)
  {
    forall r :: 0 <= r < 3 ==> OnGround(w.rooms[r], w.roamers[r])
  }

  ghost predicate Good(w: World) {
    && Placed(w) && Vital(w) && Balanced(w) && Pitied(w) && Conserved(w) && Earned(w)
    && Guarded(w) && Merciful(w) && Listening(w) && Afoot(w)
  }

  // --- taking a tile -------------------------------------------------------

  lemma TakeTileKeeps(w: World, tx: int, ty: int)
    requires Formed(w) && Sound(w.rooms) && Afoot(w)
    requires InGrid(tx, ty) && Removable(At(Here(w), tx, ty))
    ensures Sound(TakeTile(w, tx, ty).rooms) && Afoot(TakeTile(w, tx, ty))
    ensures At(Here(w), tx, ty) == GRASS ==>
              w.room == FOREST && |Grass(TakeTile(w, tx, ty).rooms[FOREST])| == |Grass(w.rooms[FOREST])| - 1
    ensures At(Here(w), tx, ty) != GRASS ==>
              w.room == CAVE && TakeTile(w, tx, ty).rooms[FOREST] == w.rooms[FOREST]
    ensures forall r, x, y :: 0 <= r < 3 && !(r == w.room && x == tx && y == ty) ==>
              At(TakeTile(w, tx, ty).rooms[r], x, y) == At(w.rooms[r], x, y)
  {
    hide SoundRoom, Put, At, Col, Row;
    RemovingKeepsSound(Here(w), w.room, tx, ty);
    PutGrass(Here(w), tx, ty, 0);
    assert Cell(tx, ty) in Grass(Here(w)) <==> At(Here(w), tx, ty) == GRASS;
    OnlyWhere(Here(w), w.room, tx, ty);
  }

  lemma OnlyWhere(m: Grid, r: int, x: int, y: int)
    requires SoundRoom(m, r)
    ensures At(m, x, y) == GRASS ==> r == FOREST
    ensures At(m, x, y) == PAID_DOOR ==> r == CAVE && x == 16 && y == 2
    ensures At(m, x, y) == CHARM ==> r == CAVE && x == 17 && y == 2
  {
  }

  // --- the blade -----------------------------------------------------------

  lemma CutGrassKeeps(w: World, tx: int, ty: int, lucky: bool)
    requires Good(w) && InGrid(tx, ty) && At(Here(w), tx, ty) == GRASS
    ensures Good(CutGrass(w, tx, ty, lucky))
  {
    hide Sound, Put, At, Grass, AllDown, OnGround, IsOrder, Armoured, Knocks;
    TakeTileKeeps(w, tx, ty);
  }

  lemma TouchPaidDoorKeeps(w: World, tx: int, ty: int)
    requires Good(w) && InGrid(tx, ty) && At(Here(w), tx, ty) == PAID_DOOR
    ensures Good(TouchPaidDoor(w, tx, ty))
  {
    hide SoundRoom, Put, At, AllDown, OnGround;
    if w.hero.gems >= 2 {
      TakeTileKeeps(w, tx, ty);
      OnlyWhere(Here(w), w.room, tx, ty);
      TakenTile(w, tx, ty);
    }
  }

  lemma TakenTile(w: World, tx: int, ty: int)
    requires Formed(w) && InGrid(tx, ty)
    ensures At(TakeTile(w, tx, ty).rooms[w.room], tx, ty) == 0
  {
  }

  lemma KnockMarkKeeps(w: World, mark: Mark)
    requires Good(w)
    ensures Good(KnockMark(w, mark))
  {
    hide SoundRoom, Put, At, AllDown, OnGround, IsOrder;
    var knocks := w.led.knocks + [mark];
    assert knocks[..|knocks| - 1] == w.led.knocks;
  }

  lemma StrikeTileKeeps(w: World, tx: int, ty: int, lucky: bool)
    requires Good(w) && w.phase == Playing && InGrid(tx, ty)
    ensures Good(StrikeTile(w, tx, ty, lucky))
  {
    hide SoundRoom, Put, At, AllDown, OnGround, IsOrder, CutGrass, TouchPaidDoor, KnockMark;
    var t := At(Here(w), tx, ty);
    if t == GRASS {
      CutGrassKeeps(w, tx, ty, lucky);
    } else if t == PAID_DOOR {
      TouchPaidDoorKeeps(w, tx, ty);
    } else if MARK <= t <= MARK + 2 {
      KnockMarkKeeps(w, t - MARK);
    }
  }

  lemma StrikeTilePhase(w: World, tx: int, ty: int, lucky: bool)
    requires Formed(w) && InGrid(tx, ty)
    ensures StrikeTile(w, tx, ty, lucky).phase == w.phase || StrikeTile(w, tx, ty, lucky).phase == Won
  {
    hide Put, At;
  }

  lemma FellRoamerKeeps(w: World, i: nat)
    requires Good(w) && i < |w.roamers[w.room]| && w.roamers[w.room][i].alive
    ensures
      var en := w.roamers[w.room][i];
      var w := WithRoamer(w, i, en.(alive := false));
      Good(if w.room == CAVE && AllDown(w.roamers[CAVE]) then w.(keyDrop := Some((en.x, en.y))) else w)
  {
    hide SoundRoom, Put, At, Grass, Armoured, IsOrder;
    assert !AllDown(w.roamers[w.room]);
    var down := WithRoamer(w, i, w.roamers[w.room][i].(alive := false));
    forall r | 0 <= r < 3
      ensures OnGround(down.rooms[r], down.roamers[r])
    {
      assert OnGround(w.rooms[r], w.roamers[r]);
    }
  }

  lemma {:induction false} StrikeRoamersLeaves(w: World, fx: real, fy: real, i: nat)
    requires Formed(w) && i <= |w.roamers[w.room]|
    ensures
      var r := StrikeRoamers(w, fx, fy, i);
      r == w.(roamers := r.roamers, keyDrop := r.keyDrop)
    decreases |w.roamers[w.room]| - i
  {
    hide Near, AllDown;
    if i == |w.roamers[w.room]| {
    } else {
      var en := w.roamers[w.room][i];
      StrikeRoamersLeaves(w, fx, fy, i + 1);
      var w := WithRoamer(w, i, en.(alive := false));
      StrikeRoamersLeaves(if w.room == CAVE && AllDown(w.roamers[CAVE]) then w.(keyDrop := Some((en.x, en.y))) else w, fx, fy, i + 1);
    }
  }

  lemma {:induction false} StrikeRoamersKeeps(w: World, fx: real, fy: real, i: nat)
    requires Good(w) && i <= |w.roamers[w.room]|
    ensures Good(StrikeRoamers(w, fx, fy, i))
    decreases |w.roamers[w.room]| - i
  {
    hide Vital, Balanced, Pitied, Conserved, Earned, Guarded, Merciful, Listening, Afoot, Sound, IsOrder, Near, AllDown;
    if i == |w.roamers[w.room]| {
    } else {
      var en := w.roamers[w.room][i];
      if en.alive && Near(en.x, en.y, fx, fy, 22.0) {
        FellRoamerKeeps(w, i);
        var w := WithRoamer(w, i, en.(alive := false));
        StrikeRoamersKeeps(if w.room == CAVE && AllDown(w.roamers[CAVE]) then w.(keyDrop := Some((en.x, en.y))) else w, fx, fy, i + 1);
      } else {
        StrikeRoamersKeeps(w, fx, fy, i + 1);
      }
    }
  }

  lemma StrikeGuardKeeps(w: World, fx: real, fy: real)
    requires Good(w)
    ensures Good(StrikeGuard(w, fx, fy)) && StrikeGuard(w, fx, fy).phase == w.phase
  {
    hide SoundRoom, Put, At, Grass, OnGround, IsOrder, AllDown, Near;
  }

  lemma SwingKeeps(w: World, lucky: bool)
    requires Good(w)
    ensures Good(Swing(w, lucky))
    ensures Swing(w, lucky).phase == w.phase || Swing(w, lucky).phase == Won
  {
    hide Vital, Balanced, Pitied, Conserved, Earned, Guarded, Merciful, Listening, Afoot, Sound, IsOrder, StrikeTile, StrikeRoamers, StrikeGuard;
    if w.phase == Playing && w.hero.swing <= 0 {
      var h := w.hero;
      var fx, fy := h.x + Across(h.dir, 20.0), h.y + Down(h.dir, 20.0);
      var tx, ty := Col(fx), Row(fy);
      var w1 := w.(hero := h.(swing := 10));
      ArmKeeps(w, w1.hero);
      if InGrid(tx, ty) {
        StrikeTileKeeps(w1, tx, ty, lucky);
        StrikeTilePhase(w1, tx, ty, lucky);
      }
      var w2 := if InGrid(tx, ty) then StrikeTile(w1, tx, ty, lucky) else w1;
      StrikeRoamersKeeps(w2, fx, fy, 0);
      StrikeRoamersLeaves(w2, fx, fy, 0);
      StrikeGuardKeeps(StrikeRoamers(w2, fx, fy, 0), fx, fy);
    } else if w.phase == Playing {
      ArmKeeps(w, w.hero.(queued := true));
    }
  }

  /** Where the hero stands and what its arm does matter to none of this. */
  lemma ArmKeeps(w: World, h: Hero)
    requires Good(w)
    requires h == w.hero.(x := h.x, y := h.y, dir := h.dir, swing := h.swing, queued := h.queued)
    ensures Good(w.(hero := h))
  {
    hide SoundRoom, Put, At, Grass, OnGround, IsOrder, AllDown, Armoured;
  }

  // --- moving --------------------------------------------------------------

  lemma StandOnKeeps(w: World)
    requires Formed(w) && Good(w) && w.phase != Lost
    ensures Good(StandOn(w)) && StandOn(w).phase == w.phase
  {
    hide Good, Put, At, Col, Row;
    if TileAt(Here(w), w.hero.x, w.hero.y) == CHARM {
      TakeCharmKeeps(w);
    } else {
      ChangeRoomKeeps(w);
    }
  }

  /** Entering a room brings mercy up to forty-five frames, never down. */
  lemma ChangeRoomKeeps(w: World)
    requires Formed(w) && Good(w) && w.phase != Lost && TileAt(Here(w), w.hero.x, w.hero.y) != CHARM
    ensures Good(StandOn(w))
  {
    hide Good, Put, At, Col, Row, TileAt, Enter;
    if w.room < 2 {
      EnterKeeps(w, w.room + 1, ENTER_LEFT);
    }
    if w.room > 0 {
      EnterKeeps(w, w.room - 1, ENTER_RIGHT);
    }
  }

  lemma EnterKeeps(w: World, room: int, x: real)
    requires Good(w) && w.phase != Lost && 0 <= room < 3
    ensures Good(Enter(w, room, x))
  {
    hide Sound, Put, At, AllDown, OnGround, IsOrder, Grass, Armoured, Knocks;
    MercyGrows(w.led.hurts, w.led.frames, w.hero.inv, Max(w.hero.inv, 45));
  }

  lemma MercyGrows(hurts: seq<nat>, frames: nat, inv: int, more: int)
    requires Armoured(hurts, 60, frames, inv) && inv <= more
    ensures Armoured(hurts, 60, frames, more)
  {
  }

  lemma TakeCharmKeeps(w: World)
    requires Good(w) && w.phase != Lost && TileAt(Here(w), w.hero.x, w.hero.y) == CHARM
    ensures Good(StandOn(w))
  {
    hide Sound, Put, At, AllDown, OnGround, IsOrder, Col, Row, Grass, Armoured, Knocks;
    var tx, ty := Col(w.hero.x), Row(w.hero.y);
    TileInGrid(Here(w), tx, ty);
    TakeTileKeeps(w, tx, ty);
    SoundHere(w);
    OnlyWhere(Here(w), w.room, tx, ty);
    TakenTile(w, tx, ty);
  }

  lemma SoundHere(w: World)
    requires Formed(w) && Sound(w.rooms)
    ensures SoundRoom(Here(w), w.room)
  {
  }

  lemma MoveHeroLeaves(w: World, keys: Keys)
    requires Formed(w)
    ensures MoveHero(w, keys).guard == w.guard
    ensures MoveHero(w, keys).led == w.led.(charms := MoveHero(w, keys).led.charms)
  {
    hide Put, At, Slide, Near, Col, Row;
  }

  lemma MoveHeroKeeps(w: World, keys: Keys)
    requires Good(w) && w.phase != Lost
    ensures Good(MoveHero(w, keys)) && MoveHero(w, keys).phase == w.phase
    ensures WornLater(w) ==> WornLater(MoveHero(w, keys))
  {
    hide SoundRoom, Put, At, Grass, AllDown, OnGround, IsOrder, Slide, Near, StandOn;
    MoveHeroLeaves(w, keys);
    var walked := Walk(w, keys);
    ArmKeeps(w, walked.hero);
    StandOnKeeps(walked);
  }

  lemma TakeBlowKeeps(w: World, sx: real, sy: real)
    requires Good(w) && w.hero.inv <= 0
    ensures Good(TakeBlow(w, sx, sy))
    ensures TakeBlow(w, sx, sy).led.blows == w.led.blows && TakeBlow(w, sx, sy).led.frames == w.led.frames
    ensures TakeBlow(w, sx, sy).guard == w.guard
  {
    hide SoundRoom, Put, At, Grass, OnGround, IsOrder, AllDown, Slide;
  }

  lemma TreadKeepsToGround(m: Grid, x: real, y: real, vx: real, vy: real)
    requires !SolidAt(m, x, y)
    ensures !SolidAt(m, Tread(m, x, y, vx, vy).0, Tread(m, x, y, vx, vy).1)
  {
  }

  lemma MoveRoamerKeeps(w: World, turn: Turn, i: nat)
    requires Good(w) && i < |w.roamers[w.room]|
    ensures Good(MoveRoamer(w, turn, i))
    ensures MoveRoamer(w, turn, i).led.blows == w.led.blows && MoveRoamer(w, turn, i).led.frames == w.led.frames
    ensures MoveRoamer(w, turn, i).guard == w.guard
  {
    hide SoundRoom, Put, At, Grass, IsOrder, Tread, Slide, TakeBlow, Armoured, Near, SolidAt;
    var en := w.roamers[w.room][i];
    if en.alive {
      assert OnGround(Here(w), w.roamers[w.room]);
      TreadKeepsToGround(Here(w), en.x, en.y, turn.vx, turn.vy);
      var (x, y) := Tread(Here(w), en.x, en.y, turn.vx, turn.vy);
      var moved := WithRoamer(w, i, en.(x := x, y := y));
      assert !AllDown(w.roamers[w.room]);
      forall r | 0 <= r < 3
        ensures OnGround(moved.rooms[r], moved.roamers[r])
      {
        assert OnGround(w.rooms[r], w.roamers[r]);
      }
      assert Good(moved);
      if w.hero.inv <= 0 {
        TakeBlowKeeps(moved, turn.sx, turn.sy);
      }
    }
  }

  lemma {:induction false} MoveRoamersKeeps(w: World, turns: seq<Turn>, i: nat)
    requires Good(w) && i <= |w.roamers[w.room]|
    ensures Good(MoveRoamers(w, turns, i))
    ensures WornLater(w) ==> WornLater(MoveRoamers(w, turns, i))
    decreases |w.roamers[w.room]| - i
  {
    hide Vital, Balanced, Pitied, Conserved, Earned, Guarded, Merciful, Listening, Afoot, Sound, IsOrder, MoveRoamer;
    if i == |w.roamers[w.room]| {
    } else {
      MoveRoamerKeeps(w, TurnAt(turns, i), i);
      MoveRoamersKeeps(MoveRoamer(w, TurnAt(turns, i), i), turns, i + 1);
    }
  }

  /** A turn of the guardian wears its armour down by one, so it comes after the frame's count. */
  lemma MoveGuardKeeps(w: World, turn: Turn)
    requires Good(w) && WornLater(w)
    ensures Good(MoveGuard(w, turn))
  {
    hide SoundRoom, Put, At, Grass, OnGround, IsOrder, AllDown, Tread, Near, TakeBlow;
    var g := w.guard;
    if w.room == ALTAR && g.alive {
      var (x, y) := Tread(Here(w), g.x, g.y, turn.vx, turn.vy);
      var moved := w.(guard := g.(x := x, y := y, inv := if g.inv > 0 then g.inv - 1 else g.inv));
      assert Good(moved);
      if w.hero.inv <= 0 {
        TakeBlowKeeps(moved, turn.sx, turn.sy);
      }
    }
  }

  /** One more frame is counted than the armour has worn. */
  ghost predicate WornLater(w: World) {
    w.led.blows != [] ==> w.led.blows[|w.led.blows| - 1] + 30 < w.led.frames + w.guard.inv
  }

  lemma LowerArmKeeps(w: World, lucky: bool)
    requires Formed(w) && Good(w) && w.phase == Playing
    ensures Good(LowerArm(w, lucky)) && LowerArm(w, lucky).phase != Lost
  {
    var h := w.hero;
    hide Good, Swing;
    if h.swing > 0 {
      if h.swing - 1 == 0 && h.queued {
        ArmKeeps(w, h.(swing := 0, queued := false));
        SwingKeeps(w.(hero := h.(swing := 0, queued := false)), lucky);
      } else {
        ArmKeeps(w, h.(swing := h.swing - 1));
      }
    }
  }

  lemma LoseMercyKeeps(w: World)
    requires Good(w) && w.phase != Lost
    ensures Good(LoseMercy(w)) && WornLater(LoseMercy(w))
  {
    hide Sound, At, Grass, OnGround, IsOrder, AllDown, Knocks;
  }

  lemma FrameKeeps(w: World, input: Input)
    requires Formed(w) && Good(w)
    ensures Good(Frame(w, input))
  {
    hide Good, LowerArm, MoveHero, MoveRoamers, MoveGuard, WornLater;
    if w.phase == Playing {
      LowerArmKeeps(w, input.lucky);
      var w1 := LowerArm(w, input.lucky);
      LoseMercyKeeps(w1);
      var w2 := LoseMercy(w1);
      MoveHeroKeeps(w2, input.keys);
      var w3 := MoveHero(w2, input.keys);
      MoveRoamersKeeps(w3, input.roamers, 0);
      MoveGuardKeeps(MoveRoamers(w3, input.roamers, 0), input.guard);
    }
  }

  /** Every round, however it is played, keeps all of it. */
  lemma {:induction false} RoundKeeps(w: World, ops: seq<Op>)
    requires Formed(w) && Good(w)
    ensures Good(Round(w, ops))
  {
    hide Good, Swing, Frame;
    if ops == [] {
    } else {
      var before := ops[..|ops| - 1];
      RoundKeeps(w, before);
      match ops[|ops| - 1]
      case Press(lucky) => SwingKeeps(Round(w, before), lucky);
      case Advance(input) => FrameKeeps(Round(w, before), input);
    }
  }
}