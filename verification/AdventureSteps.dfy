/** What each operation of the adventure does, exactly: not only what it keeps. */
module AdventureSteps {
  import opened Wrappers
  import opened AdventureMap
  import opened KnowledgeLock
  import opened Adventure
  import opened AdventureRuns
  import opened AdventureTheorems
  import opened AdventureFindings

  // --- the hero's move -----------------------------------------------------

  /** A move or a shove onto clear ground is made whole; where only one of its halves lands clear,
      that half is made. */
  lemma SlideGoes(m: Grid, x: real, y: real, dx: real, dy: real)
    ensures Clear(m, x + dx, y) && Clear(m, x + dx, y + dy) ==> Slide(m, x, y, dx, dy) == (x + dx, y + dy)
    ensures Clear(m, x + dx, y) && !Clear(m, x + dx, y + dy) ==> Slide(m, x, y, dx, dy) == (x + dx, y)
    ensures !Clear(m, x + dx, y) && Clear(m, x, y + dy) ==> Slide(m, x, y, dx, dy) == (x, y + dy)
    ensures !Clear(m, x + dx, y) && !Clear(m, x, y + dy) ==> Slide(m, x, y, dx, dy) == (x, y)
  {
    hide Clear;
  }

  /** The four keys: which way each looks and goes. */
  datatype Way = Way(keys: Keys, dir: Dir, dx: real, dy: real)

  const WAYS := [Way(Keys(false, false, true, false), 0, 0.0, -2.2), Way(Keys(false, true, false, false), 1, 2.2, 0.0),
                 Way(Keys(false, false, false, true), 2, 0.0, 2.2), Way(Keys(true, false, false, false), 3, -2.2, 0.0)]

  /** One key held turns the hero that way, and moves it by a stride there when the ground is
      clear, and not at all when it is not. */
  lemma OneKeyWalks(w: World, i: nat)
    requires Formed(w) && i < 4
    ensures
      var way := WAYS[i];
      var x, y := w.hero.x + way.dx, w.hero.y + way.dy;
      Walk(w, way.keys) == w.(hero := if Clear(Here(w), x, y) then w.hero.(x := x, y := y, dir := way.dir) else w.hero.(dir := way.dir))
  {
    hide Clear, Slide;
    var way := WAYS[i];
    assert WAYS[0].dx == 0.0 && WAYS[1].dy == 0.0 && WAYS[2].dx == 0.0 && WAYS[3].dy == 0.0;
    SlideGoes(Here(w), w.hero.x, w.hero.y, way.dx, way.dy);
  }

  /** Of two opposite keys the right and the lower one count; the hero looks up or down rather
      than aside. */
  lemma TwoKeysWalk(w: World, keys: Keys)
    requires Formed(w)
    ensures keys.right ==> Walk(w, keys) == Walk(w, keys.(left := false))
    ensures keys.down ==> Walk(w, keys) == Walk(w, keys.(up := false))
    ensures keys.up || keys.down ==> Walk(w, keys).hero.dir == Walk(w, keys.(left := false, right := false)).hero.dir
    ensures keys == Keys(false, false, false, false) ==> Walk(w, keys).hero.dir == w.hero.dir
  {
    hide Slide;
  }

  /** After the walk: a door leads one room on, or one back, to its far landing; the charm is
      taken whole; on any other tile the hero stays where it walked to. */
  lemma DoorsLead(w: World, keys: Keys)
    requires Formed(w)
    ensures
      var v := Walk(w, keys);
      var t := TileAt(Here(v), v.hero.x, v.hero.y);
      var r := MoveHero(w, keys);
      && (t == DOOR_ON && w.room < 2 ==>
            r.room == w.room + 1 && r.hero.x == 78.0 && r.hero.y == v.hero.y && r.hero.inv == Max(w.hero.inv, 45))
      && (t == DOOR_BACK && w.room > 0 ==>
            r.room == w.room - 1 && r.hero.x == 642.0 && r.hero.y == v.hero.y && r.hero.inv == Max(w.hero.inv, 45))
      && (t == CHARM ==>
            && r.hero == v.hero.(charm := true, hp := w.hero.maxhp, key := r.hero.key)
            && r.room == w.room && At(Here(r), Col(v.hero.x), Row(v.hero.y)) == 0)
      && (t != CHARM ==> r.rooms == w.rooms)
      && (t != DOOR_ON && t != DOOR_BACK && t != CHARM ==> r.hero == v.hero.(key := r.hero.key) && r.room == w.room)
  {
    hide At, Slide, Near, Col, Row;
    var v := Walk(w, keys);
    if TileAt(Here(v), v.hero.x, v.hero.y) == CHARM {
      TileInGrid(Here(v), Col(v.hero.x), Row(v.hero.y));
      TakenTile(v, Col(v.hero.x), Row(v.hero.y));
    }
  }

  /** A hero that comes near the fallen key has it, and only so does the key leave the floor. */
  lemma KeyIsTaken(w: World, keys: Keys)
    requires Formed(w)
    ensures
      var r := MoveHero(w, keys);
      var found := w.keyDrop.Some? && r.room == CAVE && Near(r.hero.x, r.hero.y, w.keyDrop.value.0, w.keyDrop.value.1, 20.0);
      && (r.hero.key <==> w.hero.key || found)
      && r.keyDrop == (if found then None else w.keyDrop)
  {
    hide Put, At, Slide, Near, Col, Row;
  }

  // --- the blade -----------------------------------------------------------

  /** A free arm strikes the tile under its tip, and then what lives there: of the hero, the maps,
      the lock and the round, a swing changes just what the tile does. */
  lemma SwingIsAtTheTip(w: World, lucky: bool)
    requires Formed(w) && ArmFree(w)
    ensures
      var armed := w.(hero := w.hero.(swing := 10));
      var tx, ty := Col(TipX(w)), Row(TipY(w));
      var struck := if InGrid(tx, ty) then StrikeTile(armed, tx, ty, lucky) else armed;
      var r := Swing(w, lucky);
      r == struck.(roamers := r.roamers, keyDrop := r.keyDrop, guard := r.guard, led := struck.led.(blows := r.led.blows))
  {
    hide Near, StrikeTile, StrikeRoamers, Col, Row;
    var tx, ty := Col(TipX(w)), Row(TipY(w));
    var armed := w.(hero := w.hero.(swing := 10));
    var struck := if InGrid(tx, ty) then StrikeTile(armed, tx, ty, lucky) else armed;
    StrikeRoamersLeaves(struck, TipX(w), TipY(w), 0);
  }

  /** A cut clears its tuft, and pays a gem exactly when it is the round's first, the third after
      two that paid nothing, or lucky. */
  lemma CutPays(w: World, tx: int, ty: int, lucky: bool)
    requires Formed(w) && InGrid(tx, ty) && At(Here(w), tx, ty) == GRASS
    ensures
      var r := StrikeTile(w, tx, ty, lucky);
      var pays := w.firstCut || w.pity >= 2 || lucky;
      && At(Here(r), tx, ty) == 0 && r.led.cuts == w.led.cuts + 1
      && r.hero == w.hero.(gems := w.hero.gems + (if pays then 1 else 0))
      && r.firstCut == (w.firstCut && !pays) && r.pity == (if pays then 0 else w.pity + 1)
  {
    hide At;
    TakenTile(w, tx, ty);
  }

  /** The chest wins the round exactly with the key held and the guardian felled. */
  lemma ChestOpens(w: World, tx: int, ty: int, lucky: bool)
    requires Formed(w) && InGrid(tx, ty) && At(Here(w), tx, ty) == CHEST
    ensures StrikeTile(w, tx, ty, lucky) == if w.hero.key && !w.guard.alive then w.(phase := Won) else w
  {
    hide At;
  }

  /** The paid door takes two gems and is gone, or takes nothing. */
  lemma DoorOpens(w: World, tx: int, ty: int, lucky: bool)
    requires Formed(w) && InGrid(tx, ty) && At(Here(w), tx, ty) == PAID_DOOR
    ensures
      var r := StrikeTile(w, tx, ty, lucky);
      && (w.hero.gems < 2 ==> r == w)
      && (w.hero.gems >= 2 ==> r.hero == w.hero.(gems := w.hero.gems - 2) && At(Here(r), tx, ty) == 0)
  {
    hide At;
    TakenTile(w, tx, ty);
  }

  /** A mark is knocked by its own number; the knock that solves the lock leaves a key at the
      hero's feet, unless one is held or down already. */
  lemma KnockDropsTheKey(w: World, tx: int, ty: int, lucky: bool)
    requires Formed(w) && InGrid(tx, ty) && MARK <= At(Here(w), tx, ty) <= MARK + 2
    ensures
      var mark := At(Here(w), tx, ty) - MARK;
      var r := StrikeTile(w, tx, ty, lucky);
      var opens := r.seal.solved && !w.seal.solved && !w.hero.key && w.keyDrop.None?;
      && r.led.knocks == w.led.knocks + [mark] && r.seal == Knock(w.order, w.seal, mark)
      && r.keyDrop == (if opens then Some((w.hero.x, w.hero.y)) else w.keyDrop)
      && r.hero == w.hero && r.rooms == w.rooms
  {
    hide At;
  }

  /** What is none of these takes a blow and stays as it was. */
  lemma OtherTilesStay(w: World, tx: int, ty: int, lucky: bool)
    requires Formed(w) && InGrid(tx, ty)
    requires
      var t := At(Here(w), tx, ty);
      t != GRASS && t != CHEST && t != SHRINE && t != PAID_DOOR && !(MARK <= t <= MARK + 2)
    ensures StrikeTile(w, tx, ty, lucky) == w
  {
    hide At;
  }

  // --- the arm -------------------------------------------------------------

  function Lowered(w: World, n: nat): (r: World)
    requires Formed(w)
    ensures Formed(r)
  {
    if n == 0 then w else LowerArm(Lowered(w, n - 1), false)
  }

  /** A swing keeps the arm for ten frames. A press meanwhile is kept, not lost: it strikes on the
      very frame the arm comes free. */
  lemma PressIsKept(w: World, lucky: bool, later: bool)
    requires Formed(w) && ArmFree(w) && Swing(w, lucky).phase == Playing
    ensures
      var pressed := Swing(Swing(w, lucky), later);
      && Swing(w, lucky).hero.swing == 10
      && pressed == Swing(w, lucky).(hero := Swing(w, lucky).hero.(queued := true))
      && (forall n: nat :: n < 10 ==> Lowered(pressed, n) == pressed.(hero := pressed.hero.(swing := 10 - n)))
      && LowerArm(Lowered(pressed, 9), later) == Swing(pressed.(hero := pressed.hero.(swing := 0, queued := false)), later)
  {
    ArmIsBusy(w, lucky);
    var struck := Swing(w, lucky);
    assert Swing(struck, later) == struck.(hero := struck.hero.(queued := true));
    var pressed := struck.(hero := struck.hero.(queued := true));
    hide Swing;
    forall n: nat | n < 10
      ensures Lowered(pressed, n) == pressed.(hero := pressed.hero.(swing := 10 - n))
    {
      ArmComesDown(pressed, n);
    }
  }

  lemma ArmIsBusy(w: World, lucky: bool)
    requires Formed(w) && ArmFree(w)
    ensures Swing(w, lucky).hero.swing == 10
  {
    hide Near, StrikeTile, StrikeRoamers, Col, Row, Swing;
    SwingIsAtTheTip(w, lucky);
    if InGrid(Col(TipX(w)), Row(TipY(w))) {
      TileLeavesCreatures(w.(hero := w.hero.(swing := 10)), Col(TipX(w)), Row(TipY(w)), lucky);
    }
  }

  lemma {:induction false} ArmComesDown(w: World, n: nat)
    requires Formed(w) && w.hero.swing == 10 && n < 10
    ensures Lowered(w, n) == w.(hero := w.hero.(swing := 10 - n))
  {
    hide Swing;
    if n == 0 {
    } else {
      ArmComesDown(w, n - 1);
    }
  }

  /** An arm without a press waiting comes free by itself. */
  lemma ArmComesFree(w: World, lucky: bool)
    requires Formed(w) && w.hero.swing == 1 && !w.hero.queued
    ensures LowerArm(w, lucky) == w.(hero := w.hero.(swing := 0))
  {
  }

  /** A round that is over takes no more input. */
  lemma OverIsOver(w: World, op: Op)
    requires Formed(w) && w.phase != Playing
    ensures Step(w, op) == w
  {
  }

  // --- the creatures -------------------------------------------------------

  /** A creature walks where the ground is open, and along the wall where half of its step is. */
  lemma TreadGoes(m: Grid, x: real, y: real, vx: real, vy: real)
    ensures !SolidAt(m, x + vx, y) && !SolidAt(m, x + vx, y + vy) ==> Tread(m, x, y, vx, vy) == (x + vx, y + vy)
    ensures !SolidAt(m, x + vx, y) && SolidAt(m, x + vx, y + vy) ==> Tread(m, x, y, vx, vy) == (x + vx, y)
    ensures SolidAt(m, x + vx, y) && !SolidAt(m, x, y + vy) ==> Tread(m, x, y, vx, vy) == (x, y + vy)
    ensures SolidAt(m, x + vx, y) && SolidAt(m, x, y + vy) ==> Tread(m, x, y, vx, vy) == (x, y)
  {
    hide SolidAt;
  }

  /** A blow takes a heart and is remembered, shoves as far as the ground allows, and leaves sixty
      frames of mercy, or ninety and a heart when the charm breaks on it. */
  lemma BlowTaken(w: World, sx: real, sy: real)
    requires Formed(w)
    ensures
      var r := TakeBlow(w, sx, sy);
      var saved := w.hero.hp <= 1 && w.hero.charm;
      var (x, y) := Slide(Here(w), w.hero.x, w.hero.y, sx, sy);
      && r.hero == w.hero.(hp := if saved then 1 else w.hero.hp - 1, inv := if saved then 90 else 60,
                           charm := w.hero.charm && !saved, x := x, y := y)
      && r.led.hurts == w.led.hurts + [w.led.frames]
      && r.phase == (if w.hero.hp <= 1 && !saved then Lost else w.phase)
  {
    hide Slide;
  }

  /** Nothing but where the roamers of the room stand. */
  ghost predicate OnlyRoamersMoved(w: World, r: World) { r == w.(roamers := r.roamers) }

  /** A living roamer steps, and strikes exactly if the hero was within its reach before the step,
      with no mercy left. */
  lemma RoamerStrikes(w: World, turn: Turn, i: nat)
    requires Formed(w) && i < |w.roamers[w.room]|
    ensures
      var en := w.roamers[w.room][i];
      var r := MoveRoamer(w, turn, i);
      var strikes := en.alive && w.hero.inv <= 0 && Near(w.hero.x, w.hero.y, en.x, en.y, 16.0);
      var (x, y) := Tread(Here(w), en.x, en.y, turn.vx, turn.vy);
      var moved := WithRoamer(w, i, if en.alive then en.(x := x, y := y) else en);
      && r == (if strikes then TakeBlow(moved, turn.sx, turn.sy) else moved)
      && OnlyRoamersMoved(w, moved)
  {
    hide Near, Tread, TakeBlow;
    var en := w.roamers[w.room][i];
    assert w.roamers[w.room][i := en] == w.roamers[w.room];
    assert w.roamers[w.room := w.roamers[w.room]] == w.roamers;
  }

  lemma {:induction false} RoamersSpare(w: World, turns: seq<Turn>, i: nat)
    requires Formed(w) && i <= |w.roamers[w.room]| && w.hero.inv > 0
    ensures OnlyRoamersMoved(w, MoveRoamers(w, turns, i))
    decreases |w.roamers[w.room]| - i
  {
    hide Near, Tread, TakeBlow;
    if i == |w.roamers[w.room]| {
    } else {
      RoamersSpare(MoveRoamer(w, TurnAt(turns, i), i), turns, i + 1);
    }
  }

  /** Together they take one heart exactly when one of them is on a hero with no mercy left; if not
      they do nothing to it. */
  lemma {:induction false} RoamersStrike(w: World, turns: seq<Turn>, i: nat)
    requires Formed(w) && i <= |w.roamers[w.room]|
    ensures
      var r := MoveRoamers(w, turns, i);
      && (w.hero.inv <= 0 && Beset(w, i) ==> r.led.hurts == w.led.hurts + [w.led.frames] && r.hero.inv > 0)
      && (!(w.hero.inv <= 0 && Beset(w, i)) ==> OnlyRoamersMoved(w, r))
    decreases |w.roamers[w.room]| - i
  {
    hide Near, Tread, TakeBlow;
    if i == |w.roamers[w.room]| {
    } else {
      var turn := TurnAt(turns, i);
      var w1 := MoveRoamer(w, turn, i);
      var en := w.roamers[w.room][i];
      RoamerStrikes(w, turn, i);
      if w.hero.inv > 0 {
        RoamersSpare(w, turns, i);
      } else if en.alive && Near(w.hero.x, w.hero.y, en.x, en.y, 16.0) {
        var (x, y) := Tread(Here(w), en.x, en.y, turn.vx, turn.vy);
        BlowTaken(WithRoamer(w, i, en.(x := x, y := y)), turn.sx, turn.sy);
        RoamersSpare(w1, turns, i + 1);
      } else {
        assert forall j :: i < j < |w.roamers[w.room]| ==> w1.roamers[w1.room][j] == w.roamers[w.room][j];
        assert Beset(w, i) <==> Beset(w1, i + 1);
        RoamersStrike(w1, turns, i + 1);
      }
    }
  }

  /** In the altar a living guardian steps, its armour wears, and it strikes exactly if the hero is
      then within its reach, with no mercy left; if not it does nothing to the hero. */
  lemma GuardStrikes(w: World, turn: Turn)
    requires Formed(w) && w.room == ALTAR && w.guard.alive
    ensures
      var r := MoveGuard(w, turn);
      var (x, y) := Tread(Here(w), w.guard.x, w.guard.y, turn.vx, turn.vy);
      var strikes := w.hero.inv <= 0 && Near(w.hero.x, w.hero.y, r.guard.x, r.guard.y, 24.0);
      && r.guard == w.guard.(x := x, y := y, inv := if w.guard.inv > 0 then w.guard.inv - 1 else w.guard.inv)
      && r.led.hurts == (if strikes then w.led.hurts + [w.led.frames] else w.led.hurts)
      && (strikes ==> r == TakeBlow(w, turn.sx, turn.sy).(guard := r.guard))
      && (!strikes ==> r == w.(guard := r.guard))
  {
    hide Near, Tread, Slide;
  }

  /** Elsewhere, or felled, it does nothing at all. */
  lemma GuardRests(w: World, turn: Turn)
    requires Formed(w) && (w.room != ALTAR || !w.guard.alive)
    ensures MoveGuard(w, turn) == w
  {
  }

  /** A frame wears mercy by one and counts itself. */
  lemma MercyWears(w: World)
    ensures
      var r := LoseMercy(w);
      && r == w.(hero := r.hero, led := r.led) && r.led == w.led.(frames := w.led.frames + 1)
      && r.hero == w.hero.(inv := if w.hero.inv > 0 then w.hero.inv - 1 else w.hero.inv)
  {
  }

  /** A whole frame costs a heart exactly when a roamer is on the hero as the creatures find it,
      or, none being, the guardian comes within reach of it; with no mercy left in either case. */
  lemma FrameStrikes(w: World, input: Input)
    requires Formed(w) && w.phase == Playing && w.hero.hp <= w.hero.maxhp
    ensures
      var v := BeforeCreatures(w, input);
      var r := Frame(w, input);
      var byRoamer := v.hero.inv <= 0 && Beset(v, 0);
      var byGuard := v.hero.inv <= 0 && v.room == ALTAR && v.guard.alive && Near(v.hero.x, v.hero.y, r.guard.x, r.guard.y, 24.0);
      && v.led.hurts == w.led.hurts
      && (byRoamer || byGuard ==> |r.led.hurts| == |w.led.hurts| + 1)
      && (!byRoamer && !byGuard ==> r.led.hurts == w.led.hurts && r.hero == v.hero && r.phase == v.phase)
  {
    hide Swing, MoveHero, MoveRoamers, MoveGuard, Near, TakeBlow, Beset;
    SwingCostsNoHeart(w.(hero := w.hero.(swing := 0, queued := false)), input.lucky);
    var w2 := LoseMercy(LowerArm(w, input.lucky));
    MoveHeroCostsNoHeart(w2, input.keys);
    var v := MoveHero(w2, input.keys);
    RoamersStrike(v, input.roamers, 0);
    MoveRoamersLeave(v, input.roamers, 0);
    RoomStays(v, input.roamers, 0);
    var u := MoveRoamers(v, input.roamers, 0);
    if u.room == ALTAR && u.guard.alive {
      GuardStrikes(u, input.guard);
    } else {
      GuardRests(u, input.guard);
    }
  }

  lemma {:induction false} RoomStays(w: World, turns: seq<Turn>, i: nat)
    requires Formed(w) && i <= |w.roamers[w.room]|
    ensures MoveRoamers(w, turns, i).room == w.room
    decreases |w.roamers[w.room]| - i
  {
    hide MoveRoamer;
    if i == |w.roamers[w.room]| {
    } else {
      RoomStays(MoveRoamer(w, TurnAt(turns, i), i), turns, i + 1);
    }
  }

  // --- waking --------------------------------------------------------------

  /** Of all tiles only open floor, the two doors and the charm can be walked on. */
  lemma SolidTiles(t: int)
    ensures 0 <= t <= MARK + 2 ==> (!Solid(t) <==> t == 0 || t == DOOR_ON || t == DOOR_BACK || t == CHARM)
  {
  }

  /** What stands in every forest, */
  lemma ForestHolds(d: Draws)
    ensures
      var m := Forest(d);
      && At(m, 3, 3) == TABLET && At(m, 6, 6) == SHRINE && At(m, 6, 2) == STONE && At(m, 3, 4) == GRASS
      && At(m, GW - 1, 4) == DOOR_ON && At(m, 0, 4) == WALL
  {
    hide Put, Carve, Empty, Pond, At;
    CarveChangesOnlySpots(Empty(), GRASS, 14, d.forest);
  }

  /** with a pond of three by two wherever it was drawn, less what tufts and stones stand in it; */
  lemma PondHolds(d: Draws, x: int, y: int)
    requires Drawable(d)
    ensures At(Forest(d), x, y) == WATER <==>
            && d.px <= x <= d.px + 2 && d.py <= y <= d.py + 1
            && At(Carve(Empty(), GRASS, 14, d.forest).0, x, y) == 0 && !(x == 6 && (y == 2 || y == 6))
    ensures At(Forest(d), x, y) == WATER ==> 4 <= x <= 15 && 2 <= y <= 5
  {
    hide Put, Carve, Empty, Pond, At;
    CarveChangesOnlySpots(Empty(), GRASS, 14, d.forest);
  }

  /** Ten rocks stand in the cave where they were drawn, but for what was put there by hand, */
  lemma TenRocks(d: Draws, i: nat)
    requires |d.cave| == 10 && Scattered(d.cave) && i < 10
    ensures
      var c := d.cave[i];
      var byHand := (c.y == 6 && (c.x == 4 || c.x == 9 || c.x == 14)) || (c.y == 2 && (c.x == 16 || c.x == 17));
      !byHand ==> At(Cave(d), c.x, c.y) == WALL
  {
    hide Put, Carve, Empty, At;
    CarveTakes(Empty(), WALL, d.cave);
    assert d.cave[i] == Cell(d.cave[i].x, d.cave[i].y) && d.cave[i] in d.cave;
  }

  /** and six in the altar, off the guardian's floor and the chest. */
  lemma SixRocks(d: Draws, i: nat)
    requires |d.altar| == 6 && Scattered(d.altar) && i < 6
    ensures
      var c := d.altar[i];
      c.x < 12 && !(c.x == 10 && c.y == 4) ==> At(Altar(d), c.x, c.y) == WALL
  {
    hide Put, Carve, Empty, At;
    CarveTakes(Empty(), WALL, d.altar);
    assert d.altar[i] == Cell(d.altar[i].x, d.altar[i].y) && d.altar[i] in d.altar;
  }

  /** every cave, the three marks in their order, */
  lemma CaveHolds(d: Draws)
    ensures
      var m := Cave(d);
      && At(m, 4, 6) == MARK && At(m, 9, 6) == MARK + 1 && At(m, 14, 6) == MARK + 2
      && At(m, 16, 2) == PAID_DOOR && At(m, 17, 2) == CHARM
      && At(m, 0, 4) == DOOR_BACK && At(m, GW - 1, 4) == DOOR_ON
      && At(m, 6, 0) == TORCH && At(m, 13, 0) == TORCH
  {
    hide Put, Carve, Empty, At;
  }

  /** and every altar: the chest, and the guardian's floor, open throughout. */
  lemma AltarHolds(d: Draws)
    ensures
      var m := Altar(d);
      && At(m, 10, 4) == CHEST && At(m, 0, 4) == DOOR_BACK && At(m, GW - 1, 4) == WALL
      && forall x, y :: 12 <= x < 18 && 2 <= y < 7 ==> At(m, x, y) == 0
  {
    hide Put, Carve, Empty, At;
    CarveChangesOnlySpots(Empty(), WALL, 6, d.altar);
  }

  /** Three hearts, nothing held, nothing down, the lock shut, the guardian whole, and every roamer
      alive where it spawned. */
  ghost predicate JustWoken(w: World, k: Waking)
    requires Formed(w)
  {
    && w.room == FOREST && w.phase == Playing && w.keyDrop.None? && w.firstCut && w.pity == 0
    && !w.seal.solved && w.seal.progress == 0
    && w.hero == Hero(104.0, 144.0, 2, 3, 3, 0, false, false, 0, false, 0)
    && w.guard == Guardian(520.0, 160.0, 6, true, 0)
    && |w.roamers[FOREST]| == 0 && |w.roamers[CAVE]| == |k.cave| && |w.roamers[ALTAR]| == |k.altar|
    && (forall i :: 0 <= i < |k.cave| ==> w.roamers[CAVE][i] == Spawned(k.cave[i]))
    && (forall i :: 0 <= i < |k.altar| ==> w.roamers[ALTAR][i] == Spawned(k.altar[i]))
  }

  /** So a round starts, in the forest, over the three rooms as they were built. */
  lemma RoundStarts(k: Waking)
    requires CanWake(k)
    ensures JustWoken(Played(k, []), k)
    ensures Played(k, []).rooms == [Forest(k.d), Cave(k.d), Altar(k.d)]
  {
    hide CanWake, Drawn, Forest, Cave, Altar, Tufts, Spawned;
  }

  /** Where a roamer spawns: on its tile, which is open; in the altar not by the chest; and out of
      reach of a hero at the left door, some three tiles off at the least. */
  lemma SpawnsAwayFromTheDoor(m: Grid, r: int, at: Spot, y: real)
    requires Spawnable(m, r, at) && Row(y - RADIUS) == 4 && Row(y + RADIUS) == 4
    ensures
      var en := Spawned(at);
      && en.alive && Col(en.x) == at.x && Row(en.y) == at.y && At(m, at.x, at.y) == 0
      && (r == ALTAR ==> at.x <= 7 || at.x >= 13)
      && en.x - ENTER_LEFT >= 98.0 && !Near(ENTER_LEFT, y, en.x, en.y, 98.0)
  {
    var en := Spawned(at);
    var dx, dy := ENTER_LEFT - en.x, y - en.y;
    assert dx <= -98.0;
    assert dx * dx >= 98.0 * 98.0;
    assert dy * dy >= 0.0;
  }

  /** The comment asks for more: that none starts where it gives chase at once, within four tiles.
      One does exactly if it spawns in column 4, */
  lemma SpawnsOutsideTheChase(m: Grid, r: int, at: Spot, y: real)
    requires Spawnable(m, r, at) && Row(y - RADIUS) == 4 && Row(y + RADIUS) == 4
    ensures Near(ENTER_LEFT, y, Spawned(at).x, Spawned(at).y, 4.0 * TILE) <==> at.x == 4
  {
    var en := Spawned(at);
    var dx, dy := en.x - ENTER_LEFT, en.y - y;
    assert 154.0 <= y < 166.0;
    if at.x == 4 {
      assert at.y == 2 || at.y == 6;
      assert -78.0 <= dy <= 78.0;
      Squares(dy, 78.0);
      assert dx == 98.0;
    } else {
      assert dx >= 130.0;
      Squares(130.0, dx);
    }
  }

  lemma Squares(a: real, b: real)
    requires -b <= a <= b
    ensures a * a <= b * b
  {
    if a >= 0.0 {
      assert a * a <= a * b <= b * b;
    } else {
      assert (-a) * (-a) <= (-a) * b <= b * b;
    }
  }

  /** and some do. */
  lemma SpawnsInColumnFour()
    ensures Spawnable(Empty(), CAVE, Cell(4, 2)) && Spawnable(Empty(), CAVE, Cell(4, 6))
  {
    hide Empty, At;
  }
}
