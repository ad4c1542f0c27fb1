/** The page's own script-level state, changed in place, and its functions against the transitions. */
module AdventureGame {
  import opened Wrappers
  import opened AdventureMap
  import opened KnowledgeLock
  import opened Adventure

  lemma SameTilesSameGrid(a: Grid, b: Grid)
    requires forall x, y :: At(a, x, y) == At(b, x, y)
    ensures a == b
  {
    forall y | 0 <= y < GH
      ensures a[y] == b[y]
    {
      forall x | 0 <= x < GW
        ensures a[y][x] == b[y][x]
      {
        assert At(a, x, y) == At(b, x, y);
      }
    }
  }

  /** `carve`, over the spots it draws. */
  method CarveInto(m0: Grid, code: int, n: nat, draws: seq<Spot>) returns (m: Grid, owed: nat)
    ensures (m, owed) == Carve(m0, code, n, draws)
  {
    m := m0;
    var put, i := 0, 0;
    while put < n && i < |draws|
      invariant 0 <= put <= n && 0 <= i <= |draws|
      invariant Carve(m, code, n - put, draws[i..]) == Carve(m0, code, n, draws)
      decreases |draws| - i
    {
      var d := draws[i];
      assert draws[i..][0] == d && draws[i..][1..] == draws[i + 1..];
      if At(m, d.x, d.y) == 0 {
        m := Put(m, d.x, d.y, code);
        put := put + 1;
      }
      i := i + 1;
    }
    owed := n - put;
  }

  method PondInto(m0: Grid, px: int, py: int) returns (m: Grid)
    requires 0 <= px && px + 3 <= GW && 0 <= py && py + 2 <= GH
    ensures m == Pond(m0, px, py)
  {
    m := m0;
    for y := py to py + 2
      invariant forall i, j :: At(m, i, j) == if px <= i < px + 3 && py <= j < y && At(m0, i, j) == 0 then WATER else At(m0, i, j)
    {
      for x := px to px + 3
        invariant forall i, j :: At(m, i, j) ==
                    if px <= i < px + 3 && py <= j <= y && (j < y || i < x) && At(m0, i, j) == 0 then WATER else At(m0, i, j)
      {
        if At(m, x, y) == 0 {
          m := Put(m, x, y, WATER);
        }
      }
    }
    SameTilesSameGrid(m, Pond(m0, px, py));
  }

  method ArenaInto(m0: Grid) returns (m: Grid)
    ensures m == Arena(m0)
  {
    m := m0;
    for y := 2 to 7
      invariant forall i, j :: At(m, i, j) == if 12 <= i < 18 && 2 <= j < y then 0 else At(m0, i, j)
    {
      for x := 12 to 18
        invariant forall i, j :: At(m, i, j) == if 12 <= i < 18 && 2 <= j <= y && (j < y || i < x) then 0 else At(m0, i, j)
      {
        m := Put(m, x, y, 0);
      }
    }
    SameTilesSameGrid(m, Arena(m0));
  }

  method BuildRooms(d: Draws) returns (rooms: seq<Grid>)
    requires Drawable(d)
    ensures rooms == Build(d) && |rooms| == 3
  {
    hide Carve, Empty, Pond, Arena, At;
    var forest, owed := CarveInto(Empty(), GRASS, 14, d.forest);
    forest := PondInto(forest, d.px, d.py);
    forest := Put(Put(forest, 3, 3, TABLET), GW - 1, 4, DOOR_ON);
    forest := Put(forest, 3, 4, GRASS);
    forest := Put(forest, 6, 6, SHRINE);
    forest := Put(forest, 6, 2, STONE);
    var cave, owed' := CarveInto(Empty(), WALL, 10, d.cave);
    cave := Put(Put(cave, 6, 0, TORCH), 13, 0, TORCH);
    cave := Put(Put(cave, 0, 4, DOOR_BACK), GW - 1, 4, DOOR_ON);
    cave := Put(Put(Put(cave, 4, 6, MARK), 9, 6, MARK + 1), 14, 6, MARK + 2);
    cave := Put(Put(cave, 16, 2, PAID_DOOR), 17, 2, CHARM);
    cave := Put(Put(Put(Put(Put(cave, 16, 1, WALL), 17, 1, WALL), 16, 3, WALL), 17, 3, WALL), 18, 2, WALL);
    var altar, owed'' := CarveInto(Empty(), WALL, 6, d.altar);
    altar := Put(Put(altar, 0, 4, DOOR_BACK), 10, 4, CHEST);
    altar := ArenaInto(altar);
    rooms := [forest, cave, altar];
  }

  method SpawnAll(spots: seq<Spot>) returns (rs: seq<Roamer>)
    ensures rs == Swarm(spots)
  {
    rs := [];
    for i := 0 to |spots|
      invariant rs == Swarm(spots[..i])
    {
      rs := rs + [Spawned(spots[i])];
    }
    assert spots[..|spots|] == spots;
  }

  class Game {
    const order: seq<Mark>
    var rooms: seq<Grid>
    var room: int
    var hero: Hero
    var roamers: seq<seq<Roamer>>
    var guard: Guardian
    var phase: Phase
    var keyDrop: Option<(real, real)>
    var firstCut: bool
    var pity: int
    var seal: Seal
    ghost var led: Ledger

    ghost function Snapshot(): World
      reads this
    {
      World(order, rooms, room, hero, roamers, guard, phase, keyDrop, firstCut, pity, seal, led)
    }

    ghost predicate Valid() reads this { Formed(Snapshot()) }

    constructor (seed: nat, d: Draws, cave: seq<Spot>, altar: seq<Spot>)
      requires Drawn(d, cave, altar)
      ensures Valid() && Snapshot() == Wake(Order(seed), d, cave, altar)
    {
      hide Wake, Spawnable, Order;
      var shuffled := Shuffle(seed);
      order := shuffled;
      new;
      Reset(d, cave, altar);
    }

    /** `build`: the maps, the guardian and the roamers. */
    method Populate(d: Draws, cave: seq<Spot>, altar: seq<Spot>)
      requires Drawn(d, cave, altar)
      modifies this`rooms, this`guard, this`roamers
      ensures rooms == Build(d) && guard == Guarding && roamers == [[], Swarm(cave), Swarm(altar)]
    {
      hide Build, Spawnable, Swarm;
      rooms := BuildRooms(d);
      guard := Guarding;
      var inCave := SpawnAll(cave);
      var inAltar := SpawnAll(altar);
      roamers := [[], inCave, inAltar];
    }

    method Reset(d: Draws, cave: seq<Spot>, altar: seq<Spot>)
      requires |order| == 3 && Drawn(d, cave, altar)
      modifies this
      ensures Valid() && Snapshot() == Wake(order, d, cave, altar)
    {
      hide Spawnable, Tufts, Swarm, Forest, Cave, Altar;
      Populate(d, cave, altar);
      room, keyDrop, phase, firstCut, pity, seal := FOREST, None, Playing, true, 0, Shut;
      hero := AtWaking;
      led := NothingYet(Tufts(Forest(d)));
    }

    method Knock(mark: Mark)
      requires Valid()
      modifies this`seal, this`keyDrop, this`led
      ensures Snapshot() == KnockMark(old(Snapshot()), mark)
    {
      led := led.(knocks := led.knocks + [mark]);
      if seal.solved { return; }
      if order[seal.progress] == mark {
        seal := seal.(progress := seal.progress + 1);
        if seal.progress >= 3 {
          seal := seal.(solved := true);
          if !hero.key && keyDrop.None? {
            keyDrop := Some((hero.x, hero.y));
          }
        }
      } else {
        seal := seal.(progress := if order[0] == mark then 1 else 0);
      }
    }

    method Cut(tx: int, ty: int, lucky: bool)
      requires Valid() && InGrid(tx, ty)
      modifies this`rooms, this`led, this`firstCut, this`pity, this`hero
      ensures Snapshot() == CutGrass(old(Snapshot()), tx, ty, lucky)
    {
      hide Put;
      rooms := rooms[room := Put(rooms[room], tx, ty, 0)];
      led := led.(cuts := led.cuts + 1);
      assert Snapshot() == TakeTile(old(Snapshot()), tx, ty).(led := led);
      hide TakeTile;
      if firstCut || pity >= 2 || lucky {
        firstCut, pity := false, 0;
        hero := hero.(gems := hero.gems + 1);
        led := led.(paid := led.paid + 1);
      } else {
        pity := pity + 1;
      }
    }

    method StrikeAt(tx: int, ty: int, lucky: bool)
      requires Valid() && InGrid(tx, ty)
      modifies this
      ensures Snapshot() == StrikeTile(old(Snapshot()), tx, ty, lucky)
    {
      hide Put, At, KnockMark, CutGrass;
      var t := At(rooms[room], tx, ty);
      if t == GRASS {
        Cut(tx, ty, lucky);
      }
      if t == CHEST && hero.key && !guard.alive {
        phase := Won;
      }
      if t == SHRINE && hero.maxhp < HP_CAP && hero.gems >= 3 {
        hero := hero.(gems := hero.gems - 3);
        hero := hero.(maxhp := hero.maxhp + 1);
        hero := hero.(hp := hero.maxhp);
        led := led.(hearts := led.hearts + 1);
      }
      if t == PAID_DOOR && hero.gems >= 2 {
        hero := hero.(gems := hero.gems - 2);
        rooms := rooms[room := Put(rooms[room], tx, ty, 0)];
        led := led.(doors := led.doors + 1);
      }
      if t == MARK || t == MARK + 1 || t == MARK + 2 {
        Knock(t - MARK);
      }
    }

    method StrikeCreatures(fx: real, fy: real)
      requires Valid()
      modifies this`roamers, this`keyDrop, this`guard, this`led
      ensures Snapshot() == StrikeGuard(StrikeRoamers(old(Snapshot()), fx, fy, 0), fx, fy)
    {
      var i := 0;
      while i < |roamers[room]|
        invariant Valid() && room == old(room) && guard == old(guard) && led == old(led)
        invariant 0 <= i <= |roamers[room]|
        invariant StrikeRoamers(Snapshot(), fx, fy, i) == StrikeRoamers(old(Snapshot()), fx, fy, 0)
        decreases |roamers[room]| - i
      {
        var en := roamers[room][i];
        if en.alive && Near(en.x, en.y, fx, fy, 22.0) {
          roamers := roamers[room := roamers[room][i := en.(alive := false)]];
          if room == CAVE && AllDown(roamers[CAVE]) {
            keyDrop := Some((en.x, en.y));
          }
        }
        i := i + 1;
      }
      if room == ALTAR && guard.alive && guard.inv <= 0 && Near(guard.x, guard.y, fx, fy, 30.0) {
        guard := guard.(hp := guard.hp - 1, inv := 30);
        guard := guard.(x := guard.x + Across(hero.dir, 12.0), y := guard.y + Down(hero.dir, 12.0));
        guard := guard.(alive := guard.hp > 0);
        led := led.(blows := led.blows + [led.frames]);
      }
    }

    method Swing(lucky: bool)
      requires Valid()
      modifies this
      ensures Valid() && Snapshot() == Adventure.Swing(old(Snapshot()), lucky)
    {
      hide StrikeTile, StrikeRoamers, Near, Col, Row;
      if phase != Playing { return; }
      if hero.swing > 0 {
        hero := hero.(queued := true);
        return;
      }
      hero := hero.(swing := 10);
      var fx, fy := hero.x + Across(hero.dir, 20.0), hero.y + Down(hero.dir, 20.0);
      var tx, ty := Col(fx), Row(fy);
      if InGrid(tx, ty) {
        StrikeAt(tx, ty, lucky);
      }
      StrikeCreatures(fx, fy);
    }

    method Shove(dx: real, dy: real)
      requires Valid()
      modifies this`hero
      ensures Snapshot() == Adventure.Shove(old(Snapshot()), dx, dy)
    {
      hide Clear;
      var nx := hero.x + dx;
      if Clear(rooms[room], nx, hero.y) {
        hero := hero.(x := nx);
      }
      var ny := hero.y + dy;
      if Clear(rooms[room], hero.x, ny) {
        hero := hero.(y := ny);
      }
    }

    method MoveHero(keys: Keys)
      requires Valid()
      modifies this
      ensures Valid() && Snapshot() == Adventure.MoveHero(old(Snapshot()), keys)
    {
      hide StandOn, Adventure.Shove, Near;
      WalkOn(keys);
      StandHere();
      if keyDrop.Some? && room == CAVE && Near(hero.x, hero.y, keyDrop.value.0, keyDrop.value.1, 20.0) {
        hero := hero.(key := true);
        keyDrop := None;
      }
    }

    method WalkOn(keys: Keys)
      requires Valid()
      modifies this`hero
      ensures Valid() && Snapshot() == Walk(old(Snapshot()), keys)
    {
      hide Slide;
      var vx, vy := 0.0, 0.0;
      if keys.left { vx := -STRIDE; hero := hero.(dir := 3); }
      if keys.right { vx := STRIDE; hero := hero.(dir := 1); }
      if keys.up { vy := -STRIDE; hero := hero.(dir := 0); }
      if keys.down { vy := STRIDE; hero := hero.(dir := 2); }
      Shove(vx, vy);
    }

    method StandHere()
      requires Valid()
      modifies this
      ensures Valid() && Snapshot() == StandOn(old(Snapshot()))
    {
      hide Put, At, Col, Row;
      var t := TileAt(rooms[room], hero.x, hero.y);
      if t == DOOR_ON && room < 2 {
        room := room + 1;
        hero := hero.(x := ENTER_LEFT, inv := Max(hero.inv, 45));
      } else if t == DOOR_BACK && room > 0 {
        room := room - 1;
        hero := hero.(x := ENTER_RIGHT, inv := Max(hero.inv, 45));
      }
      if t == CHARM {
        TileInGrid(rooms[room], Col(hero.x), Row(hero.y));
        rooms := rooms[room := Put(rooms[room], Col(hero.x), Row(hero.y), 0)];
        hero := hero.(charm := true, hp := hero.maxhp);
        led := led.(charms := led.charms + 1);
      }
    }

    method CharmSave() returns (saved: bool)
      modifies this`hero, this`led
      ensures saved == old(hero.charm)
      ensures Snapshot() == if saved then Adventure.CharmSave(old(Snapshot())) else old(Snapshot())
    {
      if !hero.charm { return false; }
      hero := hero.(charm := false, hp := 1, inv := 90);
      led := led.(saves := led.saves + 1);
      return true;
    }

    method Hurt(sx: real, sy: real)
      requires Valid()
      modifies this`hero, this`led, this`phase
      ensures Snapshot() == TakeBlow(old(Snapshot()), sx, sy)
    {
      hero := hero.(hp := hero.hp - 1, inv := 60);
      led := led.(hurts := led.hurts + [led.frames]);
      Shove(sx, sy);
      if hero.hp <= 0 {
        var saved := CharmSave();
        if !saved {
          phase := Lost;
        }
      }
    }

    method MoveRoamers(turns: seq<Turn>)
      requires Valid()
      modifies this
      ensures Valid() && Snapshot() == Adventure.MoveRoamers(old(Snapshot()), turns, 0)
    {
      var i := 0;
      while i < |roamers[room]|
        invariant Valid() && 0 <= i <= |roamers[room]|
        invariant Adventure.MoveRoamers(Snapshot(), turns, i) == Adventure.MoveRoamers(old(Snapshot()), turns, 0)
        decreases |roamers[room]| - i
      {
        MoveOne(TurnAt(turns, i), i);
        i := i + 1;
      }
    }

    method MoveOne(turn: Turn, i: nat)
      requires Valid() && i < |roamers[room]|
      modifies this
      ensures Snapshot() == MoveRoamer(old(Snapshot()), turn, i)
    {
      var en := roamers[room][i];
      if !en.alive { return; }
      var near := Near(hero.x, hero.y, en.x, en.y, 16.0);
      var nx := en.x + turn.vx;
      if !SolidAt(rooms[room], nx, en.y) { en := en.(x := nx); }
      var ny := en.y + turn.vy;
      if !SolidAt(rooms[room], en.x, ny) { en := en.(y := ny); }
      roamers := roamers[room := roamers[room][i := en]];
      if hero.inv <= 0 && near {
        Hurt(turn.sx, turn.sy);
      }
    }

    method MoveGuard(turn: Turn)
      requires Valid()
      modifies this
      ensures Valid() && Snapshot() == Adventure.MoveGuard(old(Snapshot()), turn)
    {
      hide SolidAt, Near, TakeBlow;
      if room != ALTAR || !guard.alive { return; }
      if guard.inv > 0 { guard := guard.(inv := guard.inv - 1); }
      var nx := guard.x + turn.vx;
      if !SolidAt(rooms[room], nx, guard.y) { guard := guard.(x := nx); }
      var ny := guard.y + turn.vy;
      if !SolidAt(rooms[room], guard.x, ny) { guard := guard.(y := ny); }
      if hero.inv <= 0 && Near(hero.x, hero.y, guard.x, guard.y, 24.0) {
        Hurt(turn.sx, turn.sy);
      }
    }

    method LowerArm(lucky: bool)
      requires Valid()
      modifies this
      ensures Valid() && Snapshot() == Adventure.LowerArm(old(Snapshot()), lucky)
    {
      hide Adventure.Swing;
      if hero.swing > 0 {
        hero := hero.(swing := hero.swing - 1);
        if hero.swing == 0 && hero.queued {
          hero := hero.(queued := false);
          Swing(lucky);
        }
      }
    }

    /** The part of `step` behind the clock's gate. */
    method Advance(input: Input)
      requires Valid()
      modifies this
      ensures Valid() && Snapshot() == Frame(old(Snapshot()), input)
    {
      hide Adventure.Swing, Adventure.LowerArm, Adventure.MoveHero, Adventure.MoveRoamers, Adventure.MoveGuard;
      if phase != Playing { return; }
      LowerArm(input.lucky);
      if hero.inv > 0 { hero := hero.(inv := hero.inv - 1); }
      led := led.(frames := led.frames + 1);
      MoveHero(input.keys);
      MoveRoamers(input.roamers);
      MoveGuard(input.guard);
    }
  }
}
