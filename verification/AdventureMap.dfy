/** The tile maps of src/sidra_ai/creation/adventure.py, how they are built, and what stops a hero. */
module AdventureMap {
  const GW := 20
  const GH := 9
  const TILE := 32.0
  const OX := 40.0
  const OY := 16.0
  const RADIUS := 10.0

  const WALL := 1
  const GRASS := 2
  const WATER := 3
  const TORCH := 4
  const DOOR_ON := 5
  const DOOR_BACK := 6
  const CHEST := 7
  const TABLET := 8
  const SHRINE := 9
  const PAID_DOOR := 10
  const CHARM := 11
  const STONE := 12
  const MARK := 13  // the first of three

  type Grid = m: seq<seq<int>> | |m| == GH && (forall y :: 0 <= y < |m| ==> |m[y]| == GW)
    witness seq(GH, _ => seq(GW, _ => 0))

  datatype Cell = Cell(x: int, y: int)

  /** Where `carve` can draw: two tiles clear of the left and top edges, and of the others. */
  type Spot = c: Cell | 2 <= c.x < GW - 2 && 2 <= c.y < GH - 2 witness Cell(2, 2)

  predicate InGrid(x: int, y: int) { 0 <= x < GW && 0 <= y < GH }

  /** Beyond the map everything is wall. */
  function At(m: Grid, x: int, y: int): int {
    if InGrid(x, y) then m[y][x] else WALL
  }

  lemma TileInGrid(m: Grid, x: int, y: int)
    requires At(m, x, y) != WALL
    ensures InGrid(x, y)
  {
  }

  function Put(m: Grid, x: int, y: int, code: int): (r: Grid)
    requires InGrid(x, y)
    ensures At(r, x, y) == code
    ensures forall i, j :: i != x || j != y ==> At(r, i, j) == At(m, i, j)
  {
    m[y := m[y][x := code]]
  }

  predicate Solid(t: int) {
    t == WALL || t == GRASS || t == WATER || t == TORCH || t == CHEST || t == TABLET || t == SHRINE
    || t == PAID_DOOR || t == STONE || t == MARK || t == MARK + 1 || t == MARK + 2
  }

  // --- building ------------------------------------------------------------

  function Empty(): (m: Grid)
    ensures forall x, y :: At(m, x, y) == if InGrid(x, y) && x != 0 && y != 0 && x != GW - 1 && y != GH - 1 then 0 else WALL
  {
    seq(GH, y => seq(GW, x => if x == 0 || y == 0 || x == GW - 1 || y == GH - 1 then WALL else 0))
  }

  /** `carve` over the spots it happens to draw: n of them, taking only open floor.
      The second result is how many it still owes when the draws run out. */
  function Carve(m: Grid, code: int, n: nat, draws: seq<Spot>): (Grid, nat)
    decreases |draws|
  {
    if n == 0 || draws == [] then (m, n)
    else
      var d := draws[0];
      if At(m, d.x, d.y) == 0 then Carve(Put(m, d.x, d.y, code), code, n - 1, draws[1..])
      else Carve(m, code, n, draws[1..])
  }

  function Pond(m: Grid, px: int, py: int): (r: Grid)
    ensures forall x, y ::
              At(r, x, y) == if px <= x < px + 3 && py <= y < py + 2 && At(m, x, y) == 0 then WATER else At(m, x, y)
  {
    seq(GH, y => seq(GW, x =>
      if px <= x < px + 3 && py <= y < py + 2 && At(m, x, y) == 0 then WATER else At(m, x, y)))
  }

  function Arena(m: Grid): (r: Grid)
    ensures forall x, y :: At(r, x, y) == if 12 <= x < 18 && 2 <= y < 7 then 0 else At(m, x, y)
  {
    seq(GH, y => seq(GW, x => if 12 <= x < 18 && 2 <= y < 7 then 0 else At(m, x, y)))
  }

  /** Everything `build` draws: the spots offered to each `carve`, and the pond's corner. */
  datatype Draws = Draws(forest: seq<Spot>, px: int, py: int, cave: seq<Spot>, altar: seq<Spot>)

  predicate Drawable(d: Draws) { 4 <= d.px < 14 && 2 <= d.py < 5 }

  function Forest(d: Draws): Grid {
    var m := Pond(Carve(Empty(), GRASS, 14, d.forest).0, d.px, d.py);
    var m := Put(Put(Put(m, 3, 3, TABLET), GW - 1, 4, DOOR_ON), 3, 4, GRASS);
    Put(Put(m, 6, 6, SHRINE), 6, 2, STONE)
  }

  function Cave(d: Draws): Grid {
    var m := Put(Put(Carve(Empty(), WALL, 10, d.cave).0, 6, 0, TORCH), 13, 0, TORCH);
    var m := Put(Put(m, 0, 4, DOOR_BACK), GW - 1, 4, DOOR_ON);
    var m := Put(Put(Put(m, 4, 6, MARK), 9, 6, MARK + 1), 14, 6, MARK + 2);
    var m := Put(Put(m, 16, 2, PAID_DOOR), 17, 2, CHARM);
    Put(Put(Put(Put(Put(m, 16, 1, WALL), 17, 1, WALL), 16, 3, WALL), 17, 3, WALL), 18, 2, WALL)
  }

  function Altar(d: Draws): Grid {
    Arena(Put(Put(Carve(Empty(), WALL, 6, d.altar).0, 0, 4, DOOR_BACK), 10, 4, CHEST))
  }

  function Build(d: Draws): seq<Grid> { [Forest(d), Cave(d), Altar(d)] }

  lemma {:induction false} CarveChangesOnlySpots(m: Grid, code: int, n: nat, draws: seq<Spot>)
    requires code != 0
    ensures forall x, y :: At(Carve(m, code, n, draws).0, x, y) != At(m, x, y) ==>
              && At(m, x, y) == 0 && At(Carve(m, code, n, draws).0, x, y) == code
              && 2 <= x < GW - 2 && 2 <= y < GH - 2
    decreases |draws|
  {
    if n == 0 || draws == [] {
    } else {
      var d := draws[0];
      if At(m, d.x, d.y) == 0 {
        CarveChangesOnlySpots(Put(m, d.x, d.y, code), code, n - 1, draws[1..]);
      } else {
        CarveChangesOnlySpots(m, code, n, draws[1..]);
      }
    }
  }

  // --- what every map keeps ------------------------------------------------

  /** Side walls whole but for the doors, doors where they belong and clear on both landings,
      and each tile that can be taken away only where it was put. */
  ghost predicate SoundRoom(m: Grid, r: int) {
    && (forall y :: y != 4 ==> At(m, 0, y) == WALL && At(m, GW - 1, y) == WALL)
    && (forall x, y :: At(m, x, y) == DOOR_ON ==> r < 2 && x == GW - 1 && y == 4)
    && (forall x, y :: At(m, x, y) == DOOR_BACK ==> r > 0 && x == 0 && y == 4)
    && (forall x, y :: At(m, x, y) == GRASS ==> r == 0)
    && (forall x, y :: At(m, x, y) == PAID_DOOR ==> r == 1 && x == 16 && y == 2)
    && (forall x, y :: At(m, x, y) == CHARM ==> r == 1 && x == 17 && y == 2)
    && (forall x, y :: At(m, x, y) == CHEST ==> r == 2 && x == 10 && y == 4)
    && (r > 0 ==> !Solid(At(m, 0, 4)) && !Solid(At(m, 1, 4)))
    && (r < 2 ==> !Solid(At(m, GW - 2, 4)) && !Solid(At(m, GW - 1, 4)))
  }

  ghost predicate Sound(rooms: seq<Grid>) {
    |rooms| == 3 && forall r :: 0 <= r < 3 ==> SoundRoom(rooms[r], r)
  }

  /** What a room's overlays leave alone: everything but the cells they name. */
  lemma ForestIsSound(d: Draws)
    requires Drawable(d)
    ensures SoundRoom(Forest(d), 0)
  {
    hide Put, Carve, Empty, Pond, Arena, At;
    CarveChangesOnlySpots(Empty(), GRASS, 14, d.forest);
  }

  lemma CaveIsSound(d: Draws)
    ensures SoundRoom(Cave(d), 1)
  {
    hide Put, Carve, Empty, Pond, Arena, At;
    CarveChangesOnlySpots(Empty(), WALL, 10, d.cave);
  }

  lemma AltarIsSound(d: Draws)
    ensures SoundRoom(Altar(d), 2)
  {
    hide Put, Carve, Empty, Pond, Arena, At;
    CarveChangesOnlySpots(Empty(), WALL, 6, d.altar);
  }

  /** Whatever is drawn, the rooms come out sound. */
  lemma BuildIsSound(d: Draws)
    requires Drawable(d)
    ensures Sound(Build(d))
  {
    hide Forest, Cave, Altar, SoundRoom;
    ForestIsSound(d);
    CaveIsSound(d);
    AltarIsSound(d);
  }

  predicate Removable(t: int) { t == GRASS || t == PAID_DOOR || t == CHARM }

  lemma RemovingKeepsSound(m: Grid, r: int, x: int, y: int)
    requires SoundRoom(m, r) && InGrid(x, y) && Removable(At(m, x, y))
    ensures SoundRoom(Put(m, x, y, 0), r)
  {
    var m' := Put(m, x, y, 0);
    forall j | j != 4
      ensures At(m', 0, j) == WALL && At(m', GW - 1, j) == WALL
    {
      assert At(m, 0, j) == WALL && At(m, GW - 1, j) == WALL;
    }
    assert r > 0 ==> !Solid(At(m', 0, 4)) && !Solid(At(m', 1, 4));
    assert r < 2 ==> !Solid(At(m', GW - 2, 4)) && !Solid(At(m', GW - 1, 4));
    assert forall i, j :: At(m', i, j) == DOOR_ON ==> r < 2 && i == GW - 1 && j == 4;
    assert forall i, j :: At(m', i, j) == DOOR_BACK ==> r > 0 && i == 0 && j == 4;
    assert forall i, j :: At(m', i, j) == GRASS ==> r == 0;
    assert forall i, j :: At(m', i, j) == PAID_DOOR ==> r == 1 && i == 16 && j == 2;
    assert forall i, j :: At(m', i, j) == CHARM ==> r == 1 && i == 17 && j == 2;
    assert forall i, j :: At(m', i, j) == CHEST ==> r == 2 && i == 10 && j == 4;
  }

  // --- collision -----------------------------------------------------------

  function Col(px: real): int { ((px - OX) / TILE).Floor }

  function Row(py: real): int { ((py - OY) / TILE).Floor }

  function TileAt(m: Grid, px: real, py: real): int { At(m, Col(px), Row(py)) }

  predicate SolidAt(m: Grid, px: real, py: real) { Solid(TileAt(m, px, py)) }

  /** The hero's four corner points are off everything solid. */
  predicate Clear(m: Grid, x: real, y: real) {
    && !SolidAt(m, x - RADIUS, y - RADIUS) && !SolidAt(m, x + RADIUS, y - RADIUS)
    && !SolidAt(m, x - RADIUS, y + RADIUS) && !SolidAt(m, x + RADIUS, y + RADIUS)
  }

  /** Axis by axis, each half of the move made only if it lands clear. */
  function Slide(m: Grid, x: real, y: real, dx: real, dy: real): (real, real) {
    var x' := if Clear(m, x + dx, y) then x + dx else x;
    var y' := if Clear(m, x', y + dy) then y + dy else y;
    (x', y')
  }

  /** Four corners are enough: the footprint is narrower than a tile. */
  lemma FootprintIsClear(m: Grid, x: real, y: real, px: real, py: real)
    requires Clear(m, x, y)
    requires x - RADIUS <= px <= x + RADIUS && y - RADIUS <= py <= y + RADIUS
    ensures !SolidAt(m, px, py)
  {
    assert Col(px) == Col(x - RADIUS) || Col(px) == Col(x + RADIUS);
    assert Row(py) == Row(y - RADIUS) || Row(py) == Row(y + RADIUS);
  }

  lemma RemovingKeepsClear(m: Grid, tx: int, ty: int, x: real, y: real)
    requires InGrid(tx, ty) && Clear(m, x, y)
    ensures Clear(Put(m, tx, ty, 0), x, y)
  {
  }

  lemma BeyondIsWall(m: Grid, y: int)
    ensures At(m, -1, y) == WALL && At(m, GW, y) == WALL
  {
  }

  /** A clear hero standing on a door stands wholly in row 4, */
  lemma OnADoor(m: Grid, r: int, x: real, y: real)
    requires SoundRoom(m, r) && Clear(m, x, y)
    requires TileAt(m, x, y) == DOOR_ON || TileAt(m, x, y) == DOOR_BACK
    ensures Row(y - RADIUS) == 4 && Row(y + RADIUS) == 4
  {
    hide At;
    var c := Col(x);
    assert c == 0 || c == GW - 1;
    assert Col(x - RADIUS) <= c <= Col(x + RADIUS) <= c + 1 && c - 1 <= Col(x - RADIUS);
    BeyondIsWall(m, Row(y - RADIUS));
    BeyondIsWall(m, Row(y + RADIUS));
    var above, below := Row(y - RADIUS), Row(y + RADIUS);
    if c == 0 {
      assert At(m, 0, above) != WALL && At(m, 0, below) != WALL;
    } else {
      assert At(m, c, above) != WALL && At(m, c, below) != WALL;
      assert above != 4 ==> At(m, 0, above) == WALL;
      assert below != 4 ==> At(m, 0, below) == WALL;
    }
  }

  const ENTER_LEFT := OX + TILE + 6.0
  const ENTER_RIGHT := OX + (GW - 2) as real * TILE + 26.0

  /** so both landings, one room on and one room back, take it clear. */
  lemma LandingIsClear(m: Grid, r: int, y: real)
    requires SoundRoom(m, r) && Row(y - RADIUS) == 4 && Row(y + RADIUS) == 4
    ensures r > 0 ==> Clear(m, ENTER_LEFT, y)
    ensures r < 2 ==> Clear(m, ENTER_RIGHT, y)
  {
    assert Col(ENTER_LEFT - RADIUS) == 0 && Col(ENTER_LEFT + RADIUS) == 1;
    assert Col(ENTER_RIGHT - RADIUS) == GW - 2 && Col(ENTER_RIGHT + RADIUS) == GW - 1;
  }

  const WAKE_X := OX + 2.0 * TILE
  const WAKE_Y := OY + 4.0 * TILE

  /** The hero wakes clear exactly when neither tile its corners reach was drawn as grass. */
  lemma WakesClear(d: Draws)
    requires Drawable(d)
    ensures Clear(Forest(d), WAKE_X, WAKE_Y) <==>
            (At(Carve(Empty(), GRASS, 14, d.forest).0, 2, 3) != GRASS && At(Carve(Empty(), GRASS, 14, d.forest).0, 2, 4) != GRASS)
  {
    hide Put, Carve, Empty, Pond, At;
    CarveChangesOnlySpots(Empty(), GRASS, 14, d.forest);
    assert Col(WAKE_X - RADIUS) == 1 && Col(WAKE_X + RADIUS) == 2;
    assert Row(WAKE_Y - RADIUS) == 3 && Row(WAKE_Y + RADIUS) == 4;
  }

  // --- grass ---------------------------------------------------------------

  ghost function Grass(m: Grid): set<Cell> {
    set x, y | 0 <= x < GW && 0 <= y < GH && At(m, x, y) == GRASS :: Cell(x, y)
  }

  lemma PutGrass(m: Grid, x: int, y: int, code: int)
    requires InGrid(x, y)
    ensures Grass(Put(m, x, y, code)) == if code == GRASS then Grass(m) + {Cell(x, y)} else Grass(m) - {Cell(x, y)}
  {
  }

  lemma {:induction false} CarveGrows(m: Grid, n: nat, draws: seq<Spot>)
    ensures |Grass(Carve(m, GRASS, n, draws).0)| == |Grass(m)| + n - Carve(m, GRASS, n, draws).1
    decreases |draws|
  {
    if n == 0 || draws == [] {
    } else {
      var d := draws[0];
      if At(m, d.x, d.y) == 0 {
        PutGrass(m, d.x, d.y, GRASS);
        CarveGrows(Put(m, d.x, d.y, GRASS), n - 1, draws[1..]);
      } else {
        CarveGrows(m, n, draws[1..]);
      }
    }
  }

  /** Fourteen tufts are carved, but the tablet, the shrine and the stone are put on top of
      whatever was there: the forest holds 14 less the tufts they bury, and the waking tuft. */
  lemma TuftsInTheForest(d: Draws)
    requires Drawable(d) && Carve(Empty(), GRASS, 14, d.forest).1 == 0
    ensures
      var carved := Grass(Carve(Empty(), GRASS, 14, d.forest).0);
      && |carved| == 14
      && Grass(Forest(d)) == (carved - {Cell(3, 3), Cell(6, 6), Cell(6, 2)}) + {Cell(3, 4)}
      && |Grass(Forest(d))| == 14 - |carved * {Cell(3, 3), Cell(6, 6), Cell(6, 2)}| + (if Cell(3, 4) in carved then 0 else 1)
      && 11 <= |Grass(Forest(d))| <= 15
  {
    hide *;
    var carved := Grass(Carve(Empty(), GRASS, 14, d.forest).0);
    CarveGrows(Empty(), 14, d.forest);
    NoGrassYet();
    OverlaidGrass(d);
    var buried := {Cell(3, 3), Cell(6, 6), Cell(6, 2)};
    var kept := carved - buried;
    assert |kept| + |carved * buried| == |carved| by {
      assert kept + carved * buried == carved;
    }
    SmallerThanThree(carved * buried);
    if Cell(3, 4) in carved {
      assert kept + {Cell(3, 4)} == kept;
    }
  }

  lemma NoGrassYet()
    ensures Grass(Empty()) == {}
  {
  }

  lemma OverlaidGrass(d: Draws)
    requires Drawable(d)
    ensures Grass(Forest(d)) ==
            (Grass(Carve(Empty(), GRASS, 14, d.forest).0) - {Cell(3, 3), Cell(6, 6), Cell(6, 2)}) + {Cell(3, 4)}
  {
    hide Put, Empty, Pond, Carve, At;
    CarveChangesOnlySpots(Empty(), GRASS, 14, d.forest);
    var m := Carve(Empty(), GRASS, 14, d.forest).0;
    var before := (Grass(m) - {Cell(3, 3), Cell(6, 6), Cell(6, 2)}) + {Cell(3, 4)};
    forall c
      ensures c in Grass(Forest(d)) <==> c in before
    {
      assert c == Cell(c.x, c.y);
      assert c in Grass(m) <==> InGrid(c.x, c.y) && At(m, c.x, c.y) == GRASS;
      assert c in Grass(Forest(d)) <==> InGrid(c.x, c.y) && At(Forest(d), c.x, c.y) == GRASS;
    }
  }

  lemma SmallerThanThree(s: set<Cell>)
    requires s <= {Cell(3, 3), Cell(6, 6), Cell(6, 2)}
    ensures |s| <= 3
  {
    var rest := {Cell(3, 3), Cell(6, 6), Cell(6, 2)} - s;
    assert |s| + |rest| == |s + rest|;
    assert s + rest == {Cell(3, 3), Cell(6, 6), Cell(6, 2)};
  }
}
