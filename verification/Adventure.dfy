/** The world of src/sidra_ai/creation/adventure.py, one transition at a time.
    What the page draws at random, and where each creature decides to head, are inputs. */
module Adventure {
  import opened Wrappers
  import opened AdventureMap
  import opened KnowledgeLock

  const HP_CAP := 5
  const FOREST := 0
  const CAVE := 1
  const ALTAR := 2

  type Dir = d: int | 0 <= d < 4

  datatype Hero = Hero(x: real, y: real, dir: Dir, hp: int, maxhp: int, gems: int, key: bool, charm: bool,
                       swing: int, queued: bool, inv: int)

  datatype Roamer = Roamer(x: real, y: real, alive: bool)

  datatype Guardian = Guardian(x: real, y: real, hp: int, alive: bool, inv: int)

  datatype Phase = Playing | Lost | Won

  /** What has happened this round. The page keeps none of it; no transition reads it. */
  datatype Ledger = Ledger(tufts: nat, cuts: nat, paid: nat, hearts: nat, doors: nat, charms: nat, saves: nat,
                           frames: nat, blows: seq<nat>, hurts: seq<nat>, knocks: seq<Mark>)

  datatype World = World(order: seq<Mark>, rooms: seq<Grid>, room: int, hero: Hero, roamers: seq<seq<Roamer>>,
                         guard: Guardian, phase: Phase, keyDrop: Option<(real, real)>,
                         firstCut: bool, pity: int, seal: Seal, led: Ledger)

  predicate Formed(w: World) {
    && |w.order| == 3 && |w.rooms| == 3 && |w.roamers| == 3 && 0 <= w.room < 3
    && (w.seal.solved || w.seal.progress < 3)
  }

  function Here(w: World): Grid requires Formed(w) { w.rooms[w.room] }

  /** `Math.hypot(...) < r`, without the root. */
  predicate Near(px: real, py: real, qx: real, qy: real, r: real) {
    (px - qx) * (px - qx) + (py - qy) * (py - qy) < r * r
  }

  function TakeTile(w: World, tx: int, ty: int): (r: World)
    requires Formed(w) && InGrid(tx, ty)
    ensures Formed(r)
  {
    w.(rooms := w.rooms[w.room := Put(Here(w), tx, ty, 0)])
  }

  // --- the blade -----------------------------------------------------------

  /** `lucky` is `rand()<0.34`. */
  function CutGrass(w: World, tx: int, ty: int, lucky: bool): (r: World)
    requires Formed(w) && InGrid(tx, ty)
    ensures Formed(r)
  {
    var w := TakeTile(w, tx, ty).(led := w.led.(cuts := w.led.cuts + 1));
    if w.firstCut || w.pity >= 2 || lucky then
      w.(firstCut := false, pity := 0, hero := w.hero.(gems := w.hero.gems + 1), led := w.led.(paid := w.led.paid + 1))
    else w.(pity := w.pity + 1)
  }

  function TouchChest(w: World): World {
    if !w.hero.key || w.guard.alive then w else w.(phase := Won)
  }

  function TouchShrine(w: World): World {
    var h := w.hero;
    if h.maxhp >= HP_CAP || h.gems < 3 then w
    else w.(hero := h.(gems := h.gems - 3, maxhp := h.maxhp + 1, hp := h.maxhp + 1), led := w.led.(hearts := w.led.hearts + 1))
  }

  function TouchPaidDoor(w: World, tx: int, ty: int): (r: World)
    requires Formed(w) && InGrid(tx, ty)
    ensures Formed(r)
  {
    if w.hero.gems < 2 then w
    else
      var w := TakeTile(w, tx, ty);
      w.(hero := w.hero.(gems := w.hero.gems - 2), led := w.led.(doors := w.led.doors + 1))
  }

  function KnockMark(w: World, mark: Mark): (r: World)
    requires Formed(w)
    ensures Formed(r)
  {
    var seal := Knock(w.order, w.seal, mark);
    var opens := seal.solved && !w.seal.solved && !w.hero.key && w.keyDrop.None?;
    w.(seal := seal, led := w.led.(knocks := w.led.knocks + [mark]),
       keyDrop := if opens then Some((w.hero.x, w.hero.y)) else w.keyDrop)
  }

  function StrikeTile(w: World, tx: int, ty: int, lucky: bool): (r: World)
    requires Formed(w) && InGrid(tx, ty)
    ensures Formed(r)
  {
    var t := At(Here(w), tx, ty);
    if t == GRASS then CutGrass(w, tx, ty, lucky)
    else if t == CHEST then TouchChest(w)
    else if t == SHRINE then TouchShrine(w)
    else if t == PAID_DOOR then TouchPaidDoor(w, tx, ty)
    else if MARK <= t <= MARK + 2 then KnockMark(w, t - MARK)
    else w
  }

  predicate AllDown(rs: seq<Roamer>) { forall i :: 0 <= i < |rs| ==> !rs[i].alive }

  function WithRoamer(w: World, i: nat, en: Roamer): (r: World)
    requires Formed(w) && i < |w.roamers[w.room]|
    ensures Formed(r)
  {
    w.(roamers := w.roamers[w.room := w.roamers[w.room][i := en]])
  }

  /** The blade's tip at (fx, fy), tried on the roamers of this room from the i-th on. */
  function StrikeRoamers(w: World, fx: real, fy: real, i: nat): (r: World)
    requires Formed(w) && i <= |w.roamers[w.room]|
    ensures Formed(r)
    decreases |w.roamers[w.room]| - i
  {
    if i == |w.roamers[w.room]| then w
    else
      var en := w.roamers[w.room][i];
      if en.alive && Near(en.x, en.y, fx, fy, 22.0) then
        var w := WithRoamer(w, i, en.(alive := false));
        var w := if w.room == CAVE && AllDown(w.roamers[CAVE]) then w.(keyDrop := Some((en.x, en.y))) else w;
        StrikeRoamers(w, fx, fy, i + 1)
      else StrikeRoamers(w, fx, fy, i + 1)
  }

  function Across(d: Dir, reach: real): real { if d == 1 then reach else if d == 3 then -reach else 0.0 }

  function Down(d: Dir, reach: real): real { if d == 2 then reach else if d == 0 then -reach else 0.0 }

  function StrikeGuard(w: World, fx: real, fy: real): World {
    var g := w.guard;
    if w.room == ALTAR && g.alive && g.inv <= 0 && Near(g.x, g.y, fx, fy, 30.0) then
      w.(guard := Guardian(g.x + Across(w.hero.dir, 12.0), g.y + Down(w.hero.dir, 12.0), g.hp - 1, g.hp - 1 > 0, 30),
         led := w.led.(blows := w.led.blows + [w.led.frames]))
    else w
  }

  function Swing(w: World, lucky: bool): (r: World)
    requires Formed(w)
    ensures Formed(r)
  {
    var h := w.hero;
    if w.phase != Playing then w
    else if h.swing > 0 then w.(hero := h.(queued := true))
    else
      var fx, fy := h.x + Across(h.dir, 20.0), h.y + Down(h.dir, 20.0);
      var tx, ty := Col(fx), Row(fy);
      var w := w.(hero := h.(swing := 10));
      var w := if InGrid(tx, ty) then StrikeTile(w, tx, ty, lucky) else w;
      StrikeGuard(StrikeRoamers(w, fx, fy, 0), fx, fy)
  }

  // --- moving --------------------------------------------------------------

  datatype Keys = Keys(left: bool, right: bool, up: bool, down: bool)

  function Shove(w: World, dx: real, dy: real): (r: World)
    requires Formed(w)
    ensures Formed(r)
  {
    var (x, y) := Slide(Here(w), w.hero.x, w.hero.y, dx, dy);
    w.(hero := w.hero.(x := x, y := y))
  }

  const STRIDE := 2.2

  function Walk(w: World, keys: Keys): (r: World)
    requires Formed(w)
    ensures Formed(r)
  {
    var vx := if keys.right then STRIDE else if keys.left then -STRIDE else 0.0;
    var vy := if keys.down then STRIDE else if keys.up then -STRIDE else 0.0;
    var dir := if keys.down then 2 else if keys.up then 0 else if keys.right then 1 else if keys.left then 3 else w.hero.dir;
    Shove(w.(hero := w.hero.(dir := dir)), vx, vy)
  }

  function Max(a: int, b: int): int { if a < b then b else a }

  function Enter(w: World, room: int, x: real): World {
    w.(room := room, hero := w.hero.(x := x, inv := Max(w.hero.inv, 45)))
  }

  function StandOn(w: World): (r: World)
    requires Formed(w)
    ensures Formed(r)
  {
    var h := w.hero;
    var t := TileAt(Here(w), h.x, h.y);
    if t == DOOR_ON && w.room < 2 then Enter(w, w.room + 1, ENTER_LEFT)
    else if t == DOOR_BACK && w.room > 0 then Enter(w, w.room - 1, ENTER_RIGHT)
    else if t == CHARM then
      var w := TakeTile(w, Col(h.x), Row(h.y));
      w.(hero := h.(charm := true, hp := h.maxhp), led := w.led.(charms := w.led.charms + 1))
    else w
  }

  function PickUpKey(w: World): World {
    if w.keyDrop.Some? && w.room == CAVE && Near(w.hero.x, w.hero.y, w.keyDrop.value.0, w.keyDrop.value.1, 20.0)
    then w.(hero := w.hero.(key := true), keyDrop := None)
    else w
  }

  function MoveHero(w: World, keys: Keys): (r: World)
    requires Formed(w)
    ensures Formed(r)
  {
    PickUpKey(StandOn(Walk(w, keys)))
  }

  /** A creature's turn: where it heads this frame, and where its blow would shove the hero. */
  datatype Turn = Turn(vx: real, vy: real, sx: real, sy: real)

  const Still := Turn(0.0, 0.0, 0.0, 0.0)

  function CharmSave(w: World): World {
    w.(hero := w.hero.(charm := false, hp := 1, inv := 90), led := w.led.(saves := w.led.saves + 1))
  }

  /** One heart, sixty frames of mercy, the shove, and then the charm or the end. */
  function TakeBlow(w: World, sx: real, sy: real): (r: World)
    requires Formed(w)
    ensures Formed(r)
  {
    var w := w.(hero := w.hero.(hp := w.hero.hp - 1, inv := 60), led := w.led.(hurts := w.led.hurts + [w.led.frames]));
    var w := Shove(w, sx, sy);
    if w.hero.hp > 0 then w
    else if w.hero.charm then CharmSave(w)
    else w.(phase := Lost)
  }

  /** A point moved axis by axis, each half only onto open ground. */
  function Tread(m: Grid, x: real, y: real, vx: real, vy: real): (real, real) {
    var x' := if SolidAt(m, x + vx, y) then x else x + vx;
    var y' := if SolidAt(m, x', y + vy) then y else y + vy;
    (x', y')
  }

  function TurnAt(turns: seq<Turn>, i: nat): Turn { if i < |turns| then turns[i] else Still }

  /** The roamers of this room, from the i-th on. The distance is the one before its step. */
  function MoveRoamers(w: World, turns: seq<Turn>, i: nat): (r: World)
    requires Formed(w) && i <= |w.roamers[w.room]|
    ensures Formed(r)
    decreases |w.roamers[w.room]| - i
  {
    if i == |w.roamers[w.room]| then w
    else MoveRoamers(MoveRoamer(w, TurnAt(turns, i), i), turns, i + 1)
  }

  function MoveRoamer(w: World, turn: Turn, i: nat): (r: World)
    requires Formed(w) && i < |w.roamers[w.room]|
    ensures Formed(r) && r.room == w.room && |r.roamers[r.room]| == |w.roamers[w.room]|
  {
    var en := w.roamers[w.room][i];
    if !en.alive then w
    else
      var (x, y) := Tread(Here(w), en.x, en.y, turn.vx, turn.vy);
      var moved := WithRoamer(w, i, en.(x := x, y := y));
      if w.hero.inv <= 0 && Near(w.hero.x, w.hero.y, en.x, en.y, 16.0) then TakeBlow(moved, turn.sx, turn.sy)
      else moved
  }

  function MoveGuard(w: World, turn: Turn): (r: World)
    requires Formed(w)
    ensures Formed(r)
  {
    var g := w.guard;
    if w.room != ALTAR || !g.alive then w
    else
      var (x, y) := Tread(Here(w), g.x, g.y, turn.vx, turn.vy);
      var w := w.(guard := g.(x := x, y := y, inv := if g.inv > 0 then g.inv - 1 else g.inv));
      if w.hero.inv <= 0 && Near(w.hero.x, w.hero.y, x, y, 24.0) then TakeBlow(w, turn.sx, turn.sy)
      else w
  }

  // --- a frame -------------------------------------------------------------

  datatype Input = Input(keys: Keys, lucky: bool, roamers: seq<Turn>, guard: Turn)

  /** The arm comes down, and a queued blow is struck the frame it is free. */
  function LowerArm(w: World, lucky: bool): (r: World)
    requires Formed(w)
    ensures Formed(r)
  {
    var h := w.hero;
    if h.swing <= 0 then w
    else if h.swing - 1 == 0 && h.queued then Swing(w.(hero := h.(swing := 0, queued := false)), lucky)
    else w.(hero := h.(swing := h.swing - 1))
  }

  function LoseMercy(w: World): World {
    w.(hero := w.hero.(inv := if w.hero.inv > 0 then w.hero.inv - 1 else w.hero.inv), led := w.led.(frames := w.led.frames + 1))
  }

  function Frame(w: World, input: Input): (r: World)
    requires Formed(w)
    ensures Formed(r)
  {
    if w.phase != Playing then w
    else
      var w := LoseMercy(LowerArm(w, input.lucky));
      MoveGuard(MoveRoamers(MoveHero(w, input.keys), input.roamers, 0), input.guard)
  }

  /** A round: presses of the blade between frames of the world. */
  datatype Op = Press(lucky: bool) | Advance(input: Input)

  function Step(w: World, op: Op): (r: World)
    requires Formed(w)
    ensures Formed(r)
  {
    match op
    case Press(lucky) => Swing(w, lucky)
    case Advance(input) => Frame(w, input)
  }

  function Round(w: World, ops: seq<Op>): (r: World)
    requires Formed(w)
    ensures Formed(r)
  {
    if ops == [] then w else Step(Round(w, ops[..|ops| - 1]), ops[|ops| - 1])
  }

  // --- waking --------------------------------------------------------------

  function Spawned(at: Spot): Roamer {
    Roamer(OX + at.x as real * TILE + 8.0, OY + at.y as real * TILE + 8.0, true)
  }

  /** What `spawn` accepts in room r: open floor, not by the chest, not beside the entrance. */
  predicate Spawnable(m: Grid, r: int, at: Spot) {
    && At(m, at.x, at.y) == 0
    && !(r == ALTAR && 7 < at.x < 13)
    && !(at.x - 1 + (if at.y < 4 then 4 - at.y else at.y - 4) < 5)
  }

  /** Everything a reset draws can be drawn. */
  predicate Drawn(d: Draws, cave: seq<Spot>, altar: seq<Spot>) {
    && Drawable(d)
    && (forall i :: 0 <= i < |cave| ==> Spawnable(Cave(d), CAVE, cave[i]))
    && (forall i :: 0 <= i < |altar| ==> Spawnable(Altar(d), ALTAR, altar[i]))
  }

  function Swarm(spots: seq<Spot>): seq<Roamer> { seq(|spots|, i requires 0 <= i < |spots| => Spawned(spots[i])) }

  const AtWaking := Hero(WAKE_X, WAKE_Y, 2, 3, 3, 0, false, false, 0, false, 0)

  const Guarding := Guardian(OX + 15.0 * TILE, OY + 4.0 * TILE + 16.0, 6, true, 0)

  function NothingYet(tufts: nat): Ledger { Ledger(tufts, 0, 0, 0, 0, 0, 0, 0, [], [], []) }

  /** `reset`, over what it draws: the maps and where each roamer spawns. */
  function Wake(order: seq<Mark>, d: Draws, cave: seq<Spot>, altar: seq<Spot>): (w: World)
    requires |order| == 3 && Drawn(d, cave, altar)
    ensures Formed(w)
  {
    World(order, Build(d), FOREST, AtWaking, [[], Swarm(cave), Swarm(altar)], Guarding,
          Playing, None, true, 0, Shut, NothingYet(Tufts(Forest(d))))
  }

  function Tufts(m: Grid): nat {
    |set x, y | 0 <= x < GW && 0 <= y < GH && At(m, x, y) == GRASS :: Cell(x, y)|
  }
}
