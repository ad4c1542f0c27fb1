/** The seeded streams and the knowledge lock of src/sidra_ai/creation/adventure.py. */
module SeededStream {
  /** The Lehmer generator both streams use. */
  const MODULUS := 2147483647
  const FACTOR := 48271

  /** The factor's inverse modulo the modulus. */
  const INVERSE := 1899818559

  function Next(s: nat): (r: nat)
    ensures r < MODULUS
  {
    (s * FACTOR) % MODULUS
  }

  function Previous(s: nat): nat { (s * INVERSE) % MODULUS }

  /** `(SEED>>>0)||1`. */
  function Seeded(seed: int): nat {
    var s := seed % 0x1_0000_0000;
    if s == 0 then 1 else s
  }

  function After(s: nat, draws: nat): nat {
    if draws == 0 then s else Next(After(s, draws - 1))
  }

  /** `Math.floor(rand()*k)`, with `rand()` the state over the modulus. */
  function Pick(s: nat, k: nat): (j: nat)
    requires s < MODULUS && k > 0
    ensures j < k
  {
    Quotient(s, k);
    s * k / MODULUS
  }

  lemma Quotient(s: nat, k: nat)
    requires s < MODULUS && k > 0
    ensures 0 <= s * k / MODULUS < k
  {
    Scaled(s + 1, MODULUS, k);
    Distribute(s, 1, k);
    Below(s * k, k);
  }

  lemma Below(x: nat, k: nat)
    requires x < MODULUS * k
    ensures 0 <= x / MODULUS < k
  {
  }

  lemma Scaled(a: nat, b: nat, c: nat)
    requires a <= b
    ensures a * c <= b * c
  {
    Distribute(a, b - a, c);
  }

  lemma ModShift(x: nat, k: nat)
    ensures (x + k * MODULUS) % MODULUS == x % MODULUS
  {
  }

  lemma ModTimes(a: nat, b: nat)
    ensures ((a % MODULUS) * b) % MODULUS == (a * b) % MODULUS
  {
    var q, r := a / MODULUS, a % MODULUS;
    assert a * b == r * b + (q * b) * MODULUS by {
      Distribute(q * MODULUS, r, b);
      assert (q * MODULUS) * b == (q * b) * MODULUS;
    }
    ModShift(r * b, q * b);
  }

  lemma Distribute(x: nat, y: nat, b: nat)
    ensures (x + y) * b == x * b + y * b
  {
  }

  /** A draw can be undone, so no two states share a successor: the stream never merges. */
  lemma DrawIsInvertible(s: nat)
    ensures Previous(Next(s)) == s % MODULUS
  {
    ModTimes(s * FACTOR, INVERSE);
    var k := (FACTOR * INVERSE - 1) / MODULUS;
    assert FACTOR * INVERSE == k * MODULUS + 1;
    assert (s * FACTOR) * INVERSE == s + (s * k) * MODULUS;
    ModShift(s, s * k);
  }

  /** The state stays in 1..2147483646 for ever, unless the seed is a multiple of the modulus,
      and then it is 0 for ever. */
  lemma {:induction false} NeverCollapses(s: nat, draws: nat)
    requires draws > 0
    ensures After(s, draws) < MODULUS
    ensures After(s, draws) == 0 <==> s % MODULUS == 0
  {
    var before := After(s, draws - 1);
    if draws > 1 {
      NeverCollapses(s, draws - 1);
    }
    DrawIsInvertible(before);
    ModTimes(before, FACTOR);
  }

  /** Only two seeds collapse; every product a double has to hold is exact. */
  lemma SeedsThatCollapse(seed: int, draws: nat)
    ensures 1 <= Seeded(seed) < 0x1_0000_0000
    ensures Seeded(seed) % MODULUS == 0 <==> Seeded(seed) == MODULUS || Seeded(seed) == 2 * MODULUS
    ensures After(Seeded(seed), draws) * FACTOR < 0x20_0000_0000_0000
  {
    if draws > 0 {
      NeverCollapses(Seeded(seed), draws);
    }
  }
}

module KnowledgeLock {
  import opened SeededStream

  type Mark = int

  function Swap(o: seq<Mark>, i: nat, j: nat): (r: seq<Mark>)
    requires i < |o| && j < |o|
    ensures |r| == |o| && multiset(r) == multiset(o)
  {
    o[i := o[j]][j := o[i]]
  }

  /** The Fisher-Yates shuffle of KORDER: from index i down, each swapped with a drawn one. */
  function ShuffleFrom(o: seq<Mark>, i: nat, state: nat): (r: seq<Mark>)
    requires |o| == 3 && i < 3
    ensures |r| == 3 && multiset(r) == multiset(o)
    decreases i
  {
    if i == 0 then o
    else
      var s := Next(state);
      ShuffleFrom(Swap(o, i, Pick(s, i + 1)), i - 1, s)
  }

  ghost predicate IsOrder(o: seq<Mark>) {
    |o| == 3 && multiset(o) == multiset{0, 1, 2}
  }

  /** Whatever the state, also the collapsed one, the order names each mark once. */
  function Order(state: nat): (o: seq<Mark>)
    ensures IsOrder(o)
  {
    ShuffleFrom([0, 1, 2], 2, state)
  }

  /** KORDER as the page computes it, drawing from its own stream. */
  method Shuffle(seed: nat) returns (o: seq<Mark>)
    ensures o == Order(seed)
  {
    o := [0, 1, 2];
    var state, i := seed, 2;
    while i > 0
      invariant 0 <= i <= 2 && |o| == 3
      invariant ShuffleFrom(o, i, state) == Order(seed)
      decreases i
    {
      state := Next(state);
      o := Swap(o, i, Pick(state, i + 1));
      i := i - 1;
    }
  }

  /** The order two draws make: the first below 3, the second below 2. */
  function Shuffled(j2: nat, j1: nat): seq<Mark>
    requires j2 < 3 && j1 < 2
  {
    var o := [0, 1, 2][2 := j2][j2 := 2];
    o[1 := o[j1]][j1 := o[1]]
  }

  lemma OrderIsShuffled(state: nat)
    ensures Order(state) == Shuffled(Pick(Next(state), 3), Pick(Next(Next(state)), 2))
  {
    var once := Swap([0, 1, 2], 2, Pick(Next(state), 3));
    assert ShuffleFrom([0, 1, 2], 2, state) == ShuffleFrom(once, 1, Next(state));
    assert ShuffleFrom(once, 1, Next(state)) == Swap(once, 1, Pick(Next(Next(state)), 2));
  }

  /** Two states tell the same order exactly when their two draws are the same, so each of the
      six orders has one of the six pairs of draws to itself: the shuffle favours none. */
  lemma ShuffleIsFair(s: nat, t: nat)
    ensures Order(s) == Order(t) <==>
            Pick(Next(s), 3) == Pick(Next(t), 3) && Pick(Next(Next(s)), 2) == Pick(Next(Next(t)), 2)
  {
    hide Order, Pick, Next, Shuffled;
    OrderIsShuffled(s);
    OrderIsShuffled(t);
    if Order(s) == Order(t) {
      DrawsAreDistinguished(Pick(Next(s), 3), Pick(Next(Next(s)), 2), Pick(Next(t), 3), Pick(Next(Next(t)), 2));
    }
  }

  lemma DrawsAreDistinguished(a2: nat, a1: nat, b2: nat, b1: nat)
    requires a2 < 3 && a1 < 2 && b2 < 3 && b1 < 2 && Shuffled(a2, a1) == Shuffled(b2, b1)
    ensures a2 == b2 && a1 == b1
  {
    assert Shuffled(a2, a1)[2] == a2 && Shuffled(b2, b1)[2] == b2;
    var mid := [0, 1, 2][2 := a2][a2 := 2];
    assert mid[0] != mid[1];
    assert Shuffled(a2, a1)[1] == mid[a1] && Shuffled(b2, b1)[1] == mid[b1];
  }

  lemma MadeByDraws(o: seq<Mark>)
    requires IsOrder(o)
    ensures exists j2, j1 :: 0 <= j2 < 3 && 0 <= j1 < 2 && Shuffled(j2, j1) == o
  {
    var j2 := o[2];
    DistinctMarks(o);
    assert o[0] in multiset(o) && o[1] in multiset(o) && o[2] in multiset(o);
    var mid := [0, 1, 2][2 := j2][j2 := 2];
    var j1 := if o[1] == mid[0] then 0 else 1;
    assert Shuffled(j2, j1) == [o[0], o[1], o[2]] == o;
  }

  ghost predicate Told(o: seq<Mark>) { exists state :: 1 <= state < MODULUS && Order(state) == o }

  lemma Tells(state: nat)
    requires 1 <= state < MODULUS
    ensures Told(Shuffled(Pick(Next(state), 3), Pick(Next(Next(state)), 2)))
  {
    hide Order, Shuffled;
    OrderIsShuffled(state);
  }

  /** Six states between which their two draws take every pair of values. */
  lemma EveryPairIsDrawn()
    ensures Pick(Next(1), 3) == 0 && Pick(Next(Next(1)), 2) == 0
    ensures Pick(Next(6), 3) == 0 && Pick(Next(Next(6)), 2) == 1
    ensures Pick(Next(14830), 3) == 1 && Pick(Next(Next(14830)), 2) == 0
    ensures Pick(Next(14836), 3) == 1 && Pick(Next(Next(14836)), 2) == 1
    ensures Pick(Next(29659), 3) == 2 && Pick(Next(Next(29659)), 2) == 1
    ensures Pick(Next(29660), 3) == 2 && Pick(Next(Next(29660)), 2) == 0
  {
    assert Next(1) == 48271 && Next(48271) == 182605794;
    assert Next(6) == 289626 && Next(289626) == 1095634764;
    assert Next(14830) == 715858930 && Next(715858930) == 67046153;
    assert Next(14836) == 716148556 && Next(716148556) == 1162680917;
    assert Next(29659) == 1431669589 && Next(1431669589) == 2098970159;
    assert Next(29660) == 1431717860 && Next(1431717860) == 134092306;
  }

  /** And no order is out of reach: some state of the stream tells it. */
  lemma EveryOrderIsTold(o: seq<Mark>)
    requires IsOrder(o)
    ensures Told(o)
  {
    hide Order, Shuffled, Told, IsOrder, Pick, Next;
    MadeByDraws(o);
    EveryPairIsDrawn();
    Tells(1);
    Tells(6);
    Tells(14830);
    Tells(14836);
    Tells(29659);
    Tells(29660);
  }

  // --- the matcher ---------------------------------------------------------

  datatype Seal = Seal(progress: nat, solved: bool)

  const Shut := Seal(0, false)

  /** One knock, as `knock` moves `kprog` and `ksolved`. */
  function Knock(order: seq<Mark>, k: Seal, mark: Mark): Seal
    requires |order| == 3 && (k.solved || k.progress < 3)
  {
    if k.solved then k
    else if order[k.progress] == mark then Seal(k.progress + 1, k.progress + 1 >= 3)
    else Seal(if order[0] == mark then 1 else 0, false)
  }

  function Knocks(order: seq<Mark>, knocks: seq<Mark>): (k: Seal)
    requires |order| == 3
    ensures k.progress <= 3 && (k.solved <==> k.progress == 3)
  {
    if knocks == [] then Shut
    else Knock(order, Knocks(order, knocks[..|knocks| - 1]), knocks[|knocks| - 1])
  }

  /** The last k knocks are the first k marks of the order. */
  ghost predicate EndsWith(knocks: seq<Mark>, order: seq<Mark>, k: nat) {
    k <= |knocks| && k <= |order| && knocks[|knocks| - k..] == order[..k]
  }

  ghost predicate Occurs(knocks: seq<Mark>, order: seq<Mark>) {
    exists n :: 0 <= n <= |knocks| && EndsWith(knocks[..n], order, |order|)
  }

  lemma EndsWithLonger(knocks: seq<Mark>, mark: Mark, order: seq<Mark>, k: nat)
    requires k < |order|
    ensures EndsWith(knocks + [mark], order, k + 1) <==> EndsWith(knocks, order, k) && order[k] == mark
  {
    if k <= |knocks| {
      assert (knocks + [mark])[|knocks| - k..] == knocks[|knocks| - k..] + [mark];
      assert order[..k + 1] == order[..k] + [order[k]];
      if EndsWith(knocks + [mark], order, k + 1) {
        assert (knocks[|knocks| - k..] + [mark])[..k] == knocks[|knocks| - k..];
        assert (order[..k] + [order[k]])[..k] == order[..k];
        assert (order[..k] + [order[k]])[k] == order[k];
        assert (knocks[|knocks| - k..] + [mark])[k] == mark;
      }
    }
  }

  lemma OccursLonger(knocks: seq<Mark>, mark: Mark, order: seq<Mark>)
    ensures Occurs(knocks + [mark], order) <==> Occurs(knocks, order) || EndsWith(knocks + [mark], order, |order|)
  {
    var all := knocks + [mark];
    assert all[..|all|] == all;
    assert forall n :: 0 <= n <= |knocks| ==> all[..n] == knocks[..n];
    if Occurs(all, order) && !EndsWith(all, order, |order|) {
      var n :| 0 <= n <= |all| && EndsWith(all[..n], order, |order|);
      assert n <= |knocks| && EndsWith(knocks[..n], order, |order|);
    }
    if Occurs(knocks, order) {
      var n :| 0 <= n <= |knocks| && EndsWith(knocks[..n], order, |order|);
      assert EndsWith(all[..n], order, |order|);
    }
  }

  /** p is the longest ending of the knocks that begins the order. */
  ghost predicate LongestEnding(knocks: seq<Mark>, order: seq<Mark>, p: nat) {
    EndsWith(knocks, order, p) && forall j :: p < j <= |order| ==> !EndsWith(knocks, order, j)
  }

  lemma ProgressStep(order: seq<Mark>, before: seq<Mark>, mark: Mark, p: nat)
    requires IsOrder(order) && p < 3 && LongestEnding(before, order, p)
    ensures LongestEnding(before + [mark], order, Knock(order, Seal(p, false), mark).progress)
  {
    DistinctMarks(order);
    EndsWithLonger(before, mark, order, 0);
    EndsWithLonger(before, mark, order, 1);
    EndsWithLonger(before, mark, order, 2);
    LastKnocked(before, order, 1);
    LastKnocked(before, order, 2);
    assert EndsWith(before, order, 0) && EndsWith(before + [mark], order, 0);
  }

  /** The lock is an exact matcher. It opens at the moment the order has been knocked without a
      break; until then its progress is the longest ending of the knocks that begins the order. */
  lemma {:induction false} LockIsExact(order: seq<Mark>, knocks: seq<Mark>)
    requires IsOrder(order)
    ensures Knocks(order, knocks).solved <==> Occurs(knocks, order)
    ensures !Knocks(order, knocks).solved ==> LongestEnding(knocks, order, Knocks(order, knocks).progress)
  {
    if knocks == [] {
      assert knocks[..0] == [] && !EndsWith([], order, 3);
      assert EndsWith(knocks, order, 0);
    } else {
      var before, mark := knocks[..|knocks| - 1], knocks[|knocks| - 1];
      assert knocks == before + [mark];
      LockIsExact(order, before);
      OccursLonger(before, mark, order);
      if !Knocks(order, before).solved {
        ProgressStep(order, before, mark, Knocks(order, before).progress);
      }
    }
  }

  lemma LastKnocked(knocks: seq<Mark>, order: seq<Mark>, k: nat)
    requires 0 < k <= |order|
    ensures EndsWith(knocks, order, k) ==> knocks[|knocks| - 1] == order[k - 1]
  {
    if EndsWith(knocks, order, k) {
      assert knocks[|knocks| - k..][k - 1] == order[..k][k - 1];
    }
  }

  lemma DistinctMarks(order: seq<Mark>)
    requires IsOrder(order)
    ensures order[0] != order[1] && order[1] != order[2] && order[0] != order[2]
  {
    assert order == [order[0], order[1], order[2]];
    assert multiset(order)[order[0]] == 1 && multiset(order)[order[1]] == 1;
  }
}
