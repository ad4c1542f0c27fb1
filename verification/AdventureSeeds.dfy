/** What a seed makes of the adventure's random placing. */
module AdventureSeeds {
  import opened SeededStream
  import opened AdventureMap

  /** The spot `carve` draws next: two draws of the stream. */
  function SpotFrom(s: nat): Spot {
    Cell(2 + Pick(Next(s), GW - 4), 2 + Pick(Next(Next(s)), GH - 4))
  }

  /** The first n spots it draws. */
  function SpotsFrom(s: nat, n: nat): seq<Spot>
    decreases n
  {
    if n == 0 then [] else [SpotFrom(s)] + SpotsFrom(Next(Next(s)), n - 1)
  }

  lemma CollapsedStays(s: nat)
    requires s % MODULUS == 0
    ensures Next(s) == 0 && SpotFrom(s) == Cell(2, 2)
  {
    ModTimes(s, FACTOR);
  }

  /** On a collapsed stream every spot is the same one, so placing never gets past the first:
      however long it goes on, all but one are still owed, and the page never wakes. */
  lemma {:induction false} CollapsedNeverPlaces(s: nat, m: Grid, code: int, n: nat, draws: nat)
    requires s % MODULUS == 0 && code != 0
    ensures Carve(m, code, n, SpotsFrom(s, draws)).1 >= (if At(m, 2, 2) == 0 then n - 1 else n)
    decreases draws
  {
    if draws == 0 {
    } else {
      CollapsedStays(s);
      CollapsedStays(Next(s));
      var rest := SpotsFrom(0, draws - 1);
      assert SpotsFrom(s, draws)[1..] == rest;
      if n > 0 && At(m, 2, 2) == 0 {
        CollapsedNeverPlaces(0, Put(m, 2, 2, code), code, n - 1, draws - 1);
      } else {
        CollapsedNeverPlaces(0, m, code, n, draws - 1);
      }
    }
  }
}
