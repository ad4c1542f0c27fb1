/** The verdicts of the measuring scripts: what may be banked as progress, and what stops a merge. */
module Judges {
  const MOVED := 0
  const NO_MOVEMENT := 1
  const REGRESSED := 2
  const CANNOT_JUDGE := 3

  /** How every judge closes: anything worse wins over anything better. */
  ghost predicate Closes(code: int, worse: bool, better: bool) {
    code == if worse then REGRESSED else if better then MOVED else NO_MOVEMENT
  }

  /** A chain of snapshots each of which gains on the one before gains as many times over. */
  lemma {:induction false} ChainClimbs<S>(chain: seq<S>, measure: S -> int)
    requires chain != [] && forall i :: 0 < i < |chain| ==> measure(chain[i - 1]) < measure(chain[i])
    ensures measure(chain[|chain| - 1]) >= measure(chain[0]) + |chain| - 1
  {
    if |chain| == 1 {
    } else {
      var before := chain[..|chain| - 1];
      assert forall i :: 0 <= i < |before| ==> before[i] == chain[i];
      ChainClimbs(before, measure);
    }
  }
}

/** scripts/check_answerable_regression.py. */
module AnswerableJudge {
  import opened Wrappers
  import opened Judges

  datatype Key = Total | Direct | Paraphrase | Marker | Game | DesignIndexed | DesignCited
  datatype Guard = Discrimination | Mrr

  const OUTCOMES := [Total, Direct, Paraphrase, Marker, Game, DesignIndexed, DesignCited]
  const GUARDS := [Discrimination, Mrr]

  datatype Snapshot = Snapshot(counts: map<Key, int>, guards: map<Guard, real>,
                               scored: Option<(int, int)>, excerptScored: Option<int>, gameScored: Option<int>)

  /** A snapshot just taken has every number; an old one may lack some. */
  predicate Full(s: Snapshot) {
    && (forall k :: k in OUTCOMES ==> k in s.counts)
    && (forall g :: g in GUARDS ==> g in s.guards)
    && s.scored.Some? && s.excerptScored.Some? && s.gameScored.Some?
  }

  function MinMove(g: Guard): real { if g == Discrimination then 2.0 else 0.02 }

  predicate SameOrNew(before: Option<int>, now: Option<int>) { before.None? || before == now }

  /** Counts over a changed denominator are not compared at all. */
  predicate Skipped(before: Snapshot, now: Snapshot, k: Key) {
    && k in before.counts
    && ((k == Marker && !SameOrNew(before.excerptScored, now.excerptScored))
        || (k == Game && !SameOrNew(before.gameScored, now.gameScored)))
  }

  predicate Bankable(before: Snapshot, now: Snapshot) { before.scored == now.scored || before.scored.None? }

  predicate Better(before: Snapshot, now: Snapshot, k: Key)
    requires Full(now)
  {
    && k in now.counts && !Skipped(before, now, k)
    && (k in before.counts ==> now.counts[k] > before.counts[k] && Bankable(before, now))
  }

  predicate Worse(before: Snapshot, now: Snapshot, k: Key)
    requires Full(now)
  {
    k in now.counts && !Skipped(before, now, k) && k in before.counts && now.counts[k] < before.counts[k]
  }

  predicate GuardDropped(before: Snapshot, now: Snapshot, g: Guard)
    requires Full(now)
  {
    && g in now.guards && g in before.guards && Bankable(before, now)
    && before.guards[g] - now.guards[g] >= MinMove(g)
  }

  ghost predicate SomeBetter(before: Snapshot, now: Snapshot)
    requires Full(now)
  {
    exists k :: Better(before, now, k)
  }

  ghost predicate SomeWorse(before: Snapshot, now: Snapshot)
    requires Full(now)
  {
    (exists k :: Worse(before, now, k)) || (exists g :: GuardDropped(before, now, g))
  }

  lemma AllKeys(k: Key, g: Guard)
    ensures k in OUTCOMES && g in GUARDS
  {
    assert OUTCOMES[0] == Total && OUTCOMES[1] == Direct && OUTCOMES[2] == Paraphrase && OUTCOMES[3] == Marker;
    assert OUTCOMES[4] == Game && OUTCOMES[5] == DesignIndexed && OUTCOMES[6] == DesignCited;
    assert GUARDS[0] == Discrimination && GUARDS[1] == Mrr;
  }

  method Compare(before: Snapshot, now: Snapshot) returns (code: int, moved: seq<Key>, broken: seq<Key>, guards: seq<Guard>)
    requires Full(now)
    ensures Closes(code, SomeWorse(before, now), SomeBetter(before, now))
    ensures forall k :: k in moved <==> Better(before, now, k)
    ensures forall k :: k in broken <==> Worse(before, now, k)
    ensures forall g :: g in guards <==> GuardDropped(before, now, g)
    ensures code == if broken != [] || guards != [] then 2 else if moved != [] then 0 else 1
  {
    moved, broken, guards := [], [], [];
    for i := 0 to |OUTCOMES|
      invariant forall k :: k in moved <==> k in OUTCOMES[..i] && Better(before, now, k)
      invariant forall k :: k in broken <==> k in OUTCOMES[..i] && Worse(before, now, k)
    {
      var k := OUTCOMES[i];
      assert OUTCOMES[..i + 1] == OUTCOMES[..i] + [k];
      if Skipped(before, now, k) {
      } else if k !in before.counts {
        moved := moved + [k];
      } else if now.counts[k] > before.counts[k] {
        if Bankable(before, now) { moved := moved + [k]; }
      } else if now.counts[k] < before.counts[k] {
        broken := broken + [k];
      }
    }
    for i := 0 to |GUARDS|
      invariant forall g :: g in guards <==> g in GUARDS[..i] && GuardDropped(before, now, g)
    {
      var g := GUARDS[i];
      assert GUARDS[..i + 1] == GUARDS[..i] + [g];
      if g in before.guards && Bankable(before, now) && before.guards[g] - now.guards[g] >= MinMove(g) {
        guards := guards + [g];
      }
    }
    assert OUTCOMES[..|OUTCOMES|] == OUTCOMES && GUARDS[..|GUARDS|] == GUARDS;
    forall k: Key
      ensures k in OUTCOMES
    {
      AllKeys(k, Mrr);
    }
    forall g: Guard
      ensures g in GUARDS
    {
      AllKeys(Total, g);
    }
    assert broken != [] ==> Worse(before, now, broken[0]);
    assert guards != [] ==> GuardDropped(before, now, guards[0]);
    assert moved != [] ==> Better(before, now, moved[0]);
    if broken != [] || guards != [] { return REGRESSED, moved, broken, guards; }
    if moved == [] { return NO_MOVEMENT, moved, broken, guards; }
    return MOVED, moved, broken, guards;
  }

  /** Two full snapshots over the same questions. */
  predicate Comparable(a: Snapshot, b: Snapshot) {
    Full(a) && Full(b) && a.scored == b.scored && a.excerptScored == b.excerptScored && a.gameScored == b.gameScored
  }

  ghost predicate Moved(a: Snapshot, b: Snapshot) {
    Full(b) && SomeBetter(a, b) && !SomeWorse(a, b)
  }

  /** A move is a gain in some outcome and a loss in none: judged backwards, it is a regression. */
  lemma MovedIsARatchet(a: Snapshot, b: Snapshot)
    requires Comparable(a, b) && Moved(a, b)
    ensures forall k :: k in a.counts && k in b.counts && a.counts[k] <= b.counts[k]
    ensures exists k :: k in a.counts && k in b.counts && a.counts[k] < b.counts[k]
    ensures SomeWorse(b, a)
  {
    forall k: Key
      ensures k in a.counts && k in b.counts && a.counts[k] <= b.counts[k]
    {
      AllKeys(k, Mrr);
      assert !Worse(a, b, k);
    }
    var k :| Better(a, b, k);
    assert Worse(b, a, k);
  }

  function Sum(s: Snapshot): int {
    SumOf(s, Total) + SumOf(s, Direct) + SumOf(s, Paraphrase) + SumOf(s, Marker) + SumOf(s, Game)
    + SumOf(s, DesignIndexed) + SumOf(s, DesignCited)
  }

  function SumOf(s: Snapshot, k: Key): int { if k in s.counts then s.counts[k] else 0 }

  lemma MovedClimbs(a: Snapshot, b: Snapshot)
    requires Comparable(a, b) && Moved(a, b)
    ensures Sum(a) < Sum(b)
  {
    MovedIsARatchet(a, b);
    forall k: Key
      ensures SumOf(a, k) <= SumOf(b, k)
    {
      assert k in a.counts && k in b.counts && a.counts[k] <= b.counts[k];
    }
    var k :| k in a.counts && k in b.counts && a.counts[k] < b.counts[k];
    assert SumOf(a, k) < SumOf(b, k);
  }

  /** No chain of moves comes back, and none is longer than the outcomes have room for. */
  lemma ChainsAreBounded(chain: seq<Snapshot>)
    requires chain != [] && forall i :: 0 < i < |chain| ==> Comparable(chain[i - 1], chain[i]) && Moved(chain[i - 1], chain[i])
    ensures |chain| - 1 <= Sum(chain[|chain| - 1]) - Sum(chain[0])
    ensures |chain| > 1 ==> chain[0] != chain[|chain| - 1]
  {
    forall i | 0 < i < |chain|
      ensures Sum(chain[i - 1]) < Sum(chain[i])
    {
      MovedClimbs(chain[i - 1], chain[i]);
    }
    ChainClimbs(chain, Sum);
  }

  /** Two moves in a row are one move, unless their guards' small drops add up to a large one. */
  lemma MovesCompose(a: Snapshot, b: Snapshot, c: Snapshot)
    requires Comparable(a, b) && Moved(a, b) && Comparable(b, c) && Moved(b, c)
    ensures Moved(a, c) <==> forall g :: g in a.guards && g in c.guards ==> a.guards[g] - c.guards[g] < MinMove(g)
  {
    MovedIsARatchet(a, b);
    MovedIsARatchet(b, c);
    var k :| k in a.counts && k in b.counts && a.counts[k] < b.counts[k];
    assert b.counts[k] <= c.counts[k];
    assert Better(a, c, k);
    forall k: Key
      ensures !Worse(a, c, k)
    {
      assert a.counts[k] <= b.counts[k] <= c.counts[k];
    }
    if exists g :: g in a.guards && g in c.guards && a.guards[g] - c.guards[g] >= MinMove(g) {
      var g :| g in a.guards && g in c.guards && a.guards[g] - c.guards[g] >= MinMove(g);
      assert GuardDropped(a, c, g);
    }
  }

  function Level(n: int, points: real): Snapshot {
    Snapshot(map[Total := n, Direct := 0, Paraphrase := 0, Marker := 0, Game := 0, DesignIndexed := 0, DesignCited := 0],
             map[Discrimination := points, Mrr := 1.0], Some((1, 1)), Some(1), Some(1))
  }

  lemma LevelsMove(n: int, p: real, m: int, q: real)
    requires n < m
    ensures Comparable(Level(n, p), Level(m, q)) && (Moved(Level(n, p), Level(m, q)) <==> p - q < 2.0)
  {
    var a, b := Level(n, p), Level(m, q);
    assert Full(a) && Full(b);
    assert Better(a, b, Total);
    forall k: Key
      ensures !Worse(a, b, k)
    {
      AllKeys(k, Mrr);
    }
    assert GuardDropped(a, b, Discrimination) <==> p - q >= 2.0;
    assert !GuardDropped(a, b, Mrr);
  }

  /** They can: two moves, each a point and a half of discrimination down, make a regression. */
  lemma TwoMovesCanRegress()
    ensures Moved(Level(1, 90.0), Level(2, 88.5)) && Moved(Level(2, 88.5), Level(3, 87.0))
    ensures Comparable(Level(1, 90.0), Level(3, 87.0)) && !Moved(Level(1, 90.0), Level(3, 87.0))
  {
    hide *;
    LevelsMove(1, 90.0, 2, 88.5);
    LevelsMove(2, 88.5, 3, 87.0);
    LevelsMove(1, 90.0, 3, 87.0);
  }

  /** A count over another denominator is judged neither way: the excerpts' when other excerpts
      were scored, the games' when other games were. No other count is let off. */
  lemma ChangedDenominatorIsNotJudged(before: Snapshot, now: Snapshot, k: Key)
    requires Full(now) && k in before.counts
    ensures
      var other := match k
        case Marker => before.excerptScored.Some? && before.excerptScored != now.excerptScored
        case Game => before.gameScored.Some? && before.gameScored != now.gameScored
        case _ => false;
      && (Worse(before, now, k) <==> !other && now.counts[k] < before.counts[k])
      && (Better(before, now, k) <==>
            !other && now.counts[k] > before.counts[k] && (before.scored.None? || before.scored == now.scored))
  {
    AllKeys(k, Mrr);
  }

  /** A count the old snapshot lacks is a gain, whatever it is and whatever else changed. */
  lemma NewlyMeasuredIsAGain(before: Snapshot, now: Snapshot, k: Key)
    requires Full(now) && k !in before.counts
    ensures Better(before, now, k) && !Worse(before, now, k)
  {
    AllKeys(k, Mrr);
  }

  /** A guard may fall by less than two points of discrimination, or two hundredths of rank, and is
      not judged at all over another question set. */
  lemma GuardsHaveANoiseFloor(before: Snapshot, now: Snapshot)
    requires Full(now) && Discrimination in before.guards && Mrr in before.guards
    ensures GuardDropped(before, now, Discrimination) <==>
            (before.scored.None? || before.scored == now.scored) && before.guards[Discrimination] - now.guards[Discrimination] >= 2.0
    ensures GuardDropped(before, now, Mrr) <==>
            (before.scored.None? || before.scored == now.scored) && before.guards[Mrr] - now.guards[Mrr] >= 0.02
  {
    AllKeys(Total, Mrr);
    AllKeys(Total, Discrimination);
  }

  /** Over a changed question set nothing old can be banked: a move is a number newly measured. */
  lemma ChangedSetBanksOnlyNew(before: Snapshot, now: Snapshot)
    requires Full(now) && before.scored.Some? && before.scored != now.scored && Moved(before, now)
    ensures exists k :: k in now.counts && k !in before.counts
    ensures forall k :: Better(before, now, k) ==> k !in before.counts
  {
    var k :| Better(before, now, k);
    assert k in now.counts && k !in before.counts;
  }
}

/** scripts/check_ingestion_regression.py. */
module IngestionJudge {
  import opened Wrappers
  import opened Judges

  datatype Key = Documents | Repositories | Answered | CompleteFetches | Grounded

  const OUTCOMES := [Documents, Repositories, Answered]
  const GUARDS := [CompleteFetches, Grounded]

  datatype Snapshot = Snapshot(counts: map<Key, int>, repositories: Option<seq<string>>,
                               heads: map<string, string>, asked: Option<int>)

  /** A head that was known and is another now. */
  ghost predicate Drifted(before: Snapshot, now: Snapshot) {
    exists repo :: repo in now.heads && repo in before.heads && before.heads[repo] != now.heads[repo]
  }

  ghost predicate Bankable(before: Snapshot, now: Snapshot) {
    && (before.repositories.None? || before.repositories == now.repositories)
    && !Drifted(before, now)
    && (before.asked.None? || before.asked == now.asked)
  }

  ghost predicate Better(before: Snapshot, now: Snapshot, k: Key) {
    && k in OUTCOMES && k in now.counts
    && (k in before.counts ==> now.counts[k] > before.counts[k] && Bankable(before, now))
  }

  /** An outcome or a guard that fell: reported whatever else moved. */
  ghost predicate Worse(before: Snapshot, now: Snapshot, k: Key) {
    k in now.counts && k in before.counts && now.counts[k] < before.counts[k]
  }

  ghost predicate SomeBetter(before: Snapshot, now: Snapshot) { exists k :: Better(before, now, k) }

  ghost predicate SomeWorse(before: Snapshot, now: Snapshot) { exists k :: Worse(before, now, k) }

  lemma AllKeys(k: Key)
    ensures k in OUTCOMES || k in GUARDS
  {
    assert OUTCOMES[0] == Documents && OUTCOMES[1] == Repositories && OUTCOMES[2] == Answered;
    assert GUARDS[0] == CompleteFetches && GUARDS[1] == Grounded;
  }

  method HasDrifted(before: Snapshot, now: Snapshot) returns (drifted: bool)
    ensures drifted <==> Drifted(before, now)
  {
    var left := now.heads.Keys;
    drifted := false;
    while left != {}
      invariant left <= now.heads.Keys
      invariant drifted <==> exists repo :: repo in now.heads && repo !in left && repo in before.heads && before.heads[repo] != now.heads[repo]
      decreases left
    {
      var repo :| repo in left;
      left := left - {repo};
      if repo in before.heads && before.heads[repo] != now.heads[repo] {
        drifted := true;
      }
    }
  }

  method Compare(before: Snapshot, now: Snapshot) returns (code: int, moved: seq<Key>, broken: seq<Key>)
    ensures Closes(code, SomeWorse(before, now), SomeBetter(before, now))
    ensures forall k :: k in moved <==> Better(before, now, k)
    ensures forall k :: k in broken <==> Worse(before, now, k)
    ensures code == if broken != [] then 2 else if moved != [] then 0 else 1
  {
    var sameScope := before.repositories.None? || before.repositories == now.repositories;
    var drifted := HasDrifted(before, now);
    var questionsChanged := !(before.asked.None? || before.asked == now.asked);
    var bankable := sameScope && !drifted && !questionsChanged;
    moved, broken := [], [];
    for i := 0 to |OUTCOMES|
      invariant forall k :: k in moved <==> k in OUTCOMES[..i] && Better(before, now, k)
      invariant forall k :: k in broken <==> k in OUTCOMES[..i] && Worse(before, now, k)
    {
      var k := OUTCOMES[i];
      assert OUTCOMES[..i + 1] == OUTCOMES[..i] + [k];
      if k in now.counts {
        if k !in before.counts {
          moved := moved + [k];
        } else if now.counts[k] > before.counts[k] {
          if bankable { moved := moved + [k]; }
        } else if now.counts[k] < before.counts[k] {
          broken := broken + [k];
        }
      }
    }
    assert OUTCOMES[..|OUTCOMES|] == OUTCOMES;
    for i := 0 to |GUARDS|
      invariant forall k :: k in broken <==> (k in OUTCOMES || k in GUARDS[..i]) && Worse(before, now, k)
    {
      var k := GUARDS[i];
      assert GUARDS[..i + 1] == GUARDS[..i] + [k];
      if k in now.counts && k in before.counts && now.counts[k] < before.counts[k] {
        broken := broken + [k];
      }
    }
    assert GUARDS[..|GUARDS|] == GUARDS;
    forall k: Key
      ensures k in OUTCOMES || k in GUARDS
    {
      AllKeys(k);
    }
    assert broken != [] ==> Worse(before, now, broken[0]);
    assert moved != [] ==> Better(before, now, moved[0]);
    if broken != [] { return REGRESSED, moved, broken; }
    if moved == [] { return NO_MOVEMENT, moved, broken; }
    return MOVED, moved, broken;
  }

  predicate Full(s: Snapshot) { forall k :: k in OUTCOMES + GUARDS ==> k in s.counts }

  ghost predicate Moved(a: Snapshot, b: Snapshot) { SomeBetter(a, b) && !SomeWorse(a, b) }

  /** Over full snapshots a move is a strict partial order: one way only, and two moves are one
      exactly when the heads and questions of the two ends may still be compared. */
  lemma MovedIsAnOrder(a: Snapshot, b: Snapshot, c: Snapshot)
    requires Full(a) && Full(b) && Full(c) && Moved(a, b)
    ensures SomeWorse(b, a)
    ensures Moved(b, c) ==> (Moved(a, c) <==> Bankable(a, c))
  {
    forall k: Key
      ensures k in a.counts && k in b.counts && k in c.counts && a.counts[k] <= b.counts[k]
    {
      AllKeys(k);
      assert !Worse(a, b, k);
    }
    var k :| Better(a, b, k);
    assert Worse(b, a, k);
    if Moved(b, c) && Bankable(a, c) {
      forall k: Key
        ensures b.counts[k] <= c.counts[k]
      {
        assert k in b.counts && k in c.counts && !Worse(b, c, k);
      }
      assert Better(a, c, k);
    }
  }

  function CountOf(s: Snapshot, k: Key): int { if k in s.counts then s.counts[k] else 0 }

  function Sum(s: Snapshot): int {
    CountOf(s, Documents) + CountOf(s, Repositories) + CountOf(s, Answered) + CountOf(s, CompleteFetches) + CountOf(s, Grounded)
  }

  /** No chain of moves comes back, and none is longer than the numbers have room for. */
  lemma ChainsAreBounded(chain: seq<Snapshot>)
    requires chain != [] && forall i :: 0 <= i < |chain| ==> Full(chain[i])
    requires forall i :: 0 < i < |chain| ==> Moved(chain[i - 1], chain[i])
    ensures |chain| - 1 <= Sum(chain[|chain| - 1]) - Sum(chain[0])
    ensures |chain| > 1 ==> chain[0] != chain[|chain| - 1]
  {
    forall i | 0 < i < |chain|
      ensures Sum(chain[i - 1]) < Sum(chain[i])
    {
      var a, b := chain[i - 1], chain[i];
      forall k: Key
        ensures CountOf(a, k) <= CountOf(b, k)
      {
        AllKeys(k);
        assert k in a.counts && k in b.counts && !Worse(a, b, k);
      }
      var k :| Better(a, b, k);
      assert CountOf(a, k) < CountOf(b, k);
    }
    ChainClimbs(chain, Sum);
  }

  predicate Rose(before: Snapshot, now: Snapshot, k: Key) {
    k in now.counts && k in before.counts && now.counts[k] > before.counts[k]
  }

  predicate SameGround(before: Snapshot, now: Snapshot) {
    before.repositories == now.repositories && before.heads == now.heads && before.asked == now.asked
  }

  /** What is a gain and what a fall: an outcome the old snapshot lacks, or a larger one over the
      same scope, heads and questions; and any number that was and is less. A number this run could
      not measure is neither. */
  lemma GainsAndFalls(before: Snapshot, now: Snapshot, k: Key)
    ensures k !in now.counts ==> !Better(before, now, k) && !Worse(before, now, k)
    ensures k in now.counts && k !in before.counts ==>
              (Better(before, now, k) <==> k == Documents || k == Repositories || k == Answered) && !Worse(before, now, k)
    ensures k in now.counts && k in before.counts ==>
              && (Worse(before, now, k) <==> now.counts[k] < before.counts[k])
              && (Better(before, now, k) ==> now.counts[k] > before.counts[k])
    ensures (k == Documents || k == Repositories || k == Answered) && Rose(before, now, k) && SameGround(before, now) ==>
              Better(before, now, k)
  {
    assert OUTCOMES[0] == Documents && OUTCOMES[1] == Repositories && OUTCOMES[2] == Answered;
  }

  /** Over another scope, other heads or other questions, only a new number can be banked. */
  lemma ChangedScopeBanksOnlyNew(before: Snapshot, now: Snapshot)
    requires || (before.repositories.Some? && before.repositories != now.repositories)
             || (exists repo :: repo in now.heads && repo in before.heads && before.heads[repo] != now.heads[repo])
             || (before.asked.Some? && before.asked != now.asked)
    requires Moved(before, now)
    ensures exists k :: k in now.counts && k !in before.counts
    ensures forall k :: Better(before, now, k) ==> k !in before.counts
  {
    var k :| Better(before, now, k);
    assert k in now.counts && k !in before.counts;
  }
}

/** scripts/check_boss_questions.py. */
module BossJudge {
  import opened Wrappers
  import opened Judges

  datatype Key = Answered | WrongRepository | Scoreable

  const DIRECTION := [Answered, WrongRepository, Scoreable]

  datatype Snapshot = Snapshot(counts: map<Key, int>, retriever: Option<string>, denominator: Option<int>)

  predicate Up(k: Key) { k != WrongRepository }

  predicate Better(before: Snapshot, now: Snapshot, k: Key) {
    && k in before.counts && k in now.counts
    && (if Up(k) then now.counts[k] > before.counts[k] else now.counts[k] < before.counts[k])
  }

  predicate Worse(before: Snapshot, now: Snapshot, k: Key) {
    k in before.counts && k in now.counts && now.counts[k] != before.counts[k] && !Better(before, now, k)
  }

  ghost predicate SomeBetter(before: Snapshot, now: Snapshot) { exists k :: Better(before, now, k) }

  ghost predicate SomeWorse(before: Snapshot, now: Snapshot) { exists k :: Worse(before, now, k) }

  /** Another retriever, or another number of questions, is another product. */
  predicate Judgeable(before: Snapshot, now: Snapshot) {
    (before.retriever.None? || before.retriever == now.retriever) && before.denominator == now.denominator
  }

  lemma AllKeys(k: Key)
    ensures k in DIRECTION
  {
    assert DIRECTION[0] == Answered && DIRECTION[1] == WrongRepository && DIRECTION[2] == Scoreable;
  }

  method Compare(before: Snapshot, now: Snapshot) returns (code: int)
    requires now.denominator.Some?
    ensures code == CANNOT_JUDGE <==>
            (before.retriever.Some? && before.retriever != now.retriever) || before.denominator != now.denominator
    ensures Judgeable(before, now) ==> Closes(code, SomeWorse(before, now), SomeBetter(before, now))
    ensures code == 2 <==> Judgeable(before, now) && SomeWorse(before, now)
    ensures code == 0 <==> Judgeable(before, now) && SomeBetter(before, now) && !SomeWorse(before, now)
  {
    if !(before.retriever.None? || before.retriever == now.retriever) { return CANNOT_JUDGE; }
    if before.denominator != now.denominator { return CANNOT_JUDGE; }
    code := NO_MOVEMENT;
    ghost var worse, better := false, false;
    for i := 0 to |DIRECTION|
      invariant worse <==> exists k :: k in DIRECTION[..i] && Worse(before, now, k)
      invariant better <==> exists k :: k in DIRECTION[..i] && Better(before, now, k)
      invariant Closes(code, worse, better)
    {
      var k := DIRECTION[i];
      assert DIRECTION[..i + 1] == DIRECTION[..i] + [k];
      assert k in DIRECTION[..i + 1];
      if k in before.counts && k in now.counts && now.counts[k] != before.counts[k] {
        if if Up(k) then now.counts[k] > before.counts[k] else now.counts[k] < before.counts[k] {
          better := true;
          if code != REGRESSED { code := MOVED; }
        } else {
          worse := true;
          code := REGRESSED;
        }
      }
    }
    assert DIRECTION[..|DIRECTION|] == DIRECTION;
    forall k: Key
      ensures k in DIRECTION
    {
      AllKeys(k);
    }
  }

  predicate Full(s: Snapshot) { forall k :: k in DIRECTION ==> k in s.counts }

  ghost predicate Moved(a: Snapshot, b: Snapshot) { Judgeable(a, b) && SomeBetter(a, b) && !SomeWorse(a, b) }

  function Worth(s: Snapshot): int {
    (if Answered in s.counts then s.counts[Answered] else 0) - (if WrongRepository in s.counts then s.counts[WrongRepository] else 0)
    + (if Scoreable in s.counts then s.counts[Scoreable] else 0)
  }

  /** A move goes one way only, and always up. */
  lemma MovedIsARatchet(a: Snapshot, b: Snapshot)
    requires Full(a) && Full(b) && Moved(a, b)
    ensures Worth(a) < Worth(b)
    ensures SomeWorse(b, a)
  {
    AllKeys(Answered);
    AllKeys(WrongRepository);
    AllKeys(Scoreable);
    assert !Worse(a, b, Answered) && !Worse(a, b, WrongRepository) && !Worse(a, b, Scoreable);
    var k :| Better(a, b, k);
    assert Worse(b, a, k);
  }

  lemma ChainsAreBounded(chain: seq<Snapshot>)
    requires chain != [] && forall i :: 0 <= i < |chain| ==> Full(chain[i])
    requires forall i :: 0 < i < |chain| ==> Moved(chain[i - 1], chain[i])
    ensures |chain| - 1 <= Worth(chain[|chain| - 1]) - Worth(chain[0])
  {
    forall i | 0 < i < |chain|
      ensures Worth(chain[i - 1]) < Worth(chain[i])
    {
      MovedIsARatchet(chain[i - 1], chain[i]);
    }
    ChainClimbs(chain, Worth);
  }
}
