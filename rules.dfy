/** The kinds of participant the controller creates and the arithmetic rules
    it applies to them: the score table, the split of a destroyed asteroid,
    the size of a wave and the half-unit steps of the ship's speed. */
module Rules {

  /** Destroyed asteroids after which the controller starts the next level. */
  const WAVE_SIZE := 28

  /** Most bullets the controller keeps track of at once. */
  const MAX_BULLETS := 8

  /** Lives at the start of a game. */
  const START_LIVES := 3

  /** The ship's speed when the controller is built (1.0), in half-units. */
  const START_SPEED := 2

  /** The variety of an asteroid outline, an outcome of `random.nextInt(4)`. */
  type Variety = v: int | 0 <= v < 4

  /** What a participant is. Positions, velocities, rotations and outlines
      are not modelled; what remains is the tag and the data the rules read. */
  datatype Kind =
    | Ship
    | Asteroid(variety: int, size: int)
    | Bullet
    | Debris
    | ShipDebris(variety: int)

  /** Points for destroying an asteroid of the given size. */
  function ScoreFor(size: int): (points: nat)
    ensures points >= 20
    ensures points == 100 <==> size == 0
    ensures points == 50 <==> size == 1
    ensures points == 20 <==> size != 0 && size != 1
  {
    if size == 0 then 100 else if size == 1 then 50 else 20
  }

  /** A smaller asteroid is worth more points than a bigger one. */
  lemma SmallerScoresMore(small: int, big: int)
    requires 0 <= small < big <= 2
    ensures ScoreFor(small) > ScoreFor(big)
  {
  }

  /** The asteroids that replace a destroyed asteroid of the given size: two
      of the next size down, or none when the size runs out. */
  function Fragments(size: int, v1: Variety, v2: Variety): multiset<Kind> {
    if size - 1 >= 0 then multiset{Asteroid(v1, size - 1), Asteroid(v2, size - 1)}
    else multiset{}
  }

  /** A destroyed asteroid of size one or more leaves exactly two asteroids,
      one size smaller, of the varieties drawn; one of size zero leaves none. */
  lemma FragmentsShape(size: int, v1: Variety, v2: Variety)
    ensures |Fragments(size, v1, v2)| == if size >= 1 then 2 else 0
    ensures forall k | k in Fragments(size, v1, v2) :: k.Asteroid? && k.size == size - 1
    ensures size >= 1 ==> Fragments(size, v1, v2)[Asteroid(v1, size - 1)] >= 1
    ensures size >= 1 ==> Fragments(size, v1, v2)[Asteroid(v2, size - 1)] >= 1
    ensures forall k | k in Fragments(size, v1, v2) :: k.variety == v1 || k.variety == v2
  {
  }

  /** The four asteroids of a fresh wave, one of each variety, all of size 2. */
  function InitialWave(): multiset<Kind> {
    multiset{Asteroid(0, 2), Asteroid(1, 2), Asteroid(2, 2), Asteroid(3, 2)}
  }

  /** A wave is four size-2 asteroids, exactly one of each variety. */
  lemma InitialWaveShape()
    ensures |InitialWave()| == 4
    ensures forall k | k in InitialWave() :: k.Asteroid? && k.size == 2 && 0 <= k.variety < 4
    ensures forall v: Variety :: InitialWave()[Asteroid(v, 2)] == 1
  {
  }

  /** The wave as four single kinds put together. */
  lemma InitialWaveSum()
    ensures InitialWave() == multiset{Asteroid(0, 2)} + multiset{Asteroid(1, 2)}
      + multiset{Asteroid(2, 2)} + multiset{Asteroid(3, 2)}
  {
  }

  /** The six decorative fragments of a destroyed asteroid. */
  function DebrisBurst(): multiset<Kind> {
    multiset{Debris, Debris, Debris, Debris, Debris, Debris}
  }

  /** The burst as six single kinds put together. */
  lemma DebrisBurstSum()
    ensures DebrisBurst() == (multiset{Debris} + multiset{Debris} + multiset{Debris})
      + (multiset{Debris} + multiset{Debris} + multiset{Debris})
  {
  }

  /** The three pieces of a destroyed ship: two of variety 1, one of variety 2. */
  function ShipWreck(): multiset<Kind> {
    multiset{ShipDebris(1), ShipDebris(1), ShipDebris(2)}
  }

  /** The wreck as three single kinds put together. */
  lemma ShipWreckSum()
    ensures ShipWreck() == multiset{ShipDebris(1)} + multiset{ShipDebris(1)} + multiset{ShipDebris(2)}
  {
  }

  function Pow2(n: nat): (r: nat)
    ensures r >= 1
  {
    if n == 0 then 1 else 2 * Pow2(n - 1)
  }

  /** How many destructions it takes to clear an asteroid of the given size
      together with every fragment it splits into. */
  function Destructions(size: int): (n: nat)
    ensures n >= 1
    ensures size >= 0 ==> n == Pow2(size + 1) - 1
  {
    if size - 1 >= 0 then 1 + 2 * Destructions(size - 1) else 1
  }

  /** The destructions still owed for one participant of this kind. */
  function Weight(k: Kind): nat {
    if k.Asteroid? then Destructions(k.size) else 0
  }

  /** Taking one kind out of a collection leaves one fewer. */
  lemma TakeOne(m: multiset<Kind>, k: Kind)
    requires k in m
    ensures |m - multiset{k}| == |m| - 1
  {
    assert m == (m - multiset{k}) + multiset{k};
  }

  /** The destructions still owed for a collection of kinds. */
  ghost function Owed(m: multiset<Kind>): nat
    decreases |m|
  {
    if m == multiset{} then 0
    else
      var k :| k in m;
      TakeOne(m, k);
      Weight(k) + Owed(m - multiset{k})
  }

  /** Taking two kinds out in either order leaves the same collection. */
  lemma TakeTwo(m: multiset<Kind>, j: Kind, k: Kind)
    ensures m - multiset{j} - multiset{k} == m - multiset{k} - multiset{j}
  {
    assert forall x :: (m - multiset{j} - multiset{k})[x] == (m - multiset{k} - multiset{j})[x];
  }

  /** The choice the fold makes, stated as a fact about some member. */
  lemma OwedChoice(m: multiset<Kind>) returns (j: Kind)
    requires m != multiset{}
    ensures j in m && Owed(m) == Weight(j) + Owed(m - multiset{j})
  {
    j :| j in m && Owed(m) == Weight(j) + Owed(m - multiset{j});
  }

  /** Whichever kind is taken out first, the total owed is the same. */
  lemma {:induction false} OwedRemove(m: multiset<Kind>, k: Kind)
    requires k in m
    ensures Owed(m) == Weight(k) + Owed(m - multiset{k})
    decreases |m|
  {
    var j := OwedChoice(m);
    if j != k {
      TakeOne(m, j);
      TakeOne(m, k);
      assert k in m - multiset{j};
      assert j in m - multiset{k};
      OwedRemove(m - multiset{j}, k);
      OwedRemove(m - multiset{k}, j);
      TakeTwo(m, j, k);
    }
  }

  /** What is owed by two collections put together adds up. */
  lemma {:induction false} OwedUnion(a: multiset<Kind>, b: multiset<Kind>)
    ensures Owed(a + b) == Owed(a) + Owed(b)
    decreases |b|
  {
    if b == multiset{} {
      assert a + b == a;
    } else {
      var k :| k in b;
      var rest := b - multiset{k};
      assert b == rest + multiset{k};
      assert a + b == (a + rest) + multiset{k};
      OwedRemove(b, k);
      OwedRemove(a + b, k);
      assert (a + b) - multiset{k} == a + rest;
      OwedUnion(a, rest);
    }
  }

  /** Destroying an asteroid settles one destruction, and its fragments owe
      exactly what is left of its own tree. */
  lemma SplitSettlesOne(variety: int, size: int, v1: Variety, v2: Variety)
    ensures Weight(Asteroid(variety, size)) == 1 + Owed(Fragments(size, v1, v2))
  {
    FragmentsShape(size, v1, v2);
    OwedUniform(Fragments(size, v1, v2), Destructions(size - 1));
  }

  /** A collection whose members all owe the same owes that much per member. */
  lemma {:induction false} OwedUniform(m: multiset<Kind>, w: nat)
    requires forall k | k in m :: Weight(k) == w
    ensures Owed(m) == |m| * w
    decreases |m|
  {
    if m != multiset{} {
      var k :| k in m;
      TakeOne(m, k);
      OwedRemove(m, k);
      OwedUniform(m - multiset{k}, w);
      var n := |m| - 1;
      assert Owed(m) == w + n * w;
      assert w + n * w == (n + 1) * w;
    }
  }

  /** A single kind owes its own weight. */
  lemma OwedSingle(k: Kind)
    ensures Owed(multiset{k}) == Weight(k)
  {
    OwedUniform(multiset{k}, Weight(k));
  }

  /** Each asteroid of a wave takes seven destructions, so the four of a wave
      take exactly the number the controller waits for. */
  lemma WaveMatchesSplitTree()
    ensures Destructions(2) == 7
    ensures Owed(InitialWave()) == |InitialWave()| * Destructions(2) == WAVE_SIZE
  {
    InitialWaveShape();
    OwedUniform(InitialWave(), Destructions(2));
  }

  /** A burst is six pieces of debris; a wreck is two pieces of variety 1
      and one of variety 2. */
  lemma DecorationShapes()
    ensures |DebrisBurst()| == 6 && DebrisBurst()[Debris] == 6
    ensures forall k | k in DebrisBurst() :: k == Debris
    ensures |ShipWreck()| == 3 && ShipWreck()[ShipDebris(1)] == 2 && ShipWreck()[ShipDebris(2)] == 1
    ensures forall k | k in ShipWreck() :: k == ShipDebris(1) || k == ShipDebris(2)
  {
  }

  /** Debris and ship debris owe nothing. */
  lemma DecorationsOweNothing()
    ensures Owed(DebrisBurst()) == 0 && Owed(ShipWreck()) == 0
  {
    DecorationShapes();
    OwedUniform(DebrisBurst(), 0);
    OwedUniform(ShipWreck(), 0);
  }

  /** One refresh step of the ship's speed, in half-units: thrust raises it
      by one half while it is below the limit, otherwise it stays; without
      thrust a positive speed drops by one half. */
  function ThrustStep(speed: int, thrusting: bool, limit: int): (r: int)
    ensures r == speed + 1 || r == speed || r == speed - 1
    ensures r == speed + 1 <==> thrusting && speed < limit
    ensures r == speed - 1 <==> !thrusting && speed > 0
    ensures speed >= 0 ==> r >= 0
    ensures r <= speed || r <= limit
  {
    if thrusting then
      (if speed < limit then speed + 1 else speed)
    else
      (if speed > 0 then speed - 1 else speed)
  }
}
