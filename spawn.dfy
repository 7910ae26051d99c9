/** The participants the controller makes at one time, numbered from the
    controller's next serial number, and what they add to the screen. */
module Spawn {
  import opened Rules
  import opened Participants

  /** A wave numbered from `n`: four size-2 asteroids, one of each variety. */
  function WaveFrom(n: nat): set<Participant> {
    {Participant(n, Asteroid(0, 2)), Participant(n + 1, Asteroid(1, 2)),
     Participant(n + 2, Asteroid(2, 2)), Participant(n + 3, Asteroid(3, 2))}
  }

  /** The six pieces of debris of a destroyed asteroid, numbered from `n`. */
  function DebrisFrom(n: nat): set<Participant> {
    {Participant(n, Debris), Participant(n + 1, Debris), Participant(n + 2, Debris),
     Participant(n + 3, Debris), Participant(n + 4, Debris), Participant(n + 5, Debris)}
  }

  /** The three pieces of a wrecked ship, numbered from `n`. */
  function WreckFrom(n: nat): set<Participant> {
    {Participant(n, ShipDebris(1)), Participant(n + 1, ShipDebris(1)), Participant(n + 2, ShipDebris(2))}
  }

  /** How many fragments an asteroid of the given size leaves. */
  function FragmentCount(size: int): nat {
    if size - 1 >= 0 then 2 else 0
  }

  /** The fragments of a destroyed asteroid of the given size, numbered from `n`. */
  function FragmentsFrom(n: nat, size: int, v1: Variety, v2: Variety): set<Participant> {
    if size - 1 >= 0 then {Participant(n, Asteroid(v1, size - 1)), Participant(n + 1, Asteroid(v2, size - 1))}
    else {}
  }

  /** Three different participants are counted by their kinds. */
  lemma CensusTriple(a: Participant, b: Participant, c: Participant)
    requires a != b && a != c && b != c
    ensures Census({a} + {b} + {c}) == multiset{a.kind} + multiset{b.kind} + multiset{c.kind}
  {
    CensusSingle(a);
    CensusAdd({a}, b);
    CensusAdd({a} + {b}, c);
  }

  /** Four asteroids numbered from `n`, one of each variety, count as a wave. */
  lemma WaveCensus(n: nat, a0: Participant, a1: Participant, a2: Participant, a3: Participant)
    requires a0 == Participant(n, Asteroid(0, 2)) && a1 == Participant(n + 1, Asteroid(1, 2))
    requires a2 == Participant(n + 2, Asteroid(2, 2)) && a3 == Participant(n + 3, Asteroid(3, 2))
    ensures Census({a0} + {a1} + {a2} + {a3}) == InitialWave()
  {
    CensusSingle(a0);
    CensusAdd({a0}, a1);
    CensusAdd({a0} + {a1}, a2);
    CensusAdd({a0} + {a1} + {a2}, a3);
    InitialWaveSum();
  }

  /** A wave is numbered from `n` to `n + 3` and is one asteroid of each
      variety, all of size 2. */
  lemma WaveKinds(n: nat)
    ensures Between(WaveFrom(n), n, n + 4) && Census(WaveFrom(n)) == InitialWave()
  {
    var a0, a1 := Participant(n, Asteroid(0, 2)), Participant(n + 1, Asteroid(1, 2));
    var a2, a3 := Participant(n + 2, Asteroid(2, 2)), Participant(n + 3, Asteroid(3, 2));
    assert WaveFrom(n) == {a0} + {a1} + {a2} + {a3};
    WaveCensus(n, a0, a1, a2, a3);
  }

  /** A wave added to a screen numbered below `n` is new to it and owes a
      wave's destructions. */
  lemma AddWave(s: set<Participant>, n: nat)
    requires Below(s, n)
    ensures s !! WaveFrom(n) && Below(s + WaveFrom(n), n + 4)
    ensures Pending(s + WaveFrom(n)) == Pending(s) + WAVE_SIZE
  {
    WaveKinds(n);
    BelowUnion(s, WaveFrom(n), n, n + 4);
    PendingUnion(s, WaveFrom(n));
    PendingIsOwed(WaveFrom(n));
    WaveMatchesSplitTree();
  }

  /** Six different pieces of debris count as a burst. */
  lemma DebrisCensus(d0: Participant, d1: Participant, d2: Participant,
                     d3: Participant, d4: Participant, d5: Participant)
    requires d0 != d1 && d0 != d2 && d1 != d2 && d3 != d4 && d3 != d5 && d4 != d5
    requires {d0} + {d1} + {d2} !! {d3} + {d4} + {d5}
    requires d0.kind == d1.kind == d2.kind == d3.kind == d4.kind == d5.kind == Debris
    ensures Census(({d0} + {d1} + {d2}) + ({d3} + {d4} + {d5})) == DebrisBurst()
  {
    CensusTriple(d0, d1, d2);
    CensusTriple(d3, d4, d5);
    CensusUnion({d0} + {d1} + {d2}, {d3} + {d4} + {d5});
    DebrisBurstSum();
  }

  /** A burst is numbered from `n` to `n + 5` and is six pieces of debris. */
  lemma DebrisKinds(n: nat)
    ensures Between(DebrisFrom(n), n, n + 6) && Census(DebrisFrom(n)) == DebrisBurst()
  {
    var d0, d1, d2 := Participant(n, Debris), Participant(n + 1, Debris), Participant(n + 2, Debris);
    var d3, d4, d5 := Participant(n + 3, Debris), Participant(n + 4, Debris), Participant(n + 5, Debris);
    assert DebrisFrom(n) == ({d0} + {d1} + {d2}) + ({d3} + {d4} + {d5});
    DebrisCensus(d0, d1, d2, d3, d4, d5);
  }

  /** A burst added to a screen numbered below `n` is new to it and owes nothing. */
  lemma AddDebris(s: set<Participant>, n: nat)
    requires Below(s, n)
    ensures s !! DebrisFrom(n) && Below(s + DebrisFrom(n), n + 6)
    ensures Pending(s + DebrisFrom(n)) == Pending(s)
  {
    DebrisKinds(n);
    BelowUnion(s, DebrisFrom(n), n, n + 6);
    PendingUnion(s, DebrisFrom(n));
    PendingIsOwed(DebrisFrom(n));
    DecorationsOweNothing();
  }

  /** A wreck is numbered from `n` to `n + 2`: two pieces of variety 1 and
      one of variety 2. */
  lemma WreckKinds(n: nat)
    ensures Between(WreckFrom(n), n, n + 3) && Census(WreckFrom(n)) == ShipWreck()
  {
    var w0, w1 := Participant(n, ShipDebris(1)), Participant(n + 1, ShipDebris(1));
    var w2 := Participant(n + 2, ShipDebris(2));
    assert WreckFrom(n) == {w0} + {w1} + {w2};
    CensusTriple(w0, w1, w2);
    ShipWreckSum();
  }

  /** A wreck added to a screen numbered below `n` is new to it and owes nothing. */
  lemma AddWreck(s: set<Participant>, n: nat)
    requires Below(s, n)
    ensures s !! WreckFrom(n) && Below(s + WreckFrom(n), n + 3)
    ensures Pending(s + WreckFrom(n)) == Pending(s)
  {
    WreckKinds(n);
    BelowUnion(s, WreckFrom(n), n, n + 3);
    PendingUnion(s, WreckFrom(n));
    PendingIsOwed(WreckFrom(n));
    DecorationsOweNothing();
  }

  /** The fragments are numbered from `n` on, one per fragment, and are the
      asteroids the split rule leaves. */
  lemma FragmentKinds(n: nat, size: int, v1: Variety, v2: Variety)
    ensures Between(FragmentsFrom(n, size, v1, v2), n, n + FragmentCount(size))
    ensures Census(FragmentsFrom(n, size, v1, v2)) == Fragments(size, v1, v2)
  {
    if size - 1 >= 0 {
      var f1, f2 := Participant(n, Asteroid(v1, size - 1)), Participant(n + 1, Asteroid(v2, size - 1));
      assert FragmentsFrom(n, size, v1, v2) == {f1} + {f2};
      CensusSingle(f1);
      CensusAdd({f1}, f2);
    }
  }

  /** Fragments added to a screen numbered below `n` are new to it, and
      together with the destruction of their parent they settle exactly
      what the parent owed: one destruction fewer is owed. */
  lemma AddFragments(s: set<Participant>, n: nat, variety: int, size: int, v1: Variety, v2: Variety)
    requires Below(s, n)
    ensures s !! FragmentsFrom(n, size, v1, v2)
    ensures Below(s + FragmentsFrom(n, size, v1, v2), n + FragmentCount(size))
    ensures Pending(s + FragmentsFrom(n, size, v1, v2)) + 1 == Pending(s) + Weight(Asteroid(variety, size))
  {
    var f := FragmentsFrom(n, size, v1, v2);
    FragmentKinds(n, size, v1, v2);
    BelowUnion(s, f, n, n + FragmentCount(size));
    PendingUnion(s, f);
    PendingIsOwed(f);
    SplitSettlesOne(variety, size, v1, v2);
  }

  /** The screen `s` once asteroid `a` is destroyed: `a` is gone, and six
      pieces of debris numbered from `n` and then its fragments are added. */
  function Shattered(s: set<Participant>, a: Participant, n: nat, v1: Variety, v2: Variety): set<Participant>
    requires a.kind.Asteroid?
  {
    (s - {a}) + DebrisFrom(n) + FragmentsFrom(n + 6, a.kind.size, v1, v2)
  }

  /** The controller makes no bullet when an asteroid is destroyed, nor
      when the ship comes back with a new wave. So taking a bullet off the
      screen before the destruction leaves the same screen as taking it off
      afterwards. */
  lemma BulletRemovalCommutes(s: set<Participant>, a: Participant, n: nat, v1: Variety, v2: Variety,
                              b: Participant, ship: Participant, k: nat)
    requires a.kind.Asteroid? && b.kind == Bullet
    ensures Shattered(s - {b}, a, n, v1, v2) == Shattered(s, a, n, v1, v2) - {b}
    ensures ship.kind == Ship ==>
      Shattered(s - {b}, a, n, v1, v2) + {ship} + WaveFrom(k) ==
      (Shattered(s, a, n, v1, v2) + {ship} + WaveFrom(k)) - {b}
  {
  }
}
