/** The rule engine of the game: a controller whose event handlers update
    lives, score, counters, the ship and the participants on the screen. */
module Control {
  import opened Rules
  import opened Participants
  import opened Spawn

  /** The keys the controller reacts to; every other key is `OtherKey`. */
  datatype Key = LeftKey | RightKey | UpKey | SpaceKey | OtherKey

  /** Where an action event comes from: the start button, the refresh timer
      or anything else. */
  datatype Source = StartButton | RefreshTimer | OtherSource

  /** The legend shown on the screen: the title, the game-over message or nothing. */
  datatype Legend = Title | GameOver | Blank

  /** What a reported collision amounts to. The order in which the screen
      reports the pair does not matter. */
  datatype Collision =
    | ShipHit(asteroid: Participant, ship: Participant)
    | BulletHit(asteroid: Participant, bullet: Participant)
    | Ignored

  /** The controller's choice of branch for a collision between `p1` and `p2`. */
  function Classify(p1: Participant, p2: Participant): (c: Collision)
    ensures c.ShipHit? <==>
      (p1.kind.Asteroid? && p2.kind == Ship) || (p1.kind == Ship && p2.kind.Asteroid?)
    ensures c.BulletHit? <==>
      (p1.kind == Bullet && p2.kind.Asteroid?) || (p1.kind.Asteroid? && p2.kind == Bullet)
    ensures c.ShipHit? ==>
      c.asteroid.kind.Asteroid? && c.ship.kind == Ship && {c.asteroid, c.ship} == {p1, p2}
    ensures c.BulletHit? ==>
      c.asteroid.kind.Asteroid? && c.bullet.kind == Bullet && {c.asteroid, c.bullet} == {p1, p2}
  {
    if p1.kind.Asteroid? && p2.kind == Ship then ShipHit(p1, p2)
    else if p1.kind == Ship && p2.kind.Asteroid? then ShipHit(p2, p1)
    else if p1.kind == Bullet && p2.kind.Asteroid? then BulletHit(p2, p1)
    else if p1.kind.Asteroid? && p2.kind == Bullet then BulletHit(p1, p2)
    else Ignored
  }

  /** Either order of a reported pair gets the same treatment. */
  lemma ClassifySymmetric(p1: Participant, p2: Participant)
    ensures Classify(p1, p2) == Classify(p2, p1)
  {
  }

  /** Taking the ship off and putting the same ship, or a new one when
      there was none, back on gives the screen plus the ship. */
  lemma ReturnShip(s: set<Participant>, oldShip: Option<Participant>, ship: Participant)
    requires oldShip.Some? ==> ship == oldShip.value
    ensures (if oldShip.Some? then s - {oldShip.value} else s) + {ship} == s + {ship}
  {
  }

  class Controller {
    /** The ship, if one is active. */
    var ship: Option<Participant>
    /** Transitions made so far; a stale round-transition timer is told apart by it. */
    var transitionCount: int
    /** The bullets fired and not yet gone, in firing order. */
    var bulletTrack: seq<Participant>
    /** Asteroids destroyed in the current wave. */
    var asteroidCount: int
    var lives: int
    var score: int
    var leftPressed: bool
    var rightPressed: bool
    var shipAccel: bool
    /** The ship's speed in half-units. */
    var shipSpeed: int
    var levelCount: int
    /** The participants on the screen. */
    var screen: set<Participant>
    var legend: Legend
    /** Whether the controller receives collisions and key presses. */
    var listening: bool
    /** The serial number of the next participant the controller makes. */
    var nextId: nat
    /** SPEED_LIMIT in half-units, rounded up: for a whole number `h` of
        half-units, h / 2 < SPEED_LIMIT exactly when h < speedLimit. */
    const speedLimit: nat

    /** The highest speed the ship can reach, in half-units. */
    function SpeedCap(): nat {
      if speedLimit > START_SPEED then speedLimit else START_SPEED
    }

    /** Every participant the controller knows was made before `nextId`. */
    ghost predicate Numbered()
      reads this`screen, this`nextId, this`ship
    {
      Below(screen, nextId) && (ship.Some? ==> ship.value.id < nextId)
    }

    /** The tracked bullets are at most eight distinct bullets, all on the screen. */
    ghost predicate TrackValid()
      reads this`bulletTrack, this`screen
    {
      TrackOn(bulletTrack, screen)
    }

    /** The ship, if any, is a ship, and its speed is within the cap. */
    ghost predicate ShipValid()
      reads this`ship, this`shipSpeed
    {
      (ship.Some? ==> ship.value.kind == Ship) && 0 <= shipSpeed <= SpeedCap()
    }

    ghost predicate Valid()
      reads this`screen, this`nextId, this`ship, this`bulletTrack, this`shipSpeed
    {
      Numbered() && TrackValid() && ShipValid()
    }

    /** The destructions done in this wave and those still owed by the
        asteroids on the screen make up one wave. */
    ghost predicate WaveConsistent()
      reads this`asteroidCount, this`screen
    {
      asteroidCount + Pending(screen) == WAVE_SIZE
    }

    /** Builds the controller and shows the splash screen: four asteroids, no ship. */
    constructor (speedLimit: nat)
      ensures Valid() && WaveConsistent()
      ensures this.speedLimit == speedLimit
      ensures screen == WaveFrom(0) && nextId == 4
      ensures ship == None && bulletTrack == [] && transitionCount == 0
      ensures lives == 0 && score == 0 && levelCount == 0 && asteroidCount == 0
      ensures !leftPressed && !rightPressed && !shipAccel && shipSpeed == START_SPEED
      ensures legend == Title && !listening
    {
      this.speedLimit := speedLimit;
      transitionCount := 0;
      screen := {};
      legend := Blank;
      ship := None;
      lives, score, asteroidCount := 0, 0, 0;
      leftPressed, rightPressed, shipAccel := false, false, false;
      shipSpeed := START_SPEED;
      levelCount := 0;
      bulletTrack := [];
      listening := false;
      nextId := 0;
      new;
      SplashScreen();
    }

    /** Clears the screen, shows the title, places a wave and removes the ship. */
    method SplashScreen()
      modifies this`screen, this`legend, this`asteroidCount, this`ship, this`nextId
      ensures legend == Title && ship == None && asteroidCount == 0
      ensures nextId == old(nextId) + 4 && screen == WaveFrom(old(nextId))
      ensures Numbered() && WaveConsistent()
    {
      legend := Title;
      ClearForWave();
      ship := None;
    }

    /** Clears the screen and places a wave on it. */
    method ClearForWave()
      modifies this`screen, this`asteroidCount, this`nextId
      ensures asteroidCount == 0 && nextId == old(nextId) + 4 && screen == WaveFrom(old(nextId))
      ensures Below(screen, nextId) && WaveConsistent()
    {
      screen := {};
      assert Pending(screen) == 0;
      PlaceAsteroids();
    }

    method GetTransitionCount() returns (n: int)
      ensures n == transitionCount
    {
      n := transitionCount;
    }

    /** Shows the game-over legend and stops listening for events. */
    method FinalScreen()
      modifies this`legend, this`listening
      ensures legend == GameOver && !listening
    {
      legend := GameOver;
      listening := false;
    }

    /** Starts a wave: four new size-2 asteroids and a zero count. */
    method PlaceAsteroids()
      requires Below(screen, nextId)
      modifies this`screen, this`asteroidCount, this`nextId
      ensures asteroidCount == 0 && nextId == old(nextId) + 4
      ensures screen == old(screen) + WaveFrom(old(nextId)) && Below(screen, nextId)
      ensures Pending(screen) == Pending(old(screen)) + WAVE_SIZE
    {
      asteroidCount := 0;
      AddWave(screen, nextId);
      screen := screen + WaveFrom(nextId);
      nextId := nextId + 4;
    }

    /** Puts the ship, made anew only if there is none, on the screen. */
    method PlaceShip()
      requires Numbered() && (ship.Some? ==> ship.value.kind == Ship)
      modifies this`ship, this`screen, this`nextId
      ensures ship.Some? && ship.value.kind == Ship
      ensures old(ship).Some? ==> ship == old(ship) && nextId == old(nextId)
      ensures old(ship).None? ==> ship == Some(Participant(old(nextId), Ship)) && nextId == old(nextId) + 1
      ensures screen == old(screen) + {ship.value}
      ensures Numbered()
      ensures Pending(screen) == Pending(old(screen))
    {
      if ship.None? {
        ship := Some(Participant(nextId, Ship));
        nextId := nextId + 1;
      }
      PendingAddInert(screen, ship.value);
      screen := screen + {ship.value};
    }

    /** Starts a game: a new wave and the ship on an otherwise empty screen,
        full lives, no score, no bullets, and the controller listening. */
    method InitialScreen()
      requires Valid()
      modifies this`screen, this`asteroidCount, this`ship, this`nextId, this`lives, this`score
      modifies this`listening, this`bulletTrack
      ensures old(ship).Some? ==> ship == old(ship) && nextId == old(nextId) + 4
      ensures old(ship).None? ==> ship == Some(Participant(old(nextId) + 4, Ship)) && nextId == old(nextId) + 5
      ensures ship.Some? && screen == WaveFrom(old(nextId)) + {ship.value}
      ensures asteroidCount == 0 && lives == START_LIVES && score == 0
      ensures listening && bulletTrack == []
      ensures Valid() && WaveConsistent()
    {
      // The placements below touch none of these fields, so setting them
      // first leaves the same state as setting them last.
      lives := START_LIVES;
      score := 0;
      listening := true;
      bulletTrack := [];
      ClearForWave();
      PlaceShip();
    }

    /** Puts six new pieces of debris on the screen where an asteroid was hit. */
    method AsteroidDebris()
      requires Below(screen, nextId)
      modifies this`screen, this`nextId
      ensures nextId == old(nextId) + 6
      ensures screen == old(screen) + DebrisFrom(old(nextId)) && Below(screen, nextId)
      ensures Pending(screen) == Pending(old(screen))
    {
      AddDebris(screen, nextId);
      screen := screen + DebrisFrom(nextId);
      nextId := nextId + 6;
    }

    /** Puts the three pieces of a wrecked ship on the screen. */
    method ShipDebrisControl()
      requires Below(screen, nextId)
      modifies this`screen, this`nextId
      ensures nextId == old(nextId) + 3
      ensures screen == old(screen) + WreckFrom(old(nextId)) && Below(screen, nextId)
      ensures Pending(screen) == Pending(old(screen))
    {
      AddWreck(screen, nextId);
      screen := screen + WreckFrom(nextId);
      nextId := nextId + 3;
    }

    /** An asteroid of the given size that was hit splits, unless it had the
        smallest size, into two new asteroids one size smaller, of varieties
        `v1` and `v2`. Together with the destruction of the hit asteroid
        this settles one of the destructions owed. */
    method SplitAsteroid(variety: int, size: int, v1: Variety, v2: Variety)
      requires Below(screen, nextId)
      modifies this`screen, this`nextId
      ensures nextId == old(nextId) + FragmentCount(size)
      ensures screen == old(screen) + FragmentsFrom(old(nextId), size, v1, v2) && Below(screen, nextId)
      ensures Pending(screen) + 1 == Pending(old(screen)) + Weight(Asteroid(variety, size))
    {
      AddFragments(screen, nextId, variety, size, v1, v2);
      var smaller := size - 1;
      if smaller >= 0 {
        screen := screen + FragmentsFrom(nextId, size, v1, v2);
        nextId := nextId + 2;
      }
    }

    /** The last asteroid of a wave is gone: the ship comes back, made anew
        if there is none, a new wave is placed, and the transition count and
        the level go up. */
    method NextWave()
      requires Valid()
      modifies this`screen, this`ship, this`nextId, this`asteroidCount
      modifies this`transitionCount, this`levelCount
      ensures asteroidCount == 0 && transitionCount == old(transitionCount) + 1
      ensures levelCount == old(levelCount) + 1
      ensures old(ship).Some? ==> ship == old(ship) && nextId == old(nextId) + 4
      ensures old(ship).None? ==> ship == Some(Participant(old(nextId), Ship)) && nextId == old(nextId) + 5
      ensures ship.Some? && screen == old(screen) + {ship.value} + WaveFrom(nextId - 4)
      ensures Pending(screen) == Pending(old(screen)) + WAVE_SIZE
      ensures Valid()
    {
      ghost var s0 := screen;
      if ship.Some? {
        PendingMinus(screen, ship.value);
        BelowMinus(screen, {ship.value}, nextId, nextId);
        screen := screen - {ship.value};
      }
      ghost var ship0 := ship;
      PlaceShip();
      ReturnShip(s0, ship0, ship.value);
      PlaceAsteroids();
      transitionCount := transitionCount + 1;
      levelCount := levelCount + 1;
    }

    /** What is left of a destroyed asteroid of the given variety and size:
        six pieces of debris, then its fragments. */
    method Shatter(variety: int, size: int, v1: Variety, v2: Variety)
      requires Valid()
      modifies this`screen, this`nextId
      ensures nextId == old(nextId) + 6 + FragmentCount(size)
      ensures screen == old(screen) + DebrisFrom(old(nextId)) + FragmentsFrom(old(nextId) + 6, size, v1, v2)
      ensures Valid()
      ensures Pending(screen) + 1 == Pending(old(screen)) + Weight(Asteroid(variety, size))
    {
      AsteroidDebris();
      SplitAsteroid(variety, size, v1, v2);
    }

    /** Asteroid `a` is destroyed: it leaves the screen, counts as destroyed
        and scores by its size; six pieces of debris and its fragments take
        its place. */
    method DestroyAsteroid(a: Participant, v1: Variety, v2: Variety)
      requires a.kind.Asteroid? && Valid()
      modifies this`screen, this`asteroidCount, this`score, this`nextId
      ensures score == old(score) + ScoreFor(a.kind.size)
      ensures asteroidCount == old(asteroidCount) + 1
      ensures nextId == old(nextId) + 6 + FragmentCount(a.kind.size)
      ensures screen == Shattered(old(screen), a, old(nextId), v1, v2)
      ensures Valid()
      ensures old(WaveConsistent()) && a in old(screen) ==> WaveConsistent()
    {
      PendingMinus(screen, a);
      BelowMinus(screen, {a}, nextId, nextId);
      screen := screen - {a};
      asteroidCount := asteroidCount + 1;
      score := score + ScoreFor(a.kind.size);
      Shatter(a.kind.variety, a.kind.size, v1, v2);
    }

    /** Something hit asteroid `a`, which is destroyed. The destruction that
        completes a wave brings the ship back and starts the next wave. */
    method AsteroidCollision(a: Participant, v1: Variety, v2: Variety)
      requires a.kind.Asteroid? && Valid()
      modifies this`screen, this`asteroidCount, this`score, this`ship, this`nextId
      modifies this`transitionCount, this`levelCount
      ensures score == old(score) + ScoreFor(a.kind.size)
      ensures old(asteroidCount) + 1 == WAVE_SIZE ==>
        asteroidCount == 0 && transitionCount == old(transitionCount) + 1 &&
        levelCount == old(levelCount) + 1 && ship.Some? &&
        (old(ship).Some? ==>
           ship == old(ship) && nextId == old(nextId) + 10 + FragmentCount(a.kind.size)) &&
        (old(ship).None? ==>
           ship == Some(Participant(old(nextId) + 6 + FragmentCount(a.kind.size), Ship)) &&
           nextId == old(nextId) + 11 + FragmentCount(a.kind.size)) &&
        screen == Shattered(old(screen), a, old(nextId), v1, v2) + {ship.value} + WaveFrom(nextId - 4)
      ensures old(asteroidCount) + 1 != WAVE_SIZE ==>
        asteroidCount == old(asteroidCount) + 1 && transitionCount == old(transitionCount) &&
        levelCount == old(levelCount) && ship == old(ship) &&
        nextId == old(nextId) + 6 + FragmentCount(a.kind.size) &&
        screen == Shattered(old(screen), a, old(nextId), v1, v2)
      ensures Valid()
      ensures old(WaveConsistent()) && a in old(screen) ==> WaveConsistent()
      ensures old(WaveConsistent()) && a in old(screen) && old(asteroidCount) + 1 == WAVE_SIZE ==>
        forall p | p in screen && p.kind.Asteroid? :: p in WaveFrom(nextId - 4)
      ensures old(WaveConsistent()) && a in old(screen) && old(asteroidCount) + 1 != WAVE_SIZE ==>
        exists p | p in screen :: p.kind.Asteroid?
    {
      DestroyAsteroid(a, v1, v2);
      WaveCheck();
    }

    /** The check that ends a level once the wave is destroyed: with the
        count at the wave size the next wave comes on, otherwise nothing
        changes. */
    method WaveCheck()
      requires Valid()
      modifies this`screen, this`asteroidCount, this`ship, this`nextId
      modifies this`transitionCount, this`levelCount
      ensures old(asteroidCount) == WAVE_SIZE ==>
        asteroidCount == 0 && transitionCount == old(transitionCount) + 1 &&
        levelCount == old(levelCount) + 1 && ship.Some? &&
        (old(ship).Some? ==> ship == old(ship) && nextId == old(nextId) + 4) &&
        (old(ship).None? ==> ship == Some(Participant(old(nextId), Ship)) && nextId == old(nextId) + 5) &&
        screen == old(screen) + {ship.value} + WaveFrom(nextId - 4)
      ensures old(asteroidCount) != WAVE_SIZE ==>
        asteroidCount == old(asteroidCount) && transitionCount == old(transitionCount) &&
        levelCount == old(levelCount) && ship == old(ship) &&
        nextId == old(nextId) && screen == old(screen)
      ensures Valid()
      ensures old(WaveConsistent()) ==> WaveConsistent()
      ensures old(WaveConsistent()) && old(asteroidCount) == WAVE_SIZE ==>
        forall p | p in screen && p.kind.Asteroid? :: p in WaveFrom(nextId - 4)
      ensures old(WaveConsistent()) && old(asteroidCount) != WAVE_SIZE ==>
        exists p | p in screen :: p.kind.Asteroid?
    {
      NothingPending(screen);
      if asteroidCount == WAVE_SIZE {
        NextWave();
      }
    }

    /** The ship `s` was hit: its wreck takes its place, the controller
        forgets it, a life is lost, the controls are released and the
        tracked bullets are forgotten. */
    method ShipCollision(s: Participant)
      requires s.kind == Ship && Valid()
      modifies this`screen, this`nextId, this`ship, this`lives
      modifies this`shipAccel, this`leftPressed, this`rightPressed, this`bulletTrack
      ensures nextId == old(nextId) + 3
      ensures screen == (old(screen) + WreckFrom(old(nextId))) - {s}
      ensures ship == None && lives == old(lives) - 1
      ensures !shipAccel && !leftPressed && !rightPressed && bulletTrack == []
      ensures Valid()
      ensures old(WaveConsistent()) ==> WaveConsistent()
    {
      ShipDebrisControl();
      PendingMinus(screen, s);
      BelowMinus(screen, {s}, nextId, nextId);
      screen := screen - {s};
      ship := None;
      lives := lives - 1;
      shipAccel := false;
      leftPressed := false;
      rightPressed := false;
      bulletTrack := [];
    }

    /** The screen reports that `p1` and `p2` collided. An asteroid and the
        ship destroy each other; a bullet that hits an asteroid leaves the
        screen and the track and destroys the asteroid; any other pair is
        ignored. `v1` and `v2` are the varieties drawn for the fragments. */
    method CollidedWith(p1: Participant, p2: Participant, v1: Variety, v2: Variety)
      requires Valid()
      modifies this`screen, this`asteroidCount, this`score, this`ship, this`nextId
      modifies this`transitionCount, this`levelCount, this`lives
      modifies this`shipAccel, this`leftPressed, this`rightPressed, this`bulletTrack
      ensures Classify(p1, p2).Ignored? ==>
        screen == old(screen) && score == old(score) && lives == old(lives) &&
        ship == old(ship) && bulletTrack == old(bulletTrack) && nextId == old(nextId) &&
        asteroidCount == old(asteroidCount) && transitionCount == old(transitionCount) &&
        levelCount == old(levelCount) && shipAccel == old(shipAccel) &&
        leftPressed == old(leftPressed) && rightPressed == old(rightPressed)
      ensures !Classify(p1, p2).Ignored? ==>
        score == old(score) + ScoreFor(Classify(p1, p2).asteroid.kind.size)
      ensures !Classify(p1, p2).Ignored? && old(asteroidCount) + 1 == WAVE_SIZE ==>
        asteroidCount == 0 && transitionCount == old(transitionCount) + 1 &&
        levelCount == old(levelCount) + 1
      ensures !Classify(p1, p2).Ignored? && old(asteroidCount) + 1 != WAVE_SIZE ==>
        asteroidCount == old(asteroidCount) + 1 && transitionCount == old(transitionCount) &&
        levelCount == old(levelCount)
      ensures Classify(p1, p2).ShipHit? ==>
        ship == None && lives == old(lives) - 1 && bulletTrack == [] &&
        !shipAccel && !leftPressed && !rightPressed &&
        Classify(p1, p2).ship !in screen
      ensures Classify(p1, p2).BulletHit? ==>
        lives == old(lives) && shipAccel == old(shipAccel) &&
        leftPressed == old(leftPressed) && rightPressed == old(rightPressed) &&
        bulletTrack == RemoveFirst(old(bulletTrack), Classify(p1, p2).bullet) &&
        Classify(p1, p2).bullet !in screen
      ensures Classify(p1, p2).BulletHit? && old(asteroidCount) + 1 == WAVE_SIZE ==>
        ship.Some? && (old(ship).Some? ==> ship == old(ship))
      ensures Classify(p1, p2).BulletHit? && old(asteroidCount) + 1 != WAVE_SIZE ==>
        ship == old(ship)
      ensures Valid()
      ensures old(WaveConsistent()) && p1 in old(screen) && p2 in old(screen) ==> WaveConsistent()
    {
      match Classify(p1, p2)
      case ShipHit(a, s) =>
        AsteroidCollision(a, v1, v2);
        ShipCollision(s);
      case BulletHit(a, b) =>
        BulletCollision(b, a, v1, v2);
      case Ignored =>
    }

    /** Bullet `b` hit asteroid `a`: the bullet leaves the screen and the
        track, and the asteroid is destroyed. The source takes the bullet
        off first; no bullet is made by the destruction, so taking it off
        afterwards leaves the same screen (`BulletRemovalCommutes`). */
    method BulletCollision(b: Participant, a: Participant, v1: Variety, v2: Variety)
      requires b.kind == Bullet && a.kind.Asteroid? && Valid()
      modifies this`screen, this`asteroidCount, this`score, this`ship, this`nextId
      modifies this`transitionCount, this`levelCount, this`bulletTrack
      ensures score == old(score) + ScoreFor(a.kind.size)
      ensures bulletTrack == RemoveFirst(old(bulletTrack), b) && b !in screen && b !in bulletTrack
      ensures old(asteroidCount) + 1 == WAVE_SIZE ==>
        asteroidCount == 0 && transitionCount == old(transitionCount) + 1 &&
        levelCount == old(levelCount) + 1 && ship.Some? &&
        (old(ship).Some? ==>
           ship == old(ship) && nextId == old(nextId) + 10 + FragmentCount(a.kind.size)) &&
        (old(ship).None? ==>
           ship == Some(Participant(old(nextId) + 6 + FragmentCount(a.kind.size), Ship)) &&
           nextId == old(nextId) + 11 + FragmentCount(a.kind.size)) &&
        screen == (Shattered(old(screen), a, old(nextId), v1, v2) + {ship.value} + WaveFrom(nextId - 4)) - {b}
      ensures old(asteroidCount) + 1 != WAVE_SIZE ==>
        asteroidCount == old(asteroidCount) + 1 && transitionCount == old(transitionCount) &&
        levelCount == old(levelCount) && ship == old(ship) &&
        nextId == old(nextId) + 6 + FragmentCount(a.kind.size) &&
        screen == Shattered(old(screen), a, old(nextId), v1, v2) - {b}
      ensures Valid()
      ensures old(WaveConsistent()) && a in old(screen) ==> WaveConsistent()
    {
      AsteroidCollision(a, v1, v2);
      Discard(b);
    }

    /** The round-transition timer went off: the game ends when no lives
        are left, otherwise the ship comes back, at rest. */
    method PerformTransition()
      requires Valid()
      modifies this`transitionCount, this`legend, this`listening, this`ship, this`screen
      modifies this`nextId, this`shipSpeed
      ensures transitionCount == old(transitionCount) + 1
      ensures old(lives) == 0 ==>
        legend == GameOver && !listening && ship == old(ship) && screen == old(screen) &&
        shipSpeed == old(shipSpeed) && nextId == old(nextId)
      ensures old(lives) != 0 ==>
        legend == old(legend) && listening == old(listening) && shipSpeed == 0 &&
        ship.Some? && screen == old(screen) + {ship.value} &&
        (old(ship).Some? ==> ship == old(ship) && nextId == old(nextId)) &&
        (old(ship).None? ==> ship == Some(Participant(old(nextId), Ship)) && nextId == old(nextId) + 1)
      ensures Valid()
      ensures old(WaveConsistent()) ==> WaveConsistent()
    {
      transitionCount := transitionCount + 1;
      if lives == 0 {
        FinalScreen();
      } else {
        PlaceShip();
        shipSpeed := 0;
      }
    }

    /** A key went down. The arrow keys set their control while there is a
        ship; the space bar fires a new bullet from the ship while fewer
        than eight bullets are tracked. */
    method KeyPressed(key: Key)
      requires Valid()
      modifies this`leftPressed, this`rightPressed, this`shipAccel
      modifies this`screen, this`bulletTrack, this`nextId
      ensures leftPressed == (old(leftPressed) || (key == LeftKey && ship.Some?))
      ensures rightPressed == (old(rightPressed) || (key == RightKey && ship.Some?))
      ensures shipAccel == (old(shipAccel) || (key == UpKey && ship.Some?))
      ensures key == SpaceKey && ship.Some? && |old(bulletTrack)| < MAX_BULLETS ==>
        nextId == old(nextId) + 1 &&
        screen == old(screen) + {Participant(old(nextId), Bullet)} &&
        bulletTrack == old(bulletTrack) + [Participant(old(nextId), Bullet)]
      ensures !(key == SpaceKey && ship.Some? && |old(bulletTrack)| < MAX_BULLETS) ==>
        nextId == old(nextId) && screen == old(screen) && bulletTrack == old(bulletTrack)
      ensures Valid()
      ensures old(WaveConsistent()) ==> WaveConsistent()
    {
      if key == LeftKey {
        if ship.Some? {
          leftPressed := true;
        }
      } else if key == RightKey {
        if ship.Some? {
          rightPressed := true;
        }
      } else if key == UpKey {
        if ship.Some? {
          shipAccel := true;
        }
      } else if key == SpaceKey {
        if ship.Some? && |bulletTrack| < MAX_BULLETS {
          var bullet := Participant(nextId, Bullet);
          PendingAddInert(screen, bullet);
          DistinctAppend(bulletTrack, bullet);
          screen := screen + {bullet};
          bulletTrack := bulletTrack + [bullet];
          nextId := nextId + 1;
        }
      }
    }

    /** A key came up. Every release lets go of the left arrow; with a ship,
        releasing the right arrow or the up arrow lets go of that control
        too. With no ship the handler stops after the left arrow. */
    method KeyReleased(key: Key)
      requires Valid()
      modifies this`leftPressed, this`rightPressed, this`shipAccel
      ensures !leftPressed
      ensures rightPressed == (old(rightPressed) && !(key == RightKey && ship.Some?))
      ensures shipAccel == (old(shipAccel) && !(key == UpKey && ship.Some?))
      ensures Valid()
    {
      leftPressed := false;
      if ship.Some? {
        if key == RightKey {
          rightPressed := false;
        }
        if key == UpKey {
          shipAccel := false;
        }
      }
    }

    /** A refresh of the ship's controls: turning cancels thrust, and the
        speed takes one half-unit step. */
    method Refresh()
      requires Valid()
      modifies this`shipAccel, this`shipSpeed
      ensures old(ship).None? ==> shipAccel == old(shipAccel) && shipSpeed == old(shipSpeed)
      ensures old(ship).Some? ==>
        shipAccel == (old(shipAccel) && !old(leftPressed) && !old(rightPressed)) &&
        shipSpeed == ThrustStep(old(shipSpeed), shipAccel, speedLimit)
      ensures Valid()
    {
      if ship.Some? {
        if rightPressed {
          shipAccel := false;
        }
        if leftPressed {
          shipAccel := false;
        }
        shipSpeed := ThrustStep(shipSpeed, shipAccel, speedLimit);
      }
    }

    /** A button press or a timer event. The start button records a
        transition and starts a game; the refresh timer refreshes the
        ship's controls; anything else is ignored. */
    method ActionPerformed(source: Source)
      requires Valid()
      modifies this`transitionCount, this`screen, this`asteroidCount, this`ship, this`nextId
      modifies this`lives, this`score, this`listening, this`bulletTrack
      modifies this`shipAccel, this`shipSpeed
      ensures source == StartButton ==>
        transitionCount == old(transitionCount) + 1 && ship.Some? &&
        (old(ship).Some? ==> ship == old(ship) && nextId == old(nextId) + 4) &&
        (old(ship).None? ==> ship == Some(Participant(old(nextId) + 4, Ship)) && nextId == old(nextId) + 5) &&
        screen == WaveFrom(old(nextId)) + {ship.value} &&
        asteroidCount == 0 && lives == START_LIVES && score == 0 &&
        listening && bulletTrack == [] && WaveConsistent() &&
        shipAccel == old(shipAccel) && shipSpeed == old(shipSpeed)
      ensures source == RefreshTimer ==>
        transitionCount == old(transitionCount) && screen == old(screen) &&
        ship == old(ship) && score == old(score) && lives == old(lives) &&
        asteroidCount == old(asteroidCount) && nextId == old(nextId) &&
        listening == old(listening) && bulletTrack == old(bulletTrack) &&
        (old(ship).None? ==> shipAccel == old(shipAccel) && shipSpeed == old(shipSpeed)) &&
        (old(ship).Some? ==>
           shipAccel == (old(shipAccel) && !leftPressed && !rightPressed) &&
           shipSpeed == ThrustStep(old(shipSpeed), shipAccel, speedLimit))
      ensures source == OtherSource ==>
        transitionCount == old(transitionCount) && screen == old(screen) &&
        ship == old(ship) && shipSpeed == old(shipSpeed) && shipAccel == old(shipAccel) &&
        lives == old(lives) && score == old(score) && asteroidCount == old(asteroidCount) &&
        nextId == old(nextId) && listening == old(listening) && bulletTrack == old(bulletTrack)
      ensures Valid()
      ensures source != StartButton && old(WaveConsistent()) ==> WaveConsistent()
    {
      match source
      case StartButton =>
        transitionCount := transitionCount + 1;
        InitialScreen();
      case RefreshTimer =>
        Refresh();
      case OtherSource =>
    }

    /** A countdown timer went off for `p`, or for nothing: the legend is
        cleared and `p` leaves the screen and the track. */
    method TimeExpired(p: Option<Participant>)
      requires Valid()
      modifies this`legend, this`screen, this`bulletTrack
      ensures legend == Blank
      ensures p.None? ==> screen == old(screen) && bulletTrack == old(bulletTrack)
      ensures p.Some? ==>
        screen == old(screen) - {p.value} && bulletTrack == RemoveFirst(old(bulletTrack), p.value)
      ensures p.Some? ==> p.value !in screen && p.value !in bulletTrack
      ensures Valid()
      ensures old(WaveConsistent()) && (p.Some? ==> !p.value.kind.Asteroid?) ==> WaveConsistent()
    {
      legend := Blank;
      if p.Some? {
        Discard(p.value);
      }
    }

    /** `p` leaves the screen and, if it is tracked, the track. */
    method Discard(p: Participant)
      requires Valid()
      modifies this`screen, this`bulletTrack
      ensures screen == old(screen) - {p} && bulletTrack == RemoveFirst(old(bulletTrack), p)
      ensures p !in screen && p !in bulletTrack
      ensures Valid()
      ensures Pending(screen) + (if p in old(screen) then Weight(p.kind) else 0) == Pending(old(screen))
    {
      PendingMinus(screen, p);
      BelowMinus(screen, {p}, nextId, nextId);
      TrackOnRemove(bulletTrack, screen, p);
      screen := screen - {p};
      bulletTrack := RemoveFirst(bulletTrack, p);
    }
  }
}
