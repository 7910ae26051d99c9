# Asteroids controller: a verified model of the rule engine

The model covers the rules of the Asteroids game as the controller
(`src/asteroids/Controller.java`) applies them. The controller is a
single-threaded object whose event handlers update a handful of fields:

- lives, score and the count of asteroids destroyed in the current wave;
- the level and the transition count;
- the ship (or none);
- the list of tracked bullets and the arrow-key and thrust flags;
- the ship's speed.

The handlers also put participants (asteroids, bullets, debris, ship
debris, the ship) on the screen and take them off again.

The model is imperative, like the source:

- `Control.Controller` is a class with those fields. Every handler is a
  method with a `modifies` frame. Its `ensures` state the whole new
  state, with one exception: `CollidedWith` states the counters, score,
  lives, ship, controls and track. It leaves the new screen and the new
  `nextId` to the handlers it calls (see "Left out").
- Pure rules live in module `Rules`: the score table, the split of a hit
  asteroid and the speed step.
- Module `Participants` holds the participants and the collections they
  live in.
- Module `Spawn` holds the groups of participants the controller makes in
  one go.

Modelling choices:

- **Participants.** A participant is a value `Participant(id, kind)`.
  Object identity in the source becomes a serial number `id`, handed out
  from the controller's counter `nextId`. Two bullets are therefore
  different participants even though their kinds are equal. Only the data
  the rules read is kept: the asteroid's variety and size, and the ship
  debris' variety.
- **The screen.** `Screen.java` is not part of this model. Its participant
  collection is modelled as the set `screen`:
  - `addParticipant` is a union;
  - `removeParticipant` is a difference (removing `null` or an absent
    participant changes nothing);
  - `clear` empties the set.

  The legend is a three-valued field. Registering and removing the
  controller as a collision and key listener is the flag `listening`.
- **The bullet list.** `bulletTrack` is an `ArrayList`. It becomes a
  sequence:
  - `add` appends;
  - `clear` empties it;
  - `remove` drops the first occurrence (`RemoveFirst`).
- **Ship speed.** The speed is a `double` that only ever moves in steps of
  0.5 from 1 or from 0. It is modelled exactly as a whole number of
  half-units. `SPEED_LIMIT` lives in `Constants.java`, which is not part of
  this model. The constructor's parameter `speedLimit` carries it in
  half-units, rounded up. For a whole number `h` of half-units,
  `h / 2 < SPEED_LIMIT` exactly when `h < speedLimit`.
- **Randomness.** The outcomes of `random.nextInt(4)` that choose the
  fragments' varieties are parameters `v1` and `v2` of the collision
  handlers.
- **Timers.** The sources of events are not modelled; each one becomes a
  public method that can be called at any time.

The model follows the code as written, including these points:

- A collision between the ship and an asteroid
  (`Controller.java:233-240`) both wrecks the ship and destroys and scores
  the asteroid. That destruction counts towards the wave.
- The comment at `Controller.java:668-670` says a bullet is fired while
  fewer than eight bullets are on the screen. The code caps the tracked
  list instead. A ship's death clears the list but leaves its bullets
  flying.
- A stray semicolon after the left-arrow test in `keyReleased` makes every
  key release let go of the left arrow. When there is no ship, the null
  dereference that follows is caught and ends the handler before the right
  arrow and thrust are looked at.
- The constructor creates `bulletTrack` after the splash screen. The model
  gives it its empty value first, which ends in the same state.
  `initialScreen` resets lives, score, listening and the track before
  placing the wave and the ship. Neither placement touches those fields,
  so the final state is the same.
- Before their first game, `lives` and `score` hold Java's default of 0.
- When a bullet hits an asteroid, the source takes the bullet off the
  screen and then destroys the asteroid. The model destroys the asteroid
  first and then takes the bullet off. A destruction never makes a
  bullet, so both orders leave the same screen (`BulletRemovalCommutes`).

What is proved:

- **Score.** Each destroyed asteroid adds 100, 50 or 20 points, by its
  size, so the score never drops during a game.
- **Split rule.** An asteroid of size one or more leaves exactly two
  asteroids one size smaller; one of size zero leaves none. Together with
  six pieces of debris, these are new participants. A size-2 asteroid's
  whole tree takes 1 + 2 + 4 = 7 destructions, so a wave of four takes
  exactly the 28 the controller waits for.
- **The wave invariant.** `asteroidCount + Pending(screen) == 28`, where
  `Pending` is what the asteroids on the screen still owe. The start
  button sets it up afresh. The handlers keep it as follows:
  - the collision handlers, when the participants a collision reports
    are on the screen;
  - the countdown callback, when its participant is not an asteroid (the
    controller starts countdowns only for debris, ship debris, bullets
    or no participant);
  - every other handler, always.

  So on the 28th destruction no asteroid is left. That destruction
  resets the count, brings the ship back, places a new wave and raises
  the level and the transition count.
- **Bullets.** The tracked bullets are always at most eight distinct
  bullets, all on the screen. Firing appends exactly one new bullet, and
  only when the ship is there and fewer than eight are tracked.
- **Lives and bookkeeping.** The ship's death costs exactly one life and
  leaves three pieces of ship debris. It clears the controls and the
  track.
- **Transitions.** `performTransition` ends the game when no lives are
  left; otherwise it puts the ship back at rest. It never does both.
- **Starting a game.** A new game gives three lives, no score, no tracked
  bullets, a ship and exactly one fresh wave on an otherwise empty screen.
- **Removal.** The countdown timer's callback takes a participant off the
  screen and out of the track. Doing so again changes nothing.
- **Refresh.** The refresh tick steps the speed by at most half a unit:
  up while thrusting below the limit, down while coasting above zero.

## Model

| member | source | states |
|---|---|---|
| Rules.ScoreFor | src/asteroids/Controller.java:310-323 | a destroyed asteroid scores 100 exactly for size 0, 50 exactly for size 1, 20 exactly for any other size, and never less than 20 |
| Rules.SmallerScoresMore | src/asteroids/Controller.java:310-323 | among sizes 0, 1 and 2, a smaller asteroid scores strictly more than a bigger one |
| Rules.FragmentsShape | src/asteroids/Controller.java:335-348 | a hit asteroid of size one or more leaves exactly two asteroids, of the drawn varieties and one size smaller; one of size zero leaves none |
| Rules.InitialWaveShape | src/asteroids/Controller.java:153-175 | a wave is four asteroids of size 2, exactly one of each of the four varieties |
| Rules.Destructions | src/asteroids/Controller.java:335-348 | the destructions needed to clear an asteroid and all it splits into are 2^(size+1) - 1 for a size of zero or more |
| Rules.SplitSettlesOne | src/asteroids/Controller.java:335-348 | the fragments of a hit asteroid owe exactly one destruction less than the asteroid itself owed |
| Rules.WaveMatchesSplitTree | src/asteroids/Controller.java:353 | one size-2 asteroid takes 7 destructions, so a wave takes exactly 28, the count at which the controller starts the next level |
| Rules.DecorationShapes | src/asteroids/Controller.java:369-401 | a burst is six pieces of debris; a wreck is two pieces of ship debris of variety 1 and one of variety 2 |
| Rules.DecorationsOweNothing | src/asteroids/Controller.java:369-444 | debris and ship debris add nothing to the destructions owed |
| Rules.ThrustStep | src/asteroids/Controller.java:576-596 | one refresh moves the speed by at most one half-unit: up exactly when thrusting below the limit, down exactly when coasting with a positive speed; it stays non-negative and does not rise past the limit |
| Participants.PendingIsOwed | src/asteroids/Controller.java:353 | what the asteroids on a screen owe is what their kinds owe, whatever else is on the screen |
| Participants.NothingPending | src/asteroids/Controller.java:353-361 | a screen owes no destruction exactly when no participant on it is an asteroid |
| Participants.PendingMinus | src/asteroids/Controller.java:297 | removing a participant settles exactly what it owed if it was there, and nothing otherwise |
| Participants.RemoveFirstCounts | src/asteroids/Controller.java:758 | removing a participant from the bullet list takes out exactly one occurrence when there is one, and leaves the list unchanged when there is none |
| Participants.DistinctRemoveFirst | src/asteroids/Controller.java:246 | removing a bullet from a list without repeats takes it out altogether, keeps every other member and adds none, and keeps the list without repeats |
| Participants.RemoveFirstIdempotent | src/asteroids/Controller.java:751-760 | removing the same participant again from a list without repeats changes nothing |
| Participants.TrackOnRemove | src/asteroids/Controller.java:752-758 | taking a participant off both the screen and the bullet list keeps the list a list of at most eight distinct bullets on the screen |
| Participants.DistinctAppend | src/asteroids/Controller.java:689-692 | appending a new bullet to a list without repeats keeps it without repeats |
| Spawn.WaveKinds | src/asteroids/Controller.java:153-175 | the four asteroids placed are new, numbered from n to n + 3, and count as one wave |
| Spawn.AddWave | src/asteroids/Controller.java:153-175 | placing a wave adds four participants new to the screen and adds 28 to the destructions owed |
| Spawn.DebrisKinds | src/asteroids/Controller.java:369-401 | the six pieces placed for a hit asteroid are new and count as six pieces of debris |
| Spawn.AddDebris | src/asteroids/Controller.java:369-401 | placing the debris adds six participants new to the screen and changes nothing owed |
| Spawn.WreckKinds | src/asteroids/Controller.java:418-438 | the three pieces placed for a wrecked ship are new: two of variety 1, one of variety 2 |
| Spawn.AddWreck | src/asteroids/Controller.java:418-438 | placing the wreck adds three participants new to the screen and changes nothing owed |
| Spawn.FragmentKinds | src/asteroids/Controller.java:335-348 | the fragments placed are new and are exactly the asteroids the split rule leaves |
| Spawn.AddFragments | src/asteroids/Controller.java:335-348 | placing the fragments adds participants new to the screen, and with the destruction of their parent one destruction fewer is owed |
| Spawn.BulletRemovalCommutes | src/asteroids/Controller.java:241-256 | no bullet is made by a destruction or a new wave, so taking a bullet off before the destruction leaves the same screen as taking it off afterwards |
| Control.Classify | src/asteroids/Controller.java:231-257 | the branch taken for a reported pair: asteroid and ship in either order, bullet and asteroid in either order, or nothing; each named participant is one of the pair and of the right kind |
| Control.ClassifySymmetric | src/asteroids/Controller.java:231-257 | the order in which a pair is reported does not change the branch taken |
| Control.Controller.constructor | src/asteroids/Controller.java:79-106 | a new controller shows the title, four asteroids of a wave and no ship; all flags false, speed 1, level and transition count 0, no tracked bullets, not listening; the invariants hold |
| Control.Controller.SplashScreen | src/asteroids/Controller.java:112-125 | the splash screen holds one fresh wave and no ship, under the title legend |
| Control.Controller.ClearForWave | src/asteroids/Controller.java:184-188 | a cleared screen with a wave placed holds exactly that wave, with a zero count, and the wave invariant holds |
| Control.Controller.GetTransitionCount | src/asteroids/Controller.java:131-134 | returns the transition count |
| Control.Controller.FinalScreen | src/asteroids/Controller.java:141-145 | shows the game-over legend and stops listening |
| Control.Controller.PlaceAsteroids | src/asteroids/Controller.java:153-175 | the count is reset and exactly one fresh wave is added to the screen, owing 28 destructions |
| Control.Controller.PlaceShip | src/asteroids/Controller.java:216-224 | the ship, made anew only when there is none, is on the screen; nothing else changes and nothing owed changes |
| Control.Controller.InitialScreen | src/asteroids/Controller.java:181-209 | a new game: the screen is one fresh wave plus the ship, count 0, three lives, score 0, listening, no tracked bullets; the invariants hold |
| Control.Controller.AsteroidDebris | src/asteroids/Controller.java:369-411 | six new pieces of debris join the screen; nothing owed changes |
| Control.Controller.ShipDebrisControl | src/asteroids/Controller.java:418-444 | three new pieces of ship debris join the screen; nothing owed changes |
| Control.Controller.SplitAsteroid | src/asteroids/Controller.java:335-348 | the fragments of the split rule join the screen, settling one of the destructions the hit asteroid owed |
| Control.Controller.Shatter | src/asteroids/Controller.java:304-348 | the debris and then the fragments of a hit asteroid join the screen |
| Control.Controller.DestroyAsteroid | src/asteroids/Controller.java:297-348 | the asteroid leaves the screen, the count goes up by one, the score by the table, and its debris and fragments join the screen; the wave invariant is kept |
| Control.Controller.WaveCheck | src/asteroids/Controller.java:353-361 | at a count of 28 the ship comes back, one fresh wave is placed, the count is reset and the level and transition count go up by one, and no earlier asteroid is left; below 28 nothing changes and some asteroid is still on the screen |
| Control.Controller.NextWave | src/asteroids/Controller.java:355-360 | the ship, kept or made anew, and one fresh wave join the screen; the count resets, the level and the transition count go up |
| Control.Controller.AsteroidCollision | src/asteroids/Controller.java:294-362 | a hit asteroid scores by the table and is replaced by its debris and fragments; the 28th destruction of a wave starts the next level as in WaveCheck, any other raises the count by one; the invariants hold |
| Control.Controller.ShipCollision | src/asteroids/Controller.java:263-287 | the ship leaves the screen for three pieces of ship debris, is forgotten, costs exactly one life, and the controls and the track are cleared; the invariants hold |
| Control.Controller.BulletCollision | src/asteroids/Controller.java:241-256 | the bullet is off the screen and out of the track (its first occurrence removed); the asteroid is destroyed and scored with debris and fragments in its place; the 28th destruction of a wave starts the next level, any other raises the count by one; the invariants hold |
| Control.Controller.CollidedWith | src/asteroids/Controller.java:230-257 | an ignored pair changes nothing; otherwise the asteroid is scored, and the 28th destruction of a wave resets the count and raises the level and transition count while any other raises the count by one; a ship hit costs one life, clears ship, controls and track and leaves the ship off the screen; a bullet hit keeps the lives and controls and takes the bullet off the screen and out of the track; a bullet hit keeps the ship below the 28th destruction and has a ship, the same one if there was one, after it; the invariants hold |
| Control.Controller.PerformTransition | src/asteroids/Controller.java:612-631 | the transition count goes up; with no lives left the game is over and no ship is placed, otherwise the ship is placed at speed 0 and the legend and listening stay |
| Control.Controller.KeyPressed | src/asteroids/Controller.java:638-701 | with a ship the arrow keys set their flag; the space bar fires exactly one new bullet onto the screen and the end of the track when fewer than eight are tracked; otherwise nothing changes |
| Control.Controller.KeyReleased | src/asteroids/Controller.java:707-738 | every release clears the left flag; with a ship, releasing right or up clears that flag; nothing else changes |
| Control.Controller.Refresh | src/asteroids/Controller.java:555-597 | with a ship, turning cancels thrust and the speed takes one thrust step; with none, nothing changes |
| Control.Controller.ActionPerformed | src/asteroids/Controller.java:544-606 | the start button raises the transition count and starts a new game, leaving thrust and speed alone; the refresh timer refreshes the ship's controls and changes nothing else; other sources change nothing |
| Control.Controller.TimeExpired | src/asteroids/Controller.java:751-760 | the legend is cleared and the participant, if any, is off the screen and out of the track; for none nothing else changes |
| Control.Controller.Discard | src/asteroids/Controller.java:755-758 | the participant leaves the screen and its first occurrence leaves the track; it is on neither afterwards |

## Left out

- Audio (`bulletAudio`, `thrusterAudio`, `asteroidAudio`): sound-system I/O with no effect on the state.
- Timers: the refresh `Timer`, `TransitionTimer` and `CountdownTimer` are not part of this model. Their callbacks are plain methods that may be called at any time. The countdowns that `shipCollision`, `asteroidDebris`, `shipDebrisControl` and `removeBullet` start are therefore not modelled, and `removeBullet` has no counterpart. The stale-count check lives in `TransitionTimer` and is not modelled either.
- Positions, velocities, rotations and outlines of participants, and the `rotate`, `accelerate`, `setVelocity` and `friction` calls on the ship, are left out. They are floating-point geometry in classes that are not part of this model.
- `Random`: the directions, rotations and speeds it draws are left out. The fragments' varieties are parameters.
- `Screen.java` is not part of this model: rendering (`refresh`), focus, and the collision detection that produces the `collidedWith` calls. The screen is a set of participants, so the order of drawing is not modelled.
- `Game.java`: `getScore` and `getLive` only update labels of the user interface, so they are left out.
- The fields `debris`, `shipDebris` and `bullet` only hold the last participant made of each kind and are never read back, so they are left out.
- `keyTyped` does nothing and is left out.
- Control.Controller.CollidedWith: does not state the new screen or `nextId` of a hit. AsteroidCollision, BulletCollision and ShipCollision state them for the branch each one handles. They are not restated in the dispatcher, to keep its proof small.
- Control.Controller.AsteroidCollision, Control.Controller.CollidedWith, Control.Controller.BulletCollision: keep the wave invariant only when the reported participants are on the screen. A collision with an asteroid already gone is not constrained by the source's reporting, which is not part of this model.
- Java's `int` is 32 bits wide. The model's score, lives and counters are unbounded integers, so a wrap-around of the score after some 2^31 points is not modelled.
- `Screen.java` is not part of this model, so its behaviour is assumed on three points:
  - a second `addParticipant` of a participant already on the screen changes nothing. This happens when `placeShip` re-adds a ship that is still on the screen;
  - `removeParticipant` of `null` or of a participant not on the screen changes nothing;
  - `clear` removes the participants and leaves the legend alone.
- The `listening` flag records whether the controller is registered with the screen. The handlers do not test it, because in the source the screen, not the controller, decides whom to notify.
