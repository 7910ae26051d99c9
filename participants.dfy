/** Participants on the screen and the collection operations the controller
    performs on them. The screen holds the set of live participants; the list
    of tracked bullets is an `ArrayList`, changed by `add`, `remove` and
    `clear`. */
module Participants {
  import opened Rules

  /** A reference that may be null. */
  datatype Option<T> = None | Some(value: T)

  /** A participant is an object: two bullets are different participants
      even though they have the same kind. Object identity is the serial
      number `id` the controller gives each participant it creates; only the
      kind is modelled besides. */
  datatype Participant = Participant(id: nat, kind: Kind)

  /** Every participant in `s` was numbered before `n`, so one numbered `n`
      or later is new to `s`. */
  ghost predicate Below(s: set<Participant>, n: int) {
    forall p | p in s :: p.id < n
  }

  /** Participants numbered from `lo` up to but not including `hi`: all of
      them made in between. */
  ghost predicate Between(s: set<Participant>, lo: int, hi: int) {
    forall p | p in s :: lo <= p.id < hi
  }

  /** Participants made from `n` on join a set numbered below `n`, and the
      whole is numbered below the new count. */
  lemma BelowUnion(s: set<Participant>, t: set<Participant>, n: int, m: int)
    requires Below(s, n) && n <= m && Between(t, n, m)
    ensures Below(s + t, m) && s !! t
  {
    forall p | p in t
      ensures p !in s
    {
    }
  }

  /** Taking participants off keeps the numbering. */
  lemma BelowMinus(s: set<Participant>, t: set<Participant>, n: int, m: int)
    requires Below(s, n) && n <= m
    ensures Below(s - t, m)
  {
  }

  /** The kinds of a set of participants, counted. */
  ghost function Census(s: set<Participant>): multiset<Kind>
    decreases s
  {
    if s == {} then multiset{}
    else
      var p :| p in s;
      multiset{p.kind} + Census(s - {p})
  }

  /** The choice the fold makes, stated as a fact about some member. */
  lemma CensusChoice(s: set<Participant>) returns (p: Participant)
    requires s != {}
    ensures p in s && Census(s) == multiset{p.kind} + Census(s - {p})
  {
    p :| p in s && Census(s) == multiset{p.kind} + Census(s - {p});
  }

  /** Whichever participant is taken out first, the census is the same. */
  lemma {:induction false} CensusRemove(s: set<Participant>, p: Participant)
    requires p in s
    ensures Census(s) == multiset{p.kind} + Census(s - {p})
    decreases s
  {
    var q := CensusChoice(s);
    if q != p {
      CensusRemove(s - {q}, p);
      CensusRemove(s - {p}, q);
      assert s - {q} - {p} == s - {p} - {q};
    }
  }

  /** A single participant is counted by its kind. */
  lemma CensusSingle(p: Participant)
    ensures Census({p}) == multiset{p.kind}
  {
    CensusRemove({p}, p);
    assert {p} - {p} == {};
  }

  /** Adding a participant that is not there yet counts its kind once more. */
  lemma CensusAdd(s: set<Participant>, p: Participant)
    requires p !in s
    ensures Census(s + {p}) == Census(s) + multiset{p.kind}
  {
    CensusRemove(s + {p}, p);
    assert (s + {p}) - {p} == s;
  }

  /** The census of two sets with no participant in common adds up. */
  lemma {:induction false} CensusUnion(s: set<Participant>, t: set<Participant>)
    requires s !! t
    ensures Census(s + t) == Census(s) + Census(t)
    decreases t
  {
    if t == {} {
      assert s + t == s;
    } else {
      var q := CensusChoice(t);
      CensusUnion(s, t - {q});
      assert s + t == (s + (t - {q})) + {q};
      CensusAdd(s + (t - {q}), q);
      Regroup(Census(s), Census(t - {q}), multiset{q.kind});
    }
  }

  lemma Regroup(a: multiset<Kind>, b: multiset<Kind>, c: multiset<Kind>)
    ensures a + b + c == a + (c + b)
  {
    assert forall x :: (a + b + c)[x] == (a + (c + b))[x];
  }

  /** The destructions still owed by the asteroids in a set of participants. */
  ghost function Pending(s: set<Participant>): nat
    decreases s
  {
    if s == {} then 0
    else
      var p :| p in s;
      Weight(p.kind) + Pending(s - {p})
  }

  /** The choice the fold makes, stated as a fact about some member. */
  lemma PendingChoice(s: set<Participant>) returns (p: Participant)
    requires s != {}
    ensures p in s && Pending(s) == Weight(p.kind) + Pending(s - {p})
  {
    p :| p in s && Pending(s) == Weight(p.kind) + Pending(s - {p});
  }

  /** Taking a participant off settles what it owed, whichever the fold took first. */
  lemma {:induction false} PendingRemove(s: set<Participant>, p: Participant)
    requires p in s
    ensures Pending(s) == Weight(p.kind) + Pending(s - {p})
    decreases s
  {
    var q := PendingChoice(s);
    if q != p {
      PendingRemove(s - {q}, p);
      PendingRemove(s - {p}, q);
      assert s - {q} - {p} == s - {p} - {q};
    }
  }

  /** Taking a participant off, whether it is there or not, settles what
      it owed if it was there. */
  lemma PendingMinus(s: set<Participant>, p: Participant)
    ensures Pending(s - {p}) + (if p in s then Weight(p.kind) else 0) == Pending(s)
  {
    if p in s {
      PendingRemove(s, p);
    } else {
      assert s - {p} == s;
    }
  }

  /** Adding a participant that is not there yet adds what it owes. */
  lemma PendingAdd(s: set<Participant>, p: Participant)
    requires p !in s
    ensures Pending(s + {p}) == Pending(s) + Weight(p.kind)
  {
    PendingRemove(s + {p}, p);
    assert (s + {p}) - {p} == s;
  }

  /** Adding a participant that is not an asteroid, present or not, changes
      nothing owed. */
  lemma PendingAddInert(s: set<Participant>, p: Participant)
    requires !p.kind.Asteroid?
    ensures Pending(s + {p}) == Pending(s)
  {
    if p in s {
      assert s + {p} == s;
    } else {
      PendingAdd(s, p);
    }
  }

  /** Adding participants that are not there yet adds what they owe. */
  lemma {:induction false} PendingUnion(s: set<Participant>, t: set<Participant>)
    requires s !! t
    ensures Pending(s + t) == Pending(s) + Pending(t)
    decreases t
  {
    if t == {} {
      assert s + t == s;
    } else {
      var q := PendingChoice(t);
      PendingUnion(s, t - {q});
      assert s + t == (s + (t - {q})) + {q};
      PendingAdd(s + (t - {q}), q);
    }
  }

  /** Nothing is owed exactly when no participant is an asteroid. */
  lemma {:induction false} NothingPending(s: set<Participant>)
    ensures Pending(s) == 0 <==> forall p | p in s :: !p.kind.Asteroid?
    decreases s
  {
    if s != {} {
      var q := PendingChoice(s);
      NothingPending(s - {q});
      assert forall p | p in s :: p == q || p in s - {q};
    }
  }

  /** What the participants owe is what their census owes: the wave
      invariant can be read on kinds alone. */
  lemma {:induction false} PendingIsOwed(s: set<Participant>)
    ensures Pending(s) == Owed(Census(s))
    decreases s
  {
    if s != {} {
      var q := PendingChoice(s);
      CensusRemove(s, q);
      PendingIsOwed(s - {q});
      OwedUnion(multiset{q.kind}, Census(s - {q}));
      OwedSingle(q.kind);
    }
  }

  /** A list of at most eight distinct bullets, all of them in `s`. */
  ghost predicate TrackOn(track: seq<Participant>, s: set<Participant>) {
    |track| <= MAX_BULLETS && Distinct(track) &&
    forall b | b in track :: b.kind == Bullet && b in s
  }

  /** The list after `ArrayList.remove(p)`: the first occurrence of `p`, if
      any, goes; the rest stays in order. */
  function RemoveFirst(s: seq<Participant>, p: Participant): seq<Participant> {
    if s == [] then []
    else if s[0] == p then s[1..]
    else [s[0]] + RemoveFirst(s[1..], p)
  }

  /** Removal takes out exactly one occurrence of `p` when there is one,
      and leaves the list as it is when there is none. */
  lemma {:induction false} RemoveFirstCounts(s: seq<Participant>, p: Participant)
    ensures multiset(RemoveFirst(s, p)) == multiset(s) - multiset{p}
    ensures p !in s ==> RemoveFirst(s, p) == s
    ensures p in s ==> |RemoveFirst(s, p)| == |s| - 1
  {
    if s != [] {
      assert s == [s[0]] + s[1..];
      RemoveFirstCounts(s[1..], p);
    }
  }

  /** No participant appears twice. */
  predicate Distinct(s: seq<Participant>) {
    forall x | x in s :: multiset(s)[x] == 1
  }

  /** Removing a participant from a list without repeats takes it out
      altogether and keeps the list without repeats. */
  lemma DistinctRemoveFirst(s: seq<Participant>, p: Participant)
    requires Distinct(s)
    ensures Distinct(RemoveFirst(s, p)) && p !in RemoveFirst(s, p)
    ensures forall x | x in RemoveFirst(s, p) :: x in s
    ensures forall x | x in s && x != p :: x in RemoveFirst(s, p)
    ensures |RemoveFirst(s, p)| <= |s|
  {
    var r := RemoveFirst(s, p);
    RemoveFirstCounts(s, p);
    forall x | x in r ensures x in s && x != p && multiset(r)[x] == 1 {
      assert multiset(r)[x] > 0;
    }
    forall x | x in s && x != p ensures x in r {
      assert multiset(r)[x] == multiset(s)[x] > 0;
    }
  }

  /** Taking a participant off both the screen and the track keeps the
      track on the screen. */
  lemma TrackOnRemove(track: seq<Participant>, s: set<Participant>, p: Participant)
    requires TrackOn(track, s)
    ensures TrackOn(RemoveFirst(track, p), s - {p}) && p !in RemoveFirst(track, p)
  {
    DistinctRemoveFirst(track, p);
  }

  /** Removing the same participant again from a list without repeats
      changes nothing: removal is idempotent. */
  lemma RemoveFirstIdempotent(s: seq<Participant>, p: Participant)
    requires Distinct(s)
    ensures RemoveFirst(RemoveFirst(s, p), p) == RemoveFirst(s, p)
  {
    DistinctRemoveFirst(s, p);
    RemoveFirstCounts(RemoveFirst(s, p), p);
  }

  /** Appending a participant that is not in the list keeps it without repeats. */
  lemma DistinctAppend(s: seq<Participant>, p: Participant)
    requires Distinct(s) && p !in s
    ensures Distinct(s + [p])
  {
    assert multiset(s + [p]) == multiset(s) + multiset{p};
  }
}
