/** When an instruction gets through.  After a miss the whole instruction starts
    again, so a line that is thrown out while it is still needed is missed once
    more.  The victim rule (oldest line up to the first dirty one) makes this a
    real question: an instruction whose own code lies in a dirty line can throw
    out its operands again and again. */
module Progress {
  import opened Words
  import opened LineCache
  import opened Paging

  /** None of the counters reaches 0xffff during the next `k` look-ups. */
  predicate Room(c: Cache, k: nat)
    requires c.Shape()
  {
    forall i | 0 <= i < SLOTS :: c.ages[i] + k < 0xffff
  }

  // ---------------------------------------------------------------- first and last touches

  /** The last index below `k` that touches line `l`, or -1. */
  function Last(t: seq<nat>, k: nat, l: Addr): (r: int)
    requires InSpace(t) && k <= |t|
    ensures -1 <= r < k
    ensures r >= 0 ==> Line(t[r]) == l
    ensures forall j | r < j < k :: Line(t[j]) != l
  {
    if k == 0 then -1 else if Line(t[k - 1]) == l then k - 1 else Last(t, k - 1, l)
  }

  /** The first index from `k` on that touches line `l`, or |t|. */
  function First(t: seq<nat>, l: Addr, k: nat := 0): (r: nat)
    requires InSpace(t) && k <= |t|
    ensures k <= r <= |t|
    ensures r < |t| ==> Line(t[r]) == l
    ensures forall j | k <= j < r :: Line(t[j]) != l
    decreases |t| - k
  {
    if k == |t| || Line(t[k]) == l then k else First(t, l, k + 1)
  }

  /** Line `x` is touched at i and k; in between, at j, comes a line that was not
      touched before i and is not touched again from k on; and at l comes a line
      that was never touched before. */
  predicate Pattern(t: seq<nat>, x: Addr, i: nat, j: nat, k: nat, l: nat)
    requires InSpace(t)
  {
    && i < j < k < l < |t|
    && Line(t[i]) == x && Line(t[k]) == x && Line(t[j]) != x
    && (forall m | 0 <= m < i :: Line(t[m]) != Line(t[j]))
    && (forall m | k <= m < l :: Line(t[m]) != Line(t[j]))
    && (forall m | 0 <= m < l :: Line(t[m]) != Line(t[l]))
  }

  ghost predicate Interleaved(t: seq<nat>, x: Addr)
    requires InSpace(t)
  {
    exists i: nat, j: nat, k: nat, l: nat :: Pattern(t, x, i, j, k, l)
  }

  // ---------------------------------------------------------------- the ages during an attempt

  /** The age that slot `s` has after `n` hits. */
  function AgeAfter(c: Cache, t: seq<nat>, n: nat, s: nat): int
    requires c.Shape() && InSpace(t) && n <= |t| && s < SLOTS
  {
    var last := Last(t, n, Base(c.tags[s]));
    if last >= 0 then n - 1 - last else c.ages[s] + n
  }

  lemma {:induction false} HitAges(c: Cache, t: seq<nat>, n: nat)
    requires c.Shape() && Sound(c.tags) && InSpace(t) && n <= Prefix(c.tags, t) && Room(c, n)
    ensures Play(c, t[..n]).Done?
    ensures forall s | 0 <= s < SLOTS :: Play(c, t[..n]).cache.ages[s] == AgeAfter(c, t, n, s)
  {
    hide Touch, AgeAfter, Sound, Slot;
    if n > 0 {
      HitAges(c, t, n - 1);
      assert Front(t[..n]) == t[..n - 1] && End(t[..n]) == t[n - 1];
      var before := Play(c, t[..n - 1]).cache;
      assert Play(c, t[..n]) == Done(Touch(before, t[n - 1], false).cache);
      forall s | 0 <= s < SLOTS
        ensures Touch(before, t[n - 1], false).cache.ages[s] == AgeAfter(c, t, n, s)
      {
        HitAge(c, t, n, before, s);
      }
    } else {
      assert t[..0] == [];
      forall s | 0 <= s < SLOTS ensures c.ages[s] == AgeAfter(c, t, 0, s) {
        NoAge(c, t, s);
      }
    }
  }

  lemma NoAge(c: Cache, t: seq<nat>, s: nat)
    requires c.Shape() && InSpace(t) && s < SLOTS
    ensures AgeAfter(c, t, 0, s) == c.ages[s]
  {
  }

  lemma HitAge(c: Cache, t: seq<nat>, n: nat, before: Cache, s: nat)
    requires c.Shape() && Sound(c.tags) && InSpace(t) && 0 < n <= |t| && s < SLOTS && Room(c, n)
    requires before.Shape() && before.tags == c.tags && Resident(c, t[n - 1])
    requires before.ages[s] == AgeAfter(c, t, n - 1, s)
    ensures Touch(before, t[n - 1], false).cache.ages[s] == AgeAfter(c, t, n, s)
  {
    hide AgeAfter;
    OnlyOneSlot(c.tags, t[n - 1], s);
    AgeGrows(c, t, n, s);
  }

  lemma {:induction false} OnlyOneSlot(tags: seq<Addr>, a: Addr, s: nat)
    requires Sound(tags) && a < USABLE && s < SLOTS && Slot(tags, a) < SLOTS
    ensures Base(tags[s]) == Line(a) <==> s == Slot(tags, a)
  {
    UsableLine(a);
  }

  /** One more hit: the line it touches gets age 0, the others one more. */
  lemma AgeGrows(c: Cache, t: seq<nat>, n: nat, s: nat)
    requires c.Shape() && InSpace(t) && 0 < n <= |t| && s < SLOTS && Room(c, n)
    ensures AgeAfter(c, t, n, s) ==
      if Line(t[n - 1]) == Base(c.tags[s]) then 0 else AgeAfter(c, t, n - 1, s) + 1
    ensures 0 <= AgeAfter(c, t, n - 1, s) < 0xfffe
  {
    assert c.ages[s] + n < 0xffff;
  }

  /** The ages among which the victim is chosen when index `n` misses. */
  function MissAge(c: Cache, t: seq<nat>, n: nat, s: nat): int
    requires c.Shape() && InSpace(t) && n <= |t| && s < SLOTS
  {
    var last := Last(t, n, Base(c.tags[s]));
    if last >= 0 then n - last else c.ages[s] + n + 1
  }

  /** How the victim was chosen after `n` hits. */
  predicate Chosen(c: Cache, t: seq<nat>, m: Cache, n: nat)
    requires c.Shape() && InSpace(t) && n <= |t|
  {
    && m.Shape() && m.victim <= Reach(c.tags)
    && (forall s | 0 <= s < SLOTS :: m.ages[s] == if s == m.victim then 0 else MissAge(c, t, n, s))
    && (forall s | 0 <= s <= Reach(c.tags) :: MissAge(c, t, n, s) <= MissAge(c, t, n, m.victim))
    && (forall s | m.victim < s <= Reach(c.tags) :: MissAge(c, t, n, s) < MissAge(c, t, n, m.victim))
  }

  predicate Misses(c: Cache, t: seq<nat>)
    requires c.Shape() && InSpace(t)
  {
    Prefix(c.tags, t) < |t|
  }

  lemma AttemptFails(c: Cache, t: seq<nat>) returns (m: Cache, n: nat)
    requires c.Shape() && Sound(c.tags) && InSpace(t) && Misses(c, t) && Room(c, Prefix(c.tags, t) + 1)
    ensures n == Prefix(c.tags, t) && Play(c, t) == Missed(m)
    ensures m.miss == t[n] && m.tags == c.tags && Chosen(c, t, m, n)
  {
    n := Prefix(c.tags, t);
    PlayStopsAtMiss(c, t);
    RoomForLess(c, n + 1, n);
    HitAges(c, t, n);
    m := Play(c, t).cache;
    MissChoice(c, t, n, Play(c, t[..n]).cache, m);
  }

  lemma MissChoice(c: Cache, t: seq<nat>, n: nat, before: Cache, m: Cache)
    requires c.Shape() && InSpace(t) && n < |t| && Room(c, n + 1) && !Resident(c, t[n])
    requires before.Shape() && before.tags == c.tags && m == Touch(before, t[n], false).cache
    requires forall s | 0 <= s < SLOTS :: before.ages[s] == AgeAfter(c, t, n, s)
    ensures m.Shape() && m.miss == t[n] && m.tags == c.tags && Chosen(c, t, m, n)
  {
    hide AgeAfter, MissAge, Victim;
    var ages := Older(before.ages);
    forall s | 0 <= s < SLOTS ensures ages[s] == MissAge(c, t, n, s) && ages[s] < 0xffff {
      AgeInRange(c, t, n, s);
    }
    VictimIsOldestUpToFirstDirty(c.tags, ages);
  }

  lemma AgeInRange(c: Cache, t: seq<nat>, n: nat, s: nat)
    requires c.Shape() && InSpace(t) && n < |t| && s < SLOTS && Room(c, n + 1)
    ensures MissAge(c, t, n, s) == AgeAfter(c, t, n, s) + 1
    ensures 0 <= AgeAfter(c, t, n, s) < 0xfffe
  {
    assert c.ages[s] + (n + 1) < 0xffff;
  }

  // ---------------------------------------------------------------- after the exchange

  /** What the exchange does to the tags (the ages stay). */
  predicate Exchanged(m: Cache, c': Cache) {
    && m.Shape() && c'.Shape()
    && c'.tags == m.tags[m.victim := Line(m.miss)] && c'.ages == m.ages
  }

  predicate Touched(c: Cache, t: seq<nat>, n: nat, s: nat)
    requires c.Shape() && InSpace(t) && n <= |t| && s < SLOTS
  {
    Last(t, n, Base(c.tags[s])) >= 0
  }

  function Dirties(tags: seq<Addr>, n: nat := SLOTS): (d: nat)
    requires |tags| == SLOTS && n <= SLOTS
    ensures d <= n
  {
    if n == 0 then 0 else Dirties(tags, n - 1) + if Dirty(tags[n - 1]) then 1 else 0
  }

  /** The first dirty line will not be touched before the next miss, and every
      slot before it that is older holds a line that is needed before it. */
  predicate Cornered(c: Cache, t: seq<nat>)
    requires c.Shape() && InSpace(t)
  {
    var d := FirstDirty(c.tags);
    && d < SLOTS
    && var x := First(t, Base(c.tags[d]));
       && Prefix(c.tags, t) <= x
       && (forall s | 0 <= s < d && c.ages[s] > c.ages[d] :: First(t, Base(c.tags[s])) < x)
  }

  /** The measure: dirty lines, then whether the first of them is cornered, then
      how far the attempts get. */
  function Rank(c: Cache, t: seq<nat>): (r: nat)
    requires c.Shape() && InSpace(t)
    ensures r < 12 * (|t| + 1)
  {
    Score(Dirties(c.tags), Cornered(c, t), Prefix(c.tags, t), |t|)
  }

  function Score(dirty: nat, cornered: bool, n: nat, total: nat): (r: nat)
    requires n <= total
    ensures dirty <= SLOTS ==> r < 12 * (total + 1)
  {
    var a := 2 * dirty + if cornered then 0 else 1;
    AtMostEleven(a, total + 1);
    Times(a, total + 1) + (total - n)
  }

  function Times(a: nat, u: nat): nat {
    if a == 0 then 0 else Times(a - 1, u) + u
  }

  lemma {:induction false} Gap(a: nat, b: nat, u: nat)
    requires b < a
    ensures Times(b, u) + u <= Times(a, u)
  {
    if b < a - 1 {
      Gap(a - 1, b, u);
    }
  }

  lemma {:induction false} AtMostEleven(a: nat, u: nat)
    ensures a <= 11 ==> Times(a, u) <= 11 * u
  {
    assert Times(1, u) == u && Times(2, u) == 2 * u;
    assert Times(3, u) == 3 * u && Times(4, u) == 4 * u;
    assert Times(5, u) == 5 * u && Times(6, u) == 6 * u;
    assert Times(7, u) == 7 * u && Times(8, u) == 8 * u;
    assert Times(9, u) == 9 * u && Times(10, u) == 10 * u;
    assert Times(11, u) == 11 * u;
    if a < 11 {
      Gap(11, a, u);
    }
  }

  lemma {:induction false} PrefixReaches(tags: seq<Addr>, t: seq<nat>, k: nat)
    requires |tags| == SLOTS && InSpace(t) && k <= |t|
    requires forall j | 0 <= j < k :: Slot(tags, t[j]) < SLOTS
    ensures Prefix(tags, t) >= k
  {
  }

  /** Throwing out a line that this attempt has not touched: the next attempt
      gets further. */
  lemma {:induction false} UntouchedVictim(c: Cache, t: seq<nat>, m: Cache, c': Cache)
    requires c.Shape() && InSpace(t) && Misses(c, t) && Exchanged(m, c') && m.tags == c.tags
    requires m.miss == t[Prefix(c.tags, t)] && !Touched(c, t, Prefix(c.tags, t), m.victim)
    ensures Prefix(c'.tags, t) > Prefix(c.tags, t)
  {
    hide Slot, Prefix;
    var n := Prefix(c.tags, t);
    LineIsClean(m.miss);
    forall j | 0 <= j <= n ensures Slot(c'.tags, t[j]) < SLOTS {
      if j < n {
        var s := Slot(c.tags, t[j]);
        assert s != m.victim && c'.tags[s] == c.tags[s];
      } else {
        assert Base(c'.tags[m.victim]) == Line(t[j]);
      }
    }
    PrefixReaches(c'.tags, t, n + 1);
  }

  /** Throwing out a line that is needed: the next attempt misses it again. */
  lemma {:induction false} NeededVictim(c: Cache, t: seq<nat>, m: Cache, c': Cache, f: nat)
    requires c.Shape() && Sound(c.tags) && InSpace(t) && Misses(c, t) && Exchanged(m, c') && m.tags == c.tags
    requires m.miss == t[Prefix(c.tags, t)] && f < |t|
    requires Line(t[f]) == Base(c.tags[m.victim])
    ensures Prefix(c'.tags, t) <= f
  {
    hide Slot, Prefix, Sound;
    var n, v := Prefix(c.tags, t), m.victim;
    LineIsClean(m.miss);
    assert Line(t[f]) != Line(t[n]) && Slot(c.tags, t[f]) < SLOTS by {
      assert Slot(c.tags, t[n]) == SLOTS;
    }
    forall s | 0 <= s < SLOTS ensures Base(c'.tags[s]) != Line(t[f]) {
      OnlyOneSlot(c.tags, t[f], s);
      OnlyOneSlot(c.tags, t[f], v);
    }
  }

  lemma {:induction false} DirtiesDrop(tags: seq<Addr>, tags': seq<Addr>, v: nat, n: nat)
    requires |tags| == |tags'| == SLOTS && v < SLOTS && n <= SLOTS
    requires tags' == tags[v := tags'[v]] && !Dirty(tags'[v])
    ensures Dirties(tags', n) == Dirties(tags, n) - if v < n && Dirty(tags[v]) then 1 else 0
  {
    if n > 0 {
      DirtiesDrop(tags, tags', v, n - 1);
    }
  }

  lemma {:induction false} SameFirstDirty(tags: seq<Addr>, tags': seq<Addr>, v: nat)
    requires |tags| == |tags'| == SLOTS && v < SLOTS
    requires tags' == tags[v := tags'[v]] && !Dirty(tags'[v]) && !Dirty(tags[v])
    ensures FirstDirty(tags') == FirstDirty(tags)
  {
    hide Dirty;
    var d := FirstDirty(tags);
    forall i | 0 <= i < d ensures !Dirty(tags'[i]) {
    }
    if d < SLOTS {
      assert tags'[d] == tags[d];
    }
  }

  /** The tags stay sound, and no line becomes dirty. */
  lemma {:induction false} ExchangedTags(c: Cache, t: seq<nat>, m: Cache, c': Cache)
    requires c.Shape() && Sound(c.tags) && InSpace(t) && Misses(c, t) && Exchanged(m, c') && m.tags == c.tags
    requires m.miss == t[Prefix(c.tags, t)]
    ensures Sound(c'.tags) && !Dirty(c'.tags[m.victim])
    ensures forall s | 0 <= s < SLOTS && Dirty(c'.tags[s]) :: c'.tags[s] == c.tags[s]
  {
    hide Slot, Prefix;
    var n := Prefix(c.tags, t);
    LineIsClean(m.miss);
    assert Slot(c.tags, t[n]) == SLOTS;
  }

  // ---------------------------------------------------------------- the three cases of a miss

  predicate FewLines(t: seq<nat>)
    requires InSpace(t)
  {
    |Lines(t)| <= SLOTS
  }

  function Lines(t: seq<nat>): set<Addr>
    requires InSpace(t)
  {
    set i | 0 <= i < |t| :: Line(t[i])
  }

  /** With no dirty line the rule is plain LRU over five slots: at most four
      lines are touched before the fifth is missed, so the victim is none of
      them. */
  lemma {:induction false} CleanVictimUntouched(c: Cache, t: seq<nat>, m: Cache, n: nat)
    requires c.Shape() && Sound(c.tags) && InSpace(t) && FewLines(t) && n < |t| && m.Shape()
    requires n == Prefix(c.tags, t) && Reach(c.tags) == SLOTS - 1
    requires forall s | 0 <= s < SLOTS :: MissAge(c, t, n, s) <= MissAge(c, t, n, m.victim)
    ensures !Touched(c, t, n, m.victim)
  {
    hide Prefix, Slot, Reach, MissAge, Touched, Sound, Lines;
    if Touched(c, t, n, m.victim) {
      forall s | 0 <= s < SLOTS
        ensures Base(c.tags[s]) in Lines(t) && Base(c.tags[s]) != Line(t[n]) && InUse(c.tags[s])
      {
        TouchedIsYounger(c, t, n, s, m.victim);
        TouchedInUse(c, t, n, s);
        TouchedLine(c, t, n, s);
      }
      forall i, j | 0 <= i < j < SLOTS ensures Base(c.tags[i]) != Base(c.tags[j]) {
        OtherTag(c, i, j);
      }
      LineIn(t, n);
      SixLines(c.tags, Lines(t), Line(t[n]));
    }
  }

  lemma LineIn(t: seq<nat>, n: nat)
    requires InSpace(t) && n < |t|
    ensures Line(t[n]) in Lines(t)
  {
  }

  lemma TouchedLine(c: Cache, t: seq<nat>, n: nat, s: nat)
    requires c.Shape() && InSpace(t) && n < |t| && s < SLOTS && Touched(c, t, n, s)
    requires !Resident(c, t[n])
    ensures Base(c.tags[s]) in Lines(t) && Base(c.tags[s]) != Line(t[n])
  {
    LineIn(t, Last(t, n, Base(c.tags[s])));
  }

  /** Of two slots the untouched one is older. */
  lemma TouchedIsYounger(c: Cache, t: seq<nat>, n: nat, s: nat, v: nat)
    requires c.Shape() && InSpace(t) && n <= |t| && s < SLOTS && v < SLOTS
    requires Touched(c, t, n, v) && MissAge(c, t, n, s) <= MissAge(c, t, n, v)
    ensures Touched(c, t, n, s)
  {
  }

  lemma SixLines(tags: seq<Addr>, lines: set<Addr>, l: Addr)
    requires |tags| == SLOTS && l in lines && l < USABLE
    requires forall s | 0 <= s < SLOTS :: Base(tags[s]) in lines && Base(tags[s]) != l
    requires forall i, j | 0 <= i < j < SLOTS :: Base(tags[i]) != Base(tags[j])
    ensures |lines| > SLOTS
  {
    var six := {Base(tags[0]), Base(tags[1]), Base(tags[2]), Base(tags[3]), Base(tags[4]), l};
    assert |six| == 6;
    Cardinality(six, lines);
  }

  lemma {:induction false} Cardinality(a: set<Addr>, b: set<Addr>)
    requires a <= b
    ensures |a| <= |b|
  {
    if a != {} {
      var x :| x in a;
      Cardinality(a - {x}, b - {x});
    }
  }

  /** The victim is clean and touched, so everything up to the first dirty line
      was touched in this attempt.  Unless the pattern occurs, what is older than
      the dirty line was needed before it: it is cornered now. */
  lemma {:induction false} BecomesCornered(c: Cache, t: seq<nat>, m: Cache, c': Cache, n: nat)
    requires c.Shape() && Sound(c.tags) && InSpace(t) && Misses(c, t) && Exchanged(m, c') && m.tags == c.tags
    requires n == Prefix(c.tags, t) && m.miss == t[n]
    requires Chosen(c, t, m, n) && m.victim < FirstDirty(c.tags) < SLOTS
    requires Touched(c, t, n, m.victim) && !Interleaved(t, Base(c.tags[FirstDirty(c.tags)]))
    ensures Cornered(c', t)
  {
    hide Prefix, Slot, Sound, FirstDirty, MissAge;
    var d, v := FirstDirty(c.tags), m.victim;
    var x := Base(c.tags[d]);
    ExchangedTags(c, t, m, c');
    SameFirstDirty(c.tags, c'.tags, v);
    forall s | 0 <= s < d && MissAge(c, t, n, d) < MissAge(c, t, n, s)
      ensures First(t, Base(c.tags[s])) < First(t, x)
    {
      NeededBefore(c, t, m, n, d, s);
    }
    NeededBefore(c, t, m, n, d, v);
    NeededVictim(c, t, m, c', First(t, Base(c.tags[v])));
  }

  lemma {:induction false} NeededBefore(c: Cache, t: seq<nat>, m: Cache, n: nat, d: nat, s: nat)
    requires c.Shape() && Sound(c.tags) && InSpace(t) && n < |t| && Chosen(c, t, m, n)
    requires n == Prefix(c.tags, t) && d == FirstDirty(c.tags) < SLOTS && m.victim < d && s < d
    requires Touched(c, t, n, m.victim) && MissAge(c, t, n, d) < MissAge(c, t, n, s)
    requires !Interleaved(t, Base(c.tags[d]))
    ensures First(t, Base(c.tags[s])) < First(t, Base(c.tags[d])) < n
  {
    assert Reach(c.tags) == d;
    assert MissAge(c, t, n, s) <= MissAge(c, t, n, m.victim);
    assert MissAge(c, t, n, d) <= MissAge(c, t, n, m.victim);
    hide Prefix, Slot, FirstDirty, Reach, MissAge, Touched, Sound, Pattern, Chosen, First, Last;
    var x, y := Base(c.tags[d]), Base(c.tags[s]);
    TouchedIsYounger(c, t, n, d, m.victim);
    TouchedIsYounger(c, t, n, s, m.victim);
    OlderTouchedFirst(c, t, n, s, d);
    TouchedInUse(c, t, n, s);
    assert x != y by {
      OtherTag(c, s, d);
    }
    if First(t, x) <= First(t, y) {
      assert forall q | 0 <= q < n :: Line(t[q]) != Line(t[n]) by {
        assert Slot(c.tags, t[n]) == SLOTS;
      }
      PatternFound(t, x, y, n);
    }
  }

  lemma OtherTag(c: Cache, s: nat, d: nat)
    requires c.Shape() && Sound(c.tags) && s < SLOTS && d < SLOTS && s != d && InUse(c.tags[s])
    ensures Base(c.tags[s]) != Base(c.tags[d])
  {
  }

  lemma {:induction false} OlderTouchedFirst(c: Cache, t: seq<nat>, n: nat, s: nat, d: nat)
    requires c.Shape() && InSpace(t) && n <= |t| && s < SLOTS && d < SLOTS
    requires Touched(c, t, n, s) && Touched(c, t, n, d) && MissAge(c, t, n, d) < MissAge(c, t, n, s)
    ensures var x, y := Base(c.tags[d]), Base(c.tags[s]);
      && First(t, x) <= Last(t, n, x) < n && First(t, y) <= Last(t, n, y) < Last(t, n, x)
  {
  }

  lemma {:induction false} PatternFound(t: seq<nat>, x: Addr, y: Addr, n: nat)
    requires InSpace(t) && n < |t| && x != y
    requires First(t, x) <= First(t, y) <= Last(t, n, y) < Last(t, n, x)
    requires forall q | 0 <= q < n :: Line(t[q]) != Line(t[n])
    ensures Interleaved(t, x)
  {
    var i, j, k := First(t, x), First(t, y), Last(t, n, x);
    assert Line(t[i]) == x && Line(t[j]) == y;
    assert Pattern(t, x, i, j, k, n);
  }

  lemma TouchedInUse(c: Cache, t: seq<nat>, n: nat, s: nat)
    requires c.Shape() && InSpace(t) && n <= |t| && s < SLOTS && Touched(c, t, n, s)
    ensures InUse(c.tags[s])
  {
    UsableLine(t[Last(t, n, Base(c.tags[s]))]);
  }

  /** A cornered line stays cornered: the victim is older than it, hence untouched
      and needed before it. */
  lemma {:induction false} StaysCornered(c: Cache, t: seq<nat>, m: Cache, c': Cache, n: nat)
    requires c.Shape() && Sound(c.tags) && InSpace(t) && Misses(c, t) && Exchanged(m, c') && m.tags == c.tags
    requires n == Prefix(c.tags, t) && m.miss == t[n]
    requires Chosen(c, t, m, n) && m.victim < FirstDirty(c.tags) < SLOTS && Cornered(c, t)
    ensures Cornered(c', t) && !Touched(c, t, n, m.victim)
  {
    hide Prefix, Slot, Sound, FirstDirty;
    var d, v := FirstDirty(c.tags), m.victim;
    var x := Base(c.tags[d]);
    ExchangedTags(c, t, m, c');
    SameFirstDirty(c.tags, c'.tags, v);
    assert Last(t, n, x) == -1;
    assert MissAge(c, t, n, d) == c.ages[d] + n + 1;
    NeededVictim(c, t, m, c', First(t, Base(c.tags[v])));
  }

  ghost predicate NoneInterleaved(c: Cache, t: seq<nat>)
    requires c.Shape() && InSpace(t)
  {
    forall s | 0 <= s < SLOTS && Dirty(c.tags[s]) :: !Interleaved(t, Base(c.tags[s]))
  }

  lemma ScoreDrops(d: nat, k: bool, n: nat, d': nat, k': bool, n': nat, total: nat)
    requires n <= total && n' <= total
    requires d' < d || (d' == d && !k && k') || (d' == d && (k ==> k') && n < n')
    ensures Score(d', k', n', total) < Score(d, k, n, total)
  {
    var a, a' := 2 * d + (if k then 0 else 1), 2 * d' + if k' then 0 else 1;
    if a' < a {
      Gap(a, a', total + 1);
    } else {
      assert a' == a;
    }
  }

  /** What a miss does to the three parts of the measure. */
  lemma {:induction false} MissCases(c: Cache, t: seq<nat>, m: Cache, c': Cache, n: nat)
    requires c.Shape() && Sound(c.tags) && InSpace(t) && Misses(c, t) && FewLines(t) && NoneInterleaved(c, t)
    requires Exchanged(m, c') && m.tags == c.tags && n == Prefix(c.tags, t) && m.miss == t[n]
    requires Chosen(c, t, m, n)
    ensures var (d, k) := (Dirties(c.tags), Cornered(c, t));
      var (d', k') := (Dirties(c'.tags), Cornered(c', t));
      d' < d || (d' == d && !k && k') || (d' == d && (k ==> k') && n < Prefix(c'.tags, t))
  {
    var v, d := m.victim, FirstDirty(c.tags);
    ExchangedTags(c, t, m, c');
    DirtiesDrop(c.tags, c'.tags, v, SLOTS);
    hide Prefix, Slot, Sound, FirstDirty, Cornered, MissAge, Dirties;
    if !Dirty(c.tags[v]) {
      if d == SLOTS {
        CleanVictimUntouched(c, t, m, n);
        UntouchedVictim(c, t, m, c');
        NeverCornered(c, t);
      } else if Cornered(c, t) {
        StaysCornered(c, t, m, c', n);
        UntouchedVictim(c, t, m, c');
      } else if Touched(c, t, n, v) {
        BecomesCornered(c, t, m, c', n);
      } else {
        UntouchedVictim(c, t, m, c');
      }
    }
  }

  /** Every miss lowers the measure, as long as no dirty line is interleaved with
      the rest of the instruction. */
  lemma {:induction false} RankDrops(c: Cache, t: seq<nat>, m: Cache, c': Cache)
    requires c.Shape() && Sound(c.tags) && InSpace(t) && Misses(c, t) && Room(c, |t|) && FewLines(t)
    requires NoneInterleaved(c, t) && Play(c, t) == Missed(m) && Exchanged(m, c')
    ensures Rank(c', t) < Rank(c, t)
  {
    RoomForLess(c, |t|, Prefix(c.tags, t) + 1);
    var m', n := AttemptFails(c, t);
    hide Prefix, Slot, Sound, FirstDirty, Play, Cornered, MissAge, Dirties, Exchanged, Score, Room, Chosen;
    MissCases(c, t, m, c', n);
    ScoreDrops(Dirties(c.tags), Cornered(c, t), n, Dirties(c'.tags), Cornered(c', t), Prefix(c'.tags, t), |t|);
  }

  lemma NeverCornered(c: Cache, t: seq<nat>)
    requires c.Shape() && InSpace(t) && FirstDirty(c.tags) == SLOTS
    ensures !Cornered(c, t)
  {
  }

  // ---------------------------------------------------------------- retrying

  /** The exchange after a miss, as far as tags and ages are concerned. */
  function Exchange'(m: Cache): (c: Cache)
    requires m.Shape()
    ensures Exchanged(m, c)
  {
    m.(tags := m.tags[m.victim := Line(m.miss)])
  }

  /** One attempt that misses, and the exchange that follows. */
  function Retry(c: Cache, t: seq<nat>): (r: Cache)
    requires c.Shape() && InSpace(t)
    ensures r.Shape()
  {
    if Play(c, t).Missed? then Exchange'(Play(c, t).cache) else c
  }

  function Retries(c: Cache, t: seq<nat>, n: nat): (r: Cache)
    requires c.Shape() && InSpace(t)
    ensures r.Shape()
  {
    if n == 0 then c else Retry(Retries(c, t, n - 1), t)
  }

  /** The attempt after exactly `n` misses succeeds. */
  predicate SucceedsAfter(c: Cache, t: seq<nat>, n: nat)
    requires c.Shape() && InSpace(t)
  {
    Play(Retries(c, t, n), t).Done? && forall k | 0 <= k < n :: Play(Retries(c, t, k), t).Missed?
  }

  lemma RoomForLess(c: Cache, k: nat, k': nat)
    requires c.Shape() && k' <= k && Room(c, k)
    ensures Room(c, k')
  {
    forall i | 0 <= i < SLOTS ensures c.ages[i] + k' < 0xffff {
      assert c.ages[i] + k < 0xffff;
    }
  }

  lemma {:induction false} TimesGrows(k': nat, k: nat, u: nat)
    requires k' <= k
    ensures Times(k', u) <= Times(k, u)
  {
    if k' < k {
      Gap(k, k', u);
    }
  }

  /** After an exchange the hypotheses hold again, with less room. */
  lemma {:induction false} ExchangedKeeps(c: Cache, t: seq<nat>, m: Cache, c': Cache, k: nat)
    requires c.Shape() && Sound(c.tags) && InSpace(t) && Misses(c, t) && Room(c, k + |t|)
    requires NoneInterleaved(c, t) && Play(c, t) == Missed(m) && Exchanged(m, c')
    ensures Sound(c'.tags) && NoneInterleaved(c', t) && Room(c', k)
  {
    RoomForLess(c, k + |t|, Prefix(c.tags, t) + 1);
    var m', n := AttemptFails(c, t);
    ExchangedTags(c, t, m, c');
    forall s | 0 <= s < SLOTS ensures c'.ages[s] + k < 0xffff {
      AgeInRange(c, t, n, s);
      assert c.ages[s] + k + |t| < 0xffff;
    }
  }

  /** The footprint lies in at most five lines, no dirty line is interleaved in
      it, and no counter can wrap while it is retried. */
  ghost predicate Promising(c: Cache, t: seq<nat>) {
    && c.Shape() && Sound(c.tags) && InSpace(t) && FewLines(t) && NoneInterleaved(c, t)
    && Room(c, Times(Rank(c, t) + 1, |t|))
  }

  lemma {:induction false} MissLeavesLess(c: Cache, t: seq<nat>, m: Cache, c': Cache)
    requires c.Shape() && Sound(c.tags) && InSpace(t) && FewLines(t) && NoneInterleaved(c, t)
    requires Misses(c, t) && Play(c, t) == Missed(m) && Exchanged(m, c')
    requires Room(c, Times(Rank(c, t) + 1, |t|))
    ensures Rank(c', t) < Rank(c, t) && Sound(c'.tags) && NoneInterleaved(c', t)
    ensures Room(c', Times(Rank(c', t) + 1, |t|))
  {
    hide Rank, Sound, Prefix, Room, FewLines, NoneInterleaved, Play;
    var k := Rank(c, t);
    assert Times(k + 1, |t|) == Times(k, |t|) + |t|;
    ExchangedKeeps(c, t, m, c', Times(k, |t|));
    RoomForLess(c, Times(k, |t|) + |t|, |t|);
    RankDrops(c, t, m, c');
    TimesGrows(Rank(c', t) + 1, k, |t|);
    RoomForLess(c', Times(k, |t|), Times(Rank(c', t) + 1, |t|));
  }

  lemma {:induction false} OneMissLess(c: Cache, t: seq<nat>)
    requires Promising(c, t) && Play(c, t).Missed?
    ensures Promising(Retry(c, t), t) && Rank(Retry(c, t), t) < Rank(c, t)
  {
    PlayStopsAtMiss(c, t);
    hide Rank, Sound, Prefix, Room, FewLines, NoneInterleaved, Play, Times, Exchanged;
    MissLeavesLess(c, t, Play(c, t).cache, Retry(c, t));
  }

  /** No livelock: such a footprint is read to its end after at most as many
      misses as the measure says. */
  lemma {:induction false} RetriesEnd(c: Cache, t: seq<nat>) returns (n: nat)
    requires Promising(c, t)
    ensures n <= Rank(c, t) && SucceedsAfter(c, t, n)
    decreases Rank(c, t)
  {
    hide Rank, Sound, Room, FewLines, NoneInterleaved, Play, Retry, SucceedsAfter;
    if Play(c, t).Missed? {
      OneMissLess(c, t);
      n := RetriesEnd(Retry(c, t), t);
      OneMore(c, t, n);
      n := n + 1;
    } else {
      n := 0;
      AtOnce(c, t);
    }
  }

  lemma {:induction false} AtOnce(c: Cache, t: seq<nat>)
    requires c.Shape() && InSpace(t) && Play(c, t).Done?
    ensures SucceedsAfter(c, t, 0)
  {
  }

  lemma {:induction false} OneMore(c: Cache, t: seq<nat>, n: nat)
    requires c.Shape() && InSpace(t) && Play(c, t).Missed? && SucceedsAfter(Retry(c, t), t, n)
    ensures SucceedsAfter(c, t, n + 1)
  {
    hide Play, Retry;
    forall k | 0 <= k <= n ensures Retries(c, t, k + 1) == Retries(Retry(c, t), t, k) {
      RetriesFromFront(c, t, k);
    }
    forall k | 0 <= k < n + 1 ensures Play(Retries(c, t, k), t).Missed? {
      if k > 0 {
        assert Retries(c, t, (k - 1) + 1) == Retries(Retry(c, t), t, k - 1);
      }
    }
  }

  lemma {:induction false} RetriesFromFront(c: Cache, t: seq<nat>, k: nat)
    requires c.Shape() && InSpace(t)
    ensures Retries(c, t, k + 1) == Retries(Retry(c, t), t, k)
  {
    hide Play, Retry;
    if k > 0 {
      RetriesFromFront(c, t, k - 1);
    }
  }
}
