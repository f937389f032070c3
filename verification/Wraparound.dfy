/** Progress whatever the counters say.  They are 16 bits wide and wrap, and for the
    one attempt in which a counter stands at 0xffff the victim rule is not what it
    should be; but a line must go untouched for 65535 look-ups before its counter
    wraps, and that is long enough for the other attempts to get through. */
module Wraparound {
  import opened Words
  import opened LineCache
  import opened Paging
  import opened Progress

  const LONGEST := 50   // look-ups in an instruction, at most
  const STAGES := 102   // misses between two wraps, at most
  const LEVEL := 1122   // misses until a dirty line is written back, at most

  // ---------------------------------------------------------------- ages without room

  /** After `k` look-ups a slot has either been touched, or has wrapped, or is `k`
      older. */
  predicate Moved(before: Addr, after: Addr, k: nat) {
    after < k || after == before + k
  }

  predicate AllMoved(c: Cache, c': Cache, k: nat)
    requires c.Shape() && c'.Shape()
  {
    forall s | 0 <= s < SLOTS :: Moved(c.ages[s], c'.ages[s], k)
  }

  lemma MovedOnce(a: Addr, b: Addr, k: nat)
    requires Moved(a, b, k) && k < 0xffff
    ensures Moved(a, Tick(b), k + 1) && Moved(a, 0, k + 1)
  {
  }

  lemma TouchMoves(c: Cache, before: Cache, a: Addr, k: nat)
    requires c.Shape() && before.Shape() && AllMoved(c, before, k) && k < 0xffff
    ensures AllMoved(c, Touch(before, a, false).cache, k + 1)
  {
    hide Moved, Tick, Slot, Victim;
    forall s | 0 <= s < SLOTS
      ensures Moved(c.ages[s], Touch(before, a, false).cache.ages[s], k + 1)
    {
      MovedOnce(c.ages[s], before.ages[s], k);
    }
  }

  lemma {:induction false} HitsMove(c: Cache, t: seq<nat>, n: nat)
    requires c.Shape() && InSpace(t) && n <= Prefix(c.tags, t) && n < 0xffff
    ensures Play(c, t[..n]).Done? && AllMoved(c, Play(c, t[..n]).cache, n)
  {
    hide Touch, Slot, Moved;
    if n > 0 {
      HitsMove(c, t, n - 1);
      assert Front(t[..n]) == t[..n - 1] && End(t[..n]) == t[n - 1];
      var before := Play(c, t[..n - 1]).cache;
      assert Play(c, t[..n]) == Done(Touch(before, t[n - 1], false).cache);
      TouchMoves(c, before, t[n - 1], n - 1);
    } else {
      assert t[..0] == [];
      forall s | 0 <= s < SLOTS ensures Moved(c.ages[s], c.ages[s], 0) {
        NotMoved(c.ages[s]);
      }
    }
  }

  lemma NotMoved(a: Addr)
    ensures Moved(a, a, 0)
  {
  }

  /** An attempt that misses makes one look-up more than it hits. */
  lemma {:induction false} MissMoves(c: Cache, t: seq<nat>)
    requires c.Shape() && InSpace(t) && Misses(c, t) && |t| <= LONGEST
    ensures Play(c, t).Missed? && AllMoved(c, Retry(c, t), Prefix(c.tags, t) + 1)
  {
    var n := Prefix(c.tags, t);
    PlayStopsAtMiss(c, t);
    HitsMove(c, t, n);
    hide Play, Touch, AllMoved;
    TouchMoves(c, Play(c, t[..n]).cache, t[n], n);
    AllMovedAges(c, Play(c, t).cache, Retry(c, t), n + 1);
  }

  lemma AllMovedAges(c: Cache, m: Cache, c': Cache, k: nat)
    requires c.Shape() && m.Shape() && c'.Shape() && AllMoved(c, m, k) && m.ages == c'.ages
    ensures AllMoved(c, c', k)
  {
  }

  // ---------------------------------------------------------------- how often a counter can wrap

  /** How many attempts a counter can still spoil during the next `k` look-ups: one
      that takes it to 0xffff, and one that takes it over. */
  function Threat(age: Addr, k: nat): (r: nat)
    ensures r <= 2
  {
    if age + k < 0xffff then 0 else if age < 0xffff then 2 else 1
  }

  function Threats(c: Cache, k: nat): (r: nat)
    requires c.Shape()
    ensures r <= 10
  {
    Threat(c.ages[0], k) + Threat(c.ages[1], k) + Threat(c.ages[2], k) + Threat(c.ages[3], k) + Threat(c.ages[4], k)
  }

  lemma ThreatFalls(a: Addr, b: Addr, n: nat, k: nat)
    requires Moved(a, b, n) && 0 < n <= LONGEST <= k < 0xffff
    ensures Threat(b, k - LONGEST) <= Threat(a, k)
    ensures a + n >= 0xffff ==> Threat(b, k - LONGEST) < Threat(a, k)
  {
  }

  lemma ThreatsFall(c: Cache, c': Cache, n: nat, k: nat)
    requires c.Shape() && c'.Shape() && AllMoved(c, c', n) && 0 < n <= LONGEST <= k < 0xffff
    ensures Threats(c', k - LONGEST) <= Threats(c, k)
    ensures !Room(c, n) ==> Threats(c', k - LONGEST) < Threats(c, k)
  {
    hide Threat, Moved;
    forall s | 0 <= s < SLOTS
      ensures Threat(c'.ages[s], k - LONGEST) <= Threat(c.ages[s], k)
      ensures c.ages[s] + n >= 0xffff ==> Threat(c'.ages[s], k - LONGEST) < Threat(c.ages[s], k)
    {
      ThreatFalls(c.ages[s], c'.ages[s], n, k);
    }
  }

  // ---------------------------------------------------------------- the measure

  /** Whether the first dirty line is cornered, and how far the attempts get. */
  function Stage(c: Cache, t: seq<nat>): (r: nat)
    requires c.Shape() && InSpace(t) && |t| <= LONGEST
    ensures r < STAGES
  {
    (if Cornered(c, t) then 0 else LONGEST + 1) + (LONGEST - Prefix(c.tags, t))
  }

  /** The misses that are possible before a dirty line is written back, with `k`
      look-ups left for them. */
  function Left(c: Cache, t: seq<nat>, k: nat): (r: nat)
    requires c.Shape() && InSpace(t) && |t| <= LONGEST
    ensures r < LEVEL
  {
    STAGES * Threats(c, k) + Stage(c, t)
  }

  /** Every miss but a spoiled one lowers the stage or the number of dirty lines. */
  lemma {:induction false} StageFalls(c: Cache, t: seq<nat>)
    requires c.Shape() && Sound(c.tags) && InSpace(t) && Misses(c, t) && FewLines(t) && |t| <= LONGEST
    requires NoneInterleaved(c, t) && Room(c, Prefix(c.tags, t) + 1)
    ensures var c' := Retry(c, t);
      Dirties(c'.tags) < Dirties(c.tags) || (Dirties(c'.tags) == Dirties(c.tags) && Stage(c', t) < Stage(c, t))
  {
    var m, n := AttemptFails(c, t);
    hide Prefix, Slot, Sound, FirstDirty, Play, Cornered, MissAge, Dirties, Exchanged, Room, Chosen, FewLines,
      NoneInterleaved;
    MissCases(c, t, m, Retry(c, t), n);
  }

  /** No miss, spoiled or not, dirties a line. */
  lemma {:induction false} MissKeeps(c: Cache, t: seq<nat>)
    requires c.Shape() && Sound(c.tags) && InSpace(t) && Misses(c, t) && NoneInterleaved(c, t)
    ensures var c' := Retry(c, t);
      Play(c, t).Missed? && Sound(c'.tags) && NoneInterleaved(c', t) && Dirties(c'.tags) <= Dirties(c.tags)
  {
    PlayStopsAtMiss(c, t);
    var m, c' := Play(c, t).cache, Retry(c, t);
    hide Prefix, Slot, Dirties, Interleaved, Play;
    ExchangedTags(c, t, m, c');
    DirtiesDrop(c.tags, c'.tags, m.victim, SLOTS);
  }

  /** What can be said of a line cache during the retries: `k` look-ups are enough
      for the misses that are left. */
  ghost predicate Ample(c: Cache, t: seq<nat>, k: nat) {
    && c.Shape() && Sound(c.tags) && InSpace(t) && FewLines(t) && NoneInterleaved(c, t) && |t| <= LONGEST
    && k < 0xffff && LONGEST * Left(c, t, k) + LONGEST <= k
  }

  const FULL := LONGEST * LEVEL

  lemma AmpleAtFirst(c: Cache, t: seq<nat>)
    requires c.Shape() && Sound(c.tags) && InSpace(t) && FewLines(t) && NoneInterleaved(c, t) && |t| <= LONGEST
    ensures Ample(c, t, FULL)
  {
    hide Sound, FewLines, NoneInterleaved, Left;
  }

  /** A miss leaves a smaller measure, and enough look-ups for it. */
  lemma {:induction false} AmpleAfterMiss(c: Cache, t: seq<nat>, k: nat) returns (k': nat)
    requires Ample(c, t, k) && Play(c, t).Missed?
    ensures var c' := Retry(c, t);
      && Ample(c', t, k')
      && (Dirties(c'.tags) < Dirties(c.tags)
          || (Dirties(c'.tags) == Dirties(c.tags) && Left(c', t, k') < Left(c, t, k)))
  {
    var c' := Retry(c, t);
    PlayStopsAtMiss(c, t);
    hide Sound, FewLines, NoneInterleaved, Prefix, Play, Stage, Threats, Dirties, AllMoved, Room, Retry;
    var n := Prefix(c.tags, t) + 1;
    MissKeeps(c, t);
    MissMoves(c, t);
    ThreatsFall(c, c', n, k);
    if Dirties(c'.tags) < Dirties(c.tags) {
      k' := FULL;
      AmpleAtFirst(c', t);
    } else {
      k' := k - LONGEST;
      if Room(c, n) {
        StageFalls(c, t);
      }
    }
  }

  /** No livelock, whatever the ages: a footprint in which no dirty line is
      interleaved is read to its end after fewer than 6732 misses. */
  lemma {:induction false} AlwaysEnds(c: Cache, t: seq<nat>) returns (n: nat)
    requires c.Shape() && Sound(c.tags) && InSpace(t) && FewLines(t) && NoneInterleaved(c, t) && |t| <= LONGEST
    ensures n < 6732 && SucceedsAfter(c, t, n)
  {
    hide Sound, FewLines, NoneInterleaved, SucceedsAfter, Left, Dirties, Ample;
    AmpleAtFirst(c, t);
    n := EndsWithin(c, t, FULL);
  }

  lemma {:induction false} EndsWithin(c: Cache, t: seq<nat>, k: nat) returns (n: nat)
    requires Ample(c, t, k)
    ensures n <= LEVEL * Dirties(c.tags) + Left(c, t, k) && SucceedsAfter(c, t, n)
    decreases Dirties(c.tags), Left(c, t, k)
  {
    hide Sound, FewLines, NoneInterleaved, SucceedsAfter, Left, Dirties, Play, Retry;
    if Play(c, t).Missed? {
      var k' := AmpleAfterMiss(c, t, k);
      n := EndsWithin(Retry(c, t), t, k');
      OneMore(c, t, n);
      n := n + 1;
    } else {
      n := 0;
      AtOnce(c, t);
    }
  }
}
