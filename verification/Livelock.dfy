/** The other half of the progress question: if the pattern occurs for a line, there
    is a cache in which that line is dirty and every attempt misses, until a counter
    wraps: with |t| look-ups in an attempt, about 0xffff / |t| of them.  Together with
    Progress this says exactly when a footprint is safe. */
module Livelock {
  import opened Words
  import opened LineCache
  import opened Paging
  import opened Progress

  /** Slot 0 holds `u` or `w`, slot 1 the dirty line `x`, and whatever else the
      footprint needs is in the last three slots. */
  predicate Trap(c: Cache, t: seq<nat>, x: Addr, u: Addr, w: Addr) {
    && c.Shape() && Sound(c.tags) && InSpace(t)
    && Base(c.tags[1]) == x && Dirty(c.tags[1]) && !Dirty(c.tags[0]) && Base(c.tags[0]) in {u, w}
    && (forall s | 2 <= s < SLOTS :: Base(c.tags[s]) != u && Base(c.tags[s]) != w)
    && (forall m | 0 <= m < |t| :: Line(t[m]) in {x, u, w, Base(c.tags[2]), Base(c.tags[3]), Base(c.tags[4])})
  }

  /** The one line of the footprint that is missing. */
  function Absent(c: Cache, u: Addr, w: Addr): Addr
    requires c.Shape()
  {
    if Base(c.tags[0]) == u then w else u
  }

  lemma TrapResidents(c: Cache, t: seq<nat>, x: Addr, u: Addr, w: Addr, m: nat)
    requires Trap(c, t, x, u, w) && x != u && x != w && u != w && m < |t|
    ensures Resident(c, t[m]) <==> Line(t[m]) != Absent(c, u, w)
  {
    if Line(t[m]) != Absent(c, u, w) {
      var s :| 0 <= s < SLOTS && Base(c.tags[s]) == Line(t[m]);
    } else {
      forall s | 0 <= s < SLOTS ensures Base(c.tags[s]) != Line(t[m]) {
      }
    }
  }

  /** The first miss comes where the absent line is first needed. */
  lemma {:induction false} TrapPrefix(c: Cache, t: seq<nat>, x: Addr, u: Addr, w: Addr, n: nat)
    requires Trap(c, t, x, u, w) && x != u && x != w && u != w && n < |t|
    requires Line(t[n]) == Absent(c, u, w) && forall m | 0 <= m < n :: Line(t[m]) != Absent(c, u, w)
    ensures Prefix(c.tags, t) == n
  {
    TrapShape(c, t, x, u, w);
    hide *;
    forall m | 0 <= m < n ensures Resident(c, t[m]) {
      TrapResidents(c, t, x, u, w, m);
    }
    TrapResidents(c, t, x, u, w, n);
    PrefixIs(c, t, n);
  }

  lemma {:induction false} PrefixIs(c: Cache, t: seq<nat>, n: nat)
    requires c.Shape() && InSpace(t) && n < |t| && !Resident(c, t[n])
    requires forall m | 0 <= m < n :: Resident(c, t[m])
    ensures Prefix(c.tags, t) == n
  {
    hide Prefix, Slot;
    PrefixReaches(c.tags, t, n);
  }

  /** At that miss slot 0 is older than the dirty line behind it. */
  lemma {:induction false} TrapVictim(c: Cache, t: seq<nat>, x: Addr, u: Addr, w: Addr, i: nat, j: nat, k: nat, l: nat, n: nat)
    requires Trap(c, t, x, u, w) && Pattern(t, x, i, j, k, l) && u == Line(t[j]) && w == Line(t[l])
    requires n == (if Base(c.tags[0]) == u then l else First(t, u))
    ensures i < n < |t| && MissAge(c, t, n, 0) > MissAge(c, t, n, 1)
    ensures Line(t[n]) == Absent(c, u, w) && forall m | 0 <= m < n :: Line(t[m]) != Absent(c, u, w)
  {
    if Base(c.tags[0]) == u {
      assert Last(t, l, x) >= k;
      assert j <= Last(t, l, u) < k;
    } else {
      var f := First(t, u);
      assert i < f <= j;
      assert Last(t, f, x) >= i;
      assert Last(t, f, w) == -1;
    }
  }

  lemma {:induction false} TrapMisses(c: Cache, t: seq<nat>, x: Addr, u: Addr, w: Addr, i: nat, j: nat, k: nat, l: nat)
    requires Trap(c, t, x, u, w) && Pattern(t, x, i, j, k, l) && u == Line(t[j]) && w == Line(t[l])
    requires Room(c, |t|)
    ensures Play(c, t).Missed? && Trap(Retry(c, t), t, x, u, w)
  {
    TrapShape(c, t, x, u, w);
    var n := if Base(c.tags[0]) == u then l else First(t, u);
    PatternLines(t, x, i, j, k, l);
    TrapVictim(c, t, x, u, w, i, j, k, l, n);
    TrapPrefix(c, t, x, u, w, n);
    hide Trap, Pattern, Prefix, Room, Play, MissAge, First, Sound;
    RoomForLess(c, |t|, n + 1);
    var m, n' := AttemptFails(c, t);
    TrapChoice(c, t, x, u, w, m, n);
    ExchangedTags(c, t, m, Exchange'(m));
    TrapAgain(c, t, x, u, w, Exchange'(m), n);
  }

  /** The victim is slot 0. */
  lemma {:induction false} TrapChoice(c: Cache, t: seq<nat>, x: Addr, u: Addr, w: Addr, m: Cache, n: nat)
    requires Trap(c, t, x, u, w) && n <= |t| && Chosen(c, t, m, n) && MissAge(c, t, n, 0) > MissAge(c, t, n, 1)
    ensures m.victim == 0
  {
    hide MissAge;
    assert FirstDirty(c.tags) == 1 && Reach(c.tags) == 1;
  }

  /** The other of the two lines takes the place of the one. */
  lemma {:induction false} TrapAgain(c: Cache, t: seq<nat>, x: Addr, u: Addr, w: Addr, c': Cache, n: nat)
    requires Trap(c, t, x, u, w) && n < |t| && Line(t[n]) == Absent(c, u, w)
    requires c'.Shape() && Sound(c'.tags) && c'.tags == c.tags[0 := Line(t[n])]
    ensures Trap(c', t, x, u, w)
  {
    hide Sound;
    LineIsClean(t[n]);
  }

  lemma PatternLines(t: seq<nat>, x: Addr, i: nat, j: nat, k: nat, l: nat)
    requires InSpace(t) && Pattern(t, x, i, j, k, l)
    ensures x != Line(t[j]) && x != Line(t[l]) && Line(t[j]) != Line(t[l])
  {
  }

  lemma {:induction false} TrapStays(c: Cache, t: seq<nat>, x: Addr, i: nat, j: nat, k: nat, l: nat, n: nat, room: nat)
    requires InSpace(t) && Pattern(t, x, i, j, k, l) && Trap(c, t, x, Line(t[j]), Line(t[l]))
    requires Room(c, Times(n, |t|) + room)
    ensures Trap(Retries(c, t, n), t, x, Line(t[j]), Line(t[l]))
    ensures Room(Retries(c, t, n), room)
    decreases n
  {
    TrapShape(c, t, x, Line(t[j]), Line(t[l]));
    hide Trap, Pattern, Play, Retry, Room, Line;
    if n > 0 {
      TrapStays(c, t, x, i, j, k, l, n - 1, |t| + room);
      TrapOnce(Retries(c, t, n - 1), t, x, i, j, k, l, room);
    }
  }

  /** As long as no counter can have wrapped, the instruction misses again. */
  lemma {:induction false} TrapLasts(c: Cache, t: seq<nat>, x: Addr, i: nat, j: nat, k: nat, l: nat, n: nat)
    requires InSpace(t) && Pattern(t, x, i, j, k, l) && Trap(c, t, x, Line(t[j]), Line(t[l]))
    requires Room(c, Times(n + 1, |t|))
    ensures Play(Retries(c, t, n), t).Missed?
  {
    TrapStays(c, t, x, i, j, k, l, n, |t|);
    TrapOnce(Retries(c, t, n), t, x, i, j, k, l, 0);
  }

  lemma {:induction false} TrapOnce(c: Cache, t: seq<nat>, x: Addr, i: nat, j: nat, k: nat, l: nat, room: nat)
    requires InSpace(t) && Pattern(t, x, i, j, k, l) && Trap(c, t, x, Line(t[j]), Line(t[l]))
    requires Room(c, |t| + room)
    ensures Play(c, t).Missed? && Trap(Retry(c, t), t, x, Line(t[j]), Line(t[l]))
    ensures Room(c, |t|) && Room(Retry(c, t), room)
  {
    var u, w := Line(t[j]), Line(t[l]);
    hide Trap, Pattern, Play, Retry, Room;
    TrapShape(c, t, x, u, w);
    RoomForLess(c, |t| + room, |t|);
    TrapMisses(c, t, x, u, w, i, j, k, l);
    RetryAges(c, t, room);
  }

  lemma TrapShape(c: Cache, t: seq<nat>, x: Addr, u: Addr, w: Addr)
    requires Trap(c, t, x, u, w)
    ensures c.Shape() && Sound(c.tags)
  {
  }

  lemma {:induction false} RetryAges(c: Cache, t: seq<nat>, k: nat)
    requires c.Shape() && Sound(c.tags) && InSpace(t) && Play(c, t).Missed? && Room(c, k + |t|)
    ensures Room(Retry(c, t), k)
  {
    PlayStopsAtMiss(c, t);
    RoomForLess(c, k + |t|, Prefix(c.tags, t) + 1);
    var m, n := AttemptFails(c, t);
    forall s | 0 <= s < SLOTS ensures m.ages[s] + k < 0xffff {
      AgeInRange(c, t, n, s);
      assert c.ages[s] + k + |t| < 0xffff;
    }
  }

  // ---------------------------------------------------------------- the trap exists

  /** A cache with all ages 0 and the given tags. */
  function Fresh(tags: seq<Addr>): (c: Cache)
    requires |tags| == SLOTS
    ensures c.Shape()
  {
    Cache(seq(BUFFERS, i => 0), tags, [0, 0, 0, 0, 0], 0, 0)
  }

  const UNUSED: Addr := 0xfff2  // a clean tag that no address below USABLE matches

  /** The lines besides x, u and w fit in two slots. */
  lemma RestFits(t: seq<nat>, x: Addr, u: Addr, w: Addr) returns (p: Addr, q: Addr)
    requires InSpace(t) && FewLines(t) && {x, u, w} <= Lines(t) && x != u && x != w && u != w
    ensures forall m | 0 <= m < |t| :: Line(t[m]) in {x, u, w, p, q}
    ensures p == UNUSED || (p in Lines(t) && p !in {x, u, w})
    ensures q == UNUSED || (q in Lines(t) && q !in {x, u, w} && p != q)
  {
    var rest := Lines(t) - {x, u, w};
    assert |{x, u, w}| == 3;
    assert |Lines(t)| == |rest| + 3 by {
      assert Lines(t) == rest + {x, u, w};
    }
    p, q := UNUSED, UNUSED;
    if rest != {} {
      p :| p in rest;
      var last := rest - {p};
      if last != {} {
        q :| q in last;
        assert |last - {q}| == 0;
        assert rest == {p, q};
      } else {
        assert rest == {p};
      }
    }
    forall m | 0 <= m < |t| ensures Line(t[m]) in {x, u, w, p, q} {
      LineIn(t, m);
    }
  }

  lemma LinesAreLines(t: seq<nat>)
    requires InSpace(t)
    ensures forall l | l in Lines(t) :: l % LINE == 0 && l < USABLE && Base(l) == l && !Dirty(l)
  {
    forall l | l in Lines(t) ensures l % LINE == 0 && l < USABLE && Base(l) == l && !Dirty(l) {
      var m :| 0 <= m < |t| && Line(t[m]) == l;
      LineIsClean(t[m]);
    }
  }

  lemma TrapExists(t: seq<nat>, x: Addr, i: nat, j: nat, k: nat, l: nat) returns (c: Cache)
    requires InSpace(t) && FewLines(t) && Pattern(t, x, i, j, k, l)
    ensures Trap(c, t, x, Line(t[j]), Line(t[l]))
    ensures forall s | 0 <= s < SLOTS :: c.ages[s] == 0
    ensures forall s | 0 <= s < SLOTS && Dirty(c.tags[s]) :: Base(c.tags[s]) == x
  {
    hide Lines, Line, FewLines, Sound, Mark, Base, Dirty;
    var u, w := Line(t[j]), Line(t[l]);
    PatternLines(t, x, i, j, k, l);
    LineIn(t, i);
    LineIn(t, j);
    LineIn(t, l);
    LinesAreLines(t);
    var p, q := RestFits(t, x, u, w);
    Marked(x);
    UnusedIsClean();
    c := Fresh([w, Mark(x), p, q, UNUSED]);
    SoundTags(w, x, p, q);
  }

  lemma UnusedIsClean()
    ensures Base(UNUSED) == UNUSED && !Dirty(UNUSED)
  {
  }

  lemma SoundTags(w: Addr, x: Addr, p: Addr, q: Addr)
    requires forall l | l in {w, x} :: l % LINE == 0 && l < USABLE && !Dirty(l)
    requires forall l | l in {p, q} :: l == UNUSED || (l % LINE == 0 && l < USABLE && !Dirty(l))
    requires w != x && p !in {w, x} && q !in {w, x} && (p != q || p == UNUSED)
    ensures Sound([w, Mark(x), p, q, UNUSED])
  {
    Marked(x);
  }

  // ---------------------------------------------------------------- the exact condition

  /** The only dirty lines in use are copies of `x`, and no counter can wrap
      during the retries. */
  predicate Tame(c: Cache, t: seq<nat>, x: Addr) {
    && c.Shape() && Sound(c.tags)
    && (forall s | 0 <= s < SLOTS && Dirty(c.tags[s]) && InUse(c.tags[s]) :: Base(c.tags[s]) == x)
    && Room(c, Times(Bound(t), |t|))
  }

  function Bound(t: seq<nat>): nat {
    12 * (|t| + 1)
  }

  ghost predicate GetsThrough(c: Cache, t: seq<nat>)
    requires c.Shape() && InSpace(t)
  {
    exists n: nat :: n < Bound(t) && SucceedsAfter(c, t, n)
  }

  /** Safe from every cache in which at most `x` is dirty. */
  ghost predicate Safe(t: seq<nat>, x: Addr)
    requires InSpace(t)
  {
    forall c | Tame(c, t, x) :: GetsThrough(c, t)
  }

  /** A footprint of at most five lines is read to its end from every cache in
      which only line `x` may be dirty, within a fixed number of misses, if and
      only if `x` is not interleaved in it. */
  lemma {:induction false} ProgressExactly(t: seq<nat>, x: Addr)
    requires InSpace(t) && FewLines(t) && Times(Bound(t), |t|) < 0xffff
    ensures Safe(t, x) <==> !Interleaved(t, x)
  {
    if Interleaved(t, x) {
      var i: nat, j: nat, k: nat, l: nat :| Pattern(t, x, i, j, k, l);
      InterleavedIsUnsafe(t, x, i, j, k, l);
    } else {
      hide Interleaved, FewLines;
      forall c | Tame(c, t, x) ensures GetsThrough(c, t) {
        TameGetsThrough(c, t, x);
      }
    }
  }

  lemma {:induction false} InterleavedIsUnsafe(t: seq<nat>, x: Addr, i: nat, j: nat, k: nat, l: nat)
    requires InSpace(t) && FewLines(t) && Times(Bound(t), |t|) < 0xffff && Pattern(t, x, i, j, k, l)
    ensures !Safe(t, x)
  {
    var c := TrapExists(t, x, i, j, k, l);
    TrapShape(c, t, x, Line(t[j]), Line(t[l]));
    hide Trap, Bound, Times, FewLines, Sound, SucceedsAfter;
    assert Tame(c, t, x);
    forall n: nat | n < Bound(t) ensures !SucceedsAfter(c, t, n) {
      NeverSucceeds(c, t, x, i, j, k, l, n);
    }
    assert !GetsThrough(c, t);
  }

  lemma {:induction false} NeverSucceeds(c: Cache, t: seq<nat>, x: Addr, i: nat, j: nat, k: nat, l: nat, n: nat)
    requires InSpace(t) && Pattern(t, x, i, j, k, l) && Trap(c, t, x, Line(t[j]), Line(t[l]))
    requires Room(c, Times(Bound(t), |t|)) && n < Bound(t)
    ensures !SucceedsAfter(c, t, n)
  {
    TimesGrows(n + 1, Bound(t), |t|);
    RoomForLess(c, Times(Bound(t), |t|), Times(n + 1, |t|));
    TrapLasts(c, t, x, i, j, k, l, n);
  }

  lemma TameGetsThrough(c: Cache, t: seq<nat>, x: Addr)
    requires InSpace(t) && FewLines(t) && !Interleaved(t, x) && Tame(c, t, x)
    ensures GetsThrough(c, t)
  {
    forall s | 0 <= s < SLOTS && Dirty(c.tags[s]) ensures !Interleaved(t, Base(c.tags[s])) {
      if !InUse(c.tags[s]) {
        NotInterleaved(t, c.tags[s]);
      }
    }
    TimesGrows(Rank(c, t) + 1, Bound(t), |t|);
    RoomForLess(c, Times(Bound(t), |t|), Times(Rank(c, t) + 1, |t|));
    var n := RetriesEnd(c, t);
    assert SucceedsAfter(c, t, n);
  }

  lemma NotInterleaved(t: seq<nat>, tag: Addr)
    requires InSpace(t) && !InUse(tag)
    ensures !Interleaved(t, Base(tag))
  {
    forall i | 0 <= i < |t| ensures Line(t[i]) != Base(tag) {
      UsableLine(t[i]);
    }
  }
}
