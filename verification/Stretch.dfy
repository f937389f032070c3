/** A stretch of code flushes the cache.  What is asked of it can be seen before it
    begins: its code, and which lines are cached. */
module Stretch {
  import opened Words
  import opened Instructions
  import opened LineCache
  import opened Paging
  import opened Progress
  import opened Livelock
  import opened Footprints
  import opened Liveness
  import opened Flush
  import M = Machine

  // ---------------------------------------------------------------- the first instruction

  /** None of these lines is dirty. */
  predicate NoneDirty(c: Cache, t: seq<nat>)
    requires c.Shape() && InSpace(t)
  {
    forall i | 0 <= i < SLOTS && Dirty(c.tags[i]) :: Base(c.tags[i]) !in Lines(t)
  }

  /** Code of at most two lines that is not dirty, with room for `k` more look-ups. */
  predicate Fetchable(c: Cache, t: seq<nat>, k: nat) {
    c.Shape() && Sound(c.tags) && InSpace(t) && t != [] && |Lines(t)| <= 2 && NoneDirty(c, t) && Room(c, k)
  }

  /** A line that this attempt has found is not thrown out: some slot in reach is older. */
  lemma {:induction false} FoundStays(c: Cache, t: seq<nat>, m: Cache, n: nat)
    requires Fetchable(c, t, |t|) && n < |t| && n == Prefix(c.tags, t) && Chosen(c, t, m, n)
    ensures !Touched(c, t, n, m.victim)
  {
    hide Prefix, Slot, Sound, MissAge, Touched, Room, Lines, Line, Base;
    if Touched(c, t, n, m.victim) {
      var v, o := m.victim, if m.victim == 0 then 1 else 0;
      TouchedSlot(c, t, n, v);
      OtherInReach(c.tags, v);
      TouchedIsYounger(c, t, n, o, v);
      TouchedSlot(c, t, n, o);
      ThreeLines(c, t, n, v, o);
    }
  }

  lemma OtherInReach(tags: seq<Addr>, v: nat)
    requires |tags| == SLOTS && v <= Reach(tags) && !Dirty(tags[v])
    ensures (if v == 0 then 1 else 0) <= Reach(tags)
  {
  }

  lemma {:induction false} TouchedSlot(c: Cache, t: seq<nat>, n: nat, s: nat)
    requires c.Shape() && InSpace(t) && n < |t| && s < SLOTS && Touched(c, t, n, s) && n == Prefix(c.tags, t)
    ensures Base(c.tags[s]) in Lines(t) && Base(c.tags[s]) != Line(t[n]) && InUse(c.tags[s])
  {
    hide Prefix;
    TouchedLine(c, t, n, s);
    TouchedInUse(c, t, n, s);
  }

  lemma ThreeLines(c: Cache, t: seq<nat>, n: nat, v: nat, o: nat)
    requires c.Shape() && Sound(c.tags) && InSpace(t) && n < |t| && v < SLOTS && o < SLOTS && v != o
    requires Base(c.tags[v]) in Lines(t) && Base(c.tags[o]) in Lines(t) && InUse(c.tags[v])
    requires Base(c.tags[v]) != Line(t[n]) && Base(c.tags[o]) != Line(t[n])
    ensures |Lines(t)| > 2
  {
    LineIn(t, n);
    OtherTag(c, v, o);
    var three := {Base(c.tags[v]), Base(c.tags[o]), Line(t[n])};
    assert |three| == 3;
    Cardinality(three, Lines(t));
  }

  predicate Cached(c: Cache, l: Addr)
    requires c.Shape()
  {
    l in Bases(c.tags)
  }

  /** A miss brings its line, and throws out none that the attempt has found. */
  lemma {:induction false} MissFetches(c: Cache, t: seq<nat>, k: nat) returns (n: nat)
    requires Fetchable(c, t, k + |t|) && Play(c, t).Missed?
    ensures n < |t| && !Cached(c, Line(t[n])) && forall m | 0 <= m < n :: Cached(c, Line(t[m]))
    ensures var c' := Retry(c, t);
      && Fetchable(c', t, k) && Cached(c', Line(t[n])) && (forall m | 0 <= m < n :: Cached(c', Line(t[m])))
      && Bases(c'.tags) <= Bases(c.tags) + Lines(t)
  {
    var c' := Retry(c, t);
    PlayStopsAtMiss(c, t);
    RoomForLess(c, k + |t|, Prefix(c.tags, t) + 1);
    RoomForLess(c, k + |t|, |t|);
    RetryAges(c, t, k);
    hide Play, Prefix, Room, Sound, Line, Base, Lines, Chosen, Dirty;
    var m;
    m, n := AttemptFails(c, t);
    FoundStays(c, t, m, n);
    ExchangedTags(c, t, m, c');
    FetchedTags(c, t, m, c', n);
  }

  lemma {:induction false} FetchedTags(c: Cache, t: seq<nat>, m: Cache, c': Cache, n: nat)
    requires c.Shape() && Sound(c.tags) && InSpace(t) && n < |t| && n == Prefix(c.tags, t) && NoneDirty(c, t)
    requires Exchanged(m, c') && m.tags == c.tags && m.miss == t[n] && !Touched(c, t, n, m.victim)
    ensures !Cached(c, Line(t[n])) && forall j | 0 <= j < n :: Cached(c, Line(t[j]))
    ensures NoneDirty(c', t) && Cached(c', Line(t[n])) && forall j | 0 <= j < n :: Cached(c', Line(t[j]))
    ensures Bases(c'.tags) <= Bases(c.tags) + Lines(t)
  {
    LineIsClean(t[n]);
    LineIn(t, n);
    BasesWith(c.tags, m.victim, t[n], Bases(c.tags));
    hide Prefix, Sound, Line, Base, Lines, Dirty;
    assert Base(c'.tags[m.victim]) == Line(t[n]);
    forall j | 0 <= j < n ensures Cached(c, Line(t[j])) && Cached(c', Line(t[j])) {
      var s := Slot(c.tags, t[j]);
      assert Base(c.tags[s]) == Line(t[j]);
      assert s != m.victim by {
        NotTouched(c, t, n, m.victim, j);
      }
      assert c'.tags[s] == c.tags[s];
    }
    forall s | 0 <= s < SLOTS ensures Base(c.tags[s]) != Line(t[n]) {
      assert Slot(c.tags, t[n]) == SLOTS;
    }
  }

  lemma NotTouched(c: Cache, t: seq<nat>, n: nat, v: nat, j: nat)
    requires c.Shape() && InSpace(t) && n <= |t| && v < SLOTS && !Touched(c, t, n, v) && j < n
    ensures Base(c.tags[v]) != Line(t[j])
  {
  }

  lemma {:induction false} AllCached(c: Cache, t: seq<nat>)
    requires c.Shape() && InSpace(t) && forall m | 0 <= m < |t| :: Cached(c, Line(t[m]))
    ensures Play(c, t).Done?
  {
    hide Play, Prefix, Line, Base;
    forall m | 0 <= m < |t| ensures Slot(c.tags, t[m]) < SLOTS {
      assert Line(t[m]) in Bases(c.tags);
      var s :| 0 <= s < SLOTS && Base(c.tags[s]) == Line(t[m]);
    }
    PrefixReaches(c.tags, t, |t|);
    PlayStopsAtMiss(c, t);
  }

  /** It is read to its end after at most two misses. */
  lemma {:induction false} AtMostTwo(c: Cache, t: seq<nat>, k: nat) returns (n: nat, r: Cache)
    requires Fetchable(c, t, k + |t| + |t| + |t|)
    ensures n <= 2 && r == Retries(c, t, n) && SucceedsAfter(c, t, n) && Play(r, t).Done?
    ensures Fetchable(r, t, k + |t|) && Bases(r.tags) <= Bases(c.tags) + Lines(t)
  {
    hide Play, Retry, Retries, Bases, Lines, Line, Cached, Fetchable, SucceedsAfter;
    FetchableMeans(c, t, k + |t| + |t| + |t|);
    n, r := 0, c;
    NoRetry(c, t);
    if Play(c, t).Done? {
      AtOnce(c, t);
      FetchableForLess(c, t, k + |t| + |t| + |t|, k + |t|);
      return;
    }
    var n1 := MissFetches(c, t, k + |t| + |t|);
    var c1 := Retry(c, t);
    FetchableMeans(c1, t, k + |t| + |t|);
    if Play(c1, t).Done? {
      n, r := 1, c1;
      AtOnce(c1, t);
      OneMore(c, t, 0);
      NextRetry(c, t, 0);
      FetchableForLess(c1, t, k + |t| + |t|, k + |t|);
      return;
    }
    var n2 := MissFetches(c1, t, k + |t|);
    var c2 := Retry(c1, t);
    FetchableMeans(c2, t, k + |t|);
    BothCached(c1, c2, t, n1, n2);
    AllCached(c2, t);
    n, r := 2, c2;
    AtOnce(c2, t);
    OneMore(c1, t, 0);
    OneMore(c, t, 1);
    NextRetry(c, t, 0);
    NextRetry(c, t, 1);
  }

  lemma FetchableMeans(c: Cache, t: seq<nat>, k: nat)
    requires Fetchable(c, t, k)
    ensures c.Shape() && Sound(c.tags) && InSpace(t) && |Lines(t)| <= 2 && t != []
  {
  }

  lemma FetchableForLess(c: Cache, t: seq<nat>, k: nat, k': nat)
    requires Fetchable(c, t, k) && k' <= k
    ensures Fetchable(c, t, k')
  {
    RoomForLess(c, k, k');
  }

  lemma {:induction false} NoRetry(c: Cache, t: seq<nat>)
    requires c.Shape() && InSpace(t)
    ensures Retries(c, t, 0) == c
  {
  }

  lemma {:induction false} NextRetry(c: Cache, t: seq<nat>, n: nat)
    requires c.Shape() && InSpace(t)
    ensures Retries(c, t, n + 1) == Retry(Retries(c, t, n), t)
  {
    hide Retry;
  }

  /** The second miss is for the other line, and further on. */
  lemma {:induction false} BothCached(c: Cache, c': Cache, t: seq<nat>, n: nat, n': nat)
    requires c.Shape() && c'.Shape() && InSpace(t) && |Lines(t)| <= 2 && n < |t| && n' < |t|
    requires Cached(c, Line(t[n])) && forall m | 0 <= m < n :: Cached(c, Line(t[m]))
    requires !Cached(c, Line(t[n'])) && Cached(c', Line(t[n'])) && forall m | 0 <= m < n' :: Cached(c', Line(t[m]))
    ensures forall m | 0 <= m < |t| :: Cached(c', Line(t[m]))
  {
    hide Cached, Line, Lines;
    assert n < n';
    forall m | 0 <= m < |t| ensures Cached(c', Line(t[m])) {
      OneOfTwo(t, n, n', m);
    }
  }

  lemma OneOfTwo(t: seq<nat>, i: nat, j: nat, m: nat)
    requires InSpace(t) && |Lines(t)| <= 2 && i < |t| && j < |t| && m < |t| && Line(t[i]) != Line(t[j])
    ensures Line(t[m]) == Line(t[i]) || Line(t[m]) == Line(t[j])
  {
    LineIn(t, i);
    LineIn(t, j);
    LineIn(t, m);
    hide Line, Lines;
    if Line(t[m]) != Line(t[i]) && Line(t[m]) != Line(t[j]) {
      var three := {Line(t[i]), Line(t[j]), Line(t[m])};
      assert |three| == 3;
      Cardinality(three, Lines(t));
    }
  }

  /** The attempt that reads it leaves its lines younger than all others. */
  lemma {:induction false} ReadingOrders(c: Cache, t: seq<nat>, k: nat)
    requires Fetchable(c, t, k + |t|) && Play(c, t).Done?
    ensures var r := Play(c, t).cache;
      Ordered(r, Bases(c.tags) - Lines(t)) && Room(r, k) && r.tags == c.tags
  {
    PlayStopsAtMiss(c, t);
    RoomForLess(c, k + |t|, |t|);
    HitAges(c, t, |t|);
    assert t[..|t|] == t;
    hide Play, Prefix, Sound, Dirty, Base, Lines, Room, AgeAfter;
    var r := Play(c, t).cache;
    forall s | 0 <= s < SLOTS
      ensures Base(c.tags[s]) in Lines(t) ==> r.ages[s] < |t|
      ensures Base(c.tags[s]) !in Lines(t) ==> r.ages[s] >= |t|
    {
      OldOrYoung(c, t, s);
    }
    RoomLeft(c, r, t, k);
  }

  lemma OldOrYoung(c: Cache, t: seq<nat>, s: nat)
    requires c.Shape() && InSpace(t) && s < SLOTS
    ensures if Base(c.tags[s]) in Lines(t) then 0 <= AgeAfter(c, t, |t|, s) < |t|
            else AgeAfter(c, t, |t|, s) == c.ages[s] + |t|
  {
    var last := Last(t, |t|, Base(c.tags[s]));
    if last >= 0 {
      LineIn(t, last);
    }
  }

  lemma RoomLeft(c: Cache, r: Cache, t: seq<nat>, k: nat)
    requires c.Shape() && r.Shape() && InSpace(t) && Room(c, k + |t|)
    requires forall s | 0 <= s < SLOTS :: r.ages[s] == AgeAfter(c, t, |t|, s)
    ensures Room(r, k)
  {
    forall s | 0 <= s < SLOTS ensures r.ages[s] + k < 0xffff {
      OldOrYoung(c, t, s);
      assert c.ages[s] + (k + |t|) < 0xffff;
    }
  }

  // ---------------------------------------------------------------- in the system

  /** The next instruction reads only its own code, and stores nothing. */
  ghost predicate CodeOnly(f: M.State) {
    && M.Runs(f) && StoresNothing(f)
    && Within(Reads(f), CodeStart(f.cpu), CodeEnd(Parse(f.mem, f.cpu.pos), f.cpu))
  }

  lemma CodeFetchable(s: Sys, k: nat)
    requires Inv(s) && Ready(s) && CodeIsClean(s) && CodeOnly(Flat(s)) && Room(s.cache, k)
    ensures Footprint(s) == Reads(Flat(s)) && |Footprint(s)| <= 50 && Fetchable(s.cache, Footprint(s), k)
  {
    var ins, t := Current(s), Footprint(s);
    var e := FootprintShape(ins, s.cpu);
    CodeIsShort(ins, s.cpu);
    var lo, hi := CodeStart(s.cpu), CodeEnd(ins, s.cpu);
    hide M.Touches, M.Defined, CodeStart, CodeEnd, Footprint, Reads, M.Execute, Room, Parse, Current, Flat;
    TwoLines(t, lo, hi);
    forall i | 0 <= i < SLOTS && Dirty(s.cache.tags[i]) ensures Base(s.cache.tags[i]) !in Lines(t) {
      CleanCode(s, t, i);
    }
  }

  lemma TwoLines(t: seq<nat>, lo: nat, hi: nat)
    requires InSpace(t) && Within(t, lo, hi) && lo <= hi <= lo + 15 && hi < USABLE
    ensures |Lines(t)| <= 2
  {
    var two := {Line(lo), Line(hi)};
    forall l | l in Lines(t) ensures l in two {
      var m :| 0 <= m < |t| && Line(t[m]) == l;
      TwoCodeLines(t[m], lo, hi);
    }
    Cardinality(Lines(t), two);
  }

  lemma CleanCode(s: Sys, t: seq<nat>, i: nat)
    requires Inv(s) && CodeIsClean(s) && InSpace(t) && i < SLOTS && Dirty(s.cache.tags[i])
    requires Within(t, CodeStart(s.cpu), CodeEnd(Current(s), s.cpu))
    ensures Base(s.cache.tags[i]) !in Lines(t)
  {
    hide Dirty, Base, Line, Sound, Current, Flat;
    var tag := s.cache.tags[i];
    forall m | 0 <= m < |t| ensures Line(t[m]) != Base(tag) {
      UsableLine(t[m]);
    }
  }

  /** The state after `n` misses. */
  lemma {:induction false} AfterMisses(s: Sys, t: seq<nat>, n: nat) returns (r: Sys)
    requires Inv(s) && Ready(s) && Footprint(s) == t
    requires forall j | 0 <= j < n :: Play(Retries(s.cache, t, j), t).Missed?
    ensures r == Run(s, 2 * n) && Completed(s, 2 * n) == 0
    ensures Inv(r) && Ready(r) && Footprint(r) == t && SameBoard(Retries(s.cache, t, n), r.cache)
  {
    hide Inv, Ready, Footprint, Play, Retry, Run, Completed;
    ItsOwnBoard(s);
    if n == 0 {
      r := s;
      NothingSoFar(s);
      NoRetry(s.cache, t);
    } else {
      var before := AfterMisses(s, t, n - 1);
      PlaySameBoard(Retries(s.cache, t, n - 1), before.cache, t);
      AttemptAndExchange(before);
      BoardAfterRetry(Retries(s.cache, t, n - 1), before.cache, t);
      NextRetry(s.cache, t, n - 1);
      RunOnward(s, 2 * (n - 1), 2);
      assert 2 * (n - 1) + 2 == 2 * n;
      r := Run(s, 2 * n);
    }
  }

  lemma {:induction false} NothingSoFar(s: Sys)
    requires Inv(s)
    ensures Run(s, 0) == s && Completed(s, 0) == 0
  {
    hide Inv;
  }

  lemma ItsOwnBoard(s: Sys)
    requires Inv(s)
    ensures s.cache.Shape() && SameBoard(s.cache, s.cache)
  {
  }

  lemma OrderedOnBoard(c: Cache, c': Cache, early: set<Addr>, k: nat)
    requires SameBoard(c, c') && Ordered(c, early) && Room(c, k)
    ensures Ordered(c', early) && Room(c', k)
  {
  }

  /** The lines cached before an instruction, but for its own. */
  function Early(s: Sys): set<Addr>
    requires Inv(s)
  {
    Bases(s.cache.tags) - Lines(Reads(Flat(s)))
  }

  /** Where a stretch begins: after at most two misses its first instruction is
      finished, and everything else in the cache is older than its code. */
  lemma {:induction false} FirstInstruction(s: Sys, room: nat) returns (k: nat, r: Sys, early: set<Addr>)
    requires Inv(s) && Ready(s) && CodeIsClean(s) && CodeOnly(Flat(s)) && Room(s.cache, room + 200)
    ensures 0 < k <= 5 && r == Run(s, k) && Completed(s, k) == 1 && !r.waiting && Flat(r) == M.Step(Flat(s))
    ensures Inv(r) && Ordered(r.cache, early) && Room(r.cache, room)
    ensures early == Bases(r.cache.tags) - Lines(Reads(Flat(s))) && early <= Early(s)
    ensures Bases(r.cache.tags) <= Bases(s.cache.tags) + Lines(Reads(Flat(s)))
  {
    hide *;
    var t, before, c, n := MissesFirst(s, room);
    k := 2 * n + 1;
    NothingFinished(s, 2 * n);
    r, early := LastAttempt(s, before, c, t, room);
    LastStep(s, 2 * n);
  }

  lemma {:induction false} MissesFirst(s: Sys, room: nat) returns (t: seq<nat>, before: Sys, c: Cache, n: nat)
    requires Inv(s) && Ready(s) && CodeIsClean(s) && CodeOnly(Flat(s)) && Room(s.cache, room + 200)
    ensures n <= 2 && before == Run(s, 2 * n) && Completed(s, 2 * n) == 0
    ensures Inv(before) && Ready(before) && Footprint(before) == t == Reads(Flat(s)) && SameBoard(c, before.cache)
    ensures |t| <= 50 && Fetchable(c, t, room + |t|) && Play(c, t).Done? && Bases(c.tags) <= Bases(s.cache.tags) + Lines(t)
  {
    hide *;
    CodeFetchable(s, room + 200);
    t := Footprint(s);
    FetchableForLess(s.cache, t, room + 200, room + |t| + |t| + |t|);
    FetchableMeans(s.cache, t, room + 200);
    n, c := AtMostTwo(s.cache, t, room);
    MissesBefore(s.cache, t, n);
    before := AfterMisses(s, t, n);
  }

  lemma {:induction false} LastAttempt(s: Sys, before: Sys, c: Cache, t: seq<nat>, room: nat)
    returns (r: Sys, early: set<Addr>)
    requires Inv(s) && Inv(before) && Flat(before) == Flat(s) && CodeOnly(Flat(s)) && Ready(before)
    requires Footprint(before) == t == Reads(Flat(s)) && SameBoard(c, before.cache) && |t| <= 50
    requires Fetchable(c, t, room + |t|) && Play(c, t).Done? && Bases(c.tags) <= Bases(s.cache.tags) + Lines(t)
    ensures r == Step(before) && Completes(before) && Inv(r) && !r.waiting && Flat(r) == M.Step(Flat(s))
    ensures Ordered(r.cache, early) && Room(r.cache, room)
    ensures early == Bases(r.cache.tags) - Lines(t) && early <= Early(s)
    ensures Bases(r.cache.tags) <= Bases(s.cache.tags) + Lines(t)
  {
    hide *;
    FetchableMeans(c, t, room + |t|);
    SameTags(c, before.cache);
    PlaySameBoard(c, before.cache, t);
    ReadingOrders(c, t, room);
    r := FinishedAtOnce(before);
    early := Bases(c.tags) - Lines(t);
    NothingStored(before, Play(before.cache, t).cache);
    OrderedOnBoard(Play(c, t).cache, r.cache, early, room);
    SameTags(Play(c, t).cache, r.cache);
    EarlyIsLess(s, c, t);
  }

  lemma SameTags(c: Cache, c': Cache)
    requires SameBoard(c, c')
    ensures c.Shape() && c'.Shape() && c.tags == c'.tags
  {
  }

  lemma {:induction false} MissesBefore(c: Cache, t: seq<nat>, n: nat)
    requires c.Shape() && InSpace(t) && SucceedsAfter(c, t, n)
    ensures forall j | 0 <= j < n :: Play(Retries(c, t, j), t).Missed?
  {
    hide Play, Retries;
  }

  lemma NothingStored(s: Sys, c: Cache)
    requires Inv(s) && Ready(s) && CodeOnly(Flat(s)) && c.Shape()
    ensures M.StoreFits(M.Execute(Current(s), s.cpu, Flat(s).mem).store)
    ensures StoreTo(c, M.Execute(Current(s), s.cpu, Flat(s).mem).store) == c
  {
    hide M.Execute, Parse, M.Touches, Logical, Coherent;
  }

  lemma EarlyIsLess(s: Sys, c: Cache, t: seq<nat>)
    requires Inv(s) && t == Reads(Flat(s)) && c.Shape() && Bases(c.tags) <= Bases(s.cache.tags) + Lines(t)
    ensures Bases(c.tags) - Lines(t) <= Early(s)
  {
    hide Inv, Flat, Reads, Bases, Lines;
  }

  // ---------------------------------------------------------------- flush on exit

  lemma {:induction false} StepsShift(f: M.State, n: nat)
    ensures M.Steps(f, n + 1) == M.Steps(M.Step(f), n)
  {
    hide M.Step;
    if n == 0 {
      assert M.Steps(f, 1) == M.Step(M.Steps(f, 0));
    } else {
      StepsShift(f, n - 1);
    }
  }

  lemma {:induction false} ReadLinesShift(f: M.State, n: nat)
    ensures ReadLines(f, n + 1) == Lines(Reads(f)) + ReadLines(M.Step(f), n)
  {
    hide M.Step, Reads, Lines, ReadLines;
    OneMoreRead(f, n);
    if n == 0 {
      NothingRead(f);
      NothingRead(M.Step(f));
    } else {
      ReadLinesShift(f, n - 1);
      StepsShift(f, n - 1);
      OneMoreRead(M.Step(f), n - 1);
    }
  }

  lemma {:induction false} NothingRead(f: M.State)
    ensures ReadLines(f, 0) == {} && M.Steps(f, 0) == f
  {
  }

  /** The next `n` instructions flush the cache: the first of them reads only its own
      code, which is not dirty; the others read only that, and lines that are not
      cached; they store nothing; and they read five lines that are not cached.  No
      counter can wrap meanwhile. */
  ghost predicate IsStretch(s: Sys, n: nat) {
    && Inv(s) && Ready(s) && CodeIsClean(s) && CodeOnly(Flat(s)) && n > 0 && Room(s.cache, 50 * (n + 14))
    && (forall j: nat | 1 <= j < n :: QuietCode(M.Steps(Flat(s), j), Early(s)))
    && |ReadLines(Flat(s), n) - Bases(s.cache.tags) - Lines(Reads(Flat(s)))| >= SLOTS
  }

  /** When such a stretch is finished, nothing is cached but lines that it has read,
      and none of them is dirty. */
  lemma {:induction false} StretchEnds(s: Sys, n: nat, k: nat) returns (k': nat)
    requires IsStretch(s, n) && Completed(s, k) >= n
    ensures 0 < k' <= k && Completed(s, k') == n && !Run(s, k').waiting
    ensures Clean(Run(s, k').cache.tags) && Bases(Run(s, k').cache.tags) <= ReadLines(Flat(s), n)
  {
    hide *;
    StretchMeans(s, n);
    RoomForLess(s.cache, 50 * (n + 14), 50 * (n + 9) + 200);
    var k0, r, early := FirstInstruction(s, 50 * (n + 9));
    AtLeastTwo(Flat(s), n, Bases(s.cache.tags));
    RestIsQuiet(s, n, early);
    RestReadsMany(Flat(s), n, Bases(s.cache.tags), Bases(r.cache.tags));
    Later(s, k0, k);
    RunOnward(s, k0, k - k0);
    var k1 := FirstTime(r, n - 1, k - k0);
    AllGoneWhenDone(r, early, n - 1, k1);
    k' := k0 + k1;
    RunOnward(s, k0, k1);
    OnlyItsLines(s, n, r, early, k1);
  }

  lemma {:induction false} StretchMeans(s: Sys, n: nat)
    requires IsStretch(s, n)
    ensures Inv(s) && Ready(s) && !s.waiting && CodeIsClean(s) && CodeOnly(Flat(s)) && n > 0 && s.cache.Shape()
    ensures Room(s.cache, 50 * (n + 14))
    ensures forall j: nat | 1 <= j < n :: QuietCode(M.Steps(Flat(s), j), Early(s))
    ensures |ReadLines(Flat(s), n) - Bases(s.cache.tags) - Lines(Reads(Flat(s)))| >= SLOTS
  {
    hide CodeIsClean, CodeOnly, Room, QuietCode, Early, ReadLines, Bases, Lines, Reads, Flat;
  }

  lemma {:induction false} AtLeastTwo(f: M.State, n: nat, cached: set<Addr>)
    requires n > 0 && |ReadLines(f, n) - cached - Lines(Reads(f))| >= SLOTS
    ensures n > 1
  {
    hide Reads, Lines, ReadLines;
    OneReadsNoMore(f, cached);
  }

  lemma {:induction false} OneReadsNoMore(f: M.State, cached: set<Addr>)
    ensures ReadLines(f, 1) - cached - Lines(Reads(f)) == {}
  {
    hide Reads, Lines, ReadLines;
    ReadLinesShift(f, 0);
    NothingRead(M.Step(f));
  }

  lemma {:induction false} RestIsQuiet(s: Sys, n: nat, early: set<Addr>)
    requires Inv(s) && n > 1 && early <= Early(s)
    requires forall j: nat | 1 <= j < n :: QuietCode(M.Steps(Flat(s), j), Early(s))
    ensures QuietCodeFor(M.Step(Flat(s)), early, n - 1)
  {
    hide Inv, Flat, Early, QuietCode, M.Step;
    forall j: nat | j < n - 1 ensures QuietCode(M.Steps(M.Step(Flat(s)), j), early) {
      StepsShift(Flat(s), j);
      assert QuietCode(M.Steps(Flat(s), j + 1), Early(s));
      QuieterCode(M.Steps(Flat(s), j + 1), Early(s), early);
    }
  }

  lemma QuieterCode(f: M.State, early: set<Addr>, less: set<Addr>)
    requires QuietCode(f, early) && less <= early
    ensures QuietCode(f, less)
  {
    hide M.Runs, Reads, StoresNothing, Line;
  }

  lemma {:induction false} RestReadsMany(f: M.State, n: nat, cached: set<Addr>, after: set<Addr>)
    requires n > 1 && |ReadLines(f, n) - cached - Lines(Reads(f))| >= SLOTS && after <= cached + Lines(Reads(f))
    ensures |ReadLines(M.Step(f), n - 1) - after| >= SLOTS
  {
    hide Reads, Lines, ReadLines;
    ReadLinesShift(f, n - 1);
    Cardinality(ReadLines(f, n) - cached - Lines(Reads(f)), ReadLines(M.Step(f), n - 1) - after);
  }

  lemma {:induction false} Later(s: Sys, k0: nat, k: nat)
    requires Inv(s) && k0 > 0 && Completed(s, k0) == 1 && Completed(s, k) > 1
    ensures k >= k0
  {
    hide Inv, Completed;
    if k < k0 {
      NotLess(s, k, k0);
    }
  }

  lemma {:induction false} OnlyItsLines(s: Sys, n: nat, r: Sys, early: set<Addr>, k: nat)
    requires Inv(s) && Inv(r) && !r.waiting && n > 1 && Flat(r) == M.Step(Flat(s)) && k > 0
    requires early == Bases(r.cache.tags) - Lines(Reads(Flat(s))) && Gone(Run(r, k).cache, early)
    requires Completed(r, k) == n - 1 && Completed(r, k - 1) < n - 1
    ensures Clean(Run(r, k).cache.tags) && Bases(Run(r, k).cache.tags) <= ReadLines(Flat(s), n)
  {
    hide *;
    var t, rest := Lines(Reads(Flat(s))), ReadLines(M.Step(Flat(s)), n - 1);
    ReadLinesShift(Flat(s), n - 1);
    Arrivals(r, k);
    OneMoreCount(r, k - 1);
    OneMoreCame(r, k - 1);
    FinishedNow(r, k);
    CameToBeRead(r, k - 1);
    GoneBases(Run(r, k).cache, early);
    OnlyNew(Bases(Run(r, k).cache.tags), Bases(r.cache.tags), Came(r, k), t, rest);
  }

  lemma GoneBases(c: Cache, early: set<Addr>)
    requires Gone(c, early)
    ensures Clean(c.tags) && Bases(c.tags) !! early
  {
    hide Base, Dirty;
  }

  lemma OnlyNew(now: set<Addr>, before: set<Addr>, came: set<Addr>, t: set<Addr>, rest: set<Addr>)
    requires now <= before + came && now !! (before - t) && came <= rest
    ensures now <= t + rest
  {
  }

  lemma {:induction false} FinishedNow(s: Sys, k: nat)
    requires Inv(s) && k > 0 && Completed(s, k - 1) < Completed(s, k)
    ensures !Run(s, k - 1).waiting && Completed(s, k) == Completed(s, k - 1) + 1
  {
    hide Inv, Footprint, Play;
  }

  /** Flush on exit: after such a stretch, however much later, and as long as nothing
      has been stored since, every line is clean, and the client's memory is the
      memory that the machine sees. */
  lemma {:induction false} StretchFlushes(s: Sys, n: nat, k: nat)
    requires IsStretch(s, n) && Completed(s, k) >= n
    requires forall j: nat | n <= j < Completed(s, k) :: StoresNothing(M.Steps(Flat(s), j))
    ensures var r := Run(s, k);
      && Clean(r.cache.tags) && r.ram == Flat(r).mem && WriteBack(r.cache, r.ram) == Flat(r).mem
      && Flat(r) == M.Steps(Flat(s), Completed(s, k))
  {
    hide *;
    StretchMeans(s, n);
    var k' := StretchEnds(s, n, k);
    StaysClean(s, k', k);
    CleanIsWrittenBack(Run(s, k));
    RunRefines(s, k);
  }
}
