/** How everything gets back to the client before it leaves its loop.  Each layer
    ends with a long stretch of instructions that touch no memory but their own
    code, in lines not used before; their misses push all the older lines out. */
module Flush {
  import opened Words
  import opened LineCache
  import opened Paging
  import opened Progress
  import opened Instructions
  import opened Livelock
  import opened Footprints
  import M = Machine

  /** `early` are the lines cached before the stretch, but for its own code.  The
      other lines are clean, and younger than every early one. */
  predicate Ordered(c: Cache, early: set<Addr>) {
    && c.Shape() && Sound(c.tags)
    && (forall i | 0 <= i < SLOTS && Dirty(c.tags[i]) :: Base(c.tags[i]) in early)
    && (forall i, j | 0 <= i < SLOTS && 0 <= j < SLOTS && Base(c.tags[i]) in early && Base(c.tags[j]) !in early ::
         c.ages[i] > c.ages[j])
  }

  predicate Clean(tags: seq<Addr>) {
    forall i | 0 <= i < |tags| :: !Dirty(tags[i])
  }

  /** No slot holds an early line any more. */
  predicate AllGone(tags: seq<Addr>, early: set<Addr>) {
    forall i | 0 <= i < |tags| :: Base(tags[i]) !in early
  }

  /** The number of slots that still hold an old line. */
  function Stale(tags: seq<Addr>, early: set<Addr>, n: nat := SLOTS): (k: nat)
    requires |tags| == SLOTS && n <= SLOTS
    ensures k <= n
  {
    if n == 0 then 0 else Stale(tags, early, n - 1) + if Base(tags[n - 1]) in early then 1 else 0
  }

  lemma {:induction false} StaleDrops(tags: seq<Addr>, tags': seq<Addr>, early: set<Addr>, v: nat, n: nat)
    requires |tags| == |tags'| == SLOTS && v < SLOTS && n <= SLOTS
    requires tags' == tags[v := tags'[v]] && Base(tags'[v]) !in early
    ensures Stale(tags', early, n) == Stale(tags, early, n) - if v < n && Base(tags[v]) in early then 1 else 0
  {
    hide Base;
    if n > 0 {
      StaleDrops(tags, tags', early, v, n - 1);
    }
  }

  lemma {:induction false} NoneStale(tags: seq<Addr>, early: set<Addr>, n: nat, i: nat)
    requires |tags| == SLOTS && i < n <= SLOTS && Stale(tags, early, n) == 0
    ensures Base(tags[i]) !in early
  {
    if i < n - 1 {
      NoneStale(tags, early, n - 1, i);
    }
  }

  lemma {:induction false} NoneStaleIsGone(tags: seq<Addr>, early: set<Addr>)
    requires |tags| == SLOTS && Stale(tags, early) == 0
    ensures AllGone(tags, early)
  {
    hide Base;
    forall i | 0 <= i < SLOTS ensures Base(tags[i]) !in early {
      NoneStale(tags, early, SLOTS, i);
    }
  }

  /** Reading a new line keeps the order; if it misses while an early line is left,
      an early line goes. */
  lemma ReadKeepsOrder(c: Cache, early: set<Addr>, a: Addr)
    requires Ordered(c, early) && Room(c, 1) && a < USABLE && Line(a) !in early
    ensures var o := Touch(c, a, false);
      if o.Hit? then Ordered(o.cache, early)
      else
        && Ordered(Exchange'(o.cache), early) && o.cache.miss == a
        && (!AllGone(c.tags, early) ==> Base(c.tags[o.cache.victim]) in early)
  {
    var o := Touch(c, a, false);
    if o.Hit? {
      HitKeepsOrder(c, early, a);
    } else {
      MissKeepsOrder(c, early, a);
    }
  }

  lemma OneOlder(c: Cache)
    requires c.Shape() && Room(c, 1)
    ensures forall i | 0 <= i < SLOTS :: Older(c.ages)[i] == c.ages[i] + 1 && Older(c.ages)[i] < 0xffff
  {
    forall i | 0 <= i < SLOTS ensures Older(c.ages)[i] == c.ages[i] + 1 && Older(c.ages)[i] < 0xffff {
      assert c.ages[i] + 1 < 0xffff;
    }
  }

  lemma HitKeepsOrder(c: Cache, early: set<Addr>, a: Addr)
    requires Ordered(c, early) && Room(c, 1) && a < USABLE && Line(a) !in early && Resident(c, a)
    ensures Ordered(Touch(c, a, false).cache, early)
  {
    hide Base, Sound, Slot;
    OneOlder(c);
  }

  lemma MissKeepsOrder(c: Cache, early: set<Addr>, a: Addr)
    requires Ordered(c, early) && Room(c, 1) && a < USABLE && Line(a) !in early && !Resident(c, a)
    ensures var m := Touch(c, a, false).cache;
      && Ordered(Exchange'(m), early) && m.miss == a
      && (!AllGone(c.tags, early) ==> Base(c.tags[m.victim]) in early)
  {
    OneOlder(c);
    LineIsClean(a);
    var ages, m := Older(c.ages), Touch(c, a, false).cache;
    SoundAfterMiss(c, a, m);
    hide Base, Sound, Slot, Dirty, Victim;
    if !AllGone(c.tags, early) {
      VictimIsOldestUpToFirstDirty(c.tags, ages);
      EarlyInReach(c, early);
    }
  }

  /** One that is dirty is early; without a dirty line every slot is in reach. */
  lemma EarlyInReach(c: Cache, early: set<Addr>)
    requires Ordered(c, early) && !AllGone(c.tags, early)
    ensures exists i | 0 <= i <= Reach(c.tags) :: Base(c.tags[i]) in early
  {
    hide Base, Sound, Dirty;
    if FirstDirty(c.tags) < SLOTS {
      assert Base(c.tags[Reach(c.tags)]) in early;
    } else {
      var i :| 0 <= i < SLOTS && Base(c.tags[i]) in early;
      assert i <= Reach(c.tags);
    }
  }

  lemma SoundAfterMiss(c: Cache, a: Addr, m: Cache)
    requires c.Shape() && Sound(c.tags) && a < USABLE && !Resident(c, a)
    requires m.Shape() && m.tags == c.tags && m.miss == a
    ensures Sound(Exchange'(m).tags)
  {
    LineIsClean(a);
  }

  lemma ReadUsesRoom(c: Cache, a: Addr, k: nat)
    requires c.Shape() && Room(c, k + 1)
    ensures Room(Touch(c, a, false).cache, k)
  {
    RoomForLess(c, k + 1, 1);
    OneOlder(c);
    var c' := Touch(c, a, false).cache;
    forall i | 0 <= i < SLOTS ensures c'.ages[i] + k < 0xffff {
      assert c.ages[i] + k + 1 < 0xffff;
    }
  }

  // ---------------------------------------------------------------- whole attempts

  predicate AllNew(t: seq<nat>, early: set<Addr>)
    requires InSpace(t)
  {
    forall i | 0 <= i < |t| :: Line(t[i]) !in early
  }

  lemma {:induction false} PlayKeepsOrder(c: Cache, early: set<Addr>, t: seq<nat>, k: nat)
    requires Ordered(c, early) && InSpace(t) && AllNew(t, early) && Room(c, k + |t|)
    ensures var r := Play(c, t);
      && Room(r.cache, k)
      && if r.Done? then Ordered(r.cache, early)
         else
           && Ordered(Exchange'(r.cache), early) && r.cache.miss in t
           && (!AllGone(c.tags, early) ==> Base(c.tags[r.cache.victim]) in early)
    decreases |t|
  {
    hide Touch, Sound, Dirty, Base, AllGone, Room;
    if t != [] {
      PlayKeepsOrder(c, early, Front(t), k + 1);
      var r := Play(c, Front(t));
      if r.Done? {
        RoomForLess(r.cache, k + 1, 1);
        ReadUsesRoom(r.cache, End(t), k);
        ReadKeepsOrder(r.cache, early, End(t));
      } else {
        RoomForLess(r.cache, k + 1, k);
      }
    }
  }

  // ---------------------------------------------------------------- the code of a stretch

  /** The addresses that the next instruction looks up. */
  function Reads(f: M.State): (t: seq<nat>)
    ensures InSpace(t)
  {
    if !M.Runs(f) then []
    else
      M.TouchesBelow(Parse(f.mem, f.cpu.pos), f.cpu);
      M.Touches(Parse(f.mem, f.cpu.pos), f.cpu)
  }

  /** The lines that the first `n` instructions read. */
  function ReadLines(f: M.State, n: nat): set<Addr> {
    if n == 0 then {} else ReadLines(f, n - 1) + Lines(Reads(M.Steps(f, n - 1)))
  }

  predicate StoresNothing(f: M.State) {
    M.Runs(f) ==> M.Execute(Parse(f.mem, f.cpu.pos), f.cpu, f.mem).store.NoStore?
  }

  /** The next instruction has a meaning, reads no early line and stores nothing. */
  predicate QuietCode(f: M.State, early: set<Addr>) {
    M.Runs(f) && AllNew(Reads(f), early) && StoresNothing(f)
  }

  ghost predicate QuietCodeFor(f: M.State, early: set<Addr>, n: nat) {
    forall j: nat | j < n :: QuietCode(M.Steps(f, j), early)
  }

  predicate Quiet(s: Sys, early: set<Addr>)
    requires Inv(s)
  {
    s.waiting || QuietCode(Flat(s), early)
  }

  lemma QuietMeans(s: Sys, early: set<Addr>)
    requires Inv(s) && !s.waiting && Quiet(s, early)
    ensures Ready(s) && Footprint(s) == Reads(Flat(s)) && AllNew(Footprint(s), early) && |Footprint(s)| <= 50
    ensures M.Execute(Current(s), s.cpu, Flat(s).mem).store.NoStore?
  {
    var e := FootprintShape(Current(s), s.cpu);
  }

  // ---------------------------------------------------------------- the stretch as a run

  function Bases(tags: seq<Addr>): set<Addr> {
    set i | 0 <= i < |tags| :: Base(tags[i])
  }

  /** The number of lines exchanged during the first `n` steps. */
  function Exchanges(s: Sys, n: nat): nat
    requires Inv(s)
  {
    if n == 0 then 0 else Exchanges(s, n - 1) + if Run(s, n - 1).waiting then 1 else 0
  }

  function One(b: bool): nat {
    if b then 1 else 0
  }

  /** After `m` exchanges all early lines are gone, or `m` of them. */
  predicate Settled(c: Cache, early: set<Addr>, m: nat) {
    Ordered(c, early) && (AllGone(c.tags, early) || Stale(c.tags, early) + m <= SLOTS)
  }

  /** The board of a state: while the client is awaited, the one that it will
      produce. */
  function Board(s: Sys): (c: Cache)
    requires s.cache.Shape()
    ensures c.Shape()
  {
    if s.waiting then Exchange'(s.cache) else s.cache
  }

  predicate Progressing(s: Sys, early: set<Addr>, m: nat, room: nat) {
    s.cache.Shape() && Room(s.cache, room) && Settled(Board(s), early, m + One(s.waiting))
  }

  lemma FewExchanged(c: Cache, early: set<Addr>, m: nat)
    requires Settled(c, early, m) && !Gone(c, early)
    ensures m < SLOTS
  {
    hide Base, Dirty, Sound;
    if Stale(c.tags, early) == 0 {
      NoneStaleIsGone(c.tags, early);
    }
  }

  lemma {:induction false} PlaySettles(c: Cache, early: set<Addr>, t: seq<nat>, m: nat, k: nat)
    requires Settled(c, early, m) && InSpace(t) && AllNew(t, early) && Room(c, k + |t|)
    ensures var r := Play(c, t);
      && Room(r.cache, k)
      && if r.Done? then Settled(r.cache, early, m) else Settled(Exchange'(r.cache), early, m + 1)
  {
    PlayKeepsOrder(c, early, t, k);
    var r := Play(c, t);
    if r.Missed? {
      MissSettles(c, early, r.cache, m);
    }
  }

  lemma MissSettles(c: Cache, early: set<Addr>, m: Cache, n: nat)
    requires Settled(c, early, n) && m.Shape() && m.tags == c.tags && m.miss < USABLE
    requires Ordered(Exchange'(m), early) && Line(m.miss) !in early
    requires !AllGone(c.tags, early) ==> Base(c.tags[m.victim]) in early
    ensures Settled(Exchange'(m), early, n + 1)
  {
    LineIsClean(m.miss);
    hide Ordered, Base, Dirty;
    if !AllGone(c.tags, early) {
      StaleDrops(c.tags, Exchange'(m).tags, early, m.victim, SLOTS);
    }
  }

  lemma SettledOnBoard(c: Cache, c': Cache, early: set<Addr>, m: nat)
    requires Settled(c, early, m) && c'.Shape() && c'.tags == c.tags && c'.ages == c.ages
    ensures Settled(c', early, m)
  {
  }

  lemma RoomOnBoard(c: Cache, c': Cache, k: nat)
    requires c.Shape() && c'.Shape() && c.ages == c'.ages && Room(c, k)
    ensures Room(c', k)
  {
  }

  lemma StepProgresses(s: Sys, early: set<Addr>, m: nat, room: nat)
    requires Inv(s) && Quiet(s, early) && Progressing(s, early, m, room + 50)
    ensures Inv(Step(s)) && Progressing(Step(s), early, m + One(s.waiting), room)
  {
    StepRefines(s);
    if s.waiting {
      ExchangeIsTransparent(s.cache, s.ram);
      RoomForLess(s.cache, room + 50, room);
      hide Settled, Room;
      SettledOnBoard(Board(s), Step(s).cache, early, m + 1);
      RoomOnBoard(s.cache, Step(s).cache, room);
    } else {
      QuietMeans(s, early);
      var t := Footprint(s);
      hide Settled, Room, Play, AllNew, Footprint, M.Execute, QuietCode;
      RoomForLess(s.cache, room + 50, room + |t|);
      PlaySettles(s.cache, early, t, m, room);
    }
  }

  /** Once no early line is left, or is when the client has answered, none comes back. */
  lemma StepStaysGone(s: Sys, early: set<Addr>)
    requires Inv(s) && Quiet(s, early) && Gone(Board(s), early)
    ensures Inv(Step(s)) && Gone(Board(Step(s)), early)
  {
    hide QuietCode, Footprint, M.Execute, AllGone, Clean, Play, Coherent, Sound;
    StepRefines(s);
    if !s.waiting {
      QuietMeans(s, early);
      if !Completes(s) {
        MissStaysGone(s.cache, early, Footprint(s));
      }
    }
  }

  lemma {:induction false} MissStaysGone(c: Cache, early: set<Addr>, t: seq<nat>)
    requires c.Shape() && Gone(c, early) && InSpace(t) && AllNew(t, early) && Play(c, t).Missed?
    ensures Gone(Exchange'(Play(c, t).cache), early)
  {
    PlayStopsAtMiss(c, t);
    hide Play, Slot, Prefix, Base, Line, Dirty;
    var m := Play(c, t).cache;
    assert m.miss == t[Prefix(c.tags, t)];
    LineIsClean(m.miss);
  }

  /** The steps of a run so far: one to finish each instruction, and two for each
      exchange. */
  predicate InStep(s: Sys, k: nat)
    requires Inv(s)
  {
    k <= Completed(s, k) + 2 * Exchanges(s, k) + One(Run(s, k).waiting)
  }

  lemma {:induction false} StepInStep(s: Sys, k: nat)
    requires Inv(s) && InStep(s, k) && (Run(s, k).waiting || Ready(Run(s, k)))
    ensures InStep(s, k + 1)
  {
    hide Inv, Footprint, Play, M.Execute, M.Runs;
    OneMoreCount(s, k);
  }

  lemma {:induction false} OneMoreCount(s: Sys, k: nat)
    requires Inv(s)
    ensures var r := Run(s, k);
      && Run(s, k + 1) == Step(r) && Completed(s, k + 1) == Completed(s, k) + One(Completes(r))
      && Exchanges(s, k + 1) == Exchanges(s, k) + One(r.waiting)
  {
    hide Inv, Step, Completes;
  }

  predicate Gone(c: Cache, early: set<Addr>) {
    AllGone(c.tags, early) && Clean(c.tags)
  }

  /** A run in a stretch of `n` instructions, as long as the last of them is not
      finished: all early lines are gone, or it has made few steps so far. */
  ghost predicate OnItsWay(s: Sys, early: set<Addr>, n: nat, k: nat)
    requires Inv(s)
  {
    || Gone(Board(Run(s, k)), early)
    || (InStep(s, k) && k <= n + 9 && Progressing(Run(s, k), early, Exchanges(s, k), 50 * (n + 10 - k)))
  }

  lemma {:induction false} StaysOnItsWay(s: Sys, early: set<Addr>, n: nat, k: nat)
    requires Inv(s) && !s.waiting && Ordered(s.cache, early) && Room(s.cache, 50 * (n + 10))
    requires QuietCodeFor(Flat(s), early, n) && (k > 0 ==> Completed(s, k - 1) < n)
    ensures OnItsWay(s, early, n, k)
    decreases k
  {
    hide Inv, Flat, Ordered, Room, QuietCodeFor, Board, Step, InStep, Completes, OnItsWay, Progressing;
    if k == 0 {
      StartsOnItsWay(s, early, n);
    } else {
      if k > 1 {
        OneMoreCount(s, k - 2);
      }
      StaysOnItsWay(s, early, n, k - 1);
      OneMoreQuiet(s, early, n, k - 1);
      OneStepOn(s, early, n, k - 1);
    }
  }

  lemma {:induction false} StartsOnItsWay(s: Sys, early: set<Addr>, n: nat)
    requires Inv(s) && !s.waiting && Ordered(s.cache, early) && Room(s.cache, 50 * (n + 10))
    ensures OnItsWay(s, early, n, 0)
  {
    hide Inv, Ordered, Room;
    assert Run(s, 0) == s && Completed(s, 0) == 0 && Exchanges(s, 0) == 0;
  }

  lemma {:induction false} OneMoreQuiet(s: Sys, early: set<Addr>, n: nat, k: nat)
    requires Inv(s) && QuietCodeFor(Flat(s), early, n) && Completed(s, k) < n
    ensures Quiet(Run(s, k), early)
  {
    hide Inv, Flat, QuietCode, Completed, Run;
    RunRefines(s, k);
  }

  lemma {:induction false} OneStepOn(s: Sys, early: set<Addr>, n: nat, k: nat)
    requires Inv(s) && OnItsWay(s, early, n, k) && Quiet(Run(s, k), early) && Completed(s, k) < n
    ensures OnItsWay(s, early, n, k + 1)
  {
    hide Inv, Flat, Gone, Quiet, Completes, Step, Progressing, InStep, AllGone;
    var r := Run(s, k);
    OneMoreCount(s, k);
    if Gone(Board(r), early) {
      StepStaysGone(r, early);
    } else {
      FewSoFar(r, early, Exchanges(s, k), 50 * (n + 10 - k));
      StepCounted(s, early, n, k);
    }
  }

  lemma {:induction false} StepCounted(s: Sys, early: set<Addr>, n: nat, k: nat)
    requires Inv(s) && InStep(s, k) && Completed(s, k) < n && Exchanges(s, k) + One(Run(s, k).waiting) < SLOTS
    requires k <= n + 9 && Quiet(Run(s, k), early) && Progressing(Run(s, k), early, Exchanges(s, k), 50 * (n + 10 - k))
    ensures InStep(s, k + 1) && k + 1 <= n + 9
    ensures Progressing(Run(s, k + 1), early, Exchanges(s, k + 1), 50 * (n + 10 - (k + 1)))
  {
    hide Inv, Flat, Quiet, Completes, Step, Progressing, InStep, Run, Completed, Exchanges;
    var r := Run(s, k);
    OneMoreCount(s, k);
    WaitingOrReady(r, early);
    StepInStep(s, k);
    FewSteps(s, early, n, k);
    StepProgresses(r, early, Exchanges(s, k), 50 * (n + 9 - k));
  }

  lemma WaitingOrReady(s: Sys, early: set<Addr>)
    requires Inv(s) && Quiet(s, early)
    ensures s.waiting || Ready(s)
  {
    hide Inv, Flat;
  }

  lemma FewSoFar(r: Sys, early: set<Addr>, m: nat, room: nat)
    requires Progressing(r, early, m, room) && r.cache.Shape() && !Gone(Board(r), early)
    ensures m + One(r.waiting) < SLOTS
  {
    hide Room, Stale, Board, Base, Dirty, Sound;
    FewExchanged(Board(r), early, m + One(r.waiting));
  }

  lemma {:induction false} FewSteps(s: Sys, early: set<Addr>, n: nat, k: nat)
    requires Inv(s) && InStep(s, k) && Completed(s, k) < n && Exchanges(s, k) + One(Run(s, k).waiting) < SLOTS
    ensures k + 1 <= n + 9
  {
    hide Inv, Completed, Exchanges, Run;
  }

  // ---------------------------------------------------------------- what has come

  /** The lines that the client has sent during the first `k` steps. */
  function Came(s: Sys, k: nat): (lines: set<Addr>)
    requires Inv(s)
  {
    if k == 0 then {}
    else
      var r := Run(s, k - 1);
      Came(s, k - 1) + if r.waiting then {Line(r.cache.miss)} else {}
  }

  lemma {:induction false} CameCount(s: Sys, k: nat)
    requires Inv(s)
    ensures |Came(s, k)| <= Exchanges(s, k)
  {
    hide Inv, Run, Line;
    if k > 0 {
      CameCount(s, k - 1);
    }
  }

  /** A step adds to the cached lines only what the client has sent; an instruction
      that is finished has found all its lines. */
  lemma StepArrives(s: Sys, lines: set<Addr>)
    requires Inv(s) && Bases(s.cache.tags) <= lines
    ensures Inv(Step(s))
    ensures Bases(Step(s).cache.tags) <= lines + if s.waiting then {Line(s.cache.miss)} else {}
    ensures Completes(s) ==> Lines(Reads(Flat(s))) <= lines
  {
    StepRefines(s);
    hide M.Execute, Parse, M.Runs, M.Touches, Play, Coherent, Sound, Base, Line, Mark;
    if s.waiting {
      BasesWith(s.cache.tags, s.cache.victim, s.cache.miss, lines);
    } else if Completes(s) {
      FoundLines(s.cache, Footprint(s));
      M.StoreWasRead(Current(s), s.cpu, Flat(s).mem);
      BasesAfterStore(Play(s.cache, Footprint(s)).cache, M.Execute(Current(s), s.cpu, Flat(s).mem).store);
    }
  }

  lemma BasesWith(tags: seq<Addr>, v: nat, a: Addr, lines: set<Addr>)
    requires |tags| == SLOTS && v < SLOTS && a < USABLE && Bases(tags) <= lines
    ensures Bases(tags[v := Line(a)]) <= lines + {Line(a)}
  {
    LineIsClean(a);
    hide Base, Line;
    var tags' := tags[v := Line(a)];
    forall i | 0 <= i < SLOTS ensures Base(tags'[i]) in lines + {Line(a)} {
      assert i != v ==> Base(tags[i]) in Bases(tags);
    }
  }

  lemma {:induction false} FoundLines(c: Cache, t: seq<nat>)
    requires c.Shape() && InSpace(t) && Play(c, t).Done?
    ensures Lines(t) <= Bases(c.tags)
  {
    PlayStopsAtMiss(c, t);
    hide Play, Prefix, Base, Line;
    forall m | 0 <= m < |t| ensures Line(t[m]) in Bases(c.tags) {
      assert Base(c.tags[Slot(c.tags, t[m])]) == Line(t[m]);
    }
  }

  lemma BasesAfterStore(c: Cache, store: M.Store)
    requires c.Shape() && M.StoreFits(store)
    ensures Bases(StoreTo(c, store).tags) == Bases(c.tags)
  {
    hide Slot, Mark, Base, Victim;
    if store.Store? && Resident(c, store.addr) {
      var s := Slot(c.tags, store.addr);
      Marked(c.tags[s]);
      SameBases(c.tags, c.tags[s := Mark(c.tags[s])]);
    }
  }

  lemma SameBases(tags: seq<Addr>, tags': seq<Addr>)
    requires |tags| == |tags'| && forall i | 0 <= i < |tags| :: Base(tags[i]) == Base(tags'[i])
    ensures Bases(tags) == Bases(tags')
  {
    hide Base;
    forall i | 0 <= i < |tags| ensures Base(tags[i]) in Bases(tags') && Base(tags'[i]) in Bases(tags) {
      assert Base(tags[i]) == Base(tags'[i]);
    }
  }

  /** What is cached, and what the finished instructions have read, was cached at the
      start or has come since. */
  lemma {:induction false} Arrivals(s: Sys, k: nat)
    requires Inv(s)
    ensures Bases(Run(s, k).cache.tags) <= Bases(s.cache.tags) + Came(s, k)
    ensures ReadLines(Flat(s), Completed(s, k)) <= Bases(s.cache.tags) + Came(s, k)
  {
    hide Inv, Step, Flat, Completes, Bases, Reads, Lines, Line, ReadLines, Came, Run, Completed;
    if k == 0 {
      AtTheStart(s);
    } else {
      var r, lines := Run(s, k - 1), Bases(s.cache.tags) + Came(s, k - 1);
      Arrivals(s, k - 1);
      StepArrives(r, lines);
      RunRefines(s, k - 1);
      OneMoreCame(s, k - 1);
      OneMoreCount(s, k - 1);
      OneMoreRead(Flat(s), Completed(s, k - 1));
    }
  }

  lemma {:induction false} AtTheStart(s: Sys)
    requires Inv(s)
    ensures Run(s, 0) == s && Completed(s, 0) == 0 && Came(s, 0) == {} && ReadLines(Flat(s), 0) == {}
  {
    hide Inv, Flat;
  }

  lemma {:induction false} OneMoreCame(s: Sys, k: nat)
    requires Inv(s)
    ensures var r := Run(s, k);
      Came(s, k + 1) == Came(s, k) + if r.waiting then {Line(r.cache.miss)} else {}
  {
    hide Inv, Step, Line;
  }

  lemma {:induction false} OneMoreRead(f: M.State, n: nat)
    ensures ReadLines(f, n + 1) == ReadLines(f, n) + Lines(Reads(M.Steps(f, n)))
  {
    hide Reads, Lines;
  }

  /** What has come was read, at the latest by the instruction at hand. */
  lemma {:induction false} CameToBeRead(s: Sys, k: nat)
    requires Inv(s) && !s.waiting
    ensures Came(s, k) <= ReadLines(Flat(s), Completed(s, k) + 1)
    ensures Run(s, k).waiting ==> Line(Run(s, k).cache.miss) in Lines(Reads(Flat(Run(s, k))))
  {
    hide Inv, Step, Flat, Completes, Reads, Lines, Line, ReadLines, Came, Run, Completed;
    if k == 0 {
      AtTheStart(s);
    } else {
      var r, n := Run(s, k - 1), Completed(s, k - 1);
      CameToBeRead(s, k - 1);
      RunRefines(s, k - 1);
      WaitsForItsLine(r);
      OneMoreCame(s, k - 1);
      OneMoreCount(s, k - 1);
      OneMoreRead(Flat(s), n);
      ReadLinesGrow(Flat(s), n + 1, Completed(s, k) + 1);
    }
  }

  lemma {:induction false} ReadLinesGrow(f: M.State, m: nat, n: nat)
    requires m <= n
    ensures ReadLines(f, m) <= ReadLines(f, n)
  {
    hide Reads, Lines, ReadLines;
    if m < n {
      ReadLinesGrow(f, m, n - 1);
      OneMoreRead(f, n - 1);
    }
  }

  lemma WaitsForItsLine(s: Sys)
    requires Inv(s)
    ensures Inv(Step(s)) && (Step(s).waiting ==> Line(Step(s).cache.miss) in Lines(Reads(Flat(Step(s)))))
  {
    StepRefines(s);
    hide M.Execute, Parse, M.Touches, Play, Coherent, Sound, Line, M.Step, Lines;
    if Step(s).waiting {
      MissIsRead(s.cache, Footprint(s));
    }
  }

  lemma {:induction false} MissIsRead(c: Cache, t: seq<nat>)
    requires c.Shape() && InSpace(t) && Play(c, t).Missed?
    ensures Line(Play(c, t).cache.miss) in Lines(t)
  {
    PlayStopsAtMiss(c, t);
    LineIn(t, Prefix(c.tags, t));
  }

  /** The step with which `n` instructions are finished. */
  lemma {:induction false} FirstTime(s: Sys, n: nat, k: nat) returns (k': nat)
    requires Inv(s) && 0 < n <= Completed(s, k)
    ensures 0 < k' <= k && Completed(s, k') == n && Completed(s, k' - 1) == n - 1
    ensures !Run(s, k').waiting
  {
    hide Inv, Step, Completes;
    OneMoreCount(s, k - 1);
    if Completed(s, k - 1) >= n {
      k' := FirstTime(s, n, k - 1);
    } else {
      k' := k;
      FinishedNotWaiting(Run(s, k - 1));
    }
  }

  lemma FinishedNotWaiting(s: Sys)
    requires Inv(s) && Completes(s)
    ensures !Step(s).waiting
  {
    hide Footprint, M.Execute;
  }

  lemma {:induction false} NotLess(s: Sys, k: nat, k': nat)
    requires Inv(s) && k <= k'
    ensures Completed(s, k) <= Completed(s, k')
  {
    hide Inv, Completes, Run;
    if k < k' {
      NotLess(s, k, k' - 1);
    }
  }

  /** When the last instruction of a stretch is finished, and the stretch has read
      five lines that were not cached, no early line is left. */
  lemma {:induction false} AllGoneWhenDone(s: Sys, early: set<Addr>, n: nat, k: nat)
    requires Inv(s) && !s.waiting && Ordered(s.cache, early) && Room(s.cache, 50 * (n + 10))
    requires QuietCodeFor(Flat(s), early, n) && |ReadLines(Flat(s), n) - Bases(s.cache.tags)| >= SLOTS
    requires k > 0 && Completed(s, k) == n && Completed(s, k - 1) < n && !Run(s, k).waiting
    ensures Gone(Run(s, k).cache, early)
  {
    hide *;
    StaysOnItsWay(s, early, n, k);
    Arrivals(s, k);
    CameCount(s, k);
    ManyCame(ReadLines(Flat(s), n), Bases(s.cache.tags), Came(s, k));
    WayEnds(s, early, n, k);
  }

  lemma ManyCame(lines: set<Addr>, before: set<Addr>, came: set<Addr>)
    requires lines <= before + came
    ensures |lines - before| <= |came|
  {
    Cardinality(lines - before, came);
  }

  lemma {:induction false} WayEnds(s: Sys, early: set<Addr>, n: nat, k: nat)
    requires Inv(s) && OnItsWay(s, early, n, k) && Exchanges(s, k) >= SLOTS && !Run(s, k).waiting
    ensures Gone(Run(s, k).cache, early)
  {
    hide Inv, Gone, Progressing, InStep, Exchanges, Run;
    var r := Run(s, k);
    if !Gone(Board(r), early) {
      FewSoFar(r, early, Exchanges(s, k), 50 * (n + 10 - k));
    }
  }

  // ---------------------------------------------------------------- clean caches

  /** A coherent cache without dirty lines hides nothing from the client. */
  lemma CleanIsFlushed(s: Sys)
    requires Inv(s) && Clean(s.cache.tags)
    ensures s.ram == Flat(s).mem
  {
    forall i | 0 <= i < MEMORY ensures s.ram[i] == Flat(s).mem[i] {
      var a: Addr := i;
      CleanByte(s.cache, s.ram, a);
    }
  }

  lemma CleanByte(c: Cache, ram: seq<Byte>, a: Addr)
    requires Coherent(c, ram) && Clean(c.tags)
    ensures At(c, ram, a) == ram[a]
  {
    hide Slot;
    var s := Slot(c.tags, a);
    if a < USABLE && s < SLOTS {
      var tag := c.tags[s];
      UsableLine(a);
      CleanTag(tag);
      hide Sound, Base, Dirty, Line;
      assert LineData(c, s)[a % LINE] == ram[tag .. tag + LINE][a % LINE];
    }
  }

  /** Once every line is clean, only a store can change that. */
  lemma StaysCleanOnce(s: Sys)
    requires Inv(s) && Clean(s.cache.tags) && (Completes(s) ==> StoresNothing(Flat(s)))
    ensures Clean(Step(s).cache.tags)
  {
    hide Slot, Victim, Footprint, M.Execute, Parse;
    if s.waiting {
      LineIsClean(s.cache.miss);
    }
  }

  lemma {:induction false} StaysClean(s: Sys, k: nat, k': nat)
    requires Inv(s) && k <= k' && Clean(Run(s, k).cache.tags)
    requires forall j: nat | Completed(s, k) <= j < Completed(s, k') :: StoresNothing(M.Steps(Flat(s), j))
    ensures Clean(Run(s, k').cache.tags)
    decreases k'
  {
    hide Clean, StoresNothing, Step, Inv, Flat, Completes, M.Step;
    if k < k' {
      OneMoreCount(s, k' - 1);
      StaysClean(s, k, k' - 1);
      NotLess(s, k, k' - 1);
      RunRefines(s, k' - 1);
      StaysCleanOnce(Run(s, k' - 1));
    }
  }

  lemma CleanIsWrittenBack(s: Sys)
    requires Inv(s) && Clean(s.cache.tags)
    ensures s.ram == Flat(s).mem && WriteBack(s.cache, s.ram) == Flat(s).mem
  {
    CleanIsFlushed(s);
  }

  // ---------------------------------------------------------------- register code

  lemma RegisterStoresNothing(ins: Instruction, cpu: M.Cpu, mem: seq<Byte>)
    requires M.Defined(ins, cpu) && |mem| == MEMORY
    requires forall i | 0 <= i < |Operands(ins.body)| :: !M.IsMemory(Operands(ins.body)[i])
    ensures M.Execute(ins, cpu, mem).store.NoStore?
  {
    if !ins.body.Jump? {
      M.FinishFits(ins, Operands(ins.body)[0], cpu, mem);
    }
  }
}
