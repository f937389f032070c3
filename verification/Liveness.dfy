/** Progress over whole runs: a program that never executes from a line it has
    stored into is never stopped by the cache. */
module Liveness {
  import opened Words
  import opened Instructions
  import opened LineCache
  import opened Paging
  import opened Footprints
  import M = Machine

  /** The line that the next instruction stores into, if any. */
  function StoreLine(f: M.State): set<Addr> {
    if !M.Runs(f) then {}
    else
      match M.Execute(Parse(f.mem, f.cpu.pos), f.cpu, f.mem).store
      case NoStore => {}
      case Store(a, _) => {Line(a)}
  }

  /** The lines that the first `n` instructions store into. */
  function StoredLines(f: M.State, n: nat): set<Addr> {
    if n == 0 then {} else StoredLines(f, n - 1) + StoreLine(M.Steps(f, n - 1))
  }

  /** The next instruction has a meaning, and no code in these lines. */
  ghost predicate CodeAwayFrom(f: M.State, lines: set<Addr>) {
    && M.Runs(f)
    && forall a: Addr | CodeStart(f.cpu) <= a <= CodeEnd(Parse(f.mem, f.cpu.pos), f.cpu) :: Line(a) !in lines
  }

  /** None of the first `n` instructions has code in a line of `lines`, or in one
      that was stored into before. */
  ghost predicate Separate(f: M.State, lines: set<Addr>, n: nat) {
    forall j: nat | j < n :: CodeAwayFrom(M.Steps(f, j), lines + StoredLines(f, j))
  }

  predicate DirtyWithin(c: Cache, lines: set<Addr>)
    requires c.Shape()
  {
    forall i | 0 <= i < SLOTS && Dirty(c.tags[i]) && InUse(c.tags[i]) :: Base(c.tags[i]) in lines
  }

  /** Only a finished instruction dirties a line, and only the one it stores into. */
  lemma StepDirties(s: Sys, lines: set<Addr>)
    requires Inv(s) && DirtyWithin(s.cache, lines)
    ensures Step(s).cache.Shape()
    ensures DirtyWithin(Step(s).cache, if Completes(s) then lines + StoreLine(Flat(s)) else lines)
  {
    hide Footprint, M.Execute, Parse, Slot, M.Runs;
    if s.waiting {
      LineIsClean(s.cache.miss);
    } else if Completes(s) {
      FinishDirties(s, lines);
    }
  }

  lemma FinishDirties(s: Sys, lines: set<Addr>)
    requires Inv(s) && DirtyWithin(s.cache, lines) && Completes(s)
    ensures Step(s).cache.Shape() && DirtyWithin(Step(s).cache, lines + StoreLine(Flat(s)))
  {
    var c, mem := Play(s.cache, Footprint(s)).cache, Flat(s).mem;
    M.StoreWasRead(Current(s), s.cpu, mem);
    var store := M.Execute(Current(s), s.cpu, mem).store;
    hide Footprint, M.Execute, Parse, Slot, Play, M.Runs, Mark;
    StoreDirties(c, store, lines);
  }

  lemma {:induction false} StoreDirties(c: Cache, store: M.Store, lines: set<Addr>)
    requires c.Shape() && M.StoreFits(store) && DirtyWithin(c, lines)
    ensures DirtyWithin(StoreTo(c, store), if store.Store? then lines + {Line(store.addr)} else lines)
  {
    hide Slot, Mark;
    if store.Store? && Resident(c, store.addr) {
      Marked(c.tags[Slot(c.tags, store.addr)]);
    }
  }

  lemma {:induction false} NoneFinishedDirties(s: Sys, lines: set<Addr>, k: nat)
    requires Inv(s) && DirtyWithin(s.cache, lines) && Completed(s, k) == 0
    ensures DirtyWithin(Run(s, k).cache, lines)
  {
    hide Step, Completes, DirtyWithin;
    if k > 0 {
      NoneFinishedDirties(s, lines, k - 1);
      StepDirties(Run(s, k - 1), lines);
    }
  }

  lemma CleanFromAway(s: Sys, lines: set<Addr>)
    requires Inv(s) && DirtyWithin(s.cache, lines) && CodeAwayFrom(Flat(s), lines)
    ensures CodeIsClean(s)
  {
    hide Parse, M.Runs, Logical;
  }

  /** One instruction more. */
  lemma {:induction false} OneInstruction(s: Sys, lines: set<Addr>) returns (k: nat)
    requires Inv(s) && !s.waiting && DirtyWithin(s.cache, lines) && CodeAwayFrom(Flat(s), lines)
    ensures k <= 13463 && Completed(s, k) == 1 && !Run(s, k).waiting
    ensures DirtyWithin(Run(s, k).cache, lines + StoreLine(Flat(s)))
  {
    hide *;
    CleanFromAway(s, lines);
    AwayIsReady(s, lines);
    var misses := CleanCodeGetsThrough(s);
    k := 2 * misses + 1;
    Finishing(s, lines, misses);
  }

  lemma AwayIsReady(s: Sys, lines: set<Addr>)
    requires Inv(s) && !s.waiting && CodeAwayFrom(Flat(s), lines)
    ensures Ready(s)
  {
    hide M.Runs, Flat, Inv;
  }

  lemma {:induction false} Finishing(s: Sys, lines: set<Addr>, misses: nat)
    requires Inv(s) && DirtyWithin(s.cache, lines) && FinishesAfter(s, misses)
    ensures var k := 2 * misses + 1;
      && Completed(s, k) == 1 && !Run(s, k).waiting && Run(s, k).cache.Shape()
      && DirtyWithin(Run(s, k).cache, lines + StoreLine(Flat(s)))
  {
    hide Step, Inv, StoreLine, DirtyWithin, Flat, Run, Completed, Completes;
    NoneFinishedDirties(s, lines, 2 * misses);
    NothingFinished(s, 2 * misses);
    StepDirties(Run(s, 2 * misses), lines);
    LastStep(s, 2 * misses);
  }

  lemma {:induction false} NothingFinished(s: Sys, k: nat)
    requires Inv(s) && Completed(s, k) == 0
    ensures Flat(Run(s, k)) == Flat(s)
  {
    hide Step, Flat, Completed, Run;
    RunRefines(s, k);
  }

  lemma {:induction false} LastStep(s: Sys, k: nat)
    requires Inv(s) && Completed(s, k) == 0 && Completes(Run(s, k))
    ensures Run(s, k + 1) == Step(Run(s, k)) && Completed(s, k + 1) == 1 && !Run(s, k + 1).waiting
  {
    hide Inv, Footprint, M.Execute, Parse;
  }

  /** Liveness: from any coherent state the machine finishes `n` instructions within
      13463 * n steps, if none of them executes from a line that is dirty at the start
      or was stored into before. */
  lemma {:induction false} MakesProgress(s: Sys, lines: set<Addr>, n: nat) returns (k: nat)
    requires Inv(s) && !s.waiting && DirtyWithin(s.cache, lines) && Separate(Flat(s), lines, n)
    ensures k <= 13463 * n && Completed(s, k) == n && !Run(s, k).waiting
    ensures DirtyWithin(Run(s, k).cache, lines + StoredLines(Flat(s), n))
    ensures Flat(Run(s, k)) == M.Steps(Flat(s), n)
  {
    hide Step, Inv, StoreLine, DirtyWithin, Flat, CodeAwayFrom, Completes, M.Step;
    if n == 0 {
      k := 0;
      assert lines + StoredLines(Flat(s), 0) == lines;
    } else {
      var before := MakesProgress(s, lines, n - 1);
      var r := Run(s, before);
      var more := OneInstruction(r, lines + StoredLines(Flat(s), n - 1));
      k := before + more;
      RunOnward(s, before, more);
      RunRefines(s, k);
      assert lines + StoredLines(Flat(s), n) == lines + StoredLines(Flat(s), n - 1) + StoreLine(Flat(r));
    }
  }

  /** And so from the start. */
  lemma {:induction false} BootMakesProgress(data: seq<Byte>, ram: seq<Byte>, regs: seq<Word>, flags: Word, n: nat)
    returns (k: nat)
    requires |data| == BUFFERS && |ram| == MEMORY && |regs| == M.REGISTERS
    requires Separate(M.State(M.Cpu(regs, flags, 0), ram), {}, n)
    ensures var (s, f) := (Boot(data, ram, regs, flags), M.State(M.Cpu(regs, flags, 0), ram));
      Inv(s) && k <= 1 + 13463 * n && Completed(s, k) == n && Flat(Run(s, k)) == M.Steps(f, n)
  {
    hide *;
    var s := Boot(data, ram, regs, flags);
    BootIsCoherent(data, ram, regs, flags);
    FirstLineIsClean(data, ram, regs, flags);
    k := OneExchangeFirst(s, n);
  }

  lemma {:induction false} OneExchangeFirst(s: Sys, n: nat) returns (k: nat)
    requires Inv(s) && s.waiting && !Step(s).waiting && Step(s).cache.Shape() && DirtyWithin(Step(s).cache, {})
    requires Separate(Flat(s), {}, n)
    ensures k <= 1 + 13463 * n && Completed(s, k) == n && Flat(Run(s, k)) == M.Steps(Flat(s), n)
  {
    hide *;
    StepRefines(s);
    var r := Step(s);
    FirstStep(s, r);
    var more := MakesProgress(r, {}, n);
    k := 1 + more;
    RunOnward(s, 1, more);
  }

  lemma {:induction false} FirstStep(s: Sys, r: Sys)
    requires Inv(s) && s.waiting && r == Step(s)
    ensures Run(s, 1) == r && Completed(s, 1) == 0 && !Completes(s)
  {
    hide Inv, Step;
    assert Run(s, 0) == s && Completed(s, 0) == 0;
  }

  lemma FirstLineIsClean(data: seq<Byte>, ram: seq<Byte>, regs: seq<Word>, flags: Word)
    requires Inv(Boot(data, ram, regs, flags))
    ensures Boot(data, ram, regs, flags).waiting
    ensures var r := Step(Boot(data, ram, regs, flags)); r.cache.Shape() && !r.waiting && DirtyWithin(r.cache, {})
  {
    var s := Boot(data, ram, regs, flags);
    hide *;
    BootWaits(data, ram, regs, flags);
    WaitingStep(s);
    FirstTags(s, Step(s), data, ram, regs, flags);
  }

  lemma BootWaits(data: seq<Byte>, ram: seq<Byte>, regs: seq<Word>, flags: Word)
    ensures Boot(data, ram, regs, flags).waiting
  {
  }

  lemma WaitingStep(s: Sys)
    requires Inv(s) && s.waiting
    ensures var r := Step(s);
      && s.cache.Shape() && !r.waiting && r.cache.Shape() && r.cache.ages == s.cache.ages
      && r.cache.tags == s.cache.tags[s.cache.victim := Line(s.cache.miss)]
  {
    hide WriteBack, Splice, Sound, Logical;
  }

  lemma FirstTags(s: Sys, r: Sys, data: seq<Byte>, ram: seq<Byte>, regs: seq<Word>, flags: Word)
    requires s == Boot(data, ram, regs, flags) && r.cache.Shape() && s.cache.Shape()
    requires r.cache.tags == s.cache.tags[s.cache.victim := Line(s.cache.miss)]
    ensures DirtyWithin(r.cache, {})
  {
    assert Line(0) == 0;
  }
}
