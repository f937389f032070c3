/** The whole system as a step machine: the server runs instructions over its
    five lines, gives up on a miss, and the client exchanges a line
    (server.c, do_instruction and sub_41da; client.c, vicpwn_handle).  Every run
    is a run of the flat machine. */
module Paging {
  import opened Words
  import opened Instructions
  import opened LineCache
  import M = Machine

  // ---------------------------------------------------------------- look-ups in sequence

  datatype Played = Done(cache: Cache) | Missed(cache: Cache)

  predicate InSpace(t: seq<nat>) {
    forall i | 0 <= i < |t| :: t[i] < USABLE
  }

  function Front(t: seq<nat>): seq<nat>
    requires t != []
  {
    t[..|t| - 1]
  }

  function End(t: seq<nat>): nat
    requires t != []
  {
    t[|t| - 1]
  }

  /** Reading a sequence of addresses until the first miss. */
  function Play(c: Cache, t: seq<nat>): (r: Played)
    requires c.Shape() && InSpace(t)
    ensures r.cache.Shape() && r.cache.data == c.data && r.cache.tags == c.tags
    decreases |t|
  {
    if t == [] then Done(c)
    else
      var r := Play(c, Front(t));
      if r.Missed? then r
      else
        match Touch(r.cache, End(t), false)
        case Miss(c') => Missed(c')
        case Hit(c', _) => Done(c')
  }

  lemma {:induction false} PlayConcat(c: Cache, a: seq<nat>, b: seq<nat>)
    requires c.Shape() && InSpace(a) && InSpace(b)
    ensures InSpace(a + b)
    ensures Play(c, a + b) == if Play(c, a).Missed? then Play(c, a) else Play(Play(c, a).cache, b)
    decreases |b|
  {
    hide Touch;
    if b == [] {
      assert a + b == a;
    } else {
      assert Front(a + b) == a + Front(b);
      PlayConcat(c, a, Front(b));
    }
  }

  /** Reading changes nothing that can be read. */
  lemma {:induction false} PlayIsTransparent(c: Cache, ram: seq<Byte>, t: seq<nat>)
    requires Coherent(c, ram) && InSpace(t)
    ensures Coherent(Play(c, t).cache, ram)
    ensures Logical(Play(c, t).cache, ram) == Logical(c, ram)
    decreases |t|
  {
    hide Touch, Logical, Sound;
    if t != [] {
      PlayIsTransparent(c, ram, Front(t));
      TouchIsTransparent(Play(c, Front(t)).cache, ram, End(t), false);
    }
  }

  /** The number of leading addresses that are resident. */
  function Prefix(tags: seq<Addr>, t: seq<nat>): (n: nat)
    requires |tags| == SLOTS && InSpace(t)
    ensures n <= |t|
    ensures forall i | 0 <= i < n :: Slot(tags, t[i]) < SLOTS
    ensures n < |t| ==> Slot(tags, t[n]) == SLOTS
    decreases |t|
  {
    if t == [] then 0
    else
      var n := Prefix(tags, Front(t));
      if n == |t| - 1 && Slot(tags, End(t)) < SLOTS then |t| else n
  }

  /** Reading stops exactly at the first address that is not resident. */
  lemma {:induction false} PlayStopsAtMiss(c: Cache, t: seq<nat>)
    requires c.Shape() && InSpace(t)
    ensures var n, r := Prefix(c.tags, t), Play(c, t);
      && Play(c, t[..n]).Done?
      && if n == |t| then r.Done? else r == Missed(Touch(Play(c, t[..n]).cache, t[n], false).cache)
    decreases |t|
  {
    hide Touch, Slot;
    var n := Prefix(c.tags, t);
    if n < |t| {
      PlayStopsAtMiss(c, Front(t));
      assert Front(t)[..n] == t[..n];
    } else if t != [] {
      PlayStopsAtMiss(c, Front(t));
      assert t[..n] == t && Front(t)[..n - 1] == Front(t);
    }
  }

  // ---------------------------------------------------------------- the step machine

  /** `waiting` holds from a miss until the client has sent the line. */
  datatype Sys = Sys(cache: Cache, ram: seq<Byte>, cpu: M.Cpu, waiting: bool)

  predicate Inv(s: Sys) {
    && Coherent(s.cache, s.ram) && |s.cpu.regs| == M.REGISTERS
    && (s.waiting ==> s.cache.miss < USABLE && !Resident(s.cache, s.cache.miss))
  }

  /** The flat machine that a state stands for. */
  function Flat(s: Sys): M.State
    requires Inv(s)
  {
    M.State(s.cpu, Logical(s.cache, s.ram))
  }

  function Current(s: Sys): Instruction
    requires Inv(s)
  {
    Parse(Flat(s).mem, s.cpu.pos)
  }

  predicate Ready(s: Sys)
    requires Inv(s)
  {
    !s.waiting && M.Runs(Flat(s))
  }

  function Footprint(s: Sys): (t: seq<nat>)
    requires Inv(s) && Ready(s)
    ensures InSpace(t)
  {
    M.TouchesBelow(Current(s), s.cpu);
    M.Touches(Current(s), s.cpu)
  }

  /** save_dest, after every read of the attempt has hit. */
  function StoreTo(c: Cache, store: M.Store): (r: Cache)
    requires c.Shape() && M.StoreFits(store)
    ensures r.Shape()
  {
    match store
    case NoStore => c
    case Store(a, bytes) =>
      match Touch(c, a, true)
      case Miss(c') => c'
      case Hit(c', slot) => StoreAt(c', slot, a % LINE, bytes)
  }

  function Step(s: Sys): Sys
    requires Inv(s)
  {
    if s.waiting then
      var (c, ram) := Exchange(s.cache, s.ram);
      s.(cache := c, ram := ram, waiting := false)
    else if !Ready(s) then s
    else
      match Play(s.cache, Footprint(s))
      case Missed(c) => s.(cache := c, waiting := true)
      case Done(c) =>
        M.StoreWasRead(Current(s), s.cpu, Flat(s).mem);
        var e := M.Execute(Current(s), s.cpu, Flat(s).mem);
        s.(cache := StoreTo(c, e.store), cpu := e.cpu)
  }

  /** Whether the next step finishes an instruction. */
  predicate Completes(s: Sys)
    requires Inv(s)
  {
    Ready(s) && Play(s.cache, Footprint(s)).Done?
  }

  // ---------------------------------------------------------------- refinement

  /** A store after the reads of the same attempt cannot miss, and has the flat
      effect. */
  lemma StoreCannotMiss(c: Cache, ram: seq<Byte>, store: M.Store)
    requires Coherent(c, ram) && M.StoreFits(store)
    requires store.Store? ==> Resident(c, store.addr)
    ensures store.Store? ==> Touch(c, store.addr, true).Hit?
    ensures Coherent(StoreTo(c, store), ram)
    ensures Logical(StoreTo(c, store), ram) == M.Apply(store, Logical(c, ram))
  {
    if store.Store? {
      var a, s := store.addr, Slot(c.tags, store.addr);
      var c' := Touch(c, a, true).cache;
      TouchIsTransparent(c, ram, a, true);
      Marked(c.tags[s]);
      SlotFound(c', ram, a, s);
      StoreIsSplice(c', ram, a, store.bytes);
    }
  }

  /** Precise restart: an attempt that misses, and an exchange, leave registers,
      flags, program counter and every byte of memory as they were; an attempt
      that does not miss has exactly the effect of the instruction on flat
      memory. */
  lemma StepRefines(s: Sys)
    requires Inv(s)
    ensures Inv(Step(s))
    ensures Flat(Step(s)) == if Completes(s) then M.Step(Flat(s)) else Flat(s)
  {
    if s.waiting {
      ExchangeIsTransparent(s.cache, s.ram);
    } else if Ready(s) {
      var t := Footprint(s);
      var r := Play(s.cache, t);
      PlayIsTransparent(s.cache, s.ram, t);
      PlayStopsAtMiss(s.cache, t);
      if r.Done? {
        CompletedStep(s);
      }
    }
  }

  lemma CompletedStep(s: Sys)
    requires Inv(s) && Completes(s)
    ensures Inv(Step(s)) && Flat(Step(s)) == M.Step(Flat(s))
  {
    var t, mem := Footprint(s), Flat(s).mem;
    var c := Play(s.cache, t).cache;
    PlayIsTransparent(s.cache, s.ram, t);
    PlayStopsAtMiss(s.cache, t);
    M.StoreWasRead(Current(s), s.cpu, mem);
    var store := M.Execute(Current(s), s.cpu, mem).store;
    assert store.Store? ==> Resident(c, store.addr);
    StoreCannotMiss(c, s.ram, store);
  }

  function Run(s: Sys, n: nat): (r: Sys)
    requires Inv(s)
    ensures Inv(r)
  {
    if n == 0 then s
    else
      StepRefines(Run(s, n - 1));
      Step(Run(s, n - 1))
  }

  /** How many of the first `n` steps finish an instruction. */
  function Completed(s: Sys, n: nat): nat
    requires Inv(s)
  {
    if n == 0 then 0 else Completed(s, n - 1) + if Completes(Run(s, n - 1)) then 1 else 0
  }

  /** Cache transparency over every run: after any number of steps the registers,
      flags, program counter and logical memory are those of the flat machine
      after exactly as many steps as instructions were finished. */
  lemma {:induction false} RunRefines(s: Sys, n: nat)
    requires Inv(s)
    ensures Flat(Run(s, n)) == M.Steps(Flat(s), Completed(s, n))
  {
    hide Step, M.Step, Completes;
    if n > 0 {
      RunRefines(s, n - 1);
      OneMoreStep(s, n - 1, Run(s, n - 1), Completed(s, n - 1));
    }
  }

  lemma OneMoreStep(s: Sys, n: nat, r: Sys, k: nat)
    requires Inv(s) && Inv(r) && r == Run(s, n) && k == Completed(s, n)
    requires Flat(r) == M.Steps(Flat(s), k)
    ensures Flat(Run(s, n + 1)) == M.Steps(Flat(s), Completed(s, n + 1))
  {
    hide Step, M.Step, Completes;
    StepRefines(r);
    assert Run(s, n + 1) == Step(r);
    if Completes(r) {
      assert M.Steps(Flat(s), k + 1) == M.Step(M.Steps(Flat(s), k));
    }
  }

  // ---------------------------------------------------------------- the start

  const FIRST_TAGS: seq<Addr> := [0xfff1, 0xfff2, 0xfff3, 0xfff4, 0xfff5]
  const FIRST_AGES: seq<Addr> := [0xffff, 0xffff, 0xffff, 0xffff, 0xffff]

  /** do_server_init, and a client about to send its first line: the same state
      as after a miss at address 0 with slot 0 as victim. */
  function Boot(data: seq<Byte>, ram: seq<Byte>, regs: seq<Word>, flags: Word): Sys {
    Sys(Cache(data, FIRST_TAGS, FIRST_AGES, 0, 0), ram, M.Cpu(regs, flags, 0), true)
  }

  /** The start is coherent, none of its tags is in use, and the machine sees
      exactly the client's memory. */
  lemma BootIsCoherent(data: seq<Byte>, ram: seq<Byte>, regs: seq<Word>, flags: Word)
    requires |data| == BUFFERS && |ram| == MEMORY && |regs| == M.REGISTERS
    ensures var s := Boot(data, ram, regs, flags);
      Inv(s) && Flat(s) == M.State(M.Cpu(regs, flags, 0), ram)
  {
    var s := Boot(data, ram, regs, flags);
    forall a: Addr | a < USABLE ensures Slot(s.cache.tags, a) == SLOTS {
      UsableLine(a);
      assert forall i | 0 <= i < SLOTS :: !InUse(s.cache.tags[i]);
    }
    var m := Logical(s.cache, ram);
    forall i | 0 <= i < MEMORY ensures m[i] == ram[i] {
      var a: Addr := i;
      assert m[a] == At(s.cache, ram, a);
    }
  }
}
