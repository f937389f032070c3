/** What the progress results say about instructions: only a dirty line that
    holds the instruction's own code can stop it. */
module Footprints {
  import opened Words
  import opened Bitstream
  import opened Instructions
  import opened LineCache
  import opened Paging
  import opened Progress
  import opened Livelock
  import opened Wraparound
  import M = Machine

  /** The first and the last byte that decoding an instruction may look at. */
  function CodeStart(cpu: M.Cpu): nat {
    cpu.pos / 8
  }

  function CodeEnd(ins: Instruction, cpu: M.Cpu): nat {
    (cpu.pos + Length(ins)) / 8
  }

  predicate Within(t: seq<nat>, lo: nat, hi: nat) {
    forall m | 0 <= m < |t| :: lo <= t[m] <= hi
  }

  /** Every element but the last and, possibly, the one at `e` is a code byte. */
  predicate CodeBut(t: seq<nat>, e: int, lo: nat, hi: nat) {
    forall m | 0 <= m < |t| - 1 && m != e :: lo <= t[m] <= hi
  }

  lemma OperandCode(op: Operand, p: nat, regs: seq<Word>, lo: nat, hi: nat)
    requires |regs| == M.REGISTERS && M.OperandDefined(op, regs)
    requires lo <= p / 8 && (p + OperandLength(op)) / 8 <= hi
    ensures CodeBut(M.OperandTouches(op, p, regs), -1, lo, hi)
    ensures M.OperandTouches(op, p, regs) != []
    ensures !M.IsMemory(op) ==> Within(M.OperandTouches(op, p, regs), lo, hi)
    ensures M.IsMemory(op) ==> End(M.OperandTouches(op, p, regs)) == M.Place(op, regs)
    ensures |M.OperandTouches(op, p, regs)| <= 16
  {
    OperandLengthIsSum(op);
    FieldCount(p, OperandWidths(op));
  }

  lemma {:induction false} FieldCount(p: nat, widths: seq<nat>)
    ensures |widths| <= |FieldTouches(p, widths)| <= 3 * |widths|
    decreases |widths|
  {
    if widths != [] {
      FieldCount(p + widths[0], widths[1..]);
    }
  }

  /** At most two operands: data is read at most at one place inside the
      sequence, and at its end. */
  lemma OperandsCode(ops: seq<Operand>, p: nat, regs: seq<Word>, lo: nat, hi: nat) returns (e: int)
    requires |regs| == M.REGISTERS && |ops| <= 2 && forall i | 0 <= i < |ops| :: M.OperandDefined(ops[i], regs)
    requires lo <= p / 8 && (p + OperandsLength(ops)) / 8 <= hi
    ensures CodeBut(M.OperandsTouches(ops, p, regs), e, lo, hi)
    ensures |M.OperandsTouches(ops, p, regs)| <= 32
  {
    hide M.OperandTouches, M.OperandDefined, M.Place, OperandLength;
    e := -1;
    if |ops| == 1 {
      OnlyOperand(ops, p, regs);
      OperandCode(ops[0], p, regs, lo, hi);
    } else if |ops| == 2 {
      BothOperands(ops, p, regs);
      OperandCode(ops[0], p, regs, lo, hi);
      OperandCode(ops[1], p + OperandLength(ops[0]), regs, lo, hi);
      e := |M.OperandTouches(ops[0], p, regs)| - 1;
    }
  }

  lemma {:induction false} OnlyOperand(ops: seq<Operand>, p: nat, regs: seq<Word>)
    requires |regs| == M.REGISTERS && |ops| == 1 && M.OperandDefined(ops[0], regs)
    ensures M.OperandsTouches(ops, p, regs) == M.OperandTouches(ops[0], p, regs)
    ensures OperandsLength(ops) == OperandLength(ops[0])
  {
    hide M.OperandTouches;
    assert ops[1..] == [];
  }

  lemma {:induction false} BothOperands(ops: seq<Operand>, p: nat, regs: seq<Word>)
    requires |regs| == M.REGISTERS && |ops| == 2
    requires M.OperandDefined(ops[0], regs) && M.OperandDefined(ops[1], regs)
    ensures M.OperandsTouches(ops, p, regs) ==
      M.OperandTouches(ops[0], p, regs) + M.OperandTouches(ops[1], p + OperandLength(ops[0]), regs)
    ensures OperandsLength(ops) == OperandLength(ops[0]) + OperandLength(ops[1])
  {
    hide M.OperandTouches, M.OperandDefined;
    OnlyOperand(ops[1..], p + OperandLength(ops[0]), regs);
  }

  /** The fields in front of the operands. */
  function HeaderTouches(ins: Instruction, cpu: M.Cpu): seq<nat>
    requires ins.Instruction?
  {
    FieldTouches(cpu.pos, [1, 8]) + FieldTouches(cpu.pos + 9, [3, 1])
      + FieldTouches(cpu.pos + 13, PrefixWidths(ins.body))
  }

  lemma HeaderCode(ins: Instruction, cpu: M.Cpu)
    requires M.Defined(ins, cpu)
    ensures Within(HeaderTouches(ins, cpu), CodeStart(cpu), CodeEnd(ins, cpu))
    ensures 1 <= |HeaderTouches(ins, cpu)| <= 18
  {
    hide FieldTouches, OperandsLength, Operands;
    var p, widths := cpu.pos, PrefixWidths(ins.body);
    HeaderSums(ins.body);
    FieldCount(p, [1, 8]);
    FieldCount(p + 9, [3, 1]);
    FieldCount(p + 13, widths);
  }

  lemma HeaderThenOperands(ins: Instruction, cpu: M.Cpu)
    requires M.Defined(ins, cpu)
    ensures M.Touches(ins, cpu) == HeaderTouches(ins, cpu)
      + M.OperandsTouches(Operands(ins.body), cpu.pos + 13 + PrefixLength(ins.body), cpu.regs)
  {
    hide FieldTouches, M.OperandsTouches;
  }

  lemma CodeFirst(a: seq<nat>, b: seq<nat>, e: int, lo: nat, hi: nat)
    requires Within(a, lo, hi) && CodeBut(b, e, lo, hi)
    ensures CodeBut(a + b, e + |a|, lo, hi)
  {
    forall m | 0 <= m < |a + b| - 1 && m != e + |a| ensures lo <= (a + b)[m] <= hi {
      if m < |a| {
        assert (a + b)[m] == a[m];
      } else {
        assert (a + b)[m] == b[m - |a|];
      }
    }
  }

  lemma OperandsFit(ins: Instruction, cpu: M.Cpu)
    requires M.Defined(ins, cpu)
    ensures ins.Instruction?
    ensures var ops, p := Operands(ins.body), cpu.pos + 13 + PrefixLength(ins.body);
      && |cpu.regs| == M.REGISTERS && |ops| <= 2 && (forall i | 0 <= i < |ops| :: M.OperandDefined(ops[i], cpu.regs))
      && CodeStart(cpu) <= p / 8 && (p + OperandsLength(ops)) / 8 <= CodeEnd(ins, cpu)
  {
    hide OperandsLength, M.OperandDefined;
  }

  /** The shape of an instruction's footprint: code bytes, but for at most two
      places, of which the second comes last. */
  lemma FootprintShape(ins: Instruction, cpu: M.Cpu) returns (e: int)
    requires M.Defined(ins, cpu)
    ensures CodeBut(M.Touches(ins, cpu), e, CodeStart(cpu), CodeEnd(ins, cpu))
    ensures 1 <= |M.Touches(ins, cpu)| <= 50
  {
    hide *;
    OperandsFit(ins, cpu);
    var ops, p := Operands(ins.body), cpu.pos + 13 + PrefixLength(ins.body);
    e := OperandsCode(ops, p, cpu.regs, CodeStart(cpu), CodeEnd(ins, cpu));
    HeaderCode(ins, cpu);
    HeaderThenOperands(ins, cpu);
    var a := HeaderTouches(ins, cpu);
    CodeFirst(a, M.OperandsTouches(ops, p, cpu.regs), e, CodeStart(cpu), CodeEnd(ins, cpu));
    e := e + |a|;
  }

  /** Without memory operands only code is read. */
  lemma RegisterCode(ins: Instruction, cpu: M.Cpu)
    requires M.Defined(ins, cpu)
    requires forall i | 0 <= i < |Operands(ins.body)| :: !M.IsMemory(Operands(ins.body)[i])
    ensures Within(M.Touches(ins, cpu), CodeStart(cpu), CodeEnd(ins, cpu))
  {
    hide M.OperandsTouches, HeaderTouches, M.Touches, OperandLength;
    var ops, p := Operands(ins.body), cpu.pos + 13 + PrefixLength(ins.body);
    HeaderCode(ins, cpu);
    HeaderThenOperands(ins, cpu);
    RegisterOperandsCode(ops, p, cpu.regs, CodeStart(cpu), CodeEnd(ins, cpu));
    hide *;
    BothWithin(HeaderTouches(ins, cpu), M.OperandsTouches(ops, p, cpu.regs), CodeStart(cpu), CodeEnd(ins, cpu));
  }

  lemma BothWithin(a: seq<nat>, b: seq<nat>, lo: nat, hi: nat)
    requires Within(a, lo, hi) && Within(b, lo, hi)
    ensures Within(a + b, lo, hi)
  {
  }

  lemma {:induction false} RegisterOperandsCode(ops: seq<Operand>, p: nat, regs: seq<Word>, lo: nat, hi: nat)
    requires |regs| == M.REGISTERS && |ops| <= 2
    requires forall i | 0 <= i < |ops| :: M.OperandDefined(ops[i], regs) && !M.IsMemory(ops[i])
    requires lo <= p / 8 && (p + OperandsLength(ops)) / 8 <= hi
    ensures Within(M.OperandsTouches(ops, p, regs), lo, hi)
  {
    hide M.OperandTouches, M.OperandDefined, M.IsMemory, OperandLength;
    if |ops| == 1 {
      OnlyOperand(ops, p, regs);
      OperandCode(ops[0], p, regs, lo, hi);
    } else if |ops| == 2 {
      BothOperands(ops, p, regs);
      OperandCode(ops[0], p, regs, lo, hi);
      OperandCode(ops[1], p + OperandLength(ops[0]), regs, lo, hi);
    }
  }

  // ---------------------------------------------------------------- few lines

  predicate CodeLine(l: Addr, lo: nat, hi: nat) {
    exists a: Addr :: lo <= a <= hi && Line(a) == l
  }

  /** The code lies in at most two lines, the data in at most two more. */
  lemma FewFootprintLines(t: seq<nat>, e: int, lo: nat, hi: nat)
    requires InSpace(t) && CodeBut(t, e, lo, hi) && lo <= hi <= lo + 15 && hi < USABLE && t != []
    ensures FewLines(t)
  {
    var x := if 0 <= e < |t| then Line(t[e]) else Line(lo);
    var four := {Line(lo), Line(hi), x, Line(End(t))};
    forall l | l in Lines(t) ensures l in four {
      var m :| 0 <= m < |t| && Line(t[m]) == l;
      if m < |t| - 1 && m != e {
        TwoCodeLines(t[m], lo, hi);
      }
    }
    Cardinality(Lines(t), four);
  }

  lemma TwoCodeLines(a: Addr, lo: Addr, hi: Addr)
    requires lo <= a <= hi <= lo + 15
    ensures Line(a) == Line(lo) || Line(a) == Line(hi)
  {
  }

  /** Only a line of code can be interleaved. */
  lemma InterleavedIsCode(t: seq<nat>, e: int, lo: nat, hi: nat, x: Addr)
    requires InSpace(t) && CodeBut(t, e, lo, hi) && hi < USABLE && Interleaved(t, x)
    ensures CodeLine(x, lo, hi)
  {
    var i: nat, j: nat, k: nat, l: nat :| Pattern(t, x, i, j, k, l);
    var m := if i == e then k else i;
    assert lo <= t[m] <= hi && Line(t[m]) == x;
  }

  // ---------------------------------------------------------------- the exact condition, for instructions

  lemma {:induction false} TimesBound(a: nat, u: nat)
    requires u <= 50
    ensures Times(a, u) <= 50 * a
  {
    if a > 0 {
      TimesBound(a - 1, u);
    }
  }

  /** An instruction gets through from every cache in which at most line `x` is
      dirty if and only if `x` is not interleaved in its footprint, and only a
      line of its own code can be. */
  lemma InstructionProgressExactly(ins: Instruction, cpu: M.Cpu, x: Addr)
    requires M.Defined(ins, cpu)
    ensures var t := M.Touches(ins, cpu);
      && InSpace(t) && FewLines(t)
      && (Safe(t, x) <==> !Interleaved(t, x))
      && (Interleaved(t, x) ==> CodeLine(x, CodeStart(cpu), CodeEnd(ins, cpu)))
  {
    M.TouchesBelow(ins, cpu);
    var e := FootprintShape(ins, cpu);
    var t, lo, hi := M.Touches(ins, cpu), CodeStart(cpu), CodeEnd(ins, cpu);
    CodeIsShort(ins, cpu);
    hide M.Touches, CodeBut, M.Defined, CodeStart, CodeEnd, Interleaved, Safe, FewLines;
    assert InSpace(t);
    FewFootprintLines(t, e, lo, hi);
    TimesBound(Bound(t), |t|);
    ProgressExactly(t, x);
    if Interleaved(t, x) {
      InterleavedIsCode(t, e, lo, hi, x);
    }
  }

  lemma CodeIsShort(ins: Instruction, cpu: M.Cpu)
    requires M.Defined(ins, cpu)
    ensures CodeStart(cpu) <= CodeEnd(ins, cpu) <= CodeStart(cpu) + 15 && CodeEnd(ins, cpu) < USABLE
  {
  }

  /** It does happen: an `and`, `or` or `mov` between two memory operands whose
      lines differ, with all its code in a third line, is interleaved by that
      line.  So with that line dirty there are caches from which it is retried until a
      counter wraps. */
  lemma MemoryToMemoryIsInterleaved(ins: Instruction, cpu: M.Cpu)
    requires M.Defined(ins, cpu) && |Operands(ins.body)| == 2
    requires var ops := Operands(ins.body);
      && M.IsMemory(ops[0]) && M.IsMemory(ops[1])
      && var (l, d, s) := (Line(CodeStart(cpu)), Line(M.Place(ops[0], cpu.regs)), Line(M.Place(ops[1], cpu.regs)));
      l == Line(CodeEnd(ins, cpu)) && l != d && l != s && d != s
    ensures InSpace(M.Touches(ins, cpu)) && Interleaved(M.Touches(ins, cpu), Line(CodeStart(cpu)))
    ensures !Safe(M.Touches(ins, cpu), Line(CodeStart(cpu)))
  {
    M.TouchesBelow(ins, cpu);
    CodeIsShort(ins, cpu);
    var h, a, b := MemoryParts(ins, cpu);
    assert InSpace(M.Touches(ins, cpu));
    hide M.Touches, M.OperandTouches, M.Defined, CodeStart, CodeEnd, M.Place, Operands, Interleaved, Safe, FewLines;
    ThreeParts(h, a, b, CodeStart(cpu), CodeEnd(ins, cpu));
    InstructionProgressExactly(ins, cpu, Line(CodeStart(cpu)));
  }

  /** The header, the first operand and the second operand. */
  lemma MemoryParts(ins: Instruction, cpu: M.Cpu) returns (h: seq<nat>, a: seq<nat>, b: seq<nat>)
    requires M.Defined(ins, cpu) && |Operands(ins.body)| == 2
    requires M.IsMemory(Operands(ins.body)[0]) && M.IsMemory(Operands(ins.body)[1])
    ensures M.Touches(ins, cpu) == h + (a + b) && h != [] && a != [] && |b| >= 2
    ensures var (lo, hi) := (CodeStart(cpu), CodeEnd(ins, cpu));
      Within(h, lo, hi) && CodeBut(a, -1, lo, hi) && CodeBut(b, -1, lo, hi)
    ensures End(a) == M.Place(Operands(ins.body)[0], cpu.regs)
    ensures End(b) == M.Place(Operands(ins.body)[1], cpu.regs)
  {
    hide M.OperandTouches, M.OperandsTouches, M.Touches, HeaderTouches, CodeBut, Within, M.Place, M.IsMemory;
    var ops, p := Operands(ins.body), cpu.pos + 13 + PrefixLength(ins.body);
    var q := p + OperandLength(ops[0]);
    h, a, b := HeaderTouches(ins, cpu), M.OperandTouches(ops[0], p, cpu.regs), M.OperandTouches(ops[1], q, cpu.regs);
    BothOperands(ops, p, cpu.regs);
    assert CodeStart(cpu) <= p / 8 && (q + OperandLength(ops[1])) / 8 <= CodeEnd(ins, cpu);
    HeaderCode(ins, cpu);
    HeaderThenOperands(ins, cpu);
    SecondOperandHasCode(ops[1], q, cpu.regs);
    OperandCode(ops[0], p, cpu.regs, CodeStart(cpu), CodeEnd(ins, cpu));
    OperandCode(ops[1], q, cpu.regs, CodeStart(cpu), CodeEnd(ins, cpu));
  }

  lemma SecondOperandHasCode(op: Operand, p: nat, regs: seq<Word>)
    requires |regs| == M.REGISTERS && M.OperandDefined(op, regs) && M.IsMemory(op)
    ensures |M.OperandTouches(op, p, regs)| >= 2
  {
    FieldCount(p, OperandWidths(op));
  }

  lemma ThreeParts(h: seq<nat>, a: seq<nat>, b: seq<nat>, lo: nat, hi: nat)
    requires InSpace(h + (a + b)) && hi < USABLE && lo <= hi && h != [] && a != [] && |b| >= 2
    requires Within(h, lo, hi) && CodeBut(a, -1, lo, hi) && CodeBut(b, -1, lo, hi)
    requires End(a) < USABLE && End(b) < USABLE
    requires Line(lo) == Line(hi) && Line(lo) != Line(End(a)) && Line(lo) != Line(End(b)) && Line(End(a)) != Line(End(b))
    ensures Interleaved(h + (a + b), Line(lo))
  {
    var t := h + (a + b);
    var j, l := |h| + |a| - 1, |t| - 1;
    assert t[j] == End(a) && t[l] == End(b);
    forall m | 0 <= m < l && m != j ensures Line(t[m]) == Line(lo) {
      if m < |h| {
        assert t[m] == h[m];
      } else if m < j {
        assert t[m] == a[m - |h|];
      } else {
        assert t[m] == b[m - |h| - |a|];
      }
      BetweenLines(t[m], lo, hi);
    }
    assert Pattern(t, Line(lo), 0, j, j + 1, l);
  }

  lemma BetweenLines(a: Addr, lo: Addr, hi: Addr)
    requires lo <= a <= hi && Line(lo) == Line(hi)
    ensures Line(a) == Line(lo)
  {
  }

  // ---------------------------------------------------------------- the running system

  predicate SameBoard(c: Cache, c': Cache) {
    c.Shape() && c'.Shape() && c.tags == c'.tags && c.ages == c'.ages
  }

  /** Hits and misses depend on tags and ages only. */
  lemma {:induction false} PlaySameBoard(c: Cache, c': Cache, t: seq<nat>)
    requires SameBoard(c, c') && InSpace(t)
    ensures var (r, r') := (Play(c, t), Play(c', t));
      && (r.Missed? <==> r'.Missed?) && SameBoard(r.cache, r'.cache)
      && (r.Missed? ==> r.cache.victim == r'.cache.victim && r.cache.miss == r'.cache.miss)
    decreases |t|
  {
    hide Slot, Victim;
    if t != [] {
      PlaySameBoard(c, c', Front(t));
    }
  }

  /** The state after an attempt that missed and the exchange that follows. */
  lemma {:induction false} AttemptAndExchange(s: Sys)
    requires Inv(s) && Ready(s) && Play(s.cache, Footprint(s)).Missed?
    ensures Completed(s, 2) == 0 && Ready(Run(s, 2)) && Footprint(Run(s, 2)) == Footprint(s)
    ensures SameBoard(Retry(s.cache, Footprint(s)), Run(s, 2).cache)
  {
    StepRefines(s);
    var s1 := Step(s);
    StepRefines(s1);
    ExchangeIsTransparent(s1.cache, s1.ram);
    assert Run(s, 1) == s1 by { assert Run(s, 0) == s; }
    assert Run(s, 2) == Step(s1);
    assert Completed(s, 1) == 0 by { assert Completed(s, 0) == 0; }
  }

  /** An instruction that does not miss. */
  lemma FinishedAtOnce(s: Sys) returns (r: Sys)
    requires Inv(s) && Ready(s) && Play(s.cache, Footprint(s)).Done?
    ensures r == Step(s) && Inv(r) && !r.waiting && Flat(r) == M.Step(Flat(s)) && Completes(s)
    ensures M.StoreFits(M.Execute(Current(s), s.cpu, Flat(s).mem).store)
    ensures r.cache == StoreTo(Play(s.cache, Footprint(s)).cache, M.Execute(Current(s), s.cpu, Flat(s).mem).store)
  {
    StepRefines(s);
    M.StoreWasRead(Current(s), s.cpu, Flat(s).mem);
    hide Play, Footprint, M.Execute, Parse, Coherent, Logical;
    r := Step(s);
  }

  lemma {:induction false} OneStep(s: Sys)
    requires Inv(s) && Completes(s)
    ensures Run(s, 1) == Step(s) && Completed(s, 1) == 1
  {
    hide Inv, Step, Completes;
    assert Run(s, 0) == s && Completed(s, 0) == 0;
  }

  lemma {:induction false} RunOnward(s: Sys, a: nat, b: nat)
    requires Inv(s)
    ensures Run(s, a + b) == Run(Run(s, a), b)
    ensures Completed(s, a + b) == Completed(s, a) + Completed(Run(s, a), b)
  {
    hide Step, Completes, Inv;
    if b > 0 {
      RunOnward(s, a, b - 1);
    }
  }

  /** The instruction at hand is finished by the step after `n` misses. */
  predicate FinishesAfter(s: Sys, n: nat)
    requires Inv(s)
  {
    Completed(s, 2 * n) == 0 && Completes(Run(s, 2 * n))
  }

  /** Retrying in the running system is retrying in the cache. */
  lemma {:induction false} FinishesLikeTheCache(s: Sys, c: Cache, t: seq<nat>, n: nat)
    requires Inv(s) && Ready(s) && Footprint(s) == t && SameBoard(c, s.cache) && SucceedsAfter(c, t, n)
    ensures FinishesAfter(s, n)
    decreases n
  {
    hide Play, Ready, Inv, Footprint, FinishesAfter, Run, Completed, SucceedsAfter, Retry;
    PlaySameBoard(c, s.cache, t);
    if n == 0 {
      SucceedsAtOnce(c, t);
      FinishesNow(s);
    } else {
      FirstOfMany(c, t, n);
      AttemptAndExchange(s);
      BoardAfterRetry(c, s.cache, t);
      FinishesLikeTheCache(Run(s, 2), Retry(c, t), t, n - 1);
      FinishesLater(s, n - 1);
    }
  }

  lemma {:induction false} SucceedsAtOnce(c: Cache, t: seq<nat>)
    requires c.Shape() && InSpace(t) && SucceedsAfter(c, t, 0)
    ensures Play(c, t).Done?
  {
    assert Retries(c, t, 0) == c;
  }

  lemma FinishesNow(s: Sys)
    requires Inv(s) && Ready(s) && Play(s.cache, Footprint(s)).Done?
    ensures FinishesAfter(s, 0)
  {
  }

  lemma {:induction false} FinishesLater(s: Sys, n: nat)
    requires Inv(s) && Completed(s, 2) == 0 && FinishesAfter(Run(s, 2), n)
    ensures FinishesAfter(s, n + 1)
  {
    hide Completes, Run, Completed, Inv;
    RunOnward(s, 2, 2 * n);
    assert 2 * (n + 1) == 2 + 2 * n;
  }

  lemma BoardAfterRetry(c: Cache, c': Cache, t: seq<nat>)
    requires SameBoard(c, c') && InSpace(t)
    ensures SameBoard(Retry(c, t), Retry(c', t))
  {
    PlaySameBoard(c, c', t);
  }

  lemma {:induction false} FirstOfMany(c: Cache, t: seq<nat>, n: nat)
    requires c.Shape() && InSpace(t) && n > 0 && SucceedsAfter(c, t, n)
    ensures Play(c, t).Missed? && SucceedsAfter(Retry(c, t), t, n - 1)
  {
    hide Play, Retry;
    assert Retries(c, t, 0) == c;
    forall k | 0 <= k < n ensures Retries(c, t, k + 1) == Retries(Retry(c, t), t, k) {
      RetriesFromFront(c, t, k);
    }
    forall k | 0 <= k < n - 1 ensures Play(Retries(Retry(c, t), t, k), t).Missed? {
      assert Play(Retries(c, t, k + 1), t).Missed?;
    }
  }

  /** No dirty line in use holds code of the instruction at hand. */
  ghost predicate CodeIsClean(s: Sys)
    requires Inv(s)
  {
    forall i, a: Addr | 0 <= i < SLOTS && Dirty(s.cache.tags[i]) && InUse(s.cache.tags[i])
      && CodeStart(s.cpu) <= a <= CodeEnd(Current(s), s.cpu) :: Line(a) != Base(s.cache.tags[i])
  }

  /** No livelock in the running system: whatever its counters say, an instruction
      whose own code is not dirty is finished after fewer than 6732 misses. */
  lemma CleanCodeGetsThrough(s: Sys) returns (misses: nat)
    requires Inv(s) && Ready(s) && CodeIsClean(s)
    ensures misses < 6732 && FinishesAfter(s, misses)
  {
    var t := Footprint(s);
    CleanIsPromising(s);
    misses := AlwaysEnds(s.cache, t);
    FinishesLikeTheCache(s, s.cache, t, misses);
  }

  lemma CleanIsPromising(s: Sys)
    requires Inv(s) && Ready(s) && CodeIsClean(s)
    ensures var (c, t) := (s.cache, Footprint(s));
      c.Shape() && Sound(c.tags) && InSpace(t) && FewLines(t) && NoneInterleaved(c, t) && |t| <= LONGEST
  {
    var ins, cpu, t, c := Current(s), s.cpu, Footprint(s), s.cache;
    assert t == M.Touches(ins, cpu);
    InstructionProgressExactly(ins, cpu, 0);
    var e := FootprintShape(ins, cpu);
    hide M.Touches, M.Defined, Interleaved, FewLines, Footprint, Current, Safe, CodeIsClean, CodeBut;
    forall i | 0 <= i < SLOTS && Dirty(c.tags[i]) ensures !Interleaved(t, Base(c.tags[i])) {
      CleanNotInterleaved(s, i);
    }
  }

  lemma CleanNotInterleaved(s: Sys, i: nat)
    requires Inv(s) && Ready(s) && CodeIsClean(s) && i < SLOTS && Dirty(s.cache.tags[i])
    ensures !Interleaved(Footprint(s), Base(s.cache.tags[i]))
  {
    var tag := s.cache.tags[i];
    hide M.Touches, M.Defined, Interleaved, FewLines, Safe;
    InstructionProgressExactly(Current(s), s.cpu, Base(tag));
    if !InUse(tag) {
      NotInterleaved(Footprint(s), tag);
    }
  }
}
