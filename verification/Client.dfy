/** The client's paging loop (client.c, vicpwn_handle): send the missing line,
    wait for the next miss, fetch the victim, write it back if it is dirty. */
module Client {
  import opened Words
  import opened LineCache
  import opened Paging
  import opened Server
  import M = Machine
  import Flush
  import Footprints
  import Progress
  import Stretch
  import Tail

  const RESULT := 0x8000
  const HIGH := 0xfff0

  /** Every instruction that the run ever meets is one whose meaning is modelled. */
  ghost predicate Modelled(s: Sys)
    requires Inv(s)
  {
    forall k: nat :: Run(s, k).waiting || Paging.Ready(Run(s, k))
  }

  class Client {
    const ram: array<Byte>
    var offSrc: Addr

    /** The head of the loop: the server waits for the line `offSrc`, and the
        client has written the last victim back. */
    ghost predicate AtHead(server: Server, s: Sys)
      reads this, ram, server, server.data, server.tags, server.ages, server.regs
    {
      && server.Valid() && ram.Length == MEMORY && Separate(server)
      && Inv(s) && s.waiting && server.Contents() == s.cache && server.CpuNow() == s.cpu
      && ram[..] == WriteBack(s.cache, s.ram) && offSrc == s.cache.miss
    }

    ghost predicate Separate(server: Server) {
      && ram != server.data && (ram as object) != server.tags && (ram as object) != server.ages
      && (ram as object) != server.regs
    }

    /** One iteration: an exchange, then passes of the server until it misses
        again, at most `fuel` of them. */
    method Round(server: Server, fuel: nat, ghost s: Sys) returns (missing: bool, ghost n: nat)
      requires AtHead(server, s) && Works(Run(s, 1), fuel)
      modifies this, ram, server, server.data, server.tags, server.ages, server.regs
      ensures missing ==> AtHead(server, Run(s, 1 + n))
      ensures !missing ==> n == fuel && server.Valid() && ram[..] == old(ram[..])
      ensures !missing ==> server.System(ram[..], false) == Run(s, 1 + n)
    {
      hide *;
      HeadMeans(server, s);
      offSrc := Line(offSrc);
      Sending(server, s);
      server.HandleReceive(offSrc, ram[offSrc .. offSrc + LINE]);
      server.SystemIs(ram[..], false);
      missing, n := server.DoInstruction(fuel, ram[..]);
      RunOn(s, 1, n);
      if !missing {
        return;
      }
      server.SystemIs(ram[..], true);
      var packet := server.HandleSend();
      server.SystemIs(ram[..], true);
      PacketMeans(server, Run(s, 1 + n), packet);
      Fetch(server, Run(s, 1 + n), packet);
    }

    lemma HeadMeans(server: Server, s: Sys)
      requires AtHead(server, s)
      ensures server.Valid() && ram.Length == MEMORY && Separate(server) && Inv(s) && s.waiting
      ensures ram != server.data && (ram as object) != server.tags && (ram as object) != server.ages
      ensures (ram as object) != server.regs
      ensures server.Contents() == s.cache && server.CpuNow() == s.cpu
      ensures ram[..] == WriteBack(s.cache, s.ram) && offSrc == s.cache.miss
    {
      hide Coherent, WriteBack;
    }

    lemma {:induction false} Sending(server: Server, s: Sys)
      requires Inv(s) && s.waiting && server.Contents() == s.cache && server.CpuNow() == s.cpu && server.Valid()
      requires ram.Length == MEMORY && ram[..] == WriteBack(s.cache, s.ram) && offSrc == Line(s.cache.miss)
      ensures offSrc + LINE <= MEMORY && |ram[offSrc .. offSrc + LINE]| == LINE
      ensures server.Contents().Shape()
      ensures var c := Install(server.Contents(), offSrc, ram[offSrc .. offSrc + LINE]);
        Sys(c, ram[..], server.CpuNow(), false) == Run(s, 1)
    {
      hide Coherent, WriteBack, Logical, Install;
      UsableLine(s.cache.miss);
      RunStarts(s);
    }

    lemma PacketMeans(server: Server, r: Sys, packet: seq<Byte>)
      requires server.Valid() && Inv(r) && r.waiting && server.Contents() == r.cache && |packet| == LINE + 4
      requires packet[..LINE] == LineData(server.Contents(), server.victim)
      requires BytesAddr(packet[LINE], packet[LINE + 1]) == server.tags[server.victim]
      requires BytesAddr(packet[LINE + 2], packet[LINE + 3]) == server.miss
      ensures r.cache.victim < SLOTS && r.cache.victim < |r.cache.tags|
      ensures packet[..LINE] == LineData(r.cache, r.cache.victim)
      ensures BytesAddr(packet[LINE], packet[LINE + 1]) == r.cache.tags[r.cache.victim]
      ensures BytesAddr(packet[LINE + 2], packet[LINE + 3]) == r.cache.miss
    {
      hide Coherent, Logical, LineData;
    }

    /** What the client does with the 20 bytes of a 0x56 request. */
    method Fetch(server: Server, ghost r: Sys, packet: seq<Byte>)
      requires server.Valid() && ram.Length == MEMORY && Separate(server)
      requires Inv(r) && r.waiting && r == server.System(ram[..], true)
      requires |packet| == LINE + 4 && packet[..LINE] == LineData(r.cache, r.cache.victim)
      requires BytesAddr(packet[LINE], packet[LINE + 1]) == r.cache.tags[r.cache.victim]
      requires BytesAddr(packet[LINE + 2], packet[LINE + 3]) == r.cache.miss
      modifies this, ram
      ensures AtHead(server, r)
    {
      hide Logical, Coherent, Splice, LineData;
      ghost var was := ram[..];
      var offDst := BytesAddr(packet[LINE], packet[LINE + 1]);
      offSrc := BytesAddr(packet[LINE + 2], packet[LINE + 3]);
      HighTag(offDst);
      InUseLine(offDst);
      if Line(offDst) == HIGH || offDst % 2 == 0 {
        return;
      }
      offDst := Line(offDst);
      CopyIn(offDst, packet[..LINE]);
    }

    method CopyIn(at: nat, bytes: seq<Byte>)
      requires ram.Length == MEMORY && |bytes| == LINE && at + LINE <= MEMORY
      modifies ram
      ensures ram[..] == Splice(old(ram[..]), at, bytes)
    {
      ghost var was := ram[..];
      for i := 0 to LINE
        invariant forall k | 0 <= k < MEMORY :: ram[k] == if at <= k < at + i then bytes[k - at] else was[k]
      {
        ram[at + i] := bytes[i];
      }
      assert ram[..] == Splice(was, at, bytes);
    }

    /** The test at the head of the loop, as the moment to stop. */
    predicate Exits()
      requires ram.Length == MEMORY
      reads this, ram
    {
      (ram[RESULT] != 0 || ram[RESULT + 1] != 0 || ram[RESULT + 2] != 0 || ram[RESULT + 3] != 0) && offSrc == 0
    }

    /** End to end: at the head of the loop, after such a stretch, the client's memory
        is the memory of the flat machine after as many steps as instructions were
        finished. */
    lemma {:induction false} ExitReadsTheResult(server: Server, s: Sys, k: nat)
      requires Inv(s) && AtHead(server, Run(s, k))
      ensures forall j: nat, n: nat {:trigger Flushing(s, j, n, k)} | Flushing(s, j, n, k) ::
        ram[..] == M.Steps(Flat(s), Paging.Completed(s, k)).mem
    {
      hide *;
      HeadMeans(server, Run(s, k));
      forall j: nat, n: nat | Flushing(s, j, n, k)
        ensures ram[..] == M.Steps(Flat(s), Paging.Completed(s, k)).mem
      {
        FlushedIsWrittenBack(s, j, n, k);
      }
    }

    /** The end of a layer leads out of the loop: when the machine is back at address 0
        the client has all of its memory, and stops exactly if the answer says so. */
    lemma {:induction false} LayerEnds(server: Server, s: Sys, j: nat, n: nat) returns (k: nat)
      requires Inv(s) && BeginsTheEnd(Run(s, j), n)
      ensures j < k && Paging.Completed(s, k) == Paging.Completed(s, j) + n + 1
      ensures Run(s, k).waiting && Run(s, k).cache.miss == 0
      ensures AtHead(server, Run(s, k)) ==>
        && ram[..] == Flat(Run(s, j)).mem
        && ram.Length == MEMORY && (Exits() <==> FlagSet(Flat(Run(s, j)).mem))
    {
      hide *;
      BeginningMeans(Run(s, j), n);
      var more := Tail.EndFlushes(Run(s, j), n);
      k := j + more;
      RunOn(s, j, more);
      Footprints.RunOnward(s, j, more);
      WaitsLater(Run(s, j), more);
      if AtHead(server, Run(s, k)) {
        HeadMeans(server, Run(s, k));
        ExitsIf(Flat(Run(s, j)).mem);
      }
    }

    lemma ExitsIf(mem: seq<Byte>)
      requires ram.Length == MEMORY && ram[..] == mem && offSrc == 0 && |mem| == MEMORY
      ensures Exits() <==> FlagSet(mem)
    {
    }

    /** The loop itself, for at most `rounds` iterations.  When it exits after the
        machine has run such a stretch, the client holds the whole result. */
    method Serve(server: Server, rounds: nat, fuel: nat, ghost s: Sys) returns (exited: bool, ghost k: nat)
      requires AtHead(server, s) && Modelled(s)
      modifies this, ram, server, server.data, server.tags, server.ages, server.regs
      ensures exited ==> AtHead(server, Run(s, k)) && ram.Length == MEMORY && Exits()
      ensures exited ==> forall j: nat, n: nat {:trigger Flushing(s, j, n, k)} | Flushing(s, j, n, k) ::
        ram[..] == M.Steps(Flat(s), Paging.Completed(s, k)).mem
    {
      hide *;
      var i := 0;
      k, exited := 0, false;
      HeadMeans(server, s);
      RunStarts(s);
      while i < rounds
        invariant Inv(s) && Modelled(s) && ram.Length == MEMORY && AtHead(server, Run(s, k))
      {
        if Exits() {
          exited := true;
          ExitReadsTheResult(server, s, k);
          return;
        }
        HeadMeans(server, Run(s, k));
        WorksOn(s, k, fuel);
        var missing;
        ghost var n;
        missing, n := Round(server, fuel, Run(s, k));
        if !missing {
          return;
        }
        RunOn(s, k, 1 + n);
        assert AtHead(server, Run(s, k + (1 + n)));
        i, k := i + 1, k + (1 + n);
        HeadMeans(server, Run(s, k));
      }
    }
  }

  /** The integer at 0x8000 is not zero. */
  predicate FlagSet(mem: seq<Byte>)
    requires |mem| == MEMORY
  {
    mem[RESULT] != 0 || mem[RESULT + 1] != 0 || mem[RESULT + 2] != 0 || mem[RESULT + 3] != 0
  }

  /** The system is about to run the `n` fillers that end a layer and the jump behind
      them: its code is not dirty, nothing of the rest of it is cached, and no counter
      can wrap before it is through. */
  ghost predicate BeginsTheEnd(s: Sys, n: nat) {
    && Inv(s) && Paging.Ready(s) && Footprints.CodeIsClean(s) && n >= 23
    && Tail.EndsAt(Flat(s).mem, s.cpu.pos, n) && Tail.Fresh(s, n + 1)
    && Progress.Room(s.cache, 50 * (n + 15)) && M.Runs(M.Steps(Flat(s), n + 1))
  }

  lemma {:induction false} BeginningMeans(s: Sys, n: nat)
    requires BeginsTheEnd(s, n)
    ensures Inv(s) && Paging.Ready(s) && Footprints.CodeIsClean(s) && n >= 23
    ensures Tail.EndsAt(Flat(s).mem, s.cpu.pos, n) && Tail.Fresh(s, n + 1)
    ensures Progress.Room(s.cache, 50 * (n + 15)) && M.Runs(M.Steps(Flat(s), n + 1)) && !s.waiting
    ensures |Flat(s).mem| == MEMORY
  {
    hide Footprints.CodeIsClean, Tail.EndsAt, Tail.Fresh, M.Runs, M.Steps, Logical;
  }

  /** The end of a layer is such a stretch. */
  lemma {:induction false} EndIsFlushing(s: Sys, j: nat, n: nat, k: nat)
    requires Inv(s) && j <= k && BeginsTheEnd(Run(s, j), n) && Paging.Completed(Run(s, j), k - j) == n + 1
    ensures Flushing(s, j, n + 1, k)
  {
    hide *;
    BeginningMeans(Run(s, j), n);
    Tail.Standing(Run(s, j));
    Tail.EndIsStraight(Flat(Run(s, j)), n);
    Tail.StraightIsStretch(Run(s, j), n + 1);
    FlushingNow(s, j, n + 1, k);
  }

  lemma {:induction false} FlushingNow(s: Sys, j: nat, n: nat, k: nat)
    requires Inv(s) && j <= k && Stretch.IsStretch(Run(s, j), n) && Paging.Completed(Run(s, j), k - j) == n
    ensures Flushing(s, j, n, k)
  {
    hide Inv, Stretch.IsStretch, Run, Paging.Completed;
  }

  lemma {:induction false} WaitsLater(s: Sys, k: nat)
    requires Inv(s) && !s.waiting && Run(s, k).waiting
    ensures k > 0
  {
    hide Inv, Paging.Step;
  }

  /** At step `j` a stretch of `n` instructions begins that flushes the cache; by step
      `k` it is finished, and nothing has been stored since. */
  ghost predicate Flushing(s: Sys, j: nat, n: nat, k: nat)
    requires Inv(s)
  {
    && j <= k && Stretch.IsStretch(Run(s, j), n)
    && var done := Paging.Completed(Run(s, j), k - j);
       && n <= done
       && (forall i: nat | n <= i < done :: Flush.StoresNothing(M.Steps(Flat(Run(s, j)), i)))
  }

  /** Then nothing is left in the cache that the client has not got. */
  lemma {:induction false} FlushedIsWrittenBack(s: Sys, j: nat, n: nat, k: nat)
    requires Inv(s) && Flushing(s, j, n, k)
    ensures WriteBack(Run(s, k).cache, Run(s, k).ram) == M.Steps(Flat(s), Paging.Completed(s, k)).mem
  {
    hide *;
    FlushingMeans(s, j, n, k);
    RunOn(s, j, k - j);
    Stretch.StretchFlushes(Run(s, j), n, k - j);
    RunRefines(s, k);
  }

  lemma {:induction false} FlushingMeans(s: Sys, j: nat, n: nat, k: nat)
    requires Inv(s) && Flushing(s, j, n, k)
    ensures j <= k && Stretch.IsStretch(Run(s, j), n) && n <= Paging.Completed(Run(s, j), k - j)
    ensures forall i: nat | n <= i < Paging.Completed(Run(s, j), k - j) ::
      Flush.StoresNothing(M.Steps(Flat(Run(s, j)), i))
  {
    hide Inv, Flat, Stretch.IsStretch, Flush.StoresNothing, Run, Paging.Completed, M.Steps;
  }

  /** A tag names a line to write back unless it is one of the initial ones. */
  lemma HighTag(tag: Addr)
    ensures Line(tag) == HIGH <==> !InUse(tag)
    ensures Dirty(tag) <==> tag % 2 != 0
  {
  }

  lemma InUseLine(tag: Addr)
    ensures InUse(tag) ==> Line(tag) + LINE <= MEMORY
  {
  }

  lemma {:induction false} RunStarts(s: Sys)
    requires Inv(s)
    ensures Run(s, 0) == s && Run(s, 1) == Paging.Step(s)
  {
    hide Paging.Step, Inv;
  }

  /** A run may be cut in two. */
  lemma {:induction false} RunOn(s: Sys, k: nat, n: nat)
    requires Inv(s)
    ensures Run(Run(s, k), n) == Run(s, k + n)
    ensures k > 0 ==> Run(s, k) == Paging.Step(Run(s, k - 1))
  {
    hide Paging.Step, Inv;
    if n > 0 {
      RunOn(s, k, n - 1);
    }
  }

  lemma {:induction false} WorksOn(s: Sys, k: nat, fuel: nat)
    requires Inv(s) && Modelled(s) && Run(s, k).waiting
    ensures Works(Run(Run(s, k), 1), fuel)
  {
    hide Inv, Completes, Paging.Ready, Paging.Step, Modelled;
    var r := Run(Run(s, k), 1);
    forall j: nat | j < fuel && Finishes(r, j) ensures Paging.Ready(Run(r, j)) {
      WorksAt(s, k, j);
    }
  }

  lemma {:induction false} WorksAt(s: Sys, k: nat, j: nat)
    requires Inv(s) && Modelled(s) && Run(s, k).waiting && Finishes(Run(Run(s, k), 1), j)
    ensures Paging.Ready(Run(Run(Run(s, k), 1), j))
  {
    hide Inv, Completes, Paging.Ready, Paging.Step, Finishes, Run;
    RunOn(Run(s, k), 1, j);
    RunOn(s, k, 1 + j);
    Answered(Run(s, k));
    NotWaiting(Run(Run(s, k), 1), j);
  }

  lemma {:induction false} Answered(s: Sys)
    requires Inv(s) && s.waiting
    ensures !Run(s, 1).waiting
  {
    hide Inv, Exchange;
    RunStarts(s);
  }

  lemma {:induction false} NotWaiting(s: Sys, n: nat)
    requires Inv(s) && !s.waiting && Finishes(s, n)
    ensures !Run(s, n).waiting
  {
    hide Inv, Footprint, Paging.Ready;
    if n > 0 {
      assert Completes(Run(s, n - 1));
    }
  }
}
