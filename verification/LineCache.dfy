/** The five-line cache that the server keeps in front of the client's memory
    (server.c, sub_41da).  Everything here is a function on the cache's value;
    the class Server works in place and is proved equal to these functions. */
module LineCache {
  import opened Words

  const SLOTS := 5
  const LINE := 16
  const BUFFERS := SLOTS * LINE + 4  // five lines, and the four bytes a 0x56 request borrows
  const USABLE := 0xfff0             // from here on an address can match an initial tag

  /** data: the bytes at 0x4000; tags and ages: the words at 0x4054 and 0x405e;
      victim: the slot that BUF_ADDR and OFF_ADDR name; miss: NEW_OFF_SRC. */
  datatype Cache = Cache(data: seq<Byte>, tags: seq<Addr>, ages: seq<Addr>, victim: nat, miss: Addr)
  {
    predicate Shape() {
      |data| == BUFFERS && |tags| == SLOTS && |ages| == SLOTS && victim < SLOTS
    }
  }

  /** The address of the line that holds a byte. */
  function Line(a: Addr): Addr {
    a - a % LINE
  }

  /** A tag is a line address with the dirty flag in bit 0. */
  function Base(tag: Addr): Addr {
    tag - tag % 2
  }

  predicate Dirty(tag: Addr) {
    tag % 2 == 1
  }

  function Mark(tag: Addr): Addr {
    Base(tag) + 1
  }

  /** The first slot from `from` on whose tag matches, or SLOTS. */
  function Slot(tags: seq<Addr>, a: Addr, from: nat := 0): (s: nat)
    requires |tags| == SLOTS && from <= SLOTS
    ensures from <= s <= SLOTS
    ensures s < SLOTS ==> Base(tags[s]) == Line(a)
    ensures forall i | from <= i < s :: Base(tags[i]) != Line(a)
    decreases SLOTS - from
  {
    if from == SLOTS || Base(tags[from]) == Line(a) then from else Slot(tags, a, from + 1)
  }

  predicate Resident(c: Cache, a: Addr)
    requires c.Shape()
  {
    Slot(c.tags, a) < SLOTS
  }

  /** Every look-up makes every line one older; the counters are 16 bits wide. */
  function Older(ages: seq<Addr>): seq<Addr>
    requires |ages| == SLOTS
  {
    seq(SLOTS, i requires 0 <= i < SLOTS => Tick(ages[i]))
  }

  function Tick(age: Addr): Addr {
    (age + 1) % 0x1_0000
  }

  datatype Candidate = Candidate(slot: nat, age: Addr)

  /** The candidate that the scan holds after looking at `n` slots.  A dirty
      line raises the bar to 0xffff for every later slot. */
  function Scan(tags: seq<Addr>, ages: seq<Addr>, n: nat): (k: Candidate)
    requires |tags| == SLOTS && |ages| == SLOTS && n <= SLOTS
    ensures k.slot < SLOTS
  {
    if n == 0 then Candidate(0, ages[0])
    else
      var before := Scan(tags, ages, n - 1);
      var k := if before.age <= ages[n - 1] then Candidate(n - 1, ages[n - 1]) else before;
      if Dirty(tags[n - 1]) then k.(age := 0xffff) else k
  }

  function Victim(tags: seq<Addr>, ages: seq<Addr>): (v: nat)
    requires |tags| == SLOTS && |ages| == SLOTS
    ensures v < SLOTS
  {
    Scan(tags, ages, SLOTS).slot
  }

  datatype Outcome = Hit(cache: Cache, slot: nat) | Miss(cache: Cache)

  /** One look-up (sub_41da): a hit rejuvenates its line, and marks it dirty
      when the access writes; a miss chooses the victim and gives up. */
  function Touch(c: Cache, a: Addr, write: bool): (o: Outcome)
    requires c.Shape()
    ensures o.cache.Shape() && o.cache.data == c.data
    ensures o.Hit? <==> Resident(c, a)
    ensures o.Hit? ==> o.slot == Slot(c.tags, a)
  {
    var ages := Older(c.ages);
    var s := Slot(c.tags, a);
    if s < SLOTS then
      Hit(c.(ages := ages[s := 0], tags := if write then c.tags[s := Mark(c.tags[s])] else c.tags), s)
    else
      var v := Victim(c.tags, ages);
      Miss(c.(ages := ages[v := 0], victim := v, miss := a))
  }

  // ---------------------------------------------------------------- the victim rule

  /** The first dirty slot from `from` on, or SLOTS. */
  function FirstDirty(tags: seq<Addr>, from: nat := 0): (d: nat)
    requires |tags| == SLOTS && from <= SLOTS
    ensures from <= d <= SLOTS
    ensures d < SLOTS ==> Dirty(tags[d])
    ensures forall i | from <= i < d :: !Dirty(tags[i])
    decreases SLOTS - from
  {
    if from == SLOTS || Dirty(tags[from]) then from else FirstDirty(tags, from + 1)
  }

  /** The last slot that can be chosen: the first dirty one, or the last of all. */
  function Reach(tags: seq<Addr>): (r: nat)
    requires |tags| == SLOTS
    ensures r < SLOTS
  {
    var d := FirstDirty(tags);
    if d < SLOTS then d else SLOTS - 1
  }

  /** What the scan computes, as long as no counter stands at 0xffff: the oldest
      line among those up to and including the first dirty one, and of equally
      old ones the last.  Slots behind the first dirty line are never chosen. */
  lemma VictimIsOldestUpToFirstDirty(tags: seq<Addr>, ages: seq<Addr>)
    requires |tags| == SLOTS && |ages| == SLOTS
    requires forall i | 0 <= i < SLOTS :: ages[i] < 0xffff
    ensures var v := Victim(tags, ages);
      && v <= Reach(tags)
      && (forall i | 0 <= i <= Reach(tags) :: ages[i] <= ages[v])
      && (forall i | v < i <= Reach(tags) :: ages[i] < ages[v])
  {
    var r := Reach(tags);
    ScanUpTo(tags, ages, r);
    assert Scan(tags, ages, r + 1).slot ==
      (if Scan(tags, ages, r).age <= ages[r] then r else Scan(tags, ages, r).slot);
    if FirstDirty(tags) < SLOTS {
      ScanStopped(tags, ages, r + 1, SLOTS);
    }
  }

  lemma {:induction false} ScanUpTo(tags: seq<Addr>, ages: seq<Addr>, n: nat)
    requires |tags| == SLOTS && |ages| == SLOTS && n <= SLOTS
    requires forall i | 0 <= i < n :: !Dirty(tags[i])
    ensures var k := Scan(tags, ages, n);
      && k.age == ages[k.slot] && (n == 0 || k.slot < n)
      && (forall i | 0 <= i < n :: ages[i] <= k.age)
      && (forall i | k.slot < i < n :: ages[i] < k.age)
  {
    if n > 0 {
      ScanUpTo(tags, ages, n - 1);
    }
  }

  lemma {:induction false} ScanStopped(tags: seq<Addr>, ages: seq<Addr>, from: nat, n: nat)
    requires |tags| == SLOTS && |ages| == SLOTS && from <= n <= SLOTS
    requires forall i | 0 <= i < SLOTS :: ages[i] < 0xffff
    requires Scan(tags, ages, from).age == 0xffff
    ensures Scan(tags, ages, n) == Scan(tags, ages, from)
  {
    if from < n {
      ScanStopped(tags, ages, from, n - 1);
    }
  }

  // ---------------------------------------------------------------- the memory behind it

  const MEMORY := 0x1_0000

  /** The byte the machine sees at an address: the cached one if its line is
      cached, else the client's. */
  function At(c: Cache, ram: seq<Byte>, a: Addr): Byte
    requires c.Shape() && |ram| == MEMORY
  {
    var s := Slot(c.tags, a);
    if a < USABLE && s < SLOTS then c.data[LINE * s + a % LINE] else ram[a]
  }

  function Logical(c: Cache, ram: seq<Byte>): (mem: seq<Byte>)
    requires c.Shape() && |ram| == MEMORY
    ensures |mem| == MEMORY
    ensures forall a: Addr :: mem[a] == At(c, ram, a)
  {
    seq(MEMORY, a requires 0 <= a < MEMORY => At(c, ram, a))
  }

  function LineData(c: Cache, s: nat): (d: seq<Byte>)
    requires c.Shape() && s < SLOTS
    ensures |d| == LINE
  {
    c.data[LINE * s .. LINE * s + LINE]
  }

  /** `mem` with the bytes `s` written at `a`. */
  function Splice(mem: seq<Byte>, a: nat, s: seq<Byte>): (r: seq<Byte>)
    requires a + |s| <= |mem|
    ensures |r| == |mem|
    ensures forall i | 0 <= i < |mem| :: r[i] == if a <= i < a + |s| then s[i - a] else mem[i]
  {
    mem[..a] + s + mem[a + |s| ..]
  }

  /** A slot in use: its tag is a line below USABLE, with or without the flag. */
  predicate InUse(tag: Addr) {
    tag < USABLE
  }

  /** The tags in use are lines, each in one slot only. */
  predicate Sound(tags: seq<Addr>) {
    && |tags| == SLOTS
    && (forall i | 0 <= i < SLOTS && InUse(tags[i]) :: tags[i] % LINE < 2)
    && (forall i, j | 0 <= i < SLOTS && 0 <= j < SLOTS && i != j && InUse(tags[i]) ::
         Base(tags[i]) != Base(tags[j]))
  }

  /** Sound tags, and clean lines equal to the client's memory. */
  predicate Coherent(c: Cache, ram: seq<Byte>) {
    && c.Shape() && |ram| == MEMORY && Sound(c.tags)
    && (forall i | 0 <= i < SLOTS && InUse(c.tags[i]) && !Dirty(c.tags[i]) ::
         LineData(c, i) == ram[c.tags[i] .. c.tags[i] + LINE])
  }

  /** Writing the victim back (client.c, after 0x56). */
  function WriteBack(c: Cache, ram: seq<Byte>): (r: seq<Byte>)
    requires c.Shape() && |ram| == MEMORY
    ensures |r| == MEMORY
  {
    var tag := c.tags[c.victim];
    if InUse(tag) && Dirty(tag) then Splice(ram, Line(tag), LineData(c, c.victim)) else ram
  }

  /** Installing a line in the victim's slot (server.c, 0x51). */
  function Install(c: Cache, line: Addr, bytes: seq<Byte>): (r: Cache)
    requires c.Shape() && |bytes| == LINE
    ensures r.Shape()
  {
    c.(tags := c.tags[c.victim := line], data := Splice(c.data, LINE * c.victim, bytes))
  }

  /** What 0x56, the write-back and 0x51 do together for the missing line. */
  function Exchange(c: Cache, ram: seq<Byte>): (r: (Cache, seq<Byte>))
    requires c.Shape() && |ram| == MEMORY
    ensures r.0.Shape() && |r.1| == MEMORY
  {
    var ram' := WriteBack(c, ram);
    var line := Line(c.miss);
    (Install(c, line, ram'[line .. line + LINE]), ram')
  }

  /** Storing bytes inside a cached line, after the look-up has marked it. */
  function StoreAt(c: Cache, slot: nat, offset: nat, bytes: seq<Byte>): (r: Cache)
    requires c.Shape() && slot < SLOTS && offset + |bytes| <= LINE
    ensures r.Shape()
  {
    c.(data := Splice(c.data, LINE * slot + offset, bytes))
  }

  // ---------------------------------------------------------------- transparency

  lemma SameLogical(c: Cache, c': Cache, ram: seq<Byte>, ram': seq<Byte>)
    requires c.Shape() && c'.Shape() && |ram| == |ram'| == MEMORY
    requires forall a: Addr :: At(c, ram, a) == At(c', ram', a)
    ensures Logical(c, ram) == Logical(c', ram')
  {
    var m, m' := Logical(c, ram), Logical(c', ram');
    forall i | 0 <= i < MEMORY ensures m[i] == m'[i] {
      var a: Addr := i;
      assert m[a] == At(c, ram, a) && m'[a] == At(c', ram', a);
    }
  }

  /** Tags that differ only in dirty flags find the same slots. */
  lemma {:induction false} SlotSameBases(tags: seq<Addr>, tags': seq<Addr>, a: Addr, from: nat)
    requires |tags| == |tags'| == SLOTS && from <= SLOTS
    requires forall i | 0 <= i < SLOTS :: Base(tags[i]) == Base(tags'[i])
    ensures Slot(tags, a, from) == Slot(tags', a, from)
    decreases SLOTS - from
  {
    if from < SLOTS {
      SlotSameBases(tags, tags', a, from + 1);
    }
  }

  lemma Marked(t: Addr)
    ensures Base(Mark(t)) == Base(t) && Dirty(Mark(t))
    ensures InUse(Mark(t)) <==> InUse(t)
    ensures t % LINE < 2 ==> Mark(t) % LINE < 2
  {
  }

  /** Marking a line dirty changes nothing else. */
  lemma MarkIsTransparent(c: Cache, c': Cache, ram: seq<Byte>, s: nat)
    requires Coherent(c, ram) && s < SLOTS && c'.Shape() && c'.data == c.data
    requires c'.tags == c.tags || c'.tags == c.tags[s := Mark(c.tags[s])]
    ensures Coherent(c', ram) && Logical(c', ram) == Logical(c, ram)
  {
    hide Mark, Logical, Slot, At;
    Marked(c.tags[s]);
    assert forall i | 0 <= i < SLOTS :: Base(c'.tags[i]) == Base(c.tags[i]);
    forall b: Addr ensures At(c, ram, b) == At(c', ram, b) {
      SlotSameBases(c.tags, c'.tags, b, 0);
      SameAt(c, c', ram, b);
    }
    SameLogical(c, c', ram, ram);
  }

  lemma {:induction false} SameAt(c: Cache, c': Cache, ram: seq<Byte>, b: Addr)
    requires c.Shape() && c'.Shape() && c'.data == c.data && |ram| == MEMORY
    requires Slot(c.tags, b) == Slot(c'.tags, b)
    ensures At(c, ram, b) == At(c', ram, b)
  {
    hide Slot;
  }

  /** No look-up, hit or miss, changes the memory the machine sees. */
  lemma TouchIsTransparent(c: Cache, ram: seq<Byte>, a: Addr, write: bool)
    requires Coherent(c, ram)
    ensures Coherent(Touch(c, a, write).cache, ram)
    ensures Logical(Touch(c, a, write).cache, ram) == Logical(c, ram)
  {
    var s := Slot(c.tags, a);
    MarkIsTransparent(c, Touch(c, a, write).cache, ram, if s < SLOTS then s else 0);
  }

  lemma LineOf(a: Addr, l: Addr)
    requires l % LINE == 0 && l <= a < l + LINE
    ensures Line(a) == l && a % LINE == a - l
  {
  }

  /** In a coherent cache a matching slot is the one that the search finds. */
  lemma {:induction false} SlotFound(c: Cache, ram: seq<Byte>, a: Addr, s: nat)
    requires Coherent(c, ram) && a < USABLE && s < SLOTS && Base(c.tags[s]) == Line(a)
    ensures Slot(c.tags, a) == s && InUse(c.tags[s])
  {
    var t := Slot(c.tags, a);
    assert InUse(c.tags[t]) && InUse(c.tags[s]) by {
      UsableLine(a);
    }
  }

  lemma UsableLine(a: Addr)
    requires a < USABLE
    ensures Line(a) % LINE == 0 && Line(a) + LINE <= USABLE
    ensures forall t: Addr | Base(t) == Line(a) :: InUse(t)
  {
  }

  /** A store into a marked line changes exactly the stored bytes. */
  lemma {:induction false} StoreIsSplice(c: Cache, ram: seq<Byte>, a: Addr, bytes: seq<Byte>)
    requires Coherent(c, ram) && a < USABLE && a % LINE + |bytes| <= LINE
    requires Resident(c, a) && Dirty(c.tags[Slot(c.tags, a)])
    ensures var c' := StoreAt(c, Slot(c.tags, a), a % LINE, bytes);
      Coherent(c', ram) && Logical(c', ram) == Splice(Logical(c, ram), a, bytes)
  {
    var s := Slot(c.tags, a);
    var c' := StoreAt(c, s, a % LINE, bytes);
    forall i | 0 <= i < SLOTS && i != s ensures LineData(c', i) == LineData(c, i) {
    }
    var m, m' := Splice(Logical(c, ram), a, bytes), Logical(c', ram);
    forall i | 0 <= i < MEMORY ensures m[i] == m'[i] {
      var b: Addr := i;
      assert m'[b] == At(c', ram, b) && Logical(c, ram)[b] == At(c, ram, b);
      StoreKeepsByte(c, ram, a, bytes, b);
    }
  }

  lemma {:induction false} StoreKeepsByte(c: Cache, ram: seq<Byte>, a: Addr, bytes: seq<Byte>, b: Addr)
    requires Coherent(c, ram) && a < USABLE && a % LINE + |bytes| <= LINE && Resident(c, a)
    ensures At(StoreAt(c, Slot(c.tags, a), a % LINE, bytes), ram, b) ==
      if a <= b < a + |bytes| then bytes[b - a] else At(c, ram, b)
  {
    hide Splice, Slot;
    var s, t := Slot(c.tags, a), Slot(c.tags, b);
    if a <= b < a + |bytes| {
      UsableLine(a);
      LineOf(b, Line(a));
      SlotFound(c, ram, b, s);
    } else if t == s && b < USABLE {
      assert b % LINE - a % LINE == b - a;
    }
  }

  /** A miss, the 0x56 request, the write-back and the 0x51 request together
      change no byte of the memory the machine sees, keep the tags distinct and
      the clean lines equal to the client's memory, and make the missing line
      resident. */
  lemma ExchangeIsTransparent(c: Cache, ram: seq<Byte>)
    requires Coherent(c, ram) && c.miss < USABLE && !Resident(c, c.miss)
    ensures var (c', ram') := Exchange(c, ram);
      && Coherent(c', ram') && Logical(c', ram') == Logical(c, ram)
      && Resident(c', c.miss) && c'.tags == c.tags[c.victim := Line(c.miss)]
  {
    var (c', ram') := Exchange(c, ram);
    ExchangeIsCoherent(c, ram);
    forall b: Addr ensures At(c, ram, b) == At(c', ram', b) {
      ExchangeKeepsByte(c, ram, b);
    }
    SameLogical(c, c', ram, ram');
    SlotFound(c', ram', c.miss, c.victim);
  }

  lemma ExchangeIsCoherent(c: Cache, ram: seq<Byte>)
    requires Coherent(c, ram) && c.miss < USABLE && !Resident(c, c.miss)
    ensures Coherent(Exchange(c, ram).0, Exchange(c, ram).1)
  {
    var (c', ram') := Exchange(c, ram);
    var v, line := c.victim, Line(c.miss);
    LineIsClean(c.miss);
    assert LineData(c', v) == ram'[line .. line + LINE];
    forall i | 0 <= i < SLOTS && i != v
      ensures c'.tags[i] == c.tags[i] && Base(c.tags[i]) != line
      ensures InUse(c.tags[i]) ==> Base(c.tags[i]) != Base(c.tags[v])
      ensures InUse(c.tags[i]) && !Dirty(c.tags[i]) ==>
        LineData(c', i) == ram'[c.tags[i] .. c.tags[i] + LINE]
    {
      OtherLineKept(c, ram, i);
    }
  }

  lemma LineIsClean(a: Addr)
    requires a < USABLE
    ensures Base(Line(a)) == Line(a) && !Dirty(Line(a)) && InUse(Line(a)) && Line(a) % LINE == 0
  {
  }

  lemma InstallElsewhere(c: Cache, i: nat, line: Addr, bytes: seq<Byte>)
    requires c.Shape() && i < SLOTS && i != c.victim && |bytes| == LINE
    ensures LineData(Install(c, line, bytes), i) == LineData(c, i)
  {
    hide Splice;
  }

  lemma OtherLineKept(c: Cache, ram: seq<Byte>, i: nat)
    requires Coherent(c, ram) && i < SLOTS && i != c.victim
    ensures LineData(Exchange(c, ram).0, i) == LineData(c, i)
    ensures InUse(c.tags[i]) ==> Base(c.tags[i]) != Base(c.tags[c.victim])
    ensures InUse(c.tags[i]) && !Dirty(c.tags[i]) ==>
      LineData(c, i) == WriteBack(c, ram)[c.tags[i] .. c.tags[i] + LINE]
  {
    InstallElsewhere(c, i, Line(c.miss), WriteBack(c, ram)[Line(c.miss) .. Line(c.miss) + LINE]);
    hide Splice, Slot, WriteBack, Install, LineData;
    if InUse(c.tags[i]) && !Dirty(c.tags[i]) {
      CleanTag(c.tags[i]);
      hide Dirty, Base;
      WriteBackElsewhere(c, ram, c.tags[i]);
    }
  }

  lemma CleanTag(t: Addr)
    requires t % LINE < 2 && !Dirty(t)
    ensures t % LINE == 0 && Base(t) == t
  {
  }

  /** Writing the victim back leaves every other line's memory alone. */
  lemma WriteBackElsewhere(c: Cache, ram: seq<Byte>, l: Addr)
    requires Coherent(c, ram) && l % LINE == 0 && l < USABLE && l != Base(c.tags[c.victim])
    ensures WriteBack(c, ram)[l .. l + LINE] == ram[l .. l + LINE]
  {
    hide Splice, LineData, Line, Base;
    var tag := c.tags[c.victim];
    if InUse(tag) && Dirty(tag) {
      LineOfTag(tag);
      SpliceElsewhere(ram, Base(tag), LineData(c, c.victim), l);
    }
  }

  lemma LineOfTag(tag: Addr)
    requires tag % LINE < 2
    ensures Line(tag) == Base(tag) && Base(tag) % LINE == 0 && Base(tag) + LINE <= MEMORY
  {
    var h, r := tag / LINE, tag % LINE;
    assert tag == 2 * (8 * h) + r;
    EvenPart(8 * h, r);
  }

  lemma EvenPart(k: nat, r: nat)
    requires r < 2
    ensures (2 * k + r) % 2 == r
  {
  }

  lemma SpliceElsewhere(mem: seq<Byte>, a: nat, s: seq<Byte>, l: nat)
    requires |s| == LINE && a + LINE <= |mem| && l + LINE <= |mem|
    requires a % LINE == l % LINE == 0 && a != l
    ensures Splice(mem, a, s)[l .. l + LINE] == mem[l .. l + LINE]
  {
    assert l + LINE <= a || a + LINE <= l;
  }

  lemma ExchangeKeepsByte(c: Cache, ram: seq<Byte>, b: Addr)
    requires Coherent(c, ram) && c.miss < USABLE && !Resident(c, c.miss)
    ensures At(c, ram, b) == At(Exchange(c, ram).0, Exchange(c, ram).1, b)
  {
    hide At, Exchange, Slot, Line, Base, LineData;
    var s := Slot(c.tags, b);
    if b >= USABLE {
      HighByte(c, ram, b);
    } else if s < SLOTS && s != c.victim {
      OtherByte(c, ram, b);
    } else if Line(b) == Line(c.miss) {
      MissingByte(c, ram, b);
    } else {
      EvictedByte(c, ram, b);
    }
  }

  lemma HighByte(c: Cache, ram: seq<Byte>, b: Addr)
    requires Coherent(c, ram) && b >= USABLE
    ensures At(c, ram, b) == At(Exchange(c, ram).0, Exchange(c, ram).1, b)
  {
    WriteBackBelow(c, ram, b);
  }

  /** A byte that is not cached afterwards, because its line was the victim or
      was not cached before. */
  lemma {:induction false} EvictedByte(c: Cache, ram: seq<Byte>, b: Addr)
    requires Coherent(c, ram) && c.miss < USABLE && b < USABLE
    requires Slot(c.tags, b) in {c.victim, SLOTS} && Line(b) != Line(c.miss)
    ensures At(c, ram, b) == At(Exchange(c, ram).0, Exchange(c, ram).1, b)
  {
    NowAbsent(c, ram, b);
    hide Exchange, Coherent, Slot, Line;
    if Slot(c.tags, b) == c.victim {
      VictimByte(c, ram, b);
    } else {
      WriteBackByte(c, ram, b);
    }
  }

  lemma {:induction false} NowAbsent(c: Cache, ram: seq<Byte>, b: Addr)
    requires Coherent(c, ram) && c.miss < USABLE && b < USABLE
    requires Slot(c.tags, b) in {c.victim, SLOTS} && Line(b) != Line(c.miss)
    ensures Exchange(c, ram).1 == WriteBack(c, ram) && Slot(Exchange(c, ram).0.tags, b) == SLOTS
  {
    hide WriteBack, Splice;
    LineIsClean(c.miss);
    var tags, t := Exchange(c, ram).0.tags, Slot(c.tags, b);
    assert tags == c.tags[c.victim := Line(c.miss)];
    if t == c.victim {
      forall i | 0 <= i < SLOTS && i != t ensures Base(c.tags[i]) != Line(b) {
        OnlySlot(c, ram, b, i);
      }
    }
  }

  lemma {:induction false} OnlySlot(c: Cache, ram: seq<Byte>, b: Addr, i: nat)
    requires Coherent(c, ram) && b < USABLE && i < SLOTS && i != Slot(c.tags, b)
    ensures Base(c.tags[i]) != Line(b)
  {
    if Base(c.tags[i]) == Line(b) {
      SlotFound(c, ram, b, i);
    }
  }

  lemma {:induction false} OtherByte(c: Cache, ram: seq<Byte>, b: Addr)
    requires Coherent(c, ram) && c.miss < USABLE && !Resident(c, c.miss) && b < USABLE
    requires Resident(c, b) && Slot(c.tags, b) != c.victim
    ensures At(c, ram, b) == At(Exchange(c, ram).0, Exchange(c, ram).1, b)
  {
    ExchangeIsCoherent(c, ram);
    var (c', ram') := Exchange(c, ram);
    var s, o := Slot(c.tags, b), b % LINE;
    SlotFound(c', ram', b, s);
    OtherLineKept(c, ram, s);
    assert LineData(c', s)[o] == LineData(c, s)[o];
  }

  lemma MissingByte(c: Cache, ram: seq<Byte>, b: Addr)
    requires Coherent(c, ram) && c.miss < USABLE && !Resident(c, c.miss) && b < USABLE
    requires Line(b) == Line(c.miss)
    ensures At(c, ram, b) == At(Exchange(c, ram).0, Exchange(c, ram).1, b)
  {
    ExchangeIsCoherent(c, ram);
    var (c', ram') := Exchange(c, ram);
    var v, l, o := c.victim, Line(b), b % LINE;
    LineIsClean(c.miss);
    SlotFound(c', ram', b, v);
    assert LineData(c', v)[o] == ram'[l .. l + LINE][o];
    WriteBackByte(c, ram, b);
  }

  lemma WriteBackByte(c: Cache, ram: seq<Byte>, b: Addr)
    requires Coherent(c, ram) && b < USABLE && !Resident(c, b)
    ensures WriteBack(c, ram)[b] == ram[b]
  {
    var l, o := Line(b), b % LINE;
    UsableLine(b);
    WriteBackElsewhere(c, ram, l);
    assert WriteBack(c, ram)[l .. l + LINE][o] == ram[l .. l + LINE][o];
  }

  lemma WriteBackBelow(c: Cache, ram: seq<Byte>, b: Addr)
    requires Coherent(c, ram) && b >= USABLE
    ensures WriteBack(c, ram)[b] == ram[b]
  {
    var tag := c.tags[c.victim];
    if InUse(tag) {
      UsableLine(tag);
    }
  }

  /** After the write-back the client's memory holds the victim's bytes. */
  lemma {:induction false} VictimByte(c: Cache, ram: seq<Byte>, b: Addr)
    requires Coherent(c, ram) && b < USABLE && Slot(c.tags, b) == c.victim
    ensures WriteBack(c, ram)[b] == At(c, ram, b)
  {
    hide Splice, Slot;
    var v, l, o := c.victim, Line(b), b % LINE;
    var tag := c.tags[v];
    assert InUse(tag) && Line(tag) == l by {
      UsableLine(b);
      LineOf(tag, l);
    }
    assert LineData(c, v)[o] == c.data[LINE * v + o];
    if !Dirty(tag) {
      assert ram[l .. l + LINE][o] == ram[b];
    }
  }
}
