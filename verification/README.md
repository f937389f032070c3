# The webcam machine of the SSTIC 2012 challenge, verified

The challenge hides a program behind three machines, and this project models what
its published solution reconstructs of them.

* A virtual machine runs in the firmware of a webcam. Its instructions are a stream of
  bits without alignment; its 64 KB of memory lie in the *client*, and the firmware keeps
  five lines of sixteen bytes. An instruction that misses is abandoned in the middle, the
  client fetches the victim, writes it back, sends the missing line, and the instruction
  starts again (`server.c`, `client.c`).
* A disassembler and decompiler turn the same bit stream into C (`vmdisas.rb`), and three
  programs were decompiled with it (`bflayer1.c`, `bflayer2.c`, `bflayer3.c`).
* A differential attack recovers a DES key from a white box (`reverse.py`), and an
  emulator of the firmware's CY16 processor has a table-driven arithmetic unit
  (`alu.rb`, `metaemul.rb`).

## How it is built

| modules | what they are |
|---|---|
| Words, WordNumbers, Powers, Options, Bitstream, Instructions, Encoding, Obfuscation, CalcObf | data, words as numbers, the bit stream, the instruction format and its inverse, the mask of obfuscated variables in the server and in the programs |
| Machine, Meaning | the virtual machine over flat memory: what an instruction looks up, in order, and what it does; and that bit by bit |
| LineCache, Paging | the five lines on values; server and client as a step machine, and its refinement of the flat machine |
| Progress, Wraparound, Livelock, Footprints, Liveness, Trapped | when instructions get through, when they do not, and a program that does not |
| Flush, Stretch, Tail, SmallLayer | how dirty lines get back to the client, by which code, at the end of each layer, and in a program run from the start |
| Lookups, Attempts, Server, Client | the same in place: the server's arrays and the client's loop as classes, proved equal to the step machine |
| Decoder, GotoC, Decompiler, Simulation | the disassembler as a class, the C that it emits, and the simulation theorem |
| Adder, Binary, WordBits, Ram, Programs, Layer1, Layer2, Layer3, NextLayer | the layers: the adder macro, words as numbers, memory with masked cells, every statement of the three programs, and what the client makes of their results |
| Des, DesTables, Boxes, Deciphering, KeySchedule, FirstRound | DES as the script writes it, the laws of its selection functions, its inverse, its key schedule, and the attack on the first round |
| Alu, Cy16 | the ripple adder, the flag word, branches and the interrupt stack |

Methods that change state are proved against functions on values, and the results are
proved about those functions.

## Model

| member | source | states |
|---|---|---|
| `LineCache.VictimIsOldestUpToFirstDirty` | part2a_rom/code/reverse_ssticrypt/server.c:593-609 | The victim scan returns the oldest line among the slots up to and including the first dirty one, the last of equally old ones; a slot behind the first dirty line is never chosen. Holds whenever no counter stands at 0xffff. |
| `LineCache.TouchIsTransparent` | part2a_rom/code/reverse_ssticrypt/server.c:579-638 | A look-up, hit or miss, reading or writing, changes no byte of the memory the machine sees, and keeps the tags distinct and the clean lines equal to the client's memory. |
| `LineCache.StoreIsSplice` | part2a_rom/code/reverse_ssticrypt/server.c:476-502 | Bytes stored through a look-up that marked its line change exactly those bytes of the logical memory. |
| `LineCache.ExchangeIsTransparent` | part2a_rom/code/reverse_ssticrypt/client.c:194-214 | A miss, the 0x56 request, the write-back and the 0x51 request together leave every byte of the logical memory as it was, keep the cache coherent, and make the missing line resident in the victim's slot. |
| `Paging.BootIsCoherent` | part2a_rom/code/reverse_ssticrypt/server.c:156-194 | The state set up by do_server_init is coherent: none of its five tags stands for a line, and the machine sees exactly the client's memory. |
| `Paging.StoreCannotMiss` | part2a_rom/code/reverse_ssticrypt/server.c:833-857 | After the reads of one attempt have hit, the store of save_dest cannot miss, and it has exactly the flat effect. |
| `Paging.StepRefines` | part2a_rom/code/reverse_ssticrypt/server.c:626-637 | Precise restart: an attempt that misses, and an exchange, leave registers, flags, program counter and every logical byte unchanged; an attempt that does not miss is exactly one step of the flat machine. |
| `Paging.RunRefines` | part2a_rom/code/reverse_ssticrypt/server.c:1374-1634 | Cache transparency over every run: after any number of steps of server and client the registers, flags, position and logical memory are those of the flat machine after as many steps as instructions were finished. |
| `Machine.RelativeJumpMovesExactly` | part2a_rom/code/reverse_ssticrypt/server.c:1578-1602 | A relative jump moves the bit position by exactly 8 n + bits, forwards or backwards, modulo the 2^19 bits of the address space. |
| `Meaning.DestinationBits` | part2a_rom/code/reverse_ssticrypt/server.c:1421-1515 | What an instruction computes, bit by bit over a step of the machine: after `and`, `or`, `neg`, a shift or `mov` whose condition holds, bit k of the destination is what the operator makes of the bits of the operands, for every operand, masked or not; a byte destination takes eight bits, and a register keeps its upper ones. |
| `Meaning.FlagBits` | part2a_rom/code/reverse_ssticrypt/server.c:1436-1487 | Every bit of the flag word after a step: `and` and `or` set only the zero flag of their bank, `neg` replaces the bank by zero and sign, a shift by zero, always set, and the last bit shifted out; what updates no flags or is not carried out leaves all of them. |
| `Meaning.RestStays` | part2a_rom/code/reverse_ssticrypt/server.c:1618-1634 | Nothing else changes: the position moves on by the length of the instruction, the other registers stay, and memory changes at most in the one or two bytes of a destination in memory. |
| `Meaning.JumpGoes` | part2a_rom/code/reverse_ssticrypt/server.c:1541-1606 | A jump whose condition holds goes 8 n + bits forwards or backwards, to a constant byte and bit, or to the position that its operand holds as a number; it changes nothing else. |
| `Meaning.ConditionIs` | part2a_rom/code/reverse_ssticrypt/server.c:90-129 | The sixteen condition codes as relations on the zero, carry, overflow and sign bits of the selected bank of the flag word. |
| `Meaning.OperandReads` | part2a_rom/code/reverse_ssticrypt/server.c:966-1032 | What an operand reads: a register, a constant, or, in integers, the byte or the two bytes (the second times 256) at the address that register and constant make, for an obfuscated operand under its mask. |
| `Meaning.SavedIsLoaded` | part2a_rom/code/reverse_ssticrypt/server.c:833-857 | Store, then load: after save_dest the operand holds the value that was saved, plain or obfuscated, for every value and memory; a byte operand holds its low byte. |
| `Meaning.ReadIs` | part2a_rom/code/reverse_ssticrypt/server.h:13 | A word read at a is mem[a] + 256 mem[a + 1]. |
| `Obfuscation.MaskIs` | part2a_rom/code/reverse_ssticrypt/server.c:1748-1766 | The mask without its loop: from 1041 key ^ 0x464d and address ^ 0x6c38 as numbers, register + 2 turns (twice plus the top bit, plus two; a quarter plus 2^14 times the two low bits, plus the first; modulo 2^16), and the exclusive or of the four bytes after the last two turns side by side. |
| `Obfuscation.TurnedBack` | part2a_rom/code/reverse_ssticrypt/server.c:1755-1760 | A turn is undone by the opposite rotations, so it loses nothing. |
| `Obfuscation.MaskExample` | part2b_vm/layer3/bflayer3.c:65-90 | The mask of layer 3 for the word at 0xa010 is 0x2965. |
| `CalcObf.CalcObfIsMask` | part2b_vm/layer2/bflayer2.c:67-90 | calc_obf of the decompiled programs, with its own loop, gives the server's masks. |
| `Server.Server.constructor` | part2a_rom/code/reverse_ssticrypt/server.c:173-190 | The server object built from the ROM is, for every client memory, the start state of the step machine. |
| `Server.Server.Lookup` | part2a_rom/code/reverse_ssticrypt/server.c:579-638 | The in-place look-up (ages, scan, dirty mark, restart registers) is the look-up function on the cache's value; on a miss the program counter is the saved one. |
| `Server.Server.ReadNBits` | part2a_rom/code/reverse_ssticrypt/server.c:731-772 | read_nbits looks up exactly the bytes of its field in order, and if none of them misses returns the number in the n bits at the current position, first bit highest, and moves on by n. |
| `Server.Server.DecodeOperand` | part2a_rom/code/reverse_ssticrypt/server.c:966-1032 | decode_operands consumes exactly the bits of the operand that stands there, makes its look-ups in order, and latches its kind, place, mask and value. |
| `Server.Server.SaveDest` | part2a_rom/code/reverse_ssticrypt/server.c:833-857 | save_dest changes registers, line data, tags and ages exactly as the effect of the operand on the cache says; an immediate destination is ignored. |
| `Server.Server.Attempt` | part2a_rom/code/reverse_ssticrypt/server.c:1374-1634 | One pass of do_instruction over the arrays is one step of the step machine: it finishes the instruction exactly if the step does, and otherwise has chosen the victim and restored the position. At a stop it moves on by nine bits or restarts, and the logical memory stays. |
| `Server.Server.DoInstruction` | part2a_rom/code/reverse_ssticrypt/server.c:1374-1389 | The instruction loop is a run of the step machine until a look-up misses. |
| `Server.Server.HandleReceive` | part2a_rom/code/reverse_ssticrypt/server.c:249-262 | A 0x51 request installs the sent line in the victim's slot and changes neither registers, flags nor position. |
| `Server.Server.HandleSend` | part2a_rom/code/reverse_ssticrypt/server.c:264-290 | A 0x56 request is neutral: it borrows four bytes behind the victim's buffer for tag and missing address, and when it is over all line data, tags, ages, registers and the restart point are what they were; the packet holds the line, its tag and the missing address. |
| `Client.Client.Round` | part2a_rom/code/reverse_ssticrypt/client.c:194-214 | One iteration of the paging loop keeps the invariant of its head: the server waits for the line that the client is about to send, and the last victim has been written back. |
| `Client.Client.Serve` | part2a_rom/code/reverse_ssticrypt/client.c:193-215 | The loop leaves only with the result flag set and address 0 missing; if the machine has by then finished a stretch of code that flushes the cache, and stored nothing since, the client's memory is exactly the flat machine's. |
| `Client.FlushedIsWrittenBack` | part2a_rom/code/reverse_ssticrypt/client.c:193-215 | The same without the objects: however long after such a stretch, writing the victim back leaves the client with the flat memory, as long as nothing has been stored since. |
| `Client.Client.LayerEnds` | part2a_rom/code/reverse_ssticrypt/client.c:193-215 | When the machine is about to run the fillers and the jump that end a layer, it gets back to address 0 and misses there; at that head of the loop the client's memory is the memory that the machine sees, and the loop is left exactly if the integer at 0x8000 is not zero. |
| `Client.EndIsFlushing` | part2b_vm/layer1/layer1.asm:260-305 | The end of a layer is a stretch of the kind that Serve asks for. |
| `Flush.AllGoneWhenDone` | part2a_rom/code/reverse_ssticrypt/server.c:593-632 | The cache seen as early lines, all older than the others and the only dirty ones: when code that reads no early line and stores nothing has read five lines that were not cached, no early line is left and none is dirty. |
| `Stretch.FirstInstruction` | part2a_rom/code/reverse_ssticrypt/server.c:593-632 | Where that begins: from any cache, an instruction that reads only its own clean code is finished after at most two misses, and then every other line in the cache is older than its code. |
| `Stretch.StretchFlushes` | part2a_rom/code/reverse_ssticrypt/server.c:593-632 | Flush on exit, asked of the code and of what is cached before it: an instruction that reads only its own clean code, then instructions that read only that and lines not cached, five of them at least, and no store; from then on, as long as nothing is stored, every line is clean and the client's memory is the logical memory. |
| `Tail.StraightIsStretch` | part2b_vm/layer2/layer2.decoded.asm:473-518 | Straight-line instructions over registers and constants, whose code covers at least six lines more than the one it begins in, are such a stretch, if none of those lines is cached. |
| `Tail.FreshIfUnread` | part2b_vm/layer2/layer2.decoded.asm:473-518 | Those lines are not cached if no instruction of the run so far has read them. |
| `Tail.EndFlushes` | part2b_vm/layer3/layer3.decoded.asm:216-261 | How all three layers end, at least 23 times `mov r0, 0xaa` under any condition and `jmp 0000:0`: the machine finishes it within 13463 steps an instruction, and then misses at address 0 with every line clean and the client's memory equal to the logical memory. |
| `SmallLayer.AnswerArrives` | part2a_rom/code/reverse_ssticrypt/client.c:193-215 | It does happen: a layer in miniature, run from the start whatever registers and flags hold, has its answer in a dirty line after five steps, with the client's memory as it was; when address 0 misses at its end the answer is in the client's memory, and no other byte has changed. |
| `Progress.RankDrops` | part2a_rom/code/reverse_ssticrypt/server.c:593-632 | Every miss lowers a measure made of the number of dirty lines, whether the first of them is cornered, and how far the attempt gets, unless a dirty line is interleaved with the footprint. |
| `Livelock.TrapLasts` | part2a_rom/code/reverse_ssticrypt/server.c:604-608 | If a line is interleaved in a footprint and dirty in slot 1, attempt after attempt misses, as long as no counter can have wrapped. |
| `Livelock.ProgressExactly` | part2a_rom/code/reverse_ssticrypt/server.c:585-632 | Exactly when a footprint of at most five lines is safe: it is read to its end, within a fixed number of misses and from every cache in which at most line x is dirty, if and only if x is not interleaved in it (counters that cannot wrap meanwhile). |
| `Footprints.InstructionProgressExactly` | part2a_rom/code/reverse_ssticrypt/server.c:966-1032 | The same for every instruction: its footprint fits into the five lines, it is safe exactly if x is not interleaved in it, and only a line of its own code can be. |
| `Footprints.MemoryToMemoryIsInterleaved` | part2a_rom/code/reverse_ssticrypt/server.c:1424-1449 | It does happen: a two-operand instruction on two memory places in different lines, with its code in a third, is interleaved by its code line and not safe. |
| `Wraparound.AlwaysEnds` | part2a_rom/code/reverse_ssticrypt/server.c:585-632 | Progress whatever the sixteen-bit counters say, wrap-around included: a footprint in which no dirty line is interleaved is read to its end after fewer than 6732 misses. |
| `Footprints.CleanCodeGetsThrough` | part2a_rom/code/reverse_ssticrypt/server.c:1384-1389 | In the running system, from every coherent state, an instruction none of whose code lines is dirty is finished after fewer than 6732 misses. |
| `Liveness.MakesProgress` | part2a_rom/code/reverse_ssticrypt/server.c:1374-1389 | Liveness over whole runs: the system finishes n instructions within 13463 n steps if none of them executes from a line that was dirty at the start or stored into before, and then stands where the flat machine does. |
| `Liveness.BootMakesProgress` | part2a_rom/code/reverse_ssticrypt/server.c:181-190 | The same from the start, where every counter stands at 0xffff. |
| `Trapped.LivelockFromStart` | part2a_rom/code/reverse_ssticrypt/server.c:593-632 | There is a program that, from the start and whatever registers and flags hold, finishes five instructions in 16 steps and is then in the trap: a thousand retries later the sixth is still not finished, although the flat machine finishes it in one step. |
| `Encoding.ParseIff` | part2a_rom/code/reverse_ssticrypt/server.c:966-1032 | Format and reader agree both ways: an instruction is read at a position exactly if the bits of its encoding stand there. |
| `Encoding.EncodedLength` | part2a_rom/code/reverse_ssticrypt/server.c:1374-1400 | The encoding of an instruction is as long as the number of bits the server consumes for it. |
| `Decoder.Decoder.ReadBits` | part2b_vm/vmdisas.rb:730-733 | read_bits takes n digits off the bit list and returns the number that the same bits have in the byte stream. |
| `Decoder.Decoder.DecodeInstruction` | part2b_vm/vmdisas.rb:650-677 | One instruction of the disassembler: either its fields are the ones in the stream, at the position where the last one ended, or its opcode is one that the disassembler refuses. |
| `Decoder.Decoder.Decode` | part2b_vm/vmdisas.rb:643-648 | The listing is a chain: every line starts where the one before ends and inside the stream, and the whole stream is covered. |
| `Decoder.ServerSplitsAlike` | part2a_rom/code/reverse_ssticrypt/server.c:1374-1420 | A line of the listing is the instruction that the server reads at its position from a memory that holds the stream, with the same length: both decoders split a stream alike. |
| `Decompiler.Compile` | part2b_vm/vmdisas.rb:735-748 | The labels and the goto statements that compile makes of a listing; it fails exactly if some line has no C form, condition code 14 included, for which to_s has no name. |
| `Decompiler.LabelIffDecoded` | part2b_vm/vmdisas.rb:735-745 | The label of a goto stands on exactly one line if its target is the position of a decoded line, and on none otherwise. |
| `Decompiler.RelativeJumpsAgree` | part2b_vm/vmdisas.rb:259-297 | The decompiler's target of a relative jump is the server's if and only if the jump does not go below position 0. |
| `Simulation.Decompile` | part2b_vm/vmdisas.rb:796-808 | Disassembling and compiling a stream of at most 8192 bytes gives a program to which the simulation theorem applies. |
| `Simulation.GuardAgrees` | part2b_vm/vmdisas.rb:88-103 | A condition over flags that are kept as the server keeps them holds in the goto program exactly if it holds in the server. |
| `Simulation.ShiftZeroAgreesExactly` | part2a_rom/code/reverse_ssticrypt/server.c:1486 | After a flag-setting shift the server's zero flag is always set; the C template's is the same exactly if the result is zero. |
| `Simulation.NegCarryAgreesExactly` | part2b_vm/vmdisas.rb:473-595 | After a flag-setting neg the server's carry is clear; the template's is the same exactly if it was clear before. |
| `Simulation.NegSignAgrees` | part2b_vm/vmdisas.rb:516-524 | The sign that neg leaves is the same in both. |
| `Simulation.LineSimulates` | part2b_vm/vmdisas.rb:123-131 | One line of the goto program does what the flat machine does with the instruction, and leaves the code in place. |
| `Simulation.RunSimulates` | part2b_vm/vmdisas.rb:473-595 | The decompiler preserves meaning: after any number of lines of a run that tests only flags kept alike, registers, memory, position and those flags of the goto program are the flat machine's. |
| `Binary.Add` | part2b_vm/layer1/bflayer1.c:316-356 | The adder macro at any word width: it ends within as many rounds as the word has bits, with the sum modulo 2^w, and its final neg and shift give the carry flag exactly if the sum fits. |
| `Binary.Compare` | part2b_vm/layer2/bflayer2.c:1053-1162 | The unsigned compare built from it, at any width: the zero flag says a = b, and the carry flag says a < b or b = 0. |
| `Adder.RoundAdds` | part2b_vm/layer1/bflayer1.c:317-350 | One round of the loop keeps the sum of the two words modulo 2^16 and loses at most one carry in all, which the accumulator remembers. |
| `Programs.CellStore` | part2b_vm/layer2/bflayer2.c:15-24 | A value stored in a cell with its calc_obf mask is read back without it, and no other cell or register is disturbed. |
| `Programs.Program.Step` | part2b_vm/layer2/bflayer2.c:91-136 | One statement over the memory, the registers and the masked cells is its effect on what they hold; the memory outside the cells is untouched. |
| `Programs.Program.Sum` | part2b_vm/layer2/bflayer2.c:249-283 | The adder as the layers write it, in any of its thirteen spellings of exclusive or, over cells and registers of the memory: the sum, the carry flag, and nothing else but the places it names. |
| `Layer1.Run` | part2b_vm/layer1/bflayer1.c:146-715 | Layer 1 accepts exactly the key 0xe5df, 0x94e3, for every memory and registers; outside its cells it leaves exactly the result flag and, for that key, the two answer words. |
| `Layer2.Run` | part2b_vm/layer2/bflayer2.c:149-1170 | Layer 2, statement by statement over memory with masked cells, for every memory, key and registers: it ends, returns 1 exactly if the check word comes out, and outside its cells leaves exactly the specified memory. |
| `Layer2.ResultIs` | part2b_vm/layer2/bflayer2.c:295-725 | What that memory is, in closed form: the words of round i are combined with calc_obf masks and k1 + i(i-1)/2 and k2 - i(i-1)/2 modulo 2^16, numbers that determine the key words; it accepts exactly if the last word becomes 0xbe92, which is otherwise 0xffff; no other byte but the flag changes. |
| `Layer3.Run` | part2b_vm/layer3/bflayer3.c:148-602 | Layer 3, statement by statement over memory with masked cells: outside its cells it leaves exactly the sixteen decrypted words and the result flag. |
| `Layer3.ResultIs` | part2b_vm/layer3/bflayer3.c:352-597 | The sixteen words in closed form, with the folded key; no other byte but the flag changes. |
| `Layer3.TwiceRestores` | part2b_vm/layer3/bflayer3.c:352-597 | Two runs with the same key restore every byte outside the cells and the result flag. |
| `NextLayer.ChainedIs` | part2a_rom/code/reverse_ssticrypt/client.c:106-116 | Layer 0's exclusive-or chain: each encrypted word is the exclusive or of two neighbours, and with a wrong key every word is off by the same difference. |
| `NextLayer.Decrypt` | part2a_rom/code/reverse_ssticrypt/client.c:132-142 | The RC4 loop in place: its output is the keystream of the table it started with, and the table stays a permutation of itself. |
| `NextLayer.StirUndone` | part2a_rom/code/reverse_ssticrypt/client.c:134-139 | A round of RC4 seen backwards: j goes back by the entry that is now at j, i by one, and the two entries are exchanged back; nothing else changed. |
| `NextLayer.PlacesAfter` | part2a_rom/code/reverse_ssticrypt/client.c:134-136 | After n rounds i has moved by n, and j by the sum of the entries met, modulo 256. |
| `NextLayer.OutputOfExchanged` | part2a_rom/code/reverse_ssticrypt/client.c:140 | The output is the entry at the sum of the two entries that were exchanged. |
| `NextLayer.DecryptedTwice` | part2a_rom/code/reverse_ssticrypt/client.c:132-142 | Decrypting twice with one table restores the data. |
| `NextLayer.ClientSeesVerdict` | part2a_rom/code/reverse_ssticrypt/client.c:122-130 | The two bytes that the client looks at refuse the key exactly when layer 2's program does. |
| `Des.ComputeF` | part1_wb/code/reverse.py:211-226 | The loop over the eight S-boxes computes the cipher function f of FIPS PUB 46-3. |
| `Boxes.OneBitChangesTwo` | part1_wb/code/reverse.py:131-200 | For all eight selection functions and all inputs: one input bit more or less changes at least two output bits. |
| `Boxes.MiddleChangesTwo` | part1_wb/code/reverse.py:131-200 | So do the two middle bits together; the difference that the attack looks at is therefore never zero. |
| `Boxes.OuterBitsChange` | part1_wb/code/reverse.py:131-200 | Inputs that differ in the first two bits and agree in the last two never give the same output. |
| `Boxes.RowIsPermutation` | part1_wb/code/reverse.py:131-200 | With the outer bits fixed, no two inputs give the same output: every row is a permutation. |
| `Boxes.ZerosSelect` | part1_wb/code/reverse.py:211-226 | The order of functions and bits: zeros at all inputs give e, f, a, 7, 2, c, 4 and d side by side. |
| `Boxes.FourSources` | part1_wb/code/reverse.py:202-209 | _P makes every four bits from the outputs of four other selection functions. |
| `Des.ShiftsAre` | part1_wb/code/reverse.py:124-126 | The halves are rotated by 1, then by 2n - 2 up to round 8, by 2n - 3 up to round 15, and by 28 in round 16. |
| `Des.ComputeEncrypt` | part1_wb/code/reverse.py:228-243 | The in-place sixteen rounds with the rotating key schedule compute the encryption function. |
| `Deciphering.DecryptUndoesEncrypt` | part1_wb/code/reverse.py:228-243 | The same rounds with the subkeys reversed undo the encryption and are undone by it (FIPS PUB 46-3, Deciphering). |
| `Deciphering.EncryptIsABijection` | part1_wb/code/reverse.py:228-243 | For each key encryption is injective and every block is the encryption of some block. |
| `Deciphering.EncryptOfNots` | part1_wb/code/reverse.py:121-129 | Complementing key and block complements the cipher text, through all sixteen rounds and the key schedule. |
| `KeySchedule.ComputePc2Inverse` | part1_wb/code/reverse.py:246-264 | The loop of _PC2inv fills exactly the positions that PC2 uses. |
| `KeySchedule.ReverseSubkeyIs` | part1_wb/code/reverse.py:266-277 | Key-schedule round trip: reverse_subkey of the first subkey agrees with the key at every position, and is None exactly at the eight that PC2 drops. |
| `KeySchedule.SubkeyDetermines` | part1_wb/code/reverse.py:75-82 | Two keys have the same first subkey exactly if they agree outside those eight positions. |
| `FirstRound.AfterOneRound` | part1_wb/code/reverse.py:279-294 | The crafted block after one round differs in L1 by the wanted pattern for every guess, and has the same R1 exactly if the guess and the true subkey change the S-box alike. |
| `FirstRound.RightGuessHides` | part1_wb/code/reverse.py:298-343 | Soundness of the attack: for every block, S-box and first subkey, if the guess equals the six key bits, R1 is the same and L1 differs in exactly bits 4 si + 1 and 4 si + 2. |
| `FirstRound.TrueBitsAreACandidate` | part1_wb/code/reverse.py:345-362 | So the true six bits are among the candidates, if the observed first round differs in at most two places for such blocks. |
| `FirstRound.CandidateIs` | part1_wb/code/reverse.py:349-361 | A guess is kept exactly if the set of bytes in which its block differs has fewer than three elements. |
| `FirstRound.FindCandidates` | part1_wb/code/reverse.py:298-362 | The loop over the sixty-four guesses returns exactly the candidates, in order. |
| `Alu.AddRipples` | part2a_rom/code/emul/lib/cy16/alu.rb:99-110 | The table-driven ripple adder computes a + b + carry in as many bits as given, with the carry out, whatever the width. |
| `Alu.SubRipples` | part2a_rom/code/emul/lib/cy16/alu.rb:99-110 | The ripple subtractor computes a - b - borrow and the borrow out. |
| `Alu.Add` | part2a_rom/code/emul/lib/cy16/alu.rb:46-76 | add at any width: the sum modulo 2^w, the carry, and the signed overflow. |
| `Alu.Sub` | part2a_rom/code/emul/lib/cy16/alu.rb:78-97 | sub at any width: the difference modulo 2^w, the borrow, and the signed overflow. |
| `Alu.DifferenceCompares` | part2a_rom/code/emul/lib/cy16/alu.rb:78-97 | What these flags say of the operands: the borrow is the unsigned order, overflow against sign is the signed order, and zero is equality. |
| `Alu.SumInTwo` | part2a_rom/code/emul/lib/cy16/alu.rb:46-76 | Two sums chained by the carry are the sum of twice the width. |
| `Cy16.Emulator.DoDual` | part2a_rom/code/emul/lib/cy16/metaemul.rb:336-379 | A two-operand instruction changes registers, memory, flag word and program counter exactly as specified. |
| `Cy16.OnlyFlagWord` | part2a_rom/code/emul/lib/cy16/metaemul.rb:623-654 | In memory an arithmetic instruction changes the flag word at 0xc000 and nothing else. |
| `Cy16.CompareAndBranch` | part2a_rom/code/emul/lib/cy16/metaemul.rb:757-814 | After cmp or sub, every conditional jump is taken exactly if what it is named for holds: the unsigned or signed comparison, a signed difference outside sixteen bits, or a negative result. |
| `Cy16.AddsThirtyTwoBits` | part2a_rom/code/emul/lib/cy16/metaemul.rb:623-638 | add followed by addc adds 32-bit numbers held in register pairs, with the carry flag. |
| `Cy16.SubtractsThirtyTwoBits` | part2a_rom/code/emul/lib/cy16/metaemul.rb:640-654 | sub followed by subb subtracts them, and jb and jl then tell their unsigned and signed order. |
| `Cy16.InterruptRestores` | part2a_rom/code/emul/lib/cy16/metaemul.rb:589-616 | pushall_int, then anything that leaves the stack's words and pointer alone, then popall_int: every register has its value back, or, exactly if a saved word lies across the end of the memory, the pop fails as in the source. |

## Findings

Where the code does not do what it is for, the exact condition is proved.

* **Livelock.** The victim rule never looks behind the first dirty line, so an instruction
  whose own code line is dirty can throw out its operands in turn. A footprint is safe
  exactly if no dirty line is *interleaved* in it (Progress.Interleaved: touched, then a
  line not touched before, touched again, then another new line): Livelock.ProgressExactly
  and, for instructions, Footprints.InstructionProgressExactly. Trapped.LivelockFromStart
  gives a program that runs into it. The counters are 16 bits wide, so the trap is proved
  for about 0xffff / |t| retries of a footprint of |t| look-ups and not beyond: when a
  counter has wrapped, another victim may be chosen and the instruction may get through.
* **Shifts.** server.c:1486 sets the zero flag on every flag-setting shift; the C template
  sets it by the result. They agree exactly on the result zero
  (Simulation.ShiftZeroAgreesExactly).
* **neg.** The server clears the carry, the template keeps it; they agree exactly if it was
  clear (Simulation.NegCarryAgreesExactly).
* **Jumps.** The decompiler's relative jumps do not wrap below position 0; they are the
  server's exactly if they stay above it (Decompiler.RelativeJumpsAgree).
* **Compare.** The unsigned compare of the layers tests a + (-b); for b = 0 it says "below"
  whatever a is (Binary.Compare).

## Left out

- Words across the end of a line and addresses from 0xfff0 on: server.c:436-446 combines the halves of such a word with the wrong operator, and the upper addresses match an initial tag; both are excluded from the operands that have a meaning.
- Registers r14 and r15 as stack and program counter, opcode 6, and the pop and return paths (server.c:1498-1539, 1563-1576, 1609-1627): the C and the listing beside it disagree, so there is no meaning to refine. Instructions with 0 as a shift count or more than 16 are excluded too.
- Server.Server.DoInstruction: bounded by a number of passes, because the source loops until a miss ends it.
- Client.Client.Serve: bounded in rounds and passes for the same reason; that the end of a layer does lead out of the loop is Client.Client.LayerEnds.
- Server.Server.Attempt: what follows a stop (condition byte 0xff) is modelled only as far as the position and the memory; the server then leaves its loop.
- Livelock.ProgressExactly: says nothing about caches whose counters could wrap during the retries; the positive half without that restriction is Wraparound.AlwaysEnds.
- Livelock.TrapLasts: does not say what happens after a counter has wrapped.
- Stretch.StretchFlushes: assumes that no counter can wrap during the stretch; so do Tail.StraightIsStretch, Tail.EndFlushes and Client.Client.LayerEnds.
- Tail.EndFlushes: its hypotheses on the cache are shown for SmallLayer's program from the start; the three layers are not run on the cached machine up to their ends. The instruction at address 0, where the jump leads, is one whose meaning is modelled.
- Carrying the cache from one layer to the next: load_layer and set_my_key rewrite the client's memory while lines stay cached; each run here starts from do_server_init or from any coherent state.
- Simulation.RunSimulates: word-sized operands, registers r0 to r13, conditions z, nz, c, nc and always, shifts by 1 to 15, no MemOther and no immediate destination, stores away from the code; byte operands have no faithful C form in the template. Condition code 14 never holds in the server and is not compiled.
- The decompiler's text (formatting, the template's main program) and the disassembler's printing.
- Layer1.Run, Layer2.Run, Layer3.Run: what the cells hold afterwards is left unspecified, and so is the register file; the 0x00aa filler (its effect on the cache is Tail.EndFlushes) and the last `and` of each program (bflayer2.c:1172-1264 and the like), which write only r0, r1 and flags, are not stepped through. Clearing r4 in layer 2 and r9 in layer 3, before anything that reads them, is their starting value here. Layer 1 has no masked cells, so the register that masked accesses take as zero is one it does not use. The places that a spelling with fewer steps does not need are filled with registers that the programs never touch.
- The main programs of the layers, which read a file and try keys, and the `.orig.c` files, which have the same bodies without the result variable.
- FirstRound.TrueBitsAreACandidate: the white box is a parameter that returns the first round; that it is the table network of the challenge is not modelled, because the pickled tables are not text.
- The `Bits` class of the DES script is not part of this model; bit strings are sequences of booleans indexed from 0.
- Cy16: decoding of CY16 instructions (Metasm), the debugger, the traces, and the USB functions of the emulator; autoincrement operands and shifts, rotates and calls.
- Sockets, USB transport, file loading, key parsing and printing, and everything in part3_secret (entropy estimates and OpenSSL calls).
