# VirtualMachine in Dafny

A model of the byte-code virtual machine in `VirtualMachine.cpp` and
`VirtualMachine.h`. It covers the fetch-decode-execute loop of
`runProgram`, `incInstPointer`, the `decodeAndExecuteInst` dispatch, and the
fifteen instructions IN, INC, DEC, MOV, MOVC, LSL, LSR, JMP, JFE, RET, ADD,
SUB, XOR, OR and OUT.

## Machine state

The machine has:

- sixteen unsigned 8-bit registers;
- a 256-byte program store, read as two-byte records `{code, cop1}`;
- an instruction pointer, kept as a byte offset into the store;
- the fields `eofFlag`, `instReg1`, `instReg2`, `jumpInstExecuted` and
  `VM_Stop`.

## Files

- `bytes.dfy` (module `Bytes`) holds the 8-bit arithmetic of `unsigned char`.
  - Wrap-around of `+=` and `-=`.
  - Bit loss of `<<=` and `>>=`.
  - Bitwise `&`, `|` and `^`, defined bit by bit.
  - The nibble decoding of an operand byte.
  - The reading of a `char` operand as a signed displacement.
- `semantics.dfy` (module `Semantics`) holds one function per operation
  with an effect. The empty `INC` and `DEC` are the no-change branch of
  `Execute`.
  - The functions work on a value `Vm` that holds every field of the class.
  - A `Config` adds the data file, a byte sequence with a read position and
    an eof bit, and the bytes written to standard output.
  - `Cycle` is one pass of the `while (!VM_Stop)` loop.
  - `Run` is that loop, bounded by a number of cycles ("fuel"). It is built
    on a generic `Loop` over any step function, so the facts about the loop
    are proved once, without unfolding the instruction set.
- `machine.dfy` (module `Machine`) holds the imperative form of the program.
  - `VirtualMachine` is a class with `registers` and `instructionSet` as
    arrays.
  - The data file is the class `DataFile`; standard output is the class
    `OutputSink`.
  - Every C++ member function except `readProgram` and the destructor is a
    method. Each one with an effect, other than the constructor, is proved
    to change the object exactly as the matching function of `Semantics`
    says, and to change nothing outside its `modifies` frame. The constructor's contract gives the
    initial state in full. The empty `INC` and `DEC` have no `modifies`
    frame, so they change nothing.
- `properties.dfy` (module `Properties`) holds what one cycle does for each
  kind of instruction, and facts about bounded runs.

## How faithfully it follows the code

These details are reproduced, not fixed:

- **`instReg2` is always 0.** `cop1 & 0x0F >> 4` (VirtualMachine.cpp:9, 73,
  160) parses as `cop1 & (0x0F >> 4)`, which is `cop1 & 0`.
  `MisparsedHighNibble` computes exactly that, and `Decoded` records it as
  the value of `instReg2`.
- **Jumps are signed and counted in bytes.** A jump moves the pointer by the
  signed operand byte, counted in bytes from the jump's own record. An odd
  displacement therefore leaves the pointer between records.
  - `VMInstruction.h` is not part of this model. Its `code` and `cop1` are
    taken to be `char`, and `char` is taken to be signed.
  - Opcodes of 0x80 and above then fall to `default`, as every unlisted
    opcode does.
- **Registers and `eofFlag` start uninitialised.** The constructor leaves
  them so, and they are parameters of the model's constructor and of
  `Start`.
- **IN tests end-of-file before it reads.** `std::ifstream` sets its eof bit
  only when a read fails. So the first IN past the last byte still stores 0
  (the zero-initialised `tempVal`) and sets `eofFlag` to 0. Only the next IN
  sets `eofFlag` to 1. `InReadsInOrder` and `ThreeByteStream` prove this.
  - A reading of IN in which the first read past the end already sets
    `eofFlag` would differ. The model follows the code at
    VirtualMachine.cpp:95-101.
- **The pointer is never bounds-checked.** A cycle that leaves the pointer
  on a record not wholly inside the store would read outside it, which is
  undefined behaviour in C++. The model ends such a cycle with the outcome
  `Fault`, and the method `RunProgram` ends with `Crash`.
  - The pointer is compared with the store bounds after the jump and after
    the normal advance.
  - So a RET in the last record (offset 254) faults: its cycle still
    advances the pointer to 256 and decodes there.

## Model

| member | source | states |
|---|---|---|
| Bytes.LowNibble | VirtualMachine.h:18 | the decoded low nibble is below `REGISTER_COUNT`, so every register index is in bounds, and the byte is 16 times its high part plus it |
| Bytes.HighNibble | VirtualMachine.h:18 | the decoded high nibble is below `REGISTER_COUNT`, and the byte is 16 times it plus its low part |
| Bytes.LowNibbleIsMask | VirtualMachine.cpp:8 | `cop1 & 0x0F`, the register index `instReg1` and every op's destination, equals the low nibble `x % 16`, which is below 16 |
| Bytes.HighNibbleIsMask | VirtualMachine.cpp:124 | `((cop1 >> 4) & 0x0F)`, the source register of MOV/ADD/SUB/XOR/OR, equals `x / 16`, below 16 |
| Bytes.MisparsedHighNibble | VirtualMachine.cpp:9 | `cop1 & 0x0F >> 4` as C++ parses it is 0 for every byte |
| Bytes.Signed | VirtualMachine.cpp:158 | a `char` operand is a displacement in [-128, 128) congruent to the byte modulo 256 |
| Bytes.Add8 | VirtualMachine.cpp:187 | `+=` on `unsigned char` is the sum, or the sum less 256 when it overflows |
| Bytes.Sub8 | VirtualMachine.cpp:199 | `-=` on `unsigned char` is the difference, or the difference plus 256 when it underflows |
| Bytes.SubUndoesAdd | VirtualMachine.cpp:187-199 | SUB with the same source register undoes ADD |
| Bytes.Shl1 | VirtualMachine.cpp:142 | `<<= 1` drops bit 7: the result is twice the value's low seven bits |
| Bytes.Shr1 | VirtualMachine.cpp:152 | `>>= 1` drops bit 0 and is below 128 |
| Bytes.Xor8 | VirtualMachine.cpp:211 | `^=` is undone by XOR-ing with the same value again |
| Bytes.XorTwice | VirtualMachine.cpp:211 | XOR twice with the same key restores any value of `n` bits |
| Bytes.XorSelf | VirtualMachine.cpp:211 | XOR of a register with itself clears it |
| Bytes.Or8 | VirtualMachine.cpp:223 | the compound OR assignment keeps every bit of each operand (masking the result with either operand gives it back) and adds no other bit (the result plus the shared bits is the sum of the operands) |
| Bytes.OrKeepsBits | VirtualMachine.cpp:223 | masking `Or(a, b, n)` with `a`, or with `b`, gives that operand back, for `n`-bit values |
| Bytes.OrAndSum | VirtualMachine.cpp:223 | `Or(a, b, n) + And(a, b, n) == a + b` for `n`-bit values: a shared bit is counted once |
| Bytes.OrUpper | VirtualMachine.cpp:223 | bitwise OR of `n`-bit values is at least each operand |
| Bytes.AndLowBits | VirtualMachine.cpp:121-123 | masking with `2^k - 1` (the `divider` 0b00001111 for k = 4) keeps exactly the value modulo `2^k` |
| Semantics.RegReg | VirtualMachine.cpp:119-127 | MOV (and ADD 180-188, SUB 192-200, XOR 204-212, OR 216-224) sets `registers[dest]` to the operation on the old dest and src; every other register and every other field is unchanged |
| Semantics.Movc | VirtualMachine.cpp:131-133 | `registers[0]` becomes the operand byte; nothing else changes |
| Semantics.Lsl | VirtualMachine.cpp:137-143 | the low-nibble register becomes `2 * (v % 128)`; nothing else changes |
| Semantics.Lsr | VirtualMachine.cpp:147-153 | the low-nibble register becomes `v / 2`, below 128; nothing else changes |
| Semantics.Repoint | VirtualMachine.cpp:6-10 | the pointer moves to the given offset and, when a record lies there, `instReg1`/`instReg2` are decoded from it; only those three fields change |
| Semantics.Jmp | VirtualMachine.cpp:157-162 | the pointer moves by the signed operand from the jump's own offset, the target is decoded, `jumpInstExecuted` is set; nothing else changes |
| Semantics.Jfe | VirtualMachine.cpp:166-170 | with `eofFlag` non-zero exactly JMP, otherwise no change |
| Semantics.Ret | VirtualMachine.cpp:174-176 | RET only sets `VM_Stop`; what that means for the run is proved in `Properties.RetStops`, and `Machine.VirtualMachine.RET` is proved to change exactly this |
| Semantics.Get | VirtualMachine.cpp:99 | a read yields a byte if and only if one is left; it then yields the byte at the read position and advances past it, changing nothing else; otherwise it yields nothing and only sets the eof bit; either way the stream stays consistent |
| Semantics.In | VirtualMachine.cpp:92-103 | with the eof bit set, `eofFlag` becomes 1 and nothing else changes; otherwise the next byte (0 when none is left, which sets the eof bit) goes to `registers[instReg1]` and `eofFlag` becomes 0; no other register changes |
| Semantics.Out | VirtualMachine.cpp:228-236 | exactly `registers[cop1 & 0x0F]` is appended when `eofFlag` is 0, nothing otherwise |
| Semantics.Execute | VirtualMachine.cpp:12-31 | a dispatched instruction keeps the program and the data bytes, reads and writes at most one byte, and moves the pointer only by jumping |
| Semantics.Cycle | VirtualMachine.cpp:80-86 | a cycle that continues leaves the machine between two cycles (pointer on a decoded record, `jumpInstExecuted` clear), keeps the program and reads and writes at most one byte |
| Semantics.StepWellBehaved | VirtualMachine.cpp:80-86 | every step keeps the program and the data bytes, moves each stream by at most one byte, and continues only to a state between two cycles |
| Semantics.LoopKeeps | VirtualMachine.cpp:80-86 | a loop over a well-behaved step halts only with `VM_Stop` set, ends between two cycles, keeps the program and only moves the streams forward |
| Semantics.Run | VirtualMachine.cpp:80-86 | the `while (!VM_Stop)` loop bounded by fuel; what it guarantees is proved in `Semantics.RunKeeps`, `Semantics.RunUnfold`, `Properties.RunBounds`, `Properties.RunSplit` and `Properties.RunMoreFuel`, and `Machine.VirtualMachine.RunLoop` is proved to end where it ends |
| Semantics.RunKeeps | VirtualMachine.cpp:80-86 | the same for the run loop of the machine |
| Semantics.RunUnfold | VirtualMachine.cpp:80-86 | a run with fuel left from a running machine either faults in its first cycle or continues from that cycle's state with one cycle fewer |
| Semantics.Start | VirtualMachine.cpp:71-73 | before the loop, the pointer is on offset 0 with that record decoded, the streams are untouched and registers and `eofFlag` are as given |
| Properties.NonJumpCycleAdvances | VirtualMachine.cpp:80-86 | a cycle without a jump advances the pointer by exactly one record, continues if and only if that record is in the store, and decodes `instReg1` from it with `instReg2` 0 |
| Properties.JumpCycle | VirtualMachine.cpp:157-162 | a taken JMP/JFE moves the pointer to its own offset plus the signed operand, with no extra advance, continues if and only if the target is in the store, and changes no register, flag or stream |
| Properties.IgnoredCycle | VirtualMachine.cpp:12-31 | INC, DEC, an unlisted opcode and a JFE with `eofFlag` 0 only advance the pointer |
| Properties.RegisterCycle | VirtualMachine.cpp:119-153 | MOV, MOVC, LSL, LSR, ADD, SUB, XOR and OR change the registers as their functions state and leave `eofFlag`, `VM_Stop` and both streams unchanged |
| Properties.InCycle | VirtualMachine.cpp:92-103 | a cycle on IN changes registers, `eofFlag` and the data stream exactly as `In` does and writes nothing |
| Properties.OutCycle | VirtualMachine.cpp:228-236 | a cycle on OUT appends `registers[cop1 & 0x0F]` if and only if `eofFlag` is 0 and changes no register, flag or input |
| Properties.RetStops | VirtualMachine.cpp:174-176 | after RET no further instruction runs: the run ends halted after this cycle, or faults when the advance that follows RET leaves the store |
| Properties.LoopBounds | VirtualMachine.cpp:80-86 | a loop over a well-behaved step reads and writes at most one byte per cycle |
| Properties.RunBounds | VirtualMachine.cpp:80-86 | a run of `fuel` cycles writes at most `fuel` bytes and reads at most `fuel` bytes |
| Properties.LoopSplit | VirtualMachine.cpp:80-86 | `n` then `m` cycles of any loop are `n + m` cycles |
| Properties.RunSplit | VirtualMachine.cpp:80-86 | running `n` cycles and, if neither halted nor faulted, `m` more, is running `n + m` |
| Properties.RunMoreFuel | VirtualMachine.cpp:80-86 | once a run has halted or faulted, more fuel changes nothing |
| Properties.InTimes | VirtualMachine.cpp:92-103 | repeated INs keep the data bytes, the register index and a consistent stream |
| Properties.InReadsInOrder | VirtualMachine.cpp:92-103 | the `k`-th IN stores the `k`-th data byte with `eofFlag` 0; the first IN past the end stores 0 with `eofFlag` 0; the next sets `eofFlag` to 1 |
| Properties.ThreeByteStream | VirtualMachine.cpp:92-103 | on the stream 1, 2, 3: the third IN gives 3, the fourth gives 0 with `eofFlag` 0, the fifth sets `eofFlag` |
| Properties.MovcOutRet | VirtualMachine.cpp:68-86 | the program `MOVC 0x41; OUT 0; RET` with `eofFlag` 0 halts within three cycles having written exactly 0x41, whatever the registers and data |
| Machine.DataFile.constructor | VirtualMachine.cpp:75 | a freshly opened data file is at position 0 without the eof bit |
| Machine.DataFile.Eof | VirtualMachine.cpp:95 | the eof bit is set only once every byte has been read |
| Machine.DataFile.Get | VirtualMachine.cpp:99 | the method reads as `Semantics.Get` defines |
| Machine.OutputSink.Put | VirtualMachine.cpp:235 | writing a byte appends it to what was written |
| Machine.VirtualMachine.constructor | VirtualMachine.cpp:33-39 | registers and store have their fixed sizes, the flags are clear and the pointer is at offset 0 |
| Machine.VirtualMachine.PointTo | VirtualMachine.cpp:7-9 | the fields change as `Repoint` states |
| Machine.VirtualMachine.IncInstPointer | VirtualMachine.cpp:6-10 | the pointer advances by one record and the fields change as `Repoint` states |
| Machine.VirtualMachine.DecodeAndExecuteInst | VirtualMachine.cpp:12-31 | the machine, data file and output change exactly as `Execute` states, and the result says whether the pointer is still in the store |
| Machine.VirtualMachine.Cycle | VirtualMachine.cpp:80-86 | one pass of the loop changes everything exactly as `Semantics.Cycle` states |
| Machine.VirtualMachine.Turn | VirtualMachine.cpp:80-86 | one pass of the loop either ends the bounded run with a fault or leaves a run one cycle shorter with the same result |
| Machine.VirtualMachine.RunLoop | VirtualMachine.cpp:80-86 | the loop ends in exactly the state `Run` reaches, with `Halt` if and only if it halted and `Crash` if and only if it faulted |
| Machine.VirtualMachine.RunProgram | VirtualMachine.cpp:68-86 | after loading, the run ends in exactly the state `Run` reaches from `Start`, with the same kind of ending |
| Machine.VirtualMachine.IN | VirtualMachine.cpp:92-103 | the fields and the data file change exactly as `In` states |
| Machine.VirtualMachine.RegisterOp | VirtualMachine.cpp:119-127 | the register file changes as `RegReg` states for the given operation |
| Machine.VirtualMachine.MOV | VirtualMachine.cpp:119-127 | the fields change exactly as `RegReg` with MOV states |
| Machine.VirtualMachine.MOVC | VirtualMachine.cpp:131-133 | the fields change exactly as `Movc` states |
| Machine.VirtualMachine.LSL | VirtualMachine.cpp:137-143 | the fields change exactly as `Lsl` states |
| Machine.VirtualMachine.LSR | VirtualMachine.cpp:147-153 | the fields change exactly as `Lsr` states |
| Machine.VirtualMachine.JMP | VirtualMachine.cpp:157-162 | the fields change exactly as `Jmp` states |
| Machine.VirtualMachine.JFE | VirtualMachine.cpp:166-170 | the fields change exactly as `Jfe` states |
| Machine.VirtualMachine.RET | VirtualMachine.cpp:174-176 | `VM_Stop` is set and nothing else changes |
| Machine.VirtualMachine.ADD | VirtualMachine.cpp:180-188 | the fields change exactly as `RegReg` with ADD states |
| Machine.VirtualMachine.SUB | VirtualMachine.cpp:192-200 | the fields change exactly as `RegReg` with SUB states |
| Machine.VirtualMachine.XOR | VirtualMachine.cpp:204-212 | the fields change exactly as `RegReg` with XOR states |
| Machine.VirtualMachine.OR | VirtualMachine.cpp:216-224 | the fields change exactly as `RegReg` with OR states |
| Machine.VirtualMachine.OUT | VirtualMachine.cpp:228-236 | the output changes exactly as `Out` states |

## Left out

- `readProgram` (VirtualMachine.cpp:52-64) is not modelled. The store is a
  given 256-byte sequence. The loop at line 61 writes `instructionSet[256]`
  for a file of 257 bytes or more. A failed open (lines 56-58) still lets
  `runProgram` run whatever the buffer holds.
- Opening the data file, its failure message, and its text-mode line-ending
  translation (VirtualMachine.cpp:75-78) are left out. The data file is the
  sequence of bytes `IN` sees. A data file that fails to open would skip the
  loop; the model always runs it.
- Console output is left out. `std::cout` (line 235) is modelled as an
  appended byte sequence, and `std::cerr` is not modelled.
- Heap allocation and freeing in the constructor and destructor (lines
  33-48) are left out. The initial `nullptr` pointer is offset 0, because
  line 71 overwrites it before any use.
- The mechanics of `std::bitset` are left out. Only the nibble each bitset
  expression computes is modelled.
- Non-termination of `while (!VM_Stop)` is left out. Runs are bounded by
  fuel, and `RunLoop` ends with `FuelSpent` when the fuel is used up.
- `main.cpp` (entry point and file names) is not part of this model.
- `VMInstruction.h` is not part of this model. Its fields are assumed to be
  `char`, with `char` signed.
- Undefined behaviour past the end of the store is not modelled. It becomes
  the outcome `Fault`.
- Machine.VirtualMachine.INC: empty in the source; it has no `ensures`. Its
  empty `modifies` frame states that it changes nothing, and
  `Properties.IgnoredCycle` gives its cycle.
- Machine.VirtualMachine.DEC: the same as INC.
- Semantics.Step: from a configuration that is not between two cycles, it
  returns `Fault`. `Run` never reaches such a configuration from `Start`.
