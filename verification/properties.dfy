/** What one cycle of the machine does for each kind of instruction, and what
    bounded runs of the loop guarantee. */
module Properties {
  import opened Bytes
  import opened Semantics

  /** The opcodes `decodeAndExecuteInst` gives an effect to (INC and DEC are
      dispatched but empty). */
  predicate Effective(code: byte) {
    code in {OP_MOV, OP_MOVC, OP_LSL, OP_LSR, OP_JMP, OP_JFE, OP_RET,
             OP_ADD, OP_SUB, OP_XOR, OP_OR, OP_IN, OP_OUT}
  }

  /** The instruction at the pointer moves the pointer itself. */
  predicate Jumps(vm: Vm)
    requires Shaped(vm) && InStore(vm.instPointer)
  {
    Opcode(vm) == OP_JMP || (Opcode(vm) == OP_JFE && vm.eofFlag != 0)
  }

  /** A cycle whose instruction does not jump advances the pointer by exactly
      one record and decodes the record found there: `instReg1` is its
      operand's low nibble and `instReg2` is 0. */
  lemma NonJumpCycleAdvances(c: Config)
    requires Valid(c) && !c.vm.stop && !Jumps(c.vm)
    ensures var r, p := Cycle(c), c.vm.instPointer + RECORD_SIZE;
      r.c.vm.instPointer == p && (r.Next? <==> InStore(p)) &&
      (r.Next? ==> r.c.vm.instReg1 == LowNibble(c.vm.instructionSet[p + 1]) &&
                   r.c.vm.instReg2 == 0)
  {
  }

  /** JMP, and JFE when `eofFlag` is set, move the pointer by the signed
      operand byte counted in bytes from the jump's own offset (so an odd
      displacement leaves it between records), decode the target record, and
      get no extra advance; no register, flag or stream changes. */
  lemma JumpCycle(c: Config)
    requires Valid(c) && !c.vm.stop && Jumps(c.vm)
    ensures var r, t := Cycle(c), c.vm.instPointer + Signed(Operand(c.vm));
      r.c.vm.instPointer == t && (r.Next? <==> InStore(t)) &&
      (r.Next? ==> r.c.vm.instReg1 == LowNibble(c.vm.instructionSet[t + 1]) && !r.c.vm.jumpInstExecuted) &&
      r.c.vm.registers == c.vm.registers && r.c.vm.eofFlag == c.vm.eofFlag && !r.c.vm.stop &&
      r.c.input == c.input && r.c.output == c.output
  {
  }

  /** INC, DEC, every opcode the dispatch does not list, and JFE with a clear
      `eofFlag` change nothing but the pointer, which advances normally. */
  lemma IgnoredCycle(c: Config)
    requires Valid(c) && !c.vm.stop
    requires !Effective(Opcode(c.vm)) || (Opcode(c.vm) == OP_JFE && c.vm.eofFlag == 0)
    ensures var w := Repoint(c.vm, c.vm.instPointer + RECORD_SIZE);
      Cycle(c) == if InStore(w.instPointer) then Next(c.(vm := w)) else Fault(c.(vm := w))
  {
  }

  /** MOV, ADD, SUB, XOR and OR change only `registers[dest]`, as `RegReg`
      states; MOVC, LSL and LSR only the register their functions name. The
      flags, the streams and the halt state stay as they were. */
  lemma RegisterCycle(c: Config)
    requires Valid(c) && !c.vm.stop
    requires Opcode(c.vm) in {OP_MOV, OP_MOVC, OP_LSL, OP_LSR, OP_ADD, OP_SUB, OP_XOR, OP_OR}
    ensures var code, r := Opcode(c.vm), Cycle(c).c;
      r.vm.registers == (
        if code == OP_MOV then RegReg(c.vm, MovOp)
        else if code == OP_MOVC then Movc(c.vm)
        else if code == OP_LSL then Lsl(c.vm)
        else if code == OP_LSR then Lsr(c.vm)
        else if code == OP_ADD then RegReg(c.vm, AddOp)
        else if code == OP_SUB then RegReg(c.vm, SubOp)
        else if code == OP_XOR then RegReg(c.vm, XorOp)
        else RegReg(c.vm, OrOp)).registers &&
      r.vm.eofFlag == c.vm.eofFlag && r.vm.stop == c.vm.stop &&
      r.input == c.input && r.output == c.output
  {
  }

  /** IN changes at most `registers[instReg1]`, `eofFlag` and the stream, as
      `In` states, and writes nothing. */
  lemma InCycle(c: Config)
    requires Valid(c) && !c.vm.stop && Opcode(c.vm) == OP_IN
    ensures var r, e := Cycle(c).c, In(c.vm, c.input);
      r.vm.registers == e.0.registers && r.vm.eofFlag == e.0.eofFlag && r.input == e.1 &&
      !r.vm.stop && r.output == c.output
  {
  }

  /** OUT appends exactly `registers[cop1 & 0x0F]` to the output when
      `eofFlag` is 0, appends nothing otherwise, and changes no register or
      flag. */
  lemma OutCycle(c: Config)
    requires Valid(c) && !c.vm.stop && Opcode(c.vm) == OP_OUT
    ensures var r := Cycle(c).c;
      r.output == (if c.vm.eofFlag == 0
                   then c.output + [c.vm.registers[LowNibble(Operand(c.vm))]]
                   else c.output) &&
      r.vm.registers == c.vm.registers && r.vm.eofFlag == c.vm.eofFlag && !r.vm.stop &&
      r.input == c.input
  {
  }

  /** RET stops the machine: no further instruction is dispatched, so a run
      from it ends after this one cycle, halted, unless the pointer advance
      that still follows RET leaves the store. */
  lemma RetStops(c: Config, fuel: nat)
    requires Valid(c) && !c.vm.stop && Opcode(c.vm) == OP_RET && fuel > 0
    ensures Cycle(c).c.vm.stop
    ensures Run(c, fuel) == if InStore(c.vm.instPointer + RECORD_SIZE)
                             then Halted(Cycle(c).c) else Faulted(Cycle(c).c)
  {
    RunUnfold(c, fuel);
    var r := Cycle(c);
    if r.Next? {
      assert Loop(Step, r.c, fuel - 1) == Halted(r.c);
    }
  }

  /** A loop over a cycle that writes and reads at most one byte writes and
      reads at most one byte per unit of fuel. */
  lemma {:induction false} LoopBounds(step: Config -> Outcome, c: Config, fuel: nat)
    requires WellBehaved(step)
    ensures var r := Loop(step, c, fuel);
      |r.c.output| <= |c.output| + fuel && r.c.input.pos <= c.input.pos + fuel
    decreases fuel
  {
    if !c.vm.stop && fuel > 0 {
      var r := step(c);
      if r.Next? {
        LoopBounds(step, r.c, fuel - 1);
      }
    }
  }

  /** Each cycle writes at most one byte, so a run writes at most `fuel`; each
      reads at most one byte, so a run reads at most `fuel`. */
  lemma RunBounds(c: Config, fuel: nat)
    requires Valid(c)
    ensures |Run(c, fuel).c.output| <= |c.output| + fuel
    ensures Run(c, fuel).c.input.pos <= c.input.pos + fuel
  {
    StepWellBehaved();
    LoopBounds(Step, c, fuel);
  }

  /** Running `n` cycles of any loop and then `m` more is running `n + m`. */
  lemma {:induction false} LoopSplit(step: Config -> Outcome, c: Config, n: nat, m: nat)
    ensures var first := Loop(step, c, n);
      Loop(step, c, n + m) == if first.OutOfFuel? then Loop(step, first.c, m) else first
    decreases n
  {
    if !c.vm.stop && n > 0 {
      var r := step(c);
      if r.Next? {
        LoopSplit(step, r.c, n - 1, m);
        assert n + m - 1 == (n - 1) + m;
      }
    }
  }

  /** Running `n` cycles and then, if the machine neither halted nor faulted,
      `m` more is running `n + m` cycles. */
  lemma RunSplit(c: Config, n: nat, m: nat)
    requires Valid(c)
    ensures Run(c, n + m) == if Run(c, n).OutOfFuel? then Run(Run(c, n).c, m) else Run(c, n)
  {
    LoopSplit(Step, c, n, m);
  }

  /** Once a run has halted or faulted, more fuel changes nothing: the fuel
      bound only cuts off runs that had not ended yet. */
  lemma RunMoreFuel(c: Config, fuel: nat, extra: nat)
    requires Valid(c) && !Run(c, fuel).OutOfFuel?
    ensures Run(c, fuel + extra) == Run(c, fuel)
  {
    LoopSplit(Step, c, fuel, extra);
  }

  /** `k` IN instructions in a row on the same machine. */
  function InTimes(vm: Vm, i: Input, k: nat): (r: (Vm, Input))
    requires Shaped(vm) && 0 <= vm.instReg1 < REGISTER_COUNT && InputValid(i)
    ensures Shaped(r.0) && InputValid(r.1) && r.0.instReg1 == vm.instReg1 && r.1.bytes == i.bytes
    decreases k
  {
    if k == 0 then (vm, i)
    else
      var s := InTimes(vm, i, k - 1);
      In(s.0, s.1)
  }

  /** IN reads the stream in order, one byte each, with `eofFlag` 0; because
      the eof bit is examined before the read, the first IN past the last byte
      still stores 0 with `eofFlag` 0, and only the one after it sets
      `eofFlag` to 1 and leaves the register alone. */
  lemma {:induction false} InReadsInOrder(vm: Vm, bytes: seq<byte>, k: nat)
    requires Shaped(vm) && 0 <= vm.instReg1 < REGISTER_COUNT && 0 < k <= |bytes| + 2
    ensures var r, x := InTimes(vm, Input(bytes, 0, false), k), vm.instReg1;
      (k <= |bytes| ==> r.0.registers[x] == bytes[k - 1] && r.0.eofFlag == 0 &&
                        r.1 == Input(bytes, k, false)) &&
      (k == |bytes| + 1 ==> r.0.registers[x] == 0 && r.0.eofFlag == 0 && r.1.eof) &&
      (k == |bytes| + 2 ==> r.0.registers[x] == 0 && r.0.eofFlag == 1 && r.1.eof)
    decreases k
  {
    if k > 1 {
      InReadsInOrder(vm, bytes, k - 1);
    }
  }

  /** With the three-byte stream 1, 2, 3: after three INs the register holds
      3; the fourth IN stores 0 and leaves `eofFlag` 0; the fifth sets it. */
  lemma ThreeByteStream(vm: Vm)
    requires Shaped(vm) && 0 <= vm.instReg1 < REGISTER_COUNT
    ensures var i, x := Input([1, 2, 3], 0, false), vm.instReg1;
      InTimes(vm, i, 3).0.registers[x] == 3 && InTimes(vm, i, 3).0.eofFlag == 0 &&
      InTimes(vm, i, 4).0.registers[x] == 0 && InTimes(vm, i, 4).0.eofFlag == 0 &&
      InTimes(vm, i, 5).0.registers[x] == 0 && InTimes(vm, i, 5).0.eofFlag == 1
  {
    InReadsInOrder(vm, [1, 2, 3], 3);
    InReadsInOrder(vm, [1, 2, 3], 4);
    InReadsInOrder(vm, [1, 2, 3], 5);
  }

  /** The program `MOVC 'A'; OUT r0; RET` run with a clear `eofFlag` writes
      exactly the byte 0x41 and halts after three cycles, whatever the
      registers and the data stream hold. */
  lemma MovcOutRet(registers: seq<byte>, program: seq<byte>, data: seq<byte>, fuel: nat)
    requires |registers| == REGISTER_COUNT && |program| == PROGRAM_MEMORY_SIZE
    requires Example(program)
    requires fuel >= 3
    ensures var r := Run(Start(registers, 0, program, data), fuel);
      r.Halted? && r.c.output == [0x41]
  {
    MovcOutRetFrom(Start(registers, 0, program, data), fuel);
  }

  /** `MovcOutRet` from any configuration at the start of that program. */
  lemma MovcOutRetFrom(c: Config, fuel: nat)
    requires Valid(c) && !c.vm.stop && c.vm.instPointer == 0 && c.vm.eofFlag == 0
    requires c.output == [] && Example(c.vm.instructionSet) && fuel >= 3
    ensures var r := Run(c, fuel); r.Halted? && r.c.output == [0x41]
  {
    MovcFirst(c, c.vm.instructionSet);
    RunUnfold(c, fuel);
    OutRetFrom(Cycle(c).c, fuel - 1);
  }

  /** The rest of `MovcOutRet`, from the OUT record with 0x41 in register 0. */
  lemma OutRetFrom(c: Config, fuel: nat)
    requires Valid(c) && !c.vm.stop && c.vm.instPointer == 2 && c.vm.eofFlag == 0
    requires c.output == [] && c.vm.registers[0] == 0x41 && Example(c.vm.instructionSet) && fuel >= 2
    ensures var r := Run(c, fuel); r.Halted? && r.c.output == [0x41]
  {
    OutSecond(c, c.vm.instructionSet);
    RunUnfold(c, fuel);
    RetStops(Cycle(c).c, fuel - 1);
  }

  /** The store begins with `MOVC 0x41; OUT 0; RET`. */
  predicate Example(program: seq<byte>) {
    |program| >= 6 && program[0] == OP_MOVC && program[1] == 0x41 && program[2] == OP_OUT &&
    program[3] == 0x00 && program[4] == OP_RET && program[5] == 0x00
  }

  /** First cycle of `MovcOutRet`: MOVC puts 0x41 in register 0. */
  lemma MovcFirst(c: Config, program: seq<byte>)
    requires Valid(c) && !c.vm.stop && c.vm.instPointer == 0 && c.vm.eofFlag == 0 && c.output == []
    requires c.vm.instructionSet == program && Example(program)
    ensures var r := Cycle(c);
      r.Next? && r.c.vm.instPointer == 2 && r.c.vm.registers[0] == 0x41 &&
      r.c.vm.eofFlag == 0 && !r.c.vm.stop && r.c.output == []
  {
    assert Opcode(c.vm) == OP_MOVC && Operand(c.vm) == 0x41;
    RegisterCycle(c);
    NonJumpCycleAdvances(c);
  }

  /** Second cycle of `MovcOutRet`: OUT writes register 0. */
  lemma OutSecond(c: Config, program: seq<byte>)
    requires Valid(c) && !c.vm.stop && c.vm.instPointer == 2 && c.vm.eofFlag == 0 && c.output == []
    requires c.vm.registers[0] == 0x41
    requires c.vm.instructionSet == program && Example(program)
    ensures var r := Cycle(c);
      r.Next? && r.c.vm.instPointer == 4 && Opcode(r.c.vm) == OP_RET && !r.c.vm.stop &&
      r.c.output == [0x41]
  {
    assert Opcode(c.vm) == OP_OUT && Operand(c.vm) == 0x00;
    OutCycle(c);
    NonJumpCycleAdvances(c);
  }
}
