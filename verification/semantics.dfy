/** The fetch-decode-execute cycle of the virtual machine, as functions on
    values.

    A `Vm` value is the machine's complete persistent state (the fields of
    class `VirtualMachine` in VirtualMachine.h); a `Config` adds the data file
    being read by `IN` and the bytes written so far by `OUT`. Every instruction
    of VirtualMachine.cpp with an effect, `incInstPointer`,
    `decodeAndExecuteInst` and the run loop have a function here (the empty
    INC and DEC are the no-change branch of `Execute`; `readProgram` is not
    part of this model); the class in machine.dfy is proved to update its
    fields exactly as these functions say. */
module Semantics {
  import opened Bytes

  /** `REGISTER_COUNT`: the register file has 16 cells. */
  const REGISTER_COUNT: nat := 16
  /** `PROGRAM_MEMORY_SIZE`: the program store holds 256 bytes. */
  const PROGRAM_MEMORY_SIZE: nat := 256
  /** Size of one instruction record: an opcode byte then an operand byte. */
  const RECORD_SIZE: nat := 2

  const OP_INC: byte := 0x01
  const OP_DEC: byte := 0x02
  const OP_MOV: byte := 0x03
  const OP_MOVC: byte := 0x04
  const OP_LSL: byte := 0x05
  const OP_LSR: byte := 0x06
  const OP_JMP: byte := 0x07
  const OP_JFE: byte := 0x0A
  const OP_RET: byte := 0x0B
  const OP_ADD: byte := 0x0C
  const OP_SUB: byte := 0x0D
  const OP_XOR: byte := 0x0E
  const OP_OR: byte := 0x0F
  const OP_IN: byte := 0x10
  const OP_OUT: byte := 0x11

  /** The fields of a `VirtualMachine`. `instPointer` is a byte offset into
      `instructionSet`; `stop` is `VM_Stop`. */
  datatype Vm = Vm(
    registers: seq<byte>,
    instructionSet: seq<byte>,
    eofFlag: int,
    instReg1: int,
    instReg2: int,
    instPointer: int,
    jumpInstExecuted: bool,
    stop: bool)

  /** The data file as an input stream: its bytes, the read position, and the
      stream's eof bit (set only by a read that found no byte). */
  datatype Input = Input(bytes: seq<byte>, pos: nat, eof: bool)

  /** The machine together with its data file and the bytes it has written. */
  datatype Config = Config(vm: Vm, input: Input, output: seq<byte>)

  /** What an instruction or a cycle leads to: a next configuration, or a
      fault because the instruction pointer left the program store and the
      record there would be read outside it (undefined behaviour in the C++
      program). */
  datatype Outcome = Next(c: Config) | Fault(c: Config)

  /** How a bounded run ends. */
  datatype RunResult = Halted(c: Config) | Faulted(c: Config) | OutOfFuel(c: Config)

  datatype Option<T> = None | Some(value: T)

  /** The register-register instructions. */
  datatype AluOp = MovOp | AddOp | SubOp | XorOp | OrOp

  /** A whole record, opcode and operand, lies inside the store at offset `p`. */
  predicate InStore(p: int) {
    0 <= p && p + RECORD_SIZE <= PROGRAM_MEMORY_SIZE
  }

  /** The register file and the program store have their fixed sizes. */
  predicate Shaped(vm: Vm) {
    |vm.registers| == REGISTER_COUNT && |vm.instructionSet| == PROGRAM_MEMORY_SIZE
  }

  /** The pointer is on a record inside the store and `instReg1`/`instReg2`
      hold what decoding that record gives. */
  predicate Decoded(vm: Vm) {
    Shaped(vm) && InStore(vm.instPointer) &&
    vm.instReg1 == LowNibble(vm.instructionSet[vm.instPointer + 1]) &&
    vm.instReg2 == MisparsedHighNibble(vm.instructionSet[vm.instPointer + 1])
  }

  predicate InputValid(i: Input) {
    i.pos <= |i.bytes| && (i.eof ==> i.pos == |i.bytes|)
  }

  /** The state between two cycles of the run loop. */
  predicate Valid(c: Config) {
    Decoded(c.vm) && !c.vm.jumpInstExecuted && InputValid(c.input)
  }

  /** `instPointer->code`. */
  function Opcode(vm: Vm): byte
    requires Shaped(vm) && InStore(vm.instPointer)
  {
    vm.instructionSet[vm.instPointer]
  }

  /** `instPointer->cop1`. */
  function Operand(vm: Vm): byte
    requires Shaped(vm) && InStore(vm.instPointer)
  {
    vm.instructionSet[vm.instPointer + 1]
  }

  /** The value a register-register instruction stores into its destination. */
  function Alu(op: AluOp, dest: byte, src: byte): byte {
    match op
    case MovOp => src
    case AddOp => Add8(dest, src)
    case SubOp => Sub8(dest, src)
    case XorOp => Xor8(dest, src)
    case OrOp => Or8(dest, src)
  }

  /** MOV, ADD, SUB, XOR, OR: `registers[dest] = op(registers[dest], registers[src])`
      with dest the low and src the high nibble of the operand. */
  function RegReg(vm: Vm, op: AluOp): (w: Vm)
    requires Shaped(vm) && InStore(vm.instPointer)
    ensures Shaped(w) && w == vm.(registers := w.registers)
    ensures var dest, src := LowNibble(Operand(vm)), HighNibble(Operand(vm));
      w.registers[dest] == Alu(op, vm.registers[dest], vm.registers[src]) &&
      forall r :: 0 <= r < REGISTER_COUNT && r != dest ==> w.registers[r] == vm.registers[r]
  {
    var dest, src := LowNibble(Operand(vm)), HighNibble(Operand(vm));
    vm.(registers := vm.registers[dest := Alu(op, vm.registers[dest], vm.registers[src])])
  }

  /** MOVC: `registers[0] = cop1`. */
  function Movc(vm: Vm): (w: Vm)
    requires Shaped(vm) && InStore(vm.instPointer)
    ensures Shaped(w) && w == vm.(registers := w.registers)
    ensures w.registers[0] == Operand(vm)
    ensures forall r :: 0 < r < REGISTER_COUNT ==> w.registers[r] == vm.registers[r]
  {
    vm.(registers := vm.registers[0 := Operand(vm)])
  }

  /** LSL: `registers[cop1 & 0x0F] <<= 1`. */
  function Lsl(vm: Vm): (w: Vm)
    requires Shaped(vm) && InStore(vm.instPointer)
    ensures Shaped(w) && w == vm.(registers := w.registers)
    ensures var x := LowNibble(Operand(vm));
      w.registers[x] == 2 * (vm.registers[x] % 128) &&
      forall r :: 0 <= r < REGISTER_COUNT && r != x ==> w.registers[r] == vm.registers[r]
  {
    var x := LowNibble(Operand(vm));
    vm.(registers := vm.registers[x := Shl1(vm.registers[x])])
  }

  /** LSR: `registers[cop1 & 0x0F] >>= 1`. */
  function Lsr(vm: Vm): (w: Vm)
    requires Shaped(vm) && InStore(vm.instPointer)
    ensures Shaped(w) && w == vm.(registers := w.registers)
    ensures var x := LowNibble(Operand(vm));
      w.registers[x] < 128 && vm.registers[x] == 2 * w.registers[x] + vm.registers[x] % 2 &&
      forall r :: 0 <= r < REGISTER_COUNT && r != x ==> w.registers[r] == vm.registers[r]
  {
    var x := LowNibble(Operand(vm));
    vm.(registers := vm.registers[x := Shr1(vm.registers[x])])
  }

  /** Moving the pointer to byte offset `p` and decoding `instReg1`/`instReg2`
      from the record found there (`incInstPointer`, and the tail of `JMP`).
      When the record at `p` is not inside the store the decode would read
      outside it; the model then only moves the pointer, and the caller
      reports a fault. */
  function Repoint(vm: Vm, p: int): (w: Vm)
    requires Shaped(vm)
    ensures Shaped(w) && w.instPointer == p
    ensures InStore(p) ==> Decoded(w)
    ensures !InStore(p) ==> w == vm.(instPointer := p)
    ensures w == vm.(instPointer := p, instReg1 := w.instReg1, instReg2 := w.instReg2)
  {
    if InStore(p) then
      var cop1 := vm.instructionSet[p + 1];
      vm.(instPointer := p, instReg1 := LowNibble(cop1), instReg2 := MisparsedHighNibble(cop1))
    else
      vm.(instPointer := p)
  }

  /** JMP: the pointer moves by the signed operand, counted in bytes from the
      jump's own record, the target record is decoded, and the jump is
      recorded so that the loop does not advance the pointer again. */
  function Jmp(vm: Vm): (w: Vm)
    requires Shaped(vm) && InStore(vm.instPointer)
    ensures Shaped(w) && w.instPointer == vm.instPointer + Signed(Operand(vm))
    ensures w.jumpInstExecuted
    ensures InStore(w.instPointer) ==> Decoded(w)
    ensures w == vm.(instPointer := w.instPointer, instReg1 := w.instReg1, instReg2 := w.instReg2,
                     jumpInstExecuted := true)
  {
    Repoint(vm, vm.instPointer + Signed(Operand(vm))).(jumpInstExecuted := true)
  }

  /** JFE: JMP when `eofFlag` is non-zero, nothing otherwise. */
  function Jfe(vm: Vm): (w: Vm)
    requires Shaped(vm) && InStore(vm.instPointer)
    ensures vm.eofFlag != 0 ==> w == Jmp(vm)
    ensures vm.eofFlag == 0 ==> w == vm
  {
    if vm.eofFlag != 0 then Jmp(vm) else vm
  }

  /** RET: `VM_Stop = true`. */
  function Ret(vm: Vm): Vm {
    vm.(stop := true)
  }

  /** `std::istream::get(char&)` on the data file: the next byte, or no byte
      and the eof bit set when none is left. */
  function Get(i: Input): (r: (Input, Option<byte>))
    requires InputValid(i)
    ensures InputValid(r.0) && r.0.bytes == i.bytes && i.pos <= r.0.pos <= i.pos + 1
    ensures r.1.Some? <==> i.pos < |i.bytes|
    ensures r.1.Some? ==> r.0 == i.(pos := i.pos + 1) && r.1.value == i.bytes[i.pos]
    ensures r.1.None? ==> r.0 == i.(eof := true) && r.0.pos == |i.bytes|
  {
    if i.pos < |i.bytes| then (i.(pos := i.pos + 1), Some(i.bytes[i.pos]))
    else (i.(eof := true), None)
  }

  /** IN: checks the stream's eof bit BEFORE reading. If it is set, `eofFlag`
      becomes 1 and no register changes; otherwise one byte is read into
      `registers[instReg1]` (0 when the read fails, the local `tempVal` being
      zero-initialised) and `eofFlag` becomes 0. */
  function In(vm: Vm, i: Input): (r: (Vm, Input))
    requires Shaped(vm) && 0 <= vm.instReg1 < REGISTER_COUNT && InputValid(i)
    ensures Shaped(r.0) && InputValid(r.1) && r.1.bytes == i.bytes
    ensures r.0 == vm.(registers := r.0.registers, eofFlag := r.0.eofFlag)
    ensures forall k :: 0 <= k < REGISTER_COUNT && k != vm.instReg1 ==> r.0.registers[k] == vm.registers[k]
    ensures r.0.eofFlag == (if i.eof then 1 else 0)
    ensures i.eof ==> r.0.registers == vm.registers && r.1 == i
    ensures !i.eof && i.pos < |i.bytes| ==>
      r.0.registers[vm.instReg1] == i.bytes[i.pos] && r.1 == i.(pos := i.pos + 1)
    ensures !i.eof && i.pos == |i.bytes| ==>
      r.0.registers[vm.instReg1] == 0 && r.1 == i.(eof := true)
  {
    if i.eof then
      (vm.(eofFlag := 1), i)
    else
      var (rest, got) := Get(i);
      var tempVal: byte := if got.Some? then got.value else 0;
      (vm.(registers := vm.registers[vm.instReg1 := tempVal], eofFlag := 0), rest)
  }

  /** OUT: writes `registers[cop1 & 0x0F]` after `output` when `eofFlag` is zero. */
  function Out(vm: Vm, output: seq<byte>): (r: seq<byte>)
    requires Shaped(vm) && InStore(vm.instPointer)
    ensures output <= r
    ensures |r| == |output| + (if vm.eofFlag == 0 then 1 else 0)
    ensures vm.eofFlag == 0 ==> r[|output|] == vm.registers[LowNibble(Operand(vm))]
  {
    if vm.eofFlag == 0 then output + [vm.registers[LowNibble(Operand(vm))]] else output
  }

  /** `decodeAndExecuteInst`: dispatch on the opcode of the current record.
      INC and DEC are empty, and any other opcode is ignored. */
  function Execute(c: Config): (r: Outcome)
    requires Shaped(c.vm) && InStore(c.vm.instPointer)
    requires 0 <= c.vm.instReg1 < REGISTER_COUNT && InputValid(c.input)
    ensures Shaped(r.c.vm) && InputValid(r.c.input)
    ensures r.c.vm.instructionSet == c.vm.instructionSet && r.c.input.bytes == c.input.bytes
    ensures c.input.pos <= r.c.input.pos <= c.input.pos + 1
    ensures c.output <= r.c.output && |r.c.output| <= |c.output| + 1
    ensures r.Next? && !r.c.vm.jumpInstExecuted ==> r.c.vm.instPointer == c.vm.instPointer
  {
    var code := Opcode(c.vm);
    if code == OP_MOV then Next(c.(vm := RegReg(c.vm, MovOp)))
    else if code == OP_MOVC then Next(c.(vm := Movc(c.vm)))
    else if code == OP_LSL then Next(c.(vm := Lsl(c.vm)))
    else if code == OP_LSR then Next(c.(vm := Lsr(c.vm)))
    else if code == OP_JMP || code == OP_JFE then
      var w := if code == OP_JMP then Jmp(c.vm) else Jfe(c.vm);
      if InStore(w.instPointer) then Next(c.(vm := w)) else Fault(c.(vm := w))
    else if code == OP_RET then Next(c.(vm := Ret(c.vm)))
    else if code == OP_ADD then Next(c.(vm := RegReg(c.vm, AddOp)))
    else if code == OP_SUB then Next(c.(vm := RegReg(c.vm, SubOp)))
    else if code == OP_XOR then Next(c.(vm := RegReg(c.vm, XorOp)))
    else if code == OP_OR then Next(c.(vm := RegReg(c.vm, OrOp)))
    else if code == OP_IN then
      var (w, rest) := In(c.vm, c.input);
      Next(c.(vm := w, input := rest))
    else if code == OP_OUT then Next(c.(output := Out(c.vm, c.output)))
    else Next(c)
  }

  /** One pass of the run loop: execute the current instruction, then, unless
      it jumped, advance the pointer by one record and decode; finally clear
      `jumpInstExecuted`. */
  function Cycle(c: Config): (r: Outcome)
    requires Valid(c) && !c.vm.stop
    ensures r.Next? ==> Valid(r.c)
    ensures r.c.vm.instructionSet == c.vm.instructionSet && r.c.input.bytes == c.input.bytes
    ensures c.input.pos <= r.c.input.pos <= c.input.pos + 1
    ensures c.output <= r.c.output && |r.c.output| <= |c.output| + 1
  {
    match Execute(c)
    case Fault(f) => Fault(f)
    case Next(d) =>
      if d.vm.jumpInstExecuted then Next(d.(vm := d.vm.(jumpInstExecuted := false)))
      else
        var w := Repoint(d.vm, d.vm.instPointer + RECORD_SIZE);
        if InStore(w.instPointer) then Next(d.(vm := w)) else Fault(d.(vm := w))
  }

  /** One pass of the run loop on any configuration: `Cycle` where the loop
      can take one, and a fault elsewhere (a configuration `Run` never
      reaches). Being total, it can be handed to `Loop` as a value. */
  function Step(c: Config): (r: Outcome)
    ensures Valid(c) && !c.vm.stop ==> r == Cycle(c)
  {
    if Valid(c) && !c.vm.stop then Cycle(c) else Fault(c)
  }

  /** What the run loop relies on from a cycle: it keeps the program and the
      data file's bytes, reads and writes at most one byte, and continues only
      from a state between two cycles. */
  ghost predicate WellBehaved(step: Config -> Outcome) {
    forall d ::
      var r := step(d);
      r.c.vm.instructionSet == d.vm.instructionSet && r.c.input.bytes == d.input.bytes &&
      d.input.pos <= r.c.input.pos <= d.input.pos + 1 &&
      d.output <= r.c.output && |r.c.output| <= |d.output| + 1 &&
      (r.Next? ==> Valid(r.c))
  }

  lemma StepWellBehaved()
    ensures WellBehaved(Step)
  {
    forall d
      ensures var r := Step(d);
        r.c.vm.instructionSet == d.vm.instructionSet && r.c.input.bytes == d.input.bytes &&
        d.input.pos <= r.c.input.pos <= d.input.pos + 1 &&
        d.output <= r.c.output && |r.c.output| <= |d.output| + 1 &&
        (r.Next? ==> Valid(r.c))
    {
    }
  }

  /** The loop `while (!VM_Stop)` with the cycle `step`, bounded by `fuel`
      cycles. */
  function Loop(step: Config -> Outcome, c: Config, fuel: nat): RunResult
    decreases fuel
  {
    if c.vm.stop then Halted(c)
    else if fuel == 0 then OutOfFuel(c)
    else
      match step(c)
      case Fault(f) => Faulted(f)
      case Next(d) => Loop(step, d, fuel - 1)
  }

  /** A loop over a well-behaved cycle ends, when it halts or runs out of
      fuel, in a state between two cycles, with the program and the data
      file's bytes intact and the streams only moved forward. */
  lemma {:induction false} LoopKeeps(step: Config -> Outcome, c: Config, fuel: nat)
    requires WellBehaved(step) && Valid(c)
    ensures var r := Loop(step, c, fuel);
      (r.Halted? ==> r.c.vm.stop && Valid(r.c)) && (r.OutOfFuel? ==> Valid(r.c)) &&
      r.c.vm.instructionSet == c.vm.instructionSet && r.c.input.bytes == c.input.bytes &&
      c.input.pos <= r.c.input.pos && c.output <= r.c.output
    decreases fuel
  {
    if !c.vm.stop && fuel > 0 {
      var r := step(c);
      if r.Next? {
        LoopKeeps(step, r.c, fuel - 1);
      }
    }
  }

  /** The run loop `while (!VM_Stop)`, bounded by `fuel` cycles. From a
      state between two cycles (`Valid`) each cycle is `Cycle`; see
      `RunKeeps` and `RunUnfold`. */
  function Run(c: Config, fuel: nat): RunResult
  {
    Loop(Step, c, fuel)
  }

  /** A bounded run halts only on `VM_Stop`, and when it halts or runs out
      of fuel it is between two cycles; the program and the data file's
      bytes are never changed, and input and output only move forward. */
  lemma RunKeeps(c: Config, fuel: nat)
    requires Valid(c)
    ensures var r := Run(c, fuel);
      (r.Halted? ==> r.c.vm.stop && Valid(r.c)) && (r.OutOfFuel? ==> Valid(r.c)) &&
      r.c.vm.instructionSet == c.vm.instructionSet && r.c.input.bytes == c.input.bytes &&
      c.input.pos <= r.c.input.pos && c.output <= r.c.output
  {
    StepWellBehaved();
    LoopKeeps(Step, c, fuel);
  }

  /** A run from a halted machine, or with no fuel left, ends at once. */
  lemma RunEnds(c: Config, fuel: nat)
    ensures c.vm.stop ==> Run(c, fuel) == Halted(c)
    ensures !c.vm.stop && fuel == 0 ==> Run(c, fuel) == OutOfFuel(c)
  {
  }

  /** One turn of the run loop: with `fuel` cycles left, the run either
      faults in this cycle or goes on from the next state with one fewer. */
  lemma RunUnfold(c: Config, fuel: nat)
    requires Valid(c) && !c.vm.stop && fuel > 0
    ensures Cycle(c).Fault? ==> Run(c, fuel) == Faulted(Cycle(c).c)
    ensures Cycle(c).Next? ==> Run(c, fuel) == Run(Cycle(c).c, fuel - 1)
  {
  }

  /** The state `runProgram` reaches before its loop: the pointer on the first
      record and that record decoded. The initial registers and `eofFlag` are
      parameters because the C++ constructor leaves them uninitialised. */
  function Start(registers: seq<byte>, eofFlag: int, program: seq<byte>, data: seq<byte>): (c: Config)
    requires |registers| == REGISTER_COUNT && |program| == PROGRAM_MEMORY_SIZE
    ensures Valid(c) && !c.vm.stop && c.vm.instPointer == 0
    ensures c.vm.registers == registers && c.vm.eofFlag == eofFlag && c.vm.instructionSet == program
    ensures c.input == Input(data, 0, false) && c.output == []
  {
    var cop1 := program[1];
    Config(Vm(registers, program, eofFlag, LowNibble(cop1), MisparsedHighNibble(cop1), 0, false, false),
           Input(data, 0, false), [])
  }
}
