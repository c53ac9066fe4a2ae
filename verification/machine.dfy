/** The virtual machine as the C++ program has it: an object whose methods
    update its fields in place, a data file read one byte at a time, and an
    output sink that is appended to.

    Each method with an effect is proved to change the object exactly as the
    matching function of module Semantics says, and nothing beyond what it
    names in `modifies`; the empty INC and DEC change nothing, having nothing
    to modify. `readProgram` and the destructor are not part of this model. */
module Machine {
  import opened Bytes
  import opened Semantics

  /** The data file opened by `runProgram` (an `std::ifstream`). */
  class DataFile {
    const bytes: seq<byte>
    var pos: nat
    var eofBit: bool

    ghost predicate Valid()
      reads this
    {
      InputValid(Value())
    }

    /** The stream as a value. */
    function Value(): Input
      reads this
    {
      Input(bytes, pos, eofBit)
    }

    constructor (content: seq<byte>)
      ensures Valid() && Value() == Input(content, 0, false)
    {
      bytes := content;
      pos := 0;
      eofBit := false;
    }

    /** `eof()`: whether a read has already found the stream exhausted. */
    function Eof(): (b: bool)
      reads this
      requires Valid()
      ensures b ==> pos == |bytes|
    {
      eofBit
    }

    /** `get(char&)`: the next byte, or nothing and the eof bit set. */
    method Get() returns (got: Option<byte>)
      requires Valid()
      modifies this
      ensures Valid()
      ensures (Value(), got) == Semantics.Get(old(Value()))
    {
      if pos < |bytes| {
        got := Some(bytes[pos]);
        pos := pos + 1;
      } else {
        got := None;
        eofBit := true;
      }
    }
  }

  /** Standard output, as the sequence of bytes written to it. */
  class OutputSink {
    var written: seq<byte>

    constructor ()
      ensures written == []
    {
      written := [];
    }

    method Put(b: byte)
      modifies this
      ensures written == old(written) + [b]
    {
      written := written + [b];
    }
  }

  /** How `RunProgram` ended. */
  datatype Ending = Halt | Crash | FuelSpent

  class VirtualMachine {
    const registers: array<byte>
    const instructionSet: array<byte>
    var eofFlag: int
    var instReg1: int
    var instReg2: int
    var instPointer: int
    var jumpInstExecuted: bool
    var vmStop: bool

    ghost predicate Valid()
      reads this
    {
      registers.Length == REGISTER_COUNT && instructionSet.Length == PROGRAM_MEMORY_SIZE
    }

    /** The fields as a value. */
    ghost function State(): Vm
      reads this, registers, instructionSet
    {
      Vm(registers[..], instructionSet[..], eofFlag, instReg1, instReg2, instPointer,
         jumpInstExecuted, vmStop)
    }

    /** The machine together with its data file and output. */
    ghost function AsConfig(data: DataFile, out: OutputSink): Config
      reads this, registers, instructionSet, data, out
    {
      Config(State(), data.Value(), out.written)
    }

    /** A machine whose store already holds `program` (the result of
        `readProgram`). The initial registers and `eofFlag` are parameters
        because the C++ constructor leaves them uninitialised; the pointer
        starts at offset 0 in place of `nullptr`. */
    constructor (initialRegisters: seq<byte>, initialEofFlag: int, program: seq<byte>)
      requires |initialRegisters| == REGISTER_COUNT && |program| == PROGRAM_MEMORY_SIZE
      ensures Valid() && fresh(registers) && fresh(instructionSet)
      ensures State() == Vm(initialRegisters, program, initialEofFlag, 0, 0, 0, false, false)
    {
      registers := new byte[REGISTER_COUNT](i requires 0 <= i < REGISTER_COUNT => initialRegisters[i]);
      instructionSet := new byte[PROGRAM_MEMORY_SIZE](i requires 0 <= i < PROGRAM_MEMORY_SIZE => program[i]);
      eofFlag := initialEofFlag;
      instReg1, instReg2 := 0, 0;
      instPointer := 0;
      jumpInstExecuted, vmStop := false, false;
    }

    /** Moves the pointer to `p` and decodes the record there, if there is one. */
    method PointTo(p: int)
      requires Valid()
      modifies this
      ensures Valid() && State() == Repoint(old(State()), p)
    {
      instPointer := p;
      if InStore(p) {
        var cop1 := instructionSet[p + 1];
        instReg1 := LowNibble(cop1);
        instReg2 := MisparsedHighNibble(cop1);
      }
    }

    /** `incInstPointer`: advance by one record and decode it. */
    method IncInstPointer()
      requires Valid()
      modifies this
      ensures Valid() && State() == Repoint(old(State()), old(instPointer) + RECORD_SIZE)
    {
      PointTo(instPointer + RECORD_SIZE);
    }

    /** `decodeAndExecuteInst`; reports whether the pointer is still inside
        the store afterwards (only a jump can take it out). */
    method DecodeAndExecuteInst(code: byte, data: DataFile, out: OutputSink) returns (ok: bool)
      requires Valid() && data.Valid() && InStore(instPointer) && 0 <= instReg1 < REGISTER_COUNT
      requires code == Opcode(State())
      modifies this, registers, data, out
      ensures Valid() && data.Valid()
      ensures AsConfig(data, out) == Execute(old(AsConfig(data, out))).c
      ensures ok == Execute(old(AsConfig(data, out))).Next?
    {
      if code == OP_INC {
        INC();
      } else if code == OP_DEC {
        DEC();
      } else if code == OP_MOV {
        MOV();
      } else if code == OP_MOVC {
        MOVC();
      } else if code == OP_LSL {
        LSL();
      } else if code == OP_LSR {
        LSR();
      } else if code == OP_JMP {
        JMP();
      } else if code == OP_JFE {
        JFE();
      } else if code == OP_RET {
        RET();
      } else if code == OP_ADD {
        ADD();
      } else if code == OP_SUB {
        SUB();
      } else if code == OP_XOR {
        XOR();
      } else if code == OP_OR {
        OR();
      } else if code == OP_IN {
        IN(data);
      } else if code == OP_OUT {
        OUT(out);
      }
      ok := InStore(instPointer);
    }

    /** One pass of the `while (!VM_Stop)` loop; reports whether the pointer
        is still inside the store. */
    method Cycle(data: DataFile, out: OutputSink) returns (ok: bool)
      requires Valid() && data.Valid() && Semantics.Valid(AsConfig(data, out)) && !vmStop
      modifies this, registers, data, out
      ensures Valid() && data.Valid()
      ensures AsConfig(data, out) == Semantics.Cycle(old(AsConfig(data, out))).c
      ensures ok == Semantics.Cycle(old(AsConfig(data, out))).Next?
    {
      ok := DecodeAndExecuteInst(instructionSet[instPointer], data, out);
      if ok {
        if !jumpInstExecuted {
          IncInstPointer();
          ok := InStore(instPointer);
        }
        jumpInstExecuted := false;
      }
    }

    /** `runProgram` once the program is loaded and the data file is open:
        point at the first record, decode it, then run the loop for at most
        `fuel` cycles. The object must be fresh from the constructor. */
    method RunProgram(data: DataFile, out: OutputSink, fuel: nat) returns (ending: Ending)
      requires Valid() && data.Valid() && data.Value() == Input(data.bytes, 0, false)
      requires !vmStop && !jumpInstExecuted && out.written == []
      modifies this, registers, data, out
      ensures Valid()
      ensures var r := Run(Start(old(registers[..]), old(eofFlag), instructionSet[..], data.bytes), fuel);
        AsConfig(data, out) == r.c &&
        (ending == Halt <==> r.Halted?) && (ending == Crash <==> r.Faulted?)
    {
      PointTo(0);
      assert AsConfig(data, out) == Start(old(registers[..]), old(eofFlag), instructionSet[..], data.bytes);
      ending := RunLoop(data, out, fuel);
    }

    /** The `while (!VM_Stop)` loop of `runProgram`, for at most `fuel`
        cycles; it ends early, with `Crash`, when a cycle takes the pointer
        out of the store. */
    method RunLoop(data: DataFile, out: OutputSink, fuel: nat) returns (ending: Ending)
      requires Valid() && data.Valid() && Semantics.Valid(AsConfig(data, out))
      modifies this, registers, data, out
      ensures Valid()
      ensures var r := Run(old(AsConfig(data, out)), fuel);
        AsConfig(data, out) == r.c &&
        (ending == Halt <==> r.Halted?) && (ending == Crash <==> r.Faulted?)
    {
      ghost var final := Run(AsConfig(data, out), fuel);
      var left := fuel;
      while !vmStop && left > 0
        invariant Valid() && data.Valid() && Semantics.Valid(AsConfig(data, out))
        invariant Run(AsConfig(data, out), left) == final
        decreases left
      {
        var ok := Turn(data, out, left);
        if !ok {
          return Crash;
        }
        left := left - 1;
      }
      RunEnds(AsConfig(data, out), left);
      ending := if vmStop then Halt else FuelSpent;
    }

    /** One pass of the loop seen from the bounded run: with `left` cycles
        to go, the run either faults in this pass or goes on from the new
        state with one cycle fewer. */
    method Turn(data: DataFile, out: OutputSink, ghost left: nat) returns (ok: bool)
      requires Valid() && data.Valid() && Semantics.Valid(AsConfig(data, out)) && !vmStop && left > 0
      modifies this, registers, data, out
      ensures Valid() && data.Valid()
      ensures ok ==> Semantics.Valid(AsConfig(data, out))
      ensures ok ==> Run(old(AsConfig(data, out)), left) == Run(AsConfig(data, out), left - 1)
      ensures !ok ==> Run(old(AsConfig(data, out)), left) == Faulted(AsConfig(data, out))
    {
      RunUnfold(AsConfig(data, out), left);
      ok := Cycle(data, out);
    }

    /** `IN`: see `Semantics.In`. */
    method IN(data: DataFile)
      requires Valid() && data.Valid() && 0 <= instReg1 < REGISTER_COUNT
      modifies this, registers, data
      ensures Valid() && data.Valid()
      ensures (State(), data.Value()) == In(old(State()), old(data.Value()))
    {
      var tempVal: byte := 0;
      if data.Eof() {
        eofFlag := 1;
      } else {
        var got := data.Get();
        if got.Some? {
          tempVal := got.value;
        }
        registers[instReg1] := tempVal;
        eofFlag := 0;
      }
    }

    /** `INC`: empty in the C++ program. */
    method INC()
    {
    }

    /** `DEC`: empty in the C++ program. */
    method DEC()
    {
    }

    /** The body shared by MOV, ADD, SUB, XOR and OR. */
    method RegisterOp(op: AluOp)
      requires Valid() && InStore(instPointer)
      modifies registers
      ensures State() == RegReg(old(State()), op)
    {
      var cop1 := instructionSet[instPointer + 1];
      var x, y := LowNibble(cop1), HighNibble(cop1);
      registers[x] := Alu(op, registers[x], registers[y]);
    }

    method MOV()
      requires Valid() && InStore(instPointer)
      modifies registers
      ensures State() == RegReg(old(State()), MovOp)
    {
      RegisterOp(MovOp);
    }

    method MOVC()
      requires Valid() && InStore(instPointer)
      modifies registers
      ensures State() == Movc(old(State()))
    {
      registers[0] := instructionSet[instPointer + 1];
    }

    method LSL()
      requires Valid() && InStore(instPointer)
      modifies registers
      ensures State() == Lsl(old(State()))
    {
      var x := LowNibble(instructionSet[instPointer + 1]);
      registers[x] := Shl1(registers[x]);
    }

    method LSR()
      requires Valid() && InStore(instPointer)
      modifies registers
      ensures State() == Lsr(old(State()))
    {
      var x := LowNibble(instructionSet[instPointer + 1]);
      registers[x] := Shr1(registers[x]);
    }

    method JMP()
      requires Valid() && InStore(instPointer)
      modifies this
      ensures Valid() && State() == Jmp(old(State()))
    {
      ghost var before := State();
      var target := instPointer + Signed(instructionSet[instPointer + 1]);
      assert target == before.instPointer + Signed(Operand(before));
      PointTo(target);
      ghost var moved := State();
      jumpInstExecuted := true;
      assert State() == moved.(jumpInstExecuted := true);
    }

    method JFE()
      requires Valid() && InStore(instPointer)
      modifies this
      ensures Valid() && State() == Jfe(old(State()))
    {
      if eofFlag != 0 {
        JMP();
      }
    }

    method RET()
      modifies this
      ensures vmStop
      ensures State() == Ret(old(State()))
    {
      vmStop := true;
    }

    method ADD()
      requires Valid() && InStore(instPointer)
      modifies registers
      ensures State() == RegReg(old(State()), AddOp)
    {
      RegisterOp(AddOp);
    }

    method SUB()
      requires Valid() && InStore(instPointer)
      modifies registers
      ensures State() == RegReg(old(State()), SubOp)
    {
      RegisterOp(SubOp);
    }

    method XOR()
      requires Valid() && InStore(instPointer)
      modifies registers
      ensures State() == RegReg(old(State()), XorOp)
    {
      RegisterOp(XorOp);
    }

    method OR()
      requires Valid() && InStore(instPointer)
      modifies registers
      ensures State() == RegReg(old(State()), OrOp)
    {
      RegisterOp(OrOp);
    }

    method OUT(out: OutputSink)
      requires Valid() && InStore(instPointer)
      modifies out
      ensures out.written == Out(State(), old(out.written))
    {
      if eofFlag == 0 {
        var x := LowNibble(instructionSet[instPointer + 1]);
        out.Put(registers[x]);
      }
    }
  }
}
