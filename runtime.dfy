/** VonNeumann/runtime.py as it is written: a Memory object around an array of int32
    cells, and an Interpreter whose handlers update that array, the table of function
    start points and the reading flag in place. Every method is proved to do what the
    function of the same name in Semantics says. */
module Runtime {
  import opened Wrappers
  import opened Isa
  import opened Decoder
  import S = Semantics

  /** The outcome of a handler: the exception the specification raises, or success with
      the state the specification computes. */
  predicate Follows<T>(r: Result<T>, now: S.Machine, spec: Result<S.Machine>) {
    (r.Ok? <==> spec.Ok?) && (spec.Ok? ==> now == spec.value) && (spec.Err? ==> r.error == spec.error)
  }

  /** The outcome of dispatch and execute: also whether execution goes on. */
  predicate StepFollows(r: Result<bool>, now: S.Machine, spec: Result<S.Step>) {
    (r.Ok? <==> spec.Ok?) &&
    (spec.Ok? ==> r.value == spec.value.running && now == spec.value.next) &&
    (spec.Err? ==> r.error == spec.error)
  }

  class Memory {
    const cells: array<S.Int32>

    /** np.zeros(memory_size, dtype=np.int32) */
    constructor(memorySize: nat)
      ensures fresh(cells) && cells[..] == seq(memorySize, _ => 0)
    {
      cells := new S.Int32[memorySize](_ => 0);
    }

    method WriteWord(address: int, word: int) returns (r: Result<()>)
      modifies cells
      ensures r.Ok? <==> S.Store(old(cells[..]), address, word).Ok?
      ensures r.Ok? ==> cells[..] == S.Store(old(cells[..]), address, word).value
      ensures r.Err? ==> cells[..] == old(cells[..]) && r.error == S.Store(old(cells[..]), address, word).error
    {
      var i :- S.Locate(cells.Length, address);
      cells[i] := S.Wrap(word);
      return Ok(());
    }

    method ReadWord(address: int) returns (r: Result<S.Int32>)
      ensures r == S.Read(cells[..], address)
    {
      var i :- S.Locate(cells.Length, address);
      return Ok(cells[i]);
    }
  }

  class Interpreter {
    const memory: Memory
    const staticOffset: int
    var functionStartpoints: map<int, S.Int32>
    var readingFunction: bool

    constructor(memory: Memory, staticOffset: int)
      ensures this.memory == memory && this.staticOffset == staticOffset
      ensures functionStartpoints == map[] && !readingFunction
    {
      this.memory := memory;
      this.staticOffset := staticOffset;
      functionStartpoints := map[];
      readingFunction := false;
    }

    /** The interpreter's state as the specification sees it. */
    function State(): S.Machine
      reads this, memory, memory.cells
    {
      S.Machine(memory.cells[..], functionStartpoints, readingFunction)
    }

    method IpValue() returns (r: Result<S.Int32>)
      ensures r == S.Read(memory.cells[..], IpIndex)
    {
      r := memory.ReadWord(IpIndex);
    }

    method SpValue() returns (r: Result<S.Int32>)
      ensures r == S.Read(memory.cells[..], SpIndex)
    {
      r := memory.ReadWord(SpIndex);
    }

    /** The loop of get_value. */
    method GetValue(value: int, access: nat) returns (r: Result<int>)
      ensures r == S.GetValue(memory.cells[..], value, access)
    {
      var v := value;
      for i := 0 to access
        invariant S.GetValue(memory.cells[..], v, access - i) == S.GetValue(memory.cells[..], value, access)
      {
        v :- memory.ReadWord(v);
      }
      return Ok(v);
    }

    method NextCommand() returns (r: Result<()>)
      modifies memory.cells
      ensures Follows(r, State(), S.Advance(old(State())))
    {
      var ip :- memory.ReadWord(IpIndex);
      var _ := memory.WriteWord(IpIndex, ip as int + 1);
      return Ok(());
    }

    /** The write_word of a handler, followed by next_command when `advance` is set. */
    method WriteThen(address: int, value: int, advance: bool) returns (r: Result<bool>)
      modifies memory.cells
      ensures Follows(r, State(), S.WriteThen(old(State()), address, value, advance)) && (r.Ok? ==> r.value)
    {
      var _ :- memory.WriteWord(address, value);
      if advance {
        var _ :- NextCommand();
      }
      return Ok(true);
    }

    method Mov(destAccess: nat, dest: nat, srcAccess: nat, src: nat) returns (r: Result<bool>)
      modifies memory.cells
      ensures Follows(r, State(), S.Mov(old(State()), destAccess, dest, srcAccess, src)) && (r.Ok? ==> r.value)
    {
      if !IsReg(dest) || !IsReg(src) {
        return Err("AssertionError: not a register");
      }
      var destAddress :- GetValue(dest, destAccess);
      var srcValue :- GetValue(src, srcAccess);
      r := WriteThen(destAddress, srcValue, true);
    }

    method Add(destAccess: nat, dest: nat, termAccess: nat, term: nat) returns (r: Result<bool>)
      modifies memory.cells
      ensures Follows(r, State(), S.Add(old(State()), destAccess, dest, termAccess, term)) && (r.Ok? ==> r.value)
    {
      if !IsReg(dest) || !IsReg(term) {
        return Err("AssertionError: not a register");
      }
      var destAddress :- GetValue(dest, destAccess);
      var additionValue :- GetValue(term, termAccess);
      var raw :- memory.ReadWord(dest);
      r := WriteThen(destAddress, raw as int + additionValue, true);
    }

    method Sub(destAccess: nat, dest: nat, subAccess: nat, sub: nat) returns (r: Result<bool>)
      modifies memory.cells
      ensures Follows(r, State(), S.Sub(old(State()), destAccess, dest, subAccess, sub)) && (r.Ok? ==> r.value)
    {
      if !IsReg(dest) || !IsReg(sub) {
        return Err("AssertionError: not a register");
      }
      var destAddress :- GetValue(dest, destAccess);
      var subValue :- GetValue(sub, subAccess);
      var raw :- memory.ReadWord(dest);
      r := WriteThen(destAddress, raw as int - subValue, true);
    }

    method AddI(destAccess: nat, dest: nat, term: int, advance: bool) returns (r: Result<bool>)
      modifies memory.cells
      ensures Follows(r, State(), S.AddI(old(State()), destAccess, dest, term, advance)) && (r.Ok? ==> r.value)
    {
      if !IsReg(dest) {
        return Err("AssertionError: not a register");
      }
      var destAddress :- GetValue(dest, destAccess);
      var raw :- memory.ReadWord(dest);
      r := WriteThen(destAddress, raw as int + term, advance);
    }

    method SubI(destAccess: nat, dest: nat, sub: int, advance: bool) returns (r: Result<bool>)
      modifies memory.cells
      ensures Follows(r, State(), S.SubI(old(State()), destAccess, dest, sub, advance)) && (r.Ok? ==> r.value)
    {
      if !IsReg(dest) {
        return Err("AssertionError: not a register");
      }
      var destAddress :- GetValue(dest, destAccess);
      var raw :- memory.ReadWord(dest);
      r := WriteThen(destAddress, raw as int - sub, advance);
    }

    method Jump(destAccess: nat, dest: nat) returns (r: Result<bool>)
      modifies memory.cells
      ensures Follows(r, State(), S.Jump(old(State()), destAccess, dest)) && (r.Ok? ==> r.value)
    {
      if !IsReg(dest) {
        return Err("AssertionError: not a register");
      }
      var instructionNumber :- GetValue(dest, destAccess);
      var _ :- memory.WriteWord(IpIndex, instructionNumber);
      return Ok(true);
    }

    method JumpIfGz(valAccess: nat, val: nat, imm: nat) returns (r: Result<bool>)
      modifies memory.cells
      ensures Follows(r, State(), S.JumpIfGz(old(State()), valAccess, val, imm)) && (r.Ok? ==> r.value)
    {
      if !IsReg(val) {
        return Err("AssertionError: not a register");
      }
      var value :- GetValue(val, valAccess);
      if value > 0 {
        r := AddI(0, IpIndex, imm, false);
      } else {
        var _ :- NextCommand();
        r := Ok(true);
      }
    }

    method Pop() returns (r: Result<bool>)
      modifies memory.cells
      ensures Follows(r, State(), S.Pop(old(State()))) && (r.Ok? ==> r.value)
    {
      var _ :- AddI(0, SpIndex, 1, false);
      var _ :- NextCommand();
      return Ok(true);
    }

    method Push(valAccess: nat, val: int, advance: bool) returns (r: Result<bool>)
      modifies memory.cells
      ensures Follows(r, State(), S.Push(old(State()), valAccess, val, advance)) && (r.Ok? ==> r.value)
    {
      var sp :- memory.ReadWord(SpIndex);
      var _ := memory.WriteWord(SpIndex, sp as int - 1);
      var top := SpValue();
      var value :- GetValue(val, valAccess);
      r := WriteThen(top.value, value, advance);
    }

    method Call(functionNumber: nat) returns (r: Result<bool>)
      modifies memory.cells
      ensures Follows(r, State(), S.Call(old(State()), functionNumber)) && (r.Ok? ==> r.value)
    {
      var ip :- IpValue();
      var _ :- Push(0, ip as int + 1, false);
      if functionNumber !in functionStartpoints {
        return Err("KeyError: unknown function");
      }
      var _ := memory.WriteWord(IpIndex, functionStartpoints[functionNumber]);
      return Ok(true);
    }

    method IndirCall(valAccess: nat, val: nat) returns (r: Result<bool>)
      modifies memory.cells
      ensures Follows(r, State(), S.IndirCall(old(State()), valAccess, val)) && (r.Ok? ==> r.value)
    {
      var functionNumber :- GetValue(val, valAccess);
      var ip :- IpValue();
      var _ :- Push(0, ip as int + 1, false);
      if functionNumber !in functionStartpoints {
        return Err("KeyError: unknown function");
      }
      var _ := memory.WriteWord(IpIndex, functionStartpoints[functionNumber]);
      return Ok(true);
    }

    method FBegin(functionNumber: nat) returns (r: Result<bool>)
      modifies this, memory.cells
      ensures Follows(r, State(), S.FBegin(old(State()), functionNumber)) && (r.Ok? ==> r.value)
    {
      if readingFunction {
        return Err("RuntimeError: Nested functions are not implemented");
      }
      var ip :- IpValue();
      functionStartpoints := functionStartpoints[functionNumber := S.Wrap(ip as int + 1)];
      readingFunction := true;
      var _ := NextCommand();
      return Ok(true);
    }

    method FEnd() returns (r: Result<bool>)
      modifies this, memory.cells
      ensures Follows(r, State(), S.FEnd(old(State()))) && (r.Ok? ==> r.value)
    {
      readingFunction := false;
      var _ :- NextCommand();
      return Ok(true);
    }

    method LoadL(destAccess: nat, dest: nat, imm: nat) returns (r: Result<bool>)
      modifies memory.cells
      ensures Follows(r, State(), S.LoadL(old(State()), destAccess, dest, imm)) && (r.Ok? ==> r.value)
    {
      if !IsReg(dest) {
        return Err("AssertionError: not a register");
      }
      if imm >= 0x1_0000 {
        return Err("AssertionError: immediate out of range");
      }
      var destAddress :- GetValue(dest, destAccess);
      var prev :- memory.ReadWord(destAddress);
      r := WriteThen(destAddress, S.LoadLow(prev, imm), true);
    }

    method LoadH(destAccess: nat, dest: nat, imm: nat) returns (r: Result<bool>)
      modifies memory.cells
      ensures Follows(r, State(), S.LoadH(old(State()), destAccess, dest, imm)) && (r.Ok? ==> r.value)
    {
      if !IsReg(dest) {
        return Err("AssertionError: not a register");
      }
      if imm >= 0x1_0000 {
        return Err("AssertionError: immediate out of range");
      }
      var destAddress :- GetValue(dest, destAccess);
      var prev :- memory.ReadWord(destAddress);
      r := WriteThen(destAddress, S.LoadHigh(prev, imm), true);
    }

    /** The dispatch table, called with the decoded operands. */
    method Handle(d: Decoded) returns (r: Result<bool>)
      requires LayoutOf(d.opcode) == Some(d.Layout())
      modifies this, memory.cells
      ensures StepFollows(r, State(), S.Handle(old(State()), d))
    {
      match d
      case RegReg(op, a1, r1, a2, r2) =>
        if op == OpMov {
          r := Mov(a1, r1, a2, r2);
        } else if op == OpAdd {
          r := Add(a1, r1, a2, r2);
        } else {
          r := Sub(a1, r1, a2, r2);
        }
      case RegImm(op, a, reg, imm) =>
        if op == OpJumpIfGz {
          r := JumpIfGz(a, reg, imm);
        } else if op == OpLoadL {
          r := LoadL(a, reg, imm);
        } else if op == OpLoadH {
          r := LoadH(a, reg, imm);
        } else if op == OpAddI {
          r := AddI(a, reg, imm, true);
        } else {
          r := SubI(a, reg, imm, true);
        }
      case Reg(op, a, reg) =>
        if op == OpPush {
          r := Push(a, reg, true);
        } else if op == OpJump {
          r := Jump(a, reg);
        } else if op == OpIndirCall {
          r := IndirCall(a, reg);
        } else {
          r := Err("input/output is not part of this model");
        }
      case Imm(op, imm) =>
        if op == OpCall {
          r := Call(imm);
        } else if op == OpFBegin {
          r := FBegin(imm);
        } else {
          r := Err("input/output is not part of this model");
        }
      case OpcodeOnly(op) =>
        if op == OpPop {
          r := Pop();
        } else if op == OpFEnd {
          r := FEnd();
        } else {
          r := Ok(false);
        }
    }

    method Dispatch() returns (r: Result<bool>)
      modifies this, memory.cells
      ensures StepFollows(r, State(), S.Dispatch(old(State())))
    {
      var ip :- IpValue();
      var instruction :- GetValue(ip, 1);
      var d :- Decode(S.Unsigned(instruction));
      if readingFunction && d.opcode != OpFEnd {
        var _ :- NextCommand();
        return Ok(true);
      }
      r := Handle(d);
    }

    /** The loop of execute, for at most `fuel` dispatches: Ok(false) once TERM is
        reached, Ok(true) if the fuel ran out first. */
    method Execute(fuel: nat) returns (r: Result<bool>)
      modifies this, memory.cells
      ensures StepFollows(r, State(), S.Run(old(State()), fuel))
    {
      var n := fuel;
      while n > 0
        invariant S.Run(old(State()), fuel) == S.Run(State(), n)
        decreases n
      {
        var running := Dispatch();
        if running.Err? || !running.value {
          return running;
        }
        n := n - 1;
      }
      return Ok(true);
    }
  }
}
