/** The classic-BPF program of the seccomp network filter and the machine that runs it. */
module Seccomp {
  import opened Prelude

  datatype Instruction = Instruction(code: nat, jt: nat, jf: nat, k: nat)

  const LOAD_ABSOLUTE := 0x20
  const JUMP_IF_EQUAL := 0x15
  const RETURN := 0x06

  const WORD := 0x1_0000_0000

  /** A C unsigned field of 32 bits keeps the value modulo its size. */
  function Truncated(k: nat): nat { k % WORD }

  function Pair(number: nat, denied: nat): seq<Instruction> {
    [Instruction(JUMP_IF_EQUAL, 0, 1, Truncated(number)), Instruction(RETURN, 0, 0, Truncated(denied))]
  }

  function Pairs(numbers: seq<nat>, denied: nat): (r: seq<Instruction>)
    ensures |r| == 2 * |numbers|
    ensures forall i :: 0 <= i < |numbers| ==> r[2 * i] == Pair(numbers[i], denied)[0] && r[2 * i + 1] == Pair(numbers[i], denied)[1]
  {
    if numbers == [] then [] else Pairs(numbers[..|numbers| - 1], denied) + Pair(numbers[|numbers| - 1], denied)
  }

  function Program(numbers: seq<nat>, denied: nat, allow: nat): seq<Instruction> {
    [Instruction(LOAD_ABSOLUTE, 0, 0, 0)] + Pairs(numbers, denied) + [Instruction(RETURN, 0, 0, Truncated(allow))]
  }

  /** The program that `_install_seccomp_network_filter` assembles. */
  method Assemble(numbers: seq<nat>, denied: nat, allow: nat) returns (program: seq<Instruction>)
    ensures program == Program(numbers, denied, allow)
  {
    program := [Instruction(LOAD_ABSOLUTE, 0, 0, 0)];
    for i := 0 to |numbers|
      invariant program == [Instruction(LOAD_ABSOLUTE, 0, 0, 0)] + Pairs(numbers[..i], denied)
    {
      assert numbers[..i + 1][..i] == numbers[..i];
      program := program + [Instruction(JUMP_IF_EQUAL, 0, 1, Truncated(numbers[i])), Instruction(RETURN, 0, 0, Truncated(denied))];
    }
    assert numbers[..|numbers|] == numbers;
    program := program + [Instruction(RETURN, 0, 0, Truncated(allow))];
  }

  /** The machine: the accumulator, forward jumps relative to the next instruction, and the value
      returned; None where it runs off the program or meets an instruction it does not know.
      `number` is the system call number at offset 0 of the data. */
  function Execute(program: seq<Instruction>, number: nat, pc: nat, accumulator: nat): Option<nat>
    decreases |program| - pc
  {
    if pc >= |program| then None
    else
      var op := program[pc];
      if op.code == LOAD_ABSOLUTE && op.k == 0 then Execute(program, number, pc + 1, number)
      else if op.code == JUMP_IF_EQUAL then
        Execute(program, number, pc + 1 + if accumulator == op.k then op.jt else op.jf, accumulator)
      else if op.code == RETURN then Some(op.k)
      else None
  }

  predicate Denied(numbers: seq<nat>, number: nat) {
    exists i :: 0 <= i < |numbers| && Truncated(numbers[i]) == number
  }

  /** From the comparison with one listed number on, the program decides about it and those after it. */
  lemma {:induction false} ExecuteFrom(numbers: seq<nat>, denied: nat, allow: nat, number: nat, i: nat)
    requires i <= |numbers|
    ensures Execute(Program(numbers, denied, allow), number, 2 * i + 1, number) ==
            Some(Truncated(if Denied(numbers[i..], number) then denied else allow))
    decreases |numbers| - i
  {
    var program := Program(numbers, denied, allow);
    if i == |numbers| {
      assert program[2 * i + 1] == Instruction(RETURN, 0, 0, Truncated(allow));
      assert numbers[i..] == [];
    } else {
      var jump, deny := program[2 * i + 1], program[2 * i + 2];
      assert jump == Pairs(numbers, denied)[2 * i] && deny == Pairs(numbers, denied)[2 * i + 1];
      assert jump == Instruction(JUMP_IF_EQUAL, 0, 1, Truncated(numbers[i])) && deny == Instruction(RETURN, 0, 0, Truncated(denied));
      ExecuteFrom(numbers, denied, allow, number, i + 1);
      DeniedHead(numbers[i..], number);
      assert numbers[i..][1..] == numbers[i + 1..];
      hide Program, Denied;
      if Truncated(numbers[i]) == number {
        assert Execute(program, number, 2 * i + 2, number) == Some(Truncated(denied));
        assert Execute(program, number, 2 * i + 1, number) == Execute(program, number, 2 * i + 2, number);
      } else {
        assert Execute(program, number, 2 * i + 1, number) == Execute(program, number, 2 * (i + 1) + 1, number);
      }
    }
  }

  lemma DeniedHead(numbers: seq<nat>, number: nat)
    requires numbers != []
    ensures Denied(numbers, number) <==> Truncated(numbers[0]) == number || Denied(numbers[1..], number)
  {
    if Denied(numbers, number) {
      var i :| 0 <= i < |numbers| && Truncated(numbers[i]) == number;
      if i > 0 { assert numbers[1..][i - 1] == numbers[i]; }
    }
    if Denied(numbers[1..], number) {
      var i :| 0 <= i < |numbers| - 1 && Truncated(numbers[1..][i]) == number;
      assert numbers[i + 1] == numbers[1..][i];
    }
  }

  /** For every list of numbers and every system call the program ends inside itself, with the deny
      value exactly for the listed numbers and the allow value for all others. */
  lemma FilterDecides(numbers: seq<nat>, denied: nat, allow: nat, number: nat)
    ensures Execute(Program(numbers, denied, allow), number, 0, 0) ==
            Some(Truncated(if Denied(numbers, number) then denied else allow))
  {
    ExecuteFrom(numbers, denied, allow, number, 0);
    assert numbers[0..] == numbers;
    assert Program(numbers, denied, allow)[0] == Instruction(LOAD_ABSOLUTE, 0, 0, 0);
  }
}
