/** The three-bit computer of package `threebitcomputer`: three registers
    `a`, `b`, `c`, an instruction pointer, a `done` flag, a `OneTime` flag
    that makes the first `jnz` halt the machine, and the decimal strings
    written by `out`. Instructions are (opcode, operand) pairs of a program
    of integers.

    `Machine` is the value of a computer's state and `Exec`/`RunSpec` say
    what one instruction and a whole run do to it; the class `Computer`
    holds the same state in fields and its methods are proved to follow
    those functions. */
module ThreeBitComputer {
  import opened GoInt
  import opened Text
  import opened Wrappers

  /** Opcodes advance the instruction pointer by `Move` (the Go code's
      `move`); `Eight` is the modulus of `bst` and `out`. */
  const Move: int := 2
  const Eight: int := 8

  datatype Machine = Machine(a: int, b: int, c: int, ip: int, done: bool, oneTime: bool, out: seq<string>)

  /** How a call of `Run` ends. `Fault` is the "something bad happened"
      exit for a result of -1 (an unknown opcode, or a jump to -1), `Panic`
      an index out of range on the program slice, and `OutOfFuel` a run
      longer than the step budget, which stands in for a machine that never
      halts. */
  datatype Outcome = Halted | Fault | Panic | OutOfFuel

  /** The combo operand: literals 0..3 stand for themselves (so do negative
      operands), 4, 5 and 6 name the registers `a`, `b` and `c`, and every
      larger operand reads as 7. */
  function Combo(m: Machine, operand: int): int
  {
    if operand == 4 then m.a
    else if operand == 5 then m.b
    else if operand == 6 then m.c
    else if operand <= 3 then operand
    else 7
  }

  /** `int(math.Trunc(float64(a) / math.Pow(2, k)))`, with the float
      division taken as exact: the quotient of `a` by 2^k truncated toward
      zero, and `a` times 2^-k for a negative `k`. */
  function Div(a: int, k: int): int
  {
    if k >= 0 then Quo(a, Pow2(k)) else a * Pow2(-k)
  }

  /** For a non-negative numerator the division is a floor division that
      never increases the value; by 2^3 it is the octal shift. */
  lemma DivNonNegative(a: int, k: int)
    requires a >= 0 && k >= 0
    ensures Div(a, k) == a / Pow2(k)
    ensures 0 <= Div(a, k) <= a
  {
    QuoRemNonNegative(a, Pow2(k));
    FloorDivBound(a, Pow2(k));
  }

  lemma FloorDivBound(a: int, p: int)
    requires a >= 0 && p >= 1
    ensures 0 <= a / p <= a
  {
    assert a == p * (a / p) + a % p;
    NoShrink(a / p, p);
  }

  lemma NoShrink(q: int, p: int)
    requires q >= 0 && p >= 1
    ensures q <= q * p
  {
    assert q * p == q + q * (p - 1);
  }

  /** One instruction: the new state and the value `execute` returns (the
      next instruction pointer, or -1 for an unknown opcode). */
  function Exec(m: Machine, opcode: int, operand: int): (Machine, int)
  {
    if opcode == 0 then
      var m' := m.(a := Div(m.a, Combo(m, operand)), ip := m.ip + Move); (m', m'.ip)
    else if opcode == 1 then
      var m' := m.(b := Xor(m.b, operand), ip := m.ip + Move); (m', m'.ip)
    else if opcode == 2 then
      var m' := m.(b := Rem(Combo(m, operand), Eight), ip := m.ip + Move); (m', m'.ip)
    else if opcode == 3 then
      if m.oneTime || m.a == 0 then (m.(done := true), m.ip)
      else (m.(ip := operand), operand)
    else if opcode == 4 then
      var m' := m.(b := Xor(m.b, m.c), ip := m.ip + Move); (m', m'.ip)
    else if opcode == 5 then
      var m' := m.(out := m.out + [Itoa(Rem(Combo(m, operand), Eight))], ip := m.ip + Move); (m', m'.ip)
    else if opcode == 6 then
      var m' := m.(b := Div(m.a, Combo(m, operand)), ip := m.ip + Move); (m', m'.ip)
    else if opcode == 7 then
      var m' := m.(c := Div(m.a, Combo(m, operand)), ip := m.ip + Move); (m', m'.ip)
    else (m, -1)
  }

  /** The fetch-execute loop of `Run` from local instruction pointer `ip`,
      with at most `fuel` instructions. */
  function RunSpec(m: Machine, program: seq<int>, ip: int, fuel: nat): (Machine, Outcome)
    decreases fuel
  {
    if ip >= |program| then (m, Halted)
    else if ip < 0 || ip + 1 >= |program| then (m, Panic)
    else if fuel == 0 then (m, OutOfFuel)
    else
      var (m', result) := Exec(m, program[ip], program[ip + 1]);
      if result == -1 then (m', Fault)
      else if m'.done then (m', Halted)
      else RunSpec(m', program, result, fuel - 1)
  }

  /** Every opcode other than `jnz` moves the instruction pointer on by
      exactly two and returns it; an unknown opcode changes nothing and
      returns -1. */
  lemma ExecAdvances(m: Machine, opcode: int, operand: int)
    ensures 0 <= opcode <= 7 && opcode != 3 ==>
      Exec(m, opcode, operand).0.ip == m.ip + 2 && Exec(m, opcode, operand).1 == m.ip + 2
    ensures !(0 <= opcode <= 7) ==> Exec(m, opcode, operand) == (m, -1)
  {
  }

  /** `jnz` halts (sets `done`, keeps `ip`) when `OneTime` is set or `a`
      is zero, and otherwise jumps to its operand; it touches nothing else. */
  lemma ExecJump(m: Machine, operand: int)
    ensures var (m', r) := Exec(m, 3, operand);
      (m.oneTime || m.a == 0 ==> m' == m.(done := true) && r == m.ip) &&
      (!m.oneTime && m.a != 0 ==> m' == m.(ip := operand) && r == operand)
  {
  }

  /** `out` appends one digit string for `combo mod 8` and changes no
      register; with a non-negative combo operand the digit lies in 0..7. */
  lemma ExecOut(m: Machine, operand: int)
    ensures var m' := Exec(m, 5, operand).0;
      m'.a == m.a && m'.b == m.b && m'.c == m.c &&
      m'.out == m.out + [Itoa(Rem(Combo(m, operand), 8))]
    ensures Combo(m, operand) >= 0 ==>
      Atoi(Exec(m, 5, operand).0.out[|m.out|]) == Some(Combo(m, operand) % 8)
  {
    var x := Combo(m, operand);
    AtoiItoa(Rem(x, 8));
    if x >= 0 {
      QuoRemNonNegative(x, 8);
    }
  }

  /** The value `execute` returns is always the new state's instruction
      pointer, so the local pointer of `Run` and the field stay equal. */
  lemma ExecResultIsIp(m: Machine, opcode: int, operand: int)
    requires 0 <= opcode <= 7
    ensures Exec(m, opcode, operand).1 == Exec(m, opcode, operand).0.ip
  {
  }

  /** A run only ever appends to the output. */
  lemma {:induction false} RunOutputGrows(m: Machine, program: seq<int>, ip: int, fuel: nat)
    ensures |RunSpec(m, program, ip, fuel).0.out| >= |m.out|
    ensures RunSpec(m, program, ip, fuel).0.out[..|m.out|] == m.out
    decreases fuel
  {
    if 0 <= ip && ip + 1 < |program| && fuel > 0 {
      var (m', result) := Exec(m, program[ip], program[ip + 1]);
      assert m'.out[..|m.out|] == m.out;
      if result != -1 && !m'.done {
        RunOutputGrows(m', program, result, fuel - 1);
        var final := RunSpec(m', program, result, fuel - 1).0;
        assert final.out[..|m'.out|][..|m.out|] == final.out[..|m.out|];
      }
    }
  }

  /** With `OneTime` set, a run that starts with the field pointer equal to
      the local one stops within |program| instructions: the first `jnz`
      halts and every other opcode moves forward by two. */
  lemma {:induction false} RunOneTimeHalts(m: Machine, program: seq<int>, ip: int, fuel: nat)
    requires m.oneTime && m.ip == ip && ip >= 0
    requires fuel >= |program| - ip
    ensures RunSpec(m, program, ip, fuel).1 != OutOfFuel
    decreases |program| - ip
  {
    if ip + 1 < |program| {
      var (m', result) := Exec(m, program[ip], program[ip + 1]);
      if result != -1 && !m'.done {
        assert program[ip] != 3;
        RunOneTimeHalts(m', program, result, fuel - 1);
      }
    }
  }

  class Computer {
    var a: int
    var b: int
    var c: int
    var ip: int
    var done: bool
    var oneTime: bool
    var outResults: seq<string>

    function State(): Machine
      reads this
    {
      Machine(a, b, c, ip, done, oneTime, outResults)
    }

    /** `NewComputer`: the given registers, instruction pointer 0, no
        output, not done, `OneTime` off. */
    constructor (a0: int, b0: int, c0: int)
      ensures State() == Machine(a0, b0, c0, 0, false, false, [])
    {
      a, b, c := a0, b0, c0;
      ip := 0;
      done, oneTime := false, false;
      outResults := [];
    }

    method MoveInstructionPointer() returns (next: int)
      modifies this
      ensures State() == old(State()).(ip := old(ip) + Move)
      ensures next == ip
    {
      ip := ip + Move;
      next := ip;
    }

    /** Opcode 0: `a := trunc(a / 2^combo)`. */
    method Adv(operand: int) returns (next: int)
      modifies this
      ensures State() == old(State()).(a := Div(old(a), Combo(old(State()), operand)), ip := old(ip) + 2)
      ensures next == ip
    {
      a := Div(a, Combo(State(), operand));
      next := MoveInstructionPointer();
    }

    /** Opcode 1: `b := b XOR operand`. */
    method Bxl(operand: int) returns (next: int)
      modifies this
      ensures State() == old(State()).(b := Xor(old(b), operand), ip := old(ip) + 2)
      ensures next == ip
    {
      b := Xor(b, operand);
      next := MoveInstructionPointer();
    }

    /** Opcode 2: `b := combo % 8`, with Go's sign-preserving remainder. */
    method Bst(operand: int) returns (next: int)
      modifies this
      ensures State() == old(State()).(b := Rem(Combo(old(State()), operand), 8), ip := old(ip) + 2)
      ensures next == ip
    {
      b := Rem(Combo(State(), operand), Eight);
      next := MoveInstructionPointer();
    }

    /** Opcode 3: halt when `OneTime` is set or `a == 0`, otherwise jump. */
    method Jnz(operand: int) returns (next: int)
      modifies this
      ensures old(oneTime) || old(a) == 0 ==> State() == old(State()).(done := true)
      ensures !old(oneTime) && old(a) != 0 ==> State() == old(State()).(ip := operand)
      ensures next == ip
    {
      if oneTime || a == 0 {
        done := true;
      } else {
        ip := operand;
      }
      next := ip;
    }

    /** Opcode 4: `b := b XOR c`; the operand is ignored. */
    method Bxc(operand: int) returns (next: int)
      modifies this
      ensures State() == old(State()).(b := Xor(old(b), old(c)), ip := old(ip) + 2)
      ensures next == ip
    {
      b := Xor(b, c);
      next := MoveInstructionPointer();
    }

    /** Opcode 5: append the decimal string of `combo % 8`. */
    method Out(operand: int) returns (next: int)
      modifies this
      ensures State() == old(State()).(out := old(outResults) + [Itoa(Rem(Combo(old(State()), operand), 8))], ip := old(ip) + 2)
      ensures next == ip
    {
      outResults := outResults + [Itoa(Rem(Combo(State(), operand), Eight))];
      next := MoveInstructionPointer();
    }

    /** Opcode 6: `b := trunc(a / 2^combo)`. */
    method Bdv(operand: int) returns (next: int)
      modifies this
      ensures State() == old(State()).(b := Div(old(a), Combo(old(State()), operand)), ip := old(ip) + 2)
      ensures next == ip
    {
      b := Div(a, Combo(State(), operand));
      next := MoveInstructionPointer();
    }

    /** Opcode 7: `c := trunc(a / 2^combo)`. */
    method Cdv(operand: int) returns (next: int)
      modifies this
      ensures State() == old(State()).(c := Div(old(a), Combo(old(State()), operand)), ip := old(ip) + 2)
      ensures next == ip
    {
      c := Div(a, Combo(State(), operand));
      next := MoveInstructionPointer();
    }

    /** Dispatch on the opcode; -1 for an opcode outside 0..7. */
    method Execute(opcode: int, operand: int) returns (result: int)
      modifies this
      ensures (State(), result) == Exec(old(State()), opcode, operand)
    {
      if opcode == 0 {
        result := Adv(operand);
      } else if opcode == 1 {
        result := Bxl(operand);
      } else if opcode == 2 {
        result := Bst(operand);
      } else if opcode == 3 {
        result := Jnz(operand);
      } else if opcode == 4 {
        result := Bxc(operand);
      } else if opcode == 5 {
        result := Out(operand);
      } else if opcode == 6 {
        result := Bdv(operand);
      } else if opcode == 7 {
        result := Cdv(operand);
      } else {
        result := -1;
      }
    }

    /** The fetch-execute loop, from local instruction pointer 0, stopped
        after `fuel` instructions if it has not ended by then. */
    method Run(program: seq<int>, fuel: nat) returns (outcome: Outcome)
      modifies this
      ensures (State(), outcome) == RunSpec(old(State()), program, 0, fuel)
    {
      var pc := 0;
      var steps := fuel;
      while pc < |program|
        invariant RunSpec(old(State()), program, 0, fuel) == RunSpec(State(), program, pc, steps)
        decreases steps
      {
        if pc < 0 || pc + 1 >= |program| {
          return Panic;
        }
        if steps == 0 {
          return OutOfFuel;
        }
        var opcode := program[pc];
        var operand := program[pc + 1];
        var result := Execute(opcode, operand);
        if result == -1 {
          return Fault;
        }
        pc := result;
        steps := steps - 1;
        if done {
          return Halted;
        }
      }
      return Halted;
    }
  }
}
