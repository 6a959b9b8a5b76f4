/** Opcodes, addressing modes and the decoded instruction triple. */
module Instructions {
  import opened JavaInt
  import opened Faults

  const NOP: int := 0x0
  const LOD: int := 0x1
  const STO: int := 0x2
  const ADD: int := 0x3
  const SUB: int := 0x4
  const MUL: int := 0x5
  const DIV: int := 0x6
  const AND: int := 0x7
  const NOT: int := 0x8
  const CMPL: int := 0x9
  const CMPZ: int := 0xa
  const JUMP: int := 0xb
  const JMPZ: int := 0xc
  const HALT: int := 0xf

  /** The three addressing modes; an instruction with no mode carries None. */
  datatype Mode = Indirect | Direct | Immediate

  /** `Mode.next()`: one dereference further along Indirect -> Direct -> Immediate;
      None stands for Java's null after Immediate. */
  function Next(m: Mode): (r: Option<Mode>)
    ensures r.Some? <==> m != Immediate
    ensures r.Some? ==> Rank(r.value) + 1 == Rank(m)
  {
    match m
    case Indirect => Some(Direct)
    case Direct => Some(Immediate)
    case Immediate => None
  }

  /** How many dereferences separate a mode from Immediate. */
  function Rank(m: Mode): nat
  {
    match m
    case Indirect => 2
    case Direct => 1
    case Immediate => 0
  }

  /** Opcodes whose operand is resolved all the way to a literal. */
  predicate IsValueOp(op: int)
  {
    op == LOD || op == ADD || op == SUB || op == MUL || op == DIV || op == AND
  }

  /** Opcodes whose operand is resolved only as far as an address (Direct). */
  predicate IsAddressOp(op: int)
  {
    op == STO || op == CMPL || op == CMPZ
  }

  /** The mode at which a handler stops dereferencing and acts. */
  function Terminal(op: int): Mode
  {
    if IsAddressOp(op) then Direct else Immediate
  }

  /** One code-store slot: opcode, optional mode, argument. */
  datatype Instr = Instr(op: Int32, mode: Option<Mode>, arg: Int32)

  /** The encoding a cleared slot holds: a NOP with no mode. */
  const BLANK: Instr := Instr(NOP, None, 0)
}
