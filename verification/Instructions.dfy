/** Opcodes, operand schemes, register masks and the cost table of the gas model. */
module Instructions {
  import opened Octets
  import opened Options
  import opened ExecutionUnits
  import opened ReorderBuffer

  datatype Scheme =
    | NoArgs | Imm | RegExtImm | ImmImm | Offset | RegImm | RegImmImm | RegImmOffset
    | RegReg | RegRegImm | RegRegOffset | RegRegImmImm | RegRegReg

  const TRAP := 0
  const UNLIKELY := 2
  const JUMP_IND := 50
  const LOAD_IMM_JUMP := 80
  const MOVE_REG := 100
  const MAX_SKIP := 24

  /** Bytes outside the code read as zero. */
  function ByteAt(code: seq<Byte>, i: int): Byte {
    if 0 <= i < |code| then code[i] else 0
  }

  function SchemeOf(opcode: int): Option<Scheme> {
    if 0 <= opcode <= 2 then Some(NoArgs)
    else if opcode == 10 then Some(Imm)
    else if opcode == 20 then Some(RegExtImm)
    else if 30 <= opcode <= 33 then Some(ImmImm)
    else if opcode == 40 then Some(Offset)
    else if 50 <= opcode <= 62 then Some(RegImm)
    else if 70 <= opcode <= 73 then Some(RegImmImm)
    else if 80 <= opcode <= 90 then Some(RegImmOffset)
    else if 100 <= opcode <= 110 then Some(RegReg)
    else if 120 <= opcode <= 161 then Some(RegRegImm)
    else if 170 <= opcode <= 175 then Some(RegRegOffset)
    else if opcode == 180 then Some(RegRegImmImm)
    else if 190 <= opcode <= 230 then Some(RegRegReg)
    else None
  }

  predicate ValidOpcode(opcode: int) {
    SchemeOf(opcode).Some?
  }

  /** Traps, jumps and branches end a basic block; `unlikely` and host calls do not. */
  predicate Terminator(opcode: int) {
    || opcode == 0 || opcode == 1 || opcode == 40 || opcode == 50
    || 80 <= opcode <= 90 || 170 <= opcode <= 175 || opcode == 180
  }

  datatype Rule = Rule(cycles: nat, slots: nat, units: Units, overlap: Option<nat>, firstSourceOnly: bool)

  function Plain(cycles: nat, slots: nat, units: Units): Option<Rule> {
    Some(Rule(cycles, slots, units, None, false))
  }

  function Overlapping(cycles: nat, slots: nat, units: Units, overlap: nat): Option<Rule> {
    Some(Rule(cycles, slots, units, Some(overlap), false))
  }

  function Shifting(cycles: nat, slots: nat, overlap: nat): Option<Rule> {
    Some(Rule(cycles, slots, Alu(), Some(overlap), true))
  }

  /** The cost table, one row per group of identical instructions. */
  function CostRule(op: int): Option<Rule> {
    if op == 100 then Plain(0, 1, Nothing())
    else if op == 200 || op == 201 || 210 <= op <= 212 then Overlapping(1, 2, Alu(), 1)
    else if op == 190 || op == 191 then Overlapping(2, 3, Alu(), 2)
    else if op == 110 || 132 <= op <= 134 || op == 149 || 151 <= op <= 153 || op == 158 then Overlapping(1, 2, Alu(), 1)
    else if op == 131 || 138 <= op <= 140 || op == 160 then Overlapping(2, 3, Alu(), 2)
    else if 101 <= op <= 104 || 107 <= op <= 109 then Plain(1, 1, Alu())
    else if op == 105 || op == 106 then Plain(2, 1, Units(2, 0, 0, 0, 0))
    else if 207 <= op <= 209 || op == 220 || op == 222 then Shifting(1, 3, 2)
    else if 197 <= op <= 199 || op == 221 || op == 223 then Shifting(2, 4, 3)
    else if 155 <= op <= 157 || op == 159 then Plain(1, 3, Alu())
    else if 144 <= op <= 146 || op == 161 then Plain(2, 4, Alu())
    else if op == 136 || op == 137 || op == 142 || op == 143 || op == 216 || op == 217 then Plain(3, 3, Alu())
    else if op == 218 || op == 219 then Plain(2, 2, Alu())
    else if op == 147 || op == 148 then Plain(2, 3, Alu())
    else if 227 <= op <= 230 then Overlapping(3, 3, Alu(), 2)
    else if 52 <= op <= 58 || 124 <= op <= 130 then Plain(25, 1, Load())
    else if 30 <= op <= 33 || 59 <= op <= 62 || 70 <= op <= 73 || 120 <= op <= 123 then Plain(25, 1, Store())
    else if 81 <= op <= 90 || 170 <= op <= 175 then Plain(20, 1, Alu())
    else if 193 <= op <= 196 || 203 <= op <= 206 then Plain(60, 4, Divide())
    else if op == 154 || op == 224 || op == 225 then Plain(2, 3, Alu())
    else if op == 226 then Overlapping(2, 3, Alu(), 2)
    else if op == 141 then Plain(3, 4, Alu())
    else if op == 51 then Plain(1, 1, Nothing())
    else if op == 20 then Plain(1, 2, Nothing())
    else if op == 150 || op == 202 then Overlapping(3, 2, Multiply(), 1)
    else if op == 135 || op == 192 then Overlapping(4, 3, Multiply(), 2)
    else if op == 213 || op == 214 then Plain(4, 4, Multiply())
    else if op == 215 then Plain(6, 4, Multiply())
    else if op == 0 || op == 1 then Plain(2, 1, Nothing())
    else if op == 2 then Plain(40, 1, Nothing())
    else if op == 40 || op == 80 then Plain(15, 1, Nothing())
    else if op == 50 || op == 180 then Plain(22, 1, Nothing())
    else if op == 10 then Plain(100, 4, Alu())
    else None
  }

  function Register(nibble: nat): nat {
    if nibble <= 12 then nibble else 12
  }

  datatype Registers = Registers(sources: set<nat>, targets: set<nat>)

  /** Registers read and written; a conditional move also reads its old target. */
  function InstructionRegisters(code: seq<Byte>, pc: int, scheme: Scheme, polkavmCmov: bool): Registers {
    var opcode := ByteAt(code, pc);
    var first := ByteAt(code, pc + 1);
    var a, b := Register(first % 16), Register(first / 16);
    match scheme
    case NoArgs | Imm | ImmImm | Offset => Registers({}, {})
    case RegExtImm => Registers({}, {a})
    case RegImm => if opcode == JUMP_IND || 59 <= opcode <= 62 then Registers({a}, {}) else Registers({}, {a})
    case RegImmImm => Registers({a}, {})
    case RegImmOffset => if opcode == LOAD_IMM_JUMP then Registers({}, {a}) else Registers({a}, {})
    case RegReg => Registers({b}, {a})
    case RegRegImm =>
      if 120 <= opcode <= 123 then Registers({a, b}, {})
      else Registers(if (opcode == 147 || opcode == 148) && !polkavmCmov then {a, b} else {b}, {a})
    case RegRegOffset => Registers({a, b}, {})
    case RegRegImmImm => Registers({b}, {a})
    case RegRegReg =>
      var target := Register(ByteAt(code, pc + 2));
      Registers(if (opcode == 218 || opcode == 219) && !polkavmCmov then {a, b, target} else {a, b}, {target})
  }

  function FromLittleEndian(code: seq<Byte>, start: int, size: nat): nat
    decreases size
  {
    if size == 0 then 0 else ByteAt(code, start) + 256 * FromLittleEndian(code, start + 1, size - 1)
  }

  function Width(size: nat): nat {
    if size == 0 then 1 else 256 * Width(size - 1)
  }

  function SignedOffset(code: seq<Byte>, start: int, size: nat): int {
    var value := FromLittleEndian(code, start, size);
    if size > 0 && 2 * value >= Width(size) then value - Width(size) else value
  }

  function Least(a: int, b: int): int {
    if a < b then a else b
  }

  function AtLeastZero(a: int): nat {
    if a < 0 then 0 else a
  }

  /** The target of a branch whose cost depends on where it leads. */
  function BranchTarget(code: seq<Byte>, pc: int, argLen: nat, scheme: Scheme): Option<int> {
    if scheme == RegRegOffset then
      Some(pc + SignedOffset(code, pc + 2, Least(4, AtLeastZero(argLen - 1))))
    else if scheme == RegImmOffset && ByteAt(code, pc) != LOAD_IMM_JUMP then
      var immediate := Least(4, (ByteAt(code, pc + 1) / 16) % 8);
      Some(pc + SignedOffset(code, pc + 2 + immediate, Least(4, AtLeastZero(argLen - immediate - 1))))
    else None
  }

  predicate LeadsToTrap(code: seq<Byte>, at: int) {
    ByteAt(code, at) == TRAP || ByteAt(code, at) == UNLIKELY
  }

  function Cycles(code: seq<Byte>, pc: int, argLen: nat, scheme: Scheme, rule: Rule): nat {
    match BranchTarget(code, pc, argLen, scheme)
    case None => rule.cycles
    case Some(target) =>
      if LeadsToTrap(code, target) || LeadsToTrap(code, pc + 1 + argLen) then 1 else rule.cycles
  }

  function DecodeSlots(code: seq<Byte>, pc: int, scheme: Scheme, rule: Rule): nat {
    match rule.overlap
    case None => rule.slots
    case Some(overlap) =>
      var regs := InstructionRegisters(code, pc, scheme, false);
      var sources := if rule.firstSourceOnly then {Register(ByteAt(code, pc + 1) % 16)} else regs.sources;
      if sources * regs.targets != {} then overlap else rule.slots
  }

  /** The instruction at `pc` as the reorder machine sees it; none for an invalid opcode. */
  function OpAt(code: seq<Byte>, pc: int, argLen: nat, polkavmCmov: bool): Option<Op> {
    var opcode := ByteAt(code, pc);
    match (SchemeOf(opcode), CostRule(opcode))
    case (Some(scheme), Some(rule)) =>
      var slots := DecodeSlots(code, pc, scheme, rule);
      if opcode == MOVE_REG then
        var first := ByteAt(code, pc + 1);
        Some(Move(slots, Register(first % 16), Register(first / 16)))
      else
        var regs := InstructionRegisters(code, pc, scheme, polkavmCmov);
        Some(Work(slots, Cycles(code, pc, argLen, scheme, rule), rule.units, regs.sources, regs.targets))
    case _ => None
  }

  predicate SoundRule(opcode: int, rule: Rule) {
    && 1 <= rule.slots <= DECODE_BUDGET
    && (rule.overlap.Some? ==> 1 <= rule.overlap.value <= DECODE_BUDGET)
    && (opcode != MOVE_REG ==> rule.cycles >= 1)
    && Nothing().Fits(rule.units) && rule.units.Fits(Pools())
  }

  lemma RowsExist(opcode: int)
    ensures ValidOpcode(opcode) <==> CostRule(opcode).Some?
  {
    hide Nothing, Alu, Load, Store, Divide, Multiply;
    if opcode < 100 {
      LowRowsExist(opcode);
    } else if opcode < 190 {
      MiddleRowsExist(opcode);
    }
  }

  lemma LowRowsExist(opcode: int)
    requires opcode < 100
    ensures ValidOpcode(opcode) <==> CostRule(opcode).Some?
  {
    hide Nothing, Alu, Load, Store, Divide, Multiply;
  }

  lemma MiddleRowsExist(opcode: int)
    requires 100 <= opcode < 190
    ensures ValidOpcode(opcode) <==> CostRule(opcode).Some?
  {
    hide Nothing, Alu, Load, Store, Divide, Multiply;
  }

  lemma UnitsFit()
    ensures forall u :: u in {Nothing(), Alu(), Load(), Store(), Divide(), Multiply(), Units(2, 0, 0, 0, 0)} ==>
              Nothing().Fits(u) && u.Fits(Pools())
  {
  }

  lemma RowsAreSound(opcode: int)
    requires CostRule(opcode).Some?
    ensures SoundRule(opcode, CostRule(opcode).value)
  {
    UnitsFit();
    hide Nothing, Alu, Load, Store, Divide, Multiply, Units.Fits, Pools;
    if opcode < 140 {
      LowRowsAreSound(opcode);
    }
  }

  lemma LowRowsAreSound(opcode: int)
    requires opcode < 140 && CostRule(opcode).Some?
    ensures SoundRule(opcode, CostRule(opcode).value)
  {
    UnitsFit();
    hide Nothing, Alu, Load, Store, Divide, Multiply, Units.Fits, Pools;
  }

  /** The cost table has a row for every opcode, and every row fits the machine. */
  lemma CostTableIsTotal(opcode: int)
    ensures ValidOpcode(opcode) <==> CostRule(opcode).Some?
    ensures ValidOpcode(opcode) ==> SoundRule(opcode, CostRule(opcode).value)
  {
    RowsExist(opcode);
    if ValidOpcode(opcode) {
      RowsAreSound(opcode);
    }
  }

  lemma OpAtIsValid(code: seq<Byte>, pc: int, argLen: nat, polkavmCmov: bool)
    ensures ValidOpcode(ByteAt(code, pc)) <==> OpAt(code, pc, argLen, polkavmCmov).Some?
    ensures ValidOpcode(ByteAt(code, pc)) ==> OpAt(code, pc, argLen, polkavmCmov).value.Valid()
    ensures Terminator(ByteAt(code, pc)) ==>
            OpAt(code, pc, argLen, polkavmCmov).Some? && OpAt(code, pc, argLen, polkavmCmov).value.Work?
  {
    CostTableIsTotal(ByteAt(code, pc));
  }
}
