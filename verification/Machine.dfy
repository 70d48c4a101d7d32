/**
 * The two machines of the translator.
 *
 * The guest works on plain registers and on virtual registers (SP, BP, R12-R15, the
 * FS and GS bases, the instruction pointer and the two template temporaries).  The host
 * works on the same plain registers, on four physical registers R12-R15 and on one frame
 * slot per virtual register.  Both share the guest memory, the flags and the rest of the
 * register state (`aux`: vector and floating-point registers).
 */
module Machine {
  import opened Words

  datatype PReg = P12 | P13 | P14 | P15
  datatype VReg = SP | BP | V12 | V13 | V14 | V15 | FS | GS | IP | T1 | T2
  datatype Reg = Gp(n: nat) | Virt(v: VReg) | Phys(p: PReg)

  datatype Op = MOV | MOVABS | LEA | Other(name: string)
  datatype Scaled = Scaled(k: Word, r: Reg)
  /** A purified operand: a register, an immediate, or `[regs + im + k * r]`. */
  datatype Arg =
    | AReg(r: Reg, size: nat)
    | AImm(val: Word)
    | AMem(regs: seq<Reg>, im: Word, mul: Option<Scaled>, sz: nat)
  /** What is left of an operand once its registers are erased. */
  datatype Shape = SReg(size: nat) | SImm | SMem(sz: nat)

  datatype Flags = Flags(zf: bool, rest: int)
  datatype Core = Core(gp: map<nat, Word>, x: map<Reg, Word>, mem: Memory, flags: Flags, aux: int)
  datatype Effect = Effect(writes: seq<Option<Word>>, gp: map<nat, Word>, mem: Memory, flags: Flags, aux: int)

  /**
   * Everything about the processor that the translator does not look into: what an ordinary
   * instruction does to its register operands, the plain registers, memory and flags; when a
   * conditional branch is taken; which flags beside ZF a compare sets; and which flags the pair
   * of shifts leaves that masks an address.
   */
  datatype Sem = Sem(
    exec: (Op, seq<Shape>, seq<Word>, map<nat, Word>, Memory, Flags, int) -> Effect,
    taken: (string, map<nat, Word>, Flags) -> bool,
    cmp: (Word, Word) -> int,
    masked: (Word, Flags) -> Flags)

  // ---------------------------------------------------------------- operands

  function Get(c: Core, r: Reg): Word {
    if r.Gp? then Look(c.gp, r.n) else Look(c.x, r)
  }

  function Set(c: Core, r: Reg, w: Word): Core {
    if r.Gp? then c.(gp := c.gp[r.n := w]) else c.(x := c.x[r := w])
  }

  function SumRegs(regs: seq<Reg>, c: Core): int {
    if regs == [] then 0 else Get(c, regs[0]) + SumRegs(regs[1..], c)
  }

  function Address(a: Arg, c: Core): Word
    requires a.AMem?
  {
    Wrap(SumRegs(a.regs, c) + a.im + (if a.mul.Some? then a.mul.value.k * Get(c, a.mul.value.r) else 0))
  }

  /** The value an instruction sees for an operand; for memory, its effective address. */
  function Val(a: Arg, c: Core): Word {
    match a
    case AReg(r, _) => Get(c, r)
    case AImm(w) => w
    case AMem(_, _, _, _) => Address(a, c)
  }

  function Vals(args: seq<Arg>, c: Core): seq<Word> {
    if args == [] then [] else [Val(args[0], c)] + Vals(args[1..], c)
  }

  function ShapeOf(a: Arg): Shape {
    match a
    case AReg(_, n) => SReg(n)
    case AImm(_) => SImm
    case AMem(_, _, _, n) => SMem(n)
  }

  function Shapes(args: seq<Arg>): seq<Shape> {
    if args == [] then [] else [ShapeOf(args[0])] + Shapes(args[1..])
  }

  function RegsOf(a: Arg): set<Reg> {
    match a
    case AReg(r, _) => {r}
    case AImm(_) => {}
    case AMem(regs, _, mul, _) =>
      (set r | r in regs) + (if mul.Some? then {mul.value.r} else {})
  }

  // ---------------------------------------------------------------- one instruction

  /** The moves the templates use have their architectural meaning; the rest is up to `sem`. */
  function Exec(sem: Sem, op: Op, shapes: seq<Shape>, vals: seq<Word>, c: Core): Effect {
    if op.Other? || |shapes| != 2 || |vals| != 2 then
      sem.exec(op, shapes, vals, c.gp, c.mem, c.flags, c.aux)
    else if shapes[0] == SReg(64) && op == MOV && shapes[1] == SMem(64) then
      Effect([Some(Load64(c.mem, vals[1]))], c.gp, c.mem, c.flags, c.aux)
    else if shapes[0] == SReg(64) && ((op == MOV && shapes[1] == SReg(64)) ||
                                      (op == MOVABS && shapes[1] == SImm) ||
                                      (op == LEA && shapes[1] == SMem(64))) then
      Effect([Some(vals[1])], c.gp, c.mem, c.flags, c.aux)
    else if shapes[0].SMem? && op == MOV && (shapes[1] == SReg(shapes[0].sz) || shapes[1] == SImm) then
      Effect([], c.gp, Store(c.mem, vals[0], shapes[0].sz / 8, vals[1]), c.flags, c.aux)
    else
      sem.exec(op, shapes, vals, c.gp, c.mem, c.flags, c.aux)
  }

  function ApplyWrites(args: seq<Arg>, writes: seq<Option<Word>>, c: Core): Core {
    if args == [] || writes == [] then c
    else
      var c' := if args[0].AReg? && writes[0].Some? then Set(c, args[0].r, writes[0].value) else c;
      ApplyWrites(args[1..], writes[1..], c')
  }

  function Step(sem: Sem, op: Op, args: seq<Arg>, c: Core): Core {
    var e := Exec(sem, op, Shapes(args), Vals(args, c), c);
    ApplyWrites(args, e.writes, c.(gp := e.gp, mem := e.mem, flags := e.flags, aux := e.aux))
  }

  const HALF: int := 0x8000_0000_0000_0000

  /** SHL r, 1 and SHR r, 1: the top bit is cleared and the flags are overwritten. */
  function Masked(sem: Sem, r: Reg, c: Core): Core {
    var w := Get(c, r);
    (if w < HALF then c else Set(c, r, w - HALF)).(flags := sem.masked(w, c.flags))
  }

  // ---------------------------------------------------------------- guest micro-operations

  /** A template is a list of ordinary instructions; `SetIp` fixes what RIP reads as. */
  datatype GOp = SetIp(w: Word) | Do(op: Op, args: seq<Arg>)

  function GStep(sem: Sem, i: GOp, g: Core): Core {
    match i
    case SetIp(w) => Set(g, Virt(IP), w)
    case Do(op, args) => Step(sem, op, args, g)
  }

  function GRun(sem: Sem, ops: seq<GOp>, g: Core): Core {
    if ops == [] then g else GRun(sem, ops[1..], GStep(sem, ops[0], g))
  }

  // ---------------------------------------------------------------- host instructions

  datatype HInstr =
    | HDo(op: Op, args: seq<Arg>)        // an ordinary instruction on host registers
    | Spill(v: VReg, p: PReg)            // MOV Stack_Rv, Rp
    | Fill(p: PReg, v: VReg)             // MOV Rp, Stack_Rv
    | LoadAbs(p: PReg, w: Word)          // MOVABS Rp, w
    | Copy(p: PReg, r: Reg)              // MOV Rp, r
    | Compare(p: PReg, q: PReg)          // CMP Rp, Rq
    | IjImm(w: Word)                     // MOV Stack_IJ, w
    | IjReg(p: PReg)                     // MOV Stack_IJ, Rp
    | Mask(r: Reg)                       // SHL r, 1; SHR r, 1

  datatype Host = Host(core: Core, slots: map<VReg, Word>, ij: Word)

  function HStep(sem: Sem, i: HInstr, h: Host): Host {
    match i
    case HDo(op, args) => h.(core := Step(sem, op, args, h.core))
    case Spill(v, p) => h.(slots := h.slots[v := Get(h.core, Phys(p))])
    case Fill(p, v) => h.(core := Set(h.core, Phys(p), Look(h.slots, v)))
    case LoadAbs(p, w) => h.(core := Set(h.core, Phys(p), w))
    case Copy(p, r) => h.(core := Set(h.core, Phys(p), Get(h.core, r)))
    case Compare(p, q) =>
      var a, b := Get(h.core, Phys(p)), Get(h.core, Phys(q));
      h.(core := h.core.(flags := Flags(a == b, sem.cmp(a, b))))
    case IjImm(w) => h.(ij := w)
    case IjReg(p) => h.(ij := Get(h.core, Phys(p)))
    case Mask(r) => h.(core := Masked(sem, r, h.core))
  }

  function HRun(sem: Sem, code: seq<HInstr>, h: Host): Host {
    if code == [] then h else HRun(sem, code[1..], HStep(sem, code[0], h))
  }

  lemma {:induction false} HRunAppend(sem: Sem, a: seq<HInstr>, b: seq<HInstr>, h: Host)
    ensures HRun(sem, a + b, h) == HRun(sem, b, HRun(sem, a, h))
  {
    if a == [] {
      assert a + b == b;
    } else {
      assert (a + b)[0] == a[0] && (a + b)[1..] == a[1..] + b;
      HRunAppend(sem, a[1..], b, HStep(sem, a[0], h));
    }
  }

  lemma {:induction false} GRunAppend(sem: Sem, a: seq<GOp>, b: seq<GOp>, g: Core)
    ensures GRun(sem, a + b, g) == GRun(sem, b, GRun(sem, a, g))
  {
    if a == [] {
      assert a + b == b;
    } else {
      assert (a + b)[0] == a[0] && (a + b)[1..] == a[1..] + b;
      GRunAppend(sem, a[1..], b, GStep(sem, a[0], g));
    }
  }
}
