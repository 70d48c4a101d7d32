/** The guest program as the processor would run it, and the templates against it. */
module Native {
  import opened Words
  import opened Machine
  import opened Simulation
  import opened Templates

  datatype Instr =
    | Normal(op: Op, args: seq<Arg>)
    | Nop
    | Push(arg: Arg)
    | Pop(arg: Arg)
    | Leave
    | Call(t: Target)
    | Ret(extra: nat)
    | Jump(t: Target)
    | Branch(cond: string, addr: Word)
    | Syscall

  datatype Line = Line(i: Instr, len: nat)

  predicate Control(i: Instr) { i.Call? || i.Ret? || i.Jump? || i.Branch? || i.Syscall? }

  // ---------------------------------------------------------------- architectural meaning

  function Sp(c: Core): Word { Get(c, Virt(SP)) }

  /** Operand size of PUSH and POP in bytes. */
  function StackBytes(arg: Arg): nat {
    match arg case AReg(_, n) => n / 8 case AImm(_) => 8 case AMem(_, _, _, n) => n / 8
  }

  function OperandValue(arg: Arg, c: Core): Word {
    if arg.AMem? then Load64(c.mem, Address(arg, c)) else Val(arg, c)
  }

  function PushWord(c: Core, k: nat, x: Word): Core {
    var sp := Wrap(Sp(c) - k);
    Set(c, Virt(SP), sp).(mem := Store(c.mem, sp, k, x))
  }

  function AddSp(c: Core, k: nat): Core { Set(c, Virt(SP), Wrap(Sp(c) + k)) }

  /** RIP reads as the address of the next instruction. */
  function At(c: Core, next: Word): Core { Set(c, Virt(IP), next) }

  /** An instruction that does not transfer control. */
  function Straight(sem: Sem, i: Instr, next: Word, c: Core): Core {
    match i
    case Normal(op, args) => Step(sem, op, args, At(c, next))
    case Nop => c
    case Push(arg) => PushWord(c, StackBytes(arg), OperandValue(arg, At(c, next)))
    case Pop(arg) =>
      var x, c1 := Load64(c.mem, Sp(c)), AddSp(c, StackBytes(arg));
      if arg.AReg? then Set(c1, arg.r, x)
      else if arg.AMem? then c1.(mem := Store(c1.mem, Address(arg, At(c1, next)), 8, x))
      else c1
    case Leave =>
      var c1 := Set(c, Virt(SP), Get(c, Virt(BP)));
      AddSp(Set(c1, Virt(BP), Load64(c1.mem, Sp(c1))), 8)
    case _ => c
  }

  function TargetOf(t: Target, next: Word, c: Core): Word {
    match t
    case Direct(a) => a
    case ViaReg(r) => Get(c, r)
    case ViaMem(a) => if a.AMem? then Load64(c.mem, Address(a, At(c, next))) else 0
  }

  /** A control transfer: the state after it and the address it goes to. */
  function Transfer(sem: Sem, i: Instr, next: Word, c: Core): (Core, Word)
    requires Control(i) && !i.Syscall?
  {
    match i
    case Call(t) => (PushWord(c, 8, next), TargetOf(t, next, c))
    case Ret(k) => (AddSp(c, 8 + k), Load64(c.mem, Sp(c)))
    case Jump(t) => (c, TargetOf(t, next, c))
    case Branch(cond, a) => (c, if sem.taken(cond, c.gp, c.flags) then a else next)
  }

  // ---------------------------------------------------------------- the supported fragment

  predicate Mentions(arg: Arg, v: VReg) { Virt(v) in RegsOf(arg) }

  predicate Operand(arg: Arg) { GuestArg(arg) && !Mentions(arg, T1) && !Mentions(arg, T2) }

  function CountSp(regs: seq<Reg>): nat {
    if regs == [] then 0 else (if regs[0] == Virt(SP) then 1 else 0) + CountSp(regs[1..])
  }

  /** How many times an address adds SP. */
  function SpCount(arg: Arg): nat
    requires arg.AMem?
  {
    CountSp(arg.regs) + if arg.mul.Some? && arg.mul.value.r == Virt(SP) then arg.mul.value.k else 0
  }

  /** Moving SP by eight does not change what the operand refers to. */
  predicate SpFree(arg: Arg) {
    match arg
    case AReg(r, _) => r != Virt(SP)
    case AImm(_) => true
    case AMem(_, _, _, _) => Wrap(8 * SpCount(arg)) == 0
  }

  predicate Pushable(arg: Arg) {
    Operand(arg) && StackArg(arg) && SpFree(arg) && !arg.AImm?
  }

  predicate Poppable(arg: Arg) { Pushable(arg) && (arg.AReg? ==> arg.size == 64) }

  predicate Jumpable(t: Target) {
    match t
    case Direct(_) => true
    case ViaReg(r) => JumpReg(r) && (r.Virt? ==> !Temp(r.v))
    case ViaMem(a) => Operand(a) && a.AMem? && a.sz == 64
  }

  predicate Supported(i: Instr) {
    match i
    case Normal(_, args) => forall j :: 0 <= j < |args| ==> Operand(args[j])
    case Push(arg) => Pushable(arg)
    case Pop(arg) => Poppable(arg)
    case Call(t) => Jumpable(t)
    case Ret(k) => k == 0
    case Jump(t) => Jumpable(t)
    case _ => true
  }

  // ---------------------------------------------------------------- micro-operations of a line

  function LineOps(i: Instr, next: Word): seq<GOp>
    requires !Control(i)
  {
    match i
    case Normal(op, args) => [SetIp(next), Do(op, args)]
    case Nop => []
    case Push(arg) => PushOps(arg, next)
    case Pop(arg) => PopOps(arg, next)
    case Leave => [SetIp(next), Do(MOV, [AReg(Virt(SP), 64), AReg(Virt(BP), 64)])] + PopOps(AReg(Virt(BP), 64), next)
  }

  /** Equal in everything the program can see: all but IP and the temporaries. */
  ghost predicate Agree(a: Core, b: Core) {
    Shared(a, b) && forall v :: Slotted(v) ==> Look(a.x, Virt(v)) == Look(b.x, Virt(v))
  }

  /** The relation cannot tell agreeing states apart once no temporary is live. */
  lemma AgreeSim(w: View, h: Host, a: Core, b: Core)
    requires Sim(w, h, a) && Agree(a, b) && w.live == {} && !Resident(w.m, IP)
    ensures Sim(w, h, b)
  {
    HeldIsResident(w.m);
    forall p | p in w.m && Defined(w, w.m[p]) ensures Look(h.core.x, Phys(p)) == Look(b.x, Virt(w.m[p])) {
      assert Slotted(w.m[p]);
    }
  }

  lemma Two(sem: Sem, a: GOp, b: GOp, g: Core)
    ensures GRun(sem, [a, b], g) == GStep(sem, b, GStep(sem, a, g))
  {
    assert [a, b][1..] == [b];
    assert GRun(sem, [b], GStep(sem, a, g)) == GRun(sem, [b][1..], GStep(sem, b, GStep(sem, a, g)));
  }

  lemma MoveSpStep(sem: Sem, d: int, next: Word, g: Core)
    ensures GRun(sem, [SetIp(next), MoveSp(d)], g) == Set(At(g, next), Virt(SP), Wrap(Sp(g) + d))
  {
    Two(sem, SetIp(next), MoveSp(d), g);
    var g1, args := At(g, next), MoveSp(d).args;
    assert SumRegs([Virt(SP)], g1) == Get(g1, Virt(SP)) + SumRegs([Virt(SP)][1..], g1);
    assert Val(args[1], g1) == Wrap(Sp(g) + Wrap(d));
    WrapAdd(Sp(g), d);
    TwoOperandStep(sem, LEA, args, g1, Wrap(Sp(g) + d));
  }

  lemma TopAddress(n: nat, g: Core)
    ensures Address(TOP_OF_STACK.(sz := n), g) == Sp(g)
  {
    assert SumRegs([Virt(SP)], g) == Get(g, Virt(SP)) + SumRegs([Virt(SP)][1..], g);
  }

  lemma StoreTopStep(sem: Sem, arg: Arg, next: Word, g: Core)
    requires !arg.AMem?
    ensures GRun(sem, [SetIp(next), StoreTop(arg)], g) ==
            At(g, next).(mem := Store(g.mem, Sp(g), (if arg.AReg? then arg.size else 32) / 8, Val(arg, At(g, next))))
  {
    hide Store, LoadBytes;
    Two(sem, SetIp(next), StoreTop(arg), g);
    TopAddress(if arg.AReg? then arg.size else 32, At(g, next));
    StoreStep(sem, StoreTop(arg).args, At(g, next));
  }

  lemma LoadTopStep(sem: Sem, r: Reg, next: Word, g: Core)
    ensures GRun(sem, [SetIp(next), Do(MOV, [AReg(r, 64), TOP_OF_STACK])], g) ==
            Set(At(g, next), r, Load64(g.mem, Sp(g)))
  {
    hide Store, LoadBytes;
    var args := [AReg(r, 64), TOP_OF_STACK];
    Two(sem, SetIp(next), Do(MOV, args), g);
    TopAddress(64, At(g, next));
    TwoOperandStep(sem, MOV, args, At(g, next), Load64(g.mem, Sp(g)));
  }

  /** An operand that mentions neither SP, IP nor a temporary does not see those change. */
  lemma {:induction false} SumStable(rs: seq<Reg>, a: Core, b: Core)
    requires a.gp == b.gp && forall r :: r in rs ==> Get(a, r) == Get(b, r)
    ensures SumRegs(rs, a) == SumRegs(rs, b)
  {
    if rs != [] { SumStable(rs[1..], a, b); }
  }

  lemma ValStable(arg: Arg, a: Core, b: Core)
    requires forall r :: r in RegsOf(arg) ==> Get(a, r) == Get(b, r)
    requires a.gp == b.gp
    ensures Val(arg, a) == Val(arg, b)
  {
    if arg.AReg? {
      assert arg.r in RegsOf(arg);
    } else if arg.AMem? {
      assert forall r :: r in arg.regs ==> r in RegsOf(arg);
      SumStable(arg.regs, a, b);
      if arg.mul.Some? { assert arg.mul.value.r in RegsOf(arg); }
    }
  }

  lemma {:induction false} SumMoves(regs: seq<Reg>, g: Core, sp: Word)
    ensures SumRegs(regs, Set(g, Virt(SP), sp)) == SumRegs(regs, g) + CountSp(regs) * (sp - Sp(g))
  {
    if regs != [] {
      SumMoves(regs[1..], g, sp);
      Distribute(CountSp(regs[1..]), sp - Sp(g));
    }
  }

  lemma Distribute(n: int, d: int)
    ensures (1 + n) * d == d + n * d
  {
  }

  lemma Spread(a: int, b: int, d: int)
    ensures (a + b) * d == a * d + b * d
  {
  }

  /** Moving SP by d moves an address by d for each time it adds SP. */
  lemma AddressMoves(a: Arg, g: Core, d: int)
    requires a.AMem?
    ensures Address(a, Set(g, Virt(SP), Wrap(Sp(g) + d))) == Wrap(Address(a, g) + SpCount(a) * d)
  {
    hide Wrap, SumRegs;
    var sp := Wrap(Sp(g) + d);
    var delta := sp - Sp(g);
    SumMoves(a.regs, g, sp);
    var k := if a.mul.Some? && a.mul.value.r == Virt(SP) then a.mul.value.k else 0;
    if a.mul.Some? { ScaleMoves(a.mul.value.k, Sp(g), sp); }
    Spread(CountSp(a.regs), k, delta);
    var s := SumRegs(a.regs, g) + a.im + if a.mul.Some? then a.mul.value.k * Get(g, a.mul.value.r) else 0;
    assert Address(a, Set(g, Virt(SP), sp)) == Wrap(s + SpCount(a) * delta);
    WrapTimes(s, SpCount(a), Sp(g), d);
  }

  lemma ScaleMoves(k: int, x: int, y: int)
    ensures k * y == k * x + k * (y - x)
  {
  }

  lemma WrapTimes(s: int, n: nat, x: Word, d: int)
    ensures Wrap(s + n * (Wrap(x + d) - x)) == Wrap(Wrap(s) + n * d)
  {
    var q := (x + d) / TWO64;
    assert Wrap(x + d) - x == d - q * TWO64;
    assert n * (d - q * TWO64) == n * d + -(n * q) * TWO64 by { Nested(n, d, q); }
    WrapShift(s + n * d, -(n * q));
    WrapAdd(n * d, s);
  }

  lemma Nested(n: int, d: int, q: int)
    ensures n * (d - q * TWO64) == n * d + -(n * q) * TWO64
  {
    Spread(d, -(q * TWO64), n);
    assert n * (q * TWO64) == (n * q) * TWO64;
  }

  /** An operand that is free of SP in this sense reads the same after PUSH or POP has moved SP. */
  lemma SpFreeStays(arg: Arg, g: Core, d: int)
    requires SpFree(arg) && (d == 8 || d == -8 || arg.AReg?)
    ensures Val(arg, Set(g, Virt(SP), Wrap(Sp(g) + d))) == Val(arg, g)
  {
    if arg.AMem? {
      AddressMoves(arg, g, d);
      Cancels(Address(arg, g), SpCount(arg), d);
    }
  }

  lemma Cancels(a: Word, n: nat, d: int)
    requires d == 8 || d == -8
    ensures Wrap(a + n * d) == a <==> Wrap(8 * n) == 0
  {
    var r := Wrap(8 * n);
    assert Wrap(a) == a;
    if d == 8 {
      WrapAdd(a, 8 * n);
      Near(a + r);
    } else {
      assert 8 * n == (8 * n / TWO64) * TWO64 + r;
      WrapShift(a - r, -(8 * n / TWO64));
      Near(a - r);
    }
  }

  // ---------------------------------------------------------------- PUSH

  lemma PushAgrees(sem: Sem, arg: Arg, next: Word, g: Core)
    requires Pushable(arg)
    ensures Agree(GRun(sem, PushOps(arg, next), g), Straight(sem, Push(arg), next, g))
  {
    hide Store, LoadBytes, GRun, Step, Wrap, Straight, Agree, Val, MoveSp, StoreTop, PushMemOps;
    var k: int := StackBytes(arg);
    var g1 := Set(At(g, next), Virt(SP), Wrap(Sp(g) - k));
    MoveSpStep(sem, -k, next, g);
    if arg.AReg? {
      PushRegAgrees(sem, arg, next, g, g1);
      assert PushOps(arg, next) == [SetIp(next), MoveSp(-k)] + [SetIp(next), StoreTop(arg)];
      GRunAppend(sem, [SetIp(next), MoveSp(-k)], [SetIp(next), StoreTop(arg)], g);
    } else {
      PushMemAgrees(sem, arg, next, g, g1);
      MemOps(arg, next);
      GRunAppend(sem, [SetIp(next), MoveSp(-k)], PushMemOps(arg, next), g);
    }
  }

  lemma MemOps(arg: Arg, next: Word)
    requires arg.AMem?
    ensures PushOps(arg, next) == [SetIp(next), MoveSp(0 - StackBytes(arg))] + PushMemOps(arg, next)
  {
    hide MoveSp, StoreTop;
  }

  lemma PushRegAgrees(sem: Sem, arg: Arg, next: Word, g: Core, g1: Core)
    requires Pushable(arg) && arg.AReg? && g1 == Set(At(g, next), Virt(SP), Wrap(Sp(g) - StackBytes(arg)))
    ensures Agree(GRun(sem, [SetIp(next), StoreTop(arg)], g1), Straight(sem, Push(arg), next, g))
  {
    hide Store, LoadBytes, GRun, Step, Wrap, StoreTop;
    StoreTopStep(sem, arg, next, g1);
    PushReads(arg, next, g, At(g1, next), 0 - StackBytes(arg));
  }

  lemma FillStep(sem: Sem, r: Reg, arg: Arg, next: Word, g: Core)
    requires arg.AMem? && arg.sz == 64
    ensures GRun(sem, [SetIp(next), Do(MOV, [AReg(r, 64), arg])], g) ==
            Set(At(g, next), r, Load64(g.mem, Address(arg, At(g, next))))
  {
    hide Store, LoadBytes;
    var args := [AReg(r, 64), arg];
    Two(sem, SetIp(next), Do(MOV, args), g);
    TwoOperandStep(sem, MOV, args, At(g, next), Load64(g.mem, Address(arg, At(g, next))));
  }

  lemma One(sem: Sem, a: GOp, g: Core)
    ensures GRun(sem, [a], g) == GStep(sem, a, g)
  {
    assert GRun(sem, [a], g) == GRun(sem, [a][1..], GStep(sem, a, g));
  }

  lemma PushMemRun(sem: Sem, arg: Arg, next: Word, g: Core)
    requires arg.AMem? && arg.sz == 64
    ensures
      var g1 := At(At(g, 0), next);
      var x := Load64(g.mem, Address(arg, g1));
      GRun(sem, PushMemOps(arg, next), g) ==
        At(Set(g1, Virt(T1), x), next).(mem := Store(g.mem, Sp(g), 8, x))
  {
    hide Store, LoadBytes, GRun, Step, Wrap;
    var t1 := AReg(Virt(T1), 64);
    var a, b, c := [SetIp(0)], [SetIp(next), Do(MOV, [t1, arg])], [SetIp(next), StoreTop(t1)];
    var g1 := At(At(g, 0), next);
    var g2 := Set(g1, Virt(T1), Load64(g.mem, Address(arg, g1)));
    assert PushMemOps(arg, next) == a + (b + c);
    GRunAppend(sem, a, b + c, g);
    One(sem, SetIp(0), g);
    GRunAppend(sem, b, c, At(g, 0));
    FillStep(sem, Virt(T1), arg, next, At(g, 0));
    StoreTopStep(sem, t1, next, g2);
  }

  lemma PushMemAgrees(sem: Sem, arg: Arg, next: Word, g: Core, g1: Core)
    requires Pushable(arg) && arg.AMem? && g1 == Set(At(g, next), Virt(SP), Wrap(Sp(g) - 8))
    ensures Agree(GRun(sem, PushMemOps(arg, next), g1), Straight(sem, Push(arg), next, g))
  {
    hide Store, LoadBytes, GRun, Step, Wrap;
    PushMemRun(sem, arg, next, g1);
    PushReads(arg, next, g, At(At(g1, 0), next), -8);
  }

  /** The operand reads the same once SP has moved by d. */
  lemma PushReads(arg: Arg, next: Word, g: Core, g1: Core, d: int)
    requires Operand(arg) && SpFree(arg) && (d == 8 || d == -8 || arg.AReg?)
    requires g1.gp == g.gp && Get(g1, Virt(SP)) == Wrap(Sp(g) + d) && Get(g1, Virt(IP)) == next
    requires forall r :: r != Virt(SP) && r != Virt(IP) && r != Virt(T1) && r != Virt(T2) ==> Get(g1, r) == Get(g, r)
    ensures Val(arg, g1) == Val(arg, At(g, next))
  {
    hide Wrap, SpFree, Val;
    SpFreeStays(arg, At(g, next), d);
    var g2 := Set(At(g, next), Virt(SP), Wrap(Sp(g) + d));
    forall r | r in RegsOf(arg) ensures Get(g1, r) == Get(g2, r) {
      assert r != Virt(T1) && r != Virt(T2);
    }
    ValStable(arg, g1, g2);
  }

  // ---------------------------------------------------------------- POP and LEAVE

  lemma PopRegRun(sem: Sem, r: Reg, next: Word, g: Core)
    requires r != Virt(SP) && r != Virt(IP)
    ensures
      var g1 := Set(At(g, next), r, Load64(g.mem, Sp(g)));
      GRun(sem, PopOps(AReg(r, 64), next), g) == Set(At(g1, next), Virt(SP), Wrap(Sp(g) + 8))
  {
    hide Store, LoadBytes, GRun, Step, Wrap;
    var a, b := [SetIp(next), Do(MOV, [AReg(r, 64), TOP_OF_STACK])], [SetIp(next), MoveSp(8)];
    assert PopOps(AReg(r, 64), next) == a + b;
    GRunAppend(sem, a, b, g);
    LoadTopStep(sem, r, next, g);
    MoveSpStep(sem, 8, next, Set(At(g, next), r, Load64(g.mem, Sp(g))));
  }

  lemma MemStoreStep(sem: Sem, arg: Arg, r: Reg, next: Word, g: Core)
    requires arg.AMem? && arg.sz == 64
    ensures GRun(sem, [SetIp(next), Do(MOV, [arg, AReg(r, 64)])], g) ==
            At(g, next).(mem := Store(g.mem, Address(arg, At(g, next)), 8, Get(At(g, next), r)))
  {
    hide Store, LoadBytes;
    Two(sem, SetIp(next), Do(MOV, [arg, AReg(r, 64)]), g);
    StoreStep(sem, [arg, AReg(r, 64)], At(g, next));
  }

  lemma PopMemRun(sem: Sem, arg: Arg, next: Word, g: Core)
    requires arg.AMem? && arg.sz == 64
    ensures
      var x := Load64(g.mem, Sp(g));
      var g1 := At(Set(At(At(g, 0), next), Virt(T1), x), next);
      GRun(sem, PopMemOps(arg, next), g) == g1.(mem := Store(g.mem, Address(arg, g1), 8, x))
  {
    hide Store, LoadBytes, GRun, Step, Wrap;
    var t1 := AReg(Virt(T1), 64);
    var a, b, c := [SetIp(0)], [SetIp(next), Do(MOV, [t1, TOP_OF_STACK])], [SetIp(next), Do(MOV, [arg, t1])];
    assert PopMemOps(arg, next) == a + (b + c);
    GRunAppend(sem, a, b + c, g);
    One(sem, SetIp(0), g);
    GRunAppend(sem, b, c, At(g, 0));
    LoadTopStep(sem, Virt(T1), next, At(g, 0));
    MemStoreStep(sem, arg, Virt(T1), next, Set(At(At(g, 0), next), Virt(T1), Load64(g.mem, Sp(g))));
  }

  lemma PopRegAgrees(sem: Sem, arg: Arg, next: Word, g: Core)
    requires Poppable(arg) && arg.AReg?
    ensures Agree(GRun(sem, PopOps(arg, next), g), Straight(sem, Pop(arg), next, g))
  {
    hide Store, LoadBytes, GRun, Step, Wrap;
    assert arg.r in RegsOf(arg);
    PopRegRun(sem, arg.r, next, g);
  }

  lemma PopMemAgrees(sem: Sem, arg: Arg, next: Word, g: Core)
    requires Poppable(arg) && arg.AMem?
    ensures Agree(GRun(sem, PopOps(arg, next), g), Straight(sem, Pop(arg), next, g))
  {
    hide *;
    var x := Load64(g.mem, Sp(g));
    var g1 := At(Set(At(At(g, 0), next), Virt(T1), x), next);
    var g2 := g1.(mem := Store(g.mem, Address(arg, g1), 8, x));
    PopMemSplit(arg, next);
    GRunAppend(sem, PopMemOps(arg, next), [SetIp(next), MoveSp(8)], g);
    PopMemRun(sem, arg, next, g);
    MoveSpStep(sem, 8, next, g2);
    PopMemEnd(sem, arg, next, g, g1, g2, x);
  }

  lemma PopMemSplit(arg: Arg, next: Word)
    requires Poppable(arg) && arg.AMem?
    ensures arg.sz == 64 && PopOps(arg, next) == PopMemOps(arg, next) + [SetIp(next), MoveSp(8)]
  {
    hide MoveSp;
  }

  /** The address of the popped operand is the one the processor uses, after SP has moved. */
  lemma PopMemEnd(sem: Sem, arg: Arg, next: Word, g: Core, g1: Core, g2: Core, x: Word)
    requires Poppable(arg) && arg.AMem? && x == Load64(g.mem, Sp(g))
    requires g1 == At(Set(At(At(g, 0), next), Virt(T1), x), next)
    requires g2 == g1.(mem := Store(g.mem, Address(arg, g1), 8, x))
    ensures Agree(Set(At(g2, next), Virt(SP), Wrap(Sp(g2) + 8)), Straight(sem, Pop(arg), next, g))
  {
    hide Wrap, Store, LoadBytes, Address, Poppable, Pushable;
    PopMemSame(arg, next, g, g1, x);
    PopMemStraight(sem, arg, next, g, Address(arg, g1), x);
  }

  lemma PopMemStraight(sem: Sem, arg: Arg, next: Word, g: Core, at: Word, x: Word)
    requires Poppable(arg) && arg.AMem? && at == Address(arg, At(AddSp(g, 8), next)) && x == Load64(g.mem, Sp(g))
    ensures Straight(sem, Pop(arg), next, g) == AddSp(g, 8).(mem := Store(g.mem, at, 8, x))
  {
    hide Wrap, Store, LoadBytes, Address, SpFree;
    assert StackBytes(arg) == 8;
  }

  lemma IsAddress(arg: Arg, g: Core)
    requires arg.AMem?
    ensures Val(arg, g) == Address(arg, g)
  {
  }

  lemma PopMemSame(arg: Arg, next: Word, g: Core, g1: Core, x: Word)
    requires Poppable(arg) && arg.AMem? && g1 == At(Set(At(At(g, 0), next), Virt(T1), x), next)
    ensures Address(arg, g1) == Address(arg, At(AddSp(g, 8), next))
  {
    hide Wrap, SpFree, Val, Address;
    IsAddress(arg, g1);
    IsAddress(arg, At(AddSp(g, 8), next));
    SpFreeStays(arg, At(g, next), 8);
    var g2 := At(AddSp(g, 8), next);
    forall r | r in RegsOf(arg) ensures Get(g1, r) == Get(At(g, next), r) {
      assert r != Virt(T1) && r != Virt(T2);
    }
    ValStable(arg, g1, At(g, next));
    var g3 := Set(At(g, next), Virt(SP), Wrap(Sp(g) + 8));
    forall r | r in RegsOf(arg) ensures Get(g2, r) == Get(g3, r) { }
    ValStable(arg, g2, g3);
  }

  lemma LeaveAgrees(sem: Sem, next: Word, g: Core)
    ensures Agree(GRun(sem, LineOps(Leave, next), g), Straight(sem, Leave, next, g))
  {
    hide Store, LoadBytes, GRun, Step, Wrap, PopOps;
    LeaveMove(sem, next, g);
    var args := [AReg(Virt(SP), 64), AReg(Virt(BP), 64)];
    GRunAppend(sem, [SetIp(next), Do(MOV, args)], PopOps(AReg(Virt(BP), 64), next), g);
    PopRegRun(sem, Virt(BP), next, Set(At(g, next), Virt(SP), Get(g, Virt(BP))));
  }

  lemma LeaveMove(sem: Sem, next: Word, g: Core)
    ensures GRun(sem, [SetIp(next), Do(MOV, [AReg(Virt(SP), 64), AReg(Virt(BP), 64)])], g)
      == Set(At(g, next), Virt(SP), Get(g, Virt(BP)))
  {
    hide Store, LoadBytes, GRun, Step, Wrap;
    var args := [AReg(Virt(SP), 64), AReg(Virt(BP), 64)];
    Two(sem, SetIp(next), Do(MOV, args), g);
    TwoOperandStep(sem, MOV, args, At(g, next), Get(g, Virt(BP)));
  }

  /** Every template that does not transfer control does what the instruction does. */
  lemma LineAgrees(sem: Sem, i: Instr, next: Word, g: Core)
    requires !Control(i) && Supported(i)
    ensures Agree(GRun(sem, LineOps(i, next), g), Straight(sem, i, next, g))
  {
    hide Store, LoadBytes;
    match i
    case Normal(op, args) => Two(sem, SetIp(next), Do(op, args), g);
    case Nop => assert GRun(sem, [], g) == g;
    case Push(arg) => PushAgrees(sem, arg, next, g);
    case Pop(arg) => if arg.AReg? { PopRegAgrees(sem, arg, next, g); } else { PopMemAgrees(sem, arg, next, g); }
    case Leave => LeaveAgrees(sem, next, g);
  }

  // ---------------------------------------------------------------- control transfers

  /** CALL whose target reads differently after the push: through RSP, or through bytes the push moves or overwrites. */
  predicate CallHazard(i: Instr, next: Word, c: Core) {
    i.Call? &&
    match i.t
    case Direct(_) => false
    case ViaReg(r) => r == Virt(SP)
    case ViaMem(a) => a.AMem? && (!SpFree(a) || !Apart(Wrap(Sp(c) - 8), 8, Address(a, At(c, next)), 8))
  }

  const TEMP2: Arg := AReg(Virt(T2), 64)

  function JumpOps(t: Target, next: Word): seq<GOp> {
    if t.ViaMem? then [SetIp(0)] + [SetIp(next), Do(MOV, [TEMP2, t.a])] else []
  }

  /** The register the dispatch table's R14 is loaded from. */
  function JumpSource(t: Target): Reg { if t.ViaReg? then t.r else Virt(T2) }

  function CallOps(next: Word): seq<GOp> {
    [SetIp(0)] + [SetIp(next), Do(MOVABS, [TEMP2, AImm(next)])] + PushOps(TEMP2, next)
  }

  function RetOps(next: Word): seq<GOp> { [SetIp(0)] + PopOps(TEMP2, next) }

  lemma CallRun(sem: Sem, next: Word, g: Core)
    ensures var g' := GRun(sem, CallOps(next), g);
      && Agree(g', PushWord(g, 8, next))
      && (forall r :: r != Virt(SP) && r != Virt(IP) && r != Virt(T2) ==> Get(g', r) == Get(g, r))
  {
    hide Store, LoadBytes, GRun, Step, Wrap;
    var a, b := [SetIp(0)], [SetIp(next), Do(MOVABS, [TEMP2, AImm(next)])];
    var c, d := [SetIp(next), MoveSp(-8)], [SetIp(next), StoreTop(TEMP2)];
    assert CallOps(next) == a + (b + (c + d));
    GRunAppend(sem, a, b + (c + d), g);
    One(sem, SetIp(0), g);
    GRunAppend(sem, b, c + d, At(g, 0));
    Two(sem, SetIp(next), Do(MOVABS, [TEMP2, AImm(next)]), At(g, 0));
    var g1 := Set(At(At(g, 0), next), Virt(T2), next);
    TwoOperandStep(sem, MOVABS, [TEMP2, AImm(next)], At(At(g, 0), next), next);
    GRunAppend(sem, c, d, g1);
    MoveSpStep(sem, -8, next, g1);
    StoreTopStep(sem, TEMP2, next, Set(At(g1, next), Virt(SP), Wrap(Sp(g1) + -8)));
    assert Sp(g1) + -8 == Sp(g) - 8;
  }

  lemma RetRun(sem: Sem, next: Word, g: Core)
    ensures var g' := GRun(sem, RetOps(next), g);
      Agree(g', AddSp(g, 8)) && Get(g', Virt(T2)) == Load64(g.mem, Sp(g))
  {
    hide Store, LoadBytes, GRun, Step, Wrap;
    GRunAppend(sem, [SetIp(0)], PopOps(TEMP2, next), g);
    One(sem, SetIp(0), g);
    PopRegRun(sem, Virt(T2), next, At(g, 0));
  }

  lemma JumpRun(sem: Sem, t: Target, next: Word, g: Core)
    requires Jumpable(t)
    ensures var g' := GRun(sem, JumpOps(t, next), g);
      && Agree(g', g)
      && (t.ViaReg? ==> Get(g', t.r) == Get(g, t.r))
      && (t.ViaMem? ==> Get(g', Virt(T2)) == Load64(g.mem, Address(t.a, At(g, next))))
  {
    hide Store, LoadBytes, Step, Wrap;
    if t.ViaMem? {
      GRunAppend(sem, [SetIp(0)], [SetIp(next), Do(MOV, [TEMP2, t.a])], g);
      One(sem, SetIp(0), g);
      FillStep(sem, Virt(T2), t.a, next, At(g, 0));
      ValStable(t.a, At(At(g, 0), next), At(g, next));
    }
  }

  /** CALL: the target read after the push is the one the processor reads before it. */
  lemma CallAgrees(sem: Sem, t: Target, next: Word, g: Core)
    requires Supported(Call(t)) && !CallHazard(Call(t), next, g)
    ensures var g' := GRun(sem, CallOps(next) + JumpOps(t, next), g);
      && Agree(g', PushWord(g, 8, next))
      && (!t.Direct? ==> Get(g', JumpSource(t)) == TargetOf(t, next, g))
  {
    hide GRun, CallOps, JumpOps, Supported, PushWord, TargetOf, Get, CallHazard, Agree;
    CallTarget(t, next, g);
    var g1 := GRun(sem, CallOps(next), g);
    GRunAppend(sem, CallOps(next), JumpOps(t, next), g);
    CallRun(sem, next, g);
    JumpRun(sem, t, next, g1);
    AgreeTrans(GRun(sem, JumpOps(t, next), g1), g1, PushWord(g, 8, next));
    if t.ViaMem? { CallMem(t, next, g, g1); }
  }

  lemma AgreeTrans(a: Core, b: Core, c: Core)
    requires Agree(a, b) && Agree(b, c)
    ensures Agree(a, c)
  {
  }

  /** The operand is read from the same place before and after the push. */
  lemma CallMem(t: Target, next: Word, g: Core, g1: Core)
    requires t.ViaMem? && Supported(Call(t)) && !CallHazard(Call(t), next, g) && Agree(g1, PushWord(g, 8, next))
    requires forall r :: r != Virt(SP) && r != Virt(IP) && r != Virt(T2) ==> Get(g1, r) == Get(g, r)
    ensures t.a.AMem? && Load64(g1.mem, Address(t.a, At(g1, next))) == TargetOf(t, next, g)
  {
    hide Store, LoadBytes, Wrap, Ahead, SpFree;
    PushReads(t.a, next, g, At(g1, next), -8);
    LoadFrame(g.mem, Wrap(Sp(g) - 8), 8, next, Address(t.a, At(g, next)), 8);
  }

  lemma CallTarget(t: Target, next: Word, g: Core)
    requires Supported(Call(t)) && !CallHazard(Call(t), next, g)
    ensures Jumpable(t)
    ensures t.ViaReg? ==> t.r != Virt(SP) && t.r != Virt(IP) && t.r != Virt(T2) && TargetOf(t, next, g) == Get(g, t.r)
  {
    hide Get;
  }

  // ---------------------------------------------------------------- blocks

  /** How a block ends natively. */
  datatype Exit = Next(ip: Word) | Indirect(ip: Word) | AtSyscall(ip: Word)

  /** Address of line k of a block. */
  function OffsetAt(lines: seq<Line>, k: nat, entry: Word): Word
    requires k <= |lines|
  {
    if k == 0 then entry else Wrap(OffsetAt(lines, k - 1, entry) + lines[k - 1].len)
  }

  /** The state before line k. */
  function RunBody(sem: Sem, lines: seq<Line>, k: nat, entry: Word, c: Core): Core
    requires k <= |lines|
  {
    if k == 0 then c
    else Straight(sem, lines[k - 1].i, OffsetAt(lines, k, entry), RunBody(sem, lines, k - 1, entry, c))
  }

  predicate IndirectTarget(t: Target) { !t.Direct? }

  predicate IndirectInstr(i: Instr) {
    i.Ret? || (i.Call? && IndirectTarget(i.t)) || (i.Jump? && IndirectTarget(i.t))
  }

  function LeaveBy(sem: Sem, i: Instr, here: Word, next: Word, c: Core): (Core, Exit) {
    if !Control(i) then (Straight(sem, i, next, c), Next(next))
    else if i.Syscall? then (c, AtSyscall(here))
    else
      var (c', ip) := Transfer(sem, i, next, c);
      (c', if IndirectInstr(i) then Indirect(ip) else Next(ip))
  }

  function NativeBlock(sem: Sem, lines: seq<Line>, entry: Word, c: Core): (Core, Exit)
    requires lines != []
  {
    var n := |lines|;
    LeaveBy(sem, lines[n - 1].i, OffsetAt(lines, n - 1, entry), OffsetAt(lines, n, entry),
            RunBody(sem, lines, n - 1, entry, c))
  }

  predicate BlockHazard(sem: Sem, lines: seq<Line>, entry: Word, c: Core)
    requires lines != []
  {
    var n := |lines|;
    CallHazard(lines[n - 1].i, OffsetAt(lines, n, entry), RunBody(sem, lines, n - 1, entry, c))
  }

  function InstrRegs(i: Instr): set<VReg> {
    match i
    case Normal(_, args) => ConflictRegs(args)
    case Push(arg) => ConflictRegs([arg])
    case Pop(arg) => ConflictRegs([arg])
    case _ => {}
  }

  /**
   * Blocks the translator handles: control transfers only at the end, supported instructions
   * throughout, and no guest R12-R15 named in a block that ends in SYSCALL.
   */
  predicate GoodBlock(lines: seq<Line>) {
    && lines != []
    && (forall k :: 0 <= k < |lines| ==> Supported(lines[k].i))
    && (forall k :: 0 <= k < |lines| - 1 ==> !Control(lines[k].i))
    && (lines[|lines| - 1].i.Syscall? ==>
          lines[|lines| - 1].len == 2 && forall k :: 0 <= k < |lines| - 1 ==> QuietRegs(InstrRegs(lines[k].i)))
  }
}
