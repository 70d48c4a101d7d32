/** Where a template parts from the processor, and exactly when it does not. */
module Limits {
  import opened Words
  import opened Machine
  import opened Simulation
  import opened Conflict
  import opened Templates
  import opened Native
  import opened Translator

  // ---------------------------------------------------------------- SYSCALL without write-back

  ghost predicate SyscallKeeps(sem: Sem, m: RMap, next: Word) {
    forall h: Host, g: Core :: Sim(View(m, {}), h, g) ==> Ready(HRun(sem, SyscallCode(next), h), g)
  }

  /**
   * The SYSCALL template stores nothing, so it hands over the guest registers for every state
   * exactly when no guest R12-R15 sits in a physical register at that point.
   */
  lemma SyscallExact(sem: Sem, m: RMap, next: Word)
    requires Between(m)
    ensures SyscallKeeps(sem, m, next) <==> Quiet(m)
  {
    if Quiet(m) {
      forall h: Host, g: Core | Sim(View(m, {}), h, g) ensures Ready(HRun(sem, SyscallCode(next), h), g) {
        SyscallHome(sem, View(m, {}), h, g, next);
      }
    } else {
      var v :=
        if Resident(m, V12) then V12 else if Resident(m, V13) then V13 else if Resident(m, V14) then V14 else V15;
      var h, g := LostRegister(sem, m, v, next);
    }
  }

  /** A state whose guest register `v` the SYSCALL template loses. */
  lemma LostRegister(sem: Sem, m: RMap, v: VReg, next: Word) returns (h: Host, g: Core)
    requires Injective(m) && Resident(m, v) && Numbered(v)
    ensures Sim(View(m, {}), h, g) && !Ready(HRun(sem, SyscallCode(next), h), g)
  {
    var p := Home(m, v).value;
    var none := Flags(false, 0);
    g := Core(map[], map[Virt(v) := 1], map[], none, 0);
    h := Host(Core(map[], map[Phys(p) := 1], map[], none, 0), map[], 0);
    hide HRun, SyscallCode, Sim;
    LostSim(m, v, p, h, g);
    SyscallSlots(sem, next, h);
    LostSlot(HRun(sem, SyscallCode(next), h), g, v);
  }

  lemma LostSim(m: RMap, v: VReg, p: PReg, h: Host, g: Core)
    requires Injective(m) && Holds(m, p, v) && Numbered(v)
    requires g == Core(map[], map[Virt(v) := 1], map[], Flags(false, 0), 0)
    requires h == Host(Core(map[], map[Phys(p) := 1], map[], Flags(false, 0), 0), map[], 0)
    ensures Sim(View(m, {}), h, g)
  {
    assert Resident(m, v) by { HeldIsResident(m); }
  }

  lemma LostSlot(h: Host, g: Core, v: VReg)
    requires Numbered(v) && h.slots == map[] && Look(g.x, Virt(v)) == 1
    ensures !Ready(h, g)
  {
    assert Look(h.slots, v) != Look(g.x, Virt(v)) && !Resident(INIT_VIEW.m, v);
  }

  lemma SyscallSlots(sem: Sem, next: Word, h: Host)
    ensures HRun(sem, SyscallCode(next), h).slots == h.slots
  {
    hide Wrap;
    assert HRun(sem, SyscallCode(next), h) == HStep(sem, LoadAbs(P14, Wrap(next - 2)), h);
  }

  // ---------------------------------------------------------------- RET with an operand

  /** The RET template ignores the operand: it is right for exactly those that add nothing to SP. */
  lemma RetExact(sem: Sem, k: nat, next: Word)
    ensures (forall g: Core :: Agree(GRun(sem, RetOps(next), g), AddSp(g, 8 + k))) <==> Wrap(k) == 0
  {
    hide GRun, RetOps, Agree, AddSp, Wrap;
    if Wrap(k) == 0 {
      forall g: Core ensures Agree(GRun(sem, RetOps(next), g), AddSp(g, 8 + k)) { RetAt(sem, k, next, g); }
    } else {
      var g := Core(map[], map[], map[], Flags(false, 0), 0);
      RetAt(sem, k, next, g);
      assert !Agree(GRun(sem, RetOps(next), g), AddSp(g, 8 + k));
    }
  }

  lemma RetAt(sem: Sem, k: nat, next: Word, g: Core)
    ensures Agree(GRun(sem, RetOps(next), g), AddSp(g, 8 + k)) <==> Wrap(k) == 0
  {
    hide GRun, RetOps, Wrap, Agree, AddSp;
    RetRun(sem, next, g);
    MovedBy(Sp(g), k);
    SpAgree(GRun(sem, RetOps(next), g), g, 8, 8 + k);
  }

  /** A state that agrees with one stack pointer agrees with another if they are the same. */
  lemma SpAgree(a: Core, g: Core, x: nat, y: nat)
    requires Agree(a, AddSp(g, x))
    ensures Agree(a, AddSp(g, y)) <==> Wrap(Sp(g) + y) == Wrap(Sp(g) + x)
  {
    hide Wrap;
    assert Look(AddSp(g, x).x, Virt(SP)) == Wrap(Sp(g) + x) && Look(AddSp(g, y).x, Virt(SP)) == Wrap(Sp(g) + y);
    assert Slotted(SP);
  }

  lemma MovedBy(sp: Word, k: nat)
    ensures Wrap(sp + (8 + k)) == Wrap(sp + 8) <==> Wrap(k) == 0
  {
    WrapAdd(sp + 8, k);
    WrapAdd(k, sp + 8);
    Near(sp + 8);
    Near(Wrap(sp + 8) + Wrap(k));
    WrapAdd(Wrap(k), sp + 8);
  }

  // ---------------------------------------------------------------- masked addresses

  /**
   * The shift pair before an access through one base register: the address stays the processor's
   * if and only if the register has its top bit clear, whatever the displacement.
   */
  lemma MaskedAddress(sem: Sem, a: Arg, r: Reg, c: Core)
    requires a.AMem? && a.regs == [r] && (a.mul.Some? ==> a.mul.value.r != r)
    ensures Address(a, Masked(sem, r, c)) == Address(a, c) <==> Get(c, r) < HALF
  {
    var w, c' := Get(c, r), Masked(sem, r, c);
    OneReg(r, c);
    OneReg(r, c');
    var k := a.im + if a.mul.Some? then a.mul.value.k * Get(c, a.mul.value.r) else 0;
    assert a.mul.Some? ==> Get(c', a.mul.value.r) == Get(c, a.mul.value.r);
    assert Address(a, c) == Wrap(w + k) && Address(a, c') == Wrap(Get(c', r) + k);
    if w >= HALF { HalfAway(w + k); }
  }

  lemma OneReg(r: Reg, c: Core)
    ensures SumRegs([r], c) == Get(c, r)
  {
    assert [r][1..] == [];
    assert SumRegs([r], c) == Get(c, r) + SumRegs([r][1..], c);
  }

  lemma HalfAway(x: int)
    ensures Wrap(x - HALF) != Wrap(x)
  {
    assert TWO64 == 2 * HALF;
  }

  // ---------------------------------------------------------------- PUSH of an immediate

  /** Byte i of a little-endian value. */
  function ByteOf(x: int, i: nat): Byte
    decreases i
  {
    if i == 0 then x % 256 else ByteOf(x / 256, i - 1)
  }

  lemma {:induction false} StoredByte(m: Memory, a: Word, n: nat, x: int, i: nat)
    requires i < n <= 8
    ensures ReadByte(Store(m, a, n, x), Wrap(a + i)) == ByteOf(x, i)
    decreases n
  {
    hide Wrap, Ahead, Store;
    var m1, a1 := m[a := x % 256], Wrap(a + 1);
    OneStored(m, a, n, x);
    if i == 0 {
      Near(a + i);
      AheadSelf(a);
      StoreFrame(m1, a1, n - 1, x / 256, a);
    } else {
      StoredByte(m1, a1, n - 1, x / 256, i - 1);
      WrapAdd(i - 1, a + 1);
      assert a1 + (i - 1) == i - 1 + a1 && a + i == i - 1 + (a + 1);
    }
  }

  lemma OneStored(m: Memory, a: Word, n: nat, x: int)
    requires n > 0
    ensures Store(m, a, n, x) == Store(m[a := x % 256], Wrap(a + 1), n - 1, x / 256)
  {
  }

  ghost predicate SameBytes(m: Memory, m': Memory) { forall y: Word :: ReadByte(m, y) == ReadByte(m', y) }

  /** The upper half of the slot below the stack top already holds the upper half of `w`. */
  predicate UpperHalfThere(m: Memory, sp: Word, w: Word) {
    forall i: nat | 4 <= i < 8 :: ReadByte(m, Wrap(sp + i)) == ByteOf(w, i)
  }

  lemma BackAhead(a: Word, i: nat)
    requires i < TWO64
    ensures Ahead(a, Wrap(a + i)) == i
  {
    Near(a + i);
    Near(Wrap(a + i) - a);
  }

  lemma ForthAhead(a: Word, y: Word)
    ensures y == Wrap(a + Ahead(a, y))
  {
    Near(y - a);
    Near(a + Ahead(a, y));
  }

  lemma HalfStore(m: Memory, sp: Word, w: Word)
    ensures SameBytes(Store(m, sp, 4, w), Store(m, sp, 8, w)) <==> UpperHalfThere(m, sp, w)
  {
    hide Store, ByteOf, Wrap, Ahead, ReadByte;
    var half, full := Store(m, sp, 4, w), Store(m, sp, 8, w);
    forall i: nat | 4 <= i < 8
      ensures ReadByte(half, Wrap(sp + i)) == ReadByte(m, Wrap(sp + i)) && ReadByte(full, Wrap(sp + i)) == ByteOf(w, i)
    {
      BackAhead(sp, i);
      StoreFrame(m, sp, 4, w, Wrap(sp + i));
      StoredByte(m, sp, 8, w, i);
    }
    if UpperHalfThere(m, sp, w) {
      forall y: Word ensures ReadByte(half, y) == ReadByte(full, y) {
        var d := Ahead(sp, y);
        ForthAhead(sp, y);
        if d < 4 {
          StoredByte(m, sp, 4, w, d);
          StoredByte(m, sp, 8, w, d);
        } else if d >= 8 {
          StoreFrame(m, sp, 4, w, y);
          StoreFrame(m, sp, 8, w, y);
        } else {
          assert ReadByte(m, Wrap(sp + d)) == ByteOf(w, d);
        }
      }
    }
  }

  /**
   * PUSH of an immediate stores 32 bits where the processor stores the sign-extended 64: memory
   * comes out right exactly when the upper half is already in the slot.
   */
  lemma PushImmExact(sem: Sem, w: Word, next: Word, g: Core)
    ensures
      var out, native := GRun(sem, PushOps(AImm(w), next), g), Straight(sem, Push(AImm(w)), next, g);
      SameBytes(out.mem, native.mem) <==> UpperHalfThere(g.mem, Wrap(Sp(g) - 8), w)
  {
    hide Store, GRun, Step, ByteOf, UpperHalfThere, SameBytes;
    var a, b := [SetIp(next), MoveSp(-8)], [SetIp(next), StoreTop(AImm(w))];
    assert PushOps(AImm(w), next) == a + b;
    GRunAppend(sem, a, b, g);
    MoveSpStep(sem, -8, next, g);
    StoreTopStep(sem, AImm(w), next, Set(At(g, next), Virt(SP), Wrap(Sp(g) + -8)));
    HalfStore(g.mem, Wrap(Sp(g) - 8), w);
  }

  // ---------------------------------------------------------------- telling memories apart

  function Pow256(n: nat): (r: nat)
    ensures r >= 1
  {
    if n == 0 then 1 else 256 * Pow256(n - 1)
  }

  lemma {:induction false} LoadBound(m: Memory, a: Word, n: nat)
    ensures LoadBytes(m, a, n) < Pow256(n)
    decreases n
  {
    if n > 0 { LoadBound(m, Wrap(a + 1), n - 1); }
  }

  lemma Load64Is(m: Memory, a: Word)
    ensures Load64(m, a) == LoadBytes(m, a, 8)
  {
    hide LoadBytes;
    LoadBound(m, a, 8);
    assert Pow256(8) == TWO64;
  }

  /** The two memories differ in one byte, by one. */
  ghost predicate OneMore(m: Memory, m': Memory, b: Word) {
    ReadByte(m', b) == ReadByte(m, b) + 1 && forall y: Word :: y != b ==> ReadByte(m', y) == ReadByte(m, y)
  }

  /** What a load sees of a byte that is one larger. */
  lemma {:induction false} LoadDelta(m: Memory, m': Memory, a: Word, n: nat, b: Word)
    requires n <= 8 && OneMore(m, m', b)
    ensures LoadBytes(m', a, n) == LoadBytes(m, a, n) + if Ahead(a, b) < n then Pow256(Ahead(a, b)) else 0
    decreases n
  {
    hide Wrap, Ahead, LoadBytes, ReadByte;
    if n == 0 {
      NoBytes(m, a);
      NoBytes(m', a);
    } else {
      OneByte(m, a, n);
      OneByte(m', a, n);
      LoadDelta(m, m', Wrap(a + 1), n - 1, b);
      AheadSelf(a);
      if a != b {
        AheadStep(a, b);
        AheadZero(a, b);
        NextPow(Ahead(a, b));
      }
    }
  }

  lemma NoBytes(m: Memory, a: Word)
    ensures LoadBytes(m, a, 0) == 0
  {
  }

  lemma OneByte(m: Memory, a: Word, n: nat)
    requires n > 0
    ensures LoadBytes(m, a, n) == ReadByte(m, a) + 256 * LoadBytes(m, Wrap(a + 1), n - 1)
  {
  }

  lemma NextPow(k: nat)
    requires k > 0
    ensures Pow256(k) == 256 * Pow256(k - 1)
  {
  }

  lemma AheadSelf(a: Word)
    ensures Ahead(a, a) == 0 && Ahead(Wrap(a + 1), a) == TWO64 - 1
  {
  }

  lemma AheadZero(a: Word, b: Word)
    ensures Ahead(a, b) == 0 <==> a == b
  {
  }

  lemma {:induction false} LoadSame(m: Memory, m': Memory, a: Word, n: nat)
    requires SameBytes(m, m')
    ensures LoadBytes(m, a, n) == LoadBytes(m', a, n)
    decreases n
  {
    if n > 0 { LoadSame(m, m', Wrap(a + 1), n - 1); }
  }

  lemma ReadStore(m: Memory, a: Word, x: int, y: Word)
    ensures ReadByte(Store(m, a, 8, x), y) == if Ahead(a, y) < 8 then ByteOf(x, Ahead(a, y)) else ReadByte(m, y)
  {
    hide Store, ByteOf;
    if Ahead(a, y) < 8 {
      StoredByte(m, a, 8, x, Ahead(a, y));
      assert Wrap(a + Ahead(a, y)) == y;
    } else {
      StoreFrame(m, a, 8, x, y);
    }
  }

  /** A store keeps a one-byte difference, or removes it. */
  lemma StoreDelta(m: Memory, m': Memory, b: Word, a: Word, x: int)
    requires OneMore(m, m', b)
    ensures if Ahead(a, b) < 8 then SameBytes(Store(m, a, 8, x), Store(m', a, 8, x))
            else OneMore(Store(m, a, 8, x), Store(m', a, 8, x), b)
  {
    hide Store, ByteOf, Ahead;
    forall y: Word
      ensures Ahead(a, y) < 8 ==> ReadByte(Store(m, a, 8, x), y) == ReadByte(Store(m', a, 8, x), y)
      ensures Ahead(a, y) >= 8 ==> ReadByte(Store(m, a, 8, x), y) == ReadByte(m, y)
      ensures Ahead(a, y) >= 8 ==> ReadByte(Store(m', a, 8, x), y) == ReadByte(m', y)
    {
      ReadStore(m, a, x, y);
      ReadStore(m', a, x, y);
    }
  }

  lemma PowGrows(n: nat)
    ensures n > 0 ==> Pow256(n) > 1
  {
  }

  /** Reading at b after a store at s, instead of at a before it, shows in some memory. */
  lemma ReadDiffers(s: Word, x: int, a: Word, b: Word) returns (m: Memory)
    requires a != b || !Apart(s, 8, a, 8)
    ensures Load64(Store(m, s, 8, x), b) != Load64(m, a)
  {
    hide Store, LoadBytes, Load64, Ahead, Pow256;
    var c := if a != b || Ahead(s, a) < 8 then a else s;
    var m0: Memory, m1: Memory := map[], map[c := 1];
    AheadZero(a, c);
    AheadZero(s, c);
    AheadZero(b, a);
    LoadDelta(m0, m1, a, 8, c);
    StoreDelta(m0, m1, c, s, x);
    PowGrows(Ahead(a, c));
    PowGrows(Ahead(b, c));
    if Ahead(s, c) < 8 {
      LoadSame(Store(m0, s, 8, x), Store(m1, s, 8, x), b, 8);
    } else {
      LoadDelta(Store(m0, s, 8, x), Store(m1, s, 8, x), b, 8, c);
      PowZero();
    }
    Load64Is(m0, a);
    Load64Is(m1, a);
    Load64Is(Store(m0, s, 8, x), b);
    Load64Is(Store(m1, s, 8, x), b);
    m := if Load64(Store(m0, s, 8, x), b) != Load64(m0, a) then m0 else m1;
  }

  lemma PowZero()
    ensures Pow256(0) == 1
  {
  }

  lemma {:induction false} LoadStored(m: Memory, a: Word, n: nat, x: nat)
    requires n <= 8
    ensures LoadBytes(Store(m, a, n, x), a, n) == x % Pow256(n)
    decreases n
  {
    if n > 0 {
      var m1, a1 := m[a := x % 256], Wrap(a + 1);
      AheadSelf(a);
      StoreFrame(m1, a1, n - 1, x / 256, a);
      LoadStored(m1, a1, n - 1, x / 256);
      PowGrows(n - 1);
      Horner(x, Pow256(n - 1));
    }
  }

  lemma Horner(x: nat, p: nat)
    requires p > 0
    ensures x % 256 + 256 * (x / 256 % p) == x % (256 * p)
  {
    var q, r := x / 256 / p, x / 256 % p;
    assert x / 256 == q * p + r;
    assert x == q * (256 * p) + (256 * r + x % 256) by { assert 256 * (q * p) == q * (256 * p); }
    Remainder(x, 256 * p, q, 256 * r + x % 256);
  }

  lemma Remainder(x: nat, m: nat, q: nat, r: nat)
    requires m > 0 && x == q * m + r && r < m
    ensures x % m == r
  {
    var d := x / m;
    assert d < q ==> (d + 1) * m <= q * m;
    assert d > q ==> (q + 1) * m <= d * m;
  }

  /** Two different words stored at one place leave different memories. */
  lemma StoresDiffer(m: Memory, a: Word, x: Word, y: Word)
    requires x != y
    ensures Store(m, a, 8, x) != Store(m, a, 8, y)
  {
    hide Store, LoadBytes;
    LoadStored(m, a, 8, x);
    LoadStored(m, a, 8, y);
    assert Pow256(8) == TWO64;
  }

  // ---------------------------------------------------------------- CALL through an operand the push touches

  /** The target the CALL template ends up with. */
  function CallTargetRead(sem: Sem, t: Target, next: Word, g: Core): Word {
    Get(GRun(sem, CallOps(next) + JumpOps(t, next), g), JumpSource(t))
  }

  /** It is the operand read with SP moved and the return address stored. */
  lemma CallReads(sem: Sem, a: Arg, next: Word, g: Core)
    requires Jumpable(ViaMem(a))
    ensures CallTargetRead(sem, ViaMem(a), next, g) ==
      Load64(Store(g.mem, Wrap(Sp(g) - 8), 8, next), Wrap(Address(a, At(g, next)) + SpCount(a) * -8))
  {
    hide GRun, CallOps, JumpOps, Store, LoadBytes, Wrap, Address, SpCount, Jumpable;
    var g1 := GRun(sem, CallOps(next), g);
    GRunAppend(sem, CallOps(next), JumpOps(ViaMem(a), next), g);
    CallRun(sem, next, g);
    JumpRun(sem, ViaMem(a), next, g1);
    CallAddress(a, next, g, g1);
  }

  lemma CallAddress(a: Arg, next: Word, g: Core, g1: Core)
    requires Jumpable(ViaMem(a)) && Agree(g1, PushWord(g, 8, next))
    requires forall r :: r != Virt(SP) && r != Virt(IP) && r != Virt(T2) ==> Get(g1, r) == Get(g, r)
    ensures Address(a, At(g1, next)) == Wrap(Address(a, At(g, next)) + SpCount(a) * -8)
  {
    hide Store, Wrap, Address, SpCount, Val;
    var g2 := Set(At(g, next), Virt(SP), Wrap(Sp(g) - 8));
    forall r | r in RegsOf(a) ensures Get(At(g1, next), r) == Get(g2, r) {
      assert r != Virt(T2);
    }
    ValStable(a, At(g1, next), g2);
    IsAddress(a, At(g1, next));
    IsAddress(a, g2);
    AddressMoves(a, At(g, next), -8);
  }

  /**
   * CALL through memory reads its target after the push.  In a given register state that is the
   * target the processor reads, whatever memory holds, if and only if the address does not move
   * with SP and the operand is apart from the return address pushed.
   */
  lemma CallMemExact(sem: Sem, a: Arg, next: Word, g: Core)
    requires Jumpable(ViaMem(a))
    ensures
      (forall m: Memory ::
        CallTargetRead(sem, ViaMem(a), next, g.(mem := m)) == TargetOf(ViaMem(a), next, g.(mem := m)))
      <==> SpFree(a) && Apart(Wrap(Sp(g) - 8), 8, Address(a, At(g, next)), 8)
  {
    hide CallTargetRead, Store, LoadBytes, Wrap, Apart, SumRegs, SpCount;
    var s, at := Wrap(Sp(g) - 8), Address(a, At(g, next));
    var moved := Wrap(at + SpCount(a) * -8);
    CallSpFree(a, at);
    forall m: Memory
      ensures CallTargetRead(sem, ViaMem(a), next, g.(mem := m)) == Load64(Store(m, s, 8, next), moved)
      ensures TargetOf(ViaMem(a), next, g.(mem := m)) == Load64(m, at)
    {
      MemFree(a, next, g, m);
      CallReads(sem, a, next, g.(mem := m));
    }
    if SpFree(a) && Apart(s, 8, at, 8) {
      forall m: Memory ensures Load64(Store(m, s, 8, next), moved) == Load64(m, at) { LoadFrame(m, s, 8, next, at, 8); }
    } else {
      var m := ReadDiffers(s, next, at, moved);
    }
  }

  lemma CallSpFree(a: Arg, at: Word)
    requires a.AMem?
    ensures Wrap(at + SpCount(a) * -8) == at <==> SpFree(a)
  {
    hide SpCount;
    Cancels(at, SpCount(a), -8);
  }

  lemma {:induction false} SumMem(regs: seq<Reg>, g: Core, m: Memory)
    ensures SumRegs(regs, g.(mem := m)) == SumRegs(regs, g)
  {
    if regs != [] { SumMem(regs[1..], g, m); }
  }

  lemma MemFree(a: Arg, next: Word, g: Core, m: Memory)
    requires a.AMem?
    ensures Address(a, At(g.(mem := m), next)) == Address(a, At(g, next)) && Sp(g.(mem := m)) == Sp(g)
  {
    assert At(g.(mem := m), next) == At(g, next).(mem := m);
    SumMem(a.regs, At(g, next), m);
  }

  /** CALL through a register: right in all states if and only if it is not RSP, and for RSP wrong in all. */
  lemma CallRegExact(sem: Sem, r: Reg, next: Word, g: Core)
    requires Jumpable(ViaReg(r))
    ensures CallTargetRead(sem, ViaReg(r), next, g) == TargetOf(ViaReg(r), next, g) <==> r != Virt(SP)
  {
    hide GRun, CallOps, Store;
    var g1 := GRun(sem, CallOps(next), g);
    GRunAppend(sem, CallOps(next), JumpOps(ViaReg(r), next), g);
    CallRun(sem, next, g);
    JumpRun(sem, ViaReg(r), next, g1);
    if r == Virt(SP) {
      assert Get(g1, r) == Wrap(Sp(g) - 8);
    }
  }

  const CALL_RSP8: Arg := AMem([Virt(SP)], 8, None, 64)
  const CALL_RBX: Arg := AMem([Gp(1)], 0, None, 64)

  /** CALL [RSP+8] moves with SP; CALL [RBX] with RBX eight below RSP reads its own return address. */
  lemma CallExamples(sem: Sem, next: Word)
    ensures !SpFree(CALL_RSP8)
    ensures var g := Core(map[1 := 92], map[Virt(SP) := 100], map[], Flags(false, 0), 0);
      SpFree(CALL_RBX) && !Apart(Wrap(Sp(g) - 8), 8, Address(CALL_RBX, At(g, next)), 8)
  {
    var g := Core(map[1 := 92], map[Virt(SP) := 100], map[], Flags(false, 0), 0);
    assert CountSp([Virt(SP)]) == 1 + CountSp([Virt(SP)][1..]);
    assert CountSp([Gp(1)]) == CountSp([Gp(1)][1..]);
    assert SumRegs([Gp(1)], At(g, next)) == Get(At(g, next), Gp(1)) + SumRegs([Gp(1)][1..], At(g, next));
  }

  /** A state for each half of the condition in which CALL goes to the wrong target. */
  lemma CallFails(sem: Sem, next: Word) returns (m: Memory, m': Memory)
    ensures var g := Core(map[1 := 92], map[Virt(SP) := 100], map[], Flags(false, 0), 0);
      && CallTargetRead(sem, ViaMem(CALL_RSP8), next, g.(mem := m)) != TargetOf(ViaMem(CALL_RSP8), next, g.(mem := m))
      && CallTargetRead(sem, ViaMem(CALL_RBX), next, g.(mem := m')) != TargetOf(ViaMem(CALL_RBX), next, g.(mem := m'))
  {
    hide CallTargetRead, Apart, TargetOf, SpFree, Address;
    CallExamples(sem, next);
    ExamplesFit();
    var g := Core(map[1 := 92], map[Virt(SP) := 100], map[], Flags(false, 0), 0);
    CallMemExact(sem, CALL_RSP8, next, g);
    CallMemExact(sem, CALL_RBX, next, g);
    m :| CallTargetRead(sem, ViaMem(CALL_RSP8), next, g.(mem := m)) != TargetOf(ViaMem(CALL_RSP8), next, g.(mem := m));
    m' :| CallTargetRead(sem, ViaMem(CALL_RBX), next, g.(mem := m')) != TargetOf(ViaMem(CALL_RBX), next, g.(mem := m'));
  }

  lemma ExamplesFit()
    ensures Jumpable(ViaMem(CALL_RSP8)) && Jumpable(ViaMem(CALL_RBX))
  {
  }

  // ---------------------------------------------------------------- PUSH and POP of operands that move with SP

  /** PUSH RSP stores RSP after the move: never what the processor stores. */
  lemma PushRspNever(sem: Sem, next: Word, g: Core)
    ensures var arg := AReg(Virt(SP), 64);
      !Agree(GRun(sem, PushOps(arg, next), g), Straight(sem, Push(arg), next, g))
  {
    hide Store, GRun, Step, Wrap;
    var arg := AReg(Virt(SP), 64);
    var a, b := [SetIp(next), MoveSp(-8)], [SetIp(next), StoreTop(arg)];
    assert PushOps(arg, next) == a + b;
    GRunAppend(sem, a, b, g);
    MoveSpStep(sem, -8, next, g);
    StoreTopStep(sem, arg, next, Set(At(g, next), Virt(SP), Wrap(Sp(g) + -8)));
    Below(Sp(g));
    StoresDiffer(g.mem, Wrap(Sp(g) - 8), Wrap(Sp(g) - 8), Sp(g));
  }

  lemma Below(x: Word)
    ensures Wrap(x - 8) != x && Wrap(x + 8) != x
  {
  }

  /** POP RSP adds eight to what it loaded: never what the processor leaves. */
  lemma PopRspNever(sem: Sem, next: Word, g: Core)
    ensures var arg := AReg(Virt(SP), 64);
      !Agree(GRun(sem, PopOps(arg, next), g), Straight(sem, Pop(arg), next, g))
  {
    hide Store, LoadBytes, GRun, Step, Wrap;
    var arg := AReg(Virt(SP), 64);
    var a, b := [SetIp(next), Do(MOV, [arg, TOP_OF_STACK])], [SetIp(next), MoveSp(8)];
    assert PopOps(arg, next) == a + b;
    GRunAppend(sem, a, b, g);
    LoadTopStep(sem, Virt(SP), next, g);
    var x := Load64(g.mem, Sp(g));
    var g1 := Set(At(g, next), Virt(SP), x);
    MoveSpStep(sem, 8, next, g1);
    Below(x);
    assert Look(GRun(sem, PopOps(arg, next), g).x, Virt(SP)) == Wrap(Sp(g1) + 8);
    assert Look(Straight(sem, Pop(arg), next, g).x, Virt(SP)) == x;
  }

  /** PUSH of a memory operand is right, whatever memory holds, if and only if its address does not move with SP. */
  lemma PushMemExact(sem: Sem, a: Arg, next: Word, g: Core)
    requires Operand(a) && a.AMem? && a.sz == 64
    ensures (forall m: Memory :: Agree(GRun(sem, PushOps(a, next), g.(mem := m)),
                                       Straight(sem, Push(a), next, g.(mem := m))))
      <==> SpFree(a)
  {
    hide GRun, PushOps, Straight, Agree, SpFree, LoadBytes, Store;
    if SpFree(a) {
      forall m: Memory ensures Agree(GRun(sem, PushOps(a, next), g.(mem := m)),
                                     Straight(sem, Push(a), next, g.(mem := m))) {
        PushAgrees(sem, a, next, g.(mem := m));
      }
    } else {
      var m := PushMemFails(sem, a, next, g);
    }
  }

  lemma PushMemFails(sem: Sem, a: Arg, next: Word, g: Core) returns (m: Memory)
    requires Operand(a) && a.AMem? && a.sz == 64 && !SpFree(a)
    ensures !Agree(GRun(sem, PushOps(a, next), g.(mem := m)), Straight(sem, Push(a), next, g.(mem := m)))
  {
    hide GRun, PushOps, LoadBytes, Store, Wrap, SumRegs, SpCount, SpFree;
    var at := Address(a, At(g, next));
    var moved := Wrap(at + SpCount(a) * -8);
    CallSpFree(a, at);
    m := LoadsDiffer(at, moved);
    MemFree(a, next, g, m);
    PushMemWrites(sem, a, next, g.(mem := m));
    StoresDiffer(m, Wrap(Sp(g) - 8), Load64(m, moved), Load64(m, at));
  }

  lemma LoadsDiffer(a: Word, b: Word) returns (m: Memory)
    requires a != b
    ensures Load64(m, b) != Load64(m, a)
  {
    hide LoadBytes, Load64, Ahead, Pow256;
    var m0: Memory, m1: Memory := map[], map[a := 1];
    AheadZero(a, a);
    AheadZero(b, a);
    LoadDelta(m0, m1, a, 8, a);
    LoadDelta(m0, m1, b, 8, a);
    PowGrows(Ahead(b, a));
    PowZero();
    Load64Is(m0, a);
    Load64Is(m1, a);
    Load64Is(m0, b);
    Load64Is(m1, b);
    m := if Load64(m0, b) != Load64(m0, a) then m0 else m1;
  }

  lemma PushMemWrites(sem: Sem, a: Arg, next: Word, g: Core)
    requires Operand(a) && a.AMem? && a.sz == 64
    ensures GRun(sem, PushOps(a, next), g).mem ==
      Store(g.mem, Wrap(Sp(g) - 8), 8, Load64(g.mem, Wrap(Address(a, At(g, next)) + SpCount(a) * -8)))
  {
    hide Store, LoadBytes, GRun, Step, Wrap, SumRegs, SpCount;
    var g1 := Set(At(g, next), Virt(SP), Wrap(Sp(g) - 8));
    MoveSpStep(sem, -8, next, g);
    assert PushOps(a, next) == [SetIp(next), MoveSp(-8)] + PushMemOps(a, next);
    GRunAppend(sem, [SetIp(next), MoveSp(-8)], PushMemOps(a, next), g);
    PushMemRun(sem, a, next, g1);
    forall r | r in RegsOf(a) ensures Get(At(At(g1, 0), next), r) == Get(g1, r) { }
    ValStable(a, At(At(g1, 0), next), g1);
    AddressMoves(a, At(g, next), -8);
  }

  /** POP into memory stores at the address before SP moves: right in all memories if and only if it does not move. */
  lemma PopMemExact(sem: Sem, a: Arg, next: Word, g: Core)
    requires Operand(a) && a.AMem? && a.sz == 64
    ensures (forall m: Memory :: Agree(GRun(sem, PopOps(a, next), g.(mem := m)),
                                       Straight(sem, Pop(a), next, g.(mem := m))))
      <==> SpFree(a)
  {
    hide GRun, PopOps, Straight, Agree, SpFree, LoadBytes, Store;
    if SpFree(a) {
      forall m: Memory ensures Agree(GRun(sem, PopOps(a, next), g.(mem := m)),
                                     Straight(sem, Pop(a), next, g.(mem := m))) {
        PopMemAgrees(sem, a, next, g.(mem := m));
      }
    } else {
      PopMemFails(sem, a, next, g);
    }
  }

  lemma PopMemFails(sem: Sem, a: Arg, next: Word, g: Core)
    requires Operand(a) && a.AMem? && a.sz == 64 && !SpFree(a)
    ensures var m: Memory := map[Sp(g) := 1];
      !Agree(GRun(sem, PopOps(a, next), g.(mem := m)), Straight(sem, Pop(a), next, g.(mem := m)))
  {
    hide GRun, PopOps, LoadBytes, Load64, Store, Wrap, Address, SpCount, SpFree, Straight;
    var m: Memory := map[Sp(g) := 1];
    var at := Address(a, At(g, next));
    var moved := Wrap(at + SpCount(a) * 8);
    PopSpFree(a, at);
    MemFree(a, next, g, m);
    PopMemWrites(sem, a, next, g.(mem := m));
    PopNative(sem, a, next, g.(mem := m));
    OneLoaded(Sp(g));
    PlacesDiffer(Sp(g), at, moved);
  }

  lemma PopSpFree(a: Arg, at: Word)
    requires a.AMem?
    ensures Wrap(at + SpCount(a) * 8) == at <==> SpFree(a)
  {
    hide SpCount;
    Cancels(at, SpCount(a), 8);
  }

  lemma PopMemWrites(sem: Sem, a: Arg, next: Word, g: Core)
    requires Operand(a) && a.AMem? && a.sz == 64
    ensures GRun(sem, PopOps(a, next), g).mem == Store(g.mem, Address(a, At(g, next)), 8, Load64(g.mem, Sp(g)))
  {
    hide Store, LoadBytes, GRun, Step, Wrap, SumRegs, SpCount;
    var b := [SetIp(next), MoveSp(8)];
    assert PopOps(a, next) == PopMemOps(a, next) + b;
    GRunAppend(sem, PopMemOps(a, next), b, g);
    PopMemRun(sem, a, next, g);
    var x := Load64(g.mem, Sp(g));
    var g1 := At(Set(At(At(g, 0), next), Virt(T1), x), next);
    MoveSpStep(sem, 8, next, g1.(mem := Store(g.mem, Address(a, g1), 8, x)));
    forall r | r in RegsOf(a) ensures Get(g1, r) == Get(At(g, next), r) { assert r != Virt(T1); }
    ValStable(a, g1, At(g, next));
  }

  lemma PopNative(sem: Sem, a: Arg, next: Word, g: Core)
    requires Operand(a) && a.AMem? && a.sz == 64
    ensures Straight(sem, Pop(a), next, g).mem ==
      Store(g.mem, Wrap(Address(a, At(g, next)) + SpCount(a) * 8), 8, Load64(g.mem, Sp(g)))
  {
    hide Store, LoadBytes, Wrap, SumRegs, SpCount;
    AddressMoves(a, At(g, next), 8);
    var g2, g3 := At(AddSp(g, 8), next), Set(At(g, next), Virt(SP), Wrap(Sp(g) + 8));
    forall r | r in RegsOf(a) ensures Get(g2, r) == Get(g3, r) { }
    ValStable(a, g2, g3);
  }

  lemma OneLoaded(sp: Word)
    ensures Load64(map[sp := 1], sp) == 1
  {
    hide LoadBytes, Pow256, Ahead;
    var m0: Memory := map[];
    LoadDelta(m0, map[sp := 1], sp, 8, sp);
    AheadZero(sp, sp);
    PowZero();
    ZeroLoad(sp, 8);
    Load64Is(map[sp := 1], sp);
  }

  lemma {:induction false} ZeroLoad(a: Word, n: nat)
    ensures LoadBytes(map[], a, n) == 0
    decreases n
  {
    if n > 0 { ZeroLoad(Wrap(a + 1), n - 1); }
  }

  lemma PlacesDiffer(sp: Word, a: Word, b: Word)
    requires a != b
    ensures var m: Memory := map[sp := 1]; Store(m, a, 8, 1) != Store(m, b, 8, 1)
  {
    hide Store, Ahead, ByteOf;
    var m: Memory := map[sp := 1];
    ReadStore(m, a, 1, a);
    ReadStore(m, b, 1, a);
    ReadStore(m, a, 1, b);
    ReadStore(m, b, 1, b);
    AheadZero(a, a);
    AheadZero(b, b);
    AheadZero(a, b);
    AheadZero(b, a);
    BytesOfOne(Ahead(a, b));
    BytesOfOne(Ahead(b, a));
    BytesOfOne(0);
  }

  lemma {:induction false} ByteOfZero(i: nat)
    ensures ByteOf(0, i) == 0
  {
    if i > 0 { ByteOfZero(i - 1); }
  }

  lemma BytesOfOne(i: nat)
    ensures ByteOf(1, i) == if i == 0 then 1 else 0
  {
    if i > 0 { ByteOfZero(i - 1); }
  }
}
