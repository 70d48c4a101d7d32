/** Rewriting one ordinary instruction, and the PUSH, POP and jump templates built from it. */
module Templates {
  import opened Words
  import opened Machine
  import opened Simulation
  import opened Conflict

  /** `extract_conflict_regs` over all operands of an instruction. */
  function ConflictRegs(args: seq<Arg>): set<VReg> {
    if args == [] then {} else (set r | r in RegsOf(args[0]) && r.Virt? :: r.v) + ConflictRegs(args[1..])
  }

  lemma ConflictTwo(a: Arg, b: Arg)
    ensures ConflictRegs([a, b]) == ConflictRegs([a]) + ConflictRegs([b])
  {
    assert [a, b][1..] == [b] && [a][1..] == [] && [b][1..] == [];
  }

  ghost predicate Readable(live: set<VReg>, op: Op, args: seq<Arg>) {
    || (forall i :: 0 <= i < |args| ==> Reads(View(map[], live), args[i]))
    || (FillsTemp(op, args) && Reads(View(map[], live), args[1]))
  }

  function LiveAfter(live: set<VReg>, op: Op, args: seq<Arg>): set<VReg> {
    if FillsTemp(op, args) then live + {args[0].r.v} else live
  }

  lemma {:induction false} NothingToRename(m: RMap, args: seq<Arg>)
    requires ConflictRegs(args) == {}
    ensures RenameArgs(m, args) == Some(args)
  {
    if args != [] {
      NothingToRename(m, args[1..]);
      var a := args[0];
      assert forall v :: Virt(v) in RegsOf(a) ==> v in ConflictRegs(args);
      if a.AMem? {
        assert forall r :: r in a.regs ==> r in RegsOf(a);
        PlainRegs(m, a.regs);
      }
      assert args == [a] + args[1..];
    }
  }

  lemma {:induction false} PlainRegs(m: RMap, rs: seq<Reg>)
    requires forall r :: r in rs ==> !r.Virt?
    ensures RenameRegs(m, rs) == Some(rs)
  {
    if rs != [] {
      PlainRegs(m, rs[1..]);
      assert rs == [rs[0]] + rs[1..];
    }
  }

  lemma InstrImplements(sem: Sem, w: View, op: Op, args: seq<Arg>)
    requires Injective(w.m) && GuestArgs(args) && RenameArgs(w.m, args).Some? && Readable(w.live, op, args)
    ensures Implements(sem, w, [HDo(op, RenameArgs(w.m, args).value)],
                       View(w.m, LiveAfter(w.live, op, args)), [Do(op, args)])
    ensures Kept(w) ==> Kept(View(w.m, LiveAfter(w.live, op, args)))
  {
    if FillsTemp(op, args) {
      assert Reads(w, args[1]) by {
        assert Reads(View(map[], w.live), args[1]);
      }
      RenamedFill(sem, w, op, args);
      assert RenameArg(w.m, args[0]).Some?;
    } else {
      forall i | 0 <= i < |args| ensures Reads(w, args[i]) {
        assert Reads(View(map[], w.live), args[i]);
      }
      Renamed(sem, w, op, args);
    }
  }

  /**
   * `process_normal`: resolve the registers an instruction names, rename its operands, mask an
   * address register if asked to, drop the instruction pointer and recover SP and BP.  The
   * result does to the guest state what the instruction does, whichever registers were evicted
   * for it; masking clobbers the flags before it.
   */
  method ProcessNormal(rm: RegMap, ghost sem: Sem, op: Op, args: seq<Arg>, offset: Word, mask: Option<Reg>)
    returns (r: Option<seq<HInstr>>)
    requires Between(rm.m) && Kept(rm.At()) && GuestArgs(args) && Readable(rm.live, op, args)
    requires mask.Some? ==> Maskable(mask.value) && Named(args, mask.value)
    modifies rm
    ensures rm.live == LiveAfter(old(rm.live), op, args) || r.None?
    ensures r.Some? ==> Between(rm.m) && Kept(rm.At())
    ensures r.Some? ==> ImplementsWhen(sem, old(rm.At()), r.value, rm.At(), mask, [SetIp(offset), Do(op, args)])
    ensures r.Some? && mask.None? ==>
      Implements(sem, old(rm.At()), r.value, rm.At(), [SetIp(offset), Do(op, args)])
    ensures r.Some? && old(Quiet(rm.m)) && QuietRegs(ConflictRegs(args)) ==> Quiet(rm.m)
    ensures old(Narrow(rm.m, ConflictRegs(args))) ==> r.Some?
    ensures Borrowable(ConflictRegs(args)) && !old(Outnumbered(rm.m, ConflictRegs(args))) ==> r.Some?
    ensures r.Some? ==> TempsIn(rm.m) <= old(TempsIn(rm.m)) + ConflictRegs(args)
  {
    hide Implements, Quiet, GuestArgs, Readable, ConflictRegs, LiveAfter, FillsTemp, Narrow, Resident, Holds, Room,
      TempsIn, Between, Kept, Injective, Stable, QuietRegs, RenameArgs, ImplementsWhen, MaskCode, Maskable, Named,
      RenameReg, Outnumbered, Filled, Lost, Slotted, Borrowable;
    ghost var narrow := Narrow(rm.m, ConflictRegs(args));
    BetweenIs(rm.At());
    if narrow { NarrowRoom(rm.m, ConflictRegs(args)); }
    ghost var w0 := rm.At();
    ghost var ops := [SetIp(offset), Do(op, args)];
    var conflict := ConflictRegs(args);
    if conflict == {} {
      NothingToRename(rm.m, args);
      SetIpFree(sem, w0, offset);
      var only := MaskCode(rm.m, mask) + [HDo(op, args)];
      MaskedInstr(sem, w0, [], w0, offset, mask, op, args, args);
      rm.live := LiveAfter(rm.live, op, args);
      assert [] + MaskCode(rm.m, mask) + [HDo(op, args)] == only;
      WhenNone(sem, w0, only, rm.At(), ops);
      return Some(only);
    }
    var pre := rm.Resolve(sem, conflict, offset);
    if pre.None? { return None; }
    ghost var borrows := Borrowable(conflict);
    if borrows { BorrowableIs(conflict); }
    if narrow || borrows { AllRename(rm.m, args); }
    if narrow { HeldThere(rm.m); }
    var hargs := rm.ApplyMap(args);
    if hargs.None? { return None; }
    var code := pre.value + MaskCode(rm.m, mask) + [HDo(op, hargs.value)];
    MaskedInstr(sem, w0, pre.value, rm.At(), offset, mask, op, args, hargs.value);
    rm.live := LiveAfter(rm.live, op, args);
    ghost var w2 := rm.At();
    rm.ReleaseIp(sem);
    ghost var w3 := rm.At();
    WhenSilent(sem, w0, code, w2, mask, ops, [], w3);
    assert code + [] == code;
    TempsStay(w0.m, rm.m, conflict);
    if borrows { NotLost(rm.m); }
    var post := rm.RecoverStable(sem);
    if post.None? { return None; }
    WhenSilent(sem, w0, code, w3, mask, ops, post.value, rm.At());
    WhenNone(sem, w0, code + post.value, rm.At(), ops);
    return Some(code + post.value);
  }

  /** R12 to R15 and segment bases alone: for these SP and BP can be borrowed and put back. */
  predicate Borrowable(conflict: set<VReg>) { forall v :: v in conflict ==> Numbered(v) || Segment(v) }

  lemma BorrowableIs(conflict: set<VReg>)
    requires Borrowable(conflict)
    ensures SP !in conflict && BP !in conflict && IP !in conflict && forall v :: v in conflict ==> Slotted(v)
  {
  }

  lemma NotLost(m: RMap)
    ensures Filled(m, P12) && Filled(m, P13) ==> !Lost(m, SP, P13) && !Lost(m, BP, P12)
  {
    hide Filled;
  }

  /** One of the operands names the register. */
  predicate Named(args: seq<Arg>, r: Reg) { exists j :: 0 <= j < |args| && r in RegsOf(args[j]) }

  /** The instruction with its mask, behind code that resolved its registers. */
  lemma MaskedInstr(sem: Sem, w0: View, pre: seq<HInstr>, w1: View, offset: Word, mask: Option<Reg>, op: Op,
                    args: seq<Arg>, hargs: seq<Arg>)
    requires Implements(sem, w0, pre, w1, [SetIp(offset)]) && Injective(w1.m) && GuestArgs(args)
    requires RenameArgs(w1.m, args) == Some(hargs) && Readable(w1.live, op, args)
    requires mask.Some? ==> Maskable(mask.value) && Named(args, mask.value)
    ensures ImplementsWhen(sem, w0, pre + MaskCode(w1.m, mask) + [HDo(op, hargs)],
                           View(w1.m, LiveAfter(w1.live, op, args)), mask, [SetIp(offset), Do(op, args)])
    ensures Kept(w1) ==> Kept(View(w1.m, LiveAfter(w1.live, op, args)))
  {
    hide *;
    var w2 := View(w1.m, LiveAfter(w1.live, op, args));
    InstrImplements(sem, w1, op, args);
    if mask.Some? { NamedRenames(w1.m, args, mask.value); }
    MaskBetween(sem, w0, pre, w1, offset, mask, [HDo(op, hargs)], w2, [Do(op, args)]);
    assert [SetIp(offset)] + [Do(op, args)] == [SetIp(offset), Do(op, args)];
  }

  lemma {:induction false} NamedRenames(m: RMap, args: seq<Arg>, r: Reg)
    requires RenameArgs(m, args).Some? && Named(args, r)
    ensures RenameReg(m, r).Some?
  {
    hide RenameReg;
    var j :| 0 <= j < |args| && r in RegsOf(args[j]);
    if j > 0 {
      assert args[1..][j - 1] == args[j];
      NamedRenames(m, args[1..], r);
    } else if args[0].AMem? && r in args[0].regs {
      RegRenames(m, args[0].regs, r);
    }
  }

  lemma {:induction false} RegRenames(m: RMap, rs: seq<Reg>, r: Reg)
    requires RenameRegs(m, rs).Some? && r in rs
    ensures RenameReg(m, r).Some?
  {
    hide RenameReg;
    if rs[0] != r { RegRenames(m, rs[1..], r); }
  }

  lemma TempsStay(m0: RMap, m1: RMap, conflict: set<VReg>)
    ensures (forall v :: v != IP && Resident(m1, v) ==> Resident(m0, v) || v in conflict) ==>
            TempsIn(m1) <= TempsIn(m0) + conflict
  {
  }

  lemma BetweenIs(w: View)
    requires Between(w.m)
    ensures Injective(w.m) && !Resident(w.m, IP)
  {
  }

  lemma HeldThere(m: RMap)
    ensures Holds(m, P13, SP) ==> Resident(m, SP)
    ensures Holds(m, P12, BP) ==> Resident(m, BP)
  {
  }

  /** Operands rename when every register they name is resident. */
  lemma {:induction false} AllRename(m: RMap, args: seq<Arg>)
    requires forall v :: v in ConflictRegs(args) ==> Resident(m, v)
    ensures RenameArgs(m, args).Some?
  {
    hide Resident;
    if args != [] {
      AllRename(m, args[1..]);
      var a := args[0];
      forall r | r in RegsOf(a) ensures RenameReg(m, r).Some? {
        if r.Virt? { assert r.v in ConflictRegs(args); }
        HomeThere(m, r);
      }
      if a.AMem? {
        assert forall r :: r in a.regs ==> r in RegsOf(a);
        RegsRename(m, a.regs);
      }
    }
  }

  lemma HomeThere(m: RMap, r: Reg)
    requires r.Virt? ==> Resident(m, r.v)
    ensures RenameReg(m, r).Some?
  {
  }

  lemma {:induction false} RegsRename(m: RMap, rs: seq<Reg>)
    requires forall r :: r in rs ==> RenameReg(m, r).Some?
    ensures RenameRegs(m, rs).Some?
  {
    hide RenameReg;
    if rs != [] { RegsRename(m, rs[1..]); }
  }

  // ---------------------------------------------------------------- PUSH and POP

  const TOP_OF_STACK: Arg := AMem([Virt(SP)], 0, None, 64)

  function MoveSp(d: int): GOp {
    Do(LEA, [AReg(Virt(SP), 64), AMem([Virt(SP)], Wrap(d), None, 64)])
  }

  function StoreTop(arg: Arg): GOp {
    Do(MOV, [TOP_OF_STACK.(sz := if arg.AReg? then arg.size else 32), arg])
  }

  /** The micro-operations of `process_push`; an immediate is stored as 32 bits. */
  function PushOps(arg: Arg, offset: Word): seq<GOp> {
    var ip := SetIp(offset);
    match arg
    case AReg(_, n) => [ip, MoveSp(-(n / 8)), ip, StoreTop(arg)]
    case AImm(_) => [ip, MoveSp(-8), ip, StoreTop(arg)]
    case AMem(_, _, _, n) =>
      [ip, MoveSp(-(n / 8)), SetIp(0), ip, Do(MOV, [AReg(Virt(T1), 64), arg]), ip, StoreTop(AReg(Virt(T1), 64))]
  }

  /** The micro-operations of `process_pop`. */
  function PopOps(arg: Arg, offset: Word): seq<GOp> {
    var ip := SetIp(offset);
    match arg
    case AMem(_, _, _, n) =>
      [SetIp(0), ip, Do(MOV, [AReg(Virt(T1), 64), TOP_OF_STACK]), ip, Do(MOV, [arg, AReg(Virt(T1), 64)]),
       ip, MoveSp(n / 8)]
    case AReg(_, n) => [ip, Do(MOV, [arg, TOP_OF_STACK]), ip, MoveSp(n / 8)]
    case AImm(_) => [ip, Do(MOV, [arg, TOP_OF_STACK]), ip, MoveSp(8)]
  }

  /** One more ordinary instruction at the end of a template. */
  method Then(rm: RegMap, ghost sem: Sem, ghost w0: View, code: seq<HInstr>, ghost ops: seq<GOp>, i: GOp, offset: Word,
              ghost k: set<VReg>) returns (r: Option<seq<HInstr>>)
    requires i.Do? && GuestArgs(i.args) && Readable(rm.live, i.op, i.args)
    requires Between(rm.m) && Kept(rm.At()) && Implements(sem, w0, code, rm.At(), ops)
    modifies rm
    ensures rm.live == LiveAfter(old(rm.live), i.op, i.args) || r.None?
    ensures r.Some? ==> Between(rm.m) && Kept(rm.At())
    ensures r.Some? ==> Implements(sem, w0, r.value, rm.At(), ops + [SetIp(offset), i])
    ensures r.Some? && old(Quiet(rm.m)) && QuietRegs(ConflictRegs(i.args)) ==> Quiet(rm.m)
    ensures old(Ample(rm.m, k)) && ConflictRegs(i.args) <= k ==> r.Some? && Ample(rm.m, k)
    ensures r.Some? ==> TempsIn(rm.m) <= old(TempsIn(rm.m)) + ConflictRegs(i.args)
  {
    hide Implements, ConflictRegs, Narrow, TempsIn, Between, Kept, GuestArgs, Readable, LiveAfter;
    ghost var w1 := rm.At();
    if Ample(rm.m, k) && ConflictRegs(i.args) <= k { AmpleNarrow(rm.m, k, ConflictRegs(i.args)); }
    var c := ProcessNormal(rm, sem, i.op, i.args, offset, None);
    if c.None? { return None; }
    Compose(sem, w0, code, w1, ops, c.value, rm.At(), [SetIp(offset), i]);
    return Some(code + c.value);
  }

  /** Make a temporary resident in the middle of a template. */
  method ThenTemp(rm: RegMap, ghost sem: Sem, ghost w0: View, code: seq<HInstr>, ghost ops: seq<GOp>, t: VReg,
                  ghost k: set<VReg>) returns (r: Option<seq<HInstr>>)
    requires Between(rm.m) && Kept(rm.At()) && Implements(sem, w0, code, rm.At(), ops) && Temp(t)
    modifies rm`m
    ensures r.Some? ==> Between(rm.m) && Kept(rm.At())
    ensures r.Some? ==> Implements(sem, w0, r.value, rm.At(), ops + [SetIp(0)])
    ensures r.Some? && old(Quiet(rm.m)) ==> Quiet(rm.m)
    ensures r.Some? && (old(Ample(rm.m, k)) && t in k ==> Ample(rm.m, k))
  {
    hide Implements, Kept, Quiet, Room, Between, Resident, Holds, Anchored, QuietRegs, TempsIn, Outnumbered;
    ghost var w1 := rm.At();
    RoomForTemp(rm.m, t);
    TempQuiet(t);
    var c := rm.Resolve(sem, {t}, 0);
    if c.None? { return None; }
    BetweenAgain(rm.m);
    TempsStay(w1.m, rm.m, {t});
    Compose(sem, w0, code, w1, ops, c.value, rm.At(), [SetIp(0)]);
    return Some(code + c.value);
  }

  lemma TempQuiet(t: VReg)
    requires Temp(t)
    ensures QuietRegs({t}) && IP !in {t}
  {
  }

  lemma BetweenAgain(m: RMap)
    requires Anchored(m) && Holds(m, P13, SP) && Holds(m, P12, BP) && !Resident(m, IP)
    ensures Between(m)
  {
  }

  lemma MoveSpOk(live: set<VReg>, d: int)
    ensures GuestArgs(MoveSp(d).args) && Readable(live, LEA, MoveSp(d).args) && !FillsTemp(LEA, MoveSp(d).args)
    ensures MoveSp(d).Do? && MoveSp(d).op == LEA && QuietRegs(ConflictRegs(MoveSp(d).args))
    ensures ConflictRegs(MoveSp(d).args) == {SP}
  {
    ConflictTwo(MoveSp(d).args[0], MoveSp(d).args[1]);
  }

  lemma StoreTopOk(live: set<VReg>, arg: Arg)
    requires GuestArg(arg) && Reads(View(map[], live), arg) && !arg.AMem?
    ensures GuestArgs(StoreTop(arg).args) && Readable(live, MOV, StoreTop(arg).args)
    ensures !FillsTemp(MOV, StoreTop(arg).args)
    ensures StoreTop(arg).Do? && StoreTop(arg).op == MOV
    ensures QuietRegs(ConflictRegs([arg])) ==> QuietRegs(ConflictRegs(StoreTop(arg).args))
    ensures ConflictRegs(StoreTop(arg).args) == {SP} + ConflictRegs([arg])
  {
    ConflictTwo(StoreTop(arg).args[0], arg);
  }

  lemma FillTempOk(live: set<VReg>, t: VReg, arg: Arg)
    requires GuestArg(arg) && Reads(View(map[], live), arg) && arg.AMem? && arg.sz == 64 && Temp(t)
    ensures var args := [AReg(Virt(t), 64), arg]; GuestArgs(args) && Readable(live, MOV, args) && FillsTemp(MOV, args)
    ensures QuietRegs(ConflictRegs([arg])) ==> QuietRegs(ConflictRegs([AReg(Virt(t), 64), arg]))
    ensures ConflictRegs([AReg(Virt(t), 64), arg]) == {t} + ConflictRegs([arg])
  {
    ConflictTwo(AReg(Virt(t), 64), arg);
  }

  lemma LoadTopOk(live: set<VReg>, arg: Arg)
    requires GuestArg(arg) && (Reads(View(map[], live), arg) || FillsTemp(MOV, [arg, TOP_OF_STACK]))
    ensures GuestArgs([arg, TOP_OF_STACK]) && Readable(live, MOV, [arg, TOP_OF_STACK])
    ensures QuietRegs(ConflictRegs([arg])) ==> QuietRegs(ConflictRegs([arg, TOP_OF_STACK]))
    ensures ConflictRegs([arg, TOP_OF_STACK]) == {SP} + ConflictRegs([arg])
  {
    ConflictTwo(arg, TOP_OF_STACK);
  }

  lemma StoreTempOk(live0: set<VReg>, live: set<VReg>, t: Arg, arg: Arg)
    requires GuestArg(arg) && GuestArg(t) && arg.AMem? && Reads(View(map[], live0), arg) && Reads(View(map[], live), t)
    requires live0 <= live
    ensures GuestArgs([arg, t]) && Readable(live, MOV, [arg, t])
    ensures QuietRegs(ConflictRegs([arg])) && QuietRegs(ConflictRegs([t])) ==> QuietRegs(ConflictRegs([arg, t]))
    ensures ConflictRegs([arg, t]) == ConflictRegs([arg]) + ConflictRegs([t])
  {
    ConflictTwo(arg, t);
  }

  /** What may be pushed or popped: memory operands are 64 bits wide, the assembler takes no others. */
  predicate StackArg(arg: Arg) { arg.AMem? ==> arg.sz == 64 }

  lemma TempOk(live: set<VReg>, t: VReg)
    requires Temp(t) && t in live
    ensures GuestArg(AReg(Virt(t), 64)) && Reads(View(map[], live), AReg(Virt(t), 64))
    ensures QuietRegs(ConflictRegs([AReg(Virt(t), 64)])) && ConflictRegs([AReg(Virt(t), 64)]) == {t}
  {
  }

  lemma PushSplit(arg: Arg, offset: Word, d: int)
    requires d == if arg.AReg? then -(arg.size / 8) else -8
    requires StackArg(arg)
    ensures PushOps(arg, offset) == [] + [SetIp(offset), MoveSp(d)] +
            (if arg.AMem? then PushMemOps(arg, offset) else [SetIp(offset), StoreTop(arg)])
  {
  }

  lemma PushMemSplit(ops: seq<GOp>, arg: Arg, offset: Word)
    ensures var t1 := AReg(Virt(T1), 64);
      ops + PushMemOps(arg, offset) ==
      ops + [SetIp(0)] + [SetIp(offset), Do(MOV, [t1, arg])] + [SetIp(offset), StoreTop(t1)]
  {
  }

  lemma PopMemSplit(arg: Arg, offset: Word)
    ensures var t1 := AReg(Virt(T1), 64);
      PopMemOps(arg, offset) ==
      [] + [SetIp(0)] + [SetIp(offset), Do(MOV, [t1, TOP_OF_STACK])] + [SetIp(offset), Do(MOV, [arg, t1])]
  {
  }

  /** The registers the PUSH or POP of an operand needs beside each other. */
  function StackNeeds(arg: Arg): set<VReg> {
    {SP} + ConflictRegs([arg]) + if arg.AMem? then {T1} else {}
  }

  /** `process_push`. */
  method ProcessPush(rm: RegMap, ghost sem: Sem, arg: Arg, offset: Word, ghost k: set<VReg>)
    returns (r: Option<seq<HInstr>>)
    requires Between(rm.m) && Kept(rm.At()) && GuestArg(arg) && Reads(View(map[], rm.live), arg) && StackArg(arg)
    modifies rm
    ensures r.Some? ==> rm.live == if arg.AMem? then {} else old(rm.live)
    ensures r.Some? ==> Between(rm.m) && Kept(rm.At())
    ensures r.Some? ==> Implements(sem, old(rm.At()), r.value, rm.At(), PushOps(arg, offset))
    ensures r.Some? && old(Quiet(rm.m)) && QuietRegs(ConflictRegs([arg])) ==> Quiet(rm.m)
    ensures old(Ample(rm.m, k)) && StackNeeds(arg) <= k ==> r.Some? && Ample(rm.m, k)
    ensures r.Some? ==> TempsIn(rm.m) <= if arg.AMem? then {} else old(TempsIn(rm.m)) + ConflictRegs([arg])
  {
    hide Implements, Between, Kept, Readable, GuestArgs, GuestArg, Reads, FillsTemp, Quiet, QuietRegs, ConflictRegs,
      PushOps, PopOps, PushMemOps, PopMemOps, MoveSp, StoreTop, Ample, TempsIn, StackArg;
    ghost var w0 := rm.At();
    Nothing(sem, w0);
    StackIs(arg);
    var d := if arg.AReg? then -(arg.size / 8) else -8;
    MoveSpOk(rm.live, d);
    r := Then(rm, sem, w0, [], [], MoveSp(d), offset, k);
    if r.None? { return; }
    if !arg.AMem? {
      StoreTopOk(rm.live, arg);
      r := Then(rm, sem, w0, r.value, [] + [SetIp(offset), MoveSp(d)], StoreTop(arg), offset, k);
      PushSplit(arg, offset, d);
      NoSpTemp(rm.m);
    } else {
      r := PushMem(rm, sem, w0, r.value, [] + [SetIp(offset), MoveSp(d)], arg, offset, k);
      PushSplit(arg, offset, d);
    }
  }

  function PushMemOps(arg: Arg, offset: Word): seq<GOp> {
    var ip := SetIp(offset);
    [SetIp(0), ip, Do(MOV, [AReg(Virt(T1), 64), arg]), ip, StoreTop(AReg(Virt(T1), 64))]
  }

  /** A memory operand goes to the stack through T1. */
  method PushMem(rm: RegMap, ghost sem: Sem, ghost w0: View, code: seq<HInstr>, ghost ops: seq<GOp>, arg: Arg,
                 offset: Word,
                 ghost k: set<VReg>) returns (r: Option<seq<HInstr>>)
    requires Between(rm.m) && Kept(rm.At()) && GuestArg(arg) && Reads(View(map[], rm.live), arg)
    requires arg.AMem? && arg.sz == 64 && Implements(sem, w0, code, rm.At(), ops)
    modifies rm
    ensures r.Some? ==> rm.live == {} && Between(rm.m) && Kept(rm.At())
    ensures r.Some? ==> Implements(sem, w0, r.value, rm.At(), ops + PushMemOps(arg, offset))
    ensures r.Some? && old(Quiet(rm.m)) && QuietRegs(ConflictRegs([arg])) ==> Quiet(rm.m)
    ensures old(Ample(rm.m, k)) && StackNeeds(arg) <= k ==> r.Some? && Ample(rm.m, k)
    ensures r.Some? ==> TempsIn(rm.m) == {}
  {
    hide Implements, Between, Kept, Readable, GuestArgs, GuestArg, Reads, FillsTemp, Quiet, QuietRegs, ConflictRegs,
      PushOps, PopOps, PushMemOps, PopMemOps, MoveSp, StoreTop, Ample, TempsIn;
    ghost var m0 := rm.m;
    r := ThenTemp(rm, sem, w0, code, ops, T1, k);
    if r.None? { return; }
    FillTempOk(rm.live, T1, arg);
    var t1 := AReg(Virt(T1), 64);
    r := Then(rm, sem, w0, r.value, ops + [SetIp(0)], Do(MOV, [t1, arg]), offset, k);
    if r.None? { return; }
    TempOk(rm.live, T1);
    StoreTopOk(rm.live, t1);
    ghost var ops1 := ops + [SetIp(0)] + [SetIp(offset), Do(MOV, [t1, arg])];
    r := Then(rm, sem, w0, r.value, ops1, StoreTop(t1), offset, k);
    if r.None? { return; }
    r := DropTemps(rm, sem, w0, r.value, ops1 + [SetIp(offset), StoreTop(t1)]);
    PushMemSplit(ops, arg, offset);
    AmpleEmpty(m0, rm.m, k);
  }

  lemma StackIs(arg: Arg)
    requires StackArg(arg)
    ensures arg.AMem? ==> arg.sz == 64
  {
  }

  lemma TempFills()
    ensures GuestArg(AReg(Virt(T1), 64)) && FillsTemp(MOV, [AReg(Virt(T1), 64), TOP_OF_STACK])
    ensures ConflictRegs([AReg(Virt(T1), 64)]) == {T1}
  {
  }

  lemma NoSpTemp(m: RMap)
    ensures SP !in TempsIn(m)
  {
  }

  lemma AmpleEmpty(m0: RMap, m: RMap, k: set<VReg>)
    requires TempsIn(m) == {}
    ensures Ample(m0, k) ==> Ample(m, k)
  {
  }

  /** `process_pop`. */
  method ProcessPop(rm: RegMap, ghost sem: Sem, arg: Arg, offset: Word, ghost k: set<VReg>)
    returns (r: Option<seq<HInstr>>)
    requires Between(rm.m) && Kept(rm.At()) && GuestArg(arg) && StackArg(arg) && !arg.AImm?
    requires Reads(View(map[], rm.live), arg) || FillsTemp(MOV, [arg, TOP_OF_STACK])
    modifies rm
    ensures r.Some? ==> rm.live == if arg.AMem? then {} else LiveAfter(old(rm.live), MOV, [arg, TOP_OF_STACK])
    ensures r.Some? ==> Between(rm.m) && Kept(rm.At())
    ensures r.Some? ==> Implements(sem, old(rm.At()), r.value, rm.At(), PopOps(arg, offset))
    ensures r.Some? && old(Quiet(rm.m)) && QuietRegs(ConflictRegs([arg])) ==> Quiet(rm.m)
    ensures old(Ample(rm.m, k)) && StackNeeds(arg) <= k ==> r.Some? && Ample(rm.m, k)
    ensures r.Some? ==> TempsIn(rm.m) <= if arg.AMem? then {} else old(TempsIn(rm.m)) + ConflictRegs([arg])
  {
    hide Implements, Between, Kept, Readable, GuestArgs, GuestArg, Reads, FillsTemp, Quiet, QuietRegs, ConflictRegs,
      PopMemOps, PopOps, MoveSp, LiveAfter, StackArg, Ample, TempsIn;
    ghost var w0 := rm.At();
    Nothing(sem, w0);
    ghost var ops := if arg.AMem? then PopMemOps(arg, offset) else [SetIp(offset), Do(MOV, [arg, TOP_OF_STACK])];
    PopFacts(arg, offset, rm.live);
    if !arg.AMem? {
      LoadTopOk(rm.live, arg);
      r := Then(rm, sem, w0, [], [], Do(MOV, [arg, TOP_OF_STACK]), offset, k);
      assert [] + [SetIp(offset), Do(MOV, [arg, TOP_OF_STACK])] == ops;
    } else {
      r := PopMem(rm, sem, w0, arg, offset, k);
    }
    if r.None? { return; }
    var d := (if arg.AReg? then arg.size else arg.sz) / 8;
    MoveSpOk(rm.live, d);
    r := Then(rm, sem, w0, r.value, ops, MoveSp(d), offset, k);
    NoSpTemp(rm.m);
  }

  lemma PopFacts(arg: Arg, offset: Word, live: set<VReg>)
    requires GuestArg(arg) && StackArg(arg) && !arg.AImm?
    ensures arg.AMem? ==> !FillsTemp(MOV, [arg, TOP_OF_STACK])
    ensures var ops := if arg.AMem? then PopMemOps(arg, offset) else [SetIp(offset), Do(MOV, [arg, TOP_OF_STACK])];
      ops + [SetIp(offset), MoveSp((if arg.AReg? then arg.size else arg.sz) / 8)] == PopOps(arg, offset)
    ensures forall s, d :: LiveAfter(s, LEA, MoveSp(d).args) == s
  {
  }

  function PopMemOps(arg: Arg, offset: Word): seq<GOp> {
    var ip, t1 := SetIp(offset), AReg(Virt(T1), 64);
    [SetIp(0), ip, Do(MOV, [t1, TOP_OF_STACK]), ip, Do(MOV, [arg, t1])]
  }

  method PopMem(rm: RegMap, ghost sem: Sem, ghost w0: View, arg: Arg, offset: Word, ghost k: set<VReg>)
    returns (r: Option<seq<HInstr>>)
    requires Between(rm.m) && Kept(rm.At()) && GuestArg(arg) && Reads(View(map[], rm.live), arg)
    requires arg.AMem? && Implements(sem, w0, [], rm.At(), [])
    modifies rm
    ensures r.Some? ==> rm.live == {} && Between(rm.m) && Kept(rm.At())
    ensures r.Some? ==> Implements(sem, w0, r.value, rm.At(), PopMemOps(arg, offset))
    ensures r.Some? && old(Quiet(rm.m)) && QuietRegs(ConflictRegs([arg])) ==> Quiet(rm.m)
    ensures old(Ample(rm.m, k)) && StackNeeds(arg) <= k ==> r.Some? && Ample(rm.m, k)
    ensures r.Some? ==> TempsIn(rm.m) == {}
  {
    hide Implements, Between, Kept, Readable, GuestArgs, GuestArg, Reads, FillsTemp, Quiet, QuietRegs, ConflictRegs,
      Ample, TempsIn, PopMemOps;
    ghost var live0, m0 := rm.live, rm.m;
    var t1 := AReg(Virt(T1), 64);
    TempFills();
    r := ThenTemp(rm, sem, w0, [], [], T1, k);
    if r.None? { return; }
    LoadTopOk(rm.live, t1);
    r := Then(rm, sem, w0, r.value, [] + [SetIp(0)], Do(MOV, [t1, TOP_OF_STACK]), offset, k);
    if r.None? { return; }
    TempOk(rm.live, T1);
    StoreTempOk(live0, rm.live, t1, arg);
    ghost var ops := [] + [SetIp(0)] + [SetIp(offset), Do(MOV, [t1, TOP_OF_STACK])];
    r := Then(rm, sem, w0, r.value, ops, Do(MOV, [arg, t1]), offset, k);
    if r.None? { return; }
    r := DropTemps(rm, sem, w0, r.value, ops + [SetIp(offset), Do(MOV, [arg, t1])]);
    PopMemSplit(arg, offset);
    AmpleEmpty(m0, rm.m, k);
  }

  method DropTemps(rm: RegMap, ghost sem: Sem, ghost w0: View, code: seq<HInstr>, ghost ops: seq<GOp>)
    returns (r: Option<seq<HInstr>>)
    requires Between(rm.m) && Kept(rm.At()) && Implements(sem, w0, code, rm.At(), ops)
    modifies rm
    ensures r == Some(code) && rm.live == {} && Between(rm.m) && Kept(rm.At()) && (old(Quiet(rm.m)) ==> Quiet(rm.m))
    ensures TempsIn(rm.m) == {}
    ensures Implements(sem, w0, code, rm.At(), ops)
  {
    hide Implements;
    ghost var w1 := rm.At();
    rm.ReleaseTemps(sem);
    ComposeSilent(sem, w0, code, w1, ops, [], rm.At());
    assert code + [] == code;
    return Some(code);
  }

  // ---------------------------------------------------------------- jumps

  /** Where a CALL or JMP takes its target from. */
  datatype Target = Direct(addr: Word) | ViaReg(r: Reg) | ViaMem(a: Arg)

  /**
   * The code leaves every register home for the successor's `block_init` map and the value of
   * `r` in R14, where the dispatch table expects it.
   */
  ghost predicate Lands(sem: Sem, w0: View, code: seq<HInstr>, ops: seq<GOp>, r: Reg) {
    forall h: Host, g: Core :: Sim(w0, h, g) ==>
      && Sim(View(BlockInit(), {}), HRun(sem, code, h), GRun(sem, ops, g))
      && Look(HRun(sem, code, h).core.x, Phys(P14)) == Get(GRun(sem, ops, g), r)
  }

  predicate JumpReg(r: Reg) { r.Gp? || (r.Virt? && !Segment(r.v) && r.v != IP) }

  /** The register case of `process_jump`: write back, then move the target into R14. */
  method JumpViaReg(rm: RegMap, ghost sem: Sem, r: Reg) returns (c: Option<seq<HInstr>>)
    requires Between(rm.m) && JumpReg(r) && (r.Virt? ==> Defined(rm.At(), r.v))
    ensures c.Some? ==> Lands(sem, rm.At(), c.value, [], r)
    ensures RenameReg(rm.m, r).Some? ==> c.Some?
  {
    var back := rm.ReleaseConflict(sem);
    var dst := RenameReg(rm.m, r);
    if dst.None? { return None; }
    LandsViaReg(sem, rm.At(), back, r);
    return Some(back + MoveTarget(dst.value));
  }

  function MoveTarget(dst: Reg): seq<HInstr> { if dst == Phys(P14) then [] else [Copy(P14, dst)] }

  lemma LandsViaReg(sem: Sem, w: View, back: seq<HInstr>, r: Reg)
    requires Between(w.m) && JumpReg(r) && (r.Virt? ==> Defined(w, r.v)) && RenameReg(w.m, r).Some?
    requires Implements(sem, w, back, View(BlockInit(), {}), [])
    requires forall h: Host :: HRun(sem, back, h).core == h.core
    ensures Lands(sem, w, back + MoveTarget(RenameReg(w.m, r).value), [], r)
  {
    var dst := RenameReg(w.m, r).value;
    var move := MoveTarget(dst);
    forall h: Host, g: Core | Sim(w, h, g)
      ensures Sim(View(BlockInit(), {}), HRun(sem, back + move, h), GRun(sem, [], g))
      ensures Look(HRun(sem, back + move, h).core.x, Phys(P14)) == Get(GRun(sem, [], g), r)
    {
      var h1 := HRun(sem, back, h);
      HRunAppend(sem, back, move, h);
      SameReg(w, h, g, r);
      assert Sim(View(BlockInit(), {}), h1, g);
      MoveIsFree(sem, h1, g, dst);
    }
  }

  lemma MoveIsFree(sem: Sem, h: Host, g: Core, dst: Reg)
    requires Sim(View(BlockInit(), {}), h, g) && !dst.Virt?
    ensures Sim(View(BlockInit(), {}), HRun(sem, MoveTarget(dst), h), g)
    ensures Look(HRun(sem, MoveTarget(dst), h).core.x, Phys(P14)) == Get(h.core, dst)
  {
    if dst != Phys(P14) {
      assert HRun(sem, MoveTarget(dst), h) == HStep(sem, Copy(P14, dst), h);
    }
  }
}
