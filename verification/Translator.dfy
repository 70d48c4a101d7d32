/** The special-instruction dispatch and the per-block emission loop. */
module Translator {
  import opened Words
  import opened Machine
  import opened Simulation
  import opened Conflict
  import opened Templates
  import opened Native
  import opened Masking
  import FlagLiveness

  datatype Label = Loc(addr: Word) | Ij(offset: Word) | CompSyscall | IjFailed | Out

  datatype Cond = Always | IfTaken(name: string) | IfZero
  datatype Item = I(i: HInstr) | J(cond: Cond, to: Label)

  predicate Taken(sem: Sem, cond: Cond, h: Host) {
    match cond
    case Always => true
    case IfTaken(name) => sem.taken(name, h.core.gp, h.core.flags)
    case IfZero => h.core.flags.zf
  }

  /** Run to the first jump that is taken, or off the end. */
  function RunItems(sem: Sem, items: seq<Item>, h: Host): (Host, Option<Label>) {
    if items == [] then (h, None)
    else match items[0]
      case I(i) => RunItems(sem, items[1..], HStep(sem, i, h))
      case J(cond, l) => if Taken(sem, cond, h) then (h, Some(l)) else RunItems(sem, items[1..], h)
  }

  function Lift(code: seq<HInstr>): seq<Item> {
    if code == [] then [] else [I(code[0])] + Lift(code[1..])
  }

  lemma {:induction false} RunLifted(sem: Sem, code: seq<HInstr>, rest: seq<Item>, h: Host)
    ensures RunItems(sem, Lift(code) + rest, h) == RunItems(sem, rest, HRun(sem, code, h))
  {
    hide HStep, Taken;
    if code == [] {
      assert Lift(code) + rest == rest;
    } else {
      var s := Lift(code) + rest;
      assert s[0] == I(code[0]) && s[1..] == Lift(code[1..]) + rest;
      RunLifted(sem, code[1..], rest, HStep(sem, code[0], h));
    }
  }

  /** The labels a piece of code jumps to. */
  function LabelsOf(items: seq<Item>): set<Label> {
    set k | 0 <= k < |items| && items[k].J? :: items[k].to
  }

  lemma {:induction false} LiftedItems(code: seq<HInstr>)
    ensures forall k :: 0 <= k < |Lift(code)| ==> Lift(code)[k].I?
  {
    if code != [] { LiftedItems(code[1..]); }
  }

  lemma LabelsAfter(code: seq<HInstr>, items: seq<Item>)
    ensures LabelsOf(Lift(code) + items) == LabelsOf(items)
  {
    LiftedItems(code);
    var n, s := |Lift(code)|, Lift(code) + items;
    forall l | l in LabelsOf(items) ensures l in LabelsOf(s) {
      var k :| 0 <= k < |items| && items[k].J? && items[k].to == l;
      assert s[n + k] == items[k];
    }
    forall l | l in LabelsOf(s) ensures l in LabelsOf(items) {
      var k :| 0 <= k < |s| && s[k].J? && s[k].to == l;
      assert k >= n && items[k - n] == s[k];
    }
  }

  lemma LabelAfter(code: seq<HInstr>, cond: Cond, l: Label)
    ensures LabelsOf(Lift(code) + [J(cond, l)]) == {l}
  {
    LabelsAfter(code, [J(cond, l)]);
    assert [J(cond, l)][0].to in LabelsOf([J(cond, l)]);
  }

  /** The label the last line of a block refers to. */
  function ControlLabel(i: Instr, next: Word): Label {
    match i
    case Branch(_, a) => Loc(a)
    case Jump(t) => TargetLabel(t, next)
    case Call(t) => TargetLabel(t, next)
    case Ret(_) => Ij(next)
    case _ => CompSyscall
  }

  function TargetLabel(t: Target, next: Word): Label { if t.Direct? then Loc(t.addr) else Ij(next) }

  function BlockLabels(lines: seq<Line>, entry: Word): set<Label>
    requires lines != []
  {
    var i := lines[|lines| - 1].i;
    if Control(i) then {ControlLabel(i, OffsetAt(lines, |lines|, entry))} else {}
  }

  const INIT_VIEW: View := View(BlockInit(), {})

  /** Every register is home, so the next block can start. */
  ghost predicate Ready(h: Host, g: Core) { Sim(INIT_VIEW, h, g) }

  function R14(h: Host): Word { Look(h.core.x, Phys(P14)) }

  /** The host leaves a block the way the guest does. */
  predicate SameExit(out: Option<Label>, end: Word, x: Exit, h: Host) {
    match out
    case None => x == Next(end)
    case Some(Loc(a)) => x == Next(a)
    case Some(Ij(o)) => o == end && x == Indirect(R14(h))
    case Some(CompSyscall) => x == AtSyscall(R14(h))
    case _ => false
  }

  /** Only an ordinary instruction or a branch not taken runs into the next block. */
  predicate MayFall(i: Instr) { !Control(i) || i.Branch? }

  ghost predicate SameBlock(last: Instr, end: Word, hr: (Host, Option<Label>), gr: (Core, Exit)) {
    Ready(hr.0, gr.0) && SameExit(hr.1, end, gr.1, hr.0) && (hr.1.None? ==> MayFall(last))
  }

  // ---------------------------------------------------------------- ordinary lines

  ghost predicate LineDoes(sem: Sem, w0: View, code: seq<HInstr>, w1: View, mask: Option<Reg>, i: Instr, next: Word) {
    forall h: Host, g: Core :: Sim(w0, h, g) && Tame(mask, g) ==>
      Sim(w1, HRun(sem, code, h), Straight(sem, i, next, Clobbered(sem, mask, g)))
  }

  lemma LineFromOps(sem: Sem, w0: View, code: seq<HInstr>, w1: View, mask: Option<Reg>, i: Instr, next: Word)
    requires !Control(i) && Supported(i) && w1.live == {} && !Resident(w1.m, IP)
    requires ImplementsWhen(sem, w0, code, w1, mask, LineOps(i, next))
    ensures LineDoes(sem, w0, code, w1, mask, i, next)
  {
    forall h: Host, g: Core | Sim(w0, h, g) && Tame(mask, g)
      ensures Sim(w1, HRun(sem, code, h), Straight(sem, i, next, Clobbered(sem, mask, g)))
    {
      hide Straight, LineOps, HRun, GRun, Agree, Resident, Supported, Control, Clobbered, Tame;
      var g' := Clobbered(sem, mask, g);
      LineAgrees(sem, i, next, g');
      assert Sim(w1, HRun(sem, code, h), GRun(sem, LineOps(i, next), g'));
      AgreeSim(w1, HRun(sem, code, h), GRun(sem, LineOps(i, next), g'), Straight(sem, i, next, g'));
    }
  }

  lemma OperandReads(arg: Arg)
    requires Operand(arg)
    ensures GuestArg(arg) && Reads(View(map[], {}), arg)
  {
  }

  function TargetNeeds(t: Target): set<VReg> { if t.ViaMem? then {T2} + ConflictRegs([t.a]) else {} }

  /** The virtual registers a line needs beside each other, the template temporary included. */
  function Needs(i: Instr): set<VReg> {
    match i
    case Normal(_, args) => ConflictRegs(args)
    case Push(arg) => StackNeeds(arg)
    case Pop(arg) => StackNeeds(arg)
    case Call(t) => {SP, T2} + TargetNeeds(t)
    case Ret(_) => {SP, T2}
    case Jump(t) => TargetNeeds(t)
    case _ => {}
  }

  /** At most two of them beside SP and BP, and no indirect transfer through R12 to R15. */
  predicate Easy(i: Instr) {
    && |Needs(i) + {SP, BP}| <= 4
    && ((i.Call? || i.Jump?) && i.t.ViaReg? && i.t.r.Virt? ==> i.t.r.v == SP || i.t.r.v == BP)
  }

  lemma EasyAmple(m: RMap, i: Instr)
    requires Easy(i) && TempsIn(m) == {}
    ensures Ample(m, Needs(i) + {SP, BP})
  {
    hide TempsIn, Needs;
  }

  /** The dispatch for a line that does not transfer control. */
  method TranslateLine(rm: RegMap, ghost sem: Sem, i: Instr, next: Word, mask: Option<Reg>)
    returns (r: Option<seq<HInstr>>)
    requires Between(rm.m) && rm.live == {} && !Control(i) && Supported(i) && MaskFits(i, mask)
    modifies rm
    ensures r.Some? ==> Between(rm.m) && rm.live == {}
    ensures r.Some? ==> LineDoes(sem, old(rm.At()), r.value, rm.At(), mask, i, next)
    ensures r.Some? && old(Quiet(rm.m)) && QuietRegs(InstrRegs(i)) ==> Quiet(rm.m)
    ensures old(TempsIn(rm.m)) == {} ==> (Easy(i) ==> r.Some?) && (r.Some? ==> TempsIn(rm.m) == {})
  {
    r := LineCode(rm, sem, i, next, mask);
    if r.Some? {
      LineFromOps(sem, old(rm.At()), r.value, rm.At(), mask, i, next);
    }
  }

  method LineCode(rm: RegMap, ghost sem: Sem, i: Instr, next: Word, mask: Option<Reg>) returns (r: Option<seq<HInstr>>)
    requires Between(rm.m) && rm.live == {} && !Control(i) && Supported(i) && MaskFits(i, mask)
    modifies rm
    ensures r.Some? ==> Between(rm.m) && rm.live == {}
    ensures r.Some? ==> ImplementsWhen(sem, old(rm.At()), r.value, rm.At(), mask, LineOps(i, next))
    ensures r.Some? && old(Quiet(rm.m)) && QuietRegs(InstrRegs(i)) ==> Quiet(rm.m)
    ensures old(TempsIn(rm.m)) == {} ==> (Easy(i) ==> r.Some?) && (r.Some? ==> TempsIn(rm.m) == {})
  {
    hide Implements, ImplementsWhen, Maskable, Named, Between, Quiet, QuietRegs, ConflictRegs, TempsIn, Easy, Narrow,
      Ample, Needs;
    ghost var w0 := rm.At();
    LineNeeds(rm.m, i);
    match i {
    case Nop =>
      Nothing(sem, rm.At());
      r := Some([]);
    case Normal(op, args) =>
      NormalOk(op, args);
      r := ProcessNormal(rm, sem, op, args, next, mask);
    case Push(arg) =>
      OperandReads(arg);
      r := ProcessPush(rm, sem, arg, next, Needs(i) + {SP, BP});
    case Pop(arg) =>
      PopOk(arg);
      r := ProcessPop(rm, sem, arg, next, Needs(i) + {SP, BP});
    case Leave =>
      r := LeaveCode(rm, sem, next);
    }
    if r.Some? && !i.Normal? { WhenNone(sem, w0, r.value, rm.At(), LineOps(i, next)); }
  }

  /** What an easy line asks of the allocator is there, and its operands hold no temporary. */
  lemma LineNeeds(m: RMap, i: Instr)
    requires !Control(i) && Supported(i)
    ensures TempsIn(m) == {} && Easy(i) ==> Ample(m, Needs(i) + {SP, BP})
    ensures i.Normal? ==> T1 !in ConflictRegs(i.args) && T2 !in ConflictRegs(i.args)
    ensures i.Normal? && TempsIn(m) == {} && Easy(i) ==> Narrow(m, ConflictRegs(i.args))
    ensures i.Push? || i.Pop? ==> StackNeeds(i.arg) <= Needs(i) + {SP, BP}
    ensures (i.Push? || i.Pop?) && !i.arg.AMem? ==> T1 !in ConflictRegs([i.arg]) && T2 !in ConflictRegs([i.arg])
    ensures forall m': RMap :: TempsIn(m') <= {T1, T2}
  {
    if TempsIn(m) == {} && Easy(i) {
      EasyAmple(m, i);
      if i.Normal? { AmpleNarrow(m, Needs(i) + {SP, BP}, ConflictRegs(i.args)); }
    }
    if i.Normal? { NoTempsNamed(i.args); }
    if i.Push? || i.Pop? { NoTempsNamed([i.arg]); }
  }

  lemma {:induction false} NoTempsNamed(args: seq<Arg>)
    requires forall j :: 0 <= j < |args| ==> Operand(args[j])
    ensures T1 !in ConflictRegs(args) && T2 !in ConflictRegs(args)
  {
    if args != [] { NoTempsNamed(args[1..]); }
  }

  lemma NormalOk(op: Op, args: seq<Arg>)
    requires Supported(Normal(op, args))
    ensures GuestArgs(args) && Readable({}, op, args) && !FillsTemp(op, args)
  {
    forall j | 0 <= j < |args| ensures Reads(View(map[], {}), args[j]) { OperandReads(args[j]); }
    assert |args| > 0 && args[0].AReg? ==> args[0].r in RegsOf(args[0]);
  }

  lemma PopOk(arg: Arg)
    requires Poppable(arg)
    ensures GuestArg(arg) && Reads(View(map[], {}), arg) && !FillsTemp(MOV, [arg, TOP_OF_STACK])
  {
    OperandReads(arg);
  }

  method LeaveCode(rm: RegMap, ghost sem: Sem, next: Word) returns (r: Option<seq<HInstr>>)
    requires Between(rm.m) && rm.live == {}
    modifies rm
    ensures r.Some? ==> Between(rm.m) && rm.live == {}
    ensures r.Some? ==> Implements(sem, old(rm.At()), r.value, rm.At(), LineOps(Leave, next))
    ensures r.Some? && old(Quiet(rm.m)) ==> Quiet(rm.m)
    ensures old(TempsIn(rm.m)) == {} ==> r.Some? && TempsIn(rm.m) == {}
  {
    hide Implements, Between, Quiet, ConflictRegs, QuietRegs, FillsTemp, PopOps, LineOps, LiveAfter, Reads, Readable,
      GuestArgs, GuestArg, StackArg, TempsIn, Narrow, Ample;
    var sp, bp := AReg(Virt(SP), 64), AReg(Virt(BP), 64);
    ghost var w0 := rm.At();
    LeaveOk(next);
    LeaveNeeds(rm.m);
    r := ProcessNormal(rm, sem, MOV, [sp, bp], next, None);
    if r.None? { return; }
    ghost var w1 := rm.At();
    LeaveNeeds(rm.m);
    var p := ProcessPop(rm, sem, bp, next, {SP, BP});
    if p.None? { return None; }
    LeaveNeeds(rm.m);
    Compose(sem, w0, r.value, w1, [SetIp(next), Do(MOV, [sp, bp])], p.value, rm.At(), PopOps(bp, next));
    r := Some(r.value + p.value);
  }

  lemma LeaveNeeds(m: RMap)
    ensures var sp, bp := AReg(Virt(SP), 64), AReg(Virt(BP), 64);
      ConflictRegs([sp, bp]) == {SP, BP} && ConflictRegs([bp]) == {BP} && StackNeeds(bp) == {SP, BP}
    ensures TempsIn(m) == {} ==> Narrow(m, {SP, BP}) && Ample(m, {SP, BP})
    ensures SP !in TempsIn(m) && BP !in TempsIn(m)
  {
    hide TempsIn, ConflictRegs, Narrow;
    OneConflict(SP);
    OneConflict(BP);
    ConflictTwo(AReg(Virt(SP), 64), AReg(Virt(BP), 64));
    if TempsIn(m) == {} { AmpleNarrow(m, {SP, BP}, {SP, BP}); }
    TempsAre(m);
  }

  lemma OneConflict(v: VReg)
    ensures ConflictRegs([AReg(Virt(v), 64)]) == {v}
  {
  }

  lemma TempsAre(m: RMap)
    ensures TempsIn(m) <= {T1, T2}
  {
  }

  lemma LeaveOk(next: Word)
    ensures var sp, bp := AReg(Virt(SP), 64), AReg(Virt(BP), 64);
      && GuestArgs([sp, bp]) && Readable({}, MOV, [sp, bp]) && !FillsTemp(MOV, [sp, bp])
      && GuestArg(bp) && StackArg(bp) && Reads(View(map[], {}), bp) && !FillsTemp(MOV, [bp, TOP_OF_STACK])
      && QuietRegs(ConflictRegs([sp, bp])) && QuietRegs(ConflictRegs([bp]))
      && LiveAfter({}, MOV, [sp, bp]) == {} == LiveAfter({}, MOV, [bp, TOP_OF_STACK])
      && LineOps(Leave, next) == [SetIp(next), Do(MOV, [sp, bp])] + PopOps(bp, next)
  {
    ConflictTwo(AReg(Virt(SP), 64), AReg(Virt(BP), 64));
  }

  // ---------------------------------------------------------------- control transfers

  /** The items run `ops`, bring every register home and go where `t` says. */
  ghost predicate JumpDoes(sem: Sem, w0: View, items: seq<Item>, ops: seq<GOp>, t: Target, next: Word) {
    forall h: Host, g: Core :: Sim(w0, h, g) ==> Jumped(RunItems(sem, items, h), GRun(sem, ops, g), t, next)
  }

  ghost predicate Jumped(hr: (Host, Option<Label>), g: Core, t: Target, next: Word) {
    && Ready(hr.0, g)
    && (t.Direct? ==> hr.1 == Some(Loc(t.addr)))
    && (!t.Direct? ==> hr.1 == Some(Ij(next)) && R14(hr.0) == Get(g, JumpSource(t)))
  }

  lemma RunJump(sem: Sem, code: seq<HInstr>, cond: Cond, l: Label, h: Host)
    ensures var h' := HRun(sem, code, h);
      RunItems(sem, Lift(code) + [J(cond, l)], h) == if Taken(sem, cond, h') then (h', Some(l)) else (h', None)
  {
    RunLifted(sem, code, [J(cond, l)], h);
  }

  lemma DirectJump(sem: Sem, w0: View, code: seq<HInstr>, ops: seq<GOp>, t: Target, next: Word)
    requires t.Direct? && Implements(sem, w0, code, INIT_VIEW, ops)
    ensures JumpDoes(sem, w0, Lift(code) + [J(Always, Loc(t.addr))], ops, t, next)
  {
    forall h: Host, g: Core | Sim(w0, h, g)
      ensures Jumped(RunItems(sem, Lift(code) + [J(Always, Loc(t.addr))], h), GRun(sem, ops, g), t, next)
    {
      RunJump(sem, code, Always, Loc(t.addr), h);
    }
  }

  lemma IndirectJump(sem: Sem, w0: View, a: seq<HInstr>, w1: View, ops: seq<GOp>, b: seq<HInstr>, t: Target, next: Word)
    requires !t.Direct? && Implements(sem, w0, a, w1, ops) && Lands(sem, w1, b, [], JumpSource(t))
    ensures JumpDoes(sem, w0, Lift(a + b) + [J(Always, Ij(next))], ops, t, next)
  {
    forall h: Host, g: Core | Sim(w0, h, g)
      ensures Jumped(RunItems(sem, Lift(a + b) + [J(Always, Ij(next))], h), GRun(sem, ops, g), t, next)
    {
      RunJump(sem, a + b, Always, Ij(next), h);
      HRunAppend(sem, a, b, h);
      var h1, g1 := HRun(sem, a, h), GRun(sem, ops, g);
      assert Sim(w1, h1, g1);
      assert GRun(sem, [], g1) == g1;
    }
  }

  /** `process_jump`, after a prefix that already implements `ops`. */
  method ProcessJump(rm: RegMap, ghost sem: Sem, ghost w0: View, code: seq<HInstr>, ghost ops: seq<GOp>, t: Target,
                     next: Word,
                     ghost k: set<VReg>) returns (r: Option<seq<Item>>)
    requires Between(rm.m) && Kept(rm.At()) && Jumpable(t) && Implements(sem, w0, code, rm.At(), ops)
    modifies rm
    ensures r.Some? ==> JumpDoes(sem, w0, r.value, ops + JumpOps(t, next), t, next)
    ensures r.Some? ==> LabelsOf(r.value) == {TargetLabel(t, next)}
    ensures old(Ample(rm.m, k)) && TargetNeeds(t) <= k && EasyTarget(t) ==> r.Some?
  {
    hide Implements, JumpDoes, Lands, Between, Kept, LabelsOf, Ample, ConflictRegs;
    match t
    case Direct(a) =>
      var back := rm.ReleaseConflict(sem);
      ComposeSilent(sem, w0, code, rm.At(), ops, back, INIT_VIEW);
      DirectJump(sem, w0, code + back, ops, t, next);
      assert ops + [] == ops;
      LabelAfter(code + back, Always, Loc(a));
      r := Some(Lift(code + back) + [J(Always, Loc(a))]);
    case ViaReg(_) =>
      assert ops + [] == ops;
      r := FinishIndirect(rm, sem, w0, code, ops, t, next);
    case ViaMem(a) =>
      var c := ThenTemp(rm, sem, w0, code, ops, T2, k);
      if c.None? { return None; }
      FillOk(rm.live, a);
      c := Then(rm, sem, w0, c.value, ops + [SetIp(0)], Do(MOV, [TEMP2, a]), next, k);
      if c.None? { return None; }
      assert ops + [SetIp(0)] + [SetIp(next), Do(MOV, [TEMP2, a])] == ops + JumpOps(t, next);
      r := FinishIndirect(rm, sem, w0, c.value, ops + JumpOps(t, next), t, next);
  }

  lemma SourceThere(w: View, t: Target)
    requires Between(w.m) && Kept(w) && EasyTarget(t) && Jumpable(t) && !t.Direct? && (t.ViaMem? ==> T2 in w.live)
    ensures RenameReg(w.m, JumpSource(t)).Some?
  {
    HomeThere(w.m, JumpSource(t));
  }

  lemma FillOk(live: set<VReg>, a: Arg)
    requires Operand(a) && a.AMem? && a.sz == 64
    ensures GuestArgs([TEMP2, a]) && Readable(live, MOV, [TEMP2, a]) && FillsTemp(MOV, [TEMP2, a])
    ensures ConflictRegs([TEMP2, a]) == {T2} + ConflictRegs([a])
  {
    assert Reads(View(map[], live), a);
    FillTempOk(live, T2, a);
  }

  /** Registers an indirect transfer finds in place: all but R12 to R15. */
  predicate EasyTarget(t: Target) { t.ViaReg? && t.r.Virt? ==> t.r.v == SP || t.r.v == BP }

  method FinishIndirect(rm: RegMap, ghost sem: Sem, ghost w0: View, code: seq<HInstr>, ghost ops: seq<GOp>, t: Target,
                        next: Word)
    returns (r: Option<seq<Item>>)
    requires Between(rm.m) && Jumpable(t) && !t.Direct? && Implements(sem, w0, code, rm.At(), ops)
    requires t.ViaMem? ==> T2 in rm.live
    ensures r.Some? ==> JumpDoes(sem, w0, r.value, ops, t, next)
    ensures r.Some? ==> LabelsOf(r.value) == {TargetLabel(t, next)}
    ensures EasyTarget(t) && Kept(rm.At()) ==> r.Some?
  {
    hide Implements, JumpDoes, Lands, Between, LabelsOf;
    if EasyTarget(t) && Kept(rm.At()) { SourceThere(rm.At(), t); }
    var j := JumpViaReg(rm, sem, JumpSource(t));
    if j.None? { return None; }
    IndirectJump(sem, w0, code, rm.At(), ops, j.value, t, next);
    LabelAfter(code + j.value, Always, Ij(next));
    r := Some(Lift(code + j.value) + [J(Always, Ij(next))]);
  }

  ghost predicate ControlDoes(sem: Sem, w0: View, items: seq<Item>, i: Instr, here: Word, next: Word) {
    forall h: Host, g: Core :: Sim(w0, h, g) && !CallHazard(i, next, g) ==>
      SameBlock(i, next, RunItems(sem, items, h), LeaveBy(sem, i, here, next, g))
  }

  method TranslateControl(rm: RegMap, ghost sem: Sem, i: Instr, here: Word, next: Word) returns (r: Option<seq<Item>>)
    requires Between(rm.m) && rm.live == {} && Control(i) && Supported(i)
    requires i.Syscall? ==> Quiet(rm.m) && next == Wrap(here + 2)
    modifies rm
    ensures r.Some? ==> ControlDoes(sem, old(rm.At()), r.value, i, here, next)
    ensures r.Some? ==> LabelsOf(r.value) == {ControlLabel(i, next)}
    ensures old(TempsIn(rm.m)) == {} && Easy(i) ==> r.Some?
  {
    ghost var w0 := rm.At();
    hide Implements, JumpDoes, ControlDoes, Between, LabelsOf, TempsIn, Ample;
    ghost var k := Needs(i) + {SP, BP};
    if TempsIn(rm.m) == {} && Easy(i) { EasyAmple(rm.m, i); }
    match i
    case Branch(cond, a) =>
      var back := rm.ReleaseConflict(sem);
      BranchDoes(sem, w0, back, cond, a, here, next);
      LabelAfter(back, IfTaken(cond), Loc(a));
      r := Some(Lift(back) + [J(IfTaken(cond), Loc(a))]);
    case Jump(t) =>
      Nothing(sem, w0);
      r := ProcessJump(rm, sem, w0, [], [], t, next, k);
      if r.Some? { JumpControl(sem, w0, r.value, t, here, next); }
    case Call(t) =>
      r := TranslateCall(rm, sem, t, next, k);
      if r.Some? { CallControl(sem, w0, r.value, t, here, next); }
    case Ret(n) =>
      r := TranslateRet(rm, sem, next, k);
      if r.Some? { RetControl(sem, w0, r.value, n, here, next); }
    case Syscall =>
      SyscallControl(sem, w0, here, next);
      LabelAfter(SyscallCode(next), Always, CompSyscall);
      r := Some(SyscallItems(next));
  }

  /** CALL: the return address goes through T2 to the stack, then the jump. */
  method TranslateCall(rm: RegMap, ghost sem: Sem, t: Target, next: Word, ghost k: set<VReg>)
    returns (r: Option<seq<Item>>)
    requires Between(rm.m) && rm.live == {} && Jumpable(t)
    modifies rm
    ensures r.Some? ==> JumpDoes(sem, old(rm.At()), r.value, CallOps(next) + JumpOps(t, next), t, next)
    ensures r.Some? ==> LabelsOf(r.value) == {TargetLabel(t, next)}
    ensures old(Ample(rm.m, k)) && {SP, T2} + TargetNeeds(t) <= k && EasyTarget(t) ==> r.Some?
  {
    hide Implements, JumpDoes, Between, Readable, GuestArgs, FillsTemp, Reads, GuestArg, LabelsOf, PushOps, CallOps,
      JumpOps, StackArg, Jumpable, Ample, TargetNeeds, EasyTarget, ConflictRegs;
    ghost var w0 := rm.At();
    Nothing(sem, w0);
    CallOk(next);
    var c := ThenTemp(rm, sem, w0, [], [], T2, k);
    if c.None? { return None; }
    c := Then(rm, sem, w0, c.value, [] + [SetIp(0)], Do(MOVABS, [TEMP2, AImm(next)]), next, k);
    if c.None? { return None; }
    ghost var ops := [] + [SetIp(0)] + [SetIp(next), Do(MOVABS, [TEMP2, AImm(next)])];
    ghost var w1 := rm.At();
    TempOk(rm.live, T2);
    var p := ProcessPush(rm, sem, TEMP2, next, k);
    if p.None? { return None; }
    Compose(sem, w0, c.value, w1, ops, p.value, rm.At(), PushOps(TEMP2, next));
    r := ProcessJump(rm, sem, w0, c.value + p.value, CallOps(next), t, next, k);
  }

  lemma CallOk(next: Word)
    ensures GuestArgs([TEMP2, AImm(next)]) && Readable({}, MOVABS, [TEMP2, AImm(next)])
    ensures FillsTemp(MOVABS, [TEMP2, AImm(next)]) && StackArg(TEMP2)
    ensures ConflictRegs([TEMP2, AImm(next)]) == {T2} && StackNeeds(TEMP2) == {SP, T2}
    ensures [] + [SetIp(0)] + [SetIp(next), Do(MOVABS, [TEMP2, AImm(next)])] + PushOps(TEMP2, next) == CallOps(next)
  {
    hide PushOps;
    ConflictTwo(TEMP2, AImm(next));
    assert Reads(View(map[], {}), AImm(next));
  }

  /** RET: the return address goes through T2 to the dispatch table of this site. */
  method TranslateRet(rm: RegMap, ghost sem: Sem, next: Word, ghost k: set<VReg>) returns (r: Option<seq<Item>>)
    requires Between(rm.m) && rm.live == {}
    modifies rm
    ensures r.Some? ==> JumpDoes(sem, old(rm.At()), r.value, RetOps(next), ViaReg(Virt(T2)), next)
    ensures r.Some? ==> LabelsOf(r.value) == {Ij(next)}
    ensures old(Ample(rm.m, k)) && {SP, T2} <= k ==> r.Some?
  {
    hide Implements, JumpDoes, Between, Lands, FillsTemp, Reads, GuestArg, LabelsOf, PopOps, RetOps, StackArg, Ample,
      ConflictRegs;
    ghost var w0 := rm.At();
    Nothing(sem, w0);
    RetOk(next);
    var c := ThenTemp(rm, sem, w0, [], [], T2, k);
    if c.None? { return None; }
    ghost var w1 := rm.At();
    var p := ProcessPop(rm, sem, TEMP2, next, k);
    if p.None? { return None; }
    Compose(sem, w0, c.value, w1, [] + [SetIp(0)], p.value, rm.At(), PopOps(TEMP2, next));
    T2There(rm.At());
    var j := JumpViaReg(rm, sem, Virt(T2));
    if j.None? { return None; }
    IndirectJump(sem, w0, c.value + p.value, rm.At(), RetOps(next), j.value, ViaReg(Virt(T2)), next);
    LabelAfter(c.value + p.value + j.value, Always, Ij(next));
    r := Some(Lift(c.value + p.value + j.value) + [J(Always, Ij(next))]);
  }

  lemma T2There(w: View)
    ensures Kept(w) && T2 in w.live ==> RenameReg(w.m, Virt(T2)).Some?
  {
    if Kept(w) && T2 in w.live { HomeThere(w.m, Virt(T2)); }
  }

  lemma RetOk(next: Word)
    ensures GuestArg(TEMP2) && StackArg(TEMP2) && FillsTemp(MOV, [TEMP2, TOP_OF_STACK]) && StackNeeds(TEMP2) == {SP, T2}
    ensures [] + [SetIp(0)] + PopOps(TEMP2, next) == RetOps(next)
  {
    hide PopOps;
  }

  // ---------------------------------------------------------------- templates against the processor

  lemma ReadyAgree(h: Host, a: Core, b: Core)
    requires Ready(h, a) && Agree(a, b)
    ensures Ready(h, b)
  {
    AgreeSim(INIT_VIEW, h, a, b);
  }

  lemma BranchDoes(sem: Sem, w0: View, back: seq<HInstr>, cond: string, a: Word, here: Word, next: Word)
    requires Implements(sem, w0, back, INIT_VIEW, []) && forall h: Host :: HRun(sem, back, h).core == h.core
    ensures ControlDoes(sem, w0, Lift(back) + [J(IfTaken(cond), Loc(a))], Branch(cond, a), here, next)
  {
    var i := Branch(cond, a);
    forall h: Host, g: Core | Sim(w0, h, g)
      ensures SameBlock(i, next, RunItems(sem, Lift(back) + [J(IfTaken(cond), Loc(a))], h),
                        LeaveBy(sem, i, here, next, g))
    {
      RunJump(sem, back, IfTaken(cond), Loc(a), h);
      assert Sim(INIT_VIEW, HRun(sem, back, h), GRun(sem, [], g));
      assert GRun(sem, [], g) == g;
    }
  }

  lemma JumpControl(sem: Sem, w0: View, items: seq<Item>, t: Target, here: Word, next: Word)
    requires Jumpable(t) && JumpDoes(sem, w0, items, [] + JumpOps(t, next), t, next)
    ensures ControlDoes(sem, w0, items, Jump(t), here, next)
  {
    assert [] + JumpOps(t, next) == JumpOps(t, next);
    forall h: Host, g: Core | Sim(w0, h, g)
      ensures SameBlock(Jump(t), next, RunItems(sem, items, h), LeaveBy(sem, Jump(t), here, next, g))
    {
      hide JumpOps, GRun;
      JumpRun(sem, t, next, g);
      ReadyAgree(RunItems(sem, items, h).0, GRun(sem, JumpOps(t, next), g), g);
    }
  }

  lemma CallControl(sem: Sem, w0: View, items: seq<Item>, t: Target, here: Word, next: Word)
    requires Supported(Call(t)) && JumpDoes(sem, w0, items, CallOps(next) + JumpOps(t, next), t, next)
    ensures ControlDoes(sem, w0, items, Call(t), here, next)
  {
    hide Sim, SameBlock, RunItems, LeaveBy, Jumped, CallOps, JumpOps, GRun, CallHazard, Supported;
    forall h: Host, g: Core | Sim(w0, h, g) && !CallHazard(Call(t), next, g)
      ensures SameBlock(Call(t), next, RunItems(sem, items, h), LeaveBy(sem, Call(t), here, next, g))
    {
      CallAt(sem, RunItems(sem, items, h), t, g, here, next);
    }
  }

  lemma CallAt(sem: Sem, hr: (Host, Option<Label>), t: Target, g: Core, here: Word, next: Word)
    requires Jumped(hr, GRun(sem, CallOps(next) + JumpOps(t, next), g), t, next)
    requires Supported(Call(t)) && !CallHazard(Call(t), next, g)
    ensures SameBlock(Call(t), next, hr, LeaveBy(sem, Call(t), here, next, g))
  {
    hide CallOps, JumpOps, GRun, PushWord, Ready, TargetOf, CallHazard, Supported, Get;
    CallAgrees(sem, t, next, g);
    ReadyAgree(hr.0, GRun(sem, CallOps(next) + JumpOps(t, next), g), PushWord(g, 8, next));
    if t.Direct? { DirectTarget(t, next, g); }
  }

  lemma DirectTarget(t: Target, next: Word, g: Core)
    requires t.Direct?
    ensures TargetOf(t, next, g) == t.addr
  {
  }

  lemma RetControl(sem: Sem, w0: View, items: seq<Item>, k: nat, here: Word, next: Word)
    requires k == 0 && JumpDoes(sem, w0, items, RetOps(next), ViaReg(Virt(T2)), next)
    ensures ControlDoes(sem, w0, items, Ret(k), here, next)
  {
    hide Sim, SameBlock, RunItems, LeaveBy, Jumped, RetOps, GRun;
    forall h: Host, g: Core | Sim(w0, h, g)
      ensures SameBlock(Ret(k), next, RunItems(sem, items, h), LeaveBy(sem, Ret(k), here, next, g))
    {
      RetAt(sem, RunItems(sem, items, h), g, here, next);
    }
  }

  lemma RetAt(sem: Sem, hr: (Host, Option<Label>), g: Core, here: Word, next: Word)
    requires Jumped(hr, GRun(sem, RetOps(next), g), ViaReg(Virt(T2)), next)
    ensures SameBlock(Ret(0), next, hr, LeaveBy(sem, Ret(0), here, next, g))
  {
    hide RetOps, GRun, LoadBytes, Wrap, AddSp, Ready;
    RetRun(sem, next, g);
    ReadyAgree(hr.0, GRun(sem, RetOps(next), g), AddSp(g, 8));
    assert LeaveBy(sem, Ret(0), here, next, g) == (AddSp(g, 8), Indirect(Load64(g.mem, Sp(g))));
  }

  // ---------------------------------------------------------------- SYSCALL

  /** The SYSCALL template emits no write-back. */
  function SyscallCode(next: Word): seq<HInstr> { [LoadAbs(P14, Wrap(next - 2))] }

  function SyscallItems(next: Word): seq<Item> { Lift(SyscallCode(next)) + [J(Always, CompSyscall)] }

  lemma SyscallControl(sem: Sem, w0: View, here: Word, next: Word)
    requires Between(w0.m) && Quiet(w0.m) && next == Wrap(here + 2)
    ensures ControlDoes(sem, w0, SyscallItems(next), Syscall, here, next)
  {
    assert Wrap(next - 2) == here;
    forall h: Host, g: Core | Sim(w0, h, g)
      ensures SameBlock(Syscall, next, RunItems(sem, SyscallItems(next), h), LeaveBy(sem, Syscall, here, next, g))
    {
      RunJump(sem, SyscallCode(next), Always, CompSyscall, h);
      SyscallHome(sem, w0, h, g, next);
    }
  }

  lemma QuietIsHome(w: View, h: Host, g: Core)
    requires Between(w.m) && Quiet(w.m) && Sim(w, h, g)
    ensures Ready(h, g)
  {
    HeldIsResident(w.m);
    assert Homed(w, w.m.Keys, h, g);
    HomedInit(w, h, g);
  }

  lemma SetR14(h: Host, g: Core, x: Word)
    requires Ready(h, g)
    ensures Ready(h.(core := Set(h.core, Phys(P14), x)), g)
  {
  }

  lemma SyscallHome(sem: Sem, w: View, h: Host, g: Core, next: Word)
    requires Between(w.m) && Quiet(w.m) && Sim(w, h, g)
    ensures Ready(HRun(sem, SyscallCode(next), h), g) && R14(HRun(sem, SyscallCode(next), h)) == Wrap(next - 2)
  {
    hide Wrap, Sim, Between, Quiet;
    assert HRun(sem, SyscallCode(next), h) == HStep(sem, LoadAbs(P14, Wrap(next - 2)), h);
    QuietIsHome(w, h, g);
    SetR14(h, g, Wrap(next - 2));
  }

  // ---------------------------------------------------------------- blocks

  ghost predicate BlockDoes(sem: Sem, lines: seq<Line>, entry: Word, items: seq<Item>)
    requires lines != []
  {
    forall h: Host, g: Core :: Ready(h, g) && !MaskedHazard(sem, lines, entry, g) ==>
      SameBlock(lines[|lines| - 1].i, OffsetAt(lines, |lines|, entry), RunItems(sem, items, h),
                MaskedBlock(sem, lines, entry, g))
  }

  /** The first k lines: the state before line k is reached under the current map. */
  ghost predicate BodyDoes(sem: Sem, lines: seq<Line>, k: nat, entry: Word, code: seq<HInstr>, w: View)
    requires k <= |lines|
  {
    forall h: Host, g: Core :: Ready(h, g) && TameBefore(sem, lines, k, entry, g) ==>
      Sim(w, HRun(sem, code, h), RunMasked(sem, lines, k, entry, g))
  }

  lemma BodyStep(sem: Sem, lines: seq<Line>, k: nat, entry: Word, code: seq<HInstr>, w: View, i: Instr, next: Word,
                 c: seq<HInstr>, w': View)
    requires k < |lines| && BodyDoes(sem, lines, k, entry, code, w)
    requires i == lines[k].i && next == OffsetAt(lines, k + 1, entry)
    requires LineDoes(sem, w, c, w', MaskFor(lines, k), i, next)
    ensures BodyDoes(sem, lines, k + 1, entry, code + c, w')
  {
    hide Straight, OffsetAt, MaskFor, Clobbered, Tame, Ready, Sim, HRun;
    forall h: Host, g: Core | Ready(h, g) && TameBefore(sem, lines, k + 1, entry, g)
      ensures Sim(w', HRun(sem, code + c, h), RunMasked(sem, lines, k + 1, entry, g))
    {
      HRunAppend(sem, code, c, h);
      TameOne(sem, lines, k, entry, g);
      assert Sim(w, HRun(sem, code, h), RunMasked(sem, lines, k, entry, g));
    }
  }

  lemma TameOne(sem: Sem, lines: seq<Line>, k: nat, entry: Word, g: Core)
    requires k < |lines|
    ensures TameBefore(sem, lines, k + 1, entry, g) <==>
            TameBefore(sem, lines, k, entry, g) && Tame(MaskFor(lines, k), RunMasked(sem, lines, k, entry, g))
  {
    hide MaskFor, Tame, RunMasked;
  }

  /** A block that runs off its end: write back, then fall into the next one. */
  lemma FallsThrough(sem: Sem, lines: seq<Line>, entry: Word, code: seq<HInstr>, w: View, back: seq<HInstr>)
    requires lines != [] && !Control(lines[|lines| - 1].i)
    requires BodyDoes(sem, lines, |lines|, entry, code, w) && Implements(sem, w, back, INIT_VIEW, [])
    ensures BlockDoes(sem, lines, entry, Lift(code + back))
  {
    hide Straight, OffsetAt, MaskFor, Clobbered, TameBefore, HRun, Sim;
    var n := |lines|;
    forall h: Host, g: Core | Ready(h, g) && !MaskedHazard(sem, lines, entry, g)
      ensures SameBlock(lines[n - 1].i, OffsetAt(lines, n, entry), RunItems(sem, Lift(code + back), h),
                        MaskedBlock(sem, lines, entry, g))
    {
      HRunAppend(sem, code, back, h);
      RunLifted(sem, code + back, [], h);
      assert Lift(code + back) + [] == Lift(code + back);
      var h1, g1 := HRun(sem, code, h), RunMasked(sem, lines, n, entry, g);
      assert Sim(w, h1, g1);
      assert Sim(INIT_VIEW, HRun(sem, back, h1), GRun(sem, [], g1));
      assert GRun(sem, [], g1) == g1;
    }
  }

  lemma JumpsAway(sem: Sem, lines: seq<Line>, entry: Word, code: seq<HInstr>, w: View, items: seq<Item>, n: nat,
                  here: Word, next: Word)
    requires n + 1 == |lines| && here == OffsetAt(lines, n, entry) && next == OffsetAt(lines, n + 1, entry)
    requires Control(lines[n].i) && BodyDoes(sem, lines, n, entry, code, w)
    requires ControlDoes(sem, w, items, lines[n].i, here, next)
    ensures BlockDoes(sem, lines, entry, Lift(code) + items)
  {
    hide OffsetAt, RunMasked, CallHazard, LeaveBy, Sim, TameBefore, Ready, HRun;
    forall h: Host, g: Core | Ready(h, g) && !MaskedHazard(sem, lines, entry, g)
      ensures SameBlock(lines[n].i, next, RunItems(sem, Lift(code) + items, h), MaskedBlock(sem, lines, entry, g))
    {
      RunLifted(sem, code, items, h);
      TameOne(sem, lines, n, entry, g);
      assert Sim(w, HRun(sem, code, h), RunMasked(sem, lines, n, entry, g));
      Unmasked(sem, lines, n, RunMasked(sem, lines, n, entry, g));
    }
  }

  lemma Unmasked(sem: Sem, lines: seq<Line>, k: nat, c: Core)
    requires k < |lines| && Control(lines[k].i)
    ensures Clobbered(sem, MaskFor(lines, k), c) == c
  {
  }

  lemma BodyStart(sem: Sem, lines: seq<Line>, entry: Word)
    ensures BodyDoes(sem, lines, 0, entry, [], INIT_VIEW) && Quiet(INIT_VIEW.m) && Between(INIT_VIEW.m)
    ensures TempsIn(INIT_VIEW.m) == {}
    ensures OffsetAt(lines, 0, entry) == entry
  {
  }

  predicate EasyLines(lines: seq<Line>) { forall k :: 0 <= k < |lines| ==> Easy(lines[k].i) }

  lemma EasyLine(lines: seq<Line>, k: nat)
    requires EasyLines(lines) && k < |lines|
    ensures Easy(lines[k].i)
  {
  }

  lemma GoodLine(lines: seq<Line>, k: nat, entry: Word)
    requires GoodBlock(lines) && k < |lines|
    ensures OffsetAt(lines, k + 1, entry) == Wrap(OffsetAt(lines, k, entry) + lines[k].len)
    ensures Supported(lines[k].i) && (Control(lines[k].i) ==> k == |lines| - 1)
    ensures lines[k].i.Syscall? ==> Control(lines[k].i) && lines[k].len == 2 && lines[|lines| - 1].i.Syscall?
    ensures lines[|lines| - 1].i.Syscall? && k < |lines| - 1 ==> QuietRegs(InstrRegs(lines[k].i))
    ensures lines[|lines| - 1].i.Syscall? && k == |lines| - 1 ==> Control(lines[k].i)
  {
  }

  /** The emission loop over the lines that do not transfer control. */
  method TranslateBody(rm: RegMap, ghost sem: Sem, lines: seq<Line>, n: nat, entry: Word)
    returns (r: Option<seq<HInstr>>)
    requires GoodBlock(lines) && n <= |lines| && (n < |lines| || !Control(lines[n - 1].i))
    requires rm.live == {} && rm.At() == View(BlockInit(), {})
    modifies rm
    ensures r.Some? ==> Between(rm.m) && rm.live == {}
    ensures r.Some? && lines[|lines| - 1].i.Syscall? ==> Quiet(rm.m)
    ensures r.Some? ==> BodyDoes(sem, lines, n, entry, r.value, rm.At()) && TempsIn(rm.m) == {}
    ensures EasyLines(lines) ==> r.Some?
  {
    hide *;
    NonEmpty(lines);
    BodyStart(sem, lines, entry);
    SameStart(rm);
    CheckedFirst(lines);
    var code: seq<HInstr> := [];
    var offset := entry;
    var cls := ClassesOf(FlagLiveness.Classify, lines);
    var checked: set<Reg> := {};
    ghost var quiet := lines[|lines| - 1].i.Syscall?;
    for k := 0 to n
      invariant Between(rm.m) && rm.live == {} && (quiet ==> Quiet(rm.m)) && TempsIn(rm.m) == {}
      invariant offset == OffsetAt(lines, k, entry) && BodyDoes(sem, lines, k, entry, code, rm.At())
      invariant checked == Checked(lines, k)
    {
      var i, next := lines[k].i, Wrap(offset + lines[k].len);
      GoodLine(lines, k, entry);
      ghost var w := rm.At();
      if EasyLines(lines) { EasyLine(lines, k); }
      var mask := MaskOf(i, FlagLiveness.DefFirst(cls, k), checked);
      MaskIsFit(i, FlagLiveness.DefFirst(cls, k), checked);
      MaskIs(lines, k, mask);
      var c := TranslateLine(rm, sem, i, next, mask);
      if c.None? { return None; }
      BodyStep(sem, lines, k, entry, code, w, i, next, c.value, rm.At());
      CheckedStep(lines, k);
      code, offset, checked := code + c.value, next, LineCheck(i, checked);
    }
    return Some(code);
  }

  lemma CheckedFirst(lines: seq<Line>)
    ensures Checked(lines, 0) == {}
  {
  }

  lemma CheckedStep(lines: seq<Line>, k: nat)
    requires k < |lines|
    ensures Checked(lines, k + 1) == LineCheck(lines[k].i, Checked(lines, k))
  {
  }

  lemma MaskIs(lines: seq<Line>, k: nat, mask: Option<Reg>)
    requires k < |lines|
    requires mask == MaskOf(lines[k].i, FlagLiveness.DefFirst(ClassesOf(FlagLiveness.Classify, lines), k),
                            Checked(lines, k))
    ensures MaskFor(lines, k) == mask
  {
  }

  lemma NoLabels(lines: seq<Line>, entry: Word, code: seq<HInstr>)
    requires lines != [] && !Control(lines[|lines| - 1].i)
    ensures LabelsOf(Lift(code)) == BlockLabels(lines, entry)
  {
    LiftedItems(code);
  }

  lemma LastLabel(lines: seq<Line>, entry: Word, code: seq<HInstr>, items: seq<Item>)
    requires lines != [] && Control(lines[|lines| - 1].i)
    requires LabelsOf(items) == {ControlLabel(lines[|lines| - 1].i, OffsetAt(lines, |lines|, entry))}
    ensures LabelsOf(Lift(code) + items) == BlockLabels(lines, entry)
  {
    LabelsAfter(code, items);
  }

  lemma NonEmpty(lines: seq<Line>)
    requires GoodBlock(lines)
    ensures |lines| > 0
  {
  }

  lemma InitIs()
    ensures INIT_VIEW == View(BlockInit(), {})
  {
  }

  lemma SameStart(rm: RegMap)
    requires rm.At() == View(BlockInit(), {})
    ensures rm.m == INIT_VIEW.m && rm.At() == INIT_VIEW
  {
  }

  method TranslateFalling(ghost sem: Sem, lines: seq<Line>, entry: Word) returns (r: Option<seq<Item>>)
    requires GoodBlock(lines) && !Control(lines[|lines| - 1].i)
    ensures r.Some? ==> BlockDoes(sem, lines, entry, r.value)
    ensures r.Some? ==> LabelsOf(r.value) == BlockLabels(lines, entry)
    ensures EasyLines(lines) ==> r.Some?
  {
    hide *;
    NonEmpty(lines);
    var rm := new RegMap();
    var body := TranslateBody(rm, sem, lines, |lines|, entry);
    if body.None? { return None; }
    var back := rm.ReleaseConflict(sem);
    InitIs();
    FallsThrough(sem, lines, entry, body.value, rm.At(), back);
    NoLabels(lines, entry, body.value + back);
    return Some(Lift(body.value + back));
  }

  method TranslateJumping(ghost sem: Sem, lines: seq<Line>, entry: Word) returns (r: Option<seq<Item>>)
    requires GoodBlock(lines) && Control(lines[|lines| - 1].i)
    ensures r.Some? ==> BlockDoes(sem, lines, entry, r.value)
    ensures r.Some? ==> LabelsOf(r.value) == BlockLabels(lines, entry)
    ensures EasyLines(lines) ==> r.Some?
  {
    hide *;
    NonEmpty(lines);
    var n := |lines| - 1;
    GoodLine(lines, n, entry);
    var rm := new RegMap();
    var body := TranslateBody(rm, sem, lines, n, entry);
    if body.None? { return None; }
    ghost var w := rm.At();
    var here := OffsetAt(lines, n, entry);
    var next := Wrap(here + lines[n].len);
    if EasyLines(lines) { EasyLine(lines, n); }
    var items := TranslateControl(rm, sem, lines[n].i, here, next);
    if items.None? { return None; }
    JumpsAway(sem, lines, entry, body.value, w, items.value, n, here, next);
    LastLabel(lines, entry, body.value, items.value);
    return Some(Lift(body.value) + items.value);
  }

  /**
   * One block: from every state with all registers home, the emitted items leave the block in
   * the native state and in the native way, whatever was evicted on the way.
   */
  method TranslateBlock(ghost sem: Sem, lines: seq<Line>, entry: Word) returns (r: Option<seq<Item>>)
    requires GoodBlock(lines)
    ensures r.Some? ==> BlockDoes(sem, lines, entry, r.value)
    ensures r.Some? ==> LabelsOf(r.value) == BlockLabels(lines, entry)
    ensures EasyLines(lines) ==> r.Some?
  {
    if Control(lines[|lines| - 1].i) {
      r := TranslateJumping(sem, lines, entry);
    } else {
      r := TranslateFalling(sem, lines, entry);
    }
  }
}
