/**
 * The simulation relation between host and guest under a register map, and what it means
 * for emitted code to implement guest micro-operations from every related pair of states.
 */
module Simulation {
  import opened Words
  import opened Machine

  type RMap = map<PReg, VReg>

  /** A register map together with the temporaries that already hold a value. */
  datatype View = View(m: RMap, live: set<VReg>)

  predicate Temp(v: VReg) { v == T1 || v == T2 }

  /** `stable_regs`: never written back, never swapped in. */
  predicate Stable(v: VReg) { Temp(v) || v == SP || v == BP }

  /** The virtual registers that own a frame slot. */
  predicate Slotted(v: VReg) { !Temp(v) && v != IP }

  predicate Segment(v: VReg) { v == FS || v == GS }

  predicate Holds(m: RMap, p: PReg, v: VReg) { p in m && m[p] == v }

  predicate Resident(m: RMap, v: VReg) {
    Holds(m, P12, v) || Holds(m, P13, v) || Holds(m, P14, v) || Holds(m, P15, v)
  }

  predicate Numbered(v: VReg) { v == V12 || v == V13 || v == V14 || v == V15 }

  predicate QuietRegs(s: set<VReg>) { forall v :: v in s ==> !Numbered(v) }

  /** No guest R12-R15 is away from its slot. */
  predicate Quiet(m: RMap) {
    !Resident(m, V12) && !Resident(m, V13) && !Resident(m, V14) && !Resident(m, V15)
  }

  lemma HeldIsResident(m: RMap)
    ensures forall p :: p in m ==> Resident(m, m[p])
  {
    forall p | p in m ensures Resident(m, m[p]) {
      match p case P12 => case P13 => case P14 => case P15 =>
    }
  }

  ghost predicate Injective(m: RMap) {
    forall p, q :: p in m && q in m && m[p] == m[q] ==> p == q
  }

  predicate Defined(w: View, v: VReg) { Temp(v) ==> v in w.live }

  ghost predicate Shared(h: Core, g: Core) {
    h.gp == g.gp && h.mem == g.mem && h.flags == g.flags && h.aux == g.aux
  }

  ghost predicate InRegs(w: View, h: Core, g: Core) {
    forall p :: p in w.m && Defined(w, w.m[p]) ==> Look(h.x, Phys(p)) == Look(g.x, Virt(w.m[p]))
  }

  ghost predicate InSlots(w: View, h: Host, g: Core) {
    forall v :: Slotted(v) && (!Resident(w.m, v) || Segment(v)) ==> Look(h.slots, v) == Look(g.x, Virt(v))
  }

  /** Residents are in their physical register, everything else that has a slot is in its slot. */
  ghost predicate Sim(w: View, h: Host, g: Core) {
    Shared(h.core, g) && InRegs(w, h.core, g) && InSlots(w, h, g)
  }

  ghost predicate Implements(sem: Sem, w0: View, code: seq<HInstr>, w1: View, ops: seq<GOp>) {
    forall h: Host, g: Core :: Sim(w0, h, g) ==> Sim(w1, HRun(sem, code, h), GRun(sem, ops, g))
  }

  lemma Compose(sem: Sem, w0: View, a: seq<HInstr>, w1: View, p: seq<GOp>, b: seq<HInstr>, w2: View, q: seq<GOp>)
    requires Implements(sem, w0, a, w1, p) && Implements(sem, w1, b, w2, q)
    ensures Implements(sem, w0, a + b, w2, p + q)
  {
    forall h: Host, g: Core | Sim(w0, h, g)
      ensures Sim(w2, HRun(sem, a + b, h), GRun(sem, p + q, g))
    {
      HRunAppend(sem, a, b, h);
      GRunAppend(sem, p, q, g);
    }
  }

  /** Code that only moves registers about implements the empty list, so it can be appended freely. */
  lemma ComposeSilent(sem: Sem, w0: View, a: seq<HInstr>, w1: View, p: seq<GOp>, b: seq<HInstr>, w2: View)
    requires Implements(sem, w0, a, w1, p) && Implements(sem, w1, b, w2, [])
    ensures Implements(sem, w0, a + b, w2, p)
  {
    Compose(sem, w0, a, w1, p, b, w2, []);
    assert p + [] == p;
  }

  // ---------------------------------------------------------------- single moves

  lemma FreeSlot(sem: Sem, w: View, p: PReg)
    requires Injective(w.m) && p in w.m && Slotted(w.m[p])
    ensures Implements(sem, w, [Spill(w.m[p], p)], View(w.m - {p}, w.live), [])
  {
    var w' := View(w.m - {p}, w.live);
    forall h: Host, g: Core | Sim(w, h, g)
      ensures Sim(w', HRun(sem, [Spill(w.m[p], p)], h), GRun(sem, [], g))
    {
      SpillAt(w, p, h, g);
      SingleSteps(sem, Spill(w.m[p], p), SetIp(0), h, g);
    }
  }

  lemma SpillAt(w: View, p: PReg, h: Host, g: Core)
    requires Injective(w.m) && p in w.m && Slotted(w.m[p]) && Sim(w, h, g)
    ensures Sim(View(w.m - {p}, w.live), h.(slots := h.slots[w.m[p] := Get(h.core, Phys(p))]), g)
  {
    assert Look(h.core.x, Phys(p)) == Look(g.x, Virt(w.m[p]));
  }

  lemma LoadSlot(sem: Sem, w: View, p: PReg, v: VReg)
    requires p !in w.m && !Resident(w.m, v) && Slotted(v)
    ensures Implements(sem, w, [Fill(p, v)], View(w.m[p := v], w.live), [])
  {
    var w' := View(w.m[p := v], w.live);
    forall h: Host, g: Core | Sim(w, h, g)
      ensures Sim(w', HRun(sem, [Fill(p, v)], h), GRun(sem, [], g))
    {
      assert HRun(sem, [Fill(p, v)], h) == HStep(sem, Fill(p, v), h);
    }
  }

  lemma LoadTemp(sem: Sem, w: View, p: PReg, t: VReg)
    requires p !in w.m && Temp(t) && t !in w.live
    ensures Implements(sem, w, [], View(w.m[p := t], w.live), [])
  {
  }

  /** The instruction pointer is materialised as a constant right after `SetIp` fixed it. */
  lemma LoadIp(sem: Sem, w: View, p: PReg, ip: Word)
    requires p !in w.m && !Resident(w.m, IP)
    ensures Implements(sem, w, [LoadAbs(p, ip)], View(w.m[p := IP], w.live), [SetIp(ip)])
  {
    forall h: Host, g: Core | Sim(w, h, g)
      ensures Sim(View(w.m[p := IP], w.live), HRun(sem, [LoadAbs(p, ip)], h), GRun(sem, [SetIp(ip)], g))
    {
      SameIp(sem, w, h, g, p, ip);
      assert HRun(sem, [LoadAbs(p, ip)], h) == HStep(sem, LoadAbs(p, ip), h);
      assert GRun(sem, [SetIp(ip)], g) == GStep(sem, SetIp(ip), g);
    }
  }

  lemma SameIp(sem: Sem, w: View, h: Host, g: Core, p: PReg, ip: Word)
    requires Sim(w, h, g) && p !in w.m && !Resident(w.m, IP)
    ensures Sim(View(w.m[p := IP], w.live), HStep(sem, LoadAbs(p, ip), h), GStep(sem, SetIp(ip), g))
  {
    var w', h', g' := View(w.m[p := IP], w.live), HStep(sem, LoadAbs(p, ip), h), GStep(sem, SetIp(ip), g);
    HeldIsResident(w.m);
    forall q | q in w'.m && Defined(w', w'.m[q]) ensures Look(h'.core.x, Phys(q)) == Look(g'.x, Virt(w'.m[q])) {
      if q != p { assert w.m[q] != IP && Defined(w, w.m[q]); }
    }
    SlotsIp(w, h, g, p, h', g');
  }

  lemma SlotsIp(w: View, h: Host, g: Core, p: PReg, h': Host, g': Core)
    requires InSlots(w, h, g) && p !in w.m && h'.slots == h.slots
    requires forall v :: v != IP ==> Look(g'.x, Virt(v)) == Look(g.x, Virt(v))
    ensures InSlots(View(w.m[p := IP], w.live), h', g')
  {
    forall v | Slotted(v) && !Resident(w.m[p := IP], v) ensures !Resident(w.m, v) {
      if Resident(w.m, v) { StaysResident(w.m, p, v); }
    }
  }

  lemma StaysResident(m: RMap, p: PReg, v: VReg)
    requires p !in m && Resident(m, v)
    ensures Resident(m[p := IP], v)
  {
  }

  lemma SetIpFree(sem: Sem, w: View, ip: Word)
    requires !Resident(w.m, IP)
    ensures Implements(sem, w, [], w, [SetIp(ip)])
  {
    HeldIsResident(w.m);
    forall h: Host, g: Core | Sim(w, h, g)
      ensures Sim(w, HRun(sem, [], h), GRun(sem, [SetIp(ip)], g))
    {
      assert GRun(sem, [SetIp(ip)], g) == GStep(sem, SetIp(ip), g);
    }
  }

  lemma SetIpTwice(sem: Sem, w0: View, code: seq<HInstr>, w1: View, ip: Word)
    requires Implements(sem, w0, code, w1, [SetIp(ip), SetIp(ip)])
    ensures Implements(sem, w0, code, w1, [SetIp(ip)])
  {
    forall h: Host, g: Core | Sim(w0, h, g)
      ensures Sim(w1, HRun(sem, code, h), GRun(sem, [SetIp(ip)], g))
    {
      var g1 := GStep(sem, SetIp(ip), g);
      assert g1.x[Virt(IP) := ip] == g1.x;
      assert [SetIp(ip), SetIp(ip)][1..] == [SetIp(ip)];
      assert GRun(sem, [SetIp(ip), SetIp(ip)], g) == GRun(sem, [SetIp(ip)], g1);
      assert GRun(sem, [SetIp(ip)], g1) == g1;
      assert GRun(sem, [SetIp(ip)], g) == g1;
    }
  }

  /** Forgetting the instruction pointer or a temporary weakens the relation. */
  lemma Forget(sem: Sem, w: View, p: PReg)
    requires Injective(w.m) && p in w.m && !Slotted(w.m[p])
    ensures Implements(sem, w, [], View(w.m - {p}, w.live), [])
  {
  }

  // ---------------------------------------------------------------- renaming

  function Home(m: RMap, v: VReg): Option<PReg> {
    if Holds(m, P12, v) then Some(P12) else if Holds(m, P13, v) then Some(P13)
    else if Holds(m, P14, v) then Some(P14) else if Holds(m, P15, v) then Some(P15) else None
  }

  function RenameReg(m: RMap, r: Reg): Option<Reg> {
    if !r.Virt? then Some(r)
    else match Home(m, r.v) case Some(p) => Some(Phys(p)) case None => None
  }

  function RenameRegs(m: RMap, rs: seq<Reg>): Option<seq<Reg>> {
    if rs == [] then Some([])
    else match (RenameReg(m, rs[0]), RenameRegs(m, rs[1..]))
      case (Some(r), Some(t)) => Some([r] + t)
      case _ => None
  }

  function RenameMul(m: RMap, s: Option<Scaled>): Option<Option<Scaled>> {
    if s.None? then Some(None)
    else match RenameReg(m, s.value.r) case Some(r) => Some(Some(Scaled(s.value.k, r))) case None => None
  }

  function RenameArg(m: RMap, a: Arg): Option<Arg> {
    match a
    case AReg(r, n) => (match RenameReg(m, r) case Some(r') => Some(AReg(r', n)) case None => None)
    case AImm(_) => Some(a)
    case AMem(rs, im, s, n) =>
      match (RenameRegs(m, rs), RenameMul(m, s))
      case (Some(rs'), Some(s')) => Some(AMem(rs', im, s', n))
      case _ => None
  }

  function RenameArgs(m: RMap, args: seq<Arg>): Option<seq<Arg>> {
    if args == [] then Some([])
    else match (RenameArg(m, args[0]), RenameArgs(m, args[1..]))
      case (Some(a), Some(t)) => Some([a] + t)
      case _ => None
  }

  /** Guest operands: no physical registers, and FS, GS and IP only inside addresses. */
  predicate GuestArg(a: Arg) {
    && (forall r :: r in RegsOf(a) ==> !r.Phys?)
    && (a.AReg? && a.r.Virt? ==> !Segment(a.r.v) && a.r.v != IP)
  }

  predicate GuestArgs(args: seq<Arg>) { forall i :: 0 <= i < |args| ==> GuestArg(args[i]) }

  predicate Reads(w: View, a: Arg) { forall v :: Virt(v) in RegsOf(a) ==> Defined(w, v) }

  lemma SameReg(w: View, h: Host, g: Core, r: Reg)
    requires Sim(w, h, g) && !r.Phys? && RenameReg(w.m, r).Some? && (r.Virt? ==> Defined(w, r.v))
    ensures Get(h.core, RenameReg(w.m, r).value) == Get(g, r)
  {
  }

  lemma {:induction false} SameSum(w: View, h: Host, g: Core, rs: seq<Reg>)
    requires Sim(w, h, g) && RenameRegs(w.m, rs).Some?
    requires forall r :: r in rs ==> !r.Phys? && (r.Virt? ==> Defined(w, r.v))
    ensures SumRegs(RenameRegs(w.m, rs).value, h.core) == SumRegs(rs, g)
  {
    if rs != [] {
      SameReg(w, h, g, rs[0]);
      SameSum(w, h, g, rs[1..]);
      var t := RenameRegs(w.m, rs).value;
      assert t[1..] == RenameRegs(w.m, rs[1..]).value;
    }
  }

  lemma SameVal(w: View, h: Host, g: Core, a: Arg)
    requires Sim(w, h, g) && RenameArg(w.m, a).Some? && GuestArg(a) && Reads(w, a)
    ensures Val(RenameArg(w.m, a).value, h.core) == Val(a, g)
  {
    match a
    case AReg(r, _) => assert r in RegsOf(a); SameReg(w, h, g, r);
    case AImm(_) =>
    case AMem(rs, _, s, _) =>
      assert forall r :: r in rs ==> r in RegsOf(a);
      SameSum(w, h, g, rs);
      if s.Some? {
        assert s.value.r in RegsOf(a);
        SameReg(w, h, g, s.value.r);
      }
  }

  lemma {:induction false} SameVals(w: View, h: Host, g: Core, args: seq<Arg>)
    requires Sim(w, h, g) && RenameArgs(w.m, args).Some? && GuestArgs(args)
    requires forall i :: 0 <= i < |args| ==> Reads(w, args[i])
    ensures Vals(RenameArgs(w.m, args).value, h.core) == Vals(args, g)
  {
    if args != [] {
      SameVal(w, h, g, args[0]);
      SameVals(w, h, g, args[1..]);
      var t := RenameArgs(w.m, args).value;
      assert t[1..] == RenameArgs(w.m, args[1..]).value;
    }
  }

  lemma {:induction false} SameShapes(m: RMap, args: seq<Arg>)
    requires RenameArgs(m, args).Some?
    ensures Shapes(RenameArgs(m, args).value) == Shapes(args)
  {
    if args != [] {
      SameShapes(m, args[1..]);
      var t := RenameArgs(m, args).value;
      assert t[1..] == RenameArgs(m, args[1..]).value;
    }
  }

  /** Writing one operand: injectivity keeps every other resident in place. */
  lemma SameWrite(w: View, h: Host, g: Core, r: Reg, x: Word)
    requires Sim(w, h, g) && Injective(w.m) && !r.Phys? && RenameReg(w.m, r).Some?
    requires r.Virt? ==> !Segment(r.v)
    ensures Sim(w, h.(core := Set(h.core, RenameReg(w.m, r).value, x)), Set(g, r, x))
    ensures r.Virt? ==> Sim(View(w.m, w.live + {r.v}), h.(core := Set(h.core, RenameReg(w.m, r).value, x)),
                            Set(g, r, x))
  {
    if r.Virt? {
      var p := RenameReg(w.m, r).value.p;
      SameVirtWrite(w, w.live, h, g, p, r.v, x);
      SameVirtWrite(w, w.live + {r.v}, h, g, p, r.v, x);
    }
  }

  lemma SameVirtWrite(w: View, live: set<VReg>, h: Host, g: Core, p: PReg, v: VReg, x: Word)
    requires Sim(w, h, g) && Injective(w.m) && Holds(w.m, p, v) && !Segment(v)
    requires live <= w.live + {v}
    ensures Sim(View(w.m, live), h.(core := Set(h.core, Phys(p), x)), Set(g, Virt(v), x))
  {
    var w', h', g' := View(w.m, live), Set(h.core, Phys(p), x), Set(g, Virt(v), x);
    forall q | q in w.m && Defined(w', w.m[q]) ensures Look(h'.x, Phys(q)) == Look(g'.x, Virt(w.m[q])) {
      if q != p { assert w.m[q] != v && Defined(w, w.m[q]); }
    }
    HeldIsResident(w.m);
    assert InSlots(w', h.(core := h'), g');
  }

  lemma {:induction false} SameWrites(w: View, h: Host, g: Core, args: seq<Arg>, ws: seq<Option<Word>>)
    requires Sim(w, h, g) && Injective(w.m) && GuestArgs(args) && RenameArgs(w.m, args).Some?
    ensures Sim(w, h.(core := ApplyWrites(RenameArgs(w.m, args).value, ws, h.core)), ApplyWrites(args, ws, g))
    decreases args
  {
    if args != [] && ws != [] {
      var t := RenameArgs(w.m, args).value;
      assert t[1..] == RenameArgs(w.m, args[1..]).value;
      var hit := args[0].AReg? && ws[0].Some?;
      if hit {
        assert args[0].r in RegsOf(args[0]);
        SameWrite(w, h, g, args[0].r, ws[0].value);
      }
      var h' := if hit then h.(core := Set(h.core, t[0].r, ws[0].value)) else h;
      var g' := if hit then Set(g, args[0].r, ws[0].value) else g;
      SameWrites(w, h', g', args[1..], ws[1..]);
    }
  }

  function Rest(c: Core, e: Effect): Core {
    c.(gp := e.gp, mem := e.mem, flags := e.flags, aux := e.aux)
  }

  lemma SameRest(w: View, h: Host, g: Core, e: Effect)
    requires Sim(w, h, g)
    ensures Sim(w, h.(core := Rest(h.core, e)), Rest(g, e))
  {
  }

  lemma SameExec(sem: Sem, op: Op, shapes: seq<Shape>, vals: seq<Word>, c: Core, d: Core)
    requires Shared(c, d)
    ensures Exec(sem, op, shapes, vals, c) == Exec(sem, op, shapes, vals, d)
  {
  }

  lemma StepIs(sem: Sem, op: Op, args: seq<Arg>, c: Core, e: Effect)
    requires e == Exec(sem, op, Shapes(args), Vals(args, c), c)
    ensures Step(sem, op, args, c) == ApplyWrites(args, e.writes, Rest(c, e))
  {
  }

  lemma SameStep(sem: Sem, w: View, h: Host, g: Core, op: Op, args: seq<Arg>)
    requires Sim(w, h, g) && Injective(w.m) && GuestArgs(args) && RenameArgs(w.m, args).Some?
    requires forall i :: 0 <= i < |args| ==> Reads(w, args[i])
    ensures Sim(w, h.(core := Step(sem, op, RenameArgs(w.m, args).value, h.core)), Step(sem, op, args, g))
  {
    var hargs := RenameArgs(w.m, args).value;
    var e := Exec(sem, op, Shapes(args), Vals(args, g), g);
    assert e == Exec(sem, op, Shapes(hargs), Vals(hargs, h.core), h.core) by {
      SameVals(w, h, g, args);
      SameShapes(w.m, args);
      SameExec(sem, op, Shapes(args), Vals(args, g), h.core, g);
    }
    StepIs(sem, op, args, g, e);
    StepIs(sem, op, hargs, h.core, e);
    SameRest(w, h, g, e);
    SameWrites(w, h.(core := Rest(h.core, e)), Rest(g, e), args, e.writes);
  }

  /** An ordinary instruction whose operands are all resident does the same on both machines. */
  lemma Renamed(sem: Sem, w: View, op: Op, args: seq<Arg>)
    requires Injective(w.m) && GuestArgs(args) && RenameArgs(w.m, args).Some?
    requires forall i :: 0 <= i < |args| ==> Reads(w, args[i])
    ensures Implements(sem, w, [HDo(op, RenameArgs(w.m, args).value)], w, [Do(op, args)])
  {
    hide HRun, GRun, Sim, RenameArgs;
    forall h: Host, g: Core | Sim(w, h, g)
      ensures Sim(w, HRun(sem, [HDo(op, RenameArgs(w.m, args).value)], h), GRun(sem, [Do(op, args)], g))
    {
      RenamedAt(sem, w, h, g, op, args, RenameArgs(w.m, args).value);
    }
  }

  lemma RenamedAt(sem: Sem, w: View, h: Host, g: Core, op: Op, args: seq<Arg>, hargs: seq<Arg>)
    requires Sim(w, h, g) && Injective(w.m) && GuestArgs(args) && RenameArgs(w.m, args) == Some(hargs)
    requires forall i :: 0 <= i < |args| ==> Reads(w, args[i])
    ensures Sim(w, HRun(sem, [HDo(op, hargs)], h), GRun(sem, [Do(op, args)], g))
  {
    hide HRun, GRun, Step, Sim, RenameArgs, GuestArgs, Injective, Reads;
    SameStep(sem, w, h, g, op, args);
    SingleSteps(sem, HDo(op, hargs), Do(op, args), h, g);
    assert HStep(sem, HDo(op, hargs), h) == h.(core := Step(sem, op, hargs, h.core));
  }

  lemma SingleSteps(sem: Sem, i: HInstr, o: GOp, h: Host, g: Core)
    ensures HRun(sem, [i], h) == HStep(sem, i, h) && GRun(sem, [o], g) == GStep(sem, o, g)
  {
    hide HStep, GStep;
    assert HRun(sem, [i], h) == HRun(sem, [], HStep(sem, i, h));
    assert GRun(sem, [o], g) == GRun(sem, [], GStep(sem, o, g));
  }

  // ---------------------------------------------------------------- masked addresses

  /** The shift pair leaves the register as it is. */
  predicate Tame(mask: Option<Reg>, g: Core) { mask.Some? ==> Get(g, mask.value) < HALF }

  /** What the guest sees of the pair then: other flags. */
  function Clobbered(sem: Sem, mask: Option<Reg>, g: Core): Core {
    if mask.None? then g else g.(flags := sem.masked(Get(g, mask.value), g.flags))
  }

  function MaskCode(m: RMap, mask: Option<Reg>): seq<HInstr> {
    if mask.Some? && RenameReg(m, mask.value).Some? then [Mask(RenameReg(m, mask.value).value)] else []
  }

  /** The code implements `ops` on the state with clobbered flags, where the masked register is tame. */
  ghost predicate ImplementsWhen(sem: Sem, w0: View, code: seq<HInstr>, w1: View, mask: Option<Reg>, ops: seq<GOp>) {
    forall h: Host, g: Core :: Sim(w0, h, g) && Tame(mask, g) ==>
      Sim(w1, HRun(sem, code, h), GRun(sem, ops, Clobbered(sem, mask, g)))
  }

  lemma WhenNone(sem: Sem, w0: View, code: seq<HInstr>, w1: View, ops: seq<GOp>)
    ensures ImplementsWhen(sem, w0, code, w1, None, ops) <==> Implements(sem, w0, code, w1, ops)
  {
    hide Sim, HRun, GRun;
    if ImplementsWhen(sem, w0, code, w1, None, ops) {
      forall h: Host, g: Core | Sim(w0, h, g) ensures Sim(w1, HRun(sem, code, h), GRun(sem, ops, g)) {
        assert Clobbered(sem, None, g) == g && Tame(None, g);
      }
    }
  }

  /** A register the pair may be applied to: one that owns its place, and not SP, BP or IP. */
  predicate Maskable(r: Reg) { r.Gp? || (r.Virt? && Slotted(r.v) && r.v != SP && r.v != BP) }

  /** The pair keeps the relation if and only if the register is tame. */
  lemma MaskExact(sem: Sem, w: View, h: Host, g: Core, r: Reg)
    requires Sim(w, h, g) && Maskable(r) && RenameReg(w.m, r).Some?
    ensures Sim(w, HRun(sem, MaskCode(w.m, Some(r)), h), Clobbered(sem, Some(r), g)) <==> Tame(Some(r), g)
  {
    var i := Mask(RenameReg(w.m, r).value);
    SingleSteps(sem, i, SetIp(0), h, g);
    SameReg(w, h, g, r);
    var h', g' := HStep(sem, i, h), Clobbered(sem, Some(r), g);
    if Tame(Some(r), g) {
      assert h' == h.(core := h.core.(flags := g'.flags));
    } else if r.Gp? {
      assert Get(h'.core, r) != Get(g', r);
    } else {
      var p := RenameReg(w.m, r).value.p;
      assert Look(h'.core.x, Phys(p)) != Look(g'.x, r);
    }
  }

  /** Resolve, mask and execute: the pair stands between what sets IP and the instruction. */
  lemma MaskBetween(sem: Sem, w0: View, a: seq<HInstr>, w1: View, ip: Word, mask: Option<Reg>, b: seq<HInstr>,
                    w2: View, q: seq<GOp>)
    requires Implements(sem, w0, a, w1, [SetIp(ip)]) && Implements(sem, w1, b, w2, q)
    requires mask.Some? ==> Maskable(mask.value) && RenameReg(w1.m, mask.value).Some?
    ensures ImplementsWhen(sem, w0, a + MaskCode(w1.m, mask) + b, w2, mask, [SetIp(ip)] + q)
  {
    hide Sim, HRun, GRun, MaskCode, Maskable, RenameReg;
    forall h: Host, g: Core | Sim(w0, h, g) && Tame(mask, g)
      ensures Sim(w2, HRun(sem, a + MaskCode(w1.m, mask) + b, h), GRun(sem, [SetIp(ip)] + q, Clobbered(sem, mask, g)))
    {
      var c := MaskCode(w1.m, mask);
      HRunAppend(sem, a + c, b, h);
      HRunAppend(sem, a, c, h);
      var h1, g1, g' := HRun(sem, a, h), GRun(sem, [SetIp(ip)], g), Clobbered(sem, mask, g);
      GRunAppend(sem, [SetIp(ip)], q, g');
      IpAfter(sem, ip, mask, g);
      MaskedSim(sem, w1, h1, g1, mask);
      assert Sim(w2, HRun(sem, b, HRun(sem, c, h1)), GRun(sem, q, Clobbered(sem, mask, g1)));
    }
  }

  lemma MaskedSim(sem: Sem, w: View, h: Host, g: Core, mask: Option<Reg>)
    requires Sim(w, h, g) && Tame(mask, g) && (mask.Some? ==> Maskable(mask.value) && RenameReg(w.m, mask.value).Some?)
    ensures Sim(w, HRun(sem, MaskCode(w.m, mask), h), Clobbered(sem, mask, g))
  {
    hide Sim, Tame, Maskable, RenameReg;
    if mask.Some? { MaskExact(sem, w, h, g, mask.value); }
  }

  lemma IpAfter(sem: Sem, ip: Word, mask: Option<Reg>, g: Core)
    requires mask.Some? ==> Maskable(mask.value)
    ensures var g1 := GRun(sem, [SetIp(ip)], g);
      && (Tame(mask, g1) <==> Tame(mask, g))
      && Clobbered(sem, mask, g1) == GRun(sem, [SetIp(ip)], Clobbered(sem, mask, g))
  {
    assert GRun(sem, [SetIp(ip)], g) == GStep(sem, SetIp(ip), g);
    var g' := Clobbered(sem, mask, g);
    assert GRun(sem, [SetIp(ip)], g') == GStep(sem, SetIp(ip), g');
  }

  lemma WhenSilent(sem: Sem, w0: View, a: seq<HInstr>, w1: View, mask: Option<Reg>, p: seq<GOp>, b: seq<HInstr>,
                   w2: View)
    requires ImplementsWhen(sem, w0, a, w1, mask, p) && Implements(sem, w1, b, w2, [])
    ensures ImplementsWhen(sem, w0, a + b, w2, mask, p)
  {
    hide Sim, Clobbered, Tame;
    forall h: Host, g: Core | Sim(w0, h, g) && Tame(mask, g)
      ensures Sim(w2, HRun(sem, a + b, h), GRun(sem, p, Clobbered(sem, mask, g)))
    {
      HRunAppend(sem, a, b, h);
      var h1, g1 := HRun(sem, a, h), GRun(sem, p, Clobbered(sem, mask, g));
      assert Sim(w1, h1, g1);
      assert Sim(w2, HRun(sem, b, h1), GRun(sem, [], g1));
      assert GRun(sem, [], g1) == g1;
    }
  }

  // ---------------------------------------------------------------- moves of the templates

  /** A 64-bit move that fills a temporary: the operand it overwrites need not hold anything yet. */
  predicate FillsTemp(op: Op, args: seq<Arg>) {
    && |args| == 2 && args[0].AReg? && args[0].size == 64 && args[0].r.Virt? && Temp(args[0].r.v)
    && ((op == MOV && args[1].AMem? && args[1].sz == 64) || (op == MOVABS && args[1].AImm?))
  }

  lemma RenamedFill(sem: Sem, w: View, op: Op, args: seq<Arg>)
    requires Injective(w.m) && GuestArgs(args) && RenameArgs(w.m, args).Some?
    requires FillsTemp(op, args) && Reads(w, args[1])
    ensures Implements(sem, w, [HDo(op, RenameArgs(w.m, args).value)],
                       View(w.m, w.live + {args[0].r.v}), [Do(op, args)])
  {
    hide Sim, HRun, GRun, RenameArgs, Injective, GuestArgs, Reads;
    var hargs := RenameArgs(w.m, args).value;
    forall h: Host, g: Core | Sim(w, h, g)
      ensures Sim(View(w.m, w.live + {args[0].r.v}), HRun(sem, [HDo(op, hargs)], h), GRun(sem, [Do(op, args)], g))
    {
      FillAt(sem, w, h, g, op, args, hargs);
    }
  }

  lemma FillAt(sem: Sem, w: View, h: Host, g: Core, op: Op, args: seq<Arg>, hargs: seq<Arg>)
    requires Injective(w.m) && GuestArgs(args) && RenameArgs(w.m, args) == Some(hargs)
    requires FillsTemp(op, args) && Reads(w, args[1]) && Sim(w, h, g)
    ensures Sim(View(w.m, w.live + {args[0].r.v}), HRun(sem, [HDo(op, hargs)], h), GRun(sem, [Do(op, args)], g))
  {
    hide Store, LoadBytes, Sim, HRun, GRun, Step, RenameArgs, RenameArg, RenameReg, Injective, Reads, Val;
    TwoRenamed(w.m, args, hargs);
    SameVal(w, h, g, args[1]);
    var x := if op == MOV then Load64(g.mem, Val(args[1], g)) else Val(args[1], g);
    SharedMem(w, h, g);
    TwoOperandStep(sem, op, args, g, x);
    TwoOperandStep(sem, op, hargs, h.core, x);
    assert args[0].r in RegsOf(args[0]);
    SameWrite(w, h, g, args[0].r, x);
    SingleSteps(sem, HDo(op, hargs), Do(op, args), h, g);
  }

  lemma SharedMem(w: View, h: Host, g: Core)
    requires Sim(w, h, g)
    ensures h.core.mem == g.mem
  {
  }

  lemma TwoRenamed(m: RMap, args: seq<Arg>, hargs: seq<Arg>)
    requires RenameArgs(m, args) == Some(hargs) && |args| == 2 && args[0].AReg?
    ensures RenameArg(m, args[1]).Some? && RenameReg(m, args[0].r).Some?
    ensures hargs == [AReg(RenameReg(m, args[0].r).value, args[0].size), RenameArg(m, args[1]).value]
    ensures args[1].AMem? ==> hargs[1].AMem? && hargs[1].sz == args[1].sz
    ensures args[1].AImm? ==> hargs[1] == args[1]
  {
    hide RenameReg, RenameRegs, RenameMul;
    var t := args[1..];
    assert t[0] == args[1] && t[1..] == [];
    assert RenameArgs(m, t[1..]) == Some([]);
  }

  /** The 64-bit moves and LEA of the templates, spelled out. */
  lemma TwoOperandStep(sem: Sem, op: Op, args: seq<Arg>, c: Core, x: Word)
    requires |args| == 2 && args[0].AReg? && args[0].size == 64
    requires
      || (op == MOV && args[1].AMem? && args[1].sz == 64 && x == Load64(c.mem, Val(args[1], c)))
      || (op == MOV && args[1].AReg? && args[1].size == 64 && x == Val(args[1], c))
      || (op == MOVABS && args[1].AImm? && x == Val(args[1], c))
      || (op == LEA && args[1].AMem? && args[1].sz == 64 && x == Val(args[1], c))
    ensures Step(sem, op, args, c) == Set(c, args[0].r, x)
  {
    hide Store, LoadBytes;
    TwoShapes(args, c);
    var e := Exec(sem, op, Shapes(args), Vals(args, c), c);
    assert e == Effect([Some(x)], c.gp, c.mem, c.flags, c.aux);
    assert ApplyWrites(args[1..], e.writes[1..], Set(c, args[0].r, x)) == Set(c, args[0].r, x);
  }

  lemma StoreStep(sem: Sem, args: seq<Arg>, c: Core)
    requires |args| == 2 && args[0].AMem?
    requires (args[1].AReg? && args[1].size == args[0].sz) || args[1].AImm?
    ensures Step(sem, MOV, args, c) == c.(mem := Store(c.mem, Val(args[0], c), args[0].sz / 8, Val(args[1], c)))
  {
    hide Store, LoadBytes;
    TwoShapes(args, c);
  }

  lemma TwoShapes(args: seq<Arg>, c: Core)
    requires |args| == 2
    ensures Shapes(args) == [ShapeOf(args[0]), ShapeOf(args[1])]
    ensures Vals(args, c) == [Val(args[0], c), Val(args[1], c)]
  {
    assert args[1..][1..] == [];
    assert Shapes(args[1..]) == [ShapeOf(args[1])] + Shapes(args[1..][1..]);
    assert Vals(args[1..], c) == [Val(args[1], c)] + Vals(args[1..][1..], c);
  }
}
