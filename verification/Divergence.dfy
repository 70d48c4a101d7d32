/** Programs with a flag live across a dispatch table or a system call: the translated code takes the other branch. */
module Divergence {
  import opened Words
  import opened Machine
  import opened Templates
  import opened Native
  import opened Masking
  import opened Translator
  import opened Image
  import opened DeadFlags
  import FlagLiveness
  import opened Wrapper
  import opened Chain
  import opened Transparency

  const JUMPER := Line(Jump(ViaReg(Gp(0))), 2)
  const READER := Line(Branch("JZ", 768), 2)
  const CALLER := Line(Syscall, 2)

  /** An indirect jump to 512, where JZ reads the flags; 514 and 768 make system calls. */
  const DEMO: Program := Program(
    [Block(256, [JUMPER]), Block(512, [READER]), Block(514, [CALLER]), Block(768, [CALLER])],
    [Site(258, [512])], [])

  const CODE: map<Word, Line> := map[256 := JUMPER, 512 := READER, 514 := CALLER, 768 := CALLER]

  ghost predicate ReadsZf(sem: Sem) { forall gp, f :: sem.taken("JZ", gp, f) == f.zf }

  // ---------------------------------------------------------------- names and what they stand for

  const FLIP := Line(Normal(Other("NOT"), [AReg(Gp(0), 64)]), 3)

  /** As on x86: NOT leaves the flags alone. */
  ghost predicate NotKeeps(sem: Sem) {
    forall sh, v, gp, mem, f, aux :: sem.exec(Other("NOT"), sh, v, gp, mem, f, aux).flags == f
  }

  /**
   * NOT; JZ: the scan takes NOT for a definer, so the flags are dead at the entry by name.  On a
   * processor whose NOT leaves the flags alone the block goes by the flags it was entered with.
   */
  lemma NotIsNoDefiner(sem: Sem, g: Core)
    requires NotKeeps(sem) && ReadsZf(sem)
    ensures GoodBlock([FLIP, READER]) && FlagLiveness.DefFirst(ClassesOf(FlagLiveness.Classify, [FLIP, READER]), 0)
    ensures NativeBlock(sem, [FLIP, READER], 512, g).1 == Next(if g.flags.zf then 768 else 517)
    ensures !BlockKeeps(sem, FlagLiveness.Classify, Block(512, [FLIP, READER]))
  {
    hide *;
    FlagLiveness.Definers();
    NotDefines([FLIP, READER]);
    FlipRuns(sem, g);
    KeptOverwrites(sem);
    FlipKeeps(sem, g);
  }

  lemma KeptOverwrites(sem: Sem)
    requires FlagLiveness.Classify("NOT") == FlagLiveness.Def
    ensures BlockKeeps(sem, FlagLiveness.Classify, Block(512, [FLIP, READER])) ==> Overwrites(sem, FLIP.i, 515)
  {
    hide FlagLiveness.Classify, Overwrites, Blind, OffsetAt, BlockKeeps;
    var b := Block(512, [FLIP, READER]);
    FlipNext();
    if BlockKeeps(sem, FlagLiveness.Classify, b) { LineKeeps(sem, FlagLiveness.Classify, b, 0); }
  }

  lemma FlipKeeps(sem: Sem, g: Core)
    requires NotKeeps(sem)
    ensures !Overwrites(sem, FLIP.i, 515)
  {
    hide Straight;
    var a, f := g.(flags := Flags(true, 0)), Flags(false, 0);
    FlipFlags(sem, a);
    FlipFlags(sem, a.(flags := f));
    assert Straight(sem, FLIP.i, 515, a) != Straight(sem, FLIP.i, 515, a.(flags := f));
  }

  lemma NotDefines(lines: seq<Line>)
    requires lines == [FLIP, READER] && FlagLiveness.Classify("NOT") == FlagLiveness.Def
    ensures GoodBlock(lines) && FlagLiveness.DefFirst(ClassesOf(FlagLiveness.Classify, lines), 0)
  {
    hide FlagLiveness.Classify;
    assert ClassesOf(FlagLiveness.Classify, lines)[0] == FlagLiveness.Def;
  }

  lemma FlipNext()
    ensures OffsetAt([FLIP, READER], 1, 512) == 515 && OffsetAt([FLIP, READER], 2, 512) == 517
  {
    assert OffsetAt([FLIP, READER], 0, 512) == 512;
  }

  lemma FlipFlags(sem: Sem, g: Core)
    requires NotKeeps(sem)
    ensures Straight(sem, FLIP.i, 515, g).flags == g.flags
  {
    hide ApplyWrites;
    var c, args := At(g, 515), FLIP.i.args;
    var e := Exec(sem, Other("NOT"), Shapes(args), Vals(args, c), c);
    WritesKeepFlags(args, e.writes, c.(gp := e.gp, mem := e.mem, flags := e.flags, aux := e.aux));
  }

  lemma FlipRuns(sem: Sem, g: Core)
    requires NotKeeps(sem) && ReadsZf(sem)
    ensures NativeBlock(sem, [FLIP, READER], 512, g).1 == Next(if g.flags.zf then 768 else 517)
  {
    hide Straight;
    FlipNext();
    FlipFlags(sem, g);
    var lines := [FLIP, READER];
    assert RunBody(sem, lines, 0, 512, g) == g;
    assert RunBody(sem, lines, 1, 512, g) == Straight(sem, FLIP.i, 515, g);
  }

  // ---------------------------------------------------------------- the processor

  lemma DemoStep(sem: Sem, s: NState, t: NState)
    requires ReadsZf(sem) && NStep(sem, CODE, s, t)
    ensures s.ip == 256 && Look(s.c.gp, 0) == 512 ==> t == NState(s.c, 512)
    ensures s.ip == 512 && !s.c.flags.zf ==> t == NState(s.c, 514)
    ensures s.ip != 514 && s.ip != 768
  {
  }

  /** The processor goes to 514 and stops there. */
  lemma {:induction false} DemoReach(sem: Sem, g: Core, t: NState, n: nat)
    requires ReadsZf(sem) && Look(g.gp, 0) == 512 && !g.flags.zf && Reach(sem, CODE, NState(g, 256), t, n)
    ensures n <= 2 && t == NState(g, if n == 0 then 256 else if n == 1 then 512 else 514)
    decreases n
  {
    hide NStep;
    if n > 0 {
      var m :| Reach(sem, CODE, NState(g, 256), m, n - 1) && NStep(sem, CODE, m, t);
      DemoReach(sem, g, m, n - 1);
      DemoStep(sem, m, t);
    }
  }

  // ---------------------------------------------------------------- the image

  lemma DemoUnits(sem: Sem, img: seq<Unit>)
    requires Compiled(sem, DEMO, img)
    ensures |img| == 8
    ensures BlockUnit(sem, DEMO.blocks[0], img[0]) && BlockUnit(sem, DEMO.blocks[1], img[1])
    ensures BlockUnit(sem, DEMO.blocks[2], img[2]) && BlockUnit(sem, DEMO.blocks[3], img[3])
    ensures img[4] == TableUnit(Site(258, [512])) && img[5] == EXITS[0] && img[6] == EXITS[1] && img[7] == EXITS[2]
  {
    hide BlockUnit, TableUnit;
    assert img[4] == TableUnit(DEMO.sites[4 - 4]);
    assert img[5] == EXITS[5 - 5] && img[6] == EXITS[6 - 5] && img[7] == EXITS[7 - 5];
  }

  lemma DemoNames(sem: Sem, img: seq<Unit>)
    requires Compiled(sem, DEMO, img)
    ensures |img| == 8 && img[0].name == Loc(256) && img[1].name == Loc(512) && img[2].name == Loc(514)
    ensures img[3].name == Loc(768) && img[4].name == Ij(258) && img[5].name == CompSyscall && img[7].name == Out
    ensures FindFrom(img, Ij(258), 0) == Some(4) && FindFrom(img, Loc(512), 0) == Some(1)
    ensures FindFrom(img, Loc(768), 0) == Some(3) && FindFrom(img, CompSyscall, 0) == Some(5)
    ensures img[6].name == IjFailed && FindFrom(img, Out, 0) == Some(7)
  {
    hide BlockUnit, TableItems, Compiled, FindFrom;
    DemoUnits(sem, img);
    UnitNamed(sem, DEMO.blocks[0], img[0]);
    UnitNamed(sem, DEMO.blocks[1], img[1]);
    UnitNamed(sem, DEMO.blocks[2], img[2]);
    UnitNamed(sem, DEMO.blocks[3], img[3]);
    FindAt(img, Ij(258), 0, 4);
    FindAt(img, Loc(512), 0, 1);
    FindAt(img, Loc(768), 0, 3);
    FindAt(img, CompSyscall, 0, 5);
    FindAt(img, Out, 0, 7);
  }

  lemma UnitNamed(sem: Sem, b: Block, u: Unit)
    requires BlockUnit(sem, b, u)
    ensures u.name == Loc(b.entry)
  {
    hide BlockDoes, LabelsOf, BlockLabels;
  }

  lemma {:induction false} FindAt(img: seq<Unit>, l: Label, i: nat, k: nat)
    requires i <= k < |img| && img[k].name == l && forall j :: i <= j < k ==> img[j].name != l
    ensures FindFrom(img, l, i) == Some(k)
    decreases k - i
  {
    if i < k { FindAt(img, l, i + 1, k); }
  }

  /** One unit of a run. */
  lemma Go(sem: Sem, img: seq<Unit>, k: nat, h: Host, fuel: nat, h': Host, l: Label, j: nat)
    requires k < |img| && img[k].name != Out && fuel > 0
    requires RunItems(sem, img[k].items, h) == (h', Some(l)) && FindFrom(img, l, 0) == Some(j)
    ensures RunImage(sem, img, k, h, fuel) == RunImage(sem, img, j, h', fuel - 1)
  {
    hide RunItems, FindFrom;
  }

  lemma JumperRuns(sem: Sem, u: Unit, h: Host, g: Core)
    requires BlockUnit(sem, DEMO.blocks[0], u) && Ready(h, g) && Look(g.gp, 0) == 512
    ensures var (h', out) := RunItems(sem, u.items, h); out == Some(Ij(258)) && R14(h') == 512 && Ready(h', g)
  {
    hide BlockUnit, Ready, RunItems;
    OneLine(sem, JUMPER, 256, g);
    UnitLeaves(sem, DEMO.blocks[0], u, h, g);
  }

  lemma ReaderRuns(sem: Sem, u: Unit, h: Host, g: Core)
    requires BlockUnit(sem, DEMO.blocks[1], u) && Ready(h, g) && ReadsZf(sem) && g.flags.zf
    ensures var (h', out) := RunItems(sem, u.items, h); out == Some(Loc(768)) && Ready(h', g)
  {
    hide BlockUnit, Ready, RunItems;
    OneLine(sem, READER, 512, g);
    UnitLeaves(sem, DEMO.blocks[1], u, h, g);
  }

  lemma CallerRuns(sem: Sem, u: Unit, h: Host, g: Core)
    requires BlockUnit(sem, DEMO.blocks[3], u) && Ready(h, g)
    ensures var (h', out) := RunItems(sem, u.items, h); out == Some(CompSyscall) && R14(h') == 768 && Ready(h', g)
  {
    hide BlockUnit, Ready, RunItems;
    OneLine(sem, CALLER, 768, g);
    UnitLeaves(sem, DEMO.blocks[3], u, h, g);
  }

  lemma OneLine(sem: Sem, l: Line, entry: Word, g: Core)
    requires Control(l.i)
    ensures MaskedBlock(sem, [l], entry, g) == LeaveBy(sem, l.i, entry, Wrap(entry + l.len), g)
    ensures OffsetAt([l], 1, entry) == Wrap(entry + l.len)
    ensures !l.i.Call? ==> !MaskedHazard(sem, [l], entry, g)
  {
    hide LeaveBy, MaskFor;
    assert OffsetAt([l], 0, entry) == entry && RunMasked(sem, [l], 0, entry, g) == g;
    assert MaskFor([l], 0) == None by { NoMask(l); }
  }

  lemma NoMask(l: Line)
    requires Control(l.i)
    ensures MaskFor([l], 0) == None
  {
  }

  lemma TableHits(sem: Sem, u: Unit, h: Host, g: Core)
    requires u == TableUnit(Site(258, [512])) && R14(h) == 512 && Ready(h, g)
    ensures var (h', out) := RunItems(sem, u.items, h);
      out == Some(Loc(512)) && h'.core.flags.zf && Ready(h', g.(flags := h'.core.flags))
  {
    hide Ready, RunItems, Probed, TableItems;
    TableRun(sem, 258, [512], h);
    ProbedReady(h, RunItems(sem, u.items, h).0, g);
  }

  lemma ExitRuns(sem: Sem, img: seq<Unit>, h: Host)
    requires Compiled(sem, DEMO, img)
    ensures RunImage(sem, img, 5, h, 2) == Some(h.(ij := 0))
  {
    DemoUnits(sem, img);
    DemoNames(sem, img);
    hide Compiled, RunItems, FindFrom, BlockUnit, TableUnit;
    ExitItems();
    RunJump(sem, [IjImm(0)], Always, Out, h);
    assert HRun(sem, [IjImm(0)], h) == HStep(sem, IjImm(0), h);
    Go(sem, img, 5, h, 2, h.(ij := 0), Out, 7);
  }

  /**
   * The compare chain leaves ZF set on a hit, so the image always takes the branch: from a state
   * with ZF clear it makes its system call at 768, and the processor never gets there.
   */
  lemma TakesOtherBranch(sem: Sem, img: seq<Unit>, h: Host, g: Core)
    requires Compiled(sem, DEMO, img) && ReadsZf(sem) && Ready(h, g) && Look(g.gp, 0) == 512 && !g.flags.zf
    ensures RunImage(sem, img, 0, h, 6).Some? && R14(RunImage(sem, img, 0, h, 6).value) == 768
    ensures forall t: NState, n: nat :: Reach(sem, CODE, NState(g, 256), t, n) ==> t.ip != 768
  {
    hide *;
    ImageTakes(sem, img, h, g);
    forall t: NState, n: nat | Reach(sem, CODE, NState(g, 256), t, n) ensures t.ip != 768 { DemoReach(sem, g, t, n); }
  }

  lemma ImageTakes(sem: Sem, img: seq<Unit>, h: Host, g: Core)
    requires Compiled(sem, DEMO, img) && ReadsZf(sem) && Ready(h, g) && Look(g.gp, 0) == 512
    ensures RunImage(sem, img, 0, h, 6).Some? && R14(RunImage(sem, img, 0, h, 6).value) == 768
  {
    hide *;
    DemoUnits(sem, img);
    DemoNames(sem, img);
    JumperRuns(sem, img[0], h, g);
    var h1 := RunItems(sem, img[0].items, h).0;
    Go(sem, img, 0, h, 6, h1, Ij(258), 4);
    TableHits(sem, img[4], h1, g);
    var h2 := RunItems(sem, img[4].items, h1).0;
    Go(sem, img, 4, h1, 5, h2, Loc(512), 1);
    FromReader(sem, img, h2, g.(flags := h2.core.flags));
  }

  lemma FromReader(sem: Sem, img: seq<Unit>, h: Host, g: Core)
    requires Compiled(sem, DEMO, img) && ReadsZf(sem) && Ready(h, g) && g.flags.zf
    ensures |img| == 8 && RunImage(sem, img, 1, h, 4).Some? && R14(RunImage(sem, img, 1, h, 4).value) == 768
  {
    hide *;
    DemoUnits(sem, img);
    DemoNames(sem, img);
    ReaderRuns(sem, img[1], h, g);
    var h3 := RunItems(sem, img[1].items, h).0;
    Go(sem, img, 1, h, 4, h3, Loc(768), 3);
    CallerRuns(sem, img[3], h3, g);
    var h4 := RunItems(sem, img[3].items, h3).0;
    Go(sem, img, 3, h3, 3, h4, CompSyscall, 5);
    ExitRuns(sem, img, h4);
    R14Kept(h4);
  }

  lemma R14Kept(h: Host)
    ensures R14(h.(ij := 0)) == R14(h)
  {
  }

  // ---------------------------------------------------------------- entered with the flags of the kernel

  lemma {:induction false} ReaderReach(sem: Sem, g: Core, t: NState, n: nat)
    requires ReadsZf(sem) && !g.flags.zf && Reach(sem, CODE, NState(g, 512), t, n)
    ensures n <= 1 && t == NState(g, if n == 0 then 512 else 514)
    decreases n
  {
    hide NStep;
    if n > 0 {
      var m :| Reach(sem, CODE, NState(g, 512), m, n - 1) && NStep(sem, CODE, m, t);
      ReaderReach(sem, g, m, n - 1);
      DemoStep(sem, m, t);
    }
  }

  /**
   * A thread that resumes behind a system call with ZF clear, at a branch on ZF.  The generated
   * function is entered with the flags of the kernel: if those have ZF set, the round ends at 768,
   * where the processor never gets.
   */
  lemma EntryTakesOtherBranch(sem: Sem, img: seq<Unit>, a: Thread, hf: Flags, f: Flags) returns (h: Host)
    requires Compiled(sem, DEMO, img) && ReadsZf(sem) && a.pt.ip == 512 && hf.zf && !f.zf
    ensures RoundRuns(sem, img, a, hf, h) && ExitPt(h).ip == 768
    ensures forall t: NState, n: nat :: Reach(sem, CODE, Resume(a, f), t, n) ==> t.ip != 768
  {
    hide *;
    var frame := FrameFor(a);
    var h0, g := EntryHost(a.pt, (a.fs, 0), 0, 0, frame, a.mem, hf, a.aux), Guest(a.pt, (a.fs, 0), a.mem, hf, a.aux);
    EntryReady(a.pt, (a.fs, 0), 0, 0, frame, a.mem, hf, a.aux);
    GuestFlags(a, hf);
    DemoNames(sem, img);
    FromReader(sem, img, h0, g);
    h := RunImage(sem, img, 1, h0, 4).value;
    OneRound(sem, img, a, hf, h, frame);
    forall t: NState, n: nat | Reach(sem, CODE, Resume(a, f), t, n) ensures t.ip != 768 {
      GuestFlags(a, f);
      ReaderReach(sem, Guest(a.pt, (a.fs, 0), a.mem, f, a.aux), t, n);
    }
  }

  function FrameFor(a: Thread): (s: seq<Word>)
    ensures Framed(a, s)
    ensures |s| == 19 && s[8] == a.pt.bp && s[9] == a.pt.sp && s[10] == a.pt.r15 && s[11] == a.pt.r14
    ensures s[12] == a.pt.r13 && s[13] == a.pt.r12 && s[14] == 0 && s[15] == a.fs
  {
    [0, 0, 0, 0, 0, 0, 0, 0, a.pt.bp, a.pt.sp, a.pt.r15, a.pt.r14, a.pt.r13, a.pt.r12, 0, a.fs, 0, 0, 0]
  }

  lemma OneRound(sem: Sem, img: seq<Unit>, a: Thread, hf: Flags, h: Host, frame: seq<Word>)
    requires Framed(a, frame) && FindFrom(img, Loc(a.pt.ip), 0) == Some(1)
    requires RunImage(sem, img, 1, EntryHost(a.pt, (a.fs, 0), 0, 0, frame, a.mem, hf, a.aux), 4) == Some(h)
    ensures RoundRuns(sem, img, a, hf, h) && ExitPt(h).ip == R14(h)
  {
    hide RunImage, EntryHost, FindFrom, PlainOf;
  }

  lemma GuestFlags(a: Thread, f: Flags)
    ensures Guest(a.pt, (a.fs, 0), a.mem, f, a.aux).flags == f
    ensures Resume(a, f) == NState(Guest(a.pt, (a.fs, 0), a.mem, f, a.aux), a.pt.ip)
  {
  }
}
