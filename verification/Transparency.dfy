/**
 * Whole-run transparency: a run of the compiled image that reaches the exit leaves the
 * registers and memory of the state the processor reaches, where flags are dead across tables.
 */
module Transparency {
  import opened Words
  import opened Machine
  import opened Simulation
  import opened Native
  import opened Masking
  import FlagLiveness
  import opened Translator
  import opened Image
  import opened DeadFlags

  ghost predicate BlockUnit(sem: Sem, b: Block, u: Unit) {
    && b.lines != [] && u.name == Loc(b.entry) && BlockDoes(sem, b.lines, b.entry, u.items)
    && LabelsOf(u.items) == BlockLabels(b.lines, b.entry)
  }

  /** The image is the blocks in order, the dispatch tables, the callee stubs and the exits. */
  ghost predicate Compiled(sem: Sem, p: Program, img: seq<Unit>) {
    var nb, nt, nc := |p.blocks|, |p.sites|, |p.callees|;
    && |img| == nb + nt + nc + 3
    && (forall j :: 0 <= j < nb ==> BlockUnit(sem, p.blocks[j], img[j]))
    && (forall j :: nb <= j < nb + nt ==> img[j] == TableUnit(p.sites[j - nb]))
    && (forall j :: nb + nt <= j < nb + nt + nc ==> img[j] == StubUnit(p.callees[j - nb - nt]))
    && (forall j :: nb + nt + nc <= j < |img| ==> img[j] == EXITS[j - nb - nt - nc])
  }

  /** A block that can run off its end is followed by the block at that address. */
  predicate Followed(p: Program, j: nat)
    requires j < |p.blocks| && p.blocks[j].lines != []
  {
    var b := p.blocks[j];
    MayFall(b.lines[|b.lines| - 1].i) ==>
      j + 1 < |p.blocks| && p.blocks[j + 1].entry == OffsetAt(b.lines, |b.lines|, b.entry)
  }

  /** The address just behind block j, without reduction to 64 bits. */
  function EndOf(lines: seq<Line>, entry: int): int
    decreases |lines|
  {
    if lines == [] then entry else EndOf(lines[..|lines| - 1], entry) + lines[|lines| - 1].len
  }

  /** Emission order: blocks sorted by address, not overlapping, not running past the address space. */
  ghost predicate Ordered(p: Program) {
    && (forall j :: 0 <= j < |p.blocks| ==> EndOf(p.blocks[j].lines, p.blocks[j].entry) < TWO64)
    && (forall i, j :: 0 <= i < j < |p.blocks| ==>
          p.blocks[i].entry < p.blocks[j].entry && EndOf(p.blocks[i].lines, p.blocks[i].entry) <= p.blocks[j].entry)
  }

  lemma {:induction false} EndIsOffset(lines: seq<Line>, k: nat, entry: Word)
    requires k <= |lines| && EndOf(lines, entry) < TWO64
    ensures EndOf(lines[..k], entry) == OffsetAt(lines, k, entry)
    ensures entry <= EndOf(lines[..k], entry) <= EndOf(lines, entry)
    decreases k
  {
    EndGrows(lines, k, entry);
    if k > 0 {
      EndIsOffset(lines, k - 1, entry);
      assert lines[..k][..k - 1] == lines[..k - 1];
    }
  }

  lemma {:induction false} EndGrows(lines: seq<Line>, k: nat, entry: Word)
    requires k <= |lines|
    ensures entry <= EndOf(lines[..k], entry) <= EndOf(lines, entry)
    decreases |lines|
  {
    if k == |lines| {
      assert lines[..k] == lines;
      if k > 0 { EndGrows(lines[..k - 1], k - 1, entry); assert lines[..k - 1][..k - 1] == lines[..k - 1]; }
    } else {
      EndGrows(lines[..|lines| - 1], k, entry);
      assert lines[..|lines| - 1][..k] == lines[..k];
    }
  }

  /**
   * In emission order, a block that can run off its end into a translated block is followed by
   * that block: the next entry cannot lie before the end.
   */
  lemma OrderFollows(p: Program, j: nat)
    requires Ordered(p) && j < |p.blocks| && p.blocks[j].lines != [] && FallsIntoBlock(p, p.blocks[j])
    ensures Followed(p, j)
  {
    hide OffsetAt, EndOf;
    var b := p.blocks[j];
    if MayFall(b.lines[|b.lines| - 1].i) {
      var m :| 0 <= m < |p.blocks| && p.blocks[m].entry == OffsetAt(b.lines, |b.lines|, b.entry);
      EndIsOffset(b.lines, |b.lines|, b.entry);
      assert b.lines[..|b.lines|] == b.lines;
      EndBehind(b.lines, b.entry);
      NextInOrder(p, j, m);
    }
  }

  /** A block that can run off its end is not empty there and runs into a translated block. */
  ghost predicate FallsIntoBlock(p: Program, b: Block)
    requires b.lines != []
  {
    MayFall(b.lines[|b.lines| - 1].i) ==>
      && b.lines[|b.lines| - 1].len > 0
      && exists m :: 0 <= m < |p.blocks| && p.blocks[m].entry == OffsetAt(b.lines, |b.lines|, b.entry)
  }

  lemma NextInOrder(p: Program, j: nat, m: nat)
    requires Ordered(p) && j < |p.blocks| && m < |p.blocks|
    requires p.blocks[m].entry == EndOf(p.blocks[j].lines, p.blocks[j].entry) > p.blocks[j].entry
    ensures m == j + 1
  {
    hide EndOf;
    Earlier(p, m, j);
    if j + 1 < |p.blocks| { Earlier(p, j + 1, m); }
  }

  lemma Earlier(p: Program, i: nat, k: nat)
    requires Ordered(p) && i < |p.blocks| && k < |p.blocks|
    ensures i < k ==> p.blocks[i].entry < p.blocks[k].entry
  {
    hide EndOf;
  }

  lemma EndBehind(lines: seq<Line>, entry: Word)
    requires lines != [] && lines[|lines| - 1].len > 0
    ensures EndOf(lines, entry) > entry
  {
    var k := |lines| - 1;
    EndGrows(lines[..k], k, entry);
    assert lines[..k][..k] == lines[..k];
  }

  ghost predicate Runnable(code: map<Word, Line>, p: Program) {
    forall j :: 0 <= j < |p.blocks| ==>
      GoodBlock(p.blocks[j].lines) && Decoded(code, p.blocks[j]) && Followed(p, j)
  }

  /** Why the run stopped: at a SYSCALL, at an untranslated callee, or at an unlisted target. */
  ghost predicate Reason(code: map<Word, Line>, p: Program, ij: Word, ip: Word) {
    || (ij == 0 && ip in code && code[ip].i.Syscall?)
    || (ij == 1 && ip in p.callees)
    || (exists s :: s in p.sites && s.offset == ij && ip !in s.targets)
  }

  /** Every guest register home; the flags may be others. */
  ghost predicate AllBut(h: Host, g: Core) { Ready(h, g.(flags := h.core.flags)) }

  /** The same, with other flags only where they are dead. */
  ghost predicate ReadyAt(h: Host, g: Core, ip: Word, dead: iset<Word>) {
    AllBut(h, g) && (h.core.flags == g.flags || ip in dead)
  }

  /** What `exit` finds: every guest register home, RIP in R14, the reason in the IJ slot. */
  ghost predicate Left(code: map<Word, Line>, p: Program, h: Host, t: NState) {
    AllBut(h, t.c) && R14(h) == t.ip && Reason(code, p, h.ij, t.ip)
  }

  /** The supported programs: compiled, runnable, and no flag live where a table can lead or a mask is emitted. */
  ghost predicate Supports(sem: Sem, code: map<Word, Line>, p: Program, img: seq<Unit>, dead: iset<Word>) {
    && Compiled(sem, p, img) && Runnable(code, p) && DeadSet(sem, code, dead)
    && (forall s, x :: s in p.sites && x in s.targets ==> x in dead)
    && (forall j :: 0 <= j < |p.blocks| ==> MasksDead(p.blocks[j].lines, p.blocks[j].entry, dead))
  }

  // ---------------------------------------------------------------- units that leave

  /** A unit that jumps straight to the exit. */
  lemma JumpOut(sem: Sem, img: seq<Unit>, k: nat, h: Host, fuel: nat, c: seq<HInstr>)
    requires k < |img| && img[k].name != Out && img[k].items == Lift(c) + [J(Always, Out)]
    requires RunImage(sem, img, k, h, fuel).Some?
    ensures RunImage(sem, img, k, h, fuel).value == HRun(sem, c, h)
  {
    RunJump(sem, c, Always, Out, h);
  }

  lemma StubItems(a: Word)
    ensures StubUnit(a).items == Lift([LoadAbs(P14, a), IjImm(1)]) + [J(Always, Out)]
  {
    assert [LoadAbs(P14, a), IjImm(1)][1..] == [IjImm(1)];
    assert Lift([LoadAbs(P14, a), IjImm(1)]) == [I(LoadAbs(P14, a))] + Lift([IjImm(1)]);
    assert Lift([IjImm(1)]) == [I(IjImm(1))] + Lift([]);
  }

  lemma ExitItems()
    ensures EXITS[0].items == Lift([IjImm(0)]) + [J(Always, Out)]
    ensures EXITS[1].items == Lift([IjReg(P15)]) + [J(Always, Out)]
  {
  }

  lemma StubLeaves(sem: Sem, code: map<Word, Line>, p: Program, img: seq<Unit>, k: nat, h: Host, g: Core, ip: Word,
                   fuel: nat)
    requires k < |img| && img[k] == StubUnit(ip) && ip in p.callees && Ready(h, g)
    requires RunImage(sem, img, k, h, fuel).Some?
    ensures Left(code, p, RunImage(sem, img, k, h, fuel).value, NState(g, ip))
  {
    var c := [LoadAbs(P14, ip), IjImm(1)];
    StubItems(ip);
    JumpOut(sem, img, k, h, fuel, c);
    assert c[1..] == [IjImm(1)];
    var h1 := HStep(sem, LoadAbs(P14, ip), h);
    assert HRun(sem, c, h) == HRun(sem, c[1..], h1);
    assert HRun(sem, [IjImm(1)], h1) == HStep(sem, IjImm(1), h1);
    SetR14(h, g, ip);
    assert Ready(HStep(sem, IjImm(1), h1), g) by { IjFree(h1, g, 1); }
  }

  lemma IjFree(h: Host, g: Core, w: Word)
    requires Ready(h, g)
    ensures Ready(h.(ij := w), g)
  {
  }

  lemma SyscallLeaves(sem: Sem, code: map<Word, Line>, p: Program, img: seq<Unit>, k: nat, h: Host, t: NState,
                      fuel: nat)
    requires k < |img| && img[k] == EXITS[0] && AllBut(h, t.c) && R14(h) == t.ip
    requires t.ip in code && code[t.ip].i.Syscall?
    requires RunImage(sem, img, k, h, fuel).Some?
    ensures Left(code, p, RunImage(sem, img, k, h, fuel).value, t)
  {
    ExitItems();
    JumpOut(sem, img, k, h, fuel, [IjImm(0)]);
    assert HRun(sem, [IjImm(0)], h) == HStep(sem, IjImm(0), h);
    IjFree(h, t.c.(flags := h.core.flags), 0);
  }

  lemma MissLeaves(sem: Sem, code: map<Word, Line>, p: Program, img: seq<Unit>, k: nat, h: Host, t: NState, s: Site,
                   fuel: nat)
    requires k < |img| && img[k] == EXITS[1] && AllBut(h, t.c) && R14(h) == t.ip
    requires s in p.sites && Look(h.core.x, Phys(P15)) == s.offset && t.ip !in s.targets
    requires RunImage(sem, img, k, h, fuel).Some?
    ensures Left(code, p, RunImage(sem, img, k, h, fuel).value, t)
  {
    ExitItems();
    JumpOut(sem, img, k, h, fuel, [IjReg(P15)]);
    assert HRun(sem, [IjReg(P15)], h) == HStep(sem, IjReg(P15), h);
    IjFree(h, t.c.(flags := h.core.flags), s.offset);
  }

  // ---------------------------------------------------------------- dispatch

  /** After the compare chain the host matches the native state but for the flags. */
  lemma ProbedReady(h: Host, h': Host, g: Core)
    requires Ready(h, g) && Probed(h, h')
    ensures Ready(h', g.(flags := h'.core.flags)) && R14(h') == R14(h)
  {
    var g' := g.(flags := h'.core.flags);
    forall q | q in INIT_VIEW.m && Defined(INIT_VIEW, INIT_VIEW.m[q])
      ensures Look(h'.core.x, Phys(q)) == Look(g'.x, Virt(INIT_VIEW.m[q]))
    {
      assert q == P12 || q == P13;
    }
  }

  /** Which unit carries which label. */
  lemma UnitAt(sem: Sem, p: Program, img: seq<Unit>, j: nat)
    requires Compiled(sem, p, img) && j < |img|
    ensures img[j].name.Loc? ==>
      || (j < |p.blocks| && p.blocks[j].entry == img[j].name.addr)
      || (img[j] == StubUnit(img[j].name.addr) && img[j].name.addr in p.callees)
    ensures img[j].name.Ij? ==> exists s :: s in p.sites && img[j] == TableUnit(s)
    ensures img[j].name == CompSyscall ==> img[j] == EXITS[0]
    ensures img[j].name == IjFailed ==> img[j] == EXITS[1]
  {
    hide BlockDoes;
    var nb, nt, nc := |p.blocks|, |p.sites|, |p.callees|;
    if j < nb {
      assert BlockUnit(sem, p.blocks[j], img[j]);
    } else if j < nb + nt {
      assert p.sites[j - nb] in p.sites;
    } else if j < nb + nt + nc {
      assert p.callees[j - nb - nt] in p.callees;
    }
  }

  // ---------------------------------------------------------------- the theorem

  lemma UnitLeaves(sem: Sem, b: Block, u: Unit, h: Host, g: Core)
    requires BlockUnit(sem, b, u) && Ready(h, g) && !MaskedHazard(sem, b.lines, b.entry, g)
    ensures SameBlock(b.lines[|b.lines| - 1].i, OffsetAt(b.lines, |b.lines|, b.entry),
                      RunItems(sem, u.items, h), MaskedBlock(sem, b.lines, b.entry, g))
  {
    hide MaskedBlock, RunItems, SameBlock, OffsetAt, MaskedHazard, Ready, LabelsOf, BlockLabels;
  }

  lemma BlockFacts(sem: Sem, code: map<Word, Line>, p: Program, img: seq<Unit>, dead: iset<Word>, k: nat)
    requires Supports(sem, code, p, img, dead) && k < |p.blocks|
    ensures k < |img| && BlockUnit(sem, p.blocks[k], img[k])
    ensures var b := p.blocks[k]; b.lines != [] && GoodBlock(b.lines) && Decoded(code, b) && Followed(p, k)
    ensures DeadSet(sem, code, dead) && MasksDead(p.blocks[k].lines, p.blocks[k].entry, dead)
  {
    hide BlockUnit, GoodBlock, Decoded, Followed, DeadSet, MasksDead;
    GoodShape(p.blocks[k].lines);
  }

  /** One block of the run: the host leaves it as the processor does, with other flags only where they are dead. */
  lemma BlockLeaves(sem: Sem, code: map<Word, Line>, p: Program, img: seq<Unit>, dead: iset<Word>, k: nat, h: Host,
                    g: Core)
    requires Supports(sem, code, p, img, dead) && k < |p.blocks| && k < |img| && ReadyAt(h, g, p.blocks[k].entry, dead)
    requires NoHazard(sem, code, p, NState(g, p.blocks[k].entry))
    ensures
      var b := p.blocks[k];
      var hr := RunItems(sem, img[k].items, h);
      && b.lines != [] && GoodBlock(b.lines) && Decoded(code, b) && Followed(p, k)
      && BlockExit(code, p, k, hr, NativeBlock(sem, b.lines, b.entry, g), dead)
  {
    hide *;
    BlockFacts(sem, code, p, img, dead, k);
    var b, g' := p.blocks[k], g.(flags := h.core.flags);
    BlockSafe(sem, code, p, k, g);
    ReadyEqual(h, g, b.entry, dead);
    BlockFlags(sem, code, dead, b, g, g');
    UnitLeaves(sem, b, img[k], h, g');
    var hr := RunItems(sem, img[k].items, h);
    ExitCases(sem, code, p, k, hr, g');
    ExitMoves(code, p, k, hr, MaskedBlock(sem, b.lines, b.entry, g'), NativeBlock(sem, b.lines, b.entry, g), dead);
  }

  lemma ReadyEqual(h: Host, g: Core, ip: Word, dead: iset<Word>)
    requires ReadyAt(h, g, ip, dead)
    ensures var g' := g.(flags := h.core.flags); Ready(h, g') && EqualOrDead(g, g', ip, dead)
  {
    hide Ready;
  }

  /** The ways out of a block, host against native. */
  ghost predicate BlockExit(code: map<Word, Line>, p: Program, k: nat, hr: (Host, Option<Label>), gr: (Core, Exit),
                          dead: iset<Word>)
    requires k < |p.blocks|
  {
    var (c, x) := gr;
    && AllBut(hr.0, c) && (hr.0.core.flags == c.flags || !x.Next? || x.ip in dead)
    && ExitLabel(code, p, k, hr, x)
  }

  ghost predicate ExitLabel(code: map<Word, Line>, p: Program, k: nat, hr: (Host, Option<Label>), x: Exit)
    requires k < |p.blocks|
  {
    match hr.1
    case None => x.Next? && k + 1 < |p.blocks| && x.ip == p.blocks[k + 1].entry
    case Some(l) =>
      if l.Loc? then x.Next? && x.ip == l.addr
      else if l.Ij? then x == Indirect(R14(hr.0))
      else l == CompSyscall && x.AtSyscall? && x.ip == R14(hr.0) && x.ip in code && code[x.ip].i.Syscall?
  }

  lemma ExitMoves(code: map<Word, Line>, p: Program, k: nat, hr: (Host, Option<Label>), gr': (Core, Exit),
                  gr: (Core, Exit), dead: iset<Word>)
    requires k < |p.blocks| && Ready(hr.0, gr'.0) && ExitLabel(code, p, k, hr, gr'.1)
    requires gr'.1 == gr.1 && SameButFlags(gr.0, gr'.0) && (gr.0.flags == gr'.0.flags || !gr.1.Next? || gr.1.ip in dead)
    ensures BlockExit(code, p, k, hr, gr, dead)
  {
    hide ExitLabel;
    assert hr.0.core.flags == gr'.0.flags;
    assert gr.0.(flags := hr.0.core.flags) == gr'.0;
  }

  /** The unit control goes to after unit k. */
  function NextUnit(img: seq<Unit>, k: nat, out: Option<Label>): Option<nat> {
    if out.None? then Some(k + 1) else FindFrom(img, out.value, 0)
  }

  lemma RunOnce(sem: Sem, img: seq<Unit>, k: nat, h: Host, fuel: nat) returns (j: nat)
    requires k < |img| && img[k].name != Out && RunImage(sem, img, k, h, fuel).Some?
    ensures var (h', out) := RunItems(sem, img[k].items, h);
      && fuel > 0 && NextUnit(img, k, out) == Some(j) && j < |img|
      && (out.Some? ==> img[j].name == out.value)
      && RunImage(sem, img, k, h, fuel) == RunImage(sem, img, j, h', fuel - 1)
  {
    hide RunItems;
    j := NextUnit(img, k, RunItems(sem, img[k].items, h).1).value;
  }

  /** The run goes on from a unit that carries the native address reached so far. */
  lemma Continue(sem: Sem, code: map<Word, Line>, p: Program, img: seq<Unit>, dead: iset<Word>, j: nat, h: Host,
                 s: NState, u: NState, m: nat, fuel: nat) returns (t: NState, n: nat)
    requires Supports(sem, code, p, img, dead) && j < |img| && img[j].name == Loc(u.ip)
    requires ReadyAt(h, u.c, u.ip, dead) && NoHazard(sem, code, p, s) && Reach(sem, code, s, u, m)
    requires RunImage(sem, img, j, h, fuel).Some?
    ensures Reach(sem, code, s, t, n) && Left(code, p, RunImage(sem, img, j, h, fuel).value, t)
    decreases fuel, 1
  {
    hide *;
    NoHazardLater(sem, code, p, s, u, m);
    var n';
    t, n' := Transparent(sem, code, p, img, dead, j, h, u.c, u.ip, fuel);
    assert NState(u.c, u.ip) == u;
    ReachTrans(sem, code, s, u, t, m, n');
    n := m + n';
  }

  /** An indirect transfer: the dispatch table of its site either finds the target or reports it. */
  lemma Dispatch(sem: Sem, code: map<Word, Line>, p: Program, img: seq<Unit>, dead: iset<Word>, j: nat, h: Host,
                 s0: NState, u: NState, m: nat, fuel: nat) returns (t: NState, n: nat)
    requires Supports(sem, code, p, img, dead) && j < |img| && img[j].name.Ij?
    requires NoHazard(sem, code, p, s0) && Reach(sem, code, s0, u, m) && AllBut(h, u.c) && R14(h) == u.ip
    requires RunImage(sem, img, j, h, fuel).Some?
    ensures Reach(sem, code, s0, t, n) && Left(code, p, RunImage(sem, img, j, h, fuel).value, t)
    decreases fuel, 0
  {
    hide *;
    var s, j', h' := TableRound(sem, code, p, img, dead, j, h, u, fuel);
    if u.ip in s.targets {
      t, n := Continue(sem, code, p, img, dead, j', h', s0, u, m, fuel - 1);
    } else {
      t, n := u, m;
      MissLeaves(sem, code, p, img, j', h', u, s, fuel - 1);
    }
  }

  lemma TableRound(sem: Sem, code: map<Word, Line>, p: Program, img: seq<Unit>, dead: iset<Word>, j: nat, h: Host,
                   u: NState, fuel: nat) returns (s: Site, j': nat, h': Host)
    requires Supports(sem, code, p, img, dead) && j < |img| && img[j].name.Ij? && AllBut(h, u.c) && R14(h) == u.ip
    requires RunImage(sem, img, j, h, fuel).Some?
    ensures fuel > 0 && j' < |img| && s in p.sites
    ensures RunImage(sem, img, j, h, fuel) == RunImage(sem, img, j', h', fuel - 1)
    ensures AllBut(h', u.c) && R14(h') == u.ip
    ensures if u.ip in s.targets then img[j'].name == Loc(u.ip) && ReadyAt(h', u.c, u.ip, dead)
            else img[j'] == EXITS[1] && Look(h'.core.x, Phys(P15)) == s.offset
  {
    hide *;
    TargetsDead(sem, code, p, img, dead);
    s := TableLeaves(sem, p, img, j, h, u.c);
    j' := RunOnce(sem, img, j, h, fuel);
    h' := RunItems(sem, img[j].items, h).0;
    if u.ip in s.targets { ReadyDead(h', u.c, u.ip, dead); }
    UnitAt(sem, p, img, j');
  }

  lemma TargetsDead(sem: Sem, code: map<Word, Line>, p: Program, img: seq<Unit>, dead: iset<Word>)
    requires Supports(sem, code, p, img, dead)
    ensures Compiled(sem, p, img) && forall s, x :: s in p.sites && x in s.targets ==> x in dead
  {
    hide Compiled, Runnable, MasksDead;
  }

  lemma ReadyDead(h: Host, g: Core, ip: Word, dead: iset<Word>)
    requires AllBut(h, g) && ip in dead
    ensures ReadyAt(h, g, ip, dead)
  {
  }

  lemma TableLeaves(sem: Sem, p: Program, img: seq<Unit>, j: nat, h: Host, c: Core) returns (s: Site)
    requires Compiled(sem, p, img) && j < |img| && img[j].name.Ij? && AllBut(h, c)
    ensures s in p.sites && img[j].name != Out
    ensures var (h', out) := RunItems(sem, img[j].items, h);
      && out == (if R14(h) in s.targets then Some(Loc(R14(h))) else Some(IjFailed))
      && AllBut(h', c) && R14(h') == R14(h)
      && (R14(h) !in s.targets ==> Look(h'.core.x, Phys(P15)) == s.offset)
  {
    UnitAt(sem, p, img, j);
    s :| s in p.sites && img[j] == TableUnit(s);
    hide RunItems, Ready, Compiled, Probed, TableItems;
    TableRun(sem, s.offset, s.targets, h);
    var h', g := RunItems(sem, img[j].items, h).0, c.(flags := h.core.flags);
    ProbedReady(h, h', g);
    assert g.(flags := h'.core.flags) == c.(flags := h'.core.flags);
  }

  /**
   * Transparency of a whole run: from a state with all registers home, any run of the image that
   * reaches the exit leaves exactly the registers and memory the processor reaches from there,
   * at the address it reaches, for every supported program, jump table, instruction semantics
   * and eviction order.  `Supports` asks that flags be dead, on that semantics, where a table
   * leads and where an address is masked.
   */
  lemma Transparent(sem: Sem, code: map<Word, Line>, p: Program, img: seq<Unit>, dead: iset<Word>, k: nat, h: Host,
                    g: Core, ip: Word, fuel: nat) returns (t: NState, n: nat)
    requires Supports(sem, code, p, img, dead) && k < |img| && img[k].name == Loc(ip)
    requires ReadyAt(h, g, ip, dead) && NoHazard(sem, code, p, NState(g, ip))
    requires RunImage(sem, img, k, h, fuel).Some?
    ensures Reach(sem, code, NState(g, ip), t, n)
    ensures Left(code, p, RunImage(sem, img, k, h, fuel).value, t)
    decreases fuel, 0
  {
    hide *;
    TargetsDead(sem, code, p, img, dead);
    UnitAt(sem, p, img, k);
    if k >= |p.blocks| || p.blocks[k].entry != ip {
      t, n := NState(g, ip), 0;
      StubLeft(sem, code, p, img, dead, k, h, g, ip, fuel);
      ReachRefl(sem, code, t);
    } else {
      t, n := ThroughBlock(sem, code, p, img, dead, k, h, g, fuel);
    }
  }

  lemma StubLeft(sem: Sem, code: map<Word, Line>, p: Program, img: seq<Unit>, dead: iset<Word>, k: nat, h: Host,
                 g: Core, ip: Word, fuel: nat)
    requires k < |img| && img[k] == StubUnit(ip) && ip in p.callees && ReadyAt(h, g, ip, dead)
    requires RunImage(sem, img, k, h, fuel).Some?
    ensures Left(code, p, RunImage(sem, img, k, h, fuel).value, NState(g, ip))
  {
    hide RunImage, Ready, StubUnit;
    StubLeaves(sem, code, p, img, k, h, g.(flags := h.core.flags), ip, fuel);
    var f := RunImage(sem, img, k, h, fuel).value.core.flags;
    assert g.(flags := h.core.flags).(flags := f) == g.(flags := f);
  }

  lemma ReachRefl(sem: Sem, code: map<Word, Line>, s: NState)
    ensures Reach(sem, code, s, s, 0)
  {
  }

  lemma ThroughBlock(sem: Sem, code: map<Word, Line>, p: Program, img: seq<Unit>, dead: iset<Word>, k: nat, h: Host,
                     g: Core, fuel: nat) returns (t: NState, n: nat)
    requires Supports(sem, code, p, img, dead) && k < |p.blocks| && k < |img| && ReadyAt(h, g, p.blocks[k].entry, dead)
    requires NoHazard(sem, code, p, NState(g, p.blocks[k].entry))
    requires RunImage(sem, img, k, h, fuel).Some?
    ensures Reach(sem, code, NState(g, p.blocks[k].entry), t, n)
    ensures Left(code, p, RunImage(sem, img, k, h, fuel).value, t)
    decreases fuel, 0, 0
  {
    hide *;
    var j, hr, u := BlockRound(sem, code, p, img, dead, k, h, g, fuel);
    var b := p.blocks[k];
    if hr.1.None? || hr.1.value.Loc? {
      t, n := Continue(sem, code, p, img, dead, j, hr.0, NState(g, b.entry), u, Steps(b.lines), fuel - 1);
    } else if hr.1.value.Ij? {
      t, n := Dispatch(sem, code, p, img, dead, j, hr.0, NState(g, b.entry), u, Steps(b.lines), fuel - 1);
    } else {
      t, n := u, Steps(b.lines);
      SyscallLeaves(sem, code, p, img, j, hr.0, u, fuel - 1);
    }
  }

  /** What one block leaves behind: the next unit, the host state and the native state. */
  lemma BlockRound(sem: Sem, code: map<Word, Line>, p: Program, img: seq<Unit>, dead: iset<Word>, k: nat, h: Host,
                   g: Core, fuel: nat) returns (j: nat, hr: (Host, Option<Label>), u: NState)
    requires Supports(sem, code, p, img, dead) && k < |p.blocks| && k < |img| && ReadyAt(h, g, p.blocks[k].entry, dead)
    requires NoHazard(sem, code, p, NState(g, p.blocks[k].entry))
    requires RunImage(sem, img, k, h, fuel).Some?
    ensures fuel > 0 && j < |img| && RunImage(sem, img, k, h, fuel) == RunImage(sem, img, j, hr.0, fuel - 1)
    ensures var b := p.blocks[k];
      b.lines != [] && Reach(sem, code, NState(g, b.entry), u, Steps(b.lines)) && AllBut(hr.0, u.c)
    ensures hr.1.None? || hr.1.value.Loc? ==> img[j].name == Loc(u.ip) && ReadyAt(hr.0, u.c, u.ip, dead)
    ensures hr.1.Some? && hr.1.value.Ij? ==> img[j].name.Ij? && u.ip == R14(hr.0)
    ensures hr.1.Some? && !hr.1.value.Ij? && !hr.1.value.Loc? ==>
      img[j] == EXITS[0] && R14(hr.0) == u.ip && u.ip in code && code[u.ip].i.Syscall?
  {
    hide *;
    TargetsDead(sem, code, p, img, dead);
    BlockNamed(sem, p, img, k);
    var b := p.blocks[k];
    BlockLeaves(sem, code, p, img, dead, k, h, g);
    j := RunOnce(sem, img, k, h, fuel);
    u := Arrival(sem, b, g);
    hr := RunItems(sem, img[k].items, h);
    BlockReach(sem, code, b, g);
    ExitFacts(sem, code, p, b, k, hr, g, dead);
    UnitAt(sem, p, img, j);
    if hr.1.None? || hr.1.value.Loc? { NextIsLoc(sem, p, img, k, j, hr, u); }
  }

  /** The ways out, read at the arrival state. */
  lemma ExitFacts(sem: Sem, code: map<Word, Line>, p: Program, b: Block, k: nat, hr: (Host, Option<Label>), g: Core,
                  dead: iset<Word>)
    requires k < |p.blocks| && b == p.blocks[k] && b.lines != []
    requires BlockExit(code, p, k, hr, NativeBlock(sem, b.lines, b.entry, g), dead)
    ensures var u := Arrival(sem, b, g);
      && AllBut(hr.0, u.c)
      && (hr.1.None? ==> k + 1 < |p.blocks| && u.ip == p.blocks[k + 1].entry && ReadyAt(hr.0, u.c, u.ip, dead))
      && (hr.1.Some? && hr.1.value.Loc? ==> hr.1.value == Loc(u.ip) && ReadyAt(hr.0, u.c, u.ip, dead))
      && (hr.1.Some? && hr.1.value.Ij? ==> u.ip == R14(hr.0))
      && (hr.1.Some? && !hr.1.value.Ij? && !hr.1.value.Loc? ==>
            hr.1.value == CompSyscall && R14(hr.0) == u.ip && u.ip in code && code[u.ip].i.Syscall?)
  {
    hide NativeBlock, AllBut;
  }

  lemma BlockNamed(sem: Sem, p: Program, img: seq<Unit>, k: nat)
    requires Compiled(sem, p, img) && k < |p.blocks|
    ensures k < |img| && p.blocks[k].lines != [] && img[k].name == Loc(p.blocks[k].entry) && img[k].name != Out
  {
    hide BlockDoes;
    assert BlockUnit(sem, p.blocks[k], img[k]);
  }

  lemma ExitCases(sem: Sem, code: map<Word, Line>, p: Program, k: nat, hr: (Host, Option<Label>), g: Core)
    requires k < |p.blocks|
    requires
      var b := p.blocks[k];
      && b.lines != [] && GoodBlock(b.lines) && Decoded(code, b) && Followed(p, k)
      && SameBlock(b.lines[|b.lines| - 1].i, OffsetAt(b.lines, |b.lines|, b.entry), hr,
                   MaskedBlock(sem, b.lines, b.entry, g))
    ensures
      var b := p.blocks[k];
      var (c, x) := MaskedBlock(sem, b.lines, b.entry, g);
      Ready(hr.0, c) && ExitLabel(code, p, k, hr, x)
  {
    hide MaskedBlock, Ready, Decoded, GoodBlock, OffsetAt;
    var b := p.blocks[k];
    SyscallAt(sem, code, b, g);
    match hr.1
    case None =>
    case Some(l) =>
  }

  lemma SyscallAt(sem: Sem, code: map<Word, Line>, b: Block, g: Core)
    requires b.lines != [] && Decoded(code, b)
    ensures var x := MaskedBlock(sem, b.lines, b.entry, g).1; x.AtSyscall? ==> x.ip in code && code[x.ip].i.Syscall?
  {
    hide RunMasked, Straight, Transfer, MaskFor, Clobbered;
    LastLine(code, b);
  }

  lemma NextIsLoc(sem: Sem, p: Program, img: seq<Unit>, k: nat, j: nat, hr: (Host, Option<Label>), u: NState)
    requires Compiled(sem, p, img) && k < |p.blocks| && j < |img| && NextUnit(img, k, hr.1) == Some(j)
    requires hr.1.None? ==> k + 1 < |p.blocks| && u.ip == p.blocks[k + 1].entry
    requires hr.1.Some? ==> hr.1.value == Loc(u.ip) && img[j].name == hr.1.value
    ensures img[j].name == Loc(u.ip)
  {
    if hr.1.None? { BlockNamed(sem, p, img, k + 1); }
  }

  // ---------------------------------------------------------------- the compiler

  /** What is asked of one block of a program, on the processor at hand and with the names as the scan reads them. */
  ghost predicate Sound(sem: Sem, code: map<Word, Line>, p: Program, b: Block) {
    && GoodBlock(b.lines) && Decoded(code, b) && BlockKeeps(sem, FlagLiveness.Classify, b)
    && b.lines != [] && FallsIntoBlock(p, b)
  }

  /** A table target is a block whose first classed line is a definer. */
  ghost predicate DefinedFirst(p: Program, x: Word) {
    exists j :: 0 <= j < |p.blocks| && p.blocks[j].entry == x &&
      FlagLiveness.DefFirst(ClassesOf(FlagLiveness.Classify, p.blocks[j].lines), 0)
  }

  /**
   * From the compiler to the theorem: what `Compile` returns for blocks in emission order, whose
   * instructions keep to their classes and whose table targets define flags first, is supported,
   * with the marks of the scan for the dead addresses.
   */
  lemma CompiledSupports(sem: Sem, code: map<Word, Line>, p: Program, img: seq<Unit>)
    requires Compiled(sem, p, img) && Ordered(p)
    requires forall j :: 0 <= j < |p.blocks| ==> Sound(sem, code, p, p.blocks[j])
    requires forall s, x :: s in p.sites && x in s.targets ==> DefinedFirst(p, x)
    ensures Supports(sem, code, p, img, Marked(FlagLiveness.Classify, p))
  {
    hide Compiled, Ordered, GoodBlock, Decoded, BlockKeeps, FallsIntoBlock, Followed, ClassesOf, Marked, MasksDead,
      DeadSet, FlagLiveness.DefFirst;
    var dead := Marked(FlagLiveness.Classify, p);
    MarkedIsDead(sem, FlagLiveness.Classify, code, p);
    forall j | 0 <= j < |p.blocks|
      ensures Followed(p, j) && MasksDead(p.blocks[j].lines, p.blocks[j].entry, dead)
    {
      assert Sound(sem, code, p, p.blocks[j]);
      OrderFollows(p, j);
      MasksMarked(p, j);
    }
    forall s, x | s in p.sites && x in s.targets ensures x in dead { assert DefinedFirst(p, x); }
  }

  lemma MasksMarked(p: Program, j: nat)
    requires j < |p.blocks|
    ensures MasksDead(p.blocks[j].lines, p.blocks[j].entry, Marked(FlagLiveness.Classify, p))
  {
    hide FlagLiveness.DefFirst, OffsetAt, ClassesOf, Checked, Pending;
    var b := p.blocks[j];
    forall k | 0 <= k < |b.lines| && MaskFor(b.lines, k).Some?
      ensures OffsetAt(b.lines, k, b.entry) in Marked(FlagLiveness.Classify, p)
    {
      assert MarkedAt(FlagLiveness.Classify, p, j, k, OffsetAt(b.lines, k, b.entry));
    }
  }

  /**
   * The emission loop over all blocks, followed by the tables, the stubs and the exits.  The
   * image it returns is one `Transparent` applies to; None where the original raises.
   */
  method Compile(ghost sem: Sem, p: Program) returns (r: Option<seq<Unit>>)
    requires forall j :: 0 <= j < |p.blocks| ==> GoodBlock(p.blocks[j].lines)
    ensures r.Some? ==> Compiled(sem, p, r.value)
    ensures (forall j :: 0 <= j < |p.blocks| ==> EasyLines(p.blocks[j].lines)) ==> r.Some?
  {
    hide BlockDoes, GoodBlock, TableItems, EasyLines;
    var img: seq<Unit> := [];
    var nb, nt, nc := |p.blocks|, |p.sites|, |p.callees|;
    for k := 0 to nb
      invariant |img| == k
      invariant forall j :: 0 <= j < k ==> BlockUnit(sem, p.blocks[j], img[j])
    {
      GoodShape(p.blocks[k].lines);
      var items := TranslateBlock(sem, p.blocks[k].lines, p.blocks[k].entry);
      if items.None? { return None; }
      img := img + [Unit(Loc(p.blocks[k].entry), items.value)];
    }
    for k := 0 to nt
      invariant |img| == nb + k
      invariant forall j :: 0 <= j < nb ==> BlockUnit(sem, p.blocks[j], img[j])
      invariant forall j :: nb <= j < nb + k ==> img[j] == TableUnit(p.sites[j - nb])
    {
      var items := MakeTable(p.sites[k]);
      img := img + [Unit(Ij(p.sites[k].offset), items)];
    }
    for k := 0 to nc
      invariant |img| == nb + nt + k
      invariant forall j :: 0 <= j < nb ==> BlockUnit(sem, p.blocks[j], img[j])
      invariant forall j :: nb <= j < nb + nt ==> img[j] == TableUnit(p.sites[j - nb])
      invariant forall j :: nb + nt <= j < nb + nt + k ==> img[j] == StubUnit(p.callees[j - nb - nt])
    {
      img := img + [StubUnit(p.callees[k])];
    }
    return Some(img + EXITS);
  }
}
