/**
 * The assembly frame around the translated code: it saves the host's registers, loads the guest
 * context from `pt_regs`, and on exit stores the guest context back and restores the host.
 */
module Wrapper {
  import opened Words
  import opened Machine
  import opened Simulation
  import opened Translator

  /** The ten registers guest and host share one for one. */
  datatype Plain = Plain(ax: Word, bx: Word, cx: Word, dx: Word, si: Word, di: Word, r8: Word, r9: Word, r10: Word,
      r11: Word)

  datatype Regs = Regs(p: Plain, r12: Word, r13: Word, r14: Word, r15: Word, bp: Word)

  /** `struct pt_regs`, the fields the frame touches. */
  datatype PtRegs = PtRegs(p: Plain, r12: Word, r13: Word, r14: Word, r15: Word, bp: Word, sp: Word, ip: Word)

  /**
   * A kernel thread inside the generated function.  The stack grows at the end of `stack`; the
   * cell pushed as number d (counting from one) has address TOP - 8 * d, so RSP is the address
   * of the last cell.  `pt` and `args` are reached through pointers the caller passed.
   */
  class Cpu {
    const TOP: int
    const ptAddr: Word
    const argAddr: Word
    var r: Regs
    var stack: seq<Word>
    var pt: PtRegs
    var args: (Word, Word)

    predicate Fits(n: nat)
      reads this
    {
      8 * (|stack| + n) <= TOP < TWO64
    }

    /** RBP points at the cell number d. */
    predicate Based(d: nat)
      reads this
    {
      0 < d <= |stack| && r.bp == TOP - 8 * d
    }

    method Push(x: Word)
      modifies this`stack
      ensures stack == old(stack) + [x]
    {
      stack := stack + [x];
    }

    method Pop() returns (x: Word)
      requires stack != []
      modifies this`stack
      ensures stack == old(stack)[..|old(stack)| - 1] && x == old(stack)[|old(stack)| - 1]
    {
      x := stack[|stack| - 1];
      stack := stack[..|stack| - 1];
    }

    /** What the frame pushes on entry: slots 0 to 15 and three words for RIP, IJ and the counter. */
    function Frame(x: seq<Word>): (s: seq<Word>)
      requires |x| == 3
      reads this
      ensures |s| == 19
    {
      [r.bp, r.p.bx, r.r12, r.r13, r.r14, r.r15, r.p.di, r.p.si,
       pt.bp, pt.sp, pt.r15, pt.r14, pt.r13, pt.r12, args.1, args.0] + x
    }

    /** Entry: RDI points to `pt_regs`, RSI to the arguments. */
    method Enter(junk: seq<Word>) returns (d: nat)
      requires r.p.di == ptAddr && r.p.si == argAddr && Fits(19) && |junk| == 3
      modifies this`r, this`stack
      ensures d == old(|stack|) + 1 && Based(d)
      ensures stack == old(stack) + old(Frame(junk))
      ensures r == Regs(pt.p, pt.bp, pt.sp, ptAddr, argAddr, TOP - 8 * d)
    {
      d := |stack| + 1;
      SaveHost();
      r := r.(r14 := r.p.di);
      r := r.(r15 := r.p.si);
      LoadPlain();
      PushGuest();
      Push(junk[0]);
      Push(junk[1]);
      Push(junk[2]);
      assert junk == [junk[0], junk[1], junk[2]];
      assert stack == old(stack) + old(Frame(junk));
      r := r.(r13 := Slot(d, 9));
      r := r.(r12 := Slot(d, 8));
    }

    method SaveHost()
      requires Fits(1)
      modifies this`r, this`stack
      ensures r == old(r).(bp := TOP - 8 * old(|stack| + 1))
      ensures stack == old(stack) + old([r.bp, r.p.bx, r.r12, r.r13, r.r14, r.r15, r.p.di, r.p.si])
    {
      Push(r.bp);
      r := r.(bp := TOP - 8 * |stack|);
      Push(r.p.bx);
      Push(r.r12);
      Push(r.r13);
      Push(r.r14);
      Push(r.r15);
      Push(r.p.di);
      Push(r.p.si);
    }

    /** The cell `[RBP - 8 * k]`. */
    function Slot(d: nat, k: nat): Word
      reads this
      requires Based(d) && d - 1 + k < |stack|
    {
      stack[d - 1 + k]
    }

    /** Loads through PT_REG. */
    method LoadPlain()
      requires r.r14 == ptAddr
      modifies this`r
      ensures r == old(r).(p := pt.p)
    {
      r := r.(p := r.p.(bx := pt.p.bx));
      r := r.(p := r.p.(r11 := pt.p.r11));
      r := r.(p := r.p.(r10 := pt.p.r10));
      r := r.(p := r.p.(r9 := pt.p.r9));
      r := r.(p := r.p.(r8 := pt.p.r8));
      r := r.(p := r.p.(ax := pt.p.ax));
      r := r.(p := r.p.(cx := pt.p.cx));
      r := r.(p := r.p.(dx := pt.p.dx));
      r := r.(p := r.p.(si := pt.p.si));
      r := r.(p := r.p.(di := pt.p.di));
    }

    method PushGuest()
      requires r.r14 == ptAddr && r.r15 == argAddr
      modifies this`stack
      ensures stack == old(stack) + [pt.bp, pt.sp, pt.r15, pt.r14, pt.r13, pt.r12, args.1, args.0]
    {
      Push(pt.bp);
      Push(pt.sp);
      Push(pt.r15);
      Push(pt.r14);
      Push(pt.r13);
      Push(pt.r12);
      Push(args.1);
      Push(args.0);
    }

    /** `mov [RBP - 8 * k], x`. */
    method SetSlot(d: nat, k: nat, x: Word)
      requires Based(d) && d - 1 + k < |stack|
      modifies this`stack
      ensures stack == old(stack)[d - 1 + k := x]
    {
      stack := stack[d - 1 + k := x];
    }

    method Drop(n: nat)
      requires n <= |stack|
      modifies this`stack
      ensures stack == old(stack)[..|old(stack)| - n]
    {
      stack := stack[..|stack| - n];
    }

    /** Exit: store the guest context through the saved pointers, then restore the host. */
    method Leave(d: nat)
      requires d >= 2 && Based(d) && |stack| == d + 18 && Slot(d, 6) == ptAddr && Slot(d, 7) == argAddr
      modifies this`r, this`stack, this`pt, this`args
      ensures stack == old(stack)[..d - 2]
      ensures pt == old(PtRegs(r.p, Slot(d, 13), Slot(d, 12), Slot(d, 11), Slot(d, 10), r.r12, r.r13, r.r14))
      ensures args == old((Slot(d, 17), Slot(d, 18)))
      ensures r.bp == old(Slot(d, 0)) && r.p.bx == old(Slot(d, 1)) && r.r12 == old(Slot(d, 2))
      ensures r.r13 == old(Slot(d, 3)) && r.r14 == old(Slot(d, 4)) && r.r15 == old(Slot(d, 5))
    {
      SetSlot(d, 16, r.r14);
      SetSlot(d, 9, r.r13);
      SetSlot(d, 8, r.r12);
      r := r.(r14 := Slot(d, 6));
      r := r.(r15 := Slot(d, 7));
      PopContext(d);
      StorePlain();
      PopHost(d);
    }

    method PopContext(d: nat)
      requires Based(d) && |stack| == d + 18 && r.r14 == ptAddr && r.r15 == argAddr
      modifies this`stack, this`pt, this`args
      ensures stack == old(stack)[..d + 7]
      ensures args == old((Slot(d, 17), Slot(d, 18)))
      ensures pt == old(pt.(ip := Slot(d, 16), r12 := Slot(d, 13), r13 := Slot(d, 12), r14 := Slot(d, 11),
                            r15 := Slot(d, 10), sp := Slot(d, 9), bp := Slot(d, 8)))
    {
      PopArgs(d);
      PopGuest(d);
    }

    /** The first half: the two arguments and the address, then past the FS and GS slots. */
    method PopArgs(d: nat)
      requires Based(d) && |stack| == d + 18 && r.r14 == ptAddr && r.r15 == argAddr
      modifies this`stack, this`pt, this`args
      ensures stack == old(stack)[..d + 13]
      ensures args == old((Slot(d, 17), Slot(d, 18))) && pt == old(pt.(ip := Slot(d, 16)))
    {
      ghost var s0 := stack;
      var x := Pop();
      assert stack == s0[..d + 17];
      args := (args.0, x);
      x := Pop();
      assert stack == s0[..d + 16];
      args := (x, args.1);
      x := Pop();
      assert stack == s0[..d + 15];
      pt := pt.(ip := x);
      Drop(2);
      assert stack == s0[..d + 13];
    }

    /** The second half: the guest registers that own frame slots. */
    method PopGuest(d: nat)
      requires Based(d) && |stack| == d + 13 && r.r14 == ptAddr
      modifies this`stack, this`pt
      ensures stack == old(stack)[..d + 7]
      ensures pt == old(pt.(r12 := Slot(d, 13), r13 := Slot(d, 12), r14 := Slot(d, 11),
                            r15 := Slot(d, 10), sp := Slot(d, 9), bp := Slot(d, 8)))
    {
      ghost var s0 := stack;
      var x := Pop();
      assert stack == s0[..d + 12];
      pt := pt.(r12 := x);
      x := Pop();
      assert stack == s0[..d + 11];
      pt := pt.(r13 := x);
      x := Pop();
      assert stack == s0[..d + 10];
      pt := pt.(r14 := x);
      x := Pop();
      assert stack == s0[..d + 9];
      pt := pt.(r15 := x);
      x := Pop();
      assert stack == s0[..d + 8];
      pt := pt.(sp := x);
      x := Pop();
      assert stack == s0[..d + 7];
      pt := pt.(bp := x);
    }

    method StorePlain()
      requires r.r14 == ptAddr
      modifies this`pt
      ensures pt == old(pt).(p := r.p)
    {
      pt := pt.(p := pt.p.(bx := r.p.bx));
      pt := pt.(p := pt.p.(r11 := r.p.r11));
      pt := pt.(p := pt.p.(r10 := r.p.r10));
      pt := pt.(p := pt.p.(r9 := r.p.r9));
      pt := pt.(p := pt.p.(r8 := r.p.r8));
      pt := pt.(p := pt.p.(ax := r.p.ax));
      pt := pt.(p := pt.p.(cx := r.p.cx));
      pt := pt.(p := pt.p.(dx := r.p.dx));
      pt := pt.(p := pt.p.(si := r.p.si));
      pt := pt.(p := pt.p.(di := r.p.di));
    }

    method PopHost(d: nat)
      requires d >= 2 && |stack| == d + 7 && Based(d)
      modifies this`r, this`stack
      ensures stack == old(stack)[..d - 2]
      ensures r == old(Regs(r.p.(bx := Slot(d, 1)), Slot(d, 2), Slot(d, 3), Slot(d, 4), Slot(d, 5), Slot(d, 0)))
    {
      ghost var s0 := stack;
      Drop(2);
      assert stack == s0[..d + 5];
      var x := Pop();
      assert stack == s0[..d + 4];
      r := r.(r15 := x);
      x := Pop();
      assert stack == s0[..d + 3];
      r := r.(r14 := x);
      x := Pop();
      assert stack == s0[..d + 2];
      r := r.(r13 := x);
      x := Pop();
      assert stack == s0[..d + 1];
      r := r.(r12 := x);
      x := Pop();
      assert stack == s0[..d + 0];
      r := r.(p := r.p.(bx := x));
      x := Pop();
      assert stack == s0[..d - 1];
      r := r.(bp := x);
      var ret := Pop();
      assert stack == s0[..d - 2];
    }

    /** The code in the frame: it works on the registers and on the frame's own cells. */
    method Run(body: Body, d: nat)
      requires Behaves(body) && d >= 1 && Based(d) && |stack| == d + 18
      modifies this`r, this`stack
      ensures Based(d) && |stack| == d + 18 && stack[..d - 1] == old(stack[..d - 1])
      ensures (r, stack[d - 1..]) == body(old(r), old(stack[d - 1..]))
    {
      var (r1, s1) := body(r, stack[d - 1..]);
      stack := stack[..d - 1] + s1;
      r := r1;
    }

    /**
     * The whole call, for any body that leaves RSP, RBP and the slots up to 7 alone: the host gets
     * its callee-saved registers and its stack back, the body starts from the guest context of
     * `pt_regs`, and each field of `pt_regs` gets what the body left in the place it was loaded to.
     */
    method RoundTrip(body: Body, junk: seq<Word>)
      requires r.p.di == ptAddr && r.p.si == argAddr && Fits(19) && |junk| == 3 && stack != [] && Behaves(body)
      modifies this
      ensures stack == old(stack)[..|old(stack)| - 1]
      ensures r.bp == old(r.bp) && r.p.bx == old(r.p.bx) && r.r12 == old(r.r12)
      ensures r.r13 == old(r.r13) && r.r14 == old(r.r14) && r.r15 == old(r.r15)
      ensures
        var start := Regs(old(pt).p, old(pt).bp, old(pt).sp, ptAddr, argAddr, TOP - 8 * (|old(stack)| + 1));
        var (r1, s1) := body(start, old(Frame(junk)));
        pt == PtRegs(r1.p, s1[13], s1[12], s1[11], s1[10], r1.r12, r1.r13, r1.r14) && args.0 == s1[17]
    {
      ghost var s := Frame(junk);
      assert s[0] == r.bp && s[1] == r.p.bx && s[2] == r.r12 && s[3] == r.r13;
      assert s[4] == r.r14 && s[5] == r.r15 && s[6] == ptAddr && s[7] == argAddr;
      var d := Enter(junk);
      assert stack[d - 1..] == s;
      Run(body, d);
      CellsKept(s, stack[d - 1..], stack, d);
      Leave(d);
    }
  }

  type Body = (Regs, seq<Word>) -> (Regs, seq<Word>)

  /** RBP, the saved host registers and the two pointers are left alone. */
  ghost predicate Behaves(body: Body) {
    forall r, s :: |s| == 19 ==>
      var (r1, s1) := body(r, s);
      r1.bp == r.bp && |s1| == 19 && forall k :: 0 <= k < 8 ==> s1[k] == s[k]
  }

  lemma CellsKept(s: seq<Word>, s1: seq<Word>, stack: seq<Word>, d: nat)
    requires d >= 1 && |stack| == d + 18 && s1 == stack[d - 1..] && |s| == 19
    requires forall k :: 0 <= k < 8 ==> s1[k] == s[k]
    ensures forall k {:trigger s1[k]} :: 0 <= k < 19 ==> stack[d - 1 + k] == s1[k]
    ensures forall k {:trigger s[k]} :: 0 <= k < 8 ==> stack[d - 1 + k] == s[k]
  {
    forall k {:trigger s[k]} | 0 <= k < 8 ensures stack[d - 1 + k] == s[k] { assert s1[k] == s[k]; }
  }

  // ---------------------------------------------------------------- the frame as the translator sees it

  function GpOf(p: Plain): map<nat, Word> {
    map[0 := p.ax, 1 := p.bx, 2 := p.cx, 3 := p.dx, 4 := p.si, 5 := p.di, 6 := p.r8, 7 := p.r9, 8 := p.r10, 9 := p.r11]
  }

  function PlainOf(gp: map<nat, Word>): Plain {
    Plain(Look(gp, 0), Look(gp, 1), Look(gp, 2), Look(gp, 3), Look(gp, 4), Look(gp, 5), Look(gp, 6), Look(gp, 7),
          Look(gp, 8), Look(gp, 9))
  }

  /** Physical registers and frame slots as a host state. */
  function HostOf(r: Regs, s: seq<Word>, mem: Memory, flags: Flags, aux: int): Host
    requires |s| == 19
  {
    Host(Core(GpOf(r.p), map[Phys(P12) := r.r12, Phys(P13) := r.r13, Phys(P14) := r.r14, Phys(P15) := r.r15], mem,
              flags, aux),
         map[BP := s[8], SP := s[9], V15 := s[10], V14 := s[11], V13 := s[12], V12 := s[13], GS := s[14], FS := s[15]],
         s[17])
  }

  /** A host state back in physical registers, and in the frame cells that are its slots. */
  function HeldBy(h: Host, bp: Word): Regs {
    var x := h.core.x;
    Regs(PlainOf(h.core.gp), Look(x, Phys(P12)), Look(x, Phys(P13)), Look(x, Phys(P14)), Look(x, Phys(P15)), bp)
  }

  function CellsOf(h: Host, s: seq<Word>): (s1: seq<Word>)
    requires |s| == 19
    ensures |s1| == 19 && s1[..8] == s[..8]
  {
    s[..8] +
    [Look(h.slots, BP), Look(h.slots, SP), Look(h.slots, V15), Look(h.slots, V14), Look(h.slots, V13),
     Look(h.slots, V12), Look(h.slots, GS), Look(h.slots, FS), s[16], h.ij, s[18]]
  }

  /** The guest state `pt_regs` and the segment bases describe. */
  function Guest(pt: PtRegs, args: (Word, Word), mem: Memory, flags: Flags, aux: int): Core {
    Core(GpOf(pt.p),
         map[Virt(SP) := pt.sp, Virt(BP) := pt.bp, Virt(V12) := pt.r12, Virt(V13) := pt.r13, Virt(V14) := pt.r14,
             Virt(V15) := pt.r15, Virt(FS) := args.0, Virt(GS) := args.1],
         mem, flags, aux)
  }

  /** What the exit sequence writes into `pt_regs`. */
  function ExitPt(h: Host): PtRegs {
    PtRegs(PlainOf(h.core.gp), Look(h.slots, V12), Look(h.slots, V13), Look(h.slots, V14), Look(h.slots, V15),
           Look(h.core.x, Phys(P12)), Look(h.core.x, Phys(P13)), Look(h.core.x, Phys(P14)))
  }

  /** The registers and slots right after `Enter`. */
  function EntryHost(pt: PtRegs, args: (Word, Word), ptAddr: Word, argAddr: Word, frame: seq<Word>, mem: Memory,
                     flags: Flags, aux: int): Host
    requires |frame| == 19
  {
    HostOf(Regs(pt.p, pt.bp, pt.sp, ptAddr, argAddr, 0), frame, mem, flags, aux)
  }

  /** The body starts from the entry state of the translated code, and its result is what the exit describes. */
  lemma BodyIsHost(pt: PtRegs, args: (Word, Word), ptAddr: Word, argAddr: Word, bp: Word, frame: seq<Word>, r1: Regs,
                   s1: seq<Word>, mem: Memory, flags: Flags, aux: int)
    requires |frame| == 19 && |s1| == 19
    ensures HostOf(Regs(pt.p, pt.bp, pt.sp, ptAddr, argAddr, bp), frame, mem, flags, aux) ==
            EntryHost(pt, args, ptAddr, argAddr, frame, mem, flags, aux)
    ensures var h := HostOf(r1, s1, mem, flags, aux);
      ExitPt(h) == PtRegs(r1.p, s1[13], s1[12], s1[11], s1[10], r1.r12, r1.r13, r1.r14) && h.ij == s1[17]
  {
    hide GpOf, PlainOf;
    ExitPtOf(r1, s1, mem, flags, aux);
  }

  /** What the exit sequence makes of a host state in its registers and cells. */
  lemma ExitOfHost(h: Host, bp: Word, s: seq<Word>)
    requires |s| == 19
    ensures var r1, s1 := HeldBy(h, bp), CellsOf(h, s);
      ExitPt(h) == PtRegs(r1.p, s1[13], s1[12], s1[11], s1[10], r1.r12, r1.r13, r1.r14) && h.ij == s1[17]
  {
    hide PlainOf;
  }

  lemma PlainTrip(p: Plain)
    ensures PlainOf(GpOf(p)) == p
  {
    var gp := GpOf(p);
    assert Look(gp, 0) == p.ax && Look(gp, 1) == p.bx && Look(gp, 2) == p.cx && Look(gp, 3) == p.dx;
    assert Look(gp, 4) == p.si;
    assert Look(gp, 5) == p.di && Look(gp, 6) == p.r8 && Look(gp, 7) == p.r9 && Look(gp, 8) == p.r10;
    assert Look(gp, 9) == p.r11;
  }

  lemma ExitPtOf(r: Regs, s: seq<Word>, mem: Memory, flags: Flags, aux: int)
    requires |s| == 19
    ensures ExitPt(HostOf(r, s, mem, flags, aux)) == PtRegs(r.p, s[13], s[12], s[11], s[10], r.r12, r.r13, r.r14)
  {
    hide GpOf, PlainOf;
    PlainTrip(r.p);
  }

  /** Entering establishes the relation every block starts from. */
  lemma EntryReady(pt: PtRegs, args: (Word, Word), ptAddr: Word, argAddr: Word, frame: seq<Word>, mem: Memory,
                   flags: Flags, aux: int)
    requires |frame| == 19
    requires frame[8] == pt.bp && frame[9] == pt.sp && frame[10] == pt.r15 && frame[11] == pt.r14
    requires frame[12] == pt.r13 && frame[13] == pt.r12 && frame[14] == args.1 && frame[15] == args.0
    ensures Ready(EntryHost(pt, args, ptAddr, argAddr, frame, mem, flags, aux), Guest(pt, args, mem, flags, aux))
  {
    hide GpOf, InSlots, InRegs;
    EntryRegs(pt, args, ptAddr, argAddr, frame, mem, flags, aux);
    EntrySlots(pt, args, ptAddr, argAddr, frame, mem, flags, aux);
  }

  lemma EntryRegs(pt: PtRegs, args: (Word, Word), ptAddr: Word, argAddr: Word, frame: seq<Word>, mem: Memory,
                  flags: Flags, aux: int)
    requires |frame| == 19
    ensures InRegs(INIT_VIEW, EntryHost(pt, args, ptAddr, argAddr, frame, mem, flags, aux).core,
                   Guest(pt, args, mem, flags, aux))
  {
    hide GpOf;
    var x := EntryHost(pt, args, ptAddr, argAddr, frame, mem, flags, aux).core.x;
    assert Look(x, Phys(P12)) == pt.bp && Look(x, Phys(P13)) == pt.sp;
  }

  lemma EntrySlots(pt: PtRegs, args: (Word, Word), ptAddr: Word, argAddr: Word, frame: seq<Word>, mem: Memory,
                   flags: Flags, aux: int)
    requires |frame| == 19
    requires frame[8] == pt.bp && frame[9] == pt.sp && frame[10] == pt.r15 && frame[11] == pt.r14
    requires frame[12] == pt.r13 && frame[13] == pt.r12 && frame[14] == args.1 && frame[15] == args.0
    ensures InSlots(INIT_VIEW, EntryHost(pt, args, ptAddr, argAddr, frame, mem, flags, aux),
                    Guest(pt, args, mem, flags, aux))
  {
    hide GpOf;
    var h := EntryHost(pt, args, ptAddr, argAddr, frame, mem, flags, aux);
    var g := Guest(pt, args, mem, flags, aux);
    assert Holds(INIT_VIEW.m, P13, SP) && Holds(INIT_VIEW.m, P12, BP);
    forall v | Slotted(v) && (!Resident(INIT_VIEW.m, v) || Segment(v)) ensures Look(h.slots, v) == Look(g.x, Virt(v)) {
      match v case SP => case BP => case V12 => case V13 => case V14 => case V15 => case FS => case GS =>
    }
  }

  /** `pt_regs` holds the registers of `c` and the address `ip`. */
  predicate Describes(pt: PtRegs, c: Core, ip: Word) {
    && pt.p == PlainOf(c.gp) && pt.ip == ip
    && pt.sp == Look(c.x, Virt(SP)) && pt.bp == Look(c.x, Virt(BP))
    && pt.r12 == Look(c.x, Virt(V12)) && pt.r13 == Look(c.x, Virt(V13))
    && pt.r14 == Look(c.x, Virt(V14)) && pt.r15 == Look(c.x, Virt(V15))
  }

  /** Leaving stores each guest register into the field it was loaded from. */
  lemma ExitDescribes(h: Host, g: Core)
    requires Ready(h, g)
    ensures Describes(ExitPt(h), g, R14(h))
  {
    hide PlainOf;
    assert Look(h.core.x, Phys(P13)) == Look(g.x, Virt(INIT_VIEW.m[P13]));
    assert Look(h.core.x, Phys(P12)) == Look(g.x, Virt(INIT_VIEW.m[P12]));
    forall v | Numbered(v) ensures Look(h.slots, v) == Look(g.x, Virt(v)) {
      assert Slotted(v) && !Resident(INIT_VIEW.m, v);
    }
    assert Numbered(V12) && Numbered(V13) && Numbered(V14) && Numbered(V15);
  }

  lemma EntryDescribes(pt: PtRegs, args: (Word, Word), mem: Memory, flags: Flags, aux: int)
    ensures Describes(pt, Guest(pt, args, mem, flags, aux), pt.ip)
  {
    hide GpOf, PlainOf;
    PlainTrip(pt.p);
  }
}
