/**
 * Chained execution: `exe_on_call` runs compiled code from one system call to the next, serving
 * each call itself, as long as the table holds code for the address it arrives at.
 */
module Chain {
  import opened Words
  import opened Machine
  import opened Native
  import opened Translator
  import opened Image
  import opened Transparency
  import opened Wrapper

  /** A thread as the kernel holds it between rounds; `flags` is the saved user RFLAGS. */
  datatype Thread = Thread(pt: PtRegs, flags: Word, origAx: Word, mem: Memory, fs: Word, aux: int)

  /** The system call table: what handler `nr` does to the thread, and what it returns. */
  datatype Sys = Sys(call: (Word, Thread) -> (Word, Thread))

  const ENOSYS: Word := TWO64 - 38
  const LAST_SYSCALL := 436

  /** The guest state the thread resumes in; its GS base is passed as zero. */
  function Resume(a: Thread, f: Flags): NState {
    NState(Guest(a.pt, (a.fs, 0), a.mem, f, a.aux), a.pt.ip)
  }

  /**
   * The reference: SYSCALL executed at native state `t`, with some value left in R11.  The system
   * calls are 0 to 436; any other number gives -38.
   */
  function NativeSyscall(sys: Sys, t: NState, a: Thread, r11: Word): Thread {
    var p, ret := PlainOf(t.c.gp), Wrap(t.ip + 2);
    var at := Thread(PtRegs(p.(cx := ret, r11 := r11, ax := TWO64 - 38),
                            Look(t.c.x, Virt(V12)), Look(t.c.x, Virt(V13)), Look(t.c.x, Virt(V14)),
                            Look(t.c.x, Virt(V15)), Look(t.c.x, Virt(BP)), Look(t.c.x, Virt(SP)), ret),
                     a.flags, p.ax, t.c.mem, a.fs, t.c.aux);
    if p.ax < 437 then
      var (x, b) := sys.call(p.ax, at);
      b.(pt := b.pt.(p := b.pt.p.(ax := x)))
    else at
  }

  /**
   * One native segment, whatever the flags it resumes with: run to a SYSCALL and execute it, or run
   * to where code `p` knows no translation, for the reason `ij`.
   */
  ghost predicate NativeSegment(sem: Sem, code: map<Word, Line>, p: Program, sys: Sys, a: Thread, ij: Word, b: Thread) {
    forall f: Flags :: SegmentFrom(sem, code, p, sys, a, f, ij, b)
  }

  ghost predicate SegmentFrom(sem: Sem, code: map<Word, Line>, p: Program, sys: Sys, a: Thread, f: Flags, ij: Word,
                          b: Thread) {
    exists t: NState, n: nat :: Reach(sem, code, Resume(a, f), t, n) && Arrives(code, p, sys, a, t, ij, b)
  }

  ghost predicate Arrives(code: map<Word, Line>, p: Program, sys: Sys, a: Thread, t: NState, ij: Word, b: Thread) {
    if ij == 0 then t.ip in code && code[t.ip].i.Syscall? && b == NativeSyscall(sys, t, a, a.flags)
    else Missed(p, ij, t.ip) && Describes(b.pt, t.c, t.ip) && b == a.(pt := b.pt, mem := t.c.mem, aux := t.c.aux)
  }

  /** The address is an untranslated callee, or a target the named site does not list. */
  ghost predicate Missed(p: Program, ij: Word, ip: Word) {
    (ij == 1 && ip in p.callees) || exists s :: s in p.sites && s.offset == ij && ip !in s.targets
  }

  // ---------------------------------------------------------------- what the kernel does

  /** The thread after the generated function returned. */
  function Returned(a: Thread, h: Host): Thread {
    a.(pt := ExitPt(h), mem := h.core.mem, aux := h.core.aux)
  }

  /** The `args[0] == normal` branch: step over SYSCALL and serve it from the table. */
  method ServeSyscall(sys: Sys, a: Thread) returns (b: Thread)
    ensures b == Served(sys, a)
  {
    var pt := a.pt;
    pt := pt.(ip := Wrap(pt.ip + 2));
    pt := pt.(p := pt.p.(cx := pt.ip));
    pt := pt.(p := pt.p.(r11 := a.flags));
    var origAx := pt.p.ax;
    pt := pt.(p := pt.p.(ax := ENOSYS));
    b := a.(pt := pt, origAx := origAx);
    if origAx <= LAST_SYSCALL {
      var (x, b') := sys.call(origAx, b);
      b := b'.(pt := b'.pt.(p := b'.pt.p.(ax := x)));
    }
  }

  function Served(sys: Sys, a: Thread): Thread {
    var ip := Wrap(a.pt.ip + 2);
    var at := a.(pt := a.pt.(ip := ip, p := a.pt.p.(cx := ip, r11 := a.flags, ax := ENOSYS)), origAx := a.pt.p.ax);
    if a.pt.p.ax <= LAST_SYSCALL then
      var (x, b) := sys.call(a.pt.p.ax, at);
      b.(pt := b.pt.(p := b.pt.p.(ax := x)))
    else at
  }

  /** The thread at the end of one round of the loop. */
  function Round(sys: Sys, a: Thread, h: Host): Thread {
    if h.ij == 0 then Served(sys, Returned(a, h)) else Returned(a, h)
  }

  /** Entry frame, compiled code and exit, started for the address in `pt_regs`. */
  ghost predicate RoundRuns(sem: Sem, img: seq<Unit>, a: Thread, f: Flags, h: Host) {
    exists k: nat, frame: seq<Word>, ptAddr: Word, argAddr: Word, fuel: nat ::
      && FindFrom(img, Loc(a.pt.ip), 0) == Some(k) && Framed(a, frame)
      && RunImage(sem, img, k, EntryHost(a.pt, (a.fs, 0), ptAddr, argAddr, frame, a.mem, f, a.aux), fuel) == Some(h)
  }

  predicate Framed(a: Thread, s: seq<Word>) {
    && |s| == 19
    && s[8] == a.pt.bp && s[9] == a.pt.sp && s[10] == a.pt.r15 && s[11] == a.pt.r14
    && s[12] == a.pt.r13 && s[13] == a.pt.r12 && s[14] == 0 && s[15] == a.fs
  }

  // ---------------------------------------------------------------- the call of the generated function

  /** The compiled code from unit k, as the code inside the frame of the wrapper; idle if the fuel runs out. */
  function ImageBody(sem: Sem, img: seq<Unit>, k: nat, mem: Memory, f: Flags, aux: int, fuel: nat): Body {
    (r: Regs, s: seq<Word>) =>
      if |s| != 19 then (r, s)
      else match RunImage(sem, img, k, HostOf(r, s, mem, f, aux), fuel)
        case None => (r, s)
        case Some(h) => (HeldBy(h, r.bp), CellsOf(h, s))
  }

  lemma BodyBehaves(sem: Sem, img: seq<Unit>, k: nat, mem: Memory, f: Flags, aux: int, fuel: nat)
    ensures Behaves(ImageBody(sem, img, k, mem, f, aux, fuel))
  {
    hide RunImage, HostOf;
    var body := ImageBody(sem, img, k, mem, f, aux, fuel);
    forall r: Regs, s: seq<Word> | |s| == 19
      ensures var (r1, s1) := body(r, s);
        r1.bp == r.bp && |s1| == 19 && forall j :: 0 <= j < 8 ==> s1[j] == s[j]
    {
      var (r1, s1) := body(r, s);
      assert s1[..8] == s[..8];
    }
  }

  /**
   * The wrapper around the compiled code: a call that returns is a round of the loop.  The kernel
   * gets its registers and its stack back, `pt_regs` and the first argument what the round leaves.
   */
  method CallCode(cpu: Cpu, sem: Sem, img: seq<Unit>, a: Thread, f: Flags, fuel: nat, junk: seq<Word>)
    returns (r: Option<Host>)
    requires cpu.pt == a.pt && cpu.args == (a.fs, 0) && |junk| == 3 && cpu.stack != []
    requires cpu.r.p.di == cpu.ptAddr && cpu.r.p.si == cpu.argAddr && cpu.Fits(19)
    modifies cpu
    ensures r.Some? ==> RoundRuns(sem, img, a, f, r.value)
    ensures r.Some? ==> cpu.pt == Returned(a, r.value).pt && cpu.args.0 == r.value.ij
    ensures r.Some? ==> cpu.stack == old(cpu.stack)[..|old(cpu.stack)| - 1]
    ensures r.Some? ==> cpu.r.bp == old(cpu.r.bp) && cpu.r.p.bx == old(cpu.r.p.bx) && cpu.r.r12 == old(cpu.r.r12)
    ensures r.Some? ==> cpu.r.r13 == old(cpu.r.r13) && cpu.r.r14 == old(cpu.r.r14) && cpu.r.r15 == old(cpu.r.r15)
  {
    hide RunImage, HostOf, EntryHost, ExitPt, PlainOf, HeldBy, CellsOf, FindFrom, Behaves;
    var k := FindFrom(img, Loc(a.pt.ip), 0);
    if k.None? { return None; }
    var frame, bp := cpu.Frame(junk), cpu.TOP - 8 * (|cpu.stack| + 1);
    var start := Regs(a.pt.p, a.pt.bp, a.pt.sp, cpu.ptAddr, cpu.argAddr, bp);
    r := RunImage(sem, img, k.value, HostOf(start, frame, a.mem, f, a.aux), fuel);
    if r.None? { return; }
    BodyIsHost(a.pt, (a.fs, 0), cpu.ptAddr, cpu.argAddr, bp, frame, start, frame, a.mem, f, a.aux);
    ExitOfHost(r.value, bp, frame);
    BodyBehaves(sem, img, k.value, a.mem, f, a.aux, fuel);
    cpu.RoundTrip(ImageBody(sem, img, k.value, a.mem, f, a.aux, fuel), junk);
  }

  // ---------------------------------------------------------------- the rounds follow the native trace

  /** SYSCALL served by the kernel is SYSCALL executed natively, but for what is left in R11. */
  lemma ServedIsNative(sys: Sys, a: Thread, h: Host, t: NState)
    requires AllBut(h, t.c) && R14(h) == t.ip
    ensures Served(sys, Returned(a, h)) == NativeSyscall(sys, t, a, a.flags)
  {
    hide Wrap, PlainOf, ExitPt, Ready;
    ExitDescribes(h, t.c.(flags := h.core.flags));
    SharedRest(h, t.c);
  }

  lemma SharedRest(h: Host, g: Core)
    requires AllBut(h, g)
    ensures h.core.mem == g.mem && h.core.aux == g.aux
  {
  }

  /** One pass of the loop follows the processor to a system call or to a miss, as the IJ slot says. */
  lemma RoundFollows(sem: Sem, code: map<Word, Line>, p: Program, img: seq<Unit>, dead: iset<Word>, sys: Sys,
                     a: Thread, hf: Flags, h: Host)
    requires Supports(sem, code, p, img, dead) && a.pt.ip in dead && forall s :: s in p.sites ==> s.offset > 1
    requires (forall f: Flags :: NoHazard(sem, code, p, Resume(a, f))) && RoundRuns(sem, img, a, hf, h)
    ensures NativeSegment(sem, code, p, sys, a, h.ij, Round(sys, a, h))
  {
    hide Supports, NoHazard, Reach, Arrives, Resume, RoundRuns, Round;
    forall f: Flags ensures SegmentFrom(sem, code, p, sys, a, f, h.ij, Round(sys, a, h)) {
      var t, n := RoundReaches(sem, code, p, img, dead, a, hf, f, h);
      RoundArrives(code, p, sys, a, h, t);
      assert Reach(sem, code, Resume(a, f), t, n);
    }
  }

  lemma RoundReaches(sem: Sem, code: map<Word, Line>, p: Program, img: seq<Unit>, dead: iset<Word>, a: Thread,
                     hf: Flags, f: Flags, h: Host) returns (t: NState, n: nat)
    requires Supports(sem, code, p, img, dead) && a.pt.ip in dead
    requires NoHazard(sem, code, p, Resume(a, f)) && RoundRuns(sem, img, a, hf, h)
    ensures Reach(sem, code, Resume(a, f), t, n) && Left(code, p, h, t)
  {
    hide Supports, NoHazard, RunImage, Reach, Guest, EntryHost, Left, AllBut, ReadyAt, FindFrom;
    var k: nat, frame: seq<Word>, ptAddr: Word, argAddr: Word, fuel: nat :|
      && FindFrom(img, Loc(a.pt.ip), 0) == Some(k) && Framed(a, frame)
      && RunImage(sem, img, k, EntryHost(a.pt, (a.fs, 0), ptAddr, argAddr, frame, a.mem, hf, a.aux), fuel) == Some(h);
    EntryReadyAt(a, ptAddr, argAddr, frame, hf, f, dead);
    var h0 := EntryHost(a.pt, (a.fs, 0), ptAddr, argAddr, frame, a.mem, hf, a.aux);
    t, n := Transparent(sem, code, p, img, dead, k, h0, Guest(a.pt, (a.fs, 0), a.mem, f, a.aux), a.pt.ip, fuel);
  }

  /** The kernel enters with its own flags; they are dead at the address it enters. */
  lemma EntryReadyAt(a: Thread, ptAddr: Word, argAddr: Word, frame: seq<Word>, hf: Flags, f: Flags, dead: iset<Word>)
    requires Framed(a, frame) && a.pt.ip in dead
    ensures ReadyAt(EntryHost(a.pt, (a.fs, 0), ptAddr, argAddr, frame, a.mem, hf, a.aux),
                    Guest(a.pt, (a.fs, 0), a.mem, f, a.aux), a.pt.ip, dead)
  {
    hide Ready, GpOf;
    EntryReady(a.pt, (a.fs, 0), ptAddr, argAddr, frame, a.mem, hf, a.aux);
    assert Guest(a.pt, (a.fs, 0), a.mem, f, a.aux).(flags := hf) == Guest(a.pt, (a.fs, 0), a.mem, hf, a.aux);
  }

  lemma RoundArrives(code: map<Word, Line>, p: Program, sys: Sys, a: Thread, h: Host, t: NState)
    requires Left(code, p, h, t) && forall s :: s in p.sites ==> s.offset > 1
    ensures Arrives(code, p, sys, a, t, h.ij, Round(sys, a, h))
  {
    hide NativeSyscall, Served, Ready, PlainOf, ExitPt;
    SharedRest(h, t.c);
    if h.ij == 0 {
      ServedIsNative(sys, a, h, t);
    } else {
      ExitDescribes(h, t.c.(flags := h.core.flags));
    }
  }

  /**
   * One pass of `exe_on_call`: the call, and the system call it stopped at served from the table.
   * For supported code the thread it returns is what the processor makes of `a` by one segment.
   */
  method OnePass(cpu: Cpu, sem: Sem, c: Code, sys: Sys, a: Thread, f: Flags, fuel: nat, junk: seq<Word>,
                 ghost code: map<Word, Line>, ghost dead: iset<Word>) returns (b: Option<Thread>)
    requires cpu.pt == a.pt && cpu.args == (a.fs, 0) && |junk| == 3 && cpu.stack != []
    requires cpu.r.p.di == cpu.ptAddr && cpu.r.p.si == cpu.argAddr && cpu.Fits(19)
    requires Supports(sem, code, c.p, c.img, dead) && a.pt.ip in dead && forall s :: s in c.p.sites ==> s.offset > 1
    requires forall f': Flags :: NoHazard(sem, code, c.p, Resume(a, f'))
    modifies cpu
    ensures b.Some? ==> NativeSegment(sem, code, c.p, sys, a, cpu.args.0, b.value)
    ensures b.Some? ==> cpu.stack == old(cpu.stack)[..|old(cpu.stack)| - 1]
  {
    hide Supports, NoHazard, NativeSegment, Resume, RoundRuns, Returned, Served;
    var h := CallCode(cpu, sem, c.img, a, f, fuel, junk);
    if h.None? { return None; }
    RoundFollows(sem, code, c.p, c.img, dead, sys, a, f, h.value);
    var t := Returned(a, h.value);
    if h.value.ij == 0 { t := ServeSyscall(sys, t); }
    return Some(t);
  }

  // ---------------------------------------------------------------- the loop

  /** A code table entry in state `normal`. */
  datatype Code = Code(p: Program, img: seq<Unit>)

  ghost predicate GoodTable(sem: Sem, code: map<Word, Line>, table: map<Word, Code>, dead: iset<Word>) {
    forall ip :: ip in table ==>
      && Supports(sem, code, table[ip].p, table[ip].img, dead) && ip in dead
      && forall s :: s in table[ip].p.sites ==> s.offset > 1
  }

  /** One pass of the chaining loop, leaving `ij` in the first argument. */
  ghost predicate LoopStep(sem: Sem, code: map<Word, Line>, table: map<Word, Code>, sys: Sys, a: Thread, ij: Word,
                          b: Thread) {
    && a.pt.ip in table && (forall f: Flags :: NoHazard(sem, code, table[a.pt.ip].p, Resume(a, f)))
    && exists hf: Flags, h: Host :: RoundRuns(sem, table[a.pt.ip].img, a, hf, h) && ij == h.ij && b == Round(sys, a, h)
  }

  /** Passes of the loop with what each leaves in the first argument. */
  ghost predicate Looped(sem: Sem, code: map<Word, Line>, table: map<Word, Code>, sys: Sys, ks: seq<Thread>,
                         ijs: seq<Word>) {
    |ks| == |ijs| + 1 && forall i :: 0 <= i < |ijs| ==> LoopStep(sem, code, table, sys, ks[i], ijs[i], ks[i + 1])
  }

  /** A native run in segments that end for the given reasons. */
  ghost predicate Segments(sem: Sem, code: map<Word, Line>, table: map<Word, Code>, sys: Sys, a: Thread,
                          ijs: seq<Word>, b: Thread)
    decreases |ijs|
  {
    if ijs == [] then a == b
    else
      var n := |ijs| - 1;
      exists m: Thread :: Segments(sem, code, table, sys, a, ijs[..n], m) && m.pt.ip in table &&
        NativeSegment(sem, code, table[m.pt.ip].p, sys, m, ijs[n], b)
  }

  lemma StepIsSegment(sem: Sem, code: map<Word, Line>, table: map<Word, Code>, dead: iset<Word>, sys: Sys, a: Thread,
                      ij: Word, b: Thread)
    requires GoodTable(sem, code, table, dead) && LoopStep(sem, code, table, sys, a, ij, b)
    ensures a.pt.ip in table && NativeSegment(sem, code, table[a.pt.ip].p, sys, a, ij, b)
  {
    hide NoHazard, RoundRuns, Round, NativeSegment, Supports, Resume;
    var hf: Flags, h: Host :| RoundRuns(sem, table[a.pt.ip].img, a, hf, h) && ij == h.ij && b == Round(sys, a, h);
    RoundFollows(sem, code, table[a.pt.ip].p, table[a.pt.ip].img, dead, sys, a, hf, h);
  }

  /**
   * Any number of passes of the loop: the thread it ends with is the one the native program reaches
   * by as many segments, each up to a system call or to a miss, as the first argument says.
   */
  lemma {:induction false} ChainFollows(sem: Sem, code: map<Word, Line>, table: map<Word, Code>, dead: iset<Word>,
                                        sys: Sys, ks: seq<Thread>, ijs: seq<Word>)
    requires GoodTable(sem, code, table, dead) && Looped(sem, code, table, sys, ks, ijs)
    ensures Segments(sem, code, table, sys, ks[0], ijs, ks[|ijs|])
    decreases |ijs|
  {
    hide GoodTable, LoopStep, NativeSegment;
    if ijs != [] {
      var n := |ijs| - 1;
      ChainFollows(sem, code, table, dead, sys, ks[..n + 1], ijs[..n]);
      StepIsSegment(sem, code, table, dead, sys, ks[n], ijs[n], ks[n + 1]);
    }
  }
}
