/**
 * Flags across a dispatch table and at masked lines.  The compare chain and the shift pair
 * overwrite the flags, so the code behind runs with other flags than the processor would have;
 * that goes unnoticed where the flags are dead.
 */
module DeadFlags {
  import opened Words
  import opened Machine
  import opened Simulation
  import opened FlagLiveness
  import opened Native
  import opened Masking
  import opened Translator
  import opened Image

  // ---------------------------------------------------------------- processors that keep to the classes

  ghost predicate SameEffect(a: Effect, b: Effect) { a == b.(flags := a.flags) }

  /** The processor keeps to `kind`: only users read the flags, definers overwrite them all. */
  ghost predicate Respects(sem: Sem, kind: Kind) {
    forall op, sh, v, gp, mem, f, f', aux :: OpClass(kind, op) != Use ==>
      && SameEffect(sem.exec(op, sh, v, gp, mem, f, aux), sem.exec(op, sh, v, gp, mem, f', aux))
      && (OpClass(kind, op) == Def ==>
            sem.exec(op, sh, v, gp, mem, f, aux).flags == sem.exec(op, sh, v, gp, mem, f', aux).flags)
  }

  /** Equal in everything but the flags. */
  ghost predicate SameButFlags(a: Core, b: Core) { a == b.(flags := a.flags) }

  // ---------------------------------------------------------------- one instruction

  lemma {:induction false} SumFlags(regs: seq<Reg>, c: Core, f: Flags)
    ensures SumRegs(regs, c.(flags := f)) == SumRegs(regs, c)
  {
    if regs != [] { SumFlags(regs[1..], c, f); }
  }

  lemma ValFlags(a: Arg, c: Core, f: Flags)
    ensures Val(a, c.(flags := f)) == Val(a, c)
  {
    if a.AMem? { SumFlags(a.regs, c, f); }
  }

  lemma {:induction false} ValsFlags(args: seq<Arg>, c: Core, f: Flags)
    ensures Vals(args, c.(flags := f)) == Vals(args, c)
  {
    if args != [] {
      ValFlags(args[0], c, f);
      ValsFlags(args[1..], c, f);
    }
  }

  lemma {:induction false} WritesFlags(args: seq<Arg>, w: seq<Option<Word>>, c: Core, f: Flags)
    ensures ApplyWrites(args, w, c.(flags := f)) == ApplyWrites(args, w, c).(flags := f)
    decreases args
  {
    if args != [] && w != [] {
      var d := if args[0].AReg? && w[0].Some? then Set(c, args[0].r, w[0].value) else c;
      WritesFlags(args[1..], w[1..], d, f);
    }
  }

  lemma {:induction false} WritesKeepFlags(args: seq<Arg>, w: seq<Option<Word>>, c: Core)
    ensures ApplyWrites(args, w, c).flags == c.flags
    decreases args
  {
    if args != [] && w != [] {
      WritesKeepFlags(args[1..], w[1..], if args[0].AReg? && w[0].Some? then Set(c, args[0].r, w[0].value) else c);
    }
  }

  lemma ExecFlags(sem: Sem, kind: Kind, op: Op, sh: seq<Shape>, v: seq<Word>, c: Core, f: Flags)
    requires Respects(sem, kind) && OpClass(kind, op) != Use
    ensures var e, e' := Exec(sem, op, sh, v, c), Exec(sem, op, sh, v, c.(flags := f));
      SameEffect(e, e') && (OpClass(kind, op) == Def ==> e == e')
  {
    hide Store, LoadBytes;
    var e, e' := sem.exec(op, sh, v, c.gp, c.mem, c.flags, c.aux), sem.exec(op, sh, v, c.gp, c.mem, f, c.aux);
    assert SameEffect(e, e') && (OpClass(kind, op) == Def ==> e.flags == e'.flags);
  }

  lemma StepFlags(sem: Sem, kind: Kind, op: Op, args: seq<Arg>, c: Core, f: Flags)
    requires Respects(sem, kind) && OpClass(kind, op) != Use
    ensures var a, b := Step(sem, op, args, c), Step(sem, op, args, c.(flags := f));
      SameButFlags(a, b) && (OpClass(kind, op) == Def ==> a == b)
  {
    hide Exec, Vals, Shapes, ApplyWrites, Respects, OpClass;
    ValsFlags(args, c, f);
    var sh, v := Shapes(args), Vals(args, c);
    ExecFlags(sem, kind, op, sh, v, c, f);
    var e, e' := Exec(sem, op, sh, v, c), Exec(sem, op, sh, v, c.(flags := f));
    var d := c.(gp := e.gp, mem := e.mem, flags := e.flags, aux := e.aux);
    WritesFlags(args, e.writes, d, e'.flags);
    WritesKeepFlags(args, e.writes, d);
  }

  /** Apart from ordinary instructions nothing that goes straight on looks at the flags. */
  lemma FixedFlags(sem: Sem, i: Instr, next: Word, c: Core, f: Flags)
    requires !Control(i) && !i.Normal?
    ensures SameButFlags(Straight(sem, i, next, c), Straight(sem, i, next, c.(flags := f)))
  {
    hide Straight, SameButFlags;
    match i
    case Push(arg) => PushFlags(sem, arg, next, c, f);
    case Pop(arg) => PopFlags(sem, arg, next, c, f);
    case Nop => NopFlags(sem, next, c, f);
    case Leave => LeaveKeeps(sem, next, c, f);
  }

  lemma PushFlags(sem: Sem, arg: Arg, next: Word, c: Core, f: Flags)
    ensures SameButFlags(Straight(sem, Push(arg), next, c), Straight(sem, Push(arg), next, c.(flags := f)))
  {
    hide Store, LoadBytes, Wrap, Address;
    ValFlags(arg, At(c, next), f);
  }

  lemma PopFlags(sem: Sem, arg: Arg, next: Word, c: Core, f: Flags)
    ensures SameButFlags(Straight(sem, Pop(arg), next, c), Straight(sem, Pop(arg), next, c.(flags := f)))
  {
    hide Store, LoadBytes, Wrap, Address;
    ValFlags(arg, At(AddSp(c, StackBytes(arg)), next), f);
  }

  lemma NopFlags(sem: Sem, next: Word, c: Core, f: Flags)
    ensures SameButFlags(Straight(sem, Nop, next, c), Straight(sem, Nop, next, c.(flags := f)))
  {
  }

  lemma LeaveKeeps(sem: Sem, next: Word, c: Core, f: Flags)
    ensures SameButFlags(Straight(sem, Leave, next, c), Straight(sem, Leave, next, c.(flags := f)))
  {
    hide Store, LoadBytes, Wrap;
  }

  /** An instruction that does not read the flags does the same whatever they are. */
  lemma StraightFlags(sem: Sem, kind: Kind, i: Instr, next: Word, c: Core, f: Flags)
    requires Respects(sem, kind) && !Control(i) && ClassOf(kind, i) != Use
    ensures var a, b := Straight(sem, i, next, c), Straight(sem, i, next, c.(flags := f));
      SameButFlags(a, b) && (ClassOf(kind, i) == Def ==> a == b)
  {
    hide Step, Respects, OpClass, SameButFlags;
    if i.Normal? {
      assert At(c.(flags := f), next) == At(c, next).(flags := f);
      StepFlags(sem, kind, i.op, i.args, At(c, next), f);
    } else {
      FixedFlags(sem, i, next, c, f);
    }
  }

  lemma TransferFlags(sem: Sem, i: Instr, next: Word, c: Core, f: Flags)
    requires Control(i) && !i.Syscall? && !i.Branch?
    ensures var a, b := Transfer(sem, i, next, c), Transfer(sem, i, next, c.(flags := f));
      b.0 == a.0.(flags := f) && b.1 == a.1 && a.0.flags == c.flags
  {
    hide Store, LoadBytes, Wrap, Address;
    if !i.Ret? && i.t.ViaMem? { ValFlags(i.t.a, At(c, next), f); }
  }

  // ---------------------------------------------------------------- where flags are dead

  /** The instruction does not read the flags: all it does beside flags is the same whatever they are. */
  ghost predicate Blind(sem: Sem, i: Instr, next: Word) {
    forall c: Core, f: Flags :: SameButFlags(Straight(sem, i, next, c), Straight(sem, i, next, c.(flags := f)))
  }

  /** It leaves nothing of the flags it found. */
  ghost predicate Overwrites(sem: Sem, i: Instr, next: Word) {
    forall c: Core, f: Flags :: Straight(sem, i, next, c) == Straight(sem, i, next, c.(flags := f))
  }

  /** A branch on something else, as JRCXZ. */
  ghost predicate Unasked(sem: Sem, cond: string) {
    forall gp, f, f' :: sem.taken(cond, gp, f) == sem.taken(cond, gp, f')
  }

  /**
   * On every path from an address of `dead` the flags are overwritten, or the run stops, before
   * they are read.  This is about what the instructions there do on `sem`, not about their names.
   */
  ghost predicate DeadSet(sem: Sem, code: map<Word, Line>, dead: iset<Word>) {
    forall a :: a in dead && a in code ==> DeadAt(sem, code[a].i, Wrap(a + code[a].len), dead)
  }

  ghost predicate DeadAt(sem: Sem, i: Instr, next: Word, dead: iset<Word>) {
    if !Control(i) then Blind(sem, i, next) && (Overwrites(sem, i, next) || next in dead)
    else if i.Branch? then Unasked(sem, i.cond) && i.addr in dead && next in dead
    else (i.Call? || i.Jump?) && i.t.Direct? ==> i.t.addr in dead
  }

  ghost predicate EqualOrDead(a: Core, b: Core, ip: Word, dead: iset<Word>) {
    SameButFlags(a, b) && (a.flags == b.flags || ip in dead)
  }

  lemma LineFlags(sem: Sem, code: map<Word, Line>, dead: iset<Word>, ip: Word, a: Core, b: Core)
    requires DeadSet(sem, code, dead) && ip in code && !Control(code[ip].i) && EqualOrDead(a, b, ip, dead)
    ensures var i, next := code[ip].i, Wrap(ip + code[ip].len);
      EqualOrDead(Straight(sem, i, next, a), Straight(sem, i, next, b), next, dead)
  {
    hide Straight, Wrap;
    if a.flags != b.flags {
      assert b == a.(flags := b.flags);
      assert DeadAt(sem, code[ip].i, Wrap(ip + code[ip].len), dead);
    }
  }

  /** The flags may be clobbered before a masked line where they are dead. */
  lemma ClobberFlags(sem: Sem, dead: iset<Word>, ip: Word, mask: Option<Reg>, a: Core, b: Core)
    requires EqualOrDead(a, b, ip, dead) && Tame(mask, a) && (mask.Some? ==> ip in dead)
    ensures Tame(mask, b) && EqualOrDead(a, Clobbered(sem, mask, b), ip, dead)
  {
  }

  /** The addresses at which the code for `lines` masks a register. */
  ghost predicate MasksDead(lines: seq<Line>, entry: Word, dead: iset<Word>) {
    forall k :: 0 <= k < |lines| && MaskFor(lines, k).Some? ==> OffsetAt(lines, k, entry) in dead
  }

  /**
   * The processor's run through the lines of a block, and one with flags clobbered at masked
   * lines, stay equal up to dead flags.
   */
  lemma {:induction false} BodyFlags(sem: Sem, code: map<Word, Line>, dead: iset<Word>, b: Block, k: nat, g: Core,
                                     g': Core)
    requires DeadSet(sem, code, dead) && Decoded(code, b) && k <= |b.lines| && MasksDead(b.lines, b.entry, dead)
    requires (forall j :: 0 <= j < k ==> !Control(b.lines[j].i)) && EqualOrDead(g, g', b.entry, dead)
    requires NativeTame(sem, b.lines, b.entry, g)
    ensures EqualOrDead(RunBody(sem, b.lines, k, b.entry, g), RunMasked(sem, b.lines, k, b.entry, g'),
                        OffsetAt(b.lines, k, b.entry), dead)
    ensures TameBefore(sem, b.lines, k, b.entry, g')
    decreases k
  {
    hide *;
    if k == 0 {
      BodyNone(sem, b, g, g');
    } else {
      var j := k - 1;
      BodyFlags(sem, code, dead, b, j, g, g');
      MaskedLine(sem, code, dead, b, j, g, g');
      TameOne(sem, b.lines, j, b.entry, g');
      LineAt(code, b, j);
      var at := OffsetAt(b.lines, j, b.entry);
      var a := RunBody(sem, b.lines, j, b.entry, g);
      var a' := Clobbered(sem, MaskFor(b.lines, j), RunMasked(sem, b.lines, j, b.entry, g'));
      LineFlags(sem, code, dead, at, a, a');
      OneLineOn(sem, b, j, g, g');
    }
  }

  lemma BodyNone(sem: Sem, b: Block, g: Core, g': Core)
    ensures RunBody(sem, b.lines, 0, b.entry, g) == g && RunMasked(sem, b.lines, 0, b.entry, g') == g'
    ensures TameBefore(sem, b.lines, 0, b.entry, g') && OffsetAt(b.lines, 0, b.entry) == b.entry
  {
  }

  lemma OneLineOn(sem: Sem, b: Block, j: nat, g: Core, g': Core)
    requires j < |b.lines|
    ensures var i, next := b.lines[j].i, OffsetAt(b.lines, j + 1, b.entry);
      && RunBody(sem, b.lines, j + 1, b.entry, g) == Straight(sem, i, next, RunBody(sem, b.lines, j, b.entry, g))
      && RunMasked(sem, b.lines, j + 1, b.entry, g') ==
           Straight(sem, i, next, Clobbered(sem, MaskFor(b.lines, j), RunMasked(sem, b.lines, j, b.entry, g')))
  {
    hide Straight, OffsetAt, MaskFor, Clobbered;
  }

  /** Before line j, with the clobber of its mask. */
  lemma MaskedLine(sem: Sem, code: map<Word, Line>, dead: iset<Word>, b: Block, j: nat, g: Core, g': Core)
    requires j < |b.lines| && MasksDead(b.lines, b.entry, dead) && NativeTame(sem, b.lines, b.entry, g)
    requires EqualOrDead(RunBody(sem, b.lines, j, b.entry, g), RunMasked(sem, b.lines, j, b.entry, g'),
                         OffsetAt(b.lines, j, b.entry), dead)
    ensures Tame(MaskFor(b.lines, j), RunMasked(sem, b.lines, j, b.entry, g'))
    ensures EqualOrDead(RunBody(sem, b.lines, j, b.entry, g),
                        Clobbered(sem, MaskFor(b.lines, j), RunMasked(sem, b.lines, j, b.entry, g')),
                        OffsetAt(b.lines, j, b.entry), dead)
  {
    hide EqualOrDead, Clobbered, RunBody, RunMasked, MaskFor, OffsetAt, Tame;
    ClobberFlags(sem, dead, OffsetAt(b.lines, j, b.entry), MaskFor(b.lines, j), RunBody(sem, b.lines, j, b.entry, g),
                 RunMasked(sem, b.lines, j, b.entry, g'));
  }

  lemma LeaveFlags(sem: Sem, code: map<Word, Line>, dead: iset<Word>, ip: Word, a: Core, b: Core)
    requires DeadSet(sem, code, dead) && ip in code && EqualOrDead(a, b, ip, dead)
    ensures
      var i, next := code[ip].i, Wrap(ip + code[ip].len);
      var (c, x), (c', x') := LeaveBy(sem, i, ip, next, a), LeaveBy(sem, i, ip, next, b);
      x == x' && SameButFlags(c, c') && (c.flags == c'.flags || !x.Next? || x.ip in dead)
  {
    hide Straight, Transfer, Wrap, Blind, Overwrites, Unasked;
    var i, next := code[ip].i, Wrap(ip + code[ip].len);
    if a.flags != b.flags {
      assert DeadAt(sem, i, next, dead);
      assert b == a.(flags := b.flags);
      if !Control(i) {
        LineFlags(sem, code, dead, ip, a, b);
      } else if i.Branch? {
        BranchFlags(sem, i, next, a, b.flags);
      } else if !i.Syscall? {
        TransferFlags(sem, i, next, a, b.flags);
        if !IndirectInstr(i) { DirectGoes(sem, i, next, a); }
      }
    }
  }

  lemma BranchFlags(sem: Sem, i: Instr, next: Word, c: Core, f: Flags)
    requires i.Branch? && Unasked(sem, i.cond)
    ensures var a, b := Transfer(sem, i, next, c), Transfer(sem, i, next, c.(flags := f));
      a == (c, a.1) && b == (c.(flags := f), a.1) && (a.1 == i.addr || a.1 == next)
  {
    assert sem.taken(i.cond, c.gp, c.flags) == sem.taken(i.cond, c.gp, f);
  }

  lemma DirectGoes(sem: Sem, i: Instr, next: Word, c: Core)
    requires (i.Call? || i.Jump?) && i.t.Direct?
    ensures Transfer(sem, i, next, c).1 == i.t.addr
  {
  }

  /**
   * A block entered with other flags and masked on the way leaves as the processor does and, but
   * for flags that are dead there, in the same state.
   */
  lemma BlockFlags(sem: Sem, code: map<Word, Line>, dead: iset<Word>, b: Block, g: Core, g': Core)
    requires DeadSet(sem, code, dead) && Decoded(code, b) && GoodBlock(b.lines) && MasksDead(b.lines, b.entry, dead)
    requires EqualOrDead(g, g', b.entry, dead) && NativeTame(sem, b.lines, b.entry, g)
    ensures
      var (c, x), (c', x') := NativeBlock(sem, b.lines, b.entry, g), MaskedBlock(sem, b.lines, b.entry, g');
      x == x' && SameButFlags(c, c') && (c.flags == c'.flags || !x.Next? || x.ip in dead)
    ensures MaskedHazard(sem, b.lines, b.entry, g') <==> BlockHazard(sem, b.lines, b.entry, g)
  {
    hide *;
    GoodShape(b.lines);
    var n := |b.lines| - 1;
    var at := OffsetAt(b.lines, n, b.entry);
    LastLine(code, b);
    BodyFlags(sem, code, dead, b, n, g, g');
    MaskedLine(sem, code, dead, b, n, g, g');
    TameOne(sem, b.lines, n, b.entry, g');
    var a, m := RunBody(sem, b.lines, n, b.entry, g), RunMasked(sem, b.lines, n, b.entry, g');
    LeaveFlags(sem, code, dead, at, a, Clobbered(sem, MaskFor(b.lines, n), m));
    BlockIs(sem, b.lines, b.entry, g);
    MaskedIs(sem, b.lines, b.entry, g');
    EqualBut(a, m, at, dead);
    HazardFlags(b.lines[n].i, OffsetAt(b.lines, n + 1, b.entry), a, m);
  }

  lemma MaskedIs(sem: Sem, lines: seq<Line>, entry: Word, g: Core)
    requires lines != []
    ensures var n := |lines| - 1; var m := RunMasked(sem, lines, n, entry, g);
      && MaskedBlock(sem, lines, entry, g) ==
           LeaveBy(sem, lines[n].i, OffsetAt(lines, n, entry), OffsetAt(lines, n + 1, entry),
                   Clobbered(sem, MaskFor(lines, n), m))
      && (MaskedHazard(sem, lines, entry, g) <==>
            CallHazard(lines[n].i, OffsetAt(lines, n + 1, entry), m) || !TameBefore(sem, lines, n + 1, entry, g))
  {
    hide RunMasked, LeaveBy, CallHazard, OffsetAt, MaskFor, TameBefore, Clobbered;
  }

  lemma LastLine(code: map<Word, Line>, b: Block)
    requires Decoded(code, b) && b.lines != []
    ensures var n := |b.lines| - 1; var at := OffsetAt(b.lines, n, b.entry);
      at in code && code[at] == b.lines[n] && Wrap(at + b.lines[n].len) == OffsetAt(b.lines, n + 1, b.entry)
  {
    LineAt(code, b, |b.lines| - 1);
  }

  lemma BlockIs(sem: Sem, lines: seq<Line>, entry: Word, g: Core)
    requires lines != []
    ensures var n := |lines| - 1; var a := RunBody(sem, lines, n, entry, g);
      && NativeBlock(sem, lines, entry, g) ==
           LeaveBy(sem, lines[n].i, OffsetAt(lines, n, entry), OffsetAt(lines, n + 1, entry), a)
      && (BlockHazard(sem, lines, entry, g) <==> CallHazard(lines[n].i, OffsetAt(lines, n + 1, entry), a))
  {
    hide RunBody, LeaveBy, CallHazard, OffsetAt;
  }

  lemma EqualBut(a: Core, b: Core, ip: Word, dead: iset<Word>)
    requires EqualOrDead(a, b, ip, dead)
    ensures SameButFlags(a, b)
  {
  }

  lemma HazardFlags(i: Instr, next: Word, a: Core, b: Core)
    requires SameButFlags(a, b)
    ensures CallHazard(i, next, a) <==> CallHazard(i, next, b)
  {
    hide Wrap, Address, Apart;
    assert b == a.(flags := b.flags);
    if i.Call? && i.t.ViaMem? { ValFlags(i.t.a, At(a, next), b.flags); }
  }

  // ---------------------------------------------------------------- the backward scan finds dead flags

  /** The addresses of the lines from which a definer comes first; the scan marks those of `Classify`. */
  ghost function Marked(kind: Kind, p: Program): iset<Word> {
    iset a: Word | IsMarked(kind, p, a)
  }

  ghost predicate IsMarked(kind: Kind, p: Program, a: Word) { exists j, k :: MarkedAt(kind, p, j, k, a) }

  ghost predicate MarkedAt(kind: Kind, p: Program, j: int, k: int, a: Word) {
    && 0 <= j < |p.blocks| && 0 <= k < |p.blocks[j].lines|
    && a == OffsetAt(p.blocks[j].lines, k, p.blocks[j].entry) && DefFirst(ClassesOf(kind, p.blocks[j].lines), k)
  }

  /** An ordinary instruction does with the flags what its class says; nothing is asked of others. */
  ghost predicate Keeps(sem: Sem, kind: Kind, i: Instr, next: Word) {
    i.Normal? ==>
      (OpClass(kind, i.op) != Use ==> Blind(sem, i, next)) && (OpClass(kind, i.op) == Def ==> Overwrites(sem, i, next))
  }

  ghost predicate BlockKeeps(sem: Sem, kind: Kind, b: Block) {
    forall k :: 0 <= k < |b.lines| ==> Keeps(sem, kind, b.lines[k].i, OffsetAt(b.lines, k + 1, b.entry))
  }

  /** Flags are dead at every marked line of a program whose own instructions keep to the classes. */
  lemma MarkedIsDead(sem: Sem, kind: Kind, code: map<Word, Line>, p: Program)
    requires forall j :: 0 <= j < |p.blocks| ==>
      GoodBlock(p.blocks[j].lines) && Decoded(code, p.blocks[j]) && BlockKeeps(sem, kind, p.blocks[j])
    ensures DeadSet(sem, code, Marked(kind, p))
    ensures forall j :: 0 <= j < |p.blocks| ==>
      DefFirst(ClassesOf(kind, p.blocks[j].lines), 0) ==> p.blocks[j].entry in Marked(kind, p)
  {
    hide GoodBlock, DefFirst, ClassOf, ClassesOf, Wrap, DeadAt, Decoded, OffsetAt, BlockKeeps;
    forall a | a in Marked(kind, p) && a in code
      ensures DeadAt(sem, code[a].i, Wrap(a + code[a].len), Marked(kind, p))
    {
      var j, k :| MarkedAt(kind, p, j, k, a);
      MarkedStep(sem, kind, code, p, j, k, a);
    }
    forall j | 0 <= j < |p.blocks| && DefFirst(ClassesOf(kind, p.blocks[j].lines), 0)
      ensures p.blocks[j].entry in Marked(kind, p)
    {
      MarkedEntry(kind, p, j);
    }
  }

  lemma MarkedEntry(kind: Kind, p: Program, j: nat)
    requires j < |p.blocks| && GoodBlock(p.blocks[j].lines) && DefFirst(ClassesOf(kind, p.blocks[j].lines), 0)
    ensures p.blocks[j].entry in Marked(kind, p)
  {
    hide GoodBlock, DefFirst, ClassOf;
    GoodShape(p.blocks[j].lines);
    assert MarkedAt(kind, p, j, 0, p.blocks[j].entry);
  }

  lemma MarkedStep(sem: Sem, kind: Kind, code: map<Word, Line>, p: Program, j: int, k: int, a: Word)
    requires MarkedAt(kind, p, j, k, a) && GoodBlock(p.blocks[j].lines) && Decoded(code, p.blocks[j])
    requires BlockKeeps(sem, kind, p.blocks[j])
    ensures a in code && DeadAt(sem, code[a].i, Wrap(a + code[a].len), Marked(kind, p))
  {
    hide *;
    MarkedIs(kind, p, j, k, a);
    var b := p.blocks[j];
    var cls := ClassesOf(kind, b.lines);
    GoodShape(b.lines);
    LineAt(code, b, k);
    DefFirstStep(cls, k);
    LineKeeps(sem, kind, b, k);
    if cls[k] == Neither {
      DefFirstIn(cls, k + 1);
      MarkedNext(kind, p, j, k);
    }
    ClassDead(sem, kind, b.lines[k].i, OffsetAt(b.lines, k + 1, b.entry), Marked(kind, p), k + 1 < |b.lines|);
  }

  lemma MarkedIs(kind: Kind, p: Program, j: int, k: int, a: Word)
    requires MarkedAt(kind, p, j, k, a)
    ensures 0 <= j < |p.blocks| && 0 <= k < |p.blocks[j].lines|
    ensures a == OffsetAt(p.blocks[j].lines, k, p.blocks[j].entry) && DefFirst(ClassesOf(kind, p.blocks[j].lines), k)
  {
    hide OffsetAt, DefFirst, ClassesOf;
  }

  lemma LineKeeps(sem: Sem, kind: Kind, b: Block, k: nat)
    requires BlockKeeps(sem, kind, b) && k < |b.lines|
    ensures Keeps(sem, kind, b.lines[k].i, OffsetAt(b.lines, k + 1, b.entry))
  {
    hide Keeps, OffsetAt;
  }

  /** What the class of a line says about the flags there. */
  lemma ClassDead(sem: Sem, kind: Kind, i: Instr, next: Word, dead: iset<Word>, inner: bool)
    requires Keeps(sem, kind, i, next) && ClassOf(kind, i) != Use && (inner ==> !Control(i))
    requires ClassOf(kind, i) == Neither ==> next in dead && inner
    ensures DeadAt(sem, i, next, dead)
  {
    hide Blind, Overwrites, OpClass;
    if !i.Normal? && !Control(i) { FixedBlind(sem, i, next); }
  }

  lemma FixedBlind(sem: Sem, i: Instr, next: Word)
    requires !i.Normal? && !Control(i)
    ensures Blind(sem, i, next)
  {
    hide Straight, SameButFlags;
    forall c: Core, f: Flags
      ensures SameButFlags(Straight(sem, i, next, c), Straight(sem, i, next, c.(flags := f)))
    {
      FixedFlags(sem, i, next, c, f);
    }
  }

  /** On a processor that keeps to `kind` every block does. */
  lemma RespectsKeeps(sem: Sem, kind: Kind, b: Block)
    requires Respects(sem, kind)
    ensures BlockKeeps(sem, kind, b)
  {
    hide Respects, Straight, OffsetAt, OpClass, Wrap;
    forall k | 0 <= k < |b.lines| ensures Keeps(sem, kind, b.lines[k].i, OffsetAt(b.lines, k + 1, b.entry)) {
      var i, next := b.lines[k].i, OffsetAt(b.lines, k + 1, b.entry);
      if i.Normal? && OpClass(kind, i.op) != Use {
        forall c: Core, f: Flags
          ensures SameButFlags(Straight(sem, i, next, c), Straight(sem, i, next, c.(flags := f)))
          ensures OpClass(kind, i.op) == Def ==> Straight(sem, i, next, c) == Straight(sem, i, next, c.(flags := f))
        {
          StraightFlags(sem, kind, i, next, c, f);
        }
      }
    }
  }

  lemma LineAt(code: map<Word, Line>, b: Block, k: nat)
    requires Decoded(code, b) && k < |b.lines|
    ensures var at := OffsetAt(b.lines, k, b.entry);
      at in code && code[at] == b.lines[k] && Wrap(at + b.lines[k].len) == OffsetAt(b.lines, k + 1, b.entry)
  {
    hide Wrap;
  }

  lemma MarkedNext(kind: Kind, p: Program, j: nat, k: nat)
    requires j < |p.blocks| && k + 1 < |p.blocks[j].lines| && DefFirst(ClassesOf(kind, p.blocks[j].lines), k + 1)
    ensures OffsetAt(p.blocks[j].lines, k + 1, p.blocks[j].entry) in Marked(kind, p)
  {
    hide DefFirst, OffsetAt;
    assert MarkedAt(kind, p, j, k + 1, OffsetAt(p.blocks[j].lines, k + 1, p.blocks[j].entry));
  }

  lemma DefFirstIn(cls: seq<Class>, i: nat)
    requires i <= |cls| && DefFirst(cls, i)
    ensures i < |cls|
  {
  }

  // ---------------------------------------------------------------- masks inside a block

  /** Equal, or different in flags that a definer of the block overwrites first. */
  ghost predicate UpToMarks(cls: seq<Class>, k: nat, a: Core, b: Core)
    requires k <= |cls|
  {
    SameButFlags(a, b) && (a == b || DefFirst(cls, k))
  }

  lemma MarksStep(sem: Sem, b: Block, k: nat, a: Core, m: Core)
    requires k < |b.lines| && !Control(b.lines[k].i) && BlockKeeps(sem, Classify, b)
    requires UpToMarks(ClassesOf(Classify, b.lines), k, a, m)
    ensures var i, next := b.lines[k].i, OffsetAt(b.lines, k + 1, b.entry);
      UpToMarks(ClassesOf(Classify, b.lines), k + 1, Straight(sem, i, next, a), Straight(sem, i, next, m))
  {
    hide Straight, DefFirst, OffsetAt, OpClass, BlockKeeps;
    if a != m {
      var i, next, cls := b.lines[k].i, OffsetAt(b.lines, k + 1, b.entry), ClassesOf(Classify, b.lines);
      DefFirstStep(cls, k);
      LineKeeps(sem, Classify, b, k);
      if !i.Normal? { FixedBlind(sem, i, next); }
      assert m == a.(flags := m.flags);
      assert Blind(sem, i, next);
    }
  }

  lemma MarkedMask(lines: seq<Line>, k: nat, sem: Sem, a: Core, m: Core)
    requires k < |lines| && UpToMarks(ClassesOf(Classify, lines), k, a, m) && Tame(MaskFor(lines, k), a)
    ensures Tame(MaskFor(lines, k), m)
    ensures UpToMarks(ClassesOf(Classify, lines), k, a, Clobbered(sem, MaskFor(lines, k), m))
    ensures Control(lines[k].i) ==> MaskFor(lines, k) == None
  {
    hide DefFirst, ClassesOf, Checked, Pending;
  }

  lemma {:induction false} MarksRun(sem: Sem, b: Block, k: nat, g: Core)
    requires k <= |b.lines| && BlockKeeps(sem, Classify, b) && NativeTame(sem, b.lines, b.entry, g)
    requires forall j :: 0 <= j < k ==> !Control(b.lines[j].i)
    ensures UpToMarks(ClassesOf(Classify, b.lines), k, RunBody(sem, b.lines, k, b.entry, g),
                      RunMasked(sem, b.lines, k, b.entry, g))
    decreases k
  {
    hide *;
    if k == 0 {
      BodyNone(sem, b, g, g);
      MarksEqual(ClassesOf(Classify, b.lines), g);
    } else {
      var j := k - 1;
      MarksRun(sem, b, j, g);
      var a, m := RunBody(sem, b.lines, j, b.entry, g), RunMasked(sem, b.lines, j, b.entry, g);
      TameAt(sem, b, j, g);
      MarkedMask(b.lines, j, sem, a, m);
      MarksStep(sem, b, j, a, Clobbered(sem, MaskFor(b.lines, j), m));
      OneLineOn(sem, b, j, g, g);
    }
  }

  lemma TameAt(sem: Sem, b: Block, j: nat, g: Core)
    requires NativeTame(sem, b.lines, b.entry, g) && j < |b.lines|
    ensures Tame(MaskFor(b.lines, j), RunBody(sem, b.lines, j, b.entry, g))
  {
    hide Tame, MaskFor, RunBody;
  }

  lemma MarksEqual(cls: seq<Class>, g: Core)
    ensures UpToMarks(cls, 0, g, g)
  {
  }

  /** No definer comes first behind the last line, or at one that transfers control. */
  lemma MarksEnd(b: Block, a: Core, m: Core, k: nat)
    requires k <= |b.lines| && UpToMarks(ClassesOf(Classify, b.lines), k, a, m)
    requires k == |b.lines| || (k + 1 == |b.lines| && Control(b.lines[k].i))
    ensures a == m
  {
    hide Classify;
  }

  /**
   * In a block whose instructions keep to their classes the masks are not noticed at all: with
   * tame registers the masked run ends exactly as the processor does.
   */
  lemma MaskUnseen(sem: Sem, b: Block, g: Core)
    requires GoodBlock(b.lines) && BlockKeeps(sem, Classify, b) && NativeTame(sem, b.lines, b.entry, g)
    ensures b.lines != [] && MaskedBlock(sem, b.lines, b.entry, g) == NativeBlock(sem, b.lines, b.entry, g)
  {
    hide *;
    GoodShape(b.lines);
    var n := |b.lines| - 1;
    MarksRun(sem, b, n, g);
    var a, m := RunBody(sem, b.lines, n, b.entry, g), RunMasked(sem, b.lines, n, b.entry, g);
    TameAt(sem, b, n, g);
    MarkedMask(b.lines, n, sem, a, m);
    BlockIs(sem, b.lines, b.entry, g);
    MaskedIs(sem, b.lines, b.entry, g);
    var m' := Clobbered(sem, MaskFor(b.lines, n), m);
    var i, here, next := b.lines[n].i, OffsetAt(b.lines, n, b.entry), OffsetAt(b.lines, n + 1, b.entry);
    if Control(i) {
      MarksEnd(b, a, m', n);
    } else {
      MarksStep(sem, b, n, a, m');
      MarksEnd(b, Straight(sem, i, next, a), Straight(sem, i, next, m'), n + 1);
      LeavesStraight(sem, i, here, next, a);
      LeavesStraight(sem, i, here, next, m');
    }
  }

  lemma LeavesStraight(sem: Sem, i: Instr, here: Word, next: Word, c: Core)
    requires !Control(i)
    ensures LeaveBy(sem, i, here, next, c) == (Straight(sem, i, next, c), Next(next))
  {
    hide Straight;
  }

  // ---------------------------------------------------------------- and finds all of them

  lemma {:induction false} SameUntil(sem: Sem, kind: Kind, lines: seq<Line>, k: nat, entry: Word, g: Core, f: Flags)
    requires Respects(sem, kind) && k <= |lines|
    requires forall j :: 0 <= j < k ==> !Control(lines[j].i) && ClassOf(kind, lines[j].i) == Neither
    ensures SameButFlags(RunBody(sem, lines, k, entry, g), RunBody(sem, lines, k, entry, g.(flags := f)))
    decreases k
  {
    hide Straight, Respects, ClassOf, Wrap;
    if k > 0 {
      SameUntil(sem, kind, lines, k - 1, entry, g, f);
      var a, b := RunBody(sem, lines, k - 1, entry, g), RunBody(sem, lines, k - 1, entry, g.(flags := f));
      StraightFlags(sem, kind, lines[k - 1].i, OffsetAt(lines, k, entry), a, b.flags);
      assert b == a.(flags := b.flags);
    }
  }

  lemma {:induction false} SameFrom(sem: Sem, lines: seq<Line>, j: nat, k: nat, entry: Word, g: Core, g': Core)
    requires j <= k <= |lines| && RunBody(sem, lines, j, entry, g) == RunBody(sem, lines, j, entry, g')
    ensures RunBody(sem, lines, k, entry, g) == RunBody(sem, lines, k, entry, g')
    decreases k
  {
    hide Straight;
    if j < k { SameFrom(sem, lines, j, k - 1, entry, g, g'); }
  }

  lemma DefinerHides(sem: Sem, kind: Kind, lines: seq<Line>, entry: Word, g: Core, f: Flags)
    requires Respects(sem, kind) && GoodBlock(lines) && DefFirst(ClassesOf(kind, lines), 0)
    ensures lines != [] && NativeBlock(sem, lines, entry, g) == NativeBlock(sem, lines, entry, g.(flags := f))
  {
    hide GoodBlock, RunBody, LeaveBy, NativeBlock, Respects, ClassOf, Control, OffsetAt;
    GoodShape(lines);
    var cls, n, g' := ClassesOf(kind, lines), |lines| - 1, g.(flags := f);
    var j :| 0 <= j < |cls| && cls[j] == Def && forall k :: 0 <= k < j ==> cls[k] == Neither;
    NormalFlows(kind, lines[j].i);
    DefinerAt(sem, kind, lines, j, entry, g, f);
    BlockIs(sem, lines, entry, g);
    BlockIs(sem, lines, entry, g');
    if j < n { SameFrom(sem, lines, j + 1, n, entry, g, g'); } else { LastStraight(sem, lines, entry, g, g'); }
  }

  lemma NormalFlows(kind: Kind, i: Instr)
    requires ClassOf(kind, i) == Def
    ensures !Control(i)
  {
  }

  lemma DefinerAt(sem: Sem, kind: Kind, lines: seq<Line>, j: nat, entry: Word, g: Core, f: Flags)
    requires Respects(sem, kind) && j < |lines| && !Control(lines[j].i) && ClassOf(kind, lines[j].i) == Def
    requires forall k :: 0 <= k < j ==> !Control(lines[k].i) && ClassOf(kind, lines[k].i) == Neither
    ensures RunBody(sem, lines, j + 1, entry, g) == RunBody(sem, lines, j + 1, entry, g.(flags := f))
  {
    hide Straight, Respects, ClassOf, Wrap, Control;
    SameUntil(sem, kind, lines, j, entry, g, f);
    var a, b := RunBody(sem, lines, j, entry, g), RunBody(sem, lines, j, entry, g.(flags := f));
    assert b == a.(flags := b.flags);
    StraightFlags(sem, kind, lines[j].i, OffsetAt(lines, j + 1, entry), a, b.flags);
  }

  lemma LastStraight(sem: Sem, lines: seq<Line>, entry: Word, g: Core, g': Core)
    requires lines != [] && !Control(lines[|lines| - 1].i)
    requires RunBody(sem, lines, |lines|, entry, g) == RunBody(sem, lines, |lines|, entry, g')
    ensures NativeBlock(sem, lines, entry, g) == NativeBlock(sem, lines, entry, g')
  {
    hide Straight, Transfer, OffsetAt;
  }

  /** A processor that lets every reader of the flags leave a trace. */
  function Recorder(kind: Kind): Sem {
    Sem((op, sh, v, gp, mem, f: Flags, aux) =>
          Effect([], gp, mem, if OpClass(kind, op) == Def then Flags(false, 0) else f,
                 if OpClass(kind, op) == Use then 2 * aux + (if f.zf then 1 else 0) else aux),
        (cond: string, gp: map<nat, Word>, f: Flags) => f.zf, (a: Word, b: Word) => 0,
        (w: Word, f: Flags) => f)
  }

  lemma RecorderRespects(kind: Kind)
    ensures Respects(Recorder(kind), kind)
  {
    hide OpClass;
  }

  function After(k: Class, aux: int, f: Flags): (int, Flags) {
    if k == Def then (aux, Flags(false, 0)) else if k == Use then (2 * aux + (if f.zf then 1 else 0), f) else (aux, f)
  }

  lemma RecorderExec(kind: Kind, op: Op, sh: seq<Shape>, v: seq<Word>, c: Core)
    ensures var e := Exec(Recorder(kind), op, sh, v, c); (e.aux, e.flags) == After(OpClass(kind, op), c.aux, c.flags)
  {
    hide Store, LoadBytes;
  }

  lemma {:induction false} WritesKeepAux(args: seq<Arg>, w: seq<Option<Word>>, c: Core)
    ensures ApplyWrites(args, w, c).aux == c.aux
    decreases args
  {
    if args != [] && w != [] {
      WritesKeepAux(args[1..], w[1..], if args[0].AReg? && w[0].Some? then Set(c, args[0].r, w[0].value) else c);
    }
  }

  lemma RecorderLine(kind: Kind, i: Instr, next: Word, c: Core)
    requires !Control(i)
    ensures var d := Straight(Recorder(kind), i, next, c); (d.aux, d.flags) == After(ClassOf(kind, i), c.aux, c.flags)
  {
    hide Store, LoadBytes, Wrap, Address, Exec, ApplyWrites, Vals, Shapes, Recorder, OpClass;
    if i.Normal? {
      var c1 := At(c, next);
      RecorderExec(kind, i.op, Shapes(i.args), Vals(i.args, c1), c1);
      var e := Exec(Recorder(kind), i.op, Shapes(i.args), Vals(i.args, c1), c1);
      var d := c1.(gp := e.gp, mem := e.mem, flags := e.flags, aux := e.aux);
      WritesKeepAux(i.args, e.writes, d);
      WritesKeepFlags(i.args, e.writes, d);
    }
  }

  /** The traces of two runs that began with different flags, the first k lines of which do not define them first. */
  ghost predicate Traced(cls: seq<Class>, k: nat, a: Core, b: Core)
    requires k <= |cls|
  {
    a.aux != b.aux || (a.flags.zf && !b.flags.zf && forall j :: 0 <= j < k ==> cls[j] == Neither)
  }

  lemma ApartStep(cls: seq<Class>, k: nat, a: Core, b: Core, a': Core, b': Core)
    requires k < |cls| && Traced(cls, k, a, b) && !DefFirst(cls, 0)
    requires (a'.aux, a'.flags) == After(cls[k], a.aux, a.flags) && (b'.aux, b'.flags) == After(cls[k], b.aux, b.flags)
    ensures Traced(cls, k + 1, a', b')
  {
  }

  lemma {:induction false} TracesDiffer(kind: Kind, lines: seq<Line>, k: nat, entry: Word, g: Core, g': Core)
    requires k <= |lines| && (forall j :: 0 <= j < k ==> !Control(lines[j].i)) && !DefFirst(ClassesOf(kind, lines), 0)
    requires g.flags.zf && !g'.flags.zf
    ensures Traced(ClassesOf(kind, lines), k, RunBody(Recorder(kind), lines, k, entry, g),
                   RunBody(Recorder(kind), lines, k, entry, g'))
    decreases k
  {
    hide Straight, Recorder, ClassOf, Traced, DefFirst, Wrap;
    if k == 0 {
      NoneYet(ClassesOf(kind, lines), g, g');
    } else {
      TracesDiffer(kind, lines, k - 1, entry, g, g');
      var a, b := RunBody(Recorder(kind), lines, k - 1, entry, g), RunBody(Recorder(kind), lines, k - 1, entry, g');
      var i, next := lines[k - 1].i, OffsetAt(lines, k, entry);
      RecorderLine(kind, i, next, a);
      RecorderLine(kind, i, next, b);
      ApartStep(ClassesOf(kind, lines), k - 1, a, b, Straight(Recorder(kind), i, next, a),
                Straight(Recorder(kind), i, next, b));
    }
  }

  lemma NoneYet(cls: seq<Class>, a: Core, b: Core)
    requires a.flags.zf && !b.flags.zf
    ensures Traced(cls, 0, a, b)
  {
  }

  lemma TracesLeave(kind: Kind, lines: seq<Line>, entry: Word, g: Core, g': Core)
    requires GoodBlock(lines) && !DefFirst(ClassesOf(kind, lines), 0) && g.flags.zf && !g'.flags.zf
    ensures lines != []
    ensures NativeBlock(Recorder(kind), lines, entry, g).0 != NativeBlock(Recorder(kind), lines, entry, g').0
  {
    hide GoodBlock, RunBody, Straight, Recorder, Wrap, DefFirst, Transfer;
    GoodShape(lines);
    var n := |lines| - 1;
    TracesDiffer(kind, lines, n, entry, g, g');
    var a, b := RunBody(Recorder(kind), lines, n, entry, g), RunBody(Recorder(kind), lines, n, entry, g');
    var i, next := lines[n].i, OffsetAt(lines, n + 1, entry);
    if !Control(i) {
      RecorderLine(kind, i, next, a);
      RecorderLine(kind, i, next, b);
      ApartStep(ClassesOf(kind, lines), n, a, b, Straight(Recorder(kind), i, next, a),
                Straight(Recorder(kind), i, next, b));
    } else if !i.Syscall? {
      TransferKeeps(Recorder(kind), i, next, a);
      TransferKeeps(Recorder(kind), i, next, b);
    }
  }

  lemma TransferKeeps(sem: Sem, i: Instr, next: Word, c: Core)
    requires Control(i) && !i.Syscall?
    ensures Transfer(sem, i, next, c).0.flags == c.flags && Transfer(sem, i, next, c).0.aux == c.aux
  {
  }

  /**
   * Entering a block through a table goes unnoticed, on every processor that keeps to `kind` and
   * from every state, if and only if the first line of the block that touches the flags is one
   * that overwrites them unread.
   */
  lemma TableEntryExact(kind: Kind, lines: seq<Line>, entry: Word)
    requires GoodBlock(lines)
    ensures lines != []
    ensures (forall sem: Sem, g: Core, f: Flags :: Respects(sem, kind) ==>
               NativeBlock(sem, lines, entry, g) == NativeBlock(sem, lines, entry, g.(flags := f)))
      <==> DefFirst(ClassesOf(kind, lines), 0)
  {
    GoodShape(lines);
    hide GoodBlock, NativeBlock, Respects, DefFirst, Recorder;
    if DefFirst(ClassesOf(kind, lines), 0) {
      forall sem: Sem, g: Core, f: Flags | Respects(sem, kind)
        ensures NativeBlock(sem, lines, entry, g) == NativeBlock(sem, lines, entry, g.(flags := f))
      {
        DefinerHides(sem, kind, lines, entry, g, f);
      }
    } else {
      var g := Core(map[], map[], map[], Flags(true, 0), 0);
      RecorderRespects(kind);
      TracesLeave(kind, lines, entry, g, g.(flags := Flags(false, 0)));
    }
  }
}
