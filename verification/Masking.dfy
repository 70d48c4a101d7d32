/**
 * Masked addresses: before a line whose flags are dead by the scan, the translator clears the top
 * bit of the address register with a pair of shifts, once per register and block.
 */
module Masking {
  import opened Words
  import opened Machine
  import opened Simulation
  import opened Templates
  import opened Native
  import opened FlagLiveness

  // ---------------------------------------------------------------- classes of instructions

  /** What the ordinary instructions do with the flags, by mnemonic; the scan goes by `Classify`. */
  type Kind = string -> Class

  function OpClass(kind: Kind, op: Op): Class { if op.Other? then kind(op.name) else Neither }

  /** Templates and plain moves touch no flags; a conditional branch reads them. */
  function ClassOf(kind: Kind, i: Instr): Class {
    match i
    case Normal(op, _) => OpClass(kind, op)
    case Branch(_, _) => Use
    case _ => Neither
  }

  function ClassesOf(kind: Kind, lines: seq<Line>): (r: seq<Class>)
    ensures |r| == |lines| && forall k :: 0 <= k < |lines| ==> r[k] == ClassOf(kind, lines[k].i)
  {
    seq(|lines|, k requires 0 <= k < |lines| => ClassOf(kind, lines[k].i))
  }

  // ---------------------------------------------------------------- which register is masked

  /** `get_mem_base`: the only address register of an operand, unless its name ends in P. */
  function BaseOf(a: Arg): Option<Reg> {
    if a.AMem? && |a.regs| == 1 && a.regs[0] !in {Virt(SP), Virt(BP), Virt(IP)} then Some(a.regs[0]) else None
  }

  /** The bases of the operands that have not been checked yet, each once. */
  function ToCheck(args: seq<Arg>, checked: set<Reg>): seq<Reg> {
    if args == [] then []
    else
      var b, rest := BaseOf(args[0]), ToCheck(args[1..], checked);
      if b.Some? && b.value !in checked && b.value !in rest then [b.value] + rest else rest
  }

  function Pending(op: Op, args: seq<Arg>, checked: set<Reg>): seq<Reg> {
    if op == LEA then [] else ToCheck(args, checked)
  }

  /** `checked_regs` after one call of `process_normal`. */
  function CheckedAfter(op: Op, args: seq<Arg>, checked: set<Reg>): set<Reg> {
    (if args != [] && args[0].AReg? && args[0].size == 64 then checked - {args[0].r} else checked) +
    set r | r in Pending(op, args, checked)
  }

  function CheckedOps(ops: seq<GOp>, checked: set<Reg>): set<Reg> {
    if ops == [] then checked
    else CheckedOps(ops[1..], if ops[0].Do? then CheckedAfter(ops[0].op, ops[0].args, checked) else checked)
  }

  /** After a whole line; each micro-operation of a template is one such call. */
  function LineCheck(i: Instr, checked: set<Reg>): set<Reg> {
    if Control(i) then checked else CheckedOps(LineOps(i, 0), checked)
  }

  function Checked(lines: seq<Line>, k: nat): set<Reg>
    requires k <= |lines|
  {
    if k == 0 then {} else LineCheck(lines[k - 1].i, Checked(lines, k - 1))
  }

  /** The pair is emitted where the scan allows it and exactly one register waits for it. */
  function MaskOf(i: Instr, canCheck: bool, checked: set<Reg>): Option<Reg> {
    if i.Normal? && canCheck && |Pending(i.op, i.args, checked)| == 1 then Some(Pending(i.op, i.args, checked)[0])
    else None
  }

  /** The register masked before line k of a block. */
  function MaskFor(lines: seq<Line>, k: nat): Option<Reg>
    requires k < |lines|
  {
    MaskOf(lines[k].i, DefFirst(ClassesOf(Classify, lines), k), Checked(lines, k))
  }

  ghost predicate MaskFits(i: Instr, mask: Option<Reg>) {
    mask.Some? ==> i.Normal? && Maskable(mask.value) && Named(i.args, mask.value)
  }

  /** Only lines the scan allows are masked, on a register of theirs that waits for it, and then it is checked. */
  lemma MaskIsFit(i: Instr, canCheck: bool, checked: set<Reg>)
    requires Supported(i)
    ensures MaskFits(i, MaskOf(i, canCheck, checked))
    ensures MaskOf(i, canCheck, checked).Some? ==> canCheck && !Control(i)
    ensures var mask := MaskOf(i, canCheck, checked);
      mask.Some? ==> mask.value !in checked && mask.value in CheckedAfter(i.op, i.args, checked)
  {
    if MaskOf(i, canCheck, checked).Some? {
      var r := Pending(i.op, i.args, checked)[0];
      assert r in ToCheck(i.args, checked);
      var j := CheckedBase(i.args, checked, r);
      assert Operand(i.args[j]) && r in i.args[j].regs;
      assert r in RegsOf(i.args[j]);
    }
  }

  lemma {:induction false} CheckedBase(args: seq<Arg>, checked: set<Reg>, r: Reg) returns (j: nat)
    requires r in ToCheck(args, checked)
    ensures j < |args| && BaseOf(args[j]) == Some(r) && r !in checked
  {
    if BaseOf(args[0]) == Some(r) && r !in checked {
      j := 0;
    } else {
      j := CheckedBase(args[1..], checked, r);
      j := j + 1;
    }
  }

  // ---------------------------------------------------------------- when a register is masked

  /** The operation accesses memory through r alone, displacement and index aside; RSP, RBP and RIP do not matter. */
  predicate Uses(o: GOp, r: Reg) {
    && o.Do? && o.op != LEA && r != Virt(SP) && r != Virt(BP) && r != Virt(IP)
    && exists j :: 0 <= j < |o.args| && o.args[j].AMem? && o.args[j].regs == [r]
  }

  /** The 64-bit register r is its first operand. */
  predicate Rewrites(o: GOp, r: Reg) { o.Do? && o.args != [] && o.args[0] == AReg(r, 64) }

  /** The micro-operations of the first k lines. */
  function Micro(lines: seq<Line>, k: nat): seq<GOp>
    requires k <= |lines|
  {
    if k == 0 then [] else Micro(lines, k - 1) + if Control(lines[k - 1].i) then [] else LineOps(lines[k - 1].i, 0)
  }

  lemma {:induction false} ToCheckIs(args: seq<Arg>, checked: set<Reg>, r: Reg)
    ensures r in ToCheck(args, checked) <==> r !in checked && exists j :: 0 <= j < |args| && BaseOf(args[j]) == Some(r)
    ensures forall i, j :: 0 <= i < j < |ToCheck(args, checked)| ==>
      ToCheck(args, checked)[i] != ToCheck(args, checked)[j]
  {
    hide BaseOf;
    if args != [] {
      ToCheckIs(args[1..], checked, r);
      if r !in checked && exists j :: 0 <= j < |args| && BaseOf(args[j]) == Some(r) {
        var j :| 0 <= j < |args| && BaseOf(args[j]) == Some(r);
        if j > 0 { assert args[1..][j - 1] == args[j]; }
      }
    }
  }

  lemma PendingIs(op: Op, args: seq<Arg>, checked: set<Reg>, r: Reg)
    ensures r in Pending(op, args, checked) <==> r !in checked && Uses(Do(op, args), r)
  {
    hide ToCheck;
    ToCheckIs(args, checked, r);
    if Uses(Do(op, args), r) {
      var j :| 0 <= j < |args| && args[j].AMem? && args[j].regs == [r];
      assert BaseOf(args[j]) == Some(r);
    }
    if exists j :: 0 <= j < |args| && BaseOf(args[j]) == Some(r) {
      var j :| 0 <= j < |args| && BaseOf(args[j]) == Some(r);
      assert args[j].regs == [r];
    }
  }

  /** One operation: an access checks r if it was not checked, and otherwise a rewriting makes it unchecked. */
  lemma CheckStep(o: GOp, checked: set<Reg>, r: Reg)
    ensures var after := CheckedOps([o], checked);
      r in after <==> if r in checked then !Rewrites(o, r) else Uses(o, r)
  {
    hide Pending, Uses;
    if o.Do? { PendingIs(o.op, o.args, checked, r); }
    assert [o][1..] == [];
    assert CheckedOps([o][1..], if o.Do? then CheckedAfter(o.op, o.args, checked) else checked) ==
           CheckedOps([o], checked);
    NotDo(o, r);
  }

  lemma NotDo(o: GOp, r: Reg)
    ensures !o.Do? ==> !Uses(o, r)
  {
  }

  lemma {:induction false} CheckedAppend(a: seq<GOp>, b: seq<GOp>, checked: set<Reg>)
    ensures CheckedOps(a + b, checked) == CheckedOps(b, CheckedOps(a, checked))
    decreases |a|
  {
    hide CheckedAfter;
    if a == [] {
      assert a + b == b;
    } else {
      assert (a + b)[0] == a[0] && (a + b)[1..] == a[1..] + b;
      CheckedAppend(a[1..], b, if a[0].Do? then CheckedAfter(a[0].op, a[0].args, checked) else checked);
    }
  }

  lemma {:induction false} CheckedMicro(lines: seq<Line>, k: nat)
    requires k <= |lines|
    ensures Checked(lines, k) == CheckedOps(Micro(lines, k), {})
    decreases k
  {
    hide LineOps, CheckedOps, Control, Checked, Micro, LineCheck;
    CheckedUnfold(lines, k);
    if k > 0 {
      CheckedMicro(lines, k - 1);
      var more := if Control(lines[k - 1].i) then [] else LineOps(lines[k - 1].i, 0);
      CheckedAppend(Micro(lines, k - 1), more, {});
    }
  }

  lemma CheckedUnfold(lines: seq<Line>, k: nat)
    requires k <= |lines|
    ensures k == 0 ==> Checked(lines, k) == {} == CheckedOps(Micro(lines, k), {})
    ensures k > 0 ==>
      var i := lines[k - 1].i; var more := if Control(i) then [] else LineOps(i, 0);
      && Checked(lines, k) == CheckedOps(more, Checked(lines, k - 1)) && Micro(lines, k) == Micro(lines, k - 1) + more
  {
    hide LineOps, CheckedAfter;
  }

  /** Operations behind m that both use and rewrite r. */
  function Turns(ops: seq<GOp>, r: Reg, m: int): set<nat> {
    set i: nat | i < |ops| && m < i && Turn(ops[i], r)
  }

  predicate Turn(o: GOp, r: Reg) { Uses(o, r) && Rewrites(o, r) }

  /** The last operation that uses r or rewrites it, but not both; -1 if there is none. */
  ghost predicate LastPlain(ops: seq<GOp>, r: Reg, m: int) {
    && -1 <= m < |ops| && (m >= 0 ==> Uses(ops[m], r) != Rewrites(ops[m], r))
    && forall i :: m < i < |ops| && i >= 0 ==> Uses(ops[i], r) == Rewrites(ops[i], r)
  }

  lemma {:induction false} SomePlain(ops: seq<GOp>, r: Reg) returns (m: int)
    ensures LastPlain(ops, r, m)
    decreases |ops|
  {
    hide Uses, Rewrites;
    if ops == [] {
      m := -1;
    } else {
      var n := |ops| - 1;
      if Uses(ops[n], r) != Rewrites(ops[n], r) {
        m := n;
      } else {
        m := SomePlain(ops[..n], r);
        forall i | m < i < |ops| && i >= 0 ensures Uses(ops[i], r) == Rewrites(ops[i], r) {
          if i < n { assert ops[..n][i] == ops[i]; }
        }
      }
    }
  }

  /**
   * When a register is checked.  An operation that only uses it checks it, one that only rewrites
   * it does the opposite, and one that does both, as MOV RAX, [RAX], turns one into the other:
   * the source discards the destination before it adds what was unchecked before.
   */
  lemma {:induction false} CheckedExact(ops: seq<GOp>, r: Reg, m: int)
    requires LastPlain(ops, r, m)
    ensures r in CheckedOps(ops, {}) <==> (m >= 0 && Uses(ops[m], r)) != (|Turns(ops, r, m)| % 2 == 1)
    decreases |ops|
  {
    hide Uses, Rewrites, CheckedOps, Turns;
    TurnsStep(ops, r, m);
    if ops == [] {
      NoneChecked();
    } else {
      var n := |ops| - 1;
      assert ops == ops[..n] + [ops[n]];
      CheckedAppend(ops[..n], [ops[n]], {});
      CheckStep(ops[n], CheckedOps(ops[..n], {}), r);
      if m < n { CheckedExact(ops[..n], r, m); }
    }
  }

  lemma NoneChecked()
    ensures CheckedOps([], {}) == {}
  {
  }

  lemma TurnsStep(ops: seq<GOp>, r: Reg, m: int)
    requires LastPlain(ops, r, m)
    ensures m == |ops| - 1 ==> Turns(ops, r, m) == {}
    ensures m < |ops| - 1 ==>
      var n := |ops| - 1; var front := ops[..n];
      && LastPlain(front, r, m) && (m >= 0 ==> front[m] == ops[m])
      && |Turns(ops, r, m)| == |Turns(front, r, m)| + (if Uses(ops[n], r) then 1 else 0)
  {
    hide Uses, Rewrites, Turn, Turns, LastPlain;
    PlainHere(ops, r, m);
    if m < |ops| - 1 {
      var n := |ops| - 1;
      TurnsMore(ops, r, m, n);
      BothOrNone(ops[n], r);
      PlainFront(ops, r, m, n);
    }
  }

  lemma PlainHere(ops: seq<GOp>, r: Reg, m: int)
    requires LastPlain(ops, r, m)
    ensures -1 <= m < |ops| && (m == |ops| - 1 ==> Turns(ops, r, m) == {})
    ensures m < |ops| - 1 ==> Uses(ops[|ops| - 1], r) == Rewrites(ops[|ops| - 1], r)
  {
    hide Uses, Rewrites, Turn;
  }

  lemma PlainFront(ops: seq<GOp>, r: Reg, m: int, n: nat)
    requires LastPlain(ops, r, m) && n + 1 == |ops| && m < n
    ensures LastPlain(ops[..n], r, m)
  {
    hide Uses, Rewrites;
    forall i | m < i < n && i >= 0 ensures Uses(ops[..n][i], r) == Rewrites(ops[..n][i], r) {
      assert ops[..n][i] == ops[i];
    }
  }

  lemma TurnsMore(ops: seq<GOp>, r: Reg, m: int, n: nat)
    requires n + 1 == |ops| && m < n
    ensures |Turns(ops, r, m)| == |Turns(ops[..n], r, m)| + (if Turn(ops[n], r) then 1 else 0)
  {
    hide Turn, Turns;
    var a, b := Turns(ops, r, m), Turns(ops[..n], r, m);
    forall i: nat ensures i in a <==> i in b || (i == n && Turn(ops[n], r)) {
      TurnIn(ops, r, m, i);
      TurnIn(ops[..n], r, m, i);
    }
    TurnIn(ops[..n], r, m, n);
    assert a == b + if Turn(ops[n], r) then {n} else {};
  }

  lemma TurnIn(ops: seq<GOp>, r: Reg, m: int, i: nat)
    ensures i in Turns(ops, r, m) <==> i < |ops| && m < i && Turn(ops[i], r)
  {
    hide Turn;
  }

  lemma BothOrNone(o: GOp, r: Reg)
    ensures Uses(o, r) == Rewrites(o, r) ==> (Turn(o, r) <==> Uses(o, r))
  {
    hide Uses, Rewrites;
  }

  /** Without such operations: r is checked if and only if it was used and not rewritten since. */
  lemma CheckedSince(ops: seq<GOp>, r: Reg)
    requires forall i :: 0 <= i < |ops| ==> !(Uses(ops[i], r) && Rewrites(ops[i], r))
    ensures r in CheckedOps(ops, {}) <==>
      exists j :: 0 <= j < |ops| && Uses(ops[j], r) && forall i :: j < i < |ops| ==> !Rewrites(ops[i], r)
  {
    hide Uses, Rewrites, CheckedOps;
    var m := SomePlain(ops, r);
    CheckedExact(ops, r, m);
    assert Turns(ops, r, m) == {};
  }

  /** With them not: loading RAX through RAX twice leaves it unchecked, though each load used it. */
  lemma LoadedTwice()
    ensures var load := Do(MOV, [AReg(Gp(0), 64), AMem([Gp(0)], 0, None, 64)]);
      && Uses(load, Gp(0)) && Gp(0) in CheckedOps([load], {}) && Gp(0) !in CheckedOps([load, load], {})
  {
    var load := Do(MOV, [AReg(Gp(0), 64), AMem([Gp(0)], 0, None, 64)]);
    assert load.args[1].regs == [Gp(0)];
    assert Uses(load, Gp(0)) && Rewrites(load, Gp(0));
    hide Uses, CheckedOps;
    CheckStep(load, {}, Gp(0));
    CheckStep(load, CheckedOps([load], {}), Gp(0));
    CheckedAppend([load], [load], {});
    assert [load] + [load] == [load, load];
  }

  /**
   * Which lines are masked: an ordinary line the scan marks, on the one register it uses that is
   * not checked by the operations before it.
   */
  lemma MaskedIff(lines: seq<Line>, k: nat, r: Reg)
    requires k < |lines|
    ensures MaskFor(lines, k) == Some(r) <==>
      var i := lines[k].i;
      && i.Normal? && DefFirst(ClassesOf(Classify, lines), k)
      && forall q: Reg :: Uses(Do(i.op, i.args), q) && q !in CheckedOps(Micro(lines, k), {}) <==> q == r
  {
    hide Pending, Uses, Micro, CheckedOps, DefFirst, ClassesOf, Checked;
    CheckedMicro(lines, k);
    var i := lines[k].i;
    if i.Normal? {
      var p := Pending(i.op, i.args, Checked(lines, k));
      forall q: Reg ensures q in p <==> Uses(Do(i.op, i.args), q) && q !in CheckedOps(Micro(lines, k), {}) {
        PendingIs(i.op, i.args, Checked(lines, k), q);
      }
      PendingOnce(i.op, i.args, Checked(lines, k));
      if forall q: Reg :: q in p <==> q == r { OnlyOne(p, r); }
    }
  }

  function Load(to: nat, base: nat, d: Word): Line {
    Line(Normal(MOV, [AReg(Gp(to), 64), AMem([Gp(base)], d, None, 64)]), 4)
  }

  /** MOV RCX, [RAX]; MOV RAX, [RBX + 8]; MOV RDX, [RAX]; TEST: the pointer loaded into RAX is masked again. */
  lemma MaskedAgain()
    ensures var lines := [Load(2, 0, 0), Load(0, 1, 8), Load(3, 0, 0), Line(Normal(Other("TEST"), []), 3)];
      MaskFor(lines, 0) == Some(Gp(0)) && MaskFor(lines, 2) == Some(Gp(0))
  {
    var lines := [Load(2, 0, 0), Load(0, 1, 8), Load(3, 0, 0), Line(Normal(Other("TEST"), []), 3)];
    AllMarked(lines);
    var o := Do(MOV, Load(2, 0, 0).i.args);
    forall q: Reg ensures Uses(o, q) <==> q == Gp(0) { OneBase(2, 0, 0, q); }
    forall q: Reg ensures Uses(Do(MOV, Load(3, 0, 0).i.args), q) <==> q == Gp(0) { OneBase(3, 0, 0, q); }
    OneBase(0, 1, 8, Gp(0));
    MicroNone(lines);
    MicroStep(lines, 1);
    hide Uses, CheckedOps, DefFirst, Micro, MaskFor, Classify;
    CheckStep(Do(MOV, lines[1].i.args), CheckedOps(Micro(lines, 1), {}), Gp(0));
    MaskedIff(lines, 0, Gp(0));
    MaskedIff(lines, 2, Gp(0));
  }

  lemma OneBase(to: nat, base: nat, d: Word, q: Reg)
    ensures Uses(Do(MOV, Load(to, base, d).i.args), q) <==> q == Gp(base)
    ensures Rewrites(Do(MOV, Load(to, base, d).i.args), q) <==> q == Gp(to)
  {
    var args := Load(to, base, d).i.args;
    assert args[1].AMem? && args[1].regs == [Gp(base)] && !args[0].AMem?;
  }

  /** One ordinary line more. */
  lemma MicroStep(lines: seq<Line>, k: nat)
    requires k < |lines| && lines[k].i.Normal?
    ensures var o := Do(lines[k].i.op, lines[k].i.args);
      CheckedOps(Micro(lines, k + 1), {}) == CheckedOps([o], CheckedOps(Micro(lines, k), {}))
  {
    hide CheckedAfter;
    var a, o, c := Micro(lines, k), Do(lines[k].i.op, lines[k].i.args), CheckedOps(Micro(lines, k), {});
    CheckedAppend(a, [SetIp(0), o], {});
    assert [SetIp(0), o][1..] == [o];
    assert CheckedOps([SetIp(0), o], c) == CheckedOps([SetIp(0), o][1..], c);
  }

  lemma MicroNone(lines: seq<Line>)
    ensures CheckedOps(Micro(lines, 0), {}) == {}
  {
  }

  lemma AllMarked(lines: seq<Line>)
    requires |lines| == 4 && lines[3].i == Normal(Other("TEST"), [])
    requires forall k :: 0 <= k < 3 ==> lines[k].i.Normal? && lines[k].i.op == MOV
    ensures DefFirst(ClassesOf(Classify, lines), 0) && DefFirst(ClassesOf(Classify, lines), 2)
  {
    Definers();
    hide Classify;
    assert ClassesOf(Classify, lines)[3] == Def;
  }

  lemma OnlyOne(p: seq<Reg>, r: Reg)
    requires (forall q: Reg :: q in p <==> q == r) && forall i, j :: 0 <= i < j < |p| ==> p[i] != p[j]
    ensures p == [r]
  {
    AllSame(p, r);
    assert r in p;
  }

  lemma AllSame(p: seq<Reg>, r: Reg)
    requires forall q: Reg :: q in p ==> q == r
    ensures (forall i, j :: 0 <= i < j < |p| ==> p[i] != p[j]) ==> |p| <= 1
    ensures p != [] ==> p[0] == r
  {
    forall i | 0 <= i < |p| ensures p[i] == r { assert p[i] in p; }
    if |p| > 1 { assert p[0] == p[1]; }
  }

  lemma PendingOnce(op: Op, args: seq<Arg>, checked: set<Reg>)
    ensures var p := Pending(op, args, checked); forall i, j :: 0 <= i < j < |p| ==> p[i] != p[j]
  {
    hide ToCheck;
    ToCheckIs(args, checked, Gp(0));
  }

  // ---------------------------------------------------------------- what the guest sees of it

  /** The state before line k when the flags are clobbered before each masked line. */
  function RunMasked(sem: Sem, lines: seq<Line>, k: nat, entry: Word, c: Core): Core
    requires k <= |lines|
  {
    if k == 0 then c
    else
      Straight(sem, lines[k - 1].i, OffsetAt(lines, k, entry),
               Clobbered(sem, MaskFor(lines, k - 1), RunMasked(sem, lines, k - 1, entry, c)))
  }

  /** Every masked register is tame before its line. */
  ghost predicate TameBefore(sem: Sem, lines: seq<Line>, k: nat, entry: Word, c: Core)
    requires k <= |lines|
  {
    forall j :: 0 <= j < k ==> Tame(MaskFor(lines, j), RunMasked(sem, lines, j, entry, c))
  }

  function MaskedBlock(sem: Sem, lines: seq<Line>, entry: Word, c: Core): (Core, Exit)
    requires lines != []
  {
    var n := |lines| - 1;
    LeaveBy(sem, lines[n].i, OffsetAt(lines, n, entry), OffsetAt(lines, n + 1, entry),
            Clobbered(sem, MaskFor(lines, n), RunMasked(sem, lines, n, entry, c)))
  }

  /** A CALL or a masked register that the emitted code gets wrong. */
  ghost predicate MaskedHazard(sem: Sem, lines: seq<Line>, entry: Word, c: Core)
    requires lines != []
  {
    var n := |lines| - 1;
    || CallHazard(lines[n].i, OffsetAt(lines, n + 1, entry), RunMasked(sem, lines, n, entry, c))
    || !TameBefore(sem, lines, n + 1, entry, c)
  }
}
