/** The assembled image: translated blocks, dispatch tables, callee stubs and the exits. */
module Image {
  import opened Words
  import opened Machine
  import opened Simulation
  import opened Native
  import opened Masking
  import opened Translator

  datatype Block = Block(entry: Word, lines: seq<Line>)
  datatype Site = Site(offset: Word, targets: seq<Word>)

  /** What the compiler is given: blocks in address order, jump table and missing callees. */
  datatype Program = Program(blocks: seq<Block>, sites: seq<Site>, callees: seq<Word>)

  datatype Unit = Unit(name: Label, items: seq<Item>)

  // ---------------------------------------------------------------- tables

  /** One entry of the compare chain: R14 holds the target, R15 the candidate. */
  function Candidate(t: Word): seq<Item> {
    [I(LoadAbs(P15, t)), I(Compare(P14, P15)), J(IfZero, Loc(t))]
  }

  function TableItems(offset: Word, targets: seq<Word>): seq<Item> {
    if targets == [] then [I(LoadAbs(P15, offset)), J(Always, IjFailed)]
    else Candidate(targets[0]) + TableItems(offset, targets[1..])
  }

  function TableUnit(s: Site): Unit { Unit(Ij(s.offset), TableItems(s.offset, s.targets)) }

  /** A callee that was not translated: leave with its address and reason 1. */
  function StubUnit(a: Word): Unit {
    Unit(Loc(a), [I(LoadAbs(P14, a)), I(IjImm(1)), J(Always, Out)])
  }

  const EXITS: seq<Unit> := [
    Unit(CompSyscall, [I(IjImm(0)), J(Always, Out)]),
    Unit(IjFailed, [I(IjReg(P15)), J(Always, Out)]),
    Unit(Out, [])]

  /** `make_jump_table` for one site. */
  method MakeTable(s: Site) returns (items: seq<Item>)
    ensures items == TableItems(s.offset, s.targets)
  {
    items := [I(LoadAbs(P15, s.offset)), J(Always, IjFailed)];
    for k := |s.targets| downto 0
      invariant items == TableItems(s.offset, s.targets[k..])
    {
      assert s.targets[k..][1..] == s.targets[k + 1..];
      items := Candidate(s.targets[k]) + items;
    }
    assert s.targets[0..] == s.targets;
  }

  /** Differ at most in R15 and the flags, which the compare chain overwrites. */
  ghost predicate Probed(h: Host, h': Host) {
    && h'.core.gp == h.core.gp && h'.core.mem == h.core.mem && h'.core.aux == h.core.aux
    && h'.slots == h.slots && h'.ij == h.ij
    && forall p :: p != P15 ==> Look(h'.core.x, Phys(p)) == Look(h.core.x, Phys(p))
  }

  lemma CandidateRun(sem: Sem, t: Word, rest: seq<Item>, h: Host) returns (h': Host)
    ensures Probed(h, h') && (R14(h) == t ==> h'.core.flags.zf)
    ensures RunItems(sem, Candidate(t) + rest, h) ==
            if R14(h) == t then (h', Some(Loc(t))) else RunItems(sem, rest, h')
  {
    var s := Candidate(t) + rest;
    var h1 := HStep(sem, LoadAbs(P15, t), h);
    h' := HStep(sem, Compare(P14, P15), h1);
    assert s[0] == I(LoadAbs(P15, t)) && s[1..][0] == I(Compare(P14, P15)) && s[1..][1..][0] == J(IfZero, Loc(t));
    assert s[1..][1..][1..] == rest;
    assert RunItems(sem, s, h) == RunItems(sem, s[1..], h1);
    assert RunItems(sem, s[1..], h1) == RunItems(sem, s[1..][1..], h');
  }

  /**
   * The chain takes the listed target if the site lists it, and reports a miss if not.  A hit
   * leaves ZF set, whatever the flags were.
   */
  lemma {:induction false} TableRun(sem: Sem, offset: Word, targets: seq<Word>, h: Host)
    ensures var (h', out) := RunItems(sem, TableItems(offset, targets), h);
      && Probed(h, h')
      && out == (if R14(h) in targets then Some(Loc(R14(h))) else Some(IjFailed))
      && (R14(h) !in targets ==> Look(h'.core.x, Phys(P15)) == offset)
      && (R14(h) in targets ==> h'.core.flags.zf)
    decreases targets
  {
    if targets == [] {
      var s := TableItems(offset, targets);
      assert s[1..] == [J(Always, IjFailed)];
      assert RunItems(sem, s, h) == RunItems(sem, s[1..], HStep(sem, LoadAbs(P15, offset), h));
    } else {
      var h1 := CandidateRun(sem, targets[0], TableItems(offset, targets[1..]), h);
      TableRun(sem, offset, targets[1..], h1);
    }
  }

  // ---------------------------------------------------------------- running an image

  function FindFrom(img: seq<Unit>, l: Label, k: nat): (r: Option<nat>)
    ensures r.Some? ==> r.value < |img| && img[r.value].name == l
    decreases |img| - k
  {
    if k >= |img| then None else if img[k].name == l then Some(k) else FindFrom(img, l, k + 1)
  }

  /** Run from unit k until the exit is reached; None if the fuel or the labels run out. */
  function RunImage(sem: Sem, img: seq<Unit>, k: nat, h: Host, fuel: nat): Option<Host>
    decreases fuel
  {
    if fuel == 0 || k >= |img| then None
    else if img[k].name == Out then Some(h)
    else
      var (h', out) := RunItems(sem, img[k].items, h);
      if out.None? then RunImage(sem, img, k + 1, h', fuel - 1)
      else match FindFrom(img, out.value, 0)
        case None => None
        case Some(j) => RunImage(sem, img, j, h', fuel - 1)
  }

  // ---------------------------------------------------------------- the native machine

  datatype NState = NState(c: Core, ip: Word)

  /** One step of the processor; SYSCALL is where the run stops. */
  ghost predicate NStep(sem: Sem, code: map<Word, Line>, s: NState, t: NState) {
    s.ip in code &&
    var i, next := code[s.ip].i, Wrap(s.ip + code[s.ip].len);
    if !Control(i) then t == NState(Straight(sem, i, next, s.c), next)
    else if i.Syscall? then false
    else
      var (c, ip) := Transfer(sem, i, next, s.c);
      t == NState(c, ip)
  }

  ghost predicate Reach(sem: Sem, code: map<Word, Line>, s: NState, t: NState, n: nat)
    decreases n
  {
    if n == 0 then s == t else exists m :: Reach(sem, code, s, m, n - 1) && NStep(sem, code, m, t)
  }

  lemma {:induction false} ReachTrans(sem: Sem, code: map<Word, Line>, a: NState, b: NState, c: NState, m: nat, n: nat)
    requires Reach(sem, code, a, b, m) && Reach(sem, code, b, c, n)
    ensures Reach(sem, code, a, c, m + n)
    decreases n
  {
    hide NStep;
    if n > 0 {
      var x :| Reach(sem, code, b, x, n - 1) && NStep(sem, code, x, c);
      ReachTrans(sem, code, a, b, x, m, n - 1);
    }
  }

  ghost predicate WildAt(p: Program, j: int, k: int, ip: Word, c: Core) {
    && 0 <= j < |p.blocks| && 0 <= k < |p.blocks[j].lines| && ip == OffsetAt(p.blocks[j].lines, k, p.blocks[j].entry)
    && !Tame(MaskFor(p.blocks[j].lines, k), c)
  }

  /** The code for `p` masks a register at `ip` whose top bit is set. */
  ghost predicate MaskHazard(p: Program, ip: Word, c: Core) { exists j, k :: WildAt(p, j, k, ip, c) }

  /**
   * No native run from `s` meets a CALL whose target reads differently after the push, or a
   * masked address register with its top bit set.
   */
  ghost predicate NoHazard(sem: Sem, code: map<Word, Line>, p: Program, s: NState) {
    forall n: nat, t: NState :: Reach(sem, code, s, t, n) && t.ip in code ==> SafeState(code, p, t)
  }

  ghost predicate SafeState(code: map<Word, Line>, p: Program, t: NState)
    requires t.ip in code
  {
    !CallHazard(code[t.ip].i, Wrap(t.ip + code[t.ip].len), t.c) && !MaskHazard(p, t.ip, t.c)
  }

  lemma NoHazardLater(sem: Sem, code: map<Word, Line>, p: Program, s: NState, t: NState, m: nat)
    requires NoHazard(sem, code, p, s) && Reach(sem, code, s, t, m)
    ensures NoHazard(sem, code, p, t)
  {
    hide Reach, SafeState;
    forall n: nat, u: NState | Reach(sem, code, t, u, n) && u.ip in code ensures SafeState(code, p, u) {
      ReachTrans(sem, code, s, t, u, m, n);
    }
  }

  // ---------------------------------------------------------------- native runs through a block

  /** The lines of a block are what is in memory at their addresses. */
  ghost predicate Decoded(code: map<Word, Line>, b: Block) {
    forall k :: 0 <= k < |b.lines| ==>
      OffsetAt(b.lines, k, b.entry) in code && code[OffsetAt(b.lines, k, b.entry)] == b.lines[k]
  }

  lemma OneMore(sem: Sem, code: map<Word, Line>, s: NState, m: NState, t: NState, n: nat)
    requires Reach(sem, code, s, m, n) && NStep(sem, code, m, t)
    ensures Reach(sem, code, s, t, n + 1)
  {
  }

  /** The native state before line k of a block entered with `g`. */
  function Before(sem: Sem, b: Block, k: nat, g: Core): NState
    requires k <= |b.lines|
  {
    NState(RunBody(sem, b.lines, k, b.entry, g), OffsetAt(b.lines, k, b.entry))
  }

  lemma LineStep(sem: Sem, code: map<Word, Line>, b: Block, k: nat, g: Core)
    requires Decoded(code, b) && k < |b.lines| && !Control(b.lines[k].i)
    ensures NStep(sem, code, Before(sem, b, k, g), Before(sem, b, k + 1, g))
  {
    hide Straight, Control;
    assert code[OffsetAt(b.lines, k, b.entry)] == b.lines[k];
  }

  lemma BeforeFirst(sem: Sem, code: map<Word, Line>, b: Block, g: Core)
    ensures Before(sem, b, 0, g) == NState(g, b.entry)
    ensures Reach(sem, code, NState(g, b.entry), Before(sem, b, 0, g), 0)
  {
  }

  lemma {:induction false} BodyReach(sem: Sem, code: map<Word, Line>, b: Block, k: nat, g: Core)
    requires Decoded(code, b) && k <= |b.lines| && forall j :: 0 <= j < k ==> !Control(b.lines[j].i)
    ensures Reach(sem, code, NState(g, b.entry), Before(sem, b, k, g), k)
    decreases k
  {
    hide *;
    if k == 0 {
      BeforeFirst(sem, code, b, g);
    } else {
      BodyReach(sem, code, b, k - 1, g);
      LineStep(sem, code, b, k - 1, g);
      OneMore(sem, code, NState(g, b.entry), Before(sem, b, k - 1, g), Before(sem, b, k, g), k - 1);
    }
  }

  /** Where a native run through the whole block arrives. */
  function Arrival(sem: Sem, b: Block, g: Core): NState
    requires b.lines != []
  {
    var (c, x) := NativeBlock(sem, b.lines, b.entry, g);
    NState(c, x.ip)
  }

  lemma LastStep(sem: Sem, code: map<Word, Line>, b: Block, g: Core, k: nat)
    requires GoodBlock(b.lines) && Decoded(code, b) && k + 1 == |b.lines|
    ensures !b.lines[k].i.Syscall? ==> NStep(sem, code, Before(sem, b, k, g), Arrival(sem, b, g))
    ensures b.lines[k].i.Syscall? ==> Arrival(sem, b, g) == Before(sem, b, k, g)
    ensures b.lines[k].i.Syscall? ==> var ip := Arrival(sem, b, g).ip; ip in code && code[ip].i.Syscall?
  {
    hide Straight, Transfer, Supported, RunBody, QuietRegs, InstrRegs, GoodBlock, Wrap;
    assert code[OffsetAt(b.lines, k, b.entry)] == b.lines[k];
  }

  /** How many native steps the block is: SYSCALL itself is not executed. */
  function Steps(lines: seq<Line>): nat
    requires lines != []
  {
    if lines[|lines| - 1].i.Syscall? then |lines| - 1 else |lines|
  }

  lemma BlockReach(sem: Sem, code: map<Word, Line>, b: Block, g: Core)
    requires GoodBlock(b.lines) && Decoded(code, b)
    ensures Reach(sem, code, NState(g, b.entry), Arrival(sem, b, g), Steps(b.lines))
  {
    GoodShape(b.lines);
    var k := |b.lines| - 1;
    assert Steps(b.lines) == if b.lines[k].i.Syscall? then k else k + 1;
    hide *;
    LastStep(sem, code, b, g, k);
    BodyReach(sem, code, b, k, g);
    if b.lines[k].i.Syscall? {
      assert Arrival(sem, b, g) == Before(sem, b, k, g);
    } else {
      OneMore(sem, code, NState(g, b.entry), Before(sem, b, k, g), Arrival(sem, b, g), k);
    }
  }

  lemma GoodShape(lines: seq<Line>)
    requires GoodBlock(lines)
    ensures lines != [] && forall j :: 0 <= j < |lines| - 1 ==> !Control(lines[j].i)
  {
  }

  /** Every masked register of the block is tame where the processor has it. */
  ghost predicate NativeTame(sem: Sem, lines: seq<Line>, entry: Word, g: Core) {
    forall k :: 0 <= k < |lines| ==> Tame(MaskFor(lines, k), RunBody(sem, lines, k, entry, g))
  }

  lemma BlockSafe(sem: Sem, code: map<Word, Line>, p: Program, j: nat, g: Core)
    requires j < |p.blocks| && GoodBlock(p.blocks[j].lines) && Decoded(code, p.blocks[j])
    requires NoHazard(sem, code, p, NState(g, p.blocks[j].entry))
    ensures p.blocks[j].lines != [] && !BlockHazard(sem, p.blocks[j].lines, p.blocks[j].entry, g)
    ensures NativeTame(sem, p.blocks[j].lines, p.blocks[j].entry, g)
  {
    hide *;
    var b := p.blocks[j];
    GoodShape(b.lines);
    var n := |b.lines| - 1;
    LineSafe(sem, code, p, j, n, g);
    HazardAt(sem, b.lines, b.entry, g);
    forall k | 0 <= k < |b.lines| ensures Tame(MaskFor(b.lines, k), RunBody(sem, b.lines, k, b.entry, g)) {
      LineSafe(sem, code, p, j, k, g);
    }
    TameAll(sem, b.lines, b.entry, g);
  }

  lemma TameAll(sem: Sem, lines: seq<Line>, entry: Word, g: Core)
    requires forall k :: 0 <= k < |lines| ==> Tame(MaskFor(lines, k), RunBody(sem, lines, k, entry, g))
    ensures NativeTame(sem, lines, entry, g)
  {
    hide Tame, MaskFor, RunBody;
  }

  lemma HazardAt(sem: Sem, lines: seq<Line>, entry: Word, g: Core)
    requires lines != []
    ensures var n := |lines| - 1;
      BlockHazard(sem, lines, entry, g) <==>
      CallHazard(lines[n].i, OffsetAt(lines, n + 1, entry), RunBody(sem, lines, n, entry, g))
  {
    hide CallHazard, RunBody, OffsetAt;
  }

  lemma LineSafe(sem: Sem, code: map<Word, Line>, p: Program, j: nat, k: nat, g: Core)
    requires j < |p.blocks| && GoodBlock(p.blocks[j].lines) && Decoded(code, p.blocks[j])
    requires NoHazard(sem, code, p, NState(g, p.blocks[j].entry)) && k < |p.blocks[j].lines|
    ensures var b := p.blocks[j]; var c := RunBody(sem, b.lines, k, b.entry, g);
      !CallHazard(b.lines[k].i, OffsetAt(b.lines, k + 1, b.entry), c) && Tame(MaskFor(b.lines, k), c)
  {
    hide *;
    var b := p.blocks[j];
    GoodShape(b.lines);
    BodyReach(sem, code, b, k, g);
    BeforeIs(sem, code, b, k, g);
    SafeAt(sem, code, p, NState(g, b.entry), Before(sem, b, k, g), k);
    SafeLine(code, p, j, k, Before(sem, b, k, g));
  }

  lemma BeforeIs(sem: Sem, code: map<Word, Line>, b: Block, k: nat, g: Core)
    requires Decoded(code, b) && k < |b.lines|
    ensures var t := Before(sem, b, k, g);
      && t == NState(RunBody(sem, b.lines, k, b.entry, g), OffsetAt(b.lines, k, b.entry))
      && t.ip in code && code[t.ip] == b.lines[k] && Wrap(t.ip + code[t.ip].len) == OffsetAt(b.lines, k + 1, b.entry)
  {
    hide RunBody, Wrap;
  }

  lemma SafeLine(code: map<Word, Line>, p: Program, j: nat, k: nat, t: NState)
    requires t.ip in code && SafeState(code, p, t) && j < |p.blocks| && k < |p.blocks[j].lines|
    requires t.ip == OffsetAt(p.blocks[j].lines, k, p.blocks[j].entry) && code[t.ip] == p.blocks[j].lines[k]
    ensures Tame(MaskFor(p.blocks[j].lines, k), t.c)
    ensures !CallHazard(p.blocks[j].lines[k].i, Wrap(t.ip + p.blocks[j].lines[k].len), t.c)
  {
    hide Tame, MaskFor, CallHazard, Wrap, OffsetAt;
    assert !WildAt(p, j, k, t.ip, t.c);
  }

  lemma SafeAt(sem: Sem, code: map<Word, Line>, p: Program, s: NState, t: NState, n: nat)
    requires NoHazard(sem, code, p, s) && Reach(sem, code, s, t, n) && t.ip in code
    ensures SafeState(code, p, t)
  {
    hide Reach, SafeState;
  }
}
