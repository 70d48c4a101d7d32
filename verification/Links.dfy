/** Every label the generated file refers to is defined in it, and defined once. */
module Links {
  import opened Words
  import opened Machine
  import opened Native
  import opened Translator
  import opened Image
  import opened Transparency
  import opened ReturnTargets

  /** The program handed to the emitter lists exactly the blocks, tables and missing callees. */
  ghost predicate Emitted(bs: Blocks, table: JumpTable, missing: set<Word>, p: Program) {
    && (forall j :: 0 <= j < |p.blocks| ==> p.blocks[j].entry in bs && p.blocks[j].lines == bs[p.blocks[j].entry].lines)
    && (forall i, j :: 0 <= i < j < |p.blocks| ==> p.blocks[i].entry != p.blocks[j].entry)
    && (forall b :: b in bs ==> exists j :: 0 <= j < |p.blocks| && p.blocks[j].entry == b)
    && (forall j :: 0 <= j < |p.sites| ==> p.sites[j].offset in table && p.sites[j].targets == table[p.sites[j].offset])
    && (forall i, j :: 0 <= i < j < |p.sites| ==> p.sites[i].offset != p.sites[j].offset)
    && (forall s :: s in table ==> exists j :: 0 <= j < |p.sites| && p.sites[j].offset == s)
    && (forall j :: 0 <= j < |p.callees| ==> p.callees[j] in missing)
    && (forall i, j :: 0 <= i < j < |p.callees| ==> p.callees[i] != p.callees[j])
    && (forall c :: c in missing ==> exists j :: 0 <= j < |p.callees| && p.callees[j] == c)
  }

  /** Direct jumps and branches stay inside the block set. */
  predicate BranchesInside(bs: Blocks) {
    forall b :: b in bs && bs[b].lines != [] ==>
      var i := bs[b].lines[|bs[b].lines| - 1].i;
      (i.Branch? ==> i.addr in bs) && (i.Jump? && i.t.Direct? ==> i.t.addr in bs)
  }

  /** What `Find` establishes from the recorded table `pre`, as far as linking needs it. */
  ghost predicate Found(bs: Blocks, pre: JumpTable, table: JumpTable, missing: set<Word>) {
    && (forall b, k :: b in bs && 0 <= k < |bs[b].lines| ==> LineDone(bs, b, k, table))
    && (forall s, x :: Lists(table, s, x) ==> Lists(pre, s, x) || Explained(bs, s, x))
    && (forall c :: c in missing <==> c !in bs && exists b, k :: Calls(bs, b, k, c))
  }

  ghost predicate DefinedOnce(img: seq<Unit>, l: Label) {
    exists k :: 0 <= k < |img| && img[k].name == l && forall j :: 0 <= j < |img| && img[j].name == l ==> j == k
  }

  lemma NamesDistinct(sem: Sem, bs: Blocks, pre: JumpTable, table: JumpTable, missing: set<Word>, p: Program,
                      img: seq<Unit>)
    requires Compiled(sem, p, img) && Emitted(bs, table, missing, p) && Found(bs, pre, table, missing)
    ensures forall i, j :: 0 <= i < j < |img| ==> img[i].name != img[j].name
  {
    hide Compiled, LineDone, Emitted, Found;
    forall i, j | 0 <= i < j < |img| ensures img[i].name != img[j].name {
      UnitName(sem, p, img, i);
      UnitName(sem, p, img, j);
      PlacesDistinct(bs, pre, table, missing, p, i, j);
    }
  }

  /** The label of the unit at place i of the file. */
  function Place(p: Program, i: nat): Label
    requires i < |p.blocks| + |p.sites| + |p.callees| + 3
  {
    var nb, nt, nc := |p.blocks|, |p.sites|, |p.callees|;
    if i < nb then Loc(p.blocks[i].entry)
    else if i < nb + nt then Ij(p.sites[i - nb].offset)
    else if i < nb + nt + nc then Loc(p.callees[i - nb - nt])
    else EXITS[i - nb - nt - nc].name
  }

  lemma UnitName(sem: Sem, p: Program, img: seq<Unit>, i: nat)
    requires Compiled(sem, p, img) && i < |img|
    ensures |img| == |p.blocks| + |p.sites| + |p.callees| + 3 && img[i].name == Place(p, i)
  {
    hide BlockDoes, LabelsOf, BlockLabels;
    if i < |p.blocks| { assert BlockUnit(sem, p.blocks[i], img[i]); }
  }

  lemma PlacesDistinct(bs: Blocks, pre: JumpTable, table: JumpTable, missing: set<Word>, p: Program, i: nat, j: nat)
    requires Emitted(bs, table, missing, p) && Found(bs, pre, table, missing)
    requires i < j < |p.blocks| + |p.sites| + |p.callees| + 3
    ensures Place(p, i) != Place(p, j)
  {
    hide LineDone;
    var nb, nt, nc := |p.blocks|, |p.sites|, |p.callees|;
    if i < nb && nb + nt <= j < nb + nt + nc { assert p.blocks[i].entry in bs && p.callees[j - nb - nt] in missing; }
  }

  lemma NamedUnits(sem: Sem, bs: Blocks, table: JumpTable, missing: set<Word>, p: Program, img: seq<Unit>, l: Label)
    requires Compiled(sem, p, img) && Emitted(bs, table, missing, p)
    requires match l
      case Loc(a) => a in bs || a in missing
      case Ij(s) => s in table
      case _ => true
    ensures exists k :: 0 <= k < |img| && img[k].name == l
  {
    hide BlockDoes, LabelsOf, BlockLabels;
    var nb, nt, nc := |p.blocks|, |p.sites|, |p.callees|;
    match l {
      case Loc(a) =>
        if a in bs {
          var j :| 0 <= j < nb && p.blocks[j].entry == a;
          assert BlockUnit(sem, p.blocks[j], img[j]);
        } else {
          var j :| 0 <= j < nc && p.callees[j] == a;
          assert img[nb + nt + j] == StubUnit(p.callees[nb + nt + j - nb - nt]);
        }
      case Ij(s) =>
        var j :| 0 <= j < nt && p.sites[j].offset == s;
        assert img[nb + j] == TableUnit(p.sites[nb + j - nb]);
      case CompSyscall => assert img[nb + nt + nc] == EXITS[0];
      case IjFailed => assert img[nb + nt + nc + 1] == EXITS[1];
      case Out => assert img[nb + nt + nc + 2] == EXITS[2];
    }
  }

  lemma {:induction false} TableLabels(offset: Word, targets: seq<Word>, l: Label)
    requires l in LabelsOf(TableItems(offset, targets))
    ensures l == IjFailed || (l.Loc? && l.addr in targets)
    decreases targets
  {
    var s := TableItems(offset, targets);
    var k :| 0 <= k < |s| && s[k].J? && s[k].to == l;
    if targets != [] && k >= 3 {
      var rest := TableItems(offset, targets[1..]);
      assert rest[k - 3] == s[k];
      TableLabels(offset, targets[1..], l);
    }
  }

  lemma BlockRefers(bs: Blocks, pre: JumpTable, table: JumpTable, missing: set<Word>, b: Word, l: Label)
    requires BranchesInside(bs) && Found(bs, pre, table, missing) && b in bs && bs[b].lines != []
    requires l in BlockLabels(bs[b].lines, b)
    ensures match l
      case Loc(a) => a in bs || a in missing
      case Ij(s) => s in table
      case _ => true
  {
    var lines := bs[b].lines;
    var k := |lines| - 1;
    assert LineDone(bs, b, k, table);
    var i := lines[k].i;
    if i.Call? && i.t.Direct? {
      assert Calls(bs, b, k, i.t.addr);
    } else if IndirectInstr(i) {
      assert IndirectLine(bs, b, k) && After(bs, b, k) == OffsetAt(lines, |lines|, b);
    }
  }

  /** What linking asks of the disassembly: recorded targets and the return addresses of direct calls are blocks. */
  ghost predicate TargetsAreBlocks(bs: Blocks, pre: JumpTable) {
    && (forall s, x :: Lists(pre, s, x) ==> x in bs)
    && (forall b, k, c :: Calls(bs, b, k, c) ==> After(bs, b, k) in bs)
  }

  lemma ListedIsBlock(bs: Blocks, pre: JumpTable, table: JumpTable, missing: set<Word>, s: Word, x: Word)
    requires Found(bs, pre, table, missing) && TargetsAreBlocks(bs, pre) && Lists(table, s, x)
    ensures x in bs
  {
    hide LineDone, Reaches;
    if !Lists(pre, s, x) {
      var b, k, c, r :| Calls(bs, b, k, c) && x == After(bs, b, k) && Reaches(bs, c, r) && RetSite(bs, r, s);
    }
  }

  /** Every label a unit refers to is of a kind some unit defines. */
  lemma Refers(sem: Sem, bs: Blocks, pre: JumpTable, table: JumpTable, missing: set<Word>, p: Program, img: seq<Unit>,
               k: nat, l: Label)
    requires Compiled(sem, p, img) && Emitted(bs, table, missing, p)
    requires BranchesInside(bs) && Found(bs, pre, table, missing) && TargetsAreBlocks(bs, pre)
    requires k < |img| && l in LabelsOf(img[k].items)
    ensures match l
      case Loc(a) => a in bs || a in missing
      case Ij(s) => s in table
      case _ => true
  {
    hide Found, TargetsAreBlocks, BranchesInside;
    var nb, nt, nc := |p.blocks|, |p.sites|, |p.callees|;
    if k < nb {
      assert BlockUnit(sem, p.blocks[k], img[k]);
      BlockRefers(bs, pre, table, missing, p.blocks[k].entry, l);
    } else if k < nb + nt {
      var s := p.sites[k - nb];
      assert img[k] == TableUnit(s);
      TableLabels(s.offset, s.targets, l);
      if l.Loc? { ListedIsBlock(bs, pre, table, missing, s.offset, l.addr); }
    } else if k < nb + nt + nc {
      assert img[k] == StubUnit(p.callees[k - nb - nt]);
      assert l == Out;
    } else {
      assert img[k] == EXITS[k - nb - nt - nc];
      assert l == Out;
    }
  }

  /**
   * Link closure: whatever mix of returns, indirect jumps and missing callees the blocks hold,
   * each label a block, a table, a stub or an exit refers to is defined by exactly one unit.
   */
  lemma LinkClosed(sem: Sem, bs: Blocks, pre: JumpTable, table: JumpTable, missing: set<Word>, p: Program,
                   img: seq<Unit>, k: nat, l: Label)
    requires Compiled(sem, p, img) && Emitted(bs, table, missing, p)
    requires BranchesInside(bs) && Found(bs, pre, table, missing) && TargetsAreBlocks(bs, pre)
    requires k < |img| && l in LabelsOf(img[k].items)
    ensures DefinedOnce(img, l)
  {
    hide Compiled, Emitted, Found, LabelsOf, BranchesInside, TargetsAreBlocks;
    Refers(sem, bs, pre, table, missing, p, img, k, l);
    NamedUnits(sem, bs, table, missing, p, img, l);
    NamesDistinct(sem, bs, pre, table, missing, p, img);
  }

  /** The analysis, run on the recorded table, gives a table linking can rely on. */
  method Analyse(bs: Blocks, pre: JumpTable) returns (table: JumpTable, missing: set<Word>)
    requires Closed(bs)
    ensures Grown(pre, table) && Found(bs, pre, table, missing)
  {
    var a := new Analysis(pre);
    missing := a.Find(bs);
    table := a.table;
  }
}
