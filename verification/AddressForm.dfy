/** Flattening a decoded address into registers, one displacement and one scaled index. */
module AddressForm {
  import opened Words
  import opened Machine

  /** An address as the decoder nests it. */
  datatype Expr =
    | Id(r: Reg)
    | Int(w: Word)
    | Times(r: Reg, k: Word)
    | Sum(args: seq<Expr>)

  // ---------------------------------------------------------------- the value of the tree

  function Eval(e: Expr, c: Core): int
    decreases e, 1
  {
    match e
    case Id(r) => Get(c, r)
    case Int(w) => w
    case Times(r, k) => k * Get(c, r)
    case Sum(args) => EvalAll(args, c)
  }

  function EvalAll(args: seq<Expr>, c: Core): int
    decreases args, 0
  {
    if args == [] then 0 else Eval(args[0], c) + EvalAll(args[1..], c)
  }

  /** The displacements of the tree, added up. */
  function ConstSum(e: Expr): int
    decreases e, 1
  {
    match e
    case Int(w) => w
    case Sum(args) => ConstSumAll(args)
    case _ => 0
  }

  function ConstSumAll(args: seq<Expr>): int
    decreases args, 0
  {
    if args == [] then 0 else ConstSum(args[0]) + ConstSumAll(args[1..])
  }

  /** How many scaled registers the tree has. */
  function Scales(e: Expr): nat
    decreases e, 1
  {
    match e
    case Times(_, _) => 1
    case Sum(args) => ScalesAll(args)
    case _ => 0
  }

  function ScalesAll(args: seq<Expr>): nat
    decreases args, 0
  {
    if args == [] then 0 else Scales(args[0]) + ScalesAll(args[1..])
  }

  // ---------------------------------------------------------------- what flattening keeps

  function Or<T>(a: Option<T>, b: Option<T>): Option<T> { if a.Some? then a else b }

  /** A later displacement overwrites an earlier one. */
  function LastConst(e: Expr): Option<Word>
    decreases e, 1
  {
    match e
    case Int(w) => Some(w)
    case Sum(args) => LastConstAll(args)
    case _ => None
  }

  function LastConstAll(args: seq<Expr>): Option<Word>
    decreases args, 0
  {
    if args == [] then None else Or(LastConstAll(args[1..]), LastConst(args[0]))
  }

  /** The first scaled register wins; an odd scale k is kept as k - 1. */
  function FirstScaled(e: Expr): (s: Option<Scaled>)
    ensures s.Some? <==> Scales(e) > 0
    decreases e, 1
  {
    match e
    case Times(r, k) => Some(Scaled(if k % 2 == 1 then k - 1 else k, r))
    case Sum(args) => FirstScaledAll(args)
    case _ => None
  }

  function FirstScaledAll(args: seq<Expr>): (s: Option<Scaled>)
    ensures s.Some? <==> ScalesAll(args) > 0
    decreases args, 0
  {
    if args == [] then None else Or(FirstScaled(args[0]), FirstScaledAll(args[1..]))
  }

  /** The registers listed, an odd scale's index once more; `have` says a scale is already taken. */
  function FlatRegs(e: Expr, have: bool): seq<Reg>
    decreases e, 1
  {
    match e
    case Id(r) => [r]
    case Int(_) => []
    case Times(r, k) => if !have && k % 2 == 1 then [r] else []
    case Sum(args) => FlatRegsAll(args, have)
  }

  function FlatRegsAll(args: seq<Expr>, have: bool): seq<Reg>
    decreases args, 0
  {
    if args == [] then [] else FlatRegs(args[0], have) + FlatRegsAll(args[1..], have || Scales(args[0]) > 0)
  }

  class Flat {
    var regs: seq<Reg>
    var im: Option<Word>
    var mul: Option<Scaled>

    constructor ()
      ensures regs == [] && im == None && mul == None
    {
      regs, im, mul := [], None, None;
    }

    /** `mem_addr`: add one term to the flat form. */
    method Add(e: Expr)
      modifies this
      ensures regs == old(regs) + FlatRegs(e, old(mul.Some?))
      ensures im == Or(LastConst(e), old(im))
      ensures mul == Or(old(mul), FirstScaled(e))
      decreases e, 1
    {
      match e {
        case Sum(args) =>
          AddAll(args);
        case Times(r, k) =>
          if mul.Some? { return; }
          mul := Some(Scaled(k, r));
          if mul.value.k % 2 == 1 {
            mul := Some(Scaled(k - 1, r));
            regs := regs + [r];
          }
        case Id(r) =>
          regs := regs + [r];
        case Int(w) =>
          im := Some(w);
      }
    }

    method AddAll(args: seq<Expr>)
      modifies this
      ensures regs == old(regs) + FlatRegsAll(args, old(mul.Some?))
      ensures im == Or(LastConstAll(args), old(im))
      ensures mul == Or(old(mul), FirstScaledAll(args))
      decreases args, 0
    {
      if args != [] {
        Add(args[0]);
        AddAll(args[1..]);
      }
    }
  }

  /** `arg_purify` for a memory operand, a segment base in front. */
  method Purify(segment: Option<VReg>, e: Expr, size: nat) returns (a: Arg)
    ensures a == Purified(segment, e, size)
  {
    var f := new Flat();
    if segment.Some? { f.Add(Id(Virt(segment.value))); }
    f.Add(e);
    a := AMem(f.regs, if f.im.Some? then f.im.value else 0, f.mul, size);
  }

  function Purified(segment: Option<VReg>, e: Expr, size: nat): Arg {
    AMem((if segment.Some? then [Virt(segment.value)] else []) + FlatRegs(e, false), Displacement(e), FirstScaled(e),
         size)
  }

  function Displacement(e: Expr): Word { if LastConst(e).Some? then LastConst(e).value else 0 }

  // ---------------------------------------------------------------- the value is kept

  function ScaledValue(m: Option<Scaled>, c: Core): int {
    if m.Some? then m.value.k * Get(c, m.value.r) else 0
  }

  lemma {:induction false} SumConcat(a: seq<Reg>, b: seq<Reg>, c: Core)
    ensures SumRegs(a + b, c) == SumRegs(a, c) + SumRegs(b, c)
  {
    if a == [] {
      assert a + b == b;
    } else {
      assert (a + b)[1..] == a[1..] + b;
      SumConcat(a[1..], b, c);
    }
  }

  lemma {:induction false} FlatSum(e: Expr, have: bool, c: Core)
    requires Scales(e) <= (if have then 0 else 1)
    ensures SumRegs(FlatRegs(e, have), c) + ScaledValue(FirstScaled(e), c) == Eval(e, c) - ConstSum(e)
    decreases e, 1
  {
    match e
    case Sum(args) => FlatSumAll(args, have, c);
    case Id(r) => assert SumRegs([r], c) == Get(c, r) + SumRegs([r][1..], c);
    case Int(_) =>
    case Times(r, k) =>
      assert SumRegs([r], c) == Get(c, r) + SumRegs([r][1..], c);
      assert (k - 1) * Get(c, r) + Get(c, r) == k * Get(c, r);
  }

  lemma {:induction false} FlatSumAll(args: seq<Expr>, have: bool, c: Core)
    requires ScalesAll(args) <= (if have then 0 else 1)
    ensures SumRegs(FlatRegsAll(args, have), c) + ScaledValue(FirstScaledAll(args), c) ==
            EvalAll(args, c) - ConstSumAll(args)
    decreases args, 0
  {
    if args != [] {
      var have' := have || Scales(args[0]) > 0;
      FlatSum(args[0], have, c);
      FlatSumAll(args[1..], have', c);
      SumConcat(FlatRegs(args[0], have), FlatRegsAll(args[1..], have'), c);
    }
  }

  function TreeValue(segment: Option<VReg>, e: Expr, c: Core): int {
    (if segment.Some? then Get(c, Virt(segment.value)) else 0) + Eval(e, c)
  }

  lemma PurifiedValue(segment: Option<VReg>, e: Expr, size: nat, c: Core)
    requires Scales(e) <= 1
    ensures Purified(segment, e, size).AMem? && Purified(segment, e, size).sz == size
    ensures Address(Purified(segment, e, size), c) == Wrap(TreeValue(segment, e, c) - ConstSum(e) + Displacement(e))
  {
    var base := if segment.Some? then [Virt(segment.value)] else [];
    assert SumRegs(base, c) == if segment.Some? then Get(c, Virt(segment.value)) + SumRegs(base[1..], c) else 0;
    SumConcat(base, FlatRegs(e, false), c);
    FlatSum(e, false, c);
  }

  /**
   * Flattening keeps the 64-bit address in every state exactly when the displacements it drops
   * add up to nothing; one displacement, or none, is always kept.
   */
  lemma FlattenExact(segment: Option<VReg>, e: Expr, size: nat)
    requires Scales(e) <= 1
    ensures (forall c: Core :: Address(Purified(segment, e, size), c) == Wrap(TreeValue(segment, e, c)))
            <==> Wrap(ConstSum(e) - Displacement(e)) == 0
  {
    var lost := ConstSum(e) - Displacement(e);
    forall c: Core
      ensures Address(Purified(segment, e, size), c) == Wrap(TreeValue(segment, e, c)) <==> Wrap(lost) == 0
    {
      PurifiedValue(segment, e, size, c);
      SameAfterLoss(TreeValue(segment, e, c), lost);
    }
    var c := Core(map[], map[], map[], Flags(false, 0), 0);
    assert Address(Purified(segment, e, size), c) == Wrap(TreeValue(segment, e, c)) <==> Wrap(lost) == 0;
  }

  lemma SameAfterLoss(x: int, lost: int)
    ensures Wrap(x - lost) == Wrap(x) <==> Wrap(lost) == 0
  {
    WrapAdd(x - lost, lost);
    assert Wrap(x - lost + Wrap(lost)) == Wrap(x);
  }

  function Constants(e: Expr): nat
    decreases e, 1
  {
    match e
    case Int(_) => 1
    case Sum(args) => ConstantsAll(args)
    case _ => 0
  }

  function ConstantsAll(args: seq<Expr>): nat
    decreases args, 0
  {
    if args == [] then 0 else Constants(args[0]) + ConstantsAll(args[1..])
  }

  lemma {:induction false} OneConstant(e: Expr)
    requires Constants(e) <= 1
    ensures ConstSum(e) == Displacement(e) && (Constants(e) == 0 <==> LastConst(e).None?)
    decreases e, 1
  {
    if e.Sum? { OneConstantAll(e.args); }
  }

  lemma {:induction false} OneConstantAll(args: seq<Expr>)
    requires ConstantsAll(args) <= 1
    ensures ConstSumAll(args) == (if LastConstAll(args).Some? then LastConstAll(args).value else 0)
    ensures ConstantsAll(args) == 0 <==> LastConstAll(args).None?
    decreases args, 0
  {
    if args != [] {
      OneConstant(args[0]);
      OneConstantAll(args[1..]);
    }
  }

  /** Every nested sum with at most one displacement and one scaled register keeps its address. */
  lemma FlattenKeeps(segment: Option<VReg>, e: Expr, size: nat, c: Core)
    requires Constants(e) <= 1 && Scales(e) <= 1
    ensures Address(Purified(segment, e, size), c) == Wrap(TreeValue(segment, e, c))
  {
    OneConstant(e);
    PurifiedValue(segment, e, size, c);
  }
}
