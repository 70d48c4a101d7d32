/** Page tables as a radix tree, and the flat map from page to frame and protection that they stand for. */
module PageTree {
  /** Flag bits of an entry; `Pse` is bit 7, which is the PAT bit of a 4K entry. */
  datatype Flag = Present | Rw | User | Pwt | Pcd | Accessed | Dirty | Pse | Global | PatLarge | Nx | Soft(n: nat)

  type Prot = set<Flag>

  /** An entry: empty, a mapping, or a pointer to a table page of 512 entries. */
  datatype Node = None | Leaf(pfn: nat, prot: Prot) | Table(kids: seq<Node>)

  /** What the hardware makes of one 4K page, with the protection in 4K format. */
  datatype Page = Hole | Mapped(frame: nat, prot: Prot)

  const PTRS := 512
  const G := 5 // the level of the root, whose entries are at level 4

  /** The number of 4K pages under one entry of level l: 1 (4K), 512 (2M), 512^2 (1G), ... */
  function Size(l: nat): (s: nat)
    ensures s > 0
  {
    if l <= 1 then 1 else PTRS * Size(l - 1)
  }

  /** The slot of page v's level-l entry in its table. */
  function Idx(l: nat, v: nat): (i: nat)
    ensures i < PTRS
  {
    v / Size(l) % PTRS
  }

  // ---------------------------------------------------------------- protections

  function LargeTo4k(p: Prot): Prot {
    p - {Pse, PatLarge} + if PatLarge in p then {Pse} else {}
  }

  function LargeFrom4k(p: Prot): Prot {
    p - {Pse, PatLarge} + if Pse in p then {PatLarge} else {}
  }

  /** `pgprot_clear_protnone_bits`. */
  function Normal(p: Prot): Prot {
    if Present in p then p else p - {Global}
  }

  /** The protection of a level-l entry in 4K format. */
  function Eff(l: nat, p: Prot): Prot { if l <= 1 then p else LargeTo4k(p) }

  /** An entry whose bits read as no entry at all. */
  predicate Faint(pfn: nat, p: Prot) { pfn == 0 && p <= {Accessed, Dirty} }

  /** Writing a frame and flags into an entry. */
  function Make(pfn: nat, p: Prot): Node { if Faint(pfn, p) then None else Leaf(pfn, p) }

  predicate GoodLeaf(l: nat, pfn: nat, p: Prot) {
    && l <= 4 && pfn % Size(l) == 0 && !Faint(pfn, Eff(l, p))
    && (Global in p ==> Present in p)
    && (l <= 1 ==> PatLarge !in p)
    && (l >= 2 && Present in p ==> Pse in p && l <= 3)
  }

  predicate Good(n: Node, l: nat) {
    match n
    case None => true
    case Leaf(pfn, p) => GoodLeaf(l, pfn, p)
    case Table(kids) => l >= 2 && |kids| == PTRS && forall i :: 0 <= i < PTRS ==> Good(kids[i], l - 1)
  }

  // ---------------------------------------------------------------- the flat map

  function At(n: Node, l: nat, v: nat): Page
    requires Good(n, l)
  {
    match n
    case None => Hole
    case Leaf(pfn, p) => Mapped(pfn + v % Size(l), Eff(l, p))
    case Table(kids) => At(kids[Idx(l - 1, v)], l - 1, v)
  }

  datatype Entry = Entry(level: nat, node: Node)

  /** The entry the walk for page v ends at, and its level. */
  function Lookup(n: Node, l: nat, v: nat): (e: Entry)
    requires Good(n, l)
    ensures Good(e.node, e.level) && !e.node.Table? && e.level <= l
    ensures !n.Table? ==> e.level == l
  {
    if n.Table? then Lookup(n.kids[Idx(l - 1, v)], l - 1, v) else Entry(l, n)
  }

  /** The walk passes through tables only down to level d. */
  predicate Path(n: Node, l: nat, d: nat, v: nat)
    requires Good(n, l)
  {
    l == d || (d < l && n.Table? && Path(n.kids[Idx(l - 1, v)], l - 1, d, v))
  }

  lemma {:induction false} LookupAt(n: Node, l: nat, v: nat)
    requires Good(n, l) && l >= 1
    ensures var e := Lookup(n, l, v); e.level >= 1 && Path(n, l, e.level, v) && At(n, l, v) == At(e.node, e.level, v)
  {
    hide Idx, Size;
    if n.Table? { LookupAt(n.kids[Idx(l - 1, v)], l - 1, v); }
  }

  // ---------------------------------------------------------------- arithmetic of blocks

  lemma MulSum(x: int, y: int, s: int)
    ensures (x + y) * s == x * s + y * s
  {
  }

  lemma MulMul(a: int, k: int, s: int)
    ensures a * k * s == a * (k * s)
  {
  }

  lemma MulLe(x: int, y: int, s: nat)
    requires x <= y
    ensures x * s <= y * s
  {
  }

  lemma Unique(v: nat, m: nat, a: nat, c: nat)
    requires m > 0 && v == a * m + c && c < m
    ensures v / m == a && v % m == c
  {
    var q := v / m;
    MulSum(q, 1, m);
    MulSum(a, 1, m);
    if q < a { MulLe(q + 1, a, m); }
    if q > a { MulLe(a + 1, q, m); }
  }

  /** Dividing in two steps: the quotients nest and the remainders add up. */
  lemma DivDiv(v: nat, s: nat, k: nat)
    requires s > 0 && k > 0
    ensures v / (k * s) == v / s / k && v % (k * s) == (v / s % k) * s + v % s
  {
    Euclid(v, s);
    Euclid(v / s, k);
    DivDivAt(v, s, k, v / s, v % s, v / s / k, v / s % k);
  }

  lemma Euclid(v: nat, s: nat)
    requires s > 0
    ensures v == v / s * s + v % s && v % s < s
  {
  }

  lemma DivDivAt(v: nat, s: nat, k: nat, q: nat, r: nat, a: nat, b: nat)
    requires v == q * s + r && r < s && q == a * k + b && b < k
    ensures k * s > 0 && v / (k * s) == a && v % (k * s) == b * s + r
  {
    Regroup(a, b, k, s);
    Unique(v, k * s, a, b * s + r);
  }

  lemma Regroup(a: nat, b: nat, k: nat, s: nat)
    requires b < k
    ensures (a * k + b) * s == a * (k * s) + b * s
    ensures b * s + s <= k * s
  {
    MulSum(a * k, b, s);
    MulMul(a, k, s);
    MulSum(b, 1, s);
    MulLe(b + 1, k, s);
  }

  lemma BlockStep(v: nat, l: nat)
    requires l >= 1
    ensures v / Size(l) == v / Size(l + 1) * PTRS + Idx(l, v)
    ensures v % Size(l + 1) == Idx(l, v) * Size(l) + v % Size(l)
  {
    DivDiv(v, Size(l), PTRS);
  }

  /** Two pages in one small block are in one large block. */
  lemma {:induction false} BlockUp(v: nat, w: nat, d: nat, l: nat)
    requires 1 <= d <= l && v / Size(d) == w / Size(d)
    ensures v / Size(l) == w / Size(l)
    decreases l
  {
    if d < l {
      BlockUp(v, w, d, l - 1);
      BlockStep(v, l - 1);
      BlockStep(w, l - 1);
    }
  }

  // ---------------------------------------------------------------- writing one entry

  /** The tree with the level-d entry of page v replaced by e. */
  function SetAt(n: Node, l: nat, d: nat, v: nat, e: Node): Node
    requires Good(n, l) && Path(n, l, d, v)
  {
    if l == d then e
    else var i := Idx(l - 1, v); Table(n.kids[i := SetAt(n.kids[i], l - 1, d, v, e)])
  }

  lemma {:induction false} SetAtGood(n: Node, l: nat, d: nat, v: nat, e: Node)
    requires Good(n, l) && Path(n, l, d, v) && Good(e, d)
    ensures Good(SetAt(n, l, d, v, e), l)
  {
    hide Idx;
    if l != d { SetAtGood(n.kids[Idx(l - 1, v)], l - 1, d, v, e); }
  }

  /** Exactly the pages under the replaced entry change. */
  lemma {:induction false} SetAtMap(n: Node, l: nat, d: nat, v: nat, e: Node, w: nat)
    requires 1 <= d <= l && Good(n, l) && Path(n, l, d, v) && Good(e, d) && v / Size(l) == w / Size(l)
    ensures Good(SetAt(n, l, d, v, e), l)
    ensures At(SetAt(n, l, d, v, e), l, w) == if w / Size(d) == v / Size(d) then At(e, d, w) else At(n, l, w)
  {
    hide Size, Idx;
    SetAtGood(n, l, d, v, e);
    if l != d {
      BlockStep(v, l - 1);
      BlockStep(w, l - 1);
      var i := Idx(l - 1, v);
      SetAtGood(n.kids[i], l - 1, d, v, e);
      if Idx(l - 1, w) == i {
        SetAtMap(n.kids[i], l - 1, d, v, e, w);
      } else if w / Size(d) == v / Size(d) {
        BlockUp(v, w, d, l - 1);
      }
    }
  }

  lemma {:induction false} SetAtLookup(n: Node, l: nat, d: nat, v: nat, e: Node)
    requires Good(n, l) && Path(n, l, d, v) && Good(e, d)
    ensures Good(SetAt(n, l, d, v, e), l) && Lookup(SetAt(n, l, d, v, e), l, v) == Lookup(e, d, v)
  {
    hide Idx;
    SetAtGood(n, l, d, v, e);
    if l != d {
      SetAtGood(n.kids[Idx(l - 1, v)], l - 1, d, v, e);
      SetAtLookup(n.kids[Idx(l - 1, v)], l - 1, d, v, e);
    }
  }

  // ---------------------------------------------------------------- the walk of the code

  const TOTAL := PTRS * PTRS * PTRS * PTRS

  lemma Top(v: nat)
    requires v < TOTAL
    ensures v / Size(G) == 0
  {
    assert Size(1) == 1 && Size(2) == 512 && Size(3) == 262144 && Size(4) == 134217728 && Size(5) == TOTAL;
  }

  /** `lookup_address`: four steps down, stopping at the first entry that is no table. */
  method LookupAddress(root: Node, v: nat) returns (e: Entry)
    requires root.Table? && Good(root, G)
    ensures e == Lookup(root, G, v)
    ensures At(root, G, v) == At(e.node, e.level, v) && 1 <= e.level <= 4
  {
    hide Idx, Size, Good, Lookup, At;
    LookupAt(root, G, v);
    WalkStep(root, G, v);
    var p4d := root.kids[Idx(4, v)];
    if !p4d.Table? { return Entry(4, p4d); }
    WalkStep(p4d, 4, v);
    var pud := p4d.kids[Idx(3, v)];
    if !pud.Table? { return Entry(3, pud); }
    WalkStep(pud, 3, v);
    var pmd := pud.kids[Idx(2, v)];
    if !pmd.Table? { return Entry(2, pmd); }
    WalkStep(pmd, 2, v);
    e := Entry(1, pmd.kids[Idx(1, v)]);
  }

  /** One step of the walk: into the entry for v, which is the answer if it is no table. */
  lemma WalkStep(n: Node, l: nat, v: nat)
    requires n.Table? && 2 <= l <= G && Good(n, l)
    ensures Idx(l - 1, v) < |n.kids|
    ensures var kid := n.kids[Idx(l - 1, v)];
      && Good(kid, l - 1)
      && Lookup(n, l, v) == (if kid.Table? then Lookup(kid, l - 1, v) else Entry(l - 1, kid))
      && (l == 2 ==> !kid.Table?)
  {
    hide Size;
  }

  /** `slow_virt_to_phys`, in bytes: right for every page size except under a non-present 512G entry. */
  method SlowVirtToPhys(root: Node, address: nat) returns (phys: nat)
    requires root.Table? && Good(root, G) && At(root, G, address / 4096).Mapped?
    ensures phys == At(root, G, address / 4096).frame * 4096 + address % 4096 <==>
      Lookup(root, G, address / 4096).level <= 3 || address / 4096 % Size(4) == 0
  {
    var e := LookupAddress(root, address / 4096);
    SizeBytes(address);
    match e.level {
      case 3 => phys := e.node.pfn * 4096 + address % (262144 * 4096);
      case 2 => phys := e.node.pfn * 4096 + address % (512 * 4096);
      case _ => phys := e.node.pfn * 4096 + address % 4096;
    }
  }

  lemma SizeBytes(address: nat)
    ensures address % (512 * 4096) == address / 4096 % Size(2) * 4096 + address % 4096
    ensures address % (262144 * 4096) == address / 4096 % Size(3) * 4096 + address % 4096
    ensures address % (134217728 * 4096) == address / 4096 % Size(4) * 4096 + address % 4096
    ensures Size(1) == 1
  {
    assert Size(4) == 134217728 && Size(3) == 262144 && Size(2) == 512;
    DivDiv(address, 4096, 512);
    DivDiv(address, 4096, 262144);
    DivDiv(address, 4096, 134217728);
  }

  // ---------------------------------------------------------------- splitting

  /** The protection of the small entries a large entry is split into. */
  function SplitProt(l: nat, p: Prot): Prot {
    Normal(if l == 2 then LargeTo4k(p) else if Present in p then p else p - {Pse})
  }

  /** The table that replaces a large entry. */
  function SplitInto(l: nat, pfn: nat, p: Prot): Node
    requires l >= 2
  {
    Table(seq(PTRS, i requires 0 <= i < PTRS => Make(pfn + i * Size(l - 1), SplitProt(l, p))))
  }

  lemma SplitKid(l: nat, pfn: nat, p: Prot, i: nat)
    requires 2 <= l <= 3 && GoodLeaf(l, pfn, p) && i < PTRS
    ensures var q := pfn + i * Size(l - 1);
      !Faint(q, SplitProt(l, p)) && GoodLeaf(l - 1, q, SplitProt(l, p)) && Eff(l - 1, SplitProt(l, p)) == Eff(l, p)
  {
    var f := SplitProt(l, p);
    assert Eff(l - 1, f) == Eff(l, p);
    var s := Size(l - 1);
    assert pfn == pfn / Size(l) * Size(l) && Size(l) == PTRS * s;
    Regroup(pfn / Size(l), i, PTRS, s);
    Unique(pfn + i * s, s, pfn / Size(l) * PTRS + i, 0);
    assert Faint(0, f) ==> Faint(0, Eff(l - 1, f));
  }

  /** Splitting a 1G or 2M page changes no translation and no protection. */
  lemma SplitKeeps(l: nat, pfn: nat, p: Prot, w: nat)
    requires 2 <= l <= 3 && GoodLeaf(l, pfn, p)
    ensures Good(SplitInto(l, pfn, p), l) && At(SplitInto(l, pfn, p), l, w) == At(Leaf(pfn, p), l, w)
  {
    hide Size, Idx, GoodLeaf, Eff, SplitProt, Faint;
    forall i | 0 <= i < PTRS ensures Good(SplitInto(l, pfn, p).kids[i], l - 1) { SplitKid(l, pfn, p, i); }
    BlockStep(w, l - 1);
    SplitKid(l, pfn, p, Idx(l - 1, w));
  }

  // ---------------------------------------------------------------- the direct-map counters

  /** The counters of `direct_pages_count`, in 4K units. */
  function Covered(counts: seq<nat>): nat
    requires |counts| == G
  {
    counts[1] * Size(1) + counts[2] * Size(2) + counts[3] * Size(3) + counts[4] * Size(4)
  }

  /** `split_page_count`: one page of the level becomes 512 of the next, and the total in 4K units stays. */
  function SplitCount(counts: seq<nat>, level: nat): (r: seq<nat>)
    requires |counts| == G && 2 <= level <= 4
    ensures |r| == G && Covered(r) == Covered(counts)
    ensures counts[level] == 0 ==> r == counts
    ensures counts[level] > 0 ==> r[level] + 1 == counts[level] && r[level - 1] == counts[level - 1] + 512
    ensures forall i :: 0 <= i < G && i != level && i != level - 1 ==> r[i] == counts[i]
  {
    assert Size(4) == 134217728 && Size(3) == 262144 && Size(2) == 512 && Size(1) == 1;
    if counts[level] == 0 then counts
    else counts[level := counts[level] - 1][level - 1 := counts[level - 1] + PTRS]
  }
}
