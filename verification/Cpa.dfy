/** Changing page attributes over a range: large pages kept, rewritten or split, refining a flat map. */
module Cpa {
  import opened PageTree

  const ENOMEM := -12
  const EINVAL := -22

  // ---------------------------------------------------------------- the flat specification

  /** Flag x is set or kept by the request. */
  predicate Kept(p: Prot, add: Prot, clr: Prot, x: Flag) { x in add || (x in p && x !in clr) }

  /** Whether a page of protection p is to have flag x: what is set or kept, Global only beside Present. */
  predicate Gets(p: Prot, add: Prot, clr: Prot, x: Flag) {
    Kept(p, add, clr, x) && (x == Global ==> Kept(p, add, clr, Present))
  }

  /** The page the request asks for, flag by flag: the same frame with exactly the flags it gets. */
  ghost predicate Granted(g: Page, g': Page, add: Prot, clr: Prot) {
    if g.Hole? then g' == Hole
    else g'.Mapped? && g'.frame == g.frame && forall x: Flag :: x in g'.prot <==> Gets(g.prot, add, clr, x)
  }

  /** A page of frame 0 that gets no flag that matters can no longer be told from a hole. */
  ghost predicate Fades(g: Page, add: Prot, clr: Prot) {
    g.Mapped? && g.frame == 0 && forall x: Flag :: Gets(g.prot, add, clr, x) ==> x == Accessed || x == Dirty
  }

  /** The protection as the source computes it: clear, set, and drop Global without Present. */
  function Asked(p: Prot, add: Prot, clr: Prot): Prot { Normal(p - clr + add) }

  function Change(g: Page, add: Prot, clr: Prot): Page {
    if g.Hole? then Hole else Mapped(g.frame, Asked(g.prot, add, clr))
  }

  /** What the source computes is what is asked for, flag by flag. */
  lemma AskedGets(p: Prot, add: Prot, clr: Prot)
    ensures forall x: Flag :: x in Asked(p, add, clr) <==> Gets(p, add, clr, x)
  {
  }

  lemma ChangeGrants(g: Page, g': Page, add: Prot, clr: Prot)
    ensures g' == Change(g, add, clr) <==> Granted(g, g', add, clr)
    ensures Fades(g, add, clr) <==> g.Mapped? && Faint(g.frame, Asked(g.prot, add, clr))
  {
    if g.Mapped? {
      AskedGets(g.prot, add, clr);
      hide Asked, Gets;
      if Granted(g, g', add, clr) { assert g'.prot == Asked(g.prot, add, clr); }
      if Fades(g, add, clr) {
        forall x | x in Asked(g.prot, add, clr) ensures x in {Accessed, Dirty} { assert Gets(g.prot, add, clr, x); }
      }
    }
  }

  ghost predicate Steady(r: Node, a: nat, b: nat, add: Prot, clr: Prot)
    requires Good(r, G)
  {
    forall w :: a <= w < b ==> !Fades(At(r, G, w), add, clr)
  }

  /**
   * Page w of the range a..b is changed as asked, unless the entry written for it reads as empty:
   * it fades itself, or it lies in a large entry whose first page, frame 0, fades.
   */
  ghost predicate PageUpdated(r0: Node, r1: Node, a: nat, w: nat, add: Prot, clr: Prot)
    requires Good(r0, G) && Good(r1, G)
  {
    var g, g' := At(r0, G, w), At(r1, G, w);
    if g.Hole? || Fades(g, add, clr) then g' == Hole
    else Granted(g, g', add, clr) || (g' == Hole && a + g.frame <= w && Fades(At(r0, G, w - g.frame), add, clr))
  }

  /** r1 is r0 with the pages a..b changed and all others as they were. */
  ghost predicate Updated(r0: Node, r1: Node, a: nat, b: nat, add: Prot, clr: Prot) {
    && Good(r0, G) && Good(r1, G)
    && (forall w :: 0 <= w < TOTAL && !(a <= w < b) ==> At(r1, G, w) == At(r0, G, w))
    && (forall w :: a <= w < b ==> PageUpdated(r0, r1, a, w, add, clr))
  }

  ghost predicate Same(r0: Node, r1: Node) {
    Good(r0, G) && Good(r1, G) && forall w :: 0 <= w < TOTAL ==> At(r1, G, w) == At(r0, G, w)
  }

  lemma UpdatedTwice(r0: Node, r1: Node, r2: Node, a: nat, b: nat, c: nat, add: Prot, clr: Prot)
    requires a <= b <= c <= TOTAL && Updated(r0, r1, a, b, add, clr) && Updated(r1, r2, b, c, add, clr)
    ensures Updated(r0, r2, a, c, add, clr)
  {
    hide At, Good, Fades, Granted;
    forall w | a <= w < c ensures PageUpdated(r0, r2, a, w, add, clr) {
      if w < b {
        assert PageUpdated(r0, r1, a, w, add, clr);
      } else {
        assert PageUpdated(r1, r2, b, w, add, clr);
      }
    }
  }

  lemma SameUpdated(r0: Node, r1: Node, r2: Node, a: nat, b: nat, add: Prot, clr: Prot)
    requires a <= b <= TOTAL && Same(r0, r1) && Updated(r1, r2, a, b, add, clr)
    ensures Updated(r0, r2, a, b, add, clr)
  {
    hide At, Good, Fades, Granted;
    forall w | a <= w < b ensures PageUpdated(r0, r2, a, w, add, clr) { assert PageUpdated(r1, r2, a, w, add, clr); }
  }

  /** The range is changed exactly as asked, flag by flag, if and only if no page of it fades. */
  lemma ExactIffSteady(r0: Node, r1: Node, a: nat, b: nat, add: Prot, clr: Prot)
    requires a <= b <= TOTAL && Updated(r0, r1, a, b, add, clr)
    ensures AsAsked(r0, r1, a, b, add, clr) <==> Steady(r0, a, b, add, clr)
  {
    hide At, Good, Granted, Fades;
    if Steady(r0, a, b, add, clr) {
      forall w | a <= w < b ensures Granted(At(r0, G, w), At(r1, G, w), add, clr) {
        SteadyPage(r0, r1, a, b, w, add, clr);
      }
    } else {
      var w :| a <= w < b && Fades(At(r0, G, w), add, clr);
      FadedPage(r0, r1, a, w, add, clr);
    }
  }

  ghost predicate AsAsked(r0: Node, r1: Node, a: nat, b: nat, add: Prot, clr: Prot)
    requires Good(r0, G) && Good(r1, G)
  {
    forall w :: a <= w < b ==> Granted(At(r0, G, w), At(r1, G, w), add, clr)
  }

  lemma SteadyPage(r0: Node, r1: Node, a: nat, b: nat, w: nat, add: Prot, clr: Prot)
    requires Good(r0, G) && Good(r1, G) && a <= w < b && Steady(r0, a, b, add, clr)
    requires PageUpdated(r0, r1, a, w, add, clr)
    ensures Granted(At(r0, G, w), At(r1, G, w), add, clr)
  {
    hide At, Good, Fades;
    var g := At(r0, G, w);
    assert !Fades(g, add, clr);
    if g.Mapped? && a + g.frame <= w { assert !Fades(At(r0, G, w - g.frame), add, clr); }
  }

  lemma FadedPage(r0: Node, r1: Node, a: nat, w: nat, add: Prot, clr: Prot)
    requires Good(r0, G) && Good(r1, G) && Fades(At(r0, G, w), add, clr) && PageUpdated(r0, r1, a, w, add, clr)
    ensures At(r1, G, w) == Hole && !Granted(At(r0, G, w), At(r1, G, w), add, clr)
  {
    hide At, Good;
  }

  /** A table whose first entry is the only one. */
  function Lone(n: Node): Node { Table(seq(PTRS, i => if i == 0 then n else None)) }

  /** A page of frame 0 that loses Present: asked for a frame without flags, the tree can only hold a hole. */
  lemma FadeExample()
    ensures var r := Lone(Lone(Lone(Lone(Leaf(0, {Present})))));
      && Good(r, G) && !Steady(r, 0, 1, {}, {Present})
      && Granted(At(r, G, 0), Mapped(0, {}), {}, {Present}) && Make(0, {}) == None
  {
    hide At, Good, Lone, Idx, Size;
    var a := Leaf(0, {Present});
    assert Good(a, 1) && At(a, 1, 0) == Mapped(0, {Present}) by { LeafExample(); }
    LoneAt(a, 1);
    LoneAt(Lone(a), 2);
    LoneAt(Lone(Lone(a)), 3);
    LoneAt(Lone(Lone(Lone(a))), 4);
    assert Fades(At(Lone(Lone(Lone(Lone(a)))), G, 0), {}, {Present});
  }

  lemma LeafExample()
    ensures Good(Leaf(0, {Present}), 1) && At(Leaf(0, {Present}), 1, 0) == Mapped(0, {Present})
  {
  }

  lemma LoneAt(n: Node, l: nat)
    requires l >= 1 && Good(n, l)
    ensures Good(Lone(n), l + 1) && At(Lone(n), l + 1, 0) == At(n, l, 0)
  {
    hide Size;
    assert 0 / Size(l) == 0;
  }

  // ---------------------------------------------------------------- one entry

  /** The flags an entry of level l is asked to get, in its own format. */
  function Wanted(l: nat, p: Prot, add: Prot, clr: Prot): Prot {
    if l <= 1 then Asked(p, add, clr)
    else
      var q := Normal(LargeFrom4k(LargeTo4k(p) - clr + add));
      if Present in q then q + {Pse} else q
  }

  /** Converting to 4K format, changing and converting back is the change in 4K format. */
  lemma WantedAgrees(l: nat, pfn: nat, p: Prot, add: Prot, clr: Prot)
    requires PatLarge !in add && GoodLeaf(l, pfn, p)
    ensures var q := Wanted(l, p, add, clr);
      && Eff(l, q) == Asked(Eff(l, p), add, clr)
      && (Global in q ==> Present in q) && (l <= 1 ==> PatLarge !in q) && (l >= 2 ==> (Present in q <==> Pse in q))
      && (Faint(pfn, Eff(l, q)) <==> Faint(pfn, q))
  {
    var x := Eff(l, p) - clr + add;
    assert PatLarge !in x;
    assert LargeTo4k(LargeFrom4k(x)) == x;
  }

  /** The request changes a flag of the page. */
  ghost predicate Alters(g: Page, add: Prot, clr: Prot) {
    g.Mapped? && exists x: Flag :: Gets(g.prot, add, clr, x) != (x in g.prot)
  }

  /** A large entry without Present still has bit 7 set, which rewriting drops. */
  predicate Stale(l: nat, p: Prot) { l >= 2 && Pse in p && Present !in p }

  /** An entry is left as it is exactly when no flag of its pages changes and bit 7 is in order. */
  lemma WantedSame(l: nat, pfn: nat, p: Prot, f: nat, add: Prot, clr: Prot)
    requires PatLarge !in add && GoodLeaf(l, pfn, p)
    ensures Wanted(l, p, add, clr) == p <==> !Alters(Mapped(f, Eff(l, p)), add, clr) && !Stale(l, p)
  {
    WantedAgrees(l, pfn, p, add, clr);
    AskedGets(Eff(l, p), add, clr);
    var q, e := Wanted(l, p, add, clr), Eff(l, p);
    assert Asked(e, add, clr) == e <==> !Alters(Mapped(f, e), add, clr) by {
      if !Alters(Mapped(f, e), add, clr) {
        forall x: Flag ensures x in Asked(e, add, clr) <==> x in e { assert Gets(e, add, clr, x) == (x in e); }
      }
    }
    if Eff(l, q) == e && l >= 2 {
      SameFormat(q, p);
    }
  }

  lemma SameFormat(q: Prot, p: Prot)
    requires LargeTo4k(q) == LargeTo4k(p)
    ensures q - {Pse} == p - {Pse}
  {
    forall x: Flag | x != Pse ensures x in q <==> x in p {
      if x == PatLarge {
        assert Pse in LargeTo4k(q) <==> PatLarge in q;
        assert Pse in LargeTo4k(p) <==> PatLarge in p;
      } else {
        assert x in LargeTo4k(q) <==> x in q;
        assert x in LargeTo4k(p) <==> x in p;
      }
    }
  }

  /**
   * The entry over page v has to be split before n pages from v on can be changed: splits are
   * forced, or its flags change and it reaches beyond those pages.
   */
  ghost predicate MustSplit(r: Node, v: nat, n: nat, add: Prot, clr: Prot, forced: bool)
    requires Good(r, G)
  {
    var e := Lookup(r, G, v);
    && e.node.Leaf? && e.level >= 2
    && (forced || (&& e.level <= 3 && (Alters(At(r, G, v), add, clr) || Stale(e.level, e.node.prot))
                   && (v % Size(e.level) != 0 || n < Size(e.level))))
  }

  /** A 512G mapping, which the source refuses. */
  ghost predicate Refused(r: Node, v: nat, forced: bool)
    requires Good(r, G)
  {
    Lookup(r, G, v).node.Leaf? && Lookup(r, G, v).level == 4 && !forced
  }

  /** Rewriting a whole entry changes each page under it as asked, unless the entry fades. */
  lemma Rewrite(l: nat, pfn: nat, p: Prot, add: Prot, clr: Prot, w: nat)
    requires 1 <= l <= 3 && GoodLeaf(l, pfn, p) && PatLarge !in add
    ensures var q := Wanted(l, p, add, clr);
      && Good(Make(pfn, q), l)
      && (!Faint(pfn, q) ==> Granted(At(Leaf(pfn, p), l, w), At(Make(pfn, q), l, w), add, clr))
      && (Fades(At(Leaf(pfn, p), l, w), add, clr) ==> Faint(pfn, q))
      && (Faint(pfn, q) ==> At(Make(pfn, q), l, w) == Hole)
      && (Faint(pfn, q) && w % Size(l) == 0 ==> Fades(At(Leaf(pfn, p), l, w), add, clr))
  {
    hide Size, Wanted, Asked, Granted, Fades;
    WantedAgrees(l, pfn, p, add, clr);
    ChangeGrants(At(Leaf(pfn, p), l, w), At(Make(pfn, Wanted(l, p, add, clr)), l, w), add, clr);
  }

  lemma InBlock(v: nat, w: nat, s: nat)
    requires s > 0
    ensures v <= w < v + s - v % s ==> w / s == v / s
    ensures v % s == 0 && w / s == v / s ==> v <= w < v + s
  {
    if v <= w < v + s - v % s {
      assert v == v / s * s + v % s;
      Unique(w, s, v / s, w - v / s * s);
    }
    assert w == w / s * s + w % s && v == v / s * s + v % s;
  }

  /** An entry that already has the wanted flags: leaving it alone is the change. */
  lemma KeptUpdates(r: Node, v: nat, n: nat, add: Prot, clr: Prot)
    requires Good(r, G) && v + n <= TOTAL && PatLarge !in add
    requires var e := Lookup(r, G, v);
      e.level >= 1 && e.node.Leaf? && Wanted(e.level, e.node.prot, add, clr) == e.node.prot
    requires n <= Size(Lookup(r, G, v).level) - v % Size(Lookup(r, G, v).level)
    ensures Updated(r, r, v, v + n, add, clr)
  {
    hide At, Size, Wanted, Asked, Lookup, Granted, Fades;
    var e := Lookup(r, G, v);
    WantedAgrees(e.level, e.node.pfn, e.node.prot, add, clr);
    forall w | v <= w < v + n ensures PageUpdated(r, r, v, w, add, clr) {
      InBlock(v, w, Size(e.level));
      AtLeaf(r, v, w);
      ChangeGrants(At(r, G, w), At(r, G, w), add, clr);
    }
  }

  lemma AtLeaf(r: Node, v: nat, w: nat)
    requires Good(r, G) && v < TOTAL && w < TOTAL && Lookup(r, G, v).node.Leaf? && Lookup(r, G, v).level >= 1
    requires w / Size(Lookup(r, G, v).level) == v / Size(Lookup(r, G, v).level)
    ensures var e := Lookup(r, G, v); At(r, G, w) == Mapped(e.node.pfn + w % Size(e.level), Eff(e.level, e.node.prot))
  {
    hide Size;
    Top(v);
    Top(w);
    LookupSame(r, G, v, w);
  }

  lemma WantedHere(r: Node, v: nat, add: Prot, clr: Prot)
    requires Good(r, G) && PatLarge !in add && Lookup(r, G, v).node.Leaf?
    ensures var e := Lookup(r, G, v);
      Wanted(e.level, e.node.prot, add, clr) == e.node.prot <==>
      !Alters(At(r, G, v), add, clr) && !Stale(e.level, e.node.prot)
  {
    hide Size, Wanted, Alters, Stale;
    LookupAt(r, G, v);
    var e := Lookup(r, G, v);
    WantedSame(e.level, e.node.pfn, e.node.prot, e.node.pfn + v % Size(e.level), add, clr);
  }

  /** Rewriting the entry that covers exactly the pages from v on. */
  lemma WriteUpdates(r: Node, v: nat, add: Prot, clr: Prot)
    requires Good(r, G) && PatLarge !in add && v < TOTAL
    requires var e := Lookup(r, G, v);
      1 <= e.level <= 3 && e.node.Leaf? && v % Size(e.level) == 0 && v + Size(e.level) <= TOTAL
    ensures var e := Lookup(r, G, v); var t := Make(e.node.pfn, Wanted(e.level, e.node.prot, add, clr));
      && Path(r, G, e.level, v) && Good(t, e.level)
      && Updated(r, SetAt(r, G, e.level, v, t), v, v + Size(e.level), add, clr)
  {
    hide At, Size, Wanted, Asked, SetAt, Path, Lookup;
    LookupAt(r, G, v);
    var e := Lookup(r, G, v);
    var t := Make(e.node.pfn, Wanted(e.level, e.node.prot, add, clr));
    Rewrite(e.level, e.node.pfn, e.node.prot, add, clr, v);
    SetAtGood(r, G, e.level, v, t);
    var r1 := SetAt(r, G, e.level, v, t);
    forall w | 0 <= w < TOTAL ensures WriteAt(r, r1, v, w, add, clr) { WritePage(r, v, add, clr, w); }
    WriteSums(r, r1, v, Size(e.level), add, clr);
  }

  /** What the rewriting does to page w. */
  ghost predicate WriteAt(r: Node, r1: Node, v: nat, w: nat, add: Prot, clr: Prot)
    requires Good(r, G) && Good(r1, G)
  {
    var e := Lookup(r, G, v);
    if v <= w < v + Size(e.level) then
      && At(r, G, w).Mapped?
      && (if Fades(At(r, G, v), add, clr) then At(r1, G, w) == Hole && At(r, G, w).frame == w - v
          else Granted(At(r, G, w), At(r1, G, w), add, clr) && !Fades(At(r, G, w), add, clr))
    else At(r1, G, w) == At(r, G, w)
  }

  lemma WriteSums(r: Node, r1: Node, v: nat, s: nat, add: Prot, clr: Prot)
    requires Good(r, G) && Good(r1, G) && v + s <= TOTAL && s == Size(Lookup(r, G, v).level)
    requires forall w :: 0 <= w < TOTAL ==> WriteAt(r, r1, v, w, add, clr)
    ensures Updated(r, r1, v, v + s, add, clr)
  {
    hide At, Size, Lookup, Fades, Granted, Good;
    forall w | 0 <= w < TOTAL && !(v <= w < v + s) ensures At(r1, G, w) == At(r, G, w) {
      assert WriteAt(r, r1, v, w, add, clr);
    }
    forall w | v <= w < v + s ensures PageUpdated(r, r1, v, w, add, clr) { assert WriteAt(r, r1, v, w, add, clr); }
  }

  lemma FromStart(v: nat, w: nat, s: nat)
    requires s > 0 && v % s == 0 && w / s == v / s
    ensures w % s == w - v
  {
    assert w == w / s * s + w % s && v == v / s * s + v % s;
  }

  lemma LeafAt(l: nat, pfn: nat, p: Prot, w: nat)
    requires Good(Leaf(pfn, p), l)
    ensures GoodLeaf(l, pfn, p) && At(Leaf(pfn, p), l, w) == Mapped(pfn + w % Size(l), Eff(l, p))
  {
    hide Size;
  }

  lemma WritePage(r: Node, v: nat, add: Prot, clr: Prot, w: nat)
    requires Good(r, G) && PatLarge !in add && v < TOTAL && w < TOTAL
    requires var e := Lookup(r, G, v); 1 <= e.level <= 3 && e.node.Leaf? && v % Size(e.level) == 0
    requires Path(r, G, Lookup(r, G, v).level, v)
    ensures var e := Lookup(r, G, v); var t := Make(e.node.pfn, Wanted(e.level, e.node.prot, add, clr));
      && Good(t, e.level) && Good(SetAt(r, G, e.level, v, t), G)
      && WriteAt(r, SetAt(r, G, e.level, v, t), v, w, add, clr)
  {
    hide Size, Wanted, Asked, SetAt, Path, Lookup, Good, At, Granted, Fades;
    var e := Lookup(r, G, v);
    var t := Make(e.node.pfn, Wanted(e.level, e.node.prot, add, clr));
    LeafAt(e.level, e.node.pfn, e.node.prot, v);
    LeafAt(e.level, e.node.pfn, e.node.prot, w);
    Rewrite(e.level, e.node.pfn, e.node.prot, add, clr, w);
    Rewrite(e.level, e.node.pfn, e.node.prot, add, clr, v);
    Top(v);
    Top(w);
    SetAtMap(r, G, e.level, v, t, w);
    InBlock(v, w, Size(e.level));
    AtLeaf(r, v, v);
    if w / Size(e.level) == v / Size(e.level) {
      AtLeaf(r, v, w);
      FromStart(v, w, Size(e.level));
    }
  }

  // ---------------------------------------------------------------- the operation

  class CpaData {
    var root: Node
    const base: nat
    const add: Prot
    const clr: Prot
    const forceSplit: bool
    var numpages: nat
    var curpage: nat
    var pfn: nat
    var flush: bool
    var oom: bool
    var counts: seq<nat>

    ghost predicate Valid()
      reads this
    {
      root.Table? && Good(root, G) && PatLarge !in add && |counts| == G
    }

    /** Where the loop of the source comes to an end: splits are not forced, or there is no 512G entry. */
    ghost predicate Ends()
      requires Valid()
      reads this
    {
      forceSplit ==> NoTop(root)
    }

    ghost predicate InRange()
      reads this
    {
      base + curpage + numpages <= TOTAL
    }

    constructor (root: Node, base: nat, numpages: nat, add: Prot, clr: Prot, forceSplit: bool, counts: seq<nat>)
      requires root.Table? && Good(root, G) && PatLarge !in add && |counts| == G && base + numpages <= TOTAL
      ensures Valid() && InRange() && this.root == root && this.base == base && this.numpages == numpages
      ensures curpage == 0
      ensures this.add == add && this.clr == clr && this.forceSplit == forceSplit && this.counts == counts && !flush
      ensures !oom
    {
      this.root, this.base, this.numpages, this.add, this.clr := root, base, numpages, add, clr;
      this.forceSplit, this.counts := forceSplit, counts;
      curpage, pfn, flush, oom := 0, 0, false, false;
    }

    /** `__split_large_page`, after a table page has been allocated for it. */
    method SplitLargePage(e: Entry, v: nat)
      requires Valid() && v < TOTAL && e == Lookup(root, G, v) && e.node.Leaf? && 2 <= e.level <= 3
      modifies this`root, this`counts
      ensures Valid() && Same(old(root), root) && (old(NoTop(root)) ==> NoTop(root))
      ensures Lookup(root, G, v).level == e.level - 1 && Lookup(root, G, v).node.Leaf?
      ensures Covered(counts) == Covered(old(counts))
      ensures counts == old(counts) || counts == SplitCount(old(counts), e.level)
    {
      hide At, Good, GoodLeaf, Size, Idx, Path, SetAt, Covered, SplitProt, Faint;
      LookupAt(root, G, v);
      ghost var t := SplitInto(e.level, e.node.pfn, e.node.prot);
      var kids: seq<Node> := [];
      var pfn := e.node.pfn;
      for i := 0 to PTRS
        invariant |kids| == i && pfn == e.node.pfn + i * Size(e.level - 1)
        invariant forall j :: 0 <= j < i ==> kids[j] == t.kids[j]
      {
        kids := kids + [Make(pfn, SplitProt(e.level, e.node.prot))];
        pfn := pfn + Size(e.level - 1);
      }
      assert Table(kids) == t;
      var direct: bool := *;
      if direct {
        counts := SplitCount(counts, e.level);
      }
      SplitInstalls(root, v);
      WriteStays(root, v, e.level, t);
      root := SetAt(root, G, e.level, v, Table(kids));
    }

    /** `__should_split_large_page`: 1 asks for a split, 0 is done, and numpages never leaves the large page. */
    method ShouldSplit(e: Entry, v: nat) returns (r: int)
      requires Valid() && InRange() && v == base + curpage && numpages >= 1
      requires e == Lookup(root, G, v) && e.node.Leaf? && 2 <= e.level <= 4
      modifies this`root, this`numpages, this`pfn, this`flush
      ensures Valid() && 1 <= numpages <= old(numpages) && (old(flush) ==> flush) && (old(NoTop(root)) ==> NoTop(root))
      ensures r == 0 ==> Updated(old(root), root, v, v + numpages, add, clr) && (!flush ==> root == old(root))
      ensures r != 0 ==> root == old(root) && flush == old(flush)
      ensures r == 0 || r == 1 || r == EINVAL
      ensures (forceSplit ==> r == 1) && (r == EINVAL <==> e.level == 4 && !forceSplit)
      ensures r == 1 <==> MustSplit(old(root), v, old(numpages), add, clr, forceSplit)
      ensures forceSplit ==> numpages == old(numpages)
      ensures !forceSplit && e.level <= 3 ==>
        var s := Size(e.level);
        && numpages == (if s - v % s < old(numpages) then s - v % s else old(numpages)) && pfn == e.node.pfn + v % s
        && (r == 1 <==> Wanted(e.level, e.node.prot, add, clr) != e.node.prot && numpages < s)
    {
      hide At, Size, Wanted, SetAt, Path, Lookup, Updated, Alters, Stale;
      LookupAt(root, G, v);
      WantedHere(root, v, add, clr);
      if forceSplit { return 1; }
      if e.level == 4 { return EINVAL; }
      var size := Size(e.level);
      if size - v % size < numpages { numpages := size - v % size; }
      var req := Wanted(e.level, e.node.prot, add, clr);
      pfn := e.node.pfn + v % size;
      if req == e.node.prot {
        KeptUpdates(root, v, numpages, add, clr);
        return 0;
      }
      if v % size != 0 || numpages != size { return 1; }
      WriteUpdates(root, v, add, clr);
      WriteStays(root, v, e.level, Make(e.node.pfn, req));
      root := SetAt(root, G, e.level, v, Make(e.node.pfn, req));
      flush := true;
      return 0;
    }

    /**
     * One pass of `__change_page_attr` from its lookup: done, or it starts over.  Starting over is
     * progress, one level down, if and only if the entry is not a 512G one; a forced split of that
     * gives its page back and changes nothing, so the source would start over for ever.
     */
    method Attempt(v: nat) returns (again: bool, ret: int)
      requires Valid() && InRange() && v == base + curpage && numpages >= 1
      modifies this
      ensures Valid() && curpage == old(curpage) && 1 <= numpages <= old(numpages) && (old(flush) ==> flush)
      ensures Covered(counts) == Covered(old(counts))
      ensures again ==> Same(old(root), root) && flush == old(flush) && Lookup(old(root), G, v).node.Leaf?
      ensures var was, now := Lookup(old(root), G, v).level, Lookup(root, G, v).level;
        again ==> (now < was <==> was <= 3)
      ensures again && Lookup(old(root), G, v).level > 3 ==> forceSplit && root == old(root)
      ensures old(NoTop(root)) ==> NoTop(root)
      ensures !again && ret == 0 ==> Updated(old(root), root, v, v + numpages, add, clr)
      ensures !again && ret == 0 && At(old(root), G, v).Mapped? ==> pfn == At(old(root), G, v).frame
      ensures (!again && ret != 0) || !flush ==> Same(old(root), root)
      ensures again || ret == 0 || (ret == ENOMEM && oom) || ret == EINVAL
      ensures again || ret == ENOMEM <==> MustSplit(old(root), v, old(numpages), add, clr, forceSplit)
      ensures !again ==> (ret == EINVAL <==> Refused(old(root), v, forceSplit)) && (ret != 0 ==> root == old(root))
      ensures again ==> numpages == Shrunk(Lookup(old(root), G, v).level, v, old(numpages), forceSplit)
    {
      hide At, Good, Size, Wanted, SetAt, Path, Updated, Covered, Lookup, Idx, Alters, Stale;
      again, ret := false, 0;
      var e := LookupAddress(root, v);
      SameSelf(root);
      LookupFrame(root, v);
      if e.node.None? {
        numpages := 1;
        HoleUpdates(root, v, add, clr);
      } else if e.level == 1 {
        Change4k(e, v);
      } else {
        ret := ShouldSplit(e, v);
        if ret > 0 {
          var granted: bool := *;
          if granted {
            if e.level <= 3 { SplitLargePage(e, v); }
            again := true;
          } else {
            oom, ret := true, ENOMEM;
          }
        }
      }
    }

    /** `__change_page_attr`: one round, from the page at curpage on. */
    method ChangePageAttr() returns (ret: int)
      requires Valid() && InRange() && numpages >= 1 && Ends()
      modifies this
      ensures Valid() && Ends() && curpage == old(curpage) && 1 <= numpages <= old(numpages) && (old(flush) ==> flush)
      ensures ret == 0 ==> Updated(old(root), root, base + curpage, base + curpage + numpages, add, clr)
      ensures ret == 0 && At(old(root), G, base + curpage).Mapped? ==> pfn == At(old(root), G, base + curpage).frame
      ensures ret != 0 || !flush ==> Same(old(root), root)
      ensures ret == 0 || (ret == ENOMEM && oom) || ret == EINVAL
      ensures ret == ENOMEM ==> MustSplit(root, base + curpage, old(numpages), add, clr, forceSplit)
      ensures ret == EINVAL ==> Refused(root, base + curpage, forceSplit)
      ensures Covered(counts) == Covered(old(counts))
    {
      hide At, Good, Updated, Covered, Lookup, Same, NoTop, MustSplit, Refused, Enough, Shrunk;
      var v := base + curpage;
      var again := true;
      ret := 0;
      SameSelf(root);
      EnoughFirst(Lookup(root, G, v).level, v, numpages);
      while again
        invariant Valid() && Ends() && curpage == old(curpage) && 1 <= numpages <= old(numpages)
        invariant (old(flush) ==> flush)
        invariant Covered(counts) == Covered(old(counts))
        invariant again ==> Same(old(root), root) && flush == old(flush)
        invariant !again && ret == 0 ==> Updated(old(root), root, v, v + numpages, add, clr)
        invariant !again && ret == 0 && At(old(root), G, v).Mapped? ==> pfn == At(old(root), G, v).frame
        invariant !again ==> ret == 0 || (ret == ENOMEM && oom) || ret == EINVAL
        invariant (!again && ret != 0) || !flush ==> Same(old(root), root)
        invariant again ==> Enough(Lookup(root, G, v).level, v, old(numpages), numpages)
        invariant !again && ret == ENOMEM ==> MustSplit(root, v, old(numpages), add, clr, forceSplit)
        invariant !again && ret == EINVAL ==> Refused(root, v, forceSplit)
        decreases again, Lookup(root, G, v).level
      {
        ghost var r0 := root;
        if forceSplit { LevelFour(root, v); }
        ghost var n := numpages;
        again, ret := Attempt(v);
        if again {
          EnoughStill(Lookup(r0, G, v).level, Lookup(root, G, v).level, v, old(numpages), n, forceSplit);
        } else if ret == ENOMEM {
          SplitStill(root, v, old(numpages), n, add, clr, forceSplit);
        }
        SameTrans(old(root), r0, root);
        SameHere(old(root), r0, v);
        if !again && ret == 0 { SameUpdated(old(root), r0, root, v, v + numpages, add, clr); }
      }
    }

    /** The 4K case of `__change_page_attr`. */
    method Change4k(e: Entry, v: nat)
      requires Valid() && InRange() && v == base + curpage && numpages >= 1
      requires e == Lookup(root, G, v) && e.node.Leaf? && e.level == 1
      modifies this`root, this`numpages, this`pfn, this`flush
      ensures Valid() && numpages == 1 && (old(flush) ==> flush) && (!flush ==> root == old(root)) && pfn == e.node.pfn
      ensures old(NoTop(root)) ==> NoTop(root)
      ensures Updated(old(root), root, v, v + 1, add, clr)
    {
      hide At, Size, SetAt, Path, Lookup, Updated;
      SizeOne(v);
      var newProt := Asked(e.node.prot, add, clr);
      pfn := e.node.pfn;
      if Make(e.node.pfn, newProt) != e.node {
        WriteUpdates(root, v, add, clr);
        WriteStays(root, v, e.level, Make(e.node.pfn, newProt));
        root := SetAt(root, G, 1, v, Make(e.node.pfn, newProt));
        flush := true;
      } else {
        KeptUpdates(root, v, 1, add, clr);
      }
      numpages := 1;
    }

    /** `__change_page_attr_set_clr` without alias checks: the pages before curpage are changed, no others. */
    method ChangeRange() returns (ret: int)
      requires Valid() && InRange() && Ends()
      modifies this
      ensures Valid() && Ends() && numpages == old(numpages)
      ensures old(curpage) <= curpage <= old(curpage) + numpages
      ensures Updated(old(root), root, base + old(curpage), base + curpage, add, clr)
      ensures ret == 0 <==> curpage == old(curpage) + numpages
      ensures ret == 0 || (ret == ENOMEM && oom) || ret == EINVAL
      ensures ret == ENOMEM ==>
        MustSplit(root, base + curpage, old(curpage) + numpages - curpage, add, clr, forceSplit)
      ensures ret == EINVAL ==> Refused(root, base + curpage, forceSplit)
      ensures !flush ==> Same(old(root), root)
      ensures Covered(counts) == Covered(old(counts))
    {
      hide At, Good, Size, Updated, Covered, Lookup, Same, NoTop, MustSplit, Refused;
      var all := numpages;
      var rempages := all;
      ret := 0;
      ghost var start := base + curpage;
      NothingUpdates(root, start, add, clr);
      while rempages > 0
        invariant Valid() && Ends() && 0 <= rempages <= all && curpage == old(curpage) + (all - rempages)
        invariant (old(flush) ==> flush)
        invariant Updated(old(root), root, start, base + curpage, add, clr)
        invariant !flush ==> Same(old(root), root)
        invariant ret == 0 && Covered(counts) == Covered(old(counts))
      {
        numpages := rempages;
        ghost var r0 := root;
        ret := ChangePageAttr();
        if ret != 0 {
          SameAfter(old(root), r0, root, start, base + curpage, add, clr);
          SameTrans(old(root), r0, root);
          break;
        }
        assert 1 <= numpages <= rempages;
        UpdatedTwice(old(root), r0, root, start, base + curpage, base + curpage + numpages, add, clr);
        SameTrans(old(root), r0, root);
        rempages := rempages - numpages;
        curpage := curpage + numpages;
      }
      numpages := all;
    }
  }

  /** Of entries up to level l over page v, none that fits n0 pages is kept from fitting n. */
  ghost predicate Enough(l: nat, v: nat, n0: nat, n: nat) {
    forall d :: 1 <= d <= l && v % Size(d) == 0 && Size(d) <= n0 ==> Size(d) <= n
  }

  lemma EnoughStill(was: nat, now: nat, v: nat, n0: nat, n: nat, forced: bool)
    requires Enough(was, v, n0, n) && now < was
    ensures Shrunk(was, v, n, forced) >= 0 && Enough(now, v, n0, Shrunk(was, v, n, forced))
  {
    hide Size;
    forall d | 1 <= d <= now && v % Size(d) == 0 && Size(d) <= n0 ensures Size(d) <= Shrunk(was, v, n, forced) {
      RoomAhead(d, was, v);
    }
  }

  /** From a page that starts an entry of level d there is room for that entry in the larger one around it. */
  lemma RoomAhead(d: nat, l: nat, v: nat)
    requires 1 <= d < l && v % Size(d) == 0
    ensures Size(d) <= Size(l) - v % Size(l)
  {
    hide Size;
    var s, q := Size(d), Times(d, l);
    SizeTimes(d, l);
    DivDiv(v, s, q);
    assert v % (s * q) == v / s % q * s + v % s;
    MulLe(v / s % q + 1, q, s);
    MulSum(v / s % q, 1, s);
  }

  function Times(d: nat, l: nat): (q: nat)
    requires d <= l
    ensures q > 0
  {
    if d == l then 1 else PTRS * Times(d, l - 1)
  }

  lemma {:induction false} SizeTimes(d: nat, l: nat)
    requires 1 <= d <= l
    ensures Size(l) == Size(d) * Times(d, l)
    decreases l
  {
    if d < l {
      SizeTimes(d, l - 1);
      assert PTRS * (Size(d) * Times(d, l - 1)) == Size(d) * (PTRS * Times(d, l - 1));
    }
  }

  lemma SplitStill(r: Node, v: nat, n0: nat, n: nat, add: Prot, clr: Prot, forced: bool)
    requires Good(r, G) && MustSplit(r, v, n, add, clr, forced) && Enough(Lookup(r, G, v).level, v, n0, n)
    ensures MustSplit(r, v, n0, add, clr, forced)
  {
    hide At, Good, Size, Lookup, Alters, Stale;
  }

  lemma EnoughFirst(l: nat, v: nat, n: nat)
    ensures Enough(l, v, n, n)
  {
  }

  /** The pages a pass that asks for a split goes on with: not beyond the large page. */
  function Shrunk(l: nat, v: nat, n: nat, forced: bool): int {
    if forced || Size(l) - v % Size(l) >= n then n else Size(l) - v % Size(l)
  }

  // ---------------------------------------------------------------- steps of the rounds

  lemma SameSelf(r: Node)
    requires Good(r, G)
    ensures Same(r, r)
  {
  }

  lemma SameHere(r0: Node, r1: Node, v: nat)
    requires Same(r0, r1) && v < TOTAL
    ensures At(r1, G, v) == At(r0, G, v)
  {
  }

  lemma SameTrans(r0: Node, r1: Node, r2: Node)
    ensures Same(r0, r1) && Same(r1, r2) ==> Same(r0, r2)
  {
    hide At, Good;
  }

  lemma NothingUpdates(r: Node, a: nat, add: Prot, clr: Prot)
    requires Good(r, G)
    ensures Updated(r, r, a, a, add, clr) && Same(r, r)
  {
    hide At;
  }

  lemma SameAfter(r0: Node, r1: Node, r2: Node, a: nat, b: nat, add: Prot, clr: Prot)
    requires a <= b <= TOTAL && Updated(r0, r1, a, b, add, clr) && Same(r1, r2)
    ensures Updated(r0, r2, a, b, add, clr)
  {
    hide At, Good, Fades, Granted;
    forall w | a <= w < b ensures PageUpdated(r0, r2, a, w, add, clr) { assert PageUpdated(r0, r1, a, w, add, clr); }
  }

  lemma HoleUpdates(r: Node, v: nat, add: Prot, clr: Prot)
    requires Good(r, G) && v < TOTAL && Lookup(r, G, v).node.None?
    ensures Updated(r, r, v, v + 1, add, clr)
  {
    LookupAt(r, G, v);
    hide At, Lookup;
  }

  /** The frame of a page, from the entry its walk ends at. */
  lemma LookupFrame(r: Node, v: nat)
    requires Good(r, G)
    ensures var e := Lookup(r, G, v);
      && (At(r, G, v).Hole? <==> e.node.None?)
      && (e.node.Leaf? ==> At(r, G, v).frame == e.node.pfn + v % Size(e.level))
      && (e.level <= 1 ==> v % Size(e.level) == 0)
  {
    LookupAt(r, G, v);
  }

  lemma SizeOne(v: nat)
    ensures Size(1) == 1 && v % Size(1) == 0
  {
  }

  /** No 512G entry. */
  ghost predicate NoTop(r: Node)
    requires r.Table? && Good(r, G)
  {
    forall i :: 0 <= i < PTRS ==> !r.kids[i].Leaf?
  }

  /** Without 512G entries a walk that ends at a mapping ends at level 3 or below. */
  lemma LevelFour(r: Node, v: nat)
    requires r.Table? && Good(r, G) && NoTop(r)
    ensures Lookup(r, G, v).node.Leaf? ==> Lookup(r, G, v).level <= 3
  {
    hide Size, Idx;
    var k := r.kids[Idx(4, v)];
    assert Lookup(r, G, v) == Lookup(k, 4, v);
    if k.Table? { assert Lookup(k, 4, v) == Lookup(k.kids[Idx(3, v)], 3, v); }
  }

  /** Writing below level 4 leaves the root a table without new 512G entries. */
  lemma WriteStays(r: Node, v: nat, d: nat, t: Node)
    requires r.Table? && Good(r, G) && 1 <= d <= 3 && Path(r, G, d, v) && Good(t, d)
    ensures var s := SetAt(r, G, d, v, t); s.Table? && Good(s, G) && (NoTop(r) ==> NoTop(s))
  {
    hide Size, Idx;
    SetAtGood(r, G, d, v, t);
    var k := r.kids[Idx(4, v)];
    assert Path(k, 4, d, v) && SetAt(k, 4, d, v, t).Table?;
  }

  /** Installing the split table: every translation stays, and the walk for v ends one level lower. */
  lemma SplitInstalls(r: Node, v: nat)
    requires Good(r, G) && v < TOTAL && Lookup(r, G, v).node.Leaf? && 2 <= Lookup(r, G, v).level <= 3
    ensures var e := Lookup(r, G, v); var t := SplitInto(e.level, e.node.pfn, e.node.prot);
      && Good(t, e.level) && Path(r, G, e.level, v) && Same(r, SetAt(r, G, e.level, v, t))
      && Lookup(SetAt(r, G, e.level, v, t), G, v).level == e.level - 1
      && Lookup(SetAt(r, G, e.level, v, t), G, v).node.Leaf?
  {
    hide At, GoodLeaf, Size, Idx, SplitProt, Faint, SetAt;
    LookupAt(r, G, v);
    var e := Lookup(r, G, v);
    var t := SplitInto(e.level, e.node.pfn, e.node.prot);
    SplitKeeps(e.level, e.node.pfn, e.node.prot, v);
    SetAtGood(r, G, e.level, v, t);
    SetAtLookup(r, G, e.level, v, t);
    SplitKid(e.level, e.node.pfn, e.node.prot, Idx(e.level - 1, v));
    forall w | 0 <= w < TOTAL ensures At(SetAt(r, G, e.level, v, t), G, w) == At(r, G, w) {
      SplitKeeps(e.level, e.node.pfn, e.node.prot, w);
      Top(v);
      Top(w);
      SetAtMap(r, G, e.level, v, t, w);
      if w / Size(e.level) == v / Size(e.level) { LookupSame(r, G, v, w); }
    }
  }

  /** All pages under the entry a walk ends at are translated by that entry. */
  lemma {:induction false} LookupSame(n: Node, l: nat, v: nat, w: nat)
    requires Good(n, l) && l >= 1
    requires var d := Lookup(n, l, v).level; d >= 1 && v / Size(d) == w / Size(d) && v / Size(l) == w / Size(l)
    ensures At(n, l, w) == At(Lookup(n, l, v).node, Lookup(n, l, v).level, w)
  {
    hide Size, Idx;
    if n.Table? {
      SameSlot(v, w, Lookup(n, l, v).level, l - 1);
      LookupSame(n.kids[Idx(l - 1, v)], l - 1, v, w);
    }
  }

  lemma SameSlot(v: nat, w: nat, d: nat, l: nat)
    requires 1 <= d <= l && v / Size(d) == w / Size(d)
    ensures v / Size(l) == w / Size(l) && Idx(l, v) == Idx(l, w)
  {
    hide Size;
    BlockUp(v, w, d, l);
  }
}
