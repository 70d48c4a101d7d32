/** Mapping an unmapped range with the largest pages that fit, level by level. */
module Populate {
  import opened PageTree

  const ENTRY_2M := 512
  const ENTRY_1G := 262144

  // ---------------------------------------------------------------- specification

  /** Page w is under the level-l entry number blk. */
  predicate Under(l: nat, blk: nat, w: nat) { w / Size(l) == blk }

  /** The entry of level d over page w lies in a..b. */
  predicate Whole(d: nat, w: nat, a: nat, b: nat) { a <= w - w % Size(d) && w - w % Size(d) + Size(d) <= b }

  /** Page w after the pages a..b have been mapped to the frames from f on. */
  ghost predicate FilledAt(n0: Node, n1: Node, l: nat, w: nat, a: nat, b: nat, f: nat, p: Prot)
    requires Good(n0, l) && Good(n1, l)
  {
    if a <= w < b then At(n1, l, w) == Mapped(f + (w - a), p) && Whole(Lookup(n1, l, w).level, w, a, b)
    else At(n1, l, w) == At(n0, l, w) && (At(n0, l, w).Mapped? ==> Lookup(n1, l, w) == Lookup(n0, l, w))
  }

  /** Under the level-l entry number blk: a..b is mapped in order, everything else stays as it was. */
  ghost predicate Filled(n0: Node, n1: Node, l: nat, blk: nat, a: nat, b: nat, f: nat, p: Prot) {
    Good(n0, l) && Good(n1, l) && forall w: nat :: Under(l, blk, w) ==> FilledAt(n0, n1, l, w, a, b, f, p)
  }

  ghost predicate Within(l: nat, blk: nat, a: nat, b: nat) { forall w: nat :: a <= w < b ==> Under(l, blk, w) }

  ghost predicate Unmapped(n: Node, l: nat, blk: nat, a: nat, b: nat) {
    Good(n, l) && forall w: nat :: a <= w < b && Under(l, blk, w) ==> At(n, l, w) == Hole
  }

  /** The level of the entry for page w when a..b is mapped with the largest pages that fit. */
  function Best(gb: bool, w: nat, a: nat, b: nat): nat {
    if gb && Whole(3, w, a, b) then 3 else if Whole(2, w, a, b) then 2 else 1
  }

  /** The pages a..b are mapped by the largest entries that fit into lo..hi. */
  ghost predicate Sized(n: Node, l: nat, blk: nat, a: nat, b: nat, gb: bool, lo: nat, hi: nat) {
    Good(n, l) && forall w: nat :: a <= w < b && Under(l, blk, w) ==> SizedAt(n, l, w, gb, lo, hi)
  }

  ghost predicate SizedAt(n: Node, l: nat, w: nat, gb: bool, lo: nat, hi: nat)
    requires Good(n, l)
  {
    Lookup(n, l, w).level == Best(gb, w, lo, hi)
  }

  /** Page w cannot be mapped without another table page: the walk for it ends too early, at an empty entry. */
  ghost predicate Stuck(n: Node, l: nat, w: nat, gb: bool, lo: nat, hi: nat) {
    Good(n, l) && Lookup(n, l, w).node.None? && Lookup(n, l, w).level > Best(gb, w, lo, hi)
  }

  function Fresh(): Node { Table(seq(PTRS, _ => None)) }

  // ---------------------------------------------------------------- composing fills

  lemma FillNone(n: Node, l: nat, blk: nat, a: nat, f: nat, p: Prot)
    requires Good(n, l)
    ensures Filled(n, n, l, blk, a, a, f, p)
  {
  }

  lemma FillTwice(n0: Node, n1: Node, n2: Node, l: nat, blk: nat, a: nat, b: nat, c: nat, f: nat, g: nat, p: Prot)
    requires a <= b <= c && g == f + (b - a)
    requires Filled(n0, n1, l, blk, a, b, f, p) && Filled(n1, n2, l, blk, b, c, g, p)
    ensures Filled(n0, n2, l, blk, a, c, f, p)
  {
    hide At, Good, Size, Lookup;
    forall w: nat | Under(l, blk, w) ensures FilledAt(n0, n2, l, w, a, c, f, p) {
      assert FilledAt(n0, n1, l, w, a, b, f, p) && FilledAt(n1, n2, l, w, b, c, g, p);
    }
  }

  /** Filling one entry of a table fills the table. */
  lemma FillKid(k: seq<Node>, e: Node, l: nat, blk: nat, i: nat, sub: nat, a: nat, b: nat, f: nat, p: Prot)
    requires l >= 2 && Good(Table(k), l) && i < PTRS && sub == blk * PTRS + i
    requires Filled(k[i], e, l - 1, sub, a, b, f, p) && Within(l - 1, sub, a, b)
    ensures Filled(Table(k), Table(k[i := e]), l, blk, a, b, f, p)
  {
    hide At, Lookup, Idx, Size;
    forall w: nat | Under(l, blk, w) ensures FilledAt(Table(k), Table(k[i := e]), l, w, a, b, f, p) {
      FillKidAt(k, e, l, blk, i, sub, a, b, f, p, w);
    }
  }

  lemma FillKidAt(k: seq<Node>, e: Node, l: nat, blk: nat, i: nat, sub: nat, a: nat, b: nat, f: nat, p: Prot, w: nat)
    requires l >= 2 && Good(Table(k), l) && i < PTRS && sub == blk * PTRS + i && Under(l, blk, w)
    requires Filled(k[i], e, l - 1, sub, a, b, f, p) && Within(l - 1, sub, a, b)
    ensures Good(Table(k[i := e]), l) && FilledAt(Table(k), Table(k[i := e]), l, w, a, b, f, p)
  {
    hide Idx, Size;
    BlockStep(w, l - 1);
    var j := Idx(l - 1, w);
    if j == i {
      assert FilledAt(k[i], e, l - 1, w, a, b, f, p);
    } else {
      assert !Under(l - 1, sub, w);
      assert k[i := e][j] == k[j];
    }
  }

  /** One large (or 4K) entry fills its whole block. */
  lemma FillLeaf(n0: Node, l: nat, blk: nat, f: nat, q: Prot, p: Prot)
    requires 1 <= l <= 3 && Good(n0, l) && GoodLeaf(l, f, q) && Eff(l, q) == p
    ensures Filled(n0, Leaf(f, q), l, blk, blk * Size(l), blk * Size(l) + Size(l), f, p)
    ensures Within(l, blk, blk * Size(l), blk * Size(l) + Size(l))
  {
    hide Size, Eff, GoodLeaf;
    forall w: nat | Under(l, blk, w)
      ensures FilledAt(n0, Leaf(f, q), l, w, blk * Size(l), blk * Size(l) + Size(l), f, p)
    {
      assert w == w / Size(l) * Size(l) + w % Size(l);
    }
    forall w: nat | blk * Size(l) <= w < blk * Size(l) + Size(l) ensures Under(l, blk, w) {
      Unique(w, Size(l), blk, w - blk * Size(l));
    }
  }

  /** A new table page in an empty entry changes nothing. */
  lemma FillFresh(l: nat, blk: nat, a: nat, f: nat, p: Prot)
    requires l >= 2
    ensures Good(Fresh(), l) && Filled(None, Fresh(), l, blk, a, a, f, p)
  {
    hide Size, Idx;
    assert forall i :: 0 <= i < PTRS ==> Good(Fresh().kids[i], l - 1);
    forall w: nat | Under(l, blk, w) ensures FilledAt(None, Fresh(), l, w, a, a, f, p) {
      assert At(Fresh(), l, w) == At(Fresh().kids[Idx(l - 1, w)], l - 1, w);
    }
  }

  // ---------------------------------------------------------------- composing sizes

  lemma SizedNone(n: Node, l: nat, blk: nat, a: nat, gb: bool, lo: nat, hi: nat)
    requires Good(n, l)
    ensures Sized(n, l, blk, a, a, gb, lo, hi)
  {
  }

  /** A later fill keeps the entries of an earlier one. */
  lemma SizedTwice(n0: Node, n1: Node, n2: Node, l: nat, blk: nat, a: nat, b: nat, c: nat, f: nat, g: nat, p: Prot,
                   gb: bool, lo: nat, hi: nat)
    requires a <= b <= c && Filled(n0, n1, l, blk, a, b, f, p) && Filled(n1, n2, l, blk, b, c, g, p)
    requires Sized(n1, l, blk, a, b, gb, lo, hi) && Sized(n2, l, blk, b, c, gb, lo, hi)
    ensures Sized(n2, l, blk, a, c, gb, lo, hi)
  {
    hide At, Good, Size, Lookup, Best;
    forall w: nat | a <= w < c && Under(l, blk, w) ensures SizedAt(n2, l, w, gb, lo, hi) {
      if w < b {
        assert FilledAt(n0, n1, l, w, a, b, f, p) && FilledAt(n1, n2, l, w, b, c, g, p);
        assert SizedAt(n1, l, w, gb, lo, hi);
      }
    }
  }

  lemma SizedKid(k: seq<Node>, e: Node, l: nat, blk: nat, i: nat, sub: nat, a: nat, b: nat, gb: bool, lo: nat, hi: nat)
    requires l >= 2 && Good(Table(k), l) && i < PTRS && sub == blk * PTRS + i
    requires Sized(e, l - 1, sub, a, b, gb, lo, hi) && Within(l - 1, sub, a, b)
    ensures Sized(Table(k[i := e]), l, blk, a, b, gb, lo, hi)
  {
    hide Idx, Size, Best;
    var n := Table(k[i := e]);
    assert Good(n, l);
    forall w: nat | a <= w < b && Under(l, blk, w) ensures SizedAt(n, l, w, gb, lo, hi) {
      BlockStep(w, l - 1);
      assert Under(l - 1, sub, w) && SizedAt(e, l - 1, w, gb, lo, hi);
      Digits(w / Size(l), Idx(l - 1, w), blk, i);
    }
  }

  /** Extending a sized fill by an entry of the next level. */
  lemma SizedStep(n0: Node, n: Node, e: Node, l: nat, blk: nat, i: nat, sub: nat, start: nat, v: nat, c: nat, f: nat,
                  p: Prot, gb: bool, lo: nat, hi: nat)
    requires l >= 2 && n.Table? && start <= v <= c && i < PTRS && sub == blk * PTRS + i
    requires Filled(n0, n, l, blk, start, v, f, p) && Sized(n, l, blk, start, v, gb, lo, hi)
    requires Good(n, l) && Filled(n.kids[i], e, l - 1, sub, v, c, f + (v - start), p)
    requires Within(l - 1, sub, v, c) && Sized(e, l - 1, sub, v, c, gb, lo, hi)
    ensures Sized(Table(n.kids[i := e]), l, blk, start, c, gb, lo, hi)
  {
    hide At, Lookup, Size, Filled, Within, Sized, Good;
    TableSize(n, l);
    var n' := Table(n.kids[i := e]);
    FillKid(n.kids, e, l, blk, i, sub, v, c, f + (v - start), p);
    SizedKid(n.kids, e, l, blk, i, sub, v, c, gb, lo, hi);
    SizedTwice(n0, n, n', l, blk, start, v, c, f, f + (v - start), p, gb, lo, hi);
  }

  /** One entry of level l - 1 that is the best for its pages. */
  lemma SizedEntry(n0: Node, n: Node, l: nat, start: nat, v: nat, f: nat, p: Prot, gb: bool, lo: nat, hi: nat)
    requires 2 <= l <= 4 && n.Table? && start <= v && v / Size(l) == start / Size(l) && Fillable(f, p)
    requires Filled(n0, n, l, start / Size(l), start, v, f, p) && v % Size(l - 1) == 0
    requires (f + (v - start)) % Size(l - 1) == 0 && Sized(n, l, start / Size(l), start, v, gb, lo, hi)
    requires forall w: nat :: v <= w < v + Size(l - 1) ==> Best(gb, w, lo, hi) == l - 1
    ensures var r := Table(n.kids[Idx(l - 1, v) := Make(f + (v - start), Huge(l - 1, p))]);
      Sized(r, l, start / Size(l), start, v + Size(l - 1), gb, lo, hi)
  {
    hide At, Lookup, Size, Idx, GoodLeaf, Eff, Huge, Fillable, Best;
    var g, sub := f + (v - start), v / Size(l - 1);
    HugeGood(l - 1, f, g, p);
    assert v / Size(l - 1) * Size(l - 1) == v;
    FillLeaf(n.kids[Idx(l - 1, v)], l - 1, sub, g, Huge(l - 1, p), p);
    BlockStep(v, l - 1);
    var e := Leaf(g, Huge(l - 1, p));
    SizedLeaf(e, l - 1, sub, v, v + Size(l - 1), gb, lo, hi);
    SizedStep(n0, n, e, l, start / Size(l), Idx(l - 1, v), sub, start, v, v + Size(l - 1), f, p, gb, lo, hi);
  }

  /** Filling an entry, with a new table page under it or not, fills the table it is in. */
  lemma KidMapped(n: Node, kid: Node, e: Node, l: nat, blk: nat, i: nat, sub: nat, v: nat, b: nat, f: nat, p: Prot,
                  gb: bool, lo: nat, hi: nat)
    requires l >= 2 && n.Table? && Good(n, l) && i < PTRS && sub == blk * PTRS + i && v <= b
    requires Filled(n.kids[i], kid, l - 1, sub, v, v, f, p) && Filled(kid, e, l - 1, sub, v, b, f, p)
    requires Sized(e, l - 1, sub, v, b, gb, lo, hi) && Within(l - 1, sub, v, b)
    ensures Filled(n, Table(n.kids[i := e]), l, blk, v, b, f, p)
    ensures Sized(Table(n.kids[i := e]), l, blk, v, b, gb, lo, hi)
  {
    hide At, Lookup, Size, Filled, Within, Sized, Good;
    TableSize(n, l);
    FillTwice(n.kids[i], kid, e, l - 1, sub, v, v, b, f, f, p);
    FillNone(n, l, blk, v, f, p);
    FillStep(n, n, e, l, blk, i, sub, v, v, b, f, p);
    SizedNone(n, l, blk, v, gb, lo, hi);
    SizedStep(n, n, e, l, blk, i, sub, v, v, b, f, p, gb, lo, hi);
  }

  /** One more 2M page. */
  lemma TwoMegs(n0: Node, n: Node, start: nat, v: nat, end: nat, f: nat, p: Prot)
    requires n.Table? && start <= v && v % ENTRY_2M == 0 && v + ENTRY_2M <= end && Fillable(f, p)
    requires f % ENTRY_2M == start % ENTRY_2M && Within(3, start / Size(3), start, end)
    requires Filled(n0, n, 3, start / Size(3), start, v, f, p)
    requires Sized(n, 3, start / Size(3), start, v, false, start, end)
    ensures |n.kids| == PTRS && (v + ENTRY_2M) % ENTRY_2M == 0
    ensures var r := Table(n.kids[Idx(2, v) := Make(f + (v - start), Huge(2, p))]);
      && Good(r, 3) && Filled(n0, r, 3, start / Size(3), start, v + ENTRY_2M, f, p)
      && Sized(r, 3, start / Size(3), start, v + ENTRY_2M, false, start, end)
  {
    hide At, Good, Filled, Size, Idx, Lookup, Fillable, Huge, Sized, Best;
    assert Under(3, start / Size(3), v);
    FilledGood(n0, n, 3, start / Size(3), start, v, f, p);
    TableSize(n, 3);
    Sizes(v);
    Congruent(f, start, v, ENTRY_2M);
    BestTwo(start, v, end);
    EntryStep(n0, n, 3, start, v, f, p);
    SizedEntry(n0, n, 3, start, v, f, p, false, start, end);
  }

  /** One more 1G page. */
  lemma OneGig(n0: Node, n: Node, start: nat, v: nat, end: nat, f: nat, p: Prot)
    requires n.Table? && start <= v && v % ENTRY_1G == 0 && v + ENTRY_1G <= end && Fillable(f, p)
    requires f % ENTRY_1G == start % ENTRY_1G && Within(4, start / Size(4), start, end)
    requires Filled(n0, n, 4, start / Size(4), start, v, f, p)
    requires Sized(n, 4, start / Size(4), start, v, true, start, end)
    ensures |n.kids| == PTRS && (v + ENTRY_1G) % ENTRY_1G == 0
    ensures var r := Table(n.kids[Idx(3, v) := Make(f + (v - start), Huge(3, p))]);
      && Good(r, 4) && Filled(n0, r, 4, start / Size(4), start, v + ENTRY_1G, f, p)
      && Sized(r, 4, start / Size(4), start, v + ENTRY_1G, true, start, end)
  {
    hide At, Good, Filled, Size, Idx, Lookup, Fillable, Huge, Sized, Best;
    assert Under(4, start / Size(4), v);
    FilledGood(n0, n, 4, start / Size(4), start, v, f, p);
    TableSize(n, 4);
    Sizes(v);
    Congruent(f, start, v, ENTRY_1G);
    BestThree(start, v, end);
    EntryStep(n0, n, 4, start, v, f, p);
    SizedEntry(n0, n, 4, start, v, f, p, true, start, end);
  }

  /** A new table page under a sized fill. */
  lemma FreshUnder(n0: Node, l: nat, blk: nat, a: nat, v: nat, f: nat, g: nat, p: Prot, gb: bool, lo: nat, hi: nat)
    requires l >= 2 && a <= v && g == f + (v - a)
    requires Filled(n0, None, l, blk, a, v, f, p) && Sized(None, l, blk, a, v, gb, lo, hi)
    ensures Good(Fresh(), l) && Filled(n0, Fresh(), l, blk, a, v, f, p) && Sized(Fresh(), l, blk, a, v, gb, lo, hi)
  {
    hide At, Good, Filled, Size, Lookup, Sized, Best, Fresh;
    FillFresh(l, blk, v, g, p);
    FillTwice(n0, None, Fresh(), l, blk, a, v, v, f, g, p);
    SizedNone(Fresh(), l, blk, v, gb, lo, hi);
    SizedTwice(n0, None, Fresh(), l, blk, a, v, v, f, g, p, gb, lo, hi);
  }

  /** Two fills in a row, each with its sizes, the second as part of another range. */
  lemma MappedTwice(n0: Node, n1: Node, n2: Node, l: nat, blk: nat, a: nat, b: nat, c: nat, f: nat, g: nat, p: Prot,
                    gb: bool, lo: nat, hi: nat, gb': bool, lo': nat, hi': nat)
    requires a <= b <= c && g == f + (b - a)
    requires Filled(n0, n1, l, blk, a, b, f, p) && Filled(n1, n2, l, blk, b, c, g, p)
    requires Sized(n1, l, blk, a, b, gb, lo, hi) && Sized(n2, l, blk, b, c, gb', lo', hi')
    requires forall w: nat :: b <= w < c ==> Best(gb, w, lo, hi) == Best(gb', w, lo', hi')
    ensures Filled(n0, n2, l, blk, a, c, f, p) && Sized(n2, l, blk, a, c, gb, lo, hi)
  {
    hide At, Good, Filled, Size, Lookup, Sized, Best;
    FillTwice(n0, n1, n2, l, blk, a, b, c, f, g, p);
    SizedAs(n2, l, blk, b, c, gb', lo', hi', gb, lo, hi);
    SizedTwice(n0, n1, n2, l, blk, a, b, c, f, g, p, gb, lo, hi);
  }

  lemma SizedLeaf(e: Node, l: nat, blk: nat, a: nat, b: nat, gb: bool, lo: nat, hi: nat)
    requires e.Leaf? && Good(e, l) && forall w: nat :: a <= w < b ==> Best(gb, w, lo, hi) == l
    ensures Sized(e, l, blk, a, b, gb, lo, hi)
  {
    hide Best, Size;
  }

  /** The same sizes, seen as part of another range. */
  lemma SizedAs(n: Node, l: nat, blk: nat, a: nat, b: nat, gb: bool, lo: nat, hi: nat, gb': bool, lo': nat, hi': nat)
    requires Sized(n, l, blk, a, b, gb, lo, hi)
    requires forall w: nat :: a <= w < b ==> Best(gb', w, lo', hi') == Best(gb, w, lo, hi)
    ensures Sized(n, l, blk, a, b, gb', lo', hi')
  {
    hide Best, Size, Lookup, Good;
    forall w: nat | a <= w < b && Under(l, blk, w) ensures SizedAt(n, l, w, gb', lo', hi') {
      assert SizedAt(n, l, w, gb, lo, hi) && Best(gb', w, lo', hi') == Best(gb, w, lo, hi);
    }
  }

  lemma StuckKid(n: Node, i: nat, l: nat, w: nat, gb: bool, lo: nat, hi: nat)
    requires l >= 2 && n.Table? && Good(n, l) && i == Idx(l - 1, w) && Stuck(n.kids[i], l - 1, w, gb, lo, hi)
    ensures Stuck(n, l, w, gb, lo, hi)
  {
    hide Best, Size, Idx;
  }

  lemma FreshTable()
    ensures Fresh().Table?
  {
  }

  lemma StuckUnder(n: Node, l: nat, v: nat, w: nat, c: nat, gb: bool, lo: nat, hi: nat)
    requires l >= 2 && n.Table? && Good(n, l) && v <= w < c && Within(l - 1, v / Size(l - 1), v, c)
    requires Stuck(n.kids[Idx(l - 1, v)], l - 1, w, gb, lo, hi)
    ensures Stuck(n, l, w, gb, lo, hi)
  {
    hide Best, Size, Stuck, Good, Lookup;
    var m := l - 1;
    assert Under(m, v / Size(m), w);
    assert Idx(m, w) == Idx(m, v);
    StuckKid(n, Idx(m, v), l, w, gb, lo, hi);
  }

  lemma StuckNone(l: nat, w: nat, gb: bool, lo: nat, hi: nat)
    requires !gb && (l == 3 || (l == 2 && Best(gb, w, lo, hi) == 1))
    ensures Stuck(None, l, w, gb, lo, hi)
  {
  }

  lemma StuckAs(n: Node, l: nat, w: nat, gb: bool, lo: nat, hi: nat, gb': bool, lo': nat, hi': nat)
    requires Stuck(n, l, w, gb, lo, hi) && Best(gb', w, lo', hi') == Best(gb, w, lo, hi)
    ensures Stuck(n, l, w, gb', lo', hi')
  {
    hide Best, Lookup, Good;
  }

  // ---------------------------------------------------------------- which size is best

  /** Up to the next 2M boundary, from a page that does not start one. */
  lemma BestHead(a: nat, b: nat, c: nat)
    requires a % ENTRY_2M != 0 && c <= NextPage(a, ENTRY_2M)
    ensures forall w: nat :: a <= w < c ==> Best(false, w, a, b) == 1
  {
    forall w: nat | a <= w < c ensures Best(false, w, a, b) == 1 {
      Sizes(w);
      assert w / ENTRY_2M == a / ENTRY_2M;
    }
  }

  /** Behind the last 2M boundary. */
  lemma BestTail(a: nat, v: nat, b: nat)
    requires a <= v && v % ENTRY_2M == 0 && b < v + ENTRY_2M
    ensures forall w: nat :: v <= w < b ==> Best(false, w, a, b) == 1
  {
    forall w: nat | v <= w < b ensures Best(false, w, a, b) == 1 {
      Sizes(w);
      assert w / ENTRY_2M == v / ENTRY_2M;
    }
  }

  lemma BestTwo(a: nat, v: nat, b: nat)
    requires a <= v && v % ENTRY_2M == 0 && v + ENTRY_2M <= b
    ensures forall w: nat :: v <= w < v + Size(2) ==> Best(false, w, a, b) == 2
  {
    Sizes(v);
    forall w: nat | v <= w < v + Size(2) ensures Best(false, w, a, b) == 2 {
      assert w / ENTRY_2M == v / ENTRY_2M;
    }
  }

  lemma BestThree(a: nat, v: nat, b: nat)
    requires a <= v && v % ENTRY_1G == 0 && v + ENTRY_1G <= b
    ensures forall w: nat :: v <= w < v + Size(3) ==> Best(true, w, a, b) == 3
  {
    Sizes(v);
    forall w: nat | v <= w < v + Size(3) ensures Best(true, w, a, b) == 3 {
      assert w / ENTRY_1G == v / ENTRY_1G;
    }
  }

  /** A block of 2M lies on one side of a 2M boundary. */
  lemma Aside(w: nat, v: nat)
    requires v % ENTRY_2M == 0
    ensures w >= v ==> w - w % ENTRY_2M >= v
    ensures w < v ==> w - w % ENTRY_2M + ENTRY_2M <= v
  {
  }

  lemma Coarse(v: nat)
    requires v % ENTRY_1G == 0
    ensures v % ENTRY_2M == 0
  {
    Finer(v);
  }

  /** Up to the next 1G boundary, or the end, from a page that does not start 1G. */
  lemma BestFront(gb: bool, a: nat, b: nat, c: nat)
    requires a % ENTRY_1G != 0 && c <= NextPage(a, ENTRY_1G) && (c == b || (c == NextPage(a, ENTRY_1G) && c <= b))
    ensures forall w: nat :: a <= w < c ==> Best(gb, w, a, b) == Best(false, w, a, c)
  {
    Boundary(a, ENTRY_1G);
    forall w: nat | a <= w < c ensures Best(gb, w, a, b) == Best(false, w, a, c) {
      Sizes(w);
      assert w / ENTRY_1G == a / ENTRY_1G;
      if c < b {
        Coarse(c);
        Aside(w, c);
      }
    }
  }

  /** From a 1G boundary on, if no 1G page fits or may be used. */
  lemma BestRest(gb: bool, a: nat, v: nat, b: nat)
    requires a <= v && v % ENTRY_1G == 0 && b <= v + ENTRY_1G && (!gb || b < v + ENTRY_1G)
    ensures forall w: nat :: v <= w < b ==> Best(gb, w, a, b) == Best(false, w, v, b)
  {
    Coarse(v);
    forall w: nat | v <= w < b ensures Best(gb, w, a, b) == Best(false, w, v, b) {
      Sizes(w);
      assert w / ENTRY_1G == v / ENTRY_1G;
      Aside(w, v);
    }
  }

  // ---------------------------------------------------------------- tables and holes

  lemma KidUnmapped(n: Node, l: nat, blk: nat, i: nat, sub: nat, a: nat, b: nat)
    requires l >= 2 && n.Table? && Unmapped(n, l, blk, a, b) && i < PTRS && sub == blk * PTRS + i
    ensures Unmapped(n.kids[i], l - 1, sub, a, b)
  {
    hide Size, Idx;
    var m, kid := l - 1, n.kids[i];
    forall w: nat | a <= w < b && Under(m, sub, w) ensures At(kid, m, w) == Hole {
      BlockStep(w, m);
      Digits(w / Size(l), Idx(m, w), blk, i);
      assert Under(l, blk, w) && At(n, l, w) == Hole;
    }
  }

  lemma TableSize(n: Node, l: nat)
    requires n.Table? && Good(n, l)
    ensures |n.kids| == PTRS
  {
  }

  lemma Digits(q: nat, r: nat, blk: nat, i: nat)
    requires q * PTRS + r == blk * PTRS + i && r < PTRS && i < PTRS
    ensures q == blk && r == i
  {
  }

  /** What is left of an unmapped range stays unmapped. */
  lemma StillUnmapped(n0: Node, n1: Node, l: nat, blk: nat, a: nat, b: nat, c: nat, f: nat, p: Prot)
    requires Unmapped(n0, l, blk, a, c) && Filled(n0, n1, l, blk, a, b, f, p) && a <= b
    ensures Unmapped(n1, l, blk, b, c)
  {
    hide At, Good, Size, Lookup;
    forall w: nat | b <= w < c && Under(l, blk, w) ensures At(n1, l, w) == Hole {
      assert FilledAt(n0, n1, l, w, a, b, f, p);
    }
  }

  /** An entry over an unmapped page is empty or a table. */
  lemma NotLeaf(n: Node, l: nat, blk: nat, a: nat, b: nat)
    requires Unmapped(n, l, blk, a, b) && a < b && a / Size(l) == blk
    ensures !n.Leaf?
  {
    assert At(n, l, a) == Hole;
  }

  // ---------------------------------------------------------------- the code

  /** The fields of the request that populating reads and advances. */
  class Request {
    var pfn: nat
    var numpages: nat
    var oom: bool
    const gbPages: bool

    /** `alloc_pte_page`, `alloc_pmd_page`: a zeroed table page, if there is one. */
    method AllocTable(n: Node) returns (r: Node, ok: bool)
      requires n.None?
      modifies this`oom
      ensures ok ==> r == Fresh() && oom == old(oom)
      ensures !ok ==> r == n && oom
    {
      ok := *;
      if ok { r := Fresh(); } else { r, oom := n, true; }
    }

    /** `populate_pte`. */
    method PopulatePte(start: nat, end: nat, numPages: nat, pmd: Node, prot: Prot, ghost lo: nat, ghost hi: nat)
      returns (r: Node)
      requires pmd.Table? && Good(pmd, 2) && start <= end && Within(2, start / Size(2), start, end)
      requires Fillable(pfn, prot) && forall w: nat :: start <= w < end ==> Best(false, w, lo, hi) == 1
      modifies this`pfn
      ensures var k := if numPages < end - start then numPages else end - start;
        && pfn == old(pfn) + k && r.Table? && Filled(pmd, r, 2, start / Size(2), start, start + k, old(pfn), prot)
        && Sized(r, 2, start / Size(2), start, start + k, false, lo, hi)
    {
      hide At, Good, GoodLeaf, Filled, Faint, Size, Lookup, Fillable, Sized, Best;
      var p := Normal(prot);
      assert p == prot by { FillableNormal(pfn, prot); }
      r := pmd;
      var v, left := start, numPages;
      FillNone(pmd, 2, start / Size(2), start, pfn, p);
      SizedNone(pmd, 2, start / Size(2), start, false, lo, hi);
      while left > 0 && v < end
        invariant start <= v && v - start == pfn - old(pfn) == numPages - left && 0 <= left && v <= end
        invariant r.Table? && Good(r, 2) && Filled(pmd, r, 2, start / Size(2), start, v, old(pfn), p)
        invariant Sized(r, 2, start / Size(2), start, v, false, lo, hi)
      {
        assert |r.kids| == PTRS by { TableSize(r, 2); }
        assert Under(2, start / Size(2), v);
        Sizes(v);
        Sizes(pfn);
        EntryStep(pmd, r, 2, start, v, old(pfn), p);
        SizedEntry(pmd, r, 2, start, v, old(pfn), p, false, lo, hi);
        r := Table(r.kids[Idx(1, v) := Make(pfn, p)]);
        v, left, pfn := v + 1, left - 1, pfn + 1;
      }
    }

    /** The 4K pages v..c of one 2M entry, with a PTE page allocated if there is none. */
    method PteEdge(v: nat, c: nat, numPages: nat, pud: Node, prot: Prot, ghost lo: nat, ghost hi: nat)
      returns (r: Node, ok: bool)
      requires pud.Table? && v < c && numPages == c - v && Within(2, v / Size(2), v, c)
      requires Unmapped(pud, 3, v / Size(3), v, c) && Fillable(pfn, prot)
      requires forall w: nat :: v <= w < c ==> Best(false, w, lo, hi) == 1
      modifies this`pfn, this`oom
      ensures ok ==> r.Table? && pfn == old(pfn) + (c - v) && oom == old(oom)
      ensures ok ==> Filled(pud, r, 3, v / Size(3), v, c, old(pfn), prot)
      ensures ok ==> Sized(r, 3, v / Size(3), v, c, false, lo, hi)
      ensures !ok ==> r == pud && pfn == old(pfn) && oom && Stuck(r, 3, v, false, lo, hi)
    {
      hide At, Good, GoodLeaf, Filled, Faint, Size, Idx, Lookup, Fillable, Within, Sized, Best, Stuck, Unmapped, Fresh;
      EdgeOpens(pud, 3, v, c, pfn, prot);
      var i := Idx(2, v);
      var pmd := pud.kids[i];
      ok := true;
      if pmd.None? {
        pmd, ok := AllocTable(pmd);
        if !ok {
          StuckNone(2, v, false, lo, hi);
          StuckKid(pud, i, 3, v, false, lo, hi);
          return pud, false;
        }
        FreshTable();
      }
      ghost var f := pfn;
      ghost var kid := pmd;
      pmd := PopulatePte(v, c, numPages, pmd, prot, lo, hi);
      KidMapped(pud, kid, pmd, 3, v / Size(3), i, v / Size(2), v, c, f, prot, false, lo, hi);
      r := Table(pud.kids[i := pmd]);
    }

    /** `populate_pmd`: 4K pages up to a 2M boundary, 2M pages, 4K leftovers. */
    method PopulatePmd(start: nat, end: nat, numPages: nat, pud: Node, prot: Prot)
      returns (r: Node, ret: int, ghost k: nat)
      requires start < end && numPages == end - start && Within(3, start / Size(3), start, end)
      requires Unmapped(pud, 3, start / Size(3), start, end) && Fillable(pfn, prot)
      requires pfn % ENTRY_2M == start % ENTRY_2M
      requires pud.Table? || (pud.None? && start % ENTRY_2M == 0 && end - start >= ENTRY_2M)
      modifies this`pfn, this`oom
      ensures k <= numPages && pfn == old(pfn) + k
      ensures Filled(pud, r, 3, start / Size(3), start, start + k, old(pfn), prot)
      ensures Sized(r, 3, start / Size(3), start, start + k, false, start, end)
      ensures (ret == numPages && k == numPages && r.Table? && oom == old(oom)) || (ret == -1 && oom)
      ensures ret < 0 ==> k < numPages && Stuck(r, 3, start + k, false, start, end)
      ensures pud.Table? && start % ENTRY_2M == 0 && end % ENTRY_2M == 0 ==> ret == numPages
    {
      hide At, Good, GoodLeaf, Filled, Faint, Size, Idx, Lookup, Fillable, Within, Unmapped, Whole, NextPage, Sized,
        Best, Stuck;
      UnmappedGood(pud, 3, start / Size(3), start, end);
      Boundary(start, ENTRY_2M);
      var v, cur := start, 0;
      r, ret, k := pud, 0, 0;
      ghost var blk := start / Size(3);
      FillNone(pud, 3, blk, start, pfn, prot);
      SizedNone(pud, 3, blk, start, false, start, end);
      if start % ENTRY_2M != 0 {
        var next := NextPage(start, ENTRY_2M);
        var preEnd := if start + numPages < next then start + numPages else next;
        cur := preEnd - start;
        cur := if numPages < cur then numPages else cur;
        EdgeWithin(start, preEnd);
        UnmappedPart(pud, 3, blk, start, end, start, preEnd);
        BestHead(start, end, preEnd);
        var ok;
        r, ok := PteEdge(start, preEnd, cur, pud, prot, start, end);
        if !ok { return r, -1, 0; }
        v, k := preEnd, cur;
      }
      if numPages == cur { return r, cur, k; }
      r, ret, k := PmdRest(pud, r, start, v, end, cur, numPages, prot, pfn - k);
    }

    /** The part of `populate_pmd` from the 2M boundary on. */
    method PmdRest(ghost n0: Node, n: Node, ghost start: nat, from: nat, end: nat, done: nat, numPages: nat,
                   prot: Prot, ghost f: nat)
      returns (r: Node, ret: int, ghost k: nat)
      requires start <= from < end && from % ENTRY_2M == 0 && done == from - start && numPages == end - start
      requires pfn == f + (from - start) && Fillable(f, prot) && f % ENTRY_2M == start % ENTRY_2M
      requires Within(3, start / Size(3), start, end) && Unmapped(n0, 3, start / Size(3), start, end)
      requires Filled(n0, n, 3, start / Size(3), start, from, f, prot)
      requires Sized(n, 3, start / Size(3), start, from, false, start, end)
      requires n.Table? || (n.None? && end - from >= ENTRY_2M)
      modifies this`pfn, this`oom
      ensures k <= numPages && pfn == f + k && Filled(n0, r, 3, start / Size(3), start, start + k, f, prot)
      ensures Sized(r, 3, start / Size(3), start, start + k, false, start, end)
      ensures (ret == numPages && k == numPages && r.Table? && oom == old(oom)) || (ret == -1 && oom)
      ensures ret < 0 ==> k < numPages && Stuck(r, 3, start + k, false, start, end)
      ensures n.Table? && end % ENTRY_2M == 0 ==> ret == numPages
    {
      hide At, Good, GoodLeaf, Filled, Faint, Size, Idx, Lookup, Fillable, Unmapped, Whole, Huge, Sized, Best, Stuck,
        Within, Under, Fresh, Make, NextPage;
      var v, cur, ok;
      r, v, cur, ok := PmdWhole(n0, n, start, from, end, done, prot, f);
      k := v - start;
      if !ok { return r, -1, k; }
      if v < end {
        if end % ENTRY_2M == 0 { FurtherTwo(v, end); }
        r, ok := PmdTail(n0, r, start, v, end, numPages - cur, prot, f);
        if !ok { return r, -1, k; }
        k := numPages;
      }
      ret := numPages;
    }

    /** The 2M pages of `populate_pmd`. */
    method PmdWhole(ghost n0: Node, n: Node, ghost start: nat, from: nat, end: nat, done: nat, prot: Prot, ghost f: nat)
      returns (r: Node, v: nat, cur: nat, ok: bool)
      requires start <= from < end && from % ENTRY_2M == 0 && done == from - start
      requires pfn == f + (from - start) && Fillable(f, prot) && f % ENTRY_2M == start % ENTRY_2M
      requires Within(3, start / Size(3), start, end)
      requires Filled(n0, n, 3, start / Size(3), start, from, f, prot)
      requires Sized(n, 3, start / Size(3), start, from, false, start, end)
      requires n.Table? || (n.None? && end - from >= ENTRY_2M)
      modifies this`pfn, this`oom
      ensures from <= v <= end && v % ENTRY_2M == 0 && cur == v - start && pfn == f + (v - start)
      ensures Filled(n0, r, 3, start / Size(3), start, v, f, prot)
      ensures Sized(r, 3, start / Size(3), start, v, false, start, end)
      ensures ok ==> end - v < ENTRY_2M && r.Table? && oom == old(oom)
      ensures !ok ==> v < end && oom && Stuck(r, 3, v, false, start, end)
      ensures n.Table? ==> ok
    {
      hide At, Good, GoodLeaf, Filled, Faint, Size, Idx, Lookup, Fillable, Unmapped, Whole, Huge, Sized, Best, Stuck,
        Within, Under, Fresh, Make, NextPage;
      ghost var blk := start / Size(3);
      v, cur, ok := from, done, true;
      r := n;
      while end - v >= ENTRY_2M
        invariant from <= v <= end && v % ENTRY_2M == 0 && cur == v - start && pfn == f + (v - start) && oom == old(oom)
        invariant Filled(n0, r, 3, blk, start, v, f, prot) && Sized(r, 3, blk, start, v, false, start, end)
        invariant r.Table? || (r.None? && !n.Table? && end - v >= ENTRY_2M)
      {
        if r.None? {
          FreshUnder(n0, 3, blk, start, v, f, pfn, prot, false, start, end);
          FreshTable();
          StuckNone(3, v, false, start, end);
          r, ok := AllocTable(r);
          if !ok { return; }
        }
        TwoMegs(n0, r, start, v, end, f, prot);
        r := Table(r.kids[Idx(2, v) := Make(pfn, Huge(2, prot))]);
        v, pfn, cur := v + ENTRY_2M, pfn + ENTRY_2M, cur + ENTRY_2M;
      }
    }

    /** The 4K leftovers of `populate_pmd`. */
    method PmdTail(ghost n0: Node, n: Node, ghost start: nat, v: nat, end: nat, numPages: nat, prot: Prot, ghost f: nat)
      returns (r: Node, ok: bool)
      requires n.Table? && start <= v < end < v + ENTRY_2M && v % ENTRY_2M == 0 && numPages == end - v
      requires pfn == f + (v - start) && Fillable(f, prot)
      requires Within(3, start / Size(3), start, end) && Unmapped(n0, 3, start / Size(3), start, end)
      requires Filled(n0, n, 3, start / Size(3), start, v, f, prot)
      requires Sized(n, 3, start / Size(3), start, v, false, start, end)
      modifies this`pfn, this`oom
      ensures ok ==> r.Table? && pfn == f + (end - start) && oom == old(oom)
      ensures ok ==> Filled(n0, r, 3, start / Size(3), start, end, f, prot)
      ensures ok ==> Sized(r, 3, start / Size(3), start, end, false, start, end)
      ensures !ok ==> r == n && pfn == old(pfn) && oom && Stuck(r, 3, v, false, start, end)
    {
      hide At, Good, GoodLeaf, Filled, Faint, Size, Idx, Lookup, Fillable, Unmapped, Whole, Huge, Sized, Best, Stuck,
        Within, Under, Fresh, Make, NextPage;
      ghost var (blk, g) := (start / Size(3), pfn);
      WithinAt(3, blk, start, end, v);
      Boundary(v, ENTRY_2M);
      NextTwo(v);
      EdgeWithin(v, end);
      StillUnmapped(n0, n, 3, blk, start, v, end, f, prot);
      FillableLater(f, g, prot);
      BestTail(start, v, end);
      r, ok := PteEdge(v, end, numPages, n, prot, start, end);
      if ok { MappedTwice(n0, n, r, 3, blk, start, v, end, f, g, prot, false, start, end, false, start, end); }
    }

    /** The pages v..c of one 1G entry, with a PMD page allocated if there is none. */
    method PudEdge(v: nat, c: nat, numPages: nat, p4d: Node, prot: Prot)
      returns (r: Node, ret: int, allotted: bool, ghost k: nat)
      requires p4d.Table? && v < c && numPages == c - v && Within(3, v / Size(3), v, c)
      requires Unmapped(p4d, 4, v / Size(4), v, c) && Fillable(pfn, prot) && pfn % ENTRY_2M == v % ENTRY_2M
      modifies this`pfn, this`oom
      ensures k <= numPages && pfn == old(pfn) + k && r.Table?
      ensures Filled(p4d, r, 4, v / Size(4), v, v + k, old(pfn), prot)
      ensures Sized(r, 4, v / Size(4), v, v + k, false, v, c)
      ensures (ret == numPages && k == numPages && allotted && oom == old(oom)) || (ret == -1 && oom)
      ensures ret < 0 ==> k < numPages && Stuck(r, 4, v + k, false, v, c)
    {
      hide At, Good, GoodLeaf, Filled, Faint, Size, Idx, Lookup, Fillable, Whole, Sized, Best, Stuck, Within, Unmapped,
        Fresh;
      EdgeOpens(p4d, 4, v, c, pfn, prot);
      var i := Idx(3, v);
      var pud := p4d.kids[i];
      ghost var f := pfn;
      allotted := true;
      if pud.None? {
        pud, allotted := AllocTable(pud);
        if !allotted {
          StuckNone(3, v, false, v, c);
          StuckKid(p4d, i, 4, v, false, v, c);
          FillNone(p4d, 4, v / Size(4), v, f, prot);
          SizedNone(p4d, 4, v / Size(4), v, false, v, c);
          return p4d, -1, false, 0;
        }
        FreshTable();
      }
      ghost var kid := pud;
      pud, ret, k := PopulatePmd(v, c, numPages, pud, prot);
      WithinPart(3, v / Size(3), v, c, v + k);
      KidMapped(p4d, kid, pud, 4, v / Size(4), i, v / Size(3), v, v + k, f, prot, false, v, c);
      r := Table(p4d.kids[i := pud]);
      FilledGood(p4d, r, 4, v / Size(4), v, v + k, f, prot);
      if ret < 0 { StuckUnder(r, 4, v, v + k, c, false, v, c); }
    }

    /**
     * `populate_pud`: page k of the range gets frame k, in the largest page that fits into the
     * range.  It stops short only where a table page is missing and cannot be had.
     */
    method PopulatePud(start: nat, p4d: Node, prot: Prot) returns (r: Node, ret: int, ghost k: nat)
      requires p4d.Table? && numpages >= 1 && Within(4, start / Size(4), start, start + numpages)
      requires Unmapped(p4d, 4, start / Size(4), start, start + numpages)
      requires Fillable(pfn, prot) && pfn % ENTRY_1G == start % ENTRY_1G
      requires gbPages || start + numpages <= Ceiling(start, ENTRY_1G) + ENTRY_1G
      modifies this`pfn, this`oom
      ensures k <= numpages && pfn == old(pfn) + k && r.Table?
      ensures Filled(p4d, r, 4, start / Size(4), start, start + k, old(pfn), prot)
      ensures Sized(r, 4, start / Size(4), start, start + k, gbPages, start, start + numpages)
      ensures (ret == numpages && k == numpages && oom == old(oom)) || (-1 <= ret <= k < numpages && oom)
      ensures k < numpages ==> Stuck(r, 4, start + k, gbPages, start, start + numpages)
      ensures gbPages && start % ENTRY_1G == 0 && (start + numpages) % ENTRY_1G == 0 ==> ret == numpages
    {
      hide At, Good, GoodLeaf, Filled, Faint, Size, Idx, Lookup, Fillable, Within, Unmapped, Whole, NextPage, Sized,
        Best, Stuck;
      UnmappedGood(p4d, 4, start / Size(4), start, start + numpages);
      Boundary(start, ENTRY_1G);
      FinerCongruent(pfn, start);
      var end := start + numpages;
      var v, cur := start, 0;
      r, ret, k := p4d, 0, 0;
      ghost var blk := start / Size(4);
      FillNone(p4d, 4, blk, start, pfn, prot);
      SizedNone(p4d, 4, blk, start, gbPages, start, end);
      if start % ENTRY_1G != 0 {
        var next := NextPage(start, ENTRY_1G);
        var preEnd := if end < next then end else next;
        cur := preEnd - start;
        cur := if numpages < cur then numpages else cur;
        HeadWithin(start, preEnd);
        UnmappedPart(p4d, 4, blk, start, end, start, preEnd);
        var ok;
        BestFront(gbPages, start, end, preEnd);
        r, cur, ok, k := PudEdge(start, preEnd, cur, p4d, prot);
        SizedAs(r, 4, blk, start, start + k, false, start, preEnd, gbPages, start, end);
        if cur < 0 {
          StuckAs(r, 4, start + k, false, start, preEnd, gbPages, start, end);
          return r, cur, k;
        }
        v := preEnd;
      }
      if numpages == cur { return r, cur, k; }
      r, ret, k := PudRest(p4d, r, start, v, cur, prot, pfn - k);
    }

    /** The part of `populate_pud` from the 1G boundary on. */
    method PudRest(ghost n0: Node, n: Node, start: nat, from: nat, done: nat, prot: Prot, ghost f: nat)
      returns (r: Node, ret: int, ghost k: nat)
      requires start <= from < start + numpages && from % ENTRY_1G == 0 && done == from - start
      requires pfn == f + (from - start) && Fillable(f, prot) && f % ENTRY_1G == start % ENTRY_1G
      requires Within(4, start / Size(4), start, start + numpages)
      requires Unmapped(n0, 4, start / Size(4), start, start + numpages)
      requires Filled(n0, n, 4, start / Size(4), start, from, f, prot) && n.Table?
      requires Sized(n, 4, start / Size(4), start, from, gbPages, start, start + numpages)
      requires gbPages || start + numpages <= from + ENTRY_1G
      modifies this`pfn, this`oom
      ensures k <= numpages && pfn == f + k && r.Table? && Filled(n0, r, 4, start / Size(4), start, start + k, f, prot)
      ensures Sized(r, 4, start / Size(4), start, start + k, gbPages, start, start + numpages)
      ensures (ret == numpages && k == numpages && oom == old(oom)) || (-1 <= ret <= k < numpages && oom)
      ensures k < numpages ==> Stuck(r, 4, start + k, gbPages, start, start + numpages)
      ensures gbPages && (start + numpages) % ENTRY_1G == 0 ==> ret == numpages
    {
      hide At, Good, GoodLeaf, Filled, Faint, Size, Idx, Lookup, Fillable, Unmapped, Whole, Huge, Sized, Best, Stuck,
        Within, Under, Fresh, Make, NextPage;
      var end := start + numpages;
      var v, cur;
      r, v, cur := PudWhole(n0, n, start, from, done, prot, f);
      k := v - start;
      if v < end {
        if end % ENTRY_1G == 0 { Further(v, end); }
        var tmp, ok;
        r, tmp, ok, k := PudTail(n0, r, start, v, numpages - cur, prot, f);
        if !ok { return r, -1, k; }
        if tmp < 0 { return r, cur, k; }
        cur := cur + tmp;
      }
      ret := cur;
    }

    /** The 1G pages of `populate_pud`. */
    method PudWhole(ghost n0: Node, n: Node, start: nat, from: nat, done: nat, prot: Prot, ghost f: nat)
      returns (r: Node, v: nat, cur: nat)
      requires start <= from < start + numpages && from % ENTRY_1G == 0 && done == from - start
      requires pfn == f + (from - start) && Fillable(f, prot) && f % ENTRY_1G == start % ENTRY_1G
      requires Within(4, start / Size(4), start, start + numpages)
      requires Filled(n0, n, 4, start / Size(4), start, from, f, prot) && n.Table?
      requires Sized(n, 4, start / Size(4), start, from, gbPages, start, start + numpages)
      modifies this`pfn
      ensures from <= v <= start + numpages && v % ENTRY_1G == 0 && cur == v - start && pfn == f + (v - start)
      ensures r.Table? && Filled(n0, r, 4, start / Size(4), start, v, f, prot)
      ensures Sized(r, 4, start / Size(4), start, v, gbPages, start, start + numpages)
      ensures if gbPages then start + numpages - v < ENTRY_1G else v == from
    {
      hide At, Good, GoodLeaf, Filled, Faint, Size, Idx, Lookup, Fillable, Unmapped, Whole, Huge, Sized, Best, Stuck,
        Within, Under, Fresh, Make, NextPage;
      var end := start + numpages;
      ghost var blk := start / Size(4);
      v, cur := from, done;
      r := n;
      while gbPages && end - v >= ENTRY_1G
        invariant from <= v <= end && v % ENTRY_1G == 0 && cur == v - start && pfn == f + (v - start)
        invariant r.Table? && Filled(n0, r, 4, blk, start, v, f, prot)
        invariant Sized(r, 4, blk, start, v, gbPages, start, end)
        invariant !gbPages ==> v == from
        decreases end - v
      {
        OneGig(n0, r, start, v, end, f, prot);
        r := Table(r.kids[Idx(3, v) := Make(pfn, Huge(3, prot))]);
        v, pfn, cur := v + ENTRY_1G, pfn + ENTRY_1G, cur + ENTRY_1G;
      }
    }

    /** What is left of `populate_pud` behind its 1G pages. */
    method PudTail(ghost n0: Node, n: Node, start: nat, v: nat, left: nat, prot: Prot, ghost f: nat)
      returns (r: Node, ret: int, ok: bool, ghost k: nat)
      requires n.Table? && start <= v && v + left == start + numpages && v % ENTRY_1G == 0 && 0 < left <= ENTRY_1G
      requires (gbPages ==> left < ENTRY_1G) && pfn == f + (v - start) && Fillable(f, prot)
      requires f % ENTRY_1G == start % ENTRY_1G
      requires Within(4, start / Size(4), start, start + numpages)
      requires Unmapped(n0, 4, start / Size(4), start, start + numpages)
      requires Filled(n0, n, 4, start / Size(4), start, v, f, prot)
      requires Sized(n, 4, start / Size(4), start, v, gbPages, start, start + numpages)
      modifies this`pfn, this`oom
      ensures v - start <= k <= numpages && pfn == f + k && r.Table?
      ensures Filled(n0, r, 4, start / Size(4), start, start + k, f, prot)
      ensures Sized(r, 4, start / Size(4), start, start + k, gbPages, start, start + numpages)
      ensures (ret == left && k == numpages && ok && oom == old(oom)) || (ret == -1 && oom && k < numpages)
      ensures ret < 0 ==> Stuck(r, 4, start + k, gbPages, start, start + numpages)
    {
      hide At, Good, GoodLeaf, Filled, Faint, Size, Idx, Lookup, Fillable, Unmapped, Whole, Huge, Sized, Best, Stuck,
        Within, Under, Fresh, Make, NextPage;
      var end := start + numpages;
      ghost var (blk, g) := (start / Size(4), pfn);
      WithinAt(4, blk, start, end, v);
      TailWithin(v, end);
      StillUnmapped(n0, n, 4, blk, start, v, end, f, prot);
      FillableLater(f, g, prot);
      Congruent(f, start, v, ENTRY_1G);
      FinerCongruent(g, v);
      BestRest(gbPages, start, v, end);
      ghost var more;
      r, ret, ok, more := PudEdge(v, end, left, n, prot);
      MappedTwice(n0, n, r, 4, blk, start, v, v + more, f, g, prot, gbPages, start, end, false, v, end);
      if ret < 0 { StuckAs(r, 4, v + more, false, v, end, gbPages, start, end); }
      k := v - start + more;
    }
  }

  /** The entry over the first page of an unmapped range: empty, or a table in which the range is unmapped. */
  lemma EdgeOpens(n: Node, l: nat, v: nat, c: nat, f: nat, p: Prot)
    requires l >= 3 && n.Table? && v < c && Unmapped(n, l, v / Size(l), v, c)
    ensures |n.kids| == PTRS && Good(n, l) && v / Size(l - 1) == v / Size(l) * PTRS + Idx(l - 1, v)
    ensures var kid, sub := n.kids[Idx(l - 1, v)], v / Size(l - 1);
      && !kid.Leaf? && Good(kid, l - 1) && Unmapped(kid, l - 1, sub, v, c)
      && Filled(kid, kid, l - 1, sub, v, v, f, p)
      && (kid.None? ==> Good(Fresh(), l - 1) && Filled(kid, Fresh(), l - 1, sub, v, v, f, p) &&
                        Unmapped(Fresh(), l - 1, sub, v, c))
  {
    hide At, GoodLeaf, Filled, Faint, Size, Idx, Lookup, Fresh;
    TableSize(n, l);
    BlockStep(v, l - 1);
    var i, sub := Idx(l - 1, v), v / Size(l - 1);
    var kid := n.kids[i];
    KidUnmapped(n, l, v / Size(l), i, sub, v, c);
    NotLeaf(kid, l - 1, sub, v, c);
    FillNone(kid, l - 1, sub, v, f, p);
    if kid.None? {
      FillFresh(l - 1, sub, v, f, p);
      StillUnmapped(kid, Fresh(), l - 1, sub, v, v, c, f, p);
    }
  }

  /** Where the 2M or 1G page after v starts. */
  function NextPage(v: nat, size: nat): nat
    requires size > 0
  {
    (v / size + 1) * size
  }

  /** v itself if it starts such a page, the next one otherwise. */
  function Ceiling(v: nat, size: nat): nat
    requires size > 0
  {
    if v % size == 0 then v else NextPage(v, size)
  }

  /** A frame and protection that can be mapped: flags in 4K format, and never an entry that reads as none. */
  predicate Fillable(f: nat, p: Prot) {
    PatLarge !in p && (Global in p ==> Present in p) && !Faint(f, p)
  }

  lemma FillableNormal(f: nat, p: Prot)
    requires Fillable(f, p)
    ensures Normal(p) == p && Huge(1, p) == p
  {
  }

  /** Extending a fill that has come to page v by filling v..c under v's entry of the next level. */
  lemma FillStep(n0: Node, n: Node, e: Node, l: nat, blk: nat, i: nat, sub: nat, start: nat, v: nat, c: nat, f: nat,
                 p: Prot)
    requires l >= 2 && n.Table? && start <= v <= c && i < PTRS && sub == blk * PTRS + i
    requires Filled(n0, n, l, blk, start, v, f, p)
    requires Good(n, l) && Filled(n.kids[i], e, l - 1, sub, v, c, f + (v - start), p)
    requires Within(l - 1, sub, v, c)
    ensures Filled(n0, Table(n.kids[i := e]), l, blk, start, c, f, p)
  {
    hide At, Lookup, Size, Filled, Within;
    FillKid(n.kids, e, l, blk, i, sub, v, c, f + (v - start), p);
    FillTwice(n0, n, Table(n.kids[i := e]), l, blk, start, v, c, f, f + (v - start), p);
  }

  /** A page of level m as one entry, in its own format. */
  function Huge(m: nat, p: Prot): Prot { if m <= 1 then p else LargeFrom4k(p) + {Pse} }

  lemma HugeGood(m: nat, f: nat, g: nat, p: Prot)
    requires 1 <= m <= 3 && Fillable(f, p) && f <= g && g % Size(m) == 0
    ensures GoodLeaf(m, g, Huge(m, p)) && Eff(m, Huge(m, p)) == p && Make(g, Huge(m, p)) == Leaf(g, Huge(m, p))
  {
    assert LargeTo4k(LargeFrom4k(p) + {Pse}) == p;
  }

  /** Extending a fill by one entry of level l - 1. */
  lemma EntryStep(n0: Node, n: Node, l: nat, start: nat, v: nat, f: nat, p: Prot)
    requires 2 <= l <= 4 && n.Table? && start <= v && v / Size(l) == start / Size(l) && Fillable(f, p)
    requires Filled(n0, n, l, start / Size(l), start, v, f, p) && v % Size(l - 1) == 0
    requires (f + (v - start)) % Size(l - 1) == 0
    ensures var r := Table(n.kids[Idx(l - 1, v) := Make(f + (v - start), Huge(l - 1, p))]);
      Good(r, l) && Filled(n0, r, l, start / Size(l), start, v + Size(l - 1), f, p)
  {
    hide At, Lookup, Size, Idx, GoodLeaf, Eff, Huge, Fillable;
    var g := f + (v - start);
    HugeGood(l - 1, f, g, p);
    assert v / Size(l - 1) * Size(l - 1) == v;
    FillLeaf(n.kids[Idx(l - 1, v)], l - 1, v / Size(l - 1), g, Huge(l - 1, p), p);
    BlockStep(v, l - 1);
    FillStep(n0, n, Leaf(g, Huge(l - 1, p)), l, start / Size(l), Idx(l - 1, v), v / Size(l - 1), start, v,
             v + Size(l - 1), f, p);
  }

  lemma Sizes(v: nat)
    ensures Size(1) == 1 && Size(2) == ENTRY_2M && Size(3) == ENTRY_1G && Size(4) == 512 * ENTRY_1G && v % Size(1) == 0
  {
  }

  lemma FilledGood(n0: Node, n1: Node, l: nat, blk: nat, a: nat, b: nat, f: nat, p: Prot)
    requires Filled(n0, n1, l, blk, a, b, f, p)
    ensures Good(n0, l) && Good(n1, l)
  {
  }

  lemma FillableLater(f: nat, g: nat, p: Prot)
    requires Fillable(f, p) && f <= g
    ensures Fillable(g, p)
  {
  }

  /** The pages up to the next 2M boundary share a 2M entry. */
  lemma EdgeWithin(v: nat, c: nat)
    requires v < c <= NextPage(v, ENTRY_2M)
    ensures Within(2, v / Size(2), v, c)
  {
    assert Size(2) == ENTRY_2M;
  }

  lemma HeadWithin(v: nat, c: nat)
    requires v < c <= NextPage(v, ENTRY_1G)
    ensures Within(3, v / Size(3), v, c)
  {
    assert Size(3) == ENTRY_1G;
  }

  lemma TailWithin(v: nat, c: nat)
    requires v % ENTRY_1G == 0 && v < c <= v + ENTRY_1G
    ensures Within(3, v / Size(3), v, c)
  {
    assert Size(3) == ENTRY_1G;
  }

  lemma WithinAt(l: nat, blk: nat, a: nat, b: nat, w: nat)
    requires Within(l, blk, a, b) && a <= w < b
    ensures w / Size(l) == blk
  {
    hide Size;
    assert Under(l, blk, w);
  }

  lemma NextTwo(v: nat)
    requires v % ENTRY_2M == 0
    ensures NextPage(v, ENTRY_2M) == v + ENTRY_2M
  {
  }

  lemma FurtherTwo(v: nat, c: nat)
    requires v % ENTRY_2M == 0 && c % ENTRY_2M == 0 && v < c
    ensures c - v >= ENTRY_2M
  {
  }

  lemma Further(v: nat, c: nat)
    requires v % ENTRY_1G == 0 && c % ENTRY_1G == 0 && v < c
    ensures c - v >= ENTRY_1G
  {
  }

  lemma WithinPart(l: nat, blk: nat, a: nat, b: nat, c: nat)
    requires Within(l, blk, a, b) && c <= b
    ensures Within(l, blk, a, c)
  {
  }

  lemma UnmappedGood(n: Node, l: nat, blk: nat, a: nat, b: nat)
    requires Unmapped(n, l, blk, a, b)
    ensures Good(n, l)
  {
  }

  lemma Boundary(v: nat, size: nat)
    requires size > 0
    ensures v < NextPage(v, size) && NextPage(v, size) % size == 0
  {
    assert v == v / size * size + v % size && (v / size + 1) * size == v / size * size + size;
    Unique(NextPage(v, size), size, v / size + 1, 0);
  }

  lemma UnmappedPart(n: Node, l: nat, blk: nat, a: nat, b: nat, c: nat, d: nat)
    requires Unmapped(n, l, blk, a, b) && a <= c && d <= b
    ensures Unmapped(n, l, blk, c, d)
  {
    hide At, Good, Size;
  }

  /** Page and frame stay congruent. */
  lemma Congruent(f: nat, start: nat, v: nat, s: nat)
    requires start <= v && s > 0 && f % s == start % s
    ensures (f + (v - start)) % s == v % s
  {
    Monotone(start, v, s);
    SumOfThree(f / s, start / s, v / s, s);
    Unique(f + (v - start), s, f / s - start / s + v / s, v % s);
  }

  lemma Monotone(x: nat, y: nat, s: nat)
    requires x <= y && s > 0
    ensures x / s <= y / s
  {
    var p, q := x / s, y / s;
    if q < p {
      MulLe(q + 1, p, s);
      MulSum(q, 1, s);
    }
  }

  lemma SumOfThree(a: int, b: int, q: int, s: int)
    ensures (a - b + q) * s == a * s - b * s + q * s
  {
    MulSum(a - b, q, s);
    MulSum(a - b, b, s);
  }

  lemma FinerCongruent(f: nat, start: nat)
    requires f % ENTRY_1G == start % ENTRY_1G
    ensures f % ENTRY_2M == start % ENTRY_2M
  {
    Finer(f);
    Finer(start);
  }

  lemma Finer(f: nat)
    ensures f % ENTRY_1G % ENTRY_2M == f % ENTRY_2M
  {
    DivDiv(f, 512, 512);
    Unique(f % ENTRY_1G, 512, f / 512 % 512, f % 512);
  }

  /**
   * Writing one entry of a table cannot map a range that reaches beyond that entry.  Without 1G
   * pages the source writes a single entry for all that lies behind the first 1G boundary, so the
   * bound on that rest is exact.
   */
  lemma OneEntryReaches(k: seq<Node>, e: Node, l: nat, blk: nat, i: nat, sub: nat, a: nat, b: nat, f: nat, p: Prot)
    requires l >= 2 && Good(Table(k), l) && i < PTRS && sub == blk * PTRS + i && Unmapped(Table(k), l, blk, a, b)
    requires Within(l, blk, a, b) && Filled(Table(k), Table(k[i := e]), l, blk, a, b, f, p)
    ensures Within(l - 1, sub, a, b)
  {
    hide Size, Idx, Lookup;
    var m := l - 1;
    forall w: nat | a <= w < b ensures Under(m, sub, w) {
      assert Under(l, blk, w) && FilledAt(Table(k), Table(k[i := e]), l, w, a, b, f, p);
      BlockStep(w, m);
    }
  }
}
