/** Unmapping a range, freeing the table pages that become empty. */
module Unmap {
  import opened PageTree
  import opened Populate

  // ---------------------------------------------------------------- specification

  predicate AllNone(k: seq<Node>) { forall i :: 0 <= i < |k| ==> k[i].None? }

  /** A table page is given back exactly when it holds no entry. */
  function Collapse(k: seq<Node>): Node { if AllNone(k) then None else Table(k) }

  /** Some page under entry number blk of level l is in a..b. */
  predicate Meets(l: nat, blk: nat, a: nat, b: nat) { a < b && blk * Size(l) < b && a < blk * Size(l) + Size(l) }

  /** The entry after unmapping a..b: mappings dropped, empty table pages freed bottom up. */
  function Removed(n: Node, l: nat, blk: nat, a: nat, b: nat): Node
    requires Good(n, l)
    decreases l
  {
    if !Meets(l, blk, a, b) then n
    else if n.Table? then Collapse(RemovedKids(n, l, blk, a, b))
    else None
  }

  function RemovedKids(n: Node, l: nat, blk: nat, a: nat, b: nat): (k: seq<Node>)
    requires Good(n, l) && n.Table?
    ensures |k| == PTRS
    decreases l, 0
  {
    seq(PTRS, i requires 0 <= i < PTRS => Removed(n.kids[i], l - 1, blk * PTRS + i, a, b))
  }

  /** What unmapping asks of its caller: in a..b there are 4K entries, and larger mappings that lie inside it. */
  ghost predicate Removable(n: Node, l: nat, blk: nat, a: nat, b: nat) {
    Good(n, l) && forall w: nat :: a <= w < b && Under(l, blk, w) ==> RemovableAt(Lookup(n, l, w), w, a, b)
  }

  predicate RemovableAt(e: Entry, w: nat, a: nat, b: nat) {
    e.level == 1 || (e.node.Leaf? && Whole(e.level, w, a, b))
  }

  // ---------------------------------------------------------------- what removal does to the flat map

  lemma {:induction false} RemovedGood(n: Node, l: nat, blk: nat, a: nat, b: nat)
    requires Good(n, l)
    ensures Good(Removed(n, l, blk, a, b), l)
    decreases l
  {
    hide Meets, AllNone;
    if n.Table? {
      forall i | 0 <= i < PTRS ensures Good(Removed(n.kids[i], l - 1, blk * PTRS + i, a, b), l - 1) {
        RemovedGood(n.kids[i], l - 1, blk * PTRS + i, a, b);
      }
    }
  }

  lemma UnderBounds(l: nat, blk: nat, w: nat)
    ensures Under(l, blk, w) <==> blk * Size(l) <= w < blk * Size(l) + Size(l)
    ensures Under(l, blk, w) ==> w - w % Size(l) == blk * Size(l)
  {
    assert w == w / Size(l) * Size(l) + w % Size(l);
    if blk * Size(l) <= w < blk * Size(l) + Size(l) { Unique(w, Size(l), blk, w - blk * Size(l)); }
  }

  /** A mapping that unmapping meets lies inside the range. */
  lemma MetLeaf(n: Node, l: nat, blk: nat, a: nat, b: nat, w: nat)
    requires l >= 1 && n.Leaf? && Removable(n, l, blk, a, b) && Meets(l, blk, a, b) && Under(l, blk, w)
    ensures a <= w < b
  {
    hide Size;
    UnderBounds(l, blk, w);
    var u := if a < blk * Size(l) then blk * Size(l) else a;
    UnderBounds(l, blk, u);
    assert RemovableAt(Lookup(n, l, u), u, a, b);
    if l == 1 { Sizes(u); }
  }

  lemma KidRemovable(n: Node, l: nat, blk: nat, i: nat, sub: nat, a: nat, b: nat)
    requires l >= 2 && n.Table? && Removable(n, l, blk, a, b) && i < PTRS && sub == blk * PTRS + i
    ensures Removable(n.kids[i], l - 1, sub, a, b)
  {
    hide Size, Idx;
    var m, kid := l - 1, n.kids[i];
    forall w: nat | a <= w < b && Under(m, sub, w) ensures RemovableAt(Lookup(kid, m, w), w, a, b) {
      BlockStep(w, m);
      Digits(w / Size(l), Idx(m, w), blk, i);
      assert Under(l, blk, w) && RemovableAt(Lookup(n, l, w), w, a, b);
    }
  }

  /** Exactly the pages a..b are gone; every other page keeps its translation. */
  lemma {:induction false} RemovedAt(n: Node, l: nat, blk: nat, a: nat, b: nat, w: nat)
    requires l >= 1 && Removable(n, l, blk, a, b) && Under(l, blk, w)
    ensures Good(Removed(n, l, blk, a, b), l)
    ensures At(Removed(n, l, blk, a, b), l, w) == if a <= w < b then Hole else At(n, l, w)
    decreases l
  {
    hide Size, Idx;
    RemovedGood(n, l, blk, a, b);
    UnderBounds(l, blk, w);
    if !Meets(l, blk, a, b) {
    } else if n.Leaf? {
      MetLeaf(n, l, blk, a, b, w);
    } else if n.Table? {
      var i := Idx(l - 1, w);
      BlockStep(w, l - 1);
      KidRemovable(n, l, blk, i, blk * PTRS + i, a, b);
      RemovedAt(n.kids[i], l - 1, blk * PTRS + i, a, b, w);
      assert RemovedKids(n, l, blk, a, b)[i] == Removed(n.kids[i], l - 1, blk * PTRS + i, a, b);
    }
  }

  /** No table page the range meets is left without an entry. */
  predicate Tight(n: Node, l: nat, blk: nat, a: nat, b: nat)
    requires Good(n, l)
  {
    Meets(l, blk, a, b) && n.Table? ==>
      !AllNone(n.kids) && forall i :: 0 <= i < PTRS ==> Tight(n.kids[i], l - 1, blk * PTRS + i, a, b)
  }

  /** Every PTE and PMD page that became empty has been freed. */
  lemma {:induction false} RemovedTight(n: Node, l: nat, blk: nat, a: nat, b: nat)
    requires Good(n, l)
    ensures Good(Removed(n, l, blk, a, b), l) && Tight(Removed(n, l, blk, a, b), l, blk, a, b)
    decreases l
  {
    hide Meets, AllNone;
    RemovedGood(n, l, blk, a, b);
    if n.Table? {
      forall i | 0 <= i < PTRS
        ensures Good(Removed(n.kids[i], l - 1, blk * PTRS + i, a, b), l - 1)
        ensures Tight(Removed(n.kids[i], l - 1, blk * PTRS + i, a, b), l - 1, blk * PTRS + i, a, b)
      {
        RemovedTight(n.kids[i], l - 1, blk * PTRS + i, a, b);
      }
    }
  }

  // ---------------------------------------------------------------- entries one by one

  /** a..b and c..d agree on the pages from lo to hi. */
  predicate Agree(lo: nat, hi: nat, a: nat, b: nat, c: nat, d: nat) {
    forall w :: lo <= w < hi ==> (In(w, a, b) <==> In(w, c, d))
  }

  predicate In(w: int, a: nat, b: nat) { a <= w < b }

  lemma KidBounds(l: nat, blk: nat, i: nat)
    requires l >= 2 && i < PTRS
    ensures blk * Size(l) <= (blk * PTRS + i) * Size(l - 1)
    ensures (blk * PTRS + i) * Size(l - 1) + Size(l - 1) <= blk * Size(l) + Size(l)
  {
    assert Size(l) == PTRS * Size(l - 1);
    Regroup(blk, i, PTRS, Size(l - 1));
  }

  /** Only the part of the range under an entry matters for it. */
  lemma {:induction false} RemovedLocal(n: Node, l: nat, blk: nat, a: nat, b: nat, c: nat, d: nat)
    requires l >= 1 && Good(n, l) && Agree(blk * Size(l), blk * Size(l) + Size(l), a, b, c, d)
    ensures Removed(n, l, blk, a, b) == Removed(n, l, blk, c, d)
    decreases l
  {
    hide Size, AllNone, RemovedKids;
    MeetsLocal(blk * Size(l), Size(l), a, b, c, d);
    if n.Table? {
      RemovedKidsLocal(n, l, blk, a, b, c, d);
    }
  }

  lemma {:induction false} RemovedKidsLocal(n: Node, l: nat, blk: nat, a: nat, b: nat, c: nat, d: nat)
    requires l >= 1 && Good(n, l) && n.Table? && Agree(blk * Size(l), blk * Size(l) + Size(l), a, b, c, d)
    ensures RemovedKids(n, l, blk, a, b) == RemovedKids(n, l, blk, c, d)
    decreases l, 0
  {
    hide Size, Removed;
    forall i | 0 <= i < PTRS
      ensures Removed(n.kids[i], l - 1, blk * PTRS + i, a, b) == Removed(n.kids[i], l - 1, blk * PTRS + i, c, d)
    {
      KidBounds(l, blk, i);
      RemovedLocal(n.kids[i], l - 1, blk * PTRS + i, a, b, c, d);
    }
  }

  lemma MeetsLocal(lo: nat, s: nat, a: nat, b: nat, c: nat, d: nat)
    requires s > 0 && Agree(lo, lo + s, a, b, c, d)
    ensures (a < b && lo < b && a < lo + s) <==> (c < d && lo < d && c < lo + s)
  {
    var u := if a < lo then lo else a;
    var v := if c < lo then lo else c;
    assert lo <= u < lo + s ==> (In(u, a, b) <==> In(u, c, d));
    assert lo <= v < lo + s ==> (In(v, a, b) <==> In(v, c, d));
  }

  /** The table n with its entries below i already unmapped. */
  ghost predicate Done(n: Node, k: seq<Node>, l: nat, blk: nat, a: nat, b: nat, i: nat) {
    && Good(n, l) && n.Table? && |k| == PTRS
    && forall j :: 0 <= j < PTRS ==> k[j] == if j < i then RemovedKids(n, l, blk, a, b)[j] else n.kids[j]
  }

  lemma DoneStart(n: Node, l: nat, blk: nat, a: nat, b: nat)
    requires l >= 2 && Good(n, l) && n.Table? && Under(l, blk, a)
    ensures Done(n, n.kids, l, blk, a, b, Idx(l - 1, a))
  {
    hide Size, Idx, Good, Meets;
    BlockStep(a, l - 1);
    KidGood(n, l, 0);
    forall j | 0 <= j < Idx(l - 1, a) ensures RemovedKids(n, l, blk, a, b)[j] == n.kids[j] {
      Before(l - 1, blk * PTRS + j, a, b);
      KidGood(n, l, j);
    }
  }

  lemma KidGood(n: Node, l: nat, j: nat)
    requires Good(n, l) && n.Table? && j < PTRS
    ensures l >= 2 && |n.kids| == PTRS && Good(n.kids[j], l - 1)
  {
  }

  lemma Before(m: nat, sub: nat, a: nat, b: nat)
    requires sub < a / Size(m)
    ensures !Meets(m, sub, a, b)
  {
    hide Size;
    assert a == a / Size(m) * Size(m) + a % Size(m);
    assert (sub + 1) * Size(m) <= a / Size(m) * Size(m);
  }

  /** Once the entries up to the end of the range are done, all are. */
  lemma DoneEnd(n: Node, k: seq<Node>, l: nat, blk: nat, a: nat, b: nat, i: nat)
    requires Done(n, k, l, blk, a, b, i) && b <= (blk * PTRS + i) * Size(l - 1)
    ensures k == RemovedKids(n, l, blk, a, b)
  {
    hide Size, Good;
    KidGood(n, l, 0);
    forall j | i <= j < PTRS ensures RemovedKids(n, l, blk, a, b)[j] == n.kids[j] {
      assert (blk * PTRS + i) * Size(l - 1) <= (blk * PTRS + j) * Size(l - 1);
      assert !Meets(l - 1, blk * PTRS + j, a, b);
      KidGood(n, l, j);
    }
  }

  // ---------------------------------------------------------------- the code

  /** `try_to_free_pte_page`, `try_to_free_pmd_page`. */
  method TryToFree(k: seq<Node>) returns (free: bool)
    ensures free <==> AllNone(k)
  {
    for i := 0 to |k|
      invariant forall j :: 0 <= j < i ==> k[j].None?
    {
      if !k[i].None? { return false; }
    }
    free := true;
  }

  /** `unmap_pte_range`. */
  method UnmapPteRange(pmd: Node, start: nat, end: nat) returns (r: Node, freed: bool)
    requires pmd.Table? && Good(pmd, 2) && start < end && Within(2, start / Size(2), start, end)
    ensures r == Removed(pmd, 2, start / Size(2), start, end) && (freed <==> r.None?)
  {
    hide Good, Idx, RemovedKids, AllNone, Removed;
    ghost var blk := start / Size(2);
    KidGood(pmd, 2, 0);
    DoneStart(pmd, 2, blk, start, end);
    var k := pmd.kids;
    var v, i := start, Idx(1, start);
    PteSlot(start, blk);
    while v < end
      invariant start <= v <= end && v == blk * PTRS + i && |k| == PTRS && i <= PTRS
      invariant Done(pmd, k, 2, blk, start, end, i)
    {
      assert Under(2, blk, v);
      PteSlot(v, blk);
      PteGone(pmd, blk, start, end, i);
      k := k[i := None];
      v, i := v + 1, i + 1;
    }
    DoneEnd(pmd, k, 2, blk, start, end, i);
    RemovedTable(pmd, 2, blk, start, end, start);
    freed := TryToFree(k);
    r := if freed then None else Table(k);
  }

  lemma PteSlot(v: nat, blk: nat)
    requires Under(2, blk, v)
    ensures v == blk * PTRS + Idx(1, v) && Idx(1, v) < PTRS && Size(1) == 1
  {
    BlockStep(v, 1);
  }

  lemma PteGone(pmd: Node, blk: nat, a: nat, b: nat, i: nat)
    requires pmd.Table? && Good(pmd, 2) && i < PTRS && a <= blk * PTRS + i < b
    ensures RemovedKids(pmd, 2, blk, a, b)[i] == None
  {
    assert Good(pmd.kids[i], 1) && !pmd.kids[i].Table?;
  }

  /** A table the range meets is collapsed after its entries are done. */
  lemma RemovedTable(n: Node, l: nat, blk: nat, a: nat, b: nat, w: nat)
    requires Good(n, l) && n.Table? && a <= w < b && Under(l, blk, w)
    ensures Removed(n, l, blk, a, b) == Collapse(RemovedKids(n, l, blk, a, b))
  {
    hide Size, RemovedKids, Good;
    UnderBounds(l, blk, w);
  }

  /** `__unmap_pmd_range`: part of one 2M entry, freeing its PTE page and then the PMD page if empty. */
  method UnmapPmdEntry(k: seq<Node>, i: nat, start: nat, end: nat) returns (r: Node)
    requires |k| == PTRS && i < PTRS && k[i].Table? && Good(k[i], 2)
    requires start < end && Within(2, start / Size(2), start, end)
    ensures r == Collapse(k[i := Removed(k[i], 2, start / Size(2), start, end)])
  {
    hide Good, Removed, Within;
    var pmd, freed := UnmapPteRange(k[i], start, end);
    r := Table(k[i := pmd]);
    assert k[i := pmd][i] == pmd;
    if freed {
      var free := TryToFree(k[i := pmd]);
      if free { r := None; }
    }
  }

  /** The table page still there, or freed because it was empty. */
  ghost predicate Stored(r: Node, k: seq<Node>) { r == Table(k) || (r == None && AllNone(k)) }

  /** The entry over a page of the range is no hole, and a mapping only if it lies inside the range. */
  lemma MetKid(n: Node, l: nat, blk: nat, a: nat, b: nat, v: nat)
    requires 3 <= l <= 4 && n.Table? && Removable(n, l, blk, a, b) && a <= v < b && Under(l, blk, v)
    ensures var kid := n.kids[Idx(l - 1, v)];
      Good(kid, l - 1) && !kid.None? && (kid.Leaf? ==> Whole(l - 1, v, a, b))
    ensures v / Size(l - 1) == blk * PTRS + Idx(l - 1, v) && |n.kids| == PTRS
  {
    hide Size, Idx;
    BlockStep(v, l - 1);
    assert RemovableAt(Lookup(n, l, v), v, a, b);
  }

  /** One more entry done: its part v..c of the range is all of the range under it. */
  lemma DoneStep(n: Node, k: seq<Node>, l: nat, blk: nat, a: nat, b: nat, i: nat, sub: nat, v: nat, c: nat)
    requires Done(n, k, l, blk, a, b, i) && i < PTRS && sub == blk * PTRS + i && a <= v < c <= b
    requires v == a || v <= sub * Size(l - 1)
    requires c == b || c >= sub * Size(l - 1) + Size(l - 1)
    ensures k[i] == n.kids[i] && Good(n.kids[i], l - 1)
    ensures Done(n, k[i := Removed(n.kids[i], l - 1, sub, v, c)], l, blk, a, b, i + 1)
  {
    hide Size, Good, Removed;
    KidGood(n, l, i);
    RemovedLocal(n.kids[i], l - 1, sub, v, c, a, b);
    assert RemovedKids(n, l, blk, a, b)[i] == Removed(n.kids[i], l - 1, sub, a, b);
  }

  /** `unmap_pmd_range`: 4K pages up to a 2M boundary, 2M chunks, 4K leftovers. */
  method UnmapPmdRange(pud: Node, start: nat, end: nat) returns (r: Node)
    requires pud.Table? && start < end && Within(3, start / Size(3), start, end)
    requires Removable(pud, 3, start / Size(3), start, end)
    ensures r == Removed(pud, 3, start / Size(3), start, end)
  {
    hide Good, Idx, RemovedKids, AllNone, Removed, Done, Whole, Size, NextPage, Removable;
    ghost var blk := start / Size(3);
    Sizes(start);
    MetKid(pud, 3, blk, start, end, start);
    RemovableGood(pud, 3, blk, start, end);
    DoneStart(pud, 3, blk, start, end);
    RemovedTable(pud, 3, blk, start, end, start);
    ghost var k := pud.kids;
    r := pud;
    var v, i := start, Idx(2, start);
    Aligned(start, blk * PTRS + i, ENTRY_2M);
    if start % ENTRY_2M != 0 {
      var next := NextPage(start, ENTRY_2M);
      var preEnd := if end < next then end else next;
      EdgeWithin(start, preEnd);
      NoWhole(2, start, start, end);
      DoneStep(pud, k, 3, blk, start, end, i, blk * PTRS + i, start, preEnd);
      k := k[i := Removed(pud.kids[i], 2, blk * PTRS + i, start, preEnd)];
      r := UnmapPmdEntry(r.kids, i, start, preEnd);
      v, i := preEnd, i + 1;
    }
    r := UnmapPmdRest(pud, start, end, k, r, v, i);
  }

  /** The part of `unmap_pmd_range` from the 2M boundary on. */
  method UnmapPmdRest(ghost pud: Node, ghost start: nat, end: nat, ghost k0: seq<Node>, n: Node, from: nat, i0: nat)
    returns (r: Node)
    requires pud.Table? && start <= from <= end && start < end && Within(3, start / Size(3), start, end)
    requires Removable(pud, 3, start / Size(3), start, end)
    requires Done(pud, k0, 3, start / Size(3), start, end, i0) && Stored(n, k0)
    requires from < end ==> from == (start / Size(3) * PTRS + i0) * ENTRY_2M
    requires end <= from ==> end <= (start / Size(3) * PTRS + i0) * ENTRY_2M
    ensures r == Removed(pud, 3, start / Size(3), start, end)
  {
    hide Good, Idx, RemovedKids, AllNone, Removed, Done, Whole, Size, Removable;
    ghost var blk := start / Size(3);
    ghost var k := k0;
    r := n;
    var v: nat, i: nat := from, i0;
    Sizes(start);
    RemovableGood(pud, 3, blk, start, end);
    while end - v >= ENTRY_2M
      invariant start <= v <= end && Done(pud, k, 3, blk, start, end, i) && Stored(r, k)
      invariant v < end ==> v == (blk * PTRS + i) * ENTRY_2M
      invariant end <= v ==> end <= (blk * PTRS + i) * ENTRY_2M
    {
      Chunk(pud, k, 3, blk, start, end, v, i, v + ENTRY_2M, r);
      ghost var kid := Removed(pud.kids[i], 2, blk * PTRS + i, v, v + ENTRY_2M);
      if r.kids[i].Leaf? {
        LeafGone(pud.kids[i], 2, blk * PTRS + i, v, v + ENTRY_2M);
        r := Table(r.kids[i := None]);
      } else {
        r := UnmapPmdEntry(r.kids, i, v, v + ENTRY_2M);
      }
      k := k[i := kid];
      v, i := v + ENTRY_2M, i + 1;
    }
    RemovedTable(pud, 3, blk, start, end, start);
    if v < end {
      Chunk(pud, k, 3, blk, start, end, v, i, end, r);
      NoWhole(2, v, start, end);
      ghost var kid := Removed(pud.kids[i], 2, blk * PTRS + i, v, end);
      r := UnmapPmdEntry(r.kids, i, v, end);
      DoneEnd(pud, k[i := kid], 3, blk, start, end, i + 1);
      return;
    }
    DoneEnd(pud, k, 3, blk, start, end, i);
    if r.Table? {
      var free := TryToFree(r.kids);
      if free { r := None; }
    }
  }

  lemma RemovableGood(n: Node, l: nat, blk: nat, a: nat, b: nat)
    requires Removable(n, l, blk, a, b)
    ensures Good(n, l)
  {
  }

  lemma Aligned(v: nat, q: nat, s: nat)
    requires s > 0 && q == v / s
    ensures v % s == 0 ==> v == q * s
    ensures NextPage(v, s) == (q + 1) * s && v < (q + 1) * s
  {
    assert v == v / s * s + v % s;
    Boundary(v, s);
  }

  /** A range that begins or ends inside an entry does not hold all of it. */
  lemma NoWhole(d: nat, v: nat, a: nat, b: nat)
    ensures (v == a && v % Size(d) != 0) || v - v % Size(d) + Size(d) > b ==> !Whole(d, v, a, b)
  {
  }

  lemma LeafGone(n: Node, l: nat, sub: nat, v: nat, c: nat)
    requires Good(n, l) && n.Leaf? && v < c && Under(l, sub, v)
    ensures Removed(n, l, sub, v, c) == None
  {
    hide Size, Good;
    UnderBounds(l, sub, v);
  }

  /** Facts at the chunk v..c of entry i: the table page is still there, its entry untouched and not empty. */
  lemma Chunk(n: Node, k: seq<Node>, l: nat, blk: nat, a: nat, b: nat, v: nat, i: nat, c: nat, r: Node)
    requires 3 <= l <= 4 && n.Table? && a <= v < c <= b && v == (blk * PTRS + i) * Size(l - 1)
    requires c <= v + Size(l - 1) && (c == b || c == v + Size(l - 1))
    requires Within(l, blk, a, b) && Removable(n, l, blk, a, b) && Done(n, k, l, blk, a, b, i) && Stored(r, k)
    ensures i < PTRS && |n.kids| == PTRS && r == Table(k) && |k| == PTRS && k[i] == n.kids[i]
    ensures Good(n.kids[i], l - 1) && !n.kids[i].None? && (n.kids[i].Leaf? ==> Whole(l - 1, v, a, b))
    ensures v / Size(l - 1) == blk * PTRS + i && Within(l - 1, blk * PTRS + i, v, c)
    ensures Done(n, k[i := Removed(n.kids[i], l - 1, blk * PTRS + i, v, c)], l, blk, a, b, i + 1)
  {
    hide Good, Idx, RemovedKids, Removed, Whole, Size, Removable;
    assert Under(l, blk, v);
    MetKid(n, l, blk, a, b, v);
    var m, sub := l - 1, blk * PTRS + i;
    Unique(v, Size(m), sub, 0);
    forall w: nat | v <= w < c ensures Under(m, sub, w) { UnderBounds(m, sub, w); }
    DoneStep(n, k, l, blk, a, b, i, sub, v, c);
  }

  // ---------------------------------------------------------------- one level up

  /** A small block lies inside the large block of its pages. */
  lemma {:induction false} BlockInside(d: nat, l: nat, w: nat)
    requires 1 <= d <= l
    ensures w - w % Size(l) <= w - w % Size(d) && w - w % Size(d) + Size(d) <= w - w % Size(l) + Size(l)
    decreases l
  {
    hide Size;
    if d < l {
      BlockInside(d, l - 1, w);
      BlockStep(w, l - 1);
      assert Size(l) == PTRS * Size(l - 1) by { SizeStep(l); }
      Regroup(0, Idx(l - 1, w), PTRS, Size(l - 1));
    }
  }

  lemma SizeStep(l: nat)
    requires l >= 2
    ensures Size(l) == PTRS * Size(l - 1)
  {
  }

  /** What may be unmapped in a..b may be unmapped in the part of it under one entry. */
  lemma PartRemovable(n: Node, l: nat, blk: nat, i: nat, sub: nat, a: nat, b: nat, v: nat, c: nat)
    requires l >= 2 && n.Table? && Removable(n, l, blk, a, b) && i < PTRS && sub == blk * PTRS + i && a <= v < c <= b
    requires v == a || v <= sub * Size(l - 1)
    requires c == b || c >= sub * Size(l - 1) + Size(l - 1)
    ensures Removable(n.kids[i], l - 1, sub, v, c)
  {
    hide Size, Idx, Good;
    KidGood(n, l, i);
    KidRemovable(n, l, blk, i, sub, a, b);
    var m, kid := l - 1, n.kids[i];
    RemovableGood(kid, m, sub, a, b);
    forall w: nat | v <= w < c && Under(m, sub, w) ensures RemovableAt(Lookup(kid, m, w), w, v, c) {
      var e := Lookup(kid, m, w);
      assert RemovableAt(e, w, a, b);
      UnderBounds(m, sub, w);
      LookupAt(kid, m, w);
      BlockInside(e.level, m, w);
    }
  }

  /** `unmap_pud_range`: parts of 1G entries at both ends, whole 1G entries between; the PUD page stays. */
  method UnmapPudRange(p4d: Node, start: nat, end: nat) returns (r: Node)
    requires p4d.Table? && start < end && Within(4, start / Size(4), start, end)
    requires Removable(p4d, 4, start / Size(4), start, end)
    ensures r == Table(RemovedKids(p4d, 4, start / Size(4), start, end))
  {
    hide Good, Idx, RemovedKids, AllNone, Removed, Done, Whole, Size, NextPage, Removable;
    ghost var blk := start / Size(4);
    Sizes(start);
    MetKid(p4d, 4, blk, start, end, start);
    RemovableGood(p4d, 4, blk, start, end);
    DoneStart(p4d, 4, blk, start, end);
    var v, i := start, Idx(3, start);
    r := p4d;
    Aligned(start, blk * PTRS + i, ENTRY_1G);
    if start % ENTRY_1G != 0 {
      var next := NextPage(start, ENTRY_1G);
      var preEnd := if end < next then end else next;
      HeadWithin(start, preEnd);
      NoWhole(3, start, start, end);
      DoneStep(p4d, r.kids, 4, blk, start, end, i, blk * PTRS + i, start, preEnd);
      PartRemovable(p4d, 4, blk, i, blk * PTRS + i, start, end, start, preEnd);
      var pud := UnmapPmdRange(r.kids[i], start, preEnd);
      r := Table(r.kids[i := pud]);
      v, i := preEnd, i + 1;
    }
    r := UnmapPudRest(p4d, start, end, r, v, i);
  }

  /** The part of `unmap_pud_range` from the 1G boundary on. */
  method UnmapPudRest(ghost p4d: Node, ghost start: nat, end: nat, n: Node, from: nat, i0: nat) returns (r: Node)
    requires p4d.Table? && start <= from <= end && start < end && Within(4, start / Size(4), start, end)
    requires Removable(p4d, 4, start / Size(4), start, end)
    requires n.Table? && Done(p4d, n.kids, 4, start / Size(4), start, end, i0)
    requires from < end ==> from == (start / Size(4) * PTRS + i0) * ENTRY_1G
    requires end <= from ==> end <= (start / Size(4) * PTRS + i0) * ENTRY_1G
    ensures r == Table(RemovedKids(p4d, 4, start / Size(4), start, end))
  {
    hide Good, Idx, RemovedKids, AllNone, Removed, Done, Whole, Size, Removable;
    ghost var blk := start / Size(4);
    r := n;
    var v: nat, i: nat := from, i0;
    Sizes(start);
    while end - v >= ENTRY_1G
      invariant start <= v <= end && r.Table? && Done(p4d, r.kids, 4, blk, start, end, i)
      invariant v < end ==> v == (blk * PTRS + i) * ENTRY_1G
      invariant end <= v ==> end <= (blk * PTRS + i) * ENTRY_1G
    {
      Chunk(p4d, r.kids, 4, blk, start, end, v, i, v + ENTRY_1G, r);
      if r.kids[i].Leaf? {
        LeafGone(p4d.kids[i], 3, blk * PTRS + i, v, v + ENTRY_1G);
        r := Table(r.kids[i := None]);
      } else {
        PartRemovable(p4d, 4, blk, i, blk * PTRS + i, start, end, v, v + ENTRY_1G);
        var pud := UnmapPmdRange(r.kids[i], v, v + ENTRY_1G);
        r := Table(r.kids[i := pud]);
      }
      v, i := v + ENTRY_1G, i + 1;
    }
    if v < end {
      Chunk(p4d, r.kids, 4, blk, start, end, v, i, end, r);
      NoWhole(3, v, start, end);
      PartRemovable(p4d, 4, blk, i, blk * PTRS + i, start, end, v, end);
      var pud := UnmapPmdRange(r.kids[i], v, end);
      r := Table(r.kids[i := pud]);
      i := i + 1;
    }
    DoneEnd(p4d, r.kids, 4, blk, start, end, i);
  }

  // ---------------------------------------------------------------- round trip

  /** A freshly filled range may be unmapped. */
  lemma FilledRemovable(n0: Node, n1: Node, l: nat, blk: nat, a: nat, b: nat, f: nat, p: Prot)
    requires l >= 1 && Filled(n0, n1, l, blk, a, b, f, p)
    ensures Removable(n1, l, blk, a, b)
  {
    hide Size, Whole;
    forall w: nat | a <= w < b && Under(l, blk, w) ensures RemovableAt(Lookup(n1, l, w), w, a, b) {
      assert FilledAt(n0, n1, l, w, a, b, f, p);
      LookupAt(n1, l, w);
    }
  }

  /** Unmapping exactly what was filled gives back every translation there was. */
  lemma FillThenRemove(n0: Node, n1: Node, blk: nat, a: nat, b: nat, f: nat, p: Prot, w: nat)
    requires n1.Table? && Filled(n0, n1, 4, blk, a, b, f, p) && Unmapped(n0, 4, blk, a, b) && Under(4, blk, w)
    ensures Good(Table(RemovedKids(n1, 4, blk, a, b)), 4)
    ensures At(Table(RemovedKids(n1, 4, blk, a, b)), 4, w) == At(n0, 4, w)
  {
    hide Size, Idx, Lookup, Whole, Removed;
    FilledRemovable(n0, n1, 4, blk, a, b, f, p);
    assert FilledAt(n0, n1, 4, w, a, b, f, p);
    var i := Idx(3, w);
    BlockStep(w, 3);
    KidRemovable(n1, 4, blk, i, blk * PTRS + i, a, b);
    forall j | 0 <= j < PTRS ensures Good(RemovedKids(n1, 4, blk, a, b)[j], 3) {
      RemovedGood(n1.kids[j], 3, blk * PTRS + j, a, b);
    }
    RemovedAt(n1.kids[i], 3, blk * PTRS + i, a, b, w);
    assert At(n1, 4, w) == At(n1.kids[i], 3, w);
    assert RemovedKids(n1, 4, blk, a, b)[i] == Removed(n1.kids[i], 3, blk * PTRS + i, a, b);
  }
}
