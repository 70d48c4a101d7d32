/** Which return addresses a RET can go to: the search that fills the jump table. */
module ReturnTargets {
  import opened Words
  import opened Native
  import opened Templates

  /** A decoded block with its outgoing edges. */
  datatype Cfg = Cfg(lines: seq<Line>, bto: set<Word>)
  type Blocks = map<Word, Cfg>
  type JumpTable = map<Word, seq<Word>>

  predicate Closed(bs: Blocks) { forall b :: b in bs ==> bs[b].bto <= bs.Keys }

  /** The address after line k: what the tables are keyed by. */
  function After(bs: Blocks, b: Word, k: nat): Word
    requires b in bs && k < |bs[b].lines|
  {
    OffsetAt(bs[b].lines, k + 1, b)
  }

  /** The sites of the RETs of a block. */
  predicate RetSite(bs: Blocks, b: Word, s: Word) {
    b in bs && exists k :: 0 <= k < |bs[b].lines| && bs[b].lines[k].i.Ret? && s == After(bs, b, k)
  }

  /** Line k of block b transfers control through a register, memory or the stack. */
  predicate IndirectLine(bs: Blocks, b: Word, k: nat) {
    b in bs && k < |bs[b].lines| && IndirectInstr(bs[b].lines[k].i)
  }

  /** Line k of block b is a direct call to c. */
  predicate Calls(bs: Blocks, b: Word, k: nat, c: Word) {
    b in bs && k < |bs[b].lines| && bs[b].lines[k].i == Call(Direct(c))
  }

  // ---------------------------------------------------------------- reachability

  ghost predicate Path(bs: Blocks, p: seq<Word>) {
    |p| > 0 && (forall i :: 0 <= i < |p| ==> p[i] in bs) &&
    forall i :: 0 <= i < |p| - 1 ==> p[i + 1] in bs[p[i]].bto
  }

  ghost predicate Reaches(bs: Blocks, a: Word, b: Word) {
    exists p :: Path(bs, p) && p[0] == a && p[|p| - 1] == b
  }

  lemma ReachesSelf(bs: Blocks, a: Word)
    requires a in bs
    ensures Reaches(bs, a, a)
  {
    assert Path(bs, [a]);
  }

  lemma ReachesFrom(bs: Blocks, a: Word, b: Word, c: Word)
    requires a in bs && b in bs[a].bto && Reaches(bs, b, c)
    ensures Reaches(bs, a, c)
  {
    var p :| Path(bs, p) && p[0] == b && p[|p| - 1] == c;
    var q := [a] + p;
    assert forall i :: 0 < i < |q| ==> q[i] == p[i - 1];
    assert Path(bs, q) && q[0] == a && q[|q| - 1] == c;
  }

  /** A set that follows every edge contains whatever is reachable from its members. */
  lemma {:induction false} Enclosed(bs: Blocks, s: set<Word>, p: seq<Word>)
    requires Path(bs, p) && p[0] in s && forall x :: x in s && x in bs ==> bs[x].bto <= s
    ensures p[|p| - 1] in s
    decreases |p|
  {
    if |p| > 1 {
      var q := p[1..];
      assert forall i :: 0 <= i < |q| ==> q[i] == p[i + 1];
      assert p[0 + 1] in bs[p[0]].bto;
      Enclosed(bs, s, q);
    }
  }

  // ---------------------------------------------------------------- tables

  ghost predicate Grown(t: JumpTable, u: JumpTable) {
    forall s :: s in t ==> s in u && forall x :: x in t[s] ==> x in u[s]
  }

  predicate Lists(t: JumpTable, s: Word, x: Word) { s in t && x in t[s] }

  /** Every RET of block b lists `ret`. */
  ghost predicate Done(bs: Blocks, b: Word, ret: Word, t: JumpTable) {
    forall s :: RetSite(bs, b, s) ==> Lists(t, s, ret)
  }

  /** What was added is `ret`, at RETs reachable from the callee. */
  ghost predicate Sound(bs: Blocks, callee: Word, ret: Word, t: JumpTable, u: JumpTable) {
    forall s, x :: Lists(u, s, x) && !Lists(t, s, x) ==>
      x == ret && exists b :: Reaches(bs, callee, b) && RetSite(bs, b, s)
  }

  class Analysis {
    var visited: set<Word>
    var table: JumpTable

    constructor (pre: JumpTable)
      ensures table == pre && visited == {}
    {
      table, visited := pre, {};
    }

    method Add(s: Word, x: Word)
      modifies this`table
      ensures Grown(old(table), table) && Lists(table, s, x)
      ensures forall s', x' :: Lists(table, s', x') ==> old(Lists(table, s', x')) || (s' == s && x' == x)
      ensures table.Keys == old(table.Keys) + {s}
    {
      if s !in table { table := table[s := []]; }
      table := table[s := table[s] + [x]];
    }

    /** List `ret` at every RET of one block. */
    method AddBlock(bs: Blocks, b: Word, ret: Word)
      requires b in bs
      modifies this`table
      ensures Grown(old(table), table) && Done(bs, b, ret, table)
      ensures forall s, x :: Lists(table, s, x) && !old(Lists(table, s, x)) ==> x == ret && RetSite(bs, b, s)
      ensures forall s :: s in table.Keys ==> s in old(table.Keys) || RetSite(bs, b, s)
    {
      var offset := b;
      var lines := bs[b].lines;
      for k := 0 to |lines|
        invariant offset == OffsetAt(lines, k, b)
        invariant Grown(old(table), table)
        invariant forall j :: 0 <= j < k && lines[j].i.Ret? ==> Lists(table, After(bs, b, j), ret)
        invariant forall s, x :: Lists(table, s, x) && !old(Lists(table, s, x)) ==> x == ret && RetSite(bs, b, s)
        invariant forall s :: s in table.Keys ==> s in old(table.Keys) || RetSite(bs, b, s)
      {
        offset := Wrap(offset + lines[k].len);
        if lines[k].i.Ret? {
          assert RetSite(bs, b, After(bs, b, k));
          Add(offset, ret);
        }
      }
    }

    /**
     * `dfs`: list `ret` at every RET of the blocks not visited before that are reachable from
     * `entry`.  It ends on cyclic graphs because each call marks one more block.
     */
    method Dfs(bs: Blocks, entry: Word, ret: Word)
      requires Closed(bs) && entry in bs && visited <= bs.Keys
      modifies this
      ensures old(visited) <= visited <= bs.Keys
      ensures Covered(bs, ret, old(visited) - {entry}, visited + {entry}, visited, table)
      ensures forall b :: b in visited && b !in old(visited) ==> Reaches(bs, entry, b)
      ensures Grown(old(table), table) && Sound(bs, entry, ret, old(table), table)
      ensures forall s :: s in table.Keys ==> s in old(table.Keys) || exists b :: RetSite(bs, b, s)
      decreases bs.Keys - visited
    {
      ReachesSelf(bs, entry);
      AddBlock(bs, entry, ret);
      assert Sound(bs, entry, ret, old(table), table);
      var todo := bs[entry].bto;
      ghost var done: set<Word> := {};
      while todo != {}
        invariant todo + done == bs[entry].bto
        invariant old(visited) <= visited <= bs.Keys && done <= visited
        invariant Covered(bs, ret, old(visited) + {entry}, visited, visited, table) && Done(bs, entry, ret, table)
        invariant forall b :: b in visited && b !in old(visited) ==> Reaches(bs, entry, b)
        invariant Grown(old(table), table) && Sound(bs, entry, ret, old(table), table)
        invariant forall s :: s in table.Keys ==> s in old(table.Keys) || exists b :: RetSite(bs, b, s)
        decreases todo
      {
        var tgt :| tgt in todo;
        todo, done := todo - {tgt}, done + {tgt};
        if tgt !in visited {
          Visit(bs, entry, tgt, ret);
        }
      }
    }

    /** Mark a successor and search from it. */
    method Visit(bs: Blocks, entry: Word, tgt: Word, ret: Word)
      requires Closed(bs) && entry in bs && visited <= bs.Keys && tgt in bs[entry].bto && tgt !in visited
      modifies this
      ensures old(visited) + {tgt} <= visited <= bs.Keys
      ensures Covered(bs, ret, old(visited), visited, visited, table)
      ensures forall b :: b in visited && b !in old(visited) ==> Reaches(bs, entry, b)
      ensures Grown(old(table), table) && Sound(bs, entry, ret, old(table), table)
      ensures forall s :: s in table.Keys ==> s in old(table.Keys) || exists b :: RetSite(bs, b, s)
      decreases bs.Keys - visited, 0
    {
      visited := visited + {tgt};
      Dfs(bs, tgt, ret);
      ReachesSelf(bs, tgt);
      forall b | Reaches(bs, tgt, b) ensures Reaches(bs, entry, b) { ReachesFrom(bs, entry, tgt, b); }
    }

    /** One direct call: search from its callee with an empty set of visited blocks. */
    method SearchCall(bs: Blocks, callee: Word, ret: Word)
      requires Closed(bs) && callee in bs
      modifies this
      ensures forall b :: Reaches(bs, callee, b) ==> Done(bs, b, ret, table)
      ensures Grown(old(table), table) && Sound(bs, callee, ret, old(table), table)
      ensures forall s :: s in table.Keys ==> s in old(table.Keys) || exists b :: RetSite(bs, b, s)
    {
      visited := {};
      Dfs(bs, callee, ret);
      forall b | Reaches(bs, callee, b) ensures Done(bs, b, ret, table) {
        var p :| Path(bs, p) && p[0] == callee && p[|p| - 1] == b;
        Enclosed(bs, visited + {callee}, p);
        assert p[|p| - 1] in bs;
      }
    }

    /** One line of `find`. */
    method FindLine(bs: Blocks, b: Word, k: nat, missing: set<Word>) returns (missing': set<Word>)
      requires Closed(bs) && b in bs && k < |bs[b].lines|
      modifies this
      ensures Grown(old(table), table) && LineDone(bs, b, k, table)
      ensures forall s, x :: Lists(table, s, x) ==> old(Lists(table, s, x)) || Explained(bs, s, x)
      ensures forall s :: s in table.Keys ==> s in old(table.Keys) || SomeSite(bs, s)
      ensures var i := bs[b].lines[k].i;
        missing' == missing + if i.Call? && i.t.Direct? && i.t.addr !in bs then {i.t.addr} else {}
    {
      missing' := missing;
      var i, offset := bs[b].lines[k].i, After(bs, b, k);
      if i.Call? && i.t.Direct? {
        var callee := i.t.addr;
        if callee in bs {
          assert Calls(bs, b, k, callee);
          SearchCall(bs, callee, offset);
          forall s | s in table.Keys && s !in old(table.Keys) ensures SomeSite(bs, s) {
            var b' :| RetSite(bs, b', s);
            RetIsSite(bs, b', s);
          }
        } else {
          missing' := missing + {callee};
        }
      } else if IndirectInstr(i) {
        if offset !in table { table := table[offset := []]; }
        assert IndirectLine(bs, b, k);
      }
    }

    /**
     * `find`: after it every RET reachable from a translated callee lists the return address of
     * every direct call to it, everything listed was recorded before or comes from such a call,
     * every indirect site has a table, and the callees without a block are reported.
     */
    method Find(bs: Blocks) returns (missing: set<Word>)
      requires Closed(bs)
      modifies this
      ensures Grown(old(table), table)
      ensures forall b, k :: b in bs && 0 <= k < |bs[b].lines| ==> LineDone(bs, b, k, table)
      ensures forall s, x :: Lists(table, s, x) ==> old(Lists(table, s, x)) || Explained(bs, s, x)
      ensures forall s :: s in table.Keys ==> s in old(table.Keys) || SomeSite(bs, s)
      ensures forall c :: c in missing <==> c !in bs && exists b, k :: Calls(bs, b, k, c)
    {
      missing := {};
      var todo := bs.Keys;
      ghost var done: set<Word> := {};
      while todo != {}
        invariant todo + done == bs.Keys && todo !! done
        invariant Grown(old(table), table)
        invariant forall b, k :: b in done && 0 <= k < |bs[b].lines| ==> LineDone(bs, b, k, table)
        invariant forall s, x :: Lists(table, s, x) ==> old(Lists(table, s, x)) || Explained(bs, s, x)
        invariant forall s :: s in table.Keys ==> s in old(table.Keys) || SomeSite(bs, s)
        invariant forall c :: c in missing ==> c !in bs && exists b, k :: Calls(bs, b, k, c)
        invariant forall b, k, c :: b in done && Calls(bs, b, k, c) && c !in bs ==> c in missing
        decreases todo
      {
        var b :| b in todo;
        missing := FindBlock(bs, b, missing, done);
        todo, done := todo - {b}, done + {b};
      }
    }

    method FindBlock(bs: Blocks, b: Word, missing0: set<Word>, ghost done: set<Word>) returns (missing: set<Word>)
      requires Closed(bs) && b in bs && done <= bs.Keys
      requires forall b', k :: b' in done && 0 <= k < |bs[b'].lines| ==> LineDone(bs, b', k, table)
      modifies this
      ensures Grown(old(table), table)
      ensures forall b', k :: b' in done + {b} && 0 <= k < |bs[b'].lines| ==> LineDone(bs, b', k, table)
      ensures forall s, x :: Lists(table, s, x) ==> old(Lists(table, s, x)) || Explained(bs, s, x)
      ensures forall s :: s in table.Keys ==> s in old(table.Keys) || SomeSite(bs, s)
      ensures missing0 <= missing
      ensures forall c :: c in missing ==> c in missing0 || (c !in bs && exists k :: Calls(bs, b, k, c))
      ensures forall k, c :: Calls(bs, b, k, c) && c !in bs ==> c in missing
    {
      missing := missing0;
      for k := 0 to |bs[b].lines|
        invariant Grown(old(table), table)
        invariant forall b', j :: b' in done && 0 <= j < |bs[b'].lines| ==> LineDone(bs, b', j, table)
        invariant forall j :: 0 <= j < k ==> LineDone(bs, b, j, table)
        invariant forall s, x :: Lists(table, s, x) ==> old(Lists(table, s, x)) || Explained(bs, s, x)
        invariant forall s :: s in table.Keys ==> s in old(table.Keys) || SomeSite(bs, s)
        invariant missing0 <= missing
        invariant forall c :: c in missing ==> c in missing0 || (c !in bs && exists j :: Calls(bs, b, j, c))
        invariant forall j, c :: 0 <= j < k && Calls(bs, b, j, c) && c !in bs ==> c in missing
      {
        ghost var t := table;
        missing := FindLine(bs, b, k, missing);
        forall b', j | b' in bs && 0 <= j < |bs[b'].lines| && LineDone(bs, b', j, t)
          ensures LineDone(bs, b', j, table)
        {
          LineStaysDone(bs, b', j, t, table);
        }
        assert forall c :: Calls(bs, b, k, c) <==> bs[b].lines[k].i == Call(Direct(c));
      }
    }
  }

  /** A listed target that a direct call explains. */
  ghost predicate Explained(bs: Blocks, s: Word, x: Word) {
    exists b, k, c, r :: Calls(bs, b, k, c) && x == After(bs, b, k) && Reaches(bs, c, r) && RetSite(bs, r, s)
  }

  ghost predicate SomeSite(bs: Blocks, s: Word) { exists b, k :: IndirectLine(bs, b, k) && s == After(bs, b, k) }

  lemma RetIsSite(bs: Blocks, b: Word, s: Word)
    requires RetSite(bs, b, s)
    ensures SomeSite(bs, s)
  {
    var k :| 0 <= k < |bs[b].lines| && bs[b].lines[k].i.Ret? && s == After(bs, b, k);
    assert IndirectLine(bs, b, k);
  }

  /** What `find` owes line k of block b. */
  ghost predicate LineDone(bs: Blocks, b: Word, k: nat, t: JumpTable)
    requires b in bs && k < |bs[b].lines|
  {
    && (IndirectLine(bs, b, k) ==> After(bs, b, k) in t)
    && forall c, r :: Calls(bs, b, k, c) && c in bs && Reaches(bs, c, r) ==> Done(bs, r, After(bs, b, k), t)
  }

  lemma LineStaysDone(bs: Blocks, b: Word, k: nat, t: JumpTable, u: JumpTable)
    requires b in bs && k < |bs[b].lines| && LineDone(bs, b, k, t) && Grown(t, u)
    ensures LineDone(bs, b, k, u)
  {
  }

  /** Blocks of `now` that were not in `before` list `ret` and have all successors in `seen`. */
  ghost predicate Covered(bs: Blocks, ret: Word, before: set<Word>, now: set<Word>, seen: set<Word>, t: JumpTable) {
    forall b :: b in now && b !in before && b in bs ==> bs[b].bto <= seen && Done(bs, b, ret, t)
  }
}
