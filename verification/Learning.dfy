/**
 * Learning: misses reported by running code are recorded, the code is compiled again from the
 * recorded tables and reloaded.  A recorded miss cannot happen again.
 */
module Learning {
  import opened Words
  import opened Native
  import opened Image
  import opened Transparency
  import opened ReturnTargets
  import Links
  import Protocol

  datatype Miss = JumpMiss(from: Word, to: Word) | CallMiss(addr: Word)

  // ---------------------------------------------------------------- from the files to the jump table

  predicate Distinct(xs: seq<Word>) { forall i, j :: 0 <= i < j < |xs| ==> xs[i] != xs[j] }

  /** `memread.read`: group the recorded pairs by site, each target once. */
  method MergeHistory(history: set<(Word, Word)>) returns (table: JumpTable)
    ensures forall s: Word, x: Word :: Lists(table, s, x) <==> (s, x) in history
    ensures forall s :: s in table ==> table[s] != [] && Distinct(table[s])
  {
    table := map[];
    var todo := history;
    while todo != {}
      invariant todo <= history
      invariant forall s: Word, x: Word :: Lists(table, s, x) <==> (s, x) in history - todo
      invariant forall s :: s in table ==> table[s] != [] && Distinct(table[s])
      decreases todo
    {
      var t :| t in todo;
      assert !Lists(table, t.0, t.1);
      if t.0 !in table { table := table[t.0 := []]; }
      table := table[t.0 := table[t.0] + [t.1]];
      todo := todo - {t};
    }
  }

  ghost predicate Built(bs: Blocks, pre: JumpTable, table: JumpTable, missing: set<Word>, p: Program) {
    Grown(pre, table) && Links.Found(bs, pre, table, missing) && Links.Emitted(bs, table, missing, p)
  }

  /** The tables a program was compiled from: recorded jumps and recorded callees. */
  ghost predicate CompiledFrom(bs: Blocks, pre: JumpTable, p: Program, known: set<Miss>) {
    && (forall m :: m in known && m.JumpMiss? ==> Lists(pre, m.from, m.to))
    && (forall m :: m in known && m.CallMiss? ==> m.addr in bs)
    && exists table, missing :: Built(bs, pre, table, missing, p)
  }

  /** The miss an exit reports. */
  function Reported(ij: Word, ip: Word): Miss { if ij == 1 then CallMiss(ip) else JumpMiss(ij, ip) }

  /** What the daemon makes of an entry it reads: the line it appends to the callee or jump table. */
  function Decoded(e: Protocol.Exe): Option<Miss> {
    match Protocol.Read(e)
    case None => None
    case Some(Callee(a)) => Some(CallMiss(a))
    case Some(Target(s, a)) => Some(JumpMiss(s, a))
  }

  /** From the exit of the code to the daemon's files: the miss that is recorded is the one code left with. */
  lemma ReportDecodes(e: Protocol.Exe, ij: Word, ip: Word, legal: bool)
    requires e.status == Protocol.NORMAL
    ensures var r := Protocol.ReturnStep(e, ij, ip, legal);
      Decoded(r) == if ij != 0 && e.success < e.fail then Some(Reported(ij, ip)) else None
  {
    Protocol.ReturnRounds(e, ij, ip, legal);
  }

  /** Compiled code never reports a miss that is in the tables it was compiled from. */
  lemma NeverKnown(code: map<Word, Line>, bs: Blocks, pre: JumpTable, p: Program, known: set<Miss>, ij: Word, ip: Word)
    requires CompiledFrom(bs, pre, p, known) && (forall s :: s in p.sites ==> s.offset > 1)
    requires Reason(code, p, ij, ip) && ij != 0
    ensures Reported(ij, ip) !in known
  {
    hide Built, Lists;
    var table, missing :| Built(bs, pre, table, missing, p);
    if ij == 1 {
      CalleeUnknown(bs, pre, table, missing, p, ip);
    } else {
      var s :| s in p.sites && s.offset == ij && ip !in s.targets;
      TargetUnknown(bs, pre, table, missing, p, s, ip);
    }
  }

  lemma CalleeUnknown(bs: Blocks, pre: JumpTable, table: JumpTable, missing: set<Word>, p: Program, c: Word)
    requires Built(bs, pre, table, missing, p) && c in p.callees
    ensures c !in bs
  {
    hide LineDone, Explained, Calls, Grown, Lists;
    var j :| 0 <= j < |p.callees| && p.callees[j] == c;
    assert c in missing;
  }

  lemma TargetUnknown(bs: Blocks, pre: JumpTable, table: JumpTable, missing: set<Word>, p: Program, s: Site, x: Word)
    requires Built(bs, pre, table, missing, p) && s in p.sites && x !in s.targets
    ensures !Lists(pre, s.offset, x)
  {
    hide Links.Found;
    var j :| 0 <= j < |p.sites| && p.sites[j] == s;
  }

  // ---------------------------------------------------------------- reports and reloads

  /** The code of an entry: the program, and the blocks, tables and misses it was compiled from. */
  datatype Binary = Binary(bs: Blocks, pre: JumpTable, p: Program, known: set<Miss>)

  ghost predicate Faithful(c: Binary) {
    CompiledFrom(c.bs, c.pre, c.p, c.known) && forall s :: s in c.p.sites ==> s.offset > 1
  }

  /**
   * All entries of one code address share one directory of tables.  `loaded[e]` is the code of
   * entry e, `pending[e]` the miss it waits with, `log` every report so far.
   */
  datatype State = State(recorded: set<Miss>, loaded: map<nat, Binary>, pending: map<nat, Miss>, log: seq<(nat, Miss)>)

  datatype Event = Init(e: nat, c: Binary) | Report(e: nat, ij: Word, ip: Word) | Reload(e: nat, c: Binary)

  /** A report is what running code leaves with: a reason that is no system call. */
  ghost predicate Enabled(code: map<Word, Line>, s: State, ev: Event) {
    match ev
    case Init(e, c) => e !in s.loaded && Faithful(c) && c.known == s.recorded
    case Report(e, ij, ip) => e in s.loaded && e !in s.pending && Reason(code, s.loaded[e].p, ij, ip) && ij != 0
    case Reload(e, c) => e in s.loaded && e in s.pending && Faithful(c) && c.known == s.recorded + {s.pending[e]}
  }

  ghost function Next(code: map<Word, Line>, s: State, ev: Event): State
    requires Enabled(code, s, ev)
  {
    match ev
    case Init(e, c) => s.(loaded := s.loaded[e := c])
    case Report(e, ij, ip) =>
      s.(pending := s.pending[e := Reported(ij, ip)], log := s.log + [(e, Reported(ij, ip))])
    case Reload(e, c) => s.(recorded := c.known, loaded := s.loaded[e := c], pending := s.pending - {e})
  }

  ghost predicate Run(code: map<Word, Line>, s: State, evs: seq<Event>, t: State)
    decreases |evs|
  {
    if evs == [] then s == t
    else Enabled(code, s, evs[0]) && Run(code, Next(code, s, evs[0]), evs[1..], t)
  }

  /** Entry e reported m and has learnt it since, or still waits with it. */
  ghost predicate Served(s: State, e: nat, m: Miss) {
    e in s.loaded && (m in s.loaded[e].known || (e in s.pending && s.pending[e] == m))
  }

  ghost predicate Inv(s: State) {
    && (forall e :: e in s.loaded ==> Faithful(s.loaded[e]) && s.loaded[e].known <= s.recorded)
    && (forall e :: e in s.pending ==> e in s.loaded && s.pending[e] !in s.loaded[e].known)
    && (forall i :: 0 <= i < |s.log| ==> Served(s, s.log[i].0, s.log[i].1))
    && (forall i, j :: 0 <= i < j < |s.log| ==> s.log[i] != s.log[j])
  }

  lemma InvInit(code: map<Word, Line>, s: State, e: nat, c: Binary)
    requires Inv(s) && Enabled(code, s, Init(e, c))
    ensures Inv(Next(code, s, Init(e, c)))
  {
    hide Faithful, Reason;
    var t := Next(code, s, Init(e, c));
    forall i | 0 <= i < |t.log| ensures Served(t, t.log[i].0, t.log[i].1) { assert Served(s, s.log[i].0, s.log[i].1); }
  }

  lemma InvReload(code: map<Word, Line>, s: State, e: nat, c: Binary)
    requires Inv(s) && Enabled(code, s, Reload(e, c))
    ensures Inv(Next(code, s, Reload(e, c)))
  {
    hide Faithful, Reason;
    var t := Next(code, s, Reload(e, c));
    forall i | 0 <= i < |t.log| ensures Served(t, t.log[i].0, t.log[i].1) { assert Served(s, s.log[i].0, s.log[i].1); }
  }

  /** A new report differs from all before: what was reported is known to the code or still pending. */
  lemma InvReport(code: map<Word, Line>, s: State, e: nat, m: Miss, t: State)
    requires Inv(s) && e in s.loaded && e !in s.pending && m !in s.loaded[e].known
    requires t == s.(pending := s.pending[e := m], log := s.log + [(e, m)])
    ensures Inv(t)
  {
    hide Faithful;
    forall i | 0 <= i < |s.log| ensures Served(t, t.log[i].0, t.log[i].1) && s.log[i] != (e, m) {
      assert Served(s, s.log[i].0, s.log[i].1);
    }
  }

  lemma InvNext(code: map<Word, Line>, s: State, ev: Event)
    requires Inv(s) && Enabled(code, s, ev)
    ensures Inv(Next(code, s, ev))
  {
    hide Inv, CompiledFrom, Reason, Reported;
    match ev
    case Init(e, c) => InvInit(code, s, e, c);
    case Reload(e, c) => InvReload(code, s, e, c);
    case Report(e, ij, ip) =>
      LoadedIsFaithful(s, e);
      var c := s.loaded[e];
      NeverKnown(code, c.bs, c.pre, c.p, c.known, ij, ip);
      InvReport(code, s, e, Reported(ij, ip), Next(code, s, ev));
  }

  lemma LoadedIsFaithful(s: State, e: nat)
    requires Inv(s) && e in s.loaded
    ensures Faithful(s.loaded[e])
  {
    hide Faithful, Served;
  }

  /** Over every run: no entry ever reports the same miss twice, and its code only learns. */
  lemma {:induction false} NeverTwice(code: map<Word, Line>, s: State, evs: seq<Event>, t: State)
    requires Inv(s) && Run(code, s, evs, t)
    ensures Inv(t) && s.recorded <= t.recorded && s.log <= t.log
    ensures forall e :: e in s.loaded ==> e in t.loaded && s.loaded[e].known <= t.loaded[e].known
    ensures forall i, j :: 0 <= i < j < |t.log| ==> t.log[i] != t.log[j]
    decreases |evs|
  {
    hide Faithful, Reason, Served;
    if evs != [] {
      InvNext(code, s, evs[0]);
      NeverTwice(code, Next(code, s, evs[0]), evs[1..], t);
    }
  }

  /**
   * A reload always enlarges what the entry's code knows, by the miss it waited with at least; it
   * enlarges the shared record if and only if no other entry had recorded that miss.
   */
  lemma ReloadLearns(code: map<Word, Line>, s: State, e: nat, c: Binary)
    requires Inv(s) && Enabled(code, s, Reload(e, c))
    ensures var t := Next(code, s, Reload(e, c));
      && s.loaded[e].known + {s.pending[e]} <= t.loaded[e].known && s.loaded[e].known < t.loaded[e].known
      && (s.recorded < t.recorded <==> s.pending[e] !in s.recorded)
  {
    hide Faithful;
    assert s.pending[e] in c.known && s.pending[e] !in s.loaded[e].known;
  }

  // ---------------------------------------------------------------- the daemon's command history

  datatype Cmd = MakeDir(rip: Word) | AddMiss(rip: Word, m: Miss)

  /** One code address in the daemon: its table files, and what its binary was compiled from. */
  class Daemon {
    var history: seq<Cmd>
    var recorded: map<Word, set<Miss>>
    var binary: map<Word, set<Miss>>

    /** Every command in the history has been carried out and compiled in, and there is a directory for every record. */
    ghost predicate Valid()
      reads this
    {
      && recorded == binary
      && (forall rip :: MakeDir(rip) in history <==> rip in recorded)
      && (forall rip, m :: AddMiss(rip, m) in history ==> rip in recorded && m in recorded[rip])
    }

    constructor ()
      ensures Valid() && history == []
    {
      history, recorded, binary := [], map[], map[];
    }

    /** `cmd_history`: linear search, append when new. */
    method CmdHistory(cmd: Cmd) returns (seen: bool)
      modifies this`history
      ensures seen <==> cmd in old(history)
      ensures history == if seen then old(history) else old(history) + [cmd]
    {
      for i := 0 to |history|
        invariant history == old(history) && cmd !in history[..i]
      {
        if cmd == history[i] { return true; }
      }
      history := history + [cmd];
      return false;
    }

    /**
     * One entry of `check`: a new entry or a miss.  The binary it uploads is compiled from all
     * that is recorded for the address, the miss at hand included, also when the command was
     * seen before and nothing is compiled.  A new directory starts from the files of `asm`; it is
     * made once, so it never overwrites what was recorded.
     */
    method Serve(rip: Word, miss: Option<Miss>, files: set<Miss>) returns (uploaded: set<Miss>)
      requires Valid() && (miss.Some? ==> rip in recorded)
      modifies this
      ensures Valid() && rip in recorded && uploaded == recorded[rip]
      ensures miss.Some? ==> recorded == old(recorded)[rip := old(recorded)[rip] + {miss.value}]
      ensures miss.None? && MakeDir(rip) in old(history) ==> recorded == old(recorded)
      ensures miss.None? && MakeDir(rip) !in old(history) ==>
        rip !in old(recorded) && recorded == old(recorded)[rip := files]
    {
      var cmd := if miss.Some? then AddMiss(rip, miss.value) else MakeDir(rip);
      var seen := CmdHistory(cmd);
      if !seen {
        var now := if miss.Some? then recorded[rip] + {miss.value} else files;
        recorded := recorded[rip := now];
        binary := binary[rip := now];
      } else if miss.Some? {
        assert recorded[rip] + {miss.value} == recorded[rip];
      }
      uploaded := binary[rip];
    }
  }
}
