/** The per-CPU detector of hot system-call sites. */
module HotCaller {
  import opened Words
  import opened Protocol

  const MAX_CALLER := 16
  const SHORT_TH := 1300
  const HOT_TH := 900
  const MILESTONE_CNT := 30000
  const MILESTONE_TH := 1000000000

  datatype Caller = Caller(rip: Word, pid: int, cnt: nat)

  /** A short gap after the call at `rip`, filed under `pos`. */
  datatype Short = Short(pos: nat, pid: int, rip: Word)

  /** One system call: the caller, its entry time and the time the detector runs. */
  datatype Call = Call(pid: int, ip: Word, ts: Word, now: Word)

  /** `zz_hash(pid, ip) % max_caller`. */
  function Pos(pid: int, rip: Word): (i: nat)
    ensures i < MAX_CALLER
  {
    Hash(pid, rip) as int % MAX_CALLER
  }

  // ---------------------------------------------------------------- the reference: a log

  /** The detector with the table replaced by the short calls of the current window. */
  datatype Log = Log(lastCaller: Word, lastTs: Word, callCnt: nat, milestoneTs: Word, interested: bool,
      shorts: seq<Short>)

  function Elapsed(later: Word, earlier: Word): Word { Wrap(later - earlier) }

  /** Every 30000 calls the window closes; the next one counts only if this one was quick. */
  function Milestone(l: Log, c: Call): Log {
    if l.callCnt + 1 > MILESTONE_CNT
    then l.(callCnt := 0, interested := Elapsed(c.now, l.milestoneTs) < MILESTONE_TH, milestoneTs := c.now,
            shorts := [])
    else l.(callCnt := l.callCnt + 1)
  }

  function LogStep(l: Log, c: Call): Log {
    var m := Milestone(l, c);
    if !m.interested then m
    else
      var short := Elapsed(c.ts, m.lastTs) < SHORT_TH;
      m.(lastTs := c.now, lastCaller := c.ip,
         shorts := if short then m.shorts + [Short(Pos(c.pid, m.lastCaller), c.pid, m.lastCaller)] else m.shorts)
  }

  function First(s: seq<Short>, pos: nat): Option<Short> {
    if s == [] then None else if s[0].pos == pos then Some(s[0]) else First(s[1..], pos)
  }

  function Count(s: seq<Short>, pos: nat, rip: Word): nat {
    if s == [] then 0 else (if s[0].pos == pos && s[0].rip == rip then 1 else 0) + Count(s[1..], pos, rip)
  }

  /** What slot `pos` must hold: the first site filed there and how often it was filed there. */
  predicate Exact(c: Caller, s: seq<Short>, pos: nat) {
    match First(s, pos)
    case None => c.cnt == 0
    case Some(f) => c.rip == f.rip && c.pid == f.pid && c.cnt == Count(s, pos, f.rip)
  }

  lemma {:induction false} FirstAppend(s: seq<Short>, e: Short, pos: nat)
    ensures First(s + [e], pos) == if First(s, pos).Some? then First(s, pos) else if e.pos == pos then Some(e) else None
  {
    if s == [] {
      assert s + [e] == [e];
    } else {
      assert (s + [e])[1..] == s[1..] + [e];
      FirstAppend(s[1..], e, pos);
    }
  }

  lemma {:induction false} CountAppend(s: seq<Short>, e: Short, pos: nat, rip: Word)
    ensures Count(s + [e], pos, rip) == Count(s, pos, rip) + if e.pos == pos && e.rip == rip then 1 else 0
  {
    if s == [] {
      assert s + [e] == [e];
      assert Count([e], pos, rip) == (if e.pos == pos && e.rip == rip then 1 else 0) + Count([e][1..], pos, rip);
    } else {
      assert (s + [e])[1..] == s[1..] + [e];
      CountAppend(s[1..], e, pos, rip);
    }
  }

  lemma {:induction false} FirstCounts(s: seq<Short>, pos: nat)
    ensures First(s, pos).Some? ==> First(s, pos).value.pos == pos && Count(s, pos, First(s, pos).value.rip) > 0
    ensures First(s, pos).None? ==> forall rip :: Count(s, pos, rip) == 0
  {
    if s != [] { FirstCounts(s[1..], pos); }
  }

  /** Filing one more short call: the update of the code keeps every slot exact. */
  lemma Filed(t: seq<Caller>, s: seq<Short>, e: Short, pos: nat)
    requires |t| == MAX_CALLER && e.pos < MAX_CALLER && pos < MAX_CALLER && Exact(t[pos], s, pos)
    requires Exact(t[e.pos], s, e.pos)
    ensures Exact(File(t, e)[pos], s + [e], pos)
  {
    FirstAppend(s, e, pos);
    FirstCounts(s, pos);
    if First(s + [e], pos).Some? {
      CountAppend(s, e, pos, First(s + [e], pos).value.rip);
    }
  }

  function File(t: seq<Caller>, e: Short): (r: seq<Caller>)
    requires |t| == MAX_CALLER && e.pos < MAX_CALLER
    ensures |r| == MAX_CALLER
  {
    var c := if t[e.pos].cnt == 0 then t[e.pos].(pid := e.pid, rip := e.rip) else t[e.pos];
    t[e.pos := if c.rip == e.rip then c.(cnt := c.cnt + 1) else c]
  }

  // ---------------------------------------------------------------- the detector

  ghost predicate AllExact(t: seq<Caller>, s: seq<Short>) {
    |t| == MAX_CALLER && forall pos :: 0 <= pos < MAX_CALLER ==> Exact(t[pos], s, pos)
  }

  class PerCpu {
    var lastCaller: Word
    var lastTs: Word
    var callCnt: nat
    var milestoneTs: Word
    var interested: bool
    const caller: array<Caller>
    ghost var shorts: seq<Short>

    ghost predicate Valid()
      reads this, caller
    {
      && caller.Length == MAX_CALLER && AllExact(caller[..], shorts)
      && (!interested ==> shorts == []) && |shorts| <= callCnt + 1
    }

    ghost function View(): Log
      reads this
    {
      Log(lastCaller, lastTs, callCnt, milestoneTs, interested, shorts)
    }

    constructor ()
      ensures Valid() && View() == Log(0, 0, 0, 0, false, []) && fresh(caller)
    {
      lastCaller, lastTs, callCnt, milestoneTs, interested, shorts := 0, 0, 0, 0, false, [];
      caller := new Caller[MAX_CALLER](_ => Caller(0, 0, 0));
    }

    /** The scan at a milestone: report the hot sites and clear every counter. */
    method Harvest() returns (adds: seq<Key>)
      requires Valid()
      modifies caller
      ensures forall i :: 0 <= i < MAX_CALLER ==> caller[i].cnt == 0
      ensures adds == HotSites(old(caller[..]), 0)
    {
      hide HotSites, AllExact;
      adds := [];
      ghost var t := caller[..];
      for pos := 0 to MAX_CALLER
        invariant forall i :: 0 <= i < pos ==> caller[i].cnt == 0
        invariant forall i :: pos <= i < MAX_CALLER ==> caller[i] == t[i]
        invariant adds + HotSites(t, pos) == HotSites(t, 0)
      {
        HotStep(t, pos);
        if caller[pos].cnt > HOT_TH {
          adds := adds + [Key(caller[pos].pid, caller[pos].rip)];
        }
        caller[pos] := caller[pos].(cnt := 0);
      }
      HotEnd(t);
    }

    /** `stat_func`: the table stays what the log says, and `exe_add` is called for hot sites only. */
    method StatFunc(c: Call) returns (adds: seq<Key>)
      requires Valid()
      modifies this, caller
      ensures Valid() && View() == LogStep(old(View()), c)
      ensures old(callCnt) >= MILESTONE_CNT && old(interested) ==>
        forall k :: k in adds <==> exists pos :: 0 <= pos < MAX_CALLER && HotAt(old(shorts), pos, k)
      ensures old(callCnt) < MILESTONE_CNT || !old(interested) ==> adds == []
      ensures Counters(caller[..], 0) <= callCnt + 1 && (!interested ==> Counters(caller[..], 0) == 0)
    {
      hide HotSites, HotAt, AllExact, Elapsed, Pos, Counters, Total;
      adds := [];
      callCnt := callCnt + 1;
      if callCnt > MILESTONE_CNT {
        if interested {
          HotAreHot(caller[..], shorts);
          adds := Harvest();
          Cleared(caller[..]);
        }
        shorts := [];
        callCnt := 0;
        interested := Elapsed(c.now, milestoneTs) < MILESTONE_TH;
        milestoneTs := c.now;
      }
      assert AllExact(caller[..], shorts);
      if interested {
        if Elapsed(c.ts, lastTs) < SHORT_TH {
          Note(c.pid);
        }
        lastTs := c.now;
        lastCaller := c.ip;
      }
      CountersAre(caller[..], shorts, 0);
      TotalBound(shorts, 0);
    }

    /** A short gap after `lastCaller`. */
    method Note(pid: int)
      requires caller.Length == MAX_CALLER && AllExact(caller[..], shorts)
      modifies caller, this`shorts
      ensures AllExact(caller[..], shorts) && shorts == old(shorts) + [Short(Pos(pid, lastCaller), pid, lastCaller)]
    {
      var pos := Pos(pid, lastCaller);
      ghost var t := caller[..];
      ghost var e := Short(pos, pid, lastCaller);
      if caller[pos].cnt == 0 {
        caller[pos] := caller[pos].(pid := pid, rip := lastCaller);
      }
      if caller[pos].rip == lastCaller {
        caller[pos] := caller[pos].(cnt := caller[pos].cnt + 1);
      }
      assert caller[..] == File(t, e);
      forall i | 0 <= i < MAX_CALLER ensures Exact(File(t, e)[i], shorts + [e], i) { Filed(t, shorts, e, i); }
      shorts := shorts + [e];
    }
  }

  lemma Cleared(t: seq<Caller>)
    requires |t| == MAX_CALLER && forall i :: 0 <= i < MAX_CALLER ==> t[i].cnt == 0
    ensures AllExact(t, [])
  {
  }

  function HotSites(t: seq<Caller>, pos: nat): seq<Key>
    requires |t| == MAX_CALLER && pos <= MAX_CALLER
    decreases MAX_CALLER - pos
  {
    if pos == MAX_CALLER then []
    else (if t[pos].cnt > HOT_TH then [Key(t[pos].pid, t[pos].rip)] else []) + HotSites(t, pos + 1)
  }

  lemma HotStep(t: seq<Caller>, pos: nat)
    requires |t| == MAX_CALLER && pos < MAX_CALLER
    ensures HotSites(t, pos) ==
            (if t[pos].cnt > HOT_TH then [Key(t[pos].pid, t[pos].rip)] else []) + HotSites(t, pos + 1)
  {
  }

  lemma HotEnd(t: seq<Caller>)
    requires |t| == MAX_CALLER
    ensures HotSites(t, MAX_CALLER) == []
  {
  }

  /** Key k is the first site filed at pos and was filed there more than 900 times. */
  predicate HotAt(s: seq<Short>, pos: nat, k: Key) {
    First(s, pos).Some? && k == Key(First(s, pos).value.pid, First(s, pos).value.rip) && Count(s, pos, k.rip) > HOT_TH
  }

  lemma HotAreHot(t: seq<Caller>, s: seq<Short>)
    requires AllExact(t, s)
    ensures forall k :: k in HotSites(t, 0) <==> exists pos :: 0 <= pos < MAX_CALLER && HotAt(s, pos, k)
  {
    forall k | k in HotSites(t, 0) ensures exists pos :: 0 <= pos < MAX_CALLER && HotAt(s, pos, k) {
      HotFrom(t, s, 0, k);
    }
    forall k, pos | 0 <= pos < MAX_CALLER && HotAt(s, pos, k) ensures k in HotSites(t, 0) {
      HotListed(t, s, 0, pos, k);
    }
  }

  lemma {:induction false} HotListed(t: seq<Caller>, s: seq<Short>, p: nat, pos: nat, k: Key)
    requires AllExact(t, s) && p <= pos < MAX_CALLER && HotAt(s, pos, k)
    ensures k in HotSites(t, p)
    decreases pos - p
  {
    if p < pos {
      HotListed(t, s, p + 1, pos, k);
    } else {
      assert Exact(t[p], s, p);
    }
  }

  // ---------------------------------------------------------------- how much is counted

  /** The counters of slots p and up, as the log determines them. */
  function Total(s: seq<Short>, p: nat): nat
    requires p <= MAX_CALLER
    decreases MAX_CALLER - p
  {
    if p == MAX_CALLER then 0
    else (if First(s, p).Some? then Count(s, p, First(s, p).value.rip) else 0) + Total(s, p + 1)
  }

  lemma {:induction false} TotalAppend(s: seq<Short>, e: Short, p: nat)
    requires p <= MAX_CALLER
    ensures Total(s + [e], p) <= Total(s, p) + if e.pos >= p then 1 else 0
    decreases MAX_CALLER - p
  {
    if p < MAX_CALLER {
      TotalAppend(s, e, p + 1);
      FirstAppend(s, e, p);
      FirstCounts(s, p);
      if First(s + [e], p).Some? { CountAppend(s, e, p, First(s + [e], p).value.rip); }
    }
  }

  /** All counters together never exceed the calls of the window. */
  lemma {:induction false} TotalBound(s: seq<Short>, p: nat)
    requires p <= MAX_CALLER
    ensures Total(s, p) <= |s|
    decreases |s|
  {
    if s == [] {
      TotalEmpty(p);
    } else {
      var n := |s| - 1;
      assert s == s[..n] + [s[n]];
      TotalBound(s[..n], p);
      TotalAppend(s[..n], s[n], p);
    }
  }

  lemma {:induction false} TotalEmpty(p: nat)
    requires p <= MAX_CALLER
    ensures Total([], p) == 0
    decreases MAX_CALLER - p
  {
    if p < MAX_CALLER { TotalEmpty(p + 1); }
  }

  /** The counters of slots p and up. */
  function Counters(t: seq<Caller>, p: nat): nat
    requires |t| == MAX_CALLER && p <= MAX_CALLER
    decreases MAX_CALLER - p
  {
    if p == MAX_CALLER then 0 else t[p].cnt + Counters(t, p + 1)
  }

  /** The counters add up to what the log says. */
  lemma {:induction false} CountersAre(t: seq<Caller>, s: seq<Short>, p: nat)
    requires AllExact(t, s) && p <= MAX_CALLER
    ensures Counters(t, p) == Total(s, p)
    decreases MAX_CALLER - p
  {
    if p < MAX_CALLER {
      assert Exact(t[p], s, p);
      CountersAre(t, s, p + 1);
    }
  }

  /** The reference never files more than one short call per call of the window. */
  lemma {:induction false} LogRun(l: Log, calls: seq<Call>)
    requires |l.shorts| <= l.callCnt + 1 && (!l.interested ==> l.shorts == []) && l.callCnt <= MILESTONE_CNT
    ensures var r := LogSteps(l, calls);
      Total(r.shorts, 0) <= r.callCnt + 1 && (!r.interested ==> r.shorts == []) && r.callCnt <= MILESTONE_CNT
    decreases |calls|
  {
    hide Pos, Elapsed;
    if calls == [] {
      TotalBound(l.shorts, 0);
    } else {
      LogRun(LogStep(l, calls[0]), calls[1..]);
    }
  }

  function LogSteps(l: Log, calls: seq<Call>): Log
    decreases |calls|
  {
    if calls == [] then l else LogSteps(LogStep(l, calls[0]), calls[1..])
  }

  // ---------------------------------------------------------------- what the log logs

  /** The call that opened the window of call i: windows are 30001 calls long, and the first has no such call. */
  function Opening(i: nat): (s: int)
    ensures -1 <= s <= i
  {
    (i + 1) / 30001 * 30001 - 1
  }

  /** Call i is in a window that counts: the window that closed before it took less than a second. */
  predicate Counted(calls: seq<Call>, i: nat)
    requires i < |calls|
  {
    var s := Opening(i);
    s >= 30000 && Wrap(calls[s].now - (if s == 30000 then 0 else calls[s - 30001].now)) < 1_000_000_000
  }

  /** The last call before call i that was in a window that counts. */
  function Previous(calls: seq<Call>, i: nat): (p: Option<nat>)
    requires i <= |calls|
    ensures p.Some? ==> p.value < i
  {
    if i == 0 then None else if Counted(calls, i - 1) then Some(i - 1) else Previous(calls, i - 1)
  }

  /** When that call was noted and where it came from; zero if there is none. */
  function NotedAt(calls: seq<Call>, i: nat): Word
    requires i <= |calls|
  {
    var p := Previous(calls, i);
    if p.Some? then calls[p.value].now else 0
  }

  function NotedIp(calls: seq<Call>, i: nat): Word
    requires i <= |calls|
  {
    var p := Previous(calls, i);
    if p.Some? then calls[p.value].ip else 0
  }

  /** Call i comes less than 1300 ns after the call noted before it. */
  predicate Quick(calls: seq<Call>, i: nat)
    requires i < |calls|
  {
    Wrap(calls[i].ts - NotedAt(calls, i)) < 1300
  }

  function ShortOf(calls: seq<Call>, i: nat): Short
    requires i < |calls|
  {
    Short(Pos(calls[i].pid, NotedIp(calls, i)), calls[i].pid, NotedIp(calls, i))
  }

  /** The quick calls among s..n, in order. */
  function ShortsOf(calls: seq<Call>, s: nat, n: nat): seq<Short>
    requires s <= n <= |calls|
    decreases n - s
  {
    if s == n then [] else ShortsOf(calls, s, n - 1) + if Quick(calls, n - 1) then [ShortOf(calls, n - 1)] else []
  }

  const START := Log(0, 0, 0, 0, false, [])

  /** What the log is after n calls. */
  ghost predicate Logged(calls: seq<Call>, n: nat, l: Log)
    requires n <= |calls|
  {
    && l.callCnt == n % 30001 && l.lastTs == NotedAt(calls, n) && l.lastCaller == NotedIp(calls, n)
    && (n == 0 ==> l.milestoneTs == 0 && !l.interested && l.shorts == [])
    && (n > 0 ==>
          var s := Opening(n - 1);
          && l.milestoneTs == (if s < 0 then 0 else calls[s].now)
          && (l.interested <==> Counted(calls, n - 1))
          && l.shorts == if Counted(calls, n - 1) then ShortsOf(calls, s, n) else [])
  }

  /** A window of 30001 calls after the other: call i opens one if and only if 30000 calls came before it in its own. */
  lemma OpeningStep(i: nat)
    ensures Opening(i) == i <==> i % 30001 == 30000
    ensures i % 30001 != 30000 ==> Opening(i) == (if i == 0 then -1 else Opening(i - 1))
    ensures i % 30001 == 30000 && i > 30000 ==> i >= 60001 && Opening(i - 1) == i - 30001
    ensures i % 30001 == 30000 && i == 30000 ==> Opening(i - 1) == -1
    ensures (i + 1) % 30001 == (if i % 30001 == 30000 then 0 else i % 30001 + 1)
    ensures Opening(i) == -1 || Opening(i) >= 30000
  {
  }

  lemma MilestoneLogged(calls: seq<Call>, n: nat, l: Log)
    requires n < |calls| && Logged(calls, n, l)
    ensures var m := Milestone(l, calls[n]); var s := Opening(n);
      && m.callCnt == (n + 1) % 30001 && m.lastTs == l.lastTs && m.lastCaller == l.lastCaller
      && m.milestoneTs == (if s < 0 then 0 else calls[s].now) && (m.interested <==> Counted(calls, n))
      && m.shorts == if Counted(calls, n) then ShortsOf(calls, s, n) else []
  {
    hide Opening, NotedAt, NotedIp, Quick, ShortOf;
    OpeningStep(n);
    if n > 0 && n % 30001 != 30000 { OpeningStep(n - 1); }
  }

  lemma NotedStep(calls: seq<Call>, n: nat)
    requires n < |calls|
    ensures NotedAt(calls, n + 1) == if Counted(calls, n) then calls[n].now else NotedAt(calls, n)
    ensures NotedIp(calls, n + 1) == if Counted(calls, n) then calls[n].ip else NotedIp(calls, n)
  {
    hide Counted;
  }

  lemma StepLogged(calls: seq<Call>, n: nat, l: Log)
    requires n < |calls| && Logged(calls, n, l)
    ensures Logged(calls, n + 1, LogStep(l, calls[n]))
  {
    hide Milestone, Counted, NotedAt, NotedIp, Pos, ShortsOf, Quick, ShortOf, Opening, Elapsed;
    MilestoneLogged(calls, n, l);
    NotedStep(calls, n);
    QuickIs(calls, n);
    if Counted(calls, n) {
      CountedOpen(calls, n);
      ShortsStep(calls, Opening(n), n);
    }
  }

  lemma CountedOpen(calls: seq<Call>, n: nat)
    requires n < |calls| && Counted(calls, n)
    ensures 0 <= Opening(n) <= n
  {
  }

  lemma QuickIs(calls: seq<Call>, n: nat)
    requires n < |calls|
    ensures Quick(calls, n) <==> Elapsed(calls[n].ts, NotedAt(calls, n)) < SHORT_TH
    ensures ShortOf(calls, n) == Short(Pos(calls[n].pid, NotedIp(calls, n)), calls[n].pid, NotedIp(calls, n))
  {
    hide NotedAt, NotedIp, Pos;
  }

  lemma ShortsStep(calls: seq<Call>, s: nat, n: nat)
    requires s <= n < |calls|
    ensures ShortsOf(calls, s, n + 1) == ShortsOf(calls, s, n) + if Quick(calls, n) then [ShortOf(calls, n)] else []
  {
    hide Quick, ShortOf;
  }

  lemma {:induction false} StepsAppend(l: Log, calls: seq<Call>, c: Call)
    ensures LogSteps(l, calls + [c]) == LogStep(LogSteps(l, calls), c)
    decreases |calls|
  {
    hide LogStep;
    if calls == [] {
      assert (calls + [c])[1..] == [];
    } else {
      assert (calls + [c])[0] == calls[0] && (calls + [c])[1..] == calls[1..] + [c];
      StepsAppend(LogStep(l, calls[0]), calls[1..], c);
    }
  }

  /** Over every sequence of calls from the start: the log is what the calls make it. */
  lemma {:induction false} LogIs(calls: seq<Call>, n: nat)
    requires n <= |calls|
    ensures Logged(calls, n, LogSteps(START, calls[..n]))
    decreases n
  {
    hide Logged, LogStep;
    if n == 0 {
      NothingLogged(calls);
    } else {
      LogIs(calls, n - 1);
      StepLogged(calls, n - 1, LogSteps(START, calls[..n - 1]));
      assert calls[..n] == calls[..n - 1] + [calls[n - 1]];
      StepsAppend(START, calls[..n - 1], calls[n - 1]);
    }
  }

  lemma NothingLogged(calls: seq<Call>)
    ensures Logged(calls, 0, LogSteps(START, calls[..0]))
  {
  }

  /**
   * The short calls of the log, by index: `at` are the calls of the current window that come less
   * than 1300 ns after the call before them, in order, each filed under the address of that call.
   * For the first call of a window the call before is the last one of a window that counted.
   */
  lemma ShortsByIndex(calls: seq<Call>) returns (at: seq<nat>)
    requires calls != [] && Counted(calls, |calls| - 1)
    ensures
      var (n, s, l) := (|calls|, Opening(|calls| - 1), LogSteps(START, calls));
      && |at| == |l.shorts| && l.interested
      && (forall j, k :: 0 <= j < k < |at| ==> at[j] < at[k])
      && (forall i :: i in at <==> s <= i < n && Quick(calls, i))
      && (forall j :: 0 <= j < |at| ==> at[j] < n && l.shorts[j] == ShortOf(calls, at[j]))
      && (forall i :: s < i < n ==> NotedAt(calls, i) == calls[i - 1].now && NotedIp(calls, i) == calls[i - 1].ip)
  {
    hide Logged, Quick, ShortOf, NotedAt, NotedIp, Counted;
    var n, s := |calls|, Opening(|calls| - 1);
    assert calls[..n] == calls;
    LogIs(calls, n);
    LoggedShorts(calls, LogSteps(START, calls));
    at := QuickOnes(calls, s, n);
    forall i | s < i < n ensures NotedAt(calls, i) == calls[i - 1].now && NotedIp(calls, i) == calls[i - 1].ip {
      SameWindow(calls, i - 1);
      NotedStep(calls, i - 1);
    }
  }

  lemma LoggedShorts(calls: seq<Call>, l: Log)
    requires calls != [] && Counted(calls, |calls| - 1) && Logged(calls, |calls|, l)
    ensures l.interested && 0 <= Opening(|calls| - 1) && l.shorts == ShortsOf(calls, Opening(|calls| - 1), |calls|)
  {
    hide NotedAt, NotedIp, ShortsOf, Opening;
  }

  /** All calls of a window count if one does. */
  lemma SameWindow(calls: seq<Call>, i: nat)
    requires i < |calls| && Counted(calls, |calls| - 1) && Opening(|calls| - 1) <= i
    ensures Counted(calls, i)
  {
    SameOpening(i, |calls| - 1);
    hide Opening;
  }

  lemma SameOpening(i: nat, n: nat)
    requires Opening(n) <= i <= n
    ensures Opening(i) == Opening(n)
  {
    var q := (n + 1) / 30001;
    assert q * 30001 <= i + 1 <= n + 1;
  }

  lemma {:induction false} QuickOnes(calls: seq<Call>, s: nat, n: nat) returns (at: seq<nat>)
    requires s <= n <= |calls|
    ensures |at| == |ShortsOf(calls, s, n)|
    ensures forall j, k :: 0 <= j < k < |at| ==> at[j] < at[k]
    ensures forall i :: i in at <==> s <= i < n && Quick(calls, i)
    ensures forall j :: 0 <= j < |at| ==> at[j] < |calls| && ShortsOf(calls, s, n)[j] == ShortOf(calls, at[j])
    decreases n - s
  {
    hide Quick, ShortOf;
    if s == n {
      at := [];
    } else {
      var rest := QuickOnes(calls, s, n - 1);
      at := rest + if Quick(calls, n - 1) then [n - 1] else [];
      forall j | 0 <= j < |rest| ensures s <= rest[j] < n - 1 { assert rest[j] in rest; }
    }
  }

  /**
   * A window counts if and only if the 30001 calls from the opening of the one before it up to
   * its own opening took less than a second.
   */
  lemma WindowsByIndex(calls: seq<Call>)
    requires calls != []
    ensures
      var (l, s) := (LogSteps(START, calls), Opening(|calls| - 1));
      && (|calls| <= 30000 ==> !l.interested && l.shorts == [])
      && (|calls| > 30000 ==>
            && s % 30001 == 30000 && s < |calls| <= s + 30001
            && (l.interested <==>
                  Elapsed(calls[s].now, if s == 30000 then 0 else calls[s - 30001].now) < 1_000_000_000))
      && (!l.interested ==> l.shorts == [])
  {
    hide ShortsOf, NotedAt, NotedIp;
    assert calls[..|calls|] == calls;
    LogIs(calls, |calls|);
    OpeningIs(|calls| - 1);
  }

  lemma OpeningIs(i: nat)
    ensures i < 30000 ==> Opening(i) == -1
    ensures i >= 30000 ==> Opening(i) % 30001 == 30000 && i < Opening(i) + 30001 && Opening(i) >= 30000
    ensures i >= 30000 && Opening(i) != 30000 ==> Opening(i) >= 60001
  {
    var q := (i + 1) / 30001;
    assert Opening(i) == q * 30001 - 1;
  }

  /** The counts of the log are numbers of calls. */
  lemma {:induction false} CountIs(s: seq<Short>, pos: nat, rip: Word)
    ensures Count(s, pos, rip) == |set j | 0 <= j < |s| && s[j].pos == pos && s[j].rip == rip|
    decreases |s|
  {
    var all := set j | 0 <= j < |s| && s[j].pos == pos && s[j].rip == rip;
    if s == [] {
      assert all == {};
    } else {
      var n := |s| - 1;
      assert s == s[..n] + [s[n]];
      CountIs(s[..n], pos, rip);
      CountAppend(s[..n], s[n], pos, rip);
      var before := set j | 0 <= j < n && s[..n][j].pos == pos && s[..n][j].rip == rip;
      assert all == before + if s[n].pos == pos && s[n].rip == rip then {n} else {};
    }
  }

  /** The first site filed at a position, by index. */
  lemma {:induction false} FirstIs(s: seq<Short>, pos: nat, j: nat)
    requires j < |s| && s[j].pos == pos && forall i :: 0 <= i < j ==> s[i].pos != pos
    ensures First(s, pos) == Some(s[j])
  {
    if j > 0 { FirstIs(s[1..], pos, j - 1); }
  }

  /** Nothing was filed at pos before j. */
  ghost predicate FiledFirst(s: seq<Short>, pos: nat, j: nat) {
    j < |s| && s[j].pos == pos && forall i :: 0 <= i < j ==> s[i].pos != pos
  }

  /** A site is hot if and only if it was the first filed at its position and was filed there more than 900 times. */
  lemma HotIs(s: seq<Short>, pos: nat, k: Key)
    ensures HotAt(s, pos, k) <==>
      && (exists j: nat :: FiledFirst(s, pos, j) && s[j].pid == k.pid && s[j].rip == k.rip)
      && |set j | 0 <= j < |s| && s[j].pos == pos && s[j].rip == k.rip| > 900
  {
    CountIs(s, pos, k.rip);
    if First(s, pos).Some? {
      var j := FirstWhere(s, pos);
      assert FiledFirst(s, pos, j);
    }
    forall j: nat | FiledFirst(s, pos, j) ensures First(s, pos) == Some(s[j]) { FirstIs(s, pos, j); }
  }

  lemma {:induction false} FirstWhere(s: seq<Short>, pos: nat) returns (j: nat)
    requires First(s, pos).Some?
    ensures FiledFirst(s, pos, j) && First(s, pos) == Some(s[j])
  {
    if s[0].pos == pos {
      j := 0;
    } else {
      var i := FirstWhere(s[1..], pos);
      j := i + 1;
      assert s[j] == s[1..][i];
      forall k | 0 <= k < j ensures s[k].pos != pos { if k > 0 { assert s[k] == s[1..][k - 1]; } }
    }
  }

  lemma {:induction false} HotFrom(t: seq<Caller>, s: seq<Short>, p: nat, k: Key)
    requires AllExact(t, s) && p <= MAX_CALLER && k in HotSites(t, p)
    ensures exists pos :: 0 <= pos < MAX_CALLER && HotAt(s, pos, k)
    decreases MAX_CALLER - p
  {
    if t[p].cnt > HOT_TH && k == Key(t[p].pid, t[p].rip) {
      assert Exact(t[p], s, p) && HotAt(s, p, k);
    } else {
      HotFrom(t, s, p + 1, k);
    }
  }
}
