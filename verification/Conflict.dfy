/**
 * The register allocator: which virtual register sits in which physical one.
 *
 * Python pops its victims from unordered sets, so every choice below is arbitrary and the
 * contracts hold for every eviction order.  A method answers None where the original raises
 * or names a frame slot that does not exist.
 */
module Conflict {
  import opened Words
  import opened Machine
  import opened Simulation

  const PHYSICAL: set<PReg> := {P12, P13, P14, P15}

  /** `block_init`: R13 holds SP, R12 holds BP, R14 and R15 are idle. */
  function BlockInit(): RMap {
    map[P13 := SP, P12 := BP]
  }

  /** The virtual register that has the number of a physical one. */
  function Namesake(p: PReg): VReg {
    match p case P12 => V12 case P13 => V13 case P14 => V14 case P15 => V15
  }

  /** SP and BP, when resident, are where `recover_stable` puts them back. */
  ghost predicate Anchored(m: RMap) {
    && Injective(m)
    && (Resident(m, SP) ==> Holds(m, P13, SP))
    && (Resident(m, BP) ==> Holds(m, P12, BP))
  }

  /** What the map looks like between two lines. */
  ghost predicate Between(m: RMap) {
    Injective(m) && Holds(m, P13, SP) && Holds(m, P12, BP) && !Resident(m, IP)
  }

  ghost predicate Kept(w: View) { forall t :: t in w.live ==> Temp(t) && Resident(w.m, t) }

  lemma Dropped(m: RMap, p: PReg)
    requires Anchored(m) && p in m
    ensures Anchored(m - {p})
    ensures forall u :: Resident(m - {p}, u) <==> Resident(m, u) && u != m[p]
  {
    match p case P12 => case P13 => case P14 => case P15 =>
  }

  lemma Added(m: RMap, p: PReg, v: VReg)
    requires Anchored(m) && p !in m && !Resident(m, v) && v != SP && v != BP
    ensures Anchored(m[p := v])
    ensures forall u :: Resident(m[p := v], u) <==> Resident(m, u) || u == v
  {
    HeldIsResident(m);
    var m' := m[p := v];
    assert Injective(m');
    forall u ensures Resident(m', u) <==> Resident(m, u) || u == v {
      match p case P12 => case P13 => case P14 => case P15 =>
    }
  }

  function Idle(m: RMap): set<PReg> { PHYSICAL - m.Keys }

  function Victims(m: RMap, conflict: set<VReg>): set<PReg> {
    set p | p in m && m[p] !in conflict && !Stable(m[p])
  }

  /** The original tests the physical name, not the resident, against the conflict set. */
  function StableVictims(m: RMap, conflict: set<VReg>): set<PReg> {
    set p | p in m && Namesake(p) !in conflict && Stable(m[p]) && !Temp(m[p])
  }

  /** Enough idle registers and ordinary victims: SP and BP need not be borrowed. */
  predicate Room(m: RMap, conflict: set<VReg>) {
    |conflict - m.Values| <= |Idle(m)| + |Victims(m, conflict)|
  }

  /** More registers to resolve than idle registers, ordinary victims and borrowed SP and BP together. */
  predicate Outnumbered(m: RMap, conflict: set<VReg>) {
    |conflict - m.Values| > |Idle(m)| + |Victims(m, conflict)| + |StableVictims(m, conflict)|
  }

  /** The three pools a register is taken from, disjoint and true to the map. */
  ghost predicate Pools(m: RMap, idle: set<PReg>, victims: set<PReg>, stable: set<PReg>) {
    && (forall p :: p in idle ==> p !in m && p !in victims && p !in stable)
    && (forall p :: p in victims ==> p in m && Slotted(m[p]) && !Stable(m[p]) && p !in stable)
    && (forall p :: p in stable ==> p in m && (m[p] == SP || m[p] == BP))
  }

  lemma PoolsStart(m: RMap, conflict: set<VReg>)
    requires Between(m)
    ensures Anchored(m) && Pools(m, Idle(m), Victims(m, conflict), StableVictims(m, conflict))
    ensures forall v :: v in conflict - m.Values ==> !Resident(m, v) && v != SP && v != BP
  {
    HeldIsResident(m);
  }

  lemma PoolsKept(m: RMap, p: PReg, v: VReg, idle: set<PReg>, victims: set<PReg>, stable: set<PReg>)
    requires Pools(m, idle, victims, stable) && p !in idle + victims + stable
    ensures Pools(m[p := v], idle, victims, stable)
  {
  }

  lemma AnchorsKept(m: RMap, p: PReg, v: VReg)
    requires Holds(m, P13, SP) && Holds(m, P12, BP) && (p in m ==> !Stable(m[p]))
    ensures Holds(m[p := v], P13, SP) && Holds(m[p := v], P12, BP)
  {
  }

  lemma SomeLeft(todo: set<VReg>, v: VReg, idle: set<PReg>, victims: set<PReg>)
    requires v in todo
    ensures |todo| <= |idle| + |victims| ==> idle + victims != {}
    ensures |todo - {v}| == |todo| - 1
  {
    if idle + victims == {} {
      assert idle == {} && victims == {};
    }
  }

  lemma NoneLeft(idle: set<PReg>, victims: set<PReg>, stable: set<PReg>)
    requires idle + victims + stable == {}
    ensures |idle| + |victims| + |stable| == 0
  {
    assert idle == {} && victims == {} && stable == {};
  }

  /** LEA R14, [R12 + R15] at the start of a block: three registers for two idle ones, so R13 is borrowed from SP. */
  lemma BorrowsSp()
    ensures var m, conflict := BlockInit(), {V12, V14, V15};
      && Idle(m) == {P14, P15} && Victims(m, conflict) == {} && StableVictims(m, conflict) == {P13}
      && !Room(m, conflict) && !Outnumbered(m, conflict)
      && |conflict - m.Values| == 3 == |Idle(m)| + |Victims(m, conflict)| + |StableVictims(m, conflict)|
  {
    hide *;
    InitHolds();
    InitIdle();
    InitVictims();
    InitStable();
    Three({V12, V14, V15}, BlockInit().Values);
    NoRoom(BlockInit(), {V12, V14, V15});
  }

  lemma InitHolds()
    ensures BlockInit().Values == {SP, BP}
  {
    assert BlockInit()[P13] == SP && BlockInit()[P12] == BP;
  }

  lemma InitIdle()
    ensures Idle(BlockInit()) == {P14, P15}
  {
    forall p ensures p in Idle(BlockInit()) <==> p in {P14, P15} {
      match p case P12 => case P13 => case P14 => case P15 =>
    }
  }

  lemma InitVictims()
    ensures Victims(BlockInit(), {V12, V14, V15}) == {}
  {
  }

  lemma InitStable()
    ensures StableVictims(BlockInit(), {V12, V14, V15}) == {P13}
  {
    forall p ensures p in StableVictims(BlockInit(), {V12, V14, V15}) <==> p in {P13} {
      match p case P12 => case P13 => case P14 => case P15 =>
    }
  }

  lemma Three(conflict: set<VReg>, held: set<VReg>)
    requires conflict == {V12, V14, V15} && held == {SP, BP}
    ensures |conflict - held| == 3
  {
    assert conflict - held == conflict;
  }

  lemma NoRoom(m: RMap, conflict: set<VReg>)
    ensures |conflict - m.Values| > |Idle(m)| + |Victims(m, conflict)| ==> !Room(m, conflict)
    ensures |conflict - m.Values| <= |Idle(m)| + |Victims(m, conflict)| + |StableVictims(m, conflict)| ==>
      !Outnumbered(m, conflict)
  {
  }

  /** An idle register if there is one, else an ordinary victim, else SP's or BP's. */
  method Pick(ghost m: RMap, idle: set<PReg>, victims: set<PReg>, stable: set<PReg>)
    returns (p: PReg, idle': set<PReg>, victims': set<PReg>, stable': set<PReg>)
    requires Pools(m, idle, victims, stable) && idle + victims + stable != {}
    ensures Pools(m, idle', victims', stable') && p !in idle' + victims' + stable'
    ensures p in m ==> Slotted(m[p])
    ensures victims' <= victims && (p in victims ==> p !in victims')
    ensures (idle + victims != {} && p in m ==> p in victims)
    ensures idle + victims != {} ==> |idle'| + |victims'| + 1 == |idle| + |victims| && (p in m ==> !Stable(m[p]))
    ensures |idle'| + |victims'| + |stable'| + 1 == |idle| + |victims| + |stable|
    ensures p in m ==> p in victims || m[p] == SP || m[p] == BP
  {
    idle', victims', stable' := idle, victims, stable;
    if idle != {} {
      p :| p in idle;
      idle' := idle - {p};
    } else if victims != {} {
      p :| p in victims;
      victims' := victims - {p};
    } else {
      p :| p in stable;
      stable' := stable - {p};
    }
  }

  /** A single temporary always finds room. */
  lemma RoomForTemp(m: RMap, t: VReg)
    requires Between(m) && Temp(t)
    ensures Room(m, {t})
  {
    if t in m.Values {
      assert {t} - m.Values == {};
    } else {
      assert {t} - m.Values == {t};
      if P14 in m && P15 in m {
        assert m[P14] != m[P15];
        assert P14 in Victims(m, {t}) || P15 in Victims(m, {t});
      } else {
        assert P14 in Idle(m) || P15 in Idle(m);
      }
    }
  }

  /** The temporaries in a physical register. */
  function TempsIn(m: RMap): set<VReg> { set t | t in {T1, T2} && Resident(m, t) }

  /** Beside SP and BP at most two registers are wanted, counting temporaries that already sit there. */
  predicate Narrow(m: RMap, conflict: set<VReg>) { |conflict + TempsIn(m) - {SP, BP}| <= 2 }

  /** A set of registers that R12 to R15 can hold, with SP and BP and all temporaries now resident. */
  predicate Ample(m: RMap, k: set<VReg>) { {SP, BP} <= k && |k| <= 4 && TempsIn(m) <= k }

  lemma AmpleNarrow(m: RMap, k: set<VReg>, conflict: set<VReg>)
    requires Ample(m, k) && conflict <= k
    ensures Narrow(m, conflict)
  {
    hide TempsIn;
    SubsetSize(conflict + TempsIn(m) - {SP, BP}, k - {SP, BP});
    assert |k - {SP, BP}| == |k| - |{SP, BP}|;
  }

  /** Then R14 and R15 are enough. */
  lemma NarrowRoom(m: RMap, conflict: set<VReg>)
    requires Between(m) && Narrow(m, conflict)
    ensures Room(m, conflict)
  {
    hide TempsIn, Taken, Idle, Victims, Between;
    TakenApart(m, conflict);
    TakenWanted(m, conflict, P14);
    TakenWanted(m, conflict, P15);
    PartsFit(conflict - m.Values, Taken(m, conflict, P14), Taken(m, conflict, P15), conflict + TempsIn(m) - {SP, BP});
    FreeCount(m, conflict, Idle(m) + Victims(m, conflict));
  }

  lemma TakenApart(m: RMap, conflict: set<VReg>)
    requires Between(m)
    ensures Taken(m, conflict, P14) !! Taken(m, conflict, P15) && SP in m.Values && BP in m.Values
    ensures |Idle(m) + Victims(m, conflict)| == |Idle(m)| + |Victims(m, conflict)|
  {
    hide Stable;
    assert m[P13] in m.Values && m[P12] in m.Values;
    assert Idle(m) !! Victims(m, conflict);
  }

  lemma PartsFit<T>(x: set<T>, y: set<T>, z: set<T>, all: set<T>)
    requires x !! y && x !! z && y !! z && x <= all && y <= all && z <= all
    ensures |x| + |y| + |z| <= |all|
  {
    assert |x + y| == |x| + |y| && (x + y) !! z;
    assert |x + y + z| == |x + y| + |z|;
    SubsetSize(x + y + z, all);
  }

  /** What sits in p and cannot be evicted for the conflict set. */
  function Taken(m: RMap, conflict: set<VReg>, p: PReg): set<VReg> {
    if p in m && (m[p] in conflict || Stable(m[p])) then {m[p]} else {}
  }

  lemma TakenWanted(m: RMap, conflict: set<VReg>, p: PReg)
    requires Between(m) && (p == P14 || p == P15)
    ensures Taken(m, conflict, p) <= conflict + TempsIn(m) - {SP, BP}
    ensures Taken(m, conflict, p) <= m.Values
  {
    HeldIsResident(m);
    if p in m {
      assert m[p] in m.Values;
      assert m[p] != SP && m[p] != BP;
    }
  }

  lemma FreeCount(m: RMap, conflict: set<VReg>, free: set<PReg>)
    requires Between(m) && free == Idle(m) + Victims(m, conflict)
    ensures |free| + |Taken(m, conflict, P14)| + |Taken(m, conflict, P15)| >= 2
  {
    var x: set<PReg> := if Taken(m, conflict, P14) == {} then {P14} else {};
    var y: set<PReg> := if Taken(m, conflict, P15) == {} then {P15} else {};
    EitherFree(m, conflict, P14);
    EitherFree(m, conflict, P15);
    assert x !! y && x + y <= free;
    hide Taken, Idle, Victims, Between;
    SubsetSize(x + y, free);
    assert |x + y| == |x| + |y|;
  }

  lemma EitherFree(m: RMap, conflict: set<VReg>, p: PReg)
    requires p == P14 || p == P15
    ensures Taken(m, conflict, p) == {} ==> p in Idle(m) + Victims(m, conflict)
    ensures Taken(m, conflict, p) != {} ==> |Taken(m, conflict, p)| == 1
  {
  }

  lemma {:induction false} SubsetSize<T>(a: set<T>, b: set<T>)
    requires a <= b
    ensures |a| <= |b|
    decreases a
  {
    if a != {} {
      var x :| x in a;
      SubsetSize(a - {x}, b - {x});
    }
  }

  /** What is no longer to be resolved is resident, and no victim is wanted. */
  ghost predicate Settled(m: RMap, conflict: set<VReg>, todo: set<VReg>, victims: set<PReg>) {
    && (forall v :: v in conflict && v !in todo ==> Resident(m, v))
    && (forall p :: p in victims ==> p in m && m[p] !in conflict)
  }

  lemma SettledStart(m: RMap, conflict: set<VReg>)
    ensures Settled(m, conflict, conflict - m.Values, Victims(m, conflict))
  {
    HeldIsResident(m);
  }

  lemma SettledStep(m: RMap, conflict: set<VReg>, todo0: set<VReg>, todo: set<VReg>, victims0: set<PReg>,
                    victims: set<PReg>, p: PReg, v: VReg)
    requires Anchored(m) && !Resident(m, v) && Settled(m, conflict, todo0, victims0) && todo == todo0 - {v}
    requires victims <= victims0 && p !in victims && (p in m ==> m[p] !in conflict)
    ensures Settled(m[p := v], conflict, todo, victims)
  {
    hide Resident;
    forall u | u in conflict && u !in todo ensures Resident(m[p := v], u) { Swapped(m, p, v, u); }
  }

  /** A picked register holds nothing wanted. */
  lemma Unwanted(m: RMap, conflict: set<VReg>, todo: set<VReg>, victims: set<PReg>, p: PReg)
    requires Settled(m, conflict, todo, victims) && (p in m ==> p in victims || m[p] == SP || m[p] == BP)
    requires (p in m && p !in victims ==> SP !in conflict && BP !in conflict)
    ensures p in m ==> m[p] !in conflict
  {
    hide Resident;
  }

  lemma SettledEnd(m: RMap, conflict: set<VReg>, victims: set<PReg>)
    requires Settled(m, conflict, {}, victims)
    ensures forall v :: v in conflict ==> Resident(m, v)
  {
    hide Resident;
  }

  /** Residents after p's resident has made way for v. */
  lemma Swapped(m: RMap, p: PReg, v: VReg, u: VReg)
    requires Injective(m) && !Resident(m, v)
    ensures Resident(m[p := v], u) <==> u == v || (Resident(m, u) && (p in m ==> u != m[p]))
  {
    hide Resident;
    ResidentWhere(m, u);
    ResidentWhere(m[p := v], u);
    if Resident(m, u) && (p in m ==> u != m[p]) {
      var q :| q in m && m[q] == u;
      assert m[p := v][q] == u;
    }
    assert u == v ==> m[p := v][p] == u;
  }

  lemma ResidentWhere(m: RMap, u: VReg)
    ensures Resident(m, u) <==> exists q :: q in m && m[q] == u
  {
    HeldIsResident(m);
  }

  lemma FewerTemps(m: RMap, p: PReg, v: VReg)
    requires !Temp(v)
    ensures TempsIn(m[p := v]) <= TempsIn(m)
  {
    match p case P12 => case P13 => case P14 => case P15 =>
  }

  /** The register holds something that can go back to a slot. */
  predicate Filled(m: RMap, p: PReg) { p in m && Slotted(m[p]) }

  /** SP or BP was borrowed and what took its place has no slot: `recover_stable` cannot put it back. */
  predicate Lost(m: RMap, v: VReg, p: PReg) { !Resident(m, v) && !Filled(m, p) }

  lemma BetweenStart(m: RMap)
    requires Between(m)
    ensures Holds(m, P13, SP) && Holds(m, P12, BP) && !Resident(m, IP) && Filled(m, P12) && Filled(m, P13)
  {
  }

  lemma RoomIs(m: RMap, conflict: set<VReg>)
    ensures Room(m, conflict) <==> |conflict - m.Values| <= |Idle(m)| + |Victims(m, conflict)|
    ensures Outnumbered(m, conflict) <==>
      |Idle(m)| + |Victims(m, conflict)| + |StableVictims(m, conflict)| - |conflict - m.Values| < 0
  {
  }

  lemma QuietOne(conflict: set<VReg>, v: VReg)
    requires QuietRegs(conflict) && v in conflict
    ensures !Numbered(v)
  {
  }

  /** What the loop of `conflict_resolve` keeps, from the map it started with. */
  ghost predicate Going(m0: RMap, m: RMap, conflict: set<VReg>, todo: set<VReg>, victims: set<PReg>) {
    && (Room(m0, conflict) ==> Holds(m, P13, SP) && Holds(m, P12, BP))
    && (Quiet(m0) && QuietRegs(conflict) ==> Quiet(m))
    && (Room(m0, conflict) || (SP !in conflict && BP !in conflict) ==> Settled(m, conflict, todo, victims))
    && ((forall v :: v in conflict ==> Slotted(v)) ==> Filled(m, P12) && Filled(m, P13))
  }

  lemma GoingStart(m: RMap, conflict: set<VReg>)
    requires Between(m)
    ensures Going(m, m, conflict, conflict - m.Values, Victims(m, conflict))
  {
    hide Resident, Quiet, Room, Settled, QuietRegs;
    BetweenStart(m);
    SettledStart(m, conflict);
  }

  lemma GoingStep(m0: RMap, m: RMap, conflict: set<VReg>, todo0: set<VReg>, todo: set<VReg>, victims0: set<PReg>,
                  victims: set<PReg>, p: PReg, v: VReg)
    requires Anchored(m) && !Resident(m, v) && Going(m0, m, conflict, todo0, victims0) && v in conflict
    requires todo == todo0 - {v} && victims <= victims0 && p !in victims
    requires p in m ==> p in victims0 || m[p] == SP || m[p] == BP
    requires Room(m0, conflict) && p in m ==> p in victims0 && !Stable(m[p])
    ensures Going(m0, m[p := v], conflict, todo, victims)
  {
    hide Resident, Quiet, Room, Settled, Anchored, Holds, Filled, QuietRegs, Stable;
    if Room(m0, conflict) { AnchorsKept(m, p, v); }
    if Quiet(m0) && QuietRegs(conflict) { QuietSwap(m, conflict, p, v); }
    if Room(m0, conflict) || (SP !in conflict && BP !in conflict) {
      Unwanted(m, conflict, todo0, victims0, p);
      SettledStep(m, conflict, todo0, todo, victims0, victims, p, v);
    }
    if forall u :: u in conflict ==> Slotted(u) { FilledSwap(m, p, v); }
  }

  lemma QuietSwap(m: RMap, conflict: set<VReg>, p: PReg, v: VReg)
    requires QuietRegs(conflict) && v in conflict && Quiet(m)
    ensures Quiet(m[p := v])
  {
    QuietOne(conflict, v);
  }

  lemma GoingEnd(m0: RMap, m: RMap, conflict: set<VReg>, victims: set<PReg>)
    requires Going(m0, m, conflict, {}, victims)
    ensures Room(m0, conflict) ==> Holds(m, P13, SP) && Holds(m, P12, BP)
    ensures Quiet(m0) && QuietRegs(conflict) ==> Quiet(m)
    ensures Room(m0, conflict) || (SP !in conflict && BP !in conflict) ==> forall v :: v in conflict ==> Resident(m, v)
    ensures (forall v :: v in conflict ==> Slotted(v)) ==> Filled(m, P12) && Filled(m, P13)
  {
    hide Resident, Quiet, Room, Settled, Holds, Filled, QuietRegs;
    if Settled(m, conflict, {}, victims) { SettledEnd(m, conflict, victims); }
  }

  lemma OtherLost(m: RMap)
    requires Anchored(m)
    ensures Lost(m[P13 := SP], BP, P12) <==> Lost(m, BP, P12)
  {
  }

  lemma FilledSwap(m: RMap, p: PReg, v: VReg)
    requires Slotted(v)
    ensures Filled(m, P12) ==> Filled(m[p := v], P12)
    ensures Filled(m, P13) ==> Filled(m[p := v], P13)
  {
  }

  class RegMap {
    var m: RMap
    ghost var live: set<VReg>

    constructor ()
      ensures m == BlockInit() && live == {} && At() == View(BlockInit(), {})
      ensures Between(m)
    {
      m := BlockInit();
      live := {};
    }

    ghost function At(): View
      reads this
    {
      View(m, live)
    }

    /** `conflict_resolve`: make the named virtual registers resident. */
    method Resolve(ghost sem: Sem, conflict: set<VReg>, offset: Word) returns (r: Option<seq<HInstr>>)
      requires Between(m) && Kept(At())
      modifies this`m
      ensures r.Some? ==> Anchored(m) && Kept(At())
      ensures r.Some? ==> Implements(sem, old(At()), r.value, At(), [SetIp(offset)])
      ensures old(Room(m, conflict)) ==> r.Some? && Holds(m, P13, SP) && Holds(m, P12, BP)
      ensures r.Some? && IP !in conflict ==> !Resident(m, IP)
      ensures r.Some? && old(Quiet(m)) && QuietRegs(conflict) ==> Quiet(m)
      ensures old(Room(m, conflict)) ==> forall v :: v in conflict ==> Resident(m, v)
      ensures r.Some? ==> forall v :: Resident(m, v) ==> old(Resident(m, v)) || v in conflict
      ensures r.None? <==> old(Outnumbered(m, conflict))
      ensures r.Some? && SP !in conflict && BP !in conflict ==> forall v :: v in conflict ==> Resident(m, v)
      ensures r.Some? && (forall v :: v in conflict ==> Slotted(v)) ==> Filled(m, P12) && Filled(m, P13)
    {
      hide Implements, Anchored, Between, Pools, Resident, Kept, Quiet, Room, Holds, Idle, Victims, StableVictims,
        QuietRegs, Outnumbered, Filled, Slotted, Stable, Temp, Numbered, Injective, Going;
      var idle := Idle(m);
      var victims := Victims(m, conflict);
      var stable := StableVictims(m, conflict);
      var todo := conflict - m.Values;
      var code: seq<HInstr> := [];
      ghost var w0 := At();
      ghost var spare := |idle| + |victims| + |stable| - |todo|;
      BetweenStart(m);
      SetIpFree(sem, w0, offset);
      RoomIs(m, conflict);
      PoolsStart(m, conflict);
      GoingStart(m, conflict);
      while todo != {}
        invariant Anchored(m) && Kept(At()) && Pools(m, idle, victims, stable)
        invariant forall v :: v in todo ==> !Resident(m, v) && v != SP && v != BP
        invariant todo <= conflict && (Resident(m, IP) ==> IP in conflict)
        invariant Room(w0.m, conflict) ==> |todo| <= |idle| + |victims|
        invariant Going(w0.m, m, conflict, todo, victims)
        invariant forall v :: Resident(m, v) ==> Resident(w0.m, v) || v in conflict
        invariant Implements(sem, w0, code, At(), [SetIp(offset)])
        invariant |idle| + |victims| + |stable| - |todo| == spare
        decreases todo
      {
        var v :| v in todo;
        SomeLeft(todo, v, idle, victims);
        ghost var todo0 := todo;
        todo := todo - {v};
        if idle + victims + stable == {} {
          NoneLeft(idle, victims, stable);
          return None;
        }
        var p;
        ghost var victims0 := victims;
        p, idle, victims, stable := Pick(m, idle, victims, stable);
        PoolsKept(m, p, v, idle, victims, stable);
        GoingStep(w0.m, m, conflict, todo0, todo, victims0, victims, p, v);
        code := Exchange(sem, w0, code, p, v, offset);
      }
      GoingEnd(w0.m, m, conflict, victims);
      return Some(code);
    }

    /** One round of the loop: spill what the chosen register holds, then load it. */
    method Exchange(ghost sem: Sem, ghost w0: View, code: seq<HInstr>, p: PReg, v: VReg, offset: Word)
      returns (code': seq<HInstr>)
      requires Anchored(m) && Kept(At()) && !Resident(m, v) && v != SP && v != BP
      requires p in m ==> Slotted(m[p])
      requires Implements(sem, w0, code, At(), [SetIp(offset)])
      modifies this`m
      ensures m == old(m)[p := v] && Anchored(m) && Kept(At())
      ensures forall u :: Resident(m, u) ==> old(Resident(m, u)) || u == v
      ensures old(Quiet(m)) && !Numbered(v) ==> Quiet(m)
      ensures Implements(sem, w0, code', At(), [SetIp(offset)])
    {
      hide Implements, Anchored, Kept;
      code' := code;
      if p in m {
        code' := Evict(sem, w0, code, p, [SetIp(offset)]);
        assert m[p := v] == old(m)[p := v];
      }
      code' := Admit(sem, w0, code', p, v, offset);
    }

    /** Free a physical register whose resident goes back to its slot. */
    method Evict(ghost sem: Sem, ghost w0: View, code: seq<HInstr>, p: PReg, ghost ops: seq<GOp>)
      returns (code': seq<HInstr>)
      requires Anchored(m) && Kept(At()) && p in m && Slotted(m[p])
      requires Implements(sem, w0, code, At(), ops)
      modifies this`m
      ensures m == old(m) - {p} && Anchored(m) && Kept(At())
      ensures forall u :: Resident(m, u) ==> old(Resident(m, u))
      ensures Implements(sem, w0, code', At(), ops)
    {
      FreeSlot(sem, At(), p);
      Dropped(m, p);
      code' := code + [Spill(m[p], p)];
      ComposeSilent(sem, w0, code, At(), ops, [Spill(m[p], p)], View(m - {p}, live));
      m := m - {p};
    }

    /** Put a virtual register into a free physical one. */
    method Admit(ghost sem: Sem, ghost w0: View, code: seq<HInstr>, p: PReg, v: VReg, offset: Word)
      returns (code': seq<HInstr>)
      requires Anchored(m) && Kept(At()) && p !in m && !Resident(m, v) && v != SP && v != BP
      requires Implements(sem, w0, code, At(), [SetIp(offset)])
      modifies this`m
      ensures m == old(m)[p := v] && Anchored(m) && Kept(At())
      ensures forall u :: Resident(m, u) <==> old(Resident(m, u)) || u == v
      ensures Implements(sem, w0, code', At(), [SetIp(offset)])
    {
      Added(m, p, v);
      AdmitImplements(sem, w0, code, At(), p, v, offset);
      code' := code + AdmitCode(p, v, offset);
      m := m[p := v];
    }

    /** `recover_stable`: bring SP and BP back to R13 and R12 if they were borrowed. */
    method RecoverStable(ghost sem: Sem) returns (r: Option<seq<HInstr>>)
      requires Anchored(m) && Kept(At()) && !Resident(m, IP)
      modifies this`m
      ensures old(Quiet(m)) ==> Quiet(m)
      ensures r.Some? ==> Between(m) && Kept(At())
      ensures r.Some? ==> Implements(sem, old(At()), r.value, At(), [])
      ensures old(Resident(m, SP) && Resident(m, BP)) ==> r.Some? && m == old(m)
      ensures r.Some? ==> TempsIn(m) <= old(TempsIn(m))
      ensures r.None? <==> old(Lost(m, SP, P13) || Lost(m, BP, P12))
    {
      hide TempsIn, Lost;
      var a := Restore(sem, SP, P13);
      if a.None? { return None; }
      ghost var w1 := At();
      var b := Restore(sem, BP, P12);
      if b.None? { return None; }
      ComposeSilent(sem, old(At()), a.value, w1, [], b.value, At());
      return Some(a.value + b.value);
    }

    method Restore(ghost sem: Sem, v: VReg, p: PReg) returns (r: Option<seq<HInstr>>)
      requires (v == SP && p == P13) || (v == BP && p == P12)
      requires Anchored(m) && Kept(At()) && !Resident(m, IP)
      modifies this`m
      ensures old(Quiet(m)) ==> Quiet(m)
      ensures r.Some? ==> Anchored(m) && Kept(At()) && !Resident(m, IP) && Holds(m, p, v)
      ensures r.Some? && v == BP ==> (old(Holds(m, P13, SP)) ==> Holds(m, P13, SP))
      ensures r.Some? ==> Implements(sem, old(At()), r.value, At(), [])
      ensures old(Resident(m, v)) ==> r.Some? && m == old(m)
      ensures r.Some? ==> TempsIn(m) <= old(TempsIn(m))
      ensures r.None? <==> old(Lost(m, v, p))
      ensures v == SP && r.Some? ==> (Lost(m, BP, P12) <==> old(Lost(m, BP, P12)))
    {
      if Resident(m, v) {
        Nothing(sem, At());
        return Some([]);
      }
      if p !in m || !Slotted(m[p]) { return None; }
      RestoreImplements(sem, At(), v, p);
      Restored(At(), v, p);
      FewerTemps(m, p, v);
      if v == SP { OtherLost(m); }
      hide Implements, Anchored, Kept, Quiet, Resident, TempsIn, Lost;
      r := Some([Spill(m[p], p), Fill(p, v)]);
      m := m[p := v];
    }

    /** `release_IP`: the instruction pointer never stays resident past its line. */
    method ReleaseIp(ghost sem: Sem)
      requires Anchored(m) && Kept(At())
      modifies this`m
      ensures Anchored(m) && Kept(At()) && !Resident(m, IP) && (old(Quiet(m)) ==> Quiet(m))
      ensures forall u :: u != IP ==> (Resident(m, u) <==> old(Resident(m, u)))
      ensures Implements(sem, old(At()), [], At(), [])
      ensures !old(Resident(m, IP)) ==> m == old(m)
    {
      var h := Home(m, IP);
      if h.Some? {
        Forget(sem, At(), h.value);
        Dropped(m, h.value);
        m := m - {h.value};
      }
    }

    /** `release_tmp_conflict`: give up every temporary. */
    method ReleaseTemps(ghost sem: Sem)
      requires Between(m) && Kept(At())
      modifies this
      ensures Between(m) && live == {} && TempsIn(m) == {}
      ensures old(Quiet(m)) ==> Quiet(m)
      ensures Implements(sem, old(At()), [], At(), [])
    {
      WithoutTemps(sem, At());
      m := NoTemps(m);
      live := {};
    }

    /** `apply_map`: rename the operands; None where a register is not resident. */
    method ApplyMap(args: seq<Arg>) returns (r: Option<seq<Arg>>)
      ensures r == RenameArgs(m, args)
    {
      var done: seq<Arg> := [];
      for i := |args| downto 0
        invariant RenameArgs(m, args[i..]) == Some(done)
      {
        var a := RenameArg(m, args[i]);
        assert args[i..][0] == args[i] && args[i..][1..] == args[i + 1..];
        if a.None? {
          RenameFails(m, args, i);
          return None;
        }
        done := [a.value] + done;
      }
      assert args[0..] == args;
      return Some(done);
    }

    /**
     * `release_conflict` at a block end: write every resident R12-R15 back to its slot.  After
     * it the map a successor block starts from is valid again, and no register has changed.
     */
    method ReleaseConflict(ghost sem: Sem) returns (code: seq<HInstr>)
      requires Between(m)
      ensures Implements(sem, At(), code, View(BlockInit(), {}), [])
      ensures forall h: Host :: HRun(sem, code, h).core == h.core
    {
      code := [];
      var todo := m.Keys;
      ghost var done: set<PReg> := {};
      while todo != {}
        invariant todo + done == m.Keys
        invariant WritesBack(sem, At(), code, done)
        decreases todo
      {
        var p :| p in todo;
        if !Stable(m[p]) && !Segment(m[p]) {
          WriteOne(sem, At(), code, done, p);
          code := code + [Spill(m[p], p)];
        } else {
          WriteNone(sem, At(), code, done, p);
        }
        todo, done := todo - {p}, done + {p};
      }
      AllHome(sem, At(), code);
    }
  }

  lemma Nothing(sem: Sem, w: View)
    ensures Implements(sem, w, [], w, [])
  {
  }

  lemma Restored(w: View, v: VReg, p: PReg)
    requires (v == SP && p == P13) || (v == BP && p == P12)
    requires Anchored(w.m) && Kept(w) && !Resident(w.m, v) && p in w.m && Slotted(w.m[p])
    ensures Anchored(w.m[p := v]) && Kept(View(w.m[p := v], w.live)) && Holds(w.m[p := v], p, v)
    ensures !Resident(w.m, IP) ==> !Resident(w.m[p := v], IP)
    ensures Quiet(w.m) ==> Quiet(w.m[p := v])
  {
    Dropped(w.m, p);
    HeldIsResident(w.m);
    var m' := w.m[p := v];
    assert m' - {p} == w.m - {p};
    assert forall u :: Resident(m', u) <==> Resident(w.m - {p}, u) || u == v;
  }

  lemma RestoreImplements(sem: Sem, w: View, v: VReg, p: PReg)
    requires Anchored(w.m) && !Resident(w.m, v) && p in w.m && Slotted(w.m[p]) && Slotted(v)
    ensures Implements(sem, w, [Spill(w.m[p], p), Fill(p, v)], View(w.m[p := v], w.live), [])
  {
    var w1 := View(w.m - {p}, w.live);
    FreeSlot(sem, w, p);
    Dropped(w.m, p);
    LoadSlot(sem, w1, p, v);
    assert w1.m[p := v] == w.m[p := v];
    ComposeSilent(sem, w, [Spill(w.m[p], p)], w1, [], [Fill(p, v)], View(w.m[p := v], w.live));
    assert [Spill(w.m[p], p)] + [Fill(p, v)] == [Spill(w.m[p], p), Fill(p, v)];
  }

  function NoTemps(m: RMap): RMap {
    map p | p in m && !Temp(m[p]) :: m[p]
  }

  lemma WithoutTemps(sem: Sem, w: View)
    requires Between(w.m)
    ensures Between(NoTemps(w.m)) && (Quiet(w.m) ==> Quiet(NoTemps(w.m)))
    ensures Implements(sem, w, [], View(NoTemps(w.m), {}), [])
  {
    var m' := NoTemps(w.m);
    forall v ensures Resident(m', v) <==> Resident(w.m, v) && !Temp(v) { NotTemp(w.m, v); }
    hide Resident;
  }

  lemma NotTemp(m: RMap, v: VReg)
    ensures Resident(NoTemps(m), v) <==> Resident(m, v) && !Temp(v)
  {
    hide Resident;
    ResidentWhere(m, v);
    ResidentWhere(NoTemps(m), v);
    if Resident(m, v) && !Temp(v) {
      var q :| q in m && m[q] == v;
      assert q in NoTemps(m) && NoTemps(m)[q] == v;
    }
  }

  lemma {:induction false} RenameFails(m: RMap, args: seq<Arg>, i: nat)
    requires i < |args| && RenameArg(m, args[i]).None?
    ensures RenameArgs(m, args).None?
  {
    if i > 0 { RenameFails(m, args[1..], i - 1); }
  }

  // ---------------------------------------------------------------- block-end write-back

  /** `code` changes no register and has brought home the residents of `done`. */
  ghost predicate WritesBack(sem: Sem, w: View, code: seq<HInstr>, done: set<PReg>) {
    && (forall h: Host :: HRun(sem, code, h).core == h.core)
    && (forall h: Host, g: Core :: Sim(w, h, g) ==> Homed(w, done, HRun(sem, code, h), g))
  }

  ghost predicate Homed(w: View, done: set<PReg>, h: Host, g: Core) {
    && Sim(w, h, g)
    && forall p :: p in done && p in w.m && !Stable(w.m[p]) && Slotted(w.m[p]) ==>
         Look(h.slots, w.m[p]) == Look(g.x, Virt(w.m[p]))
  }

  lemma WriteOne(sem: Sem, w: View, code: seq<HInstr>, done: set<PReg>, p: PReg)
    requires Injective(w.m) && p in w.m && !Temp(w.m[p]) && !Segment(w.m[p])
    requires WritesBack(sem, w, code, done)
    ensures WritesBack(sem, w, code + [Spill(w.m[p], p)], done + {p})
  {
    var i := Spill(w.m[p], p);
    forall h: Host
      ensures HRun(sem, code + [i], h) == HStep(sem, i, HRun(sem, code, h))
    {
      HRunAppend(sem, code, [i], h);
      var h1 := HRun(sem, code, h);
      assert HRun(sem, [i], h1) == HRun(sem, [i][1..], HStep(sem, i, h1));
    }
    forall h: Host, g: Core | Sim(w, h, g)
      ensures Homed(w, done + {p}, HRun(sem, code + [i], h), g)
    {
      HomedStep(sem, w, done, HRun(sem, code, h), g, p);
    }
  }

  lemma HomedStep(sem: Sem, w: View, done: set<PReg>, h: Host, g: Core, p: PReg)
    requires Injective(w.m) && p in w.m && !Temp(w.m[p]) && !Segment(w.m[p])
    requires Homed(w, done, h, g)
    ensures Homed(w, done + {p}, HStep(sem, Spill(w.m[p], p), h), g)
  {
    HeldIsResident(w.m);
    assert Look(h.core.x, Phys(p)) == Look(g.x, Virt(w.m[p]));
  }

  lemma WriteNone(sem: Sem, w: View, code: seq<HInstr>, done: set<PReg>, p: PReg)
    requires p in w.m && (Stable(w.m[p]) || Segment(w.m[p]))
    requires WritesBack(sem, w, code, done)
    ensures WritesBack(sem, w, code, done + {p})
  {
  }

  lemma HomedRegister(w: View, h: Host, g: Core, v: VReg)
    requires Between(w.m) && Homed(w, w.m.Keys, h, g)
    requires Slotted(v) && v != SP && v != BP
    ensures Look(h.slots, v) == Look(g.x, Virt(v))
  {
    if Resident(w.m, v) && !Segment(v) {
      var p := Home(w.m, v).value;
      assert p in w.m.Keys && w.m[p] == v;
    }
  }

  lemma HomedInit(w: View, h: Host, g: Core)
    requires Between(w.m) && Homed(w, w.m.Keys, h, g)
    ensures Sim(View(BlockInit(), {}), h, g)
  {
    var w0 := View(BlockInit(), {});
    assert InRegs(w0, h.core, g) by {
      assert Look(h.core.x, Phys(P13)) == Look(g.x, Virt(w.m[P13]));
      assert Look(h.core.x, Phys(P12)) == Look(g.x, Virt(w.m[P12]));
    }
    assert InSlots(w0, h, g) by {
      forall v | Slotted(v) && (!Resident(w0.m, v) || Segment(v)) ensures Look(h.slots, v) == Look(g.x, Virt(v)) {
        assert Holds(w0.m, P13, SP) && Holds(w0.m, P12, BP);
        HomedRegister(w, h, g, v);
      }
    }
  }

  lemma AllHome(sem: Sem, w: View, code: seq<HInstr>)
    requires Between(w.m) && WritesBack(sem, w, code, w.m.Keys)
    ensures Implements(sem, w, code, View(BlockInit(), {}), [])
  {
    forall h: Host, g: Core | Sim(w, h, g)
      ensures Sim(View(BlockInit(), {}), HRun(sem, code, h), GRun(sem, [], g))
    {
      HomedInit(w, HRun(sem, code, h), g);
    }
  }

  function AdmitCode(p: PReg, v: VReg, offset: Word): seq<HInstr> {
    if v == IP then [LoadAbs(p, offset)] else if Stable(v) then [] else [Fill(p, v)]
  }

  lemma AdmitImplements(sem: Sem, w0: View, code: seq<HInstr>, w: View, p: PReg, v: VReg, offset: Word)
    requires Kept(w) && p !in w.m && !Resident(w.m, v) && v != SP && v != BP
    requires Implements(sem, w0, code, w, [SetIp(offset)])
    ensures Implements(sem, w0, code + AdmitCode(p, v, offset), View(w.m[p := v], w.live), [SetIp(offset)])
  {
    var w', piece := View(w.m[p := v], w.live), AdmitCode(p, v, offset);
    if v == IP {
      LoadIp(sem, w, p, offset);
      Compose(sem, w0, code, w, [SetIp(offset)], piece, w', [SetIp(offset)]);
      assert [SetIp(offset)] + [SetIp(offset)] == [SetIp(offset), SetIp(offset)];
      SetIpTwice(sem, w0, code + piece, w', offset);
    } else {
      if Stable(v) { LoadTemp(sem, w, p, v); } else { LoadSlot(sem, w, p, v); }
      ComposeSilent(sem, w0, code, w, [SetIp(offset)], piece, w');
    }
  }
}
