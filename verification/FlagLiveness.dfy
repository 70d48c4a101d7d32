/** Where the flags are dead: the backward scan that says which lines may clobber them. */
module FlagLiveness {

  const CONDITIONAL: seq<string> := [
    "JO", "JNO", "JB", "JAE", "JZ", "JNZ", "JBE", "JA", "JS", "JNS", "JPE", "JNP",
    "JL", "JGE", "JLE", "JG", "JCXZ", "JECXZ", "JRCXZ"]

  const DEFINERS: seq<string> := [
    "CMP", "TEST", "ADD", "SUB", "NEG", "INC", "MUL", "DIV", "AND", "OR", "XOR", "NOT", "SHL", "SAL",
    "SHR", "SAR", "ROL", "ROR", "RCL", "RCR", "CLC", "CLD", "STC", "STD"]

  const USERS: seq<string> := CONDITIONAL + ["LAHF", "SET", "CMOV"]

  datatype Class = Def | Use | Neither

  /** `name.find(pat) != -1`. */
  predicate Contains(name: string, pat: string) {
    pat <= name || (name != [] && Contains(name[1..], pat))
  }

  predicate InList(name: string, l: seq<string>) { exists i :: 0 <= i < |l| && Contains(name, l[i]) }

  function Classify(name: string): Class {
    if InList(name, DEFINERS) then Def else if InList(name, USERS) then Use else Neither
  }

  function Classes(names: seq<string>): (r: seq<Class>)
    ensures |r| == |names| && forall i :: 0 <= i < |names| ==> r[i] == Classify(names[i])
  {
    if names == [] then [] else [Classify(names[0])] + Classes(names[1..])
  }

  /** The first classed line at or after i is a definer. */
  predicate DefFirst(cls: seq<Class>, i: nat)
    requires i <= |cls|
  {
    exists j :: i <= j < |cls| && cls[j] == Def && forall k :: i <= k < j ==> cls[k] == Neither
  }

  lemma DefFirstStep(cls: seq<Class>, i: nat)
    requires i < |cls|
    ensures DefFirst(cls, i) <==> cls[i] == Def || (cls[i] == Neither && DefFirst(cls, i + 1))
  {
    if cls[i] == Neither && DefFirst(cls, i + 1) {
      var j :| i + 1 <= j < |cls| && cls[j] == Def && forall k :: i + 1 <= k < j ==> cls[k] == Neither;
      assert DefFirst(cls, i);
    }
  }

  /**
   * `check_flag_def_use`: the list is built backwards and popped from its end, so line i gets
   * element |names| - 1 - i; it is true exactly when the next classed line is a definer.
   */
  method CheckFlagDefUse(names: seq<string>) returns (ret: seq<bool>)
    ensures |ret| == |names|
    ensures forall i :: 0 <= i < |names| ==> ret[|names| - 1 - i] == DefFirst(Classes(names), i)
  {
    var canCheck := false;
    ret := [];
    var n := |names|;
    ghost var cls := Classes(names);
    for i := n downto 0
      invariant |ret| == n - i && canCheck == DefFirst(cls, i)
      invariant forall k :: i <= k < n ==> ret[n - 1 - k] == DefFirst(cls, k)
    {
      DefFirstStep(cls, i);
      if InList(names[i], DEFINERS) {
        canCheck := true;
      } else if InList(names[i], USERS) {
        canCheck := false;
      }
      ret := ret + [canCheck];
    }
  }

  // ---------------------------------------------------------------- when that is enough

  datatype Flag = CF | PF | AF | ZF | SF | OF

  const ALL_FLAGS: set<Flag> := {CF, PF, AF, ZF, SF, OF}

  /** What a line really does with the flags, whatever its name: reads some, overwrites some. */
  datatype Touch = Touch(uses: set<Flag>, sets: set<Flag>)

  /**
   * A run from line i with the flags `f` set: line i reads the flags `uses` and then leaves those of
   * `sets` set that are in `d[i]`; a clobber before line i replaces all flags.  The result is
   * everything read, and the flags at the end of the block.
   */
  function Observed(t: seq<Touch>, i: nat, f: set<Flag>, d: seq<set<Flag>>, clobber: map<nat, set<Flag>>):
    (seq<set<Flag>>, set<Flag>)
    requires i <= |t| == |d|
    decreases |t| - i
  {
    if i == |t| then ([], f)
    else
      var f0 := if i in clobber then clobber[i] else f;
      var (seen, end) := Observed(t, i + 1, f0 - t[i].sets + d[i] * t[i].sets, d, clobber);
      ([f0 * t[i].uses] + seen, end)
  }

  /** From line i on, the first line that touches flag x overwrites it without reading it. */
  predicate Dies(t: seq<Touch>, i: nat, x: Flag)
    requires i <= |t|
    decreases |t| - i
  {
    i < |t| && x !in t[i].uses && (x in t[i].sets || Dies(t, i + 1, x))
  }

  ghost predicate AllDie(t: seq<Touch>, i: nat)
    requires i <= |t|
  {
    forall x: Flag :: Dies(t, i, x)
  }

  /** Two runs whose flags differ only in flags that die are observed alike. */
  lemma {:induction false} DeadFlags(t: seq<Touch>, i: nat, f: set<Flag>, f': set<Flag>, d: seq<set<Flag>>,
                                     clobber: map<nat, set<Flag>>)
    requires i <= |t| == |d| && forall x: Flag :: (x in f) == (x in f') || Dies(t, i, x)
    ensures Observed(t, i, f, d, clobber) == Observed(t, i, f', d, clobber)
    decreases |t| - i
  {
    if i == |t| {
      assert f == f';
    } else if i !in clobber {
      assert f * t[i].uses == f' * t[i].uses;
      DeadFlags(t, i + 1, f - t[i].sets + d[i] * t[i].sets, f' - t[i].sets + d[i] * t[i].sets, d, clobber);
    }
  }

  /** Clobbering before lines from which every flag dies changes nothing that is observed. */
  lemma {:induction false} ClobberUnseen(t: seq<Touch>, i: nat, f: set<Flag>, d: seq<set<Flag>>,
                                         clobber: map<nat, set<Flag>>)
    requires i <= |t| == |d| && forall k :: k in clobber ==> k < |t| && AllDie(t, k)
    ensures Observed(t, i, f, d, clobber) == Observed(t, i, f, d, map[])
    decreases |t| - i
  {
    if i < |t| {
      var f0 := if i in clobber then clobber[i] else f;
      ClobberUnseen(t, i + 1, f0 - t[i].sets + d[i] * t[i].sets, d, clobber);
      DeadFlags(t, i, f0, f, d, map[]);
    }
  }

  /** A flag that does not die at line i shows: the runs with and without it are told apart. */
  lemma {:induction false} LiveFlag(t: seq<Touch>, i: nat, x: Flag, f: set<Flag>, f': set<Flag>, d: seq<set<Flag>>)
    requires i <= |t| == |d| && !Dies(t, i, x) && x in f && x !in f'
    ensures Observed(t, i, f, d, map[]) != Observed(t, i, f', d, map[])
    decreases |t| - i
  {
    if i < |t| {
      var a, b := Observed(t, i, f, d, map[]), Observed(t, i, f', d, map[]);
      if x in t[i].uses {
        assert x in a.0[0] && x !in b.0[0];
      } else {
        var g, g' := f - t[i].sets + d[i] * t[i].sets, f' - t[i].sets + d[i] * t[i].sets;
        LiveFlag(t, i + 1, x, g, g', d);
        TailsDiffer(Observed(t, i + 1, g, d, map[]), Observed(t, i + 1, g', d, map[]), f * t[i].uses,
                    f' * t[i].uses);
      }
    }
  }

  lemma TailsDiffer(a: (seq<set<Flag>>, set<Flag>), b: (seq<set<Flag>>, set<Flag>), x: set<Flag>, y: set<Flag>)
    requires a != b
    ensures ([x] + a.0, a.1) != ([y] + b.0, b.1)
  {
    assert ([x] + a.0)[1..] == a.0 && ([y] + b.0)[1..] == b.0;
  }

  /** A clobber before line k that replaces a flag which does not die there is seen by the run from line i. */
  lemma {:induction false} ClobberSeen(t: seq<Touch>, i: nat, k: nat, x: Flag, f: set<Flag>, d: seq<set<Flag>>)
    returns (c: set<Flag>)
    requires i <= k < |t| == |d| && !Dies(t, k, x)
    ensures Observed(t, i, f, d, map[k := c]) != Observed(t, i, f, d, map[])
    decreases k - i
  {
    if i == k {
      c := if x in f then f - {x} else f + {x};
      LaterOnly(t, i, i + 1, c - t[i].sets + d[i] * t[i].sets, d, c);
      assert Observed(t, i, f, d, map[k := c]) == Observed(t, i, c, d, map[]);
      if x in f { LiveFlag(t, i, x, f, c, d); } else { LiveFlag(t, i, x, c, f, d); }
    } else {
      var g := f - t[i].sets + d[i] * t[i].sets;
      c := ClobberSeen(t, i + 1, k, x, g, d);
      TailsDiffer(Observed(t, i + 1, g, d, map[k := c]), Observed(t, i + 1, g, d, map[]), f * t[i].uses,
                  f * t[i].uses);
    }
  }

  lemma {:induction false} LaterOnly(t: seq<Touch>, k: nat, i: nat, f: set<Flag>, d: seq<set<Flag>>, c: set<Flag>)
    requires k < i <= |t| == |d|
    ensures Observed(t, i, f, d, map[k := c]) == Observed(t, i, f, d, map[])
    decreases |t| - i
  {
    if i < |t| { LaterOnly(t, k, i + 1, f - t[i].sets + d[i] * t[i].sets, d, c); }
  }

  // ---------------------------------------------------------------- the marks against what lines do

  /** The clobbers the translator may emit: before marked lines only. */
  ghost predicate AtMarks(cls: seq<Class>, clobber: map<nat, set<Flag>>) {
    forall k :: k in clobber ==> k < |cls| && DefFirst(cls, k)
  }

  /** No choice of initial flags, of what lines set and of clobbers at marked lines can be told from no clobber. */
  ghost predicate Harmless(cls: seq<Class>, t: seq<Touch>)
    requires |cls| == |t|
  {
    forall f: set<Flag>, d: seq<set<Flag>>, clobber: map<nat, set<Flag>> :: |d| == |t| && AtMarks(cls, clobber) ==>
      Observed(t, 0, f, d, clobber) == Observed(t, 0, f, d, map[])
  }

  /**
   * The scan against what the lines really do: clobbering at its marks is unobservable if and
   * only if, from each marked line on, every flag is overwritten before it is read.
   */
  lemma ClobberHarmless(cls: seq<Class>, t: seq<Touch>)
    requires |cls| == |t|
    ensures Harmless(cls, t) <==> forall k :: 0 <= k < |t| && DefFirst(cls, k) ==> AllDie(t, k)
  {
    hide DefFirst, Observed, AllDie;
    if forall k :: 0 <= k < |t| && DefFirst(cls, k) ==> AllDie(t, k) {
      forall f: set<Flag>, d: seq<set<Flag>>, clobber: map<nat, set<Flag>> | |d| == |t| && AtMarks(cls, clobber)
        ensures Observed(t, 0, f, d, clobber) == Observed(t, 0, f, d, map[])
      {
        ClobberUnseen(t, 0, f, d, clobber);
      }
    } else {
      var k :| 0 <= k < |t| && DefFirst(cls, k) && !AllDie(t, k);
      var x := SomeLives(t, k);
      var d := seq(|t|, _ => {});
      var c := ClobberSeen(t, 0, k, x, {}, d);
      assert AtMarks(cls, map[k := c]);
    }
  }

  lemma SomeLives(t: seq<Touch>, k: nat) returns (x: Flag)
    requires k <= |t| && !AllDie(t, k)
    ensures !Dies(t, k, x)
  {
    x :| !Dies(t, k, x);
  }

  // ---------------------------------------------------------------- lines that keep to their class

  /** Definers overwrite all flags unread, users read some, the others touch none. */
  predicate KeepsClass(k: Class, t: Touch) {
    match k
    case Def => t == Touch({}, ALL_FLAGS)
    case Use => t.uses != {}
    case Neither => t == Touch({}, {})
  }

  /** For lines that keep to their class the mark is exact: it is set if and only if every flag dies there. */
  lemma {:induction false} MarkExact(cls: seq<Class>, t: seq<Touch>, i: nat)
    requires i <= |cls| == |t| && forall k :: 0 <= k < |t| ==> KeepsClass(cls[k], t[k])
    ensures DefFirst(cls, i) <==> AllDie(t, i)
    decreases |t| - i
  {
    if i == |t| {
      assert !Dies(t, i, CF);
    } else {
      DefFirstStep(cls, i);
      MarkExact(cls, t, i + 1);
      match cls[i]
      case Def =>
        forall x: Flag ensures Dies(t, i, x) { AnyFlag(x); }
      case Use =>
        var x :| x in t[i].uses;
        assert !Dies(t, i, x);
      case Neither => Untouched(t, i, i + 1);
    }
  }

  lemma Untouched(t: seq<Touch>, i: nat, j: nat)
    requires j == i + 1 <= |t| && t[i] == Touch({}, {})
    ensures AllDie(t, i) <==> AllDie(t, j)
  {
    if AllDie(t, i) {
      forall x: Flag ensures Dies(t, j, x) { assert Dies(t, i, x); }
    } else {
      var x := SomeLives(t, i);
      assert !Dies(t, j, x);
    }
  }

  lemma AnyFlag(x: Flag)
    ensures x in ALL_FLAGS
  {
    match x case CF => case PF => case AF => case ZF => case SF => case OF =>
  }

  /** So the scan is right about every block of such lines. */
  lemma ClassesHarmless(cls: seq<Class>, t: seq<Touch>)
    requires |cls| == |t| && forall k :: 0 <= k < |t| ==> KeepsClass(cls[k], t[k])
    ensures Harmless(cls, t)
  {
    hide Harmless, DefFirst, AllDie, KeepsClass;
    forall k | 0 <= k < |t| && DefFirst(cls, k) ensures AllDie(t, k) { MarkExact(cls, t, k); }
    ClobberHarmless(cls, t);
  }

  // ---------------------------------------------------------------- lines that do not

  /** A pattern of two letters or more that occurs in a name of three begins with its first or its last two. */
  lemma ThreeLetters(name: string, pat: string)
    requires |name| == 3 && |pat| >= 2 && Contains(name, pat)
    ensures (pat[0] == name[0] && pat[1] == name[1]) || (pat[0] == name[1] && pat[1] == name[2])
  {
    if !(pat <= name) && !(pat <= name[1..]) { assert !Contains(name[1..][1..], pat); }
  }

  lemma Unclassed(name: string)
    requires name == "MOV" || name == "SBB"
    ensures Classify(name) == Neither
  {
    hide Contains;
    forall i | 0 <= i < |DEFINERS| ensures !Contains(name, DEFINERS[i]) {
      if Contains(name, DEFINERS[i]) { ThreeLetters(name, DEFINERS[i]); }
    }
    forall i | 0 <= i < |USERS| ensures !Contains(name, USERS[i]) {
      if Contains(name, USERS[i]) { ThreeLetters(name, USERS[i]); }
    }
  }

  lemma Definers()
    ensures Classify("TEST") == Def && Classify("NOT") == Def && Classify("INC") == Def
  {
    assert Contains("TEST", DEFINERS[1]) && Contains("NOT", DEFINERS[11]) && Contains("INC", DEFINERS[5]);
  }

  /** Where a pattern occurs in a name. */
  lemma {:induction false} Occurs(name: string, pat: string) returns (i: nat)
    requires Contains(name, pat)
    ensures i + |pat| <= |name| && forall k :: 0 <= k < |pat| ==> name[i + k] == pat[k]
  {
    if pat <= name {
      i := 0;
    } else {
      var j := Occurs(name[1..], pat);
      i := j + 1;
    }
  }

  lemma NoDefiner(name: string, d: nat)
    requires name in ["SETZ", "CMOVZ", "LAHF", "JZ", "JB"] && d < |DEFINERS|
    ensures !Contains(name, DEFINERS[d])
  {
    hide Contains;
    Starts(d);
    if Contains(name, DEFINERS[d]) { var i := Letters(name, DEFINERS[d]); }
  }

  lemma Letters(name: string, pat: string) returns (i: nat)
    requires Contains(name, pat) && |pat| >= 2
    ensures i + |pat| <= |name| && name[i] == pat[0] && name[i + 1] == pat[1] && (|pat| > 2 ==> name[i + 2] == pat[2])
  {
    i := Occurs(name, pat);
    assert name[i + 0] == pat[0];
  }

  /** The first letters of the definers. */
  lemma Starts(d: nat)
    requires d < |DEFINERS|
    ensures var p := DEFINERS[d]; |p| >= 2 && (p == "OR" || |p| >= 3)
  {
  }

  /** SETcc, CMOVcc, LAHF and conditional branches read flags, and so they are classed. */
  lemma Readers(name: string)
    requires name in ["SETZ", "CMOVZ", "LAHF", "JZ", "JB"]
    ensures Classify(name) == Use
  {
    hide Contains;
    forall d: nat | d < |DEFINERS| ensures !Contains(name, DEFINERS[d]) { NoDefiner(name, d); }
    ReaderListed(name);
  }

  lemma ReaderListed(name: string)
    requires name in ["SETZ", "CMOVZ", "LAHF", "JZ", "JB"]
    ensures InList(name, USERS)
  {
    var n := |CONDITIONAL|;
    assert USERS[n] == "LAHF" && USERS[n + 1] == "SET" && USERS[n + 2] == "CMOV";
    assert USERS[4] == "JZ" && USERS[2] == "JB";
    if name == "LAHF" { assert Contains(name, USERS[n]); }
    else if name == "SETZ" { assert Contains(name, USERS[n + 1]); }
    else if name == "CMOVZ" { assert Contains(name, USERS[n + 2]); }
    else if name == "JZ" { assert Contains(name, USERS[4]); }
    else { assert Contains(name, USERS[2]); }
  }

  /** Line 0 of a block of three is marked when the first class behind a plain line is a definer. */
  lemma MarkedFirst(cls: seq<Class>)
    requires |cls| == 3 && cls[0] == Neither && (cls[1] == Def || (cls[1] == Neither && cls[2] == Def))
    ensures DefFirst(cls, 0)
  {
    if cls[1] != Def { assert cls[2] == Def; }
  }

  /** SBB has no class and reads CF: the scan marks the line before it. */
  lemma SbbSeen(w: set<Flag>)
    ensures var cls := Classes(["MOV", "SBB", "TEST"]);
      DefFirst(cls, 0) && !Harmless(cls, [Touch({}, {}), Touch({CF}, w), Touch({}, ALL_FLAGS)])
  {
    hide Harmless, Classify;
    Unclassed("MOV");
    Unclassed("SBB");
    Definers();
    var cls, t := Classes(["MOV", "SBB", "TEST"]), [Touch({}, {}), Touch({CF}, w), Touch({}, ALL_FLAGS)];
    MarkedFirst(cls);
    assert !Dies(t, 1, CF) && !Dies(t, 0, CF);
    ClobberHarmless(cls, t);
  }

  /** NOT is classed as a definer and leaves the flags alone: the branch behind it reads a clobbered ZF. */
  lemma NotSeen()
    ensures var cls := Classes(["MOV", "NOT", "JZ"]);
      DefFirst(cls, 0) && !Harmless(cls, [Touch({}, {}), Touch({}, {}), Touch({ZF}, {})])
  {
    hide Harmless, Classify;
    Unclassed("MOV");
    Definers();
    var cls, t := Classes(["MOV", "NOT", "JZ"]), [Touch({}, {}), Touch({}, {}), Touch({ZF}, {})];
    MarkedFirst(cls);
    assert !Dies(t, 2, ZF) && !Dies(t, 1, ZF) && !Dies(t, 0, ZF);
    ClobberHarmless(cls, t);
  }

  /** INC overwrites every flag but CF: the branch behind it reads a clobbered CF. */
  lemma IncSeen()
    ensures var cls := Classes(["MOV", "INC", "JB"]);
      DefFirst(cls, 0) && !Harmless(cls, [Touch({}, {}), Touch({}, ALL_FLAGS - {CF}), Touch({CF}, {})])
  {
    hide Harmless, Classify;
    Unclassed("MOV");
    Definers();
    var cls, t := Classes(["MOV", "INC", "JB"]), [Touch({}, {}), Touch({}, ALL_FLAGS - {CF}), Touch({CF}, {})];
    MarkedFirst(cls);
    assert !Dies(t, 2, CF) && !Dies(t, 1, CF) && !Dies(t, 0, CF);
    ClobberHarmless(cls, t);
  }
}
