/**
 * All interleavings of kernel and daemon steps on the code table: who may move a status, and why
 * code that is `normal` or running is always one complete uploaded image.
 */
module Ownership {
  import opened Words
  import opened Protocol

  /** The daemon between two of its writes: the snapshot it works through, and the upload at hand. */
  datatype Upload = Upload(k: Key, image: seq<Byte>, offset: nat)
  datatype Daemon = Daemon(todo: seq<Exe>, at: Option<Upload>)

  /**
   * `running` are the slots whose code some thread executes, with the image that was loaded when
   * it started; `loaded` is the last image completely uploaded to a slot.
   */
  datatype World = World(t: Table, added: nat, running: map<nat, seq<Byte>>, loaded: map<nat, seq<Byte>>, d: Daemon)

  datatype Event =
    | Add(k: Key, mem: seq<Byte>)                        // kernel: exe_add
    | Begin(i: nat)                                      // kernel: exe_on_call enters a code block
    | End(i: nat, arg: Word, ip: Word, legal: bool)      // kernel: the code block returned
    | Show                                               // daemon reads the table through sysfs_show
    | Skip                                               // daemon passes over an entry of its snapshot
    | Start(image: seq<Byte>)                            // daemon begins to upload for an entry
    | Chunk                                              // daemon writes one packet through sysfs_store

  /** The packet `write_sys` sends next: the last one carries `normal`, the others `un_init`. */
  function NextPacket(u: Upload): Packet
    requires u.offset <= |u.image|
  {
    var rest := |u.image| - u.offset;
    var n := if rest <= MAX_PAY then rest else MAX_PAY;
    Packet(if rest <= MAX_PAY then NORMAL else UN_INIT, u.k, u.offset, u.image[u.offset..u.offset + n])
  }

  predicate Enabled(w: World, ev: Event) {
    match ev
    case Add(_, mem) => |mem| == BLOCK_BYTES
    case Begin(i) => Used(w.t, i) && w.t[i].status == NORMAL && i !in w.running
    case End(i, _, _, _) => i < MAX_EXE && i in w.running
    case Show => w.d.todo == [] && w.d.at.None?
    case Skip => w.d.todo != [] && w.d.at.None?
    case Start(image) =>
      && w.d.todo != [] && w.d.at.None? && w.d.todo[0].status != NORMAL
      && 0 < |image| <= BLOCK_BYTES
    case Chunk => w.d.at.Some? && w.d.at.value.offset < |w.d.at.value.image| && Fits(w.t, NextPacket(w.d.at.value))
  }

  function Next(w: World, ev: Event): World
    requires Enabled(w, ev)
  {
    match ev
    case Add(k, mem) =>
      var (t, n) := AddStep(w.t, w.added, k, mem);
      w.(t := t, added := n)
    case Begin(i) => w.(running := w.running[i := if i in w.loaded then w.loaded[i] else []])
    case End(i, arg, ip, legal) => w.(t := w.t[i := ReturnStep(w.t[i], arg, ip, legal)], running := w.running - {i})
    case Show => w.(d := Daemon(Shown(w.t, 0), None))
    case Skip => w.(d := Daemon(w.d.todo[1..], None))
    case Start(image) => w.(d := Daemon(w.d.todo[1..], Some(Upload(KeyOf(w.d.todo[0]), image, 0))))
    case Chunk =>
      var u := w.d.at.value;
      var p := NextPacket(u);
      var last := p.status == NORMAL;
      w.(t := StoreStep(w.t, p),
         loaded := if last then w.loaded[Slot(u.k) := u.image] else w.loaded,
         d := Daemon(w.d.todo, if last then None else Some(u.(offset := u.offset + |p.payload|))))
  }

  // ---------------------------------------------------------------- the invariant

  /** The slot of a key is the daemon's: used, not `normal`, and nobody runs it. */
  predicate DaemonOwns(w: World, k: Key) {
    var i := Slot(k);
    Used(w.t, i) && KeyOf(w.t[i]) == k && w.t[i].status != NORMAL && i !in w.running
  }

  /** The block of slot i starts with `image`. */
  predicate Holds(t: Table, i: nat, image: seq<Byte>) { i < MAX_EXE && image <= t[i].block }

  /** Code that is `normal` is the last complete upload. */
  ghost predicate NormalIsWhole(w: World) {
    forall i :: 0 <= i < MAX_EXE && Used(w.t, i) && w.t[i].status == NORMAL ==>
      i in w.loaded && Holds(w.t, i, w.loaded[i])
  }

  /** Code that runs is `normal`, and still the image it was when it started. */
  ghost predicate RunningIsNormal(w: World) {
    forall i :: i in w.running ==>
      i < MAX_EXE && Used(w.t, i) && w.t[i].status == NORMAL && i in w.loaded && w.running[i] == w.loaded[i]
  }

  /** What the daemon still has to serve is its own, each key once. */
  ghost predicate SnapshotFresh(w: World) {
    && (forall j :: 0 <= j < |w.d.todo| && w.d.todo[j].status != NORMAL ==> DaemonOwns(w, KeyOf(w.d.todo[j])))
    && (forall i, j :: 0 <= i < j < |w.d.todo| ==> KeyOf(w.d.todo[i]) != KeyOf(w.d.todo[j]))
  }

  ghost predicate Inv(w: World) {
    TableInv(w.t, w.added) && NormalIsWhole(w) && RunningIsNormal(w) && SnapshotFresh(w) &&
    (w.d.at.Some? ==> Uploading(w, w.d.at.value))
  }

  ghost predicate Uploading(w: World, u: Upload) {
    && u.offset < |u.image| <= BLOCK_BYTES && DaemonOwns(w, u.k) && Holds(w.t, Slot(u.k), u.image[..u.offset])
    && forall j :: 0 <= j < |w.d.todo| ==> KeyOf(w.d.todo[j]) != u.k
  }

  /** The two sides: what a kernel step and what a daemon step may do to a status. */
  ghost predicate KernelMoves(t: Table, t': Table) {
    forall i :: 0 <= i < MAX_EXE && t'[i].status != t[i].status ==> t[i].status == NORMAL || t[i].status == UN_USED
  }

  ghost predicate DaemonMoves(t: Table, t': Table) {
    forall i :: 0 <= i < MAX_EXE && t'[i].status != t[i].status ==> t[i].status != NORMAL && t[i].status != UN_USED
  }

  /** Once set, a key stays in its slot. */
  ghost predicate KeysKept(t: Table, t': Table) {
    forall i :: 0 <= i < MAX_EXE && Used(t, i) ==> Used(t', i) && KeyOf(t'[i]) == KeyOf(t[i])
  }

  predicate ByKernel(ev: Event) { ev.Add? || ev.Begin? || ev.End? }

  // ---------------------------------------------------------------- every step keeps it

  lemma OwnsAfterAdd(w: World, k: Key, mem: seq<Byte>, q: Key)
    requires DaemonOwns(w, q) && |mem| == BLOCK_BYTES
    ensures DaemonOwns(Next(w, Add(k, mem)), q) && Next(w, Add(k, mem)).t[Slot(q)] == w.t[Slot(q)]
  {
    hide Slot;
  }

  lemma AddInv(w: World, k: Key, mem: seq<Byte>)
    requires Inv(w) && |mem| == BLOCK_BYTES
    ensures Inv(Next(w, Add(k, mem))) && KernelMoves(w.t, Next(w, Add(k, mem)).t)
    ensures KeysKept(w.t, Next(w, Add(k, mem)).t)
  {
    hide Slot;
    var w' := Next(w, Add(k, mem));
    assert TableInv(w'.t, w'.added) by { AddKeeps(w.t, w.added, k, mem); }
    hide TableInv;
    assert NormalIsWhole(w') && RunningIsNormal(w');
    forall j | 0 <= j < |w.d.todo| && w.d.todo[j].status != NORMAL ensures DaemonOwns(w', KeyOf(w'.d.todo[j])) {
      OwnsAfterAdd(w, k, mem, KeyOf(w.d.todo[j]));
    }
    if w.d.at.Some? { OwnsAfterAdd(w, k, mem, w.d.at.value.k); }
  }

  lemma EndInv(w: World, i: nat, arg: Word, ip: Word, legal: bool)
    requires Inv(w) && Enabled(w, End(i, arg, ip, legal))
    ensures Inv(Next(w, End(i, arg, ip, legal))) && KernelMoves(w.t, Next(w, End(i, arg, ip, legal)).t)
    ensures KeysKept(w.t, Next(w, End(i, arg, ip, legal)).t)
  {
    hide Slot;
    var w' := Next(w, End(i, arg, ip, legal));
    assert w.t[i].status == NORMAL;
    assert UsedSlots(w'.t) == UsedSlots(w.t);
    assert TableInv(w'.t, w'.added);
    hide TableInv;
  }

  lemma {:induction false} ShownFrom(t: Table, i: nat, j: nat)
    requires i <= MAX_EXE && j < |Shown(t, i)|
    ensures exists s: nat :: i <= s < MAX_EXE && Used(t, s) && Shown(t, i)[j] == t[s]
    decreases MAX_EXE - i
  {
    if t[i].status != UN_USED && j == 0 {
      assert Used(t, i);
    } else {
      var j' := if t[i].status != UN_USED then j - 1 else j;
      assert Shown(t, i)[j] == Shown(t, i + 1)[j'];
      ShownFrom(t, i + 1, j');
    }
  }

  lemma {:induction false} ShownDistinct(t: Table, added: nat, i: nat, j: nat, k: nat)
    requires TableInv(t, added) && i <= MAX_EXE && j < k < |Shown(t, i)|
    ensures KeyOf(Shown(t, i)[j]) != KeyOf(Shown(t, i)[k])
    decreases MAX_EXE - i
  {
    hide Slot, TableInv, Shown;
    ShownHere(t, i);
    if t[i].status == UN_USED {
      ShownDistinct(t, added, i + 1, j, k);
    } else if j > 0 {
      ShownDistinct(t, added, i + 1, j - 1, k - 1);
    } else {
      ShownFrom(t, i + 1, k - 1);
      var s: nat :| i + 1 <= s < MAX_EXE && Used(t, s) && Shown(t, i + 1)[k - 1] == t[s];
      KeysApart(t, added, i, s);
    }
  }

  lemma ShownHere(t: Table, i: nat)
    requires i <= MAX_EXE
    ensures Shown(t, i) != [] ==>
      i < MAX_EXE && Shown(t, i) == (if t[i].status != UN_USED then [t[i]] else []) + Shown(t, i + 1)
  {
  }

  lemma KeysApart(t: Table, added: nat, i: nat, s: nat)
    requires TableInv(t, added) && i < s < MAX_EXE && t[i].status != UN_USED && Used(t, s)
    ensures KeyOf(t[i]) != KeyOf(t[s])
  {
    hide Slot;
    assert Used(t, i);
  }

  lemma ShownOwned(w: World, j: nat)
    requires TableInv(w.t, w.added) && RunningIsNormal(w) && j < |Shown(w.t, 0)| && Shown(w.t, 0)[j].status != NORMAL
    ensures DaemonOwns(w, KeyOf(Shown(w.t, 0)[j]))
  {
    hide Slot;
    ShownFrom(w.t, 0, j);
    hide Shown;
    var s: nat :| 0 <= s < MAX_EXE && Used(w.t, s) && Shown(w.t, 0)[j] == w.t[s];
    assert Slot(KeyOf(w.t[s])) == s;
  }

  lemma ShowInv(w: World)
    requires Inv(w) && Enabled(w, Show)
    ensures Inv(Next(w, Show))
  {
    hide Slot, Shown, TableInv;
    var w' := Next(w, Show);
    var s := w'.d.todo;
    forall j | 0 <= j < |s| && s[j].status != NORMAL ensures DaemonOwns(w', KeyOf(s[j])) { ShownOwned(w, j); }
    forall i, j | 0 <= i < j < |s| ensures KeyOf(s[i]) != KeyOf(s[j]) { ShownDistinct(w.t, w.added, 0, i, j); }
  }

  lemma SkipInv(w: World)
    requires Inv(w) && Enabled(w, Skip)
    ensures Inv(Next(w, Skip))
  {
    hide Slot, TableInv;
    var w' := Next(w, Skip);
    forall j | 0 <= j < |w'.d.todo| ensures w'.d.todo[j] == w.d.todo[j + 1] { }
    forall j | 0 <= j < |w'.d.todo| && w'.d.todo[j].status != NORMAL ensures DaemonOwns(w', KeyOf(w'.d.todo[j])) {
      assert DaemonOwns(w, KeyOf(w.d.todo[j + 1]));
    }
  }

  lemma StartInv(w: World, image: seq<Byte>)
    requires Inv(w) && Enabled(w, Start(image))
    ensures Inv(Next(w, Start(image)))
  {
    hide Slot, TableInv;
    var w' := Next(w, Start(image));
    forall j | 0 <= j < |w'.d.todo| ensures w'.d.todo[j] == w.d.todo[j + 1] { }
    forall j | 0 <= j < |w'.d.todo| && w'.d.todo[j].status != NORMAL ensures DaemonOwns(w', KeyOf(w'.d.todo[j])) {
      assert DaemonOwns(w, KeyOf(w.d.todo[j + 1]));
    }
    assert DaemonOwns(w, KeyOf(w.d.todo[0]));
    assert image[..0] == [];
  }

  /** After a chunk the prefix written so far has grown by it. */
  lemma ChunkHolds(b: seq<Byte>, image: seq<Byte>, off: nat, n: nat)
    requires off + n <= |image| <= |b| && image[..off] <= b
    ensures image[..off + n] <= Patched(b, off, image[off..off + n])
  {
    var r := Patched(b, off, image[off..off + n]);
    assert r[..off + n] == r[..off] + r[off..off + n];
    assert image[..off + n] == image[..off] + image[off..off + n];
  }

  lemma ChunkSlot(w: World) returns (i: nat)
    requires Inv(w) && Enabled(w, Chunk)
    ensures var u, w' := w.d.at.value, Next(w, Chunk); var p := NextPacket(u);
      && i == Slot(u.k) && i < MAX_EXE && i !in w.running && Used(w.t, i)
      && w.t[i].status != NORMAL && w.t[i].status != UN_USED && KeyOf(w.t[i]) == u.k
      && w'.t[i].status == p.status && KeyOf(w'.t[i]) == u.k
      && u.image[..u.offset + |p.payload|] <= w'.t[i].block
      && (forall j :: 0 <= j < MAX_EXE && j != i ==> w'.t[j] == w.t[j])
      && TableInv(w'.t, w'.added)
  {
    hide Slot;
    var u := w.d.at.value;
    var p := NextPacket(u);
    i := Slot(u.k);
    assert |w.t[i].block| == BLOCK_BYTES;
    StoreKeeps(w.t, w.added, p);
    ChunkHolds(w.t[i].block, u.image, u.offset, |p.payload|);
  }

  lemma ChunkInv(w: World)
    requires Inv(w) && Enabled(w, Chunk)
    ensures Inv(Next(w, Chunk)) && DaemonMoves(w.t, Next(w, Chunk).t) && KeysKept(w.t, Next(w, Chunk).t)
  {
    hide Slot, TableInv, Patched, StoreStep;
    var u, w' := w.d.at.value, Next(w, Chunk);
    var i := ChunkSlot(w);
    if NextPacket(u).status == NORMAL {
      assert u.image[..|u.image|] == u.image;
    }
    assert NormalIsWhole(w') && RunningIsNormal(w');
    forall j | 0 <= j < |w'.d.todo| && w'.d.todo[j].status != NORMAL ensures DaemonOwns(w', KeyOf(w'.d.todo[j])) {
      assert DaemonOwns(w, KeyOf(w.d.todo[j]));
    }
  }

  lemma BeginInv(w: World, i: nat)
    requires Inv(w) && Enabled(w, Begin(i))
    ensures Inv(Next(w, Begin(i))) && KernelMoves(w.t, Next(w, Begin(i)).t)
  {
    hide Slot, TableInv;
  }

  lemma AddAllowed(w: World, k: Key, mem: seq<Byte>)
    requires Enabled(w, Add(k, mem))
    ensures |mem| == BLOCK_BYTES
  {
  }

  /** Every step keeps the invariant, and moves a status only out of its own side's states. */
  lemma StepKeeps(w: World, ev: Event)
    requires Inv(w) && Enabled(w, ev)
    ensures Inv(Next(w, ev))
    ensures ByKernel(ev) ==> KernelMoves(w.t, Next(w, ev).t)
    ensures !ByKernel(ev) ==> DaemonMoves(w.t, Next(w, ev).t)
    ensures KeysKept(w.t, Next(w, ev).t)
  {
    hide Inv, Enabled, Slot, StoreStep, AddStep, ReturnStep;
    match ev
    case Add(k, mem) => AddAllowed(w, k, mem); AddInv(w, k, mem);
    case Begin(i) => BeginInv(w, i);
    case End(i, arg, ip, legal) => EndInv(w, i, arg, ip, legal);
    case Show => ShowInv(w);
    case Skip => SkipInv(w);
    case Start(image) => StartInv(w, image);
    case Chunk => ChunkInv(w);
  }

  // ---------------------------------------------------------------- whole runs

  ghost predicate Run(w: World, evs: seq<Event>, v: World)
    decreases |evs|
  {
    if evs == [] then w == v else Enabled(w, evs[0]) && Run(Next(w, evs[0]), evs[1..], v)
  }

  ghost predicate Initial(w: World) {
    && (forall i :: 0 <= i < MAX_EXE ==> w.t[i].status == UN_USED)
    && w.added == 0 && w.running == map[] && w.loaded == map[] && w.d == Daemon([], None)
  }

  lemma InitialInv(w: World)
    requires Initial(w)
    ensures Inv(w)
  {
    assert UsedSlots(w.t) == {};
  }

  /**
   * Over every interleaving: the code of a `normal` slot is one complete image, never a mixture of
   * chunks; a running slot still holds the image it started with; keys stay where they are.
   */
  lemma {:induction false} RunKeeps(w: World, evs: seq<Event>, v: World)
    requires Inv(w) && Run(w, evs, v)
    ensures Inv(v)
    ensures KeysKept(w.t, v.t)
    decreases |evs|
  {
    hide Inv, Next, Enabled;
    if evs != [] {
      StepKeeps(w, evs[0]);
      RunKeeps(Next(w, evs[0]), evs[1..], v);
    }
  }

  lemma NormalNeverMixed(w: World, evs: seq<Event>, v: World, i: nat)
    requires Initial(w) && Run(w, evs, v) && Used(v.t, i) && v.t[i].status == NORMAL
    ensures i in v.loaded && v.loaded[i] <= v.t[i].block
    ensures i in v.running ==> v.running[i] <= v.t[i].block
  {
    InitialInv(w);
    RunKeeps(w, evs, v);
  }

  /** An upload at hand always fits: the daemon is never stuck in the middle of one. */
  lemma ChunkFits(w: World)
    requires Inv(w) && w.d.at.Some?
    ensures Enabled(w, Chunk)
  {
    hide Slot;
    var u := w.d.at.value;
    assert |w.t[Slot(u.k)].block| == BLOCK_BYTES;
  }

  // ---------------------------------------------------------------- a report reaches the daemon

  /** Slot i holds a reported entry that nobody touches before the daemon reads the table again. */
  ghost predicate Waiting(w: World, i: nat, e: Exe) {
    && i < MAX_EXE && w.t[i] == e && e.status != NORMAL && e.status != UN_USED && Slot(KeyOf(e)) == i && i !in w.running
    && (forall j :: 0 <= j < |w.d.todo| && w.d.todo[j].status != NORMAL ==> KeyOf(w.d.todo[j]) != KeyOf(e))
    && (w.d.at.Some? ==> w.d.at.value.k != KeyOf(e))
  }

  /** The entry a round leaves when it reports is such an entry. */
  lemma ReportWaits(w: World, i: nat, arg: Word, ip: Word, legal: bool)
    requires Inv(w) && Enabled(w, End(i, arg, ip, legal)) && Reports(w.t[i], arg)
    ensures var w' := Next(w, End(i, arg, ip, legal));
      Waiting(w', i, w'.t[i]) && Rounded(w.t[i], w'.t[i], arg, ip, legal)
  {
    hide Slot;
    ReturnRounds(w.t[i], arg, ip, legal);
    var w' := Next(w, End(i, arg, ip, legal));
    var e := w'.t[i];
    assert w.t[i].status == NORMAL && Used(w.t, i) && KeyOf(e) == KeyOf(w.t[i]);
    forall j | 0 <= j < |w'.d.todo| && w'.d.todo[j].status != NORMAL ensures KeyOf(w'.d.todo[j]) != KeyOf(e) {
      assert DaemonOwns(w, KeyOf(w.d.todo[j]));
    }
  }

  lemma WaitStep(w: World, ev: Event, i: nat, e: Exe)
    requires Inv(w) && Enabled(w, ev) && Waiting(w, i, e) && ev != Show
    ensures Waiting(Next(w, ev), i, e)
  {
    hide Slot, TableInv, Patched;
    var w' := Next(w, ev);
    match ev
    case Add(k, mem) => assert Slot(k) == i ==> w'.t == w.t;
    case Begin(j) =>
    case End(j, arg, ip, legal) =>
    case Skip => forall j | 0 <= j < |w'.d.todo| ensures w'.d.todo[j] == w.d.todo[j + 1] { }
    case Start(image) => forall j | 0 <= j < |w'.d.todo| ensures w'.d.todo[j] == w.d.todo[j + 1] { }
    case Chunk => assert KeyOf(w.t[i]) != w.d.at.value.k;
  }

  /**
   * Whatever happens between a report and the next time the daemon reads the table, it then finds
   * the entry as the round left it: the miss it decodes is the one the code left with.
   */
  lemma {:induction false} ReportReaches(w: World, evs: seq<Event>, v: World, i: nat, e: Exe)
    requires Inv(w) && Waiting(w, i, e) && Run(w, evs, v) && Show !in evs && Enabled(v, Show)
    ensures e in Next(v, Show).d.todo
    decreases |evs|
  {
    hide Inv, Enabled, Waiting, Next;
    if evs == [] {
      WaitingShown(v, i, e);
    } else {
      StepKeeps(w, evs[0]);
      WaitStep(w, evs[0], i, e);
      ReportReaches(Next(w, evs[0]), evs[1..], v, i, e);
    }
  }

  lemma WaitingShown(w: World, i: nat, e: Exe)
    requires Waiting(w, i, e) && Enabled(w, Show)
    ensures e in Next(w, Show).d.todo
  {
    hide Slot, Shown;
    var at := ShownSlots(w.t, 0);
    assert Used(w.t, i);
    var j :| 0 <= j < |at| && at[j] == i;
    assert Shown(w.t, 0)[j] == e;
  }

  // ---------------------------------------------------------------- the daemon's upload loop

  /** The packets the daemon sends for an image, from an offset on. */
  function Packets(key: Key, image: seq<Byte>, offset: nat): seq<Packet>
    requires offset <= |image|
    decreases |image| - offset
  {
    if offset == |image| then []
    else
      var p := NextPacket(Upload(key, image, offset));
      [p] + Packets(key, image, offset + |p.payload|)
  }

  predicate InBlock(p: Packet) { p.offset + |p.payload| <= BLOCK_BYTES }

  /** Every packet stays inside a code block if and only if the image does; the daemon reads up to 4096*256 bytes. */
  lemma {:induction false} PacketsFit(key: Key, image: seq<Byte>, offset: nat)
    requires offset <= |image| && (offset == |image| ==> |image| <= BLOCK_BYTES)
    ensures (forall p :: p in Packets(key, image, offset) ==> InBlock(p)) <==> |image| <= BLOCK_BYTES
    decreases |image| - offset
  {
    hide InBlock, NextPacket;
    if offset < |image| {
      var first := NextPacket(Upload(key, image, offset));
      var next := offset + |first.payload|;
      FirstFits(key, image, offset);
      OneFirst(first, Packets(key, image, next));
      if next < |image| { PacketsFit(key, image, next); } else { assert Packets(key, image, next) == []; }
    }
  }

  lemma FirstFits(key: Key, image: seq<Byte>, offset: nat)
    requires offset < |image|
    ensures var p := NextPacket(Upload(key, image, offset));
      offset < offset + |p.payload| <= |image| && (InBlock(p) <==> offset + |p.payload| <= BLOCK_BYTES)
  {
  }

  lemma OneFirst(first: Packet, rest: seq<Packet>)
    ensures (forall p :: p in [first] + rest ==> InBlock(p)) <==> InBlock(first) && forall p :: p in rest ==> InBlock(p)
  {
    hide InBlock;
    if forall p :: p in [first] + rest ==> InBlock(p) {
      assert first in [first] + rest;
      forall p | p in rest ensures InBlock(p) { assert p in [first] + rest; }
    }
  }

  /**
   * `write_sys`: send an image in packets of at most 4000 bytes.  A nonempty image ends up at the
   * start of the block with the slot `normal`; an empty one sends nothing.
   */
  method WriteSys(k: Kernel, key: Key, image: seq<Byte>) returns (ghost sent: seq<Packet>)
    requires k.Valid() && |image| <= BLOCK_BYTES
    requires Used(k.exes[..], Slot(key)) && KeyOf(k.exes[Slot(key)]) == key
    modifies k.exes
    ensures k.Valid() && k.added == old(k.added)
    ensures forall j :: 0 <= j < MAX_EXE && j != Slot(key) ==> k.exes[j] == old(k.exes[j])
    ensures var e := old(k.exes[Slot(key)]);
      k.exes[Slot(key)] == if image == [] then e else e.(status := NORMAL, block := image + e.block[|image|..])
    ensures sent == Packets(key, image, 0)
  {
    hide Slot, Packets, NextPacket, Patched, TableInv, Uploaded;
    var i := Slot(key);
    ghost var e := k.exes[i];
    BlockSize(k.exes[..], k.added, i);
    var offset, rest: nat := 0, |image|;
    sent := [];
    UploadStarts(e, image);
    while rest > 0
      invariant offset + rest == |image| && k.Valid() && k.added == old(k.added)
      invariant sent + Packets(key, image, offset) == Packets(key, image, 0)
      invariant forall j :: 0 <= j < MAX_EXE && j != i ==> k.exes[j] == old(k.exes[j])
      invariant Uploaded(e, k.exes[i], image, offset)
      decreases rest
    {
      ghost var p := NextPacket(Upload(key, image, offset));
      PacketIs(Upload(key, image, offset));
      PacketsStep(key, image, offset);
      UploadGrows(e, k.exes[i], image, offset, key);
      var n := SendPacket(k, key, image, offset, rest);
      sent := sent + [p];
      rest, offset := rest - n, offset + n;
    }
    UploadEnds(e, k.exes[i], image);
    NoPacket(key, image);
  }

  /** The entry when the first `offset` bytes have been written. */
  ghost predicate Uploaded(e: Exe, x: Exe, image: seq<Byte>, offset: nat) {
    && offset <= |image| <= |e.block| && KeyOf(x) == KeyOf(e) && x.status != UN_USED
    && x == (if offset == 0 then e
             else e.(status := if offset == |image| then NORMAL else UN_INIT,
                     block := image[..offset] + e.block[offset..]))
  }

  lemma UploadStarts(e: Exe, image: seq<Byte>)
    requires |image| <= |e.block| && e.status != UN_USED
    ensures Uploaded(e, e, image, 0)
  {
  }

  lemma UploadGrows(e: Exe, x: Exe, image: seq<Byte>, offset: nat, key: Key)
    requires Uploaded(e, x, image, offset) && offset < |image|
    ensures KeyOf(x) == KeyOf(e) && x.status != UN_USED && |x.block| == |e.block|
    ensures var p := NextPacket(Upload(key, image, offset));
      && offset + |p.payload| <= |x.block|
      && Uploaded(e, x.(status := p.status, block := Patched(x.block, offset, p.payload)), image,
                  offset + |p.payload|)
  {
    hide Patched;
    var p := NextPacket(Upload(key, image, offset));
    assert x.block == image[..offset] + e.block[offset..];
    GrowPrefix(image, e.block, offset, |p.payload|);
  }

  lemma UploadEnds(e: Exe, x: Exe, image: seq<Byte>)
    requires Uploaded(e, x, image, |image|)
    ensures x == if image == [] then e else e.(status := NORMAL, block := image + e.block[|image|..])
  {
    assert image[..|image|] == image;
  }

  lemma BlockSize(t: Table, added: nat, i: nat)
    requires TableInv(t, added) && Used(t, i)
    ensures |t[i].block| == BLOCK_BYTES
  {
    hide Slot;
  }

  /** One pass of the loop: header, payload and one write to the kernel. */
  method SendPacket(k: Kernel, key: Key, image: seq<Byte>, offset: nat, rest: nat) returns (n: nat)
    requires k.Valid() && 0 < rest && offset + rest == |image| <= BLOCK_BYTES
    requires Used(k.exes[..], Slot(key)) && KeyOf(k.exes[Slot(key)]) == key
    modifies k.exes
    ensures k.Valid() && n == |NextPacket(Upload(key, image, offset)).payload|
    ensures forall j :: 0 <= j < MAX_EXE && j != Slot(key) ==> k.exes[j] == old(k.exes[j])
    ensures var e, p := old(k.exes[Slot(key)]), NextPacket(Upload(key, image, offset));
      && |e.block| == BLOCK_BYTES && offset + |p.payload| <= BLOCK_BYTES
      && k.exes[Slot(key)] == e.(status := p.status, block := Patched(e.block, offset, p.payload))
  {
    hide Slot, Patched;
    ghost var t := k.exes[..];
    n := if rest <= MAX_PAY then rest else MAX_PAY;
    var p := Packet(if rest <= MAX_PAY then NORMAL else UN_INIT, key, offset, image[offset..offset + n]);
    assert |t[Slot(key)].block| == BLOCK_BYTES;
    k.SysfsStore(p);
    assert forall j :: 0 <= j < MAX_EXE ==> k.exes[j] == k.exes[..][j] && t[j] == old(k.exes[j]);
  }

  lemma PacketIs(u: Upload)
    requires u.offset < |u.image|
    ensures var p := NextPacket(u); var rest := |u.image| - u.offset;
      && 0 < |p.payload| <= rest && p.payload == u.image[u.offset..u.offset + |p.payload|]
      && p.status == (if |p.payload| == rest then NORMAL else UN_INIT)
  {
  }

  lemma PacketsStep(key: Key, image: seq<Byte>, offset: nat)
    requires offset < |image|
    ensures var p := NextPacket(Upload(key, image, offset));
      offset + |p.payload| <= |image| && Packets(key, image, offset) == [p] + Packets(key, image, offset + |p.payload|)
  {
  }

  lemma NoPacket(key: Key, image: seq<Byte>)
    ensures Packets(key, image, |image|) == []
  {
  }

  lemma GrowPrefix(image: seq<Byte>, b: seq<Byte>, offset: nat, n: nat)
    requires offset + n <= |image| <= |b|
    ensures Patched(image[..offset] + b[offset..], offset,
                    image[offset..offset + n]) == image[..offset + n] + b[offset + n..]
  {
    assert (image[..offset] + b[offset..])[..offset] == image[..offset];
    assert (image[..offset] + b[offset..])[offset + n..] == b[offset + n..];
    assert image[..offset] + image[offset..offset + n] == image[..offset + n];
  }
}
